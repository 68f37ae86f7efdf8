/**
 * app/api/admin/create-admin/route.ts: an administrator creates another
 * administrator.  The checks run in a fixed order (requester given, requester
 * exists, fields given, e-mail pattern, password length, e-mail not yet
 * used), and only when all pass is one user inserted, with the e-mail
 * lower-cased, the name trimmed and the password hashed.
 */
module CreateAdmin {
  import opened Wrappers
  import opened Text
  import opened Auth
  import Seqs

  const MinPasswordLength := 8

  datatype CreateReply =
    | MissingRequester | NotAnAdmin | MissingFields | InvalidEmail | WeakPassword | EmailTaken
    | Created(user: User)

  function StatusCode(r: CreateReply): nat {
    match r
    case MissingRequester => 401
    case NotAnAdmin => 403
    case MissingFields => 400
    case InvalidEmail => 400
    case WeakPassword => 400
    case EmailTaken => 409
    case Created(_) => 200
  }

  /** `findUnique({ where: { id } })`. */
  function FindId(users: seq<User>, id: string): (r: Option<nat>)
    ensures r.Some? ==> r.value < |users| && users[r.value].id == id
    ensures r.None? ==> forall i :: 0 <= i < |users| ==> users[i].id != id
  {
    Seqs.FindLast(users, (u: User) => u.id, id)
  }

  /** The request body. */
  datatype Request = Request(userId: Option<string>, email: Option<string>, password: Option<string>, name: Option<string>)

  datatype Outcome = Outcome(reply: CreateReply, users: seq<User>)

  /** The user the route inserts; `hash` stands for `hashPassword`, `newId` for the id the database gives. */
  function NewUser(r: Request, newId: string, hash: string -> string): User
    requires r.email.Some? && r.name.Some? && r.password.Some?
  {
    User(newId, ToLower(r.email.value), Trim(r.name.value), hash(r.password.value))
  }

  predicate FieldsGiven(r: Request) {
    Present(r.email) && Present(r.password) && Present(r.name)
  }

  /** What one `POST` does. */
  function Create(users: seq<User>, r: Request, newId: string, hash: string -> string): (o: Outcome)
    ensures !o.reply.Created? ==> o.users == users
    ensures o.reply == MissingRequester <==> !Present(r.userId)
    ensures o.reply == NotAnAdmin <==> Present(r.userId) && FindId(users, r.userId.value).None?
    ensures o.reply == MissingFields <==>
      Present(r.userId) && FindId(users, r.userId.value).Some? && !FieldsGiven(r)
    ensures o.reply == InvalidEmail <==>
      Present(r.userId) && FindId(users, r.userId.value).Some? && FieldsGiven(r) && !ValidateEmail(r.email.value)
    ensures o.reply == WeakPassword <==>
      Present(r.userId) && FindId(users, r.userId.value).Some? && FieldsGiven(r) && ValidateEmail(r.email.value)
      && |r.password.value| < MinPasswordLength
    ensures o.reply == EmailTaken <==>
      Present(r.userId) && FindId(users, r.userId.value).Some? && FieldsGiven(r) && ValidateEmail(r.email.value)
      && |r.password.value| >= MinPasswordLength && GetUserByEmail(users, r.email.value).Some?
    ensures o.reply.Created? ==>
      && FieldsGiven(r) && ValidateEmail(r.email.value) && |r.password.value| >= MinPasswordLength
      && GetUserByEmail(users, r.email.value).None?
      && o.reply.user == NewUser(r, newId, hash) && o.users == users + [o.reply.user]
  {
    if !Present(r.userId) then Outcome(MissingRequester, users)
    else if FindId(users, r.userId.value).None? then Outcome(NotAnAdmin, users)
    else if !FieldsGiven(r) then Outcome(MissingFields, users)
    else if !ValidateEmail(r.email.value) then Outcome(InvalidEmail, users)
    else if |r.password.value| < MinPasswordLength then Outcome(WeakPassword, users)
    else if GetUserByEmail(users, r.email.value).Some? then Outcome(EmailTaken, users)
    else
      var u := NewUser(r, newId, hash);
      Outcome(Created(u), users + [u])
  }

  /** Stored addresses are lower-case and pairwise distinct. */
  predicate WellKeyed(users: seq<User>) {
    && (forall i :: 0 <= i < |users| ==> ToLower(users[i].email) == users[i].email)
    && (forall i, j :: 0 <= i < j < |users| ==> users[i].email != users[j].email)
  }

  /** The route keeps the user table well keyed. */
  lemma CreateKeepsWellKeyed(users: seq<User>, r: Request, newId: string, hash: string -> string)
    requires WellKeyed(users)
    ensures WellKeyed(Create(users, r, newId, hash).users)
  {
    var o := Create(users, r, newId, hash);
    if o.reply.Created? {
      var e := r.email.value;
      ToLowerIdempotent(e);
      assert forall i :: 0 <= i < |users| ==> users[i].email != ToLower(e);
      var after := o.users;
      forall i, j | 0 <= i < j < |after| ensures after[i].email != after[j].email {
        assert after[i] == users[i];
      }
    }
  }

  /** The new administrator is found by its address, in any case of its ASCII letters. */
  lemma CreatedIsFound(users: seq<User>, r: Request, newId: string, hash: string -> string, e: string)
    requires Create(users, r, newId, hash).reply.Created?
    requires |e| == |r.email.value| && forall i :: 0 <= i < |e| ==> LowerChar(e[i]) == LowerChar(r.email.value[i])
    ensures var o := Create(users, r, newId, hash);
      GetUserByEmail(o.users, e) == Some(o.reply.user)
  {
    var o := Create(users, r, newId, hash);
    LookupIgnoresCase(o.users, e, r.email.value);
    FoundAfterAppend(users, r.email.value, o.reply.user);
  }

  lemma {:induction false} FoundAfterAppend(users: seq<User>, e: string, u: User)
    requires GetUserByEmail(users, e).None? && u.email == ToLower(e)
    ensures GetUserByEmail(users + [u], e) == Some(u)
  {
    if users != [] {
      assert (users + [u])[1..] == users[1..] + [u];
      FoundAfterAppend(users[1..], e, u);
    }
  }

  /** A second request for the same address, in any case, is refused as taken once the rest passes. */
  lemma SecondCreateTaken(users: seq<User>, r1: Request, r2: Request, id1: string, id2: string, hash: string -> string)
    requires Create(users, r1, id1, hash).reply.Created?
    requires Present(r2.userId) && FindId(Create(users, r1, id1, hash).users, r2.userId.value).Some?
    requires FieldsGiven(r2) && ValidateEmail(r2.email.value) && |r2.password.value| >= MinPasswordLength
    requires |r2.email.value| == |r1.email.value|
    requires forall i :: 0 <= i < |r1.email.value| ==> LowerChar(r2.email.value[i]) == LowerChar(r1.email.value[i])
    ensures var after := Create(users, r1, id1, hash).users;
      Create(after, r2, id2, hash) == Outcome(EmailTaken, after)
  {
    CreatedIsFound(users, r1, id1, hash, r2.email.value);
  }

  /** The `user` table. */
  class UserTable {
    var users: seq<User>

    ghost predicate Valid()
      reads this
    {
      WellKeyed(users)
    }

    constructor(initial: seq<User>)
      requires WellKeyed(initial)
      ensures Valid() && users == initial
    {
      users := initial;
    }

    /** `POST`. */
    method Post(r: Request, newId: string, hash: string -> string) returns (reply: CreateReply)
      requires Valid()
      modifies this
      ensures Valid()
      ensures var o := Create(old(users), r, newId, hash);
        reply == o.reply && users == o.users
    {
      CreateKeepsWellKeyed(users, r, newId, hash);
      if !Present(r.userId) {
        return MissingRequester;
      }
      var requester := FindId(users, r.userId.value);
      if requester.None? {
        return NotAnAdmin;
      }
      if !FieldsGiven(r) {
        return MissingFields;
      }
      if !ValidateEmail(r.email.value) {
        return InvalidEmail;
      }
      if |r.password.value| < MinPasswordLength {
        return WeakPassword;
      }
      var existing := GetUserByEmail(users, r.email.value);
      if existing.Some? {
        return EmailTaken;
      }
      var hashed := hash(r.password.value);
      var u := User(newId, ToLower(r.email.value), Trim(r.name.value), hashed);
      users := users + [u];
      reply := Created(u);
    }
  }
}
