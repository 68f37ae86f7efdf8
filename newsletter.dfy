/**
 * app/api/newsletter/subscribe/route.ts: subscribing an address to the blog
 * newsletter.  The address is required and must pass the e-mail pattern; it
 * is stored lower-cased, an inactive subscription for it is reactivated, an
 * active one is refused, and otherwise a new active subscriber is added with
 * its trimmed name, or none when that is blank.
 */
module Newsletter {
  import opened Wrappers
  import opened Text
  import opened Auth
  import Seqs

  /** A row of `newsletterSubscriber`, keyed by its e-mail. */
  datatype Subscriber = Subscriber(email: string, name: Option<string>, active: bool)

  datatype SubscribeReply = EmailRequired | InvalidEmail | AlreadySubscribed | Reactivated | Subscribed

  function StatusCode(r: SubscribeReply): nat {
    match r
    case EmailRequired => 400
    case InvalidEmail => 400
    case AlreadySubscribed => 409
    case Reactivated => 200
    case Subscribed => 201
  }

  /** The e-mail column is unique. */
  predicate UniqueEmails(rows: seq<Subscriber>) {
    forall i, j :: 0 <= i < j < |rows| ==> rows[i].email != rows[j].email
  }

  /** `findUnique({ where: { email } })`. */
  function FindEmail(rows: seq<Subscriber>, email: string): (r: Option<nat>)
    ensures r.Some? ==> r.value < |rows| && rows[r.value].email == email
    ensures r.Some? ==> forall i :: r.value < i < |rows| ==> rows[i].email != email
    ensures r.None? ==> forall i :: 0 <= i < |rows| ==> rows[i].email != email
  {
    Seqs.FindLast(rows, (r: Subscriber) => r.email, email)
  }

  /** `name?.trim() || null`. */
  function StoredName(name: Option<string>): (r: Option<string>)
    ensures r.Some? <==> name.Some? && Trim(name.value) != ""
    ensures r.Some? ==> r.value == Trim(name.value)
  {
    if name.Some? && Trim(name.value) != "" then Some(Trim(name.value)) else None
  }

  datatype Outcome = Outcome(reply: SubscribeReply, rows: seq<Subscriber>)

  /** What one request does to the table. */
  function Subscribe(rows: seq<Subscriber>, email: Option<string>, name: Option<string>): (o: Outcome)
    ensures o.reply == EmailRequired <==> !Present(email)
    ensures o.reply == InvalidEmail <==> Present(email) && !ValidateEmail(email.value)
    ensures o.reply in {EmailRequired, InvalidEmail, AlreadySubscribed} ==> o.rows == rows
    ensures o.reply == Subscribed ==>
      FindEmail(rows, ToLower(email.value)).None? && o.rows == rows + [Subscriber(ToLower(email.value), StoredName(name), true)]
    ensures o.reply == Reactivated ==>
      var k := FindEmail(rows, ToLower(email.value));
      k.Some? && !rows[k.value].active && o.rows == rows[k.value := rows[k.value].(active := true)]
    ensures o.reply == AlreadySubscribed ==>
      var k := FindEmail(rows, ToLower(email.value));
      k.Some? && rows[k.value].active
  {
    if !Present(email) then Outcome(EmailRequired, rows)
    else if !ValidateEmail(email.value) then Outcome(InvalidEmail, rows)
    else
      var key := ToLower(email.value);
      match FindEmail(rows, key)
      case Some(k) =>
        if rows[k].active then Outcome(AlreadySubscribed, rows)
        else Outcome(Reactivated, rows[k := rows[k].(active := true)])
      case None => Outcome(Subscribed, rows + [Subscriber(key, StoredName(name), true)])
  }

  /** Every request keeps the e-mail column unique. */
  lemma SubscribeKeepsUnique(rows: seq<Subscriber>, email: Option<string>, name: Option<string>)
    requires UniqueEmails(rows)
    ensures UniqueEmails(Subscribe(rows, email, name).rows)
  {
  }

  /** After an accepted request the lower-cased address has an active subscription. */
  lemma SubscribedIsActive(rows: seq<Subscriber>, email: Option<string>, name: Option<string>)
    requires Present(email) && ValidateEmail(email.value)
    ensures var after := Subscribe(rows, email, name).rows;
      var k := FindEmail(after, ToLower(email.value));
      k.Some? && after[k.value].active
  {
    var key := ToLower(email.value);
    var after := Subscribe(rows, email, name).rows;
    match FindEmail(rows, key)
    case Some(k) =>
      assert after[k].email == key && after[k].active;
      FoundIsLast(after, key, k);
    case None =>
      assert after[|rows|].email == key && after[|rows|].active;
      FoundIsLast(after, key, |rows|);
  }

  /** The lookup finds the last row with that address (in a table keyed by e-mail, the only one). */
  lemma FoundIsLast(rows: seq<Subscriber>, email: string, k: nat)
    requires k < |rows| && rows[k].email == email
    requires forall i :: k < i < |rows| ==> rows[i].email != email
    ensures FindEmail(rows, email) == Some(k)
  {
  }

  /** Rows for other addresses are never touched. */
  lemma OthersUnchanged(rows: seq<Subscriber>, email: Option<string>, name: Option<string>, i: nat)
    requires i < |rows| && (Present(email) ==> rows[i].email != ToLower(email.value))
    ensures i < |Subscribe(rows, email, name).rows| && Subscribe(rows, email, name).rows[i] == rows[i]
  {
  }

  /** Subscribing an accepted address again, in the same or any other ASCII case, is refused and changes nothing. */
  lemma SubscribeTwiceRefused(rows: seq<Subscriber>, e1: string, e2: string, n1: Option<string>, n2: Option<string>)
    requires e1 != "" && ValidateEmail(e1)
    requires |e1| == |e2| && forall i :: 0 <= i < |e1| ==> LowerChar(e1[i]) == LowerChar(e2[i])
    ensures var after := Subscribe(rows, Some(e1), n1).rows;
      Subscribe(after, Some(e2), n2) == Outcome(AlreadySubscribed, after)
  {
    var after := Subscribe(rows, Some(e1), n1).rows;
    SubscribedIsActive(rows, Some(e1), n1);
    CaseInsensitive(after, e1, e2, n2);
  }

  /** Addresses that differ only in the case of ASCII letters get the same reply and the same table, valid or not. */
  lemma CaseInsensitive(rows: seq<Subscriber>, e1: string, e2: string, name: Option<string>)
    requires |e1| == |e2| && forall i :: 0 <= i < |e1| ==> LowerChar(e1[i]) == LowerChar(e2[i])
    ensures Subscribe(rows, Some(e1), name) == Subscribe(rows, Some(e2), name)
  {
    assert ToLower(e1) == ToLower(e2);
    ValidateIgnoresCase(e1, e2);
  }

  /** The `newsletterSubscriber` table. */
  class SubscriberTable {
    var rows: seq<Subscriber>

    ghost predicate Valid()
      reads this
    {
      UniqueEmails(rows)
    }

    constructor()
      ensures Valid() && rows == []
    {
      rows := [];
    }

    /** `POST`. */
    method Post(email: Option<string>, name: Option<string>) returns (reply: SubscribeReply)
      requires Valid()
      modifies this
      ensures Valid()
      ensures reply == Subscribe(old(rows), email, name).reply && rows == Subscribe(old(rows), email, name).rows
    {
      if !Present(email) {
        return EmailRequired;
      }
      if !ValidateEmail(email.value) {
        return InvalidEmail;
      }
      var key := ToLower(email.value);
      var existing := FindEmail(rows, key);
      if existing.Some? {
        var k := existing.value;
        if rows[k].active {
          return AlreadySubscribed;
        }
        rows := rows[k := rows[k].(active := true)];
        return Reactivated;
      }
      rows := rows + [Subscriber(key, StoredName(name), true)];
      reply := Subscribed;
    }
  }
}
