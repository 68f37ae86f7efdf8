/**
 * app/api/contact/route.ts: the contact form.  The submission passes three
 * checks in a fixed order (all five fields given, the e-mail pattern, the
 * phone pattern on the number with its whitespace removed); the first that
 * fails decides the 400 answer and nothing is stored.  A submission that
 * passes is stored with every field trimmed and the e-mail lower-cased, and
 * two messages are handed to the provider: a confirmation to the sender and
 * a notification to the administrator.
 */
module Contact {
  import opened Wrappers
  import opened Text
  import opened Auth
  import opened PhonePattern
  import opened EmailTemplates
  import opened EmailProcessor

  /** The JSON body of the request. */
  datatype ContactForm = ContactForm(name: Option<string>, email: Option<string>, phone: Option<string>,
                                     subject: Option<string>, message: Option<string>)

  /** The normalised values the route stores. */
  datatype ContactEntry = ContactEntry(name: string, email: string, phone: string, subject: string, message: string)

  datatype ContactRecord = ContactRecord(id: nat, entry: ContactEntry)

  datatype Rejection = MissingFields | InvalidEmail | InvalidPhone

  predicate AllGiven(f: ContactForm) {
    Present(f.name) && Present(f.email) && Present(f.phone) && Present(f.subject) && Present(f.message)
  }

  /** The trimmed and lower-cased values of a complete form. */
  function Normalise(f: ContactForm): (e: ContactEntry)
    requires AllGiven(f)
  {
    ContactEntry(Trim(f.name.value), ToLower(Trim(f.email.value)), Trim(f.phone.value), Trim(f.subject.value),
                 Trim(f.message.value))
  }

  /** The checks of the route, in their order. */
  function Validate(f: ContactForm): (r: Result<ContactEntry, Rejection>)
    ensures r == Err(MissingFields) <==> !AllGiven(f)
    ensures r == Err(InvalidEmail) <==> AllGiven(f) && !ValidateEmail(f.email.value)
    ensures r == Err(InvalidPhone) <==> AllGiven(f) && ValidateEmail(f.email.value) && !IsPhone(RemoveSpaces(f.phone.value))
    ensures r.Ok? <==> AllGiven(f) && ValidateEmail(f.email.value) && IsPhone(RemoveSpaces(f.phone.value))
    ensures r.Ok? ==> r.value == Normalise(f)
  {
    if !AllGiven(f) then Err(MissingFields)
    else if !ValidateEmail(f.email.value) then Err(InvalidEmail)
    else if !IsPhone(RemoveSpaces(f.phone.value)) then Err(InvalidPhone)
    else Ok(Normalise(f))
  }

  /** An address that passes the pattern has no whitespace to trim: it is stored lower-cased and otherwise as given. */
  lemma StoredEmailIsLowered(f: ContactForm)
    requires Validate(f).Ok?
    ensures Validate(f).value.email == ToLower(f.email.value)
  {
    ValidEmailFacts(f.email.value);
    TrimNoop(f.email.value);
  }

  /** Every stored field is free of surrounding whitespace. */
  lemma StoredFieldsTrimmed(f: ContactForm)
    requires AllGiven(f)
    ensures var e := Normalise(f);
      && Trim(e.name) == e.name && Trim(e.phone) == e.phone && Trim(e.subject) == e.subject && Trim(e.message) == e.message
  {
    TrimIdempotent(f.name.value);
    TrimIdempotent(f.phone.value);
    TrimIdempotent(f.subject.value);
    TrimIdempotent(f.message.value);
  }

  /** The stored number, with its whitespace removed, is the number that was checked. */
  lemma StoredPhoneStillMatches(f: ContactForm)
    requires Validate(f).Ok?
    ensures IsPhone(RemoveSpaces(Validate(f).value.phone))
  {
    RemoveSpacesIgnoresTrim(f.phone.value);
  }

  /** The two messages of an accepted submission: the confirmation to the sender and the notification to the administrator. */
  function ContactEmails(e: ContactEntry, cfg: Config): (sends: seq<OutgoingEmail>)
    ensures |sends| == 2
    ensures sends[0].to == [e.email] && sends[0].subject == ContactConfirmationSubject
    ensures sends[1].to == [AdminAddress(cfg)] && PrefixedBy(sends[1].subject, ContactAdminPrefix, e.subject)
    ensures sends[0].from == sends[1].from == FromAddress(cfg)
  {
    var confirmation := ContactConfirmation(e.name, e.subject);
    var notification := ContactAdminNotification(e.name, e.email, e.phone, e.subject, e.message);
    [OutgoingEmail(FromAddress(cfg), [e.email], confirmation.subject, Rendered(confirmation.html)),
     OutgoingEmail(FromAddress(cfg), [AdminAddress(cfg)], notification.subject, Rendered(notification.html))]
  }

  datatype ContactReply = Rejected(reason: Rejection) | Saved(id: nat) | Duplicate

  function StatusCode(r: ContactReply): nat {
    match r
    case Rejected(_) => 400
    case Saved(_) => 200
    case Duplicate => 409
  }

  /** The answer, the stored record and the messages of one request; `id` is the id the insert gives the row. */
  datatype Submission = Submission(reply: ContactReply, stored: Option<ContactRecord>, sends: seq<OutgoingEmail>)

  /**
   * `POST` without the table.  `conflict` says whether the database rejects
   * the insert with a unique-constraint error (P2002); the messages are sent
   * only after the row is stored.
   */
  function Handle(f: ContactForm, cfg: Config, id: nat, conflict: bool): (s: Submission)
    ensures s.reply.Rejected? <==> Validate(f).Err?
    ensures s.reply.Rejected? ==> s.reply.reason == Validate(f).error
    ensures s.reply == Duplicate <==> Validate(f).Ok? && conflict
    ensures s.stored.Some? <==> s.reply.Saved?
    ensures !s.reply.Saved? ==> s.sends == []
    ensures s.reply.Saved? ==>
      && s.reply.id == id && s.stored == Some(ContactRecord(id, Validate(f).value))
      && s.sends == ContactEmails(Validate(f).value, cfg)
  {
    var checked := Validate(f);
    if checked.Err? then Submission(Rejected(checked.error), None, [])
    else if conflict then Submission(Duplicate, None, [])
    else Submission(Saved(id), Some(ContactRecord(id, checked.value)), ContactEmails(checked.value, cfg))
  }

  /** The `contact` table. */
  class ContactTable {
    var rows: seq<ContactRecord>
    var nextId: nat

    ghost predicate Valid()
      reads this
    {
      forall i :: 0 <= i < |rows| ==> rows[i].id < nextId
    }

    constructor()
      ensures Valid() && rows == []
    {
      rows, nextId := [], 0;
    }

    /** `contact.create`, when the request leads to one. */
    method Store(s: Submission)
      requires Valid() && (s.stored.Some? ==> s.stored.value.id == nextId)
      modifies this
      ensures Valid()
      ensures rows == old(rows) + (if s.stored.Some? then [s.stored.value] else [])
      ensures nextId == old(nextId) + (if s.stored.Some? then 1 else 0)
    {
      if s.stored.Some? {
        rows := rows + [s.stored.value];
        nextId := nextId + 1;
      }
    }
  }

  /** `POST`.  What the provider does with the two messages does not change the answer. */
  method Submit(table: ContactTable, f: ContactForm, cfg: Config, mail: Mailer, conflict: bool) returns (reply: ContactReply, sends: seq<OutgoingEmail>)
    requires table.Valid()
    modifies table
    ensures table.Valid()
    ensures var s := Handle(f, cfg, old(table.nextId), conflict);
      && reply == s.reply && sends == s.sends
      && table.rows == old(table.rows) + (if s.stored.Some? then [s.stored.value] else [])
      && table.nextId == old(table.nextId) + (if s.stored.Some? then 1 else 0)
  {
    var s := Handle(f, cfg, table.nextId, conflict);
    table.Store(s);
    reply, sends := s.reply, s.sends;
    if reply.Saved? {
      var confirmed := mail(0, sends[0]);
      var notified := mail(1, sends[1]);
    }
  }
}
