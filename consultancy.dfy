/**
 * app/api/consultancy/route.ts: the free-consultancy form.  The checks run in
 * this order: name, e-mail, phone and program given; the program one of the
 * three offered, compared before any trimming; the e-mail pattern; the phone
 * pattern on the number with its whitespace removed.  An accepted request is
 * stored trimmed, with the e-mail lower-cased and the optional message
 * trimmed or null, and two messages are handed to the provider.
 */
module Consultancy {
  import opened Wrappers
  import opened Text
  import opened Auth
  import opened PhonePattern
  import opened EmailTemplates
  import opened EmailProcessor

  /** `VALID_PROGRAMS`. */
  const ValidPrograms: seq<string> := ["Aviation", "Effective Communication", "Pre-Placement Training"]

  datatype ConsultancyForm = ConsultancyForm(name: Option<string>, email: Option<string>, phone: Option<string>,
                                             program: Option<string>, message: Option<string>)

  datatype ConsultancyEntry = ConsultancyEntry(name: string, email: string, phone: string, program: string,
                                               message: Option<string>)

  datatype ConsultancyRecord = ConsultancyRecord(id: nat, entry: ConsultancyEntry)

  datatype Rejection = MissingFields | InvalidProgram | InvalidEmail | InvalidPhone

  predicate RequiredGiven(f: ConsultancyForm) {
    Present(f.name) && Present(f.email) && Present(f.phone) && Present(f.program)
  }

  /** `body.message ? body.message.trim() : null`. */
  function StoredMessage(message: Option<string>): (m: Option<string>)
    ensures m.Some? <==> Present(message)
    ensures m.Some? ==> m.value == Trim(message.value)
  {
    if Present(message) then Some(Trim(message.value)) else None
  }

  function Normalise(f: ConsultancyForm): ConsultancyEntry
    requires RequiredGiven(f)
  {
    ConsultancyEntry(Trim(f.name.value), ToLower(Trim(f.email.value)), Trim(f.phone.value), Trim(f.program.value),
                     StoredMessage(f.message))
  }

  /** The checks of the route, in their order. */
  function Validate(f: ConsultancyForm): (r: Result<ConsultancyEntry, Rejection>)
    ensures r == Err(MissingFields) <==> !RequiredGiven(f)
    ensures r == Err(InvalidProgram) <==> RequiredGiven(f) && f.program.value !in ValidPrograms
    ensures r == Err(InvalidEmail) <==>
      RequiredGiven(f) && f.program.value in ValidPrograms && !ValidateEmail(f.email.value)
    ensures r == Err(InvalidPhone) <==>
      RequiredGiven(f) && f.program.value in ValidPrograms && ValidateEmail(f.email.value) && !IsPhone(RemoveSpaces(f.phone.value))
    ensures r.Ok? <==>
      RequiredGiven(f) && f.program.value in ValidPrograms && ValidateEmail(f.email.value) && IsPhone(RemoveSpaces(f.phone.value))
    ensures r.Ok? ==> r.value == Normalise(f)
  {
    if !RequiredGiven(f) then Err(MissingFields)
    else if f.program.value !in ValidPrograms then Err(InvalidProgram)
    else if !ValidateEmail(f.email.value) then Err(InvalidEmail)
    else if !IsPhone(RemoveSpaces(f.phone.value)) then Err(InvalidPhone)
    else Ok(Normalise(f))
  }

  /** The whitelist is compared before trimming: a program with surrounding spaces is refused. */
  lemma PaddedProgramRefused(f: ConsultancyForm)
    requires RequiredGiven(f) && f.program.value == " Aviation"
    ensures Validate(f) == Err(InvalidProgram)
  {
    assert f.program.value != ValidPrograms[0] by {
      assert f.program.value[0] != ValidPrograms[0][0];
    }
  }

  /** An accepted program is stored exactly as it appears in the list. */
  lemma StoredProgramIsListed(f: ConsultancyForm)
    requires Validate(f).Ok?
    ensures Validate(f).value.program == f.program.value && Validate(f).value.program in ValidPrograms
  {
    ListedProgramsTrimmed(f.program.value);
    assert Validate(f).value == Normalise(f);
  }

  lemma ListedProgramsTrimmed(p: string)
    requires p in ValidPrograms
    ensures Trim(p) == p
  {
    var a, b, c := ValidPrograms[0], ValidPrograms[1], ValidPrograms[2];
    assert p == a || p == b || p == c;
    assert !IsSpace(a[0]) && !IsSpace(a[|a| - 1]);
    assert !IsSpace(b[0]) && !IsSpace(b[|b| - 1]);
    assert !IsSpace(c[0]) && !IsSpace(c[|c| - 1]);
    TrimNoop(p);
  }

  /** The address is stored lower-cased and otherwise as given. */
  lemma StoredEmailIsLowered(f: ConsultancyForm)
    requires Validate(f).Ok?
    ensures Validate(f).value.email == ToLower(f.email.value)
  {
    ValidEmailFacts(f.email.value);
    TrimNoop(f.email.value);
  }

  /** A message of whitespace only is stored as an empty text, not as null, and gets no block in the notification. */
  lemma BlankMessageStoredEmpty(message: string)
    requires message != [] && AllSpace(message)
    ensures StoredMessage(Some(message)) == Some("")
    ensures AdditionalMessage !in ConsultancyAdminNotification("", "", "", "", StoredMessage(Some(message))).html
  {
    TrimAllSpace(message);
  }

  /** The two messages of an accepted request. */
  function ConsultancyEmails(e: ConsultancyEntry, cfg: Config): (sends: seq<OutgoingEmail>)
    ensures |sends| == 2
    ensures sends[0].to == [e.email] && sends[0].subject == ConsultancyConfirmationSubject
    ensures sends[1].to == [AdminAddress(cfg)] && PrefixedBy(sends[1].subject, ConsultancyAdminPrefix, e.program)
    ensures sends[0].from == sends[1].from == FromAddress(cfg)
  {
    var confirmation := ConsultancyConfirmation(e.name, e.program);
    var notification := ConsultancyAdminNotification(e.name, e.email, e.phone, e.program, e.message);
    [OutgoingEmail(FromAddress(cfg), [e.email], confirmation.subject, Rendered(confirmation.html)),
     OutgoingEmail(FromAddress(cfg), [AdminAddress(cfg)], notification.subject, Rendered(notification.html))]
  }

  /** The notification carries the message block exactly when a non-blank message was given. */
  lemma NotificationMessageBlock(f: ConsultancyForm, cfg: Config)
    requires Validate(f).Ok?
    ensures var html := ConsultancyEmails(Validate(f).value, cfg)[1].body.html;
      AdditionalMessage in html <==> Present(f.message) && Trim(f.message.value) != ""
  {
  }

  datatype ConsultancyReply = Rejected(reason: Rejection) | Saved(id: nat) | Duplicate

  function StatusCode(r: ConsultancyReply): nat {
    match r
    case Rejected(_) => 400
    case Saved(_) => 200
    case Duplicate => 409
  }

  /** The answer, the stored record and the messages of one request; `id` is the id the insert gives the row. */
  datatype Submission = Submission(reply: ConsultancyReply, stored: Option<ConsultancyRecord>, sends: seq<OutgoingEmail>)

  /**
   * `POST` without the table.  `conflict` says whether the database rejects
   * the insert with a unique-constraint error (P2002); the messages are sent
   * only after the row is stored.
   */
  function Handle(f: ConsultancyForm, cfg: Config, id: nat, conflict: bool): (s: Submission)
    ensures s.reply.Rejected? <==> Validate(f).Err?
    ensures s.reply.Rejected? ==> s.reply.reason == Validate(f).error
    ensures s.reply == Duplicate <==> Validate(f).Ok? && conflict
    ensures s.stored.Some? <==> s.reply.Saved?
    ensures !s.reply.Saved? ==> s.sends == []
    ensures s.reply.Saved? ==>
      && s.reply.id == id && s.stored == Some(ConsultancyRecord(id, Validate(f).value))
      && s.sends == ConsultancyEmails(Validate(f).value, cfg)
  {
    var checked := Validate(f);
    if checked.Err? then Submission(Rejected(checked.error), None, [])
    else if conflict then Submission(Duplicate, None, [])
    else Submission(Saved(id), Some(ConsultancyRecord(id, checked.value)), ConsultancyEmails(checked.value, cfg))
  }

  /** The `consultancy` table. */
  class ConsultancyTable {
    var rows: seq<ConsultancyRecord>
    var nextId: nat

    ghost predicate Valid()
      reads this
    {
      forall i :: 0 <= i < |rows| ==> rows[i].id < nextId
    }

    constructor()
      ensures Valid() && rows == []
    {
      rows, nextId := [], 0;
    }

    /** `consultancy.create`, when the request leads to one. */
    method Store(s: Submission)
      requires Valid() && (s.stored.Some? ==> s.stored.value.id == nextId)
      modifies this
      ensures Valid()
      ensures rows == old(rows) + (if s.stored.Some? then [s.stored.value] else [])
      ensures nextId == old(nextId) + (if s.stored.Some? then 1 else 0)
    {
      if s.stored.Some? {
        rows := rows + [s.stored.value];
        nextId := nextId + 1;
      }
    }
  }

  /** `POST`.  What the provider does with the two messages does not change the answer. */
  method Submit(table: ConsultancyTable, f: ConsultancyForm, cfg: Config, mail: Mailer, conflict: bool) returns (reply: ConsultancyReply, sends: seq<OutgoingEmail>)
    requires table.Valid()
    modifies table
    ensures table.Valid()
    ensures var s := Handle(f, cfg, old(table.nextId), conflict);
      && reply == s.reply && sends == s.sends
      && table.rows == old(table.rows) + (if s.stored.Some? then [s.stored.value] else [])
      && table.nextId == old(table.nextId) + (if s.stored.Some? then 1 else 0)
  {
    var s := Handle(f, cfg, table.nextId, conflict);
    table.Store(s);
    reply, sends := s.reply, s.sends;
    if reply.Saved? {
      var confirmed := mail(0, sends[0]);
      var notified := mail(1, sends[1]);
    }
  }
}
