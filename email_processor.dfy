/**
 * lib/email-processor.ts: one pass of the queue processor and the admin
 * notification helper.  The mail provider is an oracle `Mailer` that, given
 * the position in the batch of the job being sent and its message, either
 * returns or throws an error carrying a message.  A job whose metadata does
 * not parse sends nothing, so no call is made for its position.
 */
module EmailProcessor {
  import opened Wrappers
  import opened Text
  import opened Seqs
  import opened EmailTemplates
  import opened EmailQueue

  const DefaultFromEmail := "onboarding@resend.dev"
  const DefaultAdminEmail := "dreamdefinerstrainingacademy@gmail.com"
  const UnknownError := "Unknown error"

  /** `getPendingEmails(20)`: the size of one pass. */
  const PassSize := 20

  /** The environment variables FROM_EMAIL, ADMIN_EMAIL and NEXT_PUBLIC_SITE_URL. */
  datatype Config = Config(fromEmail: Option<string>, adminEmail: Option<string>, siteUrl: Option<string>)

  function FromAddress(cfg: Config): string {
    if Present(cfg.fromEmail) then cfg.fromEmail.value else DefaultFromEmail
  }

  function AdminAddress(cfg: Config): string {
    if Present(cfg.adminEmail) then cfg.adminEmail.value else DefaultAdminEmail
  }

  /** A body rendered by a template, or the HTML text stored in the job. */
  datatype Body = Rendered(html: Html) | StoredHtml(text: string)

  datatype OutgoingEmail = OutgoingEmail(from: string, to: seq<string>, subject: string, body: Body)

  /** What `resend.emails.send` does with one message. */
  datatype SendOutcome = Delivered | Threw(message: string)

  type Mailer = (nat, OutgoingEmail) -> SendOutcome

  /** `email.metadata ? JSON.parse(email.metadata) : {}`. */
  function ParseMetadata(stored: Option<StoredMetadata>): (r: Result<map<string, string>, string>)
    ensures r.Err? ==> stored.Some? && stored.value.Corrupt? && r.error == stored.value.parseError
  {
    match stored
    case None => Ok(map[])
    case Some(Json(fields)) => Ok(fields)
    case Some(Corrupt(text, parseError)) => if text == "" then Ok(map[]) else Err(parseError)
  }

  /** What `queueEmail` serialises, the processor parses back unchanged. */
  lemma MetadataRoundTrip(id: nat, data: QueueData, maxRetries: nat, now: nat)
    ensures ParseMetadata(NewJob(id, data, maxRetries, now).metadata) == Ok(data.metadata.GetOr(map[]))
  {
  }

  /** `metadata.key || fallback`. */
  function Field(metadata: map<string, string>, key: string, fallback: string): (r: string)
    ensures r == fallback || (key in metadata && r == metadata[key] && r != "")
    ensures key !in metadata ==> r == fallback
  {
    if key in metadata && metadata[key] != "" then metadata[key] else fallback
  }

  /** `metadata.blogCoverImage || undefined`. */
  function OptionalField(metadata: map<string, string>, key: string): (r: Option<string>)
    ensures r.Some? <==> key in metadata && metadata[key] != ""
  {
    if key in metadata && metadata[key] != "" then Some(metadata[key]) else None
  }

  /** The message the processor hands to the provider for one job, or the error that stops it before sending. */
  function Compose(job: Job, cfg: Config): (r: Result<OutgoingEmail, string>)
    ensures r.Err? <==> ParseMetadata(job.metadata).Err?
    ensures r.Err? ==> r.error == ParseMetadata(job.metadata).error
    ensures r.Ok? ==> r.value.from == FromAddress(cfg) && r.value.to == [job.recipient]
    ensures r.Ok? && job.kind == ContactType ==> r.value.subject == ContactConfirmationSubject
    ensures r.Ok? && job.kind == ContactType ==>
      var m := ParseMetadata(job.metadata).value;
      r.value.body == Rendered(ContactConfirmation(Field(m, "name", "User"), Field(m, "subject", "")).html)
    ensures r.Ok? && job.kind == ConsultancyType ==> r.value.subject == ConsultancyConfirmationSubject
    ensures r.Ok? && job.kind == ConsultancyType ==>
      var m := ParseMetadata(job.metadata).value;
      r.value.body == Rendered(ConsultancyConfirmation(Field(m, "name", "User"), Field(m, "program", "")).html)
    ensures r.Ok? && job.kind == BlogNotificationType ==>
      PrefixedBy(r.value.subject, BlogPrefix, Field(ParseMetadata(job.metadata).value, "blogTitle", ""))
    ensures r.Ok? && job.kind == BlogNotificationType ==>
      var m := ParseMetadata(job.metadata).value;
      r.value.body == Rendered(NewBlogNotification(cfg.siteUrl, Field(m, "subscriberName", "Subscriber"),
        Field(m, "blogTitle", ""), Field(m, "blogExcerpt", ""), Field(m, "blogSlug", ""), OptionalField(m, "blogCoverImage")).html)
    ensures r.Ok? && job.kind !in {ContactType, ConsultancyType, BlogNotificationType} ==>
      r.value.subject == job.subject && r.value.body == StoredHtml(job.body)
  {
    match ParseMetadata(job.metadata)
    case Err(e) => Err(e)
    case Ok(m) =>
      var from, to := FromAddress(cfg), [job.recipient];
      if job.kind == ContactType then
        var t := ContactConfirmation(Field(m, "name", "User"), Field(m, "subject", ""));
        Ok(OutgoingEmail(from, to, t.subject, Rendered(t.html)))
      else if job.kind == ConsultancyType then
        var t := ConsultancyConfirmation(Field(m, "name", "User"), Field(m, "program", ""));
        Ok(OutgoingEmail(from, to, t.subject, Rendered(t.html)))
      else if job.kind == BlogNotificationType then
        var t := NewBlogNotification(cfg.siteUrl, Field(m, "subscriberName", "Subscriber"), Field(m, "blogTitle", ""),
                                     Field(m, "blogExcerpt", ""), Field(m, "blogSlug", ""), OptionalField(m, "blogCoverImage"));
        Ok(OutgoingEmail(from, to, t.subject, Rendered(t.html)))
      else
        Ok(OutgoingEmail(from, to, job.subject, StoredHtml(job.body)))
  }

  /** A contact or consultancy job whose record has no name, or an empty one, greets "User". */
  lemma NameDefaultsToUser(job: Job, cfg: Config, m: map<string, string>)
    requires job.kind == ContactType || job.kind == ConsultancyType
    requires ParseMetadata(job.metadata) == Ok(m) && ("name" !in m || m["name"] == "")
    ensures Compose(job, cfg).Ok? && Value("User") in Compose(job, cfg).value.body.html
  {
  }

  /** A blog notification whose record has no subscriber name, or an empty one, greets "Subscriber". */
  lemma SubscriberNameDefault(job: Job, cfg: Config, m: map<string, string>)
    requires job.kind == BlogNotificationType
    requires ParseMetadata(job.metadata) == Ok(m) && ("subscriberName" !in m || m["subscriberName"] == "")
    ensures Compose(job, cfg).Ok? && Value("Subscriber") in Compose(job, cfg).value.body.html
  {
  }

  /**
   * The other fields default to "": a missing subject or program shows as an
   * empty value, and a missing blog title leaves the bare subject prefix.
   */
  lemma BlankFieldDefaults(job: Job, cfg: Config, m: map<string, string>)
    requires ParseMetadata(job.metadata) == Ok(m)
    ensures job.kind == ContactType && ("subject" !in m || m["subject"] == "") ==> Value("") in Compose(job, cfg).value.body.html
    ensures job.kind == ConsultancyType && ("program" !in m || m["program"] == "") ==> Value("") in Compose(job, cfg).value.body.html
    ensures job.kind == BlogNotificationType && ("blogTitle" !in m || m["blogTitle"] == "") ==> Compose(job, cfg).value.subject == BlogPrefix
  {
  }

  /** `error.message || 'Unknown error'`: never empty. */
  function ErrorText(message: string): (r: string)
    ensures r != ""
    ensures message != "" ==> r == message
  {
    if message == "" then UnknownError else message
  }

  /** What one run reports and touches. */
  datatype Event = Marked(id: nat, status: Status) | Attempted(id: nat, email: OutgoingEmail)

  datatype PassState = PassState(jobs: seq<Job>, success: nat, failed: nat, events: seq<Event>)

  /** How one job's `try` block ends. */
  datatype JobOutcome = ParseFailed(error: string) | SendOk(email: OutgoingEmail) | SendFailed(email: OutgoingEmail, message: string)

  /** Compose the message for the `index`-th job and, when that succeeds, send it. */
  function Attempt(job: Job, index: nat, mail: Mailer, cfg: Config): (o: JobOutcome)
    ensures o.ParseFailed? <==> Compose(job, cfg).Err?
    ensures !o.ParseFailed? ==> Compose(job, cfg) == Ok(o.email)
    ensures o.SendOk? <==> Compose(job, cfg).Ok? && mail(index, Compose(job, cfg).value) == Delivered
    ensures o.ParseFailed? ==> o.error == Compose(job, cfg).error
    ensures o.SendFailed? ==> mail(index, o.email) == Threw(o.message)
  {
    match Compose(job, cfg)
    case Err(e) => ParseFailed(e)
    case Ok(out) =>
      match mail(index, out)
      case Delivered => SendOk(out)
      case Threw(message) => SendFailed(out, message)
  }

  function FinalStatus(o: JobOutcome): (s: Status)
    ensures s == Sent || s == Failed
  {
    if o.SendOk? then Sent else Failed
  }

  /** The message recorded with a failure: the thrown error's, or 'Unknown error'. */
  function FinalError(o: JobOutcome): Option<string> {
    match o
    case ParseFailed(e) => Some(ErrorText(e))
    case SendFailed(_, message) => Some(ErrorText(message))
    case SendOk(_) => None
  }

  /**
   * The row of a job after its turn in the loop: marked processing, then
   * sent (stamped, no retry scheduled) or failed (the message recorded, one
   * more retry counted and the next try put off by the backoff).
   */
  function Settled(j: Job, o: JobOutcome, now: nat): (r: Job)
    ensures r.status == FinalStatus(o) && r.lastAttempt == Some(now)
    ensures r.id == j.id && r.kind == j.kind && r.recipient == j.recipient && r.subject == j.subject
    ensures r.body == j.body && r.metadata == j.metadata && r.maxRetries == j.maxRetries && r.createdAt == j.createdAt
    ensures o.SendOk? ==>
      && r.sentAt == Some(now) && r.nextRetryAt.None?
      && r.retryCount == j.retryCount && r.errorMessage == j.errorMessage
    ensures o.ParseFailed? ==> r.errorMessage == Some(ErrorText(o.error))
    ensures o.SendFailed? ==> r.errorMessage == Some(ErrorText(o.message))
    ensures !o.SendOk? ==>
      && r.retryCount == j.retryCount + 1
      && r.nextRetryAt == Some(now + BackoffMinutes(j.retryCount + 1) * MinuteMillis)
      && r.sentAt == j.sentAt
  {
    Transition(Transition(j, Processing, None, now), FinalStatus(o), FinalError(o), now)
  }

  function StepEvents(id: nat, o: JobOutcome): (ev: seq<Event>)
    ensures |ev| >= 2 && ev[0] == Marked(id, Processing) && ev[|ev| - 1] == Marked(id, FinalStatus(o))
    ensures forall p :: 0 <= p < |ev| && ev[p].Attempted? ==> p == 1 && !o.ParseFailed? && ev[p] == Attempted(id, o.email)
  {
    [Marked(id, Processing)] + (if o.ParseFailed? then [] else [Attempted(id, o.email)]) + [Marked(id, FinalStatus(o))]
  }

  /** The body of the `for` loop for one job: mark it processing, then record how its `try` block ended. */
  function StepJob(st: PassState, id: nat, o: JobOutcome, now: nat): (r: PassState)
    ensures r.success + r.failed == st.success + st.failed + 1
    ensures |r.jobs| == |st.jobs|
  {
    var marked := Apply(st.jobs, id, Processing, None, now);
    PassState(Apply(marked, id, FinalStatus(o), FinalError(o), now),
              st.success + (if o.SendOk? then 1 else 0), st.failed + (if o.SendOk? then 0 else 1),
              st.events + StepEvents(id, o))
  }

  /** How each job of the batch ends, the `i`-th job being the `i`-th one handed to the provider. */
  function Outcomes(batch: seq<Job>, mail: Mailer, cfg: Config): (outs: seq<JobOutcome>)
    ensures |outs| == |batch|
    ensures forall i :: 0 <= i < |batch| ==> outs[i] == Attempt(batch[i], i, mail, cfg)
  {
    seq(|batch|, i requires 0 <= i < |batch| => Attempt(batch[i], i, mail, cfg))
  }

  /** The state after the first `n` jobs of the batch. */
  function Run(jobs: seq<Job>, batch: seq<Job>, outs: seq<JobOutcome>, n: nat, now: nat): (r: PassState)
    requires n <= |batch| && n <= |outs|
    ensures r.success + r.failed == n
    ensures |r.jobs| == |jobs|
  {
    if n == 0 then PassState(jobs, 0, 0, [])
    else StepJob(Run(jobs, batch, outs, n - 1, now), batch[n - 1].id, outs[n - 1], now)
  }

  // What one step does to the table: two updates of the same row.

  lemma StepKeepsIds(st: PassState, id: nat, o: JobOutcome, now: nat, k: nat)
    requires k < |st.jobs|
    ensures var after := StepJob(st, id, o, now).jobs;
      after[k].id == st.jobs[k].id && after[k].retryCount >= st.jobs[k].retryCount
  {
    ApplyKeepsIds(st.jobs, id, Processing, None, now);
    ApplyKeepsIds(Apply(st.jobs, id, Processing, None, now), id, FinalStatus(o), FinalError(o), now);
  }

  lemma StepKeepsStamped(st: PassState, id: nat, o: JobOutcome, now: nat)
    requires SentStamped(st.jobs)
    ensures SentStamped(StepJob(st, id, o, now).jobs)
  {
    ApplyKeepsStamped(st.jobs, id, Processing, None, now);
    ApplyKeepsStamped(Apply(st.jobs, id, Processing, None, now), id, FinalStatus(o), FinalError(o), now);
  }

  lemma StepKeepsRow(st: PassState, id: nat, o: JobOutcome, now: nat, k: nat)
    requires k < |st.jobs| && st.jobs[k].id != id
    ensures StepJob(st, id, o, now).jobs[k] == st.jobs[k]
  {
    var marked := Apply(st.jobs, id, Processing, None, now);
    ApplyKeepsOthers(st.jobs, id, Processing, None, now, k);
    ApplyKeepsOthers(marked, id, FinalStatus(o), FinalError(o), now, k);
  }

  /** With distinct ids, the row of the handled job is settled by its outcome. */
  lemma StepSettlesRow(st: PassState, id: nat, o: JobOutcome, now: nat, k: nat)
    requires UniqueIds(st.jobs) && k < |st.jobs| && st.jobs[k].id == id
    ensures StepJob(st, id, o, now).jobs[k] == Settled(st.jobs[k], o, now)
  {
    var marked := Apply(st.jobs, id, Processing, None, now);
    ApplyTransitions(st.jobs, id, Processing, None, now, k);
    ApplyKeepsUnique(st.jobs, id, Processing, None, now);
    assert marked[k].id == id;
    ApplyTransitions(marked, id, FinalStatus(o), FinalError(o), now, k);
  }

  datatype PassResult = PassResult(processed: nat, success: nat, failed: nat)

  function Batch(jobs: seq<Job>, now: nat): seq<Job> {
    PendingEmails(jobs, now, PassSize)
  }

  function PassEnd(jobs: seq<Job>, mail: Mailer, cfg: Config, now: nat): PassState {
    var batch := Batch(jobs, now);
    Run(jobs, batch, Outcomes(batch, mail, cfg), |batch|, now)
  }

  /**
   * `processEmailQueue`'s result: every job of the batch counts once, as a
   * success when its message was delivered and as a failure otherwise.
   */
  function PassResultOf(jobs: seq<Job>, mail: Mailer, cfg: Config, now: nat): (r: PassResult)
    ensures r.processed <= PassSize
    ensures r.processed == |Batch(jobs, now)|
    ensures r.success == Count(Outcomes(Batch(jobs, now), mail, cfg), WasDelivered)
    ensures r.success + r.failed == r.processed
  {
    var batch := Batch(jobs, now);
    var outs := Outcomes(batch, mail, cfg);
    if |batch| == 0 then PassResult(0, 0, 0)
    else
      var st := PassEnd(jobs, mail, cfg, now);
      RunCountsDeliveries(jobs, batch, outs, |batch|, now);
      assert outs[..|batch|] == outs;
      PassResult(|batch|, st.success, st.failed)
  }

  predicate WasDelivered(o: JobOutcome) {
    o.SendOk?
  }

  /** The success counter after `n` jobs is the number of them whose message was delivered. */
  lemma {:induction false} RunCountsDeliveries(jobs: seq<Job>, batch: seq<Job>, outs: seq<JobOutcome>, n: nat, now: nat)
    requires n <= |batch| && n <= |outs|
    ensures Run(jobs, batch, outs, n, now).success == Count(outs[..n], WasDelivered)
  {
    if n > 0 {
      RunCountsDeliveries(jobs, batch, outs, n - 1, now);
      assert outs[..n] == outs[..n - 1] + [outs[n - 1]];
      CountAppend(outs[..n - 1], outs[n - 1], WasDelivered);
    } else {
      assert outs[..n] == [];
    }
  }

  /** With nothing due the pass reports zeros, changes no row and sends nothing. */
  lemma EmptyPassChangesNothing(jobs: seq<Job>, mail: Mailer, cfg: Config, now: nat)
    requires Batch(jobs, now) == []
    ensures PassResultOf(jobs, mail, cfg, now) == PassResult(0, 0, 0)
    ensures PassEnd(jobs, mail, cfg, now) == PassState(jobs, 0, 0, [])
  {
  }

  /** No job among the first `n` of the batch has this id. */
  predicate NotHandled(batch: seq<Job>, n: nat, id: nat) {
    forall i :: 0 <= i < n && i < |batch| ==> batch[i].id != id
  }

  /** A row whose id is not among the jobs handled so far is untouched. */
  lemma {:induction false} RunLeavesOthers(jobs: seq<Job>, batch: seq<Job>, outs: seq<JobOutcome>, n: nat, now: nat, k: nat)
    requires n <= |batch| && n <= |outs| && k < |jobs| && NotHandled(batch, n, jobs[k].id)
    ensures Run(jobs, batch, outs, n, now).jobs[k] == jobs[k]
  {
    if n > 0 {
      var st := Run(jobs, batch, outs, n - 1, now);
      RunUnfold(jobs, batch, outs, n, now);
      assert NotHandled(batch, n - 1, jobs[k].id) && batch[n - 1].id != jobs[k].id;
      RunLeavesOthers(jobs, batch, outs, n - 1, now, k);
      StepKeepsRow(st, batch[n - 1].id, outs[n - 1], now, k);
      assert Run(jobs, batch, outs, n, now).jobs[k] == st.jobs[k];
    } else {
      assert Run(jobs, batch, outs, n, now).jobs == jobs;
    }
  }

  /** Ids stay in place and retry counts only grow. */
  lemma {:induction false} RunRetryCountsGrow(jobs: seq<Job>, batch: seq<Job>, outs: seq<JobOutcome>, n: nat, now: nat, k: nat)
    requires n <= |batch| && n <= |outs| && k < |jobs|
    ensures var after := Run(jobs, batch, outs, n, now).jobs;
      after[k].id == jobs[k].id && after[k].retryCount >= jobs[k].retryCount
  {
    if n > 0 {
      RunUnfold(jobs, batch, outs, n, now);
      RunRetryCountsGrow(jobs, batch, outs, n - 1, now, k);
      StepKeepsIds(Run(jobs, batch, outs, n - 1, now), batch[n - 1].id, outs[n - 1], now, k);
    }
  }

  /** A run keeps every sent row stamped with its send time. */
  lemma {:induction false} RunKeepsStamped(jobs: seq<Job>, batch: seq<Job>, outs: seq<JobOutcome>, n: nat, now: nat)
    requires n <= |batch| && n <= |outs| && SentStamped(jobs)
    ensures SentStamped(Run(jobs, batch, outs, n, now).jobs)
  {
    if n > 0 {
      var st := Run(jobs, batch, outs, n - 1, now);
      RunUnfold(jobs, batch, outs, n, now);
      assert SentStamped(st.jobs) by {
        RunKeepsStamped(jobs, batch, outs, n - 1, now);
      }
      StepKeepsStamped(st, batch[n - 1].id, outs[n - 1], now);
    }
  }

  /** A run keeps the ids distinct. */
  lemma RunKeepsUnique(jobs: seq<Job>, batch: seq<Job>, outs: seq<JobOutcome>, n: nat, now: nat)
    requires n <= |batch| && n <= |outs| && UniqueIds(jobs)
    ensures UniqueIds(Run(jobs, batch, outs, n, now).jobs)
  {
    var after := Run(jobs, batch, outs, n, now).jobs;
    forall k | 0 <= k < |jobs| ensures after[k].id == jobs[k].id {
      RunRetryCountsGrow(jobs, batch, outs, n, now, k);
    }
    SameIdsUnique(jobs, after);
  }

  /**
   * Every send attempt in `ev` comes right after the same job was marked
   * processing, and carries the message of the outcome of one of the first
   * `n` jobs of the batch with that id.
   */
  ghost predicate AttemptsFollowMarks(ev: seq<Event>, batch: seq<Job>, outs: seq<JobOutcome>, n: nat)
    requires n <= |batch| && n <= |outs|
  {
    forall p :: 0 <= p < |ev| && ev[p].Attempted? ==>
      && p > 0 && ev[p - 1] == Marked(ev[p].id, Processing)
      && exists i :: 0 <= i < n && batch[i].id == ev[p].id && !outs[i].ParseFailed? && outs[i].email == ev[p].email
  }

  /** No message is handed to the provider before its job was marked processing. */
  lemma {:induction false} AttemptsFollowMarking(jobs: seq<Job>, batch: seq<Job>, outs: seq<JobOutcome>, n: nat, now: nat)
    requires n <= |batch| && n <= |outs|
    ensures AttemptsFollowMarks(Run(jobs, batch, outs, n, now).events, batch, outs, n)
  {
    if n > 0 {
      var st := Run(jobs, batch, outs, n - 1, now);
      AttemptsFollowMarking(jobs, batch, outs, n - 1, now);
      assert AttemptsFollowMarks(st.events, batch, outs, n - 1);
      var id := batch[n - 1].id;
      var added := StepEvents(id, outs[n - 1]);
      var ev := st.events + added;
      assert Run(jobs, batch, outs, n, now).events == ev;
      forall p | 0 <= p < |ev| && ev[p].Attempted?
        ensures p > 0 && ev[p - 1] == Marked(ev[p].id, Processing)
        ensures exists i :: 0 <= i < n && batch[i].id == ev[p].id && !outs[i].ParseFailed? && outs[i].email == ev[p].email
      {
        if p >= |st.events| {
          assert ev[p] == added[p - |st.events|];
          assert p - |st.events| == 1 && ev[p] == Attempted(id, outs[n - 1].email);
          assert ev[p - 1] == added[0] == Marked(id, Processing);
          assert batch[n - 1].id == ev[p].id && !outs[n - 1].ParseFailed? && outs[n - 1].email == ev[p].email;
        } else {
          assert ev[p] == st.events[p] && st.events[p].Attempted?;
          assert p > 0 && st.events[p - 1] == Marked(st.events[p].id, Processing);
          assert ev[p - 1] == st.events[p - 1];
        }
      }
    }
  }

  /**
   * With distinct ids, the row of every job handled in the run is settled by
   * its outcome: sent when its message was delivered and failed otherwise, so
   * no job is left in `processing`.
   */
  lemma {:induction false} RunSettlesHandled(jobs: seq<Job>, batch: seq<Job>, outs: seq<JobOutcome>, n: nat, now: nat,
                                             k: nat, i: nat)
    requires n <= |batch| && n <= |outs| && UniqueIds(jobs) && UniqueIds(batch)
    requires k < |jobs| && i < n && batch[i].id == jobs[k].id
    ensures Run(jobs, batch, outs, n, now).jobs[k] == Settled(jobs[k], outs[i], now)
    decreases n, 1
  {
    if i + 1 == n {
      RunSettlesLast(jobs, batch, outs, n, now, k);
    } else {
      RunSettlesEarlier(jobs, batch, outs, n, now, k, i);
    }
  }

  /** A job handled before the last one stays settled. */
  lemma {:induction false} RunSettlesEarlier(jobs: seq<Job>, batch: seq<Job>, outs: seq<JobOutcome>, n: nat, now: nat,
                                             k: nat, i: nat)
    requires n <= |batch| && n <= |outs| && UniqueIds(jobs) && UniqueIds(batch)
    requires k < |jobs| && i + 1 < n && batch[i].id == jobs[k].id
    ensures Run(jobs, batch, outs, n, now).jobs[k] == Settled(jobs[k], outs[i], now)
    decreases n, 0
  {
    RunSettlesHandled(jobs, batch, outs, n - 1, now, k, i);
    RunKeepsSettled(jobs, batch, outs, n, now, k, i);
  }

  /** The job handled last in a run is settled by its outcome; its row was untouched before. */
  lemma RunSettlesLast(jobs: seq<Job>, batch: seq<Job>, outs: seq<JobOutcome>, n: nat, now: nat, k: nat)
    requires 0 < n <= |batch| && n <= |outs| && UniqueIds(jobs) && UniqueIds(batch)
    requires k < |jobs| && batch[n - 1].id == jobs[k].id
    ensures Run(jobs, batch, outs, n, now).jobs[k] == Settled(jobs[k], outs[n - 1], now)
  {
    var st := Run(jobs, batch, outs, n - 1, now);
    assert st.jobs[k] == jobs[k] by {
      assert forall i :: 0 <= i < n - 1 ==> batch[i].id != batch[n - 1].id;
      RunLeavesOthers(jobs, batch, outs, n - 1, now, k);
    }
    assert UniqueIds(st.jobs) by {
      RunKeepsUnique(jobs, batch, outs, n - 1, now);
    }
    assert Run(jobs, batch, outs, n, now).jobs[k] == Settled(st.jobs[k], outs[n - 1], now) by {
      RunUnfold(jobs, batch, outs, n, now);
      StepSettlesRow(st, batch[n - 1].id, outs[n - 1], now, k);
    }
  }

  /** A later job of another id does not touch a settled row. */
  lemma RunKeepsSettled(jobs: seq<Job>, batch: seq<Job>, outs: seq<JobOutcome>, n: nat, now: nat, k: nat, i: nat)
    requires 0 < n <= |batch| && n <= |outs| && UniqueIds(batch)
    requires k < |jobs| && i < n - 1 && batch[i].id == jobs[k].id
    requires Run(jobs, batch, outs, n - 1, now).jobs[k] == Settled(jobs[k], outs[i], now)
    ensures Run(jobs, batch, outs, n, now).jobs[k] == Settled(jobs[k], outs[i], now)
  {
    var st := Run(jobs, batch, outs, n - 1, now);
    var id := batch[n - 1].id;
    assert st.jobs[k].id != id by {
      RunRetryCountsGrow(jobs, batch, outs, n - 1, now, k);
      assert batch[i].id != batch[n - 1].id;
    }
    assert Run(jobs, batch, outs, n, now).jobs[k] == st.jobs[k] by {
      RunUnfold(jobs, batch, outs, n, now);
      StepKeepsRow(st, id, outs[n - 1], now, k);
    }
  }

  /**
   * After a pass, the row of each job of its batch is settled by that job's
   * outcome: sent exactly when its message was delivered, and failed
   * otherwise.
   */
  lemma PassSettlesBatch(jobs: seq<Job>, mail: Mailer, cfg: Config, now: nat, k: nat, i: nat)
    requires UniqueIds(jobs)
    requires k < |jobs| && i < |Batch(jobs, now)| && Batch(jobs, now)[i].id == jobs[k].id
    ensures var batch := Batch(jobs, now);
      var row := PassEnd(jobs, mail, cfg, now).jobs[k];
      && row == Settled(jobs[k], Outcomes(batch, mail, cfg)[i], now)
      && (row.status == Sent || row.status == Failed)
      && (row.status == Sent <==> Compose(batch[i], cfg).Ok? && mail(i, Compose(batch[i], cfg).value) == Delivered)
  {
    var batch := Batch(jobs, now);
    PendingUniqueIds(jobs, now, PassSize);
    RunSettlesHandled(jobs, batch, Outcomes(batch, mail, cfg), |batch|, now, k, i);
  }

  /**
   * What a pass records on a failed row: the parse error or the provider's
   * message (an empty one as 'Unknown error'), one more retry, and the next
   * try after the backoff; and on a sent row, the send time.
   */
  lemma PassRecordsOutcome(jobs: seq<Job>, mail: Mailer, cfg: Config, now: nat, k: nat, i: nat)
    requires UniqueIds(jobs)
    requires k < |jobs| && i < |Batch(jobs, now)| && Batch(jobs, now)[i].id == jobs[k].id
    ensures var job := Batch(jobs, now)[i];
      var row := PassEnd(jobs, mail, cfg, now).jobs[k];
      && (Compose(job, cfg).Err? ==> row.status == Failed && row.errorMessage == Some(ErrorText(Compose(job, cfg).error)))
      && (Compose(job, cfg).Ok? && mail(i, Compose(job, cfg).value).Threw? ==>
            row.status == Failed && row.errorMessage == Some(ErrorText(mail(i, Compose(job, cfg).value).message)))
      && (row.status == Failed ==>
            && row.retryCount == jobs[k].retryCount + 1
            && row.nextRetryAt == Some(now + BackoffMinutes(jobs[k].retryCount + 1) * MinuteMillis))
      && (row.status == Sent ==> row.sentAt == Some(now) && row.retryCount == jobs[k].retryCount)
  {
    var batch := Batch(jobs, now);
    PassSettlesBatch(jobs, mail, cfg, now, k, i);
    var o := Outcomes(batch, mail, cfg)[i];
    assert o == Attempt(batch[i], i, mail, cfg);
  }

  /** The `try` block after the status update: compose the message and, when that succeeds, send it. */
  method TrySend(email: Job, index: nat, mail: Mailer, cfg: Config) returns (outcome: JobOutcome)
    ensures outcome == Attempt(email, index, mail, cfg)
  {
    var composed := Compose(email, cfg);
    if composed.Err? {
      outcome := ParseFailed(composed.error);
    } else {
      var sent := mail(index, composed.value);
      outcome := if sent.Delivered? then SendOk(composed.value) else SendFailed(composed.value, sent.message);
    }
  }

  lemma RunUnfold(jobs: seq<Job>, batch: seq<Job>, outs: seq<JobOutcome>, n: nat, now: nat)
    requires 0 < n <= |batch| && n <= |outs|
    ensures Run(jobs, batch, outs, n, now) == StepJob(Run(jobs, batch, outs, n - 1, now), batch[n - 1].id, outs[n - 1], now)
  {
  }

  /** The store, the counters and the events agree with the state after the first `i` jobs. */
  ghost predicate AtStep(store: QueueStore, success: nat, failed: nat, events: seq<Event>,
                         jobs: seq<Job>, batch: seq<Job>, outs: seq<JobOutcome>, i: nat, now: nat)
    requires i <= |batch| && i <= |outs|
    reads store
  {
    var st := Run(jobs, batch, outs, i, now);
    store.jobs == st.jobs && success == st.success && failed == st.failed && events == st.events
  }

  /**
   * The body of the loop for the `i`-th job: mark it processing, try to send
   * it, record the outcome on the row and in the counters.
   */
  method HandleJob(store: QueueStore, batch: seq<Job>, i: nat, mail: Mailer, cfg: Config, now: nat,
                   success: nat, failed: nat, events: seq<Event>, ghost jobs: seq<Job>, ghost outs: seq<JobOutcome>)
    returns (success': nat, failed': nat, events': seq<Event>)
    requires i < |batch| == |outs| && outs[i] == Attempt(batch[i], i, mail, cfg)
    requires store.Valid() && AtStep(store, success, failed, events, jobs, batch, outs, i, now)
    modifies store
    ensures store.Valid() && store.nextId == old(store.nextId)
    ensures AtStep(store, success', failed', events', jobs, batch, outs, i + 1, now)
  {
    ghost var st := Run(jobs, batch, outs, i, now);
    var email := batch[i];
    var found := store.UpdateStatus(email.id, Processing, None, now);
    var outcome := TrySend(email, i, mail, cfg);
    found := store.UpdateStatus(email.id, FinalStatus(outcome), FinalError(outcome), now);
    events' := events + StepEvents(email.id, outcome);
    success', failed' := success + (if outcome.SendOk? then 1 else 0), failed + (if outcome.SendOk? then 0 else 1);
    assert outcome == outs[i];
    ghost var after := StepJob(st, email.id, outcome, now);
    assert store.jobs == after.jobs && success' == after.success && failed' == after.failed && events' == after.events;
    RunUnfold(jobs, batch, outs, i + 1, now);
  }

  /** The `for` loop over the batch, with the counters and the events it produces. */
  method RunBatch(store: QueueStore, batch: seq<Job>, ghost outs: seq<JobOutcome>, mail: Mailer, cfg: Config, now: nat)
    returns (success: nat, failed: nat, events: seq<Event>)
    requires store.Valid() && outs == Outcomes(batch, mail, cfg)
    modifies store
    ensures store.Valid() && store.nextId == old(store.nextId)
    ensures AtStep(store, success, failed, events, old(store.jobs), batch, outs, |batch|, now)
  {
    ghost var jobs0 := store.jobs;
    success, failed := 0, 0;
    events := [];
    for i := 0 to |batch|
      invariant store.Valid() && store.nextId == old(store.nextId)
      invariant AtStep(store, success, failed, events, jobs0, batch, outs, i, now)
    {
      success, failed, events := HandleJob(store, batch, i, mail, cfg, now, success, failed, events, jobs0, outs);
    }
  }

  /**
   * `processEmailQueue`: fetches the batch, then for each job marks it
   * processing, composes and sends the message and records the outcome; a
   * failure of one job is recorded on that job and the loop goes on.
   */
  method ProcessEmailQueue(store: QueueStore, mail: Mailer, cfg: Config, now: nat) returns (r: PassResult, events: seq<Event>)
    requires store.Valid()
    modifies store
    ensures store.Valid() && store.nextId == old(store.nextId)
    ensures r == PassResultOf(old(store.jobs), mail, cfg, now)
    ensures store.jobs == PassEnd(old(store.jobs), mail, cfg, now).jobs
    ensures events == PassEnd(old(store.jobs), mail, cfg, now).events
  {
    var batch := PendingEmails(store.jobs, now, PassSize);
    if |batch| == 0 {
      return PassResult(0, 0, 0), [];
    }
    var success, failed;
    success, failed, events := RunBatch(store, batch, Outcomes(batch, mail, cfg), mail, cfg, now);
    r := PassResult(|batch|, success, failed);
  }

  // `sendAdminNotification`.

  /** The `data` argument: the submission as the routes pass it. */
  datatype AdminData = AdminData(name: string, email: string, phone: string, subject: string, program: string,
                                 message: Option<string>)

  /**
   * The messages `sendAdminNotification` hands to the provider.  A contact
   * notification without a message is never sent: the template's
   * `message.replace` throws first, and the error is swallowed.
   */
  function AdminNotification(kind: string, data: AdminData, cfg: Config): (sends: seq<OutgoingEmail>)
    ensures |sends| <= 1
    ensures |sends| == 1 <==> (kind == ContactType && data.message.Some?) || kind == ConsultancyType
    ensures forall e :: e in sends ==> e.from == FromAddress(cfg) && e.to == [AdminAddress(cfg)]
    ensures kind == ContactType && |sends| == 1 ==> PrefixedBy(sends[0].subject, ContactAdminPrefix, data.subject)
    ensures kind == ConsultancyType ==> PrefixedBy(sends[0].subject, ConsultancyAdminPrefix, data.program)
  {
    if kind == ContactType then
      if data.message.Some? then
        var t := ContactAdminNotification(data.name, data.email, data.phone, data.subject, data.message.value);
        [OutgoingEmail(FromAddress(cfg), [AdminAddress(cfg)], t.subject, Rendered(t.html))]
      else []
    else if kind == ConsultancyType then
      var t := ConsultancyAdminNotification(data.name, data.email, data.phone, data.program, data.message);
      [OutgoingEmail(FromAddress(cfg), [AdminAddress(cfg)], t.subject, Rendered(t.html))]
    else []
  }

  /** `sendAdminNotification` never fails: whatever the provider does, the caller gets nothing back. */
  method SendAdminNotification(kind: string, data: AdminData, cfg: Config, mail: Mailer) returns (attempted: seq<OutgoingEmail>)
    ensures attempted == AdminNotification(kind, data, cfg)
  {
    attempted := AdminNotification(kind, data, cfg);
    if |attempted| == 1 {
      var outcome := mail(0, attempted[0]);
    }
  }
}
