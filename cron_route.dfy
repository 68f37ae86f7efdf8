/**
 * app/api/cron/process-email-queue/route.ts: the trigger for one queue pass.
 * With CRON_SECRET set to a non-empty value the request must carry exactly
 * "Bearer <secret>" in its authorization header; otherwise the pass runs
 * and its counters are returned with the time of the response.
 */
module CronRoute {
  import opened Wrappers
  import opened Text
  import opened EmailQueue
  import opened EmailProcessor

  const BearerPrefix := "Bearer "

  datatype CronReply = Unauthorized | PassDone(result: PassResult, timestamp: string)

  function StatusCode(r: CronReply): nat {
    if r.Unauthorized? then 401 else 200
  }

  /** `cronSecret && authHeader !== \`Bearer ${cronSecret}\`` is false. */
  predicate Authorized(cronSecret: Option<string>, authHeader: Option<string>) {
    !Present(cronSecret) || authHeader == Some(BearerPrefix + cronSecret.value)
  }

  /** With no secret configured, or an empty one, every request is let through. */
  lemma NoSecretAlwaysRuns(cronSecret: Option<string>, authHeader: Option<string>)
    requires cronSecret.None? || cronSecret == Some("")
    ensures Authorized(cronSecret, authHeader)
  {
  }

  /** With a secret configured, exactly one header value is accepted. */
  lemma SecretAcceptsOneHeader(secret: string, h1: Option<string>, h2: Option<string>)
    requires secret != ""
    requires Authorized(Some(secret), h1) && Authorized(Some(secret), h2)
    ensures h1 == h2 == Some(BearerPrefix + secret)
  {
  }

  /** A missing header never passes a configured secret. */
  lemma MissingHeaderRejected(secret: string)
    requires secret != ""
    ensures !Authorized(Some(secret), None)
  {
  }

  /**
   * `GET`: answers 401 without touching the queue when the header does not
   * match, and otherwise runs one pass and returns its counters.
   */
  method Get(store: QueueStore, mail: Mailer, cfg: Config, now: nat, timestamp: string,
             cronSecret: Option<string>, authHeader: Option<string>) returns (reply: CronReply, events: seq<Event>)
    requires store.Valid()
    modifies store
    ensures store.Valid()
    ensures !Authorized(cronSecret, authHeader) ==> reply == Unauthorized && events == [] && store.jobs == old(store.jobs)
    ensures Authorized(cronSecret, authHeader) ==>
      && reply == PassDone(PassResultOf(old(store.jobs), mail, cfg, now), timestamp)
      && store.jobs == PassEnd(old(store.jobs), mail, cfg, now).jobs
      && events == PassEnd(old(store.jobs), mail, cfg, now).events
  {
    if !Authorized(cronSecret, authHeader) {
      return Unauthorized, [];
    }
    var result;
    result, events := ProcessEmailQueue(store, mail, cfg, now);
    reply := PassDone(result, timestamp);
  }

  /** `POST` hands the request to `GET`. */
  method Post(store: QueueStore, mail: Mailer, cfg: Config, now: nat, timestamp: string,
              cronSecret: Option<string>, authHeader: Option<string>) returns (reply: CronReply, events: seq<Event>)
    requires store.Valid()
    modifies store
    ensures store.Valid()
    ensures !Authorized(cronSecret, authHeader) ==> reply == Unauthorized && events == [] && store.jobs == old(store.jobs)
    ensures Authorized(cronSecret, authHeader) ==>
      && reply == PassDone(PassResultOf(old(store.jobs), mail, cfg, now), timestamp)
      && store.jobs == PassEnd(old(store.jobs), mail, cfg, now).jobs
      && events == PassEnd(old(store.jobs), mail, cfg, now).events
  {
    reply, events := Get(store, mail, cfg, now, timestamp, cronSecret, authHeader);
  }
}
