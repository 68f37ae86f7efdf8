/**
 * lib/email-queue.ts: the persisted outbox.  A job row carries its delivery
 * state (status, retry count, next retry time, last error); `queueEmail`
 * inserts a row, `getPendingEmails` selects the due rows oldest first,
 * `updateEmailQueueStatus` applies one status change with its side effects
 * and the exponential backoff, and `getEmailQueueStats` counts the rows into
 * buckets.  Times are milliseconds on a clock that the caller passes in.
 */
module EmailQueue {
  import opened Wrappers
  import opened Text
  import opened Seqs

  datatype Status = Pending | Processing | Sent | Failed

  /** The text stored in the `status` column. */
  function StatusName(s: Status): (name: string)
    ensures name in {"pending", "processing", "sent", "failed"}
  {
    match s
    case Pending => "pending"
    case Processing => "processing"
    case Sent => "sent"
    case Failed => "failed"
  }

  lemma StatusNameInjective(a: Status, b: Status)
    requires StatusName(a) == StatusName(b)
    ensures a == b
  {
  }

  const ContactType := "contact"
  const ConsultancyType := "consultancy"
  const BlogNotificationType := "blog_notification"

  /**
   * The `metadata` column: the JSON text of a record of string fields, or a
   * text `JSON.parse` rejects with the given error message.
   */
  datatype StoredMetadata = Json(fields: map<string, string>) | Corrupt(text: string, parseError: string)

  datatype Job = Job(
    id: nat,
    kind: string,
    recipient: string,
    subject: string,
    body: string,
    metadata: Option<StoredMetadata>,
    status: Status,
    retryCount: nat,
    maxRetries: nat,
    lastAttempt: Option<nat>,
    nextRetryAt: Option<nat>,
    errorMessage: Option<string>,
    sentAt: Option<nat>,
    createdAt: nat)

  /** The argument of `queueEmail`. */
  datatype QueueData = QueueData(kind: string, recipient: string, subject: string, body: string,
                                 metadata: Option<map<string, string>>)

  /** The row `queueEmail` creates: pending, due at once, never attempted. */
  function NewJob(id: nat, data: QueueData, maxRetries: nat, now: nat): (j: Job)
    ensures j.id == id && j.kind == data.kind && j.recipient == data.recipient
    ensures j.subject == data.subject && j.body == data.body
    ensures j.status == Pending && j.nextRetryAt == Some(now) && j.createdAt == now
    ensures j.retryCount == 0 && j.maxRetries == maxRetries
    ensures j.lastAttempt.None? && j.errorMessage.None? && j.sentAt.None?
    ensures data.metadata.None? ==> j.metadata.None?
    ensures data.metadata.Some? ==> j.metadata == Some(Json(data.metadata.value))
  {
    Job(id, data.kind, data.recipient, data.subject, data.body,
        if data.metadata.Some? then Some(Json(data.metadata.value)) else None,
        Pending, 0, maxRetries, None, Some(now), None, None, now)
  }

  /** A new job is due from the moment it is queued, as long as it is allowed a try at all. */
  lemma NewJobDue(id: nat, data: QueueData, maxRetries: nat, now: nat, t: nat)
    ensures IsDue(NewJob(id, data, maxRetries, now), t) <==> now <= t && maxRetries > 0
  {
  }

  // Selection of due jobs.

  /** The `where` of `getPendingEmails`. */
  predicate IsDue(j: Job, now: nat) {
    && (j.status == Pending || j.status == Failed)
    && (j.nextRetryAt.None? || j.nextRetryAt.value <= now)
    && j.retryCount < j.maxRetries
  }

  function DueAt(now: nat): Job -> bool {
    j => IsDue(j, now)
  }

  /** `orderBy: { createdAt: 'asc' }`. */
  predicate OlderFirst(a: Job, b: Job) {
    a.createdAt <= b.createdAt
  }

  lemma OlderFirstIsTotalPreorder()
    ensures TotalPreorder(OlderFirst)
  {
  }

  const DefaultPendingLimit := 10

  /** `getPendingEmails(limit)`: the due jobs, oldest first, at most `limit` of them. */
  function PendingEmails(jobs: seq<Job>, now: nat, limit: nat): (r: seq<Job>)
    ensures |r| <= limit
    ensures |r| == if Count(jobs, DueAt(now)) <= limit then Count(jobs, DueAt(now)) else limit
    ensures forall j :: j in r ==> j in jobs && IsDue(j, now)
    ensures SortedBy(r, OlderFirst)
  {
    var due := Filter(jobs, DueAt(now));
    var sorted := SortBy(due, OlderFirst);
    OlderFirstIsTotalPreorder();
    var r := Take(sorted, limit);
    TakeSortedMembers(r, sorted, due);
    r
  }

  lemma TakeSortedMembers(r: seq<Job>, sorted: seq<Job>, due: seq<Job>)
    requires multiset(r) <= multiset(sorted) && multiset(sorted) == multiset(due)
    ensures forall j :: j in r ==> j in due
  {
    forall j | j in r ensures j in due {
      assert j in multiset(r);
    }
  }

  /** The selection is the oldest due jobs: a due job left out is no older than any job selected. */
  lemma PendingOldestFirst(jobs: seq<Job>, now: nat, limit: nat, k: nat)
    requires 0 <= k < |jobs| && IsDue(jobs[k], now)
    requires jobs[k] !in PendingEmails(jobs, now, limit)
    ensures forall x :: x in PendingEmails(jobs, now, limit) ==> x.createdAt <= jobs[k].createdAt
  {
    var due := Filter(jobs, DueAt(now));
    var sorted := SortBy(due, OlderFirst);
    OlderFirstIsTotalPreorder();
    var r := PendingEmails(jobs, now, limit);
    assert r == Take(sorted, limit);
    assert jobs[k] in due;
    assert jobs[k] in multiset(sorted);
    var m :| 0 <= m < |sorted| && sorted[m] == jobs[k];
    assert m >= |r|;
    forall x | x in r ensures x.createdAt <= jobs[k].createdAt {
      var a :| 0 <= a < |r| && r[a] == x;
      assert sorted[a] == x;
    }
  }

  /** When no more than `limit` jobs are due, every due job is selected. */
  lemma PendingTakesAllWhenFew(jobs: seq<Job>, now: nat, limit: nat)
    requires Count(jobs, DueAt(now)) <= limit
    ensures forall k :: 0 <= k < |jobs| && IsDue(jobs[k], now) ==> jobs[k] in PendingEmails(jobs, now, limit)
  {
    var due := Filter(jobs, DueAt(now));
    var sorted := SortBy(due, OlderFirst);
    assert PendingEmails(jobs, now, limit) == sorted;
    forall k | 0 <= k < |jobs| && IsDue(jobs[k], now) ensures jobs[k] in sorted {
      assert jobs[k] in due;
      assert jobs[k] in multiset(sorted);
    }
  }

  /** Rows that are sent or being processed, or that have used up their tries, are never selected. */
  lemma SettledNeverPending(jobs: seq<Job>, now: nat, limit: nat, j: Job)
    requires j.status == Sent || j.status == Processing || j.retryCount >= j.maxRetries
    ensures j !in PendingEmails(jobs, now, limit)
  {
  }

  predicate UniqueIds(s: seq<Job>) {
    forall i, j :: 0 <= i < j < |s| ==> s[i].id != s[j].id
  }

  /** Distinctness depends on the ids alone. */
  lemma SameIdsUnique(a: seq<Job>, b: seq<Job>)
    requires |a| == |b| && UniqueIds(a)
    requires forall k :: 0 <= k < |a| ==> a[k].id == b[k].id
    ensures UniqueIds(b)
  {
  }

  lemma {:induction false} UniqueIdsOnce(s: seq<Job>, x: Job)
    requires UniqueIds(s)
    ensures multiset(s)[x] <= 1
  {
    if s != [] {
      assert UniqueIds(s[1..]);
      UniqueIdsOnce(s[1..], x);
      assert s == [s[0]] + s[1..];
      if x == s[0] {
        assert forall k :: 1 <= k < |s| ==> s[k].id != s[0].id;
      }
    }
  }

  lemma TwiceCountsTwice(s: seq<Job>, a: nat, b: nat)
    requires 0 <= a < b < |s| && s[a] == s[b]
    ensures multiset(s)[s[a]] >= 2
  {
    assert s == s[..b] + s[b..];
    assert s[a] == s[..b][a];
    assert s[b] == s[b..][0];
  }

  /** Selected jobs have distinct ids, so one pass handles each row at most once. */
  lemma PendingUniqueIds(jobs: seq<Job>, now: nat, limit: nat)
    requires UniqueIds(jobs)
    ensures UniqueIds(PendingEmails(jobs, now, limit))
  {
    var due := Filter(jobs, DueAt(now));
    var sorted := SortBy(due, OlderFirst);
    var r := PendingEmails(jobs, now, limit);
    assert r == Take(sorted, limit);
    assert sorted == r + sorted[|r|..];
    FilterMultiset(jobs, DueAt(now));
    assert multiset(r) <= multiset(jobs);
    forall a, b | 0 <= a < b < |r| ensures r[a].id != r[b].id {
      if r[a].id == r[b].id {
        assert r[a] in jobs && r[b] in jobs;
        var ka :| 0 <= ka < |jobs| && jobs[ka] == r[a];
        var kb :| 0 <= kb < |jobs| && jobs[kb] == r[b];
        assert ka == kb;
        TwiceCountsTwice(r, a, b);
        UniqueIdsOnce(jobs, r[a]);
      }
    }
  }

  // Status changes and the backoff.

  function Pow2(n: nat): (r: nat)
    ensures r >= 1
  {
    if n == 0 then 1 else 2 * Pow2(n - 1)
  }

  lemma {:induction false} Pow2Monotone(a: nat, b: nat)
    requires a <= b
    ensures Pow2(a) <= Pow2(b)
    decreases b
  {
    if a < b {
      Pow2Monotone(a, b - 1);
    }
  }

  const MaxBackoffMinutes := 360

  /** `Math.min(5 * Math.pow(2, retryCount - 1), 360)`, for the incremented retry count. */
  function BackoffMinutes(retryCount: nat): (m: nat)
    requires retryCount >= 1
    ensures 5 <= m <= MaxBackoffMinutes
  {
    var d := 5 * Pow2(retryCount - 1);
    if d < MaxBackoffMinutes then d else MaxBackoffMinutes
  }

  /** The delays for the first seven failures. */
  lemma BackoffTable()
    ensures BackoffMinutes(1) == 5 && BackoffMinutes(2) == 10 && BackoffMinutes(3) == 20
    ensures BackoffMinutes(4) == 40 && BackoffMinutes(5) == 80 && BackoffMinutes(6) == 160
    ensures BackoffMinutes(7) == 320
  {
    assert Pow2(1) == 2 && Pow2(2) == 4 && Pow2(3) == 8;
    assert Pow2(4) == 16 && Pow2(5) == 32 && Pow2(6) == 64;
  }

  /** From the eighth failure on the delay is the six-hour cap. */
  lemma BackoffCapped(retryCount: nat)
    requires retryCount >= 8
    ensures BackoffMinutes(retryCount) == MaxBackoffMinutes
  {
    assert Pow2(7) == 128 by {
      assert Pow2(1) == 2 && Pow2(2) == 4 && Pow2(3) == 8;
      assert Pow2(4) == 16 && Pow2(5) == 32 && Pow2(6) == 64;
    }
    Pow2Monotone(7, retryCount - 1);
  }

  /** A later failure never waits less. */
  lemma BackoffMonotone(a: nat, b: nat)
    requires 1 <= a <= b
    ensures BackoffMinutes(a) <= BackoffMinutes(b)
  {
    Pow2Monotone(a - 1, b - 1);
  }

  const MinuteMillis := 60 * 1000

  /**
   * The row after `updateEmailQueueStatus(id, status, errorMessage)` at time
   * `now`: every change sets the status and `lastAttempt`; `sent` also sets
   * `sentAt` and clears `nextRetryAt`; `failed` records the message (an empty
   * or absent one as null), counts the retry and schedules the next try.
   */
  function Transition(j: Job, status: Status, errorMessage: Option<string>, now: nat): (r: Job)
    requires status != Pending
    ensures r.status == status && r.lastAttempt == Some(now)
    ensures r.id == j.id && r.kind == j.kind && r.recipient == j.recipient && r.subject == j.subject
    ensures r.body == j.body && r.metadata == j.metadata && r.maxRetries == j.maxRetries && r.createdAt == j.createdAt
    ensures status == Processing ==> r == j.(status := Processing, lastAttempt := Some(now))
    ensures status == Sent ==> r == j.(status := Sent, lastAttempt := Some(now), sentAt := Some(now), nextRetryAt := None)
    ensures status == Failed ==>
      && r.retryCount == j.retryCount + 1
      && r.errorMessage == (if Present(errorMessage) then errorMessage else None)
      && r.nextRetryAt == Some(now + BackoffMinutes(j.retryCount + 1) * MinuteMillis)
      && r.sentAt == j.sentAt
  {
    var touched := j.(status := status, lastAttempt := Some(now));
    match status
    case Sent => touched.(sentAt := Some(now), nextRetryAt := None)
    case Failed =>
      var retryCount := j.retryCount + 1;
      touched.(errorMessage := if Present(errorMessage) then errorMessage else None,
               retryCount := retryCount,
               nextRetryAt := Some(now + BackoffMinutes(retryCount) * MinuteMillis))
    case Processing => touched
  }

  /** No status change lowers the retry count; only a failure raises it. */
  lemma RetryCountNeverDecreases(j: Job, status: Status, errorMessage: Option<string>, now: nat)
    requires status != Pending
    ensures Transition(j, status, errorMessage, now).retryCount >= j.retryCount
    ensures Transition(j, status, errorMessage, now).retryCount > j.retryCount <==> status == Failed
  {
  }

  /** A sent or processing row is not due at any time. */
  lemma SentOrProcessingNotDue(j: Job, status: Status, errorMessage: Option<string>, now: nat, t: nat)
    requires status == Sent || status == Processing
    ensures !IsDue(Transition(j, status, errorMessage, now), t)
  {
  }

  /** A failed row is due again exactly when its backoff has elapsed and it has tries left. */
  lemma FailedDueAfterBackoff(j: Job, errorMessage: Option<string>, now: nat, t: nat)
    ensures IsDue(Transition(j, Failed, errorMessage, now), t) <==>
      t >= now + BackoffMinutes(j.retryCount + 1) * MinuteMillis && j.retryCount + 1 < j.maxRetries
  {
  }

  /** A failed row waits at least five minutes and at most six hours. */
  lemma FailedWaitBounds(j: Job, errorMessage: Option<string>, now: nat)
    ensures var next := Transition(j, Failed, errorMessage, now).nextRetryAt;
      next.Some? && now + 5 * MinuteMillis <= next.value <= now + MaxBackoffMinutes * MinuteMillis
  {
  }

  /** The position of the first row with this id. */
  function FindIndex(jobs: seq<Job>, id: nat): (r: Option<nat>)
    ensures r.Some? ==> r.value < |jobs| && jobs[r.value].id == id
    ensures r.Some? ==> forall i :: 0 <= i < r.value ==> jobs[i].id != id
    ensures r.None? ==> forall i :: 0 <= i < |jobs| ==> jobs[i].id != id
  {
    if jobs == [] then None
    else if jobs[0].id == id then Some(0)
    else
      var r := FindIndex(jobs[1..], id);
      if r.Some? then Some(r.value + 1) else None
  }

  /** A sent row records when it was sent. */
  predicate SentStamped(jobs: seq<Job>) {
    forall k :: 0 <= k < |jobs| && jobs[k].status == Sent ==> jobs[k].sentAt.Some?
  }

  /**
   * The table after one status update: the first row with the id makes the
   * transition and every other row stays as it was; an unknown id leaves the
   * table unchanged.
   */
  function Apply(jobs: seq<Job>, id: nat, status: Status, errorMessage: Option<string>, now: nat): (r: seq<Job>)
    requires status != Pending
    ensures |r| == |jobs|
  {
    match FindIndex(jobs, id)
    case Some(k) => jobs[k := Transition(jobs[k], status, errorMessage, now)]
    case None => jobs
  }

  // What one update does to the table.

  /** A row of another id is left as it was. */
  lemma ApplyKeepsOthers(jobs: seq<Job>, id: nat, status: Status, errorMessage: Option<string>, now: nat, k: nat)
    requires status != Pending && k < |jobs| && jobs[k].id != id
    ensures Apply(jobs, id, status, errorMessage, now)[k] == jobs[k]
  {
  }

  /** Ids stay in place and no retry count goes down. */
  lemma ApplyKeepsIds(jobs: seq<Job>, id: nat, status: Status, errorMessage: Option<string>, now: nat)
    requires status != Pending
    ensures var r := Apply(jobs, id, status, errorMessage, now);
      forall k :: 0 <= k < |jobs| ==> r[k].id == jobs[k].id && r[k].retryCount >= jobs[k].retryCount
  {
  }

  /** With distinct ids, the row with the id makes the transition. */
  lemma ApplyTransitions(jobs: seq<Job>, id: nat, status: Status, errorMessage: Option<string>, now: nat, k: nat)
    requires status != Pending && UniqueIds(jobs) && k < |jobs| && jobs[k].id == id
    ensures Apply(jobs, id, status, errorMessage, now)[k] == Transition(jobs[k], status, errorMessage, now)
  {
  }

  /** An unknown id leaves the table unchanged. */
  lemma ApplyAbsent(jobs: seq<Job>, id: nat, status: Status, errorMessage: Option<string>, now: nat)
    requires status != Pending && forall k :: 0 <= k < |jobs| ==> jobs[k].id != id
    ensures Apply(jobs, id, status, errorMessage, now) == jobs
  {
  }

  /** Sent rows stay stamped. */
  lemma ApplyKeepsStamped(jobs: seq<Job>, id: nat, status: Status, errorMessage: Option<string>, now: nat)
    requires status != Pending && SentStamped(jobs)
    ensures SentStamped(Apply(jobs, id, status, errorMessage, now))
  {
  }

  /** Distinct ids stay distinct. */
  lemma ApplyKeepsUnique(jobs: seq<Job>, id: nat, status: Status, errorMessage: Option<string>, now: nat)
    requires status != Pending && UniqueIds(jobs)
    ensures UniqueIds(Apply(jobs, id, status, errorMessage, now))
  {
  }

  // Counting.

  datatype QueueStats = QueueStats(pending: nat, processing: nat, sent: nat, failed: nat, total: nat)

  /** `getEmailQueueStats` counts a failure only from five retries on, whatever the row's own limit. */
  const StatsFailedRetries := 5

  predicate IsPendingRow(j: Job) { j.status == Pending }
  predicate IsProcessingRow(j: Job) { j.status == Processing }
  predicate IsSentRow(j: Job) { j.status == Sent }
  predicate IsFailedRow(j: Job) { j.status == Failed && j.retryCount >= StatsFailedRetries }

  /** `getEmailQueueStats`: the four status buckets cannot overcount the table. */
  function Stats(jobs: seq<Job>): (s: QueueStats)
    ensures s.total == |jobs|
    ensures s.pending + s.processing + s.sent + s.failed <= s.total
    ensures jobs == [] ==> s == QueueStats(0, 0, 0, 0, 0)
  {
    CountExclusive4(jobs, IsPendingRow, IsProcessingRow, IsSentRow, IsFailedRow);
    QueueStats(Count(jobs, IsPendingRow), Count(jobs, IsProcessingRow), Count(jobs, IsSentRow),
               Count(jobs, IsFailedRow), |jobs|)
  }

  /**
   * One more row adds one to the total and one to the bucket its status
   * selects (for a failed row, only from five retries on), and nothing else.
   */
  lemma StatsAppend(jobs: seq<Job>, j: Job)
    ensures var s, t := Stats(jobs), Stats(jobs + [j]);
      t == QueueStats(s.pending + Ind(j.status == Pending), s.processing + Ind(j.status == Processing),
                      s.sent + Ind(j.status == Sent), s.failed + Ind(j.status == Failed && j.retryCount >= StatsFailedRetries),
                      s.total + 1)
  {
    CountAppend(jobs, j, IsPendingRow);
    CountAppend(jobs, j, IsProcessingRow);
    CountAppend(jobs, j, IsSentRow);
    CountAppend(jobs, j, IsFailedRow);
  }

  /** A failed row with fewer than five retries is in no bucket, even when it has no tries left: it adds to the total only. */
  lemma StatsOmitRetryableFailures(jobs: seq<Job>, j: Job)
    requires j.status == Failed && j.retryCount < StatsFailedRetries
    ensures Stats(jobs + [j]) == Stats(jobs).(total := |jobs| + 1)
  {
    StatsAppend(jobs, j);
  }

  // The store.

  function MaxId(jobs: seq<Job>): (m: nat)
    ensures forall i :: 0 <= i < |jobs| ==> jobs[i].id <= m
  {
    if jobs == [] then 0
    else
      var m := MaxId(jobs[1..]);
      assert forall i :: 1 <= i < |jobs| ==> jobs[i] == jobs[1..][i - 1];
      if jobs[0].id > m then jobs[0].id else m
  }

  /** The `emailQueue` table, with the id the next insert receives. */
  class QueueStore {
    var jobs: seq<Job>
    var nextId: nat
    /** The column default of `maxRetries`. */
    const defaultMaxRetries: nat

    ghost predicate Valid()
      reads this
    {
      UniqueIds(jobs) && forall i :: 0 <= i < |jobs| ==> jobs[i].id < nextId
    }

    constructor(rows: seq<Job>, defaultMaxRetries: nat)
      requires UniqueIds(rows)
      ensures Valid() && jobs == rows && this.defaultMaxRetries == defaultMaxRetries
    {
      jobs := rows;
      nextId := MaxId(rows) + 1;
      this.defaultMaxRetries := defaultMaxRetries;
    }

    /** `queueEmail`: appends a fresh pending row and returns it. */
    method QueueEmail(data: QueueData, now: nat) returns (job: Job)
      requires Valid()
      modifies this
      ensures Valid()
      ensures job == NewJob(old(nextId), data, defaultMaxRetries, now)
      ensures jobs == old(jobs) + [job] && nextId == old(nextId) + 1
    {
      job := NewJob(nextId, data, defaultMaxRetries, now);
      jobs := jobs + [job];
      nextId := nextId + 1;
    }

    /** `updateEmailQueueStatus`: finds the row by id and applies the change; `found` is false when no row has the id. */
    method UpdateStatus(id: nat, status: Status, errorMessage: Option<string>, now: nat) returns (found: bool)
      requires Valid() && status != Pending
      modifies this
      ensures Valid()
      ensures found <==> FindIndex(old(jobs), id).Some?
      ensures jobs == Apply(old(jobs), id, status, errorMessage, now)
      ensures nextId == old(nextId)
    {
      var k := 0;
      while k < |jobs| && jobs[k].id != id
        invariant 0 <= k <= |jobs|
        invariant forall i :: 0 <= i < k ==> jobs[i].id != id
      {
        k := k + 1;
      }
      if k == |jobs| {
        found := false;
        return;
      }
      assert FindIndex(jobs, id) == Some(k);
      jobs := jobs[k := Transition(jobs[k], status, errorMessage, now)];
      found := true;
    }
  }
}
