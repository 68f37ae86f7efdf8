/**
 * app/api/admin/email-queue/route.ts: the operator's view of the queue: the
 * rows filtered by status and type, newest first, one page of them, the
 * number of matching rows and pages, and the queue statistics.
 */
module EmailQueueRoute {
  import opened Wrappers
  import opened Text
  import opened Seqs
  import opened Pagination
  import opened EmailQueue

  const DefaultLimit: Positive := 50

  /** The query string: `page`, `limit`, `status` and `type`. */
  datatype Query = Query(page: Option<Positive>, limit: Option<Positive>, status: Option<string>, kind: Option<string>)

  /** The `where` record: a condition for each parameter that is given and not empty. */
  predicate Matches(q: Query, j: Job) {
    && (Present(q.status) ==> StatusName(j.status) == q.status.value)
    && (Present(q.kind) ==> j.kind == q.kind.value)
  }

  function MatchesQuery(q: Query): Job -> bool {
    j => Matches(q, j)
  }

  /** `orderBy: { createdAt: 'desc' }`. */
  predicate NewerFirst(a: Job, b: Job) {
    a.createdAt >= b.createdAt
  }

  lemma NewerFirstIsTotalPreorder()
    ensures TotalPreorder(NewerFirst)
  {
  }

  datatype Listing = Listing(emails: seq<Job>, page: nat, limit: nat, total: nat, totalPages: nat, stats: QueueStats)

  /** The matching rows, newest first. */
  function Ordered(jobs: seq<Job>, q: Query): (r: seq<Job>)
    ensures multiset(r) == multiset(Filter(jobs, MatchesQuery(q)))
    ensures SortedBy(r, NewerFirst)
  {
    NewerFirstIsTotalPreorder();
    SortBy(Filter(jobs, MatchesQuery(q)), NewerFirst)
  }

  /** `GET`. */
  function List(jobs: seq<Job>, q: Query): (r: Listing)
    ensures r.page == q.page.GetOr(1) && r.limit == q.limit.GetOr(DefaultLimit)
    ensures r.total == Count(jobs, MatchesQuery(q))
    ensures r.totalPages == TotalPages(r.total, r.limit)
    ensures r.emails == Page(Ordered(jobs, q), r.page, r.limit)
    ensures r.stats == Stats(jobs)
  {
    var page: Positive := q.page.GetOr(1);
    var limit: Positive := q.limit.GetOr(DefaultLimit);
    var total := Count(jobs, MatchesQuery(q));
    Listing(Page(Ordered(jobs, q), page, limit), page, limit, total, TotalPages(total, limit), Stats(jobs))
  }

  /** Every listed row is a row of the table that meets the filter. */
  lemma ListedRowsMatch(jobs: seq<Job>, q: Query, j: Job)
    requires j in List(jobs, q).emails
    ensures j in jobs && Matches(q, j)
  {
    var o := Ordered(jobs, q);
    var r := List(jobs, q);
    var i :| 0 <= i < |r.emails| && r.emails[i] == j;
    assert j == o[(r.page - 1) * r.limit + i];
    assert j in multiset(o);
  }

  /** The listed rows are newest first. */
  lemma ListedNewestFirst(jobs: seq<Job>, q: Query)
    ensures SortedBy(List(jobs, q).emails, NewerFirst)
  {
    var o := Ordered(jobs, q);
    var r := List(jobs, q);
    forall a, b | 0 <= a < b < |r.emails| ensures NewerFirst(r.emails[a], r.emails[b]) {
      assert r.emails[a] == o[(r.page - 1) * r.limit + a];
      assert r.emails[b] == o[(r.page - 1) * r.limit + b];
    }
  }

  /** No filter given: every row is counted. */
  lemma NoFilterCountsAll(jobs: seq<Job>, page: Option<Positive>, limit: Option<Positive>, status: Option<string>, kind: Option<string>)
    requires !Present(status) && !Present(kind)
    ensures List(jobs, Query(page, limit, status, kind)).total == |jobs|
  {
    FilterAll(jobs, MatchesQuery(Query(page, limit, status, kind)));
  }

  /** The statistics ignore the filter and the page. */
  lemma StatsIgnoreQuery(jobs: seq<Job>, q1: Query, q2: Query)
    ensures List(jobs, q1).stats == List(jobs, q2).stats
  {
  }

  /** Paging through pages 1 to `totalPages` lists every matching row once, newest first. */
  lemma PagesListEverything(jobs: seq<Job>, q: Query)
    ensures var limit := q.limit.GetOr(DefaultLimit);
      Pages(Ordered(jobs, q), limit, List(jobs, q).totalPages) == Ordered(jobs, q)
  {
    var o := Ordered(jobs, q);
    assert |o| == Count(jobs, MatchesQuery(q)) by {
      assert |multiset(o)| == |o|;
    }
    PagesCoverAll(o, q.limit.GetOr(DefaultLimit));
  }
}
