/**
 * The pagination arithmetic shared by the listing routes: a page is
 * `skip: (page - 1) * limit, take: limit` over the ordered rows, and
 * `totalPages` is `Math.ceil(total / limit)`.
 */
module Pagination {
  import opened Seqs

  /** A page number or page size as the listing routes use it: a positive whole number. */
  type Positive = n: nat | n >= 1 witness 1

  function Min(a: nat, b: nat): nat {
    if a <= b then a else b
  }

  /** Rows `skip` up to `skip + limit` of `s`, cut at its end. */
  function Window<T>(s: seq<T>, skip: nat, limit: nat): (r: seq<T>)
    ensures |r| == if skip >= |s| then 0 else Min(limit, |s| - skip)
    ensures forall i :: 0 <= i < |r| ==> r[i] == s[skip + i]
  {
    s[Min(|s|, skip)..Min(|s|, skip + limit)]
  }

  /** Rows `(page - 1) * limit` up to `(page - 1) * limit + limit` of `s`, cut at its end. */
  function Page<T>(s: seq<T>, page: nat, limit: nat): (r: seq<T>)
    requires page >= 1
    ensures |r| <= limit
    ensures |r| == if (page - 1) * limit >= |s| then 0 else Min(limit, |s| - (page - 1) * limit)
    ensures forall i :: 0 <= i < |r| ==> r[i] == s[(page - 1) * limit + i]
  {
    Window(s, (page - 1) * limit, limit)
  }

  lemma MulSucc(p: nat, limit: nat)
    ensures (p + 1) * limit == p * limit + limit
  {
  }

  /** `Math.ceil(total / limit)`: the least page count whose pages hold `total` rows. */
  function TotalPages(total: nat, limit: nat): (n: nat)
    requires limit >= 1
    ensures n * limit >= total
    ensures n == 0 || (n - 1) * limit < total
  {
    var n := (total + limit - 1) / limit;
    var rem := (total + limit - 1) % limit;
    assert n * limit + rem == total + limit - 1;
    assert n > 0 ==> (n - 1) * limit == n * limit - limit;
    n
  }

  /** The page count is the only one whose pages hold `total` rows with none of them empty. */
  lemma TotalPagesUnique(total: nat, limit: nat, m: nat)
    requires limit >= 1
    requires m * limit >= total && (m == 0 || (m - 1) * limit < total)
    ensures m == TotalPages(total, limit)
  {
    var t := TotalPages(total, limit);
    if m < t {
      MulMonotone(m, t - 1, limit);
    } else if m > t {
      MulMonotone(t, m - 1, limit);
    }
  }

  /** The first `n` pages, one after the other. */
  function Pages<T>(s: seq<T>, limit: nat, n: nat): seq<T> {
    if n == 0 then [] else Pages(s, limit, n - 1) + Page(s, n, limit)
  }

  lemma {:induction false} PagesArePrefix<T>(s: seq<T>, limit: nat, n: nat)
    ensures Pages(s, limit, n) == s[..Min(|s|, n * limit)]
  {
    if n > 0 {
      PagesArePrefix(s, limit, n - 1);
      PagesStep(s, limit, n, (n - 1) * limit);
      MulSucc(n - 1, limit);
    }
  }

  /** Page `n` continues the first `n - 1` pages where they stop. */
  lemma PagesStep<T>(s: seq<T>, limit: nat, n: nat, skip: nat)
    requires n > 0 && skip == (n - 1) * limit
    requires Pages(s, limit, n - 1) == s[..Min(|s|, skip)]
    ensures Pages(s, limit, n) == s[..Min(|s|, skip + limit)]
  {
    var a, b := Min(|s|, skip), Min(|s|, skip + limit);
    assert Page(s, n, limit) == s[a..b];
    SliceJoin(s, a, b);
  }

  lemma SliceJoin<T>(s: seq<T>, a: nat, b: nat)
    requires a <= b <= |s|
    ensures s[..a] + s[a..b] == s[..b]
  {
  }

  /** Pages 1 to `totalPages` together list every row exactly once, in order. */
  lemma PagesCoverAll<T>(s: seq<T>, limit: nat)
    requires limit >= 1
    ensures Pages(s, limit, TotalPages(|s|, limit)) == s
  {
    PagesArePrefix(s, limit, TotalPages(|s|, limit));
  }

  /** Page `p` holds a row exactly when `p` is at most `totalPages`. */
  lemma PageNonEmptyIff<T>(s: seq<T>, page: nat, limit: nat)
    requires page >= 1 && limit >= 1
    ensures Page(s, page, limit) != [] <==> page <= TotalPages(|s|, limit)
  {
    var n := TotalPages(|s|, limit);
    if page <= n {
      MulMonotone(page - 1, n - 1, limit);
    } else {
      MulMonotone(n, page - 1, limit);
    }
  }

  lemma {:induction false} MulMonotone(a: nat, b: nat, c: nat)
    requires a <= b
    ensures a * c <= b * c
    decreases b - a
  {
    if a < b {
      MulMonotone(a + 1, b, c);
      MulSucc(a, c);
    }
  }
}
