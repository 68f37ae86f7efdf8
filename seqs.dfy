/**
 * Sequence operations behind the ORM's `findUnique`, `where`, `count`, `orderBy`
 * and `take`: a lookup by a unique key, filtering, counting, a prefix of bounded
 * length and a sort by a comparator.
 */
module Seqs {
  import opened Wrappers

  /**
   * The position of the last element whose `key` is `k`, or none: a lookup on
   * a unique column (`findUnique`), where the match, if any, is the only one.
   */
  function FindLast<T, K(==)>(s: seq<T>, key: T -> K, k: K): (r: Option<nat>)
    ensures r.Some? ==> r.value < |s| && key(s[r.value]) == k
    ensures r.Some? ==> forall i :: r.value < i < |s| ==> key(s[i]) != k
    ensures r.None? ==> forall i :: 0 <= i < |s| ==> key(s[i]) != k
  {
    if s == [] then None
    else if key(s[|s| - 1]) == k then Some(|s| - 1)
    else FindLast(s[..|s| - 1], key, k)
  }

  /** The elements of `s` that satisfy `p`, in their original order (`where`). */
  function Filter<T(!new)>(s: seq<T>, p: T -> bool): (r: seq<T>)
    ensures |r| <= |s|
    ensures forall x :: x in r <==> x in s && p(x)
  {
    if s == [] then []
    else if p(s[0]) then [s[0]] + Filter(s[1..], p)
    else Filter(s[1..], p)
  }

  /** The number of elements that satisfy `p` (`count({ where })`). */
  function Count<T(!new)>(s: seq<T>, p: T -> bool): nat {
    |Filter(s, p)|
  }

  lemma {:induction false} FilterConcat<T(!new)>(a: seq<T>, b: seq<T>, p: T -> bool)
    ensures Filter(a + b, p) == Filter(a, p) + Filter(b, p)
  {
    if a == [] {
      assert a + b == b;
    } else {
      assert (a + b)[1..] == a[1..] + b;
      FilterConcat(a[1..], b, p);
    }
  }

  /** Filtering keeps the multiplicity of each kept element and drops the others. */
  lemma {:induction false} FilterMultiset<T(!new)>(s: seq<T>, p: T -> bool)
    ensures multiset(Filter(s, p)) <= multiset(s)
  {
    if s != [] {
      FilterMultiset(s[1..], p);
      assert s == [s[0]] + s[1..];
    }
  }

  /** A filter by a predicate that every element meets is the identity. */
  lemma {:induction false} FilterAll<T(!new)>(s: seq<T>, p: T -> bool)
    requires forall i :: 0 <= i < |s| ==> p(s[i])
    ensures Filter(s, p) == s
  {
    if s != [] {
      FilterAll(s[1..], p);
    }
  }

  /** A predicate implied by another counts at least as many elements. */
  lemma {:induction false} CountMonotone<T(!new)>(s: seq<T>, p: T -> bool, q: T -> bool)
    requires forall x :: p(x) ==> q(x)
    ensures Count(s, p) <= Count(s, q)
  {
    if s != [] {
      CountMonotone(s[1..], p, q);
    }
  }

  /** Two exclusive predicates that together make up `p` split its count. */
  lemma {:induction false} CountPartition<T(!new)>(s: seq<T>, p: T -> bool, a: T -> bool, b: T -> bool)
    requires forall x :: p(x) == (a(x) || b(x)) && !(a(x) && b(x))
    ensures Count(s, a) + Count(s, b) == Count(s, p)
  {
    if s != [] {
      CountPartition(s[1..], p, a, b);
    }
  }

  /** The sequences of `ss`, one after the other. */
  function Concat<T>(ss: seq<seq<T>>): seq<T> {
    if ss == [] then [] else Concat(ss[..|ss| - 1]) + ss[|ss| - 1]
  }

  lemma ConcatAppend<T>(ss: seq<seq<T>>, s: seq<T>)
    ensures Concat(ss + [s]) == Concat(ss) + s
  {
    assert (ss + [s])[..|ss|] == ss;
  }

  function Ind(b: bool): nat {
    if b then 1 else 0
  }

  /** One more element adds one to the count exactly when it satisfies `p`. */
  lemma CountAppend<T(!new)>(s: seq<T>, x: T, p: T -> bool)
    ensures Count(s + [x], p) == Count(s, p) + Ind(p(x))
  {
    FilterConcat(s, [x], p);
    assert [x][1..] == [];
  }

  /** The sum of the counts of pairwise exclusive predicates is at most the length. */
  lemma {:induction false} CountExclusive4<T(!new)>(s: seq<T>, p: T -> bool, q: T -> bool, u: T -> bool, v: T -> bool)
    requires forall x :: Ind(p(x)) + Ind(q(x)) + Ind(u(x)) + Ind(v(x)) <= 1
    ensures Count(s, p) + Count(s, q) + Count(s, u) + Count(s, v) <= |s|
  {
    if s != [] {
      CountExclusive4(s[1..], p, q, u, v);
      assert Ind(p(s[0])) + Ind(q(s[0])) + Ind(u(s[0])) + Ind(v(s[0])) <= 1;
    }
  }

  /** The first `n` elements, or all of them when there are fewer (`take`). */
  function Take<T(!new)>(s: seq<T>, n: nat): (r: seq<T>)
    ensures |r| == if n <= |s| then n else |s|
    ensures r == s[..|r|]
    ensures multiset(r) <= multiset(s)
  {
    var k := if n <= |s| then n else |s|;
    assert s == s[..k] + s[k..];
    if n <= |s| then s[..n] else s
  }

  /** `le` orders any two values and is transitive. */
  ghost predicate TotalPreorder<T(!new)>(le: (T, T) -> bool) {
    && (forall a, b :: le(a, b) || le(b, a))
    && (forall a, b, c :: le(a, b) && le(b, c) ==> le(a, c))
  }

  ghost predicate SortedBy<T(!new)>(s: seq<T>, le: (T, T) -> bool) {
    forall i, j :: 0 <= i < j < |s| ==> le(s[i], s[j])
  }

  /** Inserts `x` before the first element it is ordered before. */
  function Insert<T(!new)>(x: T, s: seq<T>, le: (T, T) -> bool): (r: seq<T>)
    ensures multiset(r) == multiset(s) + multiset{x}
    ensures TotalPreorder(le) && SortedBy(s, le) ==> SortedBy(r, le)
  {
    if s == [] then [x]
    else if le(x, s[0]) then
      InsertFront(x, s, le);
      [x] + s
    else
      var t := Insert(x, s[1..], le);
      assert s == [s[0]] + s[1..];
      InsertBehind(x, s, t, le);
      [s[0]] + t
  }

  lemma InsertFront<T(!new)>(x: T, s: seq<T>, le: (T, T) -> bool)
    requires s != [] && le(x, s[0])
    ensures TotalPreorder(le) && SortedBy(s, le) ==> SortedBy([x] + s, le)
  {
    if TotalPreorder(le) && SortedBy(s, le) {
      forall j | 0 <= j < |s| ensures le(x, s[j]) {
        if j > 0 { assert le(s[0], s[j]); }
      }
    }
  }

  lemma InsertBehind<T(!new)>(x: T, s: seq<T>, t: seq<T>, le: (T, T) -> bool)
    requires s != [] && !le(x, s[0])
    requires multiset(t) == multiset(s[1..]) + multiset{x}
    requires TotalPreorder(le) && SortedBy(s[1..], le) ==> SortedBy(t, le)
    ensures TotalPreorder(le) && SortedBy(s, le) ==> SortedBy([s[0]] + t, le)
  {
    if TotalPreorder(le) && SortedBy(s, le) {
      assert SortedBy(s[1..], le);
      forall j | 0 <= j < |t| ensures le(s[0], t[j]) {
        assert t[j] in multiset(t);
        if t[j] != x {
          assert t[j] in multiset(s[1..]);
          var k :| 0 <= k < |s[1..]| && s[1..][k] == t[j];
          assert le(s[0], s[k + 1]);
        }
      }
    }
  }

  /** Insertion sort: a permutation of `s`, ordered by `le` when `le` is a total preorder. */
  function SortBy<T(!new)>(s: seq<T>, le: (T, T) -> bool): (r: seq<T>)
    ensures multiset(r) == multiset(s) && |r| == |s|
    ensures TotalPreorder(le) ==> SortedBy(r, le)
  {
    if s == [] then []
    else
      assert s == [s[0]] + s[1..];
      Insert(s[0], SortBy(s[1..], le), le)
  }
}
