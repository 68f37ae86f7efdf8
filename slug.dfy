/**
 * The slug chain of the public category route (app/api/categories/route.ts):
 *   name.toLowerCase().replace(/[^a-z0-9]+/g, '-').replace(/(^-|-$)/g, '')
 * with the properties a slug is expected to have: only [a-z0-9-], no leading
 * or trailing '-', no "--", a slug is its own slug, and surrounding
 * whitespace does not change the slug.
 */
module Slug {
  import opened Text

  /** The character class [a-z0-9]. */
  predicate IsSlugChar(c: char) {
    'a' <= c <= 'z' || '0' <= c <= '9'
  }

  predicate NoDoubleDash(s: string) {
    forall i :: 0 <= i < |s| - 1 ==> !(s[i] == '-' && s[i + 1] == '-')
  }

  /** A well-formed slug: [a-z0-9-] only, no '-' at either end, no "--". */
  predicate IsSlug(s: string) {
    && (forall i :: 0 <= i < |s| ==> IsSlugChar(s[i]) || s[i] == '-')
    && (s == [] || (s[0] != '-' && s[|s| - 1] != '-'))
    && NoDoubleDash(s)
  }

  /** Drops the leading characters outside [a-z0-9]. */
  function DropRun(t: string): (r: string)
    ensures |r| <= |t|
    ensures r == [] || IsSlugChar(r[0])
  {
    if t != [] && !IsSlugChar(t[0]) then DropRun(t[1..]) else t
  }

  /** What `DropRun` drops is a prefix of characters outside [a-z0-9]. */
  lemma {:induction false} DropRunIsSuffix(t: string)
    ensures DropRun(t) == t[|t| - |DropRun(t)|..]
    ensures forall i :: 0 <= i < |t| - |DropRun(t)| ==> !IsSlugChar(t[i])
  {
    if t != [] && !IsSlugChar(t[0]) {
      DropRunIsSuffix(t[1..]);
      var r := DropRun(t[1..]);
      assert t[1..][|t| - 1 - |r|..] == t[|t| - |r|..];
      assert forall i :: 1 <= i < |t| - |r| ==> t[i] == t[1..][i - 1];
    }
  }

  /** `replace(/[^a-z0-9]+/g, '-')`: every maximal run outside [a-z0-9] becomes a single '-'. */
  function CollapseRuns(s: string): (r: string)
    ensures forall i :: 0 <= i < |r| ==> IsSlugChar(r[i]) || r[i] == '-'
    ensures NoDoubleDash(r)
    ensures s != [] ==> r != [] && (r[0] == '-' <==> !IsSlugChar(s[0]))
    ensures s == [] ==> r == []
    decreases |s|
  {
    if s == [] then []
    else if IsSlugChar(s[0]) then [s[0]] + CollapseRuns(s[1..])
    else ['-'] + CollapseRuns(DropRun(s[1..]))
  }

  /** `replace(/(^-|-$)/g, '')`: removes one leading and one trailing '-'. */
  function StripDashes(s: string): (r: string)
    ensures NoDoubleDash(s) ==> r == [] || (r[0] != '-' && r[|r| - 1] != '-')
  {
    var t := if s != [] && s[0] == '-' then s[1..] else s;
    if t != [] && t[|t| - 1] == '-' then t[..|t| - 1] else t
  }

  /** The slug the public category route stores for `name`. */
  function GenerateSlug(name: string): (slug: string)
    ensures IsSlug(slug)
  {
    var c := CollapseRuns(ToLower(name));
    var r := StripDashes(c);
    assert forall i :: 0 <= i < |r| ==> r[i] in c by {
      var t := if c != [] && c[0] == '-' then c[1..] else c;
      assert forall i :: 0 <= i < |t| ==> t[i] in c;
    }
    assert NoDoubleDash(r) by {
      var t := if c != [] && c[0] == '-' then c[1..] else c;
      assert NoDoubleDash(t);
    }
    r
  }

  // A slug is its own slug.

  lemma DropRunSlugStart(t: string)
    requires t == [] || IsSlugChar(t[0])
    ensures DropRun(t) == t
  {
  }

  lemma {:induction false} CollapseDashFree(s: string)
    requires forall i :: 0 <= i < |s| ==> IsSlugChar(s[i]) || s[i] == '-'
    requires NoDoubleDash(s)
    ensures CollapseRuns(s) == s
    decreases |s|
  {
    if s != [] {
      assert NoDoubleDash(s[1..]);
      CollapseDashFree(s[1..]);
      if !IsSlugChar(s[0]) {
        assert |s| > 1 ==> s[1] != '-';
        DropRunSlugStart(s[1..]);
      }
      assert s == [s[0]] + s[1..];
    }
  }

  lemma SlugIsFixedPoint(s: string)
    requires IsSlug(s)
    ensures GenerateSlug(s) == s
  {
    assert ToLower(s) == s by {
      forall i | 0 <= i < |s| ensures LowerChar(s[i]) == s[i] {
        assert IsSlugChar(s[i]) || s[i] == '-';
      }
    }
    CollapseDashFree(s);
    assert StripDashes(s) == s;
  }

  /** Slug generation is idempotent. */
  lemma SlugIdempotent(name: string)
    ensures GenerateSlug(GenerateSlug(name)) == GenerateSlug(name)
  {
    SlugIsFixedPoint(GenerateSlug(name));
  }

  // Whitespace around the name does not change its slug.

  predicate NoSlugChar(w: string) {
    forall i :: 0 <= i < |w| ==> !IsSlugChar(w[i])
  }

  lemma {:induction false} DropRunSkips(a: string, b: string)
    requires NoSlugChar(a)
    ensures DropRun(a + b) == DropRun(b)
  {
    if a != [] {
      assert (a + b)[1..] == a[1..] + b;
      DropRunSkips(a[1..], b);
    } else {
      assert a + b == b;
    }
  }

  lemma {:induction false} DropRunAppend(a: string, b: string)
    requires DropRun(a) != []
    ensures DropRun(a + b) == DropRun(a) + b
  {
    if !IsSlugChar(a[0]) {
      assert (a + b)[1..] == a[1..] + b;
      DropRunAppend(a[1..], b);
    }
  }

  lemma CollapseAfterRun(w: string, v: string)
    requires w != [] && NoSlugChar(w)
    ensures CollapseRuns(w + v) == ['-'] + CollapseRuns(DropRun(v))
  {
    assert (w + v)[1..] == w[1..] + v;
    DropRunSkips(w[1..], v);
  }

  lemma StripLeadingDash(c: string)
    requires c == [] || c[0] != '-'
    ensures StripDashes(['-'] + c) == StripDashes(c)
  {
    assert (['-'] + c)[1..] == c;
  }

  lemma StripIgnoresFront(w: string, v: string)
    requires w != [] && NoSlugChar(w)
    ensures StripDashes(CollapseRuns(w + v)) == StripDashes(CollapseRuns(v))
  {
    CollapseAfterRun(w, v);
    FrontRun(v);
  }

  lemma FrontRun(v: string)
    ensures StripDashes(['-'] + CollapseRuns(DropRun(v))) == StripDashes(CollapseRuns(v))
  {
    if v != [] && IsSlugChar(v[0]) {
      FrontBeforeSlugChar(v);
    } else if v != [] {
      FrontBeforeRun(v);
    }
  }

  lemma FrontBeforeSlugChar(v: string)
    requires v != [] && IsSlugChar(v[0])
    ensures StripDashes(['-'] + CollapseRuns(DropRun(v))) == StripDashes(CollapseRuns(v))
  {
    DropRunSlugStart(v);
    StripLeadingDash(CollapseRuns(v));
  }

  lemma FrontBeforeRun(v: string)
    requires v != [] && !IsSlugChar(v[0])
    ensures ['-'] + CollapseRuns(DropRun(v)) == CollapseRuns(v)
  {
    assert DropRun(v) == DropRun(v[1..]);
  }

  lemma {:induction false} CollapseBeforeRun(v: string, w: string)
    requires w != [] && NoSlugChar(w)
    ensures CollapseRuns(v + w) ==
      if v == [] || IsSlugChar(v[|v| - 1]) then CollapseRuns(v) + ['-'] else CollapseRuns(v)
    decreases |v|
  {
    if v == [] {
      assert v + w == w;
      CollapseAfterRun(w, []);
      assert w + [] == w;
    } else if IsSlugChar(v[0]) {
      assert (v + w)[1..] == v[1..] + w;
      CollapseBeforeRun(v[1..], w);
    } else {
      var d := DropRun(v[1..]);
      DropRunIsSuffix(v[1..]);
      assert (v + w)[1..] == v[1..] + w;
      assert CollapseRuns(v) == ['-'] + CollapseRuns(d);
      if d != [] {
        DropRunAppend(v[1..], w);
        assert CollapseRuns(v + w) == ['-'] + CollapseRuns(d + w);
        assert d[|d| - 1] == v[|v| - 1];
        CollapseBeforeRun(d, w);
      } else {
        DropRunSkips(v[1..], w);
        DropRunSkips(w, []);
        assert w + [] == w;
        assert CollapseRuns(v + w) == ['-'];
        assert |v| > 1 ==> v[|v| - 1] == v[1..][|v| - 2];
      }
    }
  }

  lemma {:induction false} CollapseEndsInSlugChar(v: string)
    requires v != [] && IsSlugChar(v[|v| - 1])
    ensures CollapseRuns(v) != [] && IsSlugChar(CollapseRuns(v)[|CollapseRuns(v)| - 1])
    decreases |v|
  {
    if IsSlugChar(v[0]) {
      if |v| > 1 {
        CollapseEndsInSlugChar(v[1..]);
      }
    } else {
      var t := v[1..];
      DropRunIsSuffix(t);
      var d := DropRun(t);
      assert IsSlugChar(t[|t| - 1]);
      assert d != [];
      assert d[|d| - 1] == t[|t| - 1];
      CollapseEndsInSlugChar(d);
    }
  }

  lemma StripTrailingDash(c: string)
    requires c != [] && c[|c| - 1] != '-'
    ensures StripDashes(c + ['-']) == StripDashes(c)
  {
    if c[0] == '-' {
      assert (c + ['-'])[1..] == c[1..] + ['-'];
    }
  }

  lemma StripIgnoresBack(v: string, w: string)
    requires w != [] && NoSlugChar(w)
    ensures StripDashes(CollapseRuns(v + w)) == StripDashes(CollapseRuns(v))
  {
    CollapseBeforeRun(v, w);
    if v == [] {
    } else if IsSlugChar(v[|v| - 1]) {
      CollapseEndsInSlugChar(v);
      StripTrailingDash(CollapseRuns(v));
    }
  }

  lemma SpaceLowersToNonSlug(w: string)
    requires AllSpace(w)
    ensures NoSlugChar(ToLower(w))
  {
  }

  /** The lower-cased name is the lower-cased trimmed name between two runs outside [a-z0-9]. */
  lemma LoweredSplit(name: string) returns (f: string, b: string)
    ensures ToLower(name) == f + (ToLower(Trim(name)) + b)
    ensures NoSlugChar(f) && NoSlugChar(b)
  {
    var front, back := TrimSplit(name);
    var t := Trim(name);
    f, b := ToLower(front), ToLower(back);
    LowerSplit3(front, t, back);
    SpaceLowersToNonSlug(front);
    SpaceLowersToNonSlug(back);
  }

  lemma LowerSplit3(x: string, y: string, z: string)
    ensures ToLower(x + y + z) == ToLower(x) + (ToLower(y) + ToLower(z))
  {
    ToLowerConcat(x + y, z);
    ToLowerConcat(x, y);
  }

  lemma StripIgnoresAround(f: string, m: string, b: string)
    requires NoSlugChar(f) && NoSlugChar(b)
    ensures StripDashes(CollapseRuns(f + (m + b))) == StripDashes(CollapseRuns(m))
  {
    if f != [] {
      StripIgnoresFront(f, m + b);
    } else {
      assert f + (m + b) == m + b;
    }
    if b != [] {
      StripIgnoresBack(m, b);
    } else {
      assert m + b == m;
    }
  }

  /** The slug of the untrimmed name is the slug of the trimmed name that the route stores. */
  lemma SlugIgnoresTrim(name: string)
    ensures GenerateSlug(Trim(name)) == GenerateSlug(name)
  {
    var f, b := LoweredSplit(name);
    StripIgnoresAround(f, ToLower(Trim(name)), b);
  }
}
