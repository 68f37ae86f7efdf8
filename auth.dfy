/**
 * lib/auth.ts: the e-mail format check `validateEmail` (the regular expression
 * /^[^\s@]+@[^\s@]+\.[^\s@]+$/, which the contact, consultancy and newsletter
 * routes repeat verbatim) and `getUserByEmail`, a lookup keyed by the
 * lower-cased address.
 */
module Auth {
  import opened Wrappers
  import opened Text

  /** No whitespace and no '@': the character class [^\s@]. */
  predicate NoSpaceOrAt(t: string) {
    forall i :: 0 <= i < |t| ==> !IsSpace(t[i]) && t[i] != '@'
  }

  /**
   * What the regular expression accepts: a local part and a domain around an
   * '@', both non-empty and free of whitespace and '@', the domain holding a
   * '.' that is neither its first nor its last character.
   */
  ghost predicate EmailShape(s: string) {
    exists at, dot :: 0 < at && at + 1 < dot < |s| - 1 && s[at] == '@' && s[dot] == '.'
      && NoSpaceOrAt(s[..at]) && NoSpaceOrAt(s[at + 1..])
  }

  /** The index of the first `c` in `s`, or `|s|` when there is none. */
  function IndexOf(s: string, c: char): (r: nat)
    ensures r <= |s|
    ensures r < |s| ==> s[r] == c
    ensures forall i :: 0 <= i < r ==> s[i] != c
  {
    if s == [] then 0
    else if s[0] == c then 0
    else 1 + IndexOf(s[1..], c)
  }

  /** A '.' strictly inside `t`. */
  predicate HasInnerDot(t: string) {
    exists k :: 0 < k < |t| - 1 && t[k] == '.'
  }

  /** `validateEmail`: split at the first '@' and check both sides. */
  function ValidateEmail(s: string): (ok: bool)
    ensures ok <==> EmailShape(s)
  {
    var at := IndexOf(s, '@');
    var ok := 0 < at < |s| && NoSpaceOrAt(s[..at]) && NoSpaceOrAt(s[at + 1..]) && HasInnerDot(s[at + 1..]);
    assert ok ==> EmailShape(s) by {
      if ok {
        var k :| 0 < k < |s[at + 1..]| - 1 && s[at + 1..][k] == '.';
        assert s[at + 1 + k] == '.';
      }
    }
    assert EmailShape(s) ==> ok by {
      if EmailShape(s) {
        var at', dot :| 0 < at' && at' + 1 < dot < |s| - 1 && s[at'] == '@' && s[dot] == '.'
          && NoSpaceOrAt(s[..at']) && NoSpaceOrAt(s[at' + 1..]);
        assert forall i :: 0 <= i < at' ==> s[i] == s[..at'][i];
        assert at == at';
        assert s[at + 1..][dot - at - 1] == '.';
      }
    }
    ok
  }

  /** An address that passes `validateEmail` has exactly one '@', no whitespace and neither starts nor ends with '@'. */
  lemma ValidEmailFacts(s: string)
    requires ValidateEmail(s)
    ensures NoSpace(s)
    ensures '@' in s && forall i, j :: 0 <= i < j < |s| && s[i] == '@' ==> s[j] != '@'
    ensures s[0] != '@' && s[|s| - 1] != '@'
    ensures |s| >= 5
  {
    var at, dot :| 0 < at && at + 1 < dot < |s| - 1 && s[at] == '@' && s[dot] == '.'
      && NoSpaceOrAt(s[..at]) && NoSpaceOrAt(s[at + 1..]);
    assert s[at] in s;
    forall i | 0 <= i < |s| ensures !IsSpace(s[i]) && (s[i] == '@' <==> i == at) {
      if i < at {
        assert s[..at][i] == s[i];
      } else if i > at {
        assert s[at + 1..][i - at - 1] == s[i];
      }
    }
  }

  /** The pattern does not forbid a trailing '.': "a@b.." passes. */
  lemma TrailingDotAccepted()
    ensures ValidateEmail("a@b..")
  {
    var s := "a@b..";
    assert s[..1] == "a" && s[2..] == "b..";
    assert 0 < 1 && 1 + 1 < 3 < |s| - 1 && s[1] == '@' && s[3] == '.';
    assert NoSpaceOrAt(s[..1]) && NoSpaceOrAt(s[1 + 1..]);
  }

  /** Nothing without an '@' passes. */
  lemma NoAtRejected(s: string)
    requires forall i :: 0 <= i < |s| ==> s[i] != '@'
    ensures !ValidateEmail(s)
  {
  }

  /** Changing the case of an ASCII letter never makes or unmakes an '@', a '.' or whitespace. */
  lemma CaseKeepsClass(c: char, d: char)
    requires LowerChar(c) == LowerChar(d)
    ensures (c == '@') == (d == '@') && (c == '.') == (d == '.') && IsSpace(c) == IsSpace(d)
  {
  }

  /** Addresses that differ only in the case of ASCII letters pass or fail `validateEmail` together. */
  lemma ValidateIgnoresCase(s: string, t: string)
    requires |s| == |t|
    requires forall i :: 0 <= i < |s| ==> LowerChar(s[i]) == LowerChar(t[i])
    ensures ValidateEmail(s) == ValidateEmail(t)
  {
    forall i | 0 <= i < |s|
      ensures (s[i] == '@') == (t[i] == '@') && (s[i] == '.') == (t[i] == '.') && IsSpace(s[i]) == IsSpace(t[i])
    {
      CaseKeepsClass(s[i], t[i]);
    }
    if EmailShape(s) {
      SameClassShape(s, t);
    }
    if EmailShape(t) {
      SameClassShape(t, s);
    }
  }

  /** The pattern looks only at where the '@', the '.' and the whitespace are. */
  lemma SameClassShape(s: string, t: string)
    requires |s| == |t| && EmailShape(s)
    requires forall i :: 0 <= i < |s| ==>
      (s[i] == '@') == (t[i] == '@') && (s[i] == '.') == (t[i] == '.') && IsSpace(s[i]) == IsSpace(t[i])
    ensures EmailShape(t)
  {
    var at, dot :| 0 < at && at + 1 < dot < |s| - 1 && s[at] == '@' && s[dot] == '.'
      && NoSpaceOrAt(s[..at]) && NoSpaceOrAt(s[at + 1..]);
    forall i | 0 <= i < at ensures !IsSpace(t[..at][i]) && t[..at][i] != '@' {
      assert s[..at][i] == s[i];
    }
    var domain := t[at + 1..];
    forall i | 0 <= i < |domain| ensures !IsSpace(domain[i]) && domain[i] != '@' {
      assert s[at + 1..][i] == s[at + 1 + i];
    }
    assert t[at] == '@' && t[dot] == '.';
  }

  /** A row of the user table (the password hash is opaque text here). */
  datatype User = User(id: string, email: string, name: string, passwordHash: string)

  /** `getUserByEmail`: the first user whose stored e-mail is the lower-cased argument. */
  function GetUserByEmail(users: seq<User>, email: string): (r: Option<User>)
    ensures r.Some? <==> exists i :: 0 <= i < |users| && users[i].email == ToLower(email)
    ensures r.Some? ==> r.value in users && r.value.email == ToLower(email)
  {
    if users == [] then None
    else if users[0].email == ToLower(email) then Some(users[0])
    else
      var r := GetUserByEmail(users[1..], email);
      assert forall i :: 0 < i < |users| ==> users[i] == users[1..][i - 1];
      r
  }

  /** Two addresses that differ only in the case of ASCII letters find the same user. */
  lemma {:induction false} LookupIgnoresCase(users: seq<User>, e1: string, e2: string)
    requires |e1| == |e2|
    requires forall i :: 0 <= i < |e1| ==> LowerChar(e1[i]) == LowerChar(e2[i])
    ensures GetUserByEmail(users, e1) == GetUserByEmail(users, e2)
  {
    assert ToLower(e1) == ToLower(e2);
    if users != [] {
      LookupIgnoresCase(users[1..], e1, e2);
    }
  }
}
