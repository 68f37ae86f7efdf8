/**
 * The phone pattern of the contact and consultancy routes,
 *   ^[+]?[(]?[0-9]{1,4}[)]?[-\s.]?[(]?[0-9]{1,4}[)]?[-\s.]?[0-9]{1,9}$
 * as a sequence of atoms (an optional character of a class, or a run of
 * between `lo` and `hi` digits) and a backtracking matcher that accepts a
 * string when some way of consuming it atom by atom uses it up.
 */
module PhonePattern {
  import opened Text

  datatype Class = PlusSign | OpenParen | CloseParen | Separator

  predicate InClass(cl: Class, c: char) {
    match cl
    case PlusSign => c == '+'
    case OpenParen => c == '('
    case CloseParen => c == ')'
    case Separator => c == '-' || c == '.' || IsSpace(c)
  }

  predicate IsDigit(c: char) {
    '0' <= c <= '9'
  }

  datatype Atom = Optional(cl: Class) | Digits(lo: nat, hi: nat)

  /** `[(]?[0-9]{1,4}[)]?`: a group of digits, possibly in parentheses. */
  const Group: seq<Atom> := [Optional(OpenParen), Digits(1, 4), Optional(CloseParen)]

  /** `[-\s.]?[0-9]{1,9}`: the last group. */
  const Last: seq<Atom> := [Optional(Separator), Digits(1, 9)]

  const Phone: seq<Atom> := [Optional(PlusSign)] + Group + [Optional(Separator)] + Group + Last

  /** Whether the atoms `p` consume exactly `s`. */
  predicate Matches(p: seq<Atom>, s: string)
    decreases |p|, 1, 0
  {
    if p == [] then s == []
    else match p[0]
      case Optional(cl) => (s != [] && InClass(cl, s[0]) && Matches(p[1..], s[1..])) || Matches(p[1..], s)
      case Digits(lo, hi) => DigitsThen(lo, hi, p[1..], s)
  }

  /** Between `lo` and `hi` digits, then the atoms `rest`. */
  predicate DigitsThen(lo: nat, hi: nat, rest: seq<Atom>, s: string)
    decreases |rest| + 1, 0, hi
  {
    || (lo == 0 && Matches(rest, s))
    || (hi > 0 && s != [] && IsDigit(s[0]) && DigitsThen(if lo == 0 then 0 else lo - 1, hi - 1, rest, s[1..]))
  }

  /** `phoneRegex.test(s)`. */
  predicate IsPhone(s: string) {
    Matches(Phone, s)
  }

  // The shortest and longest strings the atoms accept, and the characters they use.

  function MinLen(p: seq<Atom>): nat {
    if p == [] then 0 else (if p[0].Digits? then p[0].lo else 0) + MinLen(p[1..])
  }

  function MaxLen(p: seq<Atom>): nat {
    if p == [] then 0 else (if p[0].Digits? then p[0].hi else 1) + MaxLen(p[1..])
  }

  predicate PhoneChar(c: char) {
    IsDigit(c) || c == '+' || c == '(' || c == ')' || c == '-' || c == '.' || IsSpace(c)
  }

  predicate PhoneChars(s: string) {
    forall i :: 0 <= i < |s| ==> PhoneChar(s[i])
  }

  lemma {:induction false} MatchesShape(p: seq<Atom>, s: string)
    requires Matches(p, s)
    ensures MinLen(p) <= |s| <= MaxLen(p)
    ensures PhoneChars(s)
    decreases |p|, 1, 0
  {
    if p != [] {
      match p[0]
      case Optional(cl) =>
        if s != [] && InClass(cl, s[0]) && Matches(p[1..], s[1..]) {
          MatchesShape(p[1..], s[1..]);
          assert forall i :: 1 <= i < |s| ==> s[i] == s[1..][i - 1];
        } else {
          MatchesShape(p[1..], s);
        }
      case Digits(lo, hi) =>
        DigitsThenShape(lo, hi, p[1..], s);
    }
  }

  lemma {:induction false} DigitsThenShape(lo: nat, hi: nat, rest: seq<Atom>, s: string)
    requires DigitsThen(lo, hi, rest, s)
    ensures lo + MinLen(rest) <= |s| <= hi + MaxLen(rest)
    ensures PhoneChars(s)
    decreases |rest| + 1, 0, hi
  {
    if lo == 0 && Matches(rest, s) {
      MatchesShape(rest, s);
    } else {
      DigitsThenShape(if lo == 0 then 0 else lo - 1, hi - 1, rest, s[1..]);
      assert forall i :: 1 <= i < |s| ==> s[i] == s[1..][i - 1];
    }
  }

  /** A number the pattern accepts has 3 to 24 characters, all digits, '+', '(', ')', '-', '.' or whitespace. */
  lemma PhoneShape(s: string)
    requires IsPhone(s)
    ensures 3 <= |s| <= 24
    ensures PhoneChars(s)
  {
    MatchesShape(Phone, s);
    var plus, sep := [Optional(PlusSign)], [Optional(Separator)];
    assert MinLen(Group) == 1 && MaxLen(Group) == 6 by {
      assert Group[1..][1..] == [Optional(CloseParen)];
    }
    assert MinLen(Last) == 1 && MaxLen(Last) == 10 by {
      assert Last[1..] == [Digits(1, 9)];
    }
    LenConcat(plus, Group);
    LenConcat(plus + Group, sep);
    LenConcat(plus + Group + sep, Group);
    LenConcat(plus + Group + sep + Group, Last);
  }

  lemma {:induction false} LenConcat(p: seq<Atom>, q: seq<Atom>)
    ensures MinLen(p + q) == MinLen(p) + MinLen(q)
    ensures MaxLen(p + q) == MaxLen(p) + MaxLen(q)
  {
    if p == [] {
      assert p + q == q;
    } else {
      assert (p + q)[1..] == p[1..] + q;
      LenConcat(p[1..], q);
    }
  }

  predicate AllDigits(d: string) {
    forall i :: 0 <= i < |d| ==> IsDigit(d[i])
  }

  lemma TakeOptional(cl: Class, rest: seq<Atom>, c: char, s: string)
    requires InClass(cl, c) && Matches(rest, s)
    ensures Matches([Optional(cl)] + rest, [c] + s)
  {
    assert ([Optional(cl)] + rest)[1..] == rest;
    assert ([c] + s)[1..] == s;
  }

  lemma SkipOptional(cl: Class, rest: seq<Atom>, s: string)
    requires Matches(rest, s)
    ensures Matches([Optional(cl)] + rest, s)
  {
    assert ([Optional(cl)] + rest)[1..] == rest;
  }

  lemma {:induction false} DigitsThenRun(lo: nat, hi: nat, rest: seq<Atom>, d: string, s: string)
    requires AllDigits(d) && lo <= |d| <= hi && Matches(rest, s)
    ensures DigitsThen(lo, hi, rest, d + s)
    decreases |d|
  {
    if d != [] {
      assert (d + s)[1..] == d[1..] + s;
      DigitsThenRun(if lo == 0 then 0 else lo - 1, hi - 1, rest, d[1..], s);
    } else {
      assert d + s == s;
    }
  }

  lemma TakeDigits(lo: nat, hi: nat, rest: seq<Atom>, d: string, s: string)
    requires AllDigits(d) && lo <= |d| <= hi && Matches(rest, s)
    ensures Matches([Digits(lo, hi)] + rest, d + s)
  {
    DigitsThenRun(lo, hi, rest, d, s);
    assert ([Digits(lo, hi)] + rest)[1..] == rest;
  }

  /** A group of one to four digits written without parentheses. */
  lemma GroupThen(rest: seq<Atom>, d: string, s: string)
    requires AllDigits(d) && 1 <= |d| <= 4 && Matches(rest, s)
    ensures Matches(Group + rest, d + s)
  {
    SkipOptional(CloseParen, rest, s);
    TakeDigits(1, 4, [Optional(CloseParen)] + rest, d, s);
    SkipOptional(OpenParen, [Digits(1, 4)] + ([Optional(CloseParen)] + rest), d + s);
    assert Group + rest == [Optional(OpenParen)] + ([Digits(1, 4)] + ([Optional(CloseParen)] + rest));
  }

  lemma LastGroup(c: string)
    requires AllDigits(c) && 1 <= |c| <= 9
    ensures Matches(Last, c)
    ensures forall sep :: InClass(Separator, sep) ==> Matches(Last, [sep] + c)
  {
    assert Matches([], []);
    TakeDigits(1, 9, [], c, []);
    assert c + [] == c && [Digits(1, 9)] + [] == Last[1..];
    assert Last == [Optional(Separator)] + Last[1..];
    SkipOptional(Separator, Last[1..], c);
    forall sep | InClass(Separator, sep) ensures Matches(Last, [sep] + c) {
      TakeOptional(Separator, Last[1..], sep, c);
    }
  }

  /** Three groups of 1-4, 1-4 and 1-9 digits written one after the other pass. */
  lemma GroupsAccepted(a: string, b: string, c: string)
    requires AllDigits(a) && AllDigits(b) && AllDigits(c)
    requires 1 <= |a| <= 4 && 1 <= |b| <= 4 && 1 <= |c| <= 9
    ensures IsPhone(a + b + c)
  {
    LastGroup(c);
    GroupThen(Last, b, c);
    SkipOptional(Separator, Group + Last, b + c);
    GroupThen([Optional(Separator)] + (Group + Last), a, b + c);
    SkipOptional(PlusSign, Group + ([Optional(Separator)] + (Group + Last)), a + (b + c));
    assert Phone == [Optional(PlusSign)] + (Group + ([Optional(Separator)] + (Group + Last)));
    assert a + b + c == a + (b + c);
  }

  /** The same groups joined by a '-', a '.' or a whitespace pass too. */
  lemma SeparatedGroupsAccepted(a: string, b: string, c: string, sep: char)
    requires AllDigits(a) && AllDigits(b) && AllDigits(c)
    requires 1 <= |a| <= 4 && 1 <= |b| <= 4 && 1 <= |c| <= 9
    requires InClass(Separator, sep)
    ensures IsPhone(a + [sep] + b + [sep] + c)
  {
    LastGroup(c);
    GroupThen(Last, b, [sep] + c);
    TakeOptional(Separator, Group + Last, sep, b + ([sep] + c));
    GroupThen([Optional(Separator)] + (Group + Last), a, [sep] + (b + ([sep] + c)));
    SkipOptional(PlusSign, Group + ([Optional(Separator)] + (Group + Last)), a + ([sep] + (b + ([sep] + c))));
    assert Phone == [Optional(PlusSign)] + (Group + ([Optional(Separator)] + (Group + Last)));
    assert a + [sep] + b + [sep] + c == a + ([sep] + (b + ([sep] + c)));
  }

  /** Letters, lower or upper case, are never part of a phone number. */
  lemma RejectsLetters(s: string, i: nat)
    requires i < |s| && ('a' <= s[i] <= 'z' || 'A' <= s[i] <= 'Z')
    ensures !IsPhone(s)
  {
    assert IsPhone(s) ==> PhoneChars(s) by {
      if IsPhone(s) {
        PhoneShape(s);
      }
    }
    assert !PhoneChar(s[i]);
  }
}
