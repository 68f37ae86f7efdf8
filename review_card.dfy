/**
 * components/reviews/review-card.tsx: the three expressions of the review
 * card that compute what is shown: the truncated review text, the number of
 * filled stars, and the placeholder initial when there is no avatar.
 */
module ReviewCard {
  import opened Wrappers
  import opened Text

  const MaxShown := 90
  const Ellipsis := "..."

  /** `truncate`: texts longer than 90 characters keep their first 90 and gain "...". */
  function Truncate(txt: string): (r: string)
    ensures |txt| <= MaxShown ==> r == txt
    ensures |txt| > MaxShown ==> |r| == MaxShown + 3 && r[..MaxShown] == txt[..MaxShown] && r[MaxShown..] == Ellipsis
  {
    if |txt| > MaxShown then txt[..MaxShown] + Ellipsis else txt
  }

  /** The shown text is at most 93 characters and begins with the review's opening. */
  lemma TruncateBounds(txt: string)
    ensures |Truncate(txt)| <= MaxShown + 3
    ensures var k := if |txt| <= MaxShown then |txt| else MaxShown;
      |Truncate(txt)| >= k && Truncate(txt)[..k] == txt[..k]
  {
  }

  /** Truncating a shown text again changes nothing. */
  lemma TruncateIdempotent(txt: string)
    ensures Truncate(Truncate(txt)) == Truncate(txt)
  {
    if |txt| > MaxShown {
      var r := Truncate(txt);
      assert r[..MaxShown] == txt[..MaxShown];
      assert r[..MaxShown] + Ellipsis == r;
    }
  }

  /** Star `i` (counting from 0) is drawn filled when `i < rating`. */
  predicate StarFilled(i: nat, rating: int) {
    i < rating
  }

  /** The number of filled stars among the first `n`. */
  function FilledAmong(n: nat, rating: int): nat {
    if n == 0 then 0 else FilledAmong(n - 1, rating) + (if StarFilled(n - 1, rating) then 1 else 0)
  }

  function Clamp(x: int, lo: int, hi: int): int
    requires lo <= hi
  {
    if x < lo then lo else if x > hi then hi else x
  }

  const StarCount := 5

  /** Among the first `n` stars, `rating` clamped to [0, n] are filled. */
  lemma {:induction false} FilledAmongClamps(n: nat, rating: int)
    ensures FilledAmong(n, rating) == Clamp(rating, 0, n)
  {
    if n > 0 {
      FilledAmongClamps(n - 1, rating);
    }
  }

  /** The card's five stars: the rating clamped to [0, 5] are filled. */
  function FilledStars(rating: int): (r: nat)
    ensures r <= StarCount
    ensures r == Clamp(rating, 0, StarCount)
  {
    FilledAmongClamps(StarCount, rating);
    FilledAmong(StarCount, rating)
  }

  /** What stands in the avatar circle. */
  datatype Avatar = Picture(src: string) | Initial(letter: string)

  /** `avatar ? <Image src={avatar}> : name.charAt(0).toUpperCase()`. */
  function AvatarFor(name: string, avatar: Option<string>): (a: Avatar)
    ensures Present(avatar) ==> a == Picture(avatar.value)
    ensures !Present(avatar) ==> a.Initial? && |a.letter| <= 1 && (a.letter == [] <==> name == [])
    ensures !Present(avatar) && name != [] ==> a.letter == [UpperChar(name[0])]
  {
    if Present(avatar) then Picture(avatar.value)
    else Initial(ToUpper(if name == [] then [] else name[..1]))
  }

  /** The initial does not depend on the case the name starts with. */
  lemma InitialIgnoresCase(name: string)
    ensures AvatarFor(ToLower(name), None) == AvatarFor(name, None)
  {
    if name != [] {
      assert UpperChar(LowerChar(name[0])) == UpperChar(name[0]);
    }
  }
}
