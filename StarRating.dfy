/**
 * The read-only star display of `components/StarRating.tsx`: a row of
 * `totalStars` icons (five when the prop is absent), icon `i` (counting
 * from 1) filled when `i <= rating`. Ratings and star counts are numbers,
 * so both are `real` here.
 */
module StarRating {
  import opened Types

  /** The default of the `totalStars` prop. */
  const DefaultTotal: real := 5.0

  /** How many times `for (let i = 1; i <= totalStars; i++)` runs. */
  function IconCount(totalStars: Option<real>): (n: nat)
    ensures var t := if totalStars.None? then DefaultTotal else totalStars.value;
      && (n == 0 <==> t < 1.0)
      && (n > 0 ==> n as real <= t < (n + 1) as real)
  {
    var t := if totalStars.None? then DefaultTotal else totalStars.value;
    if t < 1.0 then 0 else t.Floor
  }

  /** The icons as a row of "filled" flags: icon `k + 1` is filled when
      `k + 1 <= rating`. */
  function Icons(rating: real, n: nat): seq<bool> {
    seq(n, k requires 0 <= k < n => (k + 1) as real <= rating)
  }

  /** The rendering loop: one icon per pass, filled or empty. */
  method Stars(rating: real, totalStars: Option<real>) returns (stars: seq<bool>)
    ensures stars == Icons(rating, IconCount(totalStars))
    ensures |stars| == IconCount(totalStars)
  {
    var total := if totalStars.None? then DefaultTotal else totalStars.value;
    var n := IconCount(totalStars);
    stars := [];
    var i := 1;
    while i as real <= total
      invariant 1 <= i <= n + 1
      invariant stars == Icons(rating, i - 1)
      decreases n + 1 - i
    {
      stars := stars + [i as real <= rating];
      i := i + 1;
    }
  }

  /** Filled icons come first: the row is a run of filled icons, as many as
      the rating rounded down and clamped to `0..n`, then empty ones, and
      that run is what `Filled` counts. */
  lemma FilledPrefix(rating: real, n: nat)
    ensures var c := Clamp(rating.Floor, n);
      && Icons(rating, n) == seq(c, _ => true) + seq(n - c, _ => false)
      && Filled(Icons(rating, n)) == c
  {
    FilledCount(rating, n);
  }

  /** The number of filled flags in a row. */
  function Filled(s: seq<bool>): (c: nat)
    ensures c <= |s|
  {
    if s == [] then 0 else Filled(s[..|s| - 1]) + (if s[|s| - 1] then 1 else 0)
  }

  /** Clamping a value to `0..n`. */
  function Clamp(x: int, n: nat): (r: nat)
    ensures r <= n
    ensures 0 <= x <= n ==> r == x
  {
    if x < 0 then 0 else if x > n then n else x
  }

  /** The number of filled icons is the rating rounded down, clamped to
      `0..n`; for a whole rating that is `max(0, min(rating, n))`. */
  lemma {:induction false} FilledCount(rating: real, n: nat)
    ensures Filled(Icons(rating, n)) == Clamp(rating.Floor, n)
  {
    if n > 0 {
      var s := Icons(rating, n);
      assert s[..n - 1] == Icons(rating, n - 1);
      FilledCount(rating, n - 1);
    }
  }

  /** A five-icon row with the default count shows `rating` filled icons
      for a whole rating between 0 and 5. */
  lemma DefaultRow(rating: int)
    requires 0 <= rating <= 5
    ensures |Icons(rating as real, IconCount(None))| == 5
    ensures Filled(Icons(rating as real, IconCount(None))) == rating
  {
    FilledCount(rating as real, 5);
  }
}
