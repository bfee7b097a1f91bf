/** Small value-level helpers shared by the three game engines: an Option
    type, the truncating integer conversion that Python's int() applies to a
    scaled value, and Python's list indexing with negative positions. */
module Basics {

  datatype Option<+T> = None | Some(value: T)

  function Max(a: int, b: int): int { if a >= b then a else b }

  function Min(a: int, b: int): int { if a <= b then a else b }

  /** int(a / b) for a positive divisor: the exact quotient rounded toward
      zero, as Python's int() does to a float product such as x * 1.5. */
  function TruncDiv(a: int, b: int): (q: int)
    requires b > 0
    ensures 0 <= a ==> 0 <= q * b <= a < q * b + b
    ensures a < 0 ==> q * b - b < a <= q * b <= 0
  {
    if a >= 0 then DivBounds(a, b); a / b
    else DivBounds(-a, b); -((-a) / b)
  }

  lemma DivBounds(a: nat, b: int)
    requires b > 0
    ensures 0 <= (a / b) * b <= a < (a / b) * b + b
  {
    assert a == b * (a / b) + a % b;
  }

  /** Python's s[i] on a list of length n: a negative i counts from the end,
      anything outside [-n, n) raises IndexError (None here). */
  function PyIndex(i: int, n: nat): (r: Option<nat>)
    ensures r.Some? <==> 0 <= i + n && i < n
    ensures r.Some? ==> r.value < n && (r.value == i || r.value == i + n)
  {
    if 0 <= i < n then Some(i) else if 0 <= i + n && i < 0 then Some(i + n) else None
  }

  /** Python's s[a:b] for non-negative bounds: both ends are clamped to the
      length, so a slice that starts past the end is empty. */
  function Slice<T>(s: seq<T>, a: nat, b: nat): (r: seq<T>)
    ensures |r| == if b <= a || |s| <= a then 0 else Min(b, |s|) - a
    ensures forall k :: 0 <= k < |r| ==> r[k] == s[a + k]
  {
    if b <= a || |s| <= a then [] else s[a..Min(b, |s|)]
  }

  /** int(x * u) for a random factor u between lo / den and hi / den: the
      truncation is monotone, so the result lies between the truncations of
      the two extreme products (their order flips for a negative x). */
  predicate ScaledWithin(x: int, v: int, lo: nat, hi: nat, den: nat)
    requires 0 < den && lo <= hi
  {
    Min(TruncDiv(lo * x, den), TruncDiv(hi * x, den)) <= v <= Max(TruncDiv(lo * x, den), TruncDiv(hi * x, den))
  }

  /** int(damage * uniform(0.95, 2)). */
  predicate Jittered(damage: int, v: int) {
    ScaledWithin(damage, v, 19, 40, 20)
  }

  /** A non-negative damage rating never produces a negative hit, and a hit
      is at most twice the rating. */
  lemma JitterBounds(damage: int, v: int)
    requires damage >= 0 && Jittered(damage, v)
    ensures 0 <= v <= 2 * damage
  {
    assert TruncDiv(40 * damage, 20) == 2 * damage;
  }
}
