/** The dice notation "NdM" used for damage and healing: parsing as the
    three roll_dice functions do it (lower-case, split on 'd', int() on each
    part), the value a roll can take, and the formatting f"{n}d{m}" that the
    skill upgrades and monster attacks write back. */
module Dice {
  import opened Basics

  // ---------------------------------------------------------------------
  // str.lower() and str.split(sep) on ASCII text

  function LowerChar(c: char): char {
    if 'A' <= c <= 'Z' then (c as int + 32) as char else c
  }

  function Lower(s: string): (r: string)
    ensures |r| == |s|
    ensures forall k :: 0 <= k < |s| ==> r[k] == LowerChar(s[k])
  {
    if s == [] then [] else [LowerChar(s[0])] + Lower(s[1..])
  }

  lemma {:induction false} LowerAppend(a: string, b: string)
    ensures Lower(a + b) == Lower(a) + Lower(b)
  {
    assert |Lower(a + b)| == |Lower(a) + Lower(b)|;
    forall k | 0 <= k < |a + b|
      ensures Lower(a + b)[k] == (Lower(a) + Lower(b))[k]
    {
      if k < |a| { assert (a + b)[k] == a[k]; } else { assert (a + b)[k] == b[k - |a|]; }
    }
  }

  /** The parts joined back together with the separator between them. */
  function Join(parts: seq<string>, sep: char): string
    requires |parts| >= 1
  {
    if |parts| == 1 then parts[0] else parts[0] + [sep] + Join(parts[1..], sep)
  }

  function Occurrences(s: string, c: char): nat {
    if s == [] then 0 else (if s[0] == c then 1 else 0) + Occurrences(s[1..], c)
  }

  /** str.split(sep) with an explicit one-character separator: the pieces
      between separators, one more piece than there are separators. */
  function Split(s: string, sep: char): (parts: seq<string>)
    ensures |parts| == Occurrences(s, sep) + 1
    ensures Join(parts, sep) == s
    ensures forall k :: 0 <= k < |parts| ==> sep !in parts[k]
  {
    if s == [] then [""]
    else
      var rest := Split(s[1..], sep);
      if s[0] == sep then
        assert [s[0]] + Join(rest, sep) == s;
        [""] + rest
      else
        var parts := [[s[0]] + rest[0]] + rest[1..];
        assert parts[1..] == rest[1..];
        assert Join(parts, sep) == [s[0]] + Join(rest, sep) by {
          if |rest| > 1 {
            assert Join(rest, sep) == rest[0] + [sep] + Join(rest[1..], sep);
          }
        }
        assert [s[0]] + s[1..] == s;
        parts
  }

  lemma {:induction false} SplitNone(s: string, sep: char)
    requires sep !in s
    ensures Split(s, sep) == [s]
  {
    if s != [] {
      SplitNone(s[1..], sep);
      assert [s[0]] + s[1..] == s;
    }
  }

  lemma {:induction false} SplitAround(a: string, b: string, sep: char)
    requires sep !in a && sep !in b
    ensures Split(a + [sep] + b, sep) == [a, b]
  {
    if a == [] {
      assert a + [sep] + b == [sep] + b;
      assert ([sep] + b)[1..] == b;
      SplitNone(b, sep);
    } else {
      assert (a + [sep] + b)[1..] == a[1..] + [sep] + b;
      SplitAround(a[1..], b, sep);
      assert [a[0]] + a[1..] == a;
    }
  }

  lemma {:induction false} NoOccurrences(s: string, c: char)
    requires c !in s
    ensures Occurrences(s, c) == 0
  {
    if s != [] { NoOccurrences(s[1..], c); }
  }

  // ---------------------------------------------------------------------
  // int() and str() on decimal integers

  predicate IsDigit(c: char) { '0' <= c <= '9' }

  predicate AllDigits(s: string) { forall k :: 0 <= k < |s| ==> IsDigit(s[k]) }

  /** The value of a non-empty digit string, most significant digit first. */
  function DigitsValue(s: string): (n: nat)
    requires |s| >= 1 && AllDigits(s)
  {
    if |s| == 1 then s[0] as int - '0' as int
    else 10 * DigitsValue(s[..|s| - 1]) + (s[|s| - 1] as int - '0' as int)
  }

  /** int(s) on a string with an optional sign and at least one digit;
      anything else raises ValueError (None here). */
  function ParseInt(s: string): (r: Option<int>)
    ensures r.Some? <==> (|s| >= 1 && AllDigits(s)) || (|s| >= 2 && (s[0] == '-' || s[0] == '+') && AllDigits(s[1..]))
    ensures r.Some? && AllDigits(s) ==> r.value == DigitsValue(s)
    ensures r.Some? && !AllDigits(s) ==> r.value == (if s[0] == '-' then -1 else 1) * DigitsValue(s[1..])
    ensures r.Some? ==> |s| >= 1 && 'd' !in s
  {
    if |s| >= 2 && (s[0] == '-' || s[0] == '+') && AllDigits(s[1..]) then
      assert forall k :: 1 <= k < |s| ==> s[k] == s[1..][k - 1];
      var v: int := DigitsValue(s[1..]);
      Some(if s[0] == '-' then -v else v)
    else if |s| >= 1 && AllDigits(s) then Some(DigitsValue(s))
    else None
  }

  function DigitChar(d: nat): char
    requires d < 10
  {
    ('0' as int + d) as char
  }

  /** str(n) for a natural number: decimal digits, no leading zero. */
  function NatToString(n: nat): (s: string)
    ensures |s| >= 1 && AllDigits(s)
  {
    if n < 10 then [DigitChar(n)] else NatToString(n / 10) + [DigitChar(n % 10)]
  }

  /** str(i) for any integer: a minus sign before the digits of |i|. */
  function IntToString(i: int): (s: string)
    ensures |s| >= 1 && (s[0] == '-' <==> i < 0)
    ensures forall k :: 1 <= k < |s| ==> IsDigit(s[k])
    ensures i >= 0 ==> IsDigit(s[0])
  {
    if i < 0 then "-" + NatToString(-i) else NatToString(i)
  }

  lemma {:induction false} DigitsOfNat(n: nat)
    ensures DigitsValue(NatToString(n)) == n
  {
    if n >= 10 {
      var s := NatToString(n);
      assert s[..|s| - 1] == NatToString(n / 10);
      DigitsOfNat(n / 10);
    }
  }

  /** int(str(i)) == i. */
  lemma {:induction false} ParseIntToString(i: int)
    ensures ParseInt(IntToString(i)) == Some(i)
  {
    if i < 0 {
      var s := IntToString(i);
      assert s[1..] == NatToString(-i);
      DigitsOfNat(-i);
    } else {
      DigitsOfNat(i);
    }
  }

  lemma {:induction false} LowerIntToString(i: int)
    ensures Lower(IntToString(i)) == IntToString(i)
  {
    var s := IntToString(i);
    assert forall k :: 0 <= k < |s| ==> LowerChar(s[k]) == s[k];
  }

  // ---------------------------------------------------------------------
  // "NdM"

  datatype Dice = Dice(count: int, sides: int)

  /** num, sides = map(int, s.lower().split('d')): exactly two parts, each
      an integer; any other text raises and is reported as None. */
  function ParseDice(s: string): (r: Option<Dice>)
    ensures r.Some? ==> Occurrences(Lower(s), 'd') == 1
  {
    var parts := Split(Lower(s), 'd');
    if |parts| != 2 then None
    else match (ParseInt(parts[0]), ParseInt(parts[1]))
      case (Some(n), Some(m)) => Some(Dice(n, m))
      case _ => None
  }

  /** f"{n}d{m}". */
  function FormatDice(n: int, m: int): string {
    IntToString(n) + "d" + IntToString(m)
  }

  /** Reading back what was written gives the same count and sides. */
  lemma {:induction false} ParseFormatDice(n: int, m: int)
    ensures ParseDice(FormatDice(n, m)) == Some(Dice(n, m))
  {
    var a, b := IntToString(n), IntToString(m);
    assert 'd' !in a && 'd' !in b by {
      assert forall k :: 0 <= k < |a| ==> a[k] != 'd';
      assert forall k :: 0 <= k < |b| ==> b[k] != 'd';
    }
    LowerAppend(a + "d", b);
    LowerAppend(a, "d");
    LowerIntToString(n);
    LowerIntToString(m);
    assert Lower(FormatDice(n, m)) == a + ['d'] + b;
    SplitAround(a, b, 'd');
    ParseIntToString(n);
    ParseIntToString(m);
  }

  /** How many random draws roll_dice makes for s: N when the text is a
      well-formed "NdM" with N >= 1 and M >= 1. With N <= 0 the generator is
      empty; with M < 1 the first randint(1, M) raises before drawing. */
  function Draws(s: string): nat {
    match ParseDice(s)
    case Some(d) => if d.count >= 1 && d.sides >= 1 then d.count else 0
    case None => 0
  }

  function Sides(s: string): int {
    match ParseDice(s)
    case Some(d) => d.sides
    case None => 0
  }

  /** The die faces a roll of s reads: one per draw, each in [1, M]. */
  predicate FacesFit(s: string, faces: seq<int>) {
    |faces| == Draws(s) && forall k :: 0 <= k < |faces| ==> 1 <= faces[k] <= Sides(s)
  }

  /** Every value roll_dice(s) can return: a sum in [N, N*M] for a rollable
      "NdM", and 0 for everything else. */
  predicate IsOutcome(s: string, v: int) {
    match ParseDice(s)
    case Some(d) =>
      if d.count >= 1 && d.sides >= 1 then d.count <= v <= d.count * d.sides else v == 0
    case None => v == 0
  }

  function Sum(faces: seq<int>): int {
    if faces == [] then 0 else faces[0] + Sum(faces[1..])
  }

  /** Adding one to any entry adds one to the sum. */
  lemma {:induction false} SumBump(s: seq<int>, j: nat)
    requires j < |s|
    ensures Sum(s[j := s[j] + 1]) == Sum(s) + 1
  {
    if j == 0 {
      assert s[j := s[j] + 1][1..] == s[1..];
    } else {
      assert s[j := s[j] + 1][1..] == s[1..][j - 1 := s[j] + 1];
      SumBump(s[1..], j - 1);
    }
  }

  lemma {:induction false} SumBounds(faces: seq<int>, m: int)
    requires forall k :: 0 <= k < |faces| ==> 1 <= faces[k] <= m
    ensures |faces| <= Sum(faces) <= |faces| * m
  {
    if faces != [] {
      SumBounds(faces[1..], m);
      assert |faces| * m == m + (|faces| - 1) * m;
    }
  }

  /** sum(random.randint(1, M) for _ in range(N)) on the given faces. */
  function Roll(s: string, faces: seq<int>): (v: int)
    requires FacesFit(s, faces)
    ensures IsOutcome(s, v)
  {
    SumBounds(faces, Sides(s));
    Sum(faces)
  }

  /** n faces in [1, m] that add up to v. */
  function Spread(n: nat, m: int, v: int): (faces: seq<int>)
    requires m >= 1 && n <= v <= n * m
    ensures |faces| == n && Sum(faces) == v
    ensures forall k :: 0 <= k < n ==> 1 <= faces[k] <= m
  {
    if n == 0 then []
    else
      var first := Min(m, v - (n - 1));
      assert (n - 1) * m == n * m - m;
      [first] + Spread(n - 1, m, v - first)
  }

  /** Every value IsOutcome admits is the result of some roll, so IsOutcome
      is exactly the set of values roll_dice can return. */
  lemma OutcomeReachable(s: string, v: int)
    requires IsOutcome(s, v)
    ensures exists faces :: FacesFit(s, faces) && Roll(s, faces) == v
  {
    if Draws(s) == 0 {
      assert FacesFit(s, []) && Roll(s, []) == v;
    } else {
      var faces := Spread(Draws(s), Sides(s), v);
      assert FacesFit(s, faces) && Roll(s, faces) == v;
    }
  }

  /** A rolled "{n}d{m}" with m >= 1 lies in [n, n*m] and is 0 when n <= 0. */
  lemma FormattedOutcome(n: int, m: int, v: int)
    requires m >= 1 && IsOutcome(FormatDice(n, m), v)
    ensures n <= 0 ==> v == 0
    ensures n >= 1 ==> n <= v <= n * m
  {
    ParseFormatDice(n, m);
  }

  // ---------------------------------------------------------------------
  // The newest engine's roll_dice also accepts non-string arguments.

  /** The argument handed to roll_dice: text, an int, or any other value. */
  datatype DiceArg = Text(text: string) | Number(n: int) | OtherValue

  /** Every value the newest roll_dice can return: 0 for an int, a
      non-string or "none" in any case, otherwise as for text. */
  predicate IsArgOutcome(arg: DiceArg, v: int) {
    match arg
    case Text(s) => if Lower(s) == "none" then v == 0 else IsOutcome(s, v)
    case _ => v == 0
  }

  /** The early "none" return changes nothing: "none" does not parse, so the
      older roll_dice returns 0 for it as well. */
  lemma {:induction false} NoneShortcutAgrees(s: string, v: int)
    ensures IsArgOutcome(Text(s), v) <==> IsOutcome(s, v)
  {
    if Lower(s) == "none" {
      var l := Lower(s);
      assert 'd' !in l;
      NoOccurrences(l, 'd');
    }
  }
}
