/** Character progression shared by the engines: the scaled growth of the
    level threshold, mana and health on a level-up, the level-up loop of the
    two older engines, and their "1dN" to "1d(N+2)" skill upgrade. */
module Progression {
  import opened Basics
  import opened Dice

  /** int(t * 1.5): the next level's threshold. */
  function ScaleThreshold(t: int): (u: int)
    ensures 2 * u <= 3 * t < 2 * u + 2 || (t < 0 && 2 * u - 2 < 3 * t <= 2 * u)
    ensures t >= 1 ==> u >= t
  {
    TruncDiv(3 * t, 2)
  }

  /** int(m * 1.2): maximum mana after a level-up. */
  function ScaleMana(m: int): (u: int)
    ensures 0 <= m ==> 5 * u <= 6 * m < 5 * u + 5
    ensures m < 0 ==> 5 * u - 5 < 6 * m <= 5 * u
    ensures m >= 0 ==> u >= m
  {
    TruncDiv(6 * m, 5)
  }

  /** int(h * 1.1): maximum health after a level-up (newest engine only). */
  function ScaleHealth(h: int): (u: int)
    ensures 0 <= h ==> 10 * u <= 11 * h < 10 * u + 10
    ensures h < 0 ==> 10 * u - 10 < 11 * h <= 10 * u
    ensures h >= 0 ==> u >= h
  {
    TruncDiv(11 * h, 10)
  }

  // ---------------------------------------------------------------------
  // gain_xp of the two older engines

  /** The player entries gain_xp reads and writes. */
  datatype Progress = Progress(level: int, xp: int, xpToNext: int, skillPoints: int, maxMana: int, mana: int)

  /** One pass of the level-up loop. */
  function LevelUp(p: Progress): (q: Progress)
    requires p.xp >= p.xpToNext
  {
    var maxMana := ScaleMana(p.maxMana);
    Progress(p.level + 1, p.xp - p.xpToNext, ScaleThreshold(p.xpToNext), p.skillPoints + 1, maxMana, maxMana)
  }

  /** The state the level-up loop stops in. */
  function Settle(p: Progress): (q: Progress)
    requires p.xpToNext >= 1
    decreases p.xp
    ensures q.xpToNext >= p.xpToNext
  {
    if p.xp < p.xpToNext then p else Settle(LevelUp(p))
  }

  /** The loop leaves xp below the threshold, gives one level and one skill
      point per pass, changes nothing when no level is due, refills mana to
      its new maximum whenever a level was gained, and never lowers the mana
      maximum. */
  lemma {:induction false} SettleFacts(p: Progress)
    requires p.xpToNext >= 1
    decreases p.xp
    ensures var q := Settle(p);
      q.xp < q.xpToNext &&
      q.level - p.level == q.skillPoints - p.skillPoints >= 0 &&
      (p.xp < p.xpToNext <==> q == p) &&
      (p.xp >= p.xpToNext ==> q.level > p.level && q.mana == q.maxMana && 0 <= q.xp) &&
      (p.maxMana >= 0 ==> q.maxMana >= p.maxMana)
  {
    if p.xp >= p.xpToNext {
      SettleFacts(LevelUp(p));
    }
  }

  /** One grant of 25 xp at the starting threshold of 10 gives two levels. */
  lemma SettleTwoLevels()
    ensures Settle(Progress(1, 25, 10, 0, 7, 7)) == Progress(3, 0, 22, 2, 9, 9)
  {
    assert LevelUp(Progress(1, 25, 10, 0, 7, 7)) == Progress(2, 15, 15, 1, 8, 8);
    assert LevelUp(Progress(2, 15, 15, 1, 8, 8)) == Progress(3, 0, 22, 2, 9, 9);
  }

  /** The xp given up by the loop is exactly the thresholds of the levels it
      passed: each pass pays the threshold in force at that moment. */
  function ThresholdsPaid(t: int, levels: int): int
    decreases levels
  {
    if levels <= 0 then 0 else t + ThresholdsPaid(ScaleThreshold(t), levels - 1)
  }

  lemma {:induction false} SettlePaysThresholds(p: Progress)
    requires p.xpToNext >= 1
    decreases p.xp
    ensures var q := Settle(p);
      p.xp - q.xp == ThresholdsPaid(p.xpToNext, q.level - p.level)
  {
    if p.xp >= p.xpToNext {
      SettlePaysThresholds(LevelUp(p));
      SettleFacts(LevelUp(p));
    }
  }

  // ---------------------------------------------------------------------
  // The skill upgrade of the two older engines

  /** "1dN" becomes "1d(N+2)"; any damage string that does not start with
      "1d" followed by an integer is refused. */
  function WidenDie(s: string): (r: Option<string>)
    ensures r.Some? <==> |s| >= 2 && s[..2] == "1d" && ParseInt(s[2..]).Some?
  {
    if |s| >= 2 && s[..2] == "1d" then
      match ParseInt(s[2..])
      case Some(n) => Some("1d" + IntToString(n + 2))
      case None => None
    else None
  }

  /** A string WidenDie accepts is a one-die "1dN", and its widened form is a
      one-die "1d(N+2)" again, so it can be widened once more. */
  lemma {:induction false} WidenDieRolls(s: string, n: int)
    requires |s| >= 2 && s[..2] == "1d" && ParseInt(s[2..]) == Some(n)
    ensures ParseDice(s) == Some(Dice(1, n))
    ensures WidenDie(s) == Some(FormatDice(1, n + 2))
    ensures ParseDice(WidenDie(s).value) == Some(Dice(1, n + 2))
  {
    OneDie(s[2..], n);
    assert s == "1d" + s[2..];
    assert IntToString(1) == "1";
    assert FormatDice(1, n + 2) == "1d" + IntToString(n + 2);
    ParseFormatDice(1, n + 2);
  }

  lemma {:induction false} OneDie(rest: string, n: int)
    requires ParseInt(rest) == Some(n)
    ensures ParseDice("1d" + rest) == Some(Dice(1, n))
  {
    assert Lower(rest) == rest by {
      assert forall k :: 0 <= k < |rest| ==> LowerChar(rest[k]) == rest[k];
    }
    LowerAppend("1d", rest);
    assert Lower("1d") == "1d" by {
      assert LowerChar('1') == '1' && LowerChar('d') == 'd';
    }
    assert "1d" + rest == "1" + ['d'] + rest;
    SplitAround("1", rest, 'd');
    assert ParseInt("1") == Some(1) by {
      assert AllDigits("1");
      assert DigitsValue("1") == 1;
    }
  }
}
