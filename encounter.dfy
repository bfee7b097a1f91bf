/** Monster templates and the encounter helpers of the three engines: the
    random group of one to five monsters, the newest engine's sliding pool
    over the monster list, the boss pick, the in-place list rotation of the
    two older engines and the oldest engine's per-floor window. */
module Encounter {
  import opened Basics

  /** An entry of a monster list: what every fight copies. */
  datatype Template = Template(name: string, health: int, damage: int)

  /** A monster of a group, after generate_monster_group recorded its
      starting health as max_health. */
  datatype Monster = Monster(name: string, health: int, maxHealth: int, damage: int)

  function Spawn(t: Template): (m: Monster)
    ensures m.name == t.name && m.health == t.health && m.damage == t.damage
    ensures m.maxHealth == m.health
  {
    Monster(t.name, t.health, t.health, t.damage)
  }

  /** The indices of the monsters still standing, in order. */
  function Living(g: seq<Monster>): (ix: seq<nat>)
    ensures forall k :: 0 <= k < |ix| ==> ix[k] < |g| && g[ix[k]].health > 0
  {
    if g == [] then []
    else Living(g[..|g| - 1]) + (if g[|g| - 1].health > 0 then [|g| - 1] else [])
  }

  /** Every standing monster is listed, so no standing monster is missed
      when a target is drawn. */
  lemma {:induction false} LivingComplete(g: seq<Monster>)
    ensures forall i :: 0 <= i < |g| && g[i].health > 0 ==> i in Living(g)
  {
    if g != [] {
      LivingComplete(g[..|g| - 1]);
    }
  }

  // ---------------------------------------------------------------------
  // Group size: after the first monster, each of up to four further draws
  // happens only when the previous one did and its random check passes.

  /** The number of monsters a group gets when grows[k] says whether the
      (k+1)-th random check passed. */
  function GroupSize(grows: seq<bool>): (n: nat)
    requires |grows| == 4
    ensures 1 <= n <= 5
    ensures forall k :: 0 <= k < n - 1 ==> grows[k]
    ensures n <= 4 ==> !grows[n - 1]
  {
    if !grows[0] then 1
    else if !grows[1] then 2
    else if !grows[2] then 3
    else if !grows[3] then 4
    else 5
  }

  /** Draws a group: the first monster always, each further one only when
      the cascade of checks allows it; picks[k] is the entry the k-th draw
      took from the pool. Every monster is a copy whose max_health is its
      health. */
  method DrawGroup(pool: seq<Template>, grows: seq<bool>, picks: seq<nat>) returns (group: seq<Monster>)
    requires |grows| == 4 && |picks| == 5
    requires forall k :: 0 <= k < 5 ==> picks[k] < |pool|
    ensures |group| == GroupSize(grows)
    ensures forall k :: 0 <= k < |group| ==> group[k] == Spawn(pool[picks[k]])
  {
    var drawn := [pool[picks[0]]];
    if grows[0] {
      drawn := drawn + [pool[picks[1]]];
      if grows[1] {
        drawn := drawn + [pool[picks[2]]];
        if grows[2] {
          drawn := drawn + [pool[picks[3]]];
          if grows[3] {
            drawn := drawn + [pool[picks[4]]];
          }
        }
      }
    }
    group := [];
    for k := 0 to |drawn|
      invariant |group| == k
      invariant forall j :: 0 <= j < k ==> group[j] == Spawn(drawn[j])
    {
      group := group + [Spawn(drawn[k])];
    }
  }

  // ---------------------------------------------------------------------
  // The newest engine: a window of three entries starting at the rotation
  // index, the boss just after it, and an index that slides by one per
  // floor until the window reaches the end of the list.

  /** monster_list[i:i + 3]. The slice already takes every entry the
      top-up loop after it could append, so that loop never runs. */
  function Pool(catalog: seq<Template>, i: nat): (pool: seq<Template>)
    ensures |pool| == if i < |catalog| then Min(3, |catalog| - i) else 0
    ensures forall k :: 0 <= k < |pool| ==> pool[k] == catalog[i + k]
    ensures !(|pool| < 3 && i + |pool| < |catalog|)
  {
    Slice(catalog, i, i + 3)
  }

  /** Relative odds of the pool entries: the prefix of [10, 7, 3] as long as
      the pool, every entry possible and earlier (weaker) ones likelier. */
  function Weights(n: nat): (w: seq<nat>)
    requires n <= 3
    ensures |w| == n
    ensures forall k :: 0 <= k < n ==> w[k] > 0
    ensures forall j, k :: 0 <= j < k < n ==> w[j] > w[k]
  {
    [10, 7, 3][..n]
  }

  /** The boss of the newest engine: the entry just past the pool, or the
      last entry when the list ends sooner. */
  function PoolBoss(catalog: seq<Template>, i: nat): (b: Template)
    requires |catalog| > 0
    ensures i + 3 < |catalog| ==> b == catalog[i + 3]
    ensures i + 3 >= |catalog| ==> b == catalog[|catalog| - 1]
  {
    catalog[Min(i + 3, |catalog| - 1)]
  }

  /** When the pool is a genuine window of the list, the boss is the entry
      right after it or the last entry of the pool itself. */
  lemma BossFollowsPool(catalog: seq<Template>, i: nat)
    requires i < |catalog|
    ensures var pool := Pool(catalog, i);
      PoolBoss(catalog, i) == if i + 3 < |catalog| then catalog[i + |pool|] else pool[|pool| - 1]
  {
  }

  /** rotate_monsters of the newest engine: advance the index by one while
      a full window still fits after it. */
  function NextRotation(i: nat, n: nat): (j: nat)
    ensures j == i || j == i + 1
    ensures j == i + 1 <==> i + 3 < n
  {
    if i + 3 < n then i + 1 else i
  }

  /** The index after k floors, starting from 0. */
  function RotationAfter(k: nat, n: nat): nat {
    if k == 0 then 0 else NextRotation(RotationAfter(k - 1, n), n)
  }

  /** From index 0 the index climbs one per floor and stops at n - 3, so the
      pool always holds three entries once the list has three. */
  lemma {:induction false} RotationSettles(k: nat, n: nat)
    ensures RotationAfter(k, n) == if n < 3 then 0 else Min(k, n - 3)
  {
    if k > 0 { RotationSettles(k - 1, n); }
  }

  lemma PoolStaysFull(catalog: seq<Template>, k: nat)
    requires |catalog| >= 3
    ensures |Pool(catalog, RotationAfter(k, |catalog|))| == 3
  {
    RotationSettles(k, |catalog|);
  }

  // ---------------------------------------------------------------------
  // The two older engines: the boss is picked by floor, and the list
  // itself is rotated left by one after each floor when it is longer than
  // three.

  /** monster_list[min(floor * 3, len - 1)]. */
  function FloorBoss(catalog: seq<Template>, floor: nat): (b: Template)
    requires |catalog| > 0
    ensures floor * 3 < |catalog| ==> b == catalog[floor * 3]
    ensures floor * 3 >= |catalog| ==> b == catalog[|catalog| - 1]
  {
    catalog[Min(floor * 3, |catalog| - 1)]
  }

  /** monster_list.append(monster_list.pop(0)) when the list has more than
      three entries. */
  function RotateLeft<T>(s: seq<T>): (r: seq<T>)
    ensures |r| == |s|
    ensures |s| <= 3 ==> r == s
  {
    if |s| > 3 then s[1..] + [s[0]] else s
  }

  /** A rotation keeps the contents and moves every entry one place towards
      the front, the front one to the back. */
  lemma RotateLeftFacts<T>(s: seq<T>)
    ensures multiset(RotateLeft(s)) == multiset(s)
    ensures |s| > 3 ==> RotateLeft(s)[|s| - 1] == s[0] && forall j :: 0 <= j < |s| - 1 ==> RotateLeft(s)[j] == s[j + 1]
  {
    if |s| > 3 {
      assert s == [s[0]] + s[1..];
    }
  }

  function RotateTimes<T>(s: seq<T>, k: nat): seq<T> {
    if k == 0 then s else RotateLeft(RotateTimes(s, k - 1))
  }

  /** After k floors entry j of a list longer than three is the entry that
      stood (j + k) mod len places from the front, and the list keeps its
      length and contents. */
  lemma RotateTimesShifts<T>(s: seq<T>, k: nat)
    requires |s| > 3
    ensures |RotateTimes(s, k)| == |s| && multiset(RotateTimes(s, k)) == multiset(s)
    ensures forall j :: 0 <= j < |s| ==> RotateTimes(s, k)[j] == s[(j + k) % |s|]
  {
    RotateTimesKeeps(s, k);
    forall j | 0 <= j < |s|
      ensures RotateTimes(s, k)[j] == s[(j + k) % |s|]
    {
      RotateTimesAt(s, k, j);
    }
  }

  /** Rotating never changes the length or the contents of the list. */
  lemma {:induction false} RotateTimesKeeps<T>(s: seq<T>, k: nat)
    ensures |RotateTimes(s, k)| == |s| && multiset(RotateTimes(s, k)) == multiset(s)
  {
    if k > 0 {
      RotateTimesKeeps(s, k - 1);
      RotateLeftFacts(RotateTimes(s, k - 1));
    }
  }

  /** One entry at a time: each rotation moves every entry one further
      along, the front one to the back. */
  lemma {:induction false} RotateTimesAt<T>(s: seq<T>, k: nat, j: nat)
    requires |s| > 3 && j < |s|
    ensures |RotateTimes(s, k)| == |s| && RotateTimes(s, k)[j] == s[(j + k) % |s|]
  {
    var n := |s|;
    RotateTimesKeeps(s, k);
    if k == 0 {
      DivModUnique(j, n, 0, j);
    } else {
      var p := RotateTimes(s, k - 1);
      RotateTimesKeeps(s, k - 1);
      RotateLeftFacts(p);
      if j < n - 1 {
        RotateTimesAt(s, k - 1, j + 1);
        assert j + 1 + (k - 1) == j + k;
      } else {
        RotateTimesAt(s, k - 1, 0);
        ModWrap(k, n);
      }
    }
  }

  lemma ModWrap(k: nat, n: nat)
    requires k >= 1 && n >= 1
    ensures (n - 1 + k) % n == (k - 1) % n
  {
    var a := k - 1;
    DivModUnique(a + n, n, a / n + 1, a % n);
  }

  /** The remainder is the only r in [0, n) with a == q * n + r. */
  lemma DivModUnique(a: int, n: int, q: int, r: int)
    requires n > 0 && 0 <= r < n && a == q * n + r
    ensures a % n == r && a / n == q
  {
    var q', r' := a / n, a % n;
    assert (q - q') * n == r' - r;
    if q > q' {
      MulAtLeast(q - q', n);
    } else if q < q' {
      MulAtLeast(q' - q, n);
    }
  }

  lemma {:induction false} MulAtLeast(d: nat, n: int)
    requires d >= 1 && n > 0
    ensures d * n >= n
  {
    if d > 1 {
      MulAtLeast(d - 1, n);
      assert d * n == (d - 1) * n + n;
    }
  }

  // ---------------------------------------------------------------------
  // The oldest engine: three consecutive entries per floor, read from the
  // list repeated three times when the plain slice runs short.

  /** The oldest engine's monster list. */
  const EyumMonsters: seq<Template> := [
    Template("Slime", 6, 2), Template("Goblin", 8, 3), Template("Wolf", 12, 4),
    Template("Slime 2", 16, 5), Template("Goblin 2", 20, 6), Template("Wolf 2", 25, 7)]

  function WindowStart(floor: int): nat
    requires floor >= 1
  {
    (floor - 1) * 3
  }

  /** get_monster_group(floor) as written. */
  function MonsterWindow(catalog: seq<Template>, floor: int): (w: seq<Template>)
    requires floor >= 1
    ensures |w| <= 3
  {
    var i := WindowStart(floor);
    var group := Slice(catalog, i, i + 3);
    if |group| < 3 then Slice(catalog + catalog + catalog, i, i + 3) else group
  }

  /** While the window starts inside the tripled list with room for three,
      it holds three entries read cyclically from the floor's start. */
  lemma WindowWraps(catalog: seq<Template>, floor: int)
    requires floor >= 1 && WindowStart(floor) + 3 <= 3 * |catalog|
    ensures var w := MonsterWindow(catalog, floor);
      |w| == 3 && forall k :: 0 <= k < 3 ==> w[k] == catalog[(WindowStart(floor) + k) % |catalog|]
  {
    var n, i := |catalog|, WindowStart(floor);
    var w := MonsterWindow(catalog, floor);
    if i + 3 <= n {
      assert w == Slice(catalog, i, i + 3);
      forall k | 0 <= k < 3
        ensures w[k] == catalog[(i + k) % n]
      {
        DivModUnique(i + k, n, 0, i + k);
      }
    } else {
      assert w == Slice(catalog + catalog + catalog, i, i + 3);
      forall k | 0 <= k < 3
        ensures w[k] == catalog[(i + k) % n]
      {
        TripledAt(catalog, i + k);
      }
    }
  }

  lemma TripledAt<T>(s: seq<T>, j: nat)
    requires j < 3 * |s|
    ensures (s + s + s)[j] == s[j % |s|]
  {
    var n := |s|;
    if j < n {
      DivModUnique(j, n, 0, j);
    } else if j < 2 * n {
      DivModUnique(j, n, 1, j - n);
    } else {
      DivModUnique(j, n, 2, j - 2 * n);
    }
  }

  /** Once the start passes the tripled list, the window is empty. */
  lemma WindowEmpties(catalog: seq<Template>, floor: int)
    requires floor >= 1 && WindowStart(floor) >= 3 * |catalog|
    ensures MonsterWindow(catalog, floor) == []
  {
  }

  /** With the six-entry list, floor 7 has no monsters: room i then asks for
      monsters[i % 0], which raises ZeroDivisionError. */
  lemma WindowEmptyOnFloorSeven()
    ensures MonsterWindow(EyumMonsters, 7) == []
  {
    WindowEmpties(EyumMonsters, 7);
  }

  /** The window the tripled fallback aims at: three entries read
      cyclically from the floor's start, on every floor. */
  function WrappedWindow(catalog: seq<Template>, floor: int): (w: seq<Template>)
    requires floor >= 1 && |catalog| > 0
    ensures |w| == 3
    ensures forall k :: 0 <= k < 3 ==> w[k] == catalog[(WindowStart(floor) + k) % |catalog|]
  {
    var i := WindowStart(floor);
    [catalog[i % |catalog|], catalog[(i + 1) % |catalog|], catalog[(i + 2) % |catalog|]]
  }

  /** The wrapped window agrees with get_monster_group wherever the latter
      still returns three entries. */
  lemma WrappedWindowAgrees(catalog: seq<Template>, floor: int)
    requires floor >= 1 && |catalog| > 0 && WindowStart(floor) + 3 <= 3 * |catalog|
    ensures WrappedWindow(catalog, floor) == MonsterWindow(catalog, floor)
  {
    WindowWraps(catalog, floor);
  }

  // ---------------------------------------------------------------------
  // Walking a floor: what a fight can end in, and how many rooms a run of
  // fights gets through before one of them ends the walk.

  /** combat's result: True, False, None or "exit". */
  datatype FightResult = Won | Lost | Fled | Quit

  predicate AllWon(fights: seq<FightResult>) {
    forall k :: 0 <= k < |fights| ==> fights[k] == Won
  }

  /** The rooms entered: every fight up to and including the first one that
      was not won. */
  function RoomsEntered(fights: seq<FightResult>): (n: nat)
    ensures n <= |fights|
    ensures !AllWon(fights) ==> n >= 1 && fights[n - 1] != Won
  {
    if fights == [] then 0
    else if fights[0] == Won then 1 + RoomsEntered(fights[1..])
    else 1
  }

  /** Every fight before the last one entered was won, and all were won
      exactly when every room was entered and the last one was won too. */
  lemma {:induction false} RoomsEnteredStops(fights: seq<FightResult>)
    ensures var n := RoomsEntered(fights);
      (forall k :: 0 <= k < n - 1 ==> fights[k] == Won) &&
      (AllWon(fights) <==> n == |fights| && (n == 0 || fights[n - 1] == Won))
  {
    if fights != [] && fights[0] == Won {
      RoomsEnteredStops(fights[1..]);
      assert forall k :: 1 <= k < |fights| ==> fights[k] == fights[1..][k - 1];
    }
  }

  /** What explore_floor reports: the game was left, the hero died, the hero
      fled (the floor stays), or the floor was finished. */
  datatype FloorResult = FloorQuit | FloorLost | FloorFled | FloorCleared

  /** The report of a walk that a fight ended. */
  function WalkEnd(f: FightResult): (r: FloorResult)
    requires f != Won
    ensures r != FloorCleared
  {
    match f
    case Quit => FloorQuit
    case Lost => FloorLost
    case Fled => FloorFled
  }
}
