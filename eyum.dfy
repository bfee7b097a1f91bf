/** The oldest engine: one hero fights one monster at a time, ten rooms per
    floor drawn from a three-monster window of the monster list, then the
    floor's boss. The player record, the floor counters and the monster list
    are module-level state that the engine updates in place; here they are
    the fields of one Game object. Random draws arrive as arguments. */
module Eyum {
  import opened Basics
  import opened Dice
  import opened Encounter
  import opened Progression

  /** An entry of the upgrade menu; SkillUp carries the typed number minus
      one, which Python may read from the end of the list when negative. */
  datatype UpgradeChoice = MoreHealth | MoreMana | MoreDamage | SkillUp(idx: int) | LeaveMenu | UnknownChoice

  /** A player action in a combat round, with the random values it uses. */
  datatype Action =
    | Attack(dmg: int)
    | UseSkill(idx: int, rolls: seq<int>, heal: int)
    | Retreat
    | Upgrades(choices: seq<UpgradeChoice>)
    | ExitGame
    | Unrecognised

  /** How a round ends: the fight goes on, or combat returns. */
  datatype RoundEnd = FightGoesOn | RanAway | LeftGame

  /** int((damage * 2 + 2) * 1.5): the product is exact, so the xp for
      beating a monster is 3 * damage + 3. */
  function VictoryXp(damage: int): (x: int)
    ensures x == 3 * damage + 3
  {
    TruncDiv(3 * (damage * 2 + 2), 2)
  }

  /** The entries of the player record the upgrade menu changes, with the
      skill points last. */
  datatype Sheet = Sheet(health: int, mana: int, maxMana: int, damage: int,
                         dice: seq<string>, attacks: seq<int>, points: int)

  /** What one menu choice does before its point is paid: the three stat
      raises always go through (this engine's "+5 Max Health" raises health
      alone), a skill upgrade only when the index names a skill and its
      dice widen; None is a choice refused at no cost. */
  function Upgrade(s: Sheet, c: UpgradeChoice): (t: Option<Sheet>)
    requires |s.attacks| == |s.dice|
    ensures t.Some? ==> |t.value.attacks| == |t.value.dice| == |s.dice| && t.value.points == s.points
  {
    match c
    case MoreHealth => Some(s.(health := s.health + 5))
    case MoreMana => Some(s.(mana := s.mana + 2, maxMana := s.maxMana + 3))
    case MoreDamage => Some(s.(damage := s.damage + 1))
    case SkillUp(idx) =>
      (match PyIndex(idx, |s.dice|)
       case None => None
       case Some(j) =>
         match WidenDie(s.dice[j])
         case None => None
         case Some(wider) => Some(s.(dice := s.dice[j := wider], attacks := s.attacks[j := s.attacks[j] + 1])))
    case _ => None
  }

  /** The entries only the upgrade menu changes: combat itself leaves them
      alone. */
  datatype Build = Build(maxMana: int, damage: int, dice: seq<string>, attacks: seq<int>, points: int)

  /** Where the upgrade menu leaves the sheet, and how many points it took. */
  datatype MenuEnd = MenuEnd(sheet: Sheet, spent: nat)

  /** The menu reads choices while a point is left and until "exit"; each
      choice that goes through costs one point. */
  function Menu(s: Sheet, choices: seq<UpgradeChoice>): (e: MenuEnd)
    requires |s.attacks| == |s.dice|
    ensures |e.sheet.attacks| == |e.sheet.dice| == |s.dice|
    decreases |choices|
  {
    if choices == [] || s.points <= 0 || choices[0] == LeaveMenu then MenuEnd(s, 0)
    else match Upgrade(s, choices[0])
      case None => Menu(s, choices[1..])
      case Some(t) =>
        var e := Menu(t.(points := s.points - 1), choices[1..]);
        MenuEnd(e.sheet, e.spent + 1)
  }

  /** A choice that goes through gains exactly one of +5 health,
      +3 maximum mana (with +2 mana), +1 damage or one more skill attack;
      counting gains as 3 * (health gained) + 5 * (mana maximum gained)
      + 15 * (damage and skill attacks gained), it gains exactly 15. The
      point it costs is paid by the menu. */
  lemma UpgradeGains(s: Sheet, c: UpgradeChoice)
    requires |s.attacks| == |s.dice| && Upgrade(s, c).Some?
    ensures var t := Upgrade(s, c).value;
      t.points == s.points && t.health >= s.health && t.maxMana >= s.maxMana && t.damage >= s.damage &&
      3 * (t.mana - s.mana) == 2 * (t.maxMana - s.maxMana) &&
      3 * (t.health - s.health) + 5 * (t.maxMana - s.maxMana) +
        15 * (t.damage - s.damage + Sum(t.attacks) - Sum(s.attacks)) == 15
  {
    if c.SkillUp? {
      SumBump(s.attacks, PyIndex(c.idx, |s.dice|).value);
    }
  }

  /** The points drop by what the menu spent and never below 0, nothing is
      spent without points, and a menu that spends nothing changes
      nothing. */
  lemma {:induction false} MenuSpends(s: Sheet, choices: seq<UpgradeChoice>)
    requires |s.attacks| == |s.dice|
    decreases |choices|
    ensures var e := Menu(s, choices);
      e.sheet.points == s.points - e.spent && e.spent <= |choices| &&
      (s.points <= 0 ==> e.spent == 0) && (s.points > 0 ==> e.sheet.points >= 0) &&
      (e.spent == 0 ==> e.sheet == s)
  {
    if !(choices == [] || s.points <= 0 || choices[0] == LeaveMenu) {
      match Upgrade(s, choices[0])
      case None => MenuSpends(s, choices[1..]);
      case Some(t) =>
        var paid := t.(points := s.points - 1);
        assert Menu(s, choices) == MenuEnd(Menu(paid, choices[1..]).sheet, Menu(paid, choices[1..]).spent + 1);
        MenuSpends(paid, choices[1..]);
    }
  }

  /** Every point the menu spent bought one choice's gains, so the gains of
      the whole menu, counted as in UpgradeGains, are 15 * spent. */
  lemma {:induction false} MenuGains(s: Sheet, choices: seq<UpgradeChoice>)
    requires |s.attacks| == |s.dice|
    decreases |choices|
    ensures var e := Menu(s, choices);
      e.sheet.health >= s.health && e.sheet.maxMana >= s.maxMana && e.sheet.damage >= s.damage &&
      3 * (e.sheet.mana - s.mana) == 2 * (e.sheet.maxMana - s.maxMana) &&
      15 * e.spent == 3 * (e.sheet.health - s.health) + 5 * (e.sheet.maxMana - s.maxMana) +
        15 * (e.sheet.damage - s.damage + Sum(e.sheet.attacks) - Sum(s.attacks))
  {
    if !(choices == [] || s.points <= 0 || choices[0] == LeaveMenu) {
      match Upgrade(s, choices[0])
      case None => MenuGains(s, choices[1..]);
      case Some(t) =>
        var paid := t.(points := s.points - 1);
        assert Menu(s, choices) == MenuEnd(Menu(paid, choices[1..]).sheet, Menu(paid, choices[1..]).spent + 1);
        UpgradeGains(s, choices[0]);
        MenuGains(paid, choices[1..]);
    }
  }

  class Game {
    var level: int
    var health: int
    var mana: int
    var maxMana: int
    var damage: int
    var xp: int
    var xpToNext: int
    var skillPoints: int
    var skills: seq<string>
    var skillDamage: seq<string>
    var skillAttacks: seq<int>
    var skillHealing: seq<int>
    var skillManaCosts: seq<int>
    var monsters: seq<Template>
    var foe: Template
    var floor: int
    var room: int
    var isDead: bool

    /** The skill arrays run in parallel, the level threshold is positive,
        floors count from 1 and the monster list is not empty. */
    ghost predicate Valid()
      reads this
    {
      xpToNext >= 1 && floor >= 1 && |monsters| > 0 &&
      |skillDamage| == |skills| && |skillAttacks| == |skills| &&
      |skillHealing| == |skills| && |skillManaCosts| == |skills|
    }

    /** A new game for a character with the given skill table. */
    constructor (names: seq<string>, dice: seq<string>, attacks: seq<int>, healing: seq<int>, costs: seq<int>)
      requires |dice| == |names| && |attacks| == |names| && |healing| == |names| && |costs| == |names|
      ensures Valid()
      ensures level == 1 && health == 15 && mana == 7 && maxMana == 7 && damage == 1
      ensures xp == 0 && xpToNext == 10 && skillPoints == 0
      ensures skills == names && skillDamage == dice && skillAttacks == attacks
      ensures skillHealing == healing && skillManaCosts == costs
      ensures monsters == EyumMonsters && floor == 1 && room == 1 && !isDead
    {
      level, health, mana, maxMana, damage := 1, 15, 7, 7, 1;
      xp, xpToNext, skillPoints := 0, 10, 0;
      skills, skillDamage, skillAttacks, skillHealing, skillManaCosts := names, dice, attacks, healing, costs;
      monsters := EyumMonsters;
      foe := EyumMonsters[0];
      floor, room, isDead := 1, 1, false;
    }

    function Standing(): Progress
      reads this
    {
      Progress(level, xp, xpToNext, skillPoints, maxMana, mana)
    }

    // -------------------------------------------------------------------
    // gain_xp

    /** Adds the xp and levels up as often as it allows. */
    method GainXp(amount: int)
      requires xpToNext >= 1
      modifies this`level, this`xp, this`xpToNext, this`skillPoints, this`maxMana, this`mana
      ensures Standing() == Settle(old(Standing()).(xp := old(xp) + amount))
    {
      xp := xp + amount;
      while xp >= xpToNext
        invariant xpToNext >= 1
        invariant Settle(Standing()) == Settle(old(Standing()).(xp := old(xp) + amount))
        decreases xp
      {
        ghost var before := Standing();
        xp := xp - xpToNext;
        level := level + 1;
        skillPoints := skillPoints + 1;
        xpToNext := ScaleThreshold(xpToNext);
        maxMana := ScaleMana(maxMana);
        mana := maxMana;
        assert Standing() == LevelUp(before);
      }
    }

    // -------------------------------------------------------------------
    // open_upgrade_menu

    /** "+5 Max Health": this engine has no maximum, so only health rises. */
    method RaiseHealth()
      modifies this`health
      ensures health == old(health) + 5
    {
      health := health + 5;
    }

    /** "+2 Mana": mana rises by 2 and its maximum by 3. */
    method RaiseMana()
      modifies this`mana, this`maxMana
      ensures mana == old(mana) + 2 && maxMana == old(maxMana) + 3
    {
      mana := mana + 2;
      maxMana := maxMana + 3;
    }

    method RaiseDamage()
      modifies this`damage
      ensures damage == old(damage) + 1
    {
      damage := damage + 1;
    }

    /** Widens the chosen skill's "1dN" to "1d(N+2)" and gives it one more
        attack; an index outside the list or any other dice format is
        refused and changes nothing. */
    method UpgradeSkill(idx: int) returns (done: bool)
      requires Valid()
      modifies this`skillDamage, this`skillAttacks
      ensures Valid()
      ensures done <==> PyIndex(idx, |skills|).Some? && WidenDie(old(skillDamage)[PyIndex(idx, |skills|).value]).Some?
      ensures done ==> var j := PyIndex(idx, |skills|).value;
        skillDamage == old(skillDamage)[j := WidenDie(old(skillDamage)[j]).value] &&
        skillAttacks == old(skillAttacks)[j := old(skillAttacks)[j] + 1]
      ensures !done ==> skillDamage == old(skillDamage) && skillAttacks == old(skillAttacks)
    {
      done := false;
      match PyIndex(idx, |skillDamage|)
      case None =>
      case Some(j) =>
        match WidenDie(skillDamage[j])
        case None =>
        case Some(wider) =>
          skillDamage := skillDamage[j := wider];
          skillAttacks := skillAttacks[j := skillAttacks[j] + 1];
          done := true;
    }

    /** The entries the upgrade menu changes. */
    function CharacterSheet(): Sheet
      reads this
    {
      Sheet(health, mana, maxMana, damage, skillDamage, skillAttacks, skillPoints)
    }

    function CurrentBuild(): Build
      reads this
    {
      Build(maxMana, damage, skillDamage, skillAttacks, skillPoints)
    }

    /** One menu choice, before its point is paid. */
    method MenuChoice(c: UpgradeChoice) returns (took: bool)
      requires Valid()
      modifies this`health, this`mana, this`maxMana, this`damage, this`skillDamage, this`skillAttacks
      ensures Valid()
      ensures took <==> Upgrade(old(CharacterSheet()), c).Some?
      ensures CharacterSheet() == if took then Upgrade(old(CharacterSheet()), c).value else old(CharacterSheet())
    {
      took := true;
      match c {
        case MoreHealth => RaiseHealth();
        case MoreMana => RaiseMana();
        case MoreDamage => RaiseDamage();
        case SkillUp(idx) => took := UpgradeSkill(idx);
        case _ => took := false;
      }
    }

    /** The menu loop: it leaves as soon as no skill point is left, on
        "exit", or when the choices run out; each choice that takes effect
        costs exactly one point, and refused ones cost nothing. */
    method UpgradeMenu(choices: seq<UpgradeChoice>) returns (spent: nat)
      requires Valid()
      modifies this`health, this`mana, this`maxMana, this`damage, this`skillDamage, this`skillAttacks, this`skillPoints
      ensures Valid()
      ensures CharacterSheet() == Menu(old(CharacterSheet()), choices).sheet
      ensures spent == Menu(old(CharacterSheet()), choices).spent
      ensures skillPoints == old(skillPoints) - spent && spent <= |choices|
      ensures old(skillPoints) <= 0 ==> spent == 0
      ensures old(skillPoints) > 0 ==> skillPoints >= 0
      ensures spent == 0 ==> (health == old(health) && mana == old(mana) && maxMana == old(maxMana)
        && damage == old(damage) && skillDamage == old(skillDamage) && skillAttacks == old(skillAttacks))
    {
      ghost var goal := Menu(CharacterSheet(), choices);
      spent := 0;
      var k := 0;
      while k < |choices| && skillPoints > 0 && choices[k] != LeaveMenu
        decreases |choices| - k
        invariant Valid() && 0 <= k <= |choices|
        invariant spent <= goal.spent && Menu(CharacterSheet(), choices[k..]) == goal.(spent := goal.spent - spent)
      {
        ghost var before := CharacterSheet();
        assert choices[k..][0] == choices[k] && choices[k..][1..] == choices[k + 1..];
        var took := MenuChoice(choices[k]);
        if took {
          skillPoints := skillPoints - 1;
          spent := spent + 1;
          assert CharacterSheet() == Upgrade(before, choices[k]).value.(points := before.points - 1);
        }
        k := k + 1;
      }
      assert Menu(CharacterSheet(), choices[k..]) == MenuEnd(CharacterSheet(), 0);
      MenuSpends(old(CharacterSheet()), choices);
    }

    // -------------------------------------------------------------------
    // combat, one round at a time

    /** The random values a skill use reads: one damage roll per attack and,
        for a healing skill, a roll of "{healing}d4". */
    ghost predicate SkillDrawsFit(idx: int, rolls: seq<int>, heal: int)
      requires Valid()
      reads this
    {
      match PyIndex(idx, |skills|)
      case None => true
      case Some(j) =>
        |rolls| == Max(skillAttacks[j], 0) &&
        (forall k :: 0 <= k < |rolls| ==> IsOutcome(skillDamage[j], rolls[k])) &&
        (skillHealing[j] != 0 ==> IsOutcome(FormatDice(skillHealing[j], 4), heal))
    }

    /** A plain attack: the monster loses the jittered damage and the hero
        regains a tenth of the mana maximum (at least 1), never above it. */
    method PlayerAttack(dmg: int)
      requires Jittered(damage, dmg)
      modifies this`foe, this`mana
      ensures foe == old(foe).(health := old(foe.health) - dmg)
      ensures mana == Min(old(mana) + Max(1, maxMana / 10), maxMana)
      ensures old(mana) <= maxMana ==> old(mana) <= mana <= maxMana
    {
      foe := foe.(health := foe.health - dmg);
      mana := Min(mana + Max(1, maxMana / 10), maxMana);
    }

    /** A skill: refused without any change when the index is outside the
        list or mana is short; otherwise the cost is paid, every attack
        subtracts its roll from the monster (alive or not), and a healing
        skill adds its roll to health with no cap. */
    method CastSkill(idx: int, rolls: seq<int>, heal: int) returns (used: bool)
      requires Valid() && SkillDrawsFit(idx, rolls, heal)
      modifies this`mana, this`foe, this`health
      ensures used <==> PyIndex(idx, |skills|).Some? && old(mana) >= skillManaCosts[PyIndex(idx, |skills|).value]
      ensures used ==> var j := PyIndex(idx, |skills|).value;
        mana == old(mana) - skillManaCosts[j] &&
        foe == old(foe).(health := old(foe.health) - Sum(rolls)) &&
        health == old(health) + (if skillHealing[j] != 0 then heal else 0)
      ensures !used ==> mana == old(mana) && foe == old(foe) && health == old(health)
    {
      used := false;
      match PyIndex(idx, |skills|)
      case None =>
      case Some(j) =>
        if mana >= skillManaCosts[j] {
          mana := mana - skillManaCosts[j];
          var k := 0;
          while k < |rolls|
            modifies this`foe
            invariant 0 <= k <= |rolls|
            invariant foe == old(foe).(health := old(foe.health) - Sum(rolls[..k]))
          {
            SumSnoc(rolls[..k], rolls[k]);
            assert rolls[..k + 1] == rolls[..k] + [rolls[k]];
            foe := foe.(health := foe.health - rolls[k]);
            k := k + 1;
          }
          assert rolls[..k] == rolls;
          if skillHealing[j] != 0 {
            health := health + heal;
          }
          used := true;
        }
    }

    /** The monster's reply: it strikes only while its health is above 0. */
    method MonsterTurn()
      modifies this`health
      ensures foe.health > 0 ==> health == old(health) - foe.damage
      ensures foe.health <= 0 ==> health == old(health)
    {
      if foe.health > 0 {
        health := health - foe.damage;
      }
    }

    /** One pass of combat's loop: the chosen action, then the monster's
        reply after an attack or a skill that went through; the upgrade
        menu and a refused skill end the pass without a reply. */
    method Round(a: Action) returns (r: RoundEnd)
      requires Valid()
      requires a.Attack? ==> Jittered(damage, a.dmg)
      requires a.UseSkill? ==> SkillDrawsFit(a.idx, a.rolls, a.heal)
      modifies this`health, this`mana, this`maxMana, this`damage, this`skillDamage, this`skillAttacks,
        this`skillPoints, this`foe
      ensures Valid()
      ensures a.Retreat? <==> r == RanAway
      ensures a.ExitGame? <==> r == LeftGame
      ensures !a.Upgrades? ==> CurrentBuild() == old(CurrentBuild())
      ensures a.Attack? ==>
        foe == old(foe).(health := old(foe.health) - a.dmg) &&
        mana == Min(old(mana) + Max(1, maxMana / 10), maxMana) &&
        health == (if foe.health > 0 then old(health) - foe.damage else old(health))
      ensures a.UseSkill? && PyIndex(a.idx, |skills|).Some? && old(mana) >= skillManaCosts[PyIndex(a.idx, |skills|).value] ==>
        var j := PyIndex(a.idx, |skills|).value;
        mana == old(mana) - skillManaCosts[j] &&
        foe == old(foe).(health := old(foe.health) - Sum(a.rolls)) &&
        health == old(health) + (if skillHealing[j] != 0 then a.heal else 0) - (if foe.health > 0 then foe.damage else 0)
      ensures a.UseSkill? && (PyIndex(a.idx, |skills|).None? || old(mana) < skillManaCosts[PyIndex(a.idx, |skills|).value]) ==>
        health == old(health) && mana == old(mana) && foe == old(foe)
      ensures a.Upgrades? ==>
        CharacterSheet() == Menu(old(CharacterSheet()), a.choices).sheet && foe == old(foe)
      ensures a.Retreat? || a.ExitGame? || a.Unrecognised? ==>
        health == old(health) && mana == old(mana) && foe == old(foe) && skillPoints == old(skillPoints)
    {
      r := FightGoesOn;
      match a
      case Attack(dmg) =>
        PlayerAttack(dmg);
        MonsterTurn();
      case UseSkill(idx, rolls, heal) =>
        var used := CastSkill(idx, rolls, heal);
        if used {
          MonsterTurn();
        }
      case Retreat =>
        r := RanAway;
      case Upgrades(choices) =>
        var _ := UpgradeMenu(choices);
      case ExitGame =>
        r := LeftGame;
      case Unrecognised =>
    }

    /** After the loop: a hero still standing gains the monster's xp and a
        fifth of the mana maximum (at least 1, capped); a fallen one is
        marked dead. */
    method FinishCombat() returns (won: bool)
      requires Valid() && (health <= 0 || foe.health <= 0)
      modifies this`level, this`xp, this`xpToNext, this`skillPoints, this`maxMana, this`mana, this`isDead
      ensures Valid()
      ensures won <==> health > 0
      ensures won ==> var p := Settle(old(Standing()).(xp := old(xp) + VictoryXp(foe.damage)));
        Standing() == p.(mana := Min(p.mana + Max(1, p.maxMana / 5), p.maxMana)) && isDead == old(isDead)
      ensures !won ==> Standing() == old(Standing()) && isDead
    {
      if health > 0 {
        GainXp(VictoryXp(foe.damage));
        mana := Min(mana + Max(1, maxMana / 5), maxMana);
        won := true;
      } else {
        isDead := true;
        won := false;
      }
    }

    // -------------------------------------------------------------------
    // rotate_monsters and explore_floor

    /** Moves the first monster to the end of a list longer than three. */
    method RotateMonsters()
      modifies this`monsters
      ensures monsters == RotateLeft(old(monsters))
    {
      if |monsters| > 3 {
        var first := monsters[0];
        monsters := monsters[1..];
        monsters := monsters + [first];
      }
    }

    /** Ten rooms, each a fight against the next monster of the floor's
        window, then the floor's boss. A fight that is not won ends the walk
        where it stands; beating the boss, or fleeing from it, rotates the
        monster list, moves to the next floor and resets the room counter.
        The window is the floor's slice as the code takes it; on a floor
        whose slice is empty the code divides by zero, and such floors are
        outside this method's precondition. */
    method ExploreFloor(fights: seq<FightResult>, bossFight: FightResult) returns (r: FloorResult, faced: seq<Template>)
      requires Valid() && |fights| == 10
      requires WindowStart(floor) + 3 <= 3 * |monsters|
      modifies this`room, this`floor, this`monsters
      ensures Valid()
      ensures !AllWon(fights) ==> var n := RoomsEntered(fights);
        faced == Cycle(MonsterWindow(old(monsters), old(floor)), n) &&
        room == old(room) + n && floor == old(floor) && monsters == old(monsters) && r == WalkEnd(fights[n - 1])
      ensures AllWon(fights) ==>
        faced == Cycle(MonsterWindow(old(monsters), old(floor)), 10) + [FloorBoss(old(monsters), old(floor))]
      ensures AllWon(fights) && (bossFight == Quit || bossFight == Lost) ==>
        room == old(room) + 10 && floor == old(floor) && monsters == old(monsters) &&
        r == WalkEnd(bossFight)
      ensures AllWon(fights) && (bossFight == Won || bossFight == Fled) ==>
        room == 1 && floor == old(floor) + 1 && monsters == RotateLeft(old(monsters)) && r == FloorCleared
    {
      WindowWraps(monsters, floor);
      var window := MonsterWindow(monsters, floor);
      faced := [];
      var i := 0;
      while i < 10
        modifies this`room
        invariant 0 <= i <= 10 && room == old(room) + i
        invariant faced == Cycle(window, i)
        invariant forall k :: 0 <= k < i ==> fights[k] == Won
        invariant RoomsEntered(fights) == i + RoomsEntered(fights[i..])
      {
        room := room + 1;
        faced := faced + [window[i % 3]];
        assert fights[i..] == [fights[i]] + fights[i + 1..];
        if fights[i] != Won {
          assert !AllWon(fights) && RoomsEntered(fights[i..]) == 1;
          r := WalkEnd(fights[i]);
          return;
        }
        i := i + 1;
      }
      assert AllWon(fights);
      faced := faced + [FloorBoss(monsters, floor)];
      if bossFight == Quit || bossFight == Lost {
        r := WalkEnd(bossFight);
        return;
      }
      RotateMonsters();
      floor := floor + 1;
      room := 1;
      r := FloorCleared;
    }
  }

  /** The first n monsters met by walking the rooms of a three-monster
      window in order, starting again from its first entry after the
      third. */
  function Cycle(window: seq<Template>, n: nat): (faced: seq<Template>)
    requires |window| == 3
    ensures |faced| == n
  {
    if n == 0 then [] else Cycle(window, n - 1) + [window[(n - 1) % 3]]
  }

  lemma {:induction false} CycleAt(window: seq<Template>, n: nat, k: nat)
    requires |window| == 3 && k < n
    ensures Cycle(window, n)[k] == window[k % 3]
  {
    if k < n - 1 {
      CycleAt(window, n - 1, k);
    }
  }

  lemma {:induction false} SumSnoc(s: seq<int>, x: int)
    ensures Sum(s + [x]) == Sum(s) + x
  {
    if s != [] {
      assert (s + [x])[1..] == s[1..] + [x];
      SumSnoc(s[1..], x);
    }
  }
}
