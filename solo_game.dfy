/** The middle engine's state and its in-place updates: the player record,
    the floor counters, the monster list the floors rotate, and the group of
    the fight in progress, as fields of one Game object. Random draws and
    typed choices arrive as arguments. */
module SoloGame {
  import opened Basics
  import opened Dice
  import opened Encounter
  import opened Progression
  import opened SoloRules

  /** An entry of the upgrade menu; SkillUp carries the typed number minus
      one, which Python may read from the end of the list when negative. */
  datatype UpgradeChoice = MoreHealth | MoreMana | MoreDamage | SkillUp(idx: int) | LeaveMenu | UnknownChoice

  /** A player action in a combat round, with the random values it uses:
      the jittered damage of an attack; for a skill, the chosen target of a
      single-attack skill, one roll per hit, which standing monster each hit
      of a multi-attack skill lands on, and the healing roll. */
  datatype Action =
    | Attack(choice: int, dmg: int)
    | UseSkill(idx: int, target: int, rolls: seq<int>, picks: seq<nat>, heal: int)
    | Retreat
    | Upgrades(choices: seq<UpgradeChoice>)
    | Equip(num: int)
    | ExitGame
    | Unrecognised

  /** How a round ends: the fight goes on, or combat returns. */
  datatype RoundEnd = FightGoesOn | RanAway | LeftGame

  /** The bonus totals of one more item. */
  lemma TotalsStep(items: seq<Gear>, k: nat)
    requires k < |items|
    ensures Totals(items[..k + 1]) == AddBonus(Totals(items[..k]), EffectBonus(items[k].effect))
  {
    assert items[..k + 1][..k] == items[..k];
  }

  /** What a skill that goes through does to the group: a single-attack
      skill hits the chosen monster once with the first roll; any other
      skill is a volley of hits on standing monsters. */
  function SkillHits(g: seq<Monster>, attacks: int, target: int, rolls: seq<int>, picks: seq<nat>): (h: seq<Monster>)
    requires attacks == 1 ==> 0 <= target < |g| && |rolls| >= 1
    requires |picks| == |rolls|
    ensures |h| == |g|
    ensures attacks == 1 ==> forall i :: 0 <= i < |g| && i != target ==> h[i] == g[i]
  {
    if attacks == 1 then g[target := g[target].(health := g[target].health - rolls[0])]
    else Volley(g, rolls, picks)
  }

  /** The entries of the player record the upgrade menu changes, with the
      skill points last. */
  datatype Sheet = Sheet(health: int, maxHealth: int, mana: int, maxMana: int, damage: int,
                         dice: seq<string>, attacks: seq<int>, points: int)

  /** What one menu choice does before its point is paid: the three stat
      raises always go through, a skill upgrade only when the index names a
      skill and its dice widen; None is a choice refused at no cost. */
  function Upgrade(s: Sheet, c: UpgradeChoice): (t: Option<Sheet>)
    requires |s.attacks| == |s.dice|
    ensures t.Some? ==> |t.value.attacks| == |t.value.dice| == |s.dice| && t.value.points == s.points
  {
    match c
    case MoreHealth => Some(s.(health := s.health + 5, maxHealth := s.maxHealth + 5))
    case MoreMana => Some(s.(mana := s.mana + 2, maxMana := s.maxMana + 3))
    case MoreDamage => Some(s.(damage := s.damage + 1))
    case SkillUp(idx) =>
      (match PyIndex(idx, |s.dice|)
       case None => None
       case Some(j) =>
         match WidenDie(s.dice[j])
         case None => None
         case Some(wider) => Some(s.(dice := s.dice[j := wider], attacks := s.attacks[j := s.attacks[j] + 1])))
    case _ => None
  }

  /** The entries only the two menus change: combat itself leaves them
      alone. */
  datatype Build = Build(maxHealth: int, maxMana: int, damage: int, defense: int, dice: seq<string>,
                         attacks: seq<int>, points: int, equipped: seq<Gear>)

  /** Where the upgrade menu leaves the sheet, and how many points it took. */
  datatype MenuEnd = MenuEnd(sheet: Sheet, spent: nat)

  /** The menu reads choices while a point is left and until "exit"; each
      choice that goes through costs one point. */
  function Menu(s: Sheet, choices: seq<UpgradeChoice>): (e: MenuEnd)
    requires |s.attacks| == |s.dice|
    ensures |e.sheet.attacks| == |e.sheet.dice| == |s.dice|
    decreases |choices|
  {
    if choices == [] || s.points <= 0 || choices[0] == LeaveMenu then MenuEnd(s, 0)
    else match Upgrade(s, choices[0])
      case None => Menu(s, choices[1..])
      case Some(t) =>
        var e := Menu(t.(points := s.points - 1), choices[1..]);
        MenuEnd(e.sheet, e.spent + 1)
  }

  /** A choice that goes through gains exactly one of +5 maximum health (with +5 health),
      +3 maximum mana (with +2 mana), +1 damage or one more skill attack;
      counting gains as 3 * (health maximum gained) + 5 * (mana maximum gained)
      + 15 * (damage and skill attacks gained), it gains exactly 15. The
      point it costs is paid by the menu. */
  lemma UpgradeGains(s: Sheet, c: UpgradeChoice)
    requires |s.attacks| == |s.dice| && Upgrade(s, c).Some?
    ensures var t := Upgrade(s, c).value;
      t.points == s.points && t.maxHealth >= s.maxHealth && t.maxMana >= s.maxMana && t.damage >= s.damage &&
      t.health - s.health == t.maxHealth - s.maxHealth &&
      3 * (t.mana - s.mana) == 2 * (t.maxMana - s.maxMana) &&
      3 * (t.maxHealth - s.maxHealth) + 5 * (t.maxMana - s.maxMana) +
        15 * (t.damage - s.damage + Sum(t.attacks) - Sum(s.attacks)) == 15
  {
    if c.SkillUp? {
      SumBump(s.attacks, PyIndex(c.idx, |s.dice|).value);
    }
  }

  /** The points drop by what the menu spent and never below 0, nothing is
      spent without points, and a menu that spends nothing changes
      nothing. */
  lemma {:induction false} MenuSpends(s: Sheet, choices: seq<UpgradeChoice>)
    requires |s.attacks| == |s.dice|
    decreases |choices|
    ensures var e := Menu(s, choices);
      e.sheet.points == s.points - e.spent && e.spent <= |choices| &&
      (s.points <= 0 ==> e.spent == 0) && (s.points > 0 ==> e.sheet.points >= 0) &&
      (e.spent == 0 ==> e.sheet == s)
  {
    if !(choices == [] || s.points <= 0 || choices[0] == LeaveMenu) {
      match Upgrade(s, choices[0])
      case None => MenuSpends(s, choices[1..]);
      case Some(t) =>
        var paid := t.(points := s.points - 1);
        assert Menu(s, choices) == MenuEnd(Menu(paid, choices[1..]).sheet, Menu(paid, choices[1..]).spent + 1);
        MenuSpends(paid, choices[1..]);
    }
  }

  /** Every point the menu spent bought one choice's gains, so the gains of
      the whole menu, counted as in UpgradeGains, are 15 * spent. */
  lemma {:induction false} MenuGains(s: Sheet, choices: seq<UpgradeChoice>)
    requires |s.attacks| == |s.dice|
    decreases |choices|
    ensures var e := Menu(s, choices);
      e.sheet.maxHealth >= s.maxHealth && e.sheet.maxMana >= s.maxMana && e.sheet.damage >= s.damage &&
      e.sheet.health - s.health == e.sheet.maxHealth - s.maxHealth &&
      3 * (e.sheet.mana - s.mana) == 2 * (e.sheet.maxMana - s.maxMana) &&
      15 * e.spent == 3 * (e.sheet.maxHealth - s.maxHealth) + 5 * (e.sheet.maxMana - s.maxMana) +
        15 * (e.sheet.damage - s.damage + Sum(e.sheet.attacks) - Sum(s.attacks))
  {
    if !(choices == [] || s.points <= 0 || choices[0] == LeaveMenu) {
      match Upgrade(s, choices[0])
      case None => MenuGains(s, choices[1..]);
      case Some(t) =>
        var paid := t.(points := s.points - 1);
        assert Menu(s, choices) == MenuEnd(Menu(paid, choices[1..]).sheet, Menu(paid, choices[1..]).spent + 1);
        UpgradeGains(s, choices[0]);
        MenuGains(paid, choices[1..]);
    }
  }

  class Game {
    var level: int
    var maxHealth: int
    var health: int
    var mana: int
    var maxMana: int
    var damage: int
    var defense: int
    var coins: int
    var xp: int
    var xpToNext: int
    var skillPoints: int
    var skills: seq<string>
    var skillDamage: seq<string>
    var skillAttacks: seq<int>
    var skillHealing: seq<int>
    var skillManaCosts: seq<int>
    var inventory: seq<Gear>
    var equipped: seq<Gear>
    var monsters: seq<Template>
    var group: seq<Monster>
    var floor: nat
    var room: int
    var isDead: bool

    /** The skill arrays run in parallel, the level threshold is positive
        and the monster list is not empty. */
    ghost predicate Valid()
      reads this
    {
      xpToNext >= 1 && |monsters| > 0 &&
      |skillDamage| == |skills| && |skillAttacks| == |skills| &&
      |skillHealing| == |skills| && |skillManaCosts| == |skills|
    }

    /** A new game for a character with the given skill table, fighting
        monsters from the given list. */
    constructor (names: seq<string>, dice: seq<string>, attacks: seq<int>, healing: seq<int>, costs: seq<int>,
                 catalog: seq<Template>)
      requires |dice| == |names| && |attacks| == |names| && |healing| == |names| && |costs| == |names|
      requires |catalog| > 0
      ensures Valid()
      ensures level == 1 && maxHealth == 15 && health == 15 && mana == 7 && maxMana == 7 && damage == 1
      ensures defense == 0 && coins == 0 && xp == 0 && xpToNext == 10 && skillPoints == 0
      ensures skills == names && skillDamage == dice && skillAttacks == attacks
      ensures skillHealing == healing && skillManaCosts == costs
      ensures inventory == [] && equipped == [] && monsters == catalog && group == []
      ensures floor == 1 && room == 1 && !isDead
    {
      level, maxHealth, health, mana, maxMana, damage := 1, 15, 15, 7, 7, 1;
      defense, coins, xp, xpToNext, skillPoints := 0, 0, 0, 10, 0;
      skills, skillDamage, skillAttacks, skillHealing, skillManaCosts := names, dice, attacks, healing, costs;
      inventory, equipped := [], [];
      monsters, group := catalog, [];
      floor, room, isDead := 1, 1, false;
    }

    function Standing(): Progress
      reads this
    {
      Progress(level, xp, xpToNext, skillPoints, maxMana, mana)
    }

    // -------------------------------------------------------------------
    // apply_equipment_bonuses and the equip step

    /** What the worn equipment adds to the base damage 1, defense 0,
        max health 15 and max mana 7. */
    function Worn(): Bonus
      reads this
    {
      Bonus(damage - 1, defense, maxHealth - 15, maxMana - 7)
    }

    /** One pass of the bonus loop: the first keyword found in the
        lower-cased effect decides what the item adds. */
    method AddItemBonus(effect: string)
      modifies this`damage, this`defense, this`maxHealth, this`maxMana
      ensures Worn() == AddBonus(old(Worn()), EffectBonus(effect))
    {
      var e := Lower(effect);
      if Contains(e, "+1 damage") {
        damage := damage + 1;
      } else if Contains(e, "+3 damage") {
        damage := damage + 3;
      } else if Contains(e, "+1 defense") {
        defense := defense + 1;
      } else if Contains(e, "+2 mana") {
        maxMana := maxMana + 2;
      } else if Contains(e, "restore") {
        // potions give nothing while worn
      } else if Contains(e, "+2 dodge") {
        // dodge has no effect
      } else if Contains(e, "+5 all stats") {
        damage := damage + 5;
        defense := defense + 5;
        maxHealth := maxHealth + 5;
        maxMana := maxMana + 5;
      }
    }

    /** Resets damage, defense and the two maxima to 1, 0, 15 and 7 and adds
        the bonus of every equipped item; the result does not depend on the
        stats before, so applying it twice changes nothing more. */
    method ApplyEquipmentBonuses()
      modifies this`damage, this`defense, this`maxHealth, this`maxMana
      ensures Worn() == Totals(equipped)
    {
      damage, defense, maxHealth, maxMana := 1, 0, 15, 7;
      assert equipped[..0] == [];
      for k := 0 to |equipped|
        invariant Worn() == Totals(equipped[..k])
      {
        TotalsStep(equipped, k);
        AddItemBonus(equipped[k].effect);
      }
      assert equipped[..|equipped|] == equipped;
    }

    /** Equips the num-th item of the numbered inventory: the worn items of
        its type come off, it goes on (it also stays in the inventory), and
        the bonuses are recomputed. Any other number changes nothing. */
    method EquipNumber(num: int) returns (done: bool)
      modifies this`equipped, this`damage, this`defense, this`maxHealth, this`maxMana
      ensures done <==> 1 <= num <= |Numbered(inventory)|
      ensures done ==> equipped == EquipList(old(equipped), Numbered(inventory)[num - 1])
      ensures done ==> Worn() == Totals(equipped)
      ensures !done ==> (equipped == old(equipped) && damage == old(damage) && defense == old(defense) &&
        maxHealth == old(maxHealth) && maxMana == old(maxMana))
    {
      var listed := Numbered(inventory);
      if 1 <= num <= |listed| {
        var item := listed[num - 1];
        equipped := EquipList(equipped, item);
        ApplyEquipmentBonuses();
        done := true;
      } else {
        done := false;
      }
    }

    // -------------------------------------------------------------------
    // gain_xp

    /** Adds the xp and levels up as often as it allows; health is left as
        it is. */
    method GainXp(amount: int)
      requires xpToNext >= 1
      modifies this`level, this`xp, this`xpToNext, this`skillPoints, this`maxMana, this`mana
      ensures Standing() == Settle(old(Standing()).(xp := old(xp) + amount))
    {
      xp := xp + amount;
      while xp >= xpToNext
        invariant xpToNext >= 1
        invariant Settle(Standing()) == Settle(old(Standing()).(xp := old(xp) + amount))
        decreases xp
      {
        ghost var before := Standing();
        xp := xp - xpToNext;
        level := level + 1;
        skillPoints := skillPoints + 1;
        xpToNext := ScaleThreshold(xpToNext);
        maxMana := ScaleMana(maxMana);
        mana := maxMana;
        assert Standing() == LevelUp(before);
      }
    }

    // -------------------------------------------------------------------
    // open_upgrade_menu

    /** "+5 Max Health": health and its maximum rise by 5 each. */
    method RaiseHealth()
      modifies this`health, this`maxHealth
      ensures health == old(health) + 5 && maxHealth == old(maxHealth) + 5
    {
      health := health + 5;
      maxHealth := maxHealth + 5;
    }

    /** "+2 Mana": mana rises by 2 and its maximum by 3. */
    method RaiseMana()
      modifies this`mana, this`maxMana
      ensures mana == old(mana) + 2 && maxMana == old(maxMana) + 3
    {
      mana := mana + 2;
      maxMana := maxMana + 3;
    }

    method RaiseDamage()
      modifies this`damage
      ensures damage == old(damage) + 1
    {
      damage := damage + 1;
    }

    /** Widens the chosen skill's "1dN" to "1d(N+2)" and gives it one more
        attack; an index outside the list or any other dice format is
        refused and changes nothing. */
    method UpgradeSkill(idx: int) returns (done: bool)
      requires Valid()
      modifies this`skillDamage, this`skillAttacks
      ensures Valid()
      ensures done <==> PyIndex(idx, |skills|).Some? && WidenDie(old(skillDamage)[PyIndex(idx, |skills|).value]).Some?
      ensures done ==> var j := PyIndex(idx, |skills|).value;
        skillDamage == old(skillDamage)[j := WidenDie(old(skillDamage)[j]).value] &&
        skillAttacks == old(skillAttacks)[j := old(skillAttacks)[j] + 1]
      ensures !done ==> skillDamage == old(skillDamage) && skillAttacks == old(skillAttacks)
    {
      done := false;
      match PyIndex(idx, |skillDamage|)
      case None =>
      case Some(j) =>
        match WidenDie(skillDamage[j])
        case None =>
        case Some(wider) =>
          skillDamage := skillDamage[j := wider];
          skillAttacks := skillAttacks[j := skillAttacks[j] + 1];
          done := true;
    }

    /** The entries the upgrade menu changes. */
    function CharacterSheet(): Sheet
      reads this
    {
      Sheet(health, maxHealth, mana, maxMana, damage, skillDamage, skillAttacks, skillPoints)
    }

    function CurrentBuild(): Build
      reads this
    {
      Build(maxHealth, maxMana, damage, defense, skillDamage, skillAttacks, skillPoints, equipped)
    }

    /** One menu choice, before its point is paid. */
    method MenuChoice(c: UpgradeChoice) returns (took: bool)
      requires Valid()
      modifies this`health, this`maxHealth, this`mana, this`maxMana, this`damage, this`skillDamage, this`skillAttacks
      ensures Valid()
      ensures took <==> Upgrade(old(CharacterSheet()), c).Some?
      ensures CharacterSheet() == if took then Upgrade(old(CharacterSheet()), c).value else old(CharacterSheet())
    {
      took := true;
      match c {
        case MoreHealth => RaiseHealth();
        case MoreMana => RaiseMana();
        case MoreDamage => RaiseDamage();
        case SkillUp(idx) => took := UpgradeSkill(idx);
        case _ => took := false;
      }
    }

    /** The menu loop: it leaves as soon as no skill point is left, on
        "exit", or when the choices run out; each choice that takes effect
        costs exactly one point, and refused ones cost nothing. */
    method UpgradeMenu(choices: seq<UpgradeChoice>) returns (spent: nat)
      requires Valid()
      modifies this`health, this`maxHealth, this`mana, this`maxMana, this`damage, this`skillDamage,
        this`skillAttacks, this`skillPoints
      ensures Valid()
      ensures CharacterSheet() == Menu(old(CharacterSheet()), choices).sheet
      ensures spent == Menu(old(CharacterSheet()), choices).spent
      ensures skillPoints == old(skillPoints) - spent && spent <= |choices|
      ensures old(skillPoints) <= 0 ==> spent == 0
      ensures old(skillPoints) > 0 ==> skillPoints >= 0
      ensures spent == 0 ==> (health == old(health) && maxHealth == old(maxHealth) && mana == old(mana) &&
        maxMana == old(maxMana) && damage == old(damage) && skillDamage == old(skillDamage) &&
        skillAttacks == old(skillAttacks))
    {
      ghost var goal := Menu(CharacterSheet(), choices);
      spent := 0;
      var k := 0;
      while k < |choices| && skillPoints > 0 && choices[k] != LeaveMenu
        decreases |choices| - k
        invariant Valid() && 0 <= k <= |choices|
        invariant spent <= goal.spent && Menu(CharacterSheet(), choices[k..]) == goal.(spent := goal.spent - spent)
      {
        ghost var before := CharacterSheet();
        assert choices[k..][0] == choices[k] && choices[k..][1..] == choices[k + 1..];
        var took := MenuChoice(choices[k]);
        if took {
          skillPoints := skillPoints - 1;
          spent := spent + 1;
          assert CharacterSheet() == Upgrade(before, choices[k]).value.(points := before.points - 1);
        }
        k := k + 1;
      }
      assert Menu(CharacterSheet(), choices[k..]) == MenuEnd(CharacterSheet(), 0);
      MenuSpends(old(CharacterSheet()), choices);
    }

    // -------------------------------------------------------------------
    // open_shop

    /** Buying the offered skill: refused when coins are short (checked
        first) or the skill is already known; otherwise the price is paid
        and the skill joins the list and all four parallel arrays. */
    method BuySkill(offer: SkillOffer) returns (p: Purchase)
      requires Valid()
      modifies this`coins, this`skills, this`skillDamage, this`skillAttacks, this`skillHealing, this`skillManaCosts
      ensures Valid()
      ensures p == (if old(coins) < SkillPrice(offer.weight) then TooPoor
                    else if offer.name in old(skills) then AlreadyKnown else Bought)
      ensures p == Bought ==> (coins == old(coins) - SkillPrice(offer.weight) && coins >= 0 &&
        skills == old(skills) + [offer.name] && skillDamage == old(skillDamage) + [offer.damage] &&
        skillAttacks == old(skillAttacks) + [offer.attacks] && skillHealing == old(skillHealing) + [offer.healing] &&
        skillManaCosts == old(skillManaCosts) + [offer.manaCost])
      ensures p != Bought ==> (coins == old(coins) && skills == old(skills) && skillDamage == old(skillDamage) &&
        skillAttacks == old(skillAttacks) && skillHealing == old(skillHealing) && skillManaCosts == old(skillManaCosts))
    {
      var price := SkillPrice(offer.weight);
      if coins >= price {
        if offer.name in skills {
          p := AlreadyKnown;
        } else {
          coins := coins - price;
          skills := skills + [offer.name];
          skillDamage := skillDamage + [offer.damage];
          skillAttacks := skillAttacks + [offer.attacks];
          skillHealing := skillHealing + [offer.healing];
          skillManaCosts := skillManaCosts + [offer.manaCost];
          p := Bought;
        }
      } else {
        p := TooPoor;
      }
    }

    /** Buying item idx of the three on sale: an index outside the stock is
        refused, coins must cover the price, and the item is appended to the
        inventory. */
    method BuyItem(stock: seq<Gear>, idx: int) returns (p: Purchase)
      modifies this`coins, this`inventory
      ensures p == (if idx < 0 || idx >= |stock| then NoSuchItem
                    else if old(coins) >= stock[idx].value then Bought else TooPoor)
      ensures p == Bought ==> (coins == old(coins) - stock[idx].value && coins >= 0 &&
        inventory == old(inventory) + [stock[idx]])
      ensures p != Bought ==> coins == old(coins) && inventory == old(inventory)
    {
      if idx < 0 || idx >= |stock| {
        p := NoSuchItem;
      } else if coins >= stock[idx].value {
        coins := coins - stock[idx].value;
        inventory := inventory + [stock[idx]];
        p := Bought;
      } else {
        p := TooPoor;
      }
    }

    // -------------------------------------------------------------------
    // generate_monster_group, get_boss, rotate_monsters

    /** A group of one to five copies of list entries, each with its
        max_health set to its health; picks are uniform choices. */
    method GenerateMonsterGroup(grows: seq<bool>, picks: seq<nat>) returns (g: seq<Monster>)
      requires |monsters| > 0 && |grows| == 4 && |picks| == 5
      requires forall k :: 0 <= k < 5 ==> picks[k] < |monsters|
      ensures 1 <= |g| <= 5 && |g| == GroupSize(grows)
      ensures forall k :: 0 <= k < |g| ==> g[k] == Spawn(monsters[picks[k]]) && g[k].maxHealth == g[k].health
    {
      g := DrawGroup(monsters, grows, picks);
    }

    /** Moves the first monster to the end of a list longer than three. */
    method RotateMonsters()
      modifies this`monsters
      ensures monsters == RotateLeft(old(monsters))
    {
      if |monsters| > 3 {
        var first := monsters[0];
        monsters := monsters[1..];
        monsters := monsters + [first];
      }
    }

    // -------------------------------------------------------------------
    // combat, one round at a time

    /** A plain attack: only a standing monster can be targeted; it loses
        the jittered damage, not clamped at 0, and the hero regains a tenth
        of the mana maximum (at least 1), never above it. */
    method PlayerAttack(choice: int, dmg: int) returns (hit: bool)
      requires Jittered(damage, dmg)
      modifies this`group, this`mana
      ensures hit <==> 0 <= choice < |old(group)| && old(group)[choice].health > 0
      ensures hit ==> group == old(group)[choice := old(group)[choice].(health := old(group)[choice].health - dmg)]
      ensures hit ==> mana == Min(old(mana) + Max(1, maxMana / 10), maxMana)
      ensures !hit ==> group == old(group) && mana == old(mana)
    {
      hit := 0 <= choice < |group| && group[choice].health > 0;
      if hit {
        group := group[choice := group[choice].(health := group[choice].health - dmg)];
        mana := Min(mana + Max(1, maxMana / 10), maxMana);
      }
    }

    /** How many random values a skill use reads: one roll per hit (a
        single-attack skill hits once, a skill with no attacks not at all),
        and one standing-monster pick per roll. */
    ghost predicate SkillDrawsShape(idx: int, rolls: seq<int>, picks: seq<nat>)
      requires Valid()
      reads this
    {
      0 <= idx < |skills| ==>
        |picks| == |rolls| &&
        |rolls| == (if skillAttacks[idx] == 1 then 1 else Max(skillAttacks[idx], 0))
    }

    /** The hits of a multi-attack skill, each on a standing monster, until
        none stands. */
    method SkillVolley(rolls: seq<int>, picks: seq<nat>)
      requires |picks| == |rolls|
      modifies this`group
      ensures group == Volley(old(group), rolls, picks)
    {
      var k := 0;
      while k < |rolls|
        invariant 0 <= k <= |rolls|
        invariant Volley(group, rolls[k..], picks[k..]) == Volley(old(group), rolls, picks)
      {
        var living := Living(group);
        if |living| == 0 {
          break;
        }
        assert rolls[k..][1..] == rolls[k + 1..] && picks[k..][1..] == picks[k + 1..];
        ghost var hit := HitLiving(group, picks[k], rolls[k]);
        assert Volley(group, rolls[k..], picks[k..]) == Volley(hit, rolls[k + 1..], picks[k + 1..]);
        var t := living[picks[k] % |living|];
        group := group[t := group[t].(health := group[t].health - rolls[k])];
        assert group == hit;
        k := k + 1;
      }
    }

    /** Whether a skill use goes through: the number names a skill, mana
        covers its cost, some monster stands, and a single-attack skill is
        aimed at a standing monster. */
    predicate SkillGoesThrough(idx: int, target: int)
      requires Valid()
      reads this
    {
      0 <= idx < |skills| && mana >= skillManaCosts[idx] && |Living(group)| > 0 &&
      (skillAttacks[idx] == 1 ==> 0 <= target < |group| && group[target].health > 0)
    }

    /** A skill: refused without any change when the number is outside the
        list, mana is short, nothing stands, or a single-attack skill is
        aimed at a monster that is down (the cost is refunded); otherwise
        the cost is paid, the hits land, and a healing skill heals up to the
        health maximum. */
    method CastSkill(idx: int, target: int, rolls: seq<int>, picks: seq<nat>, heal: int) returns (used: bool)
      requires Valid() && SkillDrawsShape(idx, rolls, picks)
      modifies this`mana, this`group, this`health
      ensures used == old(SkillGoesThrough(idx, target))
      ensures used ==> (mana == old(mana) - skillManaCosts[idx] &&
        group == SkillHits(old(group), skillAttacks[idx], target, rolls, picks) &&
        health == (if skillHealing[idx] != 0 then Min(old(health) + heal, maxHealth) else old(health)))
      ensures !used ==> mana == old(mana) && group == old(group) && health == old(health)
    {
      used := false;
      if !(0 <= idx < |skills|) || mana < skillManaCosts[idx] || |Living(group)| == 0 {
        return;
      }
      var cost := skillManaCosts[idx];
      mana := mana - cost;
      if skillAttacks[idx] == 1 {
        if !(0 <= target < |group| && group[target].health > 0) {
          mana := mana + cost;
          return;
        }
        group := group[target := group[target].(health := group[target].health - rolls[0])];
      } else {
        SkillVolley(rolls, picks);
      }
      if skillHealing[idx] != 0 {
        health := Min(health + heal, maxHealth);
      }
      used := true;
    }

    /** The monsters' turn: every monster still standing hits the hero for
        its damage, with no clamp at 0. */
    method EnemyTurn()
      modifies this`health
      ensures health == old(health) - LivingDamage(group)
    {
      for k := 0 to |group|
        invariant health == old(health) - LivingDamage(group[..k])
      {
        assert group[..k + 1][..k] == group[..k];
        if group[k].health > 0 {
          health := health - group[k].damage;
        }
      }
      assert group[..|group|] == group;
    }

    /** The upgrade menu's effect between the state before it and now: the
        sheet becomes Menu's, and the equipment is left alone. */
    twostate predicate UpgradedBy(choices: seq<UpgradeChoice>)
      reads this
    {
      old(|skillAttacks| == |skillDamage|) &&
      CharacterSheet() == Menu(old(CharacterSheet()), choices).sheet &&
      equipped == old(equipped) && defense == old(defense)
    }

    /** The equipment menu's effect between the state before it and now: a
        listed number equips that item and recomputes the bonuses, any other
        number changes nothing; health, mana, the points and the skills are
        left alone. */
    twostate predicate EquippedBy(num: int)
      reads this
    {
      health == old(health) && mana == old(mana) && skillPoints == old(skillPoints) &&
      skillDamage == old(skillDamage) && skillAttacks == old(skillAttacks) &&
      if 1 <= num <= |Numbered(inventory)| then
        equipped == EquipList(old(equipped), Numbered(inventory)[num - 1]) && Worn() == Totals(equipped)
      else
        equipped == old(equipped) && Worn() == old(Worn())
    }

    /** The upgrade menu opened from combat. */
    method VisitUpgrades(choices: seq<UpgradeChoice>)
      requires Valid()
      modifies this`health, this`maxHealth, this`mana, this`maxMana, this`damage, this`defense,
        this`skillDamage, this`skillAttacks, this`skillPoints, this`equipped
      ensures Valid() && UpgradedBy(choices)
    {
      var _ := UpgradeMenu(choices);
    }

    /** The equipment menu opened from combat. */
    method VisitEquipment(num: int)
      requires Valid()
      modifies this`health, this`maxHealth, this`mana, this`maxMana, this`damage, this`defense,
        this`skillDamage, this`skillAttacks, this`skillPoints, this`equipped
      ensures Valid() && EquippedBy(num)
    {
      var _ := EquipNumber(num);
    }

    /** The two menus combat can open. */
    method VisitMenu(a: Action)
      requires Valid() && (a.Upgrades? || a.Equip?)
      modifies this`health, this`maxHealth, this`mana, this`maxMana, this`damage, this`defense,
        this`skillDamage, this`skillAttacks, this`skillPoints, this`equipped
      ensures Valid()
      ensures a.Upgrades? ==> UpgradedBy(a.choices)
      ensures a.Equip? ==> EquippedBy(a.num)
    {
      if a.Upgrades? {
        VisitUpgrades(a.choices);
      } else {
        VisitEquipment(a.num);
      }
    }

    /** An attack's effect between the state before it and now: a standing
        target loses the jittered damage, mana is refilled by a tenth of its
        maximum (at least 1, capped), and the monsters still standing then
        strike; any other target changes nothing. */
    twostate predicate Attacked(choice: int, dmg: int)
      reads this
    {
      if 0 <= choice < |old(group)| && old(group)[choice].health > 0 then
        group == old(group)[choice := old(group)[choice].(health := old(group)[choice].health - dmg)] &&
        mana == Min(old(mana) + Max(1, maxMana / 10), maxMana) &&
        health == old(health) - LivingDamage(group)
      else
        health == old(health) && group == old(group) && mana == old(mana)
    }

    /** A skill's effect between the state before it and now: one that goes
        through pays its cost, lands SkillHits, heals up to the maximum when
        it is a healing skill, and the monsters still standing then strike;
        one that is refused changes nothing. */
    twostate predicate SkillUsed(idx: int, target: int, rolls: seq<int>, picks: seq<nat>, heal: int)
      requires old(Valid()) && old(SkillDrawsShape(idx, rolls, picks))
      reads this
    {
      if old(SkillGoesThrough(idx, target)) then
        mana == old(mana - skillManaCosts[idx]) &&
        group == SkillHits(old(group), old(skillAttacks[idx]), target, rolls, picks) &&
        health == (if old(skillHealing[idx]) != 0 then Min(old(health) + heal, old(maxHealth)) else old(health))
          - LivingDamage(group)
      else
        health == old(health) && group == old(group) && mana == old(mana)
    }

    /** An attack, answered by the monsters still standing when it hits. */
    method AttackTurn(choice: int, dmg: int)
      requires Valid() && Jittered(damage, dmg)
      modifies this`health, this`mana, this`group
      ensures Valid() && Attacked(choice, dmg)
    {
      var hit := PlayerAttack(choice, dmg);
      if hit {
        EnemyTurn();
      }
    }

    /** A skill, answered by the monsters still standing when it goes
        through. */
    method SkillTurn(idx: int, target: int, rolls: seq<int>, picks: seq<nat>, heal: int)
      requires Valid() && SkillDrawsShape(idx, rolls, picks)
      modifies this`health, this`mana, this`group
      ensures Valid() && SkillUsed(idx, target, rolls, picks, heal)
    {
      var used := CastSkill(idx, target, rolls, picks, heal);
      if used {
        EnemyTurn();
      }
    }

    /** One pass of combat's loop: the chosen action, then the monsters'
        turn after an attack or a skill that went through; the menus and a
        refused action end the pass without a monster turn. */
    method Round(a: Action) returns (r: RoundEnd)
      requires Valid()
      requires a.Attack? ==> Jittered(damage, a.dmg)
      requires a.UseSkill? ==> SkillDrawsShape(a.idx, a.rolls, a.picks)
      modifies this`health, this`maxHealth, this`mana, this`maxMana, this`damage, this`defense,
        this`skillDamage, this`skillAttacks, this`skillPoints, this`equipped, this`group
      ensures Valid()
      ensures a.Retreat? <==> r == RanAway
      ensures a.ExitGame? <==> r == LeftGame
      ensures !(a.Upgrades? || a.Equip?) ==> CurrentBuild() == old(CurrentBuild())
      ensures a.Attack? ==> Attacked(a.choice, a.dmg)
      ensures a.UseSkill? ==> SkillUsed(a.idx, a.target, a.rolls, a.picks, a.heal)
      ensures a.Upgrades? ==> UpgradedBy(a.choices) && group == old(group)
      ensures a.Equip? ==> EquippedBy(a.num) && group == old(group)
      ensures a.Retreat? || a.ExitGame? || a.Unrecognised? ==>
        health == old(health) && mana == old(mana) && group == old(group) && skillPoints == old(skillPoints)
    {
      r := FightGoesOn;
      match a
      case Attack(choice, dmg) =>
        AttackTurn(choice, dmg);
      case UseSkill(idx, target, rolls, picks, heal) =>
        SkillTurn(idx, target, rolls, picks, heal);
      case Retreat =>
        r := RanAway;
      case Upgrades(_) =>
        VisitMenu(a);
      case Equip(_) =>
        VisitMenu(a);
      case ExitGame =>
        r := LeftGame;
      case Unrecognised =>
    }

    /** After the loop: a hero still standing collects coins drawn around
        the group's coin base and the group's xp; a fallen one is marked
        dead. The coin base is the one the code computes, from the health
        the monsters are left with (StartingCoinBase is the intended one). */
    method FinishCombat(coinRoll: int) returns (won: bool)
      requires Valid() && (health <= 0 || |Living(group)| == 0)
      requires ScaledWithin(CoinBase(group), coinRoll, 3, 5, 4)
      modifies this`level, this`xp, this`xpToNext, this`skillPoints, this`maxMana, this`mana, this`coins, this`isDead
      ensures Valid()
      ensures won <==> health > 0
      ensures won ==> (coins == old(coins) + coinRoll && isDead == old(isDead) &&
        Standing() == Settle(old(Standing()).(xp := old(xp) + GroupXp(group))))
      ensures !won ==> isDead && coins == old(coins) && Standing() == old(Standing())
    {
      if health <= 0 {
        isDead := true;
        won := false;
      } else {
        coins := coins + coinRoll;
        GainXp(GroupXp(group));
        won := true;
      }
    }

    // -------------------------------------------------------------------
    // explore_floor

    /** A fight saved from an earlier session is finished first; then ten
        rooms, each a shop or a fight, each adding one to the room counter;
        then the floor's boss. A fight that is not won ends the walk where
        it stands; beating the boss, or fleeing from it, rotates the monster
        list, moves to the next floor and resets the room counter. */
    method ExploreFloor(resumed: Option<FightResult>, rooms: seq<Room>, bossFight: FightResult)
      returns (r: FloorResult, boss: seq<Monster>)
      requires Valid() && |rooms| == 10
      modifies this`room, this`floor, this`monsters
      ensures Valid()
      ensures resumed.Some? && resumed.value != Won ==>
        r == WalkEnd(resumed.value) && room == old(room) && floor == old(floor) && monsters == old(monsters) && boss == []
      ensures (resumed.None? || resumed.value == Won) && !AllWon(WalkResults(rooms)) ==>
        var n := RoomsEntered(WalkResults(rooms));
        r == WalkEnd(WalkResults(rooms)[n - 1]) && room == old(room) + n && floor == old(floor) &&
        monsters == old(monsters) && boss == []
      ensures (resumed.None? || resumed.value == Won) && AllWon(WalkResults(rooms)) ==>
        boss == [Spawn(FloorBoss(old(monsters), old(floor)))]
      ensures (resumed.None? || resumed.value == Won) && AllWon(WalkResults(rooms)) && (bossFight == Quit || bossFight == Lost) ==>
        r == WalkEnd(bossFight) && room == old(room) + 10 && floor == old(floor) && monsters == old(monsters)
      ensures (resumed.None? || resumed.value == Won) && AllWon(WalkResults(rooms)) && (bossFight == Won || bossFight == Fled) ==>
        r == FloorCleared && room == 1 && floor == old(floor) + 1 && monsters == RotateLeft(old(monsters))
    {
      boss := [];
      if resumed.Some? && resumed.value != Won {
        r := WalkEnd(resumed.value);
        return;
      }
      var ended := WalkRooms(rooms);
      if ended.Some? {
        r := WalkEnd(ended.value);
        return;
      }
      boss := [Spawn(FloorBoss(monsters, floor))];
      if bossFight == Quit || bossFight == Lost {
        r := WalkEnd(bossFight);
        return;
      }
      RotateMonsters();
      floor := floor + 1;
      room := 1;
      r := FloorCleared;
    }

    /** The regular rooms: each one entered adds one to the room counter,
        and the first fight not won ends the walk. */
    method WalkRooms(rooms: seq<Room>) returns (ended: Option<FightResult>)
      modifies this`room
      ensures room == old(room) + RoomsEntered(WalkResults(rooms))
      ensures ended.None? <==> AllWon(WalkResults(rooms))
      ensures ended.None? ==> room == old(room) + |rooms|
      ensures ended.Some? ==> ended.value != Won && ended.value == WalkResults(rooms)[RoomsEntered(WalkResults(rooms)) - 1]
    {
      ghost var fights := WalkResults(rooms);
      var i := 0;
      while i < |rooms|
        invariant 0 <= i <= |rooms| && room == old(room) + i
        invariant forall k :: 0 <= k < i ==> fights[k] == Won
        invariant RoomsEntered(fights) == i + RoomsEntered(fights[i..])
      {
        room := room + 1;
        assert fights[i..] == [fights[i]] + fights[i + 1..];
        match rooms[i] {
          case ShopVisit =>
          case Fight(result) =>
            if result != Won {
              assert fights[i] == result && RoomsEntered(fights[i..]) == 1;
              return Some(result);
            }
        }
        i := i + 1;
      }
      assert fights[i..] == [] && AllWon(fights);
      return None;
    }
  }
}
