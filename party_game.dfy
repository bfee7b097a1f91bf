/** The newest engine's state and its in-place updates: player_data's
    parallel arrays (one Hero per character), character_skills (one
    SkillBook per character), the shared coins, inventory and equipped
    lists, persistent_stats' floor, room and rotation index, and the group
    of the fight in progress, as fields of one Party object. Random draws
    and typed choices arrive as arguments. */
module PartyGame {
  import opened Basics
  import opened Dice
  import opened Encounter
  import opened Progression
  import opened PartyRules

  /** How a shop choice ends. */
  datatype Sale = Sold | TooPoor | NoSuchOffer

  /** An entry of the upgrade menu; SkillUp carries the typed number minus
      one. */
  datatype MenuChoice = MoreHealth | MoreMana | MoreDamage | SkillUp(idx: int) | LeaveMenu | UnknownChoice

  /** The entries of the character wearing a new item: the bonus of the
      item it displaces is taken off, then the new bonus is put on. */
  function HeroAfterEquip(h: Hero, equipped: seq<Item>, item: Item, name: string): Hero {
    match SlotOf(equipped, name, item.kind)
    case Some(w) => Boosted(Boosted(h, equipped[w].bonus, -1), item.bonus, 1)
    case None => Boosted(h, item.bonus, 1)
  }

  /** What one upgrade-menu choice does: the character and book after it,
      the points it costs, and whether it ends the menu. */
  datatype Chosen = Chosen(hero: Hero, book: SkillBook, cost: nat, ends: bool)

  /** One choice of the selected character's upgrade menu: "+5 max health"
      and "+3 max mana" also refill health or mana to the new maximum; each
      stat choice and each skill upgrade that goes through costs one point;
      an index outside the list or a skill at its max level costs nothing; a
      book with a bought skill, whose max_level list is short (IndexError),
      and a dice entry that does not parse (ValueError, after the partial
      raise) end the menu. */
  function Choose(h: Hero, b: SkillBook, c: MenuChoice): (r: Chosen)
    requires BookShaped(b)
    ensures BookShaped(r.book)
  {
    var paid := h.(skillPoints := h.skillPoints - 1);
    match c
    case MoreHealth => Chosen(paid.(maxHealth := h.maxHealth + 5, health := h.maxHealth + 5), b, 1, false)
    case MoreMana => Chosen(paid.(maxMana := h.maxMana + 3, mana := h.maxMana + 3), b, 1, false)
    case MoreDamage => Chosen(paid.(damage := h.damage + 1), b, 1, false)
    case SkillUp(idx) =>
      (match StepOf(b, idx)
       case Upgraded => Chosen(paid, UpgradedBook(b, idx), 1, false)
       case NoMaxLevel => Chosen(h, b, 0, true)
       case BadDice => Chosen(h, PartialRaise(b, idx), 0, true)
       case _ => Chosen(h, b, 0, false))
    case _ => Chosen(h, b, 0, false)
  }

  /** Each choice changes only the two maxima, health, mana, damage, the
      points and the skill levels, attacks and dice; the maxima and damage
      never fall; a choice costs its one point exactly when it raises a
      stat or a skill level, which with gains == 3 * (health maximum
      gained) + 5 * (mana maximum gained) + 15 * (damage and skill levels
      gained) reads gains == 15 * cost, except for a raise that bad dice
      cut short, which costs nothing and gains one level. */
  lemma ChooseGains(h: Hero, b: SkillBook, c: MenuChoice)
    requires BookShaped(b)
    ensures var r := Choose(h, b, c);
      r.hero.skillPoints == h.skillPoints - r.cost &&
      r.hero.(maxHealth := h.maxHealth, health := h.health, maxMana := h.maxMana, mana := h.mana,
              damage := h.damage, skillPoints := h.skillPoints) == h &&
      r.book.skills == b.skills && r.book.manaCosts == b.manaCosts && r.book.maxLevel == b.maxLevel &&
      r.hero.maxHealth >= h.maxHealth && r.hero.maxMana >= h.maxMana && r.hero.damage >= h.damage
    ensures var r := Choose(h, b, c);
      3 * (r.hero.maxHealth - h.maxHealth) + 5 * (r.hero.maxMana - h.maxMana) +
        15 * (r.hero.damage - h.damage + Sum(r.book.level) - Sum(b.level)) ==
      15 * r.cost + (if r.ends && r.book != b then 15 else 0)
    ensures var r := Choose(h, b, c); r.ends ==> r.cost == 0
  {
    if c.SkillUp? && StepOf(b, c.idx) in {Upgraded, BadDice} {
      SumBump(b.level, c.idx);
    }
    if c.SkillUp? && StepOf(b, c.idx) == BadDice {
      assert Choose(h, b, c).book.level != b.level;
    }
  }

  /** Where the upgrade menu leaves the selected character and its skill
      book, and how many points it took. */
  datatype MenuEnd = MenuEnd(hero: Hero, book: SkillBook, spent: nat)

  /** The menu reads choices while a point is left and until "exit", and
      stops early where a choice ends it. */
  function Menu(h: Hero, b: SkillBook, choices: seq<MenuChoice>): (e: MenuEnd)
    requires BookShaped(b)
    ensures BookShaped(e.book)
    decreases |choices|
  {
    if choices == [] || h.skillPoints <= 0 || choices[0] == LeaveMenu then MenuEnd(h, b, 0)
    else
      var r := Choose(h, b, choices[0]);
      if r.ends then MenuEnd(r.hero, r.book, 0)
      else
        var e := Menu(r.hero, r.book, choices[1..]);
        e.(spent := e.spent + r.cost)
  }

  /** The points drop by what the menu spent and never below 0, without
      points nothing changes, and only the entries a choice may change do. */
  lemma {:induction false} MenuSpends(h: Hero, b: SkillBook, choices: seq<MenuChoice>)
    requires BookShaped(b)
    decreases |choices|
    ensures var e := Menu(h, b, choices);
      e.hero.skillPoints == h.skillPoints - e.spent && e.spent <= |choices| &&
      (h.skillPoints <= 0 ==> e == MenuEnd(h, b, 0)) && (h.skillPoints > 0 ==> e.hero.skillPoints >= 0)
    ensures var e := Menu(h, b, choices);
      e.hero.(maxHealth := h.maxHealth, health := h.health, maxMana := h.maxMana, mana := h.mana,
              damage := h.damage, skillPoints := h.skillPoints) == h &&
      e.book.skills == b.skills && e.book.manaCosts == b.manaCosts && e.book.maxLevel == b.maxLevel &&
      e.hero.maxHealth >= h.maxHealth && e.hero.maxMana >= h.maxMana && e.hero.damage >= h.damage
  {
    if !(choices == [] || h.skillPoints <= 0 || choices[0] == LeaveMenu) {
      ChooseGains(h, b, choices[0]);
      var r := Choose(h, b, choices[0]);
      if !r.ends {
        MenuSpends(r.hero, r.book, choices[1..]);
      }
    }
  }

  /** Each point spent bought one of +5 maximum health, +3 maximum mana,
      +1 damage or one skill level: with gains as in ChooseGains,
      15 * spent <= gains <= 15 * spent + 15, the last 15 being a raise that
      bad dice cut short. */
  lemma {:induction false} MenuGains(h: Hero, b: SkillBook, choices: seq<MenuChoice>)
    requires BookShaped(b)
    decreases |choices|
    ensures var e := Menu(h, b, choices);
      var gains := 3 * (e.hero.maxHealth - h.maxHealth) + 5 * (e.hero.maxMana - h.maxMana) +
        15 * (e.hero.damage - h.damage + Sum(e.book.level) - Sum(b.level));
      15 * e.spent <= gains <= 15 * e.spent + 15
  {
    if !(choices == [] || h.skillPoints <= 0 || choices[0] == LeaveMenu) {
      ChooseGains(h, b, choices[0]);
      var r := Choose(h, b, choices[0]);
      if !r.ends {
        MenuGains(r.hero, r.book, choices[1..]);
      }
    }
  }

  class Party {
    var names: seq<string>
    var current: nat
    var heroes: seq<Hero>
    var books: seq<SkillBook>
    var coins: int
    var inventory: seq<Item>
    var equipped: seq<Item>
    var floor: int
    var room: int
    var rotation: nat
    var catalog: seq<Template>
    var group: seq<Monster>
    var fallen: bool

    /** One Hero and one SkillBook per character, a selected character, a
        non-empty monster list with the rotation index inside it, and skill
        books whose arrays a purchase keeps in step. */
    ghost predicate Valid()
      reads this
    {
      |heroes| == |names| && |books| == |names| && current < |names| &&
      rotation < |catalog| &&
      forall c :: 0 <= c < |books| ==> BookShaped(books[c])
    }

    /** The starting party on floor 1, room 1, fighting from the start of
        the given monster list. */
    constructor (monsters: seq<Template>)
      requires |monsters| > 0
      ensures Valid()
      ensures names == StartingNames && current == 0 && heroes == StartingHeroes && books == StartingBooks
      ensures coins == 0 && inventory == [] && equipped == []
      ensures floor == 1 && room == 1 && rotation == 0 && catalog == monsters && group == [] && !fallen
    {
      names, current, heroes, books := StartingNames, 0, StartingHeroes, StartingBooks;
      coins, inventory, equipped := 0, [], [];
      floor, room, rotation, catalog, group, fallen := 1, 1, 0, monsters, [], false;
    }

    // -------------------------------------------------------------------
    // generate_monster_group and rotate_monsters

    /** A new group drawn from the pool at the rotation index: one to five
        copies of pool entries, each with max_health set to its health. */
    method GenerateMonsterGroup(grows: seq<bool>, picks: seq<nat>) returns (g: seq<Monster>)
      requires Valid() && |grows| == 4 && |picks| == 5
      requires forall k :: 0 <= k < 5 ==> picks[k] < |Pool(catalog, rotation)|
      ensures |g| == GroupSize(grows)
      ensures forall k :: 0 <= k < |g| ==>
        picks[k] < 3 && rotation + picks[k] < |catalog| && g[k] == Spawn(catalog[rotation + picks[k]]) && g[k].maxHealth == g[k].health
    {
      var pool := Pool(catalog, rotation);
      g := DrawGroup(pool, grows, picks);
    }

    method RotateMonsters()
      requires Valid()
      modifies this`rotation
      ensures Valid()
      ensures rotation == NextRotation(old(rotation), |catalog|)
    {
      if rotation + 3 < |catalog| {
        rotation := rotation + 1;
      }
    }

    // -------------------------------------------------------------------
    // gain_xp

    /** The selected character gains the xp and passes the level-up loop;
        every other character is untouched. */
    method GainXp(amount: int)
      requires Valid() && heroes[current].xpToNext >= 1
      modifies this`heroes
      ensures Valid()
      ensures heroes == old(heroes)[current := HeroSettle(old(heroes)[current].(xp := old(heroes)[current].xp + amount), Max(1, floor))]
    {
      var i := current;
      heroes := heroes[i := heroes[i].(xp := heroes[i].xp + amount)];
      ghost var start := heroes;
      while heroes[i].xp >= heroes[i].xpToNext
        invariant |heroes| == |start| && heroes == start[i := heroes[i]]
        invariant heroes[i].xpToNext >= 1
        invariant HeroSettle(heroes[i], Max(1, floor)) == HeroSettle(start[i], Max(1, floor))
        decreases heroes[i].xp
      {
        var h := heroes[i];
        ghost var before := h;
        h := h.(xp := h.xp - h.xpToNext, level := h.level + 1);
        var earned := Max(1, floor);
        h := h.(skillPoints := h.skillPoints + earned);
        h := h.(xpToNext := ScaleThreshold(h.xpToNext));
        h := h.(maxMana := ScaleMana(h.maxMana));
        h := h.(mana := h.maxMana);
        h := h.(maxHealth := ScaleHealth(h.maxHealth));
        h := h.(health := h.maxHealth);
        assert h == HeroLevelUp(before, earned);
        heroes := heroes[i := h];
      }
    }

    // -------------------------------------------------------------------
    // Shop and treasure

    /** A purchase: refused for a number outside the list or when coins
        are short; otherwise the price is paid, and an item joins the shared
        inventory while a skill joins the selected character's book. */
    method Buy(offers: seq<Offer>, index: int) returns (r: Sale)
      requires Valid()
      modifies this`coins, this`inventory, this`books
      ensures Valid()
      ensures r == (if !(0 <= index < |offers|) then NoSuchOffer
                    else if old(coins) < offers[index].price then TooPoor else Sold)
      ensures r == Sold ==> coins == old(coins) - offers[index].price && coins >= 0
      ensures r == Sold && offers[index].ItemForSale? ==>
        inventory == old(inventory) + [offers[index].item] && books == old(books)
      ensures r == Sold && offers[index].SkillForSale? ==>
        books == old(books)[current := Learn(old(books)[current], offers[index].skill)] && inventory == old(inventory)
      ensures r != Sold ==> coins == old(coins) && inventory == old(inventory) && books == old(books)
    {
      if !(0 <= index < |offers|) {
        return NoSuchOffer;
      }
      var offer := offers[index];
      if coins < offer.price {
        return TooPoor;
      }
      coins := coins - offer.price;
      match offer {
        case SkillForSale(skill, _) =>
          var b := books[current];
          b := b.(skills := b.skills + [skill]);
          b := b.(manaCosts := b.manaCosts + [6]);
          b := b.(damage := b.damage + ["1d4"]);
          b := b.(attacks := b.attacks + [1]);
          b := b.(healing := b.healing + ["None"]);
          b := b.(level := b.level + [1]);
          books := books[current := b];
        case ItemForSale(item, _) =>
          inventory := inventory + [item];
      }
      return Sold;
    }

    /** A treasure room: base is randint(10, 30), to which five coins per
        floor are added; found is the item of the 25% draw, if any. */
    method Treasure(base: int, found: Option<Item>)
      requires 10 <= base <= 30
      modifies this`coins, this`inventory
      ensures coins == old(coins) + base + floor * 5
      ensures floor >= 1 ==> old(coins) + 15 <= coins <= old(coins) + 30 + floor * 5
      ensures inventory == old(inventory) + (if found.Some? then [found.value] else [])
    {
      var coinsFound := base + floor * 5;
      coins := coins + coinsFound;
      if found.Some? {
        inventory := inventory + [found.value];
      }
    }

    // -------------------------------------------------------------------
    // upgrade_skill and upgrade_current_player

    /** The upgrade itself, once every skill has a max_level entry and the
        index is valid and below its max level: one more level, one more attack for a multi-attack skill,
        then one more die in the damage and healing entries in that order;
        a dice entry that does not parse raises ValueError, which ends the
        program, leaving the earlier changes in place. */
    method RaiseSkill(idx: nat) returns (r: SkillStep)
      requires Valid()
      requires idx < |books[current].skills| == |books[current].maxLevel|
      requires books[current].level[idx] < books[current].maxLevel[idx]
      modifies this`books, this`heroes
      ensures Valid()
      ensures |books| == |old(books)| && books == old(books)[current := books[current]]
      ensures r == StepOf(old(books)[current], idx)
      ensures r == BadDice ==> heroes == old(heroes) && books == old(books)[current := PartialRaise(old(books)[current], idx)]
      ensures r == Upgraded ==>
        books == old(books)[current := UpgradedBook(old(books)[current], idx)] &&
        heroes == old(heroes)[current := old(heroes)[current].(skillPoints := old(heroes)[current].skillPoints - 1)]
    {
      var b := books[current];
      var level := b.level[idx := b.level[idx] + 1];
      var attacks := if b.attacks[idx] > 1 then b.attacks[idx := b.attacks[idx] + 1] else b.attacks;
      var damage := OneMoreDie(b.damage[idx]);
      if damage.None? {
        books := books[current := b.(level := level, attacks := attacks)];
        assert books[current] == PartialRaise(b, idx);
        return BadDice;
      }
      var healing := OneMoreDie(b.healing[idx]);
      if healing.None? {
        books := books[current := b.(level := level, attacks := attacks, damage := b.damage[idx := damage.value])];
        assert books[current] == PartialRaise(b, idx);
        return BadDice;
      }
      books := books[current := b.(level := level, attacks := attacks,
                                   damage := b.damage[idx := damage.value], healing := b.healing[idx := healing.value])];
      var h := heroes[current];
      heroes := heroes[current := h.(skillPoints := h.skillPoints - 1)];
      return Upgraded;
    }

    /** One choice in upgrade_skill for the selected character: after a
        skill purchase the max_level list is short and listing the skills
        raises IndexError before any input; otherwise an index outside the
        list and a skill at its max level are refused without change. The
        skill points are the selected character's entry of skill_points. */
    method UpgradeSkill(idx: int) returns (r: SkillStep)
      requires Valid()
      modifies this`books, this`heroes
      ensures Valid()
      ensures |books| == |old(books)| && books == old(books)[current := books[current]]
      ensures r == StepOf(old(books)[current], idx)
      ensures r != Upgraded ==> heroes == old(heroes)
      ensures r == NoSuchSkill || r == NoMaxLevel || r == AtMaxLevel ==> books == old(books)
      ensures r == BadDice ==> books == old(books)[current := PartialRaise(old(books)[current], idx)]
      ensures r == Upgraded ==>
        books == old(books)[current := UpgradedBook(old(books)[current], idx)] &&
        heroes == old(heroes)[current := old(heroes)[current].(skillPoints := old(heroes)[current].skillPoints - 1)]
    {
      var b := books[current];
      if |b.maxLevel| < |b.skills| {
        return NoMaxLevel;
      }
      if !(0 <= idx < |b.skills|) {
        return NoSuchSkill;
      }
      if b.level[idx] >= b.maxLevel[idx] {
        return AtMaxLevel;
      }
      r := RaiseSkill(idx);
    }

    /** The upgrade menu: nothing when the selected character has no skill
        point; otherwise each stat choice spends one point, a skill upgrade
        spends one point when it goes through, and the menu closes when the
        points run out, on "exit", or when upgrade_skill raises. */
    method UpgradeMenu(choices: seq<MenuChoice>) returns (spent: nat)
      requires Valid()
      modifies this`heroes, this`books
      ensures Valid()
      ensures var e := Menu(old(heroes)[current], old(books)[current], choices);
        heroes == old(heroes)[current := e.hero] && books == old(books)[current := e.book] && spent == e.spent
      ensures |heroes| == |old(heroes)| && heroes[current].skillPoints == old(heroes)[current].skillPoints - spent
      ensures spent <= |choices|
      ensures old(heroes)[current].skillPoints <= 0 ==> spent == 0 && heroes == old(heroes) && books == old(books)
      ensures old(heroes)[current].skillPoints > 0 ==> heroes[current].skillPoints >= 0
      ensures forall k :: 0 <= k < |heroes| && k != current ==> heroes[k] == old(heroes)[k]
      ensures forall k :: 0 <= k < |books| && k != current ==> books[k] == old(books)[k]
    {
      spent := 0;
      var i := current;
      ghost var goal := Menu(heroes[i], books[i], choices);
      MenuSpends(heroes[i], books[i], choices);
      var k := 0;
      while k < |choices| && heroes[i].skillPoints > 0 && choices[k] != LeaveMenu
        decreases |choices| - k
        invariant Valid() && |heroes| == |old(heroes)| && |books| == |old(books)| && 0 <= k <= |choices|
        invariant heroes == old(heroes)[i := heroes[i]] && books == old(books)[i := books[i]]
        invariant spent <= goal.spent && Menu(heroes[i], books[i], choices[k..]) == goal.(spent := goal.spent - spent)
      {
        ghost var r := Choose(heroes[i], books[i], choices[k]);
        assert choices[k..][0] == choices[k] && choices[k..][1..] == choices[k + 1..];
        assert Menu(heroes[i], books[i], choices[k..]) ==
          if r.ends then MenuEnd(r.hero, r.book, 0)
          else Menu(r.hero, r.book, choices[k + 1..]).(spent := Menu(r.hero, r.book, choices[k + 1..]).spent + r.cost);
        var cost, ends := MenuStep(choices[k]);
        spent := spent + cost;
        if ends {
          return;
        }
        k := k + 1;
      }
      assert Menu(heroes[i], books[i], choices[k..]) == MenuEnd(heroes[i], books[i], 0);
    }

    /** One choice of the menu, with its point paid. */
    method MenuStep(c: MenuChoice) returns (cost: nat, ends: bool)
      requires Valid()
      modifies this`heroes, this`books
      ensures Valid()
      ensures var r := Choose(old(heroes)[current], old(books)[current], c);
        heroes == old(heroes)[current := r.hero] && books == old(books)[current := r.book] &&
        cost == r.cost && ends == r.ends
    {
      var i := current;
      var h := heroes[i];
      cost, ends := 0, false;
      match c {
        case MoreHealth =>
          h := h.(maxHealth := h.maxHealth + 5);
          h := h.(health := h.maxHealth);
          heroes := heroes[i := h.(skillPoints := h.skillPoints - 1)];
          cost := 1;
        case MoreMana =>
          h := h.(maxMana := h.maxMana + 3);
          h := h.(mana := h.maxMana);
          heroes := heroes[i := h.(skillPoints := h.skillPoints - 1)];
          cost := 1;
        case MoreDamage =>
          h := h.(damage := h.damage + 1);
          heroes := heroes[i := h.(skillPoints := h.skillPoints - 1)];
          cost := 1;
        case SkillUp(idx) =>
          cost, ends := SkillChoice(idx);
        case _ =>
      }
    }

    /** The "upgrade a skill" choice: upgrade_skill's point for an upgrade
        that goes through, and the end of the menu when it raises. */
    method SkillChoice(idx: int) returns (cost: nat, ends: bool)
      requires Valid()
      modifies this`heroes, this`books
      ensures Valid()
      ensures var r := Choose(old(heroes)[current], old(books)[current], SkillUp(idx));
        heroes == old(heroes)[current := r.hero] && books == old(books)[current := r.book] &&
        cost == r.cost && ends == r.ends
    {
      var step := UpgradeSkill(idx);
      cost, ends := 0, false;
      if step == Upgraded {
        cost := 1;
      } else if step == NoMaxLevel || step == BadDice {
        ends := true;
      }
    }

    // -------------------------------------------------------------------
    // equip_item, unequip_item, apply_bonuses, remove_bonuses

    /** for key, val in bonus.items(): player_data[key][index] += val. */
    method ApplyBonuses(index: nat, bonus: seq<Entry>)
      requires index < |heroes|
      modifies this`heroes
      ensures heroes == old(heroes)[index := Boosted(old(heroes)[index], bonus, 1)]
    {
      for k := 0 to |bonus|
        invariant heroes == old(heroes)[index := Boosted(old(heroes)[index], bonus[..k], 1)]
      {
        var e := bonus[k];
        heroes := heroes[index := Bump(heroes[index], StatIndex(e.key, 0), e.val)];
        assert bonus[..k + 1][..k] == bonus[..k];
      }
      assert bonus[..|bonus|] == bonus;
    }

    /** for key, val in bonus.items(): player_data[key][index] -= val. */
    method RemoveBonuses(index: nat, bonus: seq<Entry>)
      requires index < |heroes|
      modifies this`heroes
      ensures heroes == old(heroes)[index := Boosted(old(heroes)[index], bonus, -1)]
    {
      for k := 0 to |bonus|
        invariant heroes == old(heroes)[index := Boosted(old(heroes)[index], bonus[..k], -1)]
      {
        var e := bonus[k];
        heroes := heroes[index := Bump(heroes[index], StatIndex(e.key, 0), -e.val)];
        assert bonus[..k + 1][..k] == bonus[..k];
      }
      assert bonus[..|bonus|] == bonus;
    }

    /** Taking an item off: its bonus is removed, it leaves the equipped
        list and returns to the inventory without an owner. */
    method Unequip(ci: nat, item: Item)
      requires Valid() && ci < |names| && item in equipped
      modifies this`heroes, this`equipped, this`inventory
      ensures Valid()
      ensures heroes == old(heroes)[ci := Boosted(old(heroes)[ci], item.bonus, -1)]
      ensures equipped == RemoveFirst(old(equipped), item)
      ensures inventory == old(inventory) + [item.(owner := None)]
    {
      RemoveBonuses(ci, item.bonus);
      equipped := RemoveFirst(equipped, item);
      inventory := inventory + [item.(owner := None)];
    }

    /** The for-loop of equip_item: the first equipped item character ci
        owns with the given type, if any. */
    method FindSlot(ci: nat, kind: string) returns (w: Option<nat>)
      requires ci < |names|
      ensures w == SlotOf(equipped, names[ci], kind)
    {
      var k := 0;
      while k < |equipped|
        invariant k <= |equipped|
        invariant forall j :: 0 <= j < k ==> !(equipped[j].owner == Some(names[ci]) && equipped[j].kind == kind)
      {
        if equipped[k].owner == Some(names[ci]) && equipped[k].kind == kind {
          SlotOfFirst(equipped, names[ci], kind, k);
          return Some(k);
        }
        k := k + 1;
      }
      return None;
    }

    /** The first half of equip_item: the item character ci wears in the
        slot of the given type, if any, is taken off. */
    method ClearSlot(ci: nat, kind: string) returns (w: Option<nat>)
      requires Valid() && ci < |names|
      modifies this`heroes, this`equipped, this`inventory
      ensures Valid()
      ensures w == SlotOf(old(equipped), names[ci], kind)
      ensures w.Some? ==> var worn := old(equipped)[w.value];
        heroes == old(heroes)[ci := Boosted(old(heroes)[ci], worn.bonus, -1)] &&
        equipped == RemoveFirst(old(equipped), worn) &&
        inventory == old(inventory) + [worn.(owner := None)]
      ensures w.None? ==> heroes == old(heroes) && equipped == old(equipped) && inventory == old(inventory)
    {
      w := FindSlot(ci, kind);
      if w.Some? {
        Unequip(ci, equipped[w.value]);
      }
    }

    /** Putting an item on character ci: the item it already wears in that
        slot, if any, is taken off first; then the bonus is applied and the
        item moves from the inventory to the equipped list with its owner
        set. */
    method Equip(ci: nat, item: Item)
      requires Valid() && ci < |names| && item in inventory
      modifies this`heroes, this`equipped, this`inventory
      ensures Valid()
      ensures heroes == old(heroes)[ci := HeroAfterEquip(old(heroes)[ci], old(equipped), item, names[ci])]
      ensures equipped == EquippedAfter(old(equipped), item, names[ci])
      ensures inventory == InventoryAfter(old(inventory), old(equipped), item, names[ci])
    {
      var w := ClearSlot(ci, item.kind);
      ApplyBonuses(ci, item.bonus);
      equipped := equipped + [item.(owner := Some(names[ci]))];
      inventory := RemoveFirst(inventory, item);
    }

    // -------------------------------------------------------------------
    // Combat

    /** player_attack: only a standing monster can be chosen; the hit is
        the sum of `damage` faces of a d2 and health stops at 0. */
    method PlayerAttack(choice: int, faces: seq<int>) returns (hit: bool)
      requires Valid()
      requires |faces| == Max(0, heroes[current].damage) && forall k :: 0 <= k < |faces| ==> 1 <= faces[k] <= 2
      modifies this`group
      ensures hit <==> 0 <= choice < |old(group)| && old(group)[choice].health > 0
      ensures hit ==> group == old(group)[choice := old(group)[choice].(health := Max(0, old(group)[choice].health - Sum(faces)))]
      ensures hit ==> |faces| <= Sum(faces) <= 2 * |faces|
      ensures !hit ==> group == old(group)
    {
      LivingComplete(group);
      var targets := Living(group);
      if |targets| == 0 {
        return false;
      }
      if choice < 0 || choice !in targets {
        return false;
      }
      SumBounds(faces, 2);
      var dmg := Sum(faces);
      group := group[choice := group[choice].(health := Max(0, group[choice].health - dmg))];
      return true;
    }

    /** One pass of the hit loop: random.choice among the standing
        monsters, then the hit, with health not dropping below 0. */
    method HitOne(pick: nat, roll: int)
      requires |Living(group)| > 0
      modifies this`group
      ensures group == Strike(old(group), pick, roll)
    {
      var living := Living(group);
      var t := living[pick % |living|];
      group := group[t := group[t].(health := Max(0, group[t].health - roll))];
    }

    /** The hit loop shared by a skill and an idle ally: up to n hits, each
        on a standing monster; out says that a pass found none standing,
        landed that at least one hit was made. */
    method StrikeGroup(n: int, picks: seq<nat>, rolls: seq<int>) returns (out: bool, landed: bool)
      requires |picks| == |rolls| && n <= |rolls|
      modifies this`group
      ensures (group, out) == Strikes(old(group), n, picks, rolls, 0)
      ensures landed <==> n >= 1 && |Living(old(group))| > 0
    {
      out, landed := false, false;
      ghost var g0 := group;
      var a := 0;
      while a < n
        invariant 0 <= a <= Max(0, n) && (landed <==> a > 0)
        invariant a == 0 ==> group == g0
        invariant a > 0 ==> |Living(g0)| > 0
        invariant Strikes(g0, n, picks, rolls, 0) == Strikes(group, n, picks, rolls, a)
      {
        if |Living(group)| == 0 {
          out := true;
          return;
        }
        HitOne(picks[a], rolls[a]);
        a := a + 1;
        landed := true;
      }
    }

    /** player_skill_select for a typed skill index s: refused without
        change for an index outside the list or when mana is short;
        otherwise the cost is paid, the hits land on standing monsters, and
        a healing skill heals the caster up to its maximum. It reports
        success when a hit landed or the skill heals. */
    method SkillSelect(s: int, picks: seq<nat>, rolls: seq<int>, heal: int) returns (success: bool)
      requires Valid() && |picks| == |rolls|
      requires 0 <= s < |books[current].skills| ==> books[current].attacks[s] <= |rolls|
      modifies this`heroes, this`group
      ensures Valid()
      ensures var b, h := old(books[current]), old(heroes[current]);
        if !(0 <= s < |b.skills|) || h.mana < b.manaCosts[s] then
          !success && heroes == old(heroes) && group == old(group)
        else
          var heals := Lower(b.healing[s]) != "none";
          group == Strikes(old(group), b.attacks[s], picks, rolls, 0).0 &&
          heroes == old(heroes)[current := h.(mana := h.mana - b.manaCosts[s],
                                              health := if heals then Min(h.health + heal, h.maxHealth) else h.health)] &&
          heroes[current].mana >= 0 &&
          (success <==> (b.attacks[s] >= 1 && |Living(old(group))| > 0) || heals)
    {
      var i := current;
      var b := books[i];
      if !(0 <= s < |b.skills|) {
        return false;
      }
      if heroes[i].mana < b.manaCosts[s] {
        return false;
      }
      var cost := b.manaCosts[s];
      heroes := heroes[i := heroes[i].(mana := Max(0, heroes[i].mana - cost))];
      var attacks := b.attacks[s];
      var _, landed := StrikeGroup(attacks, picks, rolls);
      success := landed;
      if Lower(b.healing[s]) != "none" {
        var h := heroes[i];
        heroes := heroes[i := h.(health := Min(h.health + heal, h.maxHealth))];
        success := true;
      }
    }

    /** The body of other_character_turn's loop for ally j: its attacks
        unless its damage is "none", then its heal on an injured character
        (dead ones included) unless its healing is "none". ended says that
        an attack found no monster standing, where the source returns from
        the whole turn. */
    method AllyStep(j: nat, d: AllyDraws) returns (ended: bool)
      requires j < |heroes| && |d.picks| == |d.rolls| && heroes[j].idleAttacks <= |d.rolls|
      modifies this`heroes, this`group
      ensures (heroes, group, ended) == AllyAct(old(heroes), old(group), j, d)
    {
      ended := false;
      if Lower(heroes[j].idleDamage) != "none" {
        var out, _ := StrikeGroup(heroes[j].idleAttacks, d.picks, d.rolls);
        if out {
          return true;
        }
      }
      if Lower(heroes[j].idleHealing) != "none" {
        var injured := Injured(heroes);
        if |injured| == 0 {
          return false;
        }
        var t := injured[d.healPick % |injured|];
        heroes := heroes[t := heroes[t].(health := Min(heroes[t].health + d.heal, heroes[t].maxHealth))];
      }
    }

    /** other_character_turn: each living ally other than the selected one
        acts in turn; an attack that finds no standing monster ends the
        whole turn. */
    method AlliesTurn(draws: seq<AllyDraws>)
      requires Valid() && DrawsFrom(heroes, draws, 0)
      modifies this`heroes, this`group
      ensures Valid()
      ensures (heroes, group) == IdleTurn(old(heroes), old(group), current, 0, draws)
    {
      var i := current;
      var j := 0;
      while j < |heroes|
        invariant Valid() && j <= |heroes| && DrawsFrom(heroes, draws, j)
        invariant IdleTurn(old(heroes), old(group), i, 0, draws) == IdleTurn(heroes, group, i, j, draws)
      {
        if j != i && heroes[j].health > 0 {
          var ended := AllyStep(j, draws[j]);
          if ended {
            return;
          }
        }
        j := j + 1;
      }
    }

    /** The loop of monster_attack: each standing monster strikes its
        drawn target unless that character is down, in group order. */
    method MonsterBlows(targets: seq<nat>, rolls: seq<int>)
      requires TargetsFit(heroes, group, targets, rolls)
      modifies this`heroes
      ensures heroes == Blows(old(heroes), group, 0, targets, rolls)
    {
      ghost var hs0 := heroes;
      for k := 0 to |group|
        invariant |heroes| == |hs0| && TargetsFit(heroes, group, targets, rolls)
        invariant Blows(hs0, group, 0, targets, rolls) == Blows(heroes, group, k, targets, rolls)
      {
        var t := targets[k];
        if group[k].health > 0 && heroes[t].health > 0 {
          heroes := heroes[t := heroes[t].(health := Max(0, heroes[t].health - rolls[k]))];
        }
      }
    }

    /** monster_attack, with every roll drawn from "{damage}d2": no health
        drops below 0, and none rises, since every such roll is at least 0. */
    method MonsterAttack(targets: seq<nat>, rolls: seq<int>)
      requires Valid() && TargetsFit(heroes, group, targets, rolls) && MonsterRolls(group, rolls)
      modifies this`heroes
      ensures Valid()
      ensures heroes == Blows(old(heroes), group, 0, targets, rolls)
      ensures forall t :: 0 <= t < |heroes| ==>
        heroes[t] == old(heroes)[t].(health := heroes[t].health) && heroes[t].health <= old(heroes)[t].health &&
        (heroes[t].health == old(heroes)[t].health || heroes[t].health >= 0)
    {
      MonsterBlows(targets, rolls);
      BlowsHurtOnly(old(heroes), group, targets, rolls);
    }

    /** monster_death_check: the fallen monsters are filtered out; when
        none is left the selected character gains 10 + 2 * floor xp. */
    method MonsterDeathCheck() returns (cleared: bool)
      requires Valid() && heroes[current].xpToNext >= 1
      modifies this`group, this`heroes
      ensures Valid()
      ensures group == Survivors(old(group))
      ensures cleared <==> forall k :: 0 <= k < |old(group)| ==> old(group)[k].health <= 0
      ensures cleared ==> heroes == old(heroes)[current := HeroSettle(
        old(heroes)[current].(xp := old(heroes)[current].xp + 10 + floor * 2), Max(1, floor))]
      ensures !cleared ==> heroes == old(heroes)
    {
      SurvivorsEmpty(group);
      group := Survivors(group);
      if |group| == 0 {
        GainXp(10 + floor * 2);
        return true;
      }
      return false;
    }

    /** character_death_check: the game is over when every character is at
        0 health or below. */
    method CharacterDeathCheck() returns (over: bool)
      modifies this`fallen
      ensures over <==> AllDown(heroes)
      ensures fallen == (old(fallen) || over)
    {
      over := AllDown(heroes);
      if over {
        fallen := true;
      }
    }
  }
}
