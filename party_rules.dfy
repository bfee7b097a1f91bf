/** The newest engine's rules as values: a character's entries of the
    parallel player arrays, level-ups with floor-scaled skill points, item
    prices, stat bonuses by key, equipment slots, the one-more-die skill
    upgrade, and the clamped hits and heals of a combat turn. */
module PartyRules {
  import opened Basics
  import opened Dice
  import opened Encounter
  import opened Progression

  /** Character i's entries of the parallel arrays of player_data. */
  datatype Hero = Hero(level: int, maxHealth: int, health: int, maxMana: int, mana: int, damage: int,
                       xp: int, xpToNext: int, skillPoints: int,
                       idleAttacks: int, idleDamage: string, idleHealing: string)

  /** The starting party: Lucian, Ilana and George. */
  const StartingNames: seq<string> := ["Lucian", "Ilana", "George"]

  const StartingHeroes: seq<Hero> := [
    Hero(1, 20, 20, 10, 10, 1, 0, 10, 0, 3, "1d4", "None"),
    Hero(1, 15, 15, 10, 10, 1, 0, 10, 0, 0, "None", "1d8"),
    Hero(1, 25, 25, 5, 5, 2, 0, 10, 0, 1, "1d8", "None")]

  // ---------------------------------------------------------------------
  // gain_xp

  /** One pass of the level-up loop; earned is max(1, floor). */
  function HeroLevelUp(h: Hero, earned: int): Hero
    requires h.xp >= h.xpToNext
  {
    var maxMana := ScaleMana(h.maxMana);
    var maxHealth := ScaleHealth(h.maxHealth);
    h.(xp := h.xp - h.xpToNext, level := h.level + 1, skillPoints := h.skillPoints + earned,
       xpToNext := ScaleThreshold(h.xpToNext), maxMana := maxMana, mana := maxMana,
       maxHealth := maxHealth, health := maxHealth)
  }

  /** The entries the level-up loop stops with. */
  function HeroSettle(h: Hero, earned: int): (g: Hero)
    requires h.xpToNext >= 1
    decreases h.xp
    ensures g.xpToNext >= h.xpToNext
  {
    if h.xp < h.xpToNext then h else HeroSettle(HeroLevelUp(h, earned), earned)
  }

  /** The loop leaves xp below the threshold, gives one level and `earned`
      skill points per pass, changes nothing when no level is due, restores
      health and mana to their new maxima after a level-up, never lowers a
      maximum, and leaves damage and the idle entries alone. */
  lemma {:induction false} HeroSettleFacts(h: Hero, earned: int)
    requires h.xpToNext >= 1
    decreases h.xp
    ensures var g := HeroSettle(h, earned);
      g.xp < g.xpToNext &&
      g.level >= h.level && g.skillPoints - h.skillPoints == (g.level - h.level) * earned &&
      (h.xp < h.xpToNext <==> g == h) &&
      (h.xp >= h.xpToNext ==> g.mana == g.maxMana && g.health == g.maxHealth && 0 <= g.xp) &&
      (h.maxMana >= 0 ==> g.maxMana >= h.maxMana) &&
      (h.maxHealth >= 0 ==> g.maxHealth >= h.maxHealth) &&
      g.damage == h.damage && g.idleAttacks == h.idleAttacks &&
      g.idleDamage == h.idleDamage && g.idleHealing == h.idleHealing
  {
    if h.xp >= h.xpToNext {
      var u := HeroLevelUp(h, earned);
      HeroSettleFacts(u, earned);
      var g := HeroSettle(u, earned);
      assert g.skillPoints - h.skillPoints == (g.level - u.level) * earned + earned;
      assert (g.level - u.level) * earned + earned == (g.level - h.level) * earned;
    }
  }

  /** Lucian with 25 xp at threshold 10 on floor 3 ends at level 3 with 0
      xp, threshold 22, six skill points, and health and mana refilled to
      the twice-scaled maxima 24 and 14. */
  lemma HeroSettleExample()
    ensures HeroSettle(Hero(1, 20, 20, 10, 10, 1, 25, 10, 0, 3, "1d4", "None"), Max(1, 3))
         == Hero(3, 24, 24, 14, 14, 1, 0, 22, 6, 3, "1d4", "None")
  {
    var h := Hero(1, 20, 20, 10, 10, 1, 25, 10, 0, 3, "1d4", "None");
    assert HeroLevelUp(h, 3) == Hero(2, 22, 22, 12, 12, 1, 15, 15, 3, 3, "1d4", "None");
    assert HeroLevelUp(HeroLevelUp(h, 3), 3) == Hero(3, 24, 24, 14, 14, 1, 0, 22, 6, 3, "1d4", "None");
  }

  // ---------------------------------------------------------------------
  // Items and their prices

  /** One key and value of an item's bonus dict, in the dict's order. */
  datatype Entry = Entry(key: string, val: int)

  /** A drop-table item: its type, its bonus dict, the restore_full flag
      and, while it is equipped, the name of its owner. */
  datatype Item = Item(name: string, kind: string, bonus: seq<Entry>, restoreFull: bool, owner: Option<string>)

  /** bonus[key] when the dict has the key. */
  function Lookup(bonus: seq<Entry>, key: string): (r: Option<int>)
    ensures r.Some? ==> Entry(key, r.value) in bonus
    ensures r.None? ==> forall e :: e in bonus ==> e.key != key
  {
    if bonus == [] then None
    else if bonus[0].key == key then Some(bonus[0].val)
    else Lookup(bonus[1..], key)
  }

  /** What one key adds to the price formula: its value, or nothing. */
  function BonusOf(bonus: seq<Entry>, key: string): int {
    match Lookup(bonus, key)
    case Some(v) => v
    case None => 0
  }

  /** get_item_value(item, floor). */
  function ItemValue(item: Item, floor: int): (v: int)
    ensures v >= 5
  {
    var value := 10 * floor + BonusOf(item.bonus, "damage") * 5 * floor
      + BonusOf(item.bonus, "max_health") * 2 + BonusOf(item.bonus, "max_mana") * 3
      + (if item.restoreFull then 25 * floor else 0);
    Max(value, 5)
  }

  /** An item without bonuses or restore_full costs ten coins per floor,
      and never less than five. */
  lemma ItemValuePlain(item: Item, floor: int)
    requires item.bonus == [] && !item.restoreFull
    ensures ItemValue(item, floor) == Max(10 * floor, 5)
  {
  }

  /** With non-negative bonuses an item costs at least ten coins per floor,
      and 25 more per floor when it restores fully; a deeper floor never
      makes it cheaper. */
  lemma ItemValueGrows(item: Item, f1: int, f2: int)
    requires 1 <= f1 <= f2
    requires BonusOf(item.bonus, "damage") >= 0 && BonusOf(item.bonus, "max_health") >= 0
    requires BonusOf(item.bonus, "max_mana") >= 0
    ensures ItemValue(item, f1) >= 10 * f1
    ensures item.restoreFull ==> ItemValue(item, f1) >= 35 * f1
    ensures ItemValue(item, f1) <= ItemValue(item, f2)
  {
    var d := BonusOf(item.bonus, "damage");
    assert d * 5 * f1 >= 0;
    assert d * 5 * f2 - d * 5 * f1 == d * 5 * (f2 - f1) >= 0;
  }

  /** A shop entry: an item at its price, or a skill by name. */
  datatype Offer = ItemForSale(item: Item, price: int) | SkillForSale(skill: string, price: int)

  // ---------------------------------------------------------------------
  // apply_bonuses and remove_bonuses

  /** The integer arrays of player_data that a bonus key can name. */
  const StatKeys: seq<string> := ["level", "max_health", "health", "max_mana", "mana", "damage",
                                  "xp", "xp_to_next", "skill_points", "idle_attacks"]

  /** The position of key in StatKeys from k on, or |StatKeys| when the key
      names none of them. */
  function StatIndex(key: string, k: nat): (r: nat)
    requires k <= |StatKeys|
    decreases |StatKeys| - k
    ensures k <= r <= |StatKeys|
    ensures r < |StatKeys| ==> StatKeys[r] == key
    ensures forall j :: k <= j < r ==> StatKeys[j] != key
  {
    if k == |StatKeys| || StatKeys[k] == key then k else StatIndex(key, k + 1)
  }

  /** v for the entry at position k when stat names it, otherwise 0. */
  function BumpIf(stat: nat, k: nat, v: int): int {
    if stat == k then v else 0
  }

  /** player_data[key][index] += v for the array at position stat of
      StatKeys; a position past the table changes nothing. */
  function Bump(h: Hero, stat: nat, v: int): Hero {
    h.(level := h.level + BumpIf(stat, 0, v), maxHealth := h.maxHealth + BumpIf(stat, 1, v),
       health := h.health + BumpIf(stat, 2, v), maxMana := h.maxMana + BumpIf(stat, 3, v),
       mana := h.mana + BumpIf(stat, 4, v), damage := h.damage + BumpIf(stat, 5, v),
       xp := h.xp + BumpIf(stat, 6, v), xpToNext := h.xpToNext + BumpIf(stat, 7, v),
       skillPoints := h.skillPoints + BumpIf(stat, 8, v), idleAttacks := h.idleAttacks + BumpIf(stat, 9, v))
  }

  /** The hero after the loop over a bonus dict has added sign * val to the
      entry each key names; keys naming no integer array are skipped. */
  function Boosted(h: Hero, bonus: seq<Entry>, sign: int): Hero
    decreases |bonus|
  {
    if bonus == [] then h
    else
      var e := bonus[|bonus| - 1];
      Bump(Boosted(h, bonus[..|bonus| - 1], sign), StatIndex(e.key, 0), sign * e.val)
  }

  lemma BumpCommutes(h: Hero, s1: nat, v1: int, s2: nat, v2: int)
    ensures Bump(Bump(h, s1, v1), s2, v2) == Bump(Bump(h, s2, v2), s1, v1)
  {
  }

  lemma {:induction false} BoostedCommutes(h: Hero, bonus: seq<Entry>, sign: int, stat: nat, v: int)
    decreases |bonus|
    ensures Boosted(Bump(h, stat, v), bonus, sign) == Bump(Boosted(h, bonus, sign), stat, v)
  {
    if bonus != [] {
      var p, e := bonus[..|bonus| - 1], bonus[|bonus| - 1];
      BoostedCommutes(h, p, sign, stat, v);
      BumpCommutes(Boosted(h, p, sign), stat, v, StatIndex(e.key, 0), sign * e.val);
    }
  }

  /** remove_bonuses undoes apply_bonuses with the same bonus: every entry
      of the character is restored. */
  lemma {:induction false} RemoveUndoesApply(h: Hero, bonus: seq<Entry>)
    decreases |bonus|
    ensures Boosted(Boosted(h, bonus, 1), bonus, -1) == h
  {
    if bonus != [] {
      var p, e := bonus[..|bonus| - 1], bonus[|bonus| - 1];
      var s, v := StatIndex(e.key, 0), e.val;
      var y := Boosted(h, p, 1);
      BoostedCommutes(y, p, -1, s, v);
      RemoveUndoesApply(h, p);
      assert Bump(Bump(h, s, v), s, -1 * v) == h;
    }
  }

  /** Taking off a max_health item after a full heal leaves health above
      its maximum: remove_bonuses lowers max_health but not health. */
  lemma RemoveCanOverheal()
    ensures var worn := Boosted(StartingHeroes[2], [Entry("max_health", 5)], 1);
      var off := Boosted(worn.(health := worn.maxHealth), [Entry("max_health", 5)], -1);
      off.health == 30 && off.maxHealth == 25
  {
    assert StatIndex("max_health", 0) == 1 by {
      assert StatKeys[0] != "max_health" && StatKeys[1] == "max_health";
    }
  }

  // ---------------------------------------------------------------------
  // Equipment: one item per owner and type

  predicate SameSlot(a: Item, b: Item) {
    a.owner == b.owner && a.kind == b.kind
  }

  ghost predicate OnePerSlot(items: seq<Item>) {
    forall j, k :: 0 <= j < k < |items| ==> !SameSlot(items[j], items[k])
  }

  /** The position list.remove(x) takes out: the first one equal to x. */
  function IndexOf<T(==)>(s: seq<T>, x: T): (i: nat)
    requires x in s
    ensures i < |s| && s[i] == x
    ensures forall j :: 0 <= j < i ==> s[j] != x
  {
    if s[0] == x then 0 else 1 + IndexOf(s[1..], x)
  }

  /** list.remove(x) for an x the list holds. */
  function RemoveFirst<T(==)>(s: seq<T>, x: T): (r: seq<T>)
    requires x in s
    ensures |r| == |s| - 1
    ensures multiset(r) == multiset(s) - multiset{x}
  {
    var i := IndexOf(s, x);
    assert s == s[..i] + [x] + s[i + 1..];
    s[..i] + s[i + 1..]
  }

  /** The position of the first equipped item the character owns with the
      given type, if any. */
  function SlotOf(equipped: seq<Item>, name: string, kind: string): (r: Option<nat>)
    ensures r.Some? ==> r.value < |equipped| && equipped[r.value].owner == Some(name) && equipped[r.value].kind == kind
    ensures r.None? ==> forall j :: 0 <= j < |equipped| ==> !(equipped[j].owner == Some(name) && equipped[j].kind == kind)
  {
    if equipped == [] then None
    else if equipped[0].owner == Some(name) && equipped[0].kind == kind then Some(0)
    else match SlotOf(equipped[1..], name, kind)
      case Some(j) => Some(j + 1)
      case None => None
  }

  /** The position the for-loop of equip_item stops at is the one SlotOf
      names. */
  lemma {:induction false} SlotOfFirst(equipped: seq<Item>, name: string, kind: string, k: nat)
    requires k < |equipped| && equipped[k].owner == Some(name) && equipped[k].kind == kind
    requires forall j :: 0 <= j < k ==> !(equipped[j].owner == Some(name) && equipped[j].kind == kind)
    ensures SlotOf(equipped, name, kind) == Some(k)
  {
    if k > 0 {
      assert !(equipped[0].owner == Some(name) && equipped[0].kind == kind);
      SlotOfFirst(equipped[1..], name, kind, k - 1);
    }
  }

  /** The equipped list after equip_item: the item already in the slot (if
      any) taken out, the new one appended with its owner set. */
  function EquippedAfter(equipped: seq<Item>, item: Item, name: string): seq<Item> {
    match SlotOf(equipped, name, item.kind)
    case Some(w) => RemoveFirst(equipped, equipped[w]) + [item.(owner := Some(name))]
    case None => equipped + [item.(owner := Some(name))]
  }

  /** In a list with one item per slot, list.remove of the item at w takes
      out exactly that position. */
  lemma RemoveInSlots(equipped: seq<Item>, w: nat)
    requires OnePerSlot(equipped) && w < |equipped|
    ensures RemoveFirst(equipped, equipped[w]) == equipped[..w] + equipped[w + 1..]
  {
    var i := IndexOf(equipped, equipped[w]);
    if i < w { assert SameSlot(equipped[i], equipped[w]); }
  }

  /** Without position w the list still has one item per slot, and none in
      the slot of the item that stood at w. */
  lemma {:induction false} DropSlot(equipped: seq<Item>, w: nat)
    requires OnePerSlot(equipped) && w < |equipped|
    ensures var rest := equipped[..w] + equipped[w + 1..];
      OnePerSlot(rest) && forall j :: 0 <= j < |rest| ==> !SameSlot(rest[j], equipped[w])
  {
    var rest := equipped[..w] + equipped[w + 1..];
    assert forall j :: 0 <= j < |rest| ==> rest[j] == equipped[if j < w then j else j + 1];
  }

  /** Appending an item whose slot is free keeps one item per slot. */
  lemma AppendFreeSlot(rest: seq<Item>, x: Item)
    requires OnePerSlot(rest) && forall j :: 0 <= j < |rest| ==> !SameSlot(rest[j], x)
    ensures OnePerSlot(rest + [x])
    ensures forall y :: y in rest + [x] && SameSlot(y, x) ==> y == x
  {
  }

  /** Equipping keeps at most one item per owner and type, and afterwards
      the one the character wears in that slot is the new item. */
  lemma EquipKeepsOnePerSlot(equipped: seq<Item>, item: Item, name: string)
    requires OnePerSlot(equipped)
    ensures var after := EquippedAfter(equipped, item, name);
      OnePerSlot(after) &&
      forall x :: x in after && x.owner == Some(name) && x.kind == item.kind ==> x == item.(owner := Some(name))
  {
    var worn := item.(owner := Some(name));
    match SlotOf(equipped, name, item.kind)
    case Some(w) =>
      RemoveInSlots(equipped, w);
      DropSlot(equipped, w);
      AppendFreeSlot(equipped[..w] + equipped[w + 1..], worn);
    case None =>
      AppendFreeSlot(equipped, worn);
  }

  /** The inventory after equip_item: the displaced item comes back without
      an owner, then the new item is taken out. */
  function InventoryAfter(inventory: seq<Item>, equipped: seq<Item>, item: Item, name: string): (r: seq<Item>)
    requires item in inventory
    ensures multiset(r) == multiset(inventory) - multiset{item} +
      (match SlotOf(equipped, name, item.kind)
       case Some(w) => multiset{equipped[w].(owner := None)}
       case None => multiset{})
  {
    match SlotOf(equipped, name, item.kind)
    case Some(w) => RemoveFirst(inventory + [equipped[w].(owner := None)], item)
    case None => RemoveFirst(inventory, item)
  }

  // ---------------------------------------------------------------------
  // Skills

  /** One character's entry of character_skills. */
  datatype SkillBook = SkillBook(skills: seq<string>, damage: seq<string>, attacks: seq<int>,
                                 healing: seq<string>, manaCosts: seq<int>, level: seq<int>, maxLevel: seq<int>)

  const StartingBooks: seq<SkillBook> := [
    SkillBook(["Fireblast", "Firebolt"], ["1d2", "2d8"], [2, 1], ["None", "None"], [4, 8], [1, 1], [10, 10]),
    SkillBook(["Necro Blast", "Life Drain"], ["1d4", "1d4"], [1, 2], ["1d4", "1d4"], [2, 4], [1, 1], [10, 10]),
    SkillBook(["Sword Slash", "Sword Burst"], ["1d6", "1d4"], [2, 4], ["None", "None"], [3, 8], [1, 1], [10, 10])]

  /** The arrays a purchase appends to run in parallel; max_level may be
      shorter. */
  predicate BookShaped(b: SkillBook) {
    |b.damage| == |b.skills| && |b.attacks| == |b.skills| && |b.healing| == |b.skills| &&
    |b.manaCosts| == |b.skills| && |b.level| == |b.skills| && |b.maxLevel| <= |b.skills|
  }

  predicate Aligned(b: SkillBook) {
    BookShaped(b) && |b.maxLevel| == |b.skills|
  }

  /** A bought skill: appended with cost 6, damage "1d4", one attack, no
      healing and level 1 to every array but max_level. */
  function Learn(b: SkillBook, skill: string): SkillBook {
    b.(skills := b.skills + [skill], manaCosts := b.manaCosts + [6], damage := b.damage + ["1d4"],
       attacks := b.attacks + [1], healing := b.healing + ["None"], level := b.level + [1])
  }

  /** Buying a skill keeps the book's shape but leaves the new skill without
      a max_level entry, so the arrays are no longer aligned. */
  lemma LearnMisaligns(b: SkillBook, skill: string)
    requires Aligned(b)
    ensures BookShaped(Learn(b, skill)) && !Aligned(Learn(b, skill))
    ensures |Learn(b, skill).maxLevel| == |Learn(b, skill).skills| - 1
  {
  }

  /** How one choice in upgrade_skill ends: a max_level list shorter than
      the skill list (IndexError while the skills are listed, before any
      input is read), an index outside the list, a skill at its max level,
      a damage or healing entry int() cannot read (ValueError), or an
      upgrade. */
  datatype SkillStep = NoSuchSkill | AtMaxLevel | NoMaxLevel | BadDice | Upgraded

  function StepOf(b: SkillBook, idx: int): SkillStep
    requires BookShaped(b)
  {
    if |b.maxLevel| < |b.skills| then NoMaxLevel
    else if !(0 <= idx < |b.skills|) then NoSuchSkill
    else if b.level[idx] >= b.maxLevel[idx] then AtMaxLevel
    else if OneMoreDie(b.damage[idx]).None? || OneMoreDie(b.healing[idx]).None? then BadDice
    else Upgraded
  }

  /** The book upgrade_skill leaves behind when a dice entry fails to
      parse and ValueError ends it: the level and attack changes already
      made stay, and so does the new damage entry when it is the healing
      entry that fails. */
  function PartialRaise(b: SkillBook, idx: int): (c: SkillBook)
    requires BookShaped(b) && StepOf(b, idx) == BadDice
    ensures BookShaped(c) && c.skills == b.skills && c.manaCosts == b.manaCosts && c.maxLevel == b.maxLevel
    ensures c.level == b.level[idx := b.level[idx] + 1] && c.healing == b.healing
    ensures OneMoreDie(b.damage[idx]).None? ==> c.damage == b.damage
  {
    var attacks := if b.attacks[idx] > 1 then b.attacks[idx := b.attacks[idx] + 1] else b.attacks;
    var raised := b.(level := b.level[idx := b.level[idx] + 1], attacks := attacks);
    match OneMoreDie(b.damage[idx])
    case None => raised
    case Some(d) => raised.(damage := b.damage[idx := d])
  }

  /** The book after an upgrade that goes through: one more level, one
      more attack for a skill with more than one, and one more die in each
      damage and healing entry that is not "none". */
  function UpgradedBook(b: SkillBook, idx: nat): (c: SkillBook)
    requires BookShaped(b) && StepOf(b, idx) == Upgraded
    ensures BookShaped(c) && c.skills == b.skills && c.manaCosts == b.manaCosts && c.maxLevel == b.maxLevel
    ensures c.level == b.level[idx := b.level[idx] + 1]
    ensures c.attacks[idx] == (if b.attacks[idx] > 1 then b.attacks[idx] + 1 else b.attacks[idx])
    ensures forall k :: 0 <= k < |b.skills| && k != idx ==>
      c.attacks[k] == b.attacks[k] && c.damage[k] == b.damage[k] && c.healing[k] == b.healing[k]
  {
    var attacks := if b.attacks[idx] > 1 then b.attacks[idx := b.attacks[idx] + 1] else b.attacks;
    b.(level := b.level[idx := b.level[idx] + 1], attacks := attacks,
       damage := b.damage[idx := OneMoreDie(b.damage[idx]).value],
       healing := b.healing[idx := OneMoreDie(b.healing[idx]).value])
  }

  /** A bought skill has no max_level entry, so once a character has
      bought one, upgrade_skill raises IndexError while listing the skills,
      whatever is chosen: no skill of that character can be upgraded. */
  lemma BoughtSkillCannotUpgrade(b: SkillBook, skill: string)
    requires BookShaped(b)
    ensures forall idx :: StepOf(Learn(b, skill), idx) == NoMaxLevel
  {
  }

  /** f"{num + 1}d{die}" for a dice entry, the entry itself for "none" in
      any case, and None when int() or the two-way unpacking fails. */
  function OneMoreDie(s: string): (r: Option<string>)
    ensures Lower(s) == "none" ==> r == Some(s)
    ensures Lower(s) != "none" ==> (r.Some? <==> ParseDice(s).Some?)
  {
    if Lower(s) == "none" then Some(s)
    else match ParseDice(s)
      case Some(d) => Some(FormatDice(d.count + 1, d.sides))
      case None => None
  }

  /** An upgraded entry can be upgraded again: "NdM" becomes "(N+1)dM". */
  lemma OneMoreDieAgain(n: int, m: int)
    ensures OneMoreDie(FormatDice(n, m)) == Some(FormatDice(n + 1, m))
  {
    ParseFormatDice(n, m);
  }

  // ---------------------------------------------------------------------
  // Hits on the group, heals on the party

  /** One hit on a standing monster, the pick-th of the standing ones
      counting round; its health does not drop below 0. */
  function Strike(g: seq<Monster>, pick: nat, roll: int): (h: seq<Monster>)
    requires |Living(g)| > 0
    ensures |h| == |g|
  {
    var living := Living(g);
    var t := living[pick % |living|];
    g[t := g[t].(health := Max(0, g[t].health - roll))]
  }

  /** for _ in range(n) from pass a on: a hit on a standing monster; the
      flag says that a pass found none standing and left the loop early. */
  function Strikes(g: seq<Monster>, n: int, picks: seq<nat>, rolls: seq<int>, a: nat): (res: (seq<Monster>, bool))
    requires |picks| == |rolls| && n <= |rolls|
    decreases n - a
    ensures |res.0| == |g|
  {
    if a >= n then (g, false)
    else if |Living(g)| == 0 then (g, true)
    else Strikes(Strike(g, picks[a], rolls[a]), n, picks, rolls, a + 1)
  }

  /** Only health changes, a monster already down is never touched, health
      is either untouched or at least 0, non-negative rolls never heal, and
      the loop is left early only once no monster stands. */
  lemma {:induction false} StrikesFacts(g: seq<Monster>, n: int, picks: seq<nat>, rolls: seq<int>, a: nat, i: nat)
    requires |picks| == |rolls| && n <= |rolls| && i < |g|
    decreases n - a
    ensures var r := Strikes(g, n, picks, rolls, a).0;
      r[i] == g[i].(health := r[i].health) &&
      (g[i].health <= 0 ==> r[i] == g[i]) &&
      (r[i].health == g[i].health || r[i].health >= 0) &&
      ((forall k :: 0 <= k < |rolls| ==> rolls[k] >= 0) ==> r[i].health <= g[i].health)
    ensures Strikes(g, n, picks, rolls, a).1 ==> |Living(Strikes(g, n, picks, rolls, a).0)| == 0
  {
    if a < n && |Living(g)| > 0 {
      StrikesFacts(Strike(g, picks[a], rolls[a]), n, picks, rolls, a + 1, i);
    }
  }

  /** The indices of the characters below their maximum health, dead ones
      included, in order. */
  function Injured(hs: seq<Hero>): (ix: seq<nat>)
    ensures forall k :: 0 <= k < |ix| ==> ix[k] < |hs| && hs[ix[k]].health < hs[ix[k]].maxHealth
  {
    if hs == [] then []
    else Injured(hs[..|hs| - 1]) + (if hs[|hs| - 1].health < hs[|hs| - 1].maxHealth then [|hs| - 1] else [])
  }

  /** A heal on one injured character, capped at its maximum health. */
  function HealOne(hs: seq<Hero>, pick: nat, roll: int): (r: seq<Hero>)
    requires |Injured(hs)| > 0
    ensures |r| == |hs|
    ensures forall k :: 0 <= k < |hs| ==> r[k] == hs[k].(health := r[k].health)
  {
    var injured := Injured(hs);
    var t := injured[pick % |injured|];
    hs[t := hs[t].(health := Min(hs[t].health + roll, hs[t].maxHealth))]
  }

  lemma HealOneCapped(hs: seq<Hero>, pick: nat, roll: int, k: nat)
    requires |Injured(hs)| > 0 && k < |hs|
    ensures var r := HealOne(hs, pick, roll);
      (r[k].health == hs[k].health || r[k].health <= r[k].maxHealth) &&
      (roll >= 0 ==> r[k].health >= hs[k].health)
  {
  }

  // ---------------------------------------------------------------------
  // other_character_turn

  /** One ally's random values: a target pick and a roll per attack, and a
      pick and a roll for its heal. */
  datatype AllyDraws = AllyDraws(picks: seq<nat>, rolls: seq<int>, healPick: nat, heal: int)

  ghost predicate DrawsFrom(hs: seq<Hero>, draws: seq<AllyDraws>, j: nat) {
    |draws| == |hs| &&
    forall k :: j <= k < |hs| ==> |draws[k].picks| == |draws[k].rolls| && hs[k].idleAttacks <= |draws[k].rolls|
  }

  /** Ally j's idle action: its attacks, unless its damage is "none"; then
      its heal on an injured character, unless its healing is "none". The
      flag says that an attack found no monster standing, which returns from
      the whole turn. */
  function AllyAct(hs: seq<Hero>, g: seq<Monster>, j: nat, d: AllyDraws): (res: (seq<Hero>, seq<Monster>, bool))
    requires j < |hs| && |d.picks| == |d.rolls| && hs[j].idleAttacks <= |d.rolls|
    ensures |res.0| == |hs| && |res.1| == |g|
    ensures forall k :: 0 <= k < |hs| ==> res.0[k] == hs[k].(health := res.0[k].health)
  {
    var struck := if Lower(hs[j].idleDamage) != "none" then Strikes(g, hs[j].idleAttacks, d.picks, d.rolls, 0) else (g, false);
    if struck.1 then (hs, struck.0, true)
    else if Lower(hs[j].idleHealing) != "none" && |Injured(hs)| > 0 then (HealOne(hs, d.healPick, d.heal), struck.0, false)
    else (hs, struck.0, false)
  }

  /** The allies from j on take their idle actions in order, skipping the
      selected character and anyone at 0 health or below. */
  function IdleTurn(hs: seq<Hero>, g: seq<Monster>, current: nat, j: nat, draws: seq<AllyDraws>): (res: (seq<Hero>, seq<Monster>))
    requires j <= |hs| && DrawsFrom(hs, draws, j)
    decreases |hs| - j
    ensures |res.0| == |hs| && |res.1| == |g|
  {
    if j == |hs| then (hs, g)
    else if j == current || hs[j].health <= 0 then IdleTurn(hs, g, current, j + 1, draws)
    else
      var acted := AllyAct(hs, g, j, draws[j]);
      if acted.2 then (acted.0, acted.1) else IdleTurn(acted.0, acted.1, current, j + 1, draws)
  }

  /** One ally's action changes only health; a character's health is
      untouched or at most its maximum, and a monster's is untouched or at
      least 0. */
  lemma AllyActBounds(hs: seq<Hero>, g: seq<Monster>, j: nat, d: AllyDraws, k: nat, i: nat)
    requires j < |hs| && |d.picks| == |d.rolls| && hs[j].idleAttacks <= |d.rolls| && k < |hs| && i < |g|
    ensures var res := AllyAct(hs, g, j, d);
      res.0[k] == hs[k].(health := res.0[k].health) &&
      (res.0[k].health == hs[k].health || res.0[k].health <= res.0[k].maxHealth) &&
      res.1[i] == g[i].(health := res.1[i].health) &&
      (res.1[i].health == g[i].health || res.1[i].health >= 0)
  {
    if Lower(hs[j].idleDamage) != "none" {
      StrikesFacts(g, hs[j].idleAttacks, d.picks, d.rolls, 0, i);
    }
    if Lower(hs[j].idleHealing) != "none" && |Injured(hs)| > 0 {
      HealOneCapped(hs, d.healPick, d.heal, k);
    }
  }

  /** The idle turn changes only health; a character's health is untouched
      or at most its maximum, and a monster's is untouched or at least 0. */
  lemma {:induction false} IdleTurnBounds(hs: seq<Hero>, g: seq<Monster>, current: nat, j: nat,
                                          draws: seq<AllyDraws>, k: nat, i: nat)
    requires j <= |hs| && DrawsFrom(hs, draws, j) && k < |hs| && i < |g|
    decreases |hs| - j
    ensures var res := IdleTurn(hs, g, current, j, draws);
      res.0[k] == hs[k].(health := res.0[k].health) &&
      (res.0[k].health == hs[k].health || res.0[k].health <= res.0[k].maxHealth) &&
      res.1[i] == g[i].(health := res.1[i].health) &&
      (res.1[i].health == g[i].health || res.1[i].health >= 0)
  {
    if j < |hs| && j != current && hs[j].health > 0 {
      var acted := AllyAct(hs, g, j, draws[j]);
      AllyActBounds(hs, g, j, draws[j], k, i);
      if !acted.2 {
        assert DrawsFrom(acted.0, draws, j + 1);
        IdleTurnBounds(acted.0, acted.1, current, j + 1, draws, k, i);
      }
    } else if j < |hs| {
      IdleTurnBounds(hs, g, current, j + 1, draws, k, i);
    }
  }

  /** The early return ends the turn for every remaining ally: with George
      selected and one monster left on 1 health, Lucian's first attack
      fells it, his second finds no target, and Ilana never heals the
      wounded George. */
  lemma IdleTurnReturnSkipsHealer()
    ensures var hs := StartingHeroes[2 := StartingHeroes[2].(health := 5)];
      var g := [Monster("Slime", 1, 6, 2)];
      var d := AllyDraws([0, 0, 0], [3, 3, 3], 0, 8);
      IdleTurn(hs, g, 2, 0, [d, d, d]) == (hs, [Monster("Slime", 0, 6, 2)])
  {
    var hs := StartingHeroes[2 := StartingHeroes[2].(health := 5)];
    var g := [Monster("Slime", 1, 6, 2)];
    var d := AllyDraws([0, 0, 0], [3, 3, 3], 0, 8);
    assert Lower("1d4") != "none";
    assert Living(g) == [0];
    var g1 := [Monster("Slime", 0, 6, 2)];
    assert Strike(g, 0, 3) == g1;
    assert Living(g1) == [];
    assert Strikes(g1, 3, [0, 0, 0], [3, 3, 3], 1) == (g1, true);
    assert AllyAct(hs, g, 0, d) == (hs, g1, true);
  }

  // ---------------------------------------------------------------------
  // monster_attack

  /** One monster's strike: a standing monster hits a living target, whose
      health does not drop below 0. */
  function Blow(hs: seq<Hero>, m: Monster, target: nat, roll: int): (r: seq<Hero>)
    requires target < |hs|
    ensures |r| == |hs|
  {
    if m.health <= 0 || hs[target].health <= 0 then hs
    else hs[target := hs[target].(health := Max(0, hs[target].health - roll))]
  }

  ghost predicate TargetsFit(hs: seq<Hero>, g: seq<Monster>, targets: seq<nat>, rolls: seq<int>) {
    |targets| == |g| && |rolls| == |g| && forall k :: 0 <= k < |g| ==> targets[k] < |hs|
  }

  /** The strikes of the monsters from k on, in group order. */
  function Blows(hs: seq<Hero>, g: seq<Monster>, k: nat, targets: seq<nat>, rolls: seq<int>): (r: seq<Hero>)
    requires k <= |g| && TargetsFit(hs, g, targets, rolls)
    decreases |g| - k
    ensures |r| == |hs|
  {
    if k == |g| then hs else Blows(Blow(hs, g[k], targets[k], rolls[k]), g, k + 1, targets, rolls)
  }

  /** Each roll is what roll_dice gives for the monster's damage read as
      "{damage}d2". */
  ghost predicate MonsterRolls(g: seq<Monster>, rolls: seq<int>) {
    |rolls| == |g| && forall k :: 0 <= k < |g| ==> IsOutcome(FormatDice(g[k].damage, 2), rolls[k])
  }

  /** Such a roll is never negative: 0 for a damage of 0 or less, otherwise
      between the damage and twice the damage. */
  lemma MonsterRollsBounds(g: seq<Monster>, rolls: seq<int>)
    requires MonsterRolls(g, rolls)
    ensures forall k :: 0 <= k < |g| ==> rolls[k] >= 0
    ensures forall k :: 0 <= k < |g| && g[k].damage >= 1 ==> g[k].damage <= rolls[k] <= 2 * g[k].damage
  {
    forall k | 0 <= k < |g|
      ensures rolls[k] >= 0 && (g[k].damage >= 1 ==> g[k].damage <= rolls[k] <= 2 * g[k].damage)
    {
      FormattedOutcome(g[k].damage, 2, rolls[k]);
    }
  }

  /** The monsters' strikes change only health, never push it below 0 and,
      with non-negative rolls, never raise it; a character already down is
      not hit. */
  lemma {:induction false} BlowsBounds(hs: seq<Hero>, g: seq<Monster>, k: nat, targets: seq<nat>, rolls: seq<int>, t: nat)
    requires k <= |g| && TargetsFit(hs, g, targets, rolls) && t < |hs|
    decreases |g| - k
    ensures var r := Blows(hs, g, k, targets, rolls);
      r[t] == hs[t].(health := r[t].health) &&
      (r[t].health == hs[t].health || r[t].health >= 0) &&
      (hs[t].health <= 0 ==> r[t] == hs[t]) &&
      ((forall j :: 0 <= j < |rolls| ==> rolls[j] >= 0) ==> r[t].health <= hs[t].health)
  {
    if k < |g| {
      BlowsBounds(Blow(hs, g[k], targets[k], rolls[k]), g, k + 1, targets, rolls, t);
    }
  }

  /** After the monsters' turn every character differs only in health,
      which has not risen and has not dropped below 0 unless untouched. */
  lemma BlowsHurtOnly(hs: seq<Hero>, g: seq<Monster>, targets: seq<nat>, rolls: seq<int>)
    requires TargetsFit(hs, g, targets, rolls) && MonsterRolls(g, rolls)
    ensures var r := Blows(hs, g, 0, targets, rolls);
      forall t :: 0 <= t < |hs| ==>
        r[t] == hs[t].(health := r[t].health) && r[t].health <= hs[t].health &&
        (r[t].health == hs[t].health || r[t].health >= 0)
  {
    MonsterRollsBounds(g, rolls);
    forall t | 0 <= t < |hs|
      ensures var r := Blows(hs, g, 0, targets, rolls);
        r[t] == hs[t].(health := r[t].health) && r[t].health <= hs[t].health &&
        (r[t].health == hs[t].health || r[t].health >= 0)
    {
      BlowsBounds(hs, g, 0, targets, rolls, t);
    }
  }

  // ---------------------------------------------------------------------
  // monster_death_check and character_death_check

  /** The group with the fallen monsters filtered out. */
  function Survivors(g: seq<Monster>): (s: seq<Monster>)
    ensures |s| == |Living(g)|
    ensures forall k :: 0 <= k < |s| ==> s[k] == g[Living(g)[k]]
  {
    if g == [] then []
    else Survivors(g[..|g| - 1]) + (if g[|g| - 1].health > 0 then [g[|g| - 1]] else [])
  }

  /** The filter keeps every standing monster and only those, so it comes
      out empty exactly when no monster stands. */
  lemma SurvivorsEmpty(g: seq<Monster>)
    ensures |Survivors(g)| == 0 <==> forall k :: 0 <= k < |g| ==> g[k].health <= 0
    ensures forall k :: 0 <= k < |Survivors(g)| ==> Survivors(g)[k].health > 0
  {
    LivingComplete(g);
  }

  predicate AllDown(hs: seq<Hero>) {
    forall k :: 0 <= k < |hs| ==> hs[k].health <= 0
  }
}
