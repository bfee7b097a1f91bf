/** Value-level rules of the middle engine (one hero against groups of
    monsters, with equipment and a shop): equipment bonuses by keyword, the
    inventory numbering and the equip step, shop prices, the living targets
    of a group, a multi-hit volley, the monsters' combined reply and the
    rewards of a won fight. */
module SoloRules {
  import opened Basics
  import opened Dice
  import opened Encounter

  // ---------------------------------------------------------------------
  // Equipment

  /** An item of the drop table: name, type, effect text, price and the
      weight the shop draws it by. */
  datatype Gear = Gear(name: string, kind: string, effect: string, value: int, weight: int)

  /** `sub in s` on strings. */
  predicate Contains(s: string, sub: string) {
    if |sub| > |s| then false
    else s[..|sub|] == sub || (|s| > 0 && Contains(s[1..], sub))
  }

  /** Increments to damage, defense, maximum health and maximum mana. */
  datatype Bonus = Bonus(damage: int, defense: int, maxHealth: int, maxMana: int)

  const NoBonus := Bonus(0, 0, 0, 0)

  function AddBonus(a: Bonus, b: Bonus): Bonus {
    Bonus(a.damage + b.damage, a.defense + b.defense, a.maxHealth + b.maxHealth, a.maxMana + b.maxMana)
  }

  /** The effect keywords apply_equipment_bonuses looks for, in the order
      it tries them, and what each adds: "restore" marks a potion and
      "+2 dodge" is not implemented, so both add nothing. */
  const Keywords: seq<string> := ["+1 damage", "+3 damage", "+1 defense", "+2 mana", "restore", "+2 dodge", "+5 all stats"]
  const KeywordBonuses: seq<Bonus> :=
    [Bonus(1, 0, 0, 0), Bonus(3, 0, 0, 0), Bonus(0, 1, 0, 0), Bonus(0, 0, 0, 2), NoBonus, NoBonus, Bonus(5, 5, 5, 5)]

  /** The position of the first keyword, from position k on, that occurs in
      e; |Keywords| when none does. */
  function FirstKeyword(e: string, k: nat): (r: nat)
    requires k <= |Keywords|
    decreases |Keywords| - k
    ensures k <= r <= |Keywords|
    ensures r < |Keywords| ==> Contains(e, Keywords[r])
    ensures forall j :: k <= j < r ==> !Contains(e, Keywords[j])
  {
    if k == |Keywords| then k else if Contains(e, Keywords[k]) then k else FirstKeyword(e, k + 1)
  }

  /** The bonus of one effect text: only the first keyword that occurs in
      the lower-cased text counts. */
  function EffectBonus(effect: string): Bonus {
    var r := FirstKeyword(Lower(effect), 0);
    if r < |KeywordBonuses| then KeywordBonuses[r] else NoBonus
  }

  /** Every effect text gives one of six bonuses; "+1 damage" wins over
      every other keyword, and "+5 all stats" counts only when no earlier
      keyword occurs. */
  lemma EffectBonusCases(effect: string)
    ensures var b := EffectBonus(effect);
      b == NoBonus || b == Bonus(1, 0, 0, 0) || b == Bonus(3, 0, 0, 0) || b == Bonus(0, 1, 0, 0)
      || b == Bonus(0, 0, 0, 2) || b == Bonus(5, 5, 5, 5)
    ensures Contains(Lower(effect), "+1 damage") ==> EffectBonus(effect) == Bonus(1, 0, 0, 0)
    ensures EffectBonus(effect) == Bonus(5, 5, 5, 5) <==> (Contains(Lower(effect), "+5 all stats") &&
      !Contains(Lower(effect), "+1 damage") && !Contains(Lower(effect), "+3 damage") &&
      !Contains(Lower(effect), "+1 defense") && !Contains(Lower(effect), "+2 mana") &&
      !Contains(Lower(effect), "restore") && !Contains(Lower(effect), "+2 dodge"))
  {
    var e := Lower(effect);
    var r := FirstKeyword(e, 0);
    assert Keywords[0] == "+1 damage" && Keywords[6] == "+5 all stats";
    if r == 7 {
      assert !Contains(e, Keywords[6]);
    }
  }

  /** The bonuses of all equipped items added up. */
  function Totals(items: seq<Gear>): Bonus {
    if items == [] then NoBonus
    else AddBonus(Totals(items[..|items| - 1]), EffectBonus(items[|items| - 1].effect))
  }

  /** Equipment never lowers a stat, and each item adds at most 5 to the
      health maximum and to defense. */
  lemma {:induction false} TotalsBounds(items: seq<Gear>)
    ensures var t := Totals(items);
      t.damage >= 0 && t.defense >= 0 && t.maxHealth >= 0 && t.maxMana >= 0 &&
      t.maxHealth <= 5 * |items| && t.defense <= 5 * |items|
  {
    if items != [] {
      TotalsBounds(items[..|items| - 1]);
      EffectBonusCases(items[|items| - 1].effect);
    }
  }

  /** Items of one type, in inventory order. */
  function OfKind(items: seq<Gear>, kind: string): seq<Gear> {
    if items == [] then []
    else OfKind(items[..|items| - 1], kind) + (if items[|items| - 1].kind == kind then [items[|items| - 1]] else [])
  }

  /** Items of every other type, in order. */
  function WithoutKind(items: seq<Gear>, kind: string): seq<Gear> {
    if items == [] then []
    else WithoutKind(items[..|items| - 1], kind) + (if items[|items| - 1].kind != kind then [items[|items| - 1]] else [])
  }

  /** The two filters split the items by type: OfKind keeps exactly the
      items of the type, WithoutKind exactly the others. */
  lemma {:induction false} KindFilters(items: seq<Gear>, kind: string)
    ensures forall x :: x in OfKind(items, kind) <==> x in items && x.kind == kind
    ensures forall x :: x in WithoutKind(items, kind) <==> x in items && x.kind != kind
    ensures |OfKind(items, kind)| <= |items|
  {
    if items != [] {
      KindFilters(items[..|items| - 1], kind);
      assert items == items[..|items| - 1] + [items[|items| - 1]];
    }
  }

  function CountKind(items: seq<Gear>, kind: string): nat {
    if items == [] then 0
    else CountKind(items[..|items| - 1], kind) + (if items[|items| - 1].kind == kind then 1 else 0)
  }

  /** The inventory as the menu numbers it: weapons, then armor, magic,
      relics and potions; items of any other type get no number. */
  function Numbered(inventory: seq<Gear>): seq<Gear> {
    OfKind(inventory, "weapon") + OfKind(inventory, "armor") + OfKind(inventory, "magic")
      + OfKind(inventory, "relic") + OfKind(inventory, "potion")
  }

  /** Every numbered item is in the inventory, and every inventory item of
      the five menu types gets a number. */
  lemma NumberedCovers(inventory: seq<Gear>)
    ensures forall x :: x in Numbered(inventory) ==> x in inventory
    ensures forall x :: x in inventory && x.kind in {"weapon", "armor", "magic", "relic", "potion"} ==>
      x in Numbered(inventory)
  {
    KindFilters(inventory, "weapon");
    KindFilters(inventory, "armor");
    KindFilters(inventory, "magic");
    KindFilters(inventory, "relic");
    KindFilters(inventory, "potion");
  }

  /** The equip step: every equipped item of the new item's type is taken
      off, then the new item is put on. */
  function EquipList(equipped: seq<Gear>, item: Gear): seq<Gear> {
    WithoutKind(equipped, item.kind) + [item]
  }

  lemma {:induction false} CountWithout(items: seq<Gear>, kind: string, other: string)
    ensures CountKind(WithoutKind(items, kind), kind) == 0
    ensures other != kind ==> CountKind(WithoutKind(items, kind), other) == CountKind(items, other)
  {
    if items != [] {
      var init, last := items[..|items| - 1], items[|items| - 1];
      CountWithout(init, kind, other);
      CountAppend(WithoutKind(init, kind), if last.kind != kind then [last] else [], kind);
      CountAppend(WithoutKind(init, kind), if last.kind != kind then [last] else [], other);
    }
  }

  lemma {:induction false} CountAppend(a: seq<Gear>, b: seq<Gear>, kind: string)
    ensures CountKind(a + b, kind) == CountKind(a, kind) + CountKind(b, kind)
    decreases |b|
  {
    if b != [] {
      assert (a + b)[..|a + b| - 1] == a + b[..|b| - 1];
      assert (a + b)[|a + b| - 1] == b[|b| - 1];
      CountAppend(a, b[..|b| - 1], kind);
    } else {
      assert a + b == a;
    }
  }

  /** After the equip step exactly one item of the new item's type is worn,
      and every other type keeps its count. */
  lemma EquipOnePerKind(equipped: seq<Gear>, item: Gear, other: string)
    ensures CountKind(EquipList(equipped, item), item.kind) == 1
    ensures other != item.kind ==> CountKind(EquipList(equipped, item), other) == CountKind(equipped, other)
  {
    CountWithout(equipped, item.kind, other);
    CountAppend(WithoutKind(equipped, item.kind), [item], item.kind);
    CountAppend(WithoutKind(equipped, item.kind), [item], other);
    assert [item][..0] == [];
  }

  ghost predicate OnePerKind(items: seq<Gear>) {
    forall kind :: CountKind(items, kind) <= 1
  }

  /** So if at most one item per type was worn before, that still holds. */
  lemma EquipKeepsOnePerKind(equipped: seq<Gear>, item: Gear)
    requires OnePerKind(equipped)
    ensures OnePerKind(EquipList(equipped, item))
  {
    forall kind
      ensures CountKind(EquipList(equipped, item), kind) <= 1
    {
      EquipOnePerKind(equipped, item, kind);
    }
  }

  // ---------------------------------------------------------------------
  // Shop

  /** A skill the shop may offer, with the skill_data entries it brings. */
  datatype SkillOffer = SkillOffer(name: string, damage: string, attacks: int, healing: int, manaCost: int, weight: int)

  /** 20 + (10 - weight) * 3: a weight-10 skill costs 20 and every weight
      point below 10 adds 3 coins. */
  function SkillPrice(weight: int): (price: int)
    ensures price == 20 <==> weight == 10
    ensures weight <= 10 ==> price >= 20
    ensures weight >= 0 ==> price <= 50
  {
    20 + (10 - weight) * 3
  }

  lemma SkillPriceFalls(w1: int, w2: int)
    requires w1 < w2
    ensures SkillPrice(w2) == SkillPrice(w1) - 3 * (w2 - w1)
  {
  }

  /** What a purchase attempt comes to. */
  datatype Purchase = Bought | TooPoor | AlreadyKnown | NoSuchItem

  // ---------------------------------------------------------------------
  // Combat over a group

  /** One hit of a multi-hit skill: a standing monster, the pick-th of the
      standing ones counting round, loses the roll. */
  function HitLiving(g: seq<Monster>, pick: nat, roll: int): (h: seq<Monster>)
    requires |Living(g)| > 0
    ensures |h| == |g|
  {
    var living := Living(g);
    var t := living[pick % |living|];
    g[t := g[t].(health := g[t].health - roll)]
  }

  /** The hits of a multi-hit skill, each on a monster standing at that
      moment; once none stands, the remaining hits are dropped. */
  function Volley(g: seq<Monster>, rolls: seq<int>, picks: seq<nat>): (h: seq<Monster>)
    requires |picks| == |rolls|
    decreases |rolls|
    ensures |h| == |g|
  {
    if rolls == [] || |Living(g)| == 0 then g
    else Volley(HitLiving(g, picks[0], rolls[0]), rolls[1..], picks[1..])
  }

  /** A volley never touches a monster that was already down, and changes
      nothing but health. */
  lemma {:induction false} VolleySparesFallen(g: seq<Monster>, rolls: seq<int>, picks: seq<nat>, i: nat)
    requires |picks| == |rolls| && i < |g|
    decreases |rolls|
    ensures g[i].health <= 0 ==> Volley(g, rolls, picks)[i] == g[i]
    ensures Volley(g, rolls, picks)[i] == g[i].(health := Volley(g, rolls, picks)[i].health)
  {
    if rolls != [] && |Living(g)| > 0 {
      VolleySparesFallen(HitLiving(g, picks[0], rolls[0]), rolls[1..], picks[1..], i);
    }
  }

  /** With non-negative rolls no monster gains health from a volley. */
  lemma {:induction false} VolleyOnlyWounds(g: seq<Monster>, rolls: seq<int>, picks: seq<nat>, i: nat)
    requires |picks| == |rolls| && i < |g|
    requires forall k :: 0 <= k < |rolls| ==> rolls[k] >= 0
    decreases |rolls|
    ensures Volley(g, rolls, picks)[i].health <= g[i].health
  {
    if rolls != [] && |Living(g)| > 0 {
      VolleyOnlyWounds(HitLiving(g, picks[0], rolls[0]), rolls[1..], picks[1..], i);
    }
  }

  /** The damage the standing monsters of a group deal in their turn. */
  function LivingDamage(g: seq<Monster>): int {
    if g == [] then 0
    else LivingDamage(g[..|g| - 1]) + (if g[|g| - 1].health > 0 then g[|g| - 1].damage else 0)
  }

  /** Only standing monsters strike: a group where none stands deals no
      damage, and with non-negative damage ratings the reply never heals. */
  lemma {:induction false} LivingDamageBounds(g: seq<Monster>)
    ensures |Living(g)| == 0 ==> LivingDamage(g) == 0
    ensures (forall k :: 0 <= k < |g| ==> g[k].damage >= 0) ==> LivingDamage(g) >= 0
  {
    if g != [] {
      LivingDamageBounds(g[..|g| - 1]);
    }
  }

  // ---------------------------------------------------------------------
  // Rewards

  /** Sum of damage * 2 + 2 over the group. */
  function XpBase(g: seq<Monster>): int {
    if g == [] then 0 else XpBase(g[..|g| - 1]) + (g[|g| - 1].damage * 2 + 2)
  }

  /** int(xp_total * 1.5). */
  function GroupXp(g: seq<Monster>): (x: int)
    ensures (forall k :: 0 <= k < |g| ==> g[k].damage >= 0) ==> x >= 3 * |g|
  {
    XpBaseBound(g);
    TruncDiv(3 * XpBase(g), 2)
  }

  lemma {:induction false} XpBaseBound(g: seq<Monster>)
    ensures (forall k :: 0 <= k < |g| ==> g[k].damage >= 0) ==> XpBase(g) >= 2 * |g|
  {
    if g != [] { XpBaseBound(g[..|g| - 1]); }
  }

  /** The coin base as written: damage plus half the health each monster
      has at the end of the fight, which is never above 0 for a beaten
      monster. */
  function CoinBase(g: seq<Monster>): int {
    if g == [] then 0 else CoinBase(g[..|g| - 1]) + (g[|g| - 1].damage + g[|g| - 1].health / 2)
  }

  /** A beaten two-damage monster left at -6 health gives a base of -1, and
      a reward of -1 lies in the drawn range, so the hero's coins go down. */
  lemma CoinBaseCanBeNegative()
    ensures CoinBase([Monster("Slime", -6, 6, 2)]) == -1
    ensures ScaledWithin(-1, -1, 3, 5, 4)
  {
    assert [Monster("Slime", -6, 6, 2)][..0] == [];
  }

  /** The coin base the formula evidently aims at: damage plus half the
      health each monster started the fight with. */
  function StartingCoinBase(g: seq<Monster>): (c: int)
    ensures (forall k :: 0 <= k < |g| ==> g[k].damage >= 0 && g[k].maxHealth >= 0) ==> c >= 0
  {
    if g == [] then 0
    else StartingCoinBase(g[..|g| - 1]) + (g[|g| - 1].damage + g[|g| - 1].maxHealth / 2)
  }

  /** With it no victory takes coins away. */
  lemma StartingRewardNotNegative(g: seq<Monster>, reward: int)
    requires forall k :: 0 <= k < |g| ==> g[k].damage >= 0 && g[k].maxHealth >= 0
    requires ScaledWithin(StartingCoinBase(g), reward, 3, 5, 4)
    ensures reward >= 0
  {
  }

  // ---------------------------------------------------------------------
  // Walking a floor

  /** A room holds a shop (10% of rooms) or a fight. */
  datatype Room = ShopVisit | Fight(result: FightResult)

  /** A shop room lets the walk go on like a won fight. */
  function WalkResults(rooms: seq<Room>): (fights: seq<FightResult>)
    ensures |fights| == |rooms|
    ensures forall k :: 0 <= k < |rooms| ==> fights[k] == (if rooms[k].ShopVisit? then Won else rooms[k].result)
  {
    seq(|rooms|, k requires 0 <= k < |rooms| => if rooms[k].ShopVisit? then Won else rooms[k].result)
  }
}
