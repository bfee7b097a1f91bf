# Eyum Terminal Adventure — a verified model of the game rules

Eyum Terminal Adventure is a turn-based dungeon crawler for the terminal,
kept in three generations:

- `eyum.py`: one hero against one monster per room.
- `main.py`: one hero against groups of monsters, with equipment and a shop.
- `main2.py`: a party of three characters (Lucian, Ilana and George). The
  characters not selected act on their own, and a sliding window over the
  monster list sets the difficulty.

Under the menus and the coloured output, each generation has the same
integer rules. This project models those rules in Dafny and proves what
they guarantee:

- dice notation;
- monster groups, bosses and rotation of the monster list;
- the level-up loop and the upgrade menus;
- equipment, prices, the shop and treasure;
- every combat transition;
- the room and floor counters.

## Modules

- `basics.dfy` (`Basics`): `Option`, and Python's int() truncation,
  negative list indexing and slice clamping.
- `dice.dfy` (`Dice`): `str.lower`, `str.split`, `int()` and `str()` on
  ASCII text, and the "NdM" parser and formatter.
  - `IsOutcome` is the set of values `roll_dice` can return. `Roll`
    computes a roll from given die faces.
- `progression.dfy` (`Progression`): the level-up loop of the two older
  engines, and their skill upgrade from "1dN" to "1d(N+2)".
- `encounter.dfy` (`Encounter`):
  - monster templates, group size and pool, and the three boss rules;
  - rotation by index (newest engine) and in-place left rotation of the
    list (older engines);
  - the oldest engine's floor window;
  - how many rooms a run of fights gets through.
- `solo_rules.dfy` (`SoloRules`) and `solo_game.dfy` (`SoloGame.Game`):
  the middle engine. The rules are values; the player record is a class
  whose methods update it in place.
- `eyum.py` is modelled in `eyum.dfy` (`Eyum.Game`).
- `party_rules.dfy` (`PartyRules`) and `party_game.dfy` (`PartyGame.Party`):
  the newest engine.
  - `player_data`'s parallel arrays become one `Hero` record per
    character.
  - `character_skills` becomes one `SkillBook` per character.
  - The class holds those, the shared coins, inventory and equipped list,
    the floor and room counters, the rotation index and the current
    monster group.

Randomness becomes caller-supplied values with the range the source draws
them from:

- die faces in [1, M];
- `random.choice` as a pick taken modulo the number of candidates;
- the group-growth coin flips as booleans;
- the jittered attack as any value between the truncated products of the
  two ends of `uniform(0.95, 2)`;
- the coin reward as any value between the truncated products of the two
  ends of `uniform(0.75, 1.25)`.

Typed menu input becomes a choice value or an index. A fight's outcome,
where a floor walk needs it, becomes a `FightResult`.

## Model

| member | source | states |
|---|---|---|
| Basics.PyIndex | main.py:282-283 | a list index is accepted exactly when it lies in [-n, n), and a negative one counts from the end |
| Basics.Slice | eyum.py:217 | `s[a:b]` clamps both ends to the length: its length is min(b, len) - a or 0, and entry k is `s[a + k]` |
| Basics.JitterBounds | main.py:424 | the jittered attack `int(damage * uniform(0.95, 2))` of a non-negative damage rating lies in [0, 2 * damage] |
| Dice.Lower | main.py:81 | `str.lower` keeps the length and lowers each ASCII capital |
| Dice.Split | main.py:81 | `str.split(sep)` gives one more part than there are separators, no part holds the separator, and joining the parts with it gives the text back |
| Dice.ParseInt | main.py:81 | `int()` accepts a text exactly when it is one or more ASCII digits, optionally after a single leading '+' or '-'; the value is the digits' decimal value, negated after '-'; an accepted text never contains 'd' |
| Dice.IntToString | main2.py:495 | `str(i)` is a non-empty text that starts with '-' exactly when i is negative, every other character being a digit |
| Dice.ParseIntToString | main2.py:493-495 | `int(str(i)) == i` for every integer |
| Dice.ParseDice | main.py:81 | a parsed dice text has exactly one 'd' once lowered; any other text is rejected |
| Dice.ParseFormatDice | main2.py:493-495 | parsing `f"{n}d{m}"` gives back exactly n and m |
| Dice.Roll | main.py:79-85 | the sum of the drawn faces is a possible `roll_dice` result: in [N, N*M] for a rollable "NdM", 0 for anything else (bad text, N <= 0, M < 1) |
| Dice.OutcomeReachable | main.py:79-85 | conversely, every value in that set is the sum of some faces in [1, M], so the set is exact |
| Dice.FormattedOutcome | main2.py:650-653 | a roll of `f"{n}d{m}"` with m >= 1 is 0 for n <= 0 and in [n, n*m] otherwise |
| Dice.NoneShortcutAgrees | main2.py:106-119 | the newest `roll_dice`'s early return for "none" in any case agrees with the older parser, which rejects "none" anyway |
| Progression.ScaleThreshold | main.py:193 | `int(t * 1.5)` is the truncated product, and it never lowers a positive threshold |
| Progression.ScaleMana | main.py:195 | `int(m * 1.2)` is the truncated product, and it never lowers a non-negative maximum |
| Progression.ScaleHealth | main2.py:206 | `int(h * 1.1)` is the truncated product, and it never lowers a non-negative maximum |
| Progression.Settle | main.py:189-196 | the level-up loop terminates for a threshold >= 1 and never lowers the threshold |
| Progression.SettleFacts | main.py:186-199 | after the loop xp is below the threshold; each pass gives one level and one skill point; nothing changes when no level is due; after a level-up mana equals its new maximum and xp is >= 0; the mana maximum never drops |
| Progression.SettleTwoLevels | main.py:186-199 | 25 xp at threshold 10 gives level 3, xp 0, threshold 22, two points, and mana 9 of 9 |
| Progression.SettlePaysThresholds | main.py:189-193 | the xp the loop takes is exactly the sum of the thresholds in force at each pass |
| Progression.WidenDie | main.py:283-288 | a damage text is upgraded exactly when it starts with "1d" and the rest parses as an integer |
| Progression.WidenDieRolls | main.py:284-288 | such a text is one N-sided die, and its upgrade is `f"1d{N+2}"`, which reads back as one (N+2)-sided die |
| Encounter.Spawn | main.py:375-376 | a monster copied from a template has the template's stats and `max_health == health` |
| Encounter.Living | main.py:414 | the target list holds only indices of monsters with health above 0 |
| Encounter.LivingComplete | main.py:414 | and it holds every such index |
| Encounter.GroupSize | main.py:364-373 | a group has 1 to 5 monsters; every monster after the first took one more successful growth draw, and a group of at most four stopped at a failed one |
| Encounter.DrawGroup | main2.py:163-176 | the group has that size, and monster k is a fresh copy of the picked pool entry |
| Encounter.Pool | main2.py:154-159 | the pool is `monster_list[i:i+3]`, entry k being list entry i + k; it is short only at the end of the list, so the top-up loop never adds anything |
| Encounter.Weights | main2.py:161 | the weights have the pool's length, are positive and strictly decrease, favouring the weakest entry |
| Encounter.PoolBoss | main2.py:178-181 | the boss is list entry i + 3 when it exists, else the last entry |
| Encounter.BossFollowsPool | main2.py:155-181 | the boss is the entry right after the pool when the list goes on past it, and otherwise the last entry of the pool itself |
| Encounter.NextRotation | main2.py:183-186 | the index rises by exactly one iff i + 3 < len, and otherwise stays |
| Encounter.RotationSettles | main2.py:183-186 | from 0, after k floors the index is min(k, len - 3), or 0 for lists shorter than 3 |
| Encounter.PoolStaysFull | main2.py:155-186 | with at least three monsters, the pool always has three entries on every floor |
| Encounter.FloorBoss | main.py:380-382 | the older boss is `monster_list[min(floor * 3, len - 1)]` |
| Encounter.RotateLeft | main.py:384-386 | the rotation keeps the length and leaves a list of at most three unchanged |
| Encounter.RotateLeftFacts | main.py:384-386 | the contents are kept (same multiset); with more than three entries the first goes to the end and every other moves up one |
| Encounter.RotateTimesShifts | eyum.py:226-228 | after k floors, entry j of a list longer than three is original entry (j + k) mod len, and the contents are kept |
| Encounter.RotateTimesKeeps | eyum.py:226-228 | any number of rotations keeps the length and the contents |
| Encounter.MonsterWindow | eyum.py:215-220 | `get_monster_group` as written returns at most three templates |
| Encounter.WindowWraps | eyum.py:215-220 | while (floor-1)*3 + 3 <= 3 * len, the window has three entries, entry k being list entry ((floor-1)*3 + k) mod len |
| Encounter.WindowEmpties | eyum.py:218-219 | once the start passes the tripled list, the window is empty |
| Encounter.WindowEmptyOnFloorSeven | eyum.py:215-220 | with the game's six monsters, floor 7 has an empty window (see Findings) |
| Encounter.WrappedWindow | eyum.py:219 | the corrected window always has three entries, entry k being list entry (start + k) mod len |
| Encounter.WrappedWindowAgrees | eyum.py:215-220 | it equals `get_monster_group` on every floor where the latter is not short |
| Encounter.RoomsEntered | main.py:581-601 | the walk enters at most all rooms; when some fight is not won, it stops at the first such fight |
| Encounter.RoomsEnteredStops | main.py:581-601 | every fight before the last room entered was won, and all fights were won iff every room was entered and the last fight was won too |
| Encounter.WalkEnd | main.py:594-601 | a fight that is not won never reports a cleared floor |
| SoloRules.FirstKeyword | main.py:166-184 | the elif chain picks the first keyword in order that occurs in the effect text, and none before it occurs |
| SoloRules.EffectBonusCases | main.py:167-184 | an effect gives one of six bonuses; "+1 damage" wins over every other keyword; "+5 all stats" counts iff no earlier keyword occurs |
| SoloRules.TotalsBounds | main.py:156-184 | worn equipment never lowers a stat and adds at most 5 per item to defense and maximum health |
| SoloRules.KindFilters | main.py:237 | the type filter keeps exactly the items of that type, and its complement exactly the others |
| SoloRules.NumberedCovers | main.py:209-235 | the numbered list shows only inventory items, and every inventory item of the five known types appears in it |
| SoloRules.EquipOnePerKind | main.py:237-240 | after equipping, exactly one item of the new item's type is worn, and other types are unchanged |
| SoloRules.EquipKeepsOnePerKind | main.py:237-240 | so at most one worn item per type is an invariant of equipping |
| SoloRules.SkillPrice | main.py:321-331 | the price is exactly 20 iff the weight is 10, at least 20 for a weight up to 10, and at most 50 for a non-negative weight |
| SoloRules.SkillPriceFalls | main.py:331 | each extra point of weight lowers the price by exactly 3 |
| SoloRules.HitLiving | main.py:489-495 | one hit of a multi-hit skill keeps the group's size |
| SoloRules.Volley | main.py:489-496 | the hits keep the group's size |
| SoloRules.VolleySparesFallen | main.py:489-496 | a monster already down is never hit, and only health ever changes |
| SoloRules.VolleyOnlyWounds | main.py:489-496 | with non-negative rolls, no monster gains health |
| SoloRules.LivingDamageBounds | main.py:532-536 | a group where nothing stands deals no damage, and non-negative damage ratings never heal the hero |
| SoloRules.GroupXp | main.py:558-559 | the victory xp `int(sum(damage*2+2) * 1.5)` is at least 3 per monster for non-negative damage |
| SoloRules.XpBaseBound | main.py:558 | the xp base is at least 2 per monster |
| SoloRules.CoinBaseCanBeNegative | main.py:553-555 | the coin base as written can be negative (see Findings) |
| SoloRules.StartingCoinBase | main.py:553-554 | the corrected coin base is non-negative |
| SoloRules.StartingRewardNotNegative | main.py:553-555 | with the corrected base, every jittered coin reward is >= 0 |
| SoloRules.WalkResults | main.py:584-588 | a shop room lets the walk go on like a won fight, and a fight room reports its fight |
| SoloGame.SkillHits | main.py:471-496 | a single-target skill touches only its target, and the group's size is kept |
| SoloGame.Game.constructor | main.py:17-34 | the starting player record: level 1, 15/15 health, 7/7 mana, damage 1, no coins, xp 0 of 10, on floor 1, room 1 |
| SoloGame.Game.AddItemBonus | main.py:166-184 | one pass of the loop adds the bonus of the first matching keyword to the worn stats |
| SoloGame.Game.ApplyEquipmentBonuses | main.py:156-184 | the worn stats are recomputed from the base values 1, 0, 15 and 7 and equal the totals of the equipped items, whatever they were before (so the operation is idempotent) |
| SoloGame.Game.EquipNumber | main.py:229-242 | a number in range equips that numbered item with one item per type and recomputed stats; any other number changes nothing |
| SoloGame.Game.GainXp | main.py:186-199 | the level-up entries become the settled state of the old ones plus the xp; health is untouched |
| SoloGame.Game.RaiseHealth | main.py:265-267 | health and maximum health rise by 5 each |
| SoloGame.Game.RaiseMana | main.py:268-270 | mana rises by 2 and maximum mana by 3 |
| SoloGame.Game.RaiseDamage | main.py:271-272 | damage rises by 1 |
| SoloGame.Upgrade | main.py:264-294 | what one choice does before its point: +5 health and maximum, +2 mana and +3 maximum, +1 damage, or a skill's die widened with one more attack when the index is valid and the die is "1dN"; any other choice is refused; the points and array lengths are kept |
| SoloGame.Menu | main.py:250-300 | the menu stops when the choices run out, the points are gone or "exit" is chosen; the skill arrays stay parallel |
| SoloGame.UpgradeGains | main.py:264-294 | a choice that goes through gains exactly one of +5 maximum health, +3 maximum mana, +1 damage or one more skill attack (weighted 3, 5, 15: exactly 15), health rises with the maximum and mana by 2 per 3 of maximum |
| SoloGame.MenuSpends | main.py:250-300 | the points drop by exactly what the menu spent, at most one per choice; nothing is spent without points and points never go below 0; a menu that spends nothing changes nothing |
| SoloGame.MenuGains | main.py:250-300 | each spent point bought exactly one choice's gains: 15 * spent == 3 * (maximum health gained) + 5 * (maximum mana gained) + 15 * (damage and skill attacks gained), and no stat drops |
| SoloGame.Game.MenuChoice | main.py:264-294 | one choice goes through iff Upgrade accepts it, and the sheet becomes Upgrade's result, else stays |
| SoloGame.Game.UpgradeSkill | main.py:273-294 | the upgrade goes through iff the index is valid, counting from the end when negative, and the damage is "1dN"; it then widens the die and adds one attack; otherwise nothing changes |
| SoloGame.Game.UpgradeMenu | main.py:250-300 | the player's sheet becomes Menu's and the points spent are Menu's (one per choice that goes through, see MenuGains); none when it starts with no points; points never below 0 |
| SoloGame.Game.BuySkill | main.py:330-346 | short coins are checked before an already-known skill; a purchase pays exactly the price, leaves coins >= 0 and appends to all five skill arrays, keeping them parallel; a refusal changes nothing |
| SoloGame.Game.BuyItem | main.py:348-360 | an index outside the stock or short coins changes nothing; a purchase pays exactly the price and appends the item |
| SoloGame.Game.GenerateMonsterGroup | main.py:363-378 | 1 to 5 fresh copies of list entries, each with `max_health == health` |
| SoloGame.Game.RotateMonsters | main.py:384-386 | the list becomes its left rotation |
| SoloGame.Game.PlayerAttack | main.py:413-432 | only a standing monster can be hit; it loses the unclamped jittered damage, and mana rises by max(1, max_mana // 10) capped at the maximum; an invalid target changes nothing |
| SoloGame.Game.SkillVolley | main.py:489-496 | the loop leaves the group as the volley of the given rolls and picks |
| SoloGame.Game.CastSkill | main.py:434-506 | the skill goes through iff the index is valid, mana covers the cost, something stands and a single-target choice is standing; it then pays the cost, lands the hits and heals up to the maximum; otherwise (including the refund) nothing changes |
| SoloGame.Game.EnemyTurn | main.py:532-536 | the hero loses the damage of every standing monster, without a floor at 0 |
| SoloGame.Game.VisitUpgrades | main.py:512-514 | the upgrade menu changes the sheet as Menu says and leaves equipment and defense alone |
| SoloGame.Game.VisitEquipment | main.py:516-518 | the equipment menu equips the numbered item (one per type, recomputed bonuses) or changes nothing for a bad number, and leaves health, mana, points and skills alone |
| SoloGame.Game.VisitMenu | main.py:512-518 | the two menus combat opens: each has the effect VisitUpgrades or VisitEquipment states |
| SoloGame.Game.AttackTurn | main.py:413-432 | a valid attack hits its standing target, refills mana by max(1, max_mana // 10) capped, and the hero then loses the damage of the monsters still standing; an invalid target changes nothing |
| SoloGame.Game.SkillTurn | main.py:434-506 | a skill that goes through pays its cost, lands SkillHits, heals up to the maximum, and is answered by the monsters still standing; a refused skill changes nothing |
| SoloGame.Game.Round | main.py:410-536 | retreat and exit end combat iff chosen; an attack and a skill act as AttackTurn and SkillTurn, the menus as VisitMenu; outside the menus the maxima, damage, defense, skill arrays, points and equipment never change; retreat, exit and unrecognised input change no health, mana, monster or point |
| SoloGame.Game.FinishCombat | main.py:540-561 | with the coin roll drawn around the coin base as the code computes it, a standing hero gains the coin roll and the group's xp; a fallen one is marked dead and keeps everything else |
| SoloGame.Game.ExploreFloor | main.py:563-635 | a resumed fight that is not won ends the walk at once; otherwise each room entered adds 1 to the room counter and the first fight not won ends the walk; after all ten rooms the boss is `get_boss(floor)`; beating or fleeing it rotates the list, adds 1 to the floor and resets the room to 1 |
| SoloGame.Game.WalkRooms | main.py:581-606 | the room counter rises by the rooms entered, all ten when every fight is won, and the walk reports the fight that ended it |
| Eyum.VictoryXp | eyum.py:305 | `int((damage*2+2) * 1.5)` is exactly 3 * damage + 3 |
| Eyum.Game.constructor | eyum.py:15-40 | the starting record (level 1, 15 health, 7/7 mana, damage 1, xp 0 of 10) and the six-monster list |
| Eyum.Game.GainXp | eyum.py:150-163 | the level-up entries become the settled state of the old ones plus the xp |
| Eyum.Game.RaiseHealth | eyum.py:180-181 | only health rises by 5, since this engine has no maximum |
| Eyum.Game.RaiseMana | eyum.py:182-184 | mana rises by 2 and maximum mana by 3 |
| Eyum.Game.RaiseDamage | eyum.py:185-186 | damage rises by 1 |
| Eyum.Upgrade | eyum.py:179-207 | what one choice does before its point: +5 health, +2 mana and +3 maximum, +1 damage, or a skill's die widened with one more attack when the index is valid and the die is "1dN"; any other choice is refused; the points and array lengths are kept |
| Eyum.Menu | eyum.py:165-213 | the menu stops when the choices run out, the points are gone or "exit" is chosen; the skill arrays stay parallel |
| Eyum.UpgradeGains | eyum.py:179-207 | a choice that goes through gains exactly one of +5 health, +3 maximum mana, +1 damage or one more skill attack (weighted 3, 5, 15: exactly 15), and mana rises by 2 per 3 of maximum |
| Eyum.MenuSpends | eyum.py:165-213 | the points drop by exactly what the menu spent, at most one per choice; nothing is spent without points and points never go below 0; a menu that spends nothing changes nothing |
| Eyum.MenuGains | eyum.py:165-213 | each spent point bought exactly one choice's gains: 15 * spent == 3 * (health gained) + 5 * (maximum mana gained) + 15 * (damage and skill attacks gained), and no stat drops |
| Eyum.Game.MenuChoice | eyum.py:179-207 | one choice goes through iff Upgrade accepts it, and the sheet becomes Upgrade's result, else stays |
| Eyum.Game.UpgradeSkill | eyum.py:187-207 | the upgrade goes through iff the index is valid, counting from the end when negative, and the damage is "1dN"; it then widens the die and adds one attack; otherwise nothing changes |
| Eyum.Game.UpgradeMenu | eyum.py:165-213 | the hero's sheet becomes Menu's and the points spent are Menu's (one per choice that goes through, see MenuGains); none with no points; never below 0 |
| Eyum.Game.PlayerAttack | eyum.py:240-245 | the monster loses the jittered damage; mana rises by max(1, max_mana // 10) and never passes the maximum |
| Eyum.Game.CastSkill | eyum.py:246-279 | refused without change when the index is invalid or mana is short; otherwise the cost is paid, the monster loses the sum of the hit rolls, and a healing skill adds its roll to health with no cap |
| Eyum.Game.MonsterTurn | eyum.py:297-299 | the monster strikes back iff its health is above 0 |
| Eyum.Game.Round | eyum.py:239-299 | an attack hits, refills mana and the monster replies if standing; a skill that goes through pays its cost, takes the sum of its rolls off the monster, heals and is answered the same way; the upgrade menu acts as Menu and leaves the monster alone; outside the menu the mana maximum, damage, skill arrays and points never change; a refused skill, retreat, exit or unrecognised input changes no health, mana or monster |
| Eyum.Game.FinishCombat | eyum.py:304-317 | a standing hero gains 3 * damage + 3 xp, and then mana rises by max(1, max_mana // 5) capped at the maximum; a fallen one is marked dead |
| Eyum.Game.RotateMonsters | eyum.py:226-228 | the list becomes its left rotation |
| Eyum.Game.ExploreFloor | eyum.py:319-352 | on a floor whose slice of the tripled list is full, room i fights entry i mod 3 of that slice; each room entered adds 1; a fight not won ends the walk there; after the boss is beaten or fled, the list rotates, the floor rises by 1 and the room resets to 1 |
| Eyum.Cycle | eyum.py:323-325 | the monsters met in n rooms number n |
| Eyum.CycleAt | eyum.py:325 | the monster met in room k is window entry k mod 3 |
| PartyRules.HeroSettle | main2.py:193-207 | the newest level-up loop terminates for a threshold >= 1 |
| PartyRules.HeroSettleFacts | main2.py:188-211 | xp ends below the threshold; each level gives max(1, floor) points; nothing changes when no level is due; after a level-up health and mana equal their new maxima; maxima never drop; damage and the idle entries are kept |
| PartyRules.HeroSettleExample | main2.py:188-211 | Lucian with 25 xp at threshold 10 on floor 3 ends at level 3 with xp 0, threshold 22, six points, and 24/24 health and 14/14 mana |
| PartyRules.Lookup | main2.py:287-292 | a key found in the bonus dict has that value; a missing key has no entry |
| PartyRules.ItemValue | main2.py:279-296 | an item's price is never below 5 |
| PartyRules.ItemValuePlain | main2.py:284-296 | a plain item costs max(10 * floor, 5) |
| PartyRules.ItemValueGrows | main2.py:284-296 | with non-negative bonuses an item costs at least 10 per floor, at least 35 per floor with restore_full, and never less on a deeper floor |
| PartyRules.StatIndex | main2.py:580-582 | a bonus key resolves to the first stat array it names, or to none |
| PartyRules.RemoveUndoesApply | main2.py:579-587 | `remove_bonuses` after `apply_bonuses` with the same bonus restores every entry of the character |
| PartyRules.RemoveCanOverheal | main2.py:584-587 | taking off a +5 max_health item after a full heal leaves George at 30 health of 25 |
| PartyRules.IndexOf | main2.py:565 | `list.remove` takes out the first equal entry |
| PartyRules.RemoveFirst | main2.py:565 | removal takes out exactly one copy of the item |
| PartyRules.SlotOf | main2.py:558-561 | the slot search finds an item this character owns of that type, or proves there is none |
| PartyRules.EquipKeepsOnePerSlot | main2.py:557-568 | equipping keeps at most one item per (owner, type), and the one now worn in that slot is the new item with its owner set |
| PartyRules.InventoryAfter | main2.py:557-577 | the inventory loses the new item and regains the displaced one without an owner |
| PartyRules.LearnMisaligns | main2.py:370-376 | a purchase keeps six arrays parallel but leaves max_level one entry short |
| PartyRules.BoughtSkillCannotUpgrade | main2.py:455-465 | once a skill is bought, the max_level list is short, so every choice in upgrade_skill ends in IndexError: no skill of that character can be upgraded |
| PartyRules.PartialRaise | main2.py:487-495 | when a dice entry does not parse, the level is still raised by 1, the attack change stays, and the damage entry is kept when it is the one that failed; the other arrays are kept |
| PartyRules.UpgradedBook | main2.py:487-495 | an upgrade raises the level by 1, adds an attack only when there were more than one, and leaves every other skill and the cost and max-level arrays as they were |
| PartyRules.OneMoreDie | main2.py:490-495 | "none" in any case is kept; any other entry is upgraded iff it parses as "NdM" |
| PartyRules.OneMoreDieAgain | main2.py:490-495 | an upgraded entry "NdM" becomes "(N+1)dM", and can be upgraded again |
| PartyRules.Strike | main2.py:744-749 | one hit keeps the group's size |
| PartyRules.Strikes | main2.py:743-751 | the hit loop keeps the group's size |
| PartyRules.StrikesFacts | main2.py:743-751 | only health changes; a monster already down is untouched; health is untouched or >= 0; non-negative rolls never heal; the loop stops early only when nothing stands |
| PartyRules.Injured | main2.py:618 | the injured list holds only characters below their maximum health |
| PartyRules.HealOne | main2.py:617-624 | a heal changes only the health of one character |
| PartyRules.HealOneCapped | main2.py:624 | a healed character's health is at most its maximum, and a non-negative roll never lowers it |
| PartyRules.AllyAct | main2.py:600-625 | an ally's action keeps the sizes and changes only characters' health |
| PartyRules.IdleTurn | main2.py:589-625 | the allies' turn keeps both sizes |
| PartyRules.AllyActBounds | main2.py:600-625 | after one ally's action a character's health is untouched or at most its maximum, and a monster's is untouched or >= 0 |
| PartyRules.IdleTurnBounds | main2.py:589-625 | the same holds for the whole allies' turn |
| PartyRules.IdleTurnReturnSkipsHealer | main2.py:605-609 | the early return ends every remaining ally's turn: Ilana never heals a wounded George once Lucian's attacks run out of targets |
| PartyRules.Blow | main2.py:644-654 | one strike keeps the party's size |
| PartyRules.Blows | main2.py:644-655 | the monsters' strikes keep the party's size |
| PartyRules.MonsterRollsBounds | main2.py:650-653 | a monster's roll of "{damage}d2" is >= 0, and in [damage, 2 * damage] for damage >= 1 |
| PartyRules.BlowsBounds | main2.py:644-655 | only health changes; it stays >= 0 unless untouched; a character already down is not hit; non-negative rolls never heal |
| PartyRules.BlowsHurtOnly | main2.py:637-655 | after the monsters' turn, every character's health is no higher than before and is >= 0 unless untouched |
| PartyRules.Survivors | main2.py:629 | the filtered group is the standing monsters, in order |
| PartyRules.SurvivorsEmpty | main2.py:629-630 | the filtered group is empty iff no monster stands, and it holds only standing monsters |
| PartyGame.Party.constructor | main2.py:18-80 | the starting party, their skill books, no coins or items, floor 1, room 1, rotation index 0 |
| PartyGame.Party.GenerateMonsterGroup | main2.py:153-176 | the group has GroupSize(grows) monsters, one more per successful growth draw up to 5, each a fresh copy of the picked pool entry at the rotation index with `max_health == health` |
| PartyGame.Party.RotateMonsters | main2.py:183-186 | the rotation index advances by the rule of NextRotation and stays inside the list |
| PartyGame.Party.GainXp | main2.py:188-211 | only the selected character changes, to the settled state with max(1, floor) points per level |
| PartyGame.Party.Buy | main2.py:362-380 | an index outside the list or short coins changes nothing; a purchase pays exactly the price, leaves coins >= 0, and appends an item to the inventory or a skill to the selected character's book |
| PartyGame.Party.Treasure | main2.py:392-400 | coins rise by the base roll plus 5 per floor (between 15 and 30 + 5 * floor), and a found item is appended |
| PartyGame.Party.RaiseSkill | main2.py:487-502 | below the max level the upgrade rewrites only the selected character's book as UpgradedBook and spends one point; an unreadable dice entry raises ValueError, which ends the program with the book left as PartialRaise and no point spent |
| PartyGame.Party.UpgradeSkill | main2.py:452-502 | a book whose max_level list is short (after a purchase) ends in IndexError whatever the choice; otherwise an invalid index or a skill at its max level changes nothing, and a valid one acts as RaiseSkill, including PartialRaise on unreadable dice |
| PartyGame.Choose | main2.py:427-443 | one choice: +5 maximum health with health refilled, +3 maximum mana with mana refilled, +1 damage, each for one point; a skill upgrade as upgrade_skill decides it (one point; nothing; or the end of the menu on IndexError, which every choice raises once a skill was bought, or on ValueError) |
| PartyGame.ChooseGains | main2.py:427-499 | only the menu's entries change; no maximum or damage drops; a choice costs its point exactly when it raises one stat or level (weighted 3, 5, 15: gains == 15 * cost), except a raise cut short by bad dice, which costs nothing and gains a level |
| PartyGame.Menu | main2.py:404-450 | the menu stops when the choices run out, the points are gone, on "exit", or when a choice ends it |
| PartyGame.MenuSpends | main2.py:404-450 | the points drop by exactly what the menu spent, at most one per choice; without points nothing changes; points never go below 0; only the menu's entries change |
| PartyGame.MenuGains | main2.py:404-499 | each spent point bought one choice's gains: 15 * spent <= gains <= 15 * spent + 15, the extra 15 being a raise cut short by bad dice |
| PartyGame.Party.UpgradeMenu | main2.py:404-450 | the selected character and its book become Menu's and the points spent are Menu's (see MenuGains); nothing with no points; never below 0; other characters untouched |
| PartyGame.Party.MenuStep | main2.py:427-443 | one choice changes the selected character and book as Choose says, with its cost and whether it ends the menu |
| PartyGame.Party.SkillChoice | main2.py:440-441 | the skill choice is Choose's SkillUp case, through UpgradeSkill |
| PartyGame.Party.ApplyBonuses | main2.py:579-582 | the character's entries gain every bonus value |
| PartyGame.Party.RemoveBonuses | main2.py:584-587 | the character's entries lose every bonus value |
| PartyGame.Party.Unequip | main2.py:570-577 | the bonus is removed, the item leaves the equipped list, and it returns to the inventory without an owner |
| PartyGame.Party.FindSlot | main2.py:558-561 | the loop stops at the slot SlotOf names |
| PartyGame.Party.ClearSlot | main2.py:558-561 | the item worn in that slot, if any, is unequipped; otherwise nothing changes |
| PartyGame.Party.Equip | main2.py:557-568 | the character's entries, the equipped list and the inventory become HeroAfterEquip, EquippedAfter and InventoryAfter, which keep one item per slot |
| PartyGame.Party.PlayerAttack | main2.py:668-701 | only a standing monster can be hit; it loses the sum of `damage` d2 faces (between d and 2d), clamped at 0; otherwise nothing changes |
| PartyGame.Party.HitOne | main2.py:744-749 | one pass of the hit loop is Strike |
| PartyGame.Party.StrikeGroup | main2.py:743-751 | the loop computes Strikes, and a hit landed iff there was a pass and something stood |
| PartyGame.Party.SkillSelect | main2.py:703-760 | an invalid skill or short mana changes nothing; otherwise mana drops by exactly the cost and stays >= 0, the hits land as Strikes, a healing skill heals up to the maximum, and success means a hit landed or the skill heals |
| PartyGame.Party.AllyStep | main2.py:600-625 | one ally's action is AllyAct |
| PartyGame.Party.AlliesTurn | main2.py:589-625 | the loop computes IdleTurn |
| PartyGame.Party.MonsterBlows | main2.py:644-655 | the loop computes Blows |
| PartyGame.Party.MonsterAttack | main2.py:637-655 | with rolls drawn from "{damage}d2", no health rises and none drops below 0 |
| PartyGame.Party.MonsterDeathCheck | main2.py:627-635 | the fallen monsters are removed; it reports cleared iff none stood, and then the selected character gains 10 + 2 * floor xp |
| PartyGame.Party.CharacterDeathCheck | main2.py:657-666 | the game is over iff every character is at 0 health or below |

## Differences from the intended rules, modelled as written

These are modelled as the code behaves. A lemma exhibits each where one
applies.

- A skill bought in the newest engine gets no `max_level` entry
  (main2.py:371-376). Its arrays fall out of step. `upgrade_skill` lists
  every skill with its max level before it reads a choice (main2.py:461-465),
  so after a purchase no skill of that character can be upgraded: the menu
  itself raises IndexError (`LearnMisaligns`, `BoughtSkillCannotUpgrade`).
- `remove_bonuses` lowers `max_health` but not `health`, so taking an item
  off can leave health above its maximum (`RemoveCanOverheal`).
- `monster_death_check` removes the fallen monsters from the group
  (`Survivors`).
- `main.py` never clamps monster or player health at 0 (`PlayerAttack`,
  `EnemyTurn`).
- The `return` at main2.py:609 ends the turn of every remaining ally
  (`IdleTurnReturnSkipsHealer`).
- Fleeing from a boss returns `None`, which `explore_floor` of both older
  engines treats like a victory: the floor advances.
- The oldest engine's skill heal has no cap.

## Left out

- Terminal presentation and input are not modelled. This covers colours,
  bars, `clear_screen`, `press_enter` and `time.sleep`. Each typed choice is
  an input value.
- Save files, loading, backups, `os.remove` and `sys.exit` are not
  modelled. `CharacterDeathCheck` records the end of the game in a flag
  instead of exiting.
- Probability values (group growth, room odds, retreat, shop and treasure
  chances) are not modelled, and neither is the weighting of `random.choices`.
  The outcomes are parameters.
- Floating point is not modelled. `int(x * 1.5)`-style conversions are
  exact rational truncations. The two `uniform` factors are admitted as any
  value between the truncated products of their ends.
- The top-level dispatch loops, character selection and the `combat` /
  `combat_macro` loop of the newest engine are not modelled. Only their
  individual transitions are.
- The newest engine's `try_retreat` and `explore_floor` room dispatch are not
  modelled (the latter only adds 1 to the room counter and never changes the
  floor).
- `game_data` (drop table, skill table, monster list) is not part of this
  model. It is a parameter with the preconditions the code needs.
- `generate_random_shop_items` and `generate_shop_skill` are not modelled.
  The shop's offers are a parameter with arbitrary prices. Item prices are
  modelled by `ItemValue`.
- The shop, upgrade and `upgrade_skill` loops each take one choice per call
  (`Buy`, `UpgradeSkill`). The retry loops around them are not modelled.
- `upgrade_current_player` compares the `skill_points` list to an int, which
  would raise in Python 3. `PartyGame.Party.UpgradeMenu` models its three
  stat increments and the skill upgrade against a per-character point count.
- Bonus keys naming `player_data` entries that are not integer arrays are
  ignored. Only the ten integer arrays of a character are modelled.
- `main.py`'s inventory menu numbers only the five known item types; items
  of other types cannot be equipped, as in the code.
- Python's `int()` also accepts surrounding whitespace, digit underscores
  and non-ASCII decimal digits. `Dice.ParseInt` rejects them.
- PartyGame.Party.SkillSelect: hit and heal rolls are any integers, not
  tied to the skill's dice, so a negative roll could heal a monster.
- PartyRules.IdleTurn: the allies' hit and heal rolls are any integers, not
  tied to their idle dice.
- PartyGame.Party.MonsterAttack: the 5-to-1 weighting toward the selected
  character is not modelled; each target is any character index.
- SoloGame.Game.CastSkill: the rolls are any integers, not tied to the
  skill's dice.
- Eyum.Game.ExploreFloor: floors whose slice of the tripled list is empty
  (floor 7 and later with the six built-in monsters) are outside its
  precondition, because the code divides by zero there (see Findings). The
  walk uses the slice as written, not the corrected `WrappedWindow`.
- PartyGame.Party.Equip: items are values, not objects. `list.remove`
  takes out the first equal item rather than the one the player picked,
  and two purchases of the same `drop_table` dict, which share one object
  and its `owner` field in the code, are two independent items here
  (`PartyRules.InventoryAfter` likewise).
- SoloGame.Game.FinishCombat: the coin roll is drawn around the coin base
  the code computes, which can be negative (see Findings).

## Findings

| source | as written | input that shows it | evidently intended | confidence | as-written member | corrected member |
|---|---|---|---|---|---|---|
| eyum.py:215-220 | the floor's window is `(monster_list * 3)[(floor-1)*3 : (floor-1)*3+3]`, empty once the start passes the tripled list; `explore_floor` then takes `i % len(monsters)` of an empty list (eyum.py:325), a ZeroDivisionError | floor 7 with the six built-in monsters: start 18, tripled length 18 | three monsters read cyclically from the list on every floor | not executed | Encounter.WindowEmptyOnFloorSeven | Encounter.WrappedWindowAgrees |
| main.py:553-555 | the coin base adds `health // 2` of each monster after the fight, when a beaten monster's health is 0 or below (health is never clamped), so the base and the reward can be negative | one Slime (damage 2) beaten down to -6 health: base 2 + (-3) = -1, reward int(u * -1) = -1 for u = 1 | the reward grows with the monster's starting health and is never negative | not executed | SoloRules.CoinBaseCanBeNegative | SoloRules.StartingRewardNotNegative |

The engine methods keep the behaviour as written: `SoloGame.Game.FinishCombat`
draws the reward around `CoinBase`, and `Eyum.Game.ExploreFloor` walks the
slice as taken, on the floors where it is full. The corrected definitions
stand beside them with their properties proved.
