# Text-adventure engines, modelled in Dafny

This project models the game logic of two small Python adventure engines and
proves properties of that model.

- **levelkit_text.** `GameApp` in levelkit_text/engine/core.py, without its Qt widgets. It covers:
  - requirement trees and option gates
  - flags, timed flags and their expiry room by room
  - the declarative option effects: gains, `set`/`inc` maps, stamina, alert, stun, roll checks, timers
  - loot tables with unique awards
  - two weapon slots with stat effects
  - the battle state machine: available actions, the "Endure" fallback, hit rolls, ammunition, damage, victory and defeat
  - navigation with repeat-limited battles and fractional mana regeneration
  - the hex colour parser
  - the XP curve of levelkit_text/game/xp.py
  - the shipped template adventure
- **text_adventure.** `GameApp` in text_adventure/engine/core.py: navigation, battles, loot and item use. Also the content validator in text_adventure/engine/validator.py, and the content that ships with the engine.

Both engines follow the same two-layer pattern:

- **Rule functions.** Each operation of the source is a function over a `GameState` value, in the modules named `*Rules`, `KitLoot`, `KitBattle` and `KitWorld`. The game's properties are proved about these functions as lemmas.
- **A `GameApp` class.** Its fields are the state the source keeps on `self`. Its methods make the source's changes in place, with the source's loops. Each method is proved to leave exactly the state its rule function describes.

Other modelling choices:

- **Randomness.** Every `random.random()` and `random.randint` result is injected, so nothing depends on a distribution.
  - In levelkit_text, an `Rng` value and two draw counters carried in the state.
  - In text_adventure, a `Dice` argument for each battle action.
- **Validator.** The search is an imperative method. It is proved to visit exactly the rooms reachable from the start.
- **Dictionaries.** Where Python's iteration order matters, a dictionary is a map together with its key order.

| module | file | models |
|---|---|---|
| Common | common.dfy | shared helpers: options, clamps, truncation, Python's whitespace set, ASCII lower-casing, counters, the random source |
| KitXp | kit_xp.dfy | levelkit_text/game/xp.py and `_calculate_level_progress` |
| KitRequirements | kit_requirements.dfy | `_evaluate_requirement`, `_option_available` |
| KitModels | kit_models.dfy | levelkit_text's datatypes and game state |
| KitRules | kit_rules.dfy | flags, timers, inventory, equipment, mana regeneration, repeat keys |
| KitLoot | kit_loot.dfy | `_roll_loot_table` |
| KitBattle | kit_battle.dfy | the battle state machine |
| KitWorld | kit_world.dfy | `go_to`, room menus, option effects, `_handle_room_option`, `_use_item` |
| KitColor | kit_color.dfy | `_parse_hex_color` |
| KitApp | kit_app.dfy | levelkit_text's `GameApp` class |
| KitTemplate | kit_template.dfy | the template adventure levelkit_text ships, with the armory option corrected (see "## Findings"); the option as shipped is modelled beside it |
| TaModels | ta_models.dfy | text_adventure's datatypes and game state |
| TaRules | ta_rules.dfy | text_adventure's game rules |
| TaApp | ta_app.dfy | text_adventure's `GameApp` class |
| TaValidator | ta_validator.dfy | text_adventure/engine/validator.py |
| TaContent | ta_content.dfy | the content text_adventure ships |

## Model

| member | source | states |
|---|---|---|
| Common.Trunc | levelkit_text/engine/core.py:1341 | Python's `int()` on a float: the result is the integer next to x on the side of zero |
| Common.Ceil | levelkit_text/game/xp.py:33 | `math.ceil`: the least integer not below x |
| Common.Clamp01 | levelkit_text/engine/core.py:1610 | the clamped chance lies in [0, 1] and a chance already there is kept |
| Common.CritNotWeaker | levelkit_text/engine/core.py:1338-1341 | with a multiplier of at least 1 a critical hit never does less than the plain hit |
| Common.AddAllCounts | levelkit_text/engine/core.py:1388-1394 | collecting loot raises each item's count by the number of times it occurs in the list, adds no other key and touches no other count |
| Common.RandInt | levelkit_text/engine/core.py:1333 | `random.randint(0, hi)` returns a value in [0, hi] |
| KitModels.WithStat | levelkit_text/engine/core.py:992 | setting a stat gives it the new value and leaves every other stat as it was |
| KitXp.Requirement | levelkit_text/game/xp.py:23-33 | every level needs at least 1 experience point |
| KitXp.XpCurve | levelkit_text/game/xp.py:36-47 | the loop that subtracts requirements in turn returns exactly the (level, progress, target) of the recursive reading of the curve |
| KitXp.RequirementListed | levelkit_text/game/xp.py:24-25 | inside the list a requirement is the listed value, floored at 1 |
| KitXp.RequirementBeyondList | levelkit_text/game/xp.py:16-33 | the sixth requirement of the shipped curve is ceil(270 * 1.25) = 338 |
| KitXp.WalkFacts | levelkit_text/game/xp.py:41-47 | progress stays below the target, the target is the requirement of the level the walk stops at, and the requirements passed plus the progress add up to the experience walked |
| KitXp.ProgressionBounds | levelkit_text/game/xp.py:36-47 | the level is at least 1, progress is below the target, the target is that level's requirement, and the requirements of the levels passed plus the progress equal the experience, floored at 0 |
| KitXp.ProgressionAtZero | levelkit_text/game/xp.py:38-44 | zero or negative experience is level 1 with no progress towards the first requirement |
| KitXp.ProgressionAtZeroDefault | levelkit_text/game/xp.py:16-44 | on the shipped curve that first requirement is 50 |
| KitXp.WalkMonotonic | levelkit_text/game/xp.py:41-47 | walking from more experience never ends on a lower level |
| KitXp.ProgressionMonotonic | levelkit_text/game/xp.py:36-47 | more experience never means a lower level |
| KitXp.LevelProgressFallback | levelkit_text/engine/core.py:733-736 | without a curve the level is at least 1, progress lies in [0, target), and (level - 1) * target + progress equals the experience floored at 0 |
| KitXp.LevelProgressWithCurve | levelkit_text/engine/core.py:724-732 | with a curve configured, the engine's clamps leave the curve's answer unchanged |
| KitXp.EmptyCurveIsFallback | levelkit_text/game/xp.py:26-27 | a curve with an empty list charges 100 per level, the same as the fallback's default XP_PER_LEVEL |
| KitXp.WalkFlatAny | levelkit_text/game/xp.py:26-27 | with an empty list the walk climbs experience div 100 levels and keeps experience mod 100, towards a target of 100 |
| KitRequirements.FlagLeaves | levelkit_text/engine/core.py:1089-1092 | `{flag: F}` holds exactly when F is set and positive; `{not_flag: F}` exactly when F is absent or zero |
| KitRequirements.NotFlagIsNegation | levelkit_text/engine/core.py:1089-1092 | while a flag is not negative, not_flag is the negation of flag |
| KitRequirements.NegativeFlagFailsBoth | levelkit_text/engine/core.py:1089-1092 | on a negative flag both flag and not_flag fail |
| KitRequirements.MinIsConjunction | levelkit_text/engine/core.py:1093-1100 | a passing `min` has every flag with a positive threshold set, and raising flag values never makes a passing `min` fail |
| KitRequirements.AllMeansEvery | levelkit_text/engine/core.py:1103-1105 | `all` holds exactly when every dictionary child holds, non-dictionary children skipped |
| KitRequirements.AnyMeansSome | levelkit_text/engine/core.py:1106-1108 | `any` holds exactly when some dictionary child holds |
| KitRequirements.EmptyCombinators | levelkit_text/engine/core.py:1103-1108 | over no dictionary children `all` holds and `any` fails |
| KitRequirements.Defaults | levelkit_text/engine/core.py:1086-1109 | a dictionary with no recognised key passes; a value that is not a dictionary fails |
| KitRequirements.AnyFailsIffAllOfNegations | levelkit_text/engine/core.py:1089-1108 | over non-negative flags, `any` of flag leaves fails exactly when `all` of the matching not_flag leaves holds |
| KitRequirements.OptionAvailableMeans | levelkit_text/engine/core.py:1058-1068 | an option is offered exactly when its requires_flag is unset or positive, its requires_not_flag is unset or not positive, and its require_expr is absent, not a dictionary, or holds |
| KitRequirements.RequiresFlagIsFlagTree | levelkit_text/engine/core.py:1058-1061 | a requires_flag gate decides exactly as the tree `{flag: F}` does |
| KitRules.SetFlag | levelkit_text/engine/core.py:1073-1079 | afterwards the flag holds the value, and the call reports a change exactly when the flag was absent or held another value |
| KitRules.ClearFlag | levelkit_text/engine/core.py:1081-1084 | the flag and its timer are gone, every other flag and timer is kept with its value, and the call reports whether the flag was set |
| KitRules.Surviving | levelkit_text/engine/core.py:1113-1121 | only flags with a timer can keep one |
| KitRules.TickStep | levelkit_text/engine/core.py:1111-1122 | a timer above 1 loses exactly one; a timer at 1 or below removes the flag and the timer; untimed flags keep their values; remaining timers stay positive; only flags that were set are reported as faded |
| KitRules.TimedFlagLifetime | levelkit_text/engine/core.py:1111-1122 | a flag timed for n rooms keeps its value and a timer of n - k for the first k < n moves, and is gone, with its timer, from the n-th move on |
| KitRules.AbsentStaysAbsent | levelkit_text/engine/core.py:1111-1122 | ticking never brings back a flag or a timer |
| KitRules.AddAllPositive | levelkit_text/engine/core.py:1388-1400 | gaining items keeps every inventory count positive |
| KitRules.ConsumeInventoryMeans | levelkit_text/engine/core.py:1004-1013 | a non-positive amount changes nothing; otherwise the count drops by the amount, floored at 0, an item that runs out leaves the inventory, other items are untouched, and every count stays positive |
| KitRules.WeaponSlot | levelkit_text/engine/core.py:994-996 | the slot is "ranged" exactly when the weapon type lower-cases to "ranged", "melee" otherwise |
| KitRules.WeaponEffectsShift | levelkit_text/engine/core.py:985-992 | applying effects moves each stat by the sum of its deltas, removing them by minus that sum |
| KitRules.StatsExtensional | levelkit_text/engine/core.py:985-992 | two stat blocks that agree on every stat name are equal |
| KitRules.WeaponEffectsRoundTrip | levelkit_text/engine/core.py:985-992 | removing a weapon's effects undoes applying them |
| KitRules.EquipSlots | levelkit_text/engine/core.py:951-974 | the weapon ends in its slot and no other slot changes; the call is refused, changing nothing, exactly when the weapon is already in that slot |
| KitRules.EquipTwice | levelkit_text/engine/core.py:951-961 | equipping the same weapon again is refused |
| KitRules.EquipShift | levelkit_text/engine/core.py:951-992 | after a swap every stat is shifted by the new weapon's deltas minus those of the weapon it replaced |
| KitRules.EquipUnequipRoundTrip | levelkit_text/engine/core.py:951-983 | equipping into an empty slot and unequipping it again restores the stats, leaving the slot empty |
| KitRules.RegenMeans | levelkit_text/engine/core.py:1405-1414 | the reserve stays in [0, 1); reserve plus points moved grows by exactly the rate; whole points go to mana capped at max_mana; a non-positive rate or no whole point leaves mana unchanged |
| KitRules.RegenQuarterRate | levelkit_text/game/defaults.py:51 | at the shipped 0.25 per room mana stays put for three rooms and gains one point on the fourth, emptying the reserve |
| KitRules.RepeatKey | levelkit_text/engine/core.py:1124-1129 | the explicit key when set, else the room id (or "room"), a colon and the slug of the label; never empty |
| KitRules.SlugFacts | levelkit_text/engine/core.py:1127 | the slug contains no spaces and two labels equal after trimming and lower-casing get the same slug |
| KitRules.SeparatorLabelKey | levelkit_text/engine/core.py:1124-1129 | `strip()` removes every character Python counts as whitespace, including U+001C to U+001F: the label "\x1cFight " in room "hall" is counted under "hall:fight" |
| KitRules.SlugIgnoresCase | levelkit_text/engine/core.py:1127 | lower-casing a label first does not change its slug |
| KitRules.StripLowerCommute | levelkit_text/engine/core.py:1127 | trimming and lower-casing commute |
| KitLoot.AttemptFrom | levelkit_text/engine/core.py:1605-1619 | one scan of the table awards at most one entry, an index of the table at or after the scan's start, and never goes back in the sequence of random draws |
| KitLoot.EmptyTable | levelkit_text/engine/core.py:1600-1601 | an empty table awards nothing and draws nothing |
| KitLoot.AttemptSound | levelkit_text/engine/core.py:1605-1619 | an awarded entry names an item, passed its chance test on the attempt's last draw, and, when unique, was not awarded before and is remembered now; unique keys only accumulate, and nothing else is added |
| KitLoot.AttemptsLength | levelkit_text/engine/core.py:1604-1619 | each attempt awards at most one item |
| KitLoot.RollLength | levelkit_text/engine/core.py:1599-1620 | a roll awards at most max(1, rolls) items |
| KitLoot.AttemptsUniqueOnce | levelkit_text/engine/core.py:1604-1619 | across attempts every awarded index is in the table, and the unique keys awarded are pairwise distinct, new before and remembered after |
| KitLoot.RollUniqueOnce | levelkit_text/engine/core.py:1599-1620 | a roll awards each unique key at most once and never one awarded before |
| KitLoot.GuaranteedEntry | levelkit_text/engine/core.py:1606-1619 | an entry with an item, chance of 1 or more and no uniqueness is awarded as soon as the scan reaches it, without a draw |
| KitBattle.ActionAvailableMeans | levelkit_text/engine/core.py:1184-1203 | an action is available exactly when its weapon-slot requirement (and weapon id within that slot, or anywhere when no slot is named) is met and at least max(0, ammo_cost) ammunition is carried |
| KitBattle.EquipUnlocks | levelkit_text/engine/core.py:951-974 | after equipping an item, every ammunition-free action that asks for that item's slot, and for that item or no particular one, becomes available |
| KitBattle.MenuFrom | levelkit_text/engine/core.py:1211-1218 | every entry built from the actions at or after a position is an action entry pointing into that range |
| KitBattle.MenuFromSound | levelkit_text/engine/core.py:1211-1218 | every menu entry is an action that is available or marked to be shown, enabled exactly when available |
| KitBattle.MenuFromComplete | levelkit_text/engine/core.py:1211-1218 | every action that is available or marked to be shown gets its entry |
| KitBattle.MenuFromOrdered | levelkit_text/engine/core.py:1211-1218 | menu entries keep the declaration order of the actions |
| KitBattle.BattleMenuMeans | levelkit_text/engine/core.py:1205-1221 | the battle menu lists exactly the available actions plus the unavailable ones marked to be shown (disabled), in declaration order; "Endure" appears exactly when no action is listed, and then alone |
| KitBattle.TakeDamage | levelkit_text/engine/core.py:1353-1354 | damage touches only hit points, never below 0, and non-negative damage lowers them by the amount down to 0 |
| KitBattle.Heal | levelkit_text/engine/core.py:1356-1357 | healing touches only hit points, never above max_hp, and a non-negative heal never lowers them |
| KitBattle.DamageHealKeepRange | levelkit_text/engine/core.py:1353-1357 | non-negative damage and healing keep hit points within [0, max_hp] |
| KitBattle.PlayerDamage | levelkit_text/engine/core.py:1331-1342 | computing the player's damage uses exactly one integer roll and changes nothing else in the state but the draw counter |
| KitBattle.PlayerDamageMeans | levelkit_text/engine/core.py:1331-1342 | the damage is attack + bonus + a roll in [0, max(0, variance + DAMAGE_VARIANCE)], floored at 0, less the enemy's defence, floored at 0 again (so a negative defence adds to the floored sum), bounded by the same expression at roll 0 and at the highest roll; it is multiplied by CRIT_MULTIPLIER and truncated exactly on a critical draw, which only a positive CRIT_CHANCE makes |
| KitBattle.EnemyAttack | levelkit_text/engine/core.py:1344-1351 | the enemy's attack uses one integer roll and changes nothing but the player's hit points |
| KitBattle.EnemyAttackMeans | levelkit_text/engine/core.py:1344-1351 | the player loses max(0, attack + roll - defence) hit points, floored at 0, with the roll in [0, max(0, DAMAGE_VARIANCE)] (2 when unset) |
| KitBattle.StartBattleMeans | levelkit_text/engine/core.py:1159-1174 | starting a battle consumes the `enemy_stunned` flag and opens the battle with the enemy at max(0, hp - 4 x stunned turns), leaving timers, stats and inventory alone |
| KitBattle.Reward | levelkit_text/engine/core.py:1359-1366 | a victory's rewards add XP_PER_VICTORY experience and change only the inventory, the unique-loot record and the draw counter besides |
| KitBattle.TableLoot | levelkit_text/engine/core.py:1364-1366 | loot-table rewards change only the inventory, the unique-loot record and the draw counter |
| KitBattle.VictoryMeans | levelkit_text/engine/core.py:1359-1375 | a victory grants XP_PER_VICTORY experience and at least the enemy's loot, counts one more win under the repeat key and no other, ends the battle and leads to the battle's, the option's or the current room, leaving flags, timers and weapon slots alone |
| KitBattle.DefeatMeans | levelkit_text/engine/core.py:1377-1386 | a defeat restores full health, ends the battle and leads to the battle's defeat room, else DEFEAT_ROOM_ID, else START_ROOM_ID; nothing else changes |
| KitBattle.SetEnemyHp | levelkit_text/engine/core.py:1285 | writing the enemy's hit points leaves the battle running with the new value |
| KitBattle.Strike | levelkit_text/engine/core.py:1283-1285 | a landed attack keeps the battle running and changes only the draw counters and the enemy's hit points |
| KitBattle.SkillMove | levelkit_text/engine/core.py:1287-1302 | a skill check changes only the player's stats and the enemy's hit points |
| KitBattle.Move | levelkit_text/engine/core.py:1283-1314 | the player's move keeps the same battle running, and there is no move exactly when a cast lacks the mana |
| KitBattle.AmmoCost | levelkit_text/engine/core.py:1254-1256 | the ammunition an action spends is never negative |
| KitBattle.HitRoll | levelkit_text/engine/core.py:1269-1272 | the hit roll changes nothing but the draw counter |
| KitBattle.EnemyTurnOutcome | levelkit_text/engine/core.py:1321-1325 | the enemy's turn either leaves the battle untouched with the player standing, or ends it in defeat |
| KitBattle.VictoryEnds | levelkit_text/engine/core.py:1359-1375 | a victory ends the battle, leads to the victory room and adds XP_PER_VICTORY experience |
| KitBattle.FinishOutcome | levelkit_text/engine/core.py:1316-1325 | the end of a turn whose move only lowered the enemy's hit points is a legal turn outcome |
| KitBattle.PlayerDamageNonNegative | levelkit_text/engine/core.py:1331-1342 | the player's damage is never negative while CRIT_MULTIPLIER is non-negative |
| KitBattle.StrikeOutcome | levelkit_text/engine/core.py:1283-1285 | with a non-negative CRIT_MULTIPLIER, a landed attack or cast only lowers the enemy's hit points and keeps them non-negative |
| KitBattle.SkillMoveOutcome | levelkit_text/engine/core.py:1287-1296 | a skill check never heals the enemy while its success damage is non-negative |
| KitBattle.SkillMoveHp | levelkit_text/engine/core.py:1287-1302 | a skill check with non-negative heals and self-damage keeps hit points in [0, max_hp] and max_hp unchanged |
| KitBattle.MoveOutcome | levelkit_text/engine/core.py:1283-1314 | for a non-negative success_damage and CRIT_MULTIPLIER, the player's move keeps the same encounter with the enemy no healthier |
| KitBattle.PerformOutcome | levelkit_text/engine/core.py:1283-1325 | for a non-negative success_damage and CRIT_MULTIPLIER, the move followed by victory or the enemy's turn is a legal turn outcome |
| KitBattle.ResolveOutcome | levelkit_text/engine/core.py:1236-1329 | every turn either keeps the same battle going with the enemy no healthier, or ends it by victory (leading to the victory room) or by defeat (at full health, leading to the defeat room) |
| KitBattle.HitOutcome | levelkit_text/engine/core.py:1269-1325 | for a non-negative success_damage and CRIT_MULTIPLIER, a hit roll followed by the move, or a miss followed by the enemy's turn, is a legal turn outcome |
| KitBattle.TransferOutcome | levelkit_text/engine/core.py:1267 | spending ammunition or draws before the move does not change which outcomes a turn may have |
| KitBattle.EnemyTurnHp | levelkit_text/engine/core.py:1321-1325 | the enemy's turn keeps hit points in [0, max_hp] |
| KitBattle.FinishHp | levelkit_text/engine/core.py:1316-1325 | the end of a turn keeps hit points in [0, max_hp] |
| KitBattle.VictoryStats | levelkit_text/engine/core.py:1359-1375 | a victory changes no stat but experience |
| KitBattle.MoveHp | levelkit_text/engine/core.py:1283-1314 | for actions whose heals and failure damage are non-negative, the player's move keeps hit points in range and max_hp unchanged |
| KitBattle.PerformHp | levelkit_text/engine/core.py:1283-1325 | for actions whose heals and failure damage are non-negative, the move and what follows keep hit points in range |
| KitBattle.HitHp | levelkit_text/engine/core.py:1269-1325 | for actions whose heals and failure damage are non-negative, a hit or a miss and what follows keep hit points in range |
| KitBattle.ResolveKeepsHpInRange | levelkit_text/engine/core.py:1236-1329 | hit points stay within [0, max_hp], and max_hp is untouched, through any turn whose action heals and hurts the player by non-negative amounts |
| KitBattle.PassTurnKeepsHpInRange | levelkit_text/engine/core.py:1223-1234 | enduring keeps hit points within [0, max_hp] |
| KitBattle.NoBattleNoTurn | levelkit_text/engine/core.py:1237-1238 | with no battle running, choosing an action or enduring changes nothing |
| KitBattle.BlockedActionCostsTurn | levelkit_text/engine/core.py:1242-1252 | a refused action costs the turn exactly as enduring does |
| KitBattle.CastWithoutMana | levelkit_text/engine/core.py:1254-1308 | an unblocked cast whose ammunition is held but whose mana falls short spends the ammunition and one draw when the hit chance is below 1; a miss gives the enemy's turn, and a passed roll ends the turn with nothing else changed: stats, mana and enemy hit points as before, no counter-attack |
| KitBattle.SureCastWithoutMana | levelkit_text/engine/core.py:1254-1308 | a sure-hit cast with no ammunition item and too little mana leaves the whole state unchanged |
| KitBattle.LethalFailure | levelkit_text/engine/core.py:1297-1325 | a failed skill check whose damage reaches the player's hit points ends the battle in defeat at full health, bound for the defeat room |
| KitBattle.AmmoRecheckUnreachable | levelkit_text/engine/core.py:1198-1202 | the ammunition re-check of `_resolve_battle_action` (1256-1266) cannot fire: an available action already has its ammunition |
| KitBattle.EnemyTurnFrame | levelkit_text/engine/core.py:1344-1351 | the enemy's turn keeps flags, alert level, reserve, weapon slots and room |
| KitBattle.VictoryFrame | levelkit_text/engine/core.py:1359-1375 | a victory keeps flags, alert level, reserve, weapon slots and room, and all inventory counts positive |
| KitBattle.FinishFrame | levelkit_text/engine/core.py:1316-1325 | the end of a turn keeps the same frame |
| KitBattle.MoveFrame | levelkit_text/engine/core.py:1283-1314 | the player's move touches only stats, counters and the enemy's hit points |
| KitBattle.PerformFrame | levelkit_text/engine/core.py:1283-1325 | the move and what follows keep the same frame |
| KitBattle.HitFrame | levelkit_text/engine/core.py:1269-1325 | a hit roll and what follows keep the same frame |
| KitBattle.ResolveFramed | levelkit_text/engine/core.py:1223-1329 | a turn, or enduring one, keeps flags, alert level, reserve, weapon slots and room, and every inventory count positive: the game invariant survives battle |
| KitWorld.GoToMeans | levelkit_text/engine/core.py:1018-1044 | a move to a missing room changes nothing; a move to an existing room enters it and ends any battle, changing no inventory, slot, alert level, counter or stat but mana; the first room costs nothing, any later move counts every timer down one room (dropping the flags whose timer runs out, keeping untimed flags) and only raises mana, up to its cap |
| KitWorld.JourneyTicks | levelkit_text/engine/core.py:1024-1025 | through existing rooms, the flags after k moves are exactly k ticks of the flags before |
| KitWorld.TimedFlagAcrossRooms | levelkit_text/engine/core.py:1111-1122 | a flag set for n rooms keeps its value through the next n - 1 rooms entered and is gone in the n-th |
| KitWorld.Continue | levelkit_text/engine/core.py:1583-1597 | taking the pending transition always clears it |
| KitWorld.AvailableFrom | levelkit_text/engine/core.py:1046-1056 | the listed indices are exactly the available options from a position on, in increasing order |
| KitWorld.RoomMenu | levelkit_text/engine/core.py:1038-1041 | the room menu is the available options in order, or the lone "Catch your breath." when there are none |
| KitWorld.RoomMenuLists | levelkit_text/engine/core.py:1046-1056 | an option is in the room menu exactly when it is available |
| KitWorld.RoomMenuIdle | levelkit_text/engine/core.py:1039-1040 | the idle choice is offered exactly when no option is available |
| KitWorld.RoomMenuOrdered | levelkit_text/engine/core.py:1048-1055 | the room menu keeps the room's order and lists each option once |
| KitWorld.EquipTargets | levelkit_text/engine/core.py:1470-1487 | the `equip_item` step changes only stats and weapon slots |
| KitWorld.Acquire | levelkit_text/engine/core.py:1450-1487 | the gains, `set_flag` and `equip_item` change only stats, slots, inventory, unique loot and draws, and the flags by raising `set_flag` to 1; stats change only through equipping |
| KitWorld.RaiseAll | levelkit_text/engine/core.py:1500-1505 | every flag of `inc` goes up by its amount from 0 when unset; every other flag is kept |
| KitWorld.Stamp | levelkit_text/engine/core.py:1498-1499 | every flag of `set` gets the timer; every other timer is kept |
| KitWorld.FlagMaps | levelkit_text/engine/core.py:1488-1505 | the `set` and `inc` maps change only flags and timers, and without `timer_rooms` no timer |
| KitWorld.FlagMapsValues | levelkit_text/engine/core.py:1493-1505 | each flag ends with its `set` value plus its `inc` amount (from its old value or 0 when not in `set`) |
| KitWorld.FlagMapsSet | levelkit_text/engine/core.py:1493-1497 | a flag of `set` not in `inc` ends with its `set` value |
| KitWorld.FlagMapsKeep | levelkit_text/engine/core.py:1493-1505 | a flag in neither map keeps its presence and value |
| KitWorld.FlagMapsTimers | levelkit_text/engine/core.py:1488-1499 | every flag of `set` gets the positive timer, other timers stay, and no timer drops below 1 |
| KitWorld.Alarm | levelkit_text/engine/core.py:1513-1518 | an alert change touches only the alert level and never takes it below 0 |
| KitWorld.Risk | levelkit_text/engine/core.py:1506-1547 | `energy_cost`, `alert`, `enemy_stunned` and `roll_check` change only stamina, alert, the stun flag and the draw counter; the roll check fails exactly when its draw exceeds the clamped pass chance, and then the pending hit-point change is the sum of the roll check's and the option's `hp_delta_on_fail` |
| KitWorld.Strain | levelkit_text/engine/core.py:1506-1522 | stamina, the alert level by `alert`, and the stun flag when given, and nothing else |
| KitWorld.Check | levelkit_text/engine/core.py:1523-1547 | without a check nothing changes; with one it draws once, fails exactly above the clamped pass chance, applies `on_fail_alert` only on failure and leaves the summed hit-point change pending |
| KitWorld.Wound | levelkit_text/engine/core.py:1557-1558 | a non-zero hit-point change lands clamped to [0, max_hp]; zero changes nothing |
| KitWorld.Fail | levelkit_text/engine/core.py:1553-1559 | a failed check's consequences touch only alert (never below 0) and hit points |
| KitWorld.Settle | levelkit_text/engine/core.py:1548-1559 | `clear_flag` removes its flag; without a failure alert and stats are untouched, with one hit points take the clamped change and stay in range |
| KitWorld.Unflag | levelkit_text/engine/core.py:1548-1550 | clearing a flag touches only flags and timers |
| KitWorld.Time | levelkit_text/engine/core.py:1551-1552 | the timer of `set_flag` touches only timers |
| KitWorld.SettleTimers | levelkit_text/engine/core.py:1548-1552 | the cleared flag has no timer unless `set_flag` names it with a timer, `set_flag` gets the option's timer, and every other timer stays |
| KitWorld.EquipKeepsSlots | levelkit_text/engine/core.py:951-983 | equipping keeps exactly the two weapon slots |
| KitWorld.EquipTargetsKeepSlots | levelkit_text/engine/core.py:1478-1487 | the `equip_item` loop keeps exactly the two weapon slots |
| KitWorld.AcquireCounts | levelkit_text/engine/core.py:1450-1458 | each item's count grows by its occurrences in `gain_items` plus those the loot table awards, and nothing else changes count |
| KitWorld.AcquireKeepsInv | levelkit_text/engine/core.py:1450-1487 | the gains keep the game invariant |
| KitWorld.EffectsKeepInv | levelkit_text/engine/core.py:1443-1566 | option effects keep the game invariant |
| KitWorld.ClearFlagWins | levelkit_text/engine/core.py:1548-1552 | the cleared flag is unset afterwards, with no timer unless `set_flag` names it with a timer |
| KitWorld.TimedSetFlags | levelkit_text/engine/core.py:1498-1499 | with a timer, every flag of `set` (bar a cleared one) gets that many rooms to live |
| KitWorld.SetFlagsHold | levelkit_text/engine/core.py:1493-1497 | a flag of `set` (bar a cleared one) holds its value unless `inc` or the stun also write it |
| KitWorld.TailFlags | levelkit_text/engine/core.py:1506-1552 | after the maps, a flag that is neither the stun flag being written nor the cleared flag keeps its value |
| KitWorld.SetFlagRaised | levelkit_text/engine/core.py:1465-1466 | `set_flag` is raised to 1 unless a later step writes it |
| KitWorld.SetFlagTimed | levelkit_text/engine/core.py:1551-1552 | `set_flag` carries the option's timer when there is one |
| KitWorld.NoCheckNoRisk | levelkit_text/engine/core.py:1523-1559 | without a roll check nothing is drawn, the fail effects do nothing, and hit points are those the equipped weapons leave |
| KitWorld.NoCheckAlert | levelkit_text/engine/core.py:1513-1518 | without a roll check only `alert` moves the alert level |
| KitWorld.AlarmLevel | levelkit_text/engine/core.py:1517 | the alert level after a change depends on the alert level alone |
| KitWorld.FailedCheckCosts | levelkit_text/engine/core.py:1538-1559 | a failed check moves hit points by the summed `hp_delta_on_fail`, clamped to [0, max_hp]; a passed one leaves them and the alert to the other effects |
| KitWorld.EffectsKeepHpInRange | levelkit_text/engine/core.py:1443-1566 | option effects that equip nothing keep hit points within [0, max_hp] |
| KitWorld.EffectsKeepPlace | levelkit_text/engine/core.py:1443-1566 | option effects never change the room, the battle or the win counters |
| KitWorld.BattleOptionMeans | levelkit_text/engine/core.py:1131-1148 | outside battle a battle option starts that battle exactly when it exists and its wins are below the repeat limit; the encounter remembers the option's destination and repeat key |
| KitWorld.RepeatLimitHolds | levelkit_text/engine/core.py:1136-1142 | once the wins reach a positive repeat limit, choosing the option again starts no battle and goes nowhere |
| KitWorld.DestinationOptionMeans | levelkit_text/engine/core.py:1149-1151 | a plain option leads to its destination when that room exists and stays put otherwise |
| KitWorld.HandleKeepsInv | levelkit_text/engine/core.py:1131-1157 | choosing an option and taking the pending room keep the game invariant |
| KitWorld.FollowKeepsInv | levelkit_text/engine/core.py:1134-1151 | what follows the effects keeps the game invariant |
| KitWorld.GoToKeepsInv | levelkit_text/engine/core.py:1018-1044 | moving keeps the game invariant |
| KitWorld.ItemEffectsKeepHpInRange | levelkit_text/engine/core.py:936-942 | item effects that leave max_hp alone keep hit points in [0, max_hp] |
| KitWorld.PotionHeals | levelkit_text/engine/core.py:936-942 | a single healing effect restores that many hit points, never past max_hp |
| KitWorld.UseItemMeans | levelkit_text/engine/core.py:919-949 | an item not held or ammunition does nothing; a weapon goes into its slot; a consumable loses exactly one unit and disappears at zero while every other item keeps its count |
| KitColor.HexDigit | levelkit_text/engine/core.py:26 | a hexadecimal digit's value is below 16 |
| KitColor.Component | levelkit_text/engine/core.py:26-34 | `int(pair, 16)` reads a value in [-15, 255], and two hexadecimal digits as 16 x first + second |
| KitColor.ParseMeans | levelkit_text/engine/core.py:23-36 | a string that is not `#` plus six or eight characters gives the fallback; otherwise `ValueError` is raised exactly when some pair cannot be read, and alpha is 255 in the six-digit form |
| KitColor.DigitsGiveBytes | levelkit_text/engine/core.py:23-36 | with only hexadecimal digits after `#` the colour is read and every component lies in [0, 255] |
| KitColor.DigitChar | levelkit_text/engine/core.py:26 | the digit written for a value below 16 reads back as that value |
| KitColor.ByteHex | levelkit_text/engine/core.py:26 | a byte written as two hexadecimal digits reads back as that byte |
| KitColor.ParseFormat8 | levelkit_text/engine/core.py:25-30 | reading the `#rrggbbaa` form of a colour gives back the colour |
| KitColor.ParseFormat6 | levelkit_text/engine/core.py:31-35 | reading the `#rrggbb` form gives back the colour with alpha 255 |
| KitColor.ParseIgnoresCase | levelkit_text/engine/core.py:23-36 | a colour string reads the same after lower-casing |
| KitColor.SignsAndSpacesRead | levelkit_text/engine/core.py:26-34 | because `int()` accepts a sign or surrounding whitespace, "#-1-1-1" reads as (-1, -1, -1, 255) and "# f f f" as (15, 15, 15, 255) |
| KitApp.GameApp.constructor | levelkit_text/engine/core.py:156-204 | the game starts with the starting stats, nothing held, no flags, both weapon slots empty, in the start room (entered without ticking), and the game invariant holds |
| KitApp.GameApp.Initial | levelkit_text/engine/core.py:156-204 | the state built before the first room satisfies the game invariant: both weapon slots present and no item count below 1 |
| KitApp.GameApp.SetFlag | levelkit_text/engine/core.py:1073-1079 | the flags become those of `KitRules.SetFlag` and the result says whether the value changed |
| KitApp.GameApp.ClearFlag | levelkit_text/engine/core.py:1081-1084 | the flag and its timer are removed as `KitRules.ClearFlag` describes, and the result says whether the flag was set |
| KitApp.GameApp.TickTimedFlags | levelkit_text/engine/core.py:1111-1122 | one pass over a snapshot of the timers leaves exactly the flags and timers of `KitRules.Tick` and returns the flags that faded |
| KitApp.GameApp.ConsumeInventory | levelkit_text/engine/core.py:1004-1013 | the inventory becomes that of `KitRules.ConsumeInventory`: the count drops by the amount and the item goes at zero |
| KitApp.GameApp.CollectLoot | levelkit_text/engine/core.py:1388-1400 | each listed item adds one to its count, as `AddAll` (whose counts `Common.AddAllCounts` states) |
| KitApp.GameApp.ApplyWeaponEffects | levelkit_text/engine/core.py:985-992 | the effect loop leaves the stats of `KitRules.WeaponEffects`: every known stat shifted by its delta, negated on removal |
| KitApp.GameApp.UnequipWeapon | levelkit_text/engine/core.py:976-983 | the slot is emptied and the weapon's effects undone, as `KitRules.Unequip` |
| KitApp.GameApp.EquipWeapon | levelkit_text/engine/core.py:951-974 | the weapon goes into its slot (unequipping the previous one) unless already there, as `KitRules.Equip`; the result says whether it moved |
| KitApp.GameApp.RegenMana | levelkit_text/engine/core.py:1405-1414 | mana and the regeneration reserve become those of `KitRules.Regen` |
| KitApp.GameApp.GoTo | levelkit_text/engine/core.py:1018-1044 | the state becomes `KitWorld.GoTo`'s, whose meaning `KitWorld.GoToMeans` states |
| KitApp.GameApp.Travel | levelkit_text/engine/core.py:1024-1026 | the timers tick and mana regenerates, as `KitWorld.Travel` |
| KitApp.GameApp.ExecutePendingTransition | levelkit_text/engine/core.py:1583-1597 | the pending room is taken and cleared, as `KitWorld.Continue` |
| KitApp.GameApp.AttemptOnce | levelkit_text/engine/core.py:1599-1620 | one attempt picks the entry `KitLoot.Attempt` picks and records the award and the draws it used |
| KitApp.GameApp.RollLootTable | levelkit_text/engine/core.py:1599-1620 | up to max(1, rolls) attempts award exactly the items, unique awards and draws of `KitLoot.Roll` |
| KitApp.GameApp.EquipTargets | levelkit_text/engine/core.py:1470-1487 | the `equip_item` loop leaves the state of `KitWorld.EquipTargets` |
| KitApp.GameApp.Gain | levelkit_text/engine/core.py:1450-1464 | `gain_items` and the option's loot table land in the inventory, as `KitWorld.Gain` |
| KitApp.GameApp.Acquire | levelkit_text/engine/core.py:1450-1487 | the gains, `set_flag` and `equip_item` leave the state of `KitWorld.Acquire` |
| KitApp.GameApp.SetFlagMap | levelkit_text/engine/core.py:1493-1499 | the `set` loop writes every flag's value and, with a timer, its timer; it reports a change exactly when some flag was absent or differed |
| KitApp.GameApp.IncFlagMap | levelkit_text/engine/core.py:1500-1505 | the `inc` loop leaves `KitWorld.RaiseAll` of the flags and reports a change exactly when some flag was absent or its amount non-zero |
| KitApp.GameApp.FlagMaps | levelkit_text/engine/core.py:1488-1505 | the `set` and `inc` loops leave the state of `KitWorld.FlagMaps` |
| KitApp.GameApp.Risk | levelkit_text/engine/core.py:1506-1547 | stamina, alert, stun and roll check leave the state and results of `KitWorld.Risk` |
| KitApp.GameApp.Strain | levelkit_text/engine/core.py:1506-1522 | stamina, alert and stun leave the state of `KitWorld.Strain` |
| KitApp.GameApp.CheckRoll | levelkit_text/engine/core.py:1523-1547 | the roll check leaves the state and results of `KitWorld.Check` |
| KitApp.GameApp.Settle | levelkit_text/engine/core.py:1548-1559 | `clear_flag`, the timer and the failure consequences leave the state of `KitWorld.Settle` |
| KitApp.GameApp.Unflag | levelkit_text/engine/core.py:1548-1550 | `clear_flag` as `KitWorld.Unflag` |
| KitApp.GameApp.TimeFlag | levelkit_text/engine/core.py:1551-1552 | the timer of `set_flag` as `KitWorld.Time` |
| KitApp.GameApp.Fail | levelkit_text/engine/core.py:1553-1559 | the failure consequences as `KitWorld.Fail` |
| KitApp.GameApp.ApplyOptionEffects | levelkit_text/engine/core.py:1443-1566 | the effects leave the state of `KitWorld.ApplyOptionEffects` and report a refresh exactly as `KitWorld.EffectsRefresh` |
| KitApp.GameApp.HandleRoomOption | levelkit_text/engine/core.py:1131-1157 | choosing an option leaves `KitWorld.HandleRoomOption`'s state and keeps the game invariant |
| KitApp.GameApp.FollowOption | levelkit_text/engine/core.py:1134-1157 | the battle or destination after the effects, as `KitWorld.Follow` |
| KitApp.GameApp.StartBattle | levelkit_text/engine/core.py:1159-1182 | the battle opens as `KitBattle.StartBattle` (see `KitBattle.StartBattleMeans`) |
| KitApp.GameApp.TakeDamage | levelkit_text/engine/core.py:1353-1354 | stats become `KitBattle.TakeDamage`'s |
| KitApp.GameApp.HealPlayer | levelkit_text/engine/core.py:1356-1357 | stats become `KitBattle.Heal`'s |
| KitApp.GameApp.CalculatePlayerDamage | levelkit_text/engine/core.py:1331-1342 | the damage and draws are those of `KitBattle.PlayerDamage` against the battle's enemy defence, 0 outside battle |
| KitApp.GameApp.RollCritical | levelkit_text/engine/core.py:1338-1341 | the critical roll as `KitBattle.Critical` |
| KitApp.GameApp.EnemyAttack | levelkit_text/engine/core.py:1344-1351 | the enemy's attack as `KitBattle.EnemyAttack` |
| KitApp.GameApp.Reward | levelkit_text/engine/core.py:1359-1366 | a victory's rewards as `KitBattle.Reward` |
| KitApp.GameApp.Spoils | levelkit_text/engine/core.py:1361-1363 | XP_PER_VICTORY and the enemy's loot, as `KitBattle.Spoils` |
| KitApp.GameApp.TableLoot | levelkit_text/engine/core.py:1364-1366 | the battle's loot table as `KitBattle.TableLoot` |
| KitApp.GameApp.HandleVictory | levelkit_text/engine/core.py:1359-1375 | the state becomes `KitBattle.Victory`'s (see `KitBattle.VictoryMeans`) |
| KitApp.GameApp.HandleDefeat | levelkit_text/engine/core.py:1377-1386 | the state becomes `KitBattle.Defeat`'s (see `KitBattle.DefeatMeans`) |
| KitApp.GameApp.EnemyTurn | levelkit_text/engine/core.py:1321-1325 | the enemy's strike and the defeat check, as `KitBattle.EnemyTurn` |
| KitApp.GameApp.PassTurn | levelkit_text/engine/core.py:1223-1234 | enduring as `KitBattle.PassTurn` |
| KitApp.GameApp.SetEnemyHp | levelkit_text/engine/core.py:1285 | the enemy's hit points take the value, as `KitBattle.SetEnemyHp` |
| KitApp.GameApp.Finish | levelkit_text/engine/core.py:1316-1325 | victory at 0 enemy hit points, otherwise the enemy's turn, as `KitBattle.Finish` |
| KitApp.GameApp.Strike | levelkit_text/engine/core.py:1283-1285 | a landed attack as `KitBattle.Strike` |
| KitApp.GameApp.SkillMove | levelkit_text/engine/core.py:1287-1302 | a skill check as `KitBattle.SkillMove` |
| KitApp.GameApp.Move | levelkit_text/engine/core.py:1283-1314 | the move of the action's kind as `KitBattle.Move`, returning false and changing nothing when a cast lacks the mana |
| KitApp.GameApp.Perform | levelkit_text/engine/core.py:1283-1325 | the move then victory or the enemy's turn, as `KitBattle.Perform` |
| KitApp.GameApp.RollToHit | levelkit_text/engine/core.py:1269-1272 | the hit roll as `KitBattle.HitRoll` |
| KitApp.GameApp.HitThenPerform | levelkit_text/engine/core.py:1269-1325 | the hit roll then the move, as `KitBattle.HitThenPerform` |
| KitApp.GameApp.ResolveBattleAction | levelkit_text/engine/core.py:1236-1329 | a full turn leaves `KitBattle.Resolve`'s state, whose outcomes `KitBattle.ResolveOutcome` states |
| KitApp.GameApp.ApplyItemEffects | levelkit_text/engine/core.py:936-942 | the effect loop leaves `KitWorld.ItemEffects`: every known stat shifted, hit points clamped to [0, max_hp] |
| KitApp.GameApp.UseItem | levelkit_text/engine/core.py:919-949 | using an item leaves `KitWorld.UseItem`'s state and result (see `KitWorld.UseItemMeans`) |
| KitApp.RollAccMeans | levelkit_text/engine/core.py:1599-1620 | the loop's accumulated awards are exactly those `KitLoot.Attempts` describes |
| KitTemplate.GoblinTrialLostUnderAttack4 | levelkit_text/battle_loops/goblin_trial.py:16-27 | below attack 4 "Hold your ground" always loses the goblin trial: the player wakes at full health bound for the recovery chamber, other stats unchanged |
| KitTemplate.GoblinTrialWonFromAttack4 | levelkit_text/battle_loops/goblin_trial.py:16-27 | from attack 4 the goblin trial is won in one move against at most 12 hit points, granting 5 experience and leading to the cleared corridor |
| KitTemplate.OnlyAcquires | levelkit_text/engine/core.py:1443-1566 | an option whose only effects are its gains, `set_flag` and `equip_item` changes nothing the other effect steps govern |
| KitTemplate.ArmoryAsWritten | levelkit_text/levels/armory_room.py:14-21 | the armory option as written adds an item "Wooden Bow" and sets `weapon_taken` but equips nothing and changes no stat |
| KitTemplate.EquipBlade | levelkit_text/game/weapons.py:1-21 | the training blade goes into an empty melee slot and adds 10 attack |
| KitTemplate.ArmoryEquipsBlade | levelkit_text/levels/armory_room.py:14-21 | the intended option gains and equips the training blade in the melee slot, adding 10 attack, and sets `weapon_taken` |
| KitTemplate.BladeTakenOnce | levelkit_text/levels/armory_room.py:17-18 | the blade option is offered until taken and hidden afterwards |
| TaModels.WithStat | text_adventure/engine/core.py:424-428 | setting a known stat gives it the value and keeps every other stat; an unknown name changes nothing |
| TaModels.DieRoll | text_adventure/engine/core.py:327 | `random.randint(0, n)` yields a value in [0, n] |
| TaRules.RegenMana | text_adventure/engine/core.py:222-225 | only mana changes; it rises, with no cap, exactly when MANA_PER_ROOM is positive |
| TaRules.GoTo | text_adventure/engine/core.py:227-248 | an unknown room changes nothing; a known one becomes current and ends any battle, with mana regenerated unless it is the first room and nothing else changed |
| TaRules.StartBattle | text_adventure/engine/core.py:263-271 | a battle opens with the enemy at full hit points, remembering the option's destination, and nothing else changes |
| TaRules.HandleRoomOption | text_adventure/engine/core.py:250-261 | choosing an option never changes inventory, flags, hit points or experience, and either changes nothing, starts its battle or moves to its destination |
| TaRules.TakeDamage | text_adventure/engine/core.py:346-347 | only hit points change, never below 0, and non-negative damage never raises them |
| TaRules.HealPlayer | text_adventure/engine/core.py:349-350 | only hit points change, never above max_hp, and a non-negative heal never lowers them |
| TaRules.BaseDamage | text_adventure/engine/core.py:325-330 | the damage before a critical hit is never negative |
| TaRules.PlayerDamage | text_adventure/engine/core.py:325-335 | without a critical hit the damage is the base damage; with CRIT_MULTIPLIER at least 1 it is never less |
| TaRules.CritNotWeakerWhen | text_adventure/engine/core.py:331-334 | a critical multiplier of at least 1 never lowers the damage |
| TaRules.PlayerDamageRange | text_adventure/engine/core.py:325-330 | without a critical hit the damage lies between the plain hit with roll 0 and the one with the highest roll, each floored at 0 before and after the enemy's defence is taken off, whatever the sign of that defence |
| TaRules.PlayerDamageMonotone | text_adventure/engine/core.py:325-335 | with a non-negative CRIT_MULTIPLIER, a player with at least the attack never does less damage with the same dice |
| TaRules.EnemyDamage | text_adventure/engine/core.py:337-340 | the enemy's damage is never negative, at least attack minus defence and at most attack plus max(0, DAMAGE_VARIANCE) |
| TaRules.EnemyAttack | text_adventure/engine/core.py:337-344 | only hit points change, down by the enemy's damage and never below 0 |
| TaRules.Move | text_adventure/engine/core.py:279-310 | there is no move exactly when a cast lacks the mana; otherwise the move keeps the battle and touches only stats and the enemy's hit points |
| TaRules.HandleVictory | text_adventure/engine/core.py:352-366 | a victory always ends the battle, and with no battle changes nothing |
| TaRules.HandleDefeat | text_adventure/engine/core.py:368-378 | a defeat restores full hit points, ends the battle and schedules the move to the defeat room; with no battle it changes nothing |
| TaRules.ResolveBattleAction | text_adventure/engine/core.py:273-323 | a turn never changes the room or the flags, and with no battle changes nothing |
| TaRules.CastWithoutMana | text_adventure/engine/core.py:299-304 | a cast without enough mana changes nothing |
| TaRules.CastSpends | text_adventure/engine/core.py:305 | a cast that can be paid for costs exactly its mana |
| TaRules.BattleEnds | text_adventure/engine/core.py:312-321 | the battle ends exactly when the move brings the enemy to 0 or the enemy's attack then brings the player to 0 |
| TaRules.VictoryBeforeCounterAttack | text_adventure/engine/core.py:312-315 | a move that brings the enemy to 0 wins before the enemy strikes |
| TaRules.VictoryMeans | text_adventure/engine/core.py:352-386 | a victory adds XP_PER_VICTORY experience, each loot entry once more to the inventory and nothing else, and schedules the victory room |
| TaRules.SkillCheckOutcome | text_adventure/engine/core.py:283-298 | for non-negative success_heal and success_damage, a passed skill check never hurts the player and a failed one never touches the enemy |
| TaRules.ResolveKeepsHealthy | text_adventure/engine/core.py:273-323 | with non-negative damage and heals, a turn keeps hit points within [0, max_hp] |
| TaRules.RunScheduled | text_adventure/engine/core.py:366 | the scheduled move is consumed, entering the scheduled room when it exists |
| TaRules.EffectsAdd | text_adventure/engine/core.py:423-428 | every stat but hit points moves by exactly the sum of its deltas |
| TaRules.EffectsKeepHealthy | text_adventure/engine/core.py:423-428 | effects that leave max_hp alone keep hit points within [0, max_hp] |
| TaRules.UseItem | text_adventure/engine/core.py:415-432 | an item is used exactly when it is carried and has a definition; then its effects apply and its count drops by one, otherwise nothing changes |
| TaRules.PotionHeals | text_adventure/engine/core.py:12-18 | the small potion restores 5 hit points up to max_hp and changes no other stat |
| TaApp.GameApp.constructor | text_adventure/engine/core.py:28-133 | a new game has STARTING_STATS, nothing carried, no flags, and enters START_ROOM_ID as a first room |
| TaApp.GameApp.RegenMana | text_adventure/engine/core.py:222-225 | stats become `TaRules.RegenMana`'s |
| TaApp.GameApp.GoTo | text_adventure/engine/core.py:227-248 | the state becomes `TaRules.GoTo`'s |
| TaApp.GameApp.HandleRoomOption | text_adventure/engine/core.py:250-261 | the state becomes `TaRules.HandleRoomOption`'s |
| TaApp.GameApp.StartBattle | text_adventure/engine/core.py:263-271 | the state becomes `TaRules.StartBattle`'s |
| TaApp.GameApp.CalculatePlayerDamage | text_adventure/engine/core.py:325-335 | the damage is `TaRules.PlayerDamage`'s for the dice given, and nothing changes |
| TaApp.GameApp.EnemyAttack | text_adventure/engine/core.py:337-344 | stats become `TaRules.EnemyAttack`'s |
| TaApp.GameApp.TakeDamage | text_adventure/engine/core.py:346-347 | stats become `TaRules.TakeDamage`'s |
| TaApp.GameApp.HealPlayer | text_adventure/engine/core.py:349-350 | stats become `TaRules.HealPlayer`'s |
| TaApp.GameApp.HitEnemy | text_adventure/engine/core.py:281 | the enemy's hit points drop by the damage, floored at 0 |
| TaApp.GameApp.PlayerMove | text_adventure/engine/core.py:279-310 | the move of `TaRules.Move`, returning false with nothing changed for a cast without mana |
| TaApp.GameApp.ResolveBattleAction | text_adventure/engine/core.py:273-323 | the state becomes `TaRules.ResolveBattleAction`'s |
| TaApp.GameApp.HandleVictory | text_adventure/engine/core.py:352-366 | the state becomes `TaRules.HandleVictory`'s |
| TaApp.GameApp.HandleDefeat | text_adventure/engine/core.py:368-378 | the state becomes `TaRules.HandleDefeat`'s |
| TaApp.GameApp.CollectLoot | text_adventure/engine/core.py:380-386 | each listed item adds one to its count |
| TaApp.GameApp.RunScheduled | text_adventure/engine/core.py:366 | the state becomes `TaRules.RunScheduled`'s |
| TaApp.GameApp.UseItem | text_adventure/engine/core.py:415-432 | state and result become `TaRules.UseItem`'s over DEFAULT_ITEM_EFFECTS |
| TaValidator.AssetsVerdict | text_adventure/engine/validator.py:8-14 | the asset verdict is success or a missing background or music |
| TaValidator.AssetsVerdictMeans | text_adventure/engine/validator.py:8-14 | the asset check passes exactly when no room has a problem, and a failure reports one room's problem |
| TaValidator.AssetsOk | text_adventure/engine/validator.py:8-14 | the asset check passes exactly when every background and music key a room names is registered |
| TaValidator.ValidateAssets | text_adventure/engine/validator.py:8-14 | the loop over the rooms returns exactly the verdict of `AssetsVerdict` |
| TaValidator.OptionEdges | text_adventure/engine/validator.py:30-50 | the rooms one option leads to (its `to`, a battle's victory room or the option's `to`, and the defeat target) or its first problem |
| TaValidator.RoomEdges | text_adventure/engine/validator.py:29-50 | the edges of all of a room's options, or the first option's problem |
| TaValidator.Adjacency | text_adventure/engine/validator.py:26-50 | the adjacency map over the rooms in dictionary order, or the first problem |
| TaValidator.Blank | text_adventure/engine/validator.py:26 | the initial adjacency has every room and no edge |
| TaValidator.AdjacencyEdges | text_adventure/engine/validator.py:26-50 | each room's edges are those of its own options, whatever the dictionary order |
| TaValidator.ReachesSelf | text_adventure/engine/validator.py:53 | the start reaches itself |
| TaValidator.ReachesStep | text_adventure/engine/validator.py:59 | one more edge extends a walk |
| TaValidator.ClosedHoldsWalk | text_adventure/engine/validator.py:52-59 | a set holding the start and closed under the edges holds every room reachable |
| TaValidator.Push | text_adventure/engine/validator.py:59 | after `stack.extend` the stack holds exactly its old entries and the set's elements |
| TaValidator.SkipStep | text_adventure/engine/validator.py:55-57 | popping a visited room keeps the search invariant |
| TaValidator.VisitStep | text_adventure/engine/validator.py:58-59 | visiting a new room keeps the search invariant and leaves fewer rooms to visit |
| TaValidator.Explore | text_adventure/engine/validator.py:52-59 | the depth-first search ends with `visited` exactly the rooms reachable from the start |
| TaValidator.ValidateGraph | text_adventure/engine/validator.py:17-65 | the graph check's loops return exactly the verdict of `GraphVerdict` |
| TaValidator.OptionStep | text_adventure/engine/validator.py:30-50 | one option's checks, in the source's order, add exactly `OptionEdges`'s rooms or fail with its problem |
| TaValidator.GraphOkMeans | text_adventure/engine/validator.py:17-65 | the graph check passes exactly when the start room exists, every option is sound and every room is reachable from the start |
| TaValidator.NoneUnreachable | text_adventure/engine/validator.py:61-63 | no room is left over exactly when every room is reachable |
| TaValidator.SoundAdjacency | text_adventure/engine/validator.py:28-50 | all options are sound exactly when the adjacency map can be built |
| TaValidator.RoomsBuilt | text_adventure/engine/validator.py:28-50 | the adjacency map can be built when every room's options can |
| TaValidator.GraphFailureGenuine | text_adventure/engine/validator.py:28-50 | a graph check stopped by an option reports a problem of some room's option |
| TaValidator.MissingRoomFails | text_adventure/engine/validator.py:30-31 | an option leading to a room that does not exist fails the graph check |
| TaValidator.Validate | text_adventure/engine/validator.py:68-88 | validation returns the asset verdict if it fails, else the graph verdict, else success |
| TaValidator.ValidateMeans | text_adventure/engine/validator.py:68-88 | validation passes exactly when every asset is registered, the start room exists, every option is sound and every room is reachable; asset problems come first |
| TaValidator.LeastExists | text_adventure/engine/validator.py:63 | every non-empty set of room ids has a least element |
| TaValidator.SortedList | text_adventure/engine/validator.py:63 | `sorted(u)` lists exactly the set's elements, each once, in order |
| TaValidator.MissingRoomMessage | text_adventure/engine/validator.py:31 | the missing-room message, lower-cased, contains "missing room" |
| TaContent.StartEdges | text_adventure/levels/start_room.py:1-18 | the gate leads to the hall, the crypt, and through the goblin battle back to the gate |
| TaContent.HallEdges | text_adventure/levels/hall_room.py:1-17 | the hall leads to the hall and the gate |
| TaContent.CryptEdges | text_adventure/levels/crypt_room.py:1-16 | the crypt leads back to the gate |
| TaContent.ShippedEdges | text_adventure/engine/validator.py:26-50 | the shipped adjacency, in any order, is those three edge sets |
| TaContent.GateReachesAll | text_adventure/engine/validator.py:52-59 | with passages to the hall and the crypt, every shipped room is reachable from the gate |
| TaContent.ShippedReachable | text_adventure/engine/validator.py:52-63 | every shipped room is reachable from the start |
| TaContent.ShippedAssets | text_adventure/engine/validator.py:8-14 | every shipped room's background and music are registered |
| TaContent.ShippedGraph | text_adventure/engine/validator.py:17-65 | the shipped room graph passes, with DEFEAT_ROOM_ID as the fallback |
| TaContent.ShippedValidates | text_adventure/tests/test_validator.py:10-19 | the shipped content passes validation whatever order the rooms are filed in |
| TaContent.FreshStart | text_adventure/game/defaults.py:1-28 | a new game starts at the gate with STARTING_STATS, nothing carried and no battle |
| TaContent.GoblinMoveBound | text_adventure/battle_loops/simple_goblin.py:1-24 | no action against a fresh goblin does more than 7 damage |
| TaContent.GoblinFirstTurn | text_adventure/battle_loops/simple_goblin.py:1-24 | a fresh player survives the goblin's first turn: the goblin keeps at least 3 hit points and the player at least 16 |
| TaContent.OnlyVoidFails | text_adventure/engine/validator.py:30-31 | in the broken table only the option into the void fails |
| TaContent.BrokenGraph | text_adventure/engine/validator.py:30-31 | the broken table's graph check reports the option into the missing room, whatever the order |
| TaContent.BrokenAssets | text_adventure/engine/validator.py:8-14 | the broken table's assets are all registered |
| TaContent.BrokenRoomReported | text_adventure/tests/test_validator.py:10-19 | with an option into a missing room validation fails with a message containing "missing room" |

## Left out

- **User interface.** The Qt and Tk widgets, dialogue text, option buttons, theme and font helpers are not modelled. Neither are the inventory panels and dialogs or the fade-transition guard (`_execute_with_transition`, `_on_option`). These only present the state.
- **Scheduled moves.** `_prepare_room_transition` is kept as the `pendingRoom` field. The `root.after` callbacks of text_adventure are kept as the `pending` field, run by `RunScheduled`.
- **Messages.** Dialogue and log lines are left out. The one exception is the validator's report lines, which `TaValidator.Message` renders.
- **Audio and persistence.** Audio calls, `save_game`/`_load_save` and levelkit_text/engine/save.py are file, process and sound I/O.
- **Content loading.** levelkit_text/engine/loader.py and the text_adventure loader are not part of this model. The content they load is a parameter of the model (`World`), and the shipped content is written out as constants.
- **Random sources.**
  - levelkit_text/game/encounters.py is not part of this model.
  - The distribution of `random` is not modelled. Each draw is injected through `Rng` or `Dice`, and `random.randint(0, n)` is an injected integer taken modulo n + 1.
- **Floating point.** Chances, `CRIT_MULTIPLIER`, `MANA_PER_ROOM`, the regeneration reserve and `XP_GROWTH_FACTOR` are exact `real`s. IEEE rounding is not modelled.
- **Unicode.** Lower-casing is modelled for ASCII letters only; Python also folds other scripts. Whitespace for `strip()` and `int()` is Python's full `str.isspace()` set, but `int()`'s acceptance of non-ASCII digits is not modelled.
- **Dynamic types.** Python's loosely typed dictionaries and attributes are modelled by datatypes.
  - A key holding a value of the wrong type is the same as an absent key (the source's `isinstance` tests).
  - `int()` of a non-numeric value, which would raise, is not modelled.
  - `_parse_hex_color` on a value that is not a string returns the fallback; the model takes strings only.
- **Optional values.** An optional string is "" for None. The engines only test such strings for truthiness, so the two behave alike.
- **Item and colour helpers.**
  - levelkit_text/game/items.py is not part of this model. `ITEM_DEFINITIONS` is a parameter, and the template uses the weapon table alone.
  - `_item_name` and `_rgba_stylesheet` only build display text and are not modelled.
- **text_adventure inventory dialog.** `open_inventory` (text_adventure/engine/core.py:388-413) is UI. It also deletes an item whose count reaches 0 after use, so `TaRules.UseItem` leaves a zero count in place, as `_use_item` alone does.
- **Set iteration order.** `TaValidator.Push` adds a set's elements in an unspecified order, as Python's set iteration does. The search result does not depend on that order.
- `KitWorld.FailAlert`: when `alert_on_fail` holds a truthy value that is not a number, the source's `or` picks it and then ignores it. The model falls through to `on_fail_alert` instead, because a wrong-typed value is the same as an absent one in `Effects`.
- `KitBattle.ResolveOutcome`: proved only for actions whose `success_damage` is non-negative, with a non-negative `CRIT_MULTIPLIER`. A negative value would heal the enemy, and the source does not exclude it.
- `KitBattle.ResolveKeepsHpInRange`: proved only for actions whose heals and failure damage are non-negative, for the same reason.
- `TaRules.ResolveKeepsHealthy`: proved only for actions whose failure damage and heals are non-negative, for the same reason.
- `KitBattle.StrikeOutcome`: proved only with a non-negative `CRIT_MULTIPLIER`. A negative multiplier would make a critical hit heal the enemy, and the source does not exclude it.
- `KitBattle.MoveOutcome`: proved only for a non-negative `success_damage` and `CRIT_MULTIPLIER`, for the same reason as `KitBattle.ResolveOutcome`.
- `KitBattle.PerformOutcome`: proved only for a non-negative `success_damage` and `CRIT_MULTIPLIER`, for the same reason.
- `KitBattle.HitOutcome`: proved only for a non-negative `success_damage` and `CRIT_MULTIPLIER`, for the same reason.
- `KitBattle.MoveHp`: proved only for actions whose heals and failure damage are non-negative. A negative heal can take hit points below 0 through `min(max_hp, hp + amount)`, and the source does not exclude it.
- `KitBattle.PerformHp`: proved only for actions whose heals and failure damage are non-negative, for the same reason.
- `KitBattle.HitHp`: proved only for actions whose heals and failure damage are non-negative, for the same reason.
- `TaRules.PlayerDamageMonotone`: proved only with a non-negative `CRIT_MULTIPLIER`. A negative multiplier reverses the order of two critical hits.
- `TaRules.SkillCheckOutcome`: proved only for a non-negative `success_heal` and `success_damage`. A negative heal would hurt the player on success, and a negative damage would heal the enemy.
- **Room keys.** `TaValidator.RoomTable` assumes each room is filed under its own id, as the loaders build the table. validator.py indexes `adjacency[room.id]`, so a room filed under another key would raise `KeyError` or file its edges under the wrong room. That case is not modelled.
- `KitWorld.EffectsKeepHpInRange`: proved only for options that equip nothing. A weapon's effects may change `max_hp` or `hp` without a clamp, as `_apply_weapon_effects` does.
- **Room bodies and titles.** Room bodies of the shipped content are empty strings, because no decision depends on them.
- **Image and sound registries.** levelkit_text/assets/images/registry.py and the text_adventure registries are parameters, not constants.

## Findings

| source | as written | input that shows it | evidently intended | confidence | as-written member | corrected member |
|---|---|---|---|---|---|---|
| levelkit_text/levels/armory_room.py:14-21 | "Take the training blade" gains an item called "Wooden Bow" and asks to equip "wooden_bow", an id it never gains, so nothing is equipped and attack stays at the starting 1 | choosing the option from a new game, then facing the goblin trial (`stat="attack", gte=4`, levelkit_text/battle_loops/goblin_trial.py:17-24) | the option gains and equips the training blade ("training_sword", +10 attack), so the goblin trial can be won | not executed | KitTemplate.ArmoryAsWritten | KitTemplate.ArmoryEquipsBlade |
