/** The battle rules of levelkit_text's `GameApp` (levelkit_text/engine/core.py):
    which actions are offered, damage and healing, a full turn of
    `_resolve_battle_action`, the Endure fallback, victory and defeat. */
module KitBattle {
  import opened Common
  import opened KitModels
  import opened KitRules
  import opened KitLoot

  // ---------------------------------------------------------------------------
  // Which actions can be taken

  /** Why `_battle_action_available` refuses an action. */
  datatype Block = NeedsWeaponType | NeedsWeapon | OutOfAmmo

  /** `_battle_action_available`: None when the action can be taken. */
  function ActionBlock(eq: map<string, Option<string>>, inv: map<string, int>, a: BattleAction): Option<Block> {
    if a.requiresWeaponType != "" && !Occupied(Equipped(eq, a.requiresWeaponType)) then Some(NeedsWeaponType)
    else if a.requiresWeaponType != "" && a.requiresWeaponId != ""
         && Equipped(eq, a.requiresWeaponType) != Some(a.requiresWeaponId) then Some(NeedsWeapon)
    else if a.requiresWeaponType == "" && a.requiresWeaponId != ""
         && Some(a.requiresWeaponId) !in eq.Values then Some(NeedsWeapon)
    else if a.ammoItem != "" && Get(inv, a.ammoItem) < Max(0, a.ammoCost) then Some(OutOfAmmo)
    else None
  }

  /** An action is available exactly when its weapon requirement is met by
      the slots and enough ammunition is carried. */
  lemma ActionAvailableMeans(eq: map<string, Option<string>>, inv: map<string, int>, a: BattleAction)
    ensures ActionBlock(eq, inv, a).None? <==>
      && (a.requiresWeaponType != "" ==>
            Occupied(Equipped(eq, a.requiresWeaponType))
            && (a.requiresWeaponId != "" ==> Equipped(eq, a.requiresWeaponType) == Some(a.requiresWeaponId)))
      && (a.requiresWeaponType == "" && a.requiresWeaponId != "" ==>
            exists s | s in eq :: eq[s] == Some(a.requiresWeaponId))
      && (a.ammoItem != "" ==> Get(inv, a.ammoItem) >= Max(0, a.ammoCost))
  {
    var v := Some(a.requiresWeaponId);
    if v in eq.Values {
      var s :| s in eq && eq[s] == v;
    }
    assert (exists s | s in eq :: eq[s] == v) ==> v in eq.Values;
  }

  /** Equipping a weapon unlocks every action asking for its slot and id
      (ammunition aside). */
  lemma EquipUnlocks(cfg: Config, st: Stats, eq: map<string, Option<string>>, inv: map<string, int>,
                     item: string, a: BattleAction)
    requires item != ""
    requires a.requiresWeaponType == WeaponSlot(ItemDefinition(cfg, item))
    requires a.requiresWeaponId == "" || a.requiresWeaponId == item
    requires a.ammoItem == ""
    ensures ActionBlock(Equip(cfg, st, eq, item).1, inv, a).None?
  {
    EquipSlots(cfg, st, eq, item);
  }

  /** An entry of the battle menu. */
  datatype Choice = Act(index: nat, enabled: bool) | Endure

  function MenuFrom(eq: map<string, Option<string>>, inv: map<string, int>, actions: seq<BattleAction>, j: nat)
    : (r: seq<Choice>)
    requires j <= |actions|
    ensures forall c | c in r :: c.Act? && j <= c.index < |actions|
    decreases |actions| - j
  {
    if j == |actions| then []
    else
      var ok := ActionBlock(eq, inv, actions[j]).None?;
      var rest := MenuFrom(eq, inv, actions, j + 1);
      if ok || actions[j].showIfUnavailable then [Act(j, ok)] + rest else rest
  }

  /** `_refresh_battle_actions`: the actions in order, hiding unavailable
      ones unless they ask to be shown; a lone "Endure" when none is left. */
  function BattleMenu(eq: map<string, Option<string>>, inv: map<string, int>, actions: seq<BattleAction>)
    : seq<Choice>
  {
    var m := MenuFrom(eq, inv, actions, 0);
    if m == [] then [Endure] else m
  }

  predicate Listed(eq: map<string, Option<string>>, inv: map<string, int>, a: BattleAction) {
    ActionBlock(eq, inv, a).None? || a.showIfUnavailable
  }

  /** Every entry is a listed action, enabled exactly when available. */
  lemma {:induction false} MenuFromSound(eq: map<string, Option<string>>, inv: map<string, int>,
                                         actions: seq<BattleAction>, j: nat)
    requires j <= |actions|
    ensures forall c | c in MenuFrom(eq, inv, actions, j) ::
      c.Act? && c.index < |actions| && Listed(eq, inv, actions[c.index])
      && c.enabled == ActionBlock(eq, inv, actions[c.index]).None?
    decreases |actions| - j
  {
    if j < |actions| {
      MenuFromSound(eq, inv, actions, j + 1);
    }
  }

  /** Every listed action has its entry. */
  lemma {:induction false} MenuFromComplete(eq: map<string, Option<string>>, inv: map<string, int>,
                                            actions: seq<BattleAction>, j: nat, i: nat)
    requires j <= i < |actions| && Listed(eq, inv, actions[i])
    ensures Act(i, ActionBlock(eq, inv, actions[i]).None?) in MenuFrom(eq, inv, actions, j)
    decreases |actions| - j
  {
    if j < i {
      MenuFromComplete(eq, inv, actions, j + 1, i);
    }
  }

  /** Entries keep the declaration order. */
  lemma {:induction false} MenuFromOrdered(eq: map<string, Option<string>>, inv: map<string, int>,
                                           actions: seq<BattleAction>, j: nat)
    requires j <= |actions|
    ensures forall p, q | 0 <= p < q < |MenuFrom(eq, inv, actions, j)| ::
      MenuFrom(eq, inv, actions, j)[p].index < MenuFrom(eq, inv, actions, j)[q].index
    decreases |actions| - j
  {
    if j < |actions| {
      MenuFromOrdered(eq, inv, actions, j + 1);
      var rest := MenuFrom(eq, inv, actions, j + 1);
      var r := MenuFrom(eq, inv, actions, j);
      var ok := ActionBlock(eq, inv, actions[j]).None?;
      if ok || actions[j].showIfUnavailable {
        assert r == [Act(j, ok)] + rest;
        forall p, q | 0 <= p < q < |r| ensures r[p].index < r[q].index {
          assert r[q] == rest[q - 1] && rest[q - 1] in rest;
          assert rest[q - 1].index >= j + 1;
          if p > 0 {
            assert r[p] == rest[p - 1];
            assert rest[p - 1].index < rest[q - 1].index;
          } else {
            assert r[0] == Act(j, ok);
          }
        }
      }
    }
  }

  /** The menu lists exactly the available actions plus the unavailable ones
      marked to be shown (disabled), in declaration order; "Endure" appears
      exactly when that list is empty, and then alone. */
  lemma BattleMenuMeans(eq: map<string, Option<string>>, inv: map<string, int>, actions: seq<BattleAction>)
    ensures var m := BattleMenu(eq, inv, actions);
      && (Endure in m <==> forall i | 0 <= i < |actions| :: !Listed(eq, inv, actions[i]))
      && (Endure in m ==> m == [Endure])
      && (forall i | 0 <= i < |actions| && Listed(eq, inv, actions[i]) :: Act(i, ActionBlock(eq, inv, actions[i]).None?) in m)
      && (forall c | c in m && c.Act? :: c.index < |actions| && Listed(eq, inv, actions[c.index])
                                         && c.enabled == ActionBlock(eq, inv, actions[c.index]).None?)
      && (forall p, q | 0 <= p < q < |m| && m[p].Act? && m[q].Act? :: m[p].index < m[q].index)
  {
    MenuFromSound(eq, inv, actions, 0);
    MenuFromOrdered(eq, inv, actions, 0);
    var r := MenuFrom(eq, inv, actions, 0);
    forall i | 0 <= i < |actions| && Listed(eq, inv, actions[i])
      ensures Act(i, ActionBlock(eq, inv, actions[i]).None?) in r
    {
      MenuFromComplete(eq, inv, actions, 0, i);
    }
    if r != [] {
      assert r[0] in r;
      assert Listed(eq, inv, actions[r[0].index]);
    }
  }

  // ---------------------------------------------------------------------------
  // Damage and healing

  /** `_take_damage`. */
  function TakeDamage(st: Stats, amount: int): (r: Stats)
    ensures r == st.(hp := r.hp)
    ensures r.hp >= 0
    ensures amount >= 0 && st.hp >= 0 ==> r.hp == Max(0, st.hp - amount) && r.hp <= st.hp
  {
    st.(hp := Max(0, st.hp - amount))
  }

  /** `_heal_player`. */
  function Heal(st: Stats, amount: int): (r: Stats)
    ensures r == st.(hp := r.hp)
    ensures r.hp <= st.maxHp
    ensures amount >= 0 && st.hp <= st.maxHp ==> st.hp <= r.hp
  {
    st.(hp := Min(st.maxHp, st.hp + amount))
  }

  /** Hit points within [0, max_hp]. */
  predicate HpInRange(st: Stats) {
    0 <= st.hp <= st.maxHp
  }

  /** Non-negative damage and healing keep hit points within range. */
  lemma DamageHealKeepRange(st: Stats, amount: int)
    requires HpInRange(st) && amount >= 0
    ensures HpInRange(TakeDamage(st, amount)) && HpInRange(Heal(st, amount))
  {
  }

  /** The critical-hit roll of `_calculate_player_damage`: with a positive
      CRIT_CHANCE one draw, and a draw below it multiplies the damage by
      CRIT_MULTIPLIER, truncated. Returns the damage and the draw counter. */
  function Critical(w: World, damage: int, draws: nat): (int, nat) {
    if w.cfg.critChance > 0.0 then
      (if w.rng.unit(draws) < w.cfg.critChance then CritDamage(damage, w.cfg.critMultiplier) else damage,
       draws + 1)
    else (damage, draws)
  }

  /** `_calculate_player_damage`: the damage and the state with the random
      draws it used counted. */
  function PlayerDamage(w: World, s: GameState, enemyDefence: int, bonus: int, variance: int)
    : (r: (int, GameState))
    ensures r.1 == s.(rollsUsed := s.rollsUsed + 1, drawsUsed := r.1.drawsUsed)
  {
    var spread := Max(0, variance + w.cfg.damageVariance.GetOr(0));
    var roll := RandInt(w.rng, s.rollsUsed, spread);
    var damage := Max(0, Max(0, s.stats.attack + bonus + roll) - enemyDefence);
    var c := Critical(w, damage, s.drawsUsed);
    (c.0, s.(rollsUsed := s.rollsUsed + 1, drawsUsed := c.1))
  }

  /** Without a critical hit the damage is attack + bonus + a roll in
      [0, max(0, variance + DAMAGE_VARIANCE)], floored at 0, less the enemy's
      defence, floored at 0 again (a negative defence adds to the floored
      sum); a critical hit (only possible with a positive CRIT_CHANCE)
      multiplies that and truncates. */
  lemma PlayerDamageMeans(w: World, s: GameState, enemyDefence: int, bonus: int, variance: int)
    ensures var r := PlayerDamage(w, s, enemyDefence, bonus, variance);
      var spread := Max(0, variance + w.cfg.damageVariance.GetOr(0));
      var roll := RandInt(w.rng, s.rollsUsed, spread);
      var plain := Max(0, Max(0, s.stats.attack + bonus + roll) - enemyDefence);
      var crit := w.cfg.critChance > 0.0 && w.rng.unit(s.drawsUsed) < w.cfg.critChance;
      && 0 <= roll <= spread
      && Max(0, Max(0, s.stats.attack + bonus) - enemyDefence) <= plain
      && plain <= Max(0, Max(0, s.stats.attack + bonus + spread) - enemyDefence)
      && (!crit ==> r.0 == plain)
      && (crit ==> r.0 == CritDamage(plain, w.cfg.critMultiplier))
      && r.1.rollsUsed == s.rollsUsed + 1
      && r.1.drawsUsed == s.drawsUsed + (if w.cfg.critChance > 0.0 then 1 else 0)
  {
    var spread := Max(0, variance + w.cfg.damageVariance.GetOr(0));
    var roll := RandInt(w.rng, s.rollsUsed, spread);
  }

  /** `_enemy_attack`: attack plus a roll in [0, max(0, DAMAGE_VARIANCE)]
      (2 when unset) minus the player's defence; only a positive result hurts. */
  function EnemyAttack(w: World, s: GameState, e: Enemy): (r: GameState)
    ensures r == s.(stats := r.stats, rollsUsed := s.rollsUsed + 1)
    ensures r.stats == s.stats.(hp := r.stats.hp)
  {
    var roll := RandInt(w.rng, s.rollsUsed, Max(0, w.cfg.damageVariance.GetOr(2)));
    var damage := Max(0, e.attack + roll - s.stats.defence);
    var s1 := s.(rollsUsed := s.rollsUsed + 1);
    if damage > 0 then s1.(stats := TakeDamage(s1.stats, damage)) else s1
  }

  lemma EnemyAttackMeans(w: World, s: GameState, e: Enemy)
    requires s.stats.hp >= 0
    ensures var spread := Max(0, w.cfg.damageVariance.GetOr(2));
      var roll := RandInt(w.rng, s.rollsUsed, spread);
      var r := EnemyAttack(w, s, e);
      && r.stats.hp == Max(0, s.stats.hp - Max(0, e.attack + roll - s.stats.defence))
      && Max(0, s.stats.hp - Max(0, e.attack + spread - s.stats.defence)) <= r.stats.hp <= s.stats.hp
  {
  }

  // ---------------------------------------------------------------------------
  // Starting and ending a battle

  /** `start_battle`: consumes the `enemy_stunned` flag (its timer, if any, is
      left behind); each stunned turn costs the enemy 4 hit points, never
      more than it has. */
  function StartBattle(s: GameState, spec: BattleSpec, optionTo: string, repeatKey: string): GameState {
    var stunned := Max(0, Get(s.flags, "enemy_stunned"));
    var hp := spec.enemy.hp;
    var hp' := if stunned != 0 then hp - Min(hp, stunned * 4) else hp;
    s.(flags := s.flags - {"enemy_stunned"},
       currentBattle := Some(Encounter(spec, optionTo, hp', repeatKey)))
  }

  lemma StartBattleMeans(s: GameState, spec: BattleSpec, optionTo: string, repeatKey: string)
    requires spec.enemy.hp >= 0
    ensures var r := StartBattle(s, spec, optionTo, repeatKey);
      && "enemy_stunned" !in r.flags
      && r.currentBattle.Some? && r.currentBattle.value.spec == spec
      && r.currentBattle.value.enemyHp == Max(0, spec.enemy.hp - 4 * Max(0, Get(s.flags, "enemy_stunned")))
      && r.timedFlags == s.timedFlags && r.stats == s.stats && r.inventory == s.inventory
  {
  }

  /** The room a defeat sends the player to: the battle's own, else
      DEFEAT_ROOM_ID, else START_ROOM_ID when DEFEAT_ROOM_ID is not defined. */
  function DefeatTarget(cfg: Config, spec: BattleSpec): string {
    if spec.defeatTo != "" then spec.defeatTo else cfg.defeatRoomId.GetOr(cfg.startRoomId)
  }

  /** The room a victory sends the player to. */
  function VictoryTarget(s: GameState, enc: Encounter): string {
    if enc.spec.victoryTo != "" then enc.spec.victoryTo
    else if enc.optionTo != "" then enc.optionTo
    else s.currentRoomId
  }

  /** `_roll_loot_table` on the game state: the items won, and the state with
      the unique awards and the draws updated. */
  function RollLootState(w: World, s: GameState, table: seq<LootEntry>, rolls: int): (seq<string>, GameState) {
    var r := Roll(w.rng.unit, table, rolls, s.uniqueLootAwards, s.drawsUsed);
    (ItemsOf(table, r.0), s.(uniqueLootAwards := r.1, drawsUsed := r.2))
  }

  /** The rewards of `_handle_victory`: XP_PER_VICTORY experience, then the
      enemy's loot, then whatever the battle's loot table awards. */
  function Reward(w: World, s: GameState, spec: BattleSpec): (r: GameState)
    ensures r == s.(stats := s.stats.(xp := s.stats.xp + w.cfg.xpPerVictory), inventory := r.inventory,
                    uniqueLootAwards := r.uniqueLootAwards, drawsUsed := r.drawsUsed)
  {
    TableLoot(w, Spoils(w.cfg, s, spec), spec)
  }

  /** XP_PER_VICTORY experience and the enemy's own loot. */
  function Spoils(cfg: Config, s: GameState, spec: BattleSpec): GameState {
    s.(stats := s.stats.(xp := s.stats.xp + cfg.xpPerVictory), inventory := AddAll(s.inventory, spec.enemy.loot))
  }

  /** Whatever the battle's loot table awards, added to the inventory. */
  function TableLoot(w: World, s: GameState, spec: BattleSpec): (r: GameState)
    ensures r == s.(inventory := r.inventory, uniqueLootAwards := r.uniqueLootAwards, drawsUsed := r.drawsUsed)
  {
    var loot := RollLootState(w, s, spec.lootTable, spec.lootRolls);
    loot.1.(inventory := AddAll(loot.1.inventory, loot.0))
  }

  /** One more win counted under `key`; no key counts nothing. */
  function Win(tracker: map<string, int>, key: string): map<string, int> {
    if key != "" then tracker[key := Get(tracker, key) + 1] else tracker
  }

  /** `_handle_victory`: the rewards, one more win for the option's repeat
      key, the battle over and the next room pending. */
  function Victory(w: World, s: GameState): GameState {
    if s.currentBattle.None? then s
    else
      var enc := s.currentBattle.value;
      Reward(w, s, enc.spec).(battleRepeatTracker := Win(s.battleRepeatTracker, enc.repeatKey),
                              currentBattle := None, pendingRoom := VictoryTarget(s, enc))
  }

  /** `_handle_defeat`. */
  function Defeat(w: World, s: GameState): GameState {
    if s.currentBattle.None? then s
    else
      s.(stats := s.stats.(hp := s.stats.maxHp), currentBattle := None,
         pendingRoom := DefeatTarget(w.cfg, s.currentBattle.value.spec))
  }

  /** A victory grants XP_PER_VICTORY experience and the enemy's loot (table
      loot comes on top), counts one more win for the option's repeat key,
      ends the battle and leads on to the battle's, the option's or the
      current room. */
  lemma VictoryMeans(w: World, s: GameState)
    requires s.currentBattle.Some?
    ensures var enc := s.currentBattle.value;
      var r := Victory(w, s);
      && r.stats == s.stats.(xp := s.stats.xp + w.cfg.xpPerVictory)
      && (forall k :: Get(r.inventory, k) >= Get(s.inventory, k) + Count(enc.spec.enemy.loot, k))
      && (enc.repeatKey != "" ==> Get(r.battleRepeatTracker, enc.repeatKey) == Get(s.battleRepeatTracker, enc.repeatKey) + 1)
      && (forall k | k != enc.repeatKey :: Get(r.battleRepeatTracker, k) == Get(s.battleRepeatTracker, k))
      && r.currentBattle.None?
      && r.pendingRoom == VictoryTarget(s, enc)
      && r.flags == s.flags && r.timedFlags == s.timedFlags && r.equipment == s.equipment
  {
    var enc := s.currentBattle.value;
    var inv1 := AddAll(s.inventory, enc.spec.enemy.loot);
    AddAllCounts(s.inventory, enc.spec.enemy.loot);
    var s1 := s.(stats := s.stats.(xp := s.stats.xp + w.cfg.xpPerVictory), inventory := inv1);
    var loot := RollLootState(w, s1, enc.spec.lootTable, enc.spec.lootRolls);
    AddAllCounts(inv1, loot.0);
  }

  /** A defeat restores full health, ends the battle and leads to the defeat
      room; nothing else changes. */
  lemma DefeatMeans(w: World, s: GameState)
    requires s.currentBattle.Some?
    ensures var r := Defeat(w, s);
      r == s.(stats := s.stats.(hp := s.stats.maxHp), currentBattle := None,
              pendingRoom := DefeatTarget(w.cfg, s.currentBattle.value.spec))
    ensures Defeat(w, s).stats.hp == s.stats.maxHp
  {
  }

  // ---------------------------------------------------------------------------
  // A turn

  function SetEnemyHp(s: GameState, hp: int): (r: GameState)
    requires s.currentBattle.Some?
    ensures r.currentBattle.Some? && r.currentBattle.value.enemyHp == hp
  {
    s.(currentBattle := Some(s.currentBattle.value.(enemyHp := hp)))
  }

  /** The enemy strikes back; the player is defeated at 0 hit points. */
  function EnemyTurn(w: World, s: GameState, spec: BattleSpec): GameState {
    var s1 := EnemyAttack(w, s, spec.enemy);
    if s1.stats.hp <= 0 then Defeat(w, s1) else s1
  }

  /** `_pass_turn`, the "Endure" fallback. */
  function PassTurn(w: World, s: GameState): GameState {
    if s.currentBattle.None? then s else EnemyTurn(w, s, s.currentBattle.value.spec)
  }

  /** The end of a turn that went through: victory at 0 enemy hit points,
      otherwise the enemy's turn. */
  function Finish(w: World, s: GameState, spec: BattleSpec): GameState
    requires s.currentBattle.Some?
  {
    if s.currentBattle.value.enemyHp <= 0 then Victory(w, s) else EnemyTurn(w, s, spec)
  }

  /** An attack or a cast landing: the player's damage lowers the enemy's
      hit points, not below 0. */
  function Strike(w: World, s: GameState, a: BattleAction): (r: GameState)
    requires s.currentBattle.Some?
    ensures r.currentBattle.Some?
    ensures r == s.(rollsUsed := r.rollsUsed, drawsUsed := r.drawsUsed,
                    currentBattle := Some(s.currentBattle.value.(enemyHp := r.currentBattle.value.enemyHp)))
  {
    var enc := s.currentBattle.value;
    var d := PlayerDamage(w, s, enc.spec.enemy.defence, a.bonus, a.variance);
    SetEnemyHp(d.1, Max(0, enc.enemyHp - d.0))
  }

  /** A skill check: at or above the threshold the success damage hits the
      enemy and the success heal the player; below it the failure damage and
      heal apply to the player. */
  function SkillMove(s: GameState, a: BattleAction): (r: GameState)
    requires s.currentBattle.Some?
    ensures r.currentBattle.Some?
    ensures r == s.(stats := r.stats, currentBattle := Some(s.currentBattle.value.(enemyHp := r.currentBattle.value.enemyHp)))
  {
    var enc := s.currentBattle.value;
    if StatValue(s.stats, a.stat) >= a.gte then
      var hp := if a.successDamage != 0 then Max(0, enc.enemyHp - a.successDamage) else enc.enemyHp;
      var st := if a.successHeal != 0 then Heal(s.stats, a.successHeal) else s.stats;
      SetEnemyHp(s.(stats := st), hp)
    else
      var st1 := if a.failDamage != 0 then TakeDamage(s.stats, a.failDamage) else s.stats;
      var st2 := if a.failHeal != 0 then Heal(st1, a.failHeal) else st1;
      s.(stats := st2)
  }

  /** The player's move for the action's kind, once it has passed the
      availability, ammunition and hit checks; none when a cast lacks the
      mana. */
  function Move(w: World, s: GameState, a: BattleAction): (r: Option<GameState>)
    requires s.currentBattle.Some?
    ensures r.Some? ==> r.value.currentBattle.Some? && r.value.currentBattle.value.spec == s.currentBattle.value.spec
    ensures r.None? <==> a.kind.Cast? && s.stats.mana < a.manaCost
  {
    match a.kind
    case Attack => Some(Strike(w, s, a))
    case SkillCheck => Some(SkillMove(s, a))
    case Cast =>
      if s.stats.mana < a.manaCost then None
      else Some(Strike(w, s.(stats := s.stats.(mana := s.stats.mana - a.manaCost)), a))
    case OtherKind => Some(s)
  }

  /** The move, then victory or the enemy's turn; a cast without mana ends
      the turn with nothing more. */
  function Perform(w: World, s: GameState, a: BattleAction): GameState
    requires s.currentBattle.Some?
  {
    var m := Move(w, s, a);
    if m.None? then s else Finish(w, m.value, s.currentBattle.value.spec)
  }

  /** Whether the action spends ammunition, and how much. */
  function AmmoCost(a: BattleAction): (cost: int)
    ensures cost >= 0
  {
    if a.ammoItem != "" then Max(0, a.ammoCost) else 0
  }

  /** The hit roll: attacks and casts with a hit chance below 1 (clamped to
      [0, 1]) draw once and miss when the draw exceeds it. Returns whether
      the action missed and the state with the draw counted. */
  function HitRoll(w: World, s: GameState, a: BattleAction): (r: (bool, GameState))
    ensures r.1 == s.(drawsUsed := r.1.drawsUsed)
  {
    var chance := Clamp01(a.hitChance);
    if (a.kind.Attack? || a.kind.Cast?) && chance < 1.0 then
      (w.rng.unit(s.drawsUsed) > chance, s.(drawsUsed := s.drawsUsed + 1))
    else (false, s)
  }

  /** The hit roll of attacks and casts, then the move itself; a miss costs
      the turn. */
  function HitThenPerform(w: World, s: GameState, a: BattleAction): GameState
    requires s.currentBattle.Some?
  {
    var h := HitRoll(w, s, a);
    if h.0 then EnemyTurn(w, h.1, s.currentBattle.value.spec) else Perform(w, h.1, a)
  }

  /** `_resolve_battle_action`: a refused action, or one short of ammunition,
      costs the turn; otherwise the ammunition is spent and the move made. */
  function Resolve(w: World, s: GameState, a: BattleAction): GameState {
    if s.currentBattle.None? then s
    else
      var spec := s.currentBattle.value.spec;
      var cost := AmmoCost(a);
      if ActionBlock(s.equipment, s.inventory, a).Some? then EnemyTurn(w, s, spec)
      else if cost != 0 && Get(s.inventory, a.ammoItem) < cost then EnemyTurn(w, s, spec)
      else HitThenPerform(w, s.(inventory := ConsumeInventory(s.inventory, a.ammoItem, cost)), a)
  }

  // ---------------------------------------------------------------------------
  // Properties of a turn

  /** What a turn taken in battle `s` can lead to: the same battle goes on
      (enemy no healthier, nothing pending), or it is over, either won
      (victory room pending, experience granted) or lost (defeat room
      pending, full health). */
  ghost predicate TurnOutcome(w: World, s: GameState, r: GameState)
    requires s.currentBattle.Some?
  {
    var enc := s.currentBattle.value;
    && (r.currentBattle.Some? ==>
          && r.currentBattle.value.spec == enc.spec
          && r.currentBattle.value.optionTo == enc.optionTo
          && r.currentBattle.value.repeatKey == enc.repeatKey
          && 0 <= r.currentBattle.value.enemyHp <= enc.enemyHp
          && r.pendingRoom == s.pendingRoom)
    && (r.currentBattle.None? ==>
          || (r.pendingRoom == VictoryTarget(s, enc) && r.stats.xp == s.stats.xp + w.cfg.xpPerVictory)
          || (r.pendingRoom == DefeatTarget(w.cfg, enc.spec) && r.stats.hp == r.stats.maxHp))
  }

  /** The enemy's turn either leaves the battle untouched with the player
      standing, or ends it in defeat. */
  lemma EnemyTurnOutcome(w: World, s: GameState, spec: BattleSpec)
    requires s.currentBattle.Some? && s.currentBattle.value.spec == spec
    ensures var r := EnemyTurn(w, s, spec);
      && (r.currentBattle.Some? ==> r.currentBattle == s.currentBattle && r.stats.hp > 0 && r.pendingRoom == s.pendingRoom)
      && (r.currentBattle.None? ==> r.stats.hp == r.stats.maxHp && r.pendingRoom == DefeatTarget(w.cfg, spec))
  {
  }

  /** The summary of a victory that a turn needs. */
  lemma VictoryEnds(w: World, s: GameState)
    requires s.currentBattle.Some?
    ensures Victory(w, s).currentBattle.None?
    ensures Victory(w, s).pendingRoom == VictoryTarget(s, s.currentBattle.value)
    ensures Victory(w, s).stats.xp == s.stats.xp + w.cfg.xpPerVictory
  {
  }

  /** `Finish` applied to `m`, reached from `s` by the player's move, which
      may only have changed stats other than experience, counters and the
      enemy's hit points (never upwards). */
  lemma FinishOutcome(w: World, s: GameState, m: GameState)
    requires s.currentBattle.Some? && m.currentBattle.Some?
    requires m.currentBattle.value == s.currentBattle.value.(enemyHp := m.currentBattle.value.enemyHp)
    requires 0 <= m.currentBattle.value.enemyHp <= s.currentBattle.value.enemyHp
    requires m.pendingRoom == s.pendingRoom && m.currentRoomId == s.currentRoomId && m.stats.xp == s.stats.xp
    ensures TurnOutcome(w, s, Finish(w, m, s.currentBattle.value.spec))
  {
    var spec := s.currentBattle.value.spec;
    if m.currentBattle.value.enemyHp <= 0 {
      VictoryEnds(w, m);
    } else {
      EnemyTurnOutcome(w, m, spec);
    }
  }

  /** The player's damage is never negative while critical hits do not
      invert it. */
  lemma PlayerDamageNonNegative(w: World, s: GameState, enemyDefence: int, bonus: int, variance: int)
    requires w.cfg.critMultiplier >= 0.0
    ensures PlayerDamage(w, s, enemyDefence, bonus, variance).0 >= 0
  {
    var spread := Max(0, variance + w.cfg.damageVariance.GetOr(0));
    var roll := RandInt(w.rng, s.rollsUsed, spread);
    var damage := Max(0, Max(0, s.stats.attack + bonus + roll) - enemyDefence);
    assert damage as real * w.cfg.critMultiplier >= 0.0;
  }

  /** What a move may do to the battle: the same encounter with the enemy no
      healthier and still at 0 or more, nothing pending, the room and the
      experience unchanged. */
  predicate Moved(s: GameState, m: GameState)
    requires s.currentBattle.Some?
  {
    && m.currentBattle.Some?
    && m.currentBattle.value == s.currentBattle.value.(enemyHp := m.currentBattle.value.enemyHp)
    && 0 <= m.currentBattle.value.enemyHp <= s.currentBattle.value.enemyHp
    && m.pendingRoom == s.pendingRoom && m.currentRoomId == s.currentRoomId
    && m.stats.xp == s.stats.xp
  }

  /** A landed attack or cast leaves the battle as it was but for the enemy's
      hit points, which only go down and stay non-negative. */
  lemma StrikeOutcome(w: World, s: GameState, a: BattleAction)
    requires s.currentBattle.Some? && s.currentBattle.value.enemyHp >= 0
    requires w.cfg.critMultiplier >= 0.0
    ensures Moved(s, Strike(w, s, a))
  {
    var enc := s.currentBattle.value;
    PlayerDamageNonNegative(w, s, enc.spec.enemy.defence, a.bonus, a.variance);
  }

  /** A skill check never heals the enemy while its success damage is
      non-negative. */
  lemma SkillMoveOutcome(s: GameState, a: BattleAction)
    requires s.currentBattle.Some? && s.currentBattle.value.enemyHp >= 0 && a.successDamage >= 0
    ensures Moved(s, SkillMove(s, a))
  {
  }

  /** A skill check whose heals and self-inflicted damage are non-negative
      keeps hit points within range and the maximum as it was. */
  lemma SkillMoveHp(s: GameState, a: BattleAction)
    requires s.currentBattle.Some? && HpInRange(s.stats) && Tame(a)
    ensures HpKept(s, SkillMove(s, a))
  {
    if StatValue(s.stats, a.stat) < a.gte {
      var st1 := if a.failDamage != 0 then TakeDamage(s.stats, a.failDamage) else s.stats;
      assert HpInRange(st1);
    }
  }

  /** What the player's move can do to the battle, given damage that cannot
      heal the enemy. */
  lemma MoveOutcome(w: World, s: GameState, a: BattleAction)
    requires s.currentBattle.Some? && s.currentBattle.value.enemyHp >= 0
    requires a.successDamage >= 0 && w.cfg.critMultiplier >= 0.0
    ensures var m := Move(w, s, a);
      m.Some? ==> Moved(s, m.value)
  {
    match a.kind {
      case Attack =>
        StrikeOutcome(w, s, a);
        assert Move(w, s, a) == Some(Strike(w, s, a));
      case SkillCheck =>
        SkillMoveOutcome(s, a);
        assert Move(w, s, a) == Some(SkillMove(s, a));
      case Cast =>
        if s.stats.mana >= a.manaCost {
          var s1 := s.(stats := s.stats.(mana := s.stats.mana - a.manaCost));
          StrikeOutcome(w, s1, a);
          assert Move(w, s, a) == Some(Strike(w, s1, a));
        }
      case OtherKind =>
    }
  }

  lemma PerformOutcome(w: World, s: GameState, a: BattleAction)
    requires s.currentBattle.Some? && s.currentBattle.value.enemyHp >= 0
    requires a.successDamage >= 0 && w.cfg.critMultiplier >= 0.0
    ensures TurnOutcome(w, s, Perform(w, s, a))
  {
    MoveOutcome(w, s, a);
    var m := Move(w, s, a);
    if m.Some? {
      FinishOutcome(w, s, m.value);
    }
  }

  /** Every turn either keeps the same battle going, with the enemy no
      healthier, or ends it, by victory (leading to the victory room) or by
      defeat (at full health, leading to the defeat room). A battle never
      ends while both sides still have hit points. Needs damage that cannot
      heal the enemy: a non-negative success damage and crit multiplier. */
  lemma ResolveOutcome(w: World, s: GameState, a: BattleAction)
    requires s.currentBattle.Some? && s.currentBattle.value.enemyHp >= 0
    requires a.successDamage >= 0 && w.cfg.critMultiplier >= 0.0
    ensures TurnOutcome(w, s, Resolve(w, s, a))
  {
    var spec := s.currentBattle.value.spec;
    var cost := AmmoCost(a);
    if ActionBlock(s.equipment, s.inventory, a).Some? || (cost != 0 && Get(s.inventory, a.ammoItem) < cost) {
      EnemyTurnOutcome(w, s, spec);
    } else {
      var s1 := s.(inventory := ConsumeInventory(s.inventory, a.ammoItem, cost));
      HitOutcome(w, s1, a);
      TransferOutcome(w, s, s1, HitThenPerform(w, s1, a));
    }
  }

  lemma HitOutcome(w: World, s: GameState, a: BattleAction)
    requires s.currentBattle.Some? && s.currentBattle.value.enemyHp >= 0
    requires a.successDamage >= 0 && w.cfg.critMultiplier >= 0.0
    ensures TurnOutcome(w, s, HitThenPerform(w, s, a))
  {
    var h := HitRoll(w, s, a);
    var spec := s.currentBattle.value.spec;
    if h.0 {
      EnemyTurnOutcome(w, h.1, spec);
      TransferOutcome(w, s, h.1, EnemyTurn(w, h.1, spec));
    } else {
      PerformOutcome(w, h.1, a);
      TransferOutcome(w, s, h.1, Perform(w, h.1, a));
    }
  }

  /** An outcome relative to a state that differs from `s` only in the
      inventory and the draw counter is an outcome relative to `s`. */
  lemma TransferOutcome(w: World, s: GameState, s1: GameState, r: GameState)
    requires s.currentBattle.Some?
    requires s1 == s.(inventory := s1.inventory, drawsUsed := s1.drawsUsed)
    requires TurnOutcome(w, s1, r)
    ensures TurnOutcome(w, s, r)
  {
  }

  /** Hit points within range afterwards, under an unchanged maximum. */
  predicate HpKept(s: GameState, r: GameState) {
    HpInRange(r.stats) && r.stats.maxHp == s.stats.maxHp
  }

  /** Actions whose healing and self-inflicted damage are non-negative. */
  predicate Tame(a: BattleAction) {
    a.successHeal >= 0 && a.failHeal >= 0 && a.failDamage >= 0
  }

  lemma EnemyTurnHp(w: World, s: GameState, spec: BattleSpec)
    requires HpInRange(s.stats)
    ensures HpKept(s, EnemyTurn(w, s, spec))
  {
  }

  lemma FinishHp(w: World, s: GameState, spec: BattleSpec)
    requires s.currentBattle.Some? && HpInRange(s.stats)
    ensures HpKept(s, Finish(w, s, spec))
  {
    if s.currentBattle.value.enemyHp <= 0 {
      VictoryEnds(w, s);
      VictoryStats(w, s);
    } else {
      EnemyTurnHp(w, s, spec);
    }
  }

  /** A victory changes no stat but experience. */
  lemma VictoryStats(w: World, s: GameState)
    ensures Victory(w, s).stats == s.stats.(xp := Victory(w, s).stats.xp)
  {
  }

  /** The player's move keeps hit points within range and the maximum as it
      was. */
  lemma MoveHp(w: World, s: GameState, a: BattleAction)
    requires s.currentBattle.Some? && HpInRange(s.stats) && Tame(a)
    ensures var m := Move(w, s, a);
      m.Some? ==> HpKept(s, m.value)
  {
    if a.kind.SkillCheck? {
      SkillMoveHp(s, a);
    }
  }

  lemma PerformHp(w: World, s: GameState, a: BattleAction)
    requires s.currentBattle.Some? && HpInRange(s.stats) && Tame(a)
    ensures HpKept(s, Perform(w, s, a))
  {
    MoveHp(w, s, a);
    var m := Move(w, s, a);
    if m.Some? {
      FinishHp(w, m.value, s.currentBattle.value.spec);
    }
  }

  lemma HitHp(w: World, s: GameState, a: BattleAction)
    requires s.currentBattle.Some? && HpInRange(s.stats) && Tame(a)
    ensures HpKept(s, HitThenPerform(w, s, a))
  {
    var h := HitRoll(w, s, a);
    if h.0 {
      EnemyTurnHp(w, h.1, s.currentBattle.value.spec);
    } else {
      PerformHp(w, h.1, a);
    }
  }

  /** Hit points stay within [0, max_hp], and the maximum is untouched,
      through any turn whose action heals and hurts the player by
      non-negative amounts; a defeat refills them. */
  lemma ResolveKeepsHpInRange(w: World, s: GameState, a: BattleAction)
    requires HpInRange(s.stats) && Tame(a)
    ensures HpKept(s, Resolve(w, s, a))
  {
    if s.currentBattle.Some? {
      var spec := s.currentBattle.value.spec;
      var cost := AmmoCost(a);
      if ActionBlock(s.equipment, s.inventory, a).Some? || (cost != 0 && Get(s.inventory, a.ammoItem) < cost) {
        EnemyTurnHp(w, s, spec);
      } else {
        HitHp(w, s.(inventory := ConsumeInventory(s.inventory, a.ammoItem, cost)), a);
      }
    }
  }

  /** Enduring keeps hit points in range too. */
  lemma PassTurnKeepsHpInRange(w: World, s: GameState)
    requires HpInRange(s.stats)
    ensures HpKept(s, PassTurn(w, s))
  {
    if s.currentBattle.Some? {
      EnemyTurnHp(w, s, s.currentBattle.value.spec);
    }
  }

  /** With no battle running, choosing an action or enduring does nothing. */
  lemma NoBattleNoTurn(w: World, s: GameState, a: BattleAction)
    requires s.currentBattle.None?
    ensures Resolve(w, s, a) == s && PassTurn(w, s) == s
  {
  }

  /** A refused action still costs the turn: the enemy strikes, and nothing
      else happens. */
  lemma BlockedActionCostsTurn(w: World, s: GameState, a: BattleAction)
    requires s.currentBattle.Some?
    requires ActionBlock(s.equipment, s.inventory, a).Some?
    ensures Resolve(w, s, a) == PassTurn(w, s)
  {
  }

  /** Casting without enough mana spends only what was spent before the
      mana is looked at: the ammunition, and the hit roll's draw. A miss costs
      the turn as any miss does; a roll that passes ends the turn there, with
      stats, mana and the enemy's hit points as they were and no
      counter-attack. */
  lemma CastWithoutMana(w: World, s: GameState, a: BattleAction)
    requires s.currentBattle.Some? && a.kind.Cast?
    requires ActionBlock(s.equipment, s.inventory, a).None?
    requires AmmoCost(a) == 0 || Get(s.inventory, a.ammoItem) >= AmmoCost(a)
    requires s.stats.mana < a.manaCost
    ensures var spent := ConsumeInventory(s.inventory, a.ammoItem, AmmoCost(a));
      var h := HitRoll(w, s.(inventory := spent), a);
      && h.1.drawsUsed == s.drawsUsed + (if Clamp01(a.hitChance) < 1.0 then 1 else 0)
      && (h.0 ==> Resolve(w, s, a) == EnemyTurn(w, h.1, s.currentBattle.value.spec))
      && (!h.0 ==> Resolve(w, s, a) == s.(inventory := spent, drawsUsed := h.1.drawsUsed))
  {
    var spent := ConsumeInventory(s.inventory, a.ammoItem, AmmoCost(a));
    var s1 := s.(inventory := spent);
    assert Resolve(w, s, a) == HitThenPerform(w, s1, a);
    var h := HitRoll(w, s1, a);
    if !h.0 {
      assert Move(w, h.1, a).None?;
    }
  }

  /** A sure-hit cast with no ammunition and too little mana leaves the
      state exactly as it was. */
  lemma SureCastWithoutMana(w: World, s: GameState, a: BattleAction)
    requires s.currentBattle.Some? && a.kind.Cast? && a.ammoItem == "" && a.hitChance >= 1.0
    requires ActionBlock(s.equipment, s.inventory, a).None?
    requires s.stats.mana < a.manaCost
    ensures Resolve(w, s, a) == s
  {
    CastWithoutMana(w, s, a);
    assert ConsumeInventory(s.inventory, a.ammoItem, 0) == s.inventory;
  }

  /** While the enemy stands, a failed skill check whose damage is at least
      the player's hit points loses the battle on the spot: the player wakes at full health, bound
      for the defeat room, whatever the enemy's counter-attack would have
      done. */
  lemma LethalFailure(w: World, s: GameState, a: BattleAction)
    requires s.currentBattle.Some? && s.currentBattle.value.enemyHp > 0 && a.kind.SkillCheck?
    requires ActionBlock(s.equipment, s.inventory, a).None? && AmmoCost(a) == 0
    requires StatValue(s.stats, a.stat) < a.gte
    requires a.failDamage >= s.stats.hp && a.failDamage != 0 && a.failHeal == 0
    ensures var r := Resolve(w, s, a);
      && r.currentBattle.None?
      && r.pendingRoom == DefeatTarget(w.cfg, s.currentBattle.value.spec)
      && r.stats == s.stats.(hp := s.stats.maxHp)
  {
    var spec := s.currentBattle.value.spec;
    assert Resolve(w, s, a) == HitThenPerform(w, s, a);
    assert HitRoll(w, s, a) == (false, s);
    var m := s.(stats := TakeDamage(s.stats, a.failDamage));
    assert SkillMove(s, a) == m;
    assert Move(w, s, a) == Some(m);
    assert m.stats.hp == 0 && m.currentBattle == s.currentBattle;
    assert Perform(w, s, a) == Finish(w, m, spec);
    var e := EnemyAttack(w, m, spec.enemy);
    assert e.stats.hp <= 0;
  }

  /** The ammunition re-check in `_resolve_battle_action` can never fire:
      an available action already has its ammunition. */
  lemma AmmoRecheckUnreachable(s: GameState, a: BattleAction)
    requires ActionBlock(s.equipment, s.inventory, a).None?
    requires a.ammoItem != ""
    ensures Get(s.inventory, a.ammoItem) >= Max(0, a.ammoCost)
  {
  }

  // ---------------------------------------------------------------------------
  // What a turn leaves alone

  /** A turn touches neither the flags, the alert level, the regeneration
      reserve, the weapon slots nor the current room, and keeps every
      inventory count positive. */
  predicate Framed(s: GameState, r: GameState) {
    && r.flags == s.flags && r.timedFlags == s.timedFlags
    && r.alertLevel == s.alertLevel && r.manaRegenReserve == s.manaRegenReserve
    && r.equipment == s.equipment && r.currentRoomId == s.currentRoomId
    && (Stocked(s.inventory) ==> Stocked(r.inventory))
  }

  lemma EnemyTurnFrame(w: World, s: GameState, spec: BattleSpec)
    ensures Framed(s, EnemyTurn(w, s, spec))
  {
  }

  lemma VictoryFrame(w: World, s: GameState)
    ensures Framed(s, Victory(w, s))
  {
    if s.currentBattle.Some? && Stocked(s.inventory) {
      var enc := s.currentBattle.value;
      var inv1 := AddAll(s.inventory, enc.spec.enemy.loot);
      AddAllPositive(s.inventory, enc.spec.enemy.loot);
      assert Stocked(inv1);
      var s1 := s.(stats := s.stats.(xp := s.stats.xp + w.cfg.xpPerVictory), inventory := inv1);
      var loot := RollLootState(w, s1, enc.spec.lootTable, enc.spec.lootRolls);
      assert loot.1.inventory == inv1;
      AddAllPositive(inv1, loot.0);
    }
  }

  lemma FinishFrame(w: World, s: GameState, spec: BattleSpec)
    requires s.currentBattle.Some?
    ensures Framed(s, Finish(w, s, spec))
  {
    if s.currentBattle.value.enemyHp <= 0 {
      VictoryFrame(w, s);
    } else {
      EnemyTurnFrame(w, s, spec);
    }
  }

  /** The player's move touches only stats, counters and the enemy's hit
      points. */
  lemma MoveFrame(w: World, s: GameState, a: BattleAction)
    requires s.currentBattle.Some?
    ensures var m := Move(w, s, a);
      m.Some? ==> m.value == s.(stats := m.value.stats, rollsUsed := m.value.rollsUsed,
                                drawsUsed := m.value.drawsUsed, currentBattle := m.value.currentBattle)
  {
    match a.kind {
      case Attack =>
        assert Move(w, s, a) == Some(Strike(w, s, a));
      case SkillCheck =>
        assert Move(w, s, a) == Some(SkillMove(s, a));
      case Cast =>
        if s.stats.mana >= a.manaCost {
          var s1 := s.(stats := s.stats.(mana := s.stats.mana - a.manaCost));
          assert Move(w, s, a) == Some(Strike(w, s1, a));
        }
      case OtherKind =>
    }
  }

  lemma PerformFrame(w: World, s: GameState, a: BattleAction)
    requires s.currentBattle.Some?
    ensures Framed(s, Perform(w, s, a))
  {
    MoveFrame(w, s, a);
    var m := Move(w, s, a);
    if m.Some? {
      FinishFrame(w, m.value, s.currentBattle.value.spec);
    }
  }

  lemma HitFrame(w: World, s: GameState, a: BattleAction)
    requires s.currentBattle.Some?
    ensures Framed(s, HitThenPerform(w, s, a))
  {
    var h := HitRoll(w, s, a);
    if h.0 {
      EnemyTurnFrame(w, h.1, s.currentBattle.value.spec);
    } else {
      PerformFrame(w, h.1, a);
    }
  }

  /** A turn, or enduring one, keeps the flags, the alert level, the reserve,
      the weapon slots and the room as they were, and every inventory count
      positive: the game invariant survives battle. */
  lemma ResolveFramed(w: World, s: GameState, a: BattleAction)
    ensures Framed(s, Resolve(w, s, a))
    ensures Framed(s, PassTurn(w, s))
    ensures Inv(s) ==> Inv(Resolve(w, s, a)) && Inv(PassTurn(w, s))
  {
    if s.currentBattle.Some? {
      var spec := s.currentBattle.value.spec;
      EnemyTurnFrame(w, s, spec);
      var cost := AmmoCost(a);
      if !(ActionBlock(s.equipment, s.inventory, a).Some? || (cost != 0 && Get(s.inventory, a.ammoItem) < cost)) {
        var inv1 := ConsumeInventory(s.inventory, a.ammoItem, cost);
        if Stocked(s.inventory) {
          ConsumeInventoryMeans(s.inventory, a.ammoItem, cost);
        }
        HitFrame(w, s.(inventory := inv1), a);
      }
    }
  }
}
