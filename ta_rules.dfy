/** The rules of text_adventure's `GameApp` (text_adventure/engine/core.py) as
    functions of the game state: moving between rooms, starting a battle, a
    turn of `_resolve_battle_action` with its damage, healing, victory and
    defeat, and using an item. The class in TaApp performs the same steps in
    place and is proved to end in the states these functions describe. */
module TaRules {
  import opened Common
  import opened TaModels

  /** `DEFAULT_ITEM_EFFECTS`: the only item the engine knows how to use. */
  const DefaultItemEffects: map<string, ItemDef> :=
    map["potion_small" := ItemDef("Small Potion", "Restores a small amount of health.", [("hp", 5)])]

  /** Hit points between 0 and the maximum. */
  predicate Healthy(st: Stats) {
    0 <= st.hp <= st.maxHp
  }

  // ---------------------------------------------------------------------------
  // Rooms

  /** `_regen_mana`: MANA_PER_ROOM more mana when it is positive, no cap. */
  function RegenMana(cfg: Config, st: Stats): (r: Stats)
    ensures r == st.(mana := r.mana)
    ensures r.mana >= st.mana
    ensures r.mana > st.mana <==> cfg.manaPerRoom > 0
  {
    if cfg.manaPerRoom <= 0 then st else st.(mana := st.mana + cfg.manaPerRoom)
  }

  /** `go_to`: an unknown room id changes nothing; otherwise mana regenerates
      unless this is the first room, the room becomes current and any
      battle is dropped. */
  function GoTo(w: World, s: GameState, roomId: string, initial: bool): (r: GameState)
    ensures roomId !in w.rooms ==> r == s
    ensures roomId in w.rooms ==> r == s.(stats := r.stats, currentRoomId := roomId, currentBattle := None)
    ensures initial ==> r.stats == s.stats
    ensures !initial && roomId in w.rooms ==> r.stats == RegenMana(w.cfg, s.stats)
  {
    if roomId !in w.rooms then s
    else s.(stats := if initial then s.stats else RegenMana(w.cfg, s.stats),
            currentRoomId := roomId, currentBattle := None)
  }

  /** `start_battle`: the enemy at full hit points, remembering where the
      option pointed. */
  function StartBattle(s: GameState, b: BattleSpec, optionTo: string): (r: GameState)
    ensures r.currentBattle.Some? && r.currentBattle.value.enemyHp == b.enemy.hp
    ensures r == s.(currentBattle := Some(Battle(b, optionTo, r.currentBattle.value.enemyHp)))
  {
    s.(currentBattle := Some(Battle(b, optionTo, b.enemy.hp)))
  }

  /** `_handle_room_option`: a battle option starts its battle (or does
      nothing if the battle is unknown); any other option with a
      destination goes there. */
  function HandleRoomOption(w: World, s: GameState, o: OptionSpec): (r: GameState)
    ensures r.inventory == s.inventory && r.flags == s.flags && r.pending == s.pending
    ensures r.stats.hp == s.stats.hp && r.stats.xp == s.stats.xp
    ensures || r == s
            || (r.currentBattle.Some? && r.currentBattle.value.spec in w.battles.Values
                && r.currentBattle.value.enemyHp == r.currentBattle.value.spec.enemy.hp
                && r.stats == s.stats && r.currentRoomId == s.currentRoomId)
            || (r.currentRoomId in w.rooms && r.currentBattle.None?)
  {
    if o.battleId != "" then
      if o.battleId !in w.battles then s else StartBattle(s, w.battles[o.battleId], o.to)
    else if o.to != "" then GoTo(w, s, o.to, false)
    else s
  }

  // ---------------------------------------------------------------------------
  // Damage and healing

  /** `_take_damage`. */
  function TakeDamage(st: Stats, amount: int): (r: Stats)
    ensures r == st.(hp := r.hp) && r.hp >= 0
    ensures amount >= 0 && st.hp >= 0 ==> r.hp <= st.hp
  {
    st.(hp := Max(0, st.hp - amount))
  }

  /** `_heal_player`. */
  function HealPlayer(st: Stats, amount: int): (r: Stats)
    ensures r == st.(hp := r.hp) && r.hp <= st.maxHp
    ensures amount >= 0 && st.hp <= st.maxHp ==> r.hp >= st.hp
  {
    st.(hp := Min(st.maxHp, st.hp + amount))
  }

  /** The enemy's defence while a battle is on, 0 otherwise. */
  function Guard(s: GameState): int {
    if s.currentBattle.Some? then s.currentBattle.value.spec.enemy.defence else 0
  }

  /** `_calculate_player_damage` before the critical hit: attack, bonus and a
      roll in [0, max(0, variance + DAMAGE_VARIANCE)] (DAMAGE_VARIANCE 0 when
      unset), floored at 0, less the enemy's defence, floored at 0 again. */
  function BaseDamage(cfg: Config, s: GameState, bonus: int, variance: int, roll: int): (r: int)
    ensures r >= 0
  {
    var spread := Max(0, variance + cfg.damageVariance.GetOr(0));
    var damage := Max(0, s.stats.attack + bonus + DieRoll(roll, spread));
    Max(0, damage - Guard(s))
  }

  /** A positive CRIT_CHANCE and a draw below it make a critical hit. */
  predicate Crits(cfg: Config, draw: real) {
    cfg.critChance > 0.0 && draw < cfg.critChance
  }

  /** `_calculate_player_damage`. */
  function PlayerDamage(cfg: Config, s: GameState, bonus: int, variance: int, d: Dice): (r: int)
    ensures !Crits(cfg, d.critDraw) ==> r == BaseDamage(cfg, s, bonus, variance, d.playerRoll)
    ensures cfg.critMultiplier >= 1.0 ==> r >= BaseDamage(cfg, s, bonus, variance, d.playerRoll)
  {
    var base := BaseDamage(cfg, s, bonus, variance, d.playerRoll);
    if Crits(cfg, d.critDraw) then
      CritNotWeakerWhen(base, cfg.critMultiplier);
      CritDamage(base, cfg.critMultiplier)
    else base
  }

  /** CritNotWeaker, stated for any multiplier. */
  lemma CritNotWeakerWhen(damage: nat, multiplier: real)
    ensures multiplier >= 1.0 ==> CritDamage(damage, multiplier) >= damage
  {
    if multiplier >= 1.0 {
      CritNotWeaker(damage, multiplier);
    }
  }

  /** Without a critical hit the damage lies between the plain hit with the
      lowest roll and the plain hit with the highest, each floored before and
      after the enemy's defence is taken off. */
  lemma PlayerDamageRange(cfg: Config, s: GameState, bonus: int, variance: int, d: Dice)
    requires !Crits(cfg, d.critDraw)
    ensures var spread := Max(0, variance + cfg.damageVariance.GetOr(0));
      Max(0, Max(0, s.stats.attack + bonus) - Guard(s)) <= PlayerDamage(cfg, s, bonus, variance, d)
        <= Max(0, Max(0, s.stats.attack + bonus + spread) - Guard(s))
  {
  }

  /** A stronger player never does less damage with the same dice. */
  lemma PlayerDamageMonotone(cfg: Config, s: GameState, t: GameState, bonus: int, variance: int, d: Dice)
    requires Guard(t) == Guard(s) && t.stats.attack >= s.stats.attack
    requires cfg.critMultiplier >= 0.0
    ensures PlayerDamage(cfg, t, bonus, variance, d) >= PlayerDamage(cfg, s, bonus, variance, d)
  {
    var a := BaseDamage(cfg, s, bonus, variance, d.playerRoll);
    var b := BaseDamage(cfg, t, bonus, variance, d.playerRoll);
    assert a <= b;
    if Crits(cfg, d.critDraw) {
      assert (b - a) as real * cfg.critMultiplier >= 0.0;
      assert a as real * cfg.critMultiplier <= b as real * cfg.critMultiplier;
      assert a as real * cfg.critMultiplier >= 0.0;
    }
  }

  /** `_enemy_attack`'s damage: attack plus a roll in
      [0, max(0, DAMAGE_VARIANCE)] (2 when unset) minus the player's
      defence, floored at 0. */
  function EnemyDamage(cfg: Config, st: Stats, e: Enemy, roll: int): (r: int)
    ensures r >= 0
    ensures st.defence >= 0 ==> r <= Max(0, e.attack + Max(0, cfg.damageVariance.GetOr(2)))
    ensures r >= Max(0, e.attack - st.defence)
  {
    Max(0, e.attack + DieRoll(roll, Max(0, cfg.damageVariance.GetOr(2))) - st.defence)
  }

  /** `_enemy_attack`: only a positive damage hurts. */
  function EnemyAttack(cfg: Config, st: Stats, e: Enemy, roll: int): (r: Stats)
    ensures r == st.(hp := r.hp) && (st.hp >= 0 ==> 0 <= r.hp <= st.hp)
    ensures st.hp >= 0 ==> r.hp == Max(0, st.hp - EnemyDamage(cfg, st, e, roll))
  {
    var damage := EnemyDamage(cfg, st, e, roll);
    if damage > 0 then TakeDamage(st, damage) else st
  }

  // ---------------------------------------------------------------------------
  // A battle turn

  /** The enemy's hit points lowered by `damage`, floored at 0. */
  function Hit(s: GameState, damage: int): (r: GameState)
    requires s.currentBattle.Some?
  {
    var b := s.currentBattle.value;
    s.(currentBattle := Some(b.(enemyHp := Max(0, b.enemyHp - damage))))
  }

  /** `m` is `s` after the player's move: the same battle with the enemy's
      hit points changed, and the same inventory, flags, room and schedule. */
  predicate Moved(s: GameState, m: GameState)
    requires s.currentBattle.Some?
  {
    && m.currentBattle.Some?
    && m.currentBattle.value == s.currentBattle.value.(enemyHp := m.currentBattle.value.enemyHp)
    && m == s.(stats := m.stats, currentBattle := m.currentBattle)
    && m.stats.xp == s.stats.xp
  }

  /** The player's part of `_resolve_battle_action`, before the enemy's
      turn. None is the cast without enough mana, which ends the turn with
      nothing changed. */
  function Move(cfg: Config, s: GameState, a: BattleAction, d: Dice): (m: Option<GameState>)
    requires s.currentBattle.Some?
    ensures m.None? <==> a.kind.Cast? && s.stats.mana < a.manaCost
    ensures m.Some? ==> Moved(s, m.value)
  {
    match a.kind
    case Attack => Some(Hit(s, PlayerDamage(cfg, s, a.bonus, a.variance, d)))
    case SkillCheck =>
      if StatValue(s.stats, a.stat) >= a.gte then
        var s1 := if a.successDamage != 0 then Hit(s, a.successDamage) else s;
        Some(if a.successHeal != 0 then s1.(stats := HealPlayer(s1.stats, a.successHeal)) else s1)
      else
        var s1 := if a.failDamage != 0 then s.(stats := TakeDamage(s.stats, a.failDamage)) else s;
        Some(if a.failHeal != 0 then s1.(stats := HealPlayer(s1.stats, a.failHeal)) else s1)
    case Cast =>
      if s.stats.mana < a.manaCost then None
      else
        var s1 := s.(stats := s.stats.(mana := s.stats.mana - a.manaCost));
        Some(Hit(s1, PlayerDamage(cfg, s1, a.bonus, a.variance, d)))
    case Other(_) => Some(s)
  }

  /** The room a victory leads to: `victory_to`, else the option's `to`,
      else the current room ("" when none of them is set). */
  function VictoryTarget(s: GameState): string
    requires s.currentBattle.Some?
  {
    var b := s.currentBattle.value;
    if b.spec.victoryTo != "" then b.spec.victoryTo
    else if b.optionTo != "" then b.optionTo
    else s.currentRoomId
  }

  /** `_handle_victory` with `_collect_loot`: XP_PER_VICTORY more experience,
      one of each loot entry, the battle over and, when there is a room to
      go to, the move there scheduled. */
  function HandleVictory(cfg: Config, s: GameState): (r: GameState)
    ensures s.currentBattle.None? ==> r == s
    ensures r.currentBattle.None?
  {
    if s.currentBattle.None? then s
    else
      var next := VictoryTarget(s);
      s.(stats := s.stats.(xp := s.stats.xp + cfg.xpPerVictory),
         inventory := AddAll(s.inventory, s.currentBattle.value.spec.enemy.loot),
         currentBattle := None,
         pending := if next != "" then Some(next) else s.pending)
  }

  /** The room a defeat leads to: `defeat_to`, else DEFEAT_ROOM_ID, else
      START_ROOM_ID when the defaults do not define DEFEAT_ROOM_ID. */
  function DefeatTarget(cfg: Config, b: BattleSpec): string {
    if b.defeatTo != "" then b.defeatTo else cfg.defeatRoomId.GetOr(cfg.startRoomId)
  }

  /** `_handle_defeat`: full hit points, the battle over and the move to the
      defeat room scheduled. */
  function HandleDefeat(cfg: Config, s: GameState): (r: GameState)
    ensures s.currentBattle.None? ==> r == s
    ensures s.currentBattle.Some? ==>
      && r == s.(stats := s.stats.(hp := s.stats.maxHp), currentBattle := None, pending := r.pending)
      && r.pending == Some(DefeatTarget(cfg, s.currentBattle.value.spec))
  {
    if s.currentBattle.None? then s
    else s.(stats := s.stats.(hp := s.stats.maxHp), currentBattle := None,
            pending := Some(DefeatTarget(cfg, s.currentBattle.value.spec)))
  }

  /** After the move: victory if the enemy is down (before it can strike
      back), otherwise the enemy attacks and a player at 0 hit points is
      defeated. */
  function AfterMove(cfg: Config, m: GameState, d: Dice): GameState
    requires m.currentBattle.Some?
  {
    if m.currentBattle.value.enemyHp <= 0 then HandleVictory(cfg, m)
    else
      var e := m.(stats := EnemyAttack(cfg, m.stats, m.currentBattle.value.spec.enemy, d.enemyRoll));
      if e.stats.hp <= 0 then HandleDefeat(cfg, e) else e
  }

  /** `_resolve_battle_action`. */
  function ResolveBattleAction(cfg: Config, s: GameState, a: BattleAction, d: Dice): (r: GameState)
    ensures s.currentBattle.None? ==> r == s
    ensures r.currentRoomId == s.currentRoomId && r.flags == s.flags
  {
    if s.currentBattle.None? then s
    else match Move(cfg, s, a, d)
      case None => s
      case Some(m) => AfterMove(cfg, m, d)
  }

  /** A cast without enough mana changes nothing. */
  lemma CastWithoutMana(cfg: Config, s: GameState, a: BattleAction, d: Dice)
    requires a.kind.Cast? && s.stats.mana < a.manaCost
    ensures ResolveBattleAction(cfg, s, a, d) == s
  {
  }

  /** A cast that can be paid for costs exactly its mana, whatever follows. */
  lemma CastSpends(cfg: Config, s: GameState, a: BattleAction, d: Dice)
    requires s.currentBattle.Some? && a.kind.Cast? && s.stats.mana >= a.manaCost
    ensures ResolveBattleAction(cfg, s, a, d).stats.mana == s.stats.mana - a.manaCost
  {
    var m := Move(cfg, s, a, d).value;
    assert m.stats.mana == s.stats.mana - a.manaCost;
  }

  /** The battle ends exactly when the move brings the enemy to 0 or the
      enemy's attack then brings the player to 0. */
  lemma BattleEnds(cfg: Config, s: GameState, a: BattleAction, d: Dice)
    requires s.currentBattle.Some? && Move(cfg, s, a, d).Some?
    ensures var m := Move(cfg, s, a, d).value;
      ResolveBattleAction(cfg, s, a, d).currentBattle.None? <==>
        m.currentBattle.value.enemyHp <= 0
        || EnemyAttack(cfg, m.stats, s.currentBattle.value.spec.enemy, d.enemyRoll).hp <= 0
  {
  }

  /** A move that brings the enemy to 0 wins before the enemy strikes: the
      player's hit points are those after the move. */
  lemma VictoryBeforeCounterAttack(cfg: Config, s: GameState, a: BattleAction, d: Dice)
    requires s.currentBattle.Some? && Move(cfg, s, a, d).Some?
    requires Move(cfg, s, a, d).value.currentBattle.value.enemyHp <= 0
    ensures var m := Move(cfg, s, a, d).value;
      ResolveBattleAction(cfg, s, a, d).stats == m.stats.(xp := m.stats.xp + cfg.xpPerVictory)
  {
  }

  /** What a victory grants: the experience, each loot entry once more in
      the inventory and nothing else, and the move to the victory room. */
  lemma VictoryMeans(cfg: Config, s: GameState)
    requires s.currentBattle.Some?
    ensures var r := HandleVictory(cfg, s);
      var loot := s.currentBattle.value.spec.enemy.loot;
      && r.stats == s.stats.(xp := s.stats.xp + cfg.xpPerVictory)
      && r.inventory.Keys == s.inventory.Keys + (set i | i in loot)
      && (forall k :: Get(r.inventory, k) == Get(s.inventory, k) + Count(loot, k))
      && r.currentRoomId == s.currentRoomId && r.flags == s.flags
      && (VictoryTarget(s) != "" ==> r.pending == Some(VictoryTarget(s)))
  {
    AddAllCounts(s.inventory, s.currentBattle.value.spec.enemy.loot);
  }

  /** A skill check that passes never hurts the player (with a
      non-negative heal) and one that fails never touches the enemy. */
  lemma SkillCheckOutcome(cfg: Config, s: GameState, a: BattleAction, d: Dice)
    requires s.currentBattle.Some? && a.kind.SkillCheck? && Healthy(s.stats)
    requires a.successHeal >= 0 && a.successDamage >= 0 && s.currentBattle.value.enemyHp >= 0
    ensures var m := Move(cfg, s, a, d).value;
      if StatValue(s.stats, a.stat) >= a.gte then
        && m.stats.hp >= s.stats.hp
        && m.currentBattle.value.enemyHp == Max(0, s.currentBattle.value.enemyHp - a.successDamage)
      else m.currentBattle == s.currentBattle
  {
  }

  /** With non-negative damage and healing in the action, a battle turn
      keeps hit points between 0 and the maximum. */
  lemma ResolveKeepsHealthy(cfg: Config, s: GameState, a: BattleAction, d: Dice)
    requires Healthy(s.stats)
    requires a.failDamage >= 0 && a.successHeal >= 0 && a.failHeal >= 0
    ensures Healthy(ResolveBattleAction(cfg, s, a, d).stats)
  {
    if s.currentBattle.Some? && Move(cfg, s, a, d).Some? {
      var m := Move(cfg, s, a, d).value;
      assert Healthy(m.stats);
    }
  }

  /** `root.after`'s callback: the scheduled move, if any. */
  function RunScheduled(w: World, s: GameState): (r: GameState)
    ensures r.pending.None? || r == s
    ensures s.pending.Some? && s.pending.value in w.rooms ==> r.currentRoomId == s.pending.value
  {
    if s.pending.None? then s else GoTo(w, s.(pending := None), s.pending.value, false)
  }

  // ---------------------------------------------------------------------------
  // Items

  /** One `stat: delta` entry of an item: a stat name gets the delta, hit
      points clamped to [0, max_hp]; other names are ignored. */
  function ApplyEffect(st: Stats, e: (string, int)): Stats {
    if !IsStat(e.0) then st
    else
      var v := StatValue(st, e.0) + e.1;
      WithStat(st, e.0, if e.0 == "hp" then Min(st.maxHp, Max(0, v)) else v)
  }

  /** The effects applied in the dictionary's order. */
  function ApplyEffects(st: Stats, effects: seq<(string, int)>): Stats
    decreases |effects|
  {
    if effects == [] then st else ApplyEffects(ApplyEffect(st, effects[0]), effects[1..])
  }

  /** The sum of the deltas an effect list gives to one stat. */
  function Delta(effects: seq<(string, int)>, name: string): int
    decreases |effects|
  {
    if effects == [] then 0
    else (if effects[0].0 == name then effects[0].1 else 0) + Delta(effects[1..], name)
  }

  /** Every stat but hit points moves by exactly the sum of its deltas. */
  lemma {:induction false} EffectsAdd(st: Stats, effects: seq<(string, int)>, name: string)
    requires IsStat(name) && name != "hp"
    ensures StatValue(ApplyEffects(st, effects), name) == StatValue(st, name) + Delta(effects, name)
    decreases |effects|
  {
    if effects != [] {
      var st1 := ApplyEffect(st, effects[0]);
      assert StatValue(st1, name) == StatValue(st, name) + (if effects[0].0 == name then effects[0].1 else 0);
      EffectsAdd(st1, effects[1..], name);
    }
  }

  /** Effects that leave max_hp alone keep hit points between 0 and the
      maximum. */
  lemma {:induction false} EffectsKeepHealthy(st: Stats, effects: seq<(string, int)>)
    requires Healthy(st)
    requires forall i | 0 <= i < |effects| :: effects[i].0 != "max_hp"
    ensures Healthy(ApplyEffects(st, effects))
    decreases |effects|
  {
    if effects != [] {
      var st1 := ApplyEffect(st, effects[0]);
      assert StatValue(st1, "max_hp") == st.maxHp;
      assert Healthy(st1);
      EffectsKeepHealthy(st1, effects[1..]);
    }
  }

  /** `_use_item`: an item not carried or without a definition is refused
      with nothing changed; otherwise its effects apply and one unit is
      used up. */
  function UseItem(items: map<string, ItemDef>, s: GameState, id: string): (r: (GameState, bool))
    ensures r.1 <==> id in s.inventory && id in items
    ensures !r.1 ==> r.0 == s
    ensures r.1 ==> r.0 == s.(stats := r.0.stats, inventory := s.inventory[id := s.inventory[id] - 1])
  {
    if id !in s.inventory || id !in items then (s, false)
    else (s.(stats := ApplyEffects(s.stats, items[id].effects),
             inventory := s.inventory[id := s.inventory[id] - 1]), true)
  }

  /** The small potion restores 5 hit points up to the maximum and changes
      no other stat. */
  lemma PotionHeals(s: GameState)
    requires "potion_small" in s.inventory
    ensures var r := UseItem(DefaultItemEffects, s, "potion_small");
      && r.1
      && r.0.stats == s.stats.(hp := Min(s.stats.maxHp, Max(0, s.stats.hp + 5)))
      && r.0.inventory == s.inventory["potion_small" := s.inventory["potion_small"] - 1]
  {
    var st := s.stats;
    assert ApplyEffects(st, [("hp", 5)]) == ApplyEffects(ApplyEffect(st, ("hp", 5)), []);
  }
}
