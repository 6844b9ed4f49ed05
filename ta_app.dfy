/** text_adventure's `GameApp` (text_adventure/engine/core.py) as a class whose
    fields are the game state the source keeps on `self`. Each method makes
    the source's changes in place, in the source's order, and is proved to
    leave the state the matching function of TaRules describes; the
    properties of the game are proved about those functions. */
module TaApp {
  import opened Common
  import opened TaModels
  import T = TaRules

  class GameApp {
    /** The rooms, battles and defaults the game was built with. */
    const world: World

    var stats: Stats
    var inventory: map<string, int>
    var flags: map<string, bool>
    var currentRoomId: string
    var currentBattle: Option<Battle>
    var pending: Option<string>

    /** The fields as one value. */
    function State(): GameState
      reads this
    {
      GameState(stats, inventory, flags, currentRoomId, currentBattle, pending)
    }

    /** `__init__` without a save file: STARTING_STATS, an empty inventory and
        no flags, then `go_to(START_ROOM_ID, initial=True)`. */
    constructor(w: World)
      ensures world == w
      ensures State() == T.GoTo(w, GameState(w.cfg.startingStats, map[], map[], "", None, None),
                                w.cfg.startRoomId, true)
    {
      world := w;
      stats := w.cfg.startingStats;
      inventory := map[];
      flags := map[];
      currentRoomId := "";
      currentBattle := None;
      pending := None;
      new;
      var start := if currentRoomId != "" then currentRoomId else w.cfg.startRoomId;
      GoTo(start, true);
    }

    // -------------------------------------------------------------------------
    // Rooms

    /** `_regen_mana`. */
    method RegenMana()
      modifies this`stats
      ensures stats == T.RegenMana(world.cfg, old(stats))
    {
      if world.cfg.manaPerRoom <= 0 {
        return;
      }
      stats := stats.(mana := stats.mana + world.cfg.manaPerRoom);
    }

    /** `go_to`. */
    method GoTo(roomId: string, initial: bool)
      modifies this`stats, this`currentRoomId, this`currentBattle
      ensures State() == T.GoTo(world, old(State()), roomId, initial)
    {
      if roomId !in world.rooms {
        return;
      }
      if !initial {
        RegenMana();
      }
      currentRoomId := roomId;
      currentBattle := None;
    }

    /** `_handle_room_option`. */
    method HandleRoomOption(o: OptionSpec)
      modifies this`stats, this`currentRoomId, this`currentBattle
      ensures State() == T.HandleRoomOption(world, old(State()), o)
    {
      if o.battleId != "" {
        if o.battleId !in world.battles {
          return;
        }
        StartBattle(world.battles[o.battleId], o.to);
        return;
      }
      if o.to != "" {
        GoTo(o.to, false);
        return;
      }
    }

    /** `start_battle`. */
    method StartBattle(b: BattleSpec, optionTo: string)
      modifies this`currentBattle
      ensures State() == T.StartBattle(old(State()), b, optionTo)
    {
      currentBattle := Some(Battle(b, optionTo, b.enemy.hp));
    }

    // -------------------------------------------------------------------------
    // Battles

    /** `_calculate_player_damage`. */
    method CalculatePlayerDamage(bonus: int, variance: int, d: Dice) returns (damage: int)
      ensures damage == T.PlayerDamage(world.cfg, State(), bonus, variance, d)
    {
      var spread := Max(0, variance + world.cfg.damageVariance.GetOr(0));
      var roll := DieRoll(d.playerRoll, spread);
      damage := Max(0, stats.attack + bonus + roll);
      damage := damage - if currentBattle.Some? then currentBattle.value.spec.enemy.defence else 0;
      damage := Max(0, damage);
      if world.cfg.critChance > 0.0 && d.critDraw < world.cfg.critChance {
        damage := CritDamage(damage, world.cfg.critMultiplier);
      }
    }

    /** `_enemy_attack`. */
    method EnemyAttack(b: BattleSpec, d: Dice)
      modifies this`stats
      ensures stats == T.EnemyAttack(world.cfg, old(stats), b.enemy, d.enemyRoll)
    {
      var variance := world.cfg.damageVariance.GetOr(2);
      var roll := DieRoll(d.enemyRoll, Max(0, variance));
      var damage := Max(0, b.enemy.attack + roll - stats.defence);
      if damage > 0 {
        TakeDamage(damage);
      }
    }

    /** `_take_damage`. */
    method TakeDamage(amount: int)
      modifies this`stats
      ensures stats == T.TakeDamage(old(stats), amount)
    {
      stats := stats.(hp := Max(0, stats.hp - amount));
    }

    /** `_heal_player`. */
    method HealPlayer(amount: int)
      modifies this`stats
      ensures stats == T.HealPlayer(old(stats), amount)
    {
      stats := stats.(hp := Min(stats.maxHp, stats.hp + amount));
    }

    /** Lowers the enemy's hit points, floored at 0. */
    method HitEnemy(damage: int)
      requires currentBattle.Some?
      modifies this`currentBattle
      ensures State() == T.Hit(old(State()), damage)
    {
      currentBattle := Some(currentBattle.value.(enemyHp := Max(0, currentBattle.value.enemyHp - damage)));
    }

    /** The player's move of `_resolve_battle_action`; false for the cast
        without enough mana. */
    method PlayerMove(a: BattleAction, d: Dice) returns (acted: bool)
      requires currentBattle.Some?
      modifies this`stats, this`currentBattle
      ensures var m := T.Move(world.cfg, old(State()), a, d);
        acted == m.Some? && (acted ==> State() == m.value) && (!acted ==> State() == old(State()))
    {
      match a.kind {
        case Attack =>
          var damage := CalculatePlayerDamage(a.bonus, a.variance, d);
          HitEnemy(damage);
        case SkillCheck =>
          if StatValue(stats, a.stat) >= a.gte {
            if a.successDamage != 0 {
              HitEnemy(a.successDamage);
            }
            if a.successHeal != 0 {
              HealPlayer(a.successHeal);
            }
          } else {
            if a.failDamage != 0 {
              TakeDamage(a.failDamage);
            }
            if a.failHeal != 0 {
              HealPlayer(a.failHeal);
            }
          }
        case Cast =>
          if stats.mana < a.manaCost {
            return false;
          }
          stats := stats.(mana := stats.mana - a.manaCost);
          var damage := CalculatePlayerDamage(a.bonus, a.variance, d);
          HitEnemy(damage);
        case Other(_) =>
      }
      return true;
    }

    /** `_resolve_battle_action`. */
    method ResolveBattleAction(a: BattleAction, d: Dice)
      modifies this`stats, this`inventory, this`currentBattle, this`pending
      ensures State() == T.ResolveBattleAction(world.cfg, old(State()), a, d)
    {
      if currentBattle.None? {
        return;
      }
      var battle := currentBattle.value.spec;
      var acted := PlayerMove(a, d);
      if !acted {
        return;
      }
      if currentBattle.value.enemyHp <= 0 {
        HandleVictory();
        return;
      }
      EnemyAttack(battle, d);
      if stats.hp <= 0 {
        HandleDefeat();
        return;
      }
    }

    /** `_handle_victory`. The move to the next room is scheduled in
        `pending`, as the source schedules it with `root.after`. */
    method HandleVictory()
      modifies this`stats, this`inventory, this`currentBattle, this`pending
      ensures State() == T.HandleVictory(world.cfg, old(State()))
    {
      if currentBattle.None? {
        return;
      }
      var battle := currentBattle.value.spec;
      stats := stats.(xp := stats.xp + world.cfg.xpPerVictory);
      CollectLoot(battle.enemy.loot);
      var next := if battle.victoryTo != "" then battle.victoryTo
                  else if currentBattle.value.optionTo != "" then currentBattle.value.optionTo
                  else currentRoomId;
      currentBattle := None;
      if next != "" {
        pending := Some(next);
      }
    }

    /** `_handle_defeat`. */
    method HandleDefeat()
      modifies this`stats, this`currentBattle, this`pending
      ensures State() == T.HandleDefeat(world.cfg, old(State()))
    {
      if currentBattle.None? {
        return;
      }
      var battle := currentBattle.value.spec;
      stats := stats.(hp := stats.maxHp);
      var defeatRoom := if battle.defeatTo != "" then battle.defeatTo
                        else world.cfg.defeatRoomId.GetOr(world.cfg.startRoomId);
      currentBattle := None;
      pending := Some(defeatRoom);
    }

    /** `_collect_loot`: one more of each entry, in order. */
    method CollectLoot(items: seq<string>)
      modifies this`inventory
      ensures inventory == AddAll(old(inventory), items)
    {
      if items == [] {
        return;
      }
      for i := 0 to |items|
        invariant AddAll(inventory, items[i..]) == AddAll(old(inventory), items)
      {
        assert items[i..][1..] == items[i + 1..];
        inventory := inventory[items[i] := Get(inventory, items[i]) + 1];
      }
    }

    /** The `root.after` callback: the scheduled move to a room. */
    method RunScheduled()
      modifies this`stats, this`currentRoomId, this`currentBattle, this`pending
      ensures State() == T.RunScheduled(world, old(State()))
    {
      if pending.None? {
        return;
      }
      var target := pending.value;
      pending := None;
      GoTo(target, false);
    }

    // -------------------------------------------------------------------------
    // Items

    /** `_use_item` with `DEFAULT_ITEM_EFFECTS`. */
    method UseItem(id: string) returns (used: bool)
      modifies this`stats, this`inventory
      ensures (State(), used) == T.UseItem(T.DefaultItemEffects, old(State()), id)
    {
      if id !in inventory {
        return false;
      }
      if id !in T.DefaultItemEffects {
        return false;
      }
      var effects := T.DefaultItemEffects[id].effects;
      for i := 0 to |effects|
        invariant T.ApplyEffects(stats, effects[i..]) == T.ApplyEffects(old(stats), effects)
        invariant inventory == old(inventory)
      {
        assert effects[i..][1..] == effects[i + 1..];
        var (name, delta) := effects[i];
        if IsStat(name) {
          var value := StatValue(stats, name) + delta;
          if name == "hp" {
            value := Min(stats.maxHp, Max(0, value));
          }
          stats := WithStat(stats, name, value);
        }
      }
      inventory := inventory[id := inventory[id] - 1];
      return true;
    }
  }
}
