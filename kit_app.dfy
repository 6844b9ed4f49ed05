/** levelkit_text's `GameApp` (levelkit_text/engine/core.py) as a class whose
    fields are the game state the source keeps on `self`. Every method makes
    the source's changes in place, step by step and with the source's loops,
    and is proved to leave exactly the state the matching function of
    KitRules, KitLoot, KitBattle or KitWorld describes; the properties of the
    game are proved about those functions. */
module KitApp {
  import opened Common
  import opened KitModels
  import R = KitRules
  import L = KitLoot
  import B = KitBattle
  import W = KitWorld

  class GameApp {
    /** The rooms, battles, defaults and random source the game was built
        with. */
    const world: World

    var stats: Stats
    var inventory: map<string, int>
    var flags: map<string, int>
    var timedFlags: map<string, int>
    var alertLevel: int
    var currentRoomId: string
    var currentBattle: Option<Encounter>
    var uniqueLootAwards: set<string>
    var equipment: map<string, Option<string>>
    var battleRepeatTracker: map<string, int>
    var manaRegenReserve: real
    var pendingRoom: string
    var drawsUsed: nat
    var rollsUsed: nat

    /** The fields as one value. */
    function State(): GameState
      reads this
    {
      GameState(stats, inventory, flags, timedFlags, alertLevel, currentRoomId, currentBattle,
                uniqueLootAwards, equipment, battleRepeatTracker, manaRegenReserve, pendingRoom,
                drawsUsed, rollsUsed)
    }

    /** The state `__init__` builds before entering the first room. */
    static function Initial(start: Stats): (s: GameState)
      ensures Inv(s)
    {
      GameState(start, map[], map[], map[], 0, "", None, {}, map["melee" := None, "ranged" := None],
                map[], 0.0, "", 0, 0)
    }

    /** `__init__`: the starting stats, empty inventory and flags, both weapon
        slots empty, then `go_to(START_ROOM_ID, initial=True)`. */
    constructor(w: World, start: Stats)
      ensures world == w
      ensures State() == W.GoTo(w, Initial(start), w.cfg.startRoomId, true)
      ensures Inv(State())
    {
      world := w;
      stats := start;
      inventory := map[];
      flags := map[];
      timedFlags := map[];
      alertLevel := 0;
      currentRoomId := "";
      currentBattle := None;
      uniqueLootAwards := {};
      equipment := map["melee" := None, "ranged" := None];
      battleRepeatTracker := map[];
      manaRegenReserve := 0.0;
      pendingRoom := "";
      drawsUsed := 0;
      rollsUsed := 0;
      new;
      var faded := GoTo(w.cfg.startRoomId, true);
    }

    // -------------------------------------------------------------------------
    // Flags

    /** `_set_flag`. */
    method SetFlag(flag: string, value: int) returns (changed: bool)
      modifies this`flags
      ensures flags == R.SetFlag(old(flags), flag, value).0
      ensures changed == R.SetFlag(old(flags), flag, value).1
    {
      if flag in flags && flags[flag] == value {
        return false;
      }
      flags := flags[flag := value];
      return true;
    }

    /** `_clear_flag`. */
    method ClearFlag(flag: string) returns (removed: bool)
      modifies this`flags, this`timedFlags
      ensures var c := R.ClearFlag(old(flags), old(timedFlags), flag);
        flags == c.0 && timedFlags == c.1 && removed == c.2
    {
      removed := flag in flags;
      flags := flags - {flag};
      timedFlags := timedFlags - {flag};
    }

    /** `_tick_timed_flags`: one pass over the timed flags as they were when
        the pass began. Returns the flags that faded. */
    method TickTimedFlags() returns (faded: set<string>)
      modifies this`flags, this`timedFlags
      ensures var t := R.Tick(old(flags), old(timedFlags));
        flags == t.0 && timedFlags == t.1 && faded == t.2
    {
      ghost var flags0, timed0 := flags, timedFlags;
      var todo := timedFlags.Keys;
      faded := {};
      while todo != {}
        invariant todo <= timed0.Keys
        invariant forall f :: f in flags <==> f in flags0 && !(f in R.Expiring(timed0) && f !in todo)
        invariant forall f | f in flags :: flags[f] == flags0[f]
        invariant forall f :: f in timedFlags <==> f in timed0 && (f in todo || f in R.Surviving(timed0))
        invariant forall f | f in timedFlags :: timedFlags[f] == if f in todo then timed0[f] else timed0[f] - 1
        invariant forall f :: f in faded <==> f in R.Expiring(timed0) && f in flags0 && f !in todo
        decreases |todo|
      {
        var flag :| flag in todo;
        var remaining := timedFlags[flag] - 1;
        if remaining <= 0 {
          timedFlags := timedFlags - {flag};
          if flag in flags {
            flags := flags - {flag};
            faded := faded + {flag};
          }
        } else {
          timedFlags := timedFlags[flag := remaining];
        }
        todo := todo - {flag};
      }
      var t := R.Tick(flags0, timed0);
      assert flags == t.0;
      assert timedFlags == t.1;
    }

    // -------------------------------------------------------------------------
    // Inventory and weapons

    /** `_consume_inventory`. */
    method ConsumeInventory(item: string, amount: int)
      modifies this`inventory
      ensures inventory == R.ConsumeInventory(old(inventory), item, amount)
    {
      if amount <= 0 {
        return;
      }
      var remaining := Get(inventory, item) - amount;
      if remaining <= 0 {
        inventory := inventory - {item};
      } else {
        inventory := inventory[item := remaining];
      }
    }

    /** `_collect_loot`, and the gain step of `_apply_option_effects`: every
        item listed adds one to its count. */
    method CollectLoot(items: seq<string>)
      modifies this`inventory
      ensures inventory == AddAll(old(inventory), items)
    {
      var i := 0;
      while i < |items|
        invariant i <= |items|
        invariant AddAll(inventory, items[i..]) == AddAll(old(inventory), items)
      {
        assert items[i..][1..] == items[i + 1..];
        inventory := inventory[items[i] := Get(inventory, items[i]) + 1];
        i := i + 1;
      }
    }

    /** `_apply_weapon_effects`: every effect naming a stat shifts it by its
        delta, negated when the weapon comes off. */
    method ApplyWeaponEffects(effects: seq<(string, int)>, remove: bool)
      modifies this`stats
      ensures stats == R.WeaponEffects(old(stats), effects, remove)
    {
      var i := 0;
      while i < |effects|
        invariant i <= |effects|
        invariant R.WeaponEffects(stats, effects[i..], remove) == R.WeaponEffects(old(stats), effects, remove)
      {
        assert effects[i..][1..] == effects[i + 1..];
        var name := effects[i].0;
        var change := if remove then -effects[i].1 else effects[i].1;
        if IsStat(name) {
          stats := WithStat(stats, name, StatValue(stats, name) + change);
        }
        i := i + 1;
      }
    }

    /** `_unequip_weapon`. */
    method UnequipWeapon(slot: string)
      modifies this`stats, this`equipment
      ensures var u := R.Unequip(world.cfg, old(stats), old(equipment), slot);
        stats == u.0 && equipment == u.1
    {
      var current := R.Equipped(equipment, slot);
      if !R.Occupied(current) {
        return;
      }
      ApplyWeaponEffects(R.ItemDefinition(world.cfg, current.value).effects, true);
      equipment := equipment[slot := None];
    }

    /** `_equip_weapon`: the weapon goes into its slot, replacing (and
        unequipping) whatever was there, unless it is already there. */
    method EquipWeapon(item: string) returns (equipped: bool)
      modifies this`stats, this`equipment
      ensures var e := R.Equip(world.cfg, old(stats), old(equipment), item);
        stats == e.0 && equipment == e.1 && equipped == e.2
    {
      var definition := R.ItemDefinition(world.cfg, item);
      var slot := R.WeaponSlot(definition);
      if R.Equipped(equipment, slot) == Some(item) {
        return false;
      }
      UnequipWeapon(slot);
      equipment := equipment[slot := Some(item)];
      ApplyWeaponEffects(definition.effects, false);
      return true;
    }

    // -------------------------------------------------------------------------
    // Moving

    /** `_regen_mana`. */
    method RegenMana()
      modifies this`manaRegenReserve, this`stats
      ensures var rg := R.Regen(world.cfg.manaPerRoom, old(manaRegenReserve), old(stats.mana), old(stats.maxMana));
        manaRegenReserve == rg.0 && stats == old(stats).(mana := rg.1)
    {
      var rate := world.cfg.manaPerRoom;
      if rate <= 0.0 {
        return;
      }
      manaRegenReserve := manaRegenReserve + rate;
      var points := Trunc(manaRegenReserve);
      if points <= 0 {
        return;
      }
      manaRegenReserve := manaRegenReserve - points as real;
      stats := stats.(mana := Min(stats.maxMana, stats.mana + points));
    }

    /** `go_to`. Returns the flags that faded on the way. */
    method GoTo(room: string, initial: bool) returns (faded: set<string>)
      modifies this`flags, this`timedFlags, this`manaRegenReserve, this`stats, this`currentRoomId, this`currentBattle
      ensures State() == W.GoTo(world, old(State()), room, initial)
    {
      faded := {};
      if room !in world.rooms {
        return;
      }
      if !initial {
        faded := Travel();
      }
      currentRoomId := room;
      currentBattle := None;
    }

    /** What a move costs before the new room is entered: the timers tick
        and mana regenerates. Returns the flags that faded. */
    method Travel() returns (faded: set<string>)
      modifies this`flags, this`timedFlags, this`manaRegenReserve, this`stats
      ensures State() == W.Travel(world.cfg, old(State()))
    {
      ghost var s := State();
      faded := TickTimedFlags();
      RegenMana();
      assert flags == R.Tick(s.flags, s.timedFlags).0;
      assert timedFlags == R.Tick(s.flags, s.timedFlags).1;
      assert manaRegenReserve == R.Regen(world.cfg.manaPerRoom, s.manaRegenReserve, s.stats.mana, s.stats.maxMana).0;
      assert stats == s.stats.(mana := R.Regen(world.cfg.manaPerRoom, s.manaRegenReserve, s.stats.mana, s.stats.maxMana).1);
    }

    /** `_execute_pending_transition`. */
    method ExecutePendingTransition()
      modifies this`flags, this`timedFlags, this`manaRegenReserve, this`stats, this`currentRoomId, this`currentBattle, this`pendingRoom
      ensures State() == W.Continue(world, old(State()))
    {
      var next := pendingRoom;
      pendingRoom := "";
      if next != "" {
        var faded := GoTo(next, false);
      }
    }

    // -------------------------------------------------------------------------
    // Loot

    /** One attempt of `_roll_loot_table`: the first entry of the table that
        passes its chance and, when unique, has not been awarded before. */
    method AttemptOnce(table: seq<LootEntry>) returns (index: Option<nat>)
      modifies this`uniqueLootAwards, this`drawsUsed
      ensures (index, uniqueLootAwards, drawsUsed) ==
              L.AttemptFrom(world.rng.unit, table, 0, old(uniqueLootAwards), old(drawsUsed))
    {
      var unit := world.rng.unit;
      ghost var a := L.AttemptFrom(unit, table, 0, uniqueLootAwards, drawsUsed);
      index := None;
      var j := 0;
      while j < |table| && index.None?
        invariant j <= |table|
        invariant index.None? ==> L.AttemptFrom(unit, table, j, uniqueLootAwards, drawsUsed) == a
        invariant index.Some? ==> a == (index, uniqueLootAwards, drawsUsed)
      {
        var entry := table[j];
        if entry.item != "" {
          var chance := Clamp01(entry.chance);
          var missed := false;
          if chance < 1.0 {
            missed := unit(drawsUsed) > chance;
            drawsUsed := drawsUsed + 1;
          }
          if !missed {
            if !entry.unique {
              index := Some(j);
            } else if L.UniqueKey(entry) !in uniqueLootAwards {
              uniqueLootAwards := uniqueLootAwards + {L.UniqueKey(entry)};
              index := Some(j);
            }
          }
        }
        j := j + 1;
      }
    }

    /** `_roll_loot_table`: up to `max(1, rolls)` attempts, each awarding the
        item of the entry it picks. */
    method RollLootTable(table: seq<LootEntry>, rolls: int) returns (awards: seq<string>)
      modifies this`uniqueLootAwards, this`drawsUsed
      ensures var r := L.Roll(world.rng.unit, table, rolls, old(uniqueLootAwards), old(drawsUsed));
        awards == L.ItemsOf(table, r.0) && uniqueLootAwards == r.1 && drawsUsed == r.2
    {
      if table == [] {
        return [];
      }
      ghost var u0, k0 := uniqueLootAwards, drawsUsed;
      awards := [];
      var attempts := L.AttemptCount(rolls);
      var n := 0;
      while n < attempts
        invariant n <= attempts
        invariant RollAcc(world.rng.unit, table, attempts - n, uniqueLootAwards, drawsUsed, awards) ==
                  RollAcc(world.rng.unit, table, attempts, u0, k0, [])
      {
        var index := AttemptOnce(table);
        if index.Some? {
          awards := awards + [L.ItemOf(table, index.value)];
        }
        n := n + 1;
      }
      RollAccMeans(world.rng.unit, table, attempts, u0, k0, []);
    }

    // -------------------------------------------------------------------------
    // Option effects

    /** The `equip_item` step of `_apply_option_effects`: every listed id the
        player holds and that names a weapon is equipped. */
    method EquipTargets(ids: seq<string>) returns (changed: bool)
      modifies this`stats, this`equipment
      ensures var r := W.EquipTargets(world.cfg, old(State()), ids);
        State() == r.0 && changed == r.1
    {
      changed := false;
      var i := 0;
      while i < |ids|
        invariant i <= |ids|
        invariant var r := W.EquipTargets(world.cfg, State(), ids[i..]);
          var total := W.EquipTargets(world.cfg, old(State()), ids);
          r.0 == total.0 && (changed || r.1) == total.1
      {
        assert ids[i..][1..] == ids[i + 1..];
        var id := ids[i];
        if Get(inventory, id) > 0 && R.IsWeapon(R.ItemDefinition(world.cfg, id)) {
          var equipped := EquipWeapon(id);
          changed := changed || equipped;
        }
        i := i + 1;
      }
    }

    /** The gain step of `_apply_option_effects`: `gain_items` and the
        option's loot table go into the inventory. */
    method Gain(o: OptionSpec) returns (changed: bool)
      modifies this`uniqueLootAwards, this`drawsUsed, this`inventory
      ensures var r := W.Gain(world, old(State()), o);
        State() == r.0 && changed == r.1
    {
      var loot := RollLootTable(o.lootTable, o.lootRolls);
      var gained := o.gainItems + loot;
      CollectLoot(gained);
      changed := gained != [];
    }

    /** The gains (`gain_items` and the loot table), `set_flag` and
        `equip_item`. */
    method Acquire(o: OptionSpec) returns (changed: bool)
      modifies this`uniqueLootAwards, this`drawsUsed, this`inventory, this`flags, this`stats, this`equipment
      ensures var r := W.Acquire(world, old(State()), o);
        State() == r.0 && changed == r.1
    {
      ghost var s := State();
      changed := Gain(o);
      ghost var g := State();
      if o.setFlag != "" {
        var raised := SetFlag(o.setFlag, 1);
        changed := changed || raised;
      }
      assert State() == g.(flags := if o.setFlag != "" then R.SetFlag(g.flags, o.setFlag, 1).0 else g.flags);
      var equipped := EquipTargets(o.effects.equipItem);
      changed := changed || equipped;
    }

    /** The `set` map of an option's effects: each flag takes its value and,
        with a timer, that many rooms to live. */
    method SetFlagMap(values: map<string, int>, timer: nat) returns (changed: bool)
      modifies this`flags, this`timedFlags
      ensures flags == old(flags) + values
      ensures timedFlags == if timer > 0 then W.Stamp(old(timedFlags), values, timer) else old(timedFlags)
      ensures changed <==> exists f | f in values :: f !in old(flags) || old(flags)[f] != values[f]
    {
      ghost var flags0, timed0 := flags, timedFlags;
      changed := false;
      var todo := values.Keys;
      while todo != {}
        invariant todo <= values.Keys
        invariant flags == flags0 + Part(values, todo)
        invariant timedFlags == Timers(timed0, Part(values, todo), timer)
        invariant changed == Differs(flags0, values, todo)
        decreases |todo|
      {
        var flag :| flag in todo;
        PartStep(flags0, timed0, values, todo, flag, timer);
        var raised := SetFlag(flag, values[flag]);
        changed := changed || raised;
        if timer > 0 {
          timedFlags := timedFlags[flag := timer];
        }
        todo := todo - {flag};
      }
      assert Part(values, {}) == values;
      assert timedFlags == Timers(timed0, values, timer);
      assert changed == Differs(flags0, values, {});
    }

    /** The `inc` map of an option's effects: each flag goes up by its
        amount, from 0 when unset. */
    method IncFlagMap(inc: map<string, int>) returns (changed: bool)
      modifies this`flags
      ensures flags == W.RaiseAll(old(flags), inc)
      ensures changed <==> exists f | f in inc :: f !in old(flags) || inc[f] != 0
    {
      ghost var flags1 := flags;
      changed := false;
      var todo := inc.Keys;
      while todo != {}
        invariant todo <= inc.Keys
        invariant forall f :: f in flags <==> f in flags1 || (f in inc && f !in todo)
        invariant forall f | f in flags ::
                    flags[f] == if f in inc && f !in todo then Get(flags1, f) + inc[f] else flags1[f]
        invariant changed <==> exists f | f in inc && f !in todo :: f !in flags1 || inc[f] != 0
        decreases |todo|
      {
        var flag :| flag in todo;
        var raised := SetFlag(flag, Get(flags, flag) + inc[flag]);
        changed := changed || raised;
        todo := todo - {flag};
      }
      IncStep(flags1, flags, inc);
    }

    /** The `set` and `inc` maps of an option's effects, `set` first. */
    method FlagMaps(e: Effects) returns (changed: bool)
      modifies this`flags, this`timedFlags
      ensures var r := W.FlagMaps(old(State()), e);
        State() == r.0 && changed == r.1
    {
      changed := SetFlagMap(e.setFlags, W.TimerRooms(e));
      var raised := IncFlagMap(e.incFlags);
      changed := changed || raised;
    }

    /** `energy_cost`, `alert`, `enemy_stunned` and `roll_check`. Returns
        whether the roll check failed, the hit-point change pending on failure and
        whether the stun flag changed. */
    method Risk(e: Effects) returns (failed: bool, hpChange: int, stunChanged: bool)
      modifies this`stats, this`alertLevel, this`flags, this`drawsUsed
      ensures var r := W.Risk(world, old(State()), e);
        State() == r.0 && failed == r.1 && hpChange == r.2 && stunChanged == r.3
    {
      stunChanged := Strain(e);
      failed, hpChange := CheckRoll(e);
    }

    /** `energy_cost`, `alert` and `enemy_stunned`. Returns whether the stun
        flag changed. */
    method Strain(e: Effects) returns (stunChanged: bool)
      modifies this`stats, this`alertLevel, this`flags
      ensures var r := W.Strain(old(State()), e);
        State() == r.0 && stunChanged == r.1
    {
      if e.energyCost.Some? && Max(0, e.energyCost.value) != 0 {
        stats := stats.(stamina := Max(0, stats.stamina - Max(0, e.energyCost.value)));
      }
      if e.alert.Some? && e.alert.value != 0 {
        alertLevel := Max(0, alertLevel + e.alert.value);
      }
      stunChanged := false;
      if e.enemyStunned.Some? {
        stunChanged := SetFlag("enemy_stunned", e.enemyStunned.value);
      }
    }

    /** `roll_check`: one draw against the clamped pass chance. Returns
        whether it failed and the hit-point change pending on failure. */
    method CheckRoll(e: Effects) returns (failed: bool, hpChange: int)
      modifies this`alertLevel, this`drawsUsed
      ensures var r := W.Check(world, old(State()), e);
        State() == r.0 && failed == r.1 && hpChange == r.2
    {
      failed, hpChange := false, 0;
      if e.rollCheck.Some? {
        var check := e.rollCheck.value;
        var u := world.rng.unit(drawsUsed);
        drawsUsed := drawsUsed + 1;
        if u > Clamp01(check.pass) {
          failed := true;
          if check.onFailAlert.Some? {
            alertLevel := Max(0, alertLevel + check.onFailAlert.value);
          }
          hpChange := check.hpDeltaOnFail.GetOr(0) + e.hpDeltaOnFail.GetOr(0);
        }
      }
    }

    /** `clear_flag`, the timer of `set_flag`, and the consequences of a
        failed roll check. Returns whether a flag was cleared. */
    method Settle(o: OptionSpec, failed: bool, hpChange: int) returns (cleared: bool)
      modifies this`flags, this`timedFlags, this`alertLevel, this`stats
      ensures var r := W.Settle(old(State()), o, failed, hpChange);
        State() == r.0 && cleared == r.1
    {
      cleared := Unflag(o);
      TimeFlag(o);
      if failed {
        Fail(W.FailAlert(o.effects), hpChange);
      }
    }

    /** The option's `clear_flag`. */
    method Unflag(o: OptionSpec) returns (cleared: bool)
      modifies this`flags, this`timedFlags
      ensures (State(), cleared) == W.Unflag(old(State()), o)
    {
      cleared := false;
      if o.clearFlag != "" {
        cleared := ClearFlag(o.clearFlag);
      }
    }

    /** The timer of the option's `set_flag`. */
    method TimeFlag(o: OptionSpec)
      modifies this`timedFlags
      ensures State() == W.Time(old(State()), o)
    {
      var timer := W.TimerRooms(o.effects);
      if timer > 0 && o.setFlag != "" {
        timedFlags := timedFlags[o.setFlag := timer];
      }
    }

    /** The consequences of a failed roll check. */
    method Fail(alert: Option<int>, hpChange: int)
      modifies this`alertLevel, this`stats
      ensures State() == W.Fail(old(State()), alert, hpChange)
    {
      if alert.Some? {
        alertLevel := Max(0, alertLevel + alert.value);
      }
      if hpChange != 0 {
        stats := stats.(hp := Max(0, Min(stats.maxHp, stats.hp + hpChange)));
      }
    }

    /** `_apply_option_effects`. Returns whether the menu needs a refresh. */
    method ApplyOptionEffects(o: OptionSpec) returns (refresh: bool)
      modifies this`uniqueLootAwards, this`drawsUsed, this`inventory, this`flags, this`timedFlags, this`stats, this`equipment, this`alertLevel
      ensures State() == W.ApplyOptionEffects(world, old(State()), o)
      ensures refresh == W.EffectsRefresh(world, old(State()), o)
    {
      var acquired := Acquire(o);
      var flagsChanged := FlagMaps(o.effects);
      var failed, hpChange, stunChanged := Risk(o.effects);
      var cleared := Settle(o, failed, hpChange);
      refresh := acquired || flagsChanged || stunChanged || cleared;
    }

    /** `_handle_room_option`: the effects, then the option's battle (unless
        its repeat limit is reached or it is missing) or its destination. */
    method HandleRoomOption(o: OptionSpec)
      modifies this`uniqueLootAwards, this`drawsUsed, this`inventory, this`flags, this`timedFlags, this`stats,
               this`equipment, this`alertLevel, this`manaRegenReserve, this`currentRoomId, this`currentBattle
      ensures State() == W.HandleRoomOption(world, old(State()), o)
      ensures Inv(old(State())) ==> Inv(State())
    {
      if Inv(State()) {
        W.HandleKeepsInv(world, State(), o);
      }
      var refresh := ApplyOptionEffects(o);
      FollowOption(o);
    }

    /** The part of `_handle_room_option` after the effects. */
    method FollowOption(o: OptionSpec)
      modifies this`flags, this`timedFlags, this`manaRegenReserve, this`stats, this`currentRoomId, this`currentBattle
      ensures State() == W.Follow(world, old(State()), o)
    {
      if o.battleId != "" {
        var repeatKey := "";
        if W.Limited(o) {
          repeatKey := R.RepeatKey(currentRoomId, o);
          if Get(battleRepeatTracker, repeatKey) >= o.battleRepeatLimit.value {
            return;
          }
        }
        if o.battleId !in world.battles {
          return;
        }
        StartBattle(world.battles[o.battleId], o.to, repeatKey);
        return;
      }
      if o.to != "" {
        var faded := GoTo(o.to, false);
      }
    }

    // -------------------------------------------------------------------------
    // Battle

    /** `start_battle`. */
    method StartBattle(spec: BattleSpec, optionTo: string, repeatKey: string)
      modifies this`flags, this`currentBattle
      ensures State() == B.StartBattle(old(State()), spec, optionTo, repeatKey)
    {
      var stunned := Max(0, Get(flags, "enemy_stunned"));
      flags := flags - {"enemy_stunned"};
      var hp := spec.enemy.hp;
      if stunned != 0 {
        hp := hp - Min(hp, stunned * 4);
      }
      currentBattle := Some(Encounter(spec, optionTo, hp, repeatKey));
    }

    /** `_take_damage`. */
    method TakeDamage(amount: int)
      modifies this`stats
      ensures stats == B.TakeDamage(old(stats), amount)
    {
      stats := stats.(hp := Max(0, stats.hp - amount));
    }

    /** `_heal_player`. */
    method HealPlayer(amount: int)
      modifies this`stats
      ensures stats == B.Heal(old(stats), amount)
    {
      stats := stats.(hp := Min(stats.maxHp, stats.hp + amount));
    }

    /** `_calculate_player_damage`; the enemy's defence counts only during a
        battle. */
    method CalculatePlayerDamage(bonus: int, variance: int) returns (damage: int)
      modifies this`rollsUsed, this`drawsUsed
      ensures var defence := if old(currentBattle).Some? then old(currentBattle).value.spec.enemy.defence else 0;
        var d := B.PlayerDamage(world, old(State()), defence, bonus, variance);
        damage == d.0 && State() == d.1
    {
      var spread := Max(0, variance + world.cfg.damageVariance.GetOr(0));
      var roll := RandInt(world.rng, rollsUsed, spread);
      rollsUsed := rollsUsed + 1;
      damage := Max(0, stats.attack + bonus + roll);
      if currentBattle.Some? {
        damage := damage - currentBattle.value.spec.enemy.defence;
      }
      damage := Max(0, damage);
      damage := RollCritical(damage);
    }

    /** The critical-hit roll of `_calculate_player_damage`. */
    method RollCritical(damage: int) returns (result: int)
      modifies this`drawsUsed
      ensures (result, drawsUsed) == B.Critical(world, damage, old(drawsUsed))
    {
      result := damage;
      if world.cfg.critChance > 0.0 {
        var u := world.rng.unit(drawsUsed);
        drawsUsed := drawsUsed + 1;
        if u < world.cfg.critChance {
          result := CritDamage(damage, world.cfg.critMultiplier);
        }
      }
    }

    /** `_enemy_attack`. */
    method EnemyAttack(enemy: Enemy)
      modifies this`rollsUsed, this`stats
      ensures State() == B.EnemyAttack(world, old(State()), enemy)
    {
      var roll := RandInt(world.rng, rollsUsed, Max(0, world.cfg.damageVariance.GetOr(2)));
      rollsUsed := rollsUsed + 1;
      var damage := Max(0, enemy.attack + roll - stats.defence);
      if damage > 0 {
        TakeDamage(damage);
      }
    }

    /** The rewards of `_handle_victory`: XP_PER_VICTORY experience, the
        enemy's loot, then the battle's loot table. */
    method Reward(spec: BattleSpec)
      modifies this`stats, this`inventory, this`uniqueLootAwards, this`drawsUsed
      ensures State() == B.Reward(world, old(State()), spec)
    {
      Spoils(spec);
      TableLoot(spec);
    }

    /** XP_PER_VICTORY experience and the enemy's own loot. */
    method Spoils(spec: BattleSpec)
      modifies this`stats, this`inventory
      ensures State() == B.Spoils(world.cfg, old(State()), spec)
    {
      stats := stats.(xp := stats.xp + world.cfg.xpPerVictory);
      CollectLoot(spec.enemy.loot);
    }

    /** The battle's loot table, rolled and collected. */
    method TableLoot(spec: BattleSpec)
      modifies this`inventory, this`uniqueLootAwards, this`drawsUsed
      ensures State() == B.TableLoot(world, old(State()), spec)
    {
      ghost var s := State();
      var tableLoot := RollLootTable(spec.lootTable, spec.lootRolls);
      ghost var s1 := State();
      assert (tableLoot, s1) == B.RollLootState(world, s, spec.lootTable, spec.lootRolls);
      if tableLoot != [] {
        CollectLoot(tableLoot);
      }
    }

    /** `_handle_victory`. */
    method HandleVictory()
      modifies this`stats, this`inventory, this`uniqueLootAwards, this`drawsUsed, this`battleRepeatTracker,
               this`currentBattle, this`pendingRoom
      ensures State() == B.Victory(world, old(State()))
    {
      if currentBattle.None? {
        return;
      }
      var enc := currentBattle.value;
      var next := if enc.spec.victoryTo != "" then enc.spec.victoryTo
                  else if enc.optionTo != "" then enc.optionTo
                  else currentRoomId;
      ghost var s := State();
      assert next == B.VictoryTarget(s, enc);
      Reward(enc.spec);
      ghost var g := State();
      if enc.repeatKey != "" {
        battleRepeatTracker := battleRepeatTracker[enc.repeatKey := Get(battleRepeatTracker, enc.repeatKey) + 1];
      }
      assert battleRepeatTracker == B.Win(s.battleRepeatTracker, enc.repeatKey);
      currentBattle := None;
      pendingRoom := next;
      assert State() == g.(battleRepeatTracker := battleRepeatTracker, currentBattle := None, pendingRoom := next);
    }

    /** `_handle_defeat`. */
    method HandleDefeat()
      modifies this`stats, this`currentBattle, this`pendingRoom
      ensures State() == B.Defeat(world, old(State()))
    {
      if currentBattle.None? {
        return;
      }
      var spec := currentBattle.value.spec;
      stats := stats.(hp := stats.maxHp);
      currentBattle := None;
      pendingRoom := B.DefeatTarget(world.cfg, spec);
    }

    /** The enemy's strike that ends every turn that does not end the battle,
        with the defeat check after it. */
    method EnemyTurn(spec: BattleSpec)
      modifies this`rollsUsed, this`stats, this`currentBattle, this`pendingRoom
      ensures State() == B.EnemyTurn(world, old(State()), spec)
    {
      EnemyAttack(spec.enemy);
      if stats.hp <= 0 {
        HandleDefeat();
      }
    }

    /** `_pass_turn` ("Endure"). */
    method PassTurn()
      modifies this`rollsUsed, this`stats, this`currentBattle, this`pendingRoom
      ensures State() == B.PassTurn(world, old(State()))
    {
      if currentBattle.None? {
        return;
      }
      EnemyTurn(currentBattle.value.spec);
    }

    method SetEnemyHp(hp: int)
      requires currentBattle.Some?
      modifies this`currentBattle
      ensures State() == B.SetEnemyHp(old(State()), hp)
    {
      currentBattle := Some(currentBattle.value.(enemyHp := hp));
    }

    /** Victory at 0 enemy hit points, otherwise the enemy's turn. */
    method Finish(spec: BattleSpec)
      requires currentBattle.Some?
      modifies this`stats, this`inventory, this`uniqueLootAwards, this`drawsUsed, this`battleRepeatTracker, this`currentBattle, this`pendingRoom, this`rollsUsed
      ensures State() == B.Finish(world, old(State()), spec)
    {
      if currentBattle.value.enemyHp <= 0 {
        HandleVictory();
      } else {
        EnemyTurn(spec);
      }
    }

    /** An attack or a cast landing on the enemy. */
    method Strike(a: BattleAction)
      requires currentBattle.Some?
      modifies this`rollsUsed, this`drawsUsed, this`currentBattle
      ensures State() == B.Strike(world, old(State()), a)
    {
      var damage := CalculatePlayerDamage(a.bonus, a.variance);
      SetEnemyHp(Max(0, currentBattle.value.enemyHp - damage));
    }

    /** A skill check against the action's stat. */
    method SkillMove(a: BattleAction)
      requires currentBattle.Some?
      modifies this`stats, this`currentBattle
      ensures State() == B.SkillMove(old(State()), a)
    {
      if StatValue(stats, a.stat) >= a.gte {
        if a.successDamage != 0 {
          SetEnemyHp(Max(0, currentBattle.value.enemyHp - a.successDamage));
        }
        if a.successHeal != 0 {
          HealPlayer(a.successHeal);
        }
      } else {
        if a.failDamage != 0 {
          TakeDamage(a.failDamage);
        }
        if a.failHeal != 0 {
          HealPlayer(a.failHeal);
        }
      }
    }

    /** The move of the action's kind. Returns false, changing nothing, when
        a cast lacks the mana. */
    method Move(a: BattleAction) returns (moved: bool)
      requires currentBattle.Some?
      modifies this`stats, this`rollsUsed, this`drawsUsed, this`currentBattle
      ensures var m := B.Move(world, old(State()), a);
        moved == m.Some? && State() == if m.Some? then m.value else old(State())
    {
      moved := true;
      match a.kind
      case Attack =>
        Strike(a);
      case SkillCheck =>
        SkillMove(a);
      case Cast =>
        if stats.mana < a.manaCost {
          return false;
        }
        stats := stats.(mana := stats.mana - a.manaCost);
        Strike(a);
      case OtherKind =>
    }

    /** The move itself, once the requirement checks have passed, then victory or the
        enemy's turn. */
    method Perform(a: BattleAction)
      requires currentBattle.Some?
      modifies this`stats, this`inventory, this`uniqueLootAwards, this`drawsUsed, this`battleRepeatTracker, this`currentBattle, this`pendingRoom, this`rollsUsed
      ensures State() == B.Perform(world, old(State()), a)
    {
      var spec := currentBattle.value.spec;
      var moved := Move(a);
      if moved {
        Finish(spec);
      }
    }

    /** The hit roll of attacks and casts. Returns whether the action
        missed. */
    method RollToHit(a: BattleAction) returns (missed: bool)
      modifies this`drawsUsed
      ensures (missed, State()) == B.HitRoll(world, old(State()), a)
    {
      missed := false;
      if a.kind.Attack? || a.kind.Cast? {
        var chance := Clamp01(a.hitChance);
        if chance < 1.0 {
          var u := world.rng.unit(drawsUsed);
          drawsUsed := drawsUsed + 1;
          missed := u > chance;
        }
      }
    }

    /** The hit roll, then the move; a miss costs the turn. */
    method HitThenPerform(a: BattleAction)
      requires currentBattle.Some?
      modifies this`stats, this`inventory, this`uniqueLootAwards, this`drawsUsed, this`battleRepeatTracker, this`currentBattle, this`pendingRoom, this`rollsUsed
      ensures State() == B.HitThenPerform(world, old(State()), a)
    {
      var missed := RollToHit(a);
      if missed {
        EnemyTurn(currentBattle.value.spec);
      } else {
        Perform(a);
      }
    }

    /** `_resolve_battle_action`: a refused action or one short of
        ammunition costs the turn; otherwise ammunition is spent, attacks and
        casts roll to hit, and the move is made. */
    method ResolveBattleAction(a: BattleAction)
      modifies this`stats, this`inventory, this`uniqueLootAwards, this`drawsUsed, this`battleRepeatTracker, this`currentBattle, this`pendingRoom, this`rollsUsed
      ensures State() == B.Resolve(world, old(State()), a)
    {
      if currentBattle.None? {
        return;
      }
      ghost var s := State();
      var spec := currentBattle.value.spec;
      if B.ActionBlock(equipment, inventory, a).Some? {
        EnemyTurn(spec);
        return;
      }
      var cost := B.AmmoCost(a);
      if cost != 0 {
        if Get(inventory, a.ammoItem) < cost {
          EnemyTurn(spec);
          return;
        }
        ConsumeInventory(a.ammoItem, cost);
      }
      assert State() == s.(inventory := R.ConsumeInventory(s.inventory, a.ammoItem, cost));
      HitThenPerform(a);
    }

    // -------------------------------------------------------------------------
    // Items

    /** The effect loop of `_use_item`: every effect naming a stat shifts it,
        hit points clamped to [0, max_hp]. */
    method ApplyItemEffects(effects: seq<(string, int)>)
      modifies this`stats
      ensures stats == W.ItemEffects(old(stats), effects)
    {
      var i := 0;
      while i < |effects|
        invariant i <= |effects|
        invariant W.ItemEffects(stats, effects[i..]) == W.ItemEffects(old(stats), effects)
      {
        assert effects[i..][1..] == effects[i + 1..];
        var name := effects[i].0;
        if IsStat(name) {
          var value := StatValue(stats, name) + effects[i].1;
          if name == "hp" {
            value := Min(stats.maxHp, Max(0, value));
          }
          stats := WithStat(stats, name, value);
        }
        i := i + 1;
      }
    }

    /** `_use_item`. */
    method UseItem(item: string) returns (used: bool)
      modifies this`stats, this`equipment, this`inventory
      ensures var r := W.UseItem(world, old(State()), item);
        State() == r.0 && used == r.1
    {
      if item !in inventory {
        return false;
      }
      var definition := R.ItemDefinition(world.cfg, item);
      if R.IsWeapon(definition) {
        used := EquipWeapon(item);
        return;
      }
      if definition.category == "ammo" {
        return false;
      }
      ApplyItemEffects(definition.effects);
      if definition.category == "consumable" {
        var n := inventory[item] - 1;
        if n <= 0 {
          inventory := inventory - {item};
        } else {
          inventory := inventory[item := n];
        }
      }
      return true;
    }
  }

  lemma Reassociate<T>(a: seq<T>, b: seq<T>, c: seq<T>)
    ensures (a + b) + c == a + (b + c)
  {
  }

  /** The entries of `values` whose keys are not in `todo`. */
  function Part(values: map<string, int>, todo: set<string>): (r: map<string, int>)
    ensures forall f :: f in r <==> f in values && f !in todo
  {
    map f | f in values && f !in todo :: values[f]
  }

  /** Whether some entry of `values` outside `todo` is unset in `flags0` or
      set to a different value there. */
  ghost predicate Differs(flags0: map<string, int>, values: map<string, int>, todo: set<string>) {
    exists f | f in values && f !in todo :: f !in flags0 || flags0[f] != values[f]
  }

  /** The timers after the entries of `part` were set: with a timer, each
      has that many rooms to live. */
  function Timers(timed0: map<string, int>, part: map<string, int>, timer: nat): map<string, int> {
    if timer > 0 then W.Stamp(timed0, part, timer) else timed0
  }

  /** One step of the `set` loop of `GameApp.SetFlagMap`. */
  lemma PartStep(flags0: map<string, int>, timed0: map<string, int>, values: map<string, int>,
                 todo: set<string>, flag: string, timer: nat)
    requires flag in todo && flag in values
    ensures flags0 + Part(values, todo - {flag}) == (flags0 + Part(values, todo))[flag := values[flag]]
    ensures Timers(timed0, Part(values, todo - {flag}), timer) ==
            if timer > 0 then Timers(timed0, Part(values, todo), timer)[flag := timer] else Timers(timed0, Part(values, todo), timer)
    ensures var flags := flags0 + Part(values, todo);
      Differs(flags0, values, todo - {flag}) == (Differs(flags0, values, todo) || R.SetFlag(flags, flag, values[flag]).1)
  {
    PartFlags(flags0, values, todo, flag);
    PartTimers(timed0, values, todo, flag, timer);
    PartDiffers(flags0, values, todo, flag);
  }

  lemma PartFlags(flags0: map<string, int>, values: map<string, int>, todo: set<string>, flag: string)
    requires flag in todo && flag in values
    ensures flags0 + Part(values, todo - {flag}) == (flags0 + Part(values, todo))[flag := values[flag]]
  {
    var a, b := flags0 + Part(values, todo - {flag}), (flags0 + Part(values, todo))[flag := values[flag]];
    assert forall f :: f in a <==> f in b;
  }

  lemma PartTimers(timed0: map<string, int>, values: map<string, int>, todo: set<string>, flag: string, timer: nat)
    requires flag in todo && flag in values
    ensures Timers(timed0, Part(values, todo - {flag}), timer) ==
            if timer > 0 then Timers(timed0, Part(values, todo), timer)[flag := timer] else Timers(timed0, Part(values, todo), timer)
  {
    if timer > 0 {
      var p, q := Part(values, todo - {flag}), Part(values, todo);
      assert forall f :: f in p <==> f in q || f == flag;
      var a, b := W.Stamp(timed0, p, timer), W.Stamp(timed0, q, timer)[flag := timer];
      assert forall f :: f in a <==> f in b;
      assert forall f | f in a :: a[f] == b[f];
    }
  }

  lemma PartDiffers(flags0: map<string, int>, values: map<string, int>, todo: set<string>, flag: string)
    requires flag in todo && flag in values
    ensures var flags := flags0 + Part(values, todo);
      Differs(flags0, values, todo - {flag}) == (Differs(flags0, values, todo) || R.SetFlag(flags, flag, values[flag]).1)
  {
    var flags := flags0 + Part(values, todo);
    assert (flag in flags) == (flag in flags0);
    assert flag in flags ==> flags[flag] == flags0[flag];
    if R.SetFlag(flags, flag, values[flag]).1 {
      assert flag in values && flag !in todo - {flag};
    }
  }

  /** The `inc` loop ends with `RaiseAll(flags1, inc)`. */
  lemma IncStep(flags1: map<string, int>, flags: map<string, int>, inc: map<string, int>)
    requires forall f :: f in flags <==> f in flags1 || f in inc
    requires forall f | f in flags :: flags[f] == if f in inc then Get(flags1, f) + inc[f] else flags1[f]
    ensures flags == W.RaiseAll(flags1, inc)
  {
    var r := W.RaiseAll(flags1, inc);
    assert forall f :: f in flags <==> f in r;
  }

  /** `n` attempts after the items `acc` were won, in the shape of the loop
      of `GameApp.RollLootTable`. */
  function RollAcc(unit: nat -> real, table: seq<LootEntry>, n: nat, u: set<string>, k: nat, acc: seq<string>)
    : (seq<string>, set<string>, nat)
    decreases n
  {
    if n == 0 then (acc, u, k)
    else
      var a := L.AttemptFrom(unit, table, 0, u, k);
      RollAcc(unit, table, n - 1, a.1, a.2, if a.0.Some? then acc + [L.ItemOf(table, a.0.value)] else acc)
  }

  /** The loop's accumulation awards what `KitLoot.Attempts` describes. */
  lemma {:induction false} RollAccMeans(unit: nat -> real, table: seq<LootEntry>, n: nat, u: set<string>, k: nat, acc: seq<string>)
    ensures var r := L.Attempts(unit, table, n, u, k);
      RollAcc(unit, table, n, u, k, acc) == (acc + L.ItemsOf(table, r.0), r.1, r.2)
    decreases n
  {
    if n > 0 {
      var a := L.AttemptFrom(unit, table, 0, u, k);
      var acc' := if a.0.Some? then acc + [L.ItemOf(table, a.0.value)] else acc;
      RollAccMeans(unit, table, n - 1, a.1, a.2, acc');
      var rest := L.Attempts(unit, table, n - 1, a.1, a.2);
      if a.0.Some? {
        assert ([a.0.value] + rest.0)[1..] == rest.0;
        Reassociate(acc, [L.ItemOf(table, a.0.value)], L.ItemsOf(table, rest.0));
      } else {
        assert [] + rest.0 == rest.0;
      }
    } else {
      assert acc + [] == acc;
    }
  }
}
