/** Rooms, options and items of levelkit_text's `GameApp`
    (levelkit_text/engine/core.py) as functions on the game state: moving
    between rooms, the menu of options a room offers, the declarative effects
    of an option, the option handler and using an inventory item. */
module KitWorld {
  import opened Common
  import KitRequirements
  import opened KitModels
  import opened KitRules
  import opened KitLoot
  import opened KitBattle

  // ---------------------------------------------------------------------------
  // Moving between rooms

  /** What leaving a room costs and gives: timed flags tick down one room and
      mana regenerates (`_tick_timed_flags`, then `_regen_mana`). */
  function Travel(cfg: Config, s: GameState): GameState {
    var t := Tick(s.flags, s.timedFlags);
    var rg := Regen(cfg.manaPerRoom, s.manaRegenReserve, s.stats.mana, s.stats.maxMana);
    s.(flags := t.0, timedFlags := t.1, manaRegenReserve := rg.0, stats := s.stats.(mana := rg.1))
  }

  /** `go_to`: a missing room changes nothing; otherwise, unless this is the
      first room, the move ticks timers and regenerates mana, and then the
      room becomes current and any battle is dropped. */
  function GoTo(w: World, s: GameState, room: string, initial: bool): GameState {
    if room !in w.rooms then s
    else
      var s1 := if initial then s else Travel(w.cfg, s);
      s1.(currentRoomId := room, currentBattle := None)
  }

  /** A move to a missing room is refused; a move to an existing one enters it
      and ends any battle, changing no inventory, slot, alert level, counter or
      stat other than mana. The first room costs nothing; any later move
      counts every timer down one room (dropping the flags whose timer runs
      out, keeping untimed flags) and only ever raises mana up to its cap. */
  lemma GoToMeans(w: World, s: GameState, room: string, initial: bool)
    ensures var r := GoTo(w, s, room, initial);
      && (room !in w.rooms ==> r == s)
      && (room in w.rooms ==>
            && r.currentRoomId == room && r.currentBattle.None?
            && r.inventory == s.inventory && r.equipment == s.equipment
            && r.alertLevel == s.alertLevel && r.pendingRoom == s.pendingRoom
            && r.battleRepeatTracker == s.battleRepeatTracker
            && r.drawsUsed == s.drawsUsed && r.rollsUsed == s.rollsUsed
            && r.stats == s.stats.(mana := r.stats.mana)
            && (initial ==> r.flags == s.flags && r.timedFlags == s.timedFlags && r.stats == s.stats)
            && (!initial ==>
                  && (forall f | f in s.timedFlags && s.timedFlags[f] > 1 ::
                        f in r.timedFlags && r.timedFlags[f] == s.timedFlags[f] - 1)
                  && (forall f | f in s.timedFlags && s.timedFlags[f] <= 1 :: f !in r.flags && f !in r.timedFlags)
                  && (forall f | f in s.flags && f !in s.timedFlags :: f in r.flags && r.flags[f] == s.flags[f])
                  && (s.stats.mana <= s.stats.maxMana ==> s.stats.mana <= r.stats.mana <= s.stats.maxMana)))
  {
    TickStep(s.flags, s.timedFlags);
  }

  /** Walking through a sequence of rooms, none of them the first. */
  function Journey(w: World, s: GameState, rooms: seq<string>): GameState
    decreases |rooms|
  {
    if rooms == [] then s else Journey(w, GoTo(w, s, rooms[0], false), rooms[1..])
  }

  /** Through existing rooms, the flags after k moves are exactly k ticks of
      the flags before. */
  lemma {:induction false} JourneyTicks(w: World, s: GameState, rooms: seq<string>)
    requires forall i | 0 <= i < |rooms| :: rooms[i] in w.rooms
    ensures var r := Journey(w, s, rooms);
      (r.flags, r.timedFlags) == TickN(s.flags, s.timedFlags, |rooms|)
    decreases |rooms|
  {
    if rooms != [] {
      var s1 := GoTo(w, s, rooms[0], false);
      JourneyTicks(w, s1, rooms[1..]);
    }
  }

  /** A flag set for `n` rooms is still set, with its value, in each of the
      next n - 1 rooms entered, and gone in the n-th. */
  lemma TimedFlagAcrossRooms(w: World, s: GameState, rooms: seq<string>, f: string)
    requires forall i | 0 <= i < |rooms| :: rooms[i] in w.rooms
    requires f in s.flags && f in s.timedFlags && s.timedFlags[f] >= 1
    ensures var r := Journey(w, s, rooms);
      && (|rooms| < s.timedFlags[f] ==> f in r.flags && r.flags[f] == s.flags[f])
      && (|rooms| >= s.timedFlags[f] ==> f !in r.flags && f !in r.timedFlags)
  {
    JourneyTicks(w, s, rooms);
    TimedFlagLifetime(s.flags, s.timedFlags, f, s.timedFlags[f], |rooms|);
  }

  /** `_execute_pending_transition`: the pending room is taken (and cleared);
      with none pending the player stays. */
  function Continue(w: World, s: GameState): (r: GameState)
    ensures r.pendingRoom == ""
  {
    var s1 := s.(pendingRoom := "");
    if s.pendingRoom != "" then GoTo(w, s1, s.pendingRoom, false) else s1
  }

  // ---------------------------------------------------------------------------
  // The option menu

  /** `_option_available` for one option in the current state. */
  predicate Available(s: GameState, o: OptionSpec) {
    KitRequirements.OptionAvailable(o.requiresFlag, o.requiresNotFlag, o.requireExpr, s.flags, s.alertLevel)
  }

  /** The indices of the available options in `options[j..]`, in order. */
  function AvailableFrom(s: GameState, options: seq<OptionSpec>, j: nat): (r: seq<nat>)
    requires j <= |options|
    ensures forall i | 0 <= i < |r| :: j <= r[i] < |options| && Available(s, options[r[i]])
    ensures forall i | j <= i < |options| && Available(s, options[i]) :: i in r
    ensures forall a, b | 0 <= a < b < |r| :: r[a] < r[b]
    decreases |options| - j
  {
    if j == |options| then []
    else if Available(s, options[j]) then [j] + AvailableFrom(s, options, j + 1)
    else AvailableFrom(s, options, j + 1)
  }

  datatype RoomChoice = Take(index: nat) | CatchBreath

  /** `_build_room_options` as shown by `go_to`: the available options in the
      room's order, or the idle "Catch your breath." when there are none. */
  function RoomMenu(s: GameState, room: RoomSpec): (m: seq<RoomChoice>)
    ensures var idx := AvailableFrom(s, room.options, 0);
      && (idx == [] ==> m == [CatchBreath])
      && (idx != [] ==> |m| == |idx| && forall p | 0 <= p < |m| :: m[p] == Take(idx[p]))
  {
    var idx := AvailableFrom(s, room.options, 0);
    if idx == [] then [CatchBreath] else seq(|idx|, p requires 0 <= p < |idx| => Take(idx[p]))
  }

  /** The menu lists exactly the available options. */
  lemma RoomMenuLists(s: GameState, room: RoomSpec, i: nat)
    ensures Take(i) in RoomMenu(s, room) <==> i < |room.options| && Available(s, room.options[i])
  {
    var idx := AvailableFrom(s, room.options, 0);
    var m := RoomMenu(s, room);
    if Take(i) in m {
      var p :| 0 <= p < |m| && m[p] == Take(i);
      assert idx[p] == i;
    }
    if i < |room.options| && Available(s, room.options[i]) {
      var p :| 0 <= p < |idx| && idx[p] == i;
      assert m[p] == Take(i);
    }
  }

  /** The idle choice is offered exactly when no option is available. */
  lemma RoomMenuIdle(s: GameState, room: RoomSpec)
    ensures CatchBreath in RoomMenu(s, room) <==> forall i | 0 <= i < |room.options| :: !Available(s, room.options[i])
  {
    var idx := AvailableFrom(s, room.options, 0);
    var m := RoomMenu(s, room);
    if idx != [] {
      assert Available(s, room.options[idx[0]]);
      assert CatchBreath !in m;
    }
  }

  /** The options keep the room's order, each listed once. */
  lemma RoomMenuOrdered(s: GameState, room: RoomSpec)
    ensures var m := RoomMenu(s, room);
      forall a, b | 0 <= a < b < |m| :: m[a].Take? && m[b].Take? && m[a].index < m[b].index
  {
  }

  // ---------------------------------------------------------------------------
  // Option effects (`_apply_option_effects`), in the order the source applies
  // them. Each step also returns whether it asks for the menu to be refreshed.

  /** `gain_items` plus the option's loot table, added to the inventory. */
  function Gain(w: World, s: GameState, o: OptionSpec): (GameState, bool) {
    var loot := RollLootState(w, s, o.lootTable, o.lootRolls);
    var gained := o.gainItems + loot.0;
    (loot.1.(inventory := AddAll(loot.1.inventory, gained)), gained != [])
  }

  /** `equip_item`: each listed id that is in the inventory and names a weapon
      is equipped; anything else is skipped. Only stats and slots change. */
  function EquipTargets(cfg: Config, s: GameState, ids: seq<string>): (r: (GameState, bool))
    ensures r.0 == s.(stats := r.0.stats, equipment := r.0.equipment)
    decreases |ids|
  {
    if ids == [] then (s, false)
    else
      var id := ids[0];
      if Get(s.inventory, id) <= 0 || !IsWeapon(ItemDefinition(cfg, id)) then EquipTargets(cfg, s, ids[1..])
      else
        var e := Equip(cfg, s.stats, s.equipment, id);
        var rest := EquipTargets(cfg, s.(stats := e.0, equipment := e.1), ids[1..]);
        (rest.0, e.2 || rest.1)
  }

  /** The gains, `set_flag` (raised to 1) and `equip_item`. */
  function Acquire(w: World, s: GameState, o: OptionSpec): (r: (GameState, bool))
    ensures r.0 == s.(stats := r.0.stats, equipment := r.0.equipment, inventory := r.0.inventory,
                      flags := r.0.flags, uniqueLootAwards := r.0.uniqueLootAwards, drawsUsed := r.0.drawsUsed)
    ensures r.0.flags == if o.setFlag != "" then s.flags[o.setFlag := 1] else s.flags
    ensures o.effects.equipItem == [] ==> r.0.stats == s.stats
  {
    var g := Gain(w, s, o);
    var f := if o.setFlag != "" then SetFlag(g.0.flags, o.setFlag, 1) else (g.0.flags, false);
    var e := EquipTargets(w.cfg, g.0.(flags := f.0), o.effects.equipItem);
    (e.0, g.1 || f.1 || e.1)
  }

  /** `max(0, int(timer_rooms))`, 0 when absent. */
  function TimerRooms(e: Effects): nat {
    if e.timerRooms.Some? then Max(0, e.timerRooms.value) else 0
  }

  /** Flag `f` raised by its `inc` amount, from 0 when unset. */
  function Raised(flags: map<string, int>, inc: map<string, int>, f: string): int
    requires f in inc
  {
    Get(flags, f) + inc[f]
  }

  /** Every flag of `inc` raised by its amount; the others untouched. */
  function RaiseAll(flags: map<string, int>, inc: map<string, int>): (r: map<string, int>)
    ensures forall f | f in inc :: f in r && r[f] == Get(flags, f) + inc[f]
    ensures forall f | f !in inc :: (f in r <==> f in flags)
    ensures forall f | f in flags && f !in inc :: r[f] == flags[f]
  {
    flags + map f | f in inc :: Raised(flags, inc, f)
  }

  /** Every flag of `set` given `timer` rooms to live. */
  function Stamp(timed: map<string, int>, values: map<string, int>, timer: nat): (r: map<string, int>)
    ensures forall f | f in values :: f in r && r[f] == timer
    ensures forall f | f !in values :: (f in r <==> f in timed)
    ensures forall f | f in timed && f !in values :: r[f] == timed[f]
  {
    timed + map f | f in values :: timer as int
  }

  /** The `set` and `inc` maps: every flag of `set` takes its value (and,
      with a timer, that many rooms to live), then every flag of `inc` goes
      up by its amount, from 0 when unset. A flag counts as changed when it
      was unset or gets a different value. */
  function FlagMaps(s: GameState, e: Effects): (r: (GameState, bool))
    ensures r.0 == s.(flags := r.0.flags, timedFlags := r.0.timedFlags)
    ensures TimerRooms(e) == 0 ==> r.0.timedFlags == s.timedFlags
  {
    var timer := TimerRooms(e);
    var flags1 := s.flags + e.setFlags;
    var timed := if timer > 0 then Stamp(s.timedFlags, e.setFlags, timer) else s.timedFlags;
    var flags2 := RaiseAll(flags1, e.incFlags);
    (s.(flags := flags2, timedFlags := timed),
     (exists f | f in e.setFlags :: f !in s.flags || s.flags[f] != e.setFlags[f])
     || (exists f | f in e.incFlags :: f !in flags1 || e.incFlags[f] != 0))
  }

  /** What the `set` and `inc` maps do to each flag. */
  lemma FlagMapsValues(s: GameState, e: Effects)
    ensures var r := FlagMaps(s, e).0;
      && (forall f | f in e.setFlags && f !in e.incFlags :: f in r.flags && r.flags[f] == e.setFlags[f])
      && (forall f | f in e.incFlags && f !in e.setFlags :: f in r.flags && r.flags[f] == Get(s.flags, f) + e.incFlags[f])
      && (forall f | f in e.setFlags && f in e.incFlags :: f in r.flags && r.flags[f] == e.setFlags[f] + e.incFlags[f])
      && (forall f | f !in e.setFlags && f !in e.incFlags :: (f in r.flags <==> f in s.flags))
      && (forall f | f in s.flags && f !in e.setFlags && f !in e.incFlags :: r.flags[f] == s.flags[f])
  {
  }

  lemma FlagMapsSet(s: GameState, e: Effects, f: string)
    requires f in e.setFlags && f !in e.incFlags
    ensures var r := FlagMaps(s, e).0;
      f in r.flags && r.flags[f] == e.setFlags[f]
  {
    FlagMapsValues(s, e);
  }

  lemma FlagMapsKeep(s: GameState, e: Effects, f: string)
    requires f !in e.setFlags && f !in e.incFlags
    ensures var r := FlagMaps(s, e).0;
      (f in r.flags <==> f in s.flags) && (f in s.flags ==> r.flags[f] == s.flags[f])
  {
    FlagMapsValues(s, e);
  }

  /** What the `set` map's timer does to each timer: every flag of `set`
      gets the timer, the others keep theirs, and no timer drops below 1. */
  lemma FlagMapsTimers(s: GameState, e: Effects)
    ensures var r := FlagMaps(s, e).0;
      && (TimerRooms(e) > 0 ==> forall f | f in e.setFlags :: f in r.timedFlags && r.timedFlags[f] == TimerRooms(e))
      && (forall f | f in s.timedFlags && f !in e.setFlags :: f in r.timedFlags && r.timedFlags[f] == s.timedFlags[f])
      && (forall f | f in r.timedFlags :: f in s.timedFlags || f in e.setFlags)
      && ((forall f | f in s.timedFlags :: s.timedFlags[f] >= 1) ==> (forall f | f in r.timedFlags :: r.timedFlags[f] >= 1))
  {
  }

  /** An alert change, never below 0; a change of 0 does nothing. */
  function Alarm(s: GameState, change: Option<int>): (r: GameState)
    ensures r == s.(alertLevel := r.alertLevel)
    ensures s.alertLevel >= 0 ==> r.alertLevel >= 0
  {
    if change.Some? && change.value != 0 then s.(alertLevel := Max(0, s.alertLevel + change.value)) else s
  }

  /** `energy_cost`, `alert`, `enemy_stunned` and `roll_check`: stamina drops
      by the cost (not below 0), the alert moves, the stun is recorded as a
      flag, and the roll check draws once against its clamped pass chance,
      applying its own `on_fail_alert` on failure. Returns the state, whether
      the roll check failed, the hit-point change pending on failure (the roll check's
      and the option's `hp_delta_on_fail`), and whether the stun flag
      changed. */
  function Risk(w: World, s: GameState, e: Effects): (r: (GameState, bool, int, bool))
    ensures r.0 == s.(stats := r.0.stats, alertLevel := r.0.alertLevel, flags := r.0.flags, drawsUsed := r.0.drawsUsed)
    ensures r.0.stats == s.stats.(stamina := r.0.stats.stamina)
    ensures s.alertLevel >= 0 ==> r.0.alertLevel >= 0
    ensures e.enemyStunned.None? ==> r.0.flags == s.flags
    ensures e.enemyStunned.Some? ==> r.0.flags == s.flags["enemy_stunned" := e.enemyStunned.value]
    ensures e.rollCheck.None? ==> !r.1 && r.0.drawsUsed == s.drawsUsed
    ensures e.rollCheck.Some? ==> r.0.drawsUsed == s.drawsUsed + 1
    ensures e.rollCheck.Some? ==> (r.1 <==> w.rng.unit(s.drawsUsed) > Clamp01(e.rollCheck.value.pass))
    ensures r.1 ==> r.2 == e.rollCheck.value.hpDeltaOnFail.GetOr(0) + e.hpDeltaOnFail.GetOr(0)
    ensures !r.1 ==> r.0.alertLevel == Alarm(s, e.alert).alertLevel
  {
    var st := Strain(s, e);
    var c := Check(w, st.0, e);
    (c.0, c.1, c.2, st.1)
  }

  /** `energy_cost`, `alert` and `enemy_stunned`: the state and whether the
      stun flag changed. */
  function Strain(s: GameState, e: Effects): (r: (GameState, bool))
    ensures r.0 == s.(stats := r.0.stats, alertLevel := r.0.alertLevel, flags := r.0.flags)
    ensures r.0.stats == s.stats.(stamina := r.0.stats.stamina)
    ensures r.0.alertLevel == Alarm(s, e.alert).alertLevel
    ensures e.enemyStunned.None? ==> r.0.flags == s.flags
    ensures e.enemyStunned.Some? ==> r.0.flags == s.flags["enemy_stunned" := e.enemyStunned.value]
  {
    var s0 := if e.energyCost.Some? && Max(0, e.energyCost.value) != 0
              then s.(stats := s.stats.(stamina := Max(0, s.stats.stamina - Max(0, e.energyCost.value))))
              else s;
    var s1 := Alarm(s0, e.alert);
    var st := if e.enemyStunned.Some? then SetFlag(s1.flags, "enemy_stunned", e.enemyStunned.value) else (s1.flags, false);
    (s1.(flags := st.0), st.1)
  }

  /** `roll_check`: one draw against the clamped pass chance; on failure the
      roll check's `on_fail_alert` applies and the hit-point change (the roll check's
      and the option's `hp_delta_on_fail`) is pending. */
  function Check(w: World, s: GameState, e: Effects): (r: (GameState, bool, int))
    ensures r.0 == s.(alertLevel := r.0.alertLevel, drawsUsed := r.0.drawsUsed)
    ensures s.alertLevel >= 0 ==> r.0.alertLevel >= 0
    ensures e.rollCheck.None? ==> r == (s, false, 0)
    ensures e.rollCheck.Some? ==> r.0.drawsUsed == s.drawsUsed + 1
    ensures e.rollCheck.Some? ==> (r.1 <==> w.rng.unit(s.drawsUsed) > Clamp01(e.rollCheck.value.pass))
    ensures r.1 ==> r.2 == e.rollCheck.value.hpDeltaOnFail.GetOr(0) + e.hpDeltaOnFail.GetOr(0)
    ensures !r.1 ==> r.0.alertLevel == s.alertLevel
  {
    if e.rollCheck.None? then (s, false, 0)
    else
      var c := e.rollCheck.value;
      var s3 := s.(drawsUsed := s.drawsUsed + 1);
      if w.rng.unit(s.drawsUsed) > Clamp01(c.pass) then
        (if c.onFailAlert.Some? then s3.(alertLevel := Max(0, s3.alertLevel + c.onFailAlert.value)) else s3,
         true, c.hpDeltaOnFail.GetOr(0) + e.hpDeltaOnFail.GetOr(0))
      else (s3, false, 0)
  }

  /** `effects.get("alert_on_fail") or effects.get("on_fail_alert")`. */
  function FailAlert(e: Effects): Option<int> {
    if e.alertOnFail.Some? && e.alertOnFail.value != 0 then e.alertOnFail else e.onFailAlert
  }

  /** The pending hit-point change of a failed roll check, clamped to
      [0, max_hp]; a change of 0 does nothing. */
  function Wound(st: Stats, hpChange: int): (r: Stats)
    ensures r == st.(hp := r.hp)
    ensures hpChange == 0 ==> r == st
    ensures hpChange != 0 && st.maxHp >= 0 ==> r.hp == Max(0, Min(st.maxHp, st.hp + hpChange))
    ensures HpInRange(st) ==> HpInRange(r)
  {
    if hpChange != 0 then st.(hp := Max(0, Min(st.maxHp, st.hp + hpChange))) else st
  }

  /** The consequences of a failed roll check: the alert change, never
      below 0, and the hit-point change. */
  function Fail(s: GameState, alert: Option<int>, hpChange: int): (r: GameState)
    ensures r == s.(alertLevel := r.alertLevel, stats := Wound(s.stats, hpChange))
    ensures s.alertLevel >= 0 ==> r.alertLevel >= 0
  {
    var s1 := if alert.Some? then s.(alertLevel := Max(0, s.alertLevel + alert.value)) else s;
    s1.(stats := Wound(s1.stats, hpChange))
  }

  /** `clear_flag`, then the timer of `set_flag`, then the failure
      consequences. Returns the state and whether a flag was cleared. */
  function Settle(s: GameState, o: OptionSpec, failed: bool, hpChange: int): (r: (GameState, bool))
    ensures r.0 == s.(flags := r.0.flags, timedFlags := r.0.timedFlags, alertLevel := r.0.alertLevel, stats := r.0.stats)
    ensures r.0.flags == if o.clearFlag != "" then s.flags - {o.clearFlag} else s.flags
    ensures !failed ==> r.0.alertLevel == s.alertLevel && r.0.stats == s.stats
    ensures failed ==> r.0.stats == Wound(s.stats, hpChange)
    ensures r.0.stats == s.stats.(hp := r.0.stats.hp)
    ensures s.alertLevel >= 0 ==> r.0.alertLevel >= 0
    ensures HpInRange(s.stats) ==> HpInRange(r.0.stats)
  {
    var c := Unflag(s, o);
    var t := Time(c.0, o);
    (if failed then Fail(t, FailAlert(o.effects), hpChange) else t, c.1)
  }

  /** The option's `clear_flag`, if any: the state and whether the flag was
      set. */
  function Unflag(s: GameState, o: OptionSpec): (r: (GameState, bool))
    ensures r.0 == s.(flags := r.0.flags, timedFlags := r.0.timedFlags)
  {
    if o.clearFlag != "" then
      var cl := ClearFlag(s.flags, s.timedFlags, o.clearFlag);
      (s.(flags := cl.0, timedFlags := cl.1), cl.2)
    else (s, false)
  }

  /** The timer `set_flag` gets from the option's `timer_rooms`. */
  function Time(s: GameState, o: OptionSpec): (r: GameState)
    ensures r == s.(timedFlags := r.timedFlags)
  {
    var timer := TimerRooms(o.effects);
    if timer > 0 && o.setFlag != "" then s.(timedFlags := s.timedFlags[o.setFlag := timer]) else s
  }

  /** The timers after `clear_flag` and the timer of `set_flag`: the cleared
      flag has none unless `set_flag` names it with a timer, `set_flag` has
      the option's timer, every other timer stays, and none drops below 1. */
  lemma SettleTimers(s: GameState, o: OptionSpec, failed: bool, hpChange: int)
    ensures var r := Settle(s, o, failed, hpChange).0;
      && (o.clearFlag != "" && (o.setFlag != o.clearFlag || TimerRooms(o.effects) == 0) ==> o.clearFlag !in r.timedFlags)
      && (TimerRooms(o.effects) > 0 && o.setFlag != "" ==>
            o.setFlag in r.timedFlags && r.timedFlags[o.setFlag] == TimerRooms(o.effects))
      && (forall f | f in r.timedFlags && f != o.setFlag :: f in s.timedFlags && r.timedFlags[f] == s.timedFlags[f])
      && (forall f | f in s.timedFlags && f != o.setFlag && f != o.clearFlag :: f in r.timedFlags)
      && ((forall f | f in s.timedFlags :: s.timedFlags[f] >= 1) ==> (forall f | f in r.timedFlags :: r.timedFlags[f] >= 1))
  {
    var t := Time(Unflag(s, o).0, o);
    assert Settle(s, o, failed, hpChange).0.timedFlags == t.timedFlags;
  }

  /** `_apply_option_effects`: the new state and whether the menu needs a
      refresh. */
  function ApplyOptionEffects(w: World, s: GameState, o: OptionSpec): GameState {
    var a := Acquire(w, s, o);
    var b := FlagMaps(a.0, o.effects);
    var c := Risk(w, b.0, o.effects);
    Settle(c.0, o, c.1, c.2).0
  }

  /** Whether `_apply_option_effects` asks for the menu to be refreshed. */
  function EffectsRefresh(w: World, s: GameState, o: OptionSpec): bool {
    var a := Acquire(w, s, o);
    var b := FlagMaps(a.0, o.effects);
    var c := Risk(w, b.0, o.effects);
    a.1 || b.1 || c.3 || Settle(c.0, o, c.1, c.2).1
  }

  // ---------------------------------------------------------------------------
  // Properties of option effects

  /** Equipping keeps the two weapon slots (and only them). */
  lemma EquipKeepsSlots(cfg: Config, st: Stats, eq: map<string, Option<string>>, item: string)
    requires eq.Keys == {"melee", "ranged"}
    ensures Equip(cfg, st, eq, item).1.Keys == {"melee", "ranged"}
  {
    EquipSlots(cfg, st, eq, item);
  }

  lemma {:induction false} EquipTargetsKeepSlots(cfg: Config, s: GameState, ids: seq<string>)
    requires s.equipment.Keys == {"melee", "ranged"}
    ensures EquipTargets(cfg, s, ids).0.equipment.Keys == {"melee", "ranged"}
    decreases |ids|
  {
    if ids != [] {
      var id := ids[0];
      if !(Get(s.inventory, id) <= 0 || !IsWeapon(ItemDefinition(cfg, id))) {
        var e := Equip(cfg, s.stats, s.equipment, id);
        EquipKeepsSlots(cfg, s.stats, s.equipment, id);
        EquipTargetsKeepSlots(cfg, s.(stats := e.0, equipment := e.1), ids[1..]);
      } else {
        EquipTargetsKeepSlots(cfg, s, ids[1..]);
      }
    }
  }

  /** The gains land in the inventory: each item's count grows by the number
      of times it is listed in `gain_items` plus the number of times the loot
      table awards it, and nothing else changes count. */
  lemma AcquireCounts(w: World, s: GameState, o: OptionSpec)
    ensures var loot := RollLootState(w, s, o.lootTable, o.lootRolls).0;
      var r := Acquire(w, s, o).0;
      forall k :: Get(r.inventory, k) == Get(s.inventory, k) + Count(o.gainItems, k) + Count(loot, k)
  {
    var loot := RollLootState(w, s, o.lootTable, o.lootRolls);
    AddAllCounts(loot.1.inventory, o.gainItems + loot.0);
    forall k ensures Count(o.gainItems + loot.0, k) == Count(o.gainItems, k) + Count(loot.0, k) {
      assert multiset(o.gainItems + loot.0) == multiset(o.gainItems) + multiset(loot.0);
    }
  }

  lemma AcquireKeepsInv(w: World, s: GameState, o: OptionSpec)
    requires Inv(s)
    ensures Inv(Acquire(w, s, o).0)
  {
    var g := Gain(w, s, o);
    var loot := RollLootState(w, s, o.lootTable, o.lootRolls);
    assert Stocked(loot.1.inventory);
    AddAllPositive(loot.1.inventory, o.gainItems + loot.0);
    assert Stocked(g.0.inventory);
    var f := if o.setFlag != "" then SetFlag(g.0.flags, o.setFlag, 1) else (g.0.flags, false);
    EquipTargetsKeepSlots(w.cfg, g.0.(flags := f.0), o.effects.equipItem);
  }

  /** Option effects keep the game invariant. */
  lemma EffectsKeepInv(w: World, s: GameState, o: OptionSpec)
    requires Inv(s)
    ensures Inv(ApplyOptionEffects(w, s, o))
  {
    AcquireKeepsInv(w, s, o);
    var a := Acquire(w, s, o).0;
    FlagMapsTimers(a, o.effects);
    var b := FlagMaps(a, o.effects).0;
    var c := Risk(w, b, o.effects);
    SettleTimers(c.0, o, c.1, c.2);
  }

  /** `clear_flag` wins over everything set before it: the cleared flag is
      unset afterwards, and has no timer unless the option's own `set_flag`
      names the same flag with a timer (its timer is written after the
      clear). */
  lemma ClearFlagWins(w: World, s: GameState, o: OptionSpec)
    requires o.clearFlag != ""
    ensures var r := ApplyOptionEffects(w, s, o);
      && o.clearFlag !in r.flags
      && (o.setFlag != o.clearFlag || TimerRooms(o.effects) == 0 ==> o.clearFlag !in r.timedFlags)
  {
    var b := FlagMaps(Acquire(w, s, o).0, o.effects).0;
    var c := Risk(w, b, o.effects);
    SettleTimers(c.0, o, c.1, c.2);
  }

  /** With a timer, every flag of the `set` map (bar a cleared one) gets that
      many rooms to live. */
  lemma TimedSetFlags(w: World, s: GameState, o: OptionSpec, f: string)
    requires f in o.effects.setFlags && f != o.clearFlag && TimerRooms(o.effects) > 0
    ensures var r := ApplyOptionEffects(w, s, o);
      f in r.timedFlags && r.timedFlags[f] == TimerRooms(o.effects)
  {
    var a := Acquire(w, s, o).0;
    FlagMapsTimers(a, o.effects);
    var b := FlagMaps(a, o.effects).0;
    var c := Risk(w, b, o.effects);
    assert c.0.timedFlags == b.timedFlags;
    SettleTimers(c.0, o, c.1, c.2);
  }

  /** A flag of the `set` map (bar a cleared one) holds its value unless
      `inc` or the stun also write it. */
  lemma SetFlagsHold(w: World, s: GameState, o: OptionSpec, f: string)
    requires f in o.effects.setFlags && f != o.clearFlag
    requires f !in o.effects.incFlags && (f != "enemy_stunned" || o.effects.enemyStunned.None?)
    ensures var r := ApplyOptionEffects(w, s, o);
      f in r.flags && r.flags[f] == o.effects.setFlags[f]
  {
    var a := Acquire(w, s, o).0;
    FlagMapsSet(a, o.effects, f);
    TailFlags(w, FlagMaps(a, o.effects).0, o, f);
  }

  /** After the `set` and `inc` maps, a flag that is neither the stun flag
      being written nor the cleared flag keeps its value. */
  lemma TailFlags(w: World, b: GameState, o: OptionSpec, f: string)
    requires f != o.clearFlag && (f != "enemy_stunned" || o.effects.enemyStunned.None?)
    ensures var c := Risk(w, b, o.effects);
      var r := Settle(c.0, o, c.1, c.2).0;
      (f in r.flags <==> f in b.flags) && (f in b.flags ==> r.flags[f] == b.flags[f])
  {
  }

  /** The option's `set_flag` is raised to 1 unless a later step writes it. */
  lemma SetFlagRaised(w: World, s: GameState, o: OptionSpec)
    requires o.setFlag != "" && o.setFlag != o.clearFlag
    requires o.setFlag !in o.effects.setFlags && o.setFlag !in o.effects.incFlags
    requires o.setFlag != "enemy_stunned" || o.effects.enemyStunned.None?
    ensures var r := ApplyOptionEffects(w, s, o);
      o.setFlag in r.flags && r.flags[o.setFlag] == 1
  {
    var a := Acquire(w, s, o).0;
    FlagMapsKeep(a, o.effects, o.setFlag);
    TailFlags(w, FlagMaps(a, o.effects).0, o, o.setFlag);
  }

  /** The option's `set_flag` carries the option's timer when there is one. */
  lemma SetFlagTimed(w: World, s: GameState, o: OptionSpec)
    requires o.setFlag != "" && TimerRooms(o.effects) > 0
    ensures var r := ApplyOptionEffects(w, s, o);
      o.setFlag in r.timedFlags && r.timedFlags[o.setFlag] == TimerRooms(o.effects)
  {
    var b := FlagMaps(Acquire(w, s, o).0, o.effects).0;
    var c := Risk(w, b, o.effects);
    SettleTimers(c.0, o, c.1, c.2);
  }

  /** Without a roll check nothing is drawn for it and `hp_delta_on_fail`,
      `alert_on_fail` and `on_fail_alert` have no effect: hit points are those
      the equipped weapons leave, and only `alert` moves the alert level. */
  lemma NoCheckNoRisk(w: World, s: GameState, o: OptionSpec)
    requires o.effects.rollCheck.None?
    ensures var a := Acquire(w, s, o).0;
      var r := ApplyOptionEffects(w, s, o);
      r.stats.hp == a.stats.hp && r.drawsUsed == a.drawsUsed
  {
    var a := Acquire(w, s, o).0;
    var b := FlagMaps(a, o.effects).0;
    assert b.stats == a.stats && b.drawsUsed == a.drawsUsed;
    var c := Risk(w, b, o.effects);
    assert !c.1 && c.0.stats.hp == a.stats.hp && c.0.drawsUsed == a.drawsUsed;
  }

  /** Without a roll check only `alert` moves the alert level. */
  lemma NoCheckAlert(w: World, s: GameState, o: OptionSpec)
    requires o.effects.rollCheck.None?
    ensures ApplyOptionEffects(w, s, o).alertLevel == Alarm(s, o.effects.alert).alertLevel
  {
    var b := FlagMaps(Acquire(w, s, o).0, o.effects).0;
    AlarmLevel(b, o.effects.alert);
    AlarmLevel(s, o.effects.alert);
  }

  /** The alert level `Alarm` leaves depends on the alert level alone. */
  lemma AlarmLevel(s: GameState, change: Option<int>)
    ensures Alarm(s, change).alertLevel ==
            if change.Some? && change.value != 0 then Max(0, s.alertLevel + change.value) else s.alertLevel
  {
  }

  /** A failed roll check moves hit points by the sum of the roll check's and the
      option's `hp_delta_on_fail`, clamped to [0, max_hp]; a passed one leaves
      them and the alert level to the other effects. */
  lemma FailedCheckCosts(w: World, s: GameState, o: OptionSpec)
    requires o.effects.rollCheck.Some?
    ensures var e := o.effects;
      var b := FlagMaps(Acquire(w, s, o).0, e).0;
      var fails := w.rng.unit(b.drawsUsed) > Clamp01(e.rollCheck.value.pass);
      var change := e.rollCheck.value.hpDeltaOnFail.GetOr(0) + e.hpDeltaOnFail.GetOr(0);
      var r := ApplyOptionEffects(w, s, o);
      && r.drawsUsed == b.drawsUsed + 1
      && (fails && change != 0 && b.stats.maxHp >= 0 ==> r.stats.hp == Max(0, Min(b.stats.maxHp, b.stats.hp + change)))
      && (!fails ==> r.stats.hp == b.stats.hp && r.alertLevel == Alarm(b, e.alert).alertLevel)
  {
    var b := FlagMaps(Acquire(w, s, o).0, o.effects).0;
    var st := Strain(b, o.effects).0;
    var c := Check(w, st, o.effects);
    assert st.drawsUsed == b.drawsUsed;
    var d := Settle(c.0, o, c.1, c.2).0;
  }

  /** Option effects that equip nothing keep hit points within range. */
  lemma EffectsKeepHpInRange(w: World, s: GameState, o: OptionSpec)
    requires HpInRange(s.stats) && o.effects.equipItem == []
    ensures HpInRange(ApplyOptionEffects(w, s, o).stats)
  {
    var a := Acquire(w, s, o).0;
    var b := FlagMaps(a, o.effects).0;
    var c := Risk(w, b, o.effects);
    assert HpInRange(c.0.stats);
  }

  // ---------------------------------------------------------------------------
  // Choosing an option

  /** Whether the option limits how often its battle may be won. */
  predicate Limited(o: OptionSpec) {
    o.battleRepeatLimit.Some? && o.battleRepeatLimit.value > 0
  }

  /** The key the option's wins are counted under (none when unlimited). */
  function LimitKey(s: GameState, o: OptionSpec): string {
    if Limited(o) then RepeatKey(s.currentRoomId, o) else ""
  }

  /** Whether the option's battle has been won as often as it may be. */
  predicate Exhausted(s: GameState, o: OptionSpec) {
    Limited(o) && Get(s.battleRepeatTracker, RepeatKey(s.currentRoomId, o)) >= o.battleRepeatLimit.value
  }

  /** What `_handle_room_option` does after the effects: the option's battle
      (unless its repeat limit is reached or the battle is missing), or its
      destination, or nothing more. */
  function Follow(w: World, s: GameState, o: OptionSpec): GameState {
    if o.battleId != "" then
      if Exhausted(s, o) || o.battleId !in w.battles then s
      else StartBattle(s, w.battles[o.battleId], o.to, LimitKey(s, o))
    else if o.to != "" then GoTo(w, s, o.to, false)
    else s
  }

  /** `_handle_room_option`: the effects first, then the battle or the
      destination. */
  function HandleRoomOption(w: World, s: GameState, o: OptionSpec): GameState {
    Follow(w, ApplyOptionEffects(w, s, o), o)
  }

  /** Effects never change the room, the battle or the win counters. */
  lemma EffectsKeepPlace(w: World, s: GameState, o: OptionSpec)
    ensures var r := ApplyOptionEffects(w, s, o);
      && r.currentRoomId == s.currentRoomId && r.currentBattle == s.currentBattle
      && r.battleRepeatTracker == s.battleRepeatTracker && r.pendingRoom == s.pendingRoom
  {
  }

  /** Outside battle, choosing a battle option starts that battle exactly
      when the battle exists and the option's wins have not reached its repeat
      limit; the encounter remembers the option's destination and its
      counting key. */
  lemma BattleOptionMeans(w: World, s: GameState, o: OptionSpec)
    requires s.currentBattle.None? && o.battleId != ""
    ensures var r := HandleRoomOption(w, s, o);
      && (r.currentBattle.Some? <==> o.battleId in w.battles && !Exhausted(s, o))
      && (r.currentBattle.Some? ==>
            && r.currentBattle.value.spec == w.battles[o.battleId]
            && r.currentBattle.value.optionTo == o.to
            && r.currentBattle.value.repeatKey == LimitKey(s, o)
            && r.currentRoomId == s.currentRoomId)
  {
    EffectsKeepPlace(w, s, o);
  }

  /** Once an option's battle has been won `battle_repeat_limit` times (with
      a positive limit), choosing it again starts no battle and goes nowhere. */
  lemma RepeatLimitHolds(w: World, s: GameState, o: OptionSpec)
    requires s.currentBattle.None? && o.battleId != "" && Exhausted(s, o)
    ensures var r := HandleRoomOption(w, s, o);
      r.currentBattle.None? && r.currentRoomId == s.currentRoomId && r.pendingRoom == s.pendingRoom
  {
    EffectsKeepPlace(w, s, o);
  }

  /** A plain option with a destination leads there when the room exists
      and stays put otherwise. */
  lemma DestinationOptionMeans(w: World, s: GameState, o: OptionSpec)
    requires o.battleId == "" && o.to != ""
    ensures var r := HandleRoomOption(w, s, o);
      && (o.to in w.rooms ==> r.currentRoomId == o.to && r.currentBattle.None?)
      && (o.to !in w.rooms ==> r.currentRoomId == s.currentRoomId)
  {
    EffectsKeepPlace(w, s, o);
  }

  /** Choosing an option and taking the pending room keep the game
      invariant. */
  lemma HandleKeepsInv(w: World, s: GameState, o: OptionSpec)
    requires Inv(s)
    ensures Inv(HandleRoomOption(w, s, o))
    ensures Inv(Continue(w, s))
  {
    EffectsKeepInv(w, s, o);
    FollowKeepsInv(w, ApplyOptionEffects(w, s, o), o);
    if s.pendingRoom != "" {
      GoToKeepsInv(w, s.(pendingRoom := ""), s.pendingRoom, false);
    }
  }

  lemma FollowKeepsInv(w: World, s: GameState, o: OptionSpec)
    requires Inv(s)
    ensures Inv(Follow(w, s, o))
  {
    if o.battleId == "" && o.to != "" {
      GoToKeepsInv(w, s, o.to, false);
    }
  }

  lemma GoToKeepsInv(w: World, s: GameState, room: string, initial: bool)
    requires Inv(s)
    ensures Inv(GoTo(w, s, room, initial))
  {
    TickStep(s.flags, s.timedFlags);
    RegenMeans(w.cfg.manaPerRoom, s.manaRegenReserve, s.stats.mana, s.stats.maxMana);
  }

  // ---------------------------------------------------------------------------
  // Using an item

  /** A usable item's effects: every delta naming a stat shifts it, hit
      points clamped to [0, max_hp] at the moment they change. */
  function ItemEffects(st: Stats, effects: seq<(string, int)>): Stats
    decreases |effects|
  {
    if effects == [] then st
    else
      var name := effects[0].0;
      var st1 := if !IsStat(name) then st
                 else if name == "hp" then st.(hp := Min(st.maxHp, Max(0, st.hp + effects[0].1)))
                 else WithStat(st, name, StatValue(st, name) + effects[0].1);
      ItemEffects(st1, effects[1..])
  }

  /** `_use_item`: an item not held does nothing; a weapon is equipped; ammo
      cannot be used by hand; anything else applies its effects, and a
      consumable is used up one unit at a time. */
  function UseItem(w: World, s: GameState, item: string): (GameState, bool) {
    if item !in s.inventory then (s, false)
    else
      var d := ItemDefinition(w.cfg, item);
      if IsWeapon(d) then
        var e := Equip(w.cfg, s.stats, s.equipment, item);
        (s.(stats := e.0, equipment := e.1), e.2)
      else if d.category == "ammo" then (s, false)
      else
        var inv := if d.category == "consumable" then
                     (var n := s.inventory[item] - 1; if n <= 0 then s.inventory - {item} else s.inventory[item := n])
                   else s.inventory;
        (s.(stats := ItemEffects(s.stats, d.effects), inventory := inv), true)
  }

  /** Item effects that leave max_hp alone keep hit points within range. */
  lemma {:induction false} ItemEffectsKeepHpInRange(st: Stats, effects: seq<(string, int)>)
    requires HpInRange(st)
    requires forall i | 0 <= i < |effects| :: effects[i].0 != "max_hp"
    ensures HpInRange(ItemEffects(st, effects))
    ensures ItemEffects(st, effects).maxHp == st.maxHp
    decreases |effects|
  {
    if effects != [] {
      var name := effects[0].0;
      var st1 := if !IsStat(name) then st
                 else if name == "hp" then st.(hp := Min(st.maxHp, Max(0, st.hp + effects[0].1)))
                 else WithStat(st, name, StatValue(st, name) + effects[0].1);
      assert StatValue(st1, "max_hp") == st1.maxHp;
      ItemEffectsKeepHpInRange(st1, effects[1..]);
    }
  }

  /** A single healing effect restores that many hit points, never past
      max_hp. */
  lemma PotionHeals(st: Stats, amount: nat)
    requires HpInRange(st)
    ensures ItemEffects(st, [("hp", amount)]) == st.(hp := Min(st.maxHp, st.hp + amount))
  {
  }

  /** Using an item: nothing happens to an item not held or to ammunition; a
      weapon goes into its slot; a consumable loses exactly one unit (and
      disappears at zero) while every other item keeps its count; other items
      stay. The game invariant is kept throughout. */
  lemma UseItemMeans(w: World, s: GameState, item: string)
    requires Inv(s)
    ensures var d := ItemDefinition(w.cfg, item);
      var r := UseItem(w, s, item);
      && (item !in s.inventory ==> r == (s, false))
      && (item in s.inventory && IsWeapon(d) ==>
            r.0.equipment[WeaponSlot(d)] == Some(item) && r.0.inventory == s.inventory)
      && (item in s.inventory && !IsWeapon(d) && d.category == "ammo" ==> r == (s, false))
      && (item in s.inventory && !IsWeapon(d) && d.category == "consumable" ==>
            r.1 && Get(r.0.inventory, item) == s.inventory[item] - 1 && (item in r.0.inventory <==> s.inventory[item] > 1))
      && (item in s.inventory && !IsWeapon(d) && d.category != "consumable" ==> r.0.inventory == s.inventory)
      && (forall k | k != item :: Get(r.0.inventory, k) == Get(s.inventory, k))
      && Inv(r.0)
  {
    if item in s.inventory && IsWeapon(ItemDefinition(w.cfg, item)) {
      EquipKeepsSlots(w.cfg, s.stats, s.equipment, item);
      EquipSlots(w.cfg, s.stats, s.equipment, item);
    }
  }
}
