/** The bookkeeping rules of levelkit_text's `GameApp`
    (levelkit_text/engine/core.py) as functions on values: flags and timed
    flags, the inventory, weapon slots and their stat effects, mana
    regeneration and the repeat key of a battle option. The class in
    kit_app.dfy runs the same rules step by step and is proved against these
    functions. */
module KitRules {
  import opened Common
  import opened KitModels

  // ---------------------------------------------------------------------------
  // Flags

  /** `_set_flag`: the flag holds `value` afterwards; the flag reports whether
      anything changed (an absent flag set to 0 counts as a change). */
  function SetFlag(flags: map<string, int>, flag: string, value: int): (r: (map<string, int>, bool))
    ensures r.0 == flags[flag := value]
    ensures r.1 <==> (flag !in flags || flags[flag] != value)
  {
    if flag in flags && flags[flag] == value then (flags, false) else (flags[flag := value], true)
  }

  /** `_clear_flag`: drops the flag and its timer; reports whether the flag
      itself was set. */
  function ClearFlag(flags: map<string, int>, timed: map<string, int>, flag: string)
    : (r: (map<string, int>, map<string, int>, bool))
    ensures flag !in r.0 && flag !in r.1
    ensures forall f | f != flag :: (f in r.0 <==> f in flags) && (f in r.1 <==> f in timed)
    ensures forall f | f in r.0 :: r.0[f] == flags[f]
    ensures forall f | f in r.1 :: r.1[f] == timed[f]
    ensures r.2 <==> flag in flags
  {
    (flags - {flag}, timed - {flag}, flag in flags)
  }

  /** The flags whose timer runs out on this move. */
  function Expiring(timed: map<string, int>): set<string> {
    set f | f in timed && timed[f] <= 1
  }

  /** The flags whose timer keeps running after this move. */
  function Surviving(timed: map<string, int>): (r: set<string>)
    ensures r <= timed.Keys
  {
    timed.Keys - Expiring(timed)
  }

  /** A running timer after one more room. */
  function Countdown(timed: map<string, int>, f: string): int
    requires f in timed
  {
    timed[f] - 1
  }

  /** `_tick_timed_flags`: every timer counts down one room; a timer that
      reaches 0 is dropped together with its flag. The third component is the
      set of flags that fade (those that were actually set). */
  function Tick(flags: map<string, int>, timed: map<string, int>)
    : (map<string, int>, map<string, int>, set<string>)
  {
    (flags - Expiring(timed),
     map f | f in Surviving(timed) :: Countdown(timed, f),
     set f | f in Expiring(timed) && f in flags)
  }

  function TickN(flags: map<string, int>, timed: map<string, int>, n: nat): (map<string, int>, map<string, int>)
    decreases n
  {
    if n == 0 then (flags, timed)
    else var t := Tick(flags, timed); TickN(t.0, t.1, n - 1)
  }

  /** One tick: surviving timers lose exactly one, untimed flags are never
      touched, and positive timers stay positive. */
  lemma TickStep(flags: map<string, int>, timed: map<string, int>)
    ensures var t := Tick(flags, timed);
      && (forall f | f in timed && timed[f] > 1 :: f in t.1 && t.1[f] == timed[f] - 1)
      && (forall f | f in timed && timed[f] <= 1 :: f !in t.0 && f !in t.1)
      && (forall f | f in flags && f !in timed :: f in t.0 && t.0[f] == flags[f])
      && (forall f | f in t.1 :: t.1[f] >= 1)
      && (forall f | f in t.2 :: f in flags && f !in t.0)
  {
  }

  /** A flag set with a timer of `n` rooms (n >= 1) survives the first n - 1
      moves, with its value and a timer counting down, and is gone after the
      n-th, flag and timer alike. */
  lemma {:induction false} TimedFlagLifetime(flags: map<string, int>, timed: map<string, int>, f: string, n: nat, k: nat)
    requires f in flags && f in timed && timed[f] == n && n >= 1
    ensures k < n ==> var t := TickN(flags, timed, k);
      f in t.0 && t.0[f] == flags[f] && f in t.1 && t.1[f] == n - k
    ensures k >= n ==> var t := TickN(flags, timed, k); f !in t.0 && f !in t.1
    decreases k
  {
    if k > 0 {
      var t := Tick(flags, timed);
      if n == 1 {
        assert f !in t.0 && f !in t.1;
        AbsentStaysAbsent(t.0, t.1, f, k - 1);
      } else {
        assert t.0[f] == flags[f] && t.1[f] == n - 1;
        TimedFlagLifetime(t.0, t.1, f, n - 1, k - 1);
      }
    }
  }

  /** Ticking never brings a flag back. */
  lemma {:induction false} AbsentStaysAbsent(flags: map<string, int>, timed: map<string, int>, f: string, k: nat)
    requires f !in flags && f !in timed
    ensures var t := TickN(flags, timed, k); f !in t.0 && f !in t.1
    decreases k
  {
    if k > 0 {
      var t := Tick(flags, timed);
      AbsentStaysAbsent(t.0, t.1, f, k - 1);
    }
  }

  // ---------------------------------------------------------------------------
  // Inventory

  /** Every inventory count is positive. */
  predicate Stocked(inv: map<string, int>) {
    forall k | k in inv :: inv[k] >= 1
  }

  /** Gaining items keeps every count positive. */
  lemma AddAllPositive(inv: map<string, int>, items: seq<string>)
    requires Stocked(inv)
    ensures Stocked(AddAll(inv, items))
  {
    AddAllCounts(inv, items);
    var r := AddAll(inv, items);
    forall k | k in r ensures r[k] >= 1 {
      assert Get(r, k) == r[k];
      if k !in inv {
        assert k in (set i | i in items);
        assert k in multiset(items);
        assert Count(items, k) >= 1;
      } else {
        assert Get(inv, k) >= 1;
      }
    }
  }

  /** `_consume_inventory`: a positive amount is taken away, and an item that
      runs out disappears. */
  function ConsumeInventory(inv: map<string, int>, item: string, amount: int): map<string, int> {
    if amount <= 0 then inv
    else
      var remaining := Get(inv, item) - amount;
      if remaining <= 0 then inv - {item} else inv[item := remaining]
  }

  lemma ConsumeInventoryMeans(inv: map<string, int>, item: string, amount: int)
    requires forall k | k in inv :: inv[k] >= 1
    ensures var r := ConsumeInventory(inv, item, amount);
      && (amount <= 0 ==> r == inv)
      && (amount > 0 ==> Get(r, item) == Max(0, Get(inv, item) - amount))
      && (forall k | k != item :: Get(r, k) == Get(inv, k) && (k in r <==> k in inv))
      && (forall k | k in r :: r[k] >= 1)
  {
  }

  // ---------------------------------------------------------------------------
  // Items and weapons

  /** `_item_definition`: the configured definition, or a bare entry named
      after the id. */
  function ItemDefinition(cfg: Config, item: string): ItemDef {
    if item in cfg.items then cfg.items[item] else ItemDef(item, "", [], "")
  }

  predicate IsWeapon(d: ItemDef) {
    d.category == "weapon" || d.weaponType != ""
  }

  /** `_weapon_slot`: "ranged" for a ranged weapon type (any case), "melee"
      for everything else, a missing type included. */
  function WeaponSlot(d: ItemDef): (r: string)
    ensures r == "ranged" || r == "melee"
    ensures r == "ranged" <==> Lower(d.weaponType) == "ranged"
  {
    if Lower(d.weaponType) == "ranged" then "ranged" else "melee"
  }

  /** `self.equipment.get(slot)`. */
  function Equipped(eq: map<string, Option<string>>, slot: string): Option<string> {
    if slot in eq then eq[slot] else None
  }

  /** Python truthiness of an optional id. */
  predicate Occupied(o: Option<string>) {
    o.Some? && o.value != ""
  }

  /** `_apply_weapon_effects`: every effect that names a stat shifts it by the
      delta (negated when removing); other names are ignored. */
  function WeaponEffects(st: Stats, effects: seq<(string, int)>, remove: bool): Stats
    decreases |effects|
  {
    if effects == [] then st
    else
      var name := effects[0].0;
      var change := if remove then -effects[0].1 else effects[0].1;
      var st1 := if IsStat(name) then WithStat(st, name, StatValue(st, name) + change) else st;
      WeaponEffects(st1, effects[1..], remove)
  }

  /** The total delta the effects give one stat. */
  function Delta(effects: seq<(string, int)>, name: string): int
    decreases |effects|
  {
    if effects == [] then 0
    else (if effects[0].0 == name then effects[0].1 else 0) + Delta(effects[1..], name)
  }

  /** Applying effects shifts every stat by its total delta. */
  lemma {:induction false} WeaponEffectsShift(st: Stats, effects: seq<(string, int)>, remove: bool, n: string)
    requires IsStat(n)
    ensures StatValue(WeaponEffects(st, effects, remove), n)
         == StatValue(st, n) + (if remove then -Delta(effects, n) else Delta(effects, n))
    decreases |effects|
  {
    if effects != [] {
      var name := effects[0].0;
      var change := if remove then -effects[0].1 else effects[0].1;
      var st1 := if IsStat(name) then WithStat(st, name, StatValue(st, name) + change) else st;
      WeaponEffectsShift(st1, effects[1..], remove, n);
    }
  }

  /** Two stat blocks that agree on every stat name are the same. */
  lemma StatsExtensional(a: Stats, b: Stats)
    requires forall n | IsStat(n) :: StatValue(a, n) == StatValue(b, n)
    ensures a == b
  {
    assert StatValue(a, "hp") == StatValue(b, "hp");
    assert StatValue(a, "max_hp") == StatValue(b, "max_hp");
    assert StatValue(a, "mana") == StatValue(b, "mana");
    assert StatValue(a, "max_mana") == StatValue(b, "max_mana");
    assert StatValue(a, "stamina") == StatValue(b, "stamina");
    assert StatValue(a, "attack") == StatValue(b, "attack");
    assert StatValue(a, "defence") == StatValue(b, "defence");
    assert StatValue(a, "xp") == StatValue(b, "xp");
  }

  /** Removing a weapon's effects undoes applying them. */
  lemma WeaponEffectsRoundTrip(st: Stats, effects: seq<(string, int)>)
    ensures WeaponEffects(WeaponEffects(st, effects, false), effects, true) == st
  {
    var r := WeaponEffects(WeaponEffects(st, effects, false), effects, true);
    forall n | IsStat(n) ensures StatValue(r, n) == StatValue(st, n) {
      WeaponEffectsShift(st, effects, false, n);
      WeaponEffectsShift(WeaponEffects(st, effects, false), effects, true, n);
    }
    StatsExtensional(r, st);
  }

  /** `_unequip_weapon`: an occupied slot is emptied and its weapon's effects
      removed; an empty slot changes nothing. */
  function Unequip(cfg: Config, st: Stats, eq: map<string, Option<string>>, slot: string)
    : (Stats, map<string, Option<string>>)
  {
    var current := Equipped(eq, slot);
    if !Occupied(current) then (st, eq)
    else (WeaponEffects(st, ItemDefinition(cfg, current.value).effects, true), eq[slot := None])
  }

  /** `_equip_weapon`: stats, slots, and whether anything was equipped. */
  function Equip(cfg: Config, st: Stats, eq: map<string, Option<string>>, item: string)
    : (Stats, map<string, Option<string>>, bool)
  {
    var d := ItemDefinition(cfg, item);
    var slot := WeaponSlot(d);
    if Equipped(eq, slot) == Some(item) then (st, eq, false)
    else
      var u := Unequip(cfg, st, eq, slot);
      (WeaponEffects(u.0, d.effects, false), u.1[slot := Some(item)], true)
  }

  /** Equipping puts the weapon in its slot, touches no other slot, and
      refuses (changing nothing) exactly when it is already there. */
  lemma EquipSlots(cfg: Config, st: Stats, eq: map<string, Option<string>>, item: string)
    ensures var slot := WeaponSlot(ItemDefinition(cfg, item));
      var r := Equip(cfg, st, eq, item);
      && (!r.2 <==> Equipped(eq, slot) == Some(item))
      && (!r.2 ==> r.0 == st && r.1 == eq)
      && Equipped(r.1, slot) == Some(item)
      && r.1.Keys == eq.Keys + {slot}
      && (forall s | s in eq && s != slot :: r.1[s] == eq[s])
  {
  }

  /** Equipping the same weapon twice: the second call is refused. */
  lemma EquipTwice(cfg: Config, st: Stats, eq: map<string, Option<string>>, item: string)
    ensures var r := Equip(cfg, st, eq, item);
      Equip(cfg, r.0, r.1, item) == (r.0, r.1, false)
  {
    EquipSlots(cfg, st, eq, item);
  }

  /** Swapping weapons: every stat ends up shifted by the new weapon's deltas
      minus those of the weapon that was in the slot. */
  lemma EquipShift(cfg: Config, st: Stats, eq: map<string, Option<string>>, item: string, n: string)
    requires IsStat(n)
    ensures var d := ItemDefinition(cfg, item);
      var current := Equipped(eq, WeaponSlot(d));
      var r := Equip(cfg, st, eq, item);
      r.2 ==> StatValue(r.0, n) == StatValue(st, n) + Delta(d.effects, n)
                - (if Occupied(current) then Delta(ItemDefinition(cfg, current.value).effects, n) else 0)
  {
    var d := ItemDefinition(cfg, item);
    var slot := WeaponSlot(d);
    var u := Unequip(cfg, st, eq, slot);
    var current := Equipped(eq, slot);
    if Occupied(current) {
      WeaponEffectsShift(st, ItemDefinition(cfg, current.value).effects, true, n);
    }
    WeaponEffectsShift(u.0, d.effects, false, n);
  }

  /** Equipping into an empty slot and then emptying it restores the stats
      exactly. */
  lemma EquipUnequipRoundTrip(cfg: Config, st: Stats, eq: map<string, Option<string>>, item: string)
    requires item != ""
    requires !Occupied(Equipped(eq, WeaponSlot(ItemDefinition(cfg, item))))
    ensures var slot := WeaponSlot(ItemDefinition(cfg, item));
      var r := Equip(cfg, st, eq, item);
      var u := Unequip(cfg, r.0, r.1, slot);
      r.2 && u.0 == st && u.1 == eq[slot := None]
  {
    WeaponEffectsRoundTrip(st, ItemDefinition(cfg, item).effects);
  }

  // ---------------------------------------------------------------------------
  // Mana regeneration

  /** `_regen_mana`: the per-room rate accumulates in a fractional reserve;
      whole points move from the reserve into mana, capped at the maximum.
      Returns (reserve, mana). */
  function Regen(rate: real, reserve: real, mana: int, maxMana: int): (real, int) {
    if rate <= 0.0 then (reserve, mana)
    else
      var acc := reserve + rate;
      var points := Trunc(acc);
      if points <= 0 then (acc, mana)
      else (acc - points as real, Min(maxMana, mana + points))
  }

  /** The reserve stays a fraction in [0, 1), nothing of the rate is lost
      (reserve plus points moved grows by exactly the rate), and mana never
      exceeds a cap it started under. */
  lemma RegenMeans(rate: real, reserve: real, mana: int, maxMana: int)
    requires 0.0 <= reserve < 1.0
    ensures var r := Regen(rate, reserve, mana, maxMana);
      && 0.0 <= r.0 < 1.0
      && (rate > 0.0 ==> r.0 + Trunc(reserve + rate) as real == reserve + rate)
      && (rate > 0.0 && Trunc(reserve + rate) > 0 ==> r.1 == Min(maxMana, mana + Trunc(reserve + rate)))
      && (rate <= 0.0 || Trunc(reserve + rate) <= 0 ==> r.1 == mana)
      && (mana <= maxMana ==> r.1 <= maxMana)
  {
  }

  /** The shipped rate of 0.25 per room gives one point of mana every fourth
      room. */
  lemma RegenQuarterRate(mana: int, maxMana: int)
    requires mana < maxMana
    ensures var r1 := Regen(0.25, 0.0, mana, maxMana);
      var r2 := Regen(0.25, r1.0, r1.1, maxMana);
      var r3 := Regen(0.25, r2.0, r2.1, maxMana);
      var r4 := Regen(0.25, r3.0, r3.1, maxMana);
      && r3.1 == mana && r3.0 == 0.75
      && r4.1 == mana + 1 && r4.0 == 0.0
  {
    assert Trunc(0.25) == 0;
    assert Trunc(0.5) == 0;
    assert Trunc(0.75) == 0;
    assert Trunc(1.0) == 1;
  }

  // ---------------------------------------------------------------------------
  // Battle repeat keys

  function StripLeft(s: string): (r: string)
    ensures |r| <= |s| && r == s[|s| - |r|..]
    ensures r == [] || !IsSpace(r[0])
  {
    if s != [] && IsSpace(s[0]) then StripLeft(s[1..]) else s
  }

  function StripRight(s: string): (r: string)
    ensures |r| <= |s| && r == s[..|r|]
    ensures r == [] || !IsSpace(r[|r| - 1])
  {
    if s != [] && IsSpace(s[|s| - 1]) then StripRight(s[..|s| - 1]) else s
  }

  /** `str.strip()`. */
  function Strip(s: string): string {
    StripRight(StripLeft(s))
  }

  function SpacesToUnderscores(s: string): (r: string)
    ensures |r| == |s|
    ensures forall i | 0 <= i < |s| :: r[i] == (if s[i] == ' ' then '_' else s[i])
  {
    if s == [] then [] else [if s[0] == ' ' then '_' else s[0]] + SpacesToUnderscores(s[1..])
  }

  /** The label part of a default repeat key. */
  function Slug(caption: string): string {
    SpacesToUnderscores(Lower(Strip(caption)))
  }

  /** `_battle_repeat_key`: the option's explicit key, or
      "<room or 'room'>:<slug of the label>". */
  function RepeatKey(currentRoomId: string, o: OptionSpec): (r: string)
    ensures o.battleRepeatKey != "" ==> r == o.battleRepeatKey
    ensures o.battleRepeatKey == "" ==>
      r == (if currentRoomId != "" then currentRoomId else "room") + ":" + Slug(o.caption)
    ensures r != ""
  {
    if o.battleRepeatKey != "" then o.battleRepeatKey
    else (if currentRoomId != "" then currentRoomId else "room") + ":" + Slug(o.caption)
  }

  /** `strip()` also removes the information separators U+001C to U+001F:
      a label "\x1cFight " in room "hall" is counted under "hall:fight". */
  lemma SeparatorLabelKey(o: OptionSpec)
    requires o.battleRepeatKey == "" && o.caption == ['\U{1C}'] + "Fight "
    ensures RepeatKey("hall", o) == "hall:fight"
  {
    var c := o.caption;
    assert StripLeft(c) == StripLeft(c[1..]) == c[1..];
    assert StripRight(c[1..]) == StripRight(c[1..6]) == "Fight";
    assert Lower("Fight") == "fight";
  }

  lemma {:induction false} LowerIdempotent(s: string)
    ensures Lower(Lower(s)) == Lower(s)
  {
    forall i | 0 <= i < |s| ensures Lower(Lower(s))[i] == Lower(s)[i] {
      assert Lower(s)[i] == LowerChar(s[i]);
    }
  }

  lemma {:induction false} StripLeftIdempotent(s: string)
    ensures StripLeft(StripLeft(s)) == StripLeft(s)
  {
  }

  /** A default key contains no spaces in its label part and depends on the
      label only through its case-folded, trimmed form: two labels differing
      in ASCII letter case or surrounding whitespace share one key. */
  lemma SlugFacts(caption: string, other: string)
    requires Lower(Strip(caption)) == Lower(Strip(other))
    ensures Slug(caption) == Slug(other)
    ensures forall i | 0 <= i < |Slug(caption)| :: Slug(caption)[i] != ' '
  {
  }

  lemma SlugIgnoresCase(caption: string)
    ensures Slug(Lower(caption)) == Slug(caption)
  {
    StripLowerCommute(caption);
    LowerIdempotent(Strip(caption));
  }

  /** Case folding never turns a letter into whitespace or back, so it
      commutes with trimming. */
  lemma {:induction false} StripLowerCommute(s: string)
    ensures Strip(Lower(s)) == Lower(Strip(s))
  {
    StripLeftLower(s);
    StripRightLower(StripLeft(s));
  }

  lemma {:induction false} StripLeftLower(s: string)
    ensures StripLeft(Lower(s)) == Lower(StripLeft(s))
    decreases |s|
  {
    if s != [] {
      assert Lower(s)[0] == LowerChar(s[0]);
      assert IsSpace(LowerChar(s[0])) == IsSpace(s[0]);
      if IsSpace(s[0]) {
        assert Lower(s)[1..] == Lower(s[1..]);
        StripLeftLower(s[1..]);
      }
    }
  }

  lemma {:induction false} StripRightLower(s: string)
    ensures StripRight(Lower(s)) == Lower(StripRight(s))
    decreases |s|
  {
    if s != [] {
      var n := |s| - 1;
      var t := Lower(s);
      assert t[n] == LowerChar(s[n]);
      if IsSpace(s[n]) {
        StripRightDrop(s);
        StripRightDrop(t);
        LowerPrefix(s, n);
        StripRightLower(s[..n]);
      } else {
        StripRightKeep(s);
        StripRightKeep(t);
      }
    }
  }

  lemma StripRightDrop(s: string)
    requires s != [] && IsSpace(s[|s| - 1])
    ensures StripRight(s) == StripRight(s[..|s| - 1])
  {
  }

  lemma StripRightKeep(s: string)
    requires s != [] && !IsSpace(s[|s| - 1])
    ensures StripRight(s) == s
  {
  }

  lemma LowerPrefix(s: string, n: nat)
    requires n <= |s|
    ensures Lower(s)[..n] == Lower(s[..n])
  {
  }
}
