/** The template adventure that ships with levelkit_text (its five rooms, the
    goblin battle, the weapon table and the defaults), and what the engine
    makes of it.

    The armory's "Take the training blade" option, as written, gains an item
    called "Wooden Bow" and equips "wooden_bow", an id it never gains, so no
    weapon is ever equipped and the goblin trial cannot be won. The template
    below uses the evidently intended option, which gains and equips the
    training blade; the option as written is kept as `TakeBladeAsWritten`. */
module KitTemplate {
  import opened Common
  import opened KitXp
  import opened KitModels
  import opened KitRules
  import opened KitBattle
  import opened KitWorld

  /** `WEAPON_DEFINITIONS` (levelkit_text/game/weapons.py). The base item
      table it is merged with lives in a module that is not part of this
      model. */
  const Weapons: map<string, ItemDef> := map[
    "training_sword" := ItemDef("Training Blade", "weapon", [("attack", 10)], "melee"),
    "wooden_bow" := ItemDef("Wooden Bow", "weapon", [("attack", 8), ("range", 15)], "ranged")]

  /** levelkit_text/game/defaults.py. */
  const Defaults := Config("start", Some("start"), Some(2), 0.0, 1.5, 5, 0.25, Weapons, Some(DefaultCurve), 100)

  /** An option with a caption and a destination and nothing else. */
  function Plain(caption: string, to: string): OptionSpec {
    OptionSpec(caption, to, "", "", None, [], "", "", "", "", NoEffects, [], 1, None, "", "")
  }

  const StartRoom := RoomSpec("start", "Entrance Hall", "", "start_black", "", "",
    [Plain("Go left toward the practice alcove", "armory"),
     Plain("Go right toward the flickering light", "goblin_hall")])

  /** The armory option exactly as levelkit_text/levels/armory_room.py
      writes it. */
  const TakeBladeAsWritten := OptionSpec("Take the training blade", "", "", "Equips automatically", None,
    ["Wooden Bow"], "", "weapon_taken", "weapon_taken", "", NoEffects.(equipItem := ["wooden_bow"]), [], 1, None, "", "")

  /** The option as its caption and hint describe it. */
  const TakeBlade := TakeBladeAsWritten.(gainItems := ["training_sword"],
                                         effects := NoEffects.(equipItem := ["training_sword"]))

  const ArmoryRoom := RoomSpec("armory", "Practice Alcove", "", "armory_blue", "", "",
    [TakeBlade, Plain("Return to the entrance", "start")])

  const GoblinHall := RoomSpec("goblin_hall", "Right Passage", "", "goblin_yellow", "", "",
    [Plain("Face the goblin", "").(battleId := "goblin_trial"), Plain("Retreat to the entrance", "start")])

  const GoblinVictory := RoomSpec("goblin_victory", "Cleared Corridor", "", "victory_green", "", "",
    [Plain("Return to the entrance", "start")])

  const GoblinDefeat := RoomSpec("goblin_defeat", "Recovery Chamber", "", "defeat_red", "", "",
    [Plain("Gather yourself and try again", "start")])

  /** The goblin trial's only move: a skill check on attack >= 4 that deals 12
      on success and 999 to the player on failure. */
  const HoldGround := BattleAction(SkillCheck, "Hold your ground", 0, 2, "attack", 4, 12, 999, 0, 0, 0,
                                   "", "", "", 1, 1.0, false)

  /** levelkit_text/battle_loops/goblin_trial.py. */
  const GoblinTrial := BattleSpec("goblin_trial", "Goblin Ambush",
    Enemy("hallway_goblin", "Goblin Skulker", 10, 4, 1, []), [HoldGround],
    "goblin_victory", "goblin_defeat", "", "", [], 1)

  /** The template's content with a given random source. */
  function Template(rng: Rng): World {
    World(map["start" := StartRoom, "armory" := ArmoryRoom, "goblin_hall" := GoblinHall,
              "goblin_victory" := GoblinVictory, "goblin_defeat" := GoblinDefeat],
          map["goblin_trial" := GoblinTrial], Defaults, rng)
  }

  /** `GameApp.__init__` with the template's `STARTING_STATS`, before the
      first room. */
  const Fresh := GameState(Stats(10, 10, 5, 5, 5, 1, 0, 0), map[], map[], map[], 0, "", None, {},
                           map["melee" := None, "ranged" := None], map[], 0.0, "", 0, 0)

  // ---------------------------------------------------------------------------
  // The goblin trial

  /** Without attack 4 the goblin trial is always lost: the 999 damage drops
      the player to 0, the goblin is untouched, and the player wakes at full
      health in the recovery chamber. */
  lemma GoblinTrialLostUnderAttack4(rng: Rng, s: GameState)
    requires s.currentBattle.Some? && s.currentBattle.value.spec == GoblinTrial
    requires s.currentBattle.value.enemyHp > 0
    requires s.stats.attack < 4 && 0 <= s.stats.hp <= 999
    ensures var r := Resolve(Template(rng), s, HoldGround);
      && r.currentBattle.None? && r.pendingRoom == "goblin_defeat"
      && r.stats == s.stats.(hp := s.stats.maxHp)
  {
    LethalFailure(Template(rng), s, HoldGround);
  }

  /** With attack 4 or more the goblin trial is won in one move from the
      start of the battle: 12 damage against 10 hit points. The victory
      grants XP_PER_VICTORY (5) experience and leads to the cleared
      corridor. */
  lemma GoblinTrialWonFromAttack4(rng: Rng, s: GameState)
    requires s.currentBattle.Some? && s.currentBattle.value.spec == GoblinTrial
    requires s.currentBattle.value.enemyHp <= 12
    requires s.stats.attack >= 4
    ensures var r := Resolve(Template(rng), s, HoldGround);
      && r.currentBattle.None? && r.pendingRoom == "goblin_victory"
      && r.stats == s.stats.(xp := s.stats.xp + 5)
  {
    var w := Template(rng);
    assert ActionBlock(s.equipment, s.inventory, HoldGround).None?;
    assert StatValue(s.stats, "attack") >= 4;
    var m := SetEnemyHp(s, 0);
    assert Resolve(w, s, HoldGround) == Finish(w, m, GoblinTrial);
    assert Finish(w, m, GoblinTrial) == Victory(w, m);
    VictoryMeans(w, m);
  }

  // ---------------------------------------------------------------------------
  // The armory

  /** An option whose only effects are its gains, its `set_flag` and its
      `equip_item` list leaves everything else as it found it. */
  lemma {:induction false} OnlyAcquires(w: World, s: GameState, o: OptionSpec)
    requires o.effects == NoEffects.(equipItem := o.effects.equipItem) && o.clearFlag == ""
    ensures ApplyOptionEffects(w, s, o) == Acquire(w, s, o).0
  {
    var a := Acquire(w, s, o).0;
    var b := FlagMaps(a, o.effects).0;
    assert b.flags == a.flags;
    assert b == a;
    var c := Risk(w, b, o.effects);
    assert c.0 == a && !c.1;
    var d := Settle(c.0, o, c.1, c.2).0;
    assert d.flags == a.flags;
  }

  /** As written, taking the blade equips nothing: the player holds an item
      called "Wooden Bow" that is no weapon, stats and slots are unchanged (so
      attack stays below the goblin trial's 4 if it was), and the option is
      spent. */
  lemma ArmoryAsWritten(rng: Rng, s: GameState)
    requires "wooden_bow" !in s.inventory && "Wooden Bow" !in s.inventory
    ensures var r := HandleRoomOption(Template(rng), s, TakeBladeAsWritten);
      && r.equipment == s.equipment
      && r.stats == s.stats
      && r.inventory == s.inventory["Wooden Bow" := 1]
      && r.flags == s.flags["weapon_taken" := 1]
  {
    var w := Template(rng);
    OnlyAcquires(w, s, TakeBladeAsWritten);
    assert RollLootState(w, s, [], 1) == ([], s);
    assert TakeBladeAsWritten.gainItems + [] == ["Wooden Bow"];
    assert AddAll(s.inventory["Wooden Bow" := 1], []) == s.inventory["Wooden Bow" := 1];
    var g := Gain(w, s, TakeBladeAsWritten).0;
    assert g.inventory == s.inventory["Wooden Bow" := 1];
    assert Get(g.inventory, "wooden_bow") == 0;
    var g1 := g.(flags := s.flags["weapon_taken" := 1]);
    assert EquipTargets(w.cfg, g1, ["wooden_bow"]) == EquipTargets(w.cfg, g1, []);
  }

  /** The training blade goes into an empty melee slot and adds 10 attack. */
  lemma EquipBlade(st: Stats, eq: map<string, Option<string>>)
    requires eq == Fresh.equipment
    ensures Equip(Defaults, st, eq, "training_sword") ==
              (st.(attack := st.attack + 10), eq["melee" := Some("training_sword")], true)
  {
    assert Lower("melee") == "melee";
    var d := Weapons["training_sword"];
    assert ItemDefinition(Defaults, "training_sword") == d;
    assert WeaponSlot(d) == "melee";
    assert Unequip(Defaults, st, eq, "melee") == (st, eq);
    assert WeaponEffects(st, d.effects, false) == WeaponEffects(st.(attack := st.attack + 10), [], false);
  }

  /** The intended option equips the training blade in an empty melee slot,
      adding its 10 attack, so from the starting attack of 1 the goblin trial
      is won. */
  lemma ArmoryEquipsBlade(rng: Rng, s: GameState)
    requires "training_sword" !in s.inventory
    requires s.equipment == Fresh.equipment
    ensures var r := HandleRoomOption(Template(rng), s, TakeBlade);
      && r.equipment == s.equipment["melee" := Some("training_sword")]
      && r.stats == s.stats.(attack := s.stats.attack + 10)
      && r.inventory == s.inventory["training_sword" := 1]
      && r.flags == s.flags["weapon_taken" := 1]
  {
    var w := Template(rng);
    OnlyAcquires(w, s, TakeBlade);
    assert RollLootState(w, s, [], 1) == ([], s);
    assert TakeBlade.gainItems + [] == ["training_sword"];
    assert AddAll(s.inventory["training_sword" := 1], []) == s.inventory["training_sword" := 1];
    var g := Gain(w, s, TakeBlade).0;
    assert g.inventory == s.inventory["training_sword" := 1];
    var g1 := g.(flags := s.flags["weapon_taken" := 1]);
    EquipBlade(g1.stats, g1.equipment);
    var e := Equip(w.cfg, g1.stats, g1.equipment, "training_sword");
    var r := EquipTargets(w.cfg, g1, ["training_sword"]);
    assert r.0 == g1.(stats := e.0, equipment := e.1);
    assert Acquire(w, s, TakeBlade).0 == r.0;
    assert HandleRoomOption(w, s, TakeBlade) == ApplyOptionEffects(w, s, TakeBlade);
  }

  /** The blade can be taken once: afterwards the option is hidden. */
  lemma BladeTakenOnce(rng: Rng, s: GameState)
    requires "weapon_taken" !in s.flags
    requires "training_sword" !in s.inventory
    requires s.equipment == Fresh.equipment
    ensures Available(s, TakeBlade)
    ensures !Available(HandleRoomOption(Template(rng), s, TakeBlade), TakeBlade)
  {
    ArmoryEquipsBlade(rng, s);
  }
}
