/** The content text_adventure ships (text_adventure/levels, text_adventure/battle_loops
    and text_adventure/game/defaults.py) and what the engine and the validator
    do with it. Room bodies are left empty: nothing the engine decides
    depends on them. The image and sound registries are not part of this model:
    the lemmas take them as parameters and state which keys they need. */
module TaContent {
  import opened Common
  import opened TaModels
  import T = TaRules
  import V = TaValidator

  /** text_adventure/levels/start_room.py */
  const StartRoom := RoomSpec("start", "Crumbling Gate", "", "gate", "ambient_silence", [
    OptionSpec("Take the archway", "hall", "", ""),
    OptionSpec("Descend the stairwell", "crypt", "", ""),
    OptionSpec("Shout a challenge at the darkness", "hall", "simple_goblin", "")])

  /** text_adventure/levels/hall_room.py */
  const HallRoom := RoomSpec("hall", "Echoing Hall", "", "hall", "ambient_silence", [
    OptionSpec("Inspect the statues", "hall", "", ""),
    OptionSpec("Return to the gate", "start", "", "")])

  /** text_adventure/levels/crypt_room.py */
  const CryptRoom := RoomSpec("crypt", "Quiet Crypt", "", "crypt", "ambient_silence", [
    OptionSpec("Climb the ladder back up", "start", "", "")])

  /** text_adventure/battle_loops/simple_goblin.py, with the dataclass defaults
      filled in (`variance` 2, everything else 0). */
  const Goblin := Enemy("goblin", "Goblin Scout", 10, 3, 1, ["potion_small"])

  const SimpleGoblin := BattleSpec("simple_goblin", "Goblin Skirmish", Goblin, [
      BattleAction(Attack, "Quick strike", 0, 2, "", 0, 0, 0, 0, 0, 0),
      BattleAction(SkillCheck, "Brace and shove", 0, 2, "stamina", 6, 3, 0, 0, 0, 0),
      BattleAction(Cast, "Focus burst", 2, 1, "", 0, 0, 0, 0, 0, 3)],
    "", "", "The goblin drops its dagger and flees.", "You crumple to the floor; cold stone greets you.")

  /** text_adventure/game/defaults.py */
  const Defaults := Config("start", Stats(20, 20, 10, 10, 3, 1, 0), Some(2), 0.0, 1.5, 5, 1, Some("start"))

  const Rooms := map["start" := StartRoom, "hall" := HallRoom, "crypt" := CryptRoom]
  const Battles := map["simple_goblin" := SimpleGoblin]
  const Shipped := World(Rooms, Battles, Defaults)

  /** The rooms' images and music are registered. */
  predicate AssetsPresent(images: map<string, string>, sounds: map<string, string>) {
    "gate" in images && "hall" in images && "crypt" in images && "ambient_silence" in sounds
  }

  // ---------------------------------------------------------------------------
  // Validation

  /** The edges out of the gate: both passages, and the goblin battle's
      victory room and defeat fallback. */
  lemma StartEdges()
    ensures V.RoomEdges(Rooms, Battles, "start", "start", StartRoom.options, {}) == V.Built({"hall", "crypt", "start"})
  {
    var os := StartRoom.options;
    assert V.OptionEdges(Rooms, Battles, "start", "start", os[0]) == V.Built({"hall"});
    assert V.OptionEdges(Rooms, Battles, "start", "start", os[1]) == V.Built({"crypt"});
    assert Battles[os[2].battleId] == SimpleGoblin;
    assert {"hall"} + {"hall"} + {"start"} == {"hall", "start"};
    assert V.OptionEdges(Rooms, Battles, "start", "start", os[2]) == V.Built({"hall", "start"});
    assert os[1..][1..][1..] == [];
    assert {} + {"hall"} == {"hall"};
    assert {"hall"} + {"crypt"} == {"hall", "crypt"};
    assert {"hall", "crypt"} + {"hall", "start"} == {"hall", "crypt", "start"};
    assert V.RoomEdges(Rooms, Battles, "start", "start", os[1..][1..][1..], {"hall", "crypt", "start"}) ==
      V.Built({"hall", "crypt", "start"});
  }

  lemma HallEdges()
    ensures V.RoomEdges(Rooms, Battles, "start", "hall", HallRoom.options, {}) == V.Built({"hall", "start"})
  {
    var os := HallRoom.options;
    assert V.OptionEdges(Rooms, Battles, "start", "hall", os[0]) == V.Built({"hall"});
    assert V.OptionEdges(Rooms, Battles, "start", "hall", os[1]) == V.Built({"start"});
    assert os[1..][1..] == [];
    assert {} + {"hall"} == {"hall"};
    assert {"hall"} + {"start"} == {"hall", "start"};
    assert V.RoomEdges(Rooms, Battles, "start", "hall", os[1..][1..], {"hall", "start"}) == V.Built({"hall", "start"});
  }

  lemma CryptEdges()
    ensures V.RoomEdges(Rooms, Battles, "start", "crypt", CryptRoom.options, {}) == V.Built({"start"})
  {
    var os := CryptRoom.options;
    assert V.OptionEdges(Rooms, Battles, "start", "crypt", os[0]) == V.Built({"start"});
    assert os[1..] == [];
    assert {} + {"start"} == {"start"};
    assert V.RoomEdges(Rooms, Battles, "start", "crypt", os[1..], {"start"}) == V.Built({"start"});
  }

  /** The edges out of each shipped room. */
  lemma ShippedEdges(order: seq<string>)
    requires V.RoomTable(Rooms, order)
    ensures var a := V.Adjacency(Rooms, Battles, "start", order, V.Blank(Rooms));
      && a.Built?
      && V.Succ(a.value, "start") == {"hall", "crypt", "start"}
  {
    StartEdges();
    HallEdges();
    CryptEdges();
    V.RoomsBuilt(Rooms, order, Battles, "start");
    assert "start" in order;
    V.AdjacencyEdges(Rooms, Battles, "start", order, V.Blank(Rooms), "start");
  }

  /** With passages from the gate to the hall and the crypt, every shipped
      room is reachable from the gate. */
  lemma GateReachesAll(adj: map<string, set<string>>)
    requires "hall" in V.Succ(adj, "start") && "crypt" in V.Succ(adj, "start")
    ensures forall k | k in Rooms :: V.Reaches(adj, "start", k)
  {
    V.ReachesSelf(adj, "start");
    V.ReachesStep(adj, "start", "start", "hall");
    V.ReachesStep(adj, "start", "start", "crypt");
  }

  /** Every shipped room is reachable from the start. */
  lemma ShippedReachable(order: seq<string>)
    requires V.RoomTable(Rooms, order)
    ensures V.Adjacency(Rooms, Battles, "start", order, V.Blank(Rooms)).Built?
    ensures var adj := V.Adjacency(Rooms, Battles, "start", order, V.Blank(Rooms)).value;
      forall k | k in Rooms :: V.Reaches(adj, "start", k)
  {
    ShippedEdges(order);
    GateReachesAll(V.Adjacency(Rooms, Battles, "start", order, V.Blank(Rooms)).value);
  }

  /** Every room's background and music are registered. */
  lemma ShippedAssets(order: seq<string>, images: map<string, string>, sounds: map<string, string>)
    requires V.RoomTable(Rooms, order)
    requires AssetsPresent(images, sounds)
    ensures V.AssetsVerdict(Rooms, order, images, sounds) == V.Ok
  {
    V.AssetsOk(Rooms, order, images, sounds);
    assert Rooms.Keys == {"start", "hall", "crypt"};
  }

  /** The shipped room graph passes, with DEFEAT_ROOM_ID as the fallback. */
  lemma ShippedGraph(order: seq<string>)
    requires V.RoomTable(Rooms, order)
    ensures V.GraphVerdict(Rooms, order, "start", Battles, "start") == V.Ok
  {
    ShippedReachable(order);
    V.SoundAdjacency(Rooms, order, Battles, "start");
    V.GraphOkMeans(Rooms, order, "start", Battles, "start");
  }

  /** The shipped content passes validation whenever its assets are
      registered, whatever order the loader files the rooms in. */
  lemma ShippedValidates(order: seq<string>, images: map<string, string>, sounds: map<string, string>)
    requires V.RoomTable(Rooms, order)
    requires AssetsPresent(images, sounds)
    ensures V.ValidateVerdict(Rooms, order, images, sounds, Battles, Defaults) == V.Passed
  {
    ShippedAssets(order, images, sounds);
    ShippedGraph(order);
  }

  // ---------------------------------------------------------------------------
  // Play

  /** A new game starts at the gate with STARTING_STATS, nothing carried and
      no battle. */
  lemma FreshStart()
    ensures T.GoTo(Shipped, GameState(Defaults.startingStats, map[], map[], "", None, None), Defaults.startRoomId, true)
      == GameState(Stats(20, 20, 10, 10, 3, 1, 0), map[], map[], "start", None, None)
  {
  }

  /** The player's move against a fresh goblin leaves it at least 3 hit
      points: no action does more than 7 damage. */
  lemma GoblinMoveBound(s: GameState, a: BattleAction, d: Dice)
    requires s.stats == Defaults.startingStats && s.currentBattle.Some?
    requires s.currentBattle.value.spec == SimpleGoblin && s.currentBattle.value.enemyHp == 10
    requires a in SimpleGoblin.actions
    ensures var m := T.Move(Defaults, s, a, d);
      m.Some? && m.value.currentBattle.value.enemyHp >= 3 && m.value.stats.hp == 20 && m.value.stats.defence == 1
  {
    assert !T.Crits(Defaults, d.critDraw);
    if a.kind.Attack? {
      assert a == SimpleGoblin.actions[0];
      T.PlayerDamageRange(Defaults, s, 0, 2, d);
    } else if a.kind.Cast? {
      assert a == SimpleGoblin.actions[2];
      var s1 := s.(stats := s.stats.(mana := 7));
      T.PlayerDamageRange(Defaults, s1, 2, 1, d);
    } else {
      assert a == SimpleGoblin.actions[1];
    }
  }

  /** A fresh player survives the goblin's first turn and the battle goes on:
      the goblin keeps at least 3 hit points and hits for at most 4. */
  lemma GoblinFirstTurn(s: GameState, a: BattleAction, d: Dice)
    requires s.stats == Defaults.startingStats && s.currentBattle.Some?
    requires s.currentBattle.value.spec == SimpleGoblin && s.currentBattle.value.enemyHp == 10
    requires a in SimpleGoblin.actions
    ensures var r := T.ResolveBattleAction(Defaults, s, a, d);
      && r.currentBattle.Some? && r.currentBattle.value.enemyHp >= 3
      && r.stats.hp >= 16
      && r.inventory == s.inventory && r.pending == s.pending
  {
    GoblinMoveBound(s, a, d);
    var m := T.Move(Defaults, s, a, d).value;
    assert T.EnemyDamage(Defaults, m.stats, Goblin, d.enemyRoll) <= 4;
  }

  // ---------------------------------------------------------------------------
  // The validator's regression case: a gate with an option into the void

  const Void := OptionSpec("Fall into void", "missing", "", "")
  const BrokenRooms := Rooms["start" := StartRoom.(options := StartRoom.options + [Void])]

  /** Only the new option of the broken table fails. */
  lemma OnlyVoidFails(k: string, o: OptionSpec)
    requires k in BrokenRooms && o in BrokenRooms[k].options
    requires V.OptionEdges(BrokenRooms, Battles, "start", k, o).Failed?
    ensures k == "start" && o == Void
  {
    var os := BrokenRooms[k].options;
    var i :| 0 <= i < |os| && os[i] == o;
    if k == "start" {
      assert os == StartRoom.options + [Void];
      if i < 3 {
        assert false;
      }
    } else {
      assert false;
    }
  }

  /** The broken table's graph check reports the option into the void,
      whatever order the rooms are filed in. */
  lemma BrokenGraph(order: seq<string>)
    requires V.RoomTable(BrokenRooms, order)
    ensures V.GraphVerdict(BrokenRooms, order, "start", Battles, "start") == V.MissingRoom("start", "Fall into void", "missing")
  {
    var broken := StartRoom.options + [Void];
    assert BrokenRooms["start"].options == broken && broken[3] == Void;
    V.SoundAdjacency(BrokenRooms, order, Battles, "start");
    assert V.OptionEdges(BrokenRooms, Battles, "start", "start", Void).Failed?;
    V.GraphFailureGenuine(BrokenRooms, order, "start", Battles, "start");
    var k, o :| k in BrokenRooms && o in BrokenRooms[k].options &&
      V.OptionEdges(BrokenRooms, Battles, "start", k, o) == V.Failed(V.GraphVerdict(BrokenRooms, order, "start", Battles, "start"));
    OnlyVoidFails(k, o);
  }

  /** The broken table's backgrounds and music are the shipped ones. */
  lemma BrokenAssets(order: seq<string>, images: map<string, string>, sounds: map<string, string>)
    requires V.RoomTable(BrokenRooms, order)
    requires AssetsPresent(images, sounds)
    ensures V.AssetsVerdict(BrokenRooms, order, images, sounds) == V.Ok
  {
    V.AssetsOk(BrokenRooms, order, images, sounds);
    assert BrokenRooms.Keys == {"start", "hall", "crypt"};
  }

  /** With the gate's extra option into a missing room, validation fails with
      a message that says "missing room". */
  lemma BrokenRoomReported(order: seq<string>, images: map<string, string>, sounds: map<string, string>)
    requires V.RoomTable(BrokenRooms, order)
    requires AssetsPresent(images, sounds)
    ensures var v := V.ValidateVerdict(BrokenRooms, order, images, sounds, Battles, Defaults);
      && v == V.MissingRoom("start", "Fall into void", "missing")
      && !v.Success()
      && exists i :: V.At(Lower(V.Message(v)), "missing room", i)
  {
    BrokenAssets(order, images, sounds);
    BrokenGraph(order);
    V.MissingRoomMessage("start", "Fall into void", "missing");
  }
}
