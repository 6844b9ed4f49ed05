/** text_adventure's content validator (text_adventure/engine/validator.py):
    the asset check, the graph check (the adjacency map built from every
    room's options and battles, then a depth-first search from the start
    room) and `validate`, which runs them in that order.

    A Python dictionary is modelled as a map together with `order`, the
    order in which iterating over it visits the keys; the order decides
    only which problem is reported first. The verdicts stand for the
    `(ok, message)` pairs the source returns; `Message` renders them. */
module TaValidator {
  import opened Common
  import opened TaModels

  datatype Verdict =
    | Ok
    | Passed
    | MissingBackground(room: string, key: string)
    | MissingMusic(room: string, key: string)
    | StartNotFound(start: string)
    | MissingRoom(room: string, option: string, target: string)
    | MissingBattle(room: string, option: string, battle: string)
    | MissingVictoryTo(battle: string, target: string)
    | MissingDefeatTo(battle: string, target: string)
    | MissingDefeatTarget(battle: string, target: string)
    | Unreachable(rooms: set<string>)
  {
    /** The first element of the returned pair. */
    predicate Success() {
      Ok? || Passed?
    }
  }

  /** A room table as the loader builds it: `order` lists every key once,
      and each room is filed under its own id. */
  predicate RoomTable(rooms: map<string, RoomSpec>, order: seq<string>) {
    && (forall k | k in rooms :: k in order)
    && (forall i | 0 <= i < |order| :: order[i] in rooms)
    && (forall i, j | 0 <= i < j < |order| :: order[i] != order[j])
    && (forall k | k in rooms :: rooms[k].id == k)
  }

  // ---------------------------------------------------------------------------
  // Assets

  /** The asset problem of one room: the background is checked before the
      music. */
  function AssetProblem(r: RoomSpec, images: map<string, string>, sounds: map<string, string>): Verdict {
    if r.backgroundKey != "" && r.backgroundKey !in images then MissingBackground(r.id, r.backgroundKey)
    else if r.musicKey != "" && r.musicKey !in sounds then MissingMusic(r.id, r.musicKey)
    else Ok
  }

  /** `_validate_assets`: the first room, in dictionary order, with an asset
      problem. */
  function AssetsVerdict(rooms: map<string, RoomSpec>, order: seq<string>,
                         images: map<string, string>, sounds: map<string, string>): (v: Verdict)
    requires forall i | 0 <= i < |order| :: order[i] in rooms
    ensures v == Ok || v.MissingBackground? || v.MissingMusic?
    decreases |order|
  {
    if order == [] then Ok
    else
      var v := AssetProblem(rooms[order[0]], images, sounds);
      if v != Ok then v else AssetsVerdict(rooms, order[1..], images, sounds)
  }

  /** The asset check passes exactly when no room has a problem, and a
      failure reports the problem of one of the rooms. */
  lemma {:induction false} AssetsVerdictMeans(rooms: map<string, RoomSpec>, order: seq<string>,
                                              images: map<string, string>, sounds: map<string, string>)
    requires forall i | 0 <= i < |order| :: order[i] in rooms
    ensures AssetsVerdict(rooms, order, images, sounds) == Ok <==>
              forall i | 0 <= i < |order| :: AssetProblem(rooms[order[i]], images, sounds) == Ok
    ensures AssetsVerdict(rooms, order, images, sounds) != Ok ==>
              exists i | 0 <= i < |order| :: AssetsVerdict(rooms, order, images, sounds) == AssetProblem(rooms[order[i]], images, sounds)
    decreases |order|
  {
    if order != [] {
      AssetsVerdictMeans(rooms, order[1..], images, sounds);
      assert forall i | 1 <= i < |order| :: order[i] == order[1..][i - 1];
      if AssetProblem(rooms[order[0]], images, sounds) == Ok && AssetsVerdict(rooms, order, images, sounds) != Ok {
        var i :| 0 <= i < |order[1..]| && AssetsVerdict(rooms, order[1..], images, sounds) == AssetProblem(rooms[order[1..][i]], images, sounds);
        assert order[1..][i] == order[i + 1];
      }
    }
  }

  /** The asset check passes exactly when every background and every piece
      of music a room names is registered. */
  lemma AssetsOk(rooms: map<string, RoomSpec>, order: seq<string>,
                 images: map<string, string>, sounds: map<string, string>)
    requires RoomTable(rooms, order)
    ensures AssetsVerdict(rooms, order, images, sounds) == Ok <==>
      forall k | k in rooms ::
        && (rooms[k].backgroundKey != "" ==> rooms[k].backgroundKey in images)
        && (rooms[k].musicKey != "" ==> rooms[k].musicKey in sounds)
  {
    AssetsVerdictMeans(rooms, order, images, sounds);
    forall k | k in rooms ensures exists i | 0 <= i < |order| :: order[i] == k {
      assert k in order;
    }
  }

  /** `_validate_assets`. */
  method ValidateAssets(rooms: map<string, RoomSpec>, order: seq<string>,
                        images: map<string, string>, sounds: map<string, string>) returns (v: Verdict)
    requires RoomTable(rooms, order)
    ensures v == AssetsVerdict(rooms, order, images, sounds)
  {
    for i := 0 to |order|
      invariant AssetsVerdict(rooms, order[i..], images, sounds) == AssetsVerdict(rooms, order, images, sounds)
    {
      assert order[i..][1..] == order[i + 1..];
      var room := rooms[order[i]];
      if room.backgroundKey != "" && room.backgroundKey !in images {
        return MissingBackground(room.id, room.backgroundKey);
      }
      if room.musicKey != "" && room.musicKey !in sounds {
        return MissingMusic(room.id, room.musicKey);
      }
    }
    return Ok;
  }

  // ---------------------------------------------------------------------------
  // The room graph

  /** A value built, or the problem that stopped the building. */
  datatype Built<T> = Built(value: T) | Failed(v: Verdict)

  /** The rooms one option of room `id` leads to, or its first problem: its
      own `to`; for a battle option also `victory_to` (else the option's
      `to`) and the defeat target, `defeat_to` or else the fallback. */
  function OptionEdges(rooms: map<string, RoomSpec>, battles: map<string, BattleSpec>, fallback: string,
                       id: string, o: OptionSpec): (r: Built<set<string>>)
    ensures r.Built? ==> r.value <= rooms.Keys
    ensures r.Built? && o.to != "" ==> o.to in r.value
    ensures r.Failed? ==> !r.v.Success()
  {
    if o.to != "" && o.to !in rooms then Failed(MissingRoom(id, o.caption, o.to))
    else
      var direct := if o.to != "" then {o.to} else {};
      if o.battleId == "" then Built(direct)
      else if o.battleId !in battles then Failed(MissingBattle(id, o.caption, o.battleId))
      else
        var b := battles[o.battleId];
        if b.victoryTo != "" && b.victoryTo !in rooms then Failed(MissingVictoryTo(b.id, b.victoryTo))
        else if b.defeatTo != "" && b.defeatTo !in rooms then Failed(MissingDefeatTo(b.id, b.defeatTo))
        else
          var win := if b.victoryTo != "" then {b.victoryTo} else if o.to != "" then {o.to} else {};
          var target := if b.defeatTo != "" then b.defeatTo else fallback;
          if target == "" then Built(direct + win)
          else if target !in rooms then Failed(MissingDefeatTarget(b.id, target))
          else Built(direct + win + {target})
  }

  /** The inner loop of the adjacency construction: `acc` plus the edges of
      every option, or the first option's problem. */
  function RoomEdges(rooms: map<string, RoomSpec>, battles: map<string, BattleSpec>, fallback: string,
                     id: string, options: seq<OptionSpec>, acc: set<string>): (r: Built<set<string>>)
    ensures r.Built? <==> forall i | 0 <= i < |options| :: OptionEdges(rooms, battles, fallback, id, options[i]).Built?
    ensures r.Built? ==> acc <= r.value
    ensures r.Built? && acc <= rooms.Keys ==> r.value <= rooms.Keys
    ensures r.Failed? ==> exists i | 0 <= i < |options| :: OptionEdges(rooms, battles, fallback, id, options[i]) == Failed(r.v)
    ensures r.Failed? ==> !r.v.Success()
    decreases |options|
  {
    if options == [] then Built(acc)
    else match OptionEdges(rooms, battles, fallback, id, options[0])
      case Failed(v) => Failed(v)
      case Built(t) =>
        var r := RoomEdges(rooms, battles, fallback, id, options[1..], acc + t);
        assert forall i | 1 <= i < |options| :: options[i] == options[1..][i - 1];
        r
  }

  /** `adjacency.get(x, ())`. */
  function Succ(adj: map<string, set<string>>, x: string): set<string> {
    if x in adj then adj[x] else {}
  }

  /** The outer loop of the adjacency construction, over the rooms in
      dictionary order. */
  function Adjacency(rooms: map<string, RoomSpec>, battles: map<string, BattleSpec>, fallback: string,
                     order: seq<string>, adj: map<string, set<string>>): (r: Built<map<string, set<string>>>)
    requires forall i | 0 <= i < |order| :: order[i] in rooms
    ensures r.Built? <==>
      forall i, j | 0 <= i < |order| && 0 <= j < |rooms[order[i]].options| ::
        OptionEdges(rooms, battles, fallback, rooms[order[i]].id, rooms[order[i]].options[j]).Built?
    ensures r.Built? && (forall k | k in adj :: adj[k] <= rooms.Keys) ==>
      forall k | k in r.value :: r.value[k] <= rooms.Keys
    ensures r.Failed? ==>
      exists i, j | 0 <= i < |order| && 0 <= j < |rooms[order[i]].options| ::
        OptionEdges(rooms, battles, fallback, rooms[order[i]].id, rooms[order[i]].options[j]) == Failed(r.v)
    ensures r.Failed? ==> !r.v.Success()
    decreases |order|
  {
    if order == [] then Built(adj)
    else
      var room := rooms[order[0]];
      match RoomEdges(rooms, battles, fallback, room.id, room.options, Succ(adj, room.id))
      case Failed(v) => Failed(v)
      case Built(t) =>
        var r := Adjacency(rooms, battles, fallback, order[1..], adj[room.id := t]);
        assert forall i | 1 <= i < |order| :: order[i] == order[1..][i - 1];
        r
  }

  /** The adjacency map `_validate_graph` starts from: every room, no edge. */
  function Blank(rooms: map<string, RoomSpec>): (adj: map<string, set<string>>)
    ensures forall k | k in adj :: adj[k] == {}
  {
    map k | k in rooms :: {}
  }

  /** Built from distinct rooms filed under their ids, each room's edges are
      those of its own options, whatever the dictionary order. */
  lemma {:induction false} AdjacencyEdges(rooms: map<string, RoomSpec>, battles: map<string, BattleSpec>, fallback: string,
                                          order: seq<string>, adj: map<string, set<string>>, k: string)
    requires forall i | 0 <= i < |order| :: order[i] in rooms && rooms[order[i]].id == order[i]
    requires forall i, j | 0 <= i < j < |order| :: order[i] != order[j]
    requires Adjacency(rooms, battles, fallback, order, adj).Built?
    ensures var r := Adjacency(rooms, battles, fallback, order, adj).value;
      if k in order then
        RoomEdges(rooms, battles, fallback, k, rooms[k].options, Succ(adj, k)) == Built(Succ(r, k))
      else Succ(r, k) == Succ(adj, k)
    decreases |order|
  {
    if order != [] {
      var room := rooms[order[0]];
      var t := RoomEdges(rooms, battles, fallback, room.id, room.options, Succ(adj, room.id)).value;
      assert forall i | 1 <= i < |order| :: order[i] == order[1..][i - 1];
      AdjacencyEdges(rooms, battles, fallback, order[1..], adj[room.id := t], k);
      if k == order[0] {
        assert k !in order[1..];
      }
    }
  }

  /** `p` follows edges of `adj`. */
  ghost predicate Walk(adj: map<string, set<string>>, p: seq<string>) {
    |p| >= 1 && forall i | 0 <= i < |p| - 1 :: p[i + 1] in Succ(adj, p[i])
  }

  /** `b` can be reached from `a`. */
  ghost predicate Reaches(adj: map<string, set<string>>, a: string, b: string) {
    exists p :: Walk(adj, p) && p[0] == a && p[|p| - 1] == b
  }

  lemma ReachesSelf(adj: map<string, set<string>>, a: string)
    ensures Reaches(adj, a, a)
  {
    assert Walk(adj, [a]);
  }

  /** One more edge extends a walk. */
  lemma ReachesStep(adj: map<string, set<string>>, a: string, x: string, y: string)
    requires Reaches(adj, a, x) && y in Succ(adj, x)
    ensures Reaches(adj, a, y)
  {
    var p :| Walk(adj, p) && p[0] == a && p[|p| - 1] == x;
    var q := p + [y];
    assert forall i | 0 <= i < |p| :: q[i] == p[i];
    assert Walk(adj, q);
  }

  /** A set that holds the start of a walk and is closed under the edges
      holds the whole walk. */
  lemma {:induction false} ClosedHoldsWalk(adj: map<string, set<string>>, p: seq<string>, closed: set<string>)
    requires Walk(adj, p) && p[0] in closed
    requires forall x, y | x in closed && y in Succ(adj, x) :: y in closed
    ensures p[|p| - 1] in closed
    decreases |p|
  {
    if |p| > 1 {
      var q := p[..|p| - 1];
      assert Walk(adj, q);
      ClosedHoldsWalk(adj, q, closed);
    }
  }

  /** `stack.extend(more)`, in whatever order the set yields its elements. */
  method Push(stack: seq<string>, more: set<string>) returns (r: seq<string>)
    ensures forall y :: y in r <==> y in stack || y in more
  {
    r := stack;
    var todo := more;
    while todo != {}
      invariant todo <= more
      invariant forall y :: y in r <==> y in stack || (y in more && y !in todo)
      decreases |todo|
    {
      var y :| y in todo;
      r := r + [y];
      todo := todo - {y};
    }
  }

  /** What the depth-first search keeps true: everything visited or on the
      stack is reachable from the start, and every edge out of a visited
      room leads to a visited room or to the stack. */
  ghost predicate Searching(adj: map<string, set<string>>, start: string, universe: set<string>,
                            visited: set<string>, stack: seq<string>) {
    && visited <= universe
    && (forall x | x in visited :: Reaches(adj, start, x))
    && (forall y | y in stack :: y in universe && Reaches(adj, start, y))
    && (forall x, y | x in visited && y in Succ(adj, x) :: y in visited || y in stack)
    && (start in visited || start in stack)
  }

  /** Popping a room already visited keeps the search's invariant. */
  lemma SkipStep(adj: map<string, set<string>>, start: string, universe: set<string>,
                 visited: set<string>, before: seq<string>, stack: seq<string>, current: string)
    requires Searching(adj, start, universe, visited, before)
    requires before == stack + [current] && current in visited
    ensures Searching(adj, start, universe, visited, stack)
  {
    forall x, y | x in visited && y in Succ(adj, x) ensures y in visited || y in stack {
      if y in before && y != current {
        assert y in stack;
      }
    }
  }

  /** Visiting a new room and pushing its successors keeps the search's
      invariant and leaves fewer rooms to visit. */
  lemma VisitStep(adj: map<string, set<string>>, start: string, universe: set<string>,
                  visited: set<string>, before: seq<string>, stack: seq<string>, current: string,
                  pushed: seq<string>)
    requires forall k | k in adj :: adj[k] <= universe
    requires Searching(adj, start, universe, visited, before)
    requires before == stack + [current] && current !in visited
    requires forall y :: y in pushed <==> y in stack || y in Succ(adj, current)
    ensures Searching(adj, start, universe, visited + {current}, pushed)
    ensures |universe - (visited + {current})| < |universe - visited|
  {
    assert current in before;
    forall y | y in Succ(adj, current) ensures Reaches(adj, start, y) {
      ReachesStep(adj, start, current, y);
    }
    forall x, y | x in visited + {current} && y in Succ(adj, x)
      ensures y in visited + {current} || y in pushed
    {
      if x in visited && y in before && y != current {
        assert y in stack;
      }
    }
    assert (universe - visited) - {current} == universe - (visited + {current});
  }

  /** The depth-first search of `_validate_graph`: `visited` ends as exactly
      the rooms reachable from the start. */
  method Explore(adj: map<string, set<string>>, start: string, universe: set<string>) returns (visited: set<string>)
    requires start in universe
    requires forall k | k in adj :: adj[k] <= universe
    ensures forall x :: x in visited <==> Reaches(adj, start, x)
  {
    visited := {};
    var stack := [start];
    ReachesSelf(adj, start);
    while stack != []
      invariant Searching(adj, start, universe, visited, stack)
      decreases |universe - visited|, |stack|
    {
      var current := stack[|stack| - 1];
      ghost var before := stack;
      stack := stack[..|stack| - 1];
      assert before == stack + [current];
      if current in visited {
        SkipStep(adj, start, universe, visited, before, stack, current);
        continue;
      }
      var pushed := Push(stack, Succ(adj, current));
      VisitStep(adj, start, universe, visited, before, stack, current, pushed);
      visited := visited + {current};
      stack := pushed;
    }
    forall x | Reaches(adj, start, x) ensures x in visited {
      var p :| Walk(adj, p) && p[0] == start && p[|p| - 1] == x;
      ClosedHoldsWalk(adj, p, visited);
    }
  }

  /** `_validate_graph`'s verdict: the start room must exist, every option
      must be sound, and every room must be reachable from the start. */
  ghost function GraphVerdict(rooms: map<string, RoomSpec>, order: seq<string>, start: string,
                              battles: map<string, BattleSpec>, fallback: string): Verdict
    requires RoomTable(rooms, order)
  {
    if start !in rooms then StartNotFound(start)
    else match Adjacency(rooms, battles, fallback, order, Blank(rooms))
      case Failed(v) => v
      case Built(adj) =>
        var unreachable := set k | k in rooms && !Reaches(adj, start, k);
        if unreachable == {} then Ok else Unreachable(unreachable)
  }

  /** `_validate_graph`. */
  method ValidateGraph(rooms: map<string, RoomSpec>, order: seq<string>, start: string,
                       battles: map<string, BattleSpec>, fallback: string) returns (v: Verdict)
    requires RoomTable(rooms, order)
    ensures v == GraphVerdict(rooms, order, start, battles, fallback)
  {
    if start !in rooms {
      return StartNotFound(start);
    }
    var adjacency := Blank(rooms);
    for i := 0 to |order|
      invariant Adjacency(rooms, battles, fallback, order[i..], adjacency) ==
                Adjacency(rooms, battles, fallback, order, Blank(rooms))
    {
      assert order[i..][1..] == order[i + 1..];
      var room := rooms[order[i]];
      var edges := Succ(adjacency, room.id);
      for j := 0 to |room.options|
        invariant RoomEdges(rooms, battles, fallback, room.id, room.options[j..], edges) ==
                  RoomEdges(rooms, battles, fallback, room.id, room.options, Succ(adjacency, room.id))
      {
        assert room.options[j..][1..] == room.options[j + 1..];
        var o := room.options[j];
        var added := OptionStep(rooms, battles, fallback, room.id, o);
        if added.Failed? {
          return added.v;
        }
        edges := edges + added.value;
      }
      adjacency := adjacency[room.id := edges];
    }
    var visited := Explore(adjacency, start, rooms.Keys);
    var unreachable := rooms.Keys - visited;
    assert unreachable == set k | k in rooms && !Reaches(adjacency, start, k);
    if unreachable != {} {
      return Unreachable(unreachable);
    }
    return Ok;
  }

  /** The body of the inner loop of `_validate_graph` for one option: the
      checks in the source's order, and the edges they add. */
  method OptionStep(rooms: map<string, RoomSpec>, battles: map<string, BattleSpec>, fallback: string,
                    id: string, o: OptionSpec) returns (r: Built<set<string>>)
    ensures r == OptionEdges(rooms, battles, fallback, id, o)
  {
    if o.to != "" && o.to !in rooms {
      return Failed(MissingRoom(id, o.caption, o.to));
    }
    var edges: set<string> := {};
    if o.to != "" {
      edges := edges + {o.to};
    }
    assert edges == if o.to != "" then {o.to} else {};
    if o.battleId != "" {
      if o.battleId !in battles {
        return Failed(MissingBattle(id, o.caption, o.battleId));
      }
      var battle := battles[o.battleId];
      if battle.victoryTo != "" && battle.victoryTo !in rooms {
        return Failed(MissingVictoryTo(battle.id, battle.victoryTo));
      }
      if battle.defeatTo != "" && battle.defeatTo !in rooms {
        return Failed(MissingDefeatTo(battle.id, battle.defeatTo));
      }
      ghost var direct := edges;
      if battle.victoryTo != "" {
        edges := edges + {battle.victoryTo};
      } else if o.to != "" {
        edges := edges + {o.to};
      }
      assert edges == direct + if battle.victoryTo != "" then {battle.victoryTo} else if o.to != "" then {o.to} else {};
      var defeatTarget := if battle.defeatTo != "" then battle.defeatTo else fallback;
      if defeatTarget != "" {
        if defeatTarget !in rooms {
          return Failed(MissingDefeatTarget(battle.id, defeatTarget));
        }
        edges := edges + {defeatTarget};
      }
    } else {
      assert Built(edges) == OptionEdges(rooms, battles, fallback, id, o);
    }
    return Built(edges);
  }

  /** Every option of every room is sound: its destinations and its
      battle's exist. */
  ghost predicate Sound(rooms: map<string, RoomSpec>, battles: map<string, BattleSpec>, fallback: string) {
    forall k, o | k in rooms && o in rooms[k].options :: OptionEdges(rooms, battles, fallback, k, o).Built?
  }

  /** The graph check passes exactly when the start room exists, every
      option is sound and every room is reachable from the start. */
  lemma GraphOkMeans(rooms: map<string, RoomSpec>, order: seq<string>, start: string,
                     battles: map<string, BattleSpec>, fallback: string)
    requires RoomTable(rooms, order)
    ensures GraphVerdict(rooms, order, start, battles, fallback) == Ok <==>
      && start in rooms
      && Sound(rooms, battles, fallback)
      && forall k | k in rooms :: Reaches(Adjacency(rooms, battles, fallback, order, Blank(rooms)).value, start, k)
  {
    SoundAdjacency(rooms, order, battles, fallback);
    var a := Adjacency(rooms, battles, fallback, order, Blank(rooms));
    if start in rooms && a.Built? {
      NoneUnreachable(rooms, a.value, start);
    }
  }

  /** No room is left over exactly when every room is reachable. */
  lemma NoneUnreachable(rooms: map<string, RoomSpec>, adj: map<string, set<string>>, start: string)
    ensures (set k | k in rooms && !Reaches(adj, start, k)) == {} <==> forall k | k in rooms :: Reaches(adj, start, k)
  {
    var u := set k | k in rooms && !Reaches(adj, start, k);
    if u == {} {
      forall k | k in rooms ensures Reaches(adj, start, k) {
        assert k !in u;
      }
    }
  }

  /** All options are sound exactly when the adjacency map can be built. */
  lemma SoundAdjacency(rooms: map<string, RoomSpec>, order: seq<string>,
                       battles: map<string, BattleSpec>, fallback: string)
    requires RoomTable(rooms, order)
    ensures Adjacency(rooms, battles, fallback, order, Blank(rooms)).Built? <==> Sound(rooms, battles, fallback)
  {
    var b := Adjacency(rooms, battles, fallback, order, Blank(rooms)).Built?;
    if b {
      forall k, o | k in rooms && o in rooms[k].options
        ensures OptionEdges(rooms, battles, fallback, k, o).Built?
      {
        assert k in order;
        var i :| 0 <= i < |order| && order[i] == k;
        var j :| 0 <= j < |rooms[k].options| && rooms[k].options[j] == o;
      }
    }
    if Sound(rooms, battles, fallback) {
      forall i, j | 0 <= i < |order| && 0 <= j < |rooms[order[i]].options|
        ensures OptionEdges(rooms, battles, fallback, rooms[order[i]].id, rooms[order[i]].options[j]).Built?
      {
        assert rooms[order[i]].options[j] in rooms[order[i]].options;
      }
    }
  }

  /** The adjacency map can be built when the options of every room can be
      taken in turn. */
  lemma RoomsBuilt(rooms: map<string, RoomSpec>, order: seq<string>,
                   battles: map<string, BattleSpec>, fallback: string)
    requires RoomTable(rooms, order)
    requires forall k | k in rooms :: RoomEdges(rooms, battles, fallback, k, rooms[k].options, {}).Built?
    ensures Adjacency(rooms, battles, fallback, order, Blank(rooms)).Built?
  {
    forall i, j | 0 <= i < |order| && 0 <= j < |rooms[order[i]].options|
      ensures OptionEdges(rooms, battles, fallback, rooms[order[i]].id, rooms[order[i]].options[j]).Built?
    {
      var k := order[i];
      assert RoomEdges(rooms, battles, fallback, k, rooms[k].options, {}).Built?;
    }
  }

  /** A graph check that stops on an option reports a problem of an option
      of some room. */
  lemma GraphFailureGenuine(rooms: map<string, RoomSpec>, order: seq<string>, start: string,
                            battles: map<string, BattleSpec>, fallback: string)
    requires RoomTable(rooms, order)
    requires start in rooms
    requires Adjacency(rooms, battles, fallback, order, Blank(rooms)).Failed?
    ensures exists k, o | k in rooms && o in rooms[k].options ::
      OptionEdges(rooms, battles, fallback, k, o) == Failed(GraphVerdict(rooms, order, start, battles, fallback))
  {
    var a := Adjacency(rooms, battles, fallback, order, Blank(rooms));
    var i, j :| 0 <= i < |order| && 0 <= j < |rooms[order[i]].options| &&
      OptionEdges(rooms, battles, fallback, rooms[order[i]].id, rooms[order[i]].options[j]) == Failed(a.v);
    var k := order[i];
    assert rooms[k].options[j] in rooms[k].options;
  }

  /** An option leading to a room that does not exist fails the graph check. */
  lemma MissingRoomFails(rooms: map<string, RoomSpec>, order: seq<string>, start: string,
                         battles: map<string, BattleSpec>, fallback: string, k: string, o: OptionSpec)
    requires RoomTable(rooms, order)
    requires k in rooms && o in rooms[k].options && o.to != "" && o.to !in rooms
    ensures !GraphVerdict(rooms, order, start, battles, fallback).Success()
  {
    SoundAdjacency(rooms, order, battles, fallback);
    assert !OptionEdges(rooms, battles, fallback, k, o).Built?;
  }

  // ---------------------------------------------------------------------------
  // validate

  /** `validate`: the asset check first, then the graph check from
      START_ROOM_ID with DEFEAT_ROOM_ID ("" when unset) as the defeat
      fallback. */
  ghost function ValidateVerdict(rooms: map<string, RoomSpec>, order: seq<string>, images: map<string, string>,
                                 sounds: map<string, string>, battles: map<string, BattleSpec>, cfg: Config): Verdict
    requires RoomTable(rooms, order)
  {
    var assets := AssetsVerdict(rooms, order, images, sounds);
    if assets != Ok then assets
    else
      var graph := GraphVerdict(rooms, order, cfg.startRoomId, battles, cfg.defeatRoomId.GetOr(""));
      if graph != Ok then graph else Passed
  }

  /** `validate`. */
  method Validate(rooms: map<string, RoomSpec>, order: seq<string>, images: map<string, string>,
                  sounds: map<string, string>, battles: map<string, BattleSpec>, cfg: Config) returns (v: Verdict)
    requires RoomTable(rooms, order)
    ensures v == ValidateVerdict(rooms, order, images, sounds, battles, cfg)
  {
    var assets := ValidateAssets(rooms, order, images, sounds);
    if assets != Ok {
      return assets;
    }
    var graph := ValidateGraph(rooms, order, cfg.startRoomId, battles, cfg.defeatRoomId.GetOr(""));
    if graph != Ok {
      return graph;
    }
    return Passed;
  }

  /** Validation passes exactly when every asset is registered, the start
      room exists, every option is sound and every room is reachable; an
      asset problem is reported before any graph problem. */
  lemma ValidateMeans(rooms: map<string, RoomSpec>, order: seq<string>, images: map<string, string>,
                      sounds: map<string, string>, battles: map<string, BattleSpec>, cfg: Config)
    requires RoomTable(rooms, order)
    ensures var v := ValidateVerdict(rooms, order, images, sounds, battles, cfg);
      var fallback := cfg.defeatRoomId.GetOr("");
      && (v.Success() <==>
            && (forall k | k in rooms ::
                  && (rooms[k].backgroundKey != "" ==> rooms[k].backgroundKey in images)
                  && (rooms[k].musicKey != "" ==> rooms[k].musicKey in sounds))
            && cfg.startRoomId in rooms
            && Sound(rooms, battles, fallback)
            && forall k | k in rooms ::
                 Reaches(Adjacency(rooms, battles, fallback, order, Blank(rooms)).value, cfg.startRoomId, k))
      && (AssetsVerdict(rooms, order, images, sounds) != Ok ==> v.MissingBackground? || v.MissingMusic?)
      && !v.Ok?
  {
    AssetsOk(rooms, order, images, sounds);
    GraphOkMeans(rooms, order, cfg.startRoomId, battles, cfg.defeatRoomId.GetOr(""));
  }

  // ---------------------------------------------------------------------------
  // Messages

  /** Python's `<=` on strings: code points in order, a prefix first. */
  predicate NotAfter(a: string, b: string)
    decreases |a|
  {
    a == [] || (b != [] && (a[0] < b[0] || (a[0] == b[0] && NotAfter(a[1..], b[1..]))))
  }

  lemma {:induction false} NotAfterRefl(a: string)
    ensures NotAfter(a, a)
    decreases |a|
  {
    if a != [] {
      NotAfterRefl(a[1..]);
    }
  }

  lemma {:induction false} NotAfterTotal(a: string, b: string)
    ensures NotAfter(a, b) || NotAfter(b, a)
    decreases |a|
  {
    if a != [] && b != [] && a[0] == b[0] {
      NotAfterTotal(a[1..], b[1..]);
    }
  }

  lemma {:induction false} NotAfterTrans(a: string, b: string, c: string)
    requires NotAfter(a, b) && NotAfter(b, c)
    ensures NotAfter(a, c)
    decreases |a|
  {
    if a != [] && b != [] && c != [] && a[0] == b[0] && b[0] == c[0] {
      NotAfterTrans(a[1..], b[1..], c[1..]);
    }
  }

  /** Every non-empty set of strings has a least element. */
  lemma {:induction false} LeastExists(u: set<string>)
    requires u != {}
    ensures exists m | m in u :: forall y | y in u :: NotAfter(m, y)
    decreases |u|
  {
    var x :| x in u;
    NotAfterRefl(x);
    if u != {x} {
      LeastExists(u - {x});
      var m :| m in u - {x} && forall y | y in u - {x} :: NotAfter(m, y);
      NotAfterTotal(m, x);
      if !NotAfter(m, x) {
        forall y | y in u ensures NotAfter(x, y) {
          if y != x {
            NotAfterTrans(x, m, y);
          }
        }
      }
    }
  }

  ghost function Least(u: set<string>): (m: string)
    requires u != {}
    ensures m in u && forall y | y in u :: NotAfter(m, y)
  {
    LeastExists(u);
    var m :| m in u && forall y | y in u :: NotAfter(m, y);
    m
  }

  /** `sorted(u)`. */
  ghost function SortedList(u: set<string>): (r: seq<string>)
    ensures |r| == |u| && forall x :: x in r <==> x in u
    ensures forall i, j | 0 <= i < j < |r| :: NotAfter(r[i], r[j])
    decreases |u|
  {
    if u == {} then []
    else
      var m := Least(u);
      var rest := SortedList(u - {m});
      forall j | 0 <= j < |rest| ensures rest[j] in u && NotAfter(m, rest[j]) {
        assert rest[j] in rest;
      }
      [m] + rest
  }

  /** `sep.join(xs)`. */
  function Join(xs: seq<string>, sep: string): string
    decreases |xs|
  {
    if xs == [] then "" else if |xs| == 1 then xs[0] else xs[0] + sep + Join(xs[1..], sep)
  }

  /** The message of each verdict. */
  ghost function Message(v: Verdict): string {
    match v
    case Ok => "ok"
    case Passed => "Validation passed."
    case MissingBackground(room, key) => "Room " + room + " references missing background '" + key + "'."
    case MissingMusic(room, key) => "Room " + room + " references missing music '" + key + "'."
    case StartNotFound(start) => "Start room '" + start + "' not found."
    case MissingRoom(room, option, target) =>
      "Room " + room + " option '" + option + "' leads to " + "missing room" + " '" + target + "'."
    case MissingBattle(room, option, battle) =>
      "Room " + room + " option '" + option + "' references missing battle '" + battle + "'."
    case MissingVictoryTo(battle, target) => "Battle '" + battle + "' victory_to '" + target + "' missing."
    case MissingDefeatTo(battle, target) => "Battle '" + battle + "' defeat_to '" + target + "' missing."
    case MissingDefeatTarget(battle, target) => "Battle '" + battle + "' defeat target '" + target + "' missing."
    case Unreachable(rooms) => "Unreachable rooms: " + Join(SortedList(rooms), ", ") + "."
  }

  /** `Lower` of a concatenation. */
  lemma LowerAppend(a: string, b: string)
    ensures Lower(a + b) == Lower(a) + Lower(b)
  {
  }

  /** No capital letter in `s`. */
  predicate NoCapitals(s: string)
    decreases |s|
  {
    s == [] || (!('A' <= s[0] <= 'Z') && NoCapitals(s[1..]))
  }

  /** A string without capitals is its own lower case. */
  lemma {:induction false} LowerKeeps(s: string)
    requires NoCapitals(s)
    ensures Lower(s) == s
    decreases |s|
  {
    if s != [] {
      LowerKeeps(s[1..]);
    }
  }

  /** `w` occurs in `m` at index `i`. */
  predicate At(m: string, w: string, i: int) {
    0 <= i <= |m| - |w| && m[i..i + |w|] == w
  }

  /** A word without capitals survives lower-casing wherever it stands. */
  lemma LowerAround(a: string, w: string, b: string)
    requires NoCapitals(w)
    ensures At(Lower(a + w + b), w, |a|)
  {
    LowerKeeps(w);
    var m := Lower(a + w + b);
    forall i | 0 <= i < |w| ensures m[|a| + i] == w[i] {
      assert (a + w + b)[|a| + i] == w[i];
      assert Lower(w)[i] == LowerChar(w[i]);
    }
    assert m[|a|..|a| + |w|] == w;
  }

  /** The message of a missing destination, in three parts. */
  lemma MissingRoomParts(room: string, option: string, target: string)
    ensures Message(MissingRoom(room, option, target)) ==
      ("Room " + room + " option '" + option + "' leads to ") + "missing room" + (" '" + target + "'.")
  {
  }

  /** The message of a missing destination, lower-cased, says "missing room". */
  lemma MissingRoomMessage(room: string, option: string, target: string)
    ensures exists i :: At(Lower(Message(MissingRoom(room, option, target))), "missing room", i)
  {
    MissingRoomParts(room, option, target);
    LowerAround("Room " + room + " option '" + option + "' leads to ", "missing room", " '" + target + "'.");
  }
}
