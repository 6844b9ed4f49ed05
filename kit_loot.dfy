/** The loot resolver of levelkit_text (`_roll_loot_table` in
    levelkit_text/engine/core.py), as functions of the random source.

    `unit(k)` is the k-th result of `random.random()`; every function takes
    the index of the next draw and returns the index after its own draws. An
    award is reported as the index of the table entry that produced it. */
module KitLoot {
  import opened Common
  import opened KitModels

  /** The key under which a unique entry is remembered. */
  function UniqueKey(e: LootEntry): string {
    if e.uniqueKey != "" then e.uniqueKey else e.item
  }

  /** Whether scanning entry `e` draws a random number at all. */
  predicate Draws(e: LootEntry) {
    e.item != "" && Clamp01(e.chance) < 1.0
  }

  /** One attempt, scanning `table[j..]`: the entry awarded (if any), the
      unique keys afterwards, and the next draw index. */
  function AttemptFrom(unit: nat -> real, table: seq<LootEntry>, j: nat, uniques: set<string>, k: nat)
    : (r: (Option<nat>, set<string>, nat))
    requires j <= |table|
    ensures k <= r.2
    ensures r.0.Some? ==> j <= r.0.value < |table|
    decreases |table| - j
  {
    if j == |table| then (None, uniques, k)
    else
      var e := table[j];
      if e.item == "" then AttemptFrom(unit, table, j + 1, uniques, k)
      else
        var chance := Clamp01(e.chance);
        var missed := chance < 1.0 && unit(k) > chance;
        var k' := if chance < 1.0 then k + 1 else k;
        if missed then AttemptFrom(unit, table, j + 1, uniques, k')
        else if e.unique && UniqueKey(e) in uniques then AttemptFrom(unit, table, j + 1, uniques, k')
        else (Some(j), if e.unique then uniques + {UniqueKey(e)} else uniques, k')
  }

  /** `n` attempts in a row. */
  function Attempts(unit: nat -> real, table: seq<LootEntry>, n: nat, uniques: set<string>, k: nat)
    : (r: (seq<nat>, set<string>, nat))
    decreases n
  {
    if n == 0 then ([], uniques, k)
    else
      var a := AttemptFrom(unit, table, 0, uniques, k);
      var rest := Attempts(unit, table, n - 1, a.1, a.2);
      ((if a.0.Some? then [a.0.value] else []) + rest.0, rest.1, rest.2)
  }

  /** `max(1, int(rolls or 1))`. */
  function AttemptCount(rolls: int): nat {
    Max(1, rolls)
  }

  /** `_roll_loot_table(table, rolls)`: the awarded entries, the unique keys
      afterwards, the next draw index. */
  function Roll(unit: nat -> real, table: seq<LootEntry>, rolls: int, uniques: set<string>, k: nat)
    : (r: (seq<nat>, set<string>, nat))
  {
    if table == [] then ([], uniques, k)
    else Attempts(unit, table, AttemptCount(rolls), uniques, k)
  }

  /** The item of entry `i`; every index an attempt reports is in range
      (`AttemptsUniqueOnce`). */
  function ItemOf(table: seq<LootEntry>, i: nat): string {
    if i < |table| then table[i].item else ""
  }

  /** The items of the awarded entries, in order. */
  function ItemsOf(table: seq<LootEntry>, awarded: seq<nat>): (r: seq<string>)
    ensures |r| == |awarded|
  {
    if awarded == [] then [] else [ItemOf(table, awarded[0])] + ItemsOf(table, awarded[1..])
  }

  // ---------------------------------------------------------------------------
  // Properties

  /** An empty table awards nothing and draws nothing. */
  lemma EmptyTable(unit: nat -> real, rolls: int, uniques: set<string>, k: nat)
    ensures Roll(unit, [], rolls, uniques, k) == ([], uniques, k)
  {
  }

  /** What one attempt guarantees: the awarded entry names an item, passed its
      chance test on the last draw of the attempt, and, when unique, had not
      been awarded before and is remembered now; unique keys only accumulate,
      and nothing but the awarded entry's key is added. */
  lemma {:induction false} AttemptSound(unit: nat -> real, table: seq<LootEntry>, j: nat, uniques: set<string>, k: nat)
    requires j <= |table|
    ensures var r := AttemptFrom(unit, table, j, uniques, k);
      && uniques <= r.1
      && (r.0.None? ==> r.1 == uniques)
      && (r.0.Some? ==>
            var e := table[r.0.value];
            && e.item != ""
            && (Draws(e) ==> k < r.2 && unit(r.2 - 1) <= Clamp01(e.chance))
            && (e.unique ==> UniqueKey(e) !in uniques && r.1 == uniques + {UniqueKey(e)})
            && (!e.unique ==> r.1 == uniques))
    decreases |table| - j
  {
    if j < |table| {
      var e := table[j];
      var chance := Clamp01(e.chance);
      var k' := if chance < 1.0 then k + 1 else k;
      if e.item == "" {
        AttemptSound(unit, table, j + 1, uniques, k);
        assert AttemptFrom(unit, table, j, uniques, k) == AttemptFrom(unit, table, j + 1, uniques, k);
      } else if (chance < 1.0 && unit(k) > chance) || (e.unique && UniqueKey(e) in uniques) {
        AttemptSound(unit, table, j + 1, uniques, k');
        assert AttemptFrom(unit, table, j, uniques, k) == AttemptFrom(unit, table, j + 1, uniques, k');
      } else {
        assert AttemptFrom(unit, table, j, uniques, k) == (Some(j), if e.unique then uniques + {UniqueKey(e)} else uniques, k');
      }
    }
  }

  /** Each attempt awards at most one item, so a roll awards at most
      `max(1, rolls)` of them. */
  lemma {:induction false} AttemptsLength(unit: nat -> real, table: seq<LootEntry>, n: nat, uniques: set<string>, k: nat)
    ensures |Attempts(unit, table, n, uniques, k).0| <= n
    decreases n
  {
    if n > 0 {
      var a := AttemptFrom(unit, table, 0, uniques, k);
      AttemptsLength(unit, table, n - 1, a.1, a.2);
    }
  }

  lemma RollLength(unit: nat -> real, table: seq<LootEntry>, rolls: int, uniques: set<string>, k: nat)
    ensures |Roll(unit, table, rolls, uniques, k).0| <= Max(1, rolls)
  {
    if table != [] {
      AttemptsLength(unit, table, AttemptCount(rolls), uniques, k);
    }
  }

  /** The unique keys of the awarded unique entries, in order. */
  function UniqueKeysOf(table: seq<LootEntry>, awarded: seq<nat>): seq<string>
    requires forall i | 0 <= i < |awarded| :: awarded[i] < |table|
  {
    if awarded == [] then []
    else
      var e := table[awarded[0]];
      (if e.unique then [UniqueKey(e)] else []) + UniqueKeysOf(table, awarded[1..])
  }

  predicate Distinct(xs: seq<string>) {
    forall i, j | 0 <= i < j < |xs| :: xs[i] != xs[j]
  }

  /** Across any number of attempts sharing one set of awarded keys, a unique
      key is awarded at most once: the unique keys awarded are pairwise
      distinct, none was in the set before, and all of them are in it after. */
  lemma {:induction false} AttemptsUniqueOnce(unit: nat -> real, table: seq<LootEntry>, n: nat, uniques: set<string>, k: nat)
    ensures var r := Attempts(unit, table, n, uniques, k);
      && (forall i | 0 <= i < |r.0| :: r.0[i] < |table|)
      && uniques <= r.1
      && Distinct(UniqueKeysOf(table, r.0))
      && (forall key | key in UniqueKeysOf(table, r.0) :: key !in uniques && key in r.1)
    decreases n
  {
    if n > 0 {
      var a := AttemptFrom(unit, table, 0, uniques, k);
      AttemptSound(unit, table, 0, uniques, k);
      AttemptsUniqueOnce(unit, table, n - 1, a.1, a.2);
      var rest := Attempts(unit, table, n - 1, a.1, a.2);
      var head: seq<nat> := if a.0.Some? then [a.0.value] else [];
      assert Attempts(unit, table, n, uniques, k).0 == head + rest.0;
      UniqueKeysAppend(table, head, rest.0);
    }
  }

  lemma {:induction false} UniqueKeysAppend(table: seq<LootEntry>, xs: seq<nat>, ys: seq<nat>)
    requires forall i | 0 <= i < |xs| :: xs[i] < |table|
    requires forall i | 0 <= i < |ys| :: ys[i] < |table|
    ensures UniqueKeysOf(table, xs + ys) == UniqueKeysOf(table, xs) + UniqueKeysOf(table, ys)
  {
    if xs != [] {
      assert (xs + ys)[1..] == xs[1..] + ys;
      UniqueKeysAppend(table, xs[1..], ys);
    } else {
      assert xs + ys == ys;
    }
  }

  lemma RollUniqueOnce(unit: nat -> real, table: seq<LootEntry>, rolls: int, uniques: set<string>, k: nat)
    ensures var r := Roll(unit, table, rolls, uniques, k);
      && (forall i | 0 <= i < |r.0| :: r.0[i] < |table|)
      && uniques <= r.1
      && Distinct(UniqueKeysOf(table, r.0))
      && (forall key | key in UniqueKeysOf(table, r.0) :: key !in uniques && key in r.1)
  {
    if table != [] {
      AttemptsUniqueOnce(unit, table, AttemptCount(rolls), uniques, k);
    }
  }

  /** An entry with full chance (or more) and no uniqueness is always awarded
      when the scan reaches it, without a draw. */
  lemma GuaranteedEntry(unit: nat -> real, table: seq<LootEntry>, j: nat, uniques: set<string>, k: nat)
    requires j < |table| && table[j].item != "" && table[j].chance >= 1.0 && !table[j].unique
    ensures AttemptFrom(unit, table, j, uniques, k) == (Some(j), uniques, k)
  {
  }
}
