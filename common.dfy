/** Small helpers shared by both interpreters: optional values, integer clamps,
    Python's float-to-int truncation, critical hits, dictionary lookups with a
    default, Python's whitespace, ASCII case folding, inventory counters and the injected random
    source. */
module Common {

  datatype Option<+T> = None | Some(value: T) {
    function GetOr(default: T): T {
      match this
      case Some(v) => v
      case None => default
    }
  }

  function Max(a: int, b: int): int { if a >= b then a else b }

  function Min(a: int, b: int): int { if a <= b then a else b }

  /** Python's `int(x)` on a float: truncation toward zero. */
  function Trunc(x: real): (r: int)
    ensures x >= 0.0 ==> r as real <= x < r as real + 1.0
    ensures x < 0.0 ==> r as real - 1.0 < x <= r as real
  {
    if x >= 0.0 then x.Floor else -((-x).Floor)
  }

  /** `math.ceil`. */
  function Ceil(x: real): (r: int)
    ensures r as real - 1.0 < x <= r as real
  {
    -((-x).Floor)
  }

  /** `max(0.0, min(1.0, x))`, the clamp the source applies to every probability. */
  function Clamp01(x: real): (r: real)
    ensures 0.0 <= r <= 1.0
    ensures 0.0 <= x <= 1.0 ==> r == x
  {
    if x < 0.0 then 0.0 else if x > 1.0 then 1.0 else x
  }

  /** `d.get(k, 0)` on a dictionary of counters. */
  function Get(m: map<string, int>, k: string): int {
    if k in m then m[k] else 0
  }

  /** Python's `str.isspace()`: the characters `str.strip()` removes and
      `int()` skips around its digits. */
  predicate IsSpace(c: char) {
    var n := c as int;
    || 9 <= n <= 13 || 28 <= n <= 32 || n == 0x85 || n == 0xA0 || n == 0x1680
    || 0x2000 <= n <= 0x200A || n == 0x2028 || n == 0x2029 || n == 0x202F
    || n == 0x205F || n == 0x3000
  }

  /** `str.lower()` restricted to ASCII letters. */
  function LowerChar(c: char): char {
    if 'A' <= c <= 'Z' then (c as int + 32) as char else c
  }

  function Lower(s: string): (r: string)
    ensures |r| == |s|
    ensures forall i :: 0 <= i < |s| ==> r[i] == LowerChar(s[i])
  {
    if s == [] then [] else [LowerChar(s[0])] + Lower(s[1..])
  }

  /** A critical hit's damage: `int(damage * multiplier)`. */
  function CritDamage(damage: int, multiplier: real): int {
    Trunc(damage as real * multiplier)
  }

  /** A critical hit with a multiplier of at least 1 never does less than the
      plain hit. */
  lemma CritNotWeaker(damage: nat, multiplier: real)
    requires multiplier >= 1.0
    ensures CritDamage(damage, multiplier) >= damage
  {
    assert damage as real * (multiplier - 1.0) >= 0.0;
  }

  function Count(items: seq<string>, k: string): nat {
    multiset(items)[k]
  }

  /** Adding gained items to the inventory, one unit per occurrence (levelkit_text
      groups them with `Counter` and adds each count; the totals are the
      same). */
  function AddAll(inv: map<string, int>, items: seq<string>): map<string, int>
    decreases |items|
  {
    if items == [] then inv
    else AddAll(inv[items[0] := Get(inv, items[0]) + 1], items[1..])
  }

  /** Each item's count goes up by the number of times it was gained, and
      nothing else appears. */
  lemma {:induction false} AddAllCounts(inv: map<string, int>, items: seq<string>)
    ensures var r := AddAll(inv, items);
      && r.Keys == inv.Keys + (set i | i in items)
      && forall k :: Get(r, k) == Get(inv, k) + Count(items, k)
    decreases |items|
  {
    if items != [] {
      var inv1 := inv[items[0] := Get(inv, items[0]) + 1];
      AddAllCounts(inv1, items[1..]);
      assert items == [items[0]] + items[1..];
      assert multiset(items) == multiset{items[0]} + multiset(items[1..]);
      assert (set i | i in items) == {items[0]} + (set i | i in items[1..]);
      assert inv1.Keys == inv.Keys + {items[0]};
    }
  }

  /** The random source the interpreters draw from: the k-th call of
      `random.random()` returns `unit(k)`, the k-th call of `random.randint(0, n)`
      returns `ints(k) % (n + 1)`. */
  datatype Rng = Rng(unit: nat -> real, ints: nat -> int)

  /** `random.random()` only returns values in [0, 1). */
  ghost predicate RngValid(rng: Rng) {
    forall k: nat :: 0.0 <= rng.unit(k) < 1.0
  }

  /** `random.randint(0, hi)` fed from the k-th integer draw. */
  function RandInt(rng: Rng, k: nat, hi: nat): (r: nat)
    ensures r <= hi
  {
    rng.ints(k) % (hi + 1)
  }
}
