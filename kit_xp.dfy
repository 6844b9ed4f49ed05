/** The experience curve of levelkit_text/game/xp.py: an explicit list of
    per-level requirements, extended geometrically beyond its end, and the walk
    that turns a total amount of experience into (level, progress, target). */
module KitXp {
  import opened Common

  /** `XP_LEVEL_REQUIREMENTS` and `XP_GROWTH_FACTOR`. */
  datatype Curve = Curve(requirements: seq<int>, growth: real)

  /** The curve the template ships: [50, 90, 140, 200, 270] and 1.25. */
  const DefaultCurve := Curve([50, 90, 140, 200, 270], 1.25)

  function Pow(x: real, n: nat): real {
    if n == 0 then 1.0 else x * Pow(x, n - 1)
  }

  /** `_xp_requirement_for_index`: the experience needed to leave the level with
      this 0-based index. */
  function Requirement(c: Curve, index: nat): (r: int)
    ensures r >= 1
  {
    if index < |c.requirements| then Max(1, c.requirements[index])
    else if c.requirements == [] then 100
    else
      var steps := index - |c.requirements| + 1;
      var base := c.requirements[|c.requirements| - 1];
      Max(1, Ceil(base as real * Pow(c.growth, steps)))
  }

  /** Sum of the requirements of the `count` levels starting at `index`. */
  function SumRequirements(c: Curve, index: nat, count: nat): int
    decreases count
  {
    if count == 0 then 0 else Requirement(c, index) + SumRequirements(c, index + 1, count - 1)
  }

  /** The walk `xp_curve` performs, from level index `index` with `remaining`
      experience: (levels climbed, progress, target). */
  function Walk(c: Curve, remaining: nat, index: nat): (nat, nat, int)
    decreases remaining
  {
    var req := Requirement(c, index);
    if remaining < req then (0, remaining, req)
    else
      var w := Walk(c, remaining - req, index + 1);
      (w.0 + 1, w.1, w.2)
  }

  /** `xp_curve(total_xp)` as a value: (level, progress, target). */
  function Progression(c: Curve, totalXp: int): (int, int, int) {
    var w := Walk(c, Max(0, totalXp), 0);
    (1 + w.0, w.1, w.2)
  }

  /** `xp_curve`: the `while True` loop of the source. */
  method XpCurve(c: Curve, totalXp: int) returns (level: int, progress: int, target: int)
    ensures (level, progress, target) == Progression(c, totalXp)
  {
    var remaining: nat := Max(0, totalXp);
    level := 1;
    var index: nat := 0;
    while true
      invariant level == index + 1
      invariant Progression(c, totalXp) ==
        (var w := Walk(c, remaining, index); (level + w.0, w.1, w.2))
      decreases remaining
    {
      var requirement := Requirement(c, index);
      if remaining < requirement {
        return level, remaining, requirement;
      }
      remaining := remaining - requirement;
      level := level + 1;
      index := index + 1;
    }
  }

  /** Inside the list a requirement is the listed value, floored at 1. */
  lemma RequirementListed(c: Curve, index: nat)
    requires index < |c.requirements|
    ensures Requirement(c, index) == Max(1, c.requirements[index])
  {
  }

  /** Index 5 of the default curve is ceil(270 * 1.25) = ceil(337.5) = 338. */
  lemma RequirementBeyondList()
    ensures Requirement(DefaultCurve, 5) == 338
  {
    assert Pow(1.25, 1) == 1.25;
    assert 270.0 * 1.25 == 337.5;
    assert Ceil(337.5) == 338;
  }

  lemma {:induction false} WalkFacts(c: Curve, remaining: nat, index: nat)
    ensures var w := Walk(c, remaining, index);
      && 0 <= w.1 < w.2
      && w.2 == Requirement(c, index + w.0)
      && SumRequirements(c, index, w.0) + w.1 == remaining
    decreases remaining
  {
    var req := Requirement(c, index);
    if remaining >= req {
      WalkFacts(c, remaining - req, index + 1);
    }
  }

  /** What `xp_curve` returns: a level of at least 1, progress within the level
      below its target, the target being that level's requirement, and the
      requirements of the levels passed plus the progress add up to the
      (non-negative part of the) experience. */
  lemma ProgressionBounds(c: Curve, totalXp: int)
    ensures var p := Progression(c, totalXp);
      && p.0 >= 1
      && 0 <= p.1 < p.2
      && p.2 == Requirement(c, p.0 - 1)
      && SumRequirements(c, 0, p.0 - 1) + p.1 == Max(0, totalXp)
  {
    WalkFacts(c, Max(0, totalXp), 0);
  }

  /** No experience at all (or a negative total) is level 1 with nothing done
      towards the first requirement. */
  lemma ProgressionAtZero(c: Curve, totalXp: int)
    requires totalXp <= 0
    ensures Progression(c, totalXp) == (1, 0, Requirement(c, 0))
  {
  }

  lemma ProgressionAtZeroDefault(totalXp: int)
    requires totalXp <= 0
    ensures Progression(DefaultCurve, totalXp) == (1, 0, 50)
  {
    ProgressionAtZero(DefaultCurve, totalXp);
  }

  lemma {:induction false} WalkMonotonic(c: Curve, r1: nat, r2: nat, index: nat)
    requires r1 <= r2
    ensures Walk(c, r1, index).0 <= Walk(c, r2, index).0
    decreases r1
  {
    var req := Requirement(c, index);
    if r1 >= req {
      WalkMonotonic(c, r1 - req, r2 - req, index + 1);
    }
  }

  /** More experience never means a lower level. */
  lemma ProgressionMonotonic(c: Curve, xp1: int, xp2: int)
    requires xp1 <= xp2
    ensures Progression(c, xp1).0 <= Progression(c, xp2).0
  {
    WalkMonotonic(c, Max(0, xp1), Max(0, xp2), 0);
  }

  /** `_calculate_level_progress` (levelkit_text/engine/core.py): the curve when
      one is configured, its results clamped; otherwise one level per
      `XP_PER_LEVEL` (floored at 1) experience. */
  function LevelProgress(curve: Option<Curve>, xpPerLevel: int, xp: int): (int, int, int) {
    var total := Max(0, xp);
    match curve
    case Some(c) =>
      var p := Progression(c, total);
      (Max(1, p.0), Max(0, p.1), Max(1, p.2))
    case None =>
      var per := Max(1, xpPerLevel);
      (1 + total / per, total % per, per)
  }

  /** The linear fallback keeps the same conservation law as the curve. */
  lemma LevelProgressFallback(xpPerLevel: int, xp: int)
    ensures var p := LevelProgress(None, xpPerLevel, xp);
      && p.0 >= 1 && 0 <= p.1 < p.2
      && (p.0 - 1) * p.2 + p.1 == Max(0, xp)
  {
  }

  /** With a curve configured, the clamps never change what the curve said. */
  lemma LevelProgressWithCurve(c: Curve, xpPerLevel: int, xp: int)
    ensures LevelProgress(Some(c), xpPerLevel, xp) == Progression(c, xp)
  {
    ProgressionBounds(c, Max(0, xp));
  }

  /** A curve with an empty list charges 100 per level, exactly what the
      fallback does with the default `XP_PER_LEVEL` of 100. */
  lemma EmptyCurveIsFallback(growth: real, xp: int)
    ensures Progression(Curve([], growth), xp) == LevelProgress(None, 100, xp)
  {
    WalkFlatAny(growth, Max(0, xp), 0);
  }

  lemma {:induction false} WalkFlatAny(growth: real, remaining: nat, index: nat)
    ensures Walk(Curve([], growth), remaining, index) == (remaining / 100, remaining % 100, 100)
    decreases remaining
  {
    if remaining >= 100 {
      WalkFlatAny(growth, remaining - 100, index + 1);
    }
  }
}
