/** The requirement trees that gate room options in levelkit_text
    (`_evaluate_requirement` and `_option_available` in
    levelkit_text/engine/core.py).

    The source reads a loosely typed dictionary and picks the first key it
    recognises, in the order flag, not_flag, min, alert_below, all, any; each
    constructor below is the dictionary whose first recognised key is that one.
    `Unknown` is a dictionary with none of these keys, `NotDict` any value that
    is not a dictionary at all (a list, a string, a number, None). */
module KitRequirements {
  import opened Common

  datatype Req =
    | Flag(flag: string)
    | NotFlag(flag: string)
    | Min(thresholds: map<string, int>)
    | MinNotDict                      // `{"min": <not a dict>}`
    | AlertBelow(bound: int)
    | All(conds: seq<Req>)
    | Any(conds: seq<Req>)
    | Unknown
    | NotDict

  /** `_flag_value`: an absent flag reads as 0. */
  function FlagValue(flags: map<string, int>, flag: string): int {
    Get(flags, flag)
  }

  /** `_evaluate_requirement`. Non-dictionary children of `all`/`any` are
      skipped, not evaluated. */
  function Eval(e: Req, flags: map<string, int>, alert: int): bool
    decreases e, 1
  {
    match e
    case Flag(f) => FlagValue(flags, f) > 0
    case NotFlag(f) => FlagValue(flags, f) == 0
    case Min(t) => forall k | k in t :: FlagValue(flags, k) >= t[k]
    case MinNotDict => false
    case AlertBelow(n) => alert < n
    case All(cs) => AllHold(cs, flags, alert)
    case Any(cs) => AnyHolds(cs, flags, alert)
    case Unknown => true
    case NotDict => false
  }

  /** Python's `all(...)` over the dictionary children, in order. */
  function AllHold(cs: seq<Req>, flags: map<string, int>, alert: int): bool
    decreases cs, 0
  {
    if cs == [] then true
    else (cs[0].NotDict? || Eval(cs[0], flags, alert)) && AllHold(cs[1..], flags, alert)
  }

  /** Python's `any(...)` over the dictionary children, in order. */
  function AnyHolds(cs: seq<Req>, flags: map<string, int>, alert: int): bool
    decreases cs, 0
  {
    if cs == [] then false
    else (!cs[0].NotDict? && Eval(cs[0], flags, alert)) || AnyHolds(cs[1..], flags, alert)
  }

  /** `_option_available`, given the option's legacy flag gates ("" = unset)
      and its `require_expr` (None when absent). A `require_expr` that is not
      a dictionary is ignored. */
  function OptionAvailable(requiresFlag: string, requiresNotFlag: string, requireExpr: Option<Req>,
                           flags: map<string, int>, alert: int): bool
  {
    if requiresFlag != "" && FlagValue(flags, requiresFlag) <= 0 then false
    else if requiresNotFlag != "" && FlagValue(flags, requiresNotFlag) > 0 then false
    else if requireExpr.Some? && !requireExpr.value.NotDict? && !Eval(requireExpr.value, flags, alert) then false
    else true
  }

  // ---------------------------------------------------------------------------
  // Properties

  /** `{flag: F}` holds exactly when F is positive, `{not_flag: F}` exactly when
      it is zero or absent. */
  lemma FlagLeaves(f: string, flags: map<string, int>, alert: int)
    ensures Eval(Flag(f), flags, alert) <==> (f in flags && flags[f] > 0)
    ensures Eval(NotFlag(f), flags, alert) <==> (f !in flags || flags[f] == 0)
  {
  }

  /** The two leaves are complementary while the flag is not negative ... */
  lemma NotFlagIsNegation(f: string, flags: map<string, int>, alert: int)
    requires FlagValue(flags, f) >= 0
    ensures Eval(NotFlag(f), flags, alert) == !Eval(Flag(f), flags, alert)
  {
  }

  /** ... and both fail on a negative flag, which `inc` can produce. */
  lemma NegativeFlagFailsBoth(f: string, flags: map<string, int>, alert: int)
    requires f in flags && flags[f] < 0
    ensures !Eval(Flag(f), flags, alert) && !Eval(NotFlag(f), flags, alert)
  {
  }

  /** `{min: {...}}` asks every listed flag to reach its threshold (that is
      the definition), so a positive threshold can only pass once its flag
      is set, and raising flags never makes a passing `min` fail. */
  lemma MinIsConjunction(t: map<string, int>, flags: map<string, int>, raised: map<string, int>, alert: int)
    ensures Eval(Min(t), flags, alert) ==> forall k | k in t && t[k] > 0 :: k in flags
    ensures (forall k | k in t :: FlagValue(raised, k) >= FlagValue(flags, k)) && Eval(Min(t), flags, alert) ==>
      Eval(Min(t), raised, alert)
  {
  }

  /** `all` holds exactly when every dictionary child holds. */
  lemma {:induction false} AllMeansEvery(cs: seq<Req>, flags: map<string, int>, alert: int)
    ensures AllHold(cs, flags, alert) <==>
      (forall i | 0 <= i < |cs| && !cs[i].NotDict? :: Eval(cs[i], flags, alert))
  {
    if cs != [] {
      AllMeansEvery(cs[1..], flags, alert);
      assert forall i | 1 <= i < |cs| :: cs[i] == cs[1..][i - 1];
    }
  }

  /** `any` holds exactly when some dictionary child holds. */
  lemma {:induction false} AnyMeansSome(cs: seq<Req>, flags: map<string, int>, alert: int)
    ensures AnyHolds(cs, flags, alert) <==>
      (exists i | 0 <= i < |cs| && !cs[i].NotDict? :: Eval(cs[i], flags, alert))
  {
    if cs != [] {
      AnyMeansSome(cs[1..], flags, alert);
      assert forall i | 1 <= i < |cs| :: cs[i] == cs[1..][i - 1];
    }
  }

  /** Over an empty list, or one whose children are all non-dictionaries,
      `all` is true and `any` is false. */
  lemma EmptyCombinators(cs: seq<Req>, flags: map<string, int>, alert: int)
    requires forall i | 0 <= i < |cs| :: cs[i].NotDict?
    ensures Eval(All(cs), flags, alert)
    ensures !Eval(Any(cs), flags, alert)
  {
    AllMeansEvery(cs, flags, alert);
    AnyMeansSome(cs, flags, alert);
  }

  /** The lenient defaults: an unrecognised dictionary passes, a value that is
      not a dictionary fails. */
  lemma Defaults(flags: map<string, int>, alert: int)
    ensures Eval(Unknown, flags, alert)
    ensures !Eval(NotDict, flags, alert)
  {
  }

  /** De Morgan between the combinators: `any` over flag leaves fails exactly
      when `all` over the matching not_flag leaves holds, as long as none of
      the flags is negative. */
  lemma {:induction false} AnyFailsIffAllOfNegations(fs: seq<string>, flags: map<string, int>, alert: int)
    requires forall i | 0 <= i < |fs| :: FlagValue(flags, fs[i]) >= 0
    ensures !AnyHolds(FlagLeavesOf(fs), flags, alert) <==> AllHold(NotFlagLeavesOf(fs), flags, alert)
  {
    if fs != [] {
      AnyFailsIffAllOfNegations(fs[1..], flags, alert);
      assert FlagLeavesOf(fs)[1..] == FlagLeavesOf(fs[1..]);
      assert NotFlagLeavesOf(fs)[1..] == NotFlagLeavesOf(fs[1..]);
    }
  }

  function FlagLeavesOf(fs: seq<string>): (r: seq<Req>)
    ensures |r| == |fs|
  {
    if fs == [] then [] else [Flag(fs[0])] + FlagLeavesOf(fs[1..])
  }

  function NotFlagLeavesOf(fs: seq<string>): (r: seq<Req>)
    ensures |r| == |fs|
  {
    if fs == [] then [] else [NotFlag(fs[0])] + NotFlagLeavesOf(fs[1..])
  }

  /** An option is offered exactly when both legacy gates and the requirement
      tree pass. */
  lemma OptionAvailableMeans(rf: string, rnf: string, e: Option<Req>, flags: map<string, int>, alert: int)
    ensures OptionAvailable(rf, rnf, e, flags, alert) <==>
      && (rf == "" || FlagValue(flags, rf) > 0)
      && (rnf == "" || FlagValue(flags, rnf) <= 0)
      && (e.None? || e.value.NotDict? || Eval(e.value, flags, alert))
  {
  }

  /** A legacy `requires_flag` gate is the `{flag: F}` tree. */
  lemma RequiresFlagIsFlagTree(f: string, flags: map<string, int>, alert: int)
    requires f != ""
    ensures OptionAvailable(f, "", None, flags, alert) == OptionAvailable("", "", Some(Flag(f)), flags, alert)
  {
  }
}
