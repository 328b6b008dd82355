/**
 * The build-strategy tree and its evaluation. Leaves are the individual rules;
 * `All`, `NoneOf` and `AnyOf` combine an ordered list of sub-strategies with
 * short-circuit evaluation. `Eval` reports the decision together with the number
 * of direct children consulted.
 *
 * Entry points. Each rule is evaluated through the widest entry point it
 * implements, and a composite hands its children the context that its own entry
 * point can forward:
 *  - `All` only implements the entry point without causes, so its children see
 *    no causes (`WithoutCauses`);
 *  - `NoneOf` only implements the legacy single-previous-revision entry point and
 *    calls its children through it: they see the last-built revision as both
 *    last-built and last-seen, and no causes (`FromPrevious`);
 *  - `AnyOf` is not part of the shown code; it is modelled after its tests and,
 *    like `All`, forwards the context without causes.
 */
module Strategies {
  import opened Wrappers
  import opened Scm
  import opened NameFilters
  import opened TagWindow
  import opened ChangeRequestFilter

  datatype Strategy =
    | RegularBranches                        // BranchBuildStrategyImpl
    | NamedBranches(filters: seq<NameFilter>)  // NamedBranchBuildStrategyImpl
    | ChangeRequests(flags: Flags)           // ChangeRequestBuildStrategyImpl
    | Tags(window: Window)                   // TagBuildStrategyImpl
    | SkipUserCauses                         // CauseBuildStrategyImpl
    | SkipInitialBuild                       // SkipInitialBuildOnFirstBranchIndexing
    | CustomSkipInitialBuild                 // CustomSkipInitialBuildOnFirstBranchIndexing
    | All(strategies: seq<Strategy>)         // AllBranchBuildStrategyImpl
    | NoneOf(strategies: seq<Strategy>)      // NoneBranchBuildStrategyImpl
    | AnyOf(strategies: seq<Strategy>)       // the any-of combinator, known from its tests

  /** The list constructors of the composites and the name strategy: a missing list is an empty list. */
  function FixNullList<T>(xs: Option<seq<T>>): (r: seq<T>)
    ensures xs.None? ==> r == []
    ensures xs.Some? ==> r == xs.value
  {
    xs.GetOr([])
  }

  /** `BranchBuildStrategyImpl`: neither a change request nor a tag. */
  predicate RegularBranchDecision(head: Head) {
    match head
    case ChangeRequest(_, _) => false
    case Tag(_, _) => false
    case Branch(_) => true
  }

  /** Whether some cause is a user-initiated cause. */
  predicate HasUserCause(causes: seq<Cause>)
    ensures HasUserCause(causes) <==> exists i :: 0 <= i < |causes| && causes[i].UserIdCause?
  {
    if causes == [] then false
    else causes[0].UserIdCause? || HasUserCause(causes[1..])
  }

  /** `hasBranchIndexingCause`: whether some cause is a branch-indexing cause. */
  predicate HasBranchIndexingCause(causes: seq<Cause>)
    ensures HasBranchIndexingCause(causes) <==> exists i :: 0 <= i < |causes| && causes[i].BranchIndexingCause?
  {
    if causes == [] then false
    else causes[0].BranchIndexingCause? || HasBranchIndexingCause(causes[1..])
  }

  /** `CauseBuildStrategyImpl`: scan the causes in order and refuse at the first user cause. */
  predicate UserCauseDecision(causes: seq<Cause>) {
    !HasUserCause(causes)
  }

  /** `SkipInitialBuildOnFirstBranchIndexing`: build only when a last-seen revision exists and differs from the current one. */
  predicate SkipInitialDecision(ctx: Context) {
    ctx.lastSeen.Some? && ctx.lastSeen.value != ctx.current
  }

  /**
   * `CustomSkipInitialBuildOnFirstBranchIndexing`: skip a head seen for the first
   * time during branch indexing, skip an unchanged revision, build otherwise.
   */
  predicate CustomSkipInitialDecision(ctx: Context) {
    if ctx.lastSeen.None? && HasBranchIndexingCause(ctx.causes) then false
    else if ctx.lastSeen == Some(ctx.current) then false
    else true
  }

  /** The context a composite hands to each of its children. */
  function ChildContext(s: Strategy, ctx: Context): Context
    requires s.All? || s.NoneOf? || s.AnyOf?
  {
    if s.NoneOf? then FromPrevious(ctx, ctx.lastBuilt) else WithoutCauses(ctx)
  }

  /** Evaluate a strategy; composites also report how many children they consulted. */
  function Eval(s: Strategy, host: Host, ctx: Context): (v: Verdict)
    decreases s, 0
  {
    match s
    case RegularBranches => Verdict(RegularBranchDecision(ctx.head), 0)
    case NamedBranches(filters) => NamedDecision(filters, host, ctx)
    case ChangeRequests(flags) => Verdict(ChangeRequestDecision(flags, host, ctx), 0)
    case Tags(window) => Verdict(TagDecision(window, host.now, ctx.head), 0)
    case SkipUserCauses => Verdict(UserCauseDecision(ctx.causes), 0)
    case SkipInitialBuild => Verdict(SkipInitialDecision(ctx), 0)
    case CustomSkipInitialBuild => Verdict(CustomSkipInitialDecision(ctx), 0)
    case All(ss) =>
      if ss == [] then Verdict(false, 0) else EvalAll(ss, 0, host, ChildContext(s, ctx))
    case NoneOf(ss) =>
      if ss == [] then Verdict(false, 0) else EvalNone(ss, 0, host, ChildContext(s, ctx))
    case AnyOf(ss) =>
      EvalAny(ss, 0, host, ChildContext(s, ctx))
  }

  /** Whether a strategy decides to build. */
  predicate Decide(s: Strategy, host: Host, ctx: Context)
    decreases s, 1
  {
    Eval(s, host, ctx).build
  }

  /**
   * Conjunction of `ss[from..]`, stopping at the first child that refuses.
   * `consulted` counts children from index 0, so it includes the `from` skipped.
   */
  function EvalAll(ss: seq<Strategy>, from: nat, host: Host, ctx: Context): (v: Verdict)
    requires from <= |ss|
    ensures from <= v.consulted <= |ss|
    ensures v.build <==> forall i :: from <= i < |ss| ==> Decide(ss[i], host, ctx)
    ensures v.build ==> v.consulted == |ss|
    ensures !v.build ==> v.consulted > from && !Decide(ss[v.consulted - 1], host, ctx)
    ensures forall i :: from <= i < v.consulted - 1 ==> Decide(ss[i], host, ctx)
    decreases ss, |ss| - from
  {
    if from == |ss| then Verdict(true, from)
    else if !Decide(ss[from], host, ctx) then Verdict(false, from + 1)
    else EvalAll(ss, from + 1, host, ctx)
  }

  /** "None of" `ss[from..]`, stopping at the first child that would build. */
  function EvalNone(ss: seq<Strategy>, from: nat, host: Host, ctx: Context): (v: Verdict)
    requires from <= |ss|
    ensures from <= v.consulted <= |ss|
    ensures v.build <==> forall i :: from <= i < |ss| ==> !Decide(ss[i], host, ctx)
    ensures v.build ==> v.consulted == |ss|
    ensures !v.build ==> v.consulted > from && Decide(ss[v.consulted - 1], host, ctx)
    ensures forall i :: from <= i < v.consulted - 1 ==> !Decide(ss[i], host, ctx)
    decreases ss, |ss| - from
  {
    if from == |ss| then Verdict(true, from)
    else if Decide(ss[from], host, ctx) then Verdict(false, from + 1)
    else EvalNone(ss, from + 1, host, ctx)
  }

  /** Disjunction of `ss[from..]`, stopping at the first child that would build. */
  function EvalAny(ss: seq<Strategy>, from: nat, host: Host, ctx: Context): (v: Verdict)
    requires from <= |ss|
    ensures from <= v.consulted <= |ss|
    ensures v.build <==> exists i :: from <= i < |ss| && Decide(ss[i], host, ctx)
    ensures !v.build ==> v.consulted == |ss|
    ensures v.build ==> v.consulted > from && Decide(ss[v.consulted - 1], host, ctx)
    ensures forall i :: from <= i < v.consulted - 1 ==> !Decide(ss[i], host, ctx)
    decreases ss, |ss| - from
  {
    if from == |ss| then Verdict(false, from)
    else if Decide(ss[from], host, ctx) then Verdict(true, from + 1)
    else EvalAny(ss, from + 1, host, ctx)
  }
}
