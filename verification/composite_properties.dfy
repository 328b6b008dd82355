/** Properties of the composite strategies: their truth conditions, short-circuiting, and the contexts they forward. */
module CompositeProperties {
  import opened Wrappers
  import opened Scm
  import opened Strategies

  /** An empty (or missing) list never builds, for every composite. */
  lemma EmptyCompositesNeverBuild(host: Host, ctx: Context)
    ensures Eval(All(FixNullList(None)), host, ctx) == Verdict(false, 0)
    ensures Eval(NoneOf(FixNullList(None)), host, ctx) == Verdict(false, 0)
    ensures Eval(AnyOf(FixNullList(None)), host, ctx) == Verdict(false, 0)
  {
  }

  /** `All` builds iff its list is non-empty and every child, given the context without causes, builds. */
  lemma AllIff(ss: seq<Strategy>, host: Host, ctx: Context)
    ensures Decide(All(ss), host, ctx)
        <==> |ss| > 0 && forall i :: 0 <= i < |ss| ==> Decide(ss[i], host, WithoutCauses(ctx))
  {
  }

  /** `NoneOf` builds iff its list is non-empty and no child, given the legacy context, builds. */
  lemma NoneOfIff(ss: seq<Strategy>, host: Host, ctx: Context)
    ensures Decide(NoneOf(ss), host, ctx)
        <==> |ss| > 0 && forall i :: 0 <= i < |ss| ==> !Decide(ss[i], host, FromPrevious(ctx, ctx.lastBuilt))
  {
  }

  /** `AnyOf` builds iff some child, given the context without causes, builds. */
  lemma AnyOfIff(ss: seq<Strategy>, host: Host, ctx: Context)
    ensures Decide(AnyOf(ss), host, ctx)
        <==> exists i :: 0 <= i < |ss| && Decide(ss[i], host, WithoutCauses(ctx))
  {
  }

  /**
   * `All` stops at its first refusing child: exactly the children up to and
   * including it are consulted, and a full pass happens only when all build.
   */
  lemma AllStopsAtFirstRefusal(ss: seq<Strategy>, j: nat, host: Host, ctx: Context)
    requires j < |ss|
    requires !Decide(ss[j], host, WithoutCauses(ctx))
    requires forall i :: 0 <= i < j ==> Decide(ss[i], host, WithoutCauses(ctx))
    ensures Eval(All(ss), host, ctx) == Verdict(false, j + 1)
  {
  }

  /** `NoneOf` stops at its first child that would build. */
  lemma NoneOfStopsAtFirstBuild(ss: seq<Strategy>, j: nat, host: Host, ctx: Context)
    requires j < |ss|
    requires Decide(ss[j], host, FromPrevious(ctx, ctx.lastBuilt))
    requires forall i :: 0 <= i < j ==> !Decide(ss[i], host, FromPrevious(ctx, ctx.lastBuilt))
    ensures Eval(NoneOf(ss), host, ctx) == Verdict(false, j + 1)
  {
  }

  /** `AnyOf` stops at its first child that would build. */
  lemma AnyOfStopsAtFirstBuild(ss: seq<Strategy>, j: nat, host: Host, ctx: Context)
    requires j < |ss|
    requires Decide(ss[j], host, WithoutCauses(ctx))
    requires forall i :: 0 <= i < j ==> !Decide(ss[i], host, WithoutCauses(ctx))
    ensures Eval(AnyOf(ss), host, ctx) == Verdict(true, j + 1)
  {
  }

  /** A composite that does not short-circuit consults every child. */
  lemma FullPassConsultsEveryChild(ss: seq<Strategy>, host: Host, ctx: Context)
    ensures Decide(All(ss), host, ctx) ==> Eval(All(ss), host, ctx).consulted == |ss|
    ensures Decide(NoneOf(ss), host, ctx) ==> Eval(NoneOf(ss), host, ctx).consulted == |ss|
    ensures !Decide(AnyOf(ss), host, ctx) ==> Eval(AnyOf(ss), host, ctx).consulted == |ss|
  {
  }

  /**
   * Children after the deciding one are never evaluated: once a prefix holds a
   * refusing child, whatever follows it does not change the verdict of `All`.
   */
  lemma AllIgnoresChildrenAfterRefusal(ss: seq<Strategy>, rest1: seq<Strategy>, rest2: seq<Strategy>,
                                      j: nat, host: Host, ctx: Context)
    requires j < |ss| && !Decide(ss[j], host, WithoutCauses(ctx))
    ensures Eval(All(ss + rest1), host, ctx) == Eval(All(ss + rest2), host, ctx)
  {
    var c := WithoutCauses(ctx);
    var k := FirstWhere(ss, false, host, c, j);
    AllStopsAtFirstRefusal(ss + rest1, k, host, ctx);
    AllStopsAtFirstRefusal(ss + rest2, k, host, ctx);
  }

  /** Whatever follows a child that builds does not change the verdict of `NoneOf`. */
  lemma NoneOfIgnoresChildrenAfterBuild(ss: seq<Strategy>, rest1: seq<Strategy>, rest2: seq<Strategy>,
                                       j: nat, host: Host, ctx: Context)
    requires j < |ss| && Decide(ss[j], host, FromPrevious(ctx, ctx.lastBuilt))
    ensures Eval(NoneOf(ss + rest1), host, ctx) == Eval(NoneOf(ss + rest2), host, ctx)
  {
    var c := FromPrevious(ctx, ctx.lastBuilt);
    var k := FirstWhere(ss, true, host, c, j);
    NoneOfStopsAtFirstBuild(ss + rest1, k, host, ctx);
    NoneOfStopsAtFirstBuild(ss + rest2, k, host, ctx);
  }

  /** Whatever follows a child that builds does not change the verdict of `AnyOf`. */
  lemma AnyOfIgnoresChildrenAfterBuild(ss: seq<Strategy>, rest1: seq<Strategy>, rest2: seq<Strategy>,
                                      j: nat, host: Host, ctx: Context)
    requires j < |ss| && Decide(ss[j], host, WithoutCauses(ctx))
    ensures Eval(AnyOf(ss + rest1), host, ctx) == Eval(AnyOf(ss + rest2), host, ctx)
  {
    var c := WithoutCauses(ctx);
    var k := FirstWhere(ss, true, host, c, j);
    AnyOfStopsAtFirstBuild(ss + rest1, k, host, ctx);
    AnyOfStopsAtFirstBuild(ss + rest2, k, host, ctx);
  }

  /** The first index, at or before `j`, whose child decides `target`; it is the same in any extension of `ss`. */
  lemma {:induction false} FirstWhere(ss: seq<Strategy>, target: bool, host: Host, c: Context, j: nat) returns (k: nat)
    requires j < |ss| && Decide(ss[j], host, c) == target
    ensures k <= j && Decide(ss[k], host, c) == target
    ensures forall i :: 0 <= i < k ==> Decide(ss[i], host, c) != target
    ensures forall r: seq<Strategy>, i :: 0 <= i <= k ==> (ss + r)[i] == ss[i]
    decreases j
  {
    if exists i :: 0 <= i < j && Decide(ss[i], host, c) == target {
      var i :| 0 <= i < j && Decide(ss[i], host, c) == target;
      k := FirstWhere(ss, target, host, c, i);
    } else {
      k := j;
    }
  }

  /** `All` never sees the causes: two contexts that differ only in their causes get the same verdict. */
  lemma AllIgnoresCauses(ss: seq<Strategy>, host: Host, ctx: Context, causes: seq<Cause>)
    ensures Eval(All(ss), host, ctx) == Eval(All(ss), host, ctx.(causes := causes))
  {
  }

  /**
   * `NoneOf` sees only the head, the current revision and the last-built
   * revision: the last-seen revision and the causes never reach its children.
   */
  lemma NoneOfIgnoresLastSeenAndCauses(ss: seq<Strategy>, host: Host, ctx: Context,
                                       lastSeen: Option<Revision>, causes: seq<Cause>)
    ensures Eval(NoneOf(ss), host, ctx) == Eval(NoneOf(ss), host, ctx.(lastSeen := lastSeen, causes := causes))
  {
  }

  /** Nested under `All`, the user-cause rule never refuses, since `All` forwards no causes. */
  lemma UserCauseRuleUnderAllAlwaysBuilds(host: Host, ctx: Context)
    ensures Decide(All([SkipUserCauses]), host, ctx)
  {
  }

  /** Nested under `NoneOf`, the user-cause rule always builds, so `NoneOf` of it never does. */
  lemma UserCauseRuleUnderNoneOfNeverBuilds(host: Host, ctx: Context)
    ensures !Decide(NoneOf([SkipUserCauses]), host, ctx)
  {
  }
}
