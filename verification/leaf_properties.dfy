/** Properties of the leaf strategies, stated through `Eval`, including what the legacy entry points change. */
module LeafProperties {
  import opened Wrappers
  import opened Scm
  import opened NameFilters
  import opened Strategies

  /** The regular-branch rule builds exactly the plain branches, whatever the revisions and causes. */
  lemma RegularBranchesIff(host: Host, ctx: Context, other: Context)
    requires other.head == ctx.head
    ensures Decide(RegularBranches, host, ctx) <==> ctx.head.Branch?
    ensures Decide(RegularBranches, host, ctx) == Decide(RegularBranches, host, other)
  {
  }

  /** The name rule never builds a change request or a tag, whatever its filters. */
  lemma NamedRejectsChangeRequestsAndTags(filters: seq<NameFilter>, host: Host, ctx: Context)
    requires !ctx.head.Branch?
    ensures Eval(NamedBranches(filters), host, ctx) == Verdict(false, 0)
  {
  }

  /** On a plain branch the name rule builds iff some filter accepts the name; no filters, no build. */
  lemma NamedIff(filters: Option<seq<NameFilter>>, host: Host, ctx: Context)
    requires ctx.head.Branch?
    ensures var fs := FixNullList(filters);
      Decide(NamedBranches(fs), host, ctx) <==> exists i :: 0 <= i < |fs| && IsMatch(fs[i], host, ctx.head.name)
    ensures filters.None? ==> !Decide(NamedBranches(FixNullList(filters)), host, ctx)
  {
  }

  /** The name rule stops at the first accepting filter. */
  lemma NamedStopsAtFirstMatch(filters: seq<NameFilter>, j: nat, host: Host, ctx: Context)
    requires ctx.head.Branch? && j < |filters|
    ensures IsMatch(filters[j], host, ctx.head.name)
         && (forall i :: 0 <= i < j ==> !IsMatch(filters[i], host, ctx.head.name))
        ==> Eval(NamedBranches(filters), host, ctx) == Verdict(true, j + 1)
  {
  }

  /** The user-cause rule refuses iff some cause is a user cause, whatever the head and revisions. */
  lemma UserCauseRuleIff(host: Host, ctx: Context)
    ensures Decide(SkipUserCauses, host, ctx) <==> forall i :: 0 <= i < |ctx.causes| ==> !ctx.causes[i].UserIdCause?
  {
  }

  /** Through the overloads without causes, the user-cause rule always builds. */
  lemma UserCauseRuleWithoutCausesBuilds(host: Host, ctx: Context, prev: Option<Revision>)
    ensures Decide(SkipUserCauses, host, WithoutCauses(ctx))
    ensures Decide(SkipUserCauses, host, FromPrevious(ctx, prev))
  {
  }

  /**
   * The last-seen rule builds iff there is a last-seen revision and it differs
   * from the current one; the head, the last-built revision and the causes do not matter.
   */
  lemma SkipInitialIff(host: Host, ctx: Context, head: Head, lastBuilt: Option<Revision>, causes: seq<Cause>)
    ensures Decide(SkipInitialBuild, host, ctx) <==> ctx.lastSeen.Some? && ctx.lastSeen.value != ctx.current
    ensures Decide(SkipInitialBuild, host, ctx)
         == Decide(SkipInitialBuild, host, ctx.(head := head, lastBuilt := lastBuilt, causes := causes))
  {
  }

  /** Through the single-previous-revision overload, the last-seen rule compares the previous revision. */
  lemma SkipInitialFromPrevious(host: Host, ctx: Context, prev: Option<Revision>)
    ensures Decide(SkipInitialBuild, host, FromPrevious(ctx, prev)) <==> prev.Some? && prev.value != ctx.current
  {
  }

  /** The causes-aware variant, case by case. */
  lemma CustomSkipInitialCases(host: Host, ctx: Context)
    ensures ctx.lastSeen.None? && HasBranchIndexingCause(ctx.causes) ==> !Decide(CustomSkipInitialBuild, host, ctx)
    ensures ctx.lastSeen == Some(ctx.current) ==> !Decide(CustomSkipInitialBuild, host, ctx)
    ensures ctx.lastSeen.None? && !HasBranchIndexingCause(ctx.causes) ==> Decide(CustomSkipInitialBuild, host, ctx)
    ensures ctx.lastSeen.Some? && ctx.lastSeen.value != ctx.current ==> Decide(CustomSkipInitialBuild, host, ctx)
  {
  }

  /** Through the overload without causes the first-indexing skip never fires: build iff the revision is not the last seen. */
  lemma CustomSkipInitialWithoutCauses(host: Host, ctx: Context)
    ensures Decide(CustomSkipInitialBuild, host, WithoutCauses(ctx)) <==> ctx.lastSeen != Some(ctx.current)
  {
  }

  /**
   * The two "skip first indexing" variants really differ: on a head never seen
   * before, outside branch indexing, one builds and the other does not.
   */
  lemma SkipVariantsDiffer(host: Host, ctx: Context)
    requires ctx.lastSeen.None? && ctx.causes == []
    ensures !Decide(SkipInitialBuild, host, ctx) && Decide(CustomSkipInitialBuild, host, ctx)
  {
  }
}
