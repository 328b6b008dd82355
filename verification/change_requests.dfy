/**
 * The change-request strategy: builds change-request heads, optionally skipping
 * revisions whose only change is the merge target and revisions that differ
 * from the source's trusted revision.
 */
module ChangeRequestFilter {
  import opened Wrappers
  import opened Scm

  /** The strategy's two flags. */
  datatype Flags = Flags(ignoreTargetOnlyChanges: bool, ignoreUntrustedChanges: bool)

  /** The deprecated one-flag constructor: untrusted changes are not ignored. */
  function NewFlags(ignoreTargetOnlyChanges: bool): (f: Flags)
    ensures !f.ignoreUntrustedChanges && f.ignoreTargetOnlyChanges == ignoreTargetOnlyChanges
  {
    Flags(ignoreTargetOnlyChanges, false)
  }

  /**
   * The target-only test: both the current and the last-built revision are
   * change-request revisions, the current one is a merge, and the host deems it
   * equivalent to the last-built one apart from the merge target.
   */
  predicate OnlyTargetChanged(host: Host, ctx: Context) {
    && ctx.current.ChangeRequestRevision?
    && ctx.lastBuilt.Some? && ctx.lastBuilt.value.ChangeRequestRevision?
    && ctx.current.isMerge
    && host.equivalent(ctx.current, ctx.lastBuilt.value)
  }

  /** The trust test: the lookup succeeded and returned the current revision itself. */
  predicate IsTrusted(host: Host, ctx: Context) {
    host.trustedRevision(ctx.current) == Trusted(ctx.current)
  }

  /**
   * `ChangeRequestBuildStrategyImpl.isAutomaticBuild`. A failed trust lookup is
   * caught and treated as untrusted; it never escapes.
   */
  function ChangeRequestDecision(flags: Flags, host: Host, ctx: Context): (r: bool)
    ensures r <==>
      && ctx.head.ChangeRequest?
      && !(flags.ignoreTargetOnlyChanges && OnlyTargetChanged(host, ctx))
      && (flags.ignoreUntrustedChanges ==> IsTrusted(host, ctx))
  {
    if !ctx.head.ChangeRequest? then false
    else if flags.ignoreTargetOnlyChanges && ctx.current.ChangeRequestRevision?
         && ctx.lastBuilt.Some? && ctx.lastBuilt.value.ChangeRequestRevision?
         && ctx.current.isMerge && host.equivalent(ctx.current, ctx.lastBuilt.value) then
      false
    else if flags.ignoreUntrustedChanges then
      match host.trustedRevision(ctx.current)
      case LookupFailed => false
      case Trusted(t) => ctx.current == t
    else true
  }

  /** Without `ignoreUntrustedChanges` the trust lookup is never consulted: any two lookups give the same answer. */
  lemma TrustIgnoredWhenFlagOff(flags: Flags, host: Host, lookup: Revision -> TrustLookup, ctx: Context)
    requires !flags.ignoreUntrustedChanges
    ensures ChangeRequestDecision(flags, host, ctx) == ChangeRequestDecision(flags, host.(trustedRevision := lookup), ctx)
  {
  }

  /** A failing trust lookup yields "do not build" when untrusted changes are ignored. */
  lemma FailedLookupMeansNoBuild(flags: Flags, host: Host, ctx: Context)
    requires flags.ignoreUntrustedChanges
    requires host.trustedRevision(ctx.current) == LookupFailed
    ensures !ChangeRequestDecision(flags, host, ctx)
  {
  }

  /** `equals` as written: only `ignoreTargetOnlyChanges` is compared. */
  predicate EqualsAsWritten(a: Flags, b: Flags) {
    a.ignoreTargetOnlyChanges == b.ignoreTargetOnlyChanges
  }

  /** `hashCode`: 1 for `ignoreTargetOnlyChanges` plus 2 for `ignoreUntrustedChanges`. */
  function HashCode(f: Flags): (h: int)
    ensures 0 <= h < 4
    ensures h % 2 == 1 <==> f.ignoreTargetOnlyChanges
    ensures h >= 2 <==> f.ignoreUntrustedChanges
  {
    (if f.ignoreTargetOnlyChanges then 1 else 0) + (if f.ignoreUntrustedChanges then 2 else 0)
  }

  /** `equals` as evidently intended: both flags are compared. */
  predicate Equals(a: Flags, b: Flags) {
    a.ignoreTargetOnlyChanges == b.ignoreTargetOnlyChanges && a.ignoreUntrustedChanges == b.ignoreUntrustedChanges
  }

  /**
   * The written `equals` breaks the equals/hashCode contract: two strategies
   * differing only in `ignoreUntrustedChanges` are equal yet hash differently, and
   * they even decide differently.
   */
  lemma EqualsAsWrittenBreaksHashContract(host: Host, ctx: Context)
    requires ctx.head.ChangeRequest?
    requires host.trustedRevision(ctx.current) == LookupFailed
    ensures var a, b := Flags(false, false), Flags(false, true);
      EqualsAsWritten(a, b) && HashCode(a) != HashCode(b)
      && ChangeRequestDecision(a, host, ctx) != ChangeRequestDecision(b, host, ctx)
  {
  }

  /** The corrected `equals` is configuration equality, consistent with `hashCode` in both directions. */
  lemma EqualsConsistentWithHashCode(a: Flags, b: Flags)
    ensures Equals(a, b) <==> a == b
    ensures Equals(a, b) <==> HashCode(a) == HashCode(b)
  {
  }
}
