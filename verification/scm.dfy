/**
 * The slice of the host's source-control abstraction that build strategies read:
 * heads, revisions, trigger causes, the per-invocation context, and the host
 * capabilities (clock, regular-expression engine, change-request comparison,
 * trusted-revision lookup) that the strategies call but do not implement.
 */
module Scm {
  import opened Wrappers

  /** A discovered head: a plain branch, a tag with its creation time, or a change request. */
  datatype Head =
    | Branch(name: string)
    | Tag(name: string, timestamp: int)
    | ChangeRequest(name: string, target: string)
  {
    function Name(): string {
      match this
      case Branch(n) => n
      case Tag(n, _) => n
      case ChangeRequest(n, _) => n
    }
  }

  /**
   * A revision of a head. Change-request revisions also know whether they are a
   * merge of the change onto its target. Equality is the revisions' `equals`.
   */
  datatype Revision =
    | PlainRevision(hash: string)
    | ChangeRequestRevision(hash: string, targetHash: string, isMerge: bool)

  /** What triggered the evaluation. */
  datatype Cause =
    | UserIdCause(userId: string)
    | BranchIndexingCause
    | OtherCause(description: string)

  /** Outcome of asking the source for the trusted counterpart of a revision. */
  datatype TrustLookup = Trusted(revision: Revision) | LookupFailed

  /**
   * Everything one evaluation sees: the head, its current revision, the optional
   * last-built and last-seen revisions, and the trigger causes.
   */
  datatype Context = Context(
    head: Head,
    current: Revision,
    lastBuilt: Option<Revision>,
    lastSeen: Option<Revision>,
    causes: seq<Cause>)

  /**
   * Host capabilities. `regexMatches(regex, caseSensitive, name)` is the host's
   * whole-string regular-expression match and `regexCompiles(regex)` says whether
   * the expression is well formed; `equivalent(a, b)` is the change-request
   * revision comparison that ignores the merge target; `trustedRevision` is the
   * source's lookup, which may fail; `now` is the wall clock in milliseconds.
   */
  datatype Host = Host(
    now: int,
    regexMatches: (string, bool, string) -> bool,
    regexCompiles: string -> bool,
    equivalent: (Revision, Revision) -> bool,
    trustedRevision: Revision -> TrustLookup)

  /**
   * The outcome of one evaluation: whether to build, and how many direct children
   * (sub-strategies of a composite, or name filters of the name strategy) were
   * consulted before the answer was known.
   */
  datatype Verdict = Verdict(build: bool, consulted: nat)

  /**
   * The context seen through the deprecated overloads that take no causes and
   * pass an empty cause array on to the widest entry point.
   */
  function WithoutCauses(ctx: Context): (c: Context)
    ensures c.causes == []
    ensures c.head == ctx.head && c.current == ctx.current
    ensures c.lastBuilt == ctx.lastBuilt && c.lastSeen == ctx.lastSeen
  {
    ctx.(causes := [])
  }

  /**
   * The context seen through the legacy entry point that takes a single previous
   * revision: it is forwarded as both the last-built and the last-seen revision,
   * and no causes are supplied.
   */
  function FromPrevious(ctx: Context, prev: Option<Revision>): (c: Context)
    ensures c.head == ctx.head && c.current == ctx.current
    ensures c.lastBuilt == prev && c.lastSeen == prev
    ensures c.causes == []
  {
    Context(ctx.head, ctx.current, prev, prev, [])
  }
}
