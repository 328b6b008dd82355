/**
 * The tag strategy: tags whose age lies in an optional window. Each bound is held
 * in milliseconds, with -1 meaning "no bound"; the form binding reads and writes
 * the bounds as whole-day strings.
 */
module TagWindow {
  import opened Wrappers
  import opened Text
  import opened Decimal
  import opened Scm

  const MillisPerDay: nat := 86_400_000

  /** The "no bound" sentinel. */
  const Disabled: int := -1

  datatype TimeUnit = Nanoseconds | Microseconds | Milliseconds | Seconds | Minutes | Hours | Days

  /** `TimeUnit.toMillis` for a non-negative amount: finer units truncate, coarser units multiply. */
  function ToMillis(unit: TimeUnit, n: nat): nat {
    match unit
    case Nanoseconds => n / 1_000_000
    case Microseconds => n / 1000
    case Milliseconds => n
    case Seconds => n * 1000
    case Minutes => n * 60_000
    case Hours => n * 3_600_000
    case Days => n * MillisPerDay
  }

  /** The two bounds of a tag strategy, in milliseconds; equality of strategies is equality of these. */
  datatype Window = Window(atLeastMillis: int, atMostMillis: int)

  /** One bound as the unit-based constructor stores it: a missing or negative amount disables it. */
  function Bound(unit: TimeUnit, amount: Option<int>): (ms: int)
    ensures amount.None? || amount.value < 0 ==> ms == Disabled
    ensures amount.Some? && amount.value >= 0 ==> ms == ToMillis(unit, amount.value)
  {
    if amount.None? || amount.value < 0 then Disabled else ToMillis(unit, amount.value)
  }

  /** The unit-based constructor. Every bound it stores is either the sentinel or non-negative. */
  function NewWindow(unit: TimeUnit, atLeast: Option<int>, atMost: Option<int>): (w: Window)
    ensures w.atLeastMillis == Disabled || w.atLeastMillis >= 0
    ensures w.atMostMillis == Disabled || w.atMostMillis >= 0
  {
    Window(Bound(unit, atLeast), Bound(unit, atMost))
  }

  /** A day-count form field: blank or missing reads as "-1", anything else must parse as a number. */
  function ParseDays(days: Option<string>): Result<int, string> {
    ParseLong(DefaultIfBlank(days, "-1"))
  }

  /**
   * The form-binding constructor taking day strings. The minimum is parsed first,
   * so when both fields are malformed the minimum's text is the one reported.
   */
  function NewWindowFromDays(atLeastDays: Option<string>, atMostDays: Option<string>): (r: Result<Window, string>)
    ensures r.Success? <==> ParseDays(atLeastDays).Success? && ParseDays(atMostDays).Success?
    ensures r.Success? ==> r.value == NewWindow(Days, Some(ParseDays(atLeastDays).value), Some(ParseDays(atMostDays).value))
    ensures r.Failure? && ParseDays(atLeastDays).Failure? ==> r.error == DefaultIfBlank(atLeastDays, "-1")
  {
    var least := ParseDays(atLeastDays);
    if least.Failure? then Failure(least.error)
    else
      var most := ParseDays(atMostDays);
      if most.Failure? then Failure(most.error)
      else Success(NewWindow(Days, Some(least.value), Some(most.value)))
  }

  /** A bound as a day string: whole days for an enabled bound, empty for a disabled one. */
  function DaysString(millis: int): string {
    if millis >= 0 then NatToString(millis / MillisPerDay) else ""
  }

  function AtLeastDays(w: Window): string {
    DaysString(w.atLeastMillis)
  }

  function AtMostDays(w: Window): string {
    DaysString(w.atMostMillis)
  }

  /** The age window as a plain condition: at most the maximum (if any) and at least the minimum (if any). */
  predicate InWindow(w: Window, age: int) {
    && (w.atMostMillis < 0 || age <= w.atMostMillis)
    && (w.atLeastMillis < 0 || w.atLeastMillis <= age)
  }

  /**
   * `TagBuildStrategyImpl.isAutomaticBuild`: only tags are built; with either bound
   * set, a minimum above the maximum never builds, and otherwise the tag's age
   * (`now` minus its timestamp) must respect each set bound.
   */
  function TagDecision(w: Window, now: int, head: Head): (r: bool)
    ensures !head.Tag? ==> !r
    ensures head.Tag? ==> (r <==> InWindow(w, now - head.timestamp))
  {
    if !head.Tag? then false
    else if w.atLeastMillis >= 0 || w.atMostMillis >= 0 then
      if w.atMostMillis >= 0 && w.atLeastMillis > w.atMostMillis then false
      else
        var age := now - head.timestamp;
        if w.atMostMillis >= 0 && age > w.atMostMillis then false
        else if w.atLeastMillis >= 0 && age < w.atLeastMillis then false
        else true
    else true
  }

  /** With both bounds enabled and the minimum above the maximum, no tag is ever built. */
  lemma InvertedWindowNeverBuilds(w: Window, now: int, head: Head)
    requires w.atLeastMillis >= 0 && w.atMostMillis >= 0 && w.atLeastMillis > w.atMostMillis
    ensures !TagDecision(w, now, head)
  {
  }

  /** With both bounds disabled, every tag is built whatever its age. */
  lemma UnboundedWindowBuildsEveryTag(now: int, name: string, timestamp: int)
    ensures TagDecision(NewWindow(Days, None, None), now, Tag(name, timestamp))
  {
  }

  /** "-1", an empty string and a missing string all configure a disabled bound. */
  lemma DisabledSpellingsAgree(other: Option<string>)
    ensures NewWindowFromDays(Some("-1"), other) == NewWindowFromDays(Some(""), other)
    ensures NewWindowFromDays(Some(""), other) == NewWindowFromDays(None, other)
    ensures NewWindowFromDays(other, Some("-1")) == NewWindowFromDays(other, Some(""))
    ensures NewWindowFromDays(other, Some("")) == NewWindowFromDays(other, None)
  {
    assert !IsBlank("-1") by { assert !IsWhitespace("-1"[0]); }
    assert ParseLong("-1") == Success(-1) by {
      assert "-1"[1..] == "1";
      assert DigitsValue("1") == 1 by { assert "1"[..0] == []; }
    }
  }

  /** A non-negative day count, in either field, is stored as that many days in milliseconds. */
  lemma DaysAreStoredInMillis(n: nat, other: Option<string>)
    requires ParseDays(other).Success?
    ensures NewWindowFromDays(Some(NatToString(n)), other).Success?
    ensures NewWindowFromDays(Some(NatToString(n)), other).value.atLeastMillis == n * MillisPerDay
    ensures NewWindowFromDays(other, Some(NatToString(n))).Success?
    ensures NewWindowFromDays(other, Some(NatToString(n))).value.atMostMillis == n * MillisPerDay
  {
    NumeralIsNotBlank(n);
    ParseLongOfNatToString(n);
  }

  /**
   * A day string that is neither blank nor a number is an error, not a disabled
   * bound: always in the minimum's field, and in the maximum's field whenever the
   * minimum's own text parses.
   */
  lemma MalformedDaysAreRejected(days: string, other: Option<string>)
    requires !IsBlank(days)
    requires ParseLong(days).Failure?
    ensures NewWindowFromDays(Some(days), other) == Failure(days)
    ensures ParseDays(other).Success? ==> NewWindowFromDays(other, Some(days)) == Failure(days)
  {
  }

  lemma NumeralIsNotBlank(n: nat)
    ensures !IsBlank(NatToString(n))
  {
    assert IsDigit(NatToString(n)[0]);
  }

  /** Reading either bound back as days gives the number of days it was configured with. */
  lemma {:induction false} DaysGetterRoundTrip(n: nat, other: Option<string>)
    requires ParseDays(other).Success?
    ensures AtLeastDays(NewWindowFromDays(Some(NatToString(n)), other).value) == NatToString(n)
    ensures AtMostDays(NewWindowFromDays(other, Some(NatToString(n))).value) == NatToString(n)
  {
    DaysAreStoredInMillis(n, other);
    assert (n * MillisPerDay) / MillisPerDay == n;
  }

  /** A day getter returns the empty string exactly when its bound is disabled (negative). */
  lemma DisabledGetterIsEmpty(w: Window)
    ensures AtLeastDays(w) == "" <==> w.atLeastMillis < 0
    ensures AtMostDays(w) == "" <==> w.atMostMillis < 0
  {
  }

  /** Binding the strings a window displays reproduces the same window (the form round trip). */
  lemma {:induction false} FormRoundTrip(atLeastDays: Option<string>, atMostDays: Option<string>)
    requires NewWindowFromDays(atLeastDays, atMostDays).Success?
    ensures var w := NewWindowFromDays(atLeastDays, atMostDays).value;
      NewWindowFromDays(Some(AtLeastDays(w)), Some(AtMostDays(w))) == Success(w)
  {
    var w := NewWindowFromDays(atLeastDays, atMostDays).value;
    BoundRoundTrip(ParseDays(atLeastDays).value);
    BoundRoundTrip(ParseDays(atMostDays).value);
  }

  lemma {:induction false} BoundRoundTrip(amount: int)
    ensures var ms := Bound(Days, Some(amount));
      ParseDays(Some(DaysString(ms))).Success? && Bound(Days, Some(ParseDays(Some(DaysString(ms))).value)) == ms
  {
    var ms := Bound(Days, Some(amount));
    if amount < 0 {
      assert DaysString(ms) == "";
      assert ParseLong("-1") == Success(-1) by {
        assert "-1"[1..] == "1";
        assert DigitsValue("1") == 1 by { assert "1"[..0] == []; }
      }
    } else {
      assert ms == amount * MillisPerDay;
      assert ms / MillisPerDay == amount;
      NumeralIsNotBlank(amount);
      ParseLongOfNatToString(amount);
    }
  }
}
