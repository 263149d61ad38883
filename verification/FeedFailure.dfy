/**
  How `ProcessFeedJobUseCase` reports a fetch: classification of failures, backoff, and what runs
  of outcomes do to a feed.
 */
module FeedFailure {
  import opened Common
  import opened FeedClaims

  const SIX_HOURS := 6 * 60 * 60
  const DNS_DELAY := 12 * 60 * 60
  const BLOCKED_DELAY := 14 * 60 * 60

  datatype Category = NotFound | InvalidFeed | InvalidXml | Blocked | Dns | Transient

  function ToLower(s: string): (t: string)
    ensures |t| == |s|
  {
    seq(|s|, i requires 0 <= i < |s| => if 'A' <= s[i] <= 'Z' then s[i] - 'A' + 'a' else s[i])
  }

  predicate Includes(s: string, part: string) {
    exists i :: 0 <= i <= |s| && part <= s[i..]
  }

  /** Markers that no later attempt can cure. */
  predicate TerminalMarker(m: string) {
    || Includes(m, "status 404") || Includes(m, "status 410")
    || Includes(m, "feed not recognized as rss")
    || Includes(m, "unsafe_host") || Includes(m, "unsafe_protocol") || Includes(m, "feed_url_host_not_allowed")
    || Includes(m, "feed_body_too_large")
    || Includes(m, "unable to parse xml") || Includes(m, "invalid character in") || Includes(m, "attribute without value")
  }

  predicate DnsMarker(m: string) {
    Includes(m, "could not resolve host") || Includes(m, "enotfound") || Includes(m, "eai_again")
  }

  function Detect(message: string, errorCount: nat): Category {
    var m := ToLower(message);
    if Includes(m, "status 404") || Includes(m, "status 410") then NotFound
    else if Includes(m, "feed not recognized as rss") || Includes(m, "unsafe_host") || Includes(m, "unsafe_protocol")
            || Includes(m, "feed_url_host_not_allowed") || Includes(m, "feed_body_too_large") then InvalidFeed
    else if Includes(m, "unable to parse xml") || Includes(m, "invalid character in") || Includes(m, "attribute without value") then InvalidXml
    else if Includes(m, "status 403") && errorCount >= 5 then Blocked
    else if DnsMarker(m) && errorCount >= 3 then Dns
    else Transient
  }

  // ---------------------------------------------------------------- backoff

  function Min(a: int, b: int): int { if a < b then a else b }

  function Max(a: int, b: int): int { if a < b then b else a }

  function Pow2(k: nat): nat { if k == 0 then 1 else 2 * Pow2(k - 1) }

  /** The deterministic part of `computeErrorBackoffSeconds`. */
  function BackoffBase(poll: nat, errorCount: nat): int {
    Min(poll * Pow2(Max(1, Min(errorCount, 6)) - 1), SIX_HOURS)
  }

  /** `Math.floor(Math.random() * bound)` is any of 0 .. bound - 1. */
  function JitterBound(base: int): int {
    Min(15 * 60, Max(1, base * 15 / 100))
  }

  lemma {:induction false} Pow2Monotone(j: nat, k: nat)
    requires j <= k
    ensures 1 <= Pow2(j) <= Pow2(k)
    decreases k
  {
    if j < k { Pow2Monotone(j, k - 1); } else if j > 0 { Pow2Monotone(j - 1, k - 1); }
  }

  /** More consecutive errors never shorten the deterministic part of the delay. */
  lemma BackoffMonotone(poll: nat, fewer: nat, more: nat)
    requires fewer <= more
    ensures BackoffBase(poll, fewer) <= BackoffBase(poll, more)
  {
    var j, k := Max(1, Min(fewer, 6)) - 1, Max(1, Min(more, 6)) - 1;
    Pow2Monotone(j, k);
    assert poll * Pow2(j) <= poll * Pow2(k);
  }

  /** The delay is at least the poll interval, capped at six hours, and stays below 6h15. */
  lemma BackoffBounds(poll: nat, errorCount: nat, jitter: nat)
    requires jitter < JitterBound(BackoffBase(poll, errorCount))
    ensures Min(poll, SIX_HOURS) <= BackoffBase(poll, errorCount) + jitter < SIX_HOURS + 15 * 60
  {
    BaseBounds(poll, errorCount);
    hide BackoffBase;
  }

  /** The delay doubles with each further failure, from the poll interval at the first up to the sixth, and stops at six hours. */
  lemma BackoffDoubles(poll: nat, errorCount: nat)
    ensures BackoffBase(poll, 1) == if poll < 6 * 3600 then poll else 6 * 3600
    ensures 1 <= errorCount < 6 ==>
              var doubled := 2 * BackoffBase(poll, errorCount);
              BackoffBase(poll, errorCount + 1) == if doubled < 6 * 3600 then doubled else 6 * 3600
    ensures errorCount >= 6 ==> BackoffBase(poll, errorCount) == BackoffBase(poll, 6)
  {
    if 1 <= errorCount < 6 {
      Doubled(poll, errorCount - 1);
    }
  }

  lemma Doubled(poll: nat, k: nat)
    ensures poll * Pow2(k + 1) == 2 * (poll * Pow2(k))
  {
  }

  /** The random part stays below a quarter of an hour and below 15 per cent of the rest. */
  lemma JitterBounds(base: int)
    ensures 1 <= JitterBound(base) <= 900
    ensures JitterBound(base) > 1 ==> 100 * JitterBound(base) <= 15 * base
    ensures base >= 6000 ==> JitterBound(base) == 900
    ensures JitterBound(base) == 900 || 100 * (JitterBound(base) + 1) > 15 * base
  {
  }

  lemma BaseBounds(poll: nat, errorCount: nat)
    ensures Min(poll, SIX_HOURS) <= BackoffBase(poll, errorCount) <= SIX_HOURS
  {
    var k := Max(1, Min(errorCount, 6)) - 1;
    Pow2Monotone(0, k);
    GrowingProduct(poll, Pow2(k));
  }

  lemma GrowingProduct(a: nat, b: nat)
    requires b >= 1
    ensures a <= a * b
  {
  }

  // ---------------------------------------------------------------- one report

  /** What a job saw: a response that was ingested (or 304), or a failure with its random draw. */
  datatype Outcome = Success | Failure(message: string, draw: nat)

  function DelayAfter(f: Feed, message: string, draw: nat): int {
    var n := f.errorCount + 1;
    match Detect(message, n)
    case Dns => DNS_DELAY + draw
    case Blocked => BLOCKED_DELAY + draw
    case _ => BackoffBase(f.pollInterval, n) + draw
  }

  predicate DrawPossible(f: Feed, message: string, draw: nat) {
    var n := f.errorCount + 1;
    match Detect(message, n)
    case Dns => draw < 30 * 60
    case Blocked => draw < 30 * 60
    case _ => draw < JitterBound(BackoffBase(f.pollInterval, n))
  }

  /** The row `updateAfterFetch` leaves. */
  function Reported(f: Feed, o: Outcome, now: int): Feed {
    match o
    case Success => f.(status := Active, errorCount := 0, lastError := None, nextCheckAt := now + f.pollInterval, claimedAt := None)
    case Failure(message, draw) =>
      var n := f.errorCount + 1;
      var category := Detect(message, n);
      f.(status := if category == Transient then Error else Paused,
         errorCount := n,
         lastError := Some(if category == Dns || category == Blocked then AUTO_PAUSED_PREFIX + " " + message else message),
         nextCheckAt := now + DelayAfter(f, message, draw),
         claimedAt := None)
  }

  /** The outcomes of a feed's jobs, each at its own time. */
  function RunOutcomes(f: Feed, outcomes: seq<(Outcome, int)>): Feed {
    if outcomes == [] then f
    else Reported(RunOutcomes(f, outcomes[..|outcomes| - 1]), outcomes[|outcomes| - 1].0, outcomes[|outcomes| - 1].1)
  }

  /** Failures since the last success. */
  function TrailingFailures(outcomes: seq<(Outcome, int)>): nat {
    if outcomes == [] || outcomes[|outcomes| - 1].0.Success? then 0
    else 1 + TrailingFailures(outcomes[..|outcomes| - 1])
  }

  lemma {:induction false} ErrorCountIsTheFailureRun(f: Feed, outcomes: seq<(Outcome, int)>)
    requires f.errorCount == 0
    ensures RunOutcomes(f, outcomes).errorCount == TrailingFailures(outcomes)
    ensures RunOutcomes(f, outcomes).pollInterval == f.pollInterval
  {
    if outcomes != [] {
      ErrorCountIsTheFailureRun(f, outcomes[..|outcomes| - 1]);
    }
  }

  /** Every delay lies in the band of its category. */
  lemma DelayBands(f: Feed, message: string, draw: nat)
    requires DrawPossible(f, message, draw)
    ensures var delay := DelayAfter(f, message, draw);
            match Detect(message, f.errorCount + 1)
            case Dns => DNS_DELAY <= delay < DNS_DELAY + 30 * 60
            case Blocked => BLOCKED_DELAY <= delay < BLOCKED_DELAY + 30 * 60
            case _ => Min(f.pollInterval, SIX_HOURS) <= delay < SIX_HOURS + 15 * 60
  {
    match Detect(message, f.errorCount + 1)
    case Dns =>
    case Blocked =>
    case _ => BackoffBounds(f.pollInterval, f.errorCount + 1, draw);
  }

  ghost predicate Forbidden(o: Outcome) {
    o.Failure? && Includes(ToLower(o.message), "status 403") && !TerminalMarker(ToLower(o.message)) && !DnsMarker(ToLower(o.message))
  }

  /**
    An unbroken run of 403 failures, from a feed without failures on, keeps it in `error` below the
    fifth, auto-pauses it from the fifth on, and leaves it claimable throughout.
   */
  lemma {:induction false} ForbiddenRun(f: Feed, run: seq<(Outcome, int)>)
    requires f.errorCount == 0 && |run| > 0
    requires forall i | 0 <= i < |run| :: Forbidden(run[i].0)
    ensures var g := RunOutcomes(f, run);
            && g.errorCount == |run|
            && (if |run| < 5 then g.status == Error else g.status == Paused && AutoPaused(g))
            && Claimable(g)
  {
    hide Forbidden, Reported, AutoPaused, Claimable;
    var n := |run| - 1;
    if n > 0 {
      ForbiddenRun(f, run[..n]);
    }
    ForbiddenReport(RunOutcomes(f, run[..n]), run[n].0, run[n].1);
  }

  lemma ForbiddenReport(f: Feed, o: Outcome, now: int)
    requires Forbidden(o)
    ensures var g := Reported(f, o, now);
            && g.errorCount == f.errorCount + 1
            && (if f.errorCount + 1 < 5 then g.status == Error else g.status == Paused && AutoPaused(g))
            && Claimable(g)
  {
    assert AUTO_PAUSED_PREFIX <= AUTO_PAUSED_PREFIX + " " + o.message;
    hide Includes;
  }

  /**
    A terminal failure pauses the feed; the claim query leaves it alone exactly when the recorded
    message does not itself begin with the auto-pause prefix.
   */
  lemma TerminalPauseClaimableIff(f: Feed, message: string, draw: nat, now: int)
    requires TerminalMarker(ToLower(message))
    ensures var g := Reported(f, Failure(message, draw), now);
            g.status == Paused && (Claimable(g) <==> AUTO_PAUSED_PREFIX <= message)
  {
  }

  // ---------------------------------------------------------------- the row a report leaves

  predicate BlockedAgain(m: string, failures: nat) { Includes(m, "status 403") && failures >= 5 }

  predicate UnresolvedAgain(m: string, failures: nat) { DnsMarker(m) && failures >= 3 }

  predicate DueWithin(g: Feed, now: int, least: int, below: int) { now + least <= g.nextCheckAt < now + below }

  /** A success clears the failures and the claim, and the feed is due again after its poll interval. */
  lemma RowAfterSuccess(f: Feed, now: int)
    ensures var g := Reported(f, Success, now);
            && g.status == Active && g.errorCount == 0 && g.lastError == None && g.claimedAt == None
            && g.pollInterval == f.pollInterval && g.nextCheckAt == now + f.pollInterval
  {
  }

  /**
    The row after a failure, by its message and the failures in a row: a marker no attempt can cure
    pauses the feed, the fifth 403 and the third unresolved host pause it for the system to resume,
    anything else backs off.
   */
  lemma RowAfterFailure(f: Feed, message: string, draw: nat, now: int)
    requires DrawPossible(f, message, draw)
    ensures var g, m, failures := Reported(f, Failure(message, draw), now), ToLower(message), f.errorCount + 1;
            var pace := if f.pollInterval < 6 * 3600 then f.pollInterval else 6 * 3600;
            && g.errorCount == failures && g.claimedAt == None && g.pollInterval == f.pollInterval
            && if TerminalMarker(m) then
                 g.status == Paused && g.lastError == Some(message) && DueWithin(g, now, pace, 6 * 3600 + 900)
               else if BlockedAgain(m, failures) then
                 g.status == Paused && g.lastError == Some("auto-paused: " + message) && DueWithin(g, now, 14 * 3600, 14 * 3600 + 1800)
               else if UnresolvedAgain(m, failures) then
                 g.status == Paused && g.lastError == Some("auto-paused: " + message) && DueWithin(g, now, 12 * 3600, 12 * 3600 + 1800)
               else
                 g.status == Error && g.lastError == Some(message) && DueWithin(g, now, pace, 6 * 3600 + 900)
  {
    DelayBands(f, message, draw);
    assert AUTO_PAUSED_PREFIX + " " + message == "auto-paused: " + message;
    hide Includes, BackoffBase;
  }

  /** The letters of two messages differ in case at most. */
  predicate SameUpToCase(s: string, t: string) {
    |s| == |t| && forall i | 0 <= i < |s| ::
      || s[i] == t[i]
      || ('A' <= s[i] <= 'Z' && t[i] == s[i] - 'A' + 'a')
      || ('A' <= t[i] <= 'Z' && s[i] == t[i] - 'A' + 'a')
  }

  /** The case of a message never decides what becomes of the feed. */
  lemma CaseDoesNotMatter(s: string, t: string, failures: nat)
    requires SameUpToCase(s, t)
    ensures Detect(s, failures) == Detect(t, failures)
  {
    assert ToLower(s) == ToLower(t);
  }

  ghost predicate Unresolved(o: Outcome) {
    && o.Failure? && DnsMarker(ToLower(o.message)) && !TerminalMarker(ToLower(o.message))
    && !Includes(ToLower(o.message), "status 403")
  }

  /** An unbroken run of unresolved hosts: `error` twice, auto-paused from the third on, claimable throughout. */
  lemma {:induction false} UnresolvedRun(f: Feed, run: seq<(Outcome, int)>)
    requires f.errorCount == 0 && |run| > 0
    requires forall i | 0 <= i < |run| :: Unresolved(run[i].0)
    ensures var g := RunOutcomes(f, run);
            && g.errorCount == |run|
            && (if |run| < 3 then g.status == Error else g.status == Paused && AutoPaused(g))
            && Claimable(g)
  {
    hide Unresolved, Reported, AutoPaused, Claimable;
    var n := |run| - 1;
    if n > 0 {
      UnresolvedRun(f, run[..n]);
    }
    UnresolvedReport(RunOutcomes(f, run[..n]), run[n].0, run[n].1);
  }

  lemma UnresolvedReport(f: Feed, o: Outcome, now: int)
    requires Unresolved(o)
    ensures var g := Reported(f, o, now);
            && g.errorCount == f.errorCount + 1
            && (if f.errorCount + 1 < 3 then g.status == Error else g.status == Paused && AutoPaused(g))
            && Claimable(g)
  {
    assert AUTO_PAUSED_PREFIX <= AUTO_PAUSED_PREFIX + " " + o.message;
    hide Includes;
  }
}
