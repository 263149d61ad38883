/**
  What an operator's pause is worth: for every run before it and every continuation without another
  edit of the feed, when the feed can be claimed again.
 */
module FeedPause {
  import opened Common
  import opened FeedClaims
  import opened FeedProtocol

  /** The state after `more` steps from `s`. */
  function Continue(s: State, more: seq<Step>): State {
    if more == [] then s else Next(Continue(s, more[..|more| - 1]), more[|more| - 1])
  }

  lemma {:induction false} RunThenContinue(before: seq<Step>, more: seq<Step>)
    ensures Run(before + more) == Continue(Run(before), more)
    decreases |more|
  {
    hide Next;
    if more == [] {
      assert before + more == before;
    } else {
      assert (before + more)[..|before + more| - 1] == before + more[..|more| - 1];
      RunThenContinue(before, more[..|more| - 1]);
    }
  }

  /** No claim holds the feed and the claim query would take it: it is claimed as soon as it is due and the clock says so. */
  predicate Takeable(s: State, id: int) {
    id in s.feeds && s.feeds[id].claimedAt.None? && Claimable(s.feeds[id])
  }

  /** A waiting time after which the claim query selects the feed exists exactly when it can be claimed. */
  lemma TakeableIffEventuallyEligible(s: State, id: int)
    requires id in s.feeds
    ensures Takeable(s, id) <==> exists elapsed: nat :: Eligible(Next(s, Tick(elapsed)).feeds[id], Next(s, Tick(elapsed)).now)
  {
    var wait: nat := if s.feeds[id].nextCheckAt > s.now then s.feeds[id].nextCheckAt - s.now else 0;
    assert Takeable(s, id) ==> Eligible(Next(s, Tick(wait)).feeds[id], Next(s, Tick(wait)).now);
  }

  /** At some moment from `s` on the feed can be claimed. */
  predicate EverTakeable(s: State, more: seq<Step>, id: int) {
    Takeable(Continue(s, more), id) || (more != [] && EverTakeable(s, more[..|more| - 1], id))
  }

  /** A worker's report of the feed leaves it claimable. */
  predicate ReportFrees(s: State, step: Step, id: int) {
    step.Report? && step.id == id && id in s.feeds && id !in Locked(s.open) && Claimable(Next(s, step).feeds[id])
  }

  /** A sweep releases the feed. */
  predicate SweepFrees(s: State, step: Step, id: int) {
    step.SweepStuck? && id in s.feeds && Stale(s.feeds[id], s.now, step.threshold)
  }

  predicate EverReportFrees(s: State, more: seq<Step>, id: int) {
    more != [] &&
    var n := |more| - 1;
    EverReportFrees(s, more[..n], id) || ReportFrees(Continue(s, more[..n]), more[n], id)
  }

  predicate EverSweepFrees(s: State, more: seq<Step>, id: int) {
    more != [] &&
    var n := |more| - 1;
    EverSweepFrees(s, more[..n], id) || SweepFrees(Continue(s, more[..n]), more[n], id)
  }

  ghost predicate NoEdit(more: seq<Step>, id: int) {
    forall i | 0 <= i < |more| :: !(more[i].Edit? && more[i].id == id)
  }

  /** The operator's pause of a feed no claim statement holds locked. */
  function Pause(id: int, poll: nat, next: int): Step { Edit(id, Paused, poll, next) }

  /**
    A pause that holds so far: the feed is not claimed by any open statement and cannot be, and
    while it still carries a claim nothing has overwritten the pause.
   */
  predicate Held(s: State, id: int, lastError: Option<string>) {
    && id in s.feeds && id !in Locked(s.open) && !Takeable(s, id)
    && (s.feeds[id].claimedAt.Some? ==> s.feeds[id].status == Paused && s.feeds[id].lastError == lastError)
  }

  lemma UnlockedStaysByOthers(open: map<nat, OpenClaim>, sched: nat, id: int)
    requires id !in Locked(open)
    ensures id !in Locked(open - {sched})
  {
  }

  lemma SelectLocksOthers(s: State, sched: nat, ids: set<int>, id: int)
    requires id !in Locked(s.open) && !Takeable(s, id) && id in s.feeds
    ensures id !in Locked(Next(s, SelectAndLock(sched, ids)).open)
  {
    assert id !in EligibleIds(s.feeds, Locked(s.open), s.now);
  }

  lemma CommitTouchesOthers(s: State, sched: nat, jitter: map<int, nat>, id: int)
    requires id !in Locked(s.open) && id in s.feeds
    ensures id in Next(s, CommitClaim(sched, jitter)).feeds && Next(s, CommitClaim(sched, jitter)).feeds[id] == s.feeds[id]
  {
    assert sched in s.open ==> id !in s.open[sched].ids;
  }

  lemma HeldStep(s: State, step: Step, id: int, lastError: Option<string>)
    requires Held(s, id, lastError) && !(step.Edit? && step.id == id)
    ensures Takeable(Next(s, step), id) <==>
            ReportFrees(s, step, id) || (SweepFrees(s, step, id) && lastError.Some? && AUTO_PAUSED_PREFIX <= lastError.value)
    ensures !Takeable(Next(s, step), id) ==> Held(Next(s, step), id, lastError)
  {
    match step
    case SelectAndLock(sched, ids) => SelectLocksOthers(s, sched, ids, id);
    case CommitClaim(sched, jitter) =>
      CommitTouchesOthers(s, sched, jitter, id);
      UnlockedStaysByOthers(s.open, sched, id);
    case AbortClaim(sched) => UnlockedStaysByOthers(s.open, sched, id);
    case _ =>
  }

  /** The state right after the pause. */
  lemma PausedState(s: State, id: int, poll: nat, next: int)
    requires id in s.feeds && id !in Locked(s.open)
    ensures var t := Next(s, Pause(id, poll, next));
            && (Takeable(t, id) <==> AutoPaused(s.feeds[id]) && s.feeds[id].claimedAt.None?)
            && (!Takeable(t, id) ==> Held(t, id, s.feeds[id].lastError))
            && t.feeds[id].status == Paused && t.feeds[id].claimedAt == s.feeds[id].claimedAt
  {
  }

  lemma {:induction false} HeldUntilFreed(t: State, more: seq<Step>, id: int, lastError: Option<string>)
    requires Held(t, id, lastError) && NoEdit(more, id)
    ensures !EverTakeable(t, more, id) ==> Held(Continue(t, more), id, lastError)
    ensures EverTakeable(t, more, id) <==>
            EverReportFrees(t, more, id) ||
            (lastError.Some? && AUTO_PAUSED_PREFIX <= lastError.value && EverSweepFrees(t, more, id))
  {
    hide Next, Takeable, ReportFrees, SweepFrees, Held;
    if more == [] {
      HeldMeansNoClaim(t, id, lastError);
    } else {
      var n := |more| - 1;
      HeldUntilFreed(t, more[..n], id, lastError);
      var s := Continue(t, more[..n]);
      if !EverTakeable(t, more[..n], id) {
        HeldStep(s, more[n], id, lastError);
      }
    }
  }

  lemma HeldMeansNoClaim(s: State, id: int, lastError: Option<string>)
    requires Held(s, id, lastError)
    ensures !Takeable(s, id)
  {
  }

  /**
    After any run, and however it goes on without another edit of the feed, a paused feed can be
    claimed again exactly when a later report leaves it claimable, or its last error was an
    auto-pause at the edit and it carried no claim or is swept.
   */
  lemma PausedFeedIsClaimedAgainIff(before: seq<Step>, id: int, poll: nat, next: int, more: seq<Step>)
    requires id in Run(before).feeds && id !in Locked(Run(before).open) && NoEdit(more, id)
    ensures var s := Run(before);
            var t := Run(before + [Pause(id, poll, next)]);
            EverTakeable(t, more, id) <==>
            EverReportFrees(t, more, id) ||
            (AutoPaused(s.feeds[id]) && (s.feeds[id].claimedAt.None? || EverSweepFrees(t, more, id)))
  {
    hide Next, Run, Takeable, Held, Locked;
    RunThenContinue(before, [Pause(id, poll, next)]);
    ContinueOne(Run(before), Pause(id, poll, next));
    var s, t := Run(before), Run(before + [Pause(id, poll, next)]);
    PausedState(s, id, poll, next);
    if Takeable(t, id) {
      TakeableNowIsEver(t, more, id);
    } else {
      HeldUntilFreed(t, more, id, s.feeds[id].lastError);
    }
  }

  lemma ContinueOne(s: State, step: Step)
    ensures Continue(s, [step]) == Next(s, step)
  {
    hide Next;
    assert [step][..0] == [];
  }

  lemma {:induction false} TakeableNowIsEver(s: State, more: seq<Step>, id: int)
    requires Takeable(s, id)
    ensures EverTakeable(s, more, id)
  {
    if more != [] {
      TakeableNowIsEver(s, more[..|more| - 1], id);
    }
  }

  // ---------------------------------------------------------------- when a pause can be relied on

  lemma NoClaimLoggedStep(s: State, step: Step, id: int, j: nat)
    requires id !in Locked(s.open) && |s.log| <= j < |Next(s, step).log| && Next(s, step).log[j].id == id
    ensures !Next(s, step).log[j].ClaimedAt?
  {
    if step.CommitClaim? && step.scheduler in s.open {
      var ids := s.open[step.scheduler].ids;
      assert id !in ids;
      ClaimEventsOneEach(ids, s.open[step.scheduler].startedAt);
    }
  }

  lemma LogGrows(s: State, step: Step)
    ensures |s.log| <= |Next(s, step).log| && Next(s, step).log[..|s.log|] == s.log
  {
  }

  /** As long as the feed cannot be claimed again, no claim of it is made. */
  lemma {:induction false} NoClaimWhileHeld(t: State, more: seq<Step>, id: int, lastError: Option<string>)
    requires Held(t, id, lastError) && NoEdit(more, id) && !EverTakeable(t, more, id)
    ensures |t.log| <= |Continue(t, more).log|
    ensures forall j | |t.log| <= j < |Continue(t, more).log| ::
              Continue(t, more).log[j].id == id ==> !Continue(t, more).log[j].ClaimedAt?
  {
    hide Next, Held, Takeable, Locked;
    if more != [] {
      var n := |more| - 1;
      NoClaimWhileHeld(t, more[..n], id, lastError);
      HeldUntilFreed(t, more[..n], id, lastError);
      var s := Continue(t, more[..n]);
      HeldIsUnlocked(s, id, lastError);
      LogGrows(s, more[n]);
      var u := Next(s, more[n]);
      forall j | |t.log| <= j < |u.log| && u.log[j].id == id ensures !u.log[j].ClaimedAt? {
        if j < |s.log| {
          assert u.log[..|s.log|][j] == u.log[j];
        } else {
          NoClaimLoggedStep(s, more[n], id, j);
        }
      }
    }
  }

  lemma HeldIsUnlocked(s: State, id: int, lastError: Option<string>)
    requires Held(s, id, lastError)
    ensures id in s.feeds && id !in Locked(s.open)
  {
  }

  ghost predicate NoReport(more: seq<Step>, id: int) {
    forall i | 0 <= i < |more| :: !(more[i].Report? && more[i].id == id)
  }

  lemma {:induction false} StatusStays(t: State, more: seq<Step>, id: int)
    requires id in t.feeds && NoEdit(more, id) && NoReport(more, id)
    ensures id in Continue(t, more).feeds && Continue(t, more).feeds[id].status == t.feeds[id].status
    ensures !EverReportFrees(t, more, id)
  {
    if more != [] {
      StatusStays(t, more[..|more| - 1], id);
      hide Locked, EligibleIds;
    }
  }

  /**
    A pause can be relied on when no report is outstanding and the last error is not an auto-pause:
    then the feed stays paused and is never claimed, whatever schedulers, sweeps and other feeds do.
   */
  lemma PauseHolds(before: seq<Step>, id: int, poll: nat, next: int, more: seq<Step>)
    requires id in Run(before).feeds && id !in Locked(Run(before).open) && !AutoPaused(Run(before).feeds[id])
    requires NoEdit(more, id) && NoReport(more, id)
    ensures var t := Run(before + [Pause(id, poll, next)]);
            var u := Run(before + [Pause(id, poll, next)] + more);
            && !EverTakeable(t, more, id) && id in u.feeds && u.feeds[id].status == Paused
            && |t.log| <= |u.log| && forall j | |t.log| <= j < |u.log| :: u.log[j].id == id ==> !u.log[j].ClaimedAt?
  {
    hide Next, Run, Takeable, Held, Locked, EverTakeable;
    var s, t := Run(before), Run(before + [Pause(id, poll, next)]);
    RunThenContinue(before, [Pause(id, poll, next)]);
    ContinueOne(s, Pause(id, poll, next));
    RunThenContinue(before + [Pause(id, poll, next)], more);
    PausedState(s, id, poll, next);
    StatusStays(t, more, id);
    HeldUntilFreed(t, more, id, s.feeds[id].lastError);
    NoClaimWhileHeld(t, more, id, s.feeds[id].lastError);
  }

  // ---------------------------------------------------------------- the two ways a pause is lost

  lemma AppendStep(steps: seq<Step>, step: Step)
    ensures Run(steps + [step]) == Next(Run(steps), step)
  {
    hide Next;
    assert (steps + [step])[..|steps|] == steps;
  }

  /** Feed 1 as registered, claimed at time 0, and nothing else. */
  lemma ClaimedRun(feed: Feed) returns (steps: seq<Step>)
    requires feed.claimedAt.None? && feed.nextCheckAt == 0 && Claimable(feed)
    ensures var s := Run(steps);
            s.feeds == map[1 := Claimed(feed, 0, 0)] && s.open == map[] && s.now == 0
  {
    AppendStep([], Register(1, feed));
    var registered := [] + [Register(1, feed)];
    assert Run(registered) == State(map[1 := feed], map[], 0, []);
    AppendStep(registered, SelectAndLock(0, {1}));
    var locked := registered + [SelectAndLock(0, {1})];
    hide Run;
    assert 1 in EligibleIds(map[1 := feed], Locked(map[]), 0);
    assert Run(locked) == State(map[1 := feed], map[0 := OpenClaim({1}, 0)], 0, []);
    AppendStep(locked, CommitClaim(0, map[]));
    steps := locked + [CommitClaim(0, map[])];
    assert map[0 := OpenClaim({1}, 0)] - {0} == map[];
  }

  /** An auto-paused feed, paused by the operator while claimed, can be claimed again once a sweep releases it. */
  lemma SweptPauseIsLost(feed: Feed) returns (steps: seq<Step>)
    requires feed == Feed(Paused, Some("auto-paused: x"), 5, 10, 0, None)
    ensures 1 in Run(steps).feeds && Run(steps).feeds[1].status == Paused && Takeable(Run(steps), 1)
  {
    assert AUTO_PAUSED_PREFIX <= "auto-paused: x";
    var claimed := ClaimedRun(feed);
    hide Run;
    AppendStep(claimed, Pause(1, 10, 10));
    var paused := claimed + [Pause(1, 10, 10)];
    AppendStep(paused, Tick(11));
    AppendStep(paused + [Tick(11)], SweepStuck(10));
    steps := paused + [Tick(11)] + [SweepStuck(10)];
  }

  /** A feed paused while a fetch is in flight is active again after the fetch reports. */
  lemma ReportedPauseIsLost(feed: Feed) returns (steps: seq<Step>)
    requires feed == Feed(Active, None, 0, 10, 0, None)
    ensures 1 in Run(steps).feeds && Run(steps).feeds[1].status == Active && Takeable(Run(steps), 1)
  {
    var claimed := ClaimedRun(feed);
    hide Run;
    AppendStep(claimed, Pause(1, 10, 10));
    AppendStep(claimed + [Pause(1, 10, 10)], Report(1, Active, 0, None, 100));
    steps := claimed + [Pause(1, 10, 10)] + [Report(1, Active, 0, None, 100)];
  }
}
