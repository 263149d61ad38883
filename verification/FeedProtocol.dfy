/**
  Any number of schedulers, workers, sweeps and operator edits over one feeds table, one SQL
  statement (or half of a claim statement) at a time, with a log of what happened to each feed.
 */
module FeedProtocol {
  import opened Common
  import opened FeedClaims

  datatype Event =
    | ClaimedAt(id: int, at: int)
    | ReportedAt(id: int, at: int)
    | SweptAt(id: int, at: int, threshold: int)

  /** A claim statement between its row locks (`FOR UPDATE SKIP LOCKED`) and its commit. */
  datatype OpenClaim = OpenClaim(ids: set<int>, startedAt: int)

  datatype State = State(feeds: map<int, Feed>, open: map<nat, OpenClaim>, now: int, log: seq<Event>)

  datatype Step =
    | Tick(elapsed: nat)
    | Register(id: int, feed: Feed)
    | SelectAndLock(scheduler: nat, ids: set<int>)
    | CommitClaim(scheduler: nat, jitter: map<int, nat>)
    | AbortClaim(scheduler: nat)                                   // the scheduler dies in mid-statement
    | Report(id: int, status: FeedStatus, errorCount: nat, lastError: Option<string>, nextCheckAt: int)
    | SweepStuck(threshold: nat)
    | Edit(id: int, status: FeedStatus, poll: nat, nextCheckAt: int)

  function Locked(open: map<nat, OpenClaim>): set<int> {
    set s, id | s in open && id in open[s].ids :: id
  }

  function ClaimEvents(ids: set<int>, at: int): (es: seq<Event>)
    ensures |es| == |SortedSeq(ids)| && forall i | 0 <= i < |es| :: es[i] == ClaimedAt(SortedSeq(ids)[i], at)
  {
    seq(|SortedSeq(ids)|, i requires 0 <= i < |SortedSeq(ids)| => ClaimedAt(SortedSeq(ids)[i], at))
  }

  function SweepEvents(ids: set<int>, at: int, threshold: int): (es: seq<Event>)
    ensures |es| == |SortedSeq(ids)| && forall i | 0 <= i < |es| :: es[i] == SweptAt(SortedSeq(ids)[i], at, threshold)
  {
    seq(|SortedSeq(ids)|, i requires 0 <= i < |SortedSeq(ids)| => SweptAt(SortedSeq(ids)[i], at, threshold))
  }

  function CommitRows(feeds: map<int, Feed>, claim: OpenClaim, jitter: map<int, nat>): (after: map<int, Feed>)
    ensures after.Keys == feeds.Keys
  {
    map id | id in feeds ::
      if id in claim.ids then Claimed(feeds[id], claim.startedAt, if id in jitter then jitter[id] else 0) else feeds[id]
  }

  /** One step; a step the database or its caller would not take leaves the state alone. */
  function Next(s: State, step: Step): State {
    match step
    case Tick(elapsed) => s.(now := s.now + elapsed)
    case Register(id, feed) =>
      if id in s.feeds || LastEvent(s.log, id).Some? then s
      else s.(feeds := s.feeds[id := feed.(claimedAt := None)])
    case SelectAndLock(sched, ids) =>
      if sched in s.open || !(ids <= EligibleIds(s.feeds, Locked(s.open), s.now)) then s
      else s.(open := s.open[sched := OpenClaim(ids, s.now)])
    case CommitClaim(sched, jitter) =>
      if sched !in s.open then s
      else
        var claim := s.open[sched];
        s.(feeds := CommitRows(s.feeds, claim, jitter),
           open := s.open - {sched},
           log := s.log + ClaimEvents(claim.ids, claim.startedAt))
    case AbortClaim(sched) => s.(open := s.open - {sched})
    case Report(id, status, errorCount, lastError, next) =>
      if id !in s.feeds || id in Locked(s.open) then s
      else s.(feeds := s.feeds[id := Feed(status, lastError, errorCount, s.feeds[id].pollInterval, next, None)],
              log := s.log + [ReportedAt(id, s.now)])
    case SweepStuck(threshold) =>
      s.(feeds := Sweep(s.feeds, s.now, threshold),
         log := s.log + SweepEvents(StaleIds(s.feeds, s.now, threshold), s.now, threshold))
    case Edit(id, status, poll, next) =>
      if id !in s.feeds || id in Locked(s.open) then s
      else s.(feeds := s.feeds[id := s.feeds[id].(status := status, pollInterval := poll, nextCheckAt := next)])
  }

  const START := State(map[], map[], 0, [])

  function Run(steps: seq<Step>): State {
    if steps == [] then START else Next(Run(steps[..|steps| - 1]), steps[|steps| - 1])
  }

  // ---------------------------------------------------------------- what the log says

  function LastEvent(log: seq<Event>, id: int): Option<Event> {
    if log == [] then None
    else if log[|log| - 1].id == id then Some(log[|log| - 1])
    else LastEvent(log[..|log| - 1], id)
  }

  /** May `e` follow a history of its feed that ends with `last`? */
  predicate Follows(last: Option<Event>, e: Event) {
    match e
    case ClaimedAt(_, _) => last.None? || !last.value.ClaimedAt?
    case ReportedAt(_, _) => true
    case SweptAt(_, at, threshold) => last.Some? && last.value.ClaimedAt? && last.value.at < at - threshold
  }

  ghost predicate LogGood(log: seq<Event>) {
    log == [] || (LogGood(log[..|log| - 1]) && Follows(LastEvent(log[..|log| - 1], log[|log| - 1].id), log[|log| - 1]))
  }

  /** The claim marker a feed must carry after a history that ends with `last`. */
  function MarkerAfter(last: Option<Event>): Option<int> {
    match last
    case Some(ClaimedAt(_, at)) => Some(at)
    case _ => None
  }

  ghost predicate DistinctIds(es: seq<Event>) {
    forall i, j | 0 <= i < j < |es| :: es[i].id != es[j].id
  }

  lemma LastEventStep(log: seq<Event>, e: Event, id: int)
    ensures LastEvent(log + [e], id) == if e.id == id then Some(e) else LastEvent(log, id)
    ensures LogGood(log) && Follows(LastEvent(log, e.id), e) ==> LogGood(log + [e])
  {
    assert (log + [e])[..|log|] == log;
  }

  /** Appending one event each for several feeds. */
  lemma {:induction false} AppendEvents(log: seq<Event>, es: seq<Event>)
    requires LogGood(log) && DistinctIds(es)
    requires forall i | 0 <= i < |es| :: Follows(LastEvent(log, es[i].id), es[i])
    ensures LogGood(log + es)
    ensures forall i | 0 <= i < |es| :: LastEvent(log + es, es[i].id) == Some(es[i])
    ensures forall id | (forall i | 0 <= i < |es| :: es[i].id != id) :: LastEvent(log + es, id) == LastEvent(log, id)
  {
    hide LastEvent, LogGood;
    if es == [] {
      assert log + es == log;
    } else {
      var n := |es| - 1;
      AppendEvents(log, es[..n]);
      assert log + es == (log + es[..n]) + [es[n]];
      assert forall i | 0 <= i < n :: es[..n][i] == es[i] && es[i].id != es[n].id;
      LastEventStep(log + es[..n], es[n], es[n].id);
      forall id ensures LastEvent(log + es, id) == if es[n].id == id then Some(es[n]) else LastEvent(log + es[..n], id) {
        LastEventStep(log + es[..n], es[n], id);
      }
    }
  }

  // ---------------------------------------------------------------- the invariant

  ghost predicate OpenSound(feeds: map<int, Feed>, open: map<nat, OpenClaim>) {
    && (forall s, id | s in open && id in open[s].ids :: id in feeds && feeds[id].claimedAt.None?)
    && (forall s, t | s in open && t in open && s != t :: open[s].ids !! open[t].ids)
  }

  ghost predicate MarkersSound(feeds: map<int, Feed>, log: seq<Event>) {
    && (forall id | id in feeds :: feeds[id].claimedAt == MarkerAfter(LastEvent(log, id)))
    && (forall id | id !in feeds :: LastEvent(log, id).None?)
  }

  ghost predicate Inv(s: State) {
    OpenSound(s.feeds, s.open) && MarkersSound(s.feeds, s.log) && LogGood(s.log)
  }

  /** `es` holds one event for each feed of `ids`, and no other. */
  ghost predicate OneEach(es: seq<Event>, ids: set<int>) {
    && DistinctIds(es)
    && (forall i | 0 <= i < |es| :: es[i].id in ids)
    && (forall id | id in ids :: exists i :: 0 <= i < |es| && es[i].id == id)
  }

  lemma SortedMembers(ids: set<int>)
    ensures forall i | 0 <= i < |SortedSeq(ids)| :: SortedSeq(ids)[i] in ids
    ensures forall id | id in ids :: exists i :: 0 <= i < |SortedSeq(ids)| && SortedSeq(ids)[i] == id
  {
    assert forall i | 0 <= i < |SortedSeq(ids)| :: SortedSeq(ids)[i] in Elems(SortedSeq(ids));
    assert forall id | id in ids :: id in Elems(SortedSeq(ids));
  }

  lemma ClaimEventsOneEach(ids: set<int>, at: int)
    ensures OneEach(ClaimEvents(ids, at), ids)
  {
    SortedMembers(ids);
    forall id | id in ids ensures exists i :: 0 <= i < |ClaimEvents(ids, at)| && ClaimEvents(ids, at)[i].id == id {
      var i :| 0 <= i < |SortedSeq(ids)| && SortedSeq(ids)[i] == id;
      assert ClaimEvents(ids, at)[i].id == id;
    }
  }

  lemma SweepEventsOneEach(ids: set<int>, at: int, threshold: int)
    ensures OneEach(SweepEvents(ids, at, threshold), ids)
  {
    SortedMembers(ids);
    forall id | id in ids ensures exists i :: 0 <= i < |SweepEvents(ids, at, threshold)| && SweepEvents(ids, at, threshold)[i].id == id {
      var i :| 0 <= i < |SortedSeq(ids)| && SortedSeq(ids)[i] == id;
      assert SweepEvents(ids, at, threshold)[i].id == id;
    }
  }

  /** A statement that gives several feeds one event each keeps markers and log in step. */
  lemma MarkersAfterBatch(feeds: map<int, Feed>, log: seq<Event>, ids: set<int>, es: seq<Event>, after: map<int, Feed>)
    requires MarkersSound(feeds, log) && LogGood(log) && OneEach(es, ids) && after.Keys == feeds.Keys && ids <= feeds.Keys
    requires forall i | 0 <= i < |es| :: Follows(LastEvent(log, es[i].id), es[i])
    requires forall i | 0 <= i < |es| && es[i].id in after :: after[es[i].id].claimedAt == MarkerAfter(Some(es[i]))
    requires forall id | id in feeds && id !in ids :: after[id].claimedAt == feeds[id].claimedAt
    ensures MarkersSound(after, log + es) && LogGood(log + es)
  {
    AppendEvents(log, es);
    hide LastEvent, LogGood, MarkerAfter;
    forall id ensures id in after ==> after[id].claimedAt == MarkerAfter(LastEvent(log + es, id))
              ensures id !in after ==> LastEvent(log + es, id).None? {
      if id in ids {
        var i :| 0 <= i < |es| && es[i].id == id;
        assert es[i].id in after;
      } else {
        assert LastEvent(log + es, id) == LastEvent(log, id);
      }
    }
  }

  lemma CommitMarkers(feeds: map<int, Feed>, log: seq<Event>, claim: OpenClaim, jitter: map<int, nat>)
    requires MarkersSound(feeds, log) && LogGood(log)
    requires claim.ids <= feeds.Keys && forall id | id in claim.ids :: feeds[id].claimedAt.None?
    ensures MarkersSound(CommitRows(feeds, claim, jitter), log + ClaimEvents(claim.ids, claim.startedAt))
    ensures LogGood(log + ClaimEvents(claim.ids, claim.startedAt))
  {
    var es := ClaimEvents(claim.ids, claim.startedAt);
    ClaimEventsOneEach(claim.ids, claim.startedAt);
    hide LastEvent, LogGood, SortedSeq;
    forall i | 0 <= i < |es| ensures Follows(LastEvent(log, es[i].id), es[i]) {
      assert feeds[es[i].id].claimedAt == MarkerAfter(LastEvent(log, es[i].id));
    }
    MarkersAfterBatch(feeds, log, claim.ids, es, CommitRows(feeds, claim, jitter));
  }

  lemma CommitOpen(feeds: map<int, Feed>, open: map<nat, OpenClaim>, sched: nat, jitter: map<int, nat>)
    requires OpenSound(feeds, open) && sched in open
    ensures OpenSound(CommitRows(feeds, open[sched], jitter), open - {sched})
  {
    var rest := open - {sched};
    forall o, id | o in rest && id in rest[o].ids
      ensures id in feeds && CommitRows(feeds, open[sched], jitter)[id].claimedAt.None?
    {
      assert o in open && open[o].ids !! open[sched].ids;
    }
  }

  lemma CommitKeeps(s: State, sched: nat, jitter: map<int, nat>)
    requires Inv(s) && sched in s.open
    ensures Inv(Next(s, CommitClaim(sched, jitter)))
  {
    var claim := s.open[sched];
    forall id | id in claim.ids ensures id in s.feeds && s.feeds[id].claimedAt.None? {
      assert id in s.open[sched].ids;
    }
    CommitMarkers(s.feeds, s.log, claim, jitter);
    CommitOpen(s.feeds, s.open, sched, jitter);
    hide OpenSound, MarkersSound, LogGood, CommitRows, ClaimEvents;
  }

  lemma SweepKeeps(s: State, threshold: nat)
    requires Inv(s)
    ensures Inv(Next(s, SweepStuck(threshold)))
  {
    var t, ids := Next(s, SweepStuck(threshold)), StaleIds(s.feeds, s.now, threshold);
    var es := SweepEvents(ids, s.now, threshold);
    hide LastEvent, LogGood, SortedSeq;
    SweepEventsOneEach(ids, s.now, threshold);
    MarkersAfterBatch(s.feeds, s.log, ids, es, t.feeds);
    assert OpenSound(t.feeds, t.open);
  }

  lemma ReportKeeps(s: State, step: Step)
    requires Inv(s) && step.Report?
    ensures Inv(Next(s, step))
  {
    var t := Next(s, step);
    if t != s {
      hide LastEvent, LogGood;
      var es := [ReportedAt(step.id, s.now)];
      assert OneEach(es, {step.id}) by { assert es[0].id == step.id; }
      MarkersAfterBatch(s.feeds, s.log, {step.id}, es, t.feeds);
      assert forall sched, id | sched in s.open && id in s.open[sched].ids :: id in Locked(s.open);
    }
  }

  lemma RowKeeps(s: State, step: Step)
    requires Inv(s) && (step.Edit? || step.Register?)
    ensures Inv(Next(s, step))
  {
    hide LastEvent, LogGood;
    assert forall sched, id | sched in s.open && id in s.open[sched].ids :: id in Locked(s.open);
  }

  lemma SelectKeeps(s: State, sched: nat, ids: set<int>)
    requires Inv(s)
    ensures Inv(Next(s, SelectAndLock(sched, ids)))
  {
    assert forall t, id | t in s.open && id in s.open[t].ids :: id in Locked(s.open);
  }

  lemma NextKeeps(s: State, step: Step)
    requires Inv(s)
    ensures Inv(Next(s, step))
  {
    match step
    case Tick(_) =>
    case AbortClaim(_) =>
    case SelectAndLock(sched, ids) => SelectKeeps(s, sched, ids);
    case CommitClaim(sched, jitter) => if sched in s.open { CommitKeeps(s, sched, jitter); }
    case SweepStuck(threshold) => SweepKeeps(s, threshold);
    case Report(_, _, _, _, _) => ReportKeeps(s, step);
    case _ => RowKeeps(s, step);
  }

  lemma {:induction false} RunKeeps(steps: seq<Step>)
    ensures Inv(Run(steps))
  {
    if steps != [] {
      RunKeeps(steps[..|steps| - 1]);
      NextKeeps(Run(steps[..|steps| - 1]), steps[|steps| - 1]);
    }
  }

  /** An uninterrupted claim statement is a select and a commit: what `ClaimDueFeeds` does to the rows. */
  lemma ClaimIsSelectAndCommit(s: State, sched: nat, limit: nat, chosen: set<int>, jitter: map<int, nat>)
    requires sched !in s.open && TopBatch(s.feeds, Locked(s.open), s.now, limit, chosen)
    requires forall id | id in s.feeds :: id in jitter
    ensures var t := Next(Next(s, SelectAndLock(sched, chosen)), CommitClaim(sched, jitter));
            && t.open == s.open && t.log == s.log + ClaimEvents(chosen, s.now) && t.feeds.Keys == s.feeds.Keys
            && forall id | id in s.feeds :: t.feeds[id] == if id in chosen then Claimed(s.feeds[id], s.now, jitter[id]) else s.feeds[id]
  {
  }

  /** A scheduler that dies in mid-statement leaves nothing behind: its rows are as they were, and free again. */
  lemma AbortUndoesSelect(s: State, sched: nat, ids: set<int>)
    requires sched !in s.open
    ensures Next(Next(s, SelectAndLock(sched, ids)), AbortClaim(sched)) == s
  {
    var t := Next(s, SelectAndLock(sched, ids));
    assert t.open - {sched} == s.open;
  }

  // ---------------------------------------------------------------- what every run promises

  /** Claims in flight at the same time are disjoint, and hold only unclaimed feeds. */
  lemma ConcurrentClaimsAreDisjoint(steps: seq<Step>, s: nat, t: nat)
    requires s in Run(steps).open && t in Run(steps).open && s != t
    ensures Run(steps).open[s].ids !! Run(steps).open[t].ids
    ensures forall id | id in Run(steps).open[s].ids :: id in Run(steps).feeds && Run(steps).feeds[id].claimedAt.None?
  {
    RunKeeps(steps);
  }

  /** Where the last event of a feed stands in the log. */
  lemma {:induction false} LastEventPosition(log: seq<Event>, id: int, i: nat)
    requires i < |log| && log[i].id == id
    ensures exists k :: i <= k < |log| && LastEvent(log, id) == Some(log[k]) && log[k].id == id &&
                        forall m | k < m < |log| :: log[m].id != id
  {
    var n := |log| - 1;
    if log[n].id == id {
      assert LastEvent(log, id) == Some(log[n]);
    } else {
      LastEventPosition(log[..n], id, i);
      var k :| i <= k < n && LastEvent(log[..n], id) == Some(log[..n][k]) && log[..n][k].id == id &&
               forall m | k < m < n :: log[..n][m].id != id;
      assert log[k] == log[..n][k];
      forall m | k < m < |log| ensures log[m].id != id {
        if m < n { assert log[m] == log[..n][m]; }
      }
    }
  }

  lemma {:induction false} LogGoodAt(log: seq<Event>, j: nat)
    requires LogGood(log) && j < |log|
    ensures Follows(LastEvent(log[..j], log[j].id), log[j])
  {
    if j < |log| - 1 {
      LogGoodAt(log[..|log| - 1], j);
      assert log[..|log| - 1][..j] == log[..j];
    }
  }

  lemma SeparatedInGoodLog(log: seq<Event>, i: nat, j: nat)
    requires LogGood(log) && i < j < |log| && log[i].ClaimedAt? && log[j].ClaimedAt? && log[i].id == log[j].id
    ensures exists k :: i < k < j && log[k].id == log[i].id && !log[k].ClaimedAt?
  {
    var before := log[..j];
    LogGoodAt(log, j);
    LastEventPosition(before, log[i].id, i);
    hide LogGood, LastEvent;
    var k :| i <= k < j && LastEvent(before, log[i].id) == Some(before[k]) && before[k].id == log[i].id;
    assert before[k] == log[k] && !log[k].ClaimedAt?;
  }

  /** Two claims of one feed are always separated by a report or a sweep of that feed. */
  lemma ClaimsAreSeparated(steps: seq<Step>, i: nat, j: nat)
    requires i < j < |Run(steps).log| && Run(steps).log[i].ClaimedAt? && Run(steps).log[j].ClaimedAt?
    requires Run(steps).log[i].id == Run(steps).log[j].id
    ensures exists k :: i < k < j && Run(steps).log[k].id == Run(steps).log[i].id && !Run(steps).log[k].ClaimedAt?
  {
    RunKeeps(steps);
    SeparatedInGoodLog(Run(steps).log, i, j);
  }

  /** `log[i]` is the claim that `log[j]` ends: older than the threshold, with nothing in between. */
  ghost predicate AbandonedClaim(log: seq<Event>, i: nat, j: nat)
    requires i < j < |log| && log[j].SweptAt?
  {
    && log[i].ClaimedAt? && log[i].id == log[j].id && log[i].at < log[j].at - log[j].threshold
    && forall m | i < m < j :: log[m].id != log[j].id
  }

  lemma AbandonedInGoodLog(log: seq<Event>, j: nat)
    requires LogGood(log) && j < |log| && log[j].SweptAt?
    ensures exists i :: 0 <= i < j && AbandonedClaim(log, i, j)
  {
    var before, id := log[..j], log[j].id;
    LogGoodAt(log, j);
    EventExists(before, id);
    var i :| 0 <= i < j && before[i].id == id;
    LastEventPosition(before, id, i);
    hide LogGood, LastEvent;
    var k :| i <= k < j && LastEvent(before, id) == Some(before[k]) && before[k].id == id && forall m | k < m < j :: before[m].id != id;
    assert forall m | 0 <= m < j :: log[m] == before[m];
    assert AbandonedClaim(log, k, j);
  }

  /**
    A sweep takes only abandoned claims: the feed's latest event is a claim older than the
    threshold, so a claim reported in time is never swept.
   */
  lemma OnlyAbandonedClaimsAreSwept(steps: seq<Step>, j: nat)
    requires j < |Run(steps).log| && Run(steps).log[j].SweptAt?
    ensures exists i :: 0 <= i < j && AbandonedClaim(Run(steps).log, i, j)
  {
    RunKeeps(steps);
    AbandonedInGoodLog(Run(steps).log, j);
  }

  lemma {:induction false} EventExists(log: seq<Event>, id: int)
    requires LastEvent(log, id).Some?
    ensures exists i :: 0 <= i < |log| && log[i].id == id
  {
    var n := |log| - 1;
    if log[n].id != id {
      EventExists(log[..n], id);
      var i :| 0 <= i < n && log[..n][i].id == id;
      assert log[i].id == id;
    }
  }

  /** The first sweep after the threshold recovers every abandoned claim, and touches nothing else. */
  lemma SweepRecovers(steps: seq<Step>, threshold: nat, id: int)
    requires id in Run(steps).feeds
    ensures var s, t := Run(steps), Next(Run(steps), SweepStuck(threshold));
            id in t.feeds &&
            if MarkerAfter(LastEvent(s.log, id)).Some? && MarkerAfter(LastEvent(s.log, id)).value < s.now - threshold
            then Eligible(t.feeds[id], s.now) == Claimable(s.feeds[id]) && t.feeds[id].claimedAt.None?
            else t.feeds[id] == s.feeds[id]
  {
    RunKeeps(steps);
  }

  // ---------------------------------------------------------------- only due feeds are claimed

  /** Every feed an open claim statement holds is still as the statement found it: due then, and claimable. */
  ghost predicate OpenDue(feeds: map<int, Feed>, open: map<nat, OpenClaim>) {
    forall s, id | s in open && id in open[s].ids :: id in feeds && DueRow(feeds[id], open[s].startedAt)
  }

  lemma CommitLeavesOthers(feeds: map<int, Feed>, open: map<nat, OpenClaim>, sched: nat, jitter: map<int, nat>)
    requires OpenDue(feeds, open) && OpenSound(feeds, open) && sched in open
    ensures OpenDue(CommitRows(feeds, open[sched], jitter), open - {sched})
  {
    var rest := open - {sched};
    forall o, id | o in rest && id in rest[o].ids ensures CommitRows(feeds, open[sched], jitter)[id] == feeds[id] {
      assert o in open && open[o].ids !! open[sched].ids;
    }
  }

  lemma OpenDueStep(s: State, step: Step)
    requires Inv(s) && OpenDue(s.feeds, s.open)
    ensures OpenDue(Next(s, step).feeds, Next(s, step).open)
  {
    hide LastEvent, LogGood, MarkersSound;
    match step
    case CommitClaim(sched, jitter) => if sched in s.open { CommitLeavesOthers(s.feeds, s.open, sched, jitter); }
    case SweepStuck(threshold) =>
      assert forall o, id | o in s.open && id in s.open[o].ids :: s.feeds[id].claimedAt.None?;
    case SelectAndLock(sched, ids) =>
      forall id | id in ids && ids <= EligibleIds(s.feeds, Locked(s.open), s.now) ensures id in s.feeds && DueRow(s.feeds[id], s.now) {
        assert id in EligibleIds(s.feeds, Locked(s.open), s.now);
        DueRowIsEligible(s.feeds[id], s.now);
      }
    case _ =>
      assert forall o, id | o in s.open && id in s.open[o].ids :: id in Locked(s.open);
  }

  lemma {:induction false} RunOpenDue(steps: seq<Step>)
    ensures OpenDue(Run(steps).feeds, Run(steps).open)
  {
    if steps != [] {
      RunKeeps(steps[..|steps| - 1]);
      RunOpenDue(steps[..|steps| - 1]);
      OpenDueStep(Run(steps[..|steps| - 1]), steps[|steps| - 1]);
    }
  }

  /** Log entry `j` was written by step `n`, a committing claim, from a row that was due at `at` and not paused by an operator. */
  ghost predicate ClaimedWhenDue(steps: seq<Step>, n: nat, j: nat, id: int, at: int) {
    && n < |steps| && steps[n].CommitClaim?
    && |Run(steps[..n]).log| <= j < |Run(steps[..n + 1]).log|
    && id in Run(steps[..n]).feeds && DueRow(Run(steps[..n]).feeds[id], at)
    && id in Run(steps[..n + 1]).feeds && Run(steps[..n + 1]).feeds[id].claimedAt == Some(at)
  }

  lemma ClaimLogged(s: State, step: Step, j: nat)
    requires OpenDue(s.feeds, s.open) && |s.log| <= j < |Next(s, step).log| && Next(s, step).log[j].ClaimedAt?
    ensures var e := Next(s, step).log[j];
            && step.CommitClaim? && e.id in s.feeds && DueRow(s.feeds[e.id], e.at)
            && e.id in Next(s, step).feeds && Next(s, step).feeds[e.id].claimedAt == Some(e.at)
  {
    if step.CommitClaim? {
      var ids := s.open[step.scheduler].ids;
      SortedMembers(ids);
      var e := Next(s, step).log[j];
      assert e == ClaimEvents(ids, s.open[step.scheduler].startedAt)[j - |s.log|];
      assert e.id in ids;
    }
  }

  lemma ClaimedWhenDueStays(steps: seq<Step>, step: Step, n: nat, j: nat, id: int, at: int)
    requires ClaimedWhenDue(steps, n, j, id, at)
    ensures ClaimedWhenDue(steps + [step], n, j, id, at)
  {
    hide Run;
    var all := steps + [step];
    assert all[..n] == steps[..n] && all[..n + 1] == steps[..n + 1];
  }

  lemma LogOnlyGrows(s: State, step: Step)
    ensures |s.log| <= |Next(s, step).log| && forall j | 0 <= j < |s.log| :: Next(s, step).log[j] == s.log[j]
  {
  }

  /** No run claims a feed before its check time, or one that an operator paused. */
  lemma {:induction false} OnlyDueFeedsAreClaimed(steps: seq<Step>, j: nat)
    requires j < |Run(steps).log| && Run(steps).log[j].ClaimedAt?
    ensures exists n: nat :: ClaimedWhenDue(steps, n, j, Run(steps).log[j].id, Run(steps).log[j].at)
  {
    var n := |steps| - 1;
    var most, step := steps[..n], steps[n];
    var s := Run(most);
    assert Run(steps) == Next(s, step) && steps == most + [step];
    hide Run, Next;
    LogOnlyGrows(s, step);
    if j < |s.log| {
      OnlyDueFeedsAreClaimed(most, j);
      var m: nat :| ClaimedWhenDue(most, m, j, s.log[j].id, s.log[j].at);
      ClaimedWhenDueStays(most, step, m, j, s.log[j].id, s.log[j].at);
    } else {
      RunOpenDue(most);
      ClaimLogged(s, step, j);
      assert steps[..n + 1] == steps;
      assert ClaimedWhenDue(steps, n, j, Run(steps).log[j].id, Run(steps).log[j].at);
    }
  }
}
