/**
  The parse, confirm and apply jobs of one OPML import, and every status run they can produce.
  A job runs atomically apart from its own failures; ids of feeds and items are positions.
 */
module OpmlJobs {
  import opened Common
  import opened OpmlImports
  import Opml = OpmlTags

  // ---------------------------------------------------------------- status runs

  /** How an apply job that passed its status check went on. */
  datatype ApplyEnd =
    | Died                                             // the process was lost inside the transaction
    | RolledBack                                       // a statement failed
    | Committed(allImported: bool, queueFailed: bool)  // and then queueing the new feeds threw or not

  datatype Job = Parse(accepted: bool) | Confirm | Apply(end: ApplyEnd)

  /** The statuses a job writes to an import in status `s`, in order; rolled-back writes are not among them. */
  function Writes(s: Status, job: Job): seq<Status> {
    match job
    case Parse(accepted) =>
      if s != Uploaded && s != Parsing then [] else if accepted then [Parsing, PreviewReady] else [FailedValidation]
    case Confirm => if s == PreviewReady then [Importing] else []
    case Apply(end) =>
      if s == Importing then EndWrites(end) else if s == PreviewReady then [Importing] + EndWrites(end) else []
  }

  function EndWrites(end: ApplyEnd): seq<Status> {
    match end
    case Died => []
    case RolledBack => [Failed]
    case Committed(allImported, queueFailed) => [if allImported then Completed else Failed] + if queueFailed then [Failed] else []
  }

  function Last(s: Status, writes: seq<Status>): Status { if writes == [] then s else writes[|writes| - 1] }

  /** Each write is a step of the table from the status before it. */
  predicate Follows(s: Status, writes: seq<Status>) {
    writes == [] ||
    var n := |writes| - 1;
    Follows(s, writes[..n]) && CanTransition(Last(s, writes[..n]), writes[n])
  }

  /** All writes of a run of jobs over a fresh import. */
  function RunWrites(jobs: seq<Job>): seq<Status> {
    if jobs == [] then []
    else
      var before := RunWrites(jobs[..|jobs| - 1]);
      before + Writes(Last(Uploaded, before), jobs[|jobs| - 1])
  }

  /** A completed import is written 'failed' because its new feeds could not be queued. */
  predicate Overwrites(s: Status, job: Job) {
    job == Apply(Committed(true, true)) && (s == Importing || s == PreviewReady)
  }

  lemma {:induction false} FollowsAppend(s: Status, a: seq<Status>, b: seq<Status>)
    ensures Follows(s, a + b) <==> Follows(s, a) && Follows(Last(s, a), b)
    ensures Last(s, a + b) == Last(Last(s, a), b)
    decreases |b|
  {
    hide CanTransition;
    if b == [] {
      assert a + b == a;
    } else {
      var n := |b| - 1;
      FollowsAppend(s, a, b[..n]);
      assert (a + b)[..|a + b| - 1] == a + b[..n];
    }
  }

  lemma JobFollowsUnlessOverwriting(s: Status, job: Job)
    ensures Follows(s, Writes(s, job)) <==> !Overwrites(s, job)
  {
    match job
    case Parse(accepted) => TwoWrites(s, Parsing, PreviewReady); OneWrite(s, FailedValidation);
    case Confirm => OneWrite(s, Importing);
    case Apply(end) =>
      var w := EndWrites(end);
      FollowsAppend(s, [Importing], w);
      OneWrite(s, Importing);
      OneWrite(Importing, Failed);
      OneWrite(Importing, Completed);
      TwoWrites(Importing, Completed, Failed);
      TwoWrites(Importing, Failed, Failed);
  }

  lemma OneWrite(s: Status, t: Status)
    ensures Follows(s, [t]) <==> CanTransition(s, t)
  {
    assert [t][..0] == [];
  }

  lemma TwoWrites(s: Status, t: Status, u: Status)
    ensures Follows(s, [t, u]) <==> CanTransition(s, t) && CanTransition(t, u)
  {
    OneWrite(s, t);
    assert [t, u][..1] == [t];
  }

  lemma AppendJob(jobs: seq<Job>, job: Job)
    ensures RunWrites(jobs + [job]) == RunWrites(jobs) + Writes(Last(Uploaded, RunWrites(jobs)), job)
  {
    hide Writes;
    assert (jobs + [job])[..|jobs|] == jobs;
  }

  /** The status the run `jobs[..i]` leaves. */
  function StatusBefore(jobs: seq<Job>, i: nat): Status
    requires i <= |jobs|
  {
    Last(Uploaded, RunWrites(jobs[..i]))
  }

  ghost predicate NeverOverwrites(jobs: seq<Job>) {
    forall i | 0 <= i < |jobs| :: !Overwrites(StatusBefore(jobs, i), jobs[i])
  }

  lemma NeverOverwritesStep(jobs: seq<Job>, job: Job)
    ensures NeverOverwrites(jobs + [job]) <==> NeverOverwrites(jobs) && !Overwrites(Last(Uploaded, RunWrites(jobs)), job)
  {
    hide Overwrites, RunWrites, Last;
    var all := jobs + [job];
    assert forall i | 0 <= i <= |jobs| :: all[..i] == jobs[..i];
    assert jobs[..|jobs|] == jobs;
    assert forall i | 0 <= i < |jobs| :: StatusBefore(all, i) == StatusBefore(jobs, i) && all[i] == jobs[i];
    assert StatusBefore(all, |jobs|) == Last(Uploaded, RunWrites(jobs)) && all[|jobs|] == job;
  }

  lemma EmptyRunFollows()
    ensures Follows(Uploaded, RunWrites([])) && NeverOverwrites([])
  {
  }

  /** Every status change of every run is a step of the table, except exactly the overwriting ones. */
  lemma {:induction false} RunFollowsTableIff(jobs: seq<Job>)
    ensures Follows(Uploaded, RunWrites(jobs)) <==> NeverOverwrites(jobs)
  {
    hide *;
    if jobs == [] {
      EmptyRunFollows();
    } else {
      var most, job := jobs[..|jobs| - 1], jobs[|jobs| - 1];
      RunFollowsTableIff(most);
      assert jobs == most + [job];
      AppendJob(most, job);
      NeverOverwritesStep(most, job);
      var s := Last(Uploaded, RunWrites(most));
      FollowsAppend(Uploaded, RunWrites(most), Writes(s, job));
      JobFollowsUnlessOverwriting(s, job);
    }
  }

  lemma ConfirmedRun() returns (jobs: seq<Job>)
    ensures RunWrites(jobs) == [Parsing, PreviewReady, Importing]
  {
    AppendJob([], Parse(true));
    AppendJob([] + [Parse(true)], Confirm);
    jobs := [] + [Parse(true)] + [Confirm];
  }

  /** A queue failure after the commit turns a completed import into a failed one. */
  lemma QueueFailureOverwritesCompleted() returns (jobs: seq<Job>)
    ensures RunWrites(jobs) == [Parsing, PreviewReady, Importing] + [Completed, Failed]
    ensures !Follows(Uploaded, RunWrites(jobs))
  {
    var before := ConfirmedRun();
    AppendJob(before, Apply(Committed(true, true)));
    jobs := before + [Apply(Committed(true, true))];
    hide RunWrites, Follows;
    FollowsAppend(Uploaded, [Parsing, PreviewReady, Importing], [Completed, Failed]);
    TwoWrites(Importing, Completed, Failed);
  }

  /** Once an import is in a terminal status no later job writes anything. */
  lemma {:induction false} TerminalIsAbsorbing(jobs: seq<Job>, more: seq<Job>)
    requires Terminal(Last(Uploaded, RunWrites(jobs)))
    ensures RunWrites(jobs + more) == RunWrites(jobs)
    decreases |more|
  {
    hide RunWrites, Last, Writes, Terminal;
    if more == [] {
      assert jobs + more == jobs;
    } else {
      var n := |more| - 1;
      assert jobs + more == jobs + more[..n] + [more[n]];
      TerminalIsAbsorbing(jobs, more[..n]);
      AppendJob(jobs + more[..n], more[n]);
      NoWritesWhenTerminal(Last(Uploaded, RunWrites(jobs)), more[n]);
    }
  }

  lemma NoWritesWhenTerminal(s: Status, job: Job)
    requires Terminal(s)
    ensures Writes(s, job) == []
  {
    assert Failed !in Successors(s) && FailedValidation !in Successors(s);
  }

  // ---------------------------------------------------------------- applying

  datatype Work = Work(feeds: seq<Feed>, items: seq<ImportItem>, created: seq<nat>, imported: nat, failed: nat)

  /** The first feed `p` holds of. */
  function FirstFeed(feeds: seq<Feed>, p: Feed -> bool, from: nat): (r: Option<nat>)
    requires from <= |feeds|
    ensures r.Some? ==> from <= r.value < |feeds| && p(feeds[r.value])
    ensures r.None? ==> forall i | from <= i < |feeds| :: !p(feeds[i])
    decreases |feeds| - from
  {
    if from == |feeds| then None else if p(feeds[from]) then Some(from) else FirstFeed(feeds, p, from + 1)
  }

  /** The row the lookup after a refused insert reads: a row with the hash before one with only the URL. */
  function ConflictingFeed(feeds: seq<Feed>, url: string, h: string): (r: Option<nat>)
    ensures r.Some? ==> r.value < |feeds| && (feeds[r.value].url == url || feeds[r.value].hash == Some(h))
    ensures r.None? ==> forall i | 0 <= i < |feeds| :: feeds[i].url != url && feeds[i].hash != Some(h)
  {
    var byHash := FirstFeed(feeds, (f: Feed) => f.hash == Some(h), 0);
    if byHash.Some? then byHash else FirstFeed(feeds, (f: Feed) => f.url == url, 0)
  }

  datatype Upsert = Created | Found(feedId: nat) | Refused(error: string)

  function UpsertOf(feeds: seq<Feed>, url: string, normalize: Normalizer, hash: Hash): Upsert {
    match ConflictingFeed(feeds, url, hash(url))
    case None => Created
    case Some(id) =>
      match normalize(feeds[id].url)
      case Err(e) => Refused(e)
      case Ok(u) => if u != url then Refused(COLLISION) else Found(id)
  }

  function Reject(w: Work, id: nat, error: string): Work
    requires id < |w.items|
  {
    w.(items := w.items[id := w.items[id].(status := Rejected, error := Some(error))], failed := w.failed + 1)
  }

  function Accept(w: Work, id: nat, feedId: nat): Work
    requires id < |w.items|
  {
    w.(items := w.items[id := w.items[id].(status := Imported, feedId := Some(feedId))], imported := w.imported + 1)
  }

  function ApplyItem(w: Work, id: nat, normalize: Normalizer, hash: Hash): (r: Work)
    requires id < |w.items|
    ensures |r.items| == |w.items|
  {
    var item := w.items[id];
    if item.normalizedUrl.None? then Reject(w, id, "missing_normalized_url")
    else
      var url := item.normalizedUrl.value;
      match UpsertOf(w.feeds, url, normalize, hash)
      case Created => Accept(w, id, |w.feeds|).(feeds := w.feeds + [Feed(url, Some(hash(url)))], created := w.created + [|w.feeds|])
      case Found(feedId) => Accept(w, id, feedId)
      case Refused(error) => Reject(w, id, error)
  }

  ghost predicate Within(ids: seq<nat>, n: nat) { forall i | 0 <= i < |ids| :: ids[i] < n }

  function ApplyItems(w: Work, ids: seq<nat>, normalize: Normalizer, hash: Hash): (r: Work)
    requires Within(ids, |w.items|)
    ensures |r.items| == |w.items|
  {
    if ids == [] then w
    else ApplyItem(ApplyItems(w, ids[..|ids| - 1], normalize, hash), ids[|ids| - 1], normalize, hash)
  }

  /** Positions of the items still 'new', in order. */
  function NewIds(items: seq<ImportItem>): (ids: seq<nat>)
    ensures Within(ids, |items|)
    ensures |ids| == Count(items, New)
  {
    if items == [] then []
    else NewIds(items[..|items| - 1]) + if items[|items| - 1].status == New then [|items| - 1] else []
  }

  lemma {:induction false} NewIdsExact(items: seq<ImportItem>)
    ensures Distinct(NewIds(items))
    ensures forall id: nat :: id in NewIds(items) <==> id < |items| && items[id].status == New
  {
    if items != [] {
      NewIdsExact(items[..|items| - 1]);
      var before := NewIds(items[..|items| - 1]);
      assert forall i | 0 <= i < |before| :: before[i] < |items| - 1;
    }
  }

  /** An imported item points at a feed with its URL, or one whose stored URL normalizes to it. */
  predicate Linked(item: ImportItem, feeds: seq<Feed>, normalize: Normalizer) {
    && item.feedId.Some? && item.feedId.value < |feeds| && item.normalizedUrl.Some?
    && var url := feeds[item.feedId.value].url;
       url == item.normalizedUrl.value || normalize(url) == Ok(item.normalizedUrl.value)
  }

  predicate Settled(before: ImportItem, after: ImportItem, feeds: seq<Feed>, normalize: Normalizer) {
    && after == before.(status := after.status, error := after.error, feedId := after.feedId)
    && (after.status == Rejected || (after.status == Imported && Linked(after, feeds, normalize)))
  }

  /** Feeds are only appended, every appended one is reported as created, and the unique indexes hold. */
  ghost predicate FeedsGrow(before: Work, after: Work) {
    && |after.feeds| >= |before.feeds| && after.feeds[..|before.feeds|] == before.feeds
    && |after.created| == |before.created| + |after.feeds| - |before.feeds|
    && after.created[..|before.created|] == before.created
    && (forall k | |before.created| <= k < |after.created| :: after.created[k] == |before.feeds| + k - |before.created|)
    && (UniqueHashes(before.feeds) ==> UniqueHashes(after.feeds))
    && (UniqueUrls(before.feeds) ==> UniqueUrls(after.feeds))
  }

  lemma ApplyItemGrows(w: Work, id: nat, normalize: Normalizer, hash: Hash)
    requires id < |w.items|
    ensures FeedsGrow(w, ApplyItem(w, id, normalize, hash))
  {
  }

  lemma FeedsGrowTrans(a: Work, b: Work, c: Work)
    requires FeedsGrow(a, b) && FeedsGrow(b, c)
    ensures FeedsGrow(a, c)
  {
    hide UniqueHashes, UniqueUrls;
    assert c.feeds[..|a.feeds|] == b.feeds[..|a.feeds|];
    assert c.created[..|a.created|] == b.created[..|a.created|];
    forall k | |a.created| <= k < |c.created| ensures c.created[k] == |a.feeds| + k - |a.created| {
      if k < |b.created| {
        assert c.created[..|b.created|][k] == c.created[k];
      }
    }
  }

  lemma ApplyItemSettles(w: Work, id: nat, normalize: Normalizer, hash: Hash)
    requires id < |w.items|
    ensures var r := ApplyItem(w, id, normalize, hash);
            && Settled(w.items[id], r.items[id], r.feeds, normalize)
            && (forall k | 0 <= k < |w.items| && k != id :: r.items[k] == w.items[k])
            && r.imported + r.failed == w.imported + w.failed + 1
            && r.failed == w.failed + if r.items[id].status == Rejected then 1 else 0
  {
  }

  lemma SettledStays(before: ImportItem, after: ImportItem, feeds: seq<Feed>, more: seq<Feed>, normalize: Normalizer)
    requires Settled(before, after, feeds, normalize) && |more| >= |feeds| && more[..|feeds|] == feeds
    ensures Settled(before, after, more, normalize)
  {
  }

  /** The ids of `ids` are settled, the other items untouched, and each settled id is counted once. */
  ghost predicate Outcome(w: Work, ids: seq<nat>, r: Work, normalize: Normalizer) {
    && Within(ids, |w.items|) && |r.items| == |w.items|
    && (forall k | 0 <= k < |w.items| ::
          if k in ids then Settled(w.items[k], r.items[k], r.feeds, normalize) else r.items[k] == w.items[k])
    && r.imported + r.failed == w.imported + w.failed + |ids|
    && (r.failed == w.failed <==> forall k | k in ids :: r.items[k].status == Imported)
    && r.failed >= w.failed
  }

  lemma OutcomeStep(w: Work, ids: seq<nat>, m: Work, id: nat, r: Work, normalize: Normalizer, hash: Hash)
    requires Outcome(w, ids, m, normalize) && id < |w.items| && id !in ids
    requires r == ApplyItem(m, id, normalize, hash)
    ensures Outcome(w, ids + [id], r, normalize)
  {
    ApplyItemSettles(m, id, normalize, hash);
    ApplyItemGrows(m, id, normalize, hash);
    hide ApplyItem, Settled;
    forall k | 0 <= k < |w.items| && k in ids ensures Settled(w.items[k], r.items[k], r.feeds, normalize) {
      SettledStays(w.items[k], r.items[k], m.feeds, r.feeds, normalize);
    }
    OutcomeStatuses(w, ids, m, id, r, normalize);
  }

  lemma OutcomeStatuses(w: Work, ids: seq<nat>, m: Work, id: nat, r: Work, normalize: Normalizer)
    requires Outcome(w, ids, m, normalize) && id < |w.items| && id !in ids && |r.items| == |w.items|
    requires forall k | 0 <= k < |w.items| && k != id :: r.items[k] == m.items[k]
    requires r.failed == m.failed + if r.items[id].status == Rejected then 1 else 0
    requires r.items[id].status == Rejected || r.items[id].status == Imported
    ensures r.failed == w.failed <==> forall k | k in ids + [id] :: r.items[k].status == Imported
  {
    hide Settled, Linked;
    assert id in ids + [id];
    if forall k | k in ids + [id] :: r.items[k].status == Imported {
      forall k | k in ids ensures m.items[k].status == Imported { assert k in ids + [id]; }
    }
  }

  lemma {:induction false} ApplyItemsOutcome(w: Work, ids: seq<nat>, normalize: Normalizer, hash: Hash)
    requires Within(ids, |w.items|) && Distinct(ids)
    ensures Outcome(w, ids, ApplyItems(w, ids, normalize, hash), normalize)
    ensures FeedsGrow(w, ApplyItems(w, ids, normalize, hash))
  {
    if ids != [] {
      var most, id := ids[..|ids| - 1], ids[|ids| - 1];
      ApplyItemsOutcome(w, most, normalize, hash);
      var m := ApplyItems(w, most, normalize, hash);
      var r := ApplyItem(m, id, normalize, hash);
      ApplyItemGrows(m, id, normalize, hash);
      FeedsGrowTrans(w, m, r);
      assert ids == most + [id];
      OutcomeStep(w, most, m, id, r, normalize, hash);
    }
  }

  /** What applying a whole import does. */
  function Applied(feeds: seq<Feed>, items: seq<ImportItem>, normalize: Normalizer, hash: Hash): (w: Work)
    ensures |w.items| == |items|
  {
    ApplyItems(Work(feeds, items, [], 0, 0), NewIds(items), normalize, hash)
  }

  /**
    Applying an import leaves no 'new' item: each becomes imported or failed, the rest stay as they
    were, and no item failed exactly when all were imported.
   */
  lemma ApplySettlesEveryNewItem(feeds: seq<Feed>, items: seq<ImportItem>, normalize: Normalizer, hash: Hash)
    ensures var w := Applied(feeds, items, normalize, hash);
            && (forall k | 0 <= k < |items| ::
                  if items[k].status == New then Settled(items[k], w.items[k], w.feeds, normalize) else w.items[k] == items[k])
            && w.imported + w.failed == Count(items, New)
            && (w.failed == 0 <==> forall k | 0 <= k < |items| && items[k].status == New :: w.items[k].status == Imported)
            && FeedsGrow(Work(feeds, items, [], 0, 0), w)
  {
    hide *;
    AppliedIs(feeds, items, normalize, hash);
    NewIdsExact(items);
    var start, w := Work(feeds, items, [], 0, 0), Applied(feeds, items, normalize, hash);
    ApplyItemsOutcome(start, NewIds(items), normalize, hash);
    OutcomeByStatus(start, NewIds(items), w, normalize);
  }

  lemma AppliedIs(feeds: seq<Feed>, items: seq<ImportItem>, normalize: Normalizer, hash: Hash)
    ensures Applied(feeds, items, normalize, hash) == ApplyItems(Work(feeds, items, [], 0, 0), NewIds(items), normalize, hash)
  {
  }

  lemma OutcomeByStatus(start: Work, ids: seq<nat>, w: Work, normalize: Normalizer)
    requires Outcome(start, ids, w, normalize) && start.imported == start.failed == 0
    requires forall id: nat :: id in ids <==> id < |start.items| && start.items[id].status == New
    ensures |w.items| == |start.items| && w.imported + w.failed == |ids|
    ensures forall k | 0 <= k < |start.items| ::
              if start.items[k].status == New then Settled(start.items[k], w.items[k], w.feeds, normalize) else w.items[k] == start.items[k]
    ensures w.failed == 0 <==> forall k | 0 <= k < |start.items| && start.items[k].status == New :: w.items[k].status == Imported
  {
    hide Settled;
  }

  lemma {:induction false} CountReplaced(items: seq<ImportItem>, id: nat, item: ImportItem, s: ItemStatus)
    requires id < |items|
    ensures Count(items[id := item], s) ==
            Count(items, s) - (if items[id].status == s then 1 else 0) + (if item.status == s then 1 else 0)
  {
    var n := |items| - 1;
    if id < n {
      CountReplaced(items[..n], id, item, s);
      assert items[id := item][..n] == items[..n][id := item];
    } else {
      assert items[id := item][..n] == items[..n];
    }
  }

  lemma {:induction false} TalliesMatchRows(w: Work, ids: seq<nat>, normalize: Normalizer, hash: Hash)
    requires Within(ids, |w.items|) && Distinct(ids) && forall i | 0 <= i < |ids| :: w.items[ids[i]].status == New
    ensures var r := ApplyItems(w, ids, normalize, hash);
            && Count(r.items, Imported) - Count(w.items, Imported) == r.imported - w.imported
            && Count(r.items, Rejected) - Count(w.items, Rejected) == r.failed - w.failed
  {
    if ids != [] {
      var most, id := ids[..|ids| - 1], ids[|ids| - 1];
      TalliesMatchRows(w, most, normalize, hash);
      ApplyItemsOutcome(w, most, normalize, hash);
      var m := ApplyItems(w, most, normalize, hash);
      assert id !in most && m.items[id] == w.items[id];
      ApplyItemReplaces(m, id, normalize, hash);
    }
  }

  lemma ApplyItemReplaces(m: Work, id: nat, normalize: Normalizer, hash: Hash)
    requires id < |m.items| && m.items[id].status == New
    ensures var r := ApplyItem(m, id, normalize, hash);
            && Count(r.items, Imported) - Count(m.items, Imported) == r.imported - m.imported
            && Count(r.items, Rejected) - Count(m.items, Rejected) == r.failed - m.failed
  {
    var r := ApplyItem(m, id, normalize, hash);
    assert r.items == m.items[id := r.items[id]];
    CountReplaced(m.items, id, r.items[id], Imported);
    CountReplaced(m.items, id, r.items[id], Rejected);
    hide Count, UpsertOf;
  }

  /** For an import not applied before, the reported tallies are the numbers of imported and of failed rows. */
  lemma ReportedTalliesAreRowCounts(feeds: seq<Feed>, items: seq<ImportItem>, normalize: Normalizer, hash: Hash)
    requires Count(items, Imported) == Count(items, Rejected) == 0
    ensures var w := Applied(feeds, items, normalize, hash);
            w.imported == Count(w.items, Imported) && w.failed == Count(w.items, Rejected) && Count(w.items, New) == 0
  {
    NewIdsExact(items);
    var ids := NewIds(items);
    assert forall i | 0 <= i < |ids| :: ids[i] in ids;
    hide Count, ApplyItems, NewIds;
    AppliedIs(feeds, items, normalize, hash);
    TalliesMatchRows(Work(feeds, items, [], 0, 0), ids, normalize, hash);
    ApplySettlesEveryNewItem(feeds, items, normalize, hash);
    CountZero(Applied(feeds, items, normalize, hash).items, New);
  }
}
