/**
  The feeds table as the scheduler, the workers and the operator change it: the SQL statements of
  `FeedsRepository`, and the scheduler tick that turns claims into queue jobs.
 */
module FeedClaims {
  import opened Common

  datatype FeedStatus = Active | Paused | Error

  datatype Feed = Feed(
    status: FeedStatus,
    lastError: Option<string>,
    errorCount: nat,
    pollInterval: nat,
    nextCheckAt: int,
    claimedAt: Option<int>
  )

  const AUTO_PAUSED_PREFIX := "auto-paused:"

  predicate AutoPaused(f: Feed) {
    f.lastError.Some? && AUTO_PAUSED_PREFIX <= f.lastError.value
  }

  predicate Claimable(f: Feed) {
    f.status != Paused || AutoPaused(f)
  }

  predicate Eligible(f: Feed, now: int) {
    f.nextCheckAt <= now && f.claimedAt.None? && Claimable(f)
  }

  /** `CLAIM_PRIORITY_BY_STATUS`, the same order as the `CASE` of the claim query. */
  function Priority(s: FeedStatus): int {
    match s
    case Active => 0
    case Error => 1
    case Paused => 2
  }

  function EligibleIds(feeds: map<int, Feed>, locked: set<int>, now: int): set<int> {
    set id | id in feeds && id !in locked && Eligible(feeds[id], now)
  }

  predicate Before(a: (int, int), b: (int, int)) {
    a.0 < b.0 || (a.0 == b.0 && a.1 < b.1)
  }

  /** Upper end of `(RANDOM() * LEAST(300, poll * 0.2))::int`; fifths never round at a half. */
  function MaxJitter(pollInterval: nat): (j: nat)
    ensures j <= 300 && 5 * j - 2 <= pollInterval
    ensures j < 300 ==> pollInterval <= 5 * j + 2
  {
    if (pollInterval + 2) / 5 < 300 then (pollInterval + 2) / 5 else 300
  }

  /** The rows a claim may choose: a top-k of the eligible, unlocked ones by (priority, due time). */
  ghost predicate TopBatch(feeds: map<int, Feed>, locked: set<int>, now: int, limit: nat, chosen: set<int>) {
    var eligible := EligibleIds(feeds, locked, now);
    && chosen <= eligible
    && |chosen| <= limit
    && (|chosen| < limit ==> chosen == eligible)
    && forall c, d | c in chosen && d in eligible - chosen :: !Before(ClaimRank(feeds[d]), ClaimRank(feeds[c]))
  }

  /** The rows of the claim query, on the columns: due, unclaimed, and paused only by the system itself. */
  predicate DueRow(f: Feed, now: int) {
    && f.nextCheckAt <= now && f.claimedAt == None
    && (f.status == Paused ==> f.lastError.Some? && "auto-paused:" <= f.lastError.value)
  }

  /** `c` may be taken before `d`: active feeds before failing ones before auto-paused ones, then the longest due. */
  predicate NoLaterThan(c: Feed, d: Feed) {
    && (d.status == Active ==> c.status == Active)
    && (d.status == Error ==> c.status != Paused)
    && (c.status == d.status ==> c.nextCheckAt <= d.nextCheckAt)
  }

  /** A batch of `limit` rows, or of all of them, none of which should have waited for one left behind. */
  ghost predicate FairBatch(feeds: map<int, Feed>, locked: set<int>, now: int, limit: nat, order: seq<int>) {
    && Distinct(order) && |order| <= limit
    && (forall id | id in order :: id in feeds && id !in locked && DueRow(feeds[id], now))
    && (|order| < limit ==> forall id | id in feeds && id !in locked && DueRow(feeds[id], now) :: id in order)
    && (forall c, d | c in order && c in feeds && d in feeds && d !in locked && d !in order && DueRow(feeds[d], now) ::
          NoLaterThan(feeds[c], feeds[d]))
    && (forall i, j | 0 <= i < j < |order| && order[i] in feeds && order[j] in feeds ::
          && (feeds[order[j]].status == Active ==> feeds[order[i]].status == Active)
          && (feeds[order[j]].status == Error ==> feeds[order[i]].status != Paused)
          && (feeds[order[i]].status == feeds[order[j]].status ==> order[i] < order[j]))
  }

  /** A claimed row: pushed past its poll interval by at most a fifth of it and five minutes, marked, and else the same. */
  predicate ClaimedRow(was: Feed, after: Feed, now: int) {
    && after == was.(nextCheckAt := after.nextCheckAt, claimedAt := Some(now))
    && now + was.pollInterval <= after.nextCheckAt <= now + was.pollInterval + 300
    && 5 * (after.nextCheckAt - now - was.pollInterval) <= was.pollInterval + 2
  }

  lemma DueRowIsEligible(f: Feed, now: int)
    ensures DueRow(f, now) <==> Eligible(f, now)
  {
  }

  lemma TopBatchIsFair(feeds: map<int, Feed>, locked: set<int>, now: int, limit: nat, order: seq<int>)
    requires TopBatch(feeds, locked, now, limit, Elems(order)) && Distinct(order) && SortedClaim(feeds, order)
    ensures FairBatch(feeds, locked, now, limit, order)
  {
    DistinctCount(order);
    assert forall id | id in order :: id in Elems(order) && id in EligibleIds(feeds, locked, now);
    forall id | id in feeds && id !in locked && DueRow(feeds[id], now) ensures id in EligibleIds(feeds, locked, now) {
      DueRowIsEligible(feeds[id], now);
    }
    assert |order| < limit ==> forall id | id in EligibleIds(feeds, locked, now) :: id in Elems(order);
    forall c, d | c in order && c in feeds && d in feeds && d !in locked && d !in order && DueRow(feeds[d], now)
      ensures NoLaterThan(feeds[c], feeds[d])
    {
      DueRowIsEligible(feeds[d], now);
      assert d in EligibleIds(feeds, locked, now) && d !in Elems(order) && c in Elems(order);
    }
  }

  function ClaimRank(f: Feed): (int, int) {
    (Priority(f.status), f.nextCheckAt)
  }

  function Claimed(f: Feed, now: int, jitter: nat): Feed {
    f.(nextCheckAt := now + f.pollInterval + jitter, claimedAt := Some(now))
  }

  predicate Stale(f: Feed, now: int, threshold: int) {
    f.claimedAt.Some? && f.claimedAt.value < now - threshold
  }

  function Released(f: Feed, now: int): Feed {
    f.(claimedAt := None, nextCheckAt := now)
  }

  function Sweep(feeds: map<int, Feed>, now: int, threshold: int): map<int, Feed> {
    map id | id in feeds :: if Stale(feeds[id], now, threshold) then Released(feeds[id], now) else feeds[id]
  }

  function StaleIds(feeds: map<int, Feed>, now: int, threshold: int): set<int> {
    set id | id in feeds && Stale(feeds[id], now, threshold)
  }

  /** `FeedsRepository.update`: the check time an operator's edit leaves. */
  function EditedCheckTime(f: Feed, now: int, status: FeedStatus, poll: nat): int {
    if status == Active && f.status != Active then now
    else if status == Active && poll != f.pollInterval then now + poll
    else f.nextCheckAt
  }

  // ---------------------------------------------------------------- top-k by rank

  /** `order` lists `n` best keys of `ranks`, best first. */
  ghost predicate BestFirst(ranks: map<int, (int, int)>, order: seq<int>) {
    && Distinct(order)
    && (forall id | id in order :: id in ranks)
    && (forall i, j | 0 <= i < j < |order| && order[i] in ranks && order[j] in ranks :: !Before(ranks[order[j]], ranks[order[i]]))
    && (forall id, i | id in ranks && id !in order && 0 <= i < |order| && order[i] in ranks :: !Before(ranks[id], ranks[order[i]]))
  }

  method Best(ranks: map<int, (int, int)>) returns (best: int)
    requires ranks != map[]
    ensures best in ranks && forall id | id in ranks :: !Before(ranks[id], ranks[best])
  {
    var rest := ranks.Keys;
    best := AnyOf(ranks.Keys);
    while rest != {}
      invariant best in ranks && rest <= ranks.Keys
      invariant forall id | id in ranks && id !in rest :: !Before(ranks[id], ranks[best])
      decreases |rest|
    {
      var id := AnyOf(rest);
      rest := rest - {id};
      if Before(ranks[id], ranks[best]) {
        best := id;
      }
    }
  }

  /** `ORDER BY rank LIMIT n`, ties in any order. */
  method TakeBest(ranks: map<int, (int, int)>, n: nat) returns (order: seq<int>)
    ensures BestFirst(ranks, order)
    ensures |order| == if n < |ranks| then n else |ranks|
  {
    order := [];
    var rest := ranks;
    while |order| < n && rest != map[]
      invariant |order| <= n && |order| + |rest| == |ranks|
      invariant BestFirst(ranks, order)
      invariant forall id :: id in rest <==> id in ranks && id !in order
      invariant forall id | id in rest :: rest[id] == ranks[id]
      decreases |rest|
    {
      var best := Best(rest);
      order := order + [best];
      rest := rest - {best};
    }
  }

  // ---------------------------------------------------------------- the repository

  datatype ClaimError = BatchSizeInvalid | StuckThresholdInvalid

  /** The claimed rows as the caller sees them: sorted by (priority, id). */
  ghost predicate SortedClaim(feeds: map<int, Feed>, order: seq<int>) {
    forall i, j | 0 <= i < j < |order| && order[i] in feeds && order[j] in feeds ::
      Before((Priority(feeds[order[i]].status), order[i]), (Priority(feeds[order[j]].status), order[j]))
  }

  class FeedsRepository {
    var feeds: map<int, Feed>

    /**
      One claim statement at time `now`, with the rows other schedulers hold `locked` skipped.
      `jitter` is the random offset drawn for each row.
     */
    method ClaimDueFeeds(limit: int, now: int, locked: set<int>, jitter: map<int, nat>) returns (r: Result<seq<int>, ClaimError>)
      requires forall id | id in feeds :: id in jitter && jitter[id] <= MaxJitter(feeds[id].pollInterval)
      modifies this
      ensures r.Err? <==> limit <= 0
      ensures r.Err? ==> feeds == old(feeds)
      ensures r.Ok? ==> TopBatch(old(feeds), locked, now, limit, Elems(r.value))
      ensures r.Ok? ==> Distinct(r.value) && SortedClaim(old(feeds), r.value)
      ensures r.Ok? ==> FairBatch(old(feeds), locked, now, limit, r.value)
      ensures r.Ok? ==> feeds.Keys == old(feeds).Keys
      ensures r.Ok? ==> forall id | id in old(feeds) ::
                  if id in r.value then ClaimedRow(old(feeds)[id], feeds[id], now) else feeds[id] == old(feeds)[id]
      ensures r.Ok? ==> forall id | id in old(feeds) ::
                  feeds[id] == if id in r.value then Claimed(old(feeds)[id], now, jitter[id]) else old(feeds)[id]
    {
      if limit <= 0 {
        return Err(BatchSizeInvalid);
      }
      var batch := SelectForUpdate(limit, now, locked);
      var byId := map id | id in batch :: (Priority(feeds[id].status), id);
      var order := TakeBest(byId, |byId|);
      AllTaken(byId, order);
      assert Elems(order) == byId.Keys == batch;
      ClaimSorted(feeds, batch, byId, order);
      TopBatchIsFair(feeds, locked, now, limit, order);
      feeds := map id | id in feeds :: if id in batch then Claimed(feeds[id], now, jitter[id]) else feeds[id];
      r := Ok(order);
    }

    /** `SELECT id ... ORDER BY ... LIMIT $1 FOR UPDATE SKIP LOCKED` */
    method SelectForUpdate(limit: nat, now: int, locked: set<int>) returns (batch: set<int>)
      ensures TopBatch(feeds, locked, now, limit, batch)
    {
      var eligible := EligibleIds(feeds, locked, now);
      var ranks := map id | id in eligible :: ClaimRank(feeds[id]);
      var order := TakeBest(ranks, limit);
      batch := Elems(order);
      AllTaken(ranks, order);
      assert ranks.Keys == eligible;
      assert |ranks.Keys| == |ranks|;
      forall c, d | c in batch && d in eligible - batch ensures !Before(ClaimRank(feeds[d]), ClaimRank(feeds[c])) {
        var i :| 0 <= i < |order| && order[i] == c;
        assert !Before(ranks[d], ranks[order[i]]);
      }
    }

    method ReleaseStuckFeeds(threshold: int, now: int) returns (r: Result<nat, ClaimError>)
      modifies this
      ensures r.Err? <==> threshold <= 0
      ensures r.Err? ==> feeds == old(feeds)
      ensures r.Ok? ==> feeds == Sweep(old(feeds), now, threshold) && r.value == |StaleIds(old(feeds), now, threshold)|
      ensures r.Ok? ==> feeds.Keys == old(feeds).Keys
      ensures r.Ok? ==> forall id | id in old(feeds) ::
                  feeds[id] == if old(feeds)[id].claimedAt.Some? && old(feeds)[id].claimedAt.value + threshold < now
                               then old(feeds)[id].(claimedAt := None, nextCheckAt := now)
                               else old(feeds)[id]
      ensures r.Ok? ==> r.value == |set id | id in old(feeds) && old(feeds)[id].claimedAt.Some? && feeds[id].claimedAt.None?|
    {
      if threshold <= 0 {
        return Err(StuckThresholdInvalid);
      }
      var released := |StaleIds(feeds, now, threshold)|;
      ReleasedIds(feeds, Sweep(feeds, now, threshold), now, threshold);
      feeds := Sweep(feeds, now, threshold);
      r := Ok(released);
    }

    /** The operator's edit; `claimed_at` and `last_error` are not its business. */
    method Update(id: int, status: Option<FeedStatus>, poll: Option<nat>, now: int) returns (found: bool)
      modifies this
      ensures found <==> id in old(feeds)
      ensures !found ==> feeds == old(feeds)
      ensures found ==>
                var was := old(feeds)[id];
                var status', poll' := status.GetOr(was.status), poll.GetOr(was.pollInterval);
                && feeds == old(feeds)[id := was.(status := status', pollInterval := poll', nextCheckAt := EditedCheckTime(was, now, status', poll'))]
                && (was.status != Active && status == Some(Active) ==> feeds[id].nextCheckAt == now)
                && (was.status == Active == status' && poll' != was.pollInterval ==> feeds[id].nextCheckAt == now + poll')
                && (status' != Active || (was.status == Active && poll' == was.pollInterval) ==> feeds[id].nextCheckAt == was.nextCheckAt)
    {
      found := id in feeds;
      if found {
        var current := feeds[id];
        var status', poll' := status.GetOr(current.status), poll.GetOr(current.pollInterval);
        feeds := feeds[id := current.(status := status', pollInterval := poll', nextCheckAt := EditedCheckTime(current, now, status', poll'))];
      }
    }

    /** A worker reports back: the only statement that ends a claim without a sweep. */
    method UpdateAfterFetch(id: int, status: FeedStatus, errorCount: nat, lastError: Option<string>, nextCheckAt: int)
      modifies this
      ensures id !in old(feeds) ==> feeds == old(feeds)
      ensures id in old(feeds) ==>
                feeds == old(feeds)[id := Feed(status, lastError, errorCount, old(feeds)[id].pollInterval, nextCheckAt, None)]
    {
      if id in feeds {
        feeds := feeds[id := Feed(status, lastError, errorCount, feeds[id].pollInterval, nextCheckAt, None)];
      }
    }
  }

  lemma ReleasedIds(feeds: map<int, Feed>, after: map<int, Feed>, now: int, threshold: int)
    requires after == Sweep(feeds, now, threshold)
    ensures StaleIds(feeds, now, threshold) == set id | id in feeds && feeds[id].claimedAt.Some? && after[id].claimedAt.None?
  {
    var released := set id | id in feeds && feeds[id].claimedAt.Some? && after[id].claimedAt.None?;
    assert forall id :: id in released <==> id in StaleIds(feeds, now, threshold);
  }

  lemma ClaimSorted(feeds: map<int, Feed>, batch: set<int>, byId: map<int, (int, int)>, order: seq<int>)
    requires batch <= feeds.Keys && byId == (map id | id in batch :: (Priority(feeds[id].status), id))
    requires BestFirst(byId, order)
    ensures SortedClaim(feeds, order)
  {
    forall i, j | 0 <= i < j < |order| ensures order[i] in byId && order[j] in byId && Before(byId[order[i]], byId[order[j]]) {
      assert order[i] in order && order[j] in order;
      assert order[i] != order[j] && !Before(byId[order[j]], byId[order[i]]);
    }
  }

  /** Distinct keys that fill the whole limit, or the whole map. */
  lemma AllTaken(ranks: map<int, (int, int)>, order: seq<int>)
    requires BestFirst(ranks, order) && |order| <= |ranks|
    ensures |Elems(order)| == |order|
    ensures Elems(order) <= ranks.Keys
    ensures |order| == |ranks| ==> Elems(order) == ranks.Keys
  {
    DistinctCount(order);
    assert forall id | id in Elems(order) :: id in order && id in ranks;
    assert |ranks.Keys| == |ranks|;
    if |order| == |ranks| {
      SubsetOfSameSize(Elems(order), ranks.Keys);
    }
  }

  lemma SubsetOfSameSize(a: set<int>, b: set<int>)
    requires a <= b && |a| == |b|
    ensures a == b
  {
    assert |b - a| == |b| - |a|;
  }
}
