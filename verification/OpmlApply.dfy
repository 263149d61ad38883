/**
  What becomes of each item of an import, from the items and the tenant's feeds alone: which are
  imported, on which feed, and which fail with what message.
 */
module OpmlApply {
  import opened Common
  import opened OpmlImports
  import opened OpmlJobs
  import Opml = OpmlTags

  /** The item against the conflicting feed `id`: imported on it when that feed's URL normalizes to the item's. */
  ghost predicate SettledOn(url: string, feed: Feed, id: nat, before: ImportItem, after: ImportItem, normalize: Normalizer) {
    match normalize(feed.url)
    case Err(e) => after == before.(status := Rejected, error := Some(e))
    case Ok(u) =>
      if u == url then after == before.(status := Imported, feedId := Some(id))
      else after == before.(status := Rejected, error := Some("normalized_hash_collision_detected"))
  }

  predicate HasHash(feeds: seq<Feed>, h: string) { exists k | 0 <= k < |feeds| :: feeds[k].hash == Some(h) }

  predicate HasUrl(feeds: seq<Feed>, url: string) { exists k | 0 <= k < |feeds| :: feeds[k].url == url }

  /** The conflict of an item with the feeds: one with its hash goes before one with only its URL. */
  ghost predicate SettledOnConflict(feeds: seq<Feed>, url: string, before: ImportItem, after: ImportItem, normalize: Normalizer, hash: Hash) {
    && (forall k | 0 <= k < |feeds| && feeds[k].hash == Some(hash(url)) :: SettledOn(url, feeds[k], k, before, after, normalize))
    && (!HasHash(feeds, hash(url)) ==>
          forall k | 0 <= k < |feeds| && feeds[k].url == url :: SettledOn(url, feeds[k], k, before, after, normalize))
  }

  /** What one candidate becomes, and what it does to the feeds. */
  ghost predicate CandidateOutcome(feeds: seq<Feed>, before: ImportItem, more: seq<Feed>, after: ImportItem, normalize: Normalizer, hash: Hash) {
    match before.normalizedUrl
    case None => after == before.(status := Rejected, error := Some("missing_normalized_url")) && more == feeds
    case Some(url) =>
      && SettledOnConflict(feeds, url, before, after, normalize, hash)
      && (HasHash(feeds, hash(url)) || HasUrl(feeds, url) ==> more == feeds)
      && (!HasHash(feeds, hash(url)) && !HasUrl(feeds, url) ==>
            after == before.(status := Imported, feedId := Some(|feeds|)) && more == feeds + [Feed(url, Some(hash(url)))])
  }

  lemma ConflictIsUnique(feeds: seq<Feed>, url: string, h: string)
    requires UniqueHashes(feeds) && UniqueUrls(feeds)
    ensures ConflictingFeed(feeds, url, h).None? <==> !HasHash(feeds, h) && !HasUrl(feeds, url)
    ensures forall k | 0 <= k < |feeds| && feeds[k].hash == Some(h) :: ConflictingFeed(feeds, url, h) == Some(k)
    ensures !HasHash(feeds, h) ==> forall k | 0 <= k < |feeds| && feeds[k].url == url :: ConflictingFeed(feeds, url, h) == Some(k)
  {
  }

  /** One candidate: rejected without a URL or when the conflicting feed's URL is another, imported otherwise. */
  lemma CandidateDecided(w: Work, id: nat, normalize: Normalizer, hash: Hash)
    requires id < |w.items| && UniqueHashes(w.feeds) && UniqueUrls(w.feeds)
    ensures var r := ApplyItem(w, id, normalize, hash);
            && CandidateOutcome(w.feeds, w.items[id], r.feeds, r.items[id], normalize, hash)
            && (forall k | 0 <= k < |w.items| && k != id :: r.items[k] == w.items[k])
  {
    hide UniqueHashes, UniqueUrls, ConflictingFeed, HasHash, HasUrl;
    if w.items[id].normalizedUrl.Some? {
      ConflictIsUnique(w.feeds, w.items[id].normalizedUrl.value, hash(w.items[id].normalizedUrl.value));
    }
  }

  // ---------------------------------------------------------------- a whole import

  /** No two items still to be imported share a hash. */
  ghost predicate DistinctTargets(items: seq<ImportItem>, hash: Hash) {
    forall i, j | 0 <= i < j < |items| && items[i].status == items[j].status == New &&
        items[i].normalizedUrl.Some? && items[j].normalizedUrl.Some? ::
      hash(items[i].normalizedUrl.value) != hash(items[j].normalizedUrl.value)
  }

  /** What an item of the import becomes, from the feeds there were before the job. */
  ghost predicate ItemOutcome(feeds: seq<Feed>, before: ImportItem, more: seq<Feed>, after: ImportItem, normalize: Normalizer, hash: Hash) {
    match before.normalizedUrl
    case None => after == before.(status := Rejected, error := Some("missing_normalized_url"))
    case Some(url) =>
      if HasHash(feeds, hash(url)) || HasUrl(feeds, url) then SettledOnConflict(feeds, url, before, after, normalize, hash)
      else
        && after == before.(status := Imported, feedId := after.feedId)
        && after.feedId.Some? && |feeds| <= after.feedId.value < |more| && more[after.feedId.value] == Feed(url, Some(hash(url)))
  }

  /** The job after the candidates `ids`. */
  ghost predicate Progress(feeds: seq<Feed>, items: seq<ImportItem>, ids: seq<nat>, w: Work, normalize: Normalizer, hash: Hash) {
    && |w.items| == |items| && Within(ids, |items|)
    && |feeds| <= |w.feeds| && w.feeds[..|feeds|] == feeds
    && (forall n | |feeds| <= n < |w.feeds| :: AddedFor(items, ids, w.feeds[n], hash))
    && (forall k: nat | k < |items| ::
          if k in ids then ItemOutcome(feeds, items[k], w.feeds, w.items[k], normalize, hash) else w.items[k] == items[k])
  }

  /** The feed was added for one of the items `ids`. */
  ghost predicate AddedFor(items: seq<ImportItem>, ids: seq<nat>, feed: Feed, hash: Hash) {
    exists k | k in ids && k < |items| :: items[k].normalizedUrl == Some(feed.url) && feed.hash == Some(hash(feed.url))
  }

  lemma SameConflicts(feeds: seq<Feed>, items: seq<ImportItem>, ids: seq<nat>, w: Work, id: nat, normalize: Normalizer, hash: Hash)
    requires Progress(feeds, items, ids, w, normalize, hash) && id < |items| && id !in ids && items[id].normalizedUrl.Some?
    requires DistinctTargets(items, hash) && items[id].status == New && forall k | k in ids && k < |items| :: items[k].status == New
    ensures var url := items[id].normalizedUrl.value;
            && (HasHash(w.feeds, hash(url)) <==> HasHash(feeds, hash(url)))
            && (HasUrl(w.feeds, url) <==> HasUrl(feeds, url))
  {
    var url := items[id].normalizedUrl.value;
    forall n | |feeds| <= n < |w.feeds| ensures w.feeds[n].hash != Some(hash(url)) && w.feeds[n].url != url {
      assert AddedFor(items, ids, w.feeds[n], hash);
      var k :| k in ids && k < |items| && items[k].normalizedUrl == Some(w.feeds[n].url) && w.feeds[n].hash == Some(hash(w.feeds[n].url));
      assert k != id;
    }
    assert forall n | 0 <= n < |feeds| :: w.feeds[..|feeds|][n] == w.feeds[n];
  }

  lemma OutcomeStays(feeds: seq<Feed>, before: ImportItem, more: seq<Feed>, most: seq<Feed>, after: ImportItem, normalize: Normalizer, hash: Hash)
    requires ItemOutcome(feeds, before, more, after, normalize, hash) && |more| <= |most| && most[..|more|] == more
    ensures ItemOutcome(feeds, before, most, after, normalize, hash)
  {
    hide HasHash, HasUrl, SettledOnConflict;
    assert forall n | 0 <= n < |more| :: most[..|more|][n] == most[n];
  }

  lemma OutcomeNow(feeds: seq<Feed>, items: seq<ImportItem>, ids: seq<nat>, w: Work, id: nat, r: Work, normalize: Normalizer, hash: Hash)
    requires Progress(feeds, items, ids, w, normalize, hash) && id < |items| && id !in ids && id < |r.items|
    requires DistinctTargets(items, hash) && items[id].status == New && forall k | k in ids && k < |items| :: items[k].status == New
    requires CandidateOutcome(w.feeds, items[id], r.feeds, r.items[id], normalize, hash)
    ensures ItemOutcome(feeds, items[id], r.feeds, r.items[id], normalize, hash)
    ensures |w.feeds| <= |r.feeds| && r.feeds[..|w.feeds|] == w.feeds
    ensures forall n | |w.feeds| <= n < |r.feeds| :: AddedFor(items, ids + [id], r.feeds[n], hash)
  {
    if items[id].normalizedUrl.Some? {
      var url := items[id].normalizedUrl.value;
      SameConflicts(feeds, items, ids, w, id, normalize, hash);
      assert forall n | 0 <= n < |feeds| :: w.feeds[..|feeds|][n] == w.feeds[n];
      assert id in ids + [id];
      hide HasHash, HasUrl;
    }
  }

  lemma ProgressStep(feeds: seq<Feed>, items: seq<ImportItem>, ids: seq<nat>, w: Work, id: nat, normalize: Normalizer, hash: Hash)
    requires Progress(feeds, items, ids, w, normalize, hash) && id < |items| && id !in ids
    requires DistinctTargets(items, hash) && items[id].status == New && forall k | k in ids && k < |items| :: items[k].status == New
    requires UniqueHashes(w.feeds) && UniqueUrls(w.feeds)
    ensures Progress(feeds, items, ids + [id], ApplyItem(w, id, normalize, hash), normalize, hash)
  {
    var r := ApplyItem(w, id, normalize, hash);
    CandidateDecided(w, id, normalize, hash);
    OutcomeNow(feeds, items, ids, w, id, r, normalize, hash);
    hide ApplyItem, CandidateOutcome, ItemOutcome, UniqueHashes, UniqueUrls, DistinctTargets;
    var more := ids + [id];
    assert r.feeds[..|feeds|] == r.feeds[..|w.feeds|][..|feeds|];
    forall n | |feeds| <= n < |r.feeds| ensures AddedFor(items, more, r.feeds[n], hash) {
      if n < |w.feeds| {
        assert r.feeds[n] == r.feeds[..|w.feeds|][n] == w.feeds[n];
        var k :| k in ids && k < |items| && items[k].normalizedUrl == Some(w.feeds[n].url) && w.feeds[n].hash == Some(hash(w.feeds[n].url));
        assert k in more;
      }
    }
    forall k: nat | k < |items|
      ensures if k in more then ItemOutcome(feeds, items[k], r.feeds, r.items[k], normalize, hash) else r.items[k] == items[k]
    {
      if k in ids {
        OutcomeStays(feeds, items[k], w.feeds, r.feeds, w.items[k], normalize, hash);
      }
    }
  }

  lemma {:induction false} ApplyItemsProgress(feeds: seq<Feed>, items: seq<ImportItem>, ids: seq<nat>, normalize: Normalizer, hash: Hash)
    requires Within(ids, |items|) && Distinct(ids) && DistinctTargets(items, hash) && UniqueHashes(feeds) && UniqueUrls(feeds)
    requires forall k | k in ids && k < |items| :: items[k].status == New
    ensures Progress(feeds, items, ids, ApplyItems(Work(feeds, items, [], 0, 0), ids, normalize, hash), normalize, hash)
  {
    hide UniqueHashes, UniqueUrls, DistinctTargets, ItemOutcome, ApplyItem, AddedFor;
    if ids != [] {
      var n := |ids| - 1;
      var most, id := ids[..n], ids[n];
      assert ids == most + [id] && id !in most && id in ids;
      ApplyItemsProgress(feeds, items, most, normalize, hash);
      ApplyItemsOutcome(Work(feeds, items, [], 0, 0), most, normalize, hash);
      hide Progress, FeedsGrow, Outcome;
      GrowthKeepsUnique(Work(feeds, items, [], 0, 0), ApplyItems(Work(feeds, items, [], 0, 0), most, normalize, hash));
      ProgressStep(feeds, items, most, ApplyItems(Work(feeds, items, [], 0, 0), most, normalize, hash), id, normalize, hash);
    }
  }

  lemma GrowthKeepsUnique(before: Work, after: Work)
    requires FeedsGrow(before, after) && UniqueHashes(before.feeds) && UniqueUrls(before.feeds)
    ensures UniqueHashes(after.feeds) && UniqueUrls(after.feeds)
  {
  }

  /**
    A whole import over the feeds there were before: an item without a conflicting feed is imported
    on a feed added for it; one with a conflict is imported on that feed exactly when the feed's URL
    normalizes to the item's, and fails with the reason otherwise.
   */
  lemma ImportDecided(feeds: seq<Feed>, items: seq<ImportItem>, normalize: Normalizer, hash: Hash)
    requires UniqueHashes(feeds) && UniqueUrls(feeds) && DistinctTargets(items, hash)
    ensures var w := Applied(feeds, items, normalize, hash);
            forall k | 0 <= k < |items| ::
              if items[k].status == New then ItemOutcome(feeds, items[k], w.feeds, w.items[k], normalize, hash) else w.items[k] == items[k]
  {
    hide UniqueHashes, UniqueUrls, DistinctTargets, ItemOutcome, ApplyItems, NewIds, AddedFor;
    NewIdsExact(items);
    AppliedIs(feeds, items, normalize, hash);
    ApplyItemsProgress(feeds, items, NewIds(items), normalize, hash);
  }

  lemma NewItemOfPreview(parsed: seq<Opml.Item>, i: nat, feeds: seq<Feed>, normalize: Normalizer, hash: Hash, item: ImportItem)
    requires i < |parsed| && UniqueHashes(feeds) && ItemPreviewed(parsed, i, feeds, normalize, hash, item) && item.status == New
    ensures normalize(parsed[i].sourceXmlUrl).Ok? && item.normalizedUrl == Some(normalize(parsed[i].sourceXmlUrl).value)
    ensures !HashStandsBefore(parsed, i, hash(item.normalizedUrl.value), normalize, hash)
  {
    if normalize(parsed[i].sourceXmlUrl).Ok? {
      var url := normalize(parsed[i].sourceXmlUrl).value;
      assert forall f | f in feeds && f.hash == Some(hash(url)) && normalize(f.url).Ok? ::
          item.status != New || HashStandsBefore(parsed, i, hash(url), normalize, hash);
    }
  }

  /** The items of a preview never compete for a feed, so the job's outcome is read off the feeds it found. */
  lemma PreviewHasDistinctTargets(parsed: seq<Opml.Item>, feeds: seq<Feed>, normalize: Normalizer, hash: Hash, items: seq<ImportItem>)
    requires UniqueHashes(feeds) && Previews(parsed, feeds, normalize, hash, items)
    ensures DistinctTargets(items, hash)
  {
    PreviewByItem(parsed, feeds, normalize, hash, items);
    hide ItemPreviewed, UniqueHashes;
    forall i, j | 0 <= i < j < |items| && items[i].status == items[j].status == New &&
        items[i].normalizedUrl.Some? && items[j].normalizedUrl.Some?
      ensures hash(items[i].normalizedUrl.value) != hash(items[j].normalizedUrl.value)
    {
      NewItemOfPreview(parsed, i, feeds, normalize, hash, items[i]);
      NewItemOfPreview(parsed, j, feeds, normalize, hash, items[j]);
    }
  }
}
