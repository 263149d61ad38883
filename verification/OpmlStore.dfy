/** The rows of one OPML import and its tenant's feeds, and the three jobs as they write them. */
module OpmlStore {
  import opened Common
  import opened OpmlImports
  import opened OpmlJobs
  import opened OpmlApply
  import Opml = OpmlTags

  const MAX_OUTLINE_TAGS: nat := 20_000

  datatype Counters = Counters(total: nat, valid: nat, duplicate: nat, existing: nat, invalid: nat, imported: nat)

  /** What goes wrong during an apply job, if anything. */
  datatype Trouble =
    | Nothing
    | Dies                                       // the process is lost inside the transaction
    | StatementFails(at: nat, message: string)   // at a candidate, or after the last
    | QueueThrows(at: nat, message: string)      // after the commit
    | DiesQueueing(at: nat)                      // the process is lost after the commit, with that many feeds queued

  function ErrorText(e: Opml.ParseError): string {
    match e
    case TooLarge => "opml_too_large"
    case InvalidRoot => "opml_invalid_root"
    case DoctypeNotAllowed => "opml_doctype_not_allowed"
    case OutlineLimitExceeded => "opml_outline_limit_exceeded"
    case MalformedOutline => "opml_malformed_outline"
  }

  /** The message stored for a refused file tells which check refused it. */
  lemma RefusalIsNamed(doc: Opml.Document, maxBytes: int)
    ensures var r := Opml.Extracted(doc, maxBytes, MAX_OUTLINE_TAGS);
            && (doc.bytes > maxBytes ==> r.Err? && ErrorText(r.error) == "opml_too_large")
            && (doc.bytes <= maxBytes && !doc.hasRoot ==> r.Err? && ErrorText(r.error) == "opml_invalid_root")
            && (doc.bytes <= maxBytes && doc.hasRoot && doc.hasDoctype ==> r.Err? && ErrorText(r.error) == "opml_doctype_not_allowed")
            && (doc.bytes <= maxBytes && doc.hasRoot && !doc.hasDoctype && |doc.tags| > 20_000 ==>
                  r.Err? && ErrorText(r.error) == "opml_outline_limit_exceeded")
            && (doc.bytes <= maxBytes && doc.hasRoot && !doc.hasDoctype && |doc.tags| <= 20_000 ==>
                  (r.Err? <==> !Opml.Balanced(doc.tags)) && (r.Err? ==> ErrorText(r.error) == "opml_malformed_outline"))
  {
    Opml.AcceptedIffBalanced(doc.tags);
    hide Opml.Balanced, Opml.Scan;
  }

  function PreviewCounters(items: seq<ImportItem>, imported: nat): Counters {
    Counters(|items|, |items| - Count(items, Invalid), Count(items, Duplicate), Count(items, Existing), Count(items, Invalid), imported)
  }

  function AppliedCounters(items: seq<ImportItem>, imported: nat): Counters {
    Counters(|items|, Count(items, New) + Count(items, Existing) + Count(items, Duplicate) + Count(items, Imported),
             Count(items, Duplicate), Count(items, Existing), Count(items, Invalid), imported)
  }

  function WithStatus(items: seq<ImportItem>, s: ItemStatus): set<nat> {
    set i: nat | i < |items| && items[i].status == s
  }

  /** The stored counters of a preview are numbers of its rows; valid and invalid ones are all of them. */
  ghost predicate CountsPreview(c: Counters, items: seq<ImportItem>) {
    && c.total == |items| && c.valid + c.invalid == c.total
    && c.duplicate == |WithStatus(items, Duplicate)| && c.existing == |WithStatus(items, Existing)|
    && c.invalid == |WithStatus(items, Invalid)|
  }

  /** The stored counters of an applied import: every row is valid, invalid or failed, and the imported ones are valid. */
  ghost predicate CountsApplied(c: Counters, items: seq<ImportItem>) {
    && c.total == |items| && c.valid + c.invalid + |WithStatus(items, Rejected)| == c.total
    && c.duplicate == |WithStatus(items, Duplicate)| && c.existing == |WithStatus(items, Existing)|
    && c.invalid == |WithStatus(items, Invalid)|
  }

  lemma {:induction false} CountIsSize(items: seq<ImportItem>, s: ItemStatus)
    ensures Count(items, s) == |WithStatus(items, s)|
  {
    if items != [] {
      var n := |items| - 1;
      CountIsSize(items[..n], s);
      assert WithStatus(items, s) == WithStatus(items[..n], s) + if items[n].status == s then {n} else {};
    }
  }

  lemma PreviewCountersCount(items: seq<ImportItem>, imported: nat)
    ensures CountsPreview(PreviewCounters(items, imported), items) && PreviewCounters(items, imported).imported == imported
  {
    CountIsSize(items, Duplicate);
    CountIsSize(items, Existing);
    CountIsSize(items, Invalid);
  }

  lemma AppliedCountersCount(items: seq<ImportItem>, imported: nat)
    ensures CountsApplied(AppliedCounters(items, imported), items) && AppliedCounters(items, imported).imported == imported
  {
    CountersAddUp(items);
    CountIsSize(items, Duplicate);
    CountIsSize(items, Existing);
    CountIsSize(items, Invalid);
    CountIsSize(items, Rejected);
  }

  /** The items that were still new before and have the status now. */
  function Became(before: seq<ImportItem>, after: seq<ImportItem>, s: ItemStatus): set<nat> {
    set k: nat | k < |before| && k < |after| && before[k].status == New && after[k].status == s
  }

  lemma BecameCount(before: seq<ImportItem>, after: seq<ImportItem>, s: ItemStatus)
    requires |before| == |after| && s != New
    requires forall k | 0 <= k < |before| :: before[k].status == New || after[k] == before[k]
    ensures |Became(before, after, s)| == Count(after, s) - Count(before, s)
  {
    CountIsSize(before, s);
    CountIsSize(after, s);
    assert WithStatus(after, s) == WithStatus(before, s) + Became(before, after, s);
  }

  /** The tallies of an applied import are the numbers of new items that became imported, and failed. */
  lemma TalliesCount(feeds: seq<Feed>, items: seq<ImportItem>, normalize: Normalizer, hash: Hash)
    ensures var w := Applied(feeds, items, normalize, hash);
            w.imported == |Became(items, w.items, Imported)| && w.failed == |Became(items, w.items, Rejected)|
  {
    hide Count, ApplyItems, NewIds, Applied, Settled, FeedsGrow, Became;
    var w := Applied(feeds, items, normalize, hash);
    AppliedIs(feeds, items, normalize, hash);
    NewIdsExact(items);
    var ids := NewIds(items);
    assert forall i | 0 <= i < |ids| :: ids[i] in ids;
    TalliesMatchRows(Work(feeds, items, [], 0, 0), ids, normalize, hash);
    ApplySettlesEveryNewItem(feeds, items, normalize, hash);
    BecameCount(items, w.items, Imported);
    BecameCount(items, w.items, Rejected);
  }

  /** How an apply job ends under `trouble`. */
  function EndOf(w: Work, trouble: Trouble): ApplyEnd {
    match trouble
    case Dies => Died
    case StatementFails(_, _) => RolledBack
    case QueueThrows(at, _) => Committed(w.failed == 0, at < |w.created|)
    case DiesQueueing(_) => Committed(w.failed == 0, false)
    case Nothing => Committed(w.failed == 0, false)
  }

  /** The created feeds that got queued before queueing ended, if it did. */
  function QueuedOf(w: Work, trouble: Trouble): seq<nat> {
    if StopsQueueing(trouble, |w.created|) then w.created[..trouble.at] else w.created
  }

  predicate StopsQueueing(trouble: Trouble, feeds: nat) {
    (trouble.QueueThrows? || trouble.DiesQueueing?) && trouble.at < feeds
  }

  /** The stored error after a commit: a queue that threw, or the number of items that failed, or what was there. */
  function MessageAfter(before: Option<string>, end: ApplyEnd, failed: nat, trouble: Trouble): Option<string> {
    if end == Committed(failed == 0, true) && trouble.QueueThrows? then Some(trouble.message)
    else if failed > 0 then Some("partial_import_failure:" + Decimal(failed))
    else before
  }

  /** The feeds queued are the added ones, in order, up to where queueing ended. */
  lemma QueuedAreAdded(feeds: seq<Feed>, items: seq<ImportItem>, w: Work, trouble: Trouble)
    requires FeedsGrow(Work(feeds, items, [], 0, 0), w)
    ensures |w.feeds| >= |feeds| && w.feeds[..|feeds|] == feeds && |w.created| == |w.feeds| - |feeds|
    ensures |QueuedOf(w, trouble)| == if StopsQueueing(trouble, |w.feeds| - |feeds|) then trouble.at else |w.feeds| - |feeds|
    ensures forall k | 0 <= k < |QueuedOf(w, trouble)| :: QueuedOf(w, trouble)[k] == |feeds| + k
  {
  }

  lemma EndIs(w: Work, trouble: Trouble)
    ensures var end := EndOf(w, trouble);
            && (end.Died? <==> trouble.Dies?) && (end.RolledBack? <==> trouble.StatementFails?)
            && (end.Committed? ==>
                  && (end.allImported <==> w.failed == 0)
                  && (end.queueFailed <==> trouble.QueueThrows? && trouble.at < |w.created|)
                  && EndWrites(end) != []
                  && EndWrites(end)[|EndWrites(end)| - 1] == if end.allImported && !end.queueFailed then Completed else Failed)
  {
  }

  /** Every item after the job, from the feeds and items it found. */
  ghost predicate ItemsDecided(
    feeds: seq<Feed>, items: seq<ImportItem>, more: seq<Feed>, after: seq<ImportItem>, normalize: Normalizer, hash: Hash
  ) {
    && |after| == |items|
    && (UniqueHashes(feeds) && UniqueUrls(feeds) && DistinctTargets(items, hash) ==>
          forall k | 0 <= k < |items| ::
            if items[k].status == New then ItemOutcome(feeds, items[k], more, after[k], normalize, hash) else after[k] == items[k])
    && (forall k | 0 <= k < |items| && items[k].status == New :: after[k].status == Imported || after[k].status == Rejected)
  }

  /** Feeds are only appended, and the appended ones are queued in order, up to where queueing ends. */
  ghost predicate FeedsQueued(feeds: seq<Feed>, more: seq<Feed>, queued: seq<nat>, trouble: Trouble) {
    && |feeds| <= |more| && more[..|feeds|] == feeds
    && |queued| == (if StopsQueueing(trouble, |more| - |feeds|) then trouble.at else |more| - |feeds|)
    && forall k | 0 <= k < |queued| :: queued[k] == |feeds| + k
  }

  lemma DecidedByItem(feeds: seq<Feed>, items: seq<ImportItem>, normalize: Normalizer, hash: Hash)
    ensures var w := Applied(feeds, items, normalize, hash); ItemsDecided(feeds, items, w.feeds, w.items, normalize, hash)
  {
    hide Applied, UniqueHashes, UniqueUrls, DistinctTargets, ItemOutcome, FeedsGrow, Count;
    ApplySettlesEveryNewItem(feeds, items, normalize, hash);
    if UniqueHashes(feeds) && UniqueUrls(feeds) && DistinctTargets(items, hash) {
      ImportDecided(feeds, items, normalize, hash);
    }
  }

  /** What a committed job leaves, in terms of what it found. */
  lemma WholeImport(feeds: seq<Feed>, items: seq<ImportItem>, normalize: Normalizer, hash: Hash, trouble: Trouble)
    ensures var w := Applied(feeds, items, normalize, hash);
            && CountsApplied(AppliedCounters(w.items, w.imported), w.items)
            && AppliedCounters(w.items, w.imported).imported == |Became(items, w.items, Imported)|
            && w.failed == |Became(items, w.items, Rejected)|
            && |w.feeds| >= |feeds| && |w.created| == |w.feeds| - |feeds|
            && FeedsQueued(feeds, w.feeds, QueuedOf(w, trouble), trouble)
            && ItemsDecided(feeds, items, w.feeds, w.items, normalize, hash)
  {
    hide Applied, ItemsDecided, FeedsGrow, QueuedOf, AppliedCounters, CountsApplied, Became, Count, Settled;
    var w := Applied(feeds, items, normalize, hash);
    ApplySettlesEveryNewItem(feeds, items, normalize, hash);
    TalliesCount(feeds, items, normalize, hash);
    QueuedAreAdded(feeds, items, w, trouble);
    AppliedCountersCount(w.items, w.imported);
    DecidedByItem(feeds, items, normalize, hash);
  }

  class ImportStore {
    var status: Status
    var errorMessage: Option<string>
    var counters: Counters
    var items: seq<ImportItem>
    var feeds: seq<Feed>
    var writes: seq<Status>
    var queued: seq<nat>

    /** An error message is stored exactly in the failure statuses, although no write ever clears one. */
    ghost predicate ErrorFits() reads this { errorMessage.Some? <==> status == Failed || status == FailedValidation }

    constructor (feeds: seq<Feed>)
      ensures this.feeds == feeds && status == Uploaded && items == [] && writes == [] && queued == [] && ErrorFits()
    {
      this.feeds := feeds;
      status, errorMessage, counters := Uploaded, None, Counters(0, 0, 0, 0, 0, 0);
      items, writes, queued := [], [], [];
    }

    method MarkImportStatus(to: Status, message: Option<string>, counts: Option<Counters>)
      modifies `status, `errorMessage, `counters, `writes
      ensures status == to && writes == old(writes) + [to]
      ensures errorMessage == if message.Some? then message else old(errorMessage)
      ensures counters == counts.GetOr(old(counters))
    {
      status, writes := to, writes + [to];
      errorMessage := if message.Some? then message else errorMessage;
      counters := counts.GetOr(counters);
    }

    /** The rows are inserted one by one; the check and the partial unique index may refuse one. */
    method ReplaceImportItems(rows: seq<ImportItem>) returns (ok: bool)
      modifies `items
      ensures ok <==> Insertable(rows)
      ensures ok <==>
                && (forall i | 0 <= i < |rows| :: rows[i].status == Invalid || (rows[i].normalizedUrl.Some? && rows[i].normalizedUrlHash.Some?))
                && (forall i, j | 0 <= i < j < |rows| && rows[i].status != Duplicate && rows[j].status != Duplicate
                                  && rows[i].normalizedUrlHash.Some? ::
                      rows[i].normalizedUrlHash != rows[j].normalizedUrlHash)
      ensures ok ==> items == rows
    {
      items := [];
      for i := 0 to |rows|
        invariant items == rows[..i] && Insertable(rows[..i])
      {
        var item := rows[i];
        assert rows[..i + 1] == rows[..i] + [item];
        if !UrlPresent(item) || exists k | 0 <= k < |items| :: Clash(items[k], item) {
          return false;
        }
        items := items + [item];
      }
      assert rows[..|rows|] == rows;
      ok := true;
    }

    method ParseJob(doc: Opml.Document, maxBytes: int, normalize: Normalizer, hash: Hash) returns (accepted: bool)
      requires UniqueHashes(feeds)
      modifies this
      ensures feeds == old(feeds) && queued == old(queued)
      ensures writes == old(writes) + Writes(old(status), Parse(accepted))
      ensures status == Last(old(status), Writes(old(status), Parse(accepted)))
      ensures accepted ==> old(status) == Uploaded || old(status) == Parsing
      ensures status == if accepted then PreviewReady
                        else if old(status) == Uploaded || old(status) == Parsing then FailedValidation
                        else old(status)
      ensures accepted ==>
                var parsed := Opml.Extracted(doc, maxBytes, MAX_OUTLINE_TAGS);
                && parsed.Ok? && Previews(parsed.value, feeds, normalize, hash, items)
                && (forall i | 0 <= i < |items| :: ItemPreviewed(parsed.value, i, feeds, normalize, hash, items[i]))
                && CountsPreview(counters, items) && counters.imported == old(counters).imported
      ensures !accepted && (old(status) == Uploaded || old(status) == Parsing) ==>
                var parsed := Opml.Extracted(doc, maxBytes, MAX_OUTLINE_TAGS);
                && errorMessage.Some?
                && if parsed.Err? then errorMessage.value == ErrorText(parsed.error)
                   else exists i: nat :: StoredUrlFails(parsed.value, i, feeds, normalize, hash, errorMessage.value)
      ensures !accepted ==> items == old(items) && counters == old(counters)
      ensures old(ErrorFits()) ==> ErrorFits()
    {
      hide PreviewCounters, CountsPreview, Previews, ItemPreviewed, StoredUrlFails, Insertable, ResolvedAt, Opml.Extracted, ErrorText, UniqueHashes;
      if status != Uploaded && status != Parsing {
        return false;
      }
      var before, beforeError, beforeCounters, beforeItems, beforeWrites := status, errorMessage, counters, items, writes;
      MarkImportStatus(Parsing, None, None);
      var parsed := Opml.ExtractOpmlItems(doc, maxBytes, MAX_OUTLINE_TAGS);
      var failure: string;
      if parsed.Ok? {
        var resolved := ResolveAll(parsed.value, feeds, normalize, hash);
        if resolved.Ok? {
          PreviewIsInsertable(parsed.value, feeds, normalize, hash, resolved.value);
          var stored := ReplaceImportItems(resolved.value);
          PreviewCountersCount(items, counters.imported);
          MarkImportStatus(PreviewReady, None, Some(PreviewCounters(items, counters.imported)));
          return true;
        }
        failure := resolved.error;
      } else {
        failure := ErrorText(parsed.error);
      }
      status, errorMessage, counters, items, writes := before, beforeError, beforeCounters, beforeItems, beforeWrites;
      MarkImportStatus(FailedValidation, Some(failure), None);
      accepted := false;
    }

    /** `Ok(true)` queued an apply job, `Ok(false)` found the import confirmed already. */
    method ConfirmImport() returns (r: Result<bool, string>)
      modifies `status, `errorMessage, `counters, `writes
      ensures r.Err? <==> old(status) in {Uploaded, Parsing, FailedValidation, Failed}
      ensures r.Ok? ==> (r.value <==> old(status) == PreviewReady)
      ensures status == if r == Ok(true) then Importing else old(status)
      ensures writes == old(writes) + Writes(old(status), Confirm) && status == Last(old(status), Writes(old(status), Confirm))
      ensures errorMessage == old(errorMessage) && counters == old(counters)
    {
      if status == Importing || status == Completed {
        return Ok(false);
      }
      if status != PreviewReady {
        return Err("opml_import_not_ready_for_confirm");
      }
      MarkImportStatus(Importing, None, None);
      r := Ok(true);
    }

    method ListNewCandidateItems() returns (ids: seq<nat>)
      ensures ids == NewIds(items)
    {
      ids := [];
      for i := 0 to |items|
        invariant ids == NewIds(items[..i])
      {
        assert items[..i + 1][..i] == items[..i];
        if items[i].status == New {
          ids := ids + [i];
        }
      }
      assert items[..|items|] == items;
    }

    /** One candidate: the feed upsert and the item's new status. */
    method ApplyCandidate(id: nat, normalize: Normalizer, hash: Hash, ghost w: Work) returns (imported: bool, created: Option<nat>)
      requires id < |items| && w.items == items && w.feeds == feeds
      modifies `items, `feeds
      ensures var r := ApplyItem(w, id, normalize, hash);
              && items == r.items && feeds == r.feeds
              && (imported <==> r.imported == w.imported + 1) && (!imported <==> r.failed == w.failed + 1)
              && r.imported + r.failed == w.imported + w.failed + 1
              && r.created == w.created + if created.Some? then [created.value] else []
    {
      var item := items[id];
      if item.normalizedUrl.None? {
        items := items[id := item.(status := Rejected, error := Some("missing_normalized_url"))];
        return false, None;
      }
      var url := item.normalizedUrl.value;
      match UpsertOf(feeds, url, normalize, hash)
      case Created =>
        items := items[id := item.(status := Imported, feedId := Some(|feeds|))];
        feeds := feeds + [Feed(url, Some(hash(url)))];
        return true, Some(|feeds| - 1);
      case Found(feedId) =>
        items := items[id := item.(status := Imported, feedId := Some(feedId))];
        return true, None;
      case Refused(error) =>
        items := items[id := item.(status := Rejected, error := Some(error))];
        return false, None;
    }

    /** The candidate loop; `stop` is the candidate at which a statement fails, if one does. */
    method ApplyCandidates(ids: seq<nat>, normalize: Normalizer, hash: Hash, stop: Option<nat>)
      returns (finished: bool, imported: nat, failed: nat, created: seq<nat>)
      requires Within(ids, |items|)
      modifies `items, `feeds
      ensures finished <==> stop.None? || stop.value >= |ids|
      ensures finished ==> Work(feeds, items, created, imported, failed) ==
                           ApplyItems(Work(old(feeds), old(items), [], 0, 0), ids, normalize, hash)
    {
      hide ApplyItem;
      imported, failed, created := 0, 0, [];
      ghost var start := Work(feeds, items, [], 0, 0);
      for k := 0 to |ids|
        invariant |items| == |start.items| && Within(ids[..k], |items|)
        invariant Work(feeds, items, created, imported, failed) == ApplyItems(start, ids[..k], normalize, hash)
        invariant stop.Some? ==> k <= stop.value
      {
        if stop == Some(k) {
          return false, imported, failed, created;
        }
        assert ids[..k + 1][..k] == ids[..k];
        ghost var w := Work(feeds, items, created, imported, failed);
        var ok, feedId := ApplyCandidate(ids[k], normalize, hash, w);
        if feedId.Some? {
          created := created + [feedId.value];
        }
        if ok {
          imported := imported + 1;
        } else {
          failed := failed + 1;
        }
      }
      assert ids[..|ids|] == ids;
      finished := true;
    }

    method Enqueue(created: seq<nat>, trouble: Trouble) returns (ok: bool)
      modifies `queued
      ensures ok <==> !StopsQueueing(trouble, |created|)
      ensures queued == old(queued) + if ok then created else created[..trouble.at]
    {
      for k := 0 to |created|
        invariant queued == old(queued) + created[..k]
        invariant trouble.QueueThrows? || trouble.DiesQueueing? ==> k <= trouble.at
      {
        if (trouble.QueueThrows? || trouble.DiesQueueing?) && trouble.at == k {
          return false;
        }
        queued := queued + [created[k]];
      }
      ok := true;
    }

    predicate Applicable() reads `status { status == Importing || status == PreviewReady }

    /**
      The apply job. `thrown` is the status assertion failing, which changes nothing; otherwise the
      job ends as `end` says, and only a commit changes items, feeds or the queue.
     */
    method ApplyJob(normalize: Normalizer, hash: Hash, trouble: Trouble) returns (thrown: bool, end: ApplyEnd)
      modifies this
      ensures thrown <==> old(status) in {Uploaded, Parsing, FailedValidation, Failed}
      ensures old(Applicable()) ==> end == EndOf(Applied(old(feeds), old(items), normalize, hash), trouble)
      ensures writes == old(writes) + Writes(old(status), Apply(end)) && status == Last(old(status), Writes(old(status), Apply(end)))
      ensures old(Applicable()) && end.Committed? ==>
                var w := Applied(old(feeds), old(items), normalize, hash);
                && items == w.items && feeds == w.feeds && counters == AppliedCounters(w.items, w.imported)
                && queued == old(queued) + QueuedOf(w, trouble)
      ensures old(Applicable()) && end.Committed? ==>
                && ItemsDecided(old(feeds), old(items), feeds, items, normalize, hash)
                && FeedsQueued(old(feeds), feeds, queued[|old(queued)|..], trouble)
                && CountsApplied(counters, items) && counters.imported == |Became(old(items), items, Imported)|
                && (end.allImported <==> Became(old(items), items, Rejected) == {})
                && (end.queueFailed <==> trouble.QueueThrows? && trouble.at < |feeds| - |old(feeds)|)
                && errorMessage == (if end.queueFailed then Some(trouble.message)
                                    else if end.allImported then old(errorMessage)
                                    else Some("partial_import_failure:" + Decimal(|Became(old(items), items, Rejected)|)))
                && status == if end.allImported && !end.queueFailed then Completed else Failed
      ensures !(old(Applicable()) && end.Committed?) ==>
                items == old(items) && feeds == old(feeds) && counters == old(counters) && queued == old(queued)
      ensures old(ErrorFits()) ==> ErrorFits()
    {
      hide ApplyItem, ApplyItems, NewIds, AppliedCounters, Applied, EndOf, QueuedOf, EndWrites;
      hide ItemsDecided, FeedsQueued, CountsApplied, Became, Decimal, Count;
      thrown, end := false, Died;
      WholeImport(feeds, items, normalize, hash, trouble);
      EndIs(Applied(feeds, items, normalize, hash), trouble);
      if status == Completed {
        return;
      }
      if status != Importing {
        if !CanTransition(status, Importing) {
          return true, Died;
        }
        MarkImportStatus(Importing, None, None);
      }
      end := ApplyImporting(normalize, hash, trouble);
    }

    method ApplyImporting(normalize: Normalizer, hash: Hash, trouble: Trouble) returns (end: ApplyEnd)
      requires status == Importing
      modifies this
      ensures end == EndOf(Applied(old(feeds), old(items), normalize, hash), trouble)
      ensures writes == old(writes) + EndWrites(end) && status == Last(Importing, EndWrites(end))
      ensures end.Committed? ==>
                var w := Applied(old(feeds), old(items), normalize, hash);
                && items == w.items && feeds == w.feeds && counters == AppliedCounters(w.items, w.imported)
                && queued == old(queued) + QueuedOf(w, trouble)
                && errorMessage == MessageAfter(old(errorMessage), end, w.failed, trouble)
      ensures end.RolledBack? ==> trouble.StatementFails? && errorMessage == Some(trouble.message)
      ensures end.Died? ==> errorMessage == old(errorMessage)
      ensures !end.Committed? ==> items == old(items) && feeds == old(feeds) && counters == old(counters) && queued == old(queued)
      ensures old(ErrorFits()) ==> ErrorFits()
    {
      hide ApplyItem, ApplyItems, NewIds, Applied, AppliedCounters, Decimal, Within, Count;
      if trouble.Dies? {
        return Died;
      }
      var beforeItems, beforeFeeds := items, feeds;
      var ids := ListNewCandidateItems();
      AppliedIs(feeds, items, normalize, hash);
      var finished, imported, failed, created := ApplyCandidates(ids, normalize, hash, if trouble.StatementFails? then Some(trouble.at) else None);
      if !finished || trouble.StatementFails? {
        items, feeds := beforeItems, beforeFeeds;
        MarkImportStatus(Failed, Some(trouble.message), None);
        return RolledBack;
      }
      MarkImportStatus(if failed > 0 then Failed else Completed,
                       if failed > 0 then Some("partial_import_failure:" + Decimal(failed)) else None,
                       Some(AppliedCounters(items, imported)));
      var ok := Enqueue(created, trouble);
      if !ok && trouble.QueueThrows? {
        MarkImportStatus(Failed, Some(trouble.message), None);
      }
      end := Committed(failed == 0, !ok && trouble.QueueThrows?);
    }
  }
}
