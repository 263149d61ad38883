/**
  OPML imports: status table, rows, and the parse, confirm and apply jobs. Each job runs atomically
  against the rows of one import and the feeds of its tenant; row ids are positions. The URL
  normalizer and the URL hash are parameters.
 */
module OpmlImports {
  import opened Common
  import Opml = OpmlTags

  // ---------------------------------------------------------------- status

  datatype Status = Uploaded | Parsing | PreviewReady | Importing | Completed | FailedValidation | Failed

  function Successors(s: Status): set<Status> {
    match s
    case Uploaded => {Parsing, FailedValidation}
    case Parsing => {PreviewReady, FailedValidation}
    case PreviewReady => {Importing, Failed}
    case Importing => {Completed, Failed}
    case _ => {}
  }

  predicate CanTransition(from: Status, to: Status) { from == to || to in Successors(from) }

  /** The pipeline an import that goes well runs through. */
  function Stage(s: Status): Option<nat> {
    match s
    case Uploaded => Some(0)
    case Parsing => Some(1)
    case PreviewReady => Some(2)
    case Importing => Some(3)
    case Completed => Some(4)
    case _ => None
  }

  /** A change of status is one stage forward, a failed validation before the preview, or a failure after it. */
  lemma TransitionsIff(s: Status, t: Status)
    requires s != t
    ensures CanTransition(s, t) <==>
            || (Stage(s).Some? && Stage(t) == Some(Stage(s).value + 1))
            || (t == FailedValidation && Stage(s).Some? && Stage(s).value < 2)
            || (t == Failed && Stage(s).Some? && 2 <= Stage(s).value < 4)
  {
  }

  predicate Terminal(s: Status) { Successors(s) == {} }

  /** The statuses nothing leads out of are those of an import that is over. */
  lemma TerminalIff(s: Status)
    ensures Terminal(s) <==> s in {Completed, Failed, FailedValidation}
  {
    assert s == Uploaded ==> Parsing in Successors(s);
    assert s == Parsing ==> PreviewReady in Successors(s);
    assert s == PreviewReady ==> Importing in Successors(s);
    assert s == Importing ==> Completed in Successors(s);
  }

  // ---------------------------------------------------------------- rows

  datatype ItemStatus = New | Existing | Duplicate | Invalid | Imported | Rejected

  datatype ImportItem = ImportItem(
    title: Option<string>, outlinePath: Option<string>, sourceXmlUrl: string,
    normalizedUrl: Option<string>, normalizedUrlHash: Option<string>,
    status: ItemStatus, error: Option<string>, feedId: Option<nat>)

  /** A feed of the tenant; feeds older than the hash column have none. */
  datatype Feed = Feed(url: string, hash: Option<string>)

  type Normalizer = string -> Result<string, string>
  type Hash = string -> string

  // ---------------------------------------------------------------- classification

  function HashOf(p: Opml.Item, normalize: Normalizer, hash: Hash): Option<string> {
    match normalize(p.sourceXmlUrl)
    case Ok(url) => Some(hash(url))
    case Err(_) => None
  }

  function Draft(p: Opml.Item, normalize: Normalizer, hash: Hash): ImportItem {
    match normalize(p.sourceXmlUrl)
    case Ok(url) => ImportItem(p.title, p.outlinePath, p.sourceXmlUrl, Some(url), Some(hash(url)), New, None, None)
    case Err(e) => ImportItem(p.title, p.outlinePath, p.sourceXmlUrl, None, None, Invalid, Some(e), None)
  }

  predicate SeenBefore(parsed: seq<Opml.Item>, i: nat, normalize: Normalizer, hash: Hash)
    requires i < |parsed|
  {
    exists j | 0 <= j < i :: HashOf(parsed[j], normalize, hash).Some? && HashOf(parsed[j], normalize, hash) == HashOf(parsed[i], normalize, hash)
  }

  /** Item `i` of the file by itself: a repeat of an earlier hash is a duplicate. */
  function DraftAt(parsed: seq<Opml.Item>, i: nat, normalize: Normalizer, hash: Hash): ImportItem
    requires i < |parsed|
  {
    var local := Draft(parsed[i], normalize, hash);
    if SeenBefore(parsed, i, normalize, hash) then local.(status := Duplicate, error := Some("duplicate_within_opml")) else local
  }

  method ClassifyLocally(parsed: seq<Opml.Item>, normalize: Normalizer, hash: Hash) returns (drafts: seq<ImportItem>)
    ensures |drafts| == |parsed|
    ensures forall i | 0 <= i < |parsed| :: drafts[i] == DraftAt(parsed, i, normalize, hash)
  {
    var seenHashes: set<string> := {};
    drafts := [];
    for i := 0 to |parsed|
      invariant |drafts| == i
      invariant forall j | 0 <= j < i :: drafts[j] == DraftAt(parsed, j, normalize, hash)
      invariant forall h :: h in seenHashes <==> exists j | 0 <= j < i :: HashOf(parsed[j], normalize, hash) == Some(h)
    {
      var local := Draft(parsed[i], normalize, hash);
      if local.status != New || local.normalizedUrlHash.None? {
        drafts := drafts + [local];
      } else if local.normalizedUrlHash.value in seenHashes {
        drafts := drafts + [local.(status := Duplicate, error := Some("duplicate_within_opml"))];
      } else {
        seenHashes := seenHashes + {local.normalizedUrlHash.value};
        drafts := drafts + [local];
      }
    }
  }

  /** The unique index on feed hashes within a tenant. */
  ghost predicate UniqueHashes(feeds: seq<Feed>) {
    forall i, j | 0 <= i < j < |feeds| && feeds[i].hash.Some? :: feeds[i].hash != feeds[j].hash
  }

  ghost predicate UniqueUrls(feeds: seq<Feed>) {
    forall i, j | 0 <= i < j < |feeds| :: feeds[i].url != feeds[j].url
  }

  function FeedWithHash(feeds: seq<Feed>, h: string): (f: Option<Feed>)
    ensures f.Some? ==> f.value in feeds && f.value.hash == Some(h)
    ensures f.None? ==> forall g | g in feeds :: g.hash != Some(h)
  {
    if feeds == [] then None
    else if feeds[0].hash == Some(h) then Some(feeds[0])
    else FeedWithHash(feeds[1..], h)
  }

  /** The feeds by their hash, as read back from the lookup query; rows without a hash answer no lookup. */
  method FindExistingFeedsByHash(feeds: seq<Feed>, hashes: set<string>, urls: set<string>) returns (existing: map<string, Feed>)
    requires UniqueHashes(feeds)
    ensures forall h | h in hashes :: FeedWithHash(feeds, h) == if h in existing then Some(existing[h]) else None
  {
    existing := map[];
    for i := 0 to |feeds|
      invariant forall h | h in existing :: existing[h] in feeds && existing[h].hash == Some(h)
      invariant forall j | 0 <= j < i && feeds[j].hash.Some? && feeds[j].hash.value in hashes :: feeds[j].hash.value in existing
    {
      var row := feeds[i];
      if (row.hash.Some? && row.hash.value in hashes) || row.url in urls {
        if row.hash.Some? {
          existing := existing[row.hash.value := row];
        }
      }
    }
  }

  const COLLISION: string := "normalized_hash_collision_detected"

  /** A draft once the feed stored under its hash is known; a stored URL that no longer normalizes fails the job. */
  function Resolve(draft: ImportItem, stored: Option<Feed>, normalize: Normalizer): Result<ImportItem, string> {
    if draft.status != New || draft.normalizedUrl.None? || draft.normalizedUrlHash.None? || stored.None? then Ok(draft)
    else
      match normalize(stored.value.url)
      case Err(e) => Err(e)
      case Ok(url) =>
        if url != draft.normalizedUrl.value
        then Ok(draft.(status := Invalid, error := Some(COLLISION), normalizedUrl := None, normalizedUrlHash := None))
        else Ok(draft.(status := Existing))
  }

  /** Item `i` of the file as previewed. */
  function ResolvedAt(parsed: seq<Opml.Item>, i: nat, feeds: seq<Feed>, normalize: Normalizer, hash: Hash): Result<ImportItem, string>
    requires i < |parsed|
  {
    var draft := DraftAt(parsed, i, normalize, hash);
    Resolve(draft, if draft.normalizedUrlHash.Some? then FeedWithHash(feeds, draft.normalizedUrlHash.value) else None, normalize)
  }

  /** `items` is the preview of the file. */
  ghost predicate Previews(parsed: seq<Opml.Item>, feeds: seq<Feed>, normalize: Normalizer, hash: Hash, items: seq<ImportItem>) {
    |items| == |parsed| && forall i | 0 <= i < |parsed| :: ResolvedAt(parsed, i, feeds, normalize, hash) == Ok(items[i])
  }

  lemma PreviewsByItem(parsed: seq<Opml.Item>, feeds: seq<Feed>, normalize: Normalizer, hash: Hash, items: seq<ImportItem>)
    requires |items| == |parsed| && forall i | 0 <= i < |parsed| :: ResolvedAt(parsed, i, feeds, normalize, hash) == Ok(items[i])
    ensures Previews(parsed, feeds, normalize, hash, items)
  {
  }

  lemma DraftShape(parsed: seq<Opml.Item>, i: nat, normalize: Normalizer, hash: Hash)
    requires i < |parsed|
    ensures DraftAt(parsed, i, normalize, hash).normalizedUrlHash.Some? ==> DraftAt(parsed, i, normalize, hash).normalizedUrl.Some?
  {
  }

  lemma ResolvedFrom(parsed: seq<Opml.Item>, i: nat, feeds: seq<Feed>, normalize: Normalizer, hash: Hash, stored: Option<Feed>)
    requires i < |parsed|
    requires var h := DraftAt(parsed, i, normalize, hash).normalizedUrlHash; stored == if h.Some? then FeedWithHash(feeds, h.value) else None
    ensures Resolve(DraftAt(parsed, i, normalize, hash), stored, normalize) == ResolvedAt(parsed, i, feeds, normalize, hash)
  {
  }

  // ---------------------------------------------------------------- a preview, item by item

  /** An earlier item of the file has the hash `h`. */
  predicate HashStandsBefore(parsed: seq<Opml.Item>, i: nat, h: string, normalize: Normalizer, hash: Hash)
    requires i <= |parsed|
  {
    exists j | 0 <= j < i :: normalize(parsed[j].sourceXmlUrl).Ok? && hash(normalize(parsed[j].sourceXmlUrl).value) == h
  }

  /**
    The preview of one item from the file, the stored feeds, the normalizer and the hash alone. The
    first item of a hash is existing when the feed stored under it has its URL, invalid when that
    feed has another, and new when no feed is stored under it.
   */
  ghost predicate ItemPreviewed(parsed: seq<Opml.Item>, i: nat, feeds: seq<Feed>, normalize: Normalizer, hash: Hash, item: ImportItem)
    requires i < |parsed|
  {
    var p := parsed[i];
    && item.title == p.title && item.outlinePath == p.outlinePath && item.sourceXmlUrl == p.sourceXmlUrl && item.feedId == None
    && match normalize(p.sourceXmlUrl)
       case Err(e) => item.status == Invalid && item.error == Some(e) && item.normalizedUrl == None && item.normalizedUrlHash == None
       case Ok(url) =>
         if HashStandsBefore(parsed, i, hash(url), normalize, hash) then
           && item.status == Duplicate && item.error == Some("duplicate_within_opml")
           && item.normalizedUrl == Some(url) && item.normalizedUrlHash == Some(hash(url))
         else
           && ((forall f | f in feeds :: f.hash != Some(hash(url))) ==>
                 item.status == New && item.error == None && item.normalizedUrl == Some(url) && item.normalizedUrlHash == Some(hash(url)))
           && (forall f | f in feeds && f.hash == Some(hash(url)) ::
                 && normalize(f.url).Ok?
                 && if normalize(f.url).value == url
                    then item.status == Existing && item.error == None &&
                         item.normalizedUrl == Some(url) && item.normalizedUrlHash == Some(hash(url))
                    else item.status == Invalid && item.error == Some("normalized_hash_collision_detected") &&
                         item.normalizedUrl == None && item.normalizedUrlHash == None)
  }

  /** The first item of its hash, but the URL of the feed stored under that hash no longer normalizes. */
  ghost predicate StoredUrlFails(parsed: seq<Opml.Item>, i: nat, feeds: seq<Feed>, normalize: Normalizer, hash: Hash, error: string) {
    && i < |parsed| && normalize(parsed[i].sourceXmlUrl).Ok?
    && var h := hash(normalize(parsed[i].sourceXmlUrl).value);
       && !HashStandsBefore(parsed, i, h, normalize, hash)
       && exists f :: f in feeds && f.hash == Some(h) && normalize(f.url) == Err(error)
  }

  lemma SeenIff(parsed: seq<Opml.Item>, i: nat, normalize: Normalizer, hash: Hash)
    requires i < |parsed| && normalize(parsed[i].sourceXmlUrl).Ok?
    ensures SeenBefore(parsed, i, normalize, hash) <==>
            HashStandsBefore(parsed, i, hash(normalize(parsed[i].sourceXmlUrl).value), normalize, hash)
  {
  }

  lemma OnlyStored(feeds: seq<Feed>, h: string, f: Feed)
    requires UniqueHashes(feeds) && f in feeds && f.hash == Some(h)
    ensures FeedWithHash(feeds, h) == Some(f)
  {
  }

  lemma ItemIsPreviewed(parsed: seq<Opml.Item>, i: nat, feeds: seq<Feed>, normalize: Normalizer, hash: Hash)
    requires UniqueHashes(feeds) && i < |parsed|
    ensures match ResolvedAt(parsed, i, feeds, normalize, hash)
            case Ok(item) => ItemPreviewed(parsed, i, feeds, normalize, hash, item)
            case Err(e) => StoredUrlFails(parsed, i, feeds, normalize, hash, e)
  {
    hide FeedWithHash, UniqueHashes, SeenBefore, HashStandsBefore;
    match normalize(parsed[i].sourceXmlUrl)
    case Err(_) =>
      assert !SeenBefore(parsed, i, normalize, hash) by { NeverSeen(parsed, i, normalize, hash); }
    case Ok(url) =>
      SeenIff(parsed, i, normalize, hash);
      forall f | f in feeds && f.hash == Some(hash(url)) ensures FeedWithHash(feeds, hash(url)) == Some(f) {
        OnlyStored(feeds, hash(url), f);
      }
  }

  lemma NeverSeen(parsed: seq<Opml.Item>, i: nat, normalize: Normalizer, hash: Hash)
    requires i < |parsed| && normalize(parsed[i].sourceXmlUrl).Err?
    ensures !SeenBefore(parsed, i, normalize, hash)
  {
  }

  /** Every item of a preview is what the file and the stored feeds make it. */
  lemma PreviewByItem(parsed: seq<Opml.Item>, feeds: seq<Feed>, normalize: Normalizer, hash: Hash, items: seq<ImportItem>)
    requires UniqueHashes(feeds) && Previews(parsed, feeds, normalize, hash, items)
    ensures forall i | 0 <= i < |items| :: ItemPreviewed(parsed, i, feeds, normalize, hash, items[i])
  {
    hide ItemPreviewed, ResolvedAt;
    forall i | 0 <= i < |items| ensures ItemPreviewed(parsed, i, feeds, normalize, hash, items[i]) {
      ItemIsPreviewed(parsed, i, feeds, normalize, hash);
    }
  }

  method ResolveAll(parsed: seq<Opml.Item>, feeds: seq<Feed>, normalize: Normalizer, hash: Hash) returns (r: Result<seq<ImportItem>, string>)
    requires UniqueHashes(feeds)
    ensures r.Ok? ==> Previews(parsed, feeds, normalize, hash, r.value)
    ensures r.Ok? ==> |r.value| == |parsed|
    ensures r.Ok? ==> forall i | 0 <= i < |r.value| :: ItemPreviewed(parsed, i, feeds, normalize, hash, r.value[i])
    ensures r.Err? ==> exists i: nat :: StoredUrlFails(parsed, i, feeds, normalize, hash, r.error)
  {
    hide *;
    var drafts := ClassifyLocally(parsed, normalize, hash);
    var hashes := set d | d in drafts && d.normalizedUrlHash.Some? && d.normalizedUrl.Some? :: d.normalizedUrlHash.value;
    var urls := set d | d in drafts && d.normalizedUrlHash.Some? && d.normalizedUrl.Some? :: d.normalizedUrl.value;
    var existing := FindExistingFeedsByHash(feeds, hashes, urls);
    var items := [];
    for i := 0 to |drafts|
      invariant |items| == i
      invariant forall j | 0 <= j < i :: ResolvedAt(parsed, j, feeds, normalize, hash) == Ok(items[j])
    {
      var draft := drafts[i];
      assert draft in drafts;
      DraftShape(parsed, i, normalize, hash);
      var h := draft.normalizedUrlHash;
      var stored := if h.Some? && h.value in existing then Some(existing[h.value]) else None;
      var item := Resolve(draft, stored, normalize);
      ResolvedFrom(parsed, i, feeds, normalize, hash, stored);
      if item.Err? {
        ItemIsPreviewed(parsed, i, feeds, normalize, hash);
        return Err(item.error);
      }
      items := items + [item.value];
    }
    r := Ok(items);
    PreviewsByItem(parsed, feeds, normalize, hash, items);
    PreviewByItem(parsed, feeds, normalize, hash, items);
  }

  // ---------------------------------------------------------------- what a preview satisfies

  /** `opml_import_items_normalized_url_required`. */
  predicate UrlPresent(item: ImportItem) {
    item.status == Invalid || (item.normalizedUrl.Some? && item.normalizedUrlHash.Some?)
  }

  /** Two rows the partial unique index keeps apart. */
  predicate Clash(a: ImportItem, b: ImportItem) {
    a.status != Duplicate && b.status != Duplicate && a.normalizedUrlHash.Some? && a.normalizedUrlHash == b.normalizedUrlHash
  }

  ghost predicate Insertable(items: seq<ImportItem>) {
    && (forall i | 0 <= i < |items| :: UrlPresent(items[i]))
    && (forall i, j | 0 <= i < j < |items| :: !Clash(items[i], items[j]))
  }

  lemma ResolvedShape(parsed: seq<Opml.Item>, i: nat, feeds: seq<Feed>, normalize: Normalizer, hash: Hash, item: ImportItem)
    requires i < |parsed| && ResolvedAt(parsed, i, feeds, normalize, hash) == Ok(item)
    ensures item.status in {New, Existing, Duplicate, Invalid} && UrlPresent(item)
    ensures item.status != Invalid ==> item.normalizedUrlHash == HashOf(parsed[i], normalize, hash)
    ensures item.status == Invalid ==> item.normalizedUrlHash == None
    ensures item.status == Duplicate <==> SeenBefore(parsed, i, normalize, hash) && HashOf(parsed[i], normalize, hash).Some?
  {
  }

  /** A preview can always be stored: its rows pass the check and its non-duplicate hashes are pairwise distinct. */
  lemma PreviewIsInsertable(parsed: seq<Opml.Item>, feeds: seq<Feed>, normalize: Normalizer, hash: Hash, items: seq<ImportItem>)
    requires Previews(parsed, feeds, normalize, hash, items)
    ensures Insertable(items)
  {
    forall i | 0 <= i < |items| ensures UrlPresent(items[i]) {
      ResolvedShape(parsed, i, feeds, normalize, hash, items[i]);
    }
    forall i, j | 0 <= i < j < |items| ensures !Clash(items[i], items[j]) {
      ResolvedShape(parsed, i, feeds, normalize, hash, items[i]);
      ResolvedShape(parsed, j, feeds, normalize, hash, items[j]);
    }
  }

  function Count(items: seq<ImportItem>, s: ItemStatus): (n: nat)
    ensures n <= |items|
  {
    if items == [] then 0 else Count(items[..|items| - 1], s) + if items[|items| - 1].status == s then 1 else 0
  }

  /** The counters of a preview add up: nothing is counted twice and nothing is lost. */
  lemma {:induction false} CountersAddUp(items: seq<ImportItem>)
    ensures |items| == Count(items, New) + Count(items, Existing) + Count(items, Duplicate) + Count(items, Invalid) +
                       Count(items, Imported) + Count(items, Rejected)
  {
    if items != [] {
      CountersAddUp(items[..|items| - 1]);
    }
  }

  lemma {:induction false} CountZero(items: seq<ImportItem>, s: ItemStatus)
    ensures Count(items, s) == 0 <==> forall i | 0 <= i < |items| :: items[i].status != s
  {
    if items != [] {
      CountZero(items[..|items| - 1], s);
    }
  }

  lemma PreviewCountersAddUp(parsed: seq<Opml.Item>, feeds: seq<Feed>, normalize: Normalizer, hash: Hash, items: seq<ImportItem>)
    requires Previews(parsed, feeds, normalize, hash, items)
    ensures |items| == Count(items, New) + Count(items, Existing) + Count(items, Duplicate) + Count(items, Invalid)
  {
    forall i | 0 <= i < |items| ensures items[i].status != Imported && items[i].status != Rejected {
      ResolvedShape(parsed, i, feeds, normalize, hash, items[i]);
    }
    CountersAddUp(items);
    CountZero(items, Imported);
    CountZero(items, Rejected);
  }

  /** Every hash of the file has exactly one non-duplicate item, its first, unless that one collides with a stored feed. */
  lemma FirstOfEachHashStays(parsed: seq<Opml.Item>, feeds: seq<Feed>, normalize: Normalizer, hash: Hash, items: seq<ImportItem>, i: nat)
    requires Previews(parsed, feeds, normalize, hash, items) && i < |items| && items[i].status == Duplicate
    ensures exists j | 0 <= j < i :: HashOf(parsed[j], normalize, hash) == items[i].normalizedUrlHash && items[j].status != Duplicate &&
                                     (items[j].status == Invalid ==> items[j].error == Some(COLLISION))
    decreases i
  {
    ResolvedShape(parsed, i, feeds, normalize, hash, items[i]);
    var j :| 0 <= j < i && HashOf(parsed[j], normalize, hash).Some? && HashOf(parsed[j], normalize, hash) == HashOf(parsed[i], normalize, hash);
    ResolvedShape(parsed, j, feeds, normalize, hash, items[j]);
    if items[j].status == Duplicate {
      FirstOfEachHashStays(parsed, feeds, normalize, hash, items, j);
    }
  }
}
