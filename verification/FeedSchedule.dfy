/**
  One scheduler tick: claim due feeds, then enqueue one fetch job per claimed feed.
 */
module FeedSchedule {
  import opened Common
  import opened FeedClaims

  datatype Source = Scheduler | Manual(stamp: nat)

  datatype FetchJob = FetchJob(feedId: int, source: Source)

  /** `feed-<id>`, or a stamped id for a manual check. */
  function BuildJobId(job: FetchJob): string {
    match job.source
    case Scheduler => "feed-" + Decimal(job.feedId)
    case Manual(stamp) => "feed-" + Decimal(job.feedId) + "-manual-" + Decimal(stamp)
  }

  /** Scheduler job ids identify their feed, and no manual check can occupy one. */
  lemma JobIdsIdentifyFeeds(a: int, job: FetchJob)
    ensures BuildJobId(FetchJob(a, Scheduler)) == BuildJobId(job) <==> job == FetchJob(a, Scheduler)
  {
    var x, y := BuildJobId(FetchJob(a, Scheduler)), BuildJobId(job);
    DecimalChars(a);
    assert x[5..] == Decimal(a) && 'm' !in x[5..];
    if job.source.Manual? {
      assert y[5 + |Decimal(job.feedId)| + 1] == 'm';
      assert 'm' in y[5..];
    } else {
      assert y[5..] == Decimal(job.feedId);
      if x == y { DecimalInjective(a, job.feedId); }
    }
  }

  class FetchFeedQueue {
    var jobs: map<string, FetchJob>

    constructor ()
      ensures jobs == map[]
    {
      jobs := map[];
    }

    /** A scheduler job whose id is taken is dropped, whatever state the retained job is in. */
    method Enqueue(job: FetchJob) returns (jobId: string, deduplicated: bool)
      modifies this
      ensures jobId == BuildJobId(job)
      ensures deduplicated <==> job.source.Scheduler? && jobId in old(jobs)
      ensures jobs == if jobId in old(jobs) then old(jobs) else old(jobs)[jobId := job]
    {
      jobId := BuildJobId(job);
      if !job.source.Manual? && jobId in jobs {
        return jobId, true;
      }
      if jobId !in jobs {
        jobs := jobs[jobId := job];
      }
      deduplicated := false;
    }
  }

  /** The claimed feeds whose job id was already taken. */
  function Taken(jobs: map<string, FetchJob>, claimed: seq<int>): set<int>
  {
    set id | id in claimed && BuildJobId(FetchJob(id, Scheduler)) in jobs
  }

  /**
    Every claimed feed ends up with exactly one job under its own id; the tick reports those it
    added as `scheduled` and those whose id was taken before as `deduplicated`.
   */
  method ScheduleDueFeeds(
    repo: FeedsRepository, queue: FetchFeedQueue, batchSize: int, now: int, locked: set<int>, jitter: map<int, nat>
  ) returns (r: Result<(nat, nat), ClaimError>, ghost claimed: seq<int>)
    requires forall id | id in repo.feeds :: id in jitter && jitter[id] <= MaxJitter(repo.feeds[id].pollInterval)
    modifies repo, queue
    ensures r.Err? <==> batchSize <= 0
    ensures r.Err? ==> queue.jobs == old(queue.jobs) && repo.feeds == old(repo.feeds)
    ensures r.Ok? ==> FairBatch(old(repo.feeds), locked, now, batchSize, claimed)
    ensures r.Ok? ==> r.value.0 + r.value.1 == |claimed| && r.value.1 == |Taken(old(queue.jobs), claimed)|
    ensures r.Ok? ==> queue.jobs.Keys == old(queue.jobs).Keys + (set id | id in claimed :: BuildJobId(FetchJob(id, Scheduler)))
    ensures r.Ok? ==> forall j | j in old(queue.jobs) :: queue.jobs[j] == old(queue.jobs)[j]
    ensures r.Ok? ==> forall id | id in claimed && BuildJobId(FetchJob(id, Scheduler)) !in old(queue.jobs) ::
              queue.jobs[BuildJobId(FetchJob(id, Scheduler))] == FetchJob(id, Scheduler)
  {
    var batch := repo.ClaimDueFeeds(batchSize, now, locked, jitter);
    if batch.Err? {
      claimed := [];
      return Err(batch.error), claimed;
    }
    var feeds := batch.value;
    claimed := feeds;
    var deduplicated := EnqueueAll(queue, feeds);
    assert |Taken(old(queue.jobs), feeds)| <= |feeds| by {
      DistinctCount(feeds);
      SubsetSize(Taken(old(queue.jobs), feeds), Elems(feeds));
    }
    r := Ok((|feeds| - deduplicated, deduplicated));
  }

  lemma SubsetSize(a: set<int>, b: set<int>)
    requires a <= b
    ensures |a| <= |b|
  {
    assert b == a + (b - a);
  }

  method EnqueueAll(queue: FetchFeedQueue, feeds: seq<int>) returns (deduplicated: nat)
    requires Distinct(feeds)
    modifies queue
    ensures deduplicated == |Taken(old(queue.jobs), feeds)|
    ensures queue.jobs.Keys == old(queue.jobs).Keys + (set id | id in feeds :: BuildJobId(FetchJob(id, Scheduler)))
    ensures forall j | j in old(queue.jobs) :: queue.jobs[j] == old(queue.jobs)[j]
    ensures forall id | id in feeds && BuildJobId(FetchJob(id, Scheduler)) !in old(queue.jobs) ::
              queue.jobs[BuildJobId(FetchJob(id, Scheduler))] == FetchJob(id, Scheduler)
  {
    deduplicated := 0;
    ghost var before := queue.jobs;
    for i := 0 to |feeds|
      invariant deduplicated == |Taken(before, feeds[..i])|
      invariant queue.jobs.Keys == before.Keys + (set id | id in feeds[..i] :: BuildJobId(FetchJob(id, Scheduler)))
      invariant forall j | j in before :: j in queue.jobs && queue.jobs[j] == before[j]
      invariant OwnJobs(before, queue.jobs, feeds[..i])
    {
      var job := FetchJob(feeds[i], Scheduler);
      OwnJobId(before, queue.jobs, feeds, i);
      TakenStep(before, feeds, i);
      assert feeds[..i + 1] == feeds[..i] + [feeds[i]];
      OwnJobsStep(before, queue.jobs, feeds[..i], feeds[i]);
      var _, dedup := queue.Enqueue(job);
      if dedup {
        deduplicated := deduplicated + 1;
      }
    }
    assert feeds[..|feeds|] == feeds;
  }

  /** The jobs added since `before` are those of their feeds. */
  ghost predicate OwnJobs(before: map<string, FetchJob>, jobs: map<string, FetchJob>, feeds: seq<int>) {
    forall id | id in feeds && BuildJobId(FetchJob(id, Scheduler)) !in before ::
      BuildJobId(FetchJob(id, Scheduler)) in jobs && jobs[BuildJobId(FetchJob(id, Scheduler))] == FetchJob(id, Scheduler)
  }

  lemma OwnJobsStep(before: map<string, FetchJob>, jobs: map<string, FetchJob>, feeds: seq<int>, id: int)
    requires OwnJobs(before, jobs, feeds)
    ensures OwnJobs(before, jobs[BuildJobId(FetchJob(id, Scheduler)) := FetchJob(id, Scheduler)], feeds + [id])
    ensures BuildJobId(FetchJob(id, Scheduler)) in before ==> OwnJobs(before, jobs, feeds + [id])
  {
    hide BuildJobId;
    forall other | other in feeds && BuildJobId(FetchJob(other, Scheduler)) == BuildJobId(FetchJob(id, Scheduler)) ensures other == id {
      JobIdsIdentifyFeeds(id, FetchJob(other, Scheduler));
    }
  }

  /** Earlier enqueues of the tick cannot have taken the id of a later feed. */
  lemma OwnJobId(before: map<string, FetchJob>, jobs: map<string, FetchJob>, feeds: seq<int>, i: nat)
    requires i < |feeds| && Distinct(feeds)
    requires jobs.Keys == before.Keys + (set id | id in feeds[..i] :: BuildJobId(FetchJob(id, Scheduler)))
    ensures BuildJobId(FetchJob(feeds[i], Scheduler)) in jobs <==> BuildJobId(FetchJob(feeds[i], Scheduler)) in before
  {
    var key := BuildJobId(FetchJob(feeds[i], Scheduler));
    forall id | id in feeds[..i] ensures BuildJobId(FetchJob(id, Scheduler)) != key {
      var j :| 0 <= j < i && feeds[j] == id;
      JobIdsIdentifyFeeds(feeds[i], FetchJob(id, Scheduler));
    }
  }

  lemma TakenStep(jobs: map<string, FetchJob>, feeds: seq<int>, i: nat)
    requires i < |feeds| && Distinct(feeds)
    ensures |Taken(jobs, feeds[..i + 1])| ==
            |Taken(jobs, feeds[..i])| + if BuildJobId(FetchJob(feeds[i], Scheduler)) in jobs then 1 else 0
  {
    var added: set<int> := if BuildJobId(FetchJob(feeds[i], Scheduler)) in jobs then {feeds[i]} else {};
    assert feeds[..i + 1] == feeds[..i] + [feeds[i]];
    assert Taken(jobs, feeds[..i + 1]) == Taken(jobs, feeds[..i]) + added;
    assert feeds[i] !in feeds[..i];
  }
}
