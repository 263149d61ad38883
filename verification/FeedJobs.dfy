/**
  One feed's claim and the job under its id `feed-<id>`: what becomes of a claim whose enqueue finds
  the id taken. A failed job is retained under the id and reports no more.
 */
module FeedJobs {
  import opened Common

  datatype Phase = Waiting | Running | Retained

  /** Jobs are numbered as they are added. */
  datatype Job = Job(number: nat, phase: Phase)

  /** What the queue does with a job that has reported. */
  datatype Fate = Removed | Retried | KeptFailed

  /** `claim` is the number of the claim the feed carries; `pending` are the claims whose enqueue is still to run. */
  datatype State = State(claim: Option<nat>, claims: nat, pending: set<nat>, job: Option<Job>, jobs: nat)

  datatype Step =
    | Claim
    | Enqueue(claim: nat)
    | Start
    | Report(fate: Fate)     // `updateAfterFetch`, then the queue's verdict on the job
    | Stall(kept: bool)      // the worker is lost; the job waits again, or is kept as failed
    | Evict                  // the queue drops an old failed job
    | Sweep                  // the claim passed the threshold

  predicate Runs(s: State) { s.job.Some? && s.job.value.phase == Running }

  /** One step; one that makes no sense changes nothing. */
  function Exec(s: State, step: Step): State {
    match step
    case Claim =>
      if s.claim.Some? then s else s.(claim := Some(s.claims), claims := s.claims + 1, pending := s.pending + {s.claims})
    case Enqueue(n) =>
      if n !in s.pending then s
      else if s.job.Some? then s.(pending := s.pending - {n})
      else s.(pending := s.pending - {n}, job := Some(Job(s.jobs, Waiting)), jobs := s.jobs + 1)
    case Start => if s.job.Some? && s.job.value.phase == Waiting then s.(job := Some(s.job.value.(phase := Running))) else s
    case Report(fate) =>
      if !Runs(s) then s
      else
        s.(claim := None,
           job := match fate
                  case Removed => None
                  case Retried => Some(s.job.value.(phase := Waiting))
                  case KeptFailed => Some(s.job.value.(phase := Retained)))
    case Stall(kept) => if !Runs(s) then s else s.(job := Some(s.job.value.(phase := if kept then Retained else Waiting)))
    case Evict => if s.job.Some? && s.job.value.phase == Retained then s.(job := None) else s
    case Sweep => s.(claim := None)
  }

  function Run(s: State, steps: seq<Step>): State {
    if steps == [] then s else Exec(Run(s, steps[..|steps| - 1]), steps[|steps| - 1])
  }

  /** A job leaves its id only by reporting for good or, once it has failed, by eviction: a lost worker never loses it. */
  lemma JobIsLostOnlyBy(s: State, step: Step)
    requires s.job.Some?
    ensures var t := Exec(s, step);
            && (t.job.None? <==> (step == Report(Removed) && Runs(s)) || (step == Evict && s.job.value.phase == Retained))
            && (t.job.Some? ==> t.job.value.number == s.job.value.number)
  {
  }

  /** The enqueue of claim `n`, the only one outstanding, finds job `j` under the id. */
  predicate Deduplicates(s: State, n: nat, j: nat) {
    s.claim == Some(n) && s.pending == {n} && s.job.Some? && s.job.value.number == j
  }

  /** Claim `n` stands, nobody is about to add a job for it, and only job `j` can report. */
  predicate Stranded(s: State, n: nat, j: nat) {
    s.claim == Some(n) && s.pending == {} && (s.job.Some? ==> s.job.value.number == j)
  }

  /** And not even that one, for it failed. */
  predicate StrandedOnFailed(s: State, n: nat, j: nat) {
    Stranded(s, n, j) && (s.job.Some? ==> s.job.value.phase == Retained)
  }

  predicate EndsByReportOf(s: State, step: Step, j: nat) { step.Report? && Runs(s) && s.job.value.number == j }

  lemma StrandedStep(s: State, step: Step, n: nat, j: nat)
    requires Stranded(s, n, j)
    ensures Stranded(Exec(s, step), n, j) <==> !EndsByReportOf(s, step, j) && !step.Sweep?
    ensures StrandedOnFailed(s, n, j) ==> !EndsByReportOf(s, step, j)
    ensures StrandedOnFailed(s, n, j) && !step.Sweep? ==> StrandedOnFailed(Exec(s, step), n, j)
  {
  }

  /** The first `m` steps leave the claim stranded, and the next is a report of job `j` or a sweep. */
  ghost predicate EndsAt(s: State, steps: seq<Step>, n: nat, j: nat, m: nat) {
    && m < |steps| && Stranded(Run(s, steps[..m]), n, j)
    && (EndsByReportOf(Run(s, steps[..m]), steps[m], j) || steps[m].Sweep?)
  }

  lemma EndStays(s: State, steps: seq<Step>, step: Step, n: nat, j: nat, m: nat)
    requires EndsAt(s, steps, n, j, m)
    ensures EndsAt(s, steps + [step], n, j, m)
  {
    hide Run, Stranded, EndsByReportOf;
    assert (steps + [step])[..m] == steps[..m];
  }

  lemma EndsNow(s: State, steps: seq<Step>, step: Step, n: nat, j: nat)
    requires Stranded(Run(s, steps), n, j) && (EndsByReportOf(Run(s, steps), step, j) || step.Sweep?)
    ensures EndsAt(s, steps + [step], n, j, |steps|)
  {
    hide Run, Stranded, EndsByReportOf;
    assert (steps + [step])[..|steps|] == steps;
  }

  lemma {:induction false} StrandedUntilEnd(s: State, steps: seq<Step>, n: nat, j: nat)
    requires Stranded(s, n, j)
    ensures Stranded(Run(s, steps), n, j) || exists m: nat :: EndsAt(s, steps, n, j, m)
    ensures StrandedOnFailed(s, n, j) ==> StrandedOnFailed(Run(s, steps), n, j) || Sweep in steps
  {
    if steps != [] {
      hide Exec, Stranded, StrandedOnFailed, EndsAt, EndsByReportOf;
      var most, step := steps[..|steps| - 1], steps[|steps| - 1];
      assert steps == most + [step];
      StrandedUntilEnd(s, most, n, j);
      if Stranded(Run(s, most), n, j) {
        StrandedStep(Run(s, most), step, n, j);
        if EndsByReportOf(Run(s, most), step, j) || step.Sweep? {
          EndsNow(s, most, step, n, j);
        }
      } else {
        var m: nat :| EndsAt(s, most, n, j, m);
        EndStays(s, most, step, n, j, m);
      }
      FailedIsStranded(Run(s, most), n, j);
    }
  }

  lemma FailedIsStranded(s: State, n: nat, j: nat)
    ensures StrandedOnFailed(s, n, j) ==> Stranded(s, n, j)
  {
  }

  /**
    A claim whose enqueue is deduplicated lasts until the job that was there reports or a sweep takes
    it; against a retained failed job, until a sweep takes it.
   */
  lemma DeduplicatedClaimEnds(s: State, n: nat, j: nat, steps: seq<Step>)
    requires Deduplicates(s, n, j)
    ensures var t := Exec(s, Enqueue(n));
            && (Run(t, steps).claim == Some(n) || exists m: nat :: EndsAt(t, steps, n, j, m))
            && (s.job.value.phase == Retained ==> Run(t, steps).claim == Some(n) || Sweep in steps)
  {
    StrandedUntilEnd(Exec(s, Enqueue(n)), steps, n, j);
    hide EndsAt, Run;
  }

  /** The order in which a claim meets the retained job of an earlier, failed fetch. */
  lemma FailedJobStrandsNextClaim() returns (s: State)
    ensures s == Run(State(None, 0, {}, None, 0), [Claim, Enqueue(0), Start, Report(KeptFailed), Claim])
    ensures Deduplicates(s, 1, 0) && s.job.value.phase == Retained
  {
    var start := State(None, 0, {}, None, 0);
    var steps := [Claim, Enqueue(0), Start, Report(KeptFailed), Claim];
    assert steps[..4] == [Claim, Enqueue(0), Start, Report(KeptFailed)];
    assert steps[..4][..3] == [Claim, Enqueue(0), Start] && [Claim, Enqueue(0), Start][..2] == [Claim, Enqueue(0)];
    assert [Claim, Enqueue(0)][..1] == [Claim] && [Claim][..0] == [];
    assert Run(start, [Claim]) == State(Some(0), 1, {0}, None, 0);
    assert Run(start, [Claim, Enqueue(0)]) == State(Some(0), 1, {}, Some(Job(0, Waiting)), 1);
    assert Run(start, [Claim, Enqueue(0), Start]) == State(Some(0), 1, {}, Some(Job(0, Running)), 1);
    assert Run(start, steps[..4]) == State(None, 1, {}, Some(Job(0, Retained)), 1);
    s := Run(start, steps);
  }
}
