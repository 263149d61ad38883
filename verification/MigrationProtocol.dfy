/**
  Several migration processes over one `schema_migrations` table. Each process works through its
  own files, one transaction a file; a step that is blocked or makes no sense changes nothing. A
  process may also run without holding the advisory lock, and any process may die at any point.
 */
module MigrationProtocol {
  import opened Common
  import opened Migrations

  datatype Phase =
    | Waiting       // has not got the advisory lock yet
    | Between       // holds no transaction; looks at files[next] next
    | Claimed       // its INSERT returned a row, not committed
    | Executed      // and the file's SQL ran, not committed
    | Conflicted    // its INSERT returned no row
    | Backfilling   // and the row it then read had no checksum
    | Done
    | Failed        // an error was thrown, or the process died

  datatype Proc = Proc(files: seq<File>, next: nat, phase: Phase, applied: seq<string>)

  /** The SQL of file `index` of process `pid` took effect. */
  datatype Effect = Effect(pid: int, index: nat, version: string)

  datatype Sys = Sys(table: Table, procs: map<int, Proc>, effects: seq<Effect>, lock: Option<int>)

  datatype Step =
    | Start(pid: int, files: seq<File>)
    | TryLock(pid: int)
    | Bypass(pid: int)
    | Insert(pid: int)
    | RunSql(pid: int)
    | Commit(pid: int)
    | Inspect(pid: int)
    | Backfill(pid: int)
    | Finish(pid: int)
    | Crash(pid: int)

  /** An uncommitted row of `v` makes every other INSERT of `v` wait. */
  predicate Holds(proc: Proc, v: string) {
    (proc.phase == Claimed || proc.phase == Executed) && proc.next < |proc.files| && proc.files[proc.next].version == v
  }

  predicate Blocked(s: Sys, pid: int, v: string) {
    exists q | q in s.procs :: q != pid && Holds(s.procs[q], v)
  }

  function Unlocked(lock: Option<int>, pid: int): Option<int> {
    if lock == Some(pid) then None else lock
  }

  /** The process is gone with its session: an open transaction is rolled back, its lock is free. */
  function Ended(s: Sys, pid: int, phase: Phase): Sys
    requires pid in s.procs
  {
    s.(procs := s.procs[pid := s.procs[pid].(phase := phase)], lock := Unlocked(s.lock, pid))
  }

  function Moved(s: Sys, pid: int, proc: Proc): Sys {
    s.(procs := s.procs[pid := proc])
  }

  predicate At(s: Sys, pid: int, phase: Phase) {
    pid in s.procs && s.procs[pid].phase == phase && s.procs[pid].next < |s.procs[pid].files|
  }

  function Exec(s: Sys, step: Step): Sys {
    match step
    case Start(pid, files) =>
      if pid in s.procs || exists i, j :: 0 <= i < j < |files| && files[i].version == files[j].version then s
      else Moved(s, pid, Proc(files, 0, Waiting, []))
    case TryLock(pid) =>
      if pid in s.procs && s.procs[pid].phase == Waiting && s.lock == None
      then Moved(s.(lock := Some(pid)), pid, s.procs[pid].(phase := Between)) else s
    case Bypass(pid) =>
      if pid in s.procs && s.procs[pid].phase == Waiting
      then Moved(s, pid, s.procs[pid].(phase := Between)) else s
    case Insert(pid) =>
      if !At(s, pid, Between) then s
      else
        var proc := s.procs[pid];
        var v := proc.files[proc.next].version;
        if Blocked(s, pid, v) then s
        else Moved(s, pid, proc.(phase := if v in s.table then Conflicted else Claimed))
    case RunSql(pid) =>
      if !At(s, pid, Claimed) then s
      else if s.procs[pid].files[s.procs[pid].next].works then Moved(s, pid, s.procs[pid].(phase := Executed))
      else Ended(s, pid, Failed)
    case Commit(pid) =>
      if !At(s, pid, Executed) then s
      else
        var proc := s.procs[pid];
        var f := proc.files[proc.next];
        Moved(s.(table := s.table[f.version := Some(f.checksum)], effects := s.effects + [Effect(pid, proc.next, f.version)]),
              pid, proc.(phase := Between, next := proc.next + 1, applied := proc.applied + [f.version]))
    case Inspect(pid) =>
      if !At(s, pid, Conflicted) then s
      else
        var proc := s.procs[pid];
        var f := proc.files[proc.next];
        if Mismatched(s.table, f) then Ended(s, pid, Failed)
        else if f.version in s.table && s.table[f.version].Some? then Moved(s, pid, proc.(phase := Between, next := proc.next + 1))
        else Moved(s, pid, proc.(phase := Backfilling))
    case Backfill(pid) =>
      if !At(s, pid, Backfilling) then s
      else
        var proc := s.procs[pid];
        var f := proc.files[proc.next];
        Moved(s.(table := if f.version in s.table then Record(s.table, f) else s.table),
              pid, proc.(phase := Between, next := proc.next + 1))
    case Finish(pid) =>
      if pid in s.procs && s.procs[pid].phase == Between && s.procs[pid].next == |s.procs[pid].files|
      then Ended(s, pid, Done) else s
    case Crash(pid) =>
      if pid in s.procs && s.procs[pid].phase != Done then Ended(s, pid, Failed) else s
  }

  function Run(start: Sys, steps: seq<Step>): Sys {
    if steps == [] then start else Exec(Run(start, steps[..|steps| - 1]), steps[|steps| - 1])
  }

  /** Before any process: the rows earlier runs left. */
  function Fresh(table: Table): Sys { Sys(table, map[], [], None) }

  // ---------------------------------------------------------------- what every step keeps

  predicate TookEffect(effects: seq<Effect>, v: string) {
    exists i :: 0 <= i < |effects| && effects[i].version == v
  }

  predicate Known(initial: Table, effects: seq<Effect>, v: string) {
    v in initial || TookEffect(effects, v)
  }

  /** Rows are exactly the initial ones and one per effect, and no version took effect twice. */
  ghost predicate RowsMatch(initial: Table, table: Table, effects: seq<Effect>) {
    && (forall v :: v in table <==> Known(initial, effects, v))
    && (forall i | 0 <= i < |effects| :: effects[i].version !in initial)
    && (forall i, j | 0 <= i < j < |effects| :: effects[i].version != effects[j].version)
  }

  ghost predicate ProcFits(table: Table, proc: Proc) {
    && DistinctVersions(proc.files)
    && proc.next <= |proc.files|
    && (forall j | 0 <= j < proc.next :: proc.files[j].version in table)
    && (proc.phase in {Claimed, Executed} ==> proc.next < |proc.files| && proc.files[proc.next].version !in table)
    && (proc.phase in {Conflicted, Backfilling} ==> proc.next < |proc.files| && proc.files[proc.next].version in table)
    && (proc.phase == Done ==> proc.next == |proc.files|)
    && (proc.phase == Waiting ==> proc.next == 0)
  }

  ghost predicate ProcsFit(table: Table, procs: map<int, Proc>) {
    forall p | p in procs :: ProcFits(table, procs[p])
  }

  /** At most one process holds an uncommitted row of a version. */
  ghost predicate ClaimsDiffer(procs: map<int, Proc>) {
    forall p, q, v | p in procs && q in procs && Holds(procs[p], v) && Holds(procs[q], v) :: p == q
  }

  ghost predicate InOrder(initial: Table, before: seq<Effect>, e: Effect, procs: map<int, Proc>) {
    && e.pid in procs && e.index < procs[e.pid].next <= |procs[e.pid].files|
    && procs[e.pid].files[e.index].version == e.version
    && forall j | 0 <= j < e.index :: Known(initial, before, procs[e.pid].files[j].version)
  }

  /** Every effect came after the earlier files of the run it belongs to were recorded. */
  ghost predicate EffectsInOrder(initial: Table, effects: seq<Effect>, procs: map<int, Proc>) {
    forall i | 0 <= i < |effects| :: InOrder(initial, effects[..i], effects[i], procs)
  }

  /** The versions process `pid` made take effect, in order. */
  function EffectsOf(effects: seq<Effect>, pid: int): seq<string> {
    if effects == [] then []
    else
      var e := effects[|effects| - 1];
      EffectsOf(effects[..|effects| - 1], pid) + if e.pid == pid then [e.version] else []
  }

  ghost predicate ReportsMatch(effects: seq<Effect>, procs: map<int, Proc>) {
    forall p :: EffectsOf(effects, p) == if p in procs then procs[p].applied else []
  }

  ghost predicate Sound(initial: Table, s: Sys) {
    && RowsMatch(initial, s.table, s.effects)
    && ProcsFit(s.table, s.procs)
    && ClaimsDiffer(s.procs)
    && EffectsInOrder(initial, s.effects, s.procs)
    && ReportsMatch(s.effects, s.procs)
  }

  /** A step that commits no effect: one process changes, rows may only gain a checksum. */
  ghost predicate QuietMove(s: Sys, t: Sys, pid: int) {
    && pid in t.procs
    && t == s.(table := t.table, procs := s.procs[pid := t.procs[pid]], lock := t.lock)
    && t.table.Keys == s.table.Keys
    && ProcFits(t.table, t.procs[pid])
    && (pid in s.procs ==> Advanced(s.procs[pid], t.procs[pid]))
    && (pid !in s.procs ==> t.procs[pid].applied == [])
    && forall v | Holds(t.procs[pid], v) :: (pid in s.procs && Holds(s.procs[pid], v)) || !Blocked(s, pid, v)
  }

  predicate Advanced(before: Proc, after: Proc) {
    after.files == before.files && after.next >= before.next && after.applied == before.applied
  }

  lemma QuietKeepsProcs(s: Sys, t: Sys, pid: int)
    requires QuietMove(s, t, pid) && ProcsFit(s.table, s.procs) && ClaimsDiffer(s.procs)
    ensures ProcsFit(t.table, t.procs) && ClaimsDiffer(t.procs)
  {
    forall p | p in t.procs ensures ProcFits(t.table, t.procs[p]) {
      if p != pid {
        assert ProcFits(s.table, s.procs[p]);
        assert forall v :: v in t.table <==> v in s.table;
      }
    }
    hide ProcFits, Advanced;
    assert forall q, v | q in s.procs && q != pid && Holds(s.procs[q], v) :: Blocked(s, pid, v);
  }

  lemma QuietKeepsEffects(initial: Table, s: Sys, t: Sys, pid: int)
    requires QuietMove(s, t, pid)
    requires EffectsInOrder(initial, s.effects, s.procs) && ReportsMatch(s.effects, s.procs)
    ensures EffectsInOrder(initial, t.effects, t.procs) && ReportsMatch(t.effects, t.procs)
  {
    assert t.procs[pid].next <= |t.procs[pid].files|;
    hide Known, Holds, Blocked, ProcFits, EffectsOf;
    assert ReportsMatch(t.effects, t.procs);
    hide ReportsMatch;
    forall i | 0 <= i < |t.effects| ensures InOrder(initial, t.effects[..i], t.effects[i], t.procs) {
      InOrderStays(initial, t.effects[..i], s.effects[i], s, t, pid);
    }
  }

  lemma InOrderStays(initial: Table, before: seq<Effect>, e: Effect, s: Sys, t: Sys, pid: int)
    requires InOrder(initial, before, e, s.procs)
    requires pid in t.procs && t.procs == s.procs[pid := t.procs[pid]]
    requires pid in s.procs ==> Advanced(s.procs[pid], t.procs[pid]) && t.procs[pid].next <= |t.procs[pid].files|
    ensures InOrder(initial, before, e, t.procs)
  {
    hide Known;
  }

  lemma RowsMatchByKeys(initial: Table, table: Table, after: Table, effects: seq<Effect>)
    requires RowsMatch(initial, table, effects) && after.Keys == table.Keys
    ensures RowsMatch(initial, after, effects)
  {
    hide Known;
    assert forall v :: v in after <==> v in table;
  }

  lemma QuietKeeps(initial: Table, s: Sys, t: Sys, pid: int)
    requires Sound(initial, s) && QuietMove(s, t, pid)
    ensures Sound(initial, t)
  {
    assert t.table.Keys == s.table.Keys && t.effects == s.effects;
    hide QuietMove, RowsMatch, ProcsFit, ClaimsDiffer, EffectsInOrder, ReportsMatch;
    QuietKeepsProcs(s, t, pid);
    QuietKeepsEffects(initial, s, t, pid);
    RowsMatchByKeys(initial, s.table, t.table, s.effects);
  }

  lemma {:induction false} CommitKeeps(initial: Table, s: Sys, pid: int)
    requires Sound(initial, s) && At(s, pid, Executed)
    ensures Sound(initial, Exec(s, Commit(pid)))
  {
    var t := Exec(s, Commit(pid));
    var e := Effect(pid, s.procs[pid].next, s.procs[pid].files[s.procs[pid].next].version);
    assert ProcFits(s.table, s.procs[pid]);
    CommitKeepsRows(initial, s.table, t.table, s.effects, e);
    CommitKeepsProcs(s, t, pid, e.version);
    CommitKeepsOrder(initial, s, t, pid, e);
    CommitKeepsReports(s, t, pid, e);
  }

  lemma CommitKeepsRows(initial: Table, table: Table, after: Table, effects: seq<Effect>, e: Effect)
    requires RowsMatch(initial, table, effects) && e.version !in table
    requires after.Keys == table.Keys + {e.version}
    ensures RowsMatch(initial, after, effects + [e])
  {
    var all := effects + [e];
    forall v ensures TookEffect(all, v) <==> TookEffect(effects, v) || v == e.version {
      if TookEffect(effects, v) {
        var i :| 0 <= i < |effects| && effects[i].version == v;
        assert all[i].version == v;
      }
      assert all[|effects|].version == e.version;
    }
    assert forall i | 0 <= i < |effects| :: TookEffect(effects, effects[i].version);
    assert forall v :: v in after <==> v in table || v == e.version;
  }

  lemma CommitKeepsProcs(s: Sys, t: Sys, pid: int, v: string)
    requires ProcsFit(s.table, s.procs) && ClaimsDiffer(s.procs) && At(s, pid, Executed)
    requires v == s.procs[pid].files[s.procs[pid].next].version && t == Exec(s, Commit(pid))
    ensures ProcsFit(t.table, t.procs) && ClaimsDiffer(t.procs)
  {
    assert Holds(s.procs[pid], v);
    forall p | p in t.procs ensures ProcFits(t.table, t.procs[p]) {
      assert ProcFits(s.table, s.procs[p]);
      assert p != pid ==> !Holds(s.procs[p], v);
    }
  }

  lemma CommitKeepsOrder(initial: Table, s: Sys, t: Sys, pid: int, e: Effect)
    requires RowsMatch(initial, s.table, s.effects) && EffectsInOrder(initial, s.effects, s.procs)
    requires At(s, pid, Executed) && ProcFits(s.table, s.procs[pid]) && t == Exec(s, Commit(pid))
    requires e == Effect(pid, s.procs[pid].next, s.procs[pid].files[s.procs[pid].next].version)
    ensures EffectsInOrder(initial, t.effects, t.procs)
  {
    assert t.effects == s.effects + [e];
    hide Known;
    forall i | 0 <= i < |t.effects| ensures InOrder(initial, t.effects[..i], t.effects[i], t.procs) {
      assert t.effects[..i] == s.effects[..i];
      if i < |s.effects| {
        assert InOrder(initial, s.effects[..i], s.effects[i], s.procs);
      } else {
        assert s.effects[..i] == s.effects;
      }
    }
  }

  lemma CommitKeepsReports(s: Sys, t: Sys, pid: int, e: Effect)
    requires ReportsMatch(s.effects, s.procs) && At(s, pid, Executed) && t == Exec(s, Commit(pid))
    requires e == Effect(pid, s.procs[pid].next, s.procs[pid].files[s.procs[pid].next].version)
    ensures ReportsMatch(t.effects, t.procs)
  {
    assert (s.effects + [e])[..|s.effects|] == s.effects;
  }

  lemma StepKeeps(initial: Table, s: Sys, step: Step)
    requires Sound(initial, s)
    ensures Sound(initial, Exec(s, step))
  {
    var t := Exec(s, step);
    if t != s {
      if step.Commit? {
        CommitKeeps(initial, s, step.pid);
      } else {
        QuietStep(s, step);
        QuietKeeps(initial, s, t, step.pid);
      }
    }
  }

  lemma QuietStep(s: Sys, step: Step)
    requires ProcsFit(s.table, s.procs) && !step.Commit? && Exec(s, step) != s
    ensures QuietMove(s, Exec(s, step), step.pid)
  {
    if step.pid in s.procs {
      assert ProcFits(s.table, s.procs[step.pid]);
    }
  }

  // ---------------------------------------------------------------- all runs

  lemma {:induction false} RunKeeps(initial: Table, steps: seq<Step>)
    ensures Sound(initial, Run(Fresh(initial), steps))
  {
    if steps != [] {
      RunKeeps(initial, steps[..|steps| - 1]);
      StepKeeps(initial, Run(Fresh(initial), steps[..|steps| - 1]), steps[|steps| - 1]);
    }
  }

  /**
    In every interleaving, with or without the lock: a version's SQL takes effect at most once, and
    a row is there exactly when it was there before or its SQL took effect.
   */
  lemma EffectsAtMostOnce(initial: Table, steps: seq<Step>)
    ensures var s := Run(Fresh(initial), steps);
            && (forall i, j | 0 <= i < j < |s.effects| :: s.effects[i].version != s.effects[j].version)
            && (forall v :: v in s.table <==> v in initial || TookEffect(s.effects, v))
            && (forall v :: TookEffect(s.effects, v) ==> v !in initial)
  {
    RunKeeps(initial, steps);
  }

  /** A process that returns left every one of its files recorded and reports exactly its own effects. */
  lemma ReturnMeansRecorded(initial: Table, steps: seq<Step>, pid: int)
    requires var s := Run(Fresh(initial), steps); pid in s.procs && s.procs[pid].phase == Done
    ensures var s := Run(Fresh(initial), steps);
            && (forall f | f in s.procs[pid].files :: f.version in s.table)
            && s.procs[pid].applied == EffectsOf(s.effects, pid)
  {
    RunKeeps(initial, steps);
    var s := Run(Fresh(initial), steps);
    assert ProcFits(s.table, s.procs[pid]);
  }

  /** When a file takes effect, every earlier file of the same run is already recorded. */
  lemma EarlierFilesFirst(initial: Table, steps: seq<Step>, i: nat, j: nat)
    requires i < |Run(Fresh(initial), steps).effects| && j < Run(Fresh(initial), steps).effects[i].index
    ensures var s := Run(Fresh(initial), steps);
            var e := s.effects[i];
            && e.pid in s.procs && e.index < |s.procs[e.pid].files| && s.procs[e.pid].files[e.index].version == e.version
            && Known(initial, s.effects[..i], s.procs[e.pid].files[j].version)
  {
    RunKeeps(initial, steps);
    var s := Run(Fresh(initial), steps);
    assert InOrder(initial, s.effects[..i], s.effects[i], s.procs);
  }

  // ---------------------------------------------------------------- only working files take effect

  /** A file is past its SQL, or took effect, only if its SQL works. */
  ghost predicate WorkingOnly(procs: map<int, Proc>, effects: seq<Effect>) {
    && (forall p | p in procs && procs[p].phase == Executed && procs[p].next < |procs[p].files| :: procs[p].files[procs[p].next].works)
    && (forall i | 0 <= i < |effects| ::
          && effects[i].pid in procs && effects[i].index < |procs[effects[i].pid].files|
          && procs[effects[i].pid].files[effects[i].index].works)
  }

  lemma WorkingStep(s: Sys, step: Step)
    requires WorkingOnly(s.procs, s.effects)
    ensures WorkingOnly(Exec(s, step).procs, Exec(s, step).effects)
  {
    hide Blocked, Holds, Mismatched;
  }

  /** In every run the SQL of every file that took effect works. */
  lemma {:induction false} OnlyWorkingFilesTakeEffect(initial: Table, steps: seq<Step>)
    ensures WorkingOnly(Run(Fresh(initial), steps).procs, Run(Fresh(initial), steps).effects)
  {
    if steps != [] {
      OnlyWorkingFilesTakeEffect(initial, steps[..|steps| - 1]);
      WorkingStep(Run(Fresh(initial), steps[..|steps| - 1]), steps[|steps| - 1]);
    }
  }

  lemma EffectHasFile(initial: Table, steps: seq<Step>, i: nat)
    requires i < |Run(Fresh(initial), steps).effects|
    ensures var s := Run(Fresh(initial), steps);
            exists p, f | p in s.procs && f in s.procs[p].files :: f.version == s.effects[i].version && f.works
  {
    RunKeeps(initial, steps);
    OnlyWorkingFilesTakeEffect(initial, steps);
    hide Run;
    var s := Run(Fresh(initial), steps);
    var e := s.effects[i];
    assert InOrder(initial, s.effects[..i], e, s.procs);
    assert s.procs[e.pid].files[e.index] in s.procs[e.pid].files;
  }

  /** A version that works in no process's files is never newly recorded, and no process that has it returns. */
  lemma BrokenFileIsNeverRecorded(initial: Table, steps: seq<Step>, v: string)
    requires v !in initial
    requires var s := Run(Fresh(initial), steps);
             forall p, f | p in s.procs && f in s.procs[p].files && f.version == v :: !f.works
    ensures var s := Run(Fresh(initial), steps);
            && v !in s.table && !TookEffect(s.effects, v)
            && forall p, f | p in s.procs && f in s.procs[p].files && f.version == v :: s.procs[p].phase != Done
  {
    RunKeeps(initial, steps);
    var s := Run(Fresh(initial), steps);
    hide Run;
    forall i | 0 <= i < |s.effects| ensures s.effects[i].version != v {
      EffectHasFile(initial, steps, i);
    }
    forall p, f | p in s.procs && f in s.procs[p].files && f.version == v ensures s.procs[p].phase != Done {
      assert ProcFits(s.table, s.procs[p]);
    }
  }

  // ---------------------------------------------------------------- a changed file

  /** Process `pid` is at or before file `k`, whose recorded checksum is another one. */
  ghost predicate StoppedAt(s: Sys, pid: int, files: seq<File>, k: nat) {
    && k < |files| && Mismatched(s.table, files[k])
    && (pid in s.procs ==>
          && s.procs[pid].files == files && s.procs[pid].next <= k
          && (s.procs[pid].next == k ==> s.procs[pid].phase in {Waiting, Between, Conflicted, Failed}))
    && (forall e | e in s.effects :: e.pid == pid ==> e.index < k)
  }

  lemma StoppedStep(s: Sys, step: Step, pid: int, files: seq<File>, k: nat)
    requires ProcsFit(s.table, s.procs)
    requires StoppedAt(s, pid, files, k) && (step.Start? && step.pid == pid ==> step.files == files)
    ensures StoppedAt(Exec(s, step), pid, files, k)
  {
    hide Blocked, Holds;
    if pid in s.procs {
      assert ProcFits(s.table, s.procs[pid]);
    }
    if step.Commit? && step.pid in s.procs {
      assert ProcFits(s.table, s.procs[step.pid]);
    }
  }

  /**
    A file whose recorded checksum differs when a process starts stops that process there, whatever
    the others do: neither it nor any later file of that run ever takes effect, and the run never returns.
   */
  lemma {:induction false} MismatchStops(initial: Table, before: seq<Step>, steps: seq<Step>, pid: int, files: seq<File>, k: nat)
    requires pid !in Run(Fresh(initial), before).procs
    requires k < |files| && Mismatched(Run(Fresh(initial), before).table, files[k])
    requires forall i | 0 <= i < |steps| :: steps[i].Start? && steps[i].pid == pid ==> steps[i].files == files
    ensures StoppedAt(Run(Fresh(initial), before + steps), pid, files, k)
  {
    if steps == [] {
      assert before + steps == before;
      StoppedInitially(initial, before, pid, files, k);
    } else {
      var n := |steps| - 1;
      MismatchStops(initial, before, steps[..n], pid, files, k);
      var most := before + steps[..n];
      assert before + steps == most + [steps[n]];
      RunKeeps(initial, most);
      AppendStep(Fresh(initial), most, steps[n]);
      hide StoppedAt, Exec, Run, RowsMatch, ProcsFit, ClaimsDiffer, EffectsInOrder, ReportsMatch;
      StoppedStep(Run(Fresh(initial), most), steps[n], pid, files, k);
    }
  }

  lemma AppendStep(start: Sys, steps: seq<Step>, last: Step)
    ensures Run(start, steps + [last]) == Exec(Run(start, steps), last)
  {
    hide Exec;
    assert (steps + [last])[..|steps|] == steps;
  }

  lemma StoppedInitially(initial: Table, before: seq<Step>, pid: int, files: seq<File>, k: nat)
    requires pid !in Run(Fresh(initial), before).procs
    requires k < |files| && Mismatched(Run(Fresh(initial), before).table, files[k])
    ensures StoppedAt(Run(Fresh(initial), before), pid, files, k)
  {
    RunKeeps(initial, before);
    hide Run;
    var s := Run(Fresh(initial), before);
    forall e | e in s.effects ensures e.pid != pid {
      var i :| 0 <= i < |s.effects| && s.effects[i] == e;
      assert InOrder(initial, s.effects[..i], s.effects[i], s.procs);
    }
  }

  // ---------------------------------------------------------------- the advisory lock

  predicate Running(proc: Proc) { proc.phase !in {Waiting, Done, Failed} }

  ghost predicate LockHeld(s: Sys) {
    forall p | p in s.procs && Running(s.procs[p]) :: s.lock == Some(p)
  }

  /** As long as nobody bypasses the lock, at most one process works on files. */
  lemma {:induction false} LockExcludes(initial: Table, steps: seq<Step>)
    requires forall i | 0 <= i < |steps| :: !steps[i].Bypass?
    ensures LockHeld(Run(Fresh(initial), steps))
  {
    if steps != [] {
      var n := |steps| - 1;
      LockExcludes(initial, steps[..n]);
      hide Exec, LockHeld;
      LockStep(Run(Fresh(initial), steps[..n]), steps[n]);
    }
  }

  /** The lock is held by a process at work, if at all: one that is done, failed or lost has freed it. */
  ghost predicate LockOwned(s: Sys) {
    s.lock.Some? ==> s.lock.value in s.procs && Running(s.procs[s.lock.value])
  }

  /** In every run, bypassed or not, the lock never outlives the process that got it. */
  lemma {:induction false} LockIsFreed(initial: Table, steps: seq<Step>)
    ensures LockOwned(Run(Fresh(initial), steps))
  {
    if steps != [] {
      var n := |steps| - 1;
      LockIsFreed(initial, steps[..n]);
      hide Exec, LockOwned;
      OwnedStep(Run(Fresh(initial), steps[..n]), steps[n]);
    }
  }

  lemma OwnedStep(s: Sys, step: Step)
    requires LockOwned(s)
    ensures LockOwned(Exec(s, step))
  {
    hide Blocked, Holds;
  }

  /** A process lost before it is done leaves rows and effects as they were, holds no row back, and has freed the lock. */
  lemma CrashRollsBack(s: Sys, pid: int)
    requires pid in s.procs && s.procs[pid].phase != Done
    ensures var t := Exec(s, Crash(pid));
            && t.table == s.table && t.effects == s.effects && t.procs.Keys == s.procs.Keys
            && !Running(t.procs[pid]) && (forall v :: !Holds(t.procs[pid], v)) && t.lock != Some(pid)
            && (forall p | p in s.procs && p != pid :: t.procs[p] == s.procs[p])
  {
  }

  lemma LockStep(s: Sys, step: Step)
    requires LockHeld(s) && !step.Bypass?
    ensures LockHeld(Exec(s, step))
  {
    hide Blocked, Holds;
  }

  /**
    Without the lock a changed file can go unnoticed: two processes that both saw a row without a
    checksum complete with different contents of one file, and the row keeps the first one's.
   */
  lemma BackfillRaceHidesAChange()
    ensures exists steps ::
              var s := Run(Fresh(map["a" := None]), steps);
              && 1 in s.procs && 2 in s.procs && s.procs[1].phase == Done && s.procs[2].phase == Done
              && s.procs[2].files == [File("a", "y", true)] && Mismatched(s.table, s.procs[2].files[0])
  {
    var steps := BothClaimsRefused();
    steps := BothSawNoChecksum(steps);
    steps := BothBackfilled(steps);
    var start, s := RaceStart(), RaceBackfilled();
    steps, s := Then(start, steps, s, Finish(1));
    steps, s := Then(start, steps, s, Finish(2));
    assert Run(start, steps).procs[2].phase == Done;
  }

  function RaceStart(): Sys { Fresh(map["a" := None]) }

  /** Both processes of the race in `phase`, nothing written yet; only the first holds the lock. */
  function RaceAt(phase: Phase): Sys {
    Sys(map["a" := None],
        map[1 := Proc([File("a", "x", true)], 0, phase, []), 2 := Proc([File("a", "y", true)], 0, phase, [])],
        [], Some(1))
  }

  function RaceBackfilled(): Sys {
    Sys(map["a" := Some("x")],
        map[1 := Proc([File("a", "x", true)], 1, Between, []), 2 := Proc([File("a", "y", true)], 1, Between, [])],
        [], Some(1))
  }

  lemma BothBackfilled(before: seq<Step>) returns (steps: seq<Step>)
    requires Run(RaceStart(), before) == RaceAt(Backfilling)
    ensures Run(RaceStart(), steps) == RaceBackfilled()
  {
    hide Run, Blocked, Holds, RaceStart;
    var s := RaceAt(Backfilling);
    steps, s := Then(RaceStart(), before, s, Backfill(1));
    steps, s := Then(RaceStart(), steps, s, Backfill(2));
  }

  lemma BothStarted() returns (steps: seq<Step>)
    ensures Run(RaceStart(), steps) == RaceAt(Between)
  {
    var start := RaceStart();
    var s := start;
    steps := [];
    steps, s := Then(start, steps, s, Start(1, [File("a", "x", true)]));
    steps, s := Then(start, steps, s, Start(2, [File("a", "y", true)]));
    steps, s := Then(start, steps, s, TryLock(1));
    steps, s := Then(start, steps, s, Bypass(2));
  }

  lemma BothClaimsRefused() returns (steps: seq<Step>)
    ensures Run(RaceStart(), steps) == RaceAt(Conflicted)
  {
    steps := BothStarted();
    var s := RaceAt(Between);
    steps, s := Then(RaceStart(), steps, s, Insert(1));
    steps, s := Then(RaceStart(), steps, s, Insert(2));
  }

  lemma BothSawNoChecksum(before: seq<Step>) returns (steps: seq<Step>)
    requires Run(RaceStart(), before) == RaceAt(Conflicted)
    ensures Run(RaceStart(), steps) == RaceAt(Backfilling)
  {
    var s := RaceAt(Conflicted);
    steps, s := Then(RaceStart(), before, s, Inspect(1));
    steps, s := Then(RaceStart(), steps, s, Inspect(2));
  }

  lemma Then(start: Sys, steps: seq<Step>, s: Sys, step: Step) returns (more: seq<Step>, t: Sys)
    requires s == Run(start, steps)
    ensures t == Run(start, more) && t == Exec(s, step)
  {
    AppendStep(start, steps, step);
    more, t := steps + [step], Exec(s, step);
  }
}
