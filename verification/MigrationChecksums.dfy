/**
  When a run of the migration protocol leaves a process's file recorded under another checksum: the
  only gap is the backfill of a row older than the checksum column, raced by another process.
 */
module MigrationChecksums {
  import opened Common
  import opened Migrations
  import opened MigrationProtocol

  function After(initial: Table, steps: seq<Step>): Sys { Run(Fresh(initial), steps) }

  /** Process `pid` backfills its file `k` although the row has got another checksum meanwhile. */
  predicate LosesBackfill(s: Sys, step: Step, pid: int, k: nat) {
    && step == Backfill(pid) && At(s, pid, Backfilling) && s.procs[pid].next == k
    && Mismatched(s.table, s.procs[pid].files[k])
  }

  ghost predicate LostIn(initial: Table, steps: seq<Step>, pid: int, k: nat) {
    exists i | 0 <= i < |steps| :: LosesBackfill(After(initial, steps[..i]), steps[i], pid, k)
  }

  lemma LostStep(initial: Table, steps: seq<Step>, step: Step, pid: int, k: nat)
    ensures LostIn(initial, steps + [step], pid, k) <==>
            LostIn(initial, steps, pid, k) || LosesBackfill(After(initial, steps), step, pid, k)
  {
    hide After, LosesBackfill;
    var all := steps + [step];
    assert all[..|steps|] == steps && all[|steps|] == step;
    assert forall i | 0 <= i < |steps| :: all[..i] == steps[..i] && all[i] == steps[i];
    if LostIn(initial, steps, pid, k) {
      var i :| 0 <= i < |steps| && LosesBackfill(After(initial, steps[..i]), steps[i], pid, k);
      assert LosesBackfill(After(initial, all[..i]), all[i], pid, k);
    }
    if LosesBackfill(After(initial, steps), step, pid, k) {
      assert LosesBackfill(After(initial, all[..|steps|]), all[|steps|], pid, k);
    }
  }

  // ---------------------------------------------------------------- recorded checksums

  /** What holds of file `k` of process `pid`, given whether its backfill was lost. */
  ghost predicate Tracked(s: Sys, pid: int, k: nat, lost: bool) {
    && (lost ==> pid in s.procs && k < s.procs[pid].next)
    && (pid in s.procs && k < s.procs[pid].next <= |s.procs[pid].files| ==>
          var f := s.procs[pid].files[k];
          && f.version in s.table && s.table[f.version].Some?
          && (lost <==> s.table[f.version] != Some(f.checksum)))
  }

  /** A row that has a checksum keeps it. */
  lemma ChecksumStays(s: Sys, step: Step, v: string)
    requires ProcsFit(s.table, s.procs) && v in s.table && s.table[v].Some?
    ensures v in Exec(s, step).table && Exec(s, step).table[v] == s.table[v]
  {
    hide Blocked, Holds;
    if step.Commit? && step.pid in s.procs {
      assert ProcFits(s.table, s.procs[step.pid]);
    }
  }

  lemma TrackedStep(s: Sys, step: Step, pid: int, k: nat, lost: bool)
    requires ProcsFit(s.table, s.procs) && Tracked(s, pid, k, lost)
    ensures Tracked(Exec(s, step), pid, k, lost || LosesBackfill(s, step, pid, k))
  {
    hide Blocked, Holds;
    if pid in s.procs {
      assert ProcFits(s.table, s.procs[pid]);
      if k < s.procs[pid].next {
        ChecksumStays(s, step, s.procs[pid].files[k].version);
      }
    }
  }

  lemma {:induction false} RunTracked(initial: Table, steps: seq<Step>, pid: int, k: nat)
    ensures Tracked(After(initial, steps), pid, k, LostIn(initial, steps, pid, k))
  {
    if steps != [] {
      hide *;
      var most, step := steps[..|steps| - 1], steps[|steps| - 1];
      assert steps == most + [step];
      RunTracked(initial, most, pid, k);
      RunFits(initial, most);
      AfterStep(initial, most, step);
      TrackedStep(After(initial, most), step, pid, k, LostIn(initial, most, pid, k));
      LostStep(initial, most, step, pid, k);
    }
  }

  lemma AfterStep(initial: Table, steps: seq<Step>, step: Step)
    ensures After(initial, steps + [step]) == Exec(After(initial, steps), step)
  {
    AppendStep(Fresh(initial), steps, step);
  }

  lemma RunFits(initial: Table, steps: seq<Step>)
    ensures ProcsFit(After(initial, steps).table, After(initial, steps).procs)
  {
    RunKeeps(initial, steps);
  }

  /**
    In every run a file that a process has gone past is recorded under that process's checksum
    exactly when the process did not lose its backfill.
   */
  lemma RecordedUnlessBackfillLost(initial: Table, steps: seq<Step>, pid: int, k: nat)
    requires pid in After(initial, steps).procs && k < After(initial, steps).procs[pid].next
    ensures var s := After(initial, steps);
            && k < |s.procs[pid].files| && s.procs[pid].files[k].version in s.table
            && (s.table[s.procs[pid].files[k].version] == Some(s.procs[pid].files[k].checksum) <==> !LostIn(initial, steps, pid, k))
  {
    hide After, LostIn, Run;
    RunTracked(initial, steps, pid, k);
    RunFits(initial, steps);
    assert ProcFits(After(initial, steps).table, After(initial, steps).procs[pid]);
  }

  // ---------------------------------------------------------------- the race behind a lost backfill

  /** Process `pid` reads the row of `v`, which holds no checksum, and goes on to backfill it. */
  predicate SawNoChecksum(s: Sys, step: Step, pid: int, v: string) {
    && step == Inspect(pid) && At(s, pid, Conflicted) && s.procs[pid].files[s.procs[pid].next].version == v
    && v in s.table && s.table[v].None?
  }

  /** While `pid` is about to backfill, another process writes `checksum` into the row of `v`. */
  predicate OtherBackfills(s: Sys, step: Step, pid: int, v: string, checksum: string) {
    && step.Backfill? && step.pid != pid && At(s, pid, Backfilling) && At(s, step.pid, Backfilling)
    && s.procs[step.pid].files[s.procs[step.pid].next].version == v
    && s.procs[step.pid].files[s.procs[step.pid].next].checksum == checksum
    && v in s.table && s.table[v].None?
  }

  /** Since `pid` last read the row of `v` without a checksum at `a`, another process wrote `checksum` at `b`. */
  predicate RacedAt(initial: Table, steps: seq<Step>, pid: int, v: string, checksum: string, a: nat, b: nat) {
    && a < b < |steps|
    && SawNoChecksum(After(initial, steps[..a]), steps[a], pid, v)
    && OtherBackfills(After(initial, steps[..b]), steps[b], pid, v, checksum)
  }

  lemma RacedLater(initial: Table, steps: seq<Step>, step: Step, pid: int, v: string, checksum: string, a: nat, b: nat)
    requires RacedAt(initial, steps, pid, v, checksum, a, b)
    ensures RacedAt(initial, steps + [step], pid, v, checksum, a, b)
  {
    hide After, SawNoChecksum, OtherBackfills;
    var all := steps + [step];
    assert all[..a] == steps[..a] && all[..b] == steps[..b];
  }

  /** What stands behind a process that is about to backfill the row of `v`. */
  ghost predicate BehindBackfill(initial: Table, steps: seq<Step>, pid: int, v: string) {
    exists a: nat | a < |steps| && SawNoChecksum(After(initial, steps[..a]), steps[a], pid, v) ::
      var table := After(initial, steps).table;
      v in table && (table[v].Some? ==> exists b: nat :: RacedAt(initial, steps, pid, v, table[v].value, a, b))
  }

  predicate AboutToBackfill(s: Sys, pid: int, v: string) {
    At(s, pid, Backfilling) && s.procs[pid].files[s.procs[pid].next].version == v
  }

  /** A process gets there only by reading no checksum; after that only another backfill writes one. */
  lemma BackfillingStep(s: Sys, step: Step, pid: int, v: string)
    requires ProcsFit(s.table, s.procs) && AboutToBackfill(Exec(s, step), pid, v)
    ensures SawNoChecksum(s, step, pid, v) || AboutToBackfill(s, pid, v)
    ensures SawNoChecksum(s, step, pid, v) ==> Exec(s, step).table == s.table
    ensures AboutToBackfill(s, pid, v) ==>
              var t := Exec(s, step).table;
              v in s.table && v in t && (t[v] == s.table[v] || (t[v].Some? && OtherBackfills(s, step, pid, v, t[v].value)))
  {
    hide Blocked, Holds;
    if pid in s.procs {
      assert ProcFits(s.table, s.procs[pid]);
    }
    if step.pid in s.procs {
      assert ProcFits(s.table, s.procs[step.pid]);
    }
  }

  lemma {:induction false} BackfillingHasRead(initial: Table, steps: seq<Step>, pid: int, v: string)
    requires AboutToBackfill(After(initial, steps), pid, v)
    ensures BehindBackfill(initial, steps, pid, v)
  {
    hide *;
    NobodyBackfillsAtFirst(initial, pid, v);
    var most, step := steps[..|steps| - 1], steps[|steps| - 1];
    assert steps == most + [step];
    var s, t := After(initial, most), After(initial, steps);
    RunFits(initial, most);
    AfterStep(initial, most, step);
    BackfillingStep(s, step, pid, v);
    if SawNoChecksum(s, step, pid, v) {
      BehindFresh(initial, most, step, pid, v);
    } else {
      BackfillingHasRead(initial, most, pid, v);
      BehindLater(initial, most, step, pid, v);
    }
  }

  lemma NobodyBackfillsAtFirst(initial: Table, pid: int, v: string)
    ensures !AboutToBackfill(After(initial, []), pid, v)
  {
  }

  lemma BehindFresh(initial: Table, steps: seq<Step>, step: Step, pid: int, v: string)
    requires SawNoChecksum(After(initial, steps), step, pid, v) && After(initial, steps + [step]).table == After(initial, steps).table
    ensures BehindBackfill(initial, steps + [step], pid, v)
  {
    hide After;
    var all := steps + [step];
    assert all[..|steps|] == steps && all[|steps|] == step;
    assert SawNoChecksum(After(initial, all[..|steps|]), all[|steps|], pid, v);
  }

  lemma BehindLater(initial: Table, steps: seq<Step>, step: Step, pid: int, v: string)
    requires BehindBackfill(initial, steps, pid, v)
    requires var s, t := After(initial, steps), After(initial, steps + [step]);
             v in s.table && v in t.table &&
             (t.table[v] == s.table[v] || (t.table[v].Some? && OtherBackfills(s, step, pid, v, t.table[v].value)))
    ensures BehindBackfill(initial, steps + [step], pid, v)
  {
    hide After, SawNoChecksum, OtherBackfills, RacedAt;
    var all := steps + [step];
    var s, t := After(initial, steps), After(initial, all);
    var a: nat :| a < |steps| && SawNoChecksum(After(initial, steps[..a]), steps[a], pid, v) &&
                  (s.table[v].Some? ==> exists b: nat :: RacedAt(initial, steps, pid, v, s.table[v].value, a, b));
    assert all[..a] == steps[..a] && all[a] == steps[a];
    if t.table[v].Some? {
      if t.table[v] == s.table[v] {
        var b: nat :| RacedAt(initial, steps, pid, v, s.table[v].value, a, b);
        RacedLater(initial, steps, step, pid, v, s.table[v].value, a, b);
      } else {
        RacedNow(initial, steps, step, pid, v, t.table[v].value, a);
      }
    }
  }

  lemma RacedNow(initial: Table, steps: seq<Step>, step: Step, pid: int, v: string, checksum: string, a: nat)
    requires a < |steps| && SawNoChecksum(After(initial, steps[..a]), steps[a], pid, v)
    requires OtherBackfills(After(initial, steps), step, pid, v, checksum)
    ensures RacedAt(initial, steps + [step], pid, v, checksum, a, |steps|)
  {
    hide After, SawNoChecksum, OtherBackfills;
    var all := steps + [step];
    assert all[..a] == steps[..a] && all[a] == steps[a] && all[..|steps|] == steps && all[|steps|] == step;
  }

  lemma {:induction false} WrittenStays(initial: Table, steps: seq<Step>, b: nat, pid: int, v: string, checksum: string)
    requires b < |steps| && OtherBackfills(After(initial, steps[..b]), steps[b], pid, v, checksum)
    ensures v in After(initial, steps).table && After(initial, steps).table[v] == Some(checksum)
  {
    var most, step := steps[..|steps| - 1], steps[|steps| - 1];
    assert steps == most + [step];
    AfterStep(initial, most, step);
    if b == |most| {
      hide Run, After;
      BackfillWrites(After(initial, most), step, pid, v, checksum);
    } else {
      assert most[..b] == steps[..b] && most[b] == steps[b];
      hide *;
      WrittenStays(initial, most, b, pid, v, checksum);
      RunFits(initial, most);
      ChecksumStays(After(initial, most), step, v);
    }
  }

  lemma BackfillWrites(s: Sys, step: Step, pid: int, v: string, checksum: string)
    requires OtherBackfills(s, step, pid, v, checksum)
    ensures v in Exec(s, step).table && Exec(s, step).table[v] == Some(checksum)
  {
  }

  /**
    A process about to backfill its file loses the backfill exactly when, since it read the row
    without a checksum, another process backfilled that row with a different one.
   */
  lemma BackfillLostIffRaced(initial: Table, steps: seq<Step>, pid: int)
    requires At(After(initial, steps), pid, Backfilling)
    ensures var s := After(initial, steps);
            var f := s.procs[pid].files[s.procs[pid].next];
            LosesBackfill(s, Backfill(pid), pid, s.procs[pid].next) <==>
            exists a: nat, b: nat, other: string :: RacedAt(initial, steps, pid, f.version, other, a, b) && other != f.checksum
  {
    hide After, Run, RacedAt, SawNoChecksum, OtherBackfills;
    var s := After(initial, steps);
    var f := s.procs[pid].files[s.procs[pid].next];
    BackfillingHasRead(initial, steps, pid, f.version);
    if LosesBackfill(s, Backfill(pid), pid, s.procs[pid].next) {
      var a: nat, b: nat :| RacedAt(initial, steps, pid, f.version, s.table[f.version].value, a, b);
    }
    if a: nat, b: nat, other: string :| RacedAt(initial, steps, pid, f.version, other, a, b) && other != f.checksum {
      RaceWrote(initial, steps, pid, f.version, other, a, b);
    }
  }

  lemma RaceWrote(initial: Table, steps: seq<Step>, pid: int, v: string, checksum: string, a: nat, b: nat)
    requires RacedAt(initial, steps, pid, v, checksum, a, b)
    ensures v in After(initial, steps).table && After(initial, steps).table[v] == Some(checksum)
  {
    WrittenStays(initial, steps, b, pid, v, checksum);
  }

  // ---------------------------------------------------------------- when it cannot happen

  lemma {:induction false} MissingChecksumsAreInitial(initial: Table, steps: seq<Step>, v: string)
    requires v in After(initial, steps).table && After(initial, steps).table[v].None?
    ensures v in initial && initial[v].None?
  {
    if steps != [] {
      var most, step := steps[..|steps| - 1], steps[|steps| - 1];
      assert steps == most + [step];
      AfterStep(initial, most, step);
      hide After, Run;
      NoChecksumErased(After(initial, most), step, v);
      MissingChecksumsAreInitial(initial, most, v);
    }
  }

  lemma NoChecksumErased(s: Sys, step: Step, v: string)
    requires v in Exec(s, step).table && Exec(s, step).table[v].None?
    ensures v in s.table && s.table[v].None?
  {
    hide Blocked;
  }

  ghost predicate NeverBypassed(steps: seq<Step>) {
    forall i | 0 <= i < |steps| :: !steps[i].Bypass?
  }

  lemma RaceNeedsBypass(initial: Table, steps: seq<Step>, pid: int, v: string, checksum: string, a: nat, b: nat)
    requires RacedAt(initial, steps, pid, v, checksum, a, b)
    ensures !NeverBypassed(steps)
  {
    if NeverBypassed(steps) {
      LockExcludes(initial, steps[..b]);
    }
  }

  lemma RaceNeedsLegacyRow(initial: Table, steps: seq<Step>, pid: int, v: string, checksum: string, a: nat, b: nat)
    requires RacedAt(initial, steps, pid, v, checksum, a, b)
    ensures v in initial && initial[v].None?
  {
    MissingChecksumsAreInitial(initial, steps[..b], v);
  }

  /** Without a bypass, or for a file whose initial row is not without a checksum, no backfill is lost. */
  lemma NoBackfillLost(initial: Table, steps: seq<Step>, pid: int, k: nat)
    requires pid in After(initial, steps).procs && k < |After(initial, steps).procs[pid].files|
    requires var v := After(initial, steps).procs[pid].files[k].version;
             NeverBypassed(steps) || v !in initial || initial[v].Some?
    ensures !LostIn(initial, steps, pid, k)
  {
    if LostIn(initial, steps, pid, k) {
      var i :| 0 <= i < |steps| && LosesBackfill(After(initial, steps[..i]), steps[i], pid, k);
      FilesStay(initial, steps, i, pid);
      var v := After(initial, steps[..i]).procs[pid].files[k].version;
      hide After, LosesBackfill, RacedAt;
      var checksum, a, b := LossHasRace(initial, steps[..i], steps[i], pid, k);
      RaceNeedsBypass(initial, steps[..i], pid, v, checksum, a, b);
      RaceNeedsLegacyRow(initial, steps[..i], pid, v, checksum, a, b);
    }
  }

  lemma LossHasRace(initial: Table, steps: seq<Step>, step: Step, pid: int, k: nat) returns (checksum: string, a: nat, b: nat)
    requires LosesBackfill(After(initial, steps), step, pid, k)
    ensures RacedAt(initial, steps, pid, After(initial, steps).procs[pid].files[k].version, checksum, a, b)
  {
    hide After, Run, RacedAt;
    BackfillLostIffRaced(initial, steps, pid);
    a, b, checksum :| RacedAt(initial, steps, pid, After(initial, steps).procs[pid].files[k].version, checksum, a, b);
  }

  lemma {:induction false} FilesStay(initial: Table, steps: seq<Step>, i: nat, pid: int)
    requires i <= |steps| && pid in After(initial, steps[..i]).procs
    ensures pid in After(initial, steps).procs && After(initial, steps).procs[pid].files == After(initial, steps[..i]).procs[pid].files
  {
    if i < |steps| {
      var most, step := steps[..|steps| - 1], steps[|steps| - 1];
      assert steps == most + [step] && most[..i] == steps[..i];
      AfterStep(initial, most, step);
      hide After, Run;
      FilesStay(initial, most, i, pid);
      FilesStayStep(After(initial, most), step, pid);
    } else {
      assert steps[..i] == steps;
    }
  }

  lemma FilesStayStep(s: Sys, step: Step, pid: int)
    requires pid in s.procs
    ensures pid in Exec(s, step).procs && Exec(s, step).procs[pid].files == s.procs[pid].files
  {
    hide Blocked;
  }

  /**
    A process that returns has found or left every file recorded under its own checksum, as long as
    nobody bypassed the lock or no row it met lacked one: then a changed file never goes unnoticed.
   */
  lemma ReturnMeansOwnChecksums(initial: Table, steps: seq<Step>, pid: int)
    requires pid in After(initial, steps).procs && After(initial, steps).procs[pid].phase == Done
    requires NeverBypassed(steps) ||
             forall f | f in After(initial, steps).procs[pid].files :: f.version !in initial || initial[f.version].Some?
    ensures var s := After(initial, steps);
            forall f | f in s.procs[pid].files :: f.version in s.table && s.table[f.version] == Some(f.checksum)
  {
    hide After, Run, LostIn;
    var s := After(initial, steps);
    RunFits(initial, steps);
    assert ProcFits(s.table, s.procs[pid]);
    forall k | 0 <= k < |s.procs[pid].files|
      ensures var f := s.procs[pid].files[k]; f.version in s.table && s.table[f.version] == Some(f.checksum)
    {
      assert s.procs[pid].files[k] in s.procs[pid].files;
      NoBackfillLost(initial, steps, pid, k);
      RecordedUnlessBackfillLost(initial, steps, pid, k);
    }
  }
}
