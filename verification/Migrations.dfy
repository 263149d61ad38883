/**
  The migration runner. A serial run is a loop over files against the `schema_migrations` table;
  concurrent runs, crashes and a bypassed advisory lock are steps over the same table.
 */
module Migrations {
  import opened Common

  // ---------------------------------------------------------------- checksums

  /** `sql.replace(/\r\n/g, '\n')`. */
  function Normalized(sql: string): string {
    if sql == "" then ""
    else if |sql| >= 2 && sql[0] == '\r' && sql[1] == '\n' then "\n" + Normalized(sql[2..])
    else [sql[0]] + Normalized(sql[1..])
  }

  /** The same text as a checkout that turns every line feed into CR LF writes it. */
  function CrlfCheckout(sql: string): string {
    if sql == "" then ""
    else (if sql[0] == '\n' then "\r\n" else [sql[0]]) + CrlfCheckout(sql[1..])
  }

  /** The hash of a CR LF checkout is taken over exactly the text that was checked in. */
  lemma {:induction false} CheckoutIsUndone(sql: string)
    ensures Normalized(CrlfCheckout(sql)) == sql
  {
    if sql != "" {
      CheckoutIsUndone(sql[1..]);
      var rest := CrlfCheckout(sql[1..]);
      if sql[0] == '\n' {
        assert CrlfCheckout(sql)[2..] == rest;
      } else {
        assert CrlfCheckout(sql)[1..] == rest;
        assert rest != "" ==> rest[0] != '\n';
      }
    }
  }

  // ---------------------------------------------------------------- waiting for the lock

  /** One `pg_try_advisory_lock`: its answer, and the clock read after it. */
  datatype Attempt = Attempt(locked: bool, now: int)

  datatype LockOutcome = Acquired | TimedOut | StillWaiting

  /** The first attempt that ends the wait: one that got the lock, or one refused at or after the deadline. */
  ghost predicate EndsAt(attempts: seq<Attempt>, deadline: int, i: int) {
    && 0 <= i < |attempts| && (attempts[i].locked || attempts[i].now >= deadline)
    && forall j | 0 <= j < i :: !attempts[j].locked && attempts[j].now < deadline
  }

  /** The wait loop over the answers it gets; it gives up only on a refusal, so a late grant is still taken. */
  method AcquireAdvisoryLock(attempts: seq<Attempt>, started: int, timeoutMs: int) returns (outcome: LockOutcome)
    ensures outcome == Acquired <==> exists i :: EndsAt(attempts, started + timeoutMs, i) && attempts[i].locked
    ensures outcome == TimedOut <==> exists i :: EndsAt(attempts, started + timeoutMs, i) && !attempts[i].locked
    ensures outcome == StillWaiting <==> forall a | a in attempts :: !a.locked && a.now < started + timeoutMs
  {
    var deadline := started + timeoutMs;
    var i := 0;
    while i < |attempts|
      invariant i <= |attempts|
      invariant forall j | 0 <= j < i :: !attempts[j].locked && attempts[j].now < deadline
    {
      if attempts[i].locked {
        assert EndsAt(attempts, deadline, i);
        return Acquired;
      }
      if attempts[i].now >= deadline {
        assert EndsAt(attempts, deadline, i);
        return TimedOut;
      }
      i := i + 1;
    }
    outcome := StillWaiting;
  }

  // ---------------------------------------------------------------- one run

  /** A migration file: its name is its version; `works` is whether its SQL executes. */
  datatype File = File(version: string, checksum: string, works: bool)

  datatype Failure = ChecksumMismatch(version: string) | SqlError(version: string)

  /** `schema_migrations`; rows older than the checksum column hold none. */
  type Table = map<string, Option<string>>

  predicate Mismatched(table: Table, f: File) {
    f.version in table && table[f.version].Some? && table[f.version].value != f.checksum
  }

  predicate Fails(table: Table, f: File) {
    Mismatched(table, f) || (f.version !in table && !f.works)
  }

  /** The table after `f` went through: recorded now, backfilled, or left alone. */
  function Record(table: Table, f: File): Table {
    if f.version in table && table[f.version].Some? then table else table[f.version := Some(f.checksum)]
  }

  function RecordAll(table: Table, files: seq<File>): Table {
    if files == [] then table else Record(RecordAll(table, files[..|files| - 1]), files[|files| - 1])
  }

  /** The versions of `files` without a row, in file order. */
  function Pending(table: Table, files: seq<File>): seq<string> {
    if files == [] then []
    else
      var f := files[|files| - 1];
      Pending(table, files[..|files| - 1]) + if f.version in table then [] else [f.version]
  }

  ghost predicate DistinctVersions(files: seq<File>) {
    forall i, j | 0 <= i < j < |files| :: files[i].version != files[j].version
  }

  /** The files that go through before the first failing one. */
  ghost predicate GoesThrough(table: Table, files: seq<File>, n: nat) {
    && n <= |files|
    && (forall i | 0 <= i < n :: !Fails(table, files[i]))
    && (n < |files| ==> Fails(table, files[n]))
  }

  function RowAfter(table: Table, f: File): Option<string> {
    if f.version in table && table[f.version].Some? then table[f.version] else Some(f.checksum)
  }

  lemma {:induction false} RecordAllKeys(table: Table, files: seq<File>)
    ensures RecordAll(table, files).Keys == table.Keys + set f | f in files :: f.version
    ensures forall v | v in table && forall f | f in files :: f.version != v :: RecordAll(table, files)[v] == table[v]
  {
    if files != [] {
      var n := |files| - 1;
      RecordAllKeys(table, files[..n]);
      assert files == files[..n] + [files[n]];
    }
  }

  lemma {:induction false} RecordAllRow(table: Table, files: seq<File>, i: nat)
    requires DistinctVersions(files) && i < |files|
    ensures files[i].version in RecordAll(table, files)
    ensures RecordAll(table, files)[files[i].version] == RowAfter(table, files[i])
  {
    var n := |files| - 1;
    if i < n {
      RecordAllRow(table, files[..n], i);
    } else {
      RecordAllKeys(table, files[..n]);
      assert forall f | f in files[..n] :: f.version != files[n].version;
    }
  }

  /** Distinct files do not see each other's rows. */
  lemma NextFile(table: Table, files: seq<File>, n: nat)
    requires DistinctVersions(files) && n < |files|
    ensures var now := RecordAll(table, files[..n]);
            && (files[n].version in now <==> files[n].version in table)
            && (Fails(now, files[n]) <==> Fails(table, files[n]))
            && RecordAll(table, files[..n + 1]) == Record(now, files[n])
            && Pending(table, files[..n + 1]) == Pending(table, files[..n]) + if files[n].version in table then [] else [files[n].version]
  {
    RecordAllKeys(table, files[..n]);
    assert files[..n + 1][..n] == files[..n];
    assert forall f | f in files[..n] :: f.version != files[n].version;
  }

  lemma NoFiles(table: Table, files: seq<File>)
    ensures RecordAll(table, files[..0]) == table && Pending(table, files[..0]) == []
  {
  }

  // ---------------------------------------------------------------- a run, file by file

  /** The file can be taken over the rows of `table`: recorded under its checksum or under none, or unrecorded and working. */
  predicate Passes(table: Table, f: File) {
    if f.version in table then table[f.version] == None || table[f.version] == Some(f.checksum) else f.works
  }

  /** The rows a run leaves over those it found: the first `n` files recorded, each under its checksum, nothing else changed. */
  ghost predicate RowsAfter(before: Table, files: seq<File>, n: nat, after: Table)
    requires n <= |files|
  {
    && (forall i | 0 <= i < n :: files[i].version in after &&
          after[files[i].version] ==
          if files[i].version in before && before[files[i].version].Some? then before[files[i].version] else Some(files[i].checksum))
    && (forall v | v in before && !Reached(files, n, v) :: v in after && after[v] == before[v])
    && (forall v | v in after && !Reached(files, n, v) :: v in before)
  }

  predicate Reached(files: seq<File>, n: nat, v: string)
    requires n <= |files|
  {
    exists i | 0 <= i < n :: files[i].version == v
  }

  /** A run records the files before the first that does not pass, and makes those without a row take effect, in file order. */
  ghost predicate RunOutcome(before: Table, files: seq<File>, n: nat, after: Table, applied: seq<string>) {
    && n <= |files| && (forall i | 0 <= i < n :: Passes(before, files[i])) && (n < |files| ==> !Passes(before, files[n]))
    && RowsAfter(before, files, n, after) && AppliedInOrder(before, files[..n], applied)
  }

  /** `applied` are the versions of `files` without a row, in file order. */
  ghost predicate AppliedInOrder(before: Table, files: seq<File>, applied: seq<string>) {
    exists at: seq<int> | |at| == |applied| && StrictlyIncreasing(at) ::
      && (forall k | 0 <= k < |at| :: 0 <= at[k] < |files| && applied[k] == files[at[k]].version)
      && (forall i | 0 <= i < |files| :: i in at <==> files[i].version !in before)
  }

  lemma {:induction false} PendingPositions(table: Table, files: seq<File>) returns (at: seq<int>)
    ensures |at| == |Pending(table, files)| && StrictlyIncreasing(at)
    ensures forall k | 0 <= k < |at| :: 0 <= at[k] < |files| && Pending(table, files)[k] == files[at[k]].version
    ensures forall i | 0 <= i < |files| :: i in at <==> files[i].version !in table
  {
    at := [];
    if files != [] {
      var n := |files| - 1;
      at := PendingPositions(table, files[..n]);
      if files[n].version !in table {
        at := at + [n];
      }
    }
  }

  lemma PassesIff(table: Table, f: File)
    ensures Passes(table, f) <==> !Fails(table, f)
  {
  }

  lemma {:induction false} RowsAfterAll(table: Table, files: seq<File>, n: nat)
    requires DistinctVersions(files) && n <= |files|
    ensures RowsAfter(table, files, n, RecordAll(table, files[..n]))
  {
    var after := RecordAll(table, files[..n]);
    forall i | 0 <= i < n ensures files[i].version in after && after[files[i].version] == RowAfter(table, files[i]) {
      RecordAllRow(table, files[..n], i);
    }
    RecordAllKeys(table, files[..n]);
    hide RecordAll;
    forall v | !Reached(files, n, v) ensures forall f | f in files[..n] :: f.version != v {
      forall f | f in files[..n] ensures f.version != v {
        var i :| 0 <= i < n && files[..n][i] == f;
        assert files[i] == f;
      }
    }
  }

  /** The rows after the files that go through, file by file. */
  lemma RunOutcomeHolds(table: Table, files: seq<File>, n: nat)
    requires DistinctVersions(files) && GoesThrough(table, files, n)
    ensures RunOutcome(table, files, n, RecordAll(table, files[..n]), Pending(table, files[..n]))
  {
    forall i | 0 <= i < |files| ensures Passes(table, files[i]) <==> !Fails(table, files[i]) {
      PassesIff(table, files[i]);
    }
    hide Fails, Passes, Mismatched, Pending, RecordAll, RowsAfter;
    RowsAfterAll(table, files, n);
    var at := PendingPositions(table, files[..n]);
  }

  /** An unrecorded file whose SQL does not work stops the run before it: it is never recorded and never takes effect. */
  lemma BrokenFileStops(before: Table, files: seq<File>, n: nat, after: Table, applied: seq<string>, k: nat)
    requires RunOutcome(before, files, n, after, applied) && DistinctVersions(files)
    requires k < |files| && files[k].version !in before && !files[k].works
    ensures n <= k && files[k].version !in after && files[k].version !in applied
  {
    var v := files[k].version;
    assert !Passes(before, files[k]);
    assert !Reached(files, n, v);
    var at: seq<int> :| |at| == |applied| && StrictlyIncreasing(at)
      && (forall j | 0 <= j < |at| :: 0 <= at[j] < |files[..n]| && applied[j] == files[..n][at[j]].version);
    assert forall j | 0 <= j < |applied| :: applied[j] == files[..n][at[j]].version == files[at[j]].version;
  }

  class Schema {
    var recorded: Table
    /** Versions whose SQL took effect in a committed transaction, in commit order. */
    var effects: seq<string>

    constructor (table: Table)
      ensures recorded == table && effects == []
    {
      recorded, effects := table, [];
    }

    /** One transaction; on failure it is rolled back and leaves nothing. */
    method ApplyMigration(file: File) returns (r: Result<bool, Failure>)
      modifies this
      ensures r.Err? <==> Fails(old(recorded), file)
      ensures r.Err? ==> recorded == old(recorded) && effects == old(effects)
      ensures r.Err? ==> r.error == if file.version in old(recorded) then ChecksumMismatch(file.version) else SqlError(file.version)
      ensures r.Ok? ==> recorded == Record(old(recorded), file) && (r.value <==> file.version !in old(recorded))
      ensures r.Ok? ==> effects == old(effects) + if r.value then [file.version] else []
    {
      var table, done := recorded, effects;
      var claimed := file.version !in recorded;
      if claimed {
        recorded := recorded[file.version := Some(file.checksum)];
        if !file.works {
          recorded, effects := table, done;
          return Err(SqlError(file.version));
        }
        effects := effects + [file.version];
        return Ok(true);
      }
      var stored := recorded[file.version];
      if stored == None {
        recorded := recorded[file.version := Some(file.checksum)];
      } else if stored.value != file.checksum {
        return Err(ChecksumMismatch(file.version));
      }
      return Ok(false);
    }

    /**
      The whole run: everything before the first failing file is recorded, exactly the files without
      a row take effect, in file order, and nothing after the failing file is looked at.
     */
    method ApplyMigrations(files: seq<File>) returns (r: Result<seq<string>, Failure>, n: nat)
      requires DistinctVersions(files)
      modifies this
      ensures GoesThrough(old(recorded), files, n)
      ensures recorded == RecordAll(old(recorded), files[..n])
      ensures effects == old(effects) + Pending(old(recorded), files[..n])
      ensures RunOutcome(old(recorded), files, n, recorded, effects[|old(effects)|..])
      ensures r.Ok? <==> n == |files|
      ensures r.Ok? ==> r.value == Pending(old(recorded), files)
      ensures r.Err? ==> r.error == if files[n].version in old(recorded) then ChecksumMismatch(files[n].version) else SqlError(files[n].version)
    {
      hide Fails, Mismatched, Record, RecordAll, Pending, RunOutcome;
      var applied := [];
      n := 0;
      ghost var table, done := recorded, effects;
      NoFiles(table, files);
      while n < |files|
        invariant n <= |files|
        invariant forall i | 0 <= i < n :: !Fails(table, files[i])
        invariant recorded == RecordAll(table, files[..n])
        invariant applied == Pending(table, files[..n])
        invariant effects == done + applied
      {
        NextFile(table, files, n);
        var outcome := ApplyMigration(files[n]);
        if outcome.Err? {
          RunOutcomeHolds(table, files, n);
          assert effects[|done|..] == applied;
          return Err(outcome.error), n;
        }
        if outcome.value {
          applied := applied + [files[n].version];
        }
        n := n + 1;
      }
      assert files[..n] == files;
      RunOutcomeHolds(table, files, n);
      assert effects[|done|..] == applied;
      r := Ok(applied);
    }
  }

  // ---------------------------------------------------------------- the next run

  ghost predicate AllRecorded(table: Table, files: seq<File>) {
    forall f | f in files :: f.version in table && table[f.version] == Some(f.checksum)
  }

  /** A completed run leaves every file recorded under its own checksum. */
  lemma CompletedRunRecordsAll(table: Table, files: seq<File>)
    requires DistinctVersions(files) && GoesThrough(table, files, |files|)
    ensures AllRecorded(RecordAll(table, files), files)
  {
    forall i | 0 <= i < |files|
      ensures files[i].version in RecordAll(table, files) && RecordAll(table, files)[files[i].version] == Some(files[i].checksum)
    {
      assert !Fails(table, files[i]);
      RecordAllRow(table, files, i);
    }
  }

  /** The following run over unchanged files goes through, applies nothing and writes nothing. */
  lemma {:induction false} NextRunAppliesNothing(table: Table, files: seq<File>)
    requires AllRecorded(table, files)
    ensures GoesThrough(table, files, |files|)
    ensures Pending(table, files) == [] && RecordAll(table, files) == table
  {
    if files != [] {
      NextRunAppliesNothing(table, files[..|files| - 1]);
    }
  }
}
