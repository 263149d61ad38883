/**
  One channel of one alert under concurrent attempts, as when a stalled job is run again beside
  itself: each attempt reads the row, sends, and marks the channel, with anything in between.
 */
module DeliveryRace {
  import opened Common

  /** An attempt that found the channel open: its message has not left yet, or has and is not marked. */
  datatype Phase = Ready | Away

  /**
    `left` counts messages that left, `lost` those whose mark never came, and `repeated` the marks
    that found the channel `sent` already.
   */
  datatype State = State(sent: bool, active: map<int, Phase>, left: nat, lost: nat, repeated: nat)

  datatype Step =
    | Read(pid: int)       // the attempt reads the row; a `sent` channel is not attempted
    | Send(pid: int)
    | Refuse(pid: int)     // the transport throws
    | Mark(pid: int)
    | LoseMark(pid: int)   // the mark throws, or the process is lost

  predicate In(s: State, pid: int, phase: Phase) { pid in s.active && s.active[pid] == phase }

  /** One atomic step; one that makes no sense changes nothing. */
  function Exec(s: State, step: Step): State {
    match step
    case Read(pid) => if s.sent || pid in s.active then s else s.(active := s.active[pid := Ready])
    case Send(pid) => if In(s, pid, Ready) then s.(active := s.active[pid := Away], left := s.left + 1) else s
    case Refuse(pid) => if In(s, pid, Ready) then s.(active := s.active - {pid}) else s
    case Mark(pid) =>
      if In(s, pid, Away)
      then s.(sent := true, active := s.active - {pid}, repeated := s.repeated + if s.sent then 1 else 0)
      else s
    case LoseMark(pid) => if In(s, pid, Away) then s.(active := s.active - {pid}, lost := s.lost + 1) else s
  }

  function Run(steps: seq<Step>): State {
    if steps == [] then State(false, map[], 0, 0, 0) else Exec(Run(steps[..|steps| - 1]), steps[|steps| - 1])
  }

  lemma AppendStep(steps: seq<Step>, step: Step)
    ensures Run(steps + [step]) == Exec(Run(steps), step)
  {
    hide Exec;
    assert (steps + [step])[..|steps|] == steps;
  }

  // ---------------------------------------------------------------- every message is accounted for

  /** The attempts whose message is out and not yet marked. */
  function Out(s: State): set<int> { set p | p in s.active && s.active[p] == Away }

  ghost predicate Balanced(s: State) {
    s.left == s.lost + s.repeated + |Out(s)| + if s.sent then 1 else 0
  }

  lemma OutAfter(s: State, pid: int, phase: Phase)
    ensures Out(s.(active := s.active[pid := phase])) == if phase == Away then Out(s) + {pid} else Out(s) - {pid}
    ensures Out(s.(active := s.active - {pid})) == Out(s) - {pid}
    ensures pid in Out(s) <==> In(s, pid, Away)
  {
  }

  lemma OutIgnoresRest(s: State, t: State)
    requires t.active == s.active
    ensures Out(t) == Out(s)
  {
  }

  lemma StepBalances(s: State, step: Step)
    requires Balanced(s)
    ensures Balanced(Exec(s, step))
  {
    hide Out;
    var t := Exec(s, step);
    OutAfter(s, step.pid, Ready);
    OutAfter(s, step.pid, Away);
    OutIgnoresRest(t, s.(active := t.active));
    assert step.pid !in Out(s) ==> Out(s) - {step.pid} == Out(s);
  }

  /** In every interleaving a message that left is the one recorded, on its way to its mark, repeated, or its mark is lost. */
  lemma {:induction false} MessagesAccountedFor(steps: seq<Step>)
    ensures Balanced(Run(steps))
  {
    if steps != [] {
      MessagesAccountedFor(steps[..|steps| - 1]);
      StepBalances(Run(steps[..|steps| - 1]), steps[|steps| - 1]);
    } else {
      assert Out(Run(steps)) == {};
    }
  }

  // ---------------------------------------------------------------- when a message is repeated

  /** Step `at` opens an attempt of `pid` on an open channel. */
  ghost predicate Opens(steps: seq<Step>, at: nat, pid: int) {
    at < |steps| && steps[at] == Read(pid) && !Run(steps[..at]).sent && pid !in Run(steps[..at]).active
  }

  /** Step `at` records the channel as `sent` for the first time. */
  ghost predicate Records(steps: seq<Step>, at: nat) {
    at < |steps| && !Run(steps[..at]).sent && Exec(Run(steps[..at]), steps[at]).sent
  }

  lemma PrefixStays(steps: seq<Step>, step: Step, at: nat, pid: int)
    ensures Opens(steps, at, pid) ==> Opens(steps + [step], at, pid)
    ensures Records(steps, at) <==> Records(steps + [step], at) && at < |steps|
  {
    hide Run, Exec;
    if at < |steps| {
      assert (steps + [step])[..at] == steps[..at];
    }
  }

  /** What stands behind an attempt under way. */
  ghost predicate Overlaps(steps: seq<Step>, pid: int) {
    exists a: nat | Opens(steps, a, pid) :: Run(steps).sent ==> exists b: nat :: a < b && Records(steps, b)
  }

  lemma OverlapsStep(steps: seq<Step>, step: Step, pid: int)
    requires Overlaps(steps, pid)
    ensures Overlaps(steps + [step], pid)
  {
    AppendStep(steps, step);
    var all := steps + [step];
    assert all[..|steps|] == steps && all[|steps|] == step;
    hide Run, Exec;
    var a: nat :| Opens(steps, a, pid) && (Run(steps).sent ==> exists b: nat :: a < b && Records(steps, b));
    PrefixStays(steps, step, a, pid);
    if Run(all).sent {
      if Run(steps).sent {
        var b: nat :| a < b && Records(steps, b);
        PrefixStays(steps, step, b, pid);
      } else {
        assert Records(all, |steps|);
      }
    }
  }

  lemma OpensNow(steps: seq<Step>, pid: int)
    requires !Run(steps).sent && pid !in Run(steps).active
    ensures Overlaps(steps + [Read(pid)], pid)
  {
    AppendStep(steps, Read(pid));
    var all := steps + [Read(pid)];
    assert all[..|steps|] == steps && all[|steps|] == Read(pid);
    hide Run;
    assert Opens(all, |steps|, pid);
  }

  lemma {:induction false} ActiveOverlaps(steps: seq<Step>, pid: int)
    requires pid in Run(steps).active
    ensures Overlaps(steps, pid)
  {
    var most, step := steps[..|steps| - 1], steps[|steps| - 1];
    assert steps == most + [step];
    hide Overlaps;
    if pid in Run(most).active {
      ActiveOverlaps(most, pid);
      OverlapsStep(most, step, pid);
    } else {
      assert step == Read(pid);
      OpensNow(most, pid);
    }
  }

  /**
    A mark repeats a message exactly when, since its attempt read the row, another attempt recorded
    the channel as `sent`.
   */
  lemma MarkRepeatsIffOverlapped(steps: seq<Step>, pid: int)
    requires In(Run(steps), pid, Away)
    ensures Exec(Run(steps), Mark(pid)).repeated == Run(steps).repeated + 1 <==>
            exists a: nat, b: nat :: a < b && Opens(steps, a, pid) && Records(steps, b)
  {
    ActiveOverlaps(steps, pid);
    hide Run, Opens, Records;
    if Run(steps).sent {
      var a: nat :| Opens(steps, a, pid) && (Run(steps).sent ==> exists b: nat :: a < b && Records(steps, b));
      var b: nat :| a < b && Records(steps, b);
    }
    if b: nat :| Records(steps, b) {
      RecordedStays(steps, b);
    }
  }

  lemma {:induction false} RecordedStays(steps: seq<Step>, b: nat)
    requires Records(steps, b)
    ensures Run(steps).sent
  {
    var most, step := steps[..|steps| - 1], steps[|steps| - 1];
    assert steps == most + [step];
    if b < |most| {
      PrefixStays(most, step, b, 0);
      RecordedStays(most, b);
    }
  }

  ghost predicate Serial(steps: seq<Step>) {
    forall i | 0 <= i < |steps| && steps[i].Read? :: Run(steps[..i]).active == map[]
  }

  /** Attempts that never overlap never repeat a message: it leaves once, plus once per lost mark. */
  lemma {:induction false} SerialNeverRepeats(steps: seq<Step>)
    requires Serial(steps)
    ensures var s := Run(steps);
            && s.repeated == 0 && s.left <= s.lost + 1
            && |s.active| <= 1 && (s.active != map[] ==> !s.sent)
  {
    MessagesAccountedFor(steps);
    if steps != [] {
      var n := |steps| - 1;
      assert forall i | 0 <= i < n :: steps[..n][..i] == steps[..i];
      SerialNeverRepeats(steps[..n]);
      SerialStep(Run(steps[..n]), steps[n]);
    }
    AtMostOneOut(Run(steps));
  }

  lemma AtMostOneOut(s: State)
    requires |s.active| <= 1
    ensures |Out(s)| <= |s.active|
  {
    assert |s.active.Keys| == |s.active| && Out(s) <= s.active.Keys;
    SmallerSet(Out(s), s.active.Keys);
  }

  lemma SmallerSet(a: set<int>, b: set<int>)
    requires a <= b
    ensures |a| <= |b|
  {
    assert b == a + (b - a);
  }

  lemma SerialStep(s: State, step: Step)
    requires s.repeated == 0 && |s.active| <= 1 && (s.active != map[] ==> !s.sent)
    requires step.Read? ==> s.active == map[]
    ensures var t := Exec(s, step); t.repeated == 0 && |t.active| <= 1 && (t.active != map[] ==> !t.sent)
  {
    var t := Exec(s, step);
    if step.pid in s.active && s.active != map[] {
      OnlyOne(s.active, step.pid);
      assert t.active.Keys <= {step.pid};
      SmallerSet(t.active.Keys, {step.pid});
      assert |t.active.Keys| == |t.active|;
      assert step.pid !in t.active ==> t.active == map[];
    }
  }

  lemma OnlyOne(m: map<int, Phase>, p: int)
    requires p in m && |m| <= 1
    ensures m.Keys == {p}
  {
    assert |m.Keys| == |m| && {p} <= m.Keys;
    assert |m.Keys - {p}| == |m.Keys| - 1;
    assert m.Keys == {p} + (m.Keys - {p});
  }

  /** Two attempts that both read the open row before either marks it send the message twice. */
  lemma TwoAttemptsSendTwice() returns (steps: seq<Step>)
    ensures Run(steps).left == 2 && Run(steps).repeated == 1 && Run(steps).lost == 0
  {
    AppendStep([], Read(1));
    var s1 := [] + [Read(1)];
    assert Run(s1) == State(false, map[1 := Ready], 0, 0, 0);
    hide Run;
    AppendStep(s1, Read(2));
    var s2 := s1 + [Read(2)];
    assert Run(s2) == State(false, map[1 := Ready, 2 := Ready], 0, 0, 0);
    AppendStep(s2, Send(1));
    AppendStep(s2 + [Send(1)], Send(2));
    var s4 := s2 + [Send(1)] + [Send(2)];
    assert Run(s4) == State(false, map[1 := Away, 2 := Away], 2, 0, 0);
    AppendStep(s4, Mark(1));
    AppendStep(s4 + [Mark(1)], Mark(2));
    steps := s4 + [Mark(1)] + [Mark(2)];
  }
}
