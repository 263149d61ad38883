/**
  The daily email quota of `EmailRateLimitService`, within one UTC day and without Redis errors.

  The class is the service over its Redis counters; the step machine is what any number of
  workers do to the one counter they share, with the atomic INCR and DECR as single steps.
 */
module EmailQuota {
  import opened Common

  /** The Redis surface the service uses. */
  class Redis {
    var counters: map<string, int>

    constructor ()
      ensures counters == map[]
    {
      counters := map[];
    }

    function Read(key: string): int
      reads this
    {
      if key in counters then counters[key] else 0
    }

    method Incr(key: string) returns (n: int)
      modifies this
      ensures n == old(Read(key)) + 1 && counters == old(counters)[key := n]
    {
      n := Read(key) + 1;
      counters := counters[key := n];
    }

    method Decr(key: string) returns (n: int)
      modifies this
      ensures n == old(Read(key)) - 1 && counters == old(counters)[key := n]
    {
      n := Read(key) - 1;
      counters := counters[key := n];
    }
  }

  datatype Decision = Decision(allowed: bool, limit: int, used: int)

  /** `email:daily:{tenantId}:{YYYY-MM-DD}` */
  function BuildKey(tenant: string, utcDay: string): string {
    "email:daily:" + tenant + ":" + utcDay
  }

  /** Days are written with ten characters: then a key belongs to one tenant and one day, whatever the tenant is called. */
  lemma KeysOfTenantsDiffer(tenant: string, day: string, tenant': string, day': string)
    requires |day| == |day'| == 10
    ensures BuildKey(tenant, day) == BuildKey(tenant', day') <==> tenant == tenant' && day == day'
  {
    var k, k' := BuildKey(tenant, day), BuildKey(tenant', day');
    assert k[|k| - 10..] == day && k'[|k'| - 10..] == day';
    assert k[12..|k| - 11] == tenant && k'[12..|k'| - 11] == tenant';
  }

  // ---------------------------------------------------------------- calls for several tenants and days

  datatype Call = ReserveCall(tenant: string, day: string) | ReleaseCall(tenant: string, day: string)

  function CallKey(call: Call): string { BuildKey(call.tenant, call.day) }

  function ReadFrom(counters: map<string, int>, key: string): int { if key in counters then counters[key] else 0 }

  function Answer(counters: map<string, int>, limit: int, call: Call): Decision {
    var used := ReadFrom(counters, CallKey(call));
    if limit <= 0 then Decision(true, limit, 0)
    else if used < limit then Decision(true, limit, used + 1)
    else Decision(false, limit, limit)
  }

  function CountersAfter(counters: map<string, int>, limit: int, call: Call): map<string, int> {
    var used := ReadFrom(counters, CallKey(call));
    if limit <= 0 then counters
    else if call.ReleaseCall? then counters[CallKey(call) := used - 1]
    else counters[CallKey(call) := if used < limit then used + 1 else used]
  }

  function CountersOf(limit: int, calls: seq<Call>): map<string, int> {
    if calls == [] then map[] else CountersAfter(CountersOf(limit, calls[..|calls| - 1]), limit, calls[|calls| - 1])
  }

  /** What one tenant was answered on one day, in order. */
  function AnswersTo(limit: int, calls: seq<Call>, tenant: string, day: string): seq<Decision> {
    if calls == [] then []
    else
      var most, call := calls[..|calls| - 1], calls[|calls| - 1];
      var before := AnswersTo(limit, most, tenant, day);
      if call == ReserveCall(tenant, day) then before + [Answer(CountersOf(limit, most), limit, call)] else before
  }

  /** The calls of one tenant and day. */
  function Only(calls: seq<Call>, tenant: string, day: string): seq<Call> {
    if calls == [] then []
    else
      var before, call := Only(calls[..|calls| - 1], tenant, day), calls[|calls| - 1];
      if call.tenant == tenant && call.day == day then before + [call] else before
  }

  ghost predicate DaysWritten(calls: seq<Call>) { forall i | 0 <= i < |calls| :: |calls[i].day| == 10 }

  /** Slots granted to a tenant on a day and not given back. */
  function Balance(limit: int, calls: seq<Call>, tenant: string, day: string): int {
    if calls == [] then 0
    else
      var most, call := calls[..|calls| - 1], calls[|calls| - 1];
      Balance(limit, most, tenant, day) +
      if call == ReserveCall(tenant, day) && Answer(CountersOf(limit, most), limit, call).allowed then 1
      else if call == ReleaseCall(tenant, day) then -1
      else 0
  }

  lemma AppendCall(limit: int, calls: seq<Call>, call: Call, tenant: string, day: string)
    ensures CountersOf(limit, calls + [call]) == CountersAfter(CountersOf(limit, calls), limit, call)
    ensures AnswersTo(limit, calls + [call], tenant, day) ==
            if call == ReserveCall(tenant, day)
            then AnswersTo(limit, calls, tenant, day) + [Answer(CountersOf(limit, calls), limit, call)] else AnswersTo(limit, calls, tenant, day)
    ensures Only(calls + [call], tenant, day) ==
            if call.tenant == tenant && call.day == day then Only(calls, tenant, day) + [call] else Only(calls, tenant, day)
    ensures DaysWritten(calls + [call]) ==> DaysWritten(calls) && |call.day| == 10
  {
    var all := calls + [call];
    assert all[..|calls|] == calls && all[|calls|] == call;
    assert forall i | 0 <= i < |calls| :: all[i] == calls[i];
  }

  /** A call moves its own counter, by what the counter holds, and no other. */
  lemma CountersStep(counters: map<string, int>, others: map<string, int>, limit: int, call: Call, tenant: string, day: string)
    requires |call.day| == |day| == 10
    requires ReadFrom(counters, BuildKey(tenant, day)) == ReadFrom(others, BuildKey(tenant, day))
    ensures call.tenant == tenant && call.day == day ==>
              ReadFrom(CountersAfter(counters, limit, call), BuildKey(tenant, day)) ==
              ReadFrom(CountersAfter(others, limit, call), BuildKey(tenant, day))
    ensures !(call.tenant == tenant && call.day == day) ==>
              ReadFrom(CountersAfter(counters, limit, call), BuildKey(tenant, day)) == ReadFrom(counters, BuildKey(tenant, day))
    ensures Answer(counters, limit, ReserveCall(tenant, day)) == Answer(others, limit, ReserveCall(tenant, day))
  {
    KeysOfTenantsDiffer(call.tenant, call.day, tenant, day);
    hide BuildKey;
  }

  /** A counter is what was granted and not given back. */
  lemma {:induction false} CounterIsBalance(limit: int, calls: seq<Call>, tenant: string, day: string)
    requires limit > 0 && DaysWritten(calls) && |day| == 10
    ensures ReadFrom(CountersOf(limit, calls), BuildKey(tenant, day)) == Balance(limit, calls, tenant, day)
  {
    if calls != [] {
      var call := calls[|calls| - 1];
      CounterIsBalance(limit, calls[..|calls| - 1], tenant, day);
      KeysOfTenantsDiffer(call.tenant, call.day, tenant, day);
      hide BuildKey;
    }
  }

  /** A reservation is granted exactly while the tenant's own grants of that day, less what it gave back, are below the limit. */
  lemma GrantedIffBelowLimit(limit: int, calls: seq<Call>, tenant: string, day: string)
    requires DaysWritten(calls) && |day| == 10
    ensures Answer(CountersOf(limit, calls), limit, ReserveCall(tenant, day)).allowed <==>
            limit <= 0 || Balance(limit, calls, tenant, day) < limit
  {
    if limit > 0 { CounterIsBalance(limit, calls, tenant, day); }
  }

  lemma {:induction false} SameCounter(limit: int, calls: seq<Call>, tenant: string, day: string)
    requires DaysWritten(calls) && |day| == 10
    ensures ReadFrom(CountersOf(limit, calls), BuildKey(tenant, day)) == ReadFrom(CountersOf(limit, Only(calls, tenant, day)), BuildKey(tenant, day))
  {
    if calls != [] {
      hide *;
      var most, call := calls[..|calls| - 1], calls[|calls| - 1];
      assert calls == most + [call];
      AppendCall(limit, most, call, tenant, day);
      SameCounter(limit, most, tenant, day);
      AppendCall(limit, Only(most, tenant, day), call, tenant, day);
      CountersStep(CountersOf(limit, most), CountersOf(limit, Only(most, tenant, day)), limit, call, tenant, day);
    }
  }

  lemma NoCalls(limit: int, tenant: string, day: string)
    ensures AnswersTo(limit, [], tenant, day) == AnswersTo(limit, Only([], tenant, day), tenant, day)
  {
  }

  /** What a tenant is answered on a day never depends on the calls of other tenants, or of other days. */
  lemma {:induction false} OthersDoNotMatter(limit: int, calls: seq<Call>, tenant: string, day: string)
    requires DaysWritten(calls) && |day| == 10
    ensures AnswersTo(limit, calls, tenant, day) == AnswersTo(limit, Only(calls, tenant, day), tenant, day)
  {
    hide *;
    NoCalls(limit, tenant, day);
    if calls != [] {
      var most, call := calls[..|calls| - 1], calls[|calls| - 1];
      assert calls == most + [call];
      AppendCall(limit, most, call, tenant, day);
      OthersDoNotMatter(limit, most, tenant, day);
      SameCounter(limit, most, tenant, day);
      AppendCall(limit, Only(most, tenant, day), call, tenant, day);
      CountersStep(CountersOf(limit, most), CountersOf(limit, Only(most, tenant, day)), limit, call, tenant, day);
    }
  }

  class EmailRateLimitService {
    const redis: Redis
    const dailyLimit: int

    constructor (redis: Redis, dailyLimit: int)
      ensures this.redis == redis && this.dailyLimit == dailyLimit
    {
      this.redis, this.dailyLimit := redis, dailyLimit;
    }

    /** Claim one email. Undisturbed, a refused call leaves the counter as it found it. */
    method Reserve(tenant: string, utcDay: string) returns (d: Decision)
      modifies redis
      ensures d == Answer(old(redis.counters), dailyLimit, ReserveCall(tenant, utcDay))
      ensures redis.counters == CountersAfter(old(redis.counters), dailyLimit, ReserveCall(tenant, utcDay))
      ensures d.limit == dailyLimit
      ensures dailyLimit <= 0 ==> d.allowed && redis.counters == old(redis.counters)
      ensures dailyLimit > 0 ==> (d.allowed <==> old(redis.Read(BuildKey(tenant, utcDay))) < dailyLimit)
      ensures dailyLimit > 0 ==>
                redis.Read(BuildKey(tenant, utcDay)) == old(redis.Read(BuildKey(tenant, utcDay))) + if d.allowed then 1 else 0
      ensures dailyLimit > 0 ==> d.used == if d.allowed then redis.Read(BuildKey(tenant, utcDay)) else dailyLimit
      ensures forall k | k != BuildKey(tenant, utcDay) :: redis.Read(k) == old(redis.Read(k))
    {
      if dailyLimit <= 0 {
        return Decision(true, dailyLimit, 0);
      }
      var key := BuildKey(tenant, utcDay);
      var used := redis.Incr(key);
      if used > dailyLimit {
        GiveBack(key);
        return Decision(false, dailyLimit, dailyLimit);
      }
      d := Decision(true, dailyLimit, used);
    }

    method Release(tenant: string, utcDay: string)
      modifies redis
      ensures redis.counters == CountersAfter(old(redis.counters), dailyLimit, ReleaseCall(tenant, utcDay))
      ensures dailyLimit <= 0 ==> redis.counters == old(redis.counters)
      ensures dailyLimit > 0 ==> redis.Read(BuildKey(tenant, utcDay)) == old(redis.Read(BuildKey(tenant, utcDay))) - 1
      ensures forall k | k != BuildKey(tenant, utcDay) :: redis.Read(k) == old(redis.Read(k))
    {
      if dailyLimit <= 0 {
        return;
      }
      GiveBack(BuildKey(tenant, utcDay));
    }

    method GiveBack(key: string)
      modifies redis
      ensures redis.counters == old(redis.counters)[key := old(redis.Read(key)) - 1]
    {
      var _ := redis.Decr(key);
    }
  }

  // ---------------------------------------------------------------- interleaved workers

  /** Where one worker stands with the one counter. */
  datatype Worker =
    | Idle
    | Granted      // holds a slot, email not sent yet
    | Overshot     // its INCR passed the limit; its DECR is still to come
    | Returning    // delivery threw; `release` is still to come

  /**
    `delivered` counts emails that left. `undone` counts those among them whose
    `markChannelDelivered` failed afterwards: the same `catch` then gives the slot back.
    `lostSlots` and `lostOvershoots` count increments stranded by worker crashes.
   */
  datatype State = State(counter: int, workers: seq<Worker>, delivered: nat, undone: nat, lostSlots: nat, lostOvershoots: nat)

  datatype Action =
    | Reserve(w: nat)
    | GiveBack(w: nat)
    | Send(w: nat)
    | SendFails(w: nat)
    | SendButMarkFails(w: nat)
    | Release(w: nat)
    | Crash(w: nat)

  function Initial(n: nat): State {
    State(0, seq(n, i => Idle), 0, 0, 0, 0)
  }

  /** One atomic step under a positive limit; an action its worker cannot take changes nothing. */
  function Step(limit: int, s: State, a: Action): State {
    if a.w >= |s.workers| then s
    else
      var at := s.workers[a.w];
      match a
      case Reserve(w) =>
        if at != Idle then s
        else
          var used := s.counter + 1;
          s.(counter := used, workers := s.workers[w := if used > limit then Overshot else Granted])
      case GiveBack(w) =>
        if at != Overshot then s else s.(counter := s.counter - 1, workers := s.workers[w := Idle])
      case Send(w) =>
        if at != Granted then s else s.(delivered := s.delivered + 1, workers := s.workers[w := Idle])
      case SendFails(w) =>
        if at != Granted then s else s.(workers := s.workers[w := Returning])
      case SendButMarkFails(w) =>
        if at != Granted then s
        else s.(delivered := s.delivered + 1, undone := s.undone + 1, workers := s.workers[w := Returning])
      case Release(w) =>
        if at != Returning then s else s.(counter := s.counter - 1, workers := s.workers[w := Idle])
      case Crash(w) =>
        match at
        case Idle => s
        case Overshot => s.(lostOvershoots := s.lostOvershoots + 1, workers := s.workers[w := Idle])
        case _ => s.(lostSlots := s.lostSlots + 1, workers := s.workers[w := Idle])
  }

  function Run(limit: int, s: State, actions: seq<Action>): State
    decreases |actions|
  {
    if actions == [] then s else Run(limit, Step(limit, s, actions[0]), actions[1..])
  }

  function CountAt(s: State, at: Worker): nat {
    multiset(s.workers)[at]
  }

  /** Slots of the allowance that are spent or spoken for. */
  function Held(s: State): int {
    s.delivered - s.undone + CountAt(s, Granted) + CountAt(s, Returning) + s.lostSlots
  }

  ghost predicate Conserved(limit: int, s: State) {
    && s.counter == Held(s) + CountAt(s, Overshot) + s.lostOvershoots
    && Held(s) <= limit
  }

  lemma WorkerMoves(s: State, t: State, w: nat, at: Worker)
    requires w < |s.workers| == |t.workers| && t.workers == s.workers[w := t.workers[w]]
    ensures CountAt(t, at) == CountAt(s, at) - (if at == s.workers[w] then 1 else 0) + (if at == t.workers[w] then 1 else 0)
  {
    assert s.workers[w] in multiset(s.workers);
    assert multiset(t.workers) == multiset(s.workers) - multiset{s.workers[w]} + multiset{t.workers[w]};
  }

  lemma StepMovesOne(limit: int, s: State, a: Action)
    requires a.w < |s.workers|
    ensures var t := Step(limit, s, a); |t.workers| == |s.workers| && t.workers == s.workers[a.w := t.workers[a.w]]
  {
  }

  lemma StepConserves(limit: int, s: State, a: Action)
    requires Conserved(limit, s)
    ensures Conserved(limit, Step(limit, s, a))
  {
    if a.w < |s.workers| {
      hide CountAt;
      var t := Step(limit, s, a);
      StepMovesOne(limit, s, a);
      WorkerMoves(s, t, a.w, Granted);
      WorkerMoves(s, t, a.w, Overshot);
      WorkerMoves(s, t, a.w, Returning);
    }
  }

  lemma {:induction false} RunConserves(limit: int, s: State, actions: seq<Action>)
    requires Conserved(limit, s)
    ensures Conserved(limit, Run(limit, s, actions))
    decreases |actions|
  {
    if actions != [] {
      StepConserves(limit, s, actions[0]);
      RunConserves(limit, Step(limit, s, actions[0]), actions[1..]);
    }
  }

  /**
    In every interleaving the counter is what was sent, plus what is reserved, overshooting or
    being returned, plus what crashes stranded; and emails beyond the limit can only come from
    slots that were given back after their email had left.
   */
  lemma QuotaSafety(limit: nat, n: nat, actions: seq<Action>)
    requires limit > 0
    ensures var s := Run(limit, Initial(n), actions);
            && s.counter == s.delivered - s.undone + CountAt(s, Granted) + CountAt(s, Returning) + CountAt(s, Overshot)
                            + s.lostSlots + s.lostOvershoots
            && s.delivered <= limit + s.undone
  {
    InitiallyIdle(n);
    RunConserves(limit, Initial(n), actions);
  }

  lemma InitiallyIdle(n: nat)
    ensures forall at | at != Idle :: CountAt(Initial(n), at) == 0
  {
    forall at: Worker | at != Idle ensures CountAt(Initial(n), at) == 0 {
      assert at !in Initial(n).workers;
    }
  }

  /** With every worker idle, no crash and no lost mark, the counter is the number of emails sent. */
  lemma QuiescentCounter(limit: nat, n: nat, actions: seq<Action>)
    requires limit > 0
    requires var s := Run(limit, Initial(n), actions);
             && s.undone == s.lostSlots == s.lostOvershoots == 0
             && forall w | w in s.workers :: w == Idle
    ensures Run(limit, Initial(n), actions).counter == Run(limit, Initial(n), actions).delivered <= limit
  {
    QuotaSafety(limit, n, actions);
    var s := Run(limit, Initial(n), actions);
    assert Granted !in s.workers && Overshot !in s.workers && Returning !in s.workers;
  }

  /** A reservation is refused exactly when the held slots and the pending overshoots reach the limit. */
  lemma RefusedIffFull(limit: nat, n: nat, actions: seq<Action>, w: nat)
    requires limit > 0
    requires w < |Run(limit, Initial(n), actions).workers|
    requires Run(limit, Initial(n), actions).workers[w] == Idle
    ensures var s := Run(limit, Initial(n), actions);
            Step(limit, s, Reserve(w)).workers[w] == Overshot <==> Held(s) + CountAt(s, Overshot) + s.lostOvershoots >= limit
  {
    InitiallyIdle(n);
    RunConserves(limit, Initial(n), actions);
  }

  // ---------------------------------------------------------------- the bound is tight

  function Repeat(k: nat, block: seq<Action>): seq<Action> {
    if k == 0 then [] else block + Repeat(k - 1, block)
  }

  lemma {:induction false} RunConcat(limit: int, s: State, a: seq<Action>, b: seq<Action>)
    ensures Run(limit, s, a + b) == Run(limit, Run(limit, s, a), b)
    decreases |a|
  {
    if a == [] {
      assert a + b == b;
    } else {
      assert (a + b)[1..] == a[1..] + b;
      RunConcat(limit, Step(limit, s, a[0]), a[1..], b);
    }
  }

  const LOSE_MARK: seq<Action> := [Reserve(0), SendButMarkFails(0), Release(0)]
  const SEND_ONE: seq<Action> := [Reserve(0), Send(0)]

  lemma {:induction false} LostMarks(limit: nat, k: nat, s: State)
    requires limit > 0 && s.counter == 0 && s.workers == [Idle]
    ensures Run(limit, s, Repeat(k, LOSE_MARK)) == s.(delivered := s.delivered + k, undone := s.undone + k)
  {
    if k > 0 {
      var s1 := Step(limit, s, Reserve(0));
      var s2 := Step(limit, s1, SendButMarkFails(0));
      var s3 := Step(limit, s2, Release(0));
      assert s3 == s.(delivered := s.delivered + 1, undone := s.undone + 1);
      assert LOSE_MARK[1..] == [SendButMarkFails(0), Release(0)] && LOSE_MARK[1..][1..] == [Release(0)];
      assert Run(limit, s2, [Release(0)]) == s3;
      RunConcat(limit, s, LOSE_MARK, Repeat(k - 1, LOSE_MARK));
      LostMarks(limit, k - 1, s3);
    }
  }

  lemma {:induction false} Sends(limit: nat, k: nat, s: State)
    requires 0 <= s.counter && s.counter + k <= limit && s.workers == [Idle]
    ensures Run(limit, s, Repeat(k, SEND_ONE)) == s.(delivered := s.delivered + k, counter := s.counter + k)
  {
    if k > 0 {
      var s1 := Step(limit, s, Reserve(0));
      var s2 := Step(limit, s1, Send(0));
      assert s2 == s.(delivered := s.delivered + 1, counter := s.counter + 1);
      assert SEND_ONE[1..] == [Send(0)];
      assert Run(limit, s1, [Send(0)]) == s2;
      RunConcat(limit, s, SEND_ONE, Repeat(k - 1, SEND_ONE));
      Sends(limit, k - 1, s2);
    }
  }

  /**
    The claim "never more than `limit` emails" is false without the mark: for every positive limit
    and every number of lost marks, one worker alone can reach the bound of `QuotaSafety`.
   */
  lemma LostMarksOverrun(limit: nat, lost: nat)
    requires limit > 0
    ensures exists actions :: var s := Run(limit, Initial(1), actions); s.undone == lost && s.delivered == limit + lost
  {
    assert Initial(1).workers == [Idle];
    LostMarks(limit, lost, Initial(1));
    var s := Run(limit, Initial(1), Repeat(lost, LOSE_MARK));
    Sends(limit, limit, s);
    RunConcat(limit, Initial(1), Repeat(lost, LOSE_MARK), Repeat(limit, SEND_ONE));
    var t := Run(limit, Initial(1), Repeat(lost, LOSE_MARK) + Repeat(limit, SEND_ONE));
    assert t.undone == lost && t.delivered == limit + lost;
  }
}
