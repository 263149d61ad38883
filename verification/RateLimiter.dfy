/**
  The in-process fixed-window limiter: `MemoryRateLimitStore`, its eviction, and how many requests
  of one key the guard can admit in a span of one window.
 */
module RateLimiter {
  import opened Common

  datatype Window = Window(hits: nat, expiresAt: int)

  predicate Open(w: Window, now: int) { w.expiresAt > now }

  function Live(windows: map<string, Window>, now: int): map<string, Window> {
    map k | k in windows && Open(windows[k], now) :: windows[k]
  }

  /** The window a request of `key` is counted in, after counting it. */
  function Counted(windows: map<string, Window>, key: string, windowMs: int, now: int): Window {
    if key in windows && Open(windows[key], now) then windows[key].(hits := windows[key].hits + 1)
    else Window(1, now + windowMs)
  }

  class MemoryRateLimitStore {
    var windows: map<string, Window>

    constructor ()
      ensures windows == map[]
    {
      windows := map[];
    }

    method Consume(key: string, windowMs: int, now: int) returns (totalHits: nat, resetAfterMs: int)
      modifies this
      ensures windows == Consumed(old(windows), key, windowMs, now)
      ensures totalHits == Counted(old(windows), key, windowMs, now).hits
      ensures now + resetAfterMs == Counted(old(windows), key, windowMs, now).expiresAt
      ensures windows.Keys <= old(windows).Keys + {key}
      ensures (key in old(windows) && Open(old(windows)[key], now)) || forall k | k in windows && k != key :: Open(windows[k], now)
    {
      if key in windows && Open(windows[key], now) {
        windows := windows[key := windows[key].(hits := windows[key].hits + 1)];
        return windows[key].hits, windows[key].expiresAt - now;
      }
      EvictExpired(now);
      windows := windows[key := Window(1, now + windowMs)];
      totalHits, resetAfterMs := 1, windowMs;
    }

    method EvictExpired(now: int)
      modifies this
      ensures windows == Live(old(windows), now)
    {
      var rest := windows.Keys;
      while rest != {}
        invariant rest <= windows.Keys <= old(windows).Keys
        invariant forall k | k in old(windows) :: k in windows <==> k in rest || Open(old(windows)[k], now)
        invariant forall k | k in windows :: windows[k] == old(windows)[k]
        decreases |rest|
      {
        var k := AnyOf(rest);
        rest := rest - {k};
        if !Open(windows[k], now) {
          windows := windows - {k};
        }
      }
    }
  }

  /** What `consume` leaves: eviction runs only when a window is opened. */
  function Consumed(windows: map<string, Window>, key: string, windowMs: int, now: int): map<string, Window> {
    var kept := if key in windows && Open(windows[key], now) then windows else Live(windows, now);
    kept[key := Counted(windows, key, windowMs, now)]
  }

  // ---------------------------------------------------------------- runs

  datatype Call = Call(key: string, at: int)

  ghost predicate Monotone(calls: seq<Call>) {
    forall i, j | 0 <= i < j < |calls| :: calls[i].at <= calls[j].at
  }

  /** The store after a run of calls. */
  function After(calls: seq<Call>, windowMs: int): map<string, Window> {
    if calls == [] then map[]
    else
      var n := |calls| - 1;
      Consumed(After(calls[..n], windowMs), calls[n].key, windowMs, calls[n].at)
  }

  /** The same run on a store that never evicts. */
  function AfterKeeping(calls: seq<Call>, windowMs: int): map<string, Window> {
    if calls == [] then map[]
    else
      var n := |calls| - 1;
      var kept := AfterKeeping(calls[..n], windowMs);
      kept[calls[n].key := Counted(kept, calls[n].key, windowMs, calls[n].at)]
  }

  /** The hit count answered to the last call. */
  function LastAnswer(calls: seq<Call>, windowMs: int): nat
    requires calls != []
  {
    var n := |calls| - 1;
    Counted(After(calls[..n], windowMs), calls[n].key, windowMs, calls[n].at).hits
  }

  function LastAnswerKeeping(calls: seq<Call>, windowMs: int): nat
    requires calls != []
  {
    var n := |calls| - 1;
    Counted(AfterKeeping(calls[..n], windowMs), calls[n].key, windowMs, calls[n].at).hits
  }

  ghost predicate AgreeFrom(a: map<string, Window>, b: map<string, Window>, now: int) {
    && (forall k :: k in a && Open(a[k], now) ==> k in b && b[k] == a[k])
    && (forall k :: k in b && Open(b[k], now) ==> k in a && a[k] == b[k])
  }

  lemma {:induction false} StoresAgree(calls: seq<Call>, windowMs: int, now: int)
    requires Monotone(calls) && forall i | 0 <= i < |calls| :: calls[i].at <= now
    ensures AgreeFrom(After(calls, windowMs), AfterKeeping(calls, windowMs), now)
  {
    if calls != [] {
      var n := |calls| - 1;
      StoresAgree(calls[..n], windowMs, calls[n].at);
    }
  }

  /** With a monotone clock, eviction never changes an answer. */
  lemma EvictionIsInvisible(calls: seq<Call>, windowMs: int)
    requires calls != [] && Monotone(calls)
    ensures LastAnswer(calls, windowMs) == LastAnswerKeeping(calls, windowMs)
  {
    var n := |calls| - 1;
    StoresAgree(calls[..n], windowMs, calls[n].at);
  }

  // ---------------------------------------------------------------- admission

  /** Requests of `key` admitted under `limit` with a time in [from, from + windowMs). */
  function Admitted(calls: seq<Call>, key: string, windowMs: int, limit: int, from: int): nat {
    if calls == [] then 0
    else
      var last := calls[|calls| - 1];
      Admitted(calls[..|calls| - 1], key, windowMs, limit, from) +
      if last.key == key && from <= last.at < from + windowMs && LastAnswer(calls, windowMs) <= limit then 1 else 0
  }

  function Min(a: int, b: int): int { if a < b then a else b }

  /**
    The inductive bound, by where the current window of `key` starts: before the span, its opening
    request is outside it; inside the span, every earlier window started before it.
   */
  ghost predicate SpanBound(w: Option<Window>, count: nat, windowMs: int, limit: int, from: int) {
    match w
    case None => count == 0
    case Some(w) =>
      var start, admitted := w.expiresAt - windowMs, Min(w.hits, limit);
      && w.hits >= 1
      && count <= if start < from then admitted - 1
                  else if start < from + windowMs then limit - 1 + admitted
                  else 2 * limit - 1
  }

  function WindowOf(windows: map<string, Window>, key: string): Option<Window> {
    if key in windows then Some(windows[key]) else None
  }

  lemma {:induction false} NothingBefore(calls: seq<Call>, key: string, windowMs: int, limit: int, from: int)
    requires forall i | 0 <= i < |calls| :: calls[i].at < from
    ensures Admitted(calls, key, windowMs, limit, from) == 0
  {
    if calls != [] {
      NothingBefore(calls[..|calls| - 1], key, windowMs, limit, from);
    }
  }

  lemma {:induction false} WindowsStartInThePast(calls: seq<Call>, key: string, windowMs: int)
    requires Monotone(calls) && key in AfterKeeping(calls, windowMs)
    ensures calls != [] && AfterKeeping(calls, windowMs)[key].expiresAt - windowMs <= calls[|calls| - 1].at
  {
    var n := |calls| - 1;
    if key in AfterKeeping(calls[..n], windowMs) {
      WindowsStartInThePast(calls[..n], key, windowMs);
    }
  }

  lemma {:induction false} SpanInvariant(calls: seq<Call>, key: string, windowMs: int, limit: int, from: int)
    requires Monotone(calls) && windowMs > 0 && limit >= 1
    ensures SpanBound(WindowOf(AfterKeeping(calls, windowMs), key), Admitted(calls, key, windowMs, limit, from), windowMs, limit, from)
  {
    if calls != [] {
      var n := |calls| - 1;
      var last := calls[n];
      SpanInvariant(calls[..n], key, windowMs, limit, from);
      EvictionIsInvisible(calls, windowMs);
      if last.at < from {
        NothingBefore(calls, key, windowMs, limit, from);
      }
      if key in AfterKeeping(calls[..n], windowMs) {
        WindowsStartInThePast(calls[..n], key, windowMs);
      }
      hide Monotone, Admitted, LastAnswer;
      SpanStep(AfterKeeping(calls[..n], windowMs), last, key, windowMs, limit, from,
               Admitted(calls[..n], key, windowMs, limit, from), Admitted(calls, key, windowMs, limit, from));
    }
  }

  lemma SpanStep(kept: map<string, Window>, last: Call, key: string, windowMs: int, limit: int, from: int, count: nat, next: nat)
    requires windowMs > 0 && limit >= 1
    requires SpanBound(WindowOf(kept, key), count, windowMs, limit, from)
    requires key in kept ==> kept[key].expiresAt - windowMs <= last.at
    requires last.at < from ==> next == 0
    requires next == count + if last.key == key && from <= last.at < from + windowMs &&
                                Counted(kept, last.key, windowMs, last.at).hits <= limit then 1 else 0
    ensures SpanBound(WindowOf(kept[last.key := Counted(kept, last.key, windowMs, last.at)], key), next, windowMs, limit, from)
  {
  }

  /**
    Any half-open span of one window length admits at most 2 * limit - 1 requests of one key: the
    request that opens the earlier of two windows always lies outside the span.
   */
  lemma SpanAdmitsAtMost(calls: seq<Call>, key: string, windowMs: int, limit: int, from: int)
    requires Monotone(calls) && windowMs > 0 && limit >= 1
    ensures Admitted(calls, key, windowMs, limit, from) <= 2 * limit - 1
  {
    SpanInvariant(calls, key, windowMs, limit, from);
  }

  // ---------------------------------------------------------------- the bound is attained

  /** A clocked run ending at `at` that leaves `key` in window `w`, with `count` admissions in the span. */
  ghost predicate Reached(calls: seq<Call>, key: string, windowMs: int, limit: int, from: int, at: int, w: Window, count: nat) {
    && Monotone(calls) && calls != [] && calls[|calls| - 1].at <= at
    && WindowOf(After(calls, windowMs), key) == Some(w)
    && Admitted(calls, key, windowMs, limit, from) == count
  }

  lemma AppendCall(calls: seq<Call>, c: Call, windowMs: int, limit: int, from: int)
    ensures After(calls + [c], windowMs) == Consumed(After(calls, windowMs), c.key, windowMs, c.at)
    ensures Admitted(calls + [c], c.key, windowMs, limit, from) ==
            Admitted(calls, c.key, windowMs, limit, from) +
            if from <= c.at < from + windowMs && Counted(After(calls, windowMs), c.key, windowMs, c.at).hits <= limit then 1 else 0
    ensures Monotone(calls) && (calls == [] || calls[|calls| - 1].at <= c.at) ==> Monotone(calls + [c])
  {
    hide Consumed, Counted;
    assert (calls + [c])[..|calls|] == calls;
  }

  lemma OneMore(calls: seq<Call>, key: string, windowMs: int, limit: int, from: int, at: int, w: Window, count: nat, next: int)
    requires Reached(calls, key, windowMs, limit, from, at, w, count) && at <= next
    ensures var now := if Open(w, next) then w.(hits := w.hits + 1) else Window(1, next + windowMs);
            Reached(calls + [Call(key, next)], key, windowMs, limit, from, next, now,
                    count + if from <= next < from + windowMs && now.hits <= limit then 1 else 0)
  {
    AppendCall(calls, Call(key, next), windowMs, limit, from);
    hide After, Admitted, Monotone;
  }

  /** A burst of `n` requests at one instant inside an open window is admitted whole while it stays within the limit. */
  lemma {:induction false} Burst(calls: seq<Call>, n: nat, key: string, windowMs: int, limit: int, from: int, at: int, w: Window, count: nat)
    returns (all: seq<Call>)
    requires Reached(calls, key, windowMs, limit, from, at, w, count)
    requires Open(w, at) && w.hits + n <= limit && from <= at < from + windowMs
    ensures Reached(all, key, windowMs, limit, from, at, w.(hits := w.hits + n), count + n)
  {
    hide Reached;
    if n == 0 {
      all := calls;
    } else {
      var most := Burst(calls, n - 1, key, windowMs, limit, from, at, w, count);
      OneMore(most, key, windowMs, limit, from, at, w.(hits := w.hits + n - 1), count + n - 1, at);
      all := most + [Call(key, at)];
    }
  }

  /** For every limit and every window of at least two ticks some clocked run attains the bound. */
  lemma SpanBoundAttained(key: string, windowMs: int, limit: int)
    requires windowMs >= 2 && limit >= 1
    ensures exists calls :: Monotone(calls) && Admitted(calls, key, windowMs, limit, windowMs - 1) == 2 * limit - 1
  {
    var from := windowMs - 1;
    AppendCall([], Call(key, 0), windowMs, limit, from);
    var opening := [] + [Call(key, 0)];
    assert Reached(opening, key, windowMs, limit, from, from, Window(1, windowMs), 0);
    var all := TwoBursts(opening, key, windowMs, limit);
    assert Reached(all, key, windowMs, limit, from, windowMs, Window(limit, windowMs + windowMs), 2 * limit - 1);
  }

  /** The window opened at 0 is filled at its last instant; the next one is opened and filled an instant later. */
  lemma TwoBursts(opening: seq<Call>, key: string, windowMs: int, limit: int) returns (all: seq<Call>)
    requires windowMs >= 2 && limit >= 1
    requires Reached(opening, key, windowMs, limit, windowMs - 1, windowMs - 1, Window(1, windowMs), 0)
    ensures Reached(all, key, windowMs, limit, windowMs - 1, windowMs, Window(limit, windowMs + windowMs), 2 * limit - 1)
  {
    hide Reached;
    var from := windowMs - 1;
    var full := Burst(opening, limit - 1, key, windowMs, limit, from, from, Window(1, windowMs), 0);
    OneMore(full, key, windowMs, limit, from, from, Window(limit, windowMs), limit - 1, windowMs);
    all := Burst(full + [Call(key, windowMs)], limit - 1, key, windowMs, limit, from, windowMs, Window(1, windowMs + windowMs), limit);
  }

  // ---------------------------------------------------------------- the guard

  /** `RateLimitGuard.canActivate` for a limited route: a limit of zero or less never counts, an unavailable store admits. */
  method CanActivate(store: MemoryRateLimitStore, available: bool, key: string, windowMs: int, limit: int, now: int)
    returns (admitted: bool)
    modifies store
    ensures limit <= 0 || !available ==> admitted && store.windows == old(store.windows)
    ensures limit > 0 && available ==> (admitted <==> Counted(old(store.windows), key, windowMs, now).hits <= limit)
    ensures limit > 0 && available ==> store.windows == Consumed(old(store.windows), key, windowMs, now)
  {
    if limit <= 0 {
      return true;
    }
    if !available {
      return true;
    }
    var totalHits, _ := store.Consume(key, windowMs, now);
    admitted := totalHits <= limit;
  }
}
