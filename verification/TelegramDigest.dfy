/**
  Telegram digests: queueing items, flushing a group, and the reconciliation pass that closes the
  crash window of `markTelegramDigestGroupSent`. Each SQL statement is one atomic step.
 */
module TelegramDigest {
  import opened Common

  datatype Item = Item(alertId: int, chatId: string, sent: bool)

  /** `channel` is `alerts.telegram_delivery_status = 'sent'` per alert; digest code never writes 'failed'. */
  datatype Store = Store(sentChannel: map<int, bool>, items: map<int, Item>)

  /** A digest item as the sweep listed it. */
  datatype Listed = Listed(itemId: int, alertId: int)

  ghost predicate HasUnsent(s: Store, alertId: int) {
    exists i :: i in s.items && s.items[i].alertId == alertId && !s.items[i].sent
  }

  ghost predicate HasItems(s: Store, alertId: int) {
    exists i :: i in s.items && s.items[i].alertId == alertId
  }

  function SentAlerts(s: Store): set<int> {
    set a | a in s.sentChannel && s.sentChannel[a]
  }

  // ---------------------------------------------------------------- statements

  datatype Statement =
    | CreateAlert(alertId: int)
    | QueueItem(alertId: int, chatId: string, itemId: int)
    | MarkItem(itemId: int)
    | Converge(alertId: int)
    | Reconcile

  /** `alert_id IN (SELECT ... WHERE sent_at IS NULL)` */
  function UnsentAlerts(s: Store): set<int> {
    set i | i in s.items && !s.items[i].sent :: s.items[i].alertId
  }

  function FlushedAlerts(s: Store): set<int> {
    set i | i in s.items && s.items[i].sent :: s.items[i].alertId
  }

  function QueuedPairs(s: Store): set<(int, string)> {
    set i | i in s.items :: (s.items[i].alertId, s.items[i].chatId)
  }

  function Exec(s: Store, st: Statement): Store {
    match st
    case CreateAlert(a) =>
      if a in s.sentChannel then s else s.(sentChannel := s.sentChannel[a := false])
    case QueueItem(a, chat, id) =>
      // ON CONFLICT (alert_id, chat_id) DO NOTHING; the foreign key needs the alert
      if a !in s.sentChannel || id in s.items || (a, chat) in QueuedPairs(s) then s
      else s.(items := s.items[id := Item(a, chat, false)])
    case MarkItem(id) =>
      if id !in s.items then s else s.(items := s.items[id := s.items[id].(sent := true)])
    case Converge(a) =>
      if a !in s.sentChannel || a in UnsentAlerts(s) then s
      else s.(sentChannel := s.sentChannel[a := true])
    case Reconcile =>
      s.(sentChannel := map a | a in s.sentChannel ::
           s.sentChannel[a] || (a in FlushedAlerts(s) && a !in UnsentAlerts(s)))
  }

  function ExecAll(s: Store, sts: seq<Statement>): Store {
    if sts == [] then s else Exec(ExecAll(s, sts[..|sts| - 1]), sts[|sts| - 1])
  }

  // ---------------------------------------------------------------- soundness of one statement

  const EMPTY := Store(map[], map[])

  ghost predicate Sound(s: Store) {
    && (forall a | a in s.sentChannel && s.sentChannel[a] :: !HasUnsent(s, a))
    && (forall i | i in s.items :: s.items[i].alertId in s.sentChannel)
  }

  lemma ExecSound(s: Store, st: Statement)
    requires Sound(s) && (st.QueueItem? && st.alertId in s.sentChannel ==> !s.sentChannel[st.alertId])
    ensures Sound(Exec(s, st))
    ensures forall a | a in s.sentChannel :: a in Exec(s, st).sentChannel
  {
    var t := Exec(s, st);
    forall a | a in t.sentChannel && t.sentChannel[a] ensures !HasUnsent(t, a) {
      if HasUnsent(t, a) {
        var i :| i in t.items && t.items[i].alertId == a && !t.items[i].sent;
        if i in s.items {
          assert a in UnsentAlerts(s) && HasUnsent(s, a);
        }
      }
    }
  }

  /** The gate in front of queueing is exact: a new item breaks soundness iff the channel is already `sent`. */
  lemma QueueKeepsSoundIff(s: Store, alertId: int, chat: string, itemId: int)
    requires Sound(s) && alertId in s.sentChannel
    ensures Sound(Exec(s, QueueItem(alertId, chat, itemId))) <==>
            Exec(s, QueueItem(alertId, chat, itemId)) == s || !s.sentChannel[alertId]
  {
    var t := Exec(s, QueueItem(alertId, chat, itemId));
    if t != s {
      assert itemId in t.items && HasUnsent(t, alertId);
      if !s.sentChannel[alertId] {
        ExecSound(s, QueueItem(alertId, chat, itemId));
      }
    }
  }

  // ---------------------------------------------------------------- runs

  /** `readers[pid]` is the alert delivery `pid` is queueing for: its row was read while the channel was not `sent`. */
  datatype World = World(store: Store, readers: map<int, int>)

  datatype Op =
    | ReadGate(pid: int, alertId: int)                 // a delivery reads the alert in digest mode
    | Insert(pid: int, chat: string, itemId: int)      // and, some time later, queues one chat
    | DeliveredInstantly(alertId: int)                 // an instant-mode delivery marks the channel
    | Statement(st: Statement)                         // any single statement of any sweep, or a new alert

  predicate ChannelSent(s: Store, alertId: int) {
    alertId in s.sentChannel && s.sentChannel[alertId]
  }

  function Apply(w: World, op: Op): World {
    match op
    case ReadGate(pid, a) =>
      w.(readers := if a in w.store.sentChannel && !w.store.sentChannel[a] then w.readers[pid := a] else w.readers - {pid})
    case Insert(pid, chat, id) =>
      if pid in w.readers then w.(store := Exec(w.store, QueueItem(w.readers[pid], chat, id))) else w
    case DeliveredInstantly(a) =>
      if a in w.store.sentChannel then w.(store := w.store.(sentChannel := w.store.sentChannel[a := true])) else w
    case Statement(st) =>
      if st.QueueItem? then w else w.(store := Exec(w.store, st))
  }

  function Run(ops: seq<Op>): World {
    if ops == [] then World(EMPTY, map[]) else Apply(Run(ops[..|ops| - 1]), ops[|ops| - 1])
  }

  lemma AppendOp(ops: seq<Op>, op: Op)
    ensures Run(ops + [op]) == Apply(Run(ops), op)
  {
    hide Apply;
    assert (ops + [op])[..|ops|] == ops;
  }

  /** The item a delivery adds although the channel it found open has been `sent` since. */
  predicate InsertsLate(w: World, op: Op) {
    op.Insert? && op.pid in w.readers && ChannelSent(w.store, w.readers[op.pid]) && Apply(w, op) != w
  }

  /** An instant-mode delivery marks a channel that still has items to flush. */
  predicate MarksOverUnsent(w: World, op: Op) {
    op.DeliveredInstantly? && op.alertId in w.store.sentChannel && op.alertId in UnsentAlerts(w.store)
  }

  lemma UnsentIff(s: Store, alertId: int)
    ensures alertId in UnsentAlerts(s) <==> HasUnsent(s, alertId)
  {
  }

  lemma MarkSound(s: Store, alertId: int)
    requires Sound(s) && alertId in s.sentChannel
    ensures Sound(s.(sentChannel := s.sentChannel[alertId := true])) <==> !HasUnsent(s, alertId)
  {
    var t := s.(sentChannel := s.sentChannel[alertId := true]);
    assert forall a :: HasUnsent(t, a) <==> HasUnsent(s, a);
  }

  /** From a sound store a step leads to an unsound one exactly when it inserts late or marks over unsent items. */
  lemma ApplySoundIff(w: World, op: Op)
    requires Sound(w.store)
    ensures Sound(Apply(w, op).store) <==> !InsertsLate(w, op) && !MarksOverUnsent(w, op)
  {
    hide Exec, Sound, HasUnsent;
    match op
    case ReadGate(_, _) =>
    case Insert(pid, chat, id) =>
      if pid in w.readers {
        if w.readers[pid] in w.store.sentChannel {
          QueueKeepsSoundIff(w.store, w.readers[pid], chat, id);
        } else {
          ExecSound(w.store, QueueItem(w.readers[pid], chat, id));
        }
      }
    case DeliveredInstantly(a) =>
      UnsentIff(w.store, a);
      if a in w.store.sentChannel { MarkSound(w.store, a); }
    case Statement(st) =>
      if !st.QueueItem? { ExecSound(w.store, st); }
  }

  ghost predicate SoundThroughout(ops: seq<Op>) {
    forall n | 0 <= n <= |ops| :: Sound(Run(ops[..n]).store)
  }

  ghost predicate NeverBroken(ops: seq<Op>) {
    forall n | 0 <= n < |ops| :: !InsertsLate(Run(ops[..n]), ops[n]) && !MarksOverUnsent(Run(ops[..n]), ops[n])
  }

  lemma NothingYet()
    ensures Sound(Run([]).store)
  {
  }

  /**
    Statement by statement, however deliveries, sweeps and crashes interleave: no moment of a run has
    a `sent` channel with an unsent item exactly when no item is ever inserted after its channel
    turned `sent` and no instant-mode delivery marks a channel over unsent items.
   */
  lemma {:induction false} SoundThroughoutIff(ops: seq<Op>)
    ensures SoundThroughout(ops) <==> NeverBroken(ops)
  {
    hide Run, Apply, Sound, InsertsLate, MarksOverUnsent;
    if ops == [] {
      NothingYet();
      assert ops[..0] == [];
    } else {
      var n := |ops| - 1;
      var most := ops[..n];
      SoundThroughoutIff(most);
      assert forall m | 0 <= m <= n :: most[..m] == ops[..m];
      assert ops[..n + 1] == ops && ops == most + [ops[n]];
      AppendOp(most, ops[n]);
      if Sound(Run(most).store) {
        ApplySoundIff(Run(most), ops[n]);
      }
      assert most[..n] == most;
      assert SoundThroughout(ops) <==> SoundThroughout(most) && Sound(Run(ops).store);
    }
  }

  // ---------------------------------------------------------------- what the exceptions leave behind

  function UnsentItemsOf(s: Store, alertId: int): set<int> {
    set i | i in s.items && s.items[i].alertId == alertId && !s.items[i].sent
  }

  /** The items that come to lie under a `sent` channel in a step. */
  function MadeLate(w: World, op: Op): set<int> {
    if InsertsLate(w, op) then {op.itemId}
    else if MarksOverUnsent(w, op) && !ChannelSent(w.store, op.alertId) then UnsentItemsOf(w.store, op.alertId)
    else {}
  }

  function LateItems(ops: seq<Op>): set<int> {
    if ops == [] then {}
    else LateItems(ops[..|ops| - 1]) + MadeLate(Run(ops[..|ops| - 1]), ops[|ops| - 1])
  }

  lemma LateItemsStep(ops: seq<Op>, op: Op)
    ensures LateItems(ops + [op]) == LateItems(ops) + MadeLate(Run(ops), op)
  {
    hide MadeLate, Run;
    assert (ops + [op])[..|ops|] == ops;
  }

  /** An unsent item lies under a `sent` channel exactly when it is one of `late`. */
  ghost predicate LateExact(s: Store, late: set<int>) {
    && (forall i | i in s.items :: s.items[i].alertId in s.sentChannel)
    && (forall i | i in s.items && !s.items[i].sent :: ChannelSent(s, s.items[i].alertId) <==> i in late)
    && late <= s.items.Keys
  }

  lemma StatementLateExact(s: Store, st: Statement, late: set<int>)
    requires LateExact(s, late) && !st.QueueItem?
    ensures LateExact(Exec(s, st), late)
  {
    var t := Exec(s, st);
    forall i | i in t.items && !t.items[i].sent ensures ChannelSent(t, t.items[i].alertId) <==> i in late {
      assert t.items[i].alertId in UnsentAlerts(s);
    }
  }

  lemma InsertLateExact(w: World, op: Op, late: set<int>)
    requires LateExact(w.store, late) && op.Insert?
    ensures LateExact(Apply(w, op).store, late + MadeLate(w, op))
  {
    var t := Apply(w, op).store;
    if t != w.store {
      assert t.items == w.store.items[op.itemId := Item(w.readers[op.pid], op.chat, false)] && op.itemId !in w.store.items;
    }
  }

  lemma InstantLateExact(w: World, op: Op, late: set<int>)
    requires LateExact(w.store, late) && op.DeliveredInstantly?
    ensures LateExact(Apply(w, op).store, late + MadeLate(w, op))
  {
    var t := Apply(w, op).store;
    forall i | i in t.items && !t.items[i].sent
      ensures ChannelSent(t, t.items[i].alertId) <==> i in late + MadeLate(w, op)
    {
      assert t.items[i].alertId in UnsentAlerts(w.store);
    }
  }

  lemma {:induction false} RunLateExact(ops: seq<Op>)
    ensures LateExact(Run(ops).store, LateItems(ops))
  {
    if ops != [] {
      hide Apply, Run, LateItems, LateExact, MadeLate;
      var most, op := ops[..|ops| - 1], ops[|ops| - 1];
      assert ops == most + [op];
      RunLateExact(most);
      AppendOp(most, op);
      LateItemsStep(most, op);
      ApplyLateExact(Run(most), op, LateItems(most));
    }
  }

  lemma ApplyLateExact(w: World, op: Op, late: set<int>)
    requires LateExact(w.store, late)
    ensures LateExact(Apply(w, op).store, late + MadeLate(w, op))
  {
    match op
    case ReadGate(_, _) =>
      assert late + {} == late;
    case Insert(_, _, _) => InsertLateExact(w, op, late);
    case DeliveredInstantly(_) => InstantLateExact(w, op, late);
    case Statement(st) =>
      assert late + {} == late;
      if !st.QueueItem? { StatementLateExact(w.store, st, late); }
  }

  /** Some late item of the alert is still to be flushed. */
  ghost predicate WaitsLate(ops: seq<Op>, alertId: int) {
    exists i | i in LateItems(ops) && i in Run(ops).store.items ::
      Run(ops).store.items[i].alertId == alertId && !Run(ops).store.items[i].sent
  }

  /** In every run a `sent` channel has an unsent item exactly when a late one waits. */
  lemma SentTooEarlyIff(ops: seq<Op>, alertId: int)
    requires ChannelSent(Run(ops).store, alertId)
    ensures HasUnsent(Run(ops).store, alertId) <==> WaitsLate(ops, alertId)
  {
    RunLateExact(ops);
    hide Run, LateItems;
  }

  /** After any run, one reconciliation leaves an alert with items `sent` exactly when all of them are sent or a late one waits. */
  lemma ReconcileConverges(ops: seq<Op>, alertId: int)
    requires HasItems(Run(ops).store, alertId)
    ensures var t := Exec(Run(ops).store, Reconcile);
            alertId in t.sentChannel && (t.sentChannel[alertId] <==> !HasUnsent(t, alertId) || WaitsLate(ops, alertId))
  {
    RunLateExact(ops);
    hide Run, LateItems;
    var s := Run(ops).store;
    var i :| i in s.items && s.items[i].alertId == alertId;
    UnsentIff(s, alertId);
    assert HasUnsent(Exec(s, Reconcile), alertId) <==> HasUnsent(s, alertId);
    if !HasUnsent(s, alertId) {
      assert s.items[i].sent && alertId in FlushedAlerts(s);
    } else if ChannelSent(s, alertId) {
      SentTooEarlyIff(ops, alertId);
    }
  }

  // ---------------------------------------------------------------- the race behind a late item

  /** Operation `at` of the run turns the channel of `alertId` to `sent`. */
  ghost predicate TurnsSent(ops: seq<Op>, at: nat, alertId: int) {
    at < |ops| && !ChannelSent(Run(ops[..at]).store, alertId) && ChannelSent(Apply(Run(ops[..at]), ops[at]).store, alertId)
  }

  /** Delivery `pid` read the alert at `at`, when its channel was not `sent`. */
  ghost predicate ReadOpen(ops: seq<Op>, at: nat, pid: int, alertId: int) {
    at < |ops| && ops[at] == ReadGate(pid, alertId) && !ChannelSent(Run(ops[..at]).store, alertId)
  }

  ghost predicate ReadBefore(ops: seq<Op>, pid: int, alertId: int) {
    exists a: nat | ReadOpen(ops, a, pid, alertId) ::
      ChannelSent(Run(ops).store, alertId) ==> exists b: nat :: a < b && TurnsSent(ops, b, alertId)
  }

  lemma PrefixesStay(ops: seq<Op>, op: Op, at: nat, pid: int, alertId: int)
    ensures TurnsSent(ops, at, alertId) ==> TurnsSent(ops + [op], at, alertId)
    ensures ReadOpen(ops, at, pid, alertId) ==> ReadOpen(ops + [op], at, pid, alertId)
  {
    hide Run, Apply;
    if at < |ops| {
      assert (ops + [op])[..at] == ops[..at];
    }
  }

  lemma ReadBeforeStep(ops: seq<Op>, op: Op, pid: int, alertId: int)
    requires ReadBefore(ops, pid, alertId)
    ensures ReadBefore(ops + [op], pid, alertId)
  {
    AppendOp(ops, op);
    assert (ops + [op])[..|ops|] == ops;
    hide Run, Apply, ReadOpen;
    var a: nat :| ReadOpen(ops, a, pid, alertId) &&
                  (ChannelSent(Run(ops).store, alertId) ==> exists b: nat :: a < b && TurnsSent(ops, b, alertId));
    PrefixesStay(ops, op, a, pid, alertId);
    if ChannelSent(Run(ops + [op]).store, alertId) {
      if ChannelSent(Run(ops).store, alertId) {
        var b: nat :| a < b && TurnsSent(ops, b, alertId);
        PrefixesStay(ops, op, b, pid, alertId);
      } else {
        ReadOpenBound(ops, a, pid, alertId);
        assert TurnsSent(ops + [op], |ops|, alertId);
      }
    }
  }

  lemma ReadOpenBound(ops: seq<Op>, at: nat, pid: int, alertId: int)
    requires ReadOpen(ops, at, pid, alertId)
    ensures at < |ops|
  {
  }

  lemma {:induction false} ReadersHaveRead(ops: seq<Op>, pid: int)
    requires pid in Run(ops).readers
    ensures ReadBefore(ops, pid, Run(ops).readers[pid])
  {
    var most, op := ops[..|ops| - 1], ops[|ops| - 1];
    assert ops == most + [op];
    AppendOp(most, op);
    var alertId := Run(ops).readers[pid];
    if op == ReadGate(pid, alertId) && !ChannelSent(Run(most).store, alertId) {
      FreshRead(most, op, pid, alertId);
    } else {
      assert pid in Run(most).readers && Run(most).readers[pid] == alertId;
      ReadersHaveRead(most, pid);
      ReadBeforeStep(most, op, pid, alertId);
    }
  }

  lemma FreshRead(ops: seq<Op>, op: Op, pid: int, alertId: int)
    requires op == ReadGate(pid, alertId) && !ChannelSent(Run(ops).store, alertId)
    ensures ReadBefore(ops + [op], pid, alertId)
  {
    AppendOp(ops, op);
    hide Run;
    assert (ops + [op])[..|ops|] == ops;
    assert ReadOpen(ops + [op], |ops|, pid, alertId);
  }

  /** A late item is always a race: its delivery read the channel open, and the channel turned `sent` before the insert. */
  lemma LateInsertIsARace(ops: seq<Op>, op: Op)
    requires InsertsLate(Run(ops), op)
    ensures var alertId := Run(ops).readers[op.pid];
            exists a: nat, b: nat :: a < b && ReadOpen(ops, a, op.pid, alertId) && TurnsSent(ops, b, alertId)
  {
    ReadersHaveRead(ops, op.pid);
    hide Run, ReadOpen, TurnsSent;
    var alertId := Run(ops).readers[op.pid];
    var a: nat :| ReadOpen(ops, a, op.pid, alertId) &&
                  (ChannelSent(Run(ops).store, alertId) ==> exists b: nat :: a < b && TurnsSent(ops, b, alertId));
    var b: nat :| a < b && TurnsSent(ops, b, alertId);
  }

  const QUEUED := Store(map[1 := false], map[10 := Item(1, "A", false)])

  lemma OpenAlert() returns (ops: seq<Op>)
    ensures Run(ops) == World(QUEUED, map[2 := 1])
    ensures forall op | op in ops :: !op.DeliveredInstantly?
  {
    AppendOp([], Statement(CreateAlert(1)));
    var created := [] + [Statement(CreateAlert(1))];
    assert Run(created) == World(Store(map[1 := false], map[]), map[]);
    AppendOp(created, ReadGate(2, 1));
    var read := created + [ReadGate(2, 1)];
    hide Run;
    assert Run(read) == World(Store(map[1 := false], map[]), map[2 := 1]);
    AppendOp(read, Insert(2, "A", 10));
    ops := read + [Insert(2, "A", 10)];
    assert QueuedPairs(Store(map[1 := false], map[])) == {};
  }

  /** A delivery that still has a chat to queue when a sweep flushes the first one leaves an item under a `sent` channel. */
  lemma SweepBetweenInserts() returns (ops: seq<Op>)
    ensures ChannelSent(Run(ops).store, 1) && HasUnsent(Run(ops).store, 1)
    ensures forall op | op in ops :: !op.DeliveredInstantly?
  {
    var start := OpenAlert();
    hide Run;
    var s1 := Store(map[1 := false], map[10 := Item(1, "A", true)]);
    var s2 := Store(map[1 := true], map[10 := Item(1, "A", true)]);
    AppendOp(start, Statement(MarkItem(10)));
    var marked := start + [Statement(MarkItem(10))];
    assert Run(marked) == World(s1, map[2 := 1]);
    AppendOp(marked, Statement(Converge(1)));
    var flushed := marked + [Statement(Converge(1))];
    assert UnsentAlerts(s1) == {};
    assert Run(flushed) == World(s2, map[2 := 1]);
    AppendOp(flushed, Insert(2, "B", 11));
    ops := flushed + [Insert(2, "B", 11)];
    InsertSecondChat(s2);
  }

  lemma InsertSecondChat(s: Store)
    requires s == Store(map[1 := true], map[10 := Item(1, "A", true)])
    ensures Exec(s, QueueItem(1, "B", 11)) == s.(items := s.items[11 := Item(1, "B", false)])
    ensures HasUnsent(Exec(s, QueueItem(1, "B", 11)), 1)
  {
    assert forall pair | pair in QueuedPairs(s) :: pair == (1, "A");
    var t := Exec(s, QueueItem(1, "B", 11));
    assert (1, "B").1[0] != "A"[0];
    assert t.items[11].alertId == 1 && !t.items[11].sent;
  }

  /** So does switching the tenant to instant delivery while an item waits. */
  lemma InstantOverQueuedItem() returns (ops: seq<Op>)
    ensures ChannelSent(Run(ops).store, 1) && HasUnsent(Run(ops).store, 1)
  {
    var start := OpenAlert();
    AppendOp(start, DeliveredInstantly(1));
    ops := start + [DeliveredInstantly(1)];
    hide Run;
    assert Run(ops).store.items[10] == Item(1, "A", false);
  }

  /** Reconciliation never promotes an alert that has no digest item, as an instant-mode alert has none. */
  lemma ReconcileTouchesDigestsOnly(s: Store, alertId: int)
    requires alertId in s.sentChannel && !s.sentChannel[alertId] && !HasItems(s, alertId)
    ensures !Exec(s, Reconcile).sentChannel[alertId]
  {
    assert alertId in FlushedAlerts(s) ==> HasItems(s, alertId);
  }

  // ---------------------------------------------------------------- flushing one group

  function MarkAll(items: seq<Listed>): (sts: seq<Statement>)
    ensures |sts| == |items|
  {
    seq(|items|, i requires 0 <= i < |items| => MarkItem(items[i].itemId))
  }

  function ConvergeAll(alertIds: seq<int>): (sts: seq<Statement>)
    ensures |sts| == |alertIds|
  {
    seq(|alertIds|, i requires 0 <= i < |alertIds| => Converge(alertIds[i]))
  }

  /** `new Set(items.map((item) => item.alertId))`, in insertion order. */
  function AlertIds(items: seq<Listed>): (ids: seq<int>)
    ensures Distinct(ids)
    ensures forall a :: a in ids <==> exists i :: 0 <= i < |items| && items[i].alertId == a
  {
    if items == [] then []
    else
      var rest := AlertIds(items[..|items| - 1]);
      var a := items[|items| - 1].alertId;
      if a in rest then rest else rest + [a]
  }

  /** The statements of `markTelegramDigestGroupSent`, in order. */
  function FlushStatements(items: seq<Listed>): seq<Statement> {
    MarkAll(items) + ConvergeAll(AlertIds(items))
  }

  lemma {:induction false} ExecConcat(s: Store, a: seq<Statement>, b: seq<Statement>)
    ensures ExecAll(s, a + b) == ExecAll(ExecAll(s, a), b)
  {
    hide Exec;
    if b == [] {
      assert a + b == a;
    } else {
      var n := |b| - 1;
      ExecConcat(s, a, b[..n]);
      assert (a + b)[..|a + b| - 1] == a + b[..n];
    }
  }

  /** Converging touches channels only, and only those of the listed alerts without unsent items. */
  lemma {:induction false} ConvergeEffect(s: Store, alertIds: seq<int>)
    ensures var t := ExecAll(s, ConvergeAll(alertIds));
            && t.items == s.items && t.sentChannel.Keys == s.sentChannel.Keys
            && forall a | a in s.sentChannel ::
                 t.sentChannel[a] <==> s.sentChannel[a] || (a in alertIds && a !in UnsentAlerts(s))
  {
    if alertIds != [] {
      var n := |alertIds| - 1;
      ConvergeEffect(s, alertIds[..n]);
      assert ConvergeAll(alertIds)[..n] == ConvergeAll(alertIds[..n]);
      assert forall a :: a in alertIds <==> a in alertIds[..n] || a == alertIds[n];
    }
  }

  /** The listing agrees with the table on which alert an item belongs to. */
  ghost predicate ListedFrom(s: Store, items: seq<Listed>) {
    forall i | 0 <= i < |items| :: items[i].itemId in s.items && s.items[items[i].itemId].alertId == items[i].alertId
  }

  lemma {:induction false} MarkEffect(s: Store, items: seq<Listed>)
    ensures var t := ExecAll(s, MarkAll(items));
            && t.sentChannel == s.sentChannel && t.items.Keys == s.items.Keys
            && forall i | i in s.items ::
                 && t.items[i].alertId == s.items[i].alertId && t.items[i].chatId == s.items[i].chatId
                 && (t.items[i].sent <==> s.items[i].sent || exists j :: 0 <= j < |items| && items[j].itemId == i)
  {
    if items != [] {
      var n := |items| - 1;
      MarkEffect(s, items[..n]);
      assert MarkAll(items)[..n] == MarkAll(items[..n]);
      var r, t := ExecAll(s, MarkAll(items[..n])), ExecAll(s, MarkAll(items));
      forall i | i in s.items
        ensures t.items[i].sent <==> s.items[i].sent || exists j :: 0 <= j < |items| && items[j].itemId == i
      {
        assert i == items[n].itemId ==> t.items[i].sent;
        assert forall j | 0 <= j < n :: items[j] == items[..n][j];
      }
    }
  }

  /** Every alert of the group has a sent item once the items are marked. */
  lemma GroupHasFlushedItems(s: Store, items: seq<Listed>)
    requires ListedFrom(s, items)
    ensures forall a | a in AlertIds(items) :: a in FlushedAlerts(ExecAll(s, MarkAll(items)))
  {
    MarkEffect(s, items);
    var t := ExecAll(s, MarkAll(items));
    forall a | a in AlertIds(items) ensures a in FlushedAlerts(t) {
      var i :| 0 <= i < |items| && items[i].alertId == a;
      assert t.items[items[i].itemId].sent;
    }
  }

  /**
    A crash after the item marks is invisible: wherever the flush stopped among its channel updates,
    the next reconciliation leaves exactly what it leaves after an uninterrupted flush.
   */
  lemma CrashAfterMarksInvisible(s: Store, items: seq<Listed>, k: nat)
    requires ListedFrom(s, items) && |items| <= k <= |FlushStatements(items)|
    ensures Exec(ExecAll(s, FlushStatements(items)[..k]), Reconcile) == Exec(ExecAll(s, FlushStatements(items)), Reconcile)
  {
    var ids := AlertIds(items);
    var marked := ExecAll(s, MarkAll(items));
    GroupHasFlushedItems(s, items);
    assert FlushStatements(items)[..k] == MarkAll(items) + ConvergeAll(ids[..k - |items|]);
    ExecConcat(s, MarkAll(items), ConvergeAll(ids[..k - |items|]));
    ExecConcat(s, MarkAll(items), ConvergeAll(ids));
    SameAfterReconcile(marked, ids[..k - |items|], ids);
  }

  lemma SameAfterReconcile(s: Store, some: seq<int>, all: seq<int>)
    requires forall a | a in some :: a in all
    requires forall a | a in all :: a in FlushedAlerts(s)
    ensures Exec(ExecAll(s, ConvergeAll(some)), Reconcile) == Exec(ExecAll(s, ConvergeAll(all)), Reconcile)
  {
    ConvergeEffect(s, some);
    ConvergeEffect(s, all);
    var x, y := ExecAll(s, ConvergeAll(some)), ExecAll(s, ConvergeAll(all));
    assert FlushedAlerts(x) == FlushedAlerts(s) == FlushedAlerts(y);
    assert UnsentAlerts(x) == UnsentAlerts(s) == UnsentAlerts(y);
    var rx, ry := Exec(x, Reconcile).sentChannel, Exec(y, Reconcile).sentChannel;
    assert rx.Keys == s.sentChannel.Keys == ry.Keys;
    assert forall a | a in s.sentChannel :: rx[a] == ry[a];
    assert rx == ry;
  }

  /** An uninterrupted flush converges its own alerts: each is `sent` unless another chat still waits, or it was before. */
  lemma FlushConvergesGroup(s: Store, items: seq<Listed>, alertId: int)
    requires ListedFrom(s, items) && alertId in AlertIds(items) && alertId in s.sentChannel
    ensures var t := ExecAll(s, FlushStatements(items));
            alertId in t.sentChannel && (t.sentChannel[alertId] <==> s.sentChannel[alertId] || !HasUnsent(t, alertId))
  {
    var marked := ExecAll(s, MarkAll(items));
    MarkEffect(s, items);
    ExecConcat(s, MarkAll(items), ConvergeAll(AlertIds(items)));
    ConvergeEffect(marked, AlertIds(items));
    var i :| 0 <= i < |items| && items[i].alertId == alertId;
    var t := ExecAll(s, FlushStatements(items));
    if HasUnsent(t, alertId) {
      var j :| j in t.items && t.items[j].alertId == alertId && !t.items[j].sent;
      assert t.items[j].alertId in UnsentAlerts(marked);
    }
  }

  /** A flush on the tables: the listed items are sent, and of their alerts those that wait for no other chat. */
  ghost predicate FlushExact(before: Store, items: seq<Listed>, after: Store) {
    && after.items.Keys == before.items.Keys && after.sentChannel.Keys == before.sentChannel.Keys
    && (forall i | i in before.items && i in after.items ::
          after.items[i] == before.items[i].(sent := before.items[i].sent || exists j | 0 <= j < |items| :: items[j].itemId == i))
    && (forall a | a in before.sentChannel && a in after.sentChannel ::
          after.sentChannel[a] <==>
          before.sentChannel[a] || ((exists j | 0 <= j < |items| :: items[j].alertId == a) && !HasUnsent(after, a)))
  }

  lemma UnsentByItems(s: Store, t: Store, alertId: int)
    requires s.items == t.items
    ensures HasUnsent(s, alertId) <==> HasUnsent(t, alertId)
  {
  }

  lemma FlushIsExact(s: Store, items: seq<Listed>)
    ensures FlushExact(s, items, ExecAll(s, FlushStatements(items)))
  {
    var marked, t := ExecAll(s, MarkAll(items)), ExecAll(s, FlushStatements(items));
    MarkEffect(s, items);
    ExecConcat(s, MarkAll(items), ConvergeAll(AlertIds(items)));
    ConvergeEffect(marked, AlertIds(items));
    assert t == ExecAll(marked, ConvergeAll(AlertIds(items)));
    hide ExecAll, FlushStatements, MarkAll, ConvergeAll;
    forall a ensures a in UnsentAlerts(marked) <==> HasUnsent(t, a) {
      UnsentIff(marked, a);
      UnsentByItems(marked, t, a);
    }
  }

  // ---------------------------------------------------------------- the sweep

  datatype Group = Group(chatId: string, items: seq<Listed>)

  /** What became of one group: Telegram refused it, it was flushed, or a statement of the flush threw after `done` others. */
  datatype GroupOutcome = Refused | Flushed | FlushThrows(done: nat)

  class DigestRepository {
    var store: Store

    constructor ()
      ensures store == EMPTY
    {
      store := EMPTY;
    }

    method Execute(st: Statement)
      modifies this
      ensures store == Exec(old(store), st)
    {
      store := Exec(store, st);
    }

    /** `UPDATE alerts ... WHERE id = $1 AND ... RETURNING id`: whether a row came back. */
    method ConvergeAlert(alertId: int) returns (converged: bool)
      modifies this
      ensures store == Exec(old(store), Converge(alertId))
      ensures SentAlerts(store) == SentAlerts(old(store)) + (if converged then {alertId} else {})
      ensures converged ==> alertId !in SentAlerts(old(store))
    {
      converged := alertId in store.sentChannel && !store.sentChannel[alertId] && alertId !in UnsentAlerts(store);
      store := Exec(store, Converge(alertId));
    }

    /** Flush one group: mark its items, then converge the alerts that wait for no other chat. */
    method MarkTelegramDigestGroupSent(items: seq<Listed>) returns (alertIdsDelivered: seq<int>)
      modifies this
      ensures store == ExecAll(old(store), FlushStatements(items)) && FlushExact(old(store), items, store)
      ensures Distinct(alertIdsDelivered)
      ensures Elems(alertIdsDelivered) == SentAlerts(store) - SentAlerts(old(store))
      ensures SentAlerts(old(store)) <= SentAlerts(store)
    {
      FlushIsExact(store, items);
      MarkItems(items);
      MarkEffect(old(store), items);
      ghost var marked := store;
      assert SentAlerts(marked) == SentAlerts(old(store));
      var ids := AlertIds(items);
      ExecConcat(old(store), MarkAll(items), ConvergeAll(ids));
      alertIdsDelivered := ConvergeAlerts(ids);
    }

    method MarkItems(items: seq<Listed>)
      modifies this
      ensures store == ExecAll(old(store), MarkAll(items))
    {
      assert MarkAll(items[..0]) == [];
      for i := 0 to |items|
        invariant store == ExecAll(old(store), MarkAll(items[..i]))
      {
        assert MarkAll(items[..i + 1])[..i] == MarkAll(items[..i]);
        Execute(MarkItem(items[i].itemId));
      }
      assert items[..|items|] == items;
    }

    method ConvergeAlerts(ids: seq<int>) returns (delivered: seq<int>)
      modifies this
      ensures store == ExecAll(old(store), ConvergeAll(ids))
      ensures Distinct(delivered)
      ensures Elems(delivered) == SentAlerts(store) - SentAlerts(old(store)) && SentAlerts(old(store)) <= SentAlerts(store)
    {
      delivered := [];
      assert ConvergeAll(ids[..0]) == [];
      for i := 0 to |ids|
        invariant store == ExecAll(old(store), ConvergeAll(ids[..i]))
        invariant Distinct(delivered)
        invariant Elems(delivered) == SentAlerts(store) - SentAlerts(old(store)) && SentAlerts(old(store)) <= SentAlerts(store)
      {
        assert ConvergeAll(ids[..i + 1])[..i] == ConvergeAll(ids[..i]);
        var before := SentAlerts(store);
        var converged := ConvergeAlert(ids[i]);
        if converged {
          assert ids[i] !in Elems(delivered);
          assert Elems(delivered + [ids[i]]) == Elems(delivered) + {ids[i]};
          delivered := delivered + [ids[i]];
        }
      }
      assert ids[..|ids|] == ids;
    }

    method ReconcileTelegramDigestDeliveryStatus() returns (repaired: set<int>)
      modifies this
      ensures store == Exec(old(store), Reconcile)
      ensures repaired == SentAlerts(store) - SentAlerts(old(store)) && SentAlerts(old(store)) <= SentAlerts(store)
    {
      var before := SentAlerts(store);
      store := Exec(store, Reconcile);
      repaired := SentAlerts(store) - before;
    }

    /** Queue one item per chat, one statement each. */
    method QueueTelegramDigestItems(alertId: int, chats: seq<(int, string)>)
      modifies this
      ensures store == ExecAll(old(store), Queueing(alertId, chats))
    {
      assert Queueing(alertId, chats[..0]) == [];
      for i := 0 to |chats|
        invariant store == ExecAll(old(store), Queueing(alertId, chats[..i]))
      {
        assert Queueing(alertId, chats[..i + 1])[..i] == Queueing(alertId, chats[..i]);
        Execute(QueueItem(alertId, chats[i].1, chats[i].0));
      }
      assert chats[..|chats|] == chats;
    }

    /** A flush of which only the first `done` statements went through. */
    method FlushPartly(items: seq<Listed>, done: nat)
      requires done <= |FlushStatements(items)|
      modifies this
      ensures store == ExecAll(old(store), FlushStatements(items)[..done])
    {
      hide *;
      var sts := FlushStatements(items);
      NoStatements(store);
      assert sts[..0] == [];
      for i := 0 to done
        invariant store == ExecAll(old(store), sts[..i])
      {
        assert sts[..i + 1] == sts[..i] + [sts[i]];
        ExecAppend(old(store), sts[..i], sts[i]);
        Execute(sts[i]);
      }
    }

    /**
      One sweep over the due groups. `repairs` is whether the repair statement went through. The
      number of alerts reported is the number whose channel turned `sent`, but for those that turned
      in a flush that threw.
     */
    method Sweep(repairs: bool, groups: seq<Group>, outcomes: seq<GroupOutcome>)
      returns (processedGroups: nat, sentItems: nat, alertsMarkedDelivered: nat)
      requires |outcomes| == |groups|
      modifies this
      ensures store == SweepResult(old(store), repairs, groups, outcomes)
      ensures SentAlerts(old(store)) <= SentAlerts(store)
      ensures alertsMarkedDelivered + Unreported(old(store), repairs, groups, outcomes) == |SentAlerts(store) - SentAlerts(old(store))|
      ensures processedGroups == |FlushedGroups(groups, outcomes)|
      ensures sentItems == ItemCount(FlushedGroups(groups, outcomes))
    {
      hide *;
      SweepStart(store, repairs, groups, outcomes);
      alertsMarkedDelivered, processedGroups, sentItems := 0, 0, 0;
      if repairs {
        var repaired := ReconcileTelegramDigestDeliveryStatus();
        alertsMarkedDelivered := |repaired|;
      }
      NoneTurned(old(store));
      for i := 0 to |groups|
        invariant store == SweepResult(old(store), repairs, groups[..i], outcomes[..i])
        invariant SentAlerts(old(store)) <= SentAlerts(store)
        invariant alertsMarkedDelivered + Unreported(old(store), repairs, groups[..i], outcomes[..i]) ==
                  |SentAlerts(store) - SentAlerts(old(store))|
        invariant processedGroups == |FlushedGroups(groups[..i], outcomes[..i])|
        invariant sentItems == ItemCount(FlushedGroups(groups[..i], outcomes[..i]))
      {
        SweepStep(old(store), repairs, groups, outcomes, i);
        GroupEffectIs(store, groups[i], outcomes[i]);
        ghost var before := store;
        if groups[i].items == [] || outcomes[i].Refused? {
          NoneTurned(store);
        } else if outcomes[i].Flushed? {
          var ids := MarkTelegramDigestGroupSent(groups[i].items);
          DistinctCount(ids);
          alertsMarkedDelivered := alertsMarkedDelivered + |ids|;
          processedGroups := processedGroups + 1;
          sentItems := sentItems + |groups[i].items|;
        } else {
          FlushPartly(groups[i].items, Min(outcomes[i].done, |FlushStatements(groups[i].items)|));
          NeverUnsent(before, FlushStatements(groups[i].items)[..Min(outcomes[i].done, |FlushStatements(groups[i].items)|)]);
        }
        CountNew(SentAlerts(old(store)), SentAlerts(before), SentAlerts(store));
      }
      assert groups[..|groups|] == groups && outcomes[..|outcomes|] == outcomes;
    }
  }

  function Queueing(alertId: int, chats: seq<(int, string)>): (sts: seq<Statement>)
    ensures |sts| == |chats|
  {
    seq(|chats|, i requires 0 <= i < |chats| => QueueItem(alertId, chats[i].1, chats[i].0))
  }

  function Min(a: nat, b: nat): (m: nat)
    ensures m <= b
  {
    if a < b then a else b
  }

  lemma NoStatements(s: Store)
    ensures ExecAll(s, []) == s
  {
  }

  lemma ExecAppend(s: Store, sts: seq<Statement>, st: Statement)
    ensures ExecAll(s, sts + [st]) == Exec(ExecAll(s, sts), st)
  {
    assert (sts + [st])[..|sts|] == sts;
  }

  lemma NoneTurned(s: Store)
    ensures |SentAlerts(s) - SentAlerts(s)| == 0
  {
  }

  lemma {:induction false} NeverUnsent(s: Store, sts: seq<Statement>)
    ensures SentAlerts(s) <= SentAlerts(ExecAll(s, sts))
  {
    if sts != [] {
      NeverUnsent(s, sts[..|sts| - 1]);
    }
  }

  function GroupEffect(s: Store, g: Group, o: GroupOutcome): Store {
    if g.items == [] then s
    else
      match o
      case Refused => s
      case Flushed => ExecAll(s, FlushStatements(g.items))
      case FlushThrows(done) => ExecAll(s, FlushStatements(g.items)[..Min(done, |FlushStatements(g.items)|)])
  }

  lemma GroupEffectIs(s: Store, g: Group, o: GroupOutcome)
    ensures g.items == [] || o.Refused? ==> GroupEffect(s, g, o) == s
    ensures g.items != [] && o.Flushed? ==> GroupEffect(s, g, o) == ExecAll(s, FlushStatements(g.items))
    ensures g.items != [] && o.FlushThrows? ==>
              GroupEffect(s, g, o) == ExecAll(s, FlushStatements(g.items)[..Min(o.done, |FlushStatements(g.items)|)])
  {
  }

  /** Repair first, then the groups in order. */
  function SweepResult(s: Store, repairs: bool, groups: seq<Group>, outcomes: seq<GroupOutcome>): Store
    requires |groups| == |outcomes|
  {
    if groups == [] then (if repairs then Exec(s, Reconcile) else s)
    else
      var n := |groups| - 1;
      GroupEffect(SweepResult(s, repairs, groups[..n], outcomes[..n]), groups[n], outcomes[n])
  }

  /** The alerts whose channel turned `sent` in flushes that threw. */
  function Unreported(s: Store, repairs: bool, groups: seq<Group>, outcomes: seq<GroupOutcome>): nat
    requires |groups| == |outcomes|
  {
    if groups == [] then 0
    else
      var n := |groups| - 1;
      var t := SweepResult(s, repairs, groups[..n], outcomes[..n]);
      Unreported(s, repairs, groups[..n], outcomes[..n]) +
      if outcomes[n].FlushThrows? then |SentAlerts(GroupEffect(t, groups[n], outcomes[n])) - SentAlerts(t)| else 0
  }

  function FlushedGroups(groups: seq<Group>, outcomes: seq<GroupOutcome>): seq<Group>
    requires |groups| == |outcomes|
  {
    if groups == [] then []
    else
      var n := |groups| - 1;
      FlushedGroups(groups[..n], outcomes[..n]) + if groups[n].items != [] && outcomes[n].Flushed? then [groups[n]] else []
  }

  function ItemCount(groups: seq<Group>): nat {
    if groups == [] then 0 else ItemCount(groups[..|groups| - 1]) + |groups[|groups| - 1].items|
  }

  lemma ItemCountStep(groups: seq<Group>, g: Group)
    ensures ItemCount(groups + [g]) == ItemCount(groups) + |g.items|
  {
    assert (groups + [g])[..|groups|] == groups;
  }

  lemma SweepStart(s: Store, repairs: bool, groups: seq<Group>, outcomes: seq<GroupOutcome>)
    requires |groups| == |outcomes|
    ensures SweepResult(s, repairs, groups[..0], outcomes[..0]) == if repairs then Exec(s, Reconcile) else s
    ensures Unreported(s, repairs, groups[..0], outcomes[..0]) == 0
    ensures FlushedGroups(groups[..0], outcomes[..0]) == [] && ItemCount([]) == 0
  {
  }

  lemma SweepStep(s: Store, repairs: bool, groups: seq<Group>, outcomes: seq<GroupOutcome>, i: nat)
    requires i < |groups| == |outcomes|
    ensures var flushed, t := groups[i].items != [] && outcomes[i].Flushed?, SweepResult(s, repairs, groups[..i], outcomes[..i]);
            && SweepResult(s, repairs, groups[..i + 1], outcomes[..i + 1]) == GroupEffect(t, groups[i], outcomes[i])
            && Unreported(s, repairs, groups[..i + 1], outcomes[..i + 1]) ==
               Unreported(s, repairs, groups[..i], outcomes[..i]) +
               (if outcomes[i].FlushThrows? then |SentAlerts(GroupEffect(t, groups[i], outcomes[i])) - SentAlerts(t)| else 0)
            && |FlushedGroups(groups[..i + 1], outcomes[..i + 1])| ==
               |FlushedGroups(groups[..i], outcomes[..i])| + (if flushed then 1 else 0)
            && ItemCount(FlushedGroups(groups[..i + 1], outcomes[..i + 1])) ==
               ItemCount(FlushedGroups(groups[..i], outcomes[..i])) + (if flushed then |groups[i].items| else 0)
  {
    hide GroupEffect, SentAlerts, ItemCount;
    assert groups[..i + 1][..i] == groups[..i] && outcomes[..i + 1][..i] == outcomes[..i];
    ItemCountStep(FlushedGroups(groups[..i], outcomes[..i]), groups[i]);
    assert FlushedGroups(groups[..i], outcomes[..i]) + [] == FlushedGroups(groups[..i], outcomes[..i]);
  }

  lemma CountNew(start: set<int>, before: set<int>, after: set<int>)
    requires start <= before <= after
    ensures |after - start| == |before - start| + |after - before|
  {
    assert after - start == (before - start) + (after - before);
  }

  /** Only flushes that throw make the reported number differ from the alerts that turned `sent`. */
  lemma {:induction false} NothingUnreported(s: Store, repairs: bool, groups: seq<Group>, outcomes: seq<GroupOutcome>)
    requires |groups| == |outcomes| && forall i | 0 <= i < |outcomes| :: !outcomes[i].FlushThrows?
    ensures Unreported(s, repairs, groups, outcomes) == 0
  {
    if groups != [] {
      NothingUnreported(s, repairs, groups[..|groups| - 1], outcomes[..|groups| - 1]);
    }
  }
}
