/**
  What digest queueing, flushing and sweeping do to the tables, row by row: one item per alert and
  chat, which items a sweep sends, and which channels it turns `sent`.
 */
module DigestOutcome {
  import opened Common
  import opened TelegramDigest

  // ---------------------------------------------------------------- one item per chat

  ghost predicate OnePerChat(s: Store) {
    forall i, j | i in s.items && j in s.items && i != j ::
      s.items[i].alertId != s.items[j].alertId || s.items[i].chatId != s.items[j].chatId
  }

  lemma StatementKeepsOnePerChat(s: Store, st: Statement)
    requires OnePerChat(s)
    ensures OnePerChat(Exec(s, st))
  {
    if st.QueueItem? {
      assert forall i | i in s.items :: (s.items[i].alertId, s.items[i].chatId) in QueuedPairs(s);
    }
  }

  /** In every run no alert is ever queued twice for one chat, whoever queues it and whatever was flushed since. */
  lemma {:induction false} OneItemPerChat(ops: seq<Op>)
    ensures OnePerChat(Run(ops).store)
  {
    if ops != [] {
      var most, op := ops[..|ops| - 1], ops[|ops| - 1];
      OneItemPerChat(most);
      var w := Run(most);
      hide OnePerChat, Exec, Run;
      match op
      case Insert(pid, chat, id) =>
        if pid in w.readers { StatementKeepsOnePerChat(w.store, QueueItem(w.readers[pid], chat, id)); }
      case Statement(st) => StatementKeepsOnePerChat(w.store, st);
      case _ => SameItems(w.store, Apply(w, op).store);
    }
  }

  lemma SameItems(s: Store, t: Store)
    requires t.items == s.items && OnePerChat(s)
    ensures OnePerChat(t)
  {
  }

  // ---------------------------------------------------------------- queueing

  /** Queueing leaves old items alone and gives every chat that has none an unsent item of the alert, and no other. */
  ghost predicate QueuedFor(before: Store, alertId: int, chats: seq<(int, string)>, after: Store) {
    && after.sentChannel == before.sentChannel
    && (forall i | i in before.items :: i in after.items && after.items[i] == before.items[i])
    && (forall i | i in after.items && i !in before.items ::
          && after.items[i].alertId == alertId && !after.items[i].sent
          && (exists k | 0 <= k < |chats| :: chats[k] == (i, after.items[i].chatId))
          && forall j | j in before.items :: before.items[j].alertId != alertId || before.items[j].chatId != after.items[i].chatId)
    && (forall k | 0 <= k < |chats| :: HasItemFor(after, alertId, chats[k].1))
  }

  ghost predicate HasItemFor(s: Store, alertId: int, chat: string) {
    exists i | i in s.items :: s.items[i].alertId == alertId && s.items[i].chatId == chat
  }

  lemma HasItemForIff(s: Store, alertId: int, chat: string)
    ensures HasItemFor(s, alertId, chat) <==> (alertId, chat) in QueuedPairs(s)
  {
  }

  /** Items get new ids, one after another. */
  ghost predicate FreshIds(s: Store, chats: seq<(int, string)>) {
    forall k | 0 <= k < |chats| :: chats[k].0 !in s.items && forall j | 0 <= j < k :: chats[j].0 != chats[k].0
  }

  lemma {:induction false} QueueingIsExact(s: Store, alertId: int, chats: seq<(int, string)>)
    requires alertId in s.sentChannel && FreshIds(s, chats)
    ensures QueuedFor(s, alertId, chats, ExecAll(s, Queueing(alertId, chats)))
  {
    if chats != [] {
      var n := |chats| - 1;
      var most, chat := chats[..n], chats[n];
      QueueingIsExact(s, alertId, most);
      assert Queueing(alertId, chats)[..n] == Queueing(alertId, most);
      var t := ExecAll(s, Queueing(alertId, most));
      hide ExecAll, Queueing, FreshIds;
      assert ExecAll(s, Queueing(alertId, chats)) == Exec(t, QueueItem(alertId, chat.1, chat.0)) by { ExecLast(s, alertId, chats); }
      QueueOneMore(s, alertId, chats, t);
    }
  }

  lemma ExecLast(s: Store, alertId: int, chats: seq<(int, string)>)
    requires chats != []
    ensures var n := |chats| - 1;
            ExecAll(s, Queueing(alertId, chats)) ==
            Exec(ExecAll(s, Queueing(alertId, chats[..n])), QueueItem(alertId, chats[n].1, chats[n].0))
  {
    assert Queueing(alertId, chats)[..|chats| - 1] == Queueing(alertId, chats[..|chats| - 1]);
  }

  lemma QueueOneMore(s: Store, alertId: int, chats: seq<(int, string)>, t: Store)
    requires chats != [] && alertId in s.sentChannel && FreshIds(s, chats) && QueuedFor(s, alertId, chats[..|chats| - 1], t)
    ensures QueuedFor(s, alertId, chats, Exec(t, QueueItem(alertId, chats[|chats| - 1].1, chats[|chats| - 1].0)))
  {
    var n := |chats| - 1;
    var most, chat := chats[..n], chats[n];
    var u := Exec(t, QueueItem(alertId, chat.1, chat.0));
    HasItemForIff(t, alertId, chat.1);
    assert chat.0 !in t.items;
    hide QueuedPairs;
    assert u == t || (u == t.(items := t.items[chat.0 := Item(alertId, chat.1, false)]) && !HasItemFor(t, alertId, chat.1));
    forall k | 0 <= k < |chats| ensures HasItemFor(u, alertId, chats[k].1) {
      if k < n {
        assert HasItemFor(t, alertId, most[k].1);
        ItemStays(t, u, alertId, most[k].1);
      } else if u != t {
        assert u.items[chat.0].chatId == chat.1;
      }
    }
    forall i | i in u.items && i !in s.items
      ensures exists k | 0 <= k < |chats| :: chats[k] == (i, u.items[i].chatId)
    {
      if i in t.items {
        var k :| 0 <= k < |most| && most[k] == (i, t.items[i].chatId);
        assert chats[k] == most[k];
      } else {
        assert chats[n] == (i, u.items[i].chatId);
      }
    }
    if u != t {
      forall j | j in s.items ensures s.items[j].alertId != alertId || s.items[j].chatId != chat.1 {
        assert t.items[j] == s.items[j];
      }
    }
  }

  lemma ItemStays(t: Store, u: Store, alertId: int, chat: string)
    requires HasItemFor(t, alertId, chat) && forall i | i in t.items :: i in u.items && u.items[i] == t.items[i]
    ensures HasItemFor(u, alertId, chat)
  {
    var i :| i in t.items && t.items[i].alertId == alertId && t.items[i].chatId == chat;
    assert u.items[i].alertId == alertId;
  }

  // ---------------------------------------------------------------- a whole sweep

  /** The item is listed in a group that was flushed, or in one whose flush threw only after marking it. */
  ghost predicate MarkedIn(groups: seq<Group>, outcomes: seq<GroupOutcome>, item: int)
    requires |groups| == |outcomes|
  {
    exists g, j | 0 <= g < |groups| && 0 <= j < |groups[g].items| ::
      && groups[g].items[j].itemId == item
      && (outcomes[g].Flushed? || (outcomes[g].FlushThrows? && j < outcomes[g].done))
  }

  lemma PartialMarks(s: Store, items: seq<Listed>, done: nat)
    requires done <= |FlushStatements(items)|
    ensures var t := ExecAll(s, FlushStatements(items)[..done]);
            && t.items.Keys == s.items.Keys && t.sentChannel.Keys == s.sentChannel.Keys
            && forall i | i in s.items ::
                 t.items[i] == s.items[i].(sent := s.items[i].sent || Among(items, done, i))
  {
    var sts := FlushStatements(items)[..done];
    if done <= |items| {
      assert sts == MarkAll(items[..done]);
      MarkEffect(s, items[..done]);
      MarkedPrefix(s, items, done);
    } else {
      var ids := AlertIds(items)[..done - |items|];
      assert sts == MarkAll(items) + ConvergeAll(ids);
      ExecConcat(s, MarkAll(items), ConvergeAll(ids));
      MarkEffect(s, items);
      ConvergeEffect(ExecAll(s, MarkAll(items)), ids);
    }
  }

  lemma MarkedPrefix(s: Store, items: seq<Listed>, done: nat)
    requires done <= |items|
    ensures forall i | i in s.items :: (exists j | 0 <= j < |items[..done]| :: items[..done][j].itemId == i) <==> Among(items, done, i)
  {
    assert forall j | 0 <= j < done :: items[..done][j] == items[j];
  }

  /** The item stands among the first `done` of the list. */
  ghost predicate Among(items: seq<Listed>, done: nat, item: int) {
    exists j | 0 <= j < |items| && j < done :: items[j].itemId == item
  }

  /** The items one group marks. */
  ghost predicate MarkedBy(g: Group, o: GroupOutcome, item: int) {
    exists j | 0 <= j < |g.items| :: g.items[j].itemId == item && (o.Flushed? || (o.FlushThrows? && j < o.done))
  }

  lemma GroupMarks(s: Store, g: Group, o: GroupOutcome)
    ensures var t := GroupEffect(s, g, o);
            && t.items.Keys == s.items.Keys && t.sentChannel.Keys == s.sentChannel.Keys
            && forall i | i in s.items :: t.items[i] == s.items[i].(sent := s.items[i].sent || MarkedBy(g, o, i))
  {
    if g.items != [] && o.Flushed? {
      FlushIsExact(s, g.items);
    } else if g.items != [] && o.FlushThrows? {
      PartialMarks(s, g.items, Min(o.done, |FlushStatements(g.items)|));
    }
    hide ExecAll, FlushStatements, HasUnsent;
  }

  lemma MarkedStep(groups: seq<Group>, outcomes: seq<GroupOutcome>, item: int)
    requires |groups| == |outcomes| && groups != []
    ensures var n := |groups| - 1;
            MarkedIn(groups, outcomes, item) <==> MarkedIn(groups[..n], outcomes[..n], item) || MarkedBy(groups[n], outcomes[n], item)
  {
    var n := |groups| - 1;
    if MarkedBy(groups[n], outcomes[n], item) {
      var j :| 0 <= j < |groups[n].items| && groups[n].items[j].itemId == item
               && (outcomes[n].Flushed? || (outcomes[n].FlushThrows? && j < outcomes[n].done));
      assert groups[n].items[j].itemId == item;
    }
    if MarkedIn(groups[..n], outcomes[..n], item) {
      var g, j :| 0 <= g < n && 0 <= j < |groups[..n][g].items| && groups[..n][g].items[j].itemId == item
                  && (outcomes[..n][g].Flushed? || (outcomes[..n][g].FlushThrows? && j < outcomes[..n][g].done));
      assert groups[g].items[j].itemId == item && outcomes[g] == outcomes[..n][g];
    }
    if MarkedIn(groups, outcomes, item) {
      var g, j :| 0 <= g < |groups| && 0 <= j < |groups[g].items| && groups[g].items[j].itemId == item
                  && (outcomes[g].Flushed? || (outcomes[g].FlushThrows? && j < outcomes[g].done));
      if g < n {
        assert groups[..n][g].items[j].itemId == item && outcomes[..n][g] == outcomes[g];
      }
    }
  }

  /** A sweep sends exactly the items of the groups it flushed, and of a flush that threw those marked before it did. */
  lemma {:induction false} SweepMarks(s: Store, repairs: bool, groups: seq<Group>, outcomes: seq<GroupOutcome>)
    requires |groups| == |outcomes|
    ensures var t := SweepResult(s, repairs, groups, outcomes);
            && t.items.Keys == s.items.Keys && t.sentChannel.Keys == s.sentChannel.Keys
            && forall i | i in s.items :: t.items[i] == s.items[i].(sent := s.items[i].sent || MarkedIn(groups, outcomes, i))
  {
    hide GroupEffect, MarkedIn, MarkedBy;
    if groups == [] {
      NothingMarked(groups, outcomes);
    } else {
      var n := |groups| - 1;
      SweepMarks(s, repairs, groups[..n], outcomes[..n]);
      GroupMarks(SweepResult(s, repairs, groups[..n], outcomes[..n]), groups[n], outcomes[n]);
      forall i | i in s.items
        ensures MarkedIn(groups, outcomes, i) <==> MarkedIn(groups[..n], outcomes[..n], i) || MarkedBy(groups[n], outcomes[n], i)
      {
        MarkedStep(groups, outcomes, i);
      }
    }
  }

  lemma NothingMarked(groups: seq<Group>, outcomes: seq<GroupOutcome>)
    requires groups == [] && outcomes == []
    ensures forall i :: !MarkedIn(groups, outcomes, i)
  {
  }

  // ---------------------------------------------------------------- the channels after a sweep

  ghost predicate FlushedIn(groups: seq<Group>, outcomes: seq<GroupOutcome>, alertId: int)
    requires |groups| == |outcomes|
  {
    exists g, j | 0 <= g < |groups| && 0 <= j < |groups[g].items| :: groups[g].items[j].alertId == alertId && outcomes[g].Flushed?
  }

  lemma FlushedInStep(groups: seq<Group>, outcomes: seq<GroupOutcome>, alertId: int)
    requires |groups| == |outcomes| && groups != []
    ensures var n := |groups| - 1;
            FlushedIn(groups, outcomes, alertId) <==>
            FlushedIn(groups[..n], outcomes[..n], alertId) ||
            (outcomes[n].Flushed? && exists j | 0 <= j < |groups[n].items| :: groups[n].items[j].alertId == alertId)
  {
    var n := |groups| - 1;
    if FlushedIn(groups[..n], outcomes[..n], alertId) {
      var g, j :| 0 <= g < n && 0 <= j < |groups[..n][g].items| && groups[..n][g].items[j].alertId == alertId && outcomes[..n][g].Flushed?;
      assert groups[g].items[j].alertId == alertId && outcomes[g].Flushed?;
    }
    if j :| 0 <= j < |groups[n].items| && groups[n].items[j].alertId == alertId && outcomes[n].Flushed? {
      assert groups[n].items[j].alertId == alertId && outcomes[n].Flushed?;
    }
    if FlushedIn(groups, outcomes, alertId) {
      var g, j :| 0 <= g < |groups| && 0 <= j < |groups[g].items| && groups[g].items[j].alertId == alertId && outcomes[g].Flushed?;
      if g < n {
        assert groups[..n][g].items[j].alertId == alertId && outcomes[..n][g].Flushed?;
      }
    }
  }

  /** The repair statement finds the alert: it has items and none of them waits. */
  ghost predicate Repairable(s: Store, alertId: int) { HasItems(s, alertId) && !HasUnsent(s, alertId) }

  ghost predicate ChannelsExact(s: Store, repairs: bool, groups: seq<Group>, outcomes: seq<GroupOutcome>, t: Store)
    requires |groups| == |outcomes|
  {
    && t.sentChannel.Keys == s.sentChannel.Keys
    && forall a | a in s.sentChannel && a in t.sentChannel ::
         t.sentChannel[a] <==>
         s.sentChannel[a] || (repairs && Repairable(s, a)) || (FlushedIn(groups, outcomes, a) && !HasUnsent(t, a))
  }

  lemma ReconcileExact(s: Store, a: int)
    requires a in s.sentChannel
    ensures var t := Exec(s, Reconcile); a in t.sentChannel && (t.sentChannel[a] <==> s.sentChannel[a] || Repairable(s, a))
  {
    UnsentIff(s, a);
    if Repairable(s, a) {
      var i :| i in s.items && s.items[i].alertId == a;
      assert s.items[i].sent && a in FlushedAlerts(s);
    }
  }

  /** A flush of other alerts changes nothing about which items of this one wait. */
  lemma OthersKeepWaiting(s: Store, items: seq<Listed>, t: Store, a: int)
    requires FlushExact(s, items, t) && ListedFrom(s, items) && forall j | 0 <= j < |items| :: items[j].alertId != a
    ensures HasUnsent(t, a) <==> HasUnsent(s, a)
  {
    forall i | i in s.items && s.items[i].alertId == a ensures t.items[i] == s.items[i] {
      assert forall j | 0 <= j < |items| :: items[j].itemId != i;
    }
    if HasUnsent(s, a) {
      var i :| i in s.items && s.items[i].alertId == a && !s.items[i].sent;
      assert t.items[i] == s.items[i];
    }
  }

  lemma FlushesOnlySend(s: Store, items: seq<Listed>, t: Store, a: int)
    requires FlushExact(s, items, t) && HasUnsent(t, a)
    ensures HasUnsent(s, a)
  {
    var i :| i in t.items && t.items[i].alertId == a && !t.items[i].sent;
    assert i in s.items;
  }

  /** The listing of every group agrees with the table. */
  ghost predicate AllListed(s: Store, groups: seq<Group>) {
    forall g | 0 <= g < |groups| :: ListedFrom(s, groups[g].items)
  }

  lemma ListedStays(s: Store, t: Store, items: seq<Listed>)
    requires ListedFrom(s, items) && t.items.Keys == s.items.Keys && forall i | i in s.items :: t.items[i].alertId == s.items[i].alertId
    ensures ListedFrom(t, items)
  {
  }

  lemma ChannelsStep(s: Store, repairs: bool, groups: seq<Group>, outcomes: seq<GroupOutcome>, t: Store)
    requires |groups| == |outcomes| && groups != []
    requires ChannelsExact(s, repairs, groups[..|groups| - 1], outcomes[..|groups| - 1], t) && ListedFrom(t, groups[|groups| - 1].items)
    requires !outcomes[|groups| - 1].FlushThrows?
    ensures ChannelsExact(s, repairs, groups, outcomes, GroupEffect(t, groups[|groups| - 1], outcomes[|groups| - 1]))
  {
    var n := |groups| - 1;
    var g, o := groups[n], outcomes[n];
    var u := GroupEffect(t, g, o);
    if g.items != [] && o.Flushed? {
      FlushIsExact(t, g.items);
    }
    hide GroupEffect, HasUnsent, FlushedIn, Repairable, ListedFrom;
    GroupEffectIs(t, g, o);
    forall a | a in s.sentChannel && a in u.sentChannel
      ensures u.sentChannel[a] <==> s.sentChannel[a] || (repairs && Repairable(s, a)) || (FlushedIn(groups, outcomes, a) && !HasUnsent(u, a))
    {
      FlushedInStep(groups, outcomes, a);
      if g.items != [] && o.Flushed? {
        if HasUnsent(u, a) { FlushesOnlySend(t, g.items, u, a); }
        if forall j | 0 <= j < |g.items| :: g.items[j].alertId != a {
          OthersKeepWaiting(t, g.items, u, a);
        }
      }
    }
  }

  /**
    After a sweep none of whose flushes threw, a channel is `sent` exactly when it was, or the repair
    found the alert complete, or a flushed group held it and no item of it waits any more.
   */
  lemma {:induction false} SweepChannels(s: Store, repairs: bool, groups: seq<Group>, outcomes: seq<GroupOutcome>)
    requires |groups| == |outcomes| && AllListed(s, groups) && forall g | 0 <= g < |groups| :: !outcomes[g].FlushThrows?
    ensures ChannelsExact(s, repairs, groups, outcomes, SweepResult(s, repairs, groups, outcomes))
  {
    hide GroupEffect, ListedFrom, HasUnsent, Repairable, Exec;
    if groups == [] {
      NothingFlushed(s, groups, outcomes);
      ReconcileKeys(s);
      forall a | a in s.sentChannel
        ensures a in Exec(s, Reconcile).sentChannel && (Exec(s, Reconcile).sentChannel[a] <==> s.sentChannel[a] || Repairable(s, a))
      {
        ReconcileExact(s, a);
      }
    } else {
      var n := |groups| - 1;
      SweepChannels(s, repairs, groups[..n], outcomes[..n]);
      SweepMarks(s, repairs, groups[..n], outcomes[..n]);
      assert ListedFrom(s, groups[n].items);
      ListedStays(s, SweepResult(s, repairs, groups[..n], outcomes[..n]), groups[n].items);
      hide ChannelsExact;
      ChannelsStep(s, repairs, groups, outcomes, SweepResult(s, repairs, groups[..n], outcomes[..n]));
    }
  }

  lemma NothingFlushed(s: Store, groups: seq<Group>, outcomes: seq<GroupOutcome>)
    requires groups == [] && outcomes == []
    ensures forall a :: !FlushedIn(groups, outcomes, a)
  {
  }

  lemma ReconcileKeys(s: Store)
    ensures Exec(s, Reconcile).sentChannel.Keys == s.sentChannel.Keys
  {
  }

  // ---------------------------------------------------------------- what a sweep reports

  function FlushedAt(groups: seq<Group>, outcomes: seq<GroupOutcome>): set<nat>
    requires |groups| == |outcomes|
  {
    set g: nat | g < |groups| && groups[g].items != [] && outcomes[g].Flushed?
  }

  /** The number of processed groups is the number of groups with items that were flushed. */
  lemma {:induction false} ProcessedAreFlushed(groups: seq<Group>, outcomes: seq<GroupOutcome>)
    requires |groups| == |outcomes|
    ensures |FlushedGroups(groups, outcomes)| == |FlushedAt(groups, outcomes)|
  {
    if groups != [] {
      var n := |groups| - 1;
      ProcessedAreFlushed(groups[..n], outcomes[..n]);
      assert FlushedAt(groups, outcomes) ==
             FlushedAt(groups[..n], outcomes[..n]) + if groups[n].items != [] && outcomes[n].Flushed? then {n} else {};
    }
  }

  /** One pair per listed item of the groups: its group and its place in it. */
  function Places(groups: seq<Group>): set<(nat, nat)> {
    set g: nat, j: nat | g < |groups| && j < |groups[g].items| :: (g, j)
  }

  function PlacesIn(g: nat, n: nat): set<(nat, nat)> {
    set j: nat | j < n :: (g, j)
  }

  lemma {:induction false} PlacesCount(g: nat, n: nat)
    ensures |PlacesIn(g, n)| == n
  {
    if n > 0 {
      PlacesCount(g, n - 1);
      assert PlacesIn(g, n) == PlacesIn(g, n - 1) + {(g, n - 1)};
    }
  }

  /** The number of sent items is the number of items the flushed groups list. */
  lemma {:induction false} SentItemsAreListed(groups: seq<Group>)
    ensures ItemCount(groups) == |Places(groups)|
  {
    if groups != [] {
      var n := |groups| - 1;
      SentItemsAreListed(groups[..n]);
      PlacesCount(n, |groups[n].items|);
      var most, last := Places(groups[..n]), PlacesIn(n, |groups[n].items|);
      assert Places(groups) == most + last;
      assert most !! last;
    }
  }
}
