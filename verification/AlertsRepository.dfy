/**
  `AlertsRepository.createForEntryWithRules` over mutable tables, and the rows it reports.
 */
module AlertsRepository {
  import opened Common
  import opened AlertUpsert
  import opened AlertBatch

  datatype Summary = Summary(id: nat, entryId: int, ruleId: int)

  datatype Returned = Returned(alert: Summary, inserted: bool)

  function SummaryOf(a: Alert): Summary {
    Summary(a.id, a.entryId, a.ruleId)
  }

  function Summaries(rows: seq<Alert>): (q: seq<Summary>)
    ensures |q| == |rows| && forall i | 0 <= i < |rows| :: q[i] == SummaryOf(rows[i])
  {
    seq(|rows|, i requires 0 <= i < |rows| => SummaryOf(rows[i]))
  }

  /** The `RETURNING id, entry_id, rule_id, (xmax = 0)` row of one value row. */
  function ReturnedOne(rows: seq<Alert>, id: nat, v: ValueRow): Returned {
    var i := IndexOf(Keys(rows), ValueKey(v));
    if i < |rows| then Returned(SummaryOf(rows[i]), false)
    else Returned(Summary(id, v.entryId, v.ruleId), true)
  }

  function ReturnedAll(rows: seq<Alert>, nextId: nat, vs: seq<ValueRow>): (q: seq<Returned>)
    ensures |q| == |vs|
  {
    if vs == [] then []
    else
      var n := |vs| - 1;
      ReturnedAll(rows, nextId, vs[..n]) + [ReturnedOne(UpsertAll(rows, nextId, vs[..n]), nextId + n, vs[n])]
  }

  /** The `created` (`inserted`) or `ruleSetExtended` half of the returned rows, in order. */
  function Select(q: seq<Returned>, inserted: bool): seq<Summary> {
    if q == [] then []
    else
      var rest := Select(q[..|q| - 1], inserted);
      if q[|q| - 1].inserted == inserted then rest + [q[|q| - 1].alert] else rest
  }

  /** The rows, as the statement found them, that the proposals whose key already existed address. */
  function AlreadyPresent(rows: seq<Alert>, vs: seq<ValueRow>): seq<Summary> {
    if vs == [] then []
    else
      var rest := AlreadyPresent(rows, vs[..|vs| - 1]);
      var i := IndexOf(Keys(rows), ValueKey(vs[|vs| - 1]));
      if i < |rows| then rest + [SummaryOf(rows[i])] else rest
  }

  lemma KeysAfterUpsertOne(rows: seq<Alert>, id: nat, v: ValueRow)
    ensures Keys(UpsertOne(rows, id, v)) == if ValueKey(v) in Keys(rows) then Keys(rows) else Keys(rows) + [ValueKey(v)]
  {
  }

  lemma SummariesAfterUpsertOne(rows: seq<Alert>, id: nat, v: ValueRow)
    ensures Summaries(UpsertOne(rows, id, v)) ==
            if ValueKey(v) in Keys(rows) then Summaries(rows) else Summaries(rows) + [Summary(id, v.entryId, v.ruleId)]
  {
  }

  lemma EmptyStep(rows: seq<Alert>, id: nat)
    ensures UpsertAll(rows, id, []) == rows && ReturnedAll(rows, id, []) == [] && Select([], true) == [] && Select([], false) == []
  {
  }

  lemma PrefixStep(rows: seq<Alert>, id: nat, vs: seq<ValueRow>, v: ValueRow)
    ensures UpsertAll(rows, id, vs + [v]) == UpsertOne(UpsertAll(rows, id, vs), id + |vs|, v)
    ensures ReturnedAll(rows, id, vs + [v]) == ReturnedAll(rows, id, vs) + [ReturnedOne(UpsertAll(rows, id, vs), id + |vs|, v)]
  {
    assert (vs + [v])[..|vs|] == vs;
  }

  lemma SelectStep(q: seq<Returned>, r: Returned, inserted: bool)
    ensures Select(q + [r], inserted) == Select(q, inserted) + if r.inserted == inserted then [r.alert] else []
  {
    assert (q + [r])[..|q|] == q;
  }

  lemma InsertedIffAbsent(rows: seq<Alert>, id: nat, v: ValueRow)
    ensures ReturnedOne(rows, id, v).inserted <==> ValueKey(v) !in Keys(rows)
    ensures ReturnedOne(rows, id, v).inserted ==> ReturnedOne(rows, id, v).alert == Summary(id, v.entryId, v.ruleId)
  {
  }

  /** No row is ever removed, moved or re-keyed: `created` is exactly what was appended behind the old rows. */
  lemma {:induction false} CreatedAreAppended(rows: seq<Alert>, nextId: nat, vs: seq<ValueRow>)
    ensures |UpsertAll(rows, nextId, vs)| >= |rows|
    ensures Summaries(UpsertAll(rows, nextId, vs)) == Summaries(rows) + Select(ReturnedAll(rows, nextId, vs), true)
    ensures Keys(UpsertAll(rows, nextId, vs))[..|rows|] == Keys(rows)
  {
    hide *;
    if vs == [] {
      EmptyStep(rows, nextId);
    } else {
      var most, v := vs[..|vs| - 1], vs[|vs| - 1];
      assert vs == most + [v];
      CreatedAreAppended(rows, nextId, most);
      PrefixStep(rows, nextId, most, v);
      var before, id := UpsertAll(rows, nextId, most), nextId + |most|;
      SelectStep(ReturnedAll(rows, nextId, most), ReturnedOne(before, id, v), true);
      InsertedIffAbsent(before, id, v);
      KeysAfterUpsertOne(before, id, v);
      SummariesAfterUpsertOne(before, id, v);
      AppendedBehind(rows, before, UpsertOne(before, id, v), Select(ReturnedAll(rows, nextId, most), true),
                     if ValueKey(v) in Keys(before) then [] else [Summary(id, v.entryId, v.ruleId)]);
    }
  }

  lemma AppendedBehind(rows: seq<Alert>, before: seq<Alert>, after: seq<Alert>, created: seq<Summary>, more: seq<Summary>)
    requires |before| >= |rows| && Summaries(before) == Summaries(rows) + created && Keys(before)[..|rows|] == Keys(rows)
    requires Summaries(after) == Summaries(before) + more && |Keys(after)| >= |before| && Keys(after)[..|before|] == Keys(before)
    ensures |after| >= |rows| && Summaries(after) == Summaries(rows) + (created + more) && Keys(after)[..|rows|] == Keys(rows)
  {
    assert Keys(after)[..|rows|] == Keys(after)[..|before|][..|rows|];
  }

  /** A key absent before the statement is absent until a row proposes it. */
  lemma {:induction false} AbsentStaysAbsent(rows: seq<Alert>, nextId: nat, vs: seq<ValueRow>, k: Key)
    requires k !in Keys(rows) && forall i | 0 <= i < |vs| :: ValueKey(vs[i]) != k
    ensures k !in Keys(UpsertAll(rows, nextId, vs))
  {
    if vs != [] {
      var n := |vs| - 1;
      AbsentStaysAbsent(rows, nextId, vs[..n], k);
      KeysAfterUpsertOne(UpsertAll(rows, nextId, vs[..n]), nextId + n, vs[n]);
    }
  }

  lemma PresentReturned(rows: seq<Alert>, nextId: nat, vs: seq<ValueRow>, v: ValueRow)
    requires ValueKey(v) in Keys(rows)
    ensures ReturnedOne(UpsertAll(rows, nextId, vs), nextId + |vs|, v) == Returned(SummaryOf(rows[IndexOf(Keys(rows), ValueKey(v))]), false)
  {
    CreatedAreAppended(rows, nextId, vs);
    var before := UpsertAll(rows, nextId, vs);
    IndexOfExtended(Keys(rows), Keys(before), ValueKey(v));
    var i := IndexOf(Keys(rows), ValueKey(v));
    assert Summaries(before)[i] == Summaries(rows)[i];
  }

  /** `ruleSetExtended` holds one row per proposed key that existed before the statement, and no other. */
  lemma {:induction false} ExtendedWerePresent(rows: seq<Alert>, nextId: nat, vs: seq<ValueRow>)
    requires DistinctValues(vs)
    ensures Select(ReturnedAll(rows, nextId, vs), false) == AlreadyPresent(rows, vs)
  {
    if vs != [] {
      var n := |vs| - 1;
      ExtendedWerePresent(rows, nextId, vs[..n]);
      if ValueKey(vs[n]) in Keys(rows) {
        PresentReturned(rows, nextId, vs[..n], vs[n]);
      } else {
        AbsentStaysAbsent(rows, nextId, vs[..n], ValueKey(vs[n]));
      }
    }
  }

  // ---------------------------------------------------------------- the repository

  datatype DbError = RowTouchedTwice

  datatype Outcome = Outcome(created: seq<Summary>, ruleSetExtended: seq<Summary>)

  /** ASCII unit separator, assumed by the source to occur in no tenant id and no URL. */
  const SEPARATOR: char := '\U{1F}'

  function MemoryKey(tenant: string, dedupe: string): string {
    tenant + [SEPARATOR] + dedupe
  }

  /** Given separator-free tenant ids, the concatenated in-memory key identifies the key of the index. */
  lemma MemoryKeyFaithful(t: string, d: string, t': string, d': string)
    requires SEPARATOR !in t && SEPARATOR !in t'
    ensures MemoryKey(t, d) == MemoryKey(t', d') <==> t == t' && d == d'
  {
    SeparatorIndex(t, d);
    SeparatorIndex(t', d');
    var k, k' := MemoryKey(t, d), MemoryKey(t', d');
    if k == k' {
      assert t == k[..|t|] && t' == k'[..|t'|];
      assert d == k[|t| + 1..] && d' == k'[|t'| + 1..];
    }
  }

  lemma SeparatorIndex(t: string, d: string)
    requires SEPARATOR !in t
    ensures IndexOf(MemoryKey(t, d), SEPARATOR) == |t|
  {
    var k := MemoryKey(t, d);
    var i := IndexOf(k, SEPARATOR);
    assert k[|t|] == SEPARATOR;
    assert k[..|t|] == t;
    assert forall j | 0 <= j < |t| :: k[j] in t;
  }

  /** The rows of `before` that stand under a matched article, reported once each. */
  ghost predicate ReportsExtended(
    entries: map<int, Entry>, matches: map<int, seq<int>>, canon: Canonicalizer, before: seq<Alert>, extended: seq<Summary>
  ) {
    exists at: seq<nat> | |at| == |extended| && Distinct(at) ::
      && (forall k | 0 <= k < |at| :: at[k] < |before| && extended[k] == Summary(before[at[k]].id, before[at[k]].entryId, before[at[k]].ruleId))
      && (forall i: nat | i < |before| :: i in at <==> exists id :: MatchedUnder(entries, matches, canon, id, KeyOf(before[i])))
  }

  /** The appended rows are reported as created, in order. */
  ghost predicate ReportsCreated(before: seq<Alert>, after: seq<Alert>, created: seq<Summary>) {
    && |after| == |before| + |created|
    && forall k | 0 <= k < |created| ::
         var a := after[|before| + k]; created[k] == Summary(a.id, a.entryId, a.ruleId)
  }

  /** Positions of the rows whose key a value row has, in the order of the value rows. */
  lemma {:induction false} PresentPositions(rows: seq<Alert>, vs: seq<ValueRow>) returns (at: seq<nat>)
    requires Distinct(Keys(rows)) && DistinctValues(vs)
    ensures |at| == |AlreadyPresent(rows, vs)| && Distinct(at)
    ensures forall k | 0 <= k < |at| :: at[k] < |rows| && AlreadyPresent(rows, vs)[k] == SummaryOf(rows[at[k]])
    ensures forall i: nat | i < |rows| :: i in at <==> Proposed(vs, KeyOf(rows[i]))
  {
    hide KeyOf, ValueKey, SummaryOf;
    at := [];
    if vs != [] {
      var most, v := vs[..|vs| - 1], vs[|vs| - 1];
      assert vs == most + [v];
      DistinctMost(most, v);
      at := PresentPositions(rows, most);
      var i := IndexOf(Keys(rows), ValueKey(v));
      forall j: nat | j < |rows| ensures Proposed(vs, KeyOf(rows[j])) <==> Proposed(most, KeyOf(rows[j])) || j == i {
        ProposedStep(most, v, KeyOf(rows[j]));
        assert Keys(rows)[j] == KeyOf(rows[j]);
      }
      if i < |rows| {
        assert i !in at;
        at := at + [i];
      }
    }
  }

  lemma DistinctToValues(ps: seq<Proposal>)
    requires DistinctKeys(ps)
    ensures DistinctValues(ToValues(ps))
  {
    forall i, j | 0 <= i < j < |ps| ensures ValueKey(ToValues(ps)[i]) != ValueKey(ToValues(ps)[j]) {
      assert ProposalKeys(ps)[i] != ProposalKeys(ps)[j];
    }
  }

  /** Everything a caller learns from writing a collapsed batch. */
  lemma BatchEffect(rows: seq<Alert>, id: nat, ps: seq<Proposal>)
    requires AllMatched(ps)
    ensures DistinctValues(ToValues(Collapse(ps)))
    ensures var after, back := UpsertAll(rows, id, ToValues(Collapse(ps))), ReturnedAll(rows, id, ToValues(Collapse(ps)));
            && VisibleTable(after) == VisibleUpsertAll(VisibleTable(rows), ps)
            && |after| >= |rows| && Keys(after)[..|rows|] == Keys(rows)
            && Select(back, true) == Summaries(after[|rows|..])
            && Select(back, false) == AlreadyPresent(rows, ToValues(Collapse(ps)))
  {
    var values := ToValues(Collapse(ps));
    CollapseDistinct(ps);
    DistinctToValues(Collapse(ps));
    CollapseVisible(VisibleTable(rows), ps);
    UpsertAllVisible(rows, id, Collapse(ps));
    ExtendedWerePresent(rows, id, values);
    CreatedAreAppended(rows, id, values);
    SummariesSuffix(rows, UpsertAll(rows, id, values), Select(ReturnedAll(rows, id, values), true));
  }

  lemma SummariesSuffix(rows: seq<Alert>, after: seq<Alert>, added: seq<Summary>)
    requires |rows| <= |after| && Summaries(after) == Summaries(rows) + added
    ensures Summaries(after[|rows|..]) == added
  {
    assert added == Summaries(after)[|rows|..];
  }

  /** The JavaScript `Map` of pending upserts: its insertion order, and its content by key. */
  ghost predicate Represents(order: seq<string>, upserts: map<string, Proposal>, pending: seq<Proposal>) {
    && |order| == |pending|
    && (forall j | 0 <= j < |order| :: order[j] in upserts && upserts[order[j]] == pending[j])
    && (forall j | 0 <= j < |order| :: order[j] == MemoryKeyOf(pending[j]))
    && (forall k | k in upserts :: k in order)
  }

  function MemoryKeyOf(p: Proposal): string {
    MemoryKey(p.tenant, DedupeText(p.canonicalLink, p.entryId))
  }

  ghost predicate SeparatorFree(ps: seq<Proposal>) {
    forall j | 0 <= j < |ps| :: SEPARATOR !in ps[j].tenant
  }

  lemma SameMemoryKey(p: Proposal, q: Proposal)
    requires SEPARATOR !in p.tenant && SEPARATOR !in q.tenant
    ensures MemoryKeyOf(p) == MemoryKeyOf(q) <==> ProposalKey(p) == ProposalKey(q)
  {
    MemoryKeyFaithful(p.tenant, DedupeText(p.canonicalLink, p.entryId), q.tenant, DedupeText(q.canonicalLink, q.entryId));
  }

  lemma MemoryLookup(order: seq<string>, upserts: map<string, Proposal>, pending: seq<Proposal>, p: Proposal)
    requires Represents(order, upserts, pending) && SeparatorFree(pending) && SEPARATOR !in p.tenant
    ensures MemoryKeyOf(p) in upserts <==> ProposalKey(p) in ProposalKeys(pending)
  {
    forall j | 0 <= j < |pending| ensures order[j] == MemoryKeyOf(p) <==> ProposalKey(pending[j]) == ProposalKey(p) {
      SameMemoryKey(pending[j], p);
    }
    hide MemoryKeyOf, ProposalKey;
    if MemoryKeyOf(p) in upserts {
      var j :| 0 <= j < |order| && order[j] == MemoryKeyOf(p);
      assert ProposalKeys(pending)[j] == ProposalKey(p);
    }
    if ProposalKey(p) in ProposalKeys(pending) {
      var j :| 0 <= j < |pending| && ProposalKeys(pending)[j] == ProposalKey(p);
      assert order[j] in upserts;
    }
  }

  /** One turn of the loop over the entry rows: JavaScript `Map` state against the collapse. */
  lemma MemoryStep(order: seq<string>, upserts: map<string, Proposal>, pending: seq<Proposal>, p: Proposal)
    requires Represents(order, upserts, pending) && DistinctKeys(pending)
    requires SeparatorFree(pending) && SEPARATOR !in p.tenant
    ensures var k := MemoryKeyOf(p);
            if k in upserts then Represents(order, upserts[k := upserts[k].(rules := upserts[k].rules + p.rules)], AddPending(pending, p))
            else Represents(order + [k], upserts[k := p], AddPending(pending, p))
    ensures SeparatorFree(AddPending(pending, p))
  {
    hide DedupeText, MemoryKeyOf, ProposalKey, SeparatorFree;
    MemoryLookup(order, upserts, pending, p);
    OrderDistinct(order, upserts, pending);
    AddPendingSeparatorFree(pending, p);
    var i := IndexOf(ProposalKeys(pending), ProposalKey(p));
    if i < |pending| {
      PendingKey(order, upserts, pending, p, i);
    }
  }

  lemma OrderDistinct(order: seq<string>, upserts: map<string, Proposal>, pending: seq<Proposal>)
    requires Represents(order, upserts, pending) && DistinctKeys(pending) && SeparatorFree(pending)
    ensures Distinct(order)
  {
    hide MemoryKeyOf, ProposalKey;
    forall i, j | 0 <= i < j < |pending| ensures order[i] != order[j] {
      assert ProposalKeys(pending)[i] != ProposalKeys(pending)[j];
      SameMemoryKey(pending[i], pending[j]);
    }
  }

  lemma PendingKey(order: seq<string>, upserts: map<string, Proposal>, pending: seq<Proposal>, p: Proposal, i: nat)
    requires Represents(order, upserts, pending) && SeparatorFree(pending) && SEPARATOR !in p.tenant
    requires i < |pending| && ProposalKeys(pending)[i] == ProposalKey(p)
    ensures order[i] == MemoryKeyOf(p)
    ensures MemoryKeyOf(pending[i].(rules := pending[i].rules + p.rules)) == order[i]
  {
    SameMemoryKey(pending[i], p);
  }

  lemma AddPendingSeparatorFree(pending: seq<Proposal>, p: Proposal)
    requires SeparatorFree(pending) && SEPARATOR !in p.tenant
    ensures SeparatorFree(AddPending(pending, p))
  {
  }

  lemma CollapseStep(ps: seq<Proposal>, p: Proposal)
    ensures Collapse(ps + [p]) == AddPending(Collapse(ps), p)
  {
    assert (ps + [p])[..|ps|] == ps;
  }

  lemma {:induction false} CollapseSeparatorFree(ps: seq<Proposal>)
    requires SeparatorFree(ps)
    ensures SeparatorFree(Collapse(ps))
  {
    if ps != [] {
      CollapseSeparatorFree(ps[..|ps| - 1]);
    }
  }

  lemma CollapseLoopStep(order: seq<string>, upserts: map<string, Proposal>, ps: seq<Proposal>, i: nat)
    requires AllMatched(ps) && SeparatorFree(ps) && i < |ps|
    requires Represents(order, upserts, Collapse(ps[..i]))
    ensures var k := MemoryKeyOf(ps[i]);
            if k in upserts then Represents(order, upserts[k := upserts[k].(rules := upserts[k].rules + ps[i].rules)], Collapse(ps[..i + 1]))
            else Represents(order + [k], upserts[k := ps[i]], Collapse(ps[..i + 1]))
  {
    hide *;
    PrefixOf(ps, i);
    CollapseDistinct(ps[..i]);
    CollapseSeparatorFree(ps[..i]);
    MemoryStep(order, upserts, Collapse(ps[..i]), ps[i]);
    CollapseStep(ps[..i], ps[i]);
    assert ps[..i + 1] == ps[..i] + [ps[i]];
  }

  lemma PrefixOf(ps: seq<Proposal>, i: nat)
    requires AllMatched(ps) && SeparatorFree(ps) && i < |ps|
    ensures AllMatched(ps[..i]) && SeparatorFree(ps[..i]) && SEPARATOR !in ps[i].tenant
  {
  }

  lemma NothingCollapsed()
    ensures Represents([], map[], Collapse([]))
  {
  }

  /** `unnest($1, $2, $3, $4, $5)` over the parallel arrays. */
  function Unnest(
    tenants: seq<string>, entryIds: seq<int>, primary: seq<int>, matched: seq<seq<int>>, links: seq<Option<string>>
  ): (vs: seq<ValueRow>)
    requires |tenants| == |entryIds| == |primary| == |matched| == |links|
    ensures |vs| == |tenants|
  {
    seq(|tenants|, i requires 0 <= i < |tenants| => ValueRow(tenants[i], entryIds[i], primary[i], matched[i], links[i]))
  }

  ghost predicate IdsInOrder(rows: seq<Alert>, nextId: nat) {
    && (forall i | 0 <= i < |rows| :: rows[i].id < nextId)
    && (forall i, j | 0 <= i < j < |rows| :: rows[i].id < rows[j].id)
  }

  lemma IdsStayInOrder(rows: seq<Alert>, firstId: nat, vs: seq<ValueRow>, t: seq<Alert>)
    requires IdsInOrder(rows, firstId) && OldRowsExact(rows, vs, t) && NewRowsExact(rows, firstId, vs, t)
    ensures IdsInOrder(t, firstId + |vs|)
  {
    hide KeyOf, ValueKey;
    forall i | 0 <= i < |rows| ensures t[i].id == rows[i].id {
      if Proposed(vs, KeyOf(rows[i])) {
        var j :| 0 <= j < |vs| && ValueKey(vs[j]) == KeyOf(rows[i]);
        assert t[i] == Merged(rows[i], vs[j]);
      }
    }
    forall i | |rows| <= i < |t| ensures firstId <= t[i].id < firstId + |vs| {
      assert Inserted(rows, firstId, vs, t[i]);
    }
  }

  /** The rows reported as extended are those of the matched articles. */
  lemma ExtendedByArticle(
    entries: map<int, Entry>, matches: map<int, seq<int>>, canon: Canonicalizer, rows: seq<Alert>
  )
    requires Distinct(Keys(rows)) && AllMatched(MatchedProposals(entries, matches, canon))
    ensures ReportsExtended(entries, matches, canon, rows, AlreadyPresent(rows, ToValues(Collapse(MatchedProposals(entries, matches, canon)))))
  {
    hide KeyOf, ValueKey, ProposalKey, ArticleKey, Proposes, Proposed, MatchedUnder, MatchedProposals, Collapse, CollapseExact, AlreadyPresent, DistinctValues;
    var ps := MatchedProposals(entries, matches, canon);
    MatchedProposalsPropose(entries, matches, canon);
    CollapseIsExact(ps);
    CollapseDistinct(ps);
    DistinctToValues(Collapse(ps));
    var vs := ToValues(Collapse(ps));
    var at := PresentPositions(rows, vs);
    forall i: nat | i < |rows| ensures i in at <==> exists id :: MatchedUnder(entries, matches, canon, id, KeyOf(rows[i])) {
      ArticleRow(entries, matches, canon, ps, KeyOf(rows[i]));
    }
  }

  /** All a caller of the batch method learns. */
  lemma WholeBatch(entries: map<int, Entry>, matches: map<int, seq<int>>, canon: Canonicalizer, rows: seq<Alert>, id: nat)
    requires Distinct(Keys(rows)) && IdsInOrder(rows, id)
    ensures var ps := MatchedProposals(entries, matches, canon);
            && AllMatched(ps)
            && var vs := ToValues(Collapse(ps));
               var t, back := UpsertAll(rows, id, vs), ReturnedAll(rows, id, vs);
               && Distinct(Keys(t)) && IdsInOrder(t, id + |vs|) && ArticleBatch(entries, matches, canon, rows, t)
               && ReportsCreated(rows, t, Select(back, true)) && ReportsExtended(entries, matches, canon, rows, Select(back, false))
               && VisibleTable(t) == VisibleUpsertAll(VisibleTable(rows), ps)
  {
    hide MatchedProposals, Collapse, UpsertAll, ReturnedAll, ToValues, AlreadyPresent, Keys, DistinctValues, ReportsExtended, OldRowsExact, NewRowsExact;
    var ps := MatchedProposals(entries, matches, canon);
    BatchByArticle(entries, matches, canon, rows, id);
    BatchEffect(rows, id, ps);
    ExtendedByArticle(entries, matches, canon, rows);
    UpsertAllIsExact(rows, id, ToValues(Collapse(ps)));
    IdsStayInOrder(rows, id, ToValues(Collapse(ps)), UpsertAll(rows, id, ToValues(Collapse(ps))));
  }

  lemma NothingPending(ps: seq<Proposal>, order: seq<string>, upserts: map<string, Proposal>)
    requires Represents(order, upserts, Collapse(ps)) && order == []
    ensures ToValues(Collapse(ps)) == []
  {
  }

  lemma ProposalsSeparatorFree(entries: map<int, Entry>, matches: map<int, seq<int>>, canon: Canonicalizer)
    requires forall id | id in entries :: SEPARATOR !in entries[id].tenant
    ensures SeparatorFree(MatchedProposals(entries, matches, canon))
  {
  }

  class Repository {
    var entries: map<int, Entry>
    var alerts: seq<Alert>
    var nextId: nat

    /** Ids are drawn in order, and the unique index holds. */
    ghost predicate Valid()
      reads this
    {
      && (forall id | id in entries :: entries[id].id == id && SEPARATOR !in entries[id].tenant)
      && Distinct(Keys(alerts)) && IdsInOrder(alerts, nextId)
    }

    constructor ()
      ensures Valid() && alerts == []
    {
      entries, alerts, nextId := map[], [], 1;
    }

    /** The write: one atomic statement that PostgreSQL rejects when it would touch a row twice. */
    method InsertOnConflict(values: seq<ValueRow>) returns (r: Result<seq<Returned>, DbError>)
      modifies this
      ensures entries == old(entries)
      ensures r.Ok? <==> DistinctValues(values)
      ensures r.Ok? ==> r.value == ReturnedAll(old(alerts), old(nextId), values)
      ensures r.Ok? ==> alerts == UpsertAll(old(alerts), old(nextId), values) && nextId == old(nextId) + |values|
      ensures r.Err? ==> alerts == old(alerts)
    {
      var distinct := TouchesEachRowOnce(values);
      if !distinct {
        return Err(RowTouchedTwice);
      }
      var rows, returned := ApplyRows(alerts, nextId, values);
      alerts, nextId := rows, nextId + |values|;
      r := Ok(returned);
    }

    static method ApplyRows(before: seq<Alert>, firstId: nat, values: seq<ValueRow>)
      returns (rows: seq<Alert>, returned: seq<Returned>)
      ensures rows == UpsertAll(before, firstId, values)
      ensures returned == ReturnedAll(before, firstId, values)
    {
      EmptyStep(before, firstId);
      hide *;
      rows, returned := before, [];
      assert values[..0] == [];
      for i := 0 to |values|
        invariant rows == UpsertAll(before, firstId, values[..i])
        invariant returned == ReturnedAll(before, firstId, values[..i])
      {
        assert values[..i + 1] == values[..i] + [values[i]];
        PrefixStep(before, firstId, values[..i], values[i]);
        returned := returned + [ReturnedOne(rows, firstId + i, values[i])];
        rows := UpsertOne(rows, firstId + i, values[i]);
      }
      assert values[..|values|] == values;
    }

    static method TouchesEachRowOnce(values: seq<ValueRow>) returns (distinct: bool)
      ensures distinct <==> DistinctValues(values)
    {
      var touched: set<Key> := {};
      for i := 0 to |values|
        invariant forall j | 0 <= j < i :: ValueKey(values[j]) in touched
        invariant forall k | k in touched :: exists j :: 0 <= j < i && ValueKey(values[j]) == k
        invariant forall j, j' | 0 <= j < j' < i :: ValueKey(values[j]) != ValueKey(values[j'])
      {
        if ValueKey(values[i]) in touched {
          return false;
        }
        touched := touched + {ValueKey(values[i])};
      }
      distinct := true;
    }

    /** The loop that collapses entries into the pending map. */
    static method CollapseInMemory(ps: seq<Proposal>) returns (order: seq<string>, upserts: map<string, Proposal>)
      requires AllMatched(ps) && SeparatorFree(ps)
      ensures Represents(order, upserts, Collapse(ps))
    {
      hide *;
      NothingCollapsed();
      order, upserts := [], map[];
      assert ps[..0] == [];
      for i := 0 to |ps|
        invariant Represents(order, upserts, Collapse(ps[..i]))
      {
        var key := MemoryKeyOf(ps[i]);
        CollapseLoopStep(order, upserts, ps, i);
        if key in upserts {
          upserts := upserts[key := upserts[key].(rules := upserts[key].rules + ps[i].rules)];
        } else {
          order := order + [key];
          upserts := upserts[key := ps[i]];
        }
      }
      assert ps[..|ps|] == ps;
    }

    /** The loop that fills the five parallel arrays, and their `unnest`. */
    static method FillParameters(order: seq<string>, upserts: map<string, Proposal>, ghost pending: seq<Proposal>)
      returns (values: seq<ValueRow>)
      requires Represents(order, upserts, pending) && AllMatched(pending)
      ensures values == ToValues(pending)
    {
      var tenants: seq<string>, entryIds: seq<int>, primary: seq<int> := [], [], [];
      var matched: seq<seq<int>>, links: seq<Option<string>> := [], [];
      for i := 0 to |order|
        invariant |tenants| == |entryIds| == |primary| == |matched| == |links| == i
        invariant forall j | 0 <= j < i ::
            ValueRow(tenants[j], entryIds[j], primary[j], matched[j], links[j]) == ToValue(pending[j])
      {
        var upsert := upserts[order[i]];
        var sorted := SortedSeq(upsert.rules);
        SortedSeqNonEmpty(upsert.rules);
        tenants, entryIds, primary := tenants + [upsert.tenant], entryIds + [upsert.entryId], primary + [sorted[0]];
        matched, links := matched + [sorted], links + [upsert.canonicalLink];
      }
      values := Unnest(tenants, entryIds, primary, matched, links);
    }

    /**
      Upsert one alert per article for a whole ingestion batch: one read, one write, and the write
      is never rejected. `matchesByEntry` maps entry ids to the rules they match.
     */
    method CreateForEntryWithRules(matchesByEntry: map<int, seq<int>>, canon: Canonicalizer)
      returns (r: Result<Outcome, DbError>)
      requires Valid()
      modifies this
      ensures Valid() && entries == old(entries)
      ensures ArticleBatch(entries, matchesByEntry, canon, old(alerts), alerts)
      ensures r.Ok? && ReportsCreated(old(alerts), alerts, r.value.created)
      ensures ReportsExtended(entries, matchesByEntry, canon, old(alerts), r.value.ruleSetExtended)
      ensures AllMatched(MatchedProposals(entries, matchesByEntry, canon))
      ensures VisibleTable(alerts) == VisibleUpsertAll(VisibleTable(old(alerts)), MatchedProposals(entries, matchesByEntry, canon))
    {
      hide Collapse, UpsertAll, ReturnedAll, ReportsExtended, ReportsCreated, ArticleBatch, IdsInOrder, VisibleTable, VisibleUpsertAll, Represents;
      hide MatchedProposals, Select, ToValues, Keys, Distinct, AllMatched, DistinctValues, SeparatorFree;
      var proposals := MatchedProposals(entries, matchesByEntry, canon);
      WholeBatch(entries, matchesByEntry, canon, alerts, nextId);
      ProposalsSeparatorFree(entries, matchesByEntry, canon);
      CollapseDistinct(proposals);
      DistinctToValues(Collapse(proposals));
      EmptyStep(alerts, nextId);
      var order, upserts := CollapseInMemory(proposals);
      if |order| == 0 {
        NothingPending(proposals, order, upserts);
        return Ok(Outcome([], []));
      }
      var values := FillParameters(order, upserts, Collapse(proposals));
      var written := InsertOnConflict(values);
      r := Ok(Outcome(Select(written.value, true), Select(written.value, false)));
    }
  }
}
