/**
  One alert per article: the bulk upsert of `AlertsRepository.createForEntryWithRules`.

  The statement (`UpsertOne`, `UpsertAll`) and the in-memory collapse (`Collapse`) are functions
  on table contents; the repository class runs the same steps over mutable state.
 */
module AlertUpsert {
  import opened Common

  datatype Entry = Entry(id: int, tenant: string, link: Option<string>)

  datatype Alert = Alert(
    id: nat,
    tenant: string,
    entryId: int,
    ruleId: int,
    matchedRules: seq<int>,
    canonicalLink: Option<string>
  )

  /** The pair constrained by the unique index of migration 0018. */
  datatype Key = Key(tenant: string, dedupe: string)

  /** One matched entry, or several entries already collapsed onto one key. */
  datatype Proposal = Proposal(tenant: string, entryId: int, rules: set<int>, canonicalLink: Option<string>)

  /** One row of the unnested parameter arrays. */
  datatype ValueRow = ValueRow(tenant: string, entryId: int, ruleId: int, matchedRules: seq<int>, canonicalLink: Option<string>)

  /** `COALESCE(canonical_link, 'entry:' || entry_id::text)` */
  function DedupeText(link: Option<string>, entryId: int): string {
    link.GetOr("entry:" + Decimal(entryId))
  }

  function KeyOf(a: Alert): Key {
    Key(a.tenant, DedupeText(a.canonicalLink, a.entryId))
  }

  function ValueKey(v: ValueRow): Key {
    Key(v.tenant, DedupeText(v.canonicalLink, v.entryId))
  }

  function ProposalKey(p: Proposal): Key {
    Key(p.tenant, DedupeText(p.canonicalLink, p.entryId))
  }

  /** `COALESCE(matched_rules[1], rule_id)`: the rule every reader of an alert sees. */
  function EffectiveRule(a: Alert): int {
    if |a.matchedRules| > 0 then a.matchedRules[0] else a.ruleId
  }

  function Keys(rows: seq<Alert>): (ks: seq<Key>)
    ensures |ks| == |rows| && forall i | 0 <= i < |rows| :: ks[i] == KeyOf(rows[i])
  {
    seq(|rows|, i requires 0 <= i < |rows| => KeyOf(rows[i]))
  }

  function ProposalKeys(ps: seq<Proposal>): (ks: seq<Key>)
    ensures |ks| == |ps| && forall i | 0 <= i < |ps| :: ks[i] == ProposalKey(ps[i])
  {
    seq(|ps|, i requires 0 <= i < |ps| => ProposalKey(ps[i]))
  }

  ghost predicate AllMatched(ps: seq<Proposal>) {
    forall i | 0 <= i < |ps| :: ps[i].rules != {}
  }

  ghost predicate DistinctKeys(ps: seq<Proposal>) {
    Distinct(ProposalKeys(ps))
  }

  // ---------------------------------------------------------------- the statement

  /** `INSERT ... ON CONFLICT DO UPDATE SET matched_rules = ...` of one value row. */
  function UpsertOne(rows: seq<Alert>, id: nat, v: ValueRow): seq<Alert> {
    var i := IndexOf(Keys(rows), ValueKey(v));
    if i < |rows| then
      rows[i := rows[i].(matchedRules := SortedSeq(Elems(rows[i].matchedRules + v.matchedRules)))]
    else
      rows + [Alert(id, v.tenant, v.entryId, v.ruleId, v.matchedRules, v.canonicalLink)]
  }

  /** Upserting value rows one after another. Every proposed row draws one id from the sequence. */
  function UpsertAll(rows: seq<Alert>, nextId: nat, vs: seq<ValueRow>): seq<Alert> {
    if vs == [] then rows
    else
      var n := |vs| - 1;
      UpsertOne(UpsertAll(rows, nextId, vs[..n]), nextId + n, vs[n])
  }

  /** The value row written for a proposal: rules ascending, the least one as `rule_id`. */
  function ToValue(p: Proposal): (v: ValueRow)
    ensures ValueKey(v) == ProposalKey(p)
  {
    var sorted := SortedSeq(p.rules);
    ValueRow(p.tenant, p.entryId, if |sorted| > 0 then sorted[0] else 0, sorted, p.canonicalLink)
  }

  function ToValues(ps: seq<Proposal>): (vs: seq<ValueRow>)
    ensures |vs| == |ps| && forall i | 0 <= i < |ps| :: vs[i] == ToValue(ps[i])
  {
    seq(|ps|, i requires 0 <= i < |ps| => ToValue(ps[i]))
  }

  // ---------------------------------------------------------------- the collapse

  function AddPending(pending: seq<Proposal>, p: Proposal): seq<Proposal> {
    var i := IndexOf(ProposalKeys(pending), ProposalKey(p));
    if i < |pending| then pending[i := pending[i].(rules := pending[i].rules + p.rules)]
    else pending + [p]
  }

  /** Entries that share a key become one proposal: the first entry wins, rule sets are united. */
  function Collapse(ps: seq<Proposal>): seq<Proposal> {
    if ps == [] then [] else AddPending(Collapse(ps[..|ps| - 1]), ps[|ps| - 1])
  }

  /** The collapsed batch proposes each key at most once. */
  lemma {:induction false} CollapseDistinct(ps: seq<Proposal>)
    requires AllMatched(ps)
    ensures DistinctKeys(Collapse(ps)) && AllMatched(Collapse(ps))
  {
    if ps != [] {
      var n := |ps| - 1;
      CollapseDistinct(ps[..n]);
      AddPendingDistinct(Collapse(ps[..n]), ps[n]);
    }
  }

  lemma AddPendingDistinct(pending: seq<Proposal>, p: Proposal)
    requires DistinctKeys(pending) && AllMatched(pending) && p.rules != {}
    ensures DistinctKeys(AddPending(pending, p)) && AllMatched(AddPending(pending, p))
  {
    assert forall j | 0 <= j < |pending| :: ProposalKey(AddPending(pending, p)[j]) == ProposalKey(pending[j]);
  }

  // ---------------------------------------------------------------- refinement

  /** What readers of the table can observe of a row: all but the surrogate id and the raw `rule_id`. */
  datatype Visible = Visible(tenant: string, entryId: int, canonicalLink: Option<string>, matchedRules: seq<int>, effectiveRule: int)

  function VisibleRow(a: Alert): Visible {
    Visible(a.tenant, a.entryId, a.canonicalLink, a.matchedRules, EffectiveRule(a))
  }

  function VisibleTable(rows: seq<Alert>): (vs: seq<Visible>)
    ensures |vs| == |rows| && forall i | 0 <= i < |rows| :: vs[i] == VisibleRow(rows[i])
  {
    seq(|rows|, i requires 0 <= i < |rows| => VisibleRow(rows[i]))
  }

  function VisibleKey(v: Visible): Key {
    Key(v.tenant, DedupeText(v.canonicalLink, v.entryId))
  }

  function VisibleKeys(vs: seq<Visible>): (ks: seq<Key>)
    ensures |ks| == |vs| && forall i | 0 <= i < |vs| :: ks[i] == VisibleKey(vs[i])
  {
    seq(|vs|, i requires 0 <= i < |vs| => VisibleKey(vs[i]))
  }

  function Appeared(p: Proposal): (v: Visible)
    requires p.rules != {}
    ensures VisibleKey(v) == ProposalKey(p)
  {
    Visible(p.tenant, p.entryId, p.canonicalLink, SortedSeq(p.rules), MinOf(p.rules))
  }

  function Extended(v: Visible, rules: set<int>): (w: Visible)
    requires rules != {}
    ensures VisibleKey(w) == VisibleKey(v)
  {
    var union := Elems(v.matchedRules) + rules;
    v.(matchedRules := SortedSeq(union), effectiveRule := MinOf(union))
  }

  function VisibleUpsert(vs: seq<Visible>, p: Proposal): seq<Visible>
    requires p.rules != {}
  {
    var i := IndexOf(VisibleKeys(vs), ProposalKey(p));
    if i < |vs| then vs[i := Extended(vs[i], p.rules)] else vs + [Appeared(p)]
  }

  function VisibleUpsertAll(vs: seq<Visible>, ps: seq<Proposal>): seq<Visible>
    requires AllMatched(ps)
  {
    if ps == [] then vs
    else VisibleUpsert(VisibleUpsertAll(vs, ps[..|ps| - 1]), ps[|ps| - 1])
  }

  lemma UpsertOneVisible(rows: seq<Alert>, id: nat, p: Proposal)
    requires p.rules != {}
    ensures VisibleTable(UpsertOne(rows, id, ToValue(p))) == VisibleUpsert(VisibleTable(rows), p)
  {
    hide DedupeText;
    assert VisibleKeys(VisibleTable(rows)) == Keys(rows);
    var i := IndexOf(Keys(rows), ProposalKey(p));
    SortedSeqNonEmpty(p.rules);
    if i < |rows| {
      var union := Elems(rows[i].matchedRules) + p.rules;
      assert Elems(rows[i].matchedRules + SortedSeq(p.rules)) == union by {
        assert forall x :: x in p.rules <==> x in Elems(SortedSeq(p.rules));
      }
      SortedSeqNonEmpty(union);
    }
  }

  lemma {:induction false} UpsertAllVisible(rows: seq<Alert>, nextId: nat, ps: seq<Proposal>)
    requires AllMatched(ps)
    ensures VisibleTable(UpsertAll(rows, nextId, ToValues(ps))) == VisibleUpsertAll(VisibleTable(rows), ps)
  {
    hide UpsertOne, VisibleUpsert;
    if ps != [] {
      var n := |ps| - 1;
      assert ToValues(ps)[..n] == ToValues(ps[..n]);
      UpsertAllVisible(rows, nextId, ps[..n]);
      UpsertOneVisible(UpsertAll(rows, nextId, ToValues(ps[..n])), nextId + n, ps[n]);
    }
  }

  /** An upsert never re-keys a row: it leaves the key column alone or appends the missing key. */
  lemma KeysAfterUpsert(vs: seq<Visible>, p: Proposal)
    requires p.rules != {}
    ensures VisibleKeys(VisibleUpsert(vs, p)) ==
            if ProposalKey(p) in VisibleKeys(vs) then VisibleKeys(vs) else VisibleKeys(vs) + [ProposalKey(p)]
  {
  }

  /** An update of a row that exists commutes with an upsert under another key. */
  lemma UpsertsCommute(vs: seq<Visible>, p: Proposal, q: Proposal)
    requires p.rules != {} && q.rules != {} && ProposalKey(p) != ProposalKey(q)
    requires ProposalKey(p) in VisibleKeys(vs)
    ensures VisibleUpsert(VisibleUpsert(vs, q), p) == VisibleUpsert(VisibleUpsert(vs, p), q)
  {
    hide ProposalKey, Extended, Appeared, VisibleKey;
    var ks := VisibleKeys(vs);
    KeysAfterUpsert(vs, p);
    KeysAfterUpsert(vs, q);
    IndexOfExtended(ks, ks + [ProposalKey(q)], ProposalKey(p));
  }

  lemma ExtendedTwice(v: Visible, a: set<int>, b: set<int>)
    requires a != {} && b != {}
    ensures Extended(Extended(v, a), b) == Extended(v, a + b)
  {
    var rules := Elems(v.matchedRules);
    assert Elems(SortedSeq(rules + a)) == rules + a;
    assert rules + a + b == rules + (a + b);
  }

  lemma AppearedExtended(p: Proposal, rules: set<int>)
    requires p.rules != {} && rules != {}
    ensures Extended(Appeared(p), rules) == Appeared(p.(rules := p.rules + rules))
  {
    assert Elems(SortedSeq(p.rules)) == p.rules;
  }

  /** Two upserts under one key have the effect of one upsert with the united rules. */
  lemma UpsertsAbsorb(vs: seq<Visible>, p: Proposal, q: Proposal)
    requires p.rules != {} && q.rules != {} && ProposalKey(p) == ProposalKey(q)
    ensures VisibleUpsert(VisibleUpsert(vs, p), q) == VisibleUpsert(vs, p.(rules := p.rules + q.rules))
  {
    hide DedupeText, Extended, Appeared, VisibleKey;
    KeysAfterUpsert(vs, p);
    AppearedExtended(p, q.rules);
    var i := IndexOf(VisibleKeys(vs), ProposalKey(p));
    if i < |vs| {
      ExtendedTwice(vs[i], p.rules, q.rules);
    }
  }

  function GrowPending(ps: seq<Proposal>, i: nat, rules: set<int>): (grown: seq<Proposal>)
    requires i < |ps| && AllMatched(ps)
    ensures AllMatched(grown) && ProposalKeys(grown) == ProposalKeys(ps)
  {
    ps[i := ps[i].(rules := ps[i].rules + rules)]
  }

  /** Growing one pending proposal has the effect of upserting the newcomer after the whole batch. */
  lemma {:induction false} MergeIntoPending(vs: seq<Visible>, ps: seq<Proposal>, i: nat, q: Proposal)
    requires AllMatched(ps) && DistinctKeys(ps) && i < |ps|
    requires q.rules != {} && ProposalKey(ps[i]) == ProposalKey(q)
    ensures VisibleUpsertAll(vs, GrowPending(ps, i, q.rules)) == VisibleUpsert(VisibleUpsertAll(vs, ps), q)
  {
    var n := |ps| - 1;
    if i == n {
      MergeLast(vs, ps, q);
    } else {
      assert ProposalKeys(ps)[i] != ProposalKeys(ps)[n];
      DistinctPrefix(ps, n);
      MergeIntoPending(vs, ps[..n], i, q);
      MergeStep(vs, ps, i, q);
    }
  }

  lemma DistinctPrefix(ps: seq<Proposal>, n: nat)
    requires DistinctKeys(ps) && n <= |ps|
    ensures DistinctKeys(ps[..n])
  {
    assert ProposalKeys(ps[..n]) == ProposalKeys(ps)[..n];
  }

  lemma MergeLast(vs: seq<Visible>, ps: seq<Proposal>, q: Proposal)
    requires AllMatched(ps) && |ps| > 0 && q.rules != {}
    requires ProposalKey(ps[|ps| - 1]) == ProposalKey(q)
    ensures VisibleUpsertAll(vs, GrowPending(ps, |ps| - 1, q.rules)) == VisibleUpsert(VisibleUpsertAll(vs, ps), q)
  {
    var n := |ps| - 1;
    assert GrowPending(ps, n, q.rules)[..n] == ps[..n];
    UpsertsAbsorb(VisibleUpsertAll(vs, ps[..n]), ps[n], q);
  }

  lemma MergeStep(vs: seq<Visible>, ps: seq<Proposal>, i: nat, q: Proposal)
    requires AllMatched(ps) && q.rules != {} && i < |ps| - 1
    requires ProposalKey(ps[i]) == ProposalKey(q) != ProposalKey(ps[|ps| - 1])
    ensures VisibleUpsertAll(vs, GrowPending(ps[..|ps| - 1], i, q.rules)) == VisibleUpsert(VisibleUpsertAll(vs, ps[..|ps| - 1]), q) ==>
            VisibleUpsertAll(vs, GrowPending(ps, i, q.rules)) == VisibleUpsert(VisibleUpsertAll(vs, ps), q)
  {
    var n := |ps| - 1;
    assert GrowPending(ps, i, q.rules)[..n] == GrowPending(ps[..n], i, q.rules);
    KeyPresentAfter(vs, ps[..n], i);
    UpsertsCommute(VisibleUpsertAll(vs, ps[..n]), q, ps[n]);
  }

  lemma {:induction false} KeyPresentAfter(vs: seq<Visible>, ps: seq<Proposal>, i: nat)
    requires AllMatched(ps) && i < |ps|
    ensures ProposalKey(ps[i]) in VisibleKeys(VisibleUpsertAll(vs, ps))
  {
    var n := |ps| - 1;
    KeysAfterUpsert(VisibleUpsertAll(vs, ps[..n]), ps[n]);
    if i < n { KeyPresentAfter(vs, ps[..n], i); }
  }

  lemma {:induction false} CollapseVisible(vs: seq<Visible>, ps: seq<Proposal>)
    requires AllMatched(ps)
    ensures AllMatched(Collapse(ps))
    ensures VisibleUpsertAll(vs, Collapse(ps)) == VisibleUpsertAll(vs, ps)
  {
    CollapseDistinct(ps);
    if ps != [] {
      var n := |ps| - 1;
      CollapseVisible(vs, ps[..n]);
      CollapseDistinct(ps[..n]);
      var pending := Collapse(ps[..n]);
      var i := IndexOf(ProposalKeys(pending), ProposalKey(ps[n]));
      if i < |pending| {
        MergeIntoPending(vs, pending, i, ps[n]);
      } else {
        assert Collapse(ps)[..|pending|] == pending;
      }
    }
  }

  /**
    The batch form refines the simple form: collapsing the entries and writing once leaves, row
    for row, the table that upserting the entries one at a time leaves, whatever ids were drawn.
   */
  lemma BulkRefinesOneByOne(rows: seq<Alert>, bulkId: nat, singleId: nat, ps: seq<Proposal>)
    requires AllMatched(ps)
    ensures VisibleTable(UpsertAll(rows, bulkId, ToValues(Collapse(ps)))) == VisibleTable(UpsertAll(rows, singleId, ToValues(ps)))
  {
    CollapseVisible(VisibleTable(rows), ps);
    UpsertAllVisible(rows, bulkId, Collapse(ps));
    UpsertAllVisible(rows, singleId, ps);
  }
}
