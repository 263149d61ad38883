/**
  The raw `rule_id` column, which the refinement of the batch form leaves out: when the batch form
  and the one-by-one form store the same one.
 */
module StoredRule {
  import opened Common
  import opened AlertUpsert
  import opened AlertsRepository
  import opened AlertHistory

  /** The rules of the first proposal of `k`. */
  function FirstRules(ps: seq<Proposal>, k: Key): set<int> {
    if ps == [] then {}
    else
      var most, p := ps[..|ps| - 1], ps[|ps| - 1];
      if k in ProposalKeys(most) then FirstRules(most, k) else if ProposalKey(p) == k then p.rules else {}
  }

  lemma ProposalKeysStep(ps: seq<Proposal>, p: Proposal)
    ensures ProposalKeys(ps + [p]) == ProposalKeys(ps) + [ProposalKey(p)]
  {
  }

  lemma FirstRulesStep(ps: seq<Proposal>, p: Proposal, k: Key)
    ensures FirstRules(ps + [p], k) ==
            if k in ProposalKeys(ps) then FirstRules(ps, k) else if ProposalKey(p) == k then p.rules else {}
  {
    assert (ps + [p])[..|ps|] == ps;
  }

  lemma AllMatchedPrefix(ps: seq<Proposal>, p: Proposal)
    requires AllMatched(ps + [p])
    ensures AllMatched(ps) && p.rules != {}
  {
    assert (ps + [p])[|ps|] == p;
    assert forall i | 0 <= i < |ps| :: (ps + [p])[i] == ps[i];
  }

  lemma {:induction false} FirstRulesNonEmpty(ps: seq<Proposal>, k: Key)
    requires AllMatched(ps) && k in ProposalKeys(ps)
    ensures FirstRules(ps, k) != {} && FirstRules(ps, k) <= RulesEverMatched(ps, k)
  {
    hide *;
    NoProposals(k);
    if ps != [] {
      var most, p := ps[..|ps| - 1], ps[|ps| - 1];
      assert ps == most + [p];
      AllMatchedPrefix(most, p);
      ProposalKeysStep(most, p);
      FirstRulesStep(most, p, k);
      RulesStep(most, p, k);
      if k in ProposalKeys(most) {
        FirstRulesNonEmpty(most, k);
      }
    }
  }

  lemma NoProposals(k: Key)
    ensures k !in ProposalKeys([]) && FirstRules([], k) == {} && RulesEverMatched([], k) == {}
  {
  }

  // ---------------------------------------------------------------- the one-by-one form

  /** Rows behind the first `n` carry a proposed key and the least rule of its first proposal. */
  ghost predicate FirstRulesStored(t: seq<Alert>, n: nat, ps: seq<Proposal>) {
    forall i | n <= i < |t| ::
      KeyOf(t[i]) in ProposalKeys(ps) && FirstRules(ps, KeyOf(t[i])) != {} && t[i].ruleId == MinOf(FirstRules(ps, KeyOf(t[i])))
  }

  lemma StoredStep(t: seq<Alert>, n: nat, ps: seq<Proposal>, id: nat, p: Proposal)
    requires FirstRulesStored(t, n, ps) && n <= |t| && p.rules != {}
    requires forall k | k in ProposalKeys(ps) :: k in Keys(t)
    ensures FirstRulesStored(UpsertOne(t, id, ToValue(p)), n, ps + [p])
    ensures forall k | k in ProposalKeys(ps + [p]) :: k in Keys(UpsertOne(t, id, ToValue(p)))
  {
    var u, v := UpsertOne(t, id, ToValue(p)), ToValue(p);
    KeysAfterUpsertOne(t, id, v);
    ProposalKeysStep(ps, p);
    forall i | n <= i < |u|
      ensures KeyOf(u[i]) in ProposalKeys(ps + [p]) && FirstRules(ps + [p], KeyOf(u[i])) != {}
              && u[i].ruleId == MinOf(FirstRules(ps + [p], KeyOf(u[i])))
    {
      FirstRulesStep(ps, p, KeyOf(u[i]));
      StoredRow(t, id, p, i);
      hide *;
    }
  }

  /** Row `i` after one upsert: as before but for its rules, or new with the least rule proposed. */
  lemma StoredRow(t: seq<Alert>, id: nat, p: Proposal, i: nat)
    requires p.rules != {} && i < |UpsertOne(t, id, ToValue(p))|
    ensures var u := UpsertOne(t, id, ToValue(p));
            if i < |t| then KeyOf(u[i]) == KeyOf(t[i]) && u[i].ruleId == t[i].ruleId
            else ProposalKey(p) !in Keys(t) && KeyOf(u[i]) == ProposalKey(p) && u[i].ruleId == MinOf(p.rules)
  {
    SortedSeqNonEmpty(p.rules);
  }

  lemma {:induction false} OneByOneStores(rows: seq<Alert>, nextId: nat, ps: seq<Proposal>)
    requires AllMatched(ps)
    ensures var t := UpsertAll(rows, nextId, ToValues(ps));
            |t| >= |rows| && FirstRulesStored(t, |rows|, ps) && forall k | k in ProposalKeys(ps) :: k in Keys(t)
  {
    hide *;
    if ps == [] {
      NothingStored(rows, nextId);
    } else {
      var most, p := ps[..|ps| - 1], ps[|ps| - 1];
      assert ps == most + [p];
      AllMatchedPrefix(most, p);
      OneByOneStores(rows, nextId, most);
      UpsertAppend(rows, nextId, most, p);
      var t := UpsertAll(rows, nextId, ToValues(most));
      StoredStep(t, |rows|, most, nextId + |most|, p);
      CreatedAreAppended(rows, nextId, ToValues(ps));
    }
  }

  lemma NothingStored(rows: seq<Alert>, nextId: nat)
    ensures UpsertAll(rows, nextId, ToValues([])) == rows && FirstRulesStored(rows, |rows|, [])
  {
  }

  lemma UpsertAppend(rows: seq<Alert>, nextId: nat, ps: seq<Proposal>, p: Proposal)
    ensures UpsertAll(rows, nextId, ToValues(ps + [p])) == UpsertOne(UpsertAll(rows, nextId, ToValues(ps)), nextId + |ps|, ToValue(p))
  {
    hide UpsertOne, UpsertAll, ToValue, ReturnedOne, ReturnedAll;
    assert ToValues(ps + [p]) == ToValues(ps) + [ToValue(p)];
    PrefixStep(rows, nextId, ToValues(ps), ToValue(p));
  }

  // ---------------------------------------------------------------- the collapsed form

  lemma {:induction false} FirstRulesOfDistinct(q: seq<Proposal>, i: nat)
    requires DistinctKeys(q) && i < |q|
    ensures FirstRules(q, ProposalKey(q[i])) == q[i].rules
  {
    var n := |q| - 1;
    var k := ProposalKey(q[i]);
    assert ProposalKeys(q[..n]) == ProposalKeys(q)[..n];
    if i < n {
      DistinctPrefix(q, n);
      FirstRulesOfDistinct(q[..n], i);
      assert ProposalKeys(q[..n])[i] == k;
    }
  }

  lemma {:induction false} FirstRulesOfOther(q: seq<Proposal>, k: Key)
    requires k !in ProposalKeys(q)
    ensures FirstRules(q, k) == {}
  {
    if q != [] {
      var n := |q| - 1;
      assert ProposalKeys(q[..n]) == ProposalKeys(q)[..n] && ProposalKeys(q)[n] != k;
      FirstRulesOfOther(q[..n], k);
    }
  }

  /** In a batch without repeated keys, adding a proposal adds its rules under its key. */
  lemma PendingRules(pending: seq<Proposal>, p: Proposal, k: Key)
    requires DistinctKeys(pending) && DistinctKeys(AddPending(pending, p))
    ensures FirstRules(AddPending(pending, p), k) == FirstRules(pending, k) + if ProposalKey(p) == k then p.rules else {}
  {
    hide DedupeText, FirstRules;
    var next := AddPending(pending, p);
    var at := IndexOf(ProposalKeys(pending), k);
    assert ProposalKeys(next) == if ProposalKey(p) in ProposalKeys(pending) then ProposalKeys(pending) else ProposalKeys(pending) + [ProposalKey(p)];
    if at < |pending| {
      FirstRulesOfDistinct(pending, at);
      FirstRulesOfDistinct(next, at);
      assert ProposalKeys(next)[at] == k;
    } else {
      FirstRulesOfOther(pending, k);
      if ProposalKey(p) == k {
        FirstRulesOfDistinct(next, |pending|);
      } else {
        FirstRulesOfOther(next, k);
      }
    }
  }

  lemma {:induction false} CollapsedRules(ps: seq<Proposal>, k: Key)
    requires AllMatched(ps)
    ensures FirstRules(Collapse(ps), k) == RulesEverMatched(ps, k)
  {
    hide *;
    NoProposals(k);
    if ps == [] {
      NothingCollapses();
    } else {
      var most, p := ps[..|ps| - 1], ps[|ps| - 1];
      assert ps == most + [p];
      AllMatchedPrefix(most, p);
      CollapsedRules(most, k);
      CollapseStep(most, p);
      CollapseDistinct(most);
      CollapseDistinct(ps);
      PendingRules(Collapse(most), p, k);
      RulesStep(most, p, k);
    }
  }

  lemma NothingCollapses()
    ensures Collapse([]) == []
  {
  }

  // ---------------------------------------------------------------- the two forms compared

  lemma SameKeys(a: seq<Alert>, b: seq<Alert>)
    requires VisibleTable(a) == VisibleTable(b)
    ensures |a| == |b| && Keys(a) == Keys(b)
  {
    assert VisibleKeys(VisibleTable(a)) == Keys(a) && VisibleKeys(VisibleTable(b)) == Keys(b);
  }

  lemma OldRowsKeepTheirRule(rows: seq<Alert>, nextId: nat, vs: seq<ValueRow>, i: nat)
    requires i < |rows|
    ensures |UpsertAll(rows, nextId, vs)| >= |rows| && UpsertAll(rows, nextId, vs)[i].ruleId == rows[i].ruleId
  {
    hide UpsertAll, ReturnedAll;
    CreatedAreAppended(rows, nextId, vs);
    assert Summaries(UpsertAll(rows, nextId, vs))[i] == Summaries(rows)[i];
  }

  /** The first proposal of `k` already carries the least rule of all its proposals. */
  predicate FirstCarriesLeast(ps: seq<Proposal>, k: Key)
    requires AllMatched(ps) && k in ProposalKeys(ps)
  {
    FirstRulesNonEmpty(ps, k);
    MinOf(FirstRules(ps, k)) == MinOf(RulesEverMatched(ps, k))
  }

  /**
    For every table and batch the two forms store the same `rule_id` in every row that was there
    before, and in a new row exactly when the first proposal of its key carries the least rule
    any proposal of that key has.
   */
  lemma StoredRulesAgreeIff(rows: seq<Alert>, bulkId: nat, singleId: nat, ps: seq<Proposal>, i: nat)
    requires AllMatched(ps) && i < |UpsertAll(rows, bulkId, ToValues(Collapse(ps)))|
    ensures var bulk, single := UpsertAll(rows, bulkId, ToValues(Collapse(ps))), UpsertAll(rows, singleId, ToValues(ps));
            && |bulk| == |single| && KeyOf(bulk[i]) == KeyOf(single[i])
            && (i < |rows| ==> bulk[i].ruleId == single[i].ruleId)
            && (i >= |rows| ==> KeyOf(bulk[i]) in ProposalKeys(ps) &&
                                (bulk[i].ruleId == single[i].ruleId <==> FirstCarriesLeast(ps, KeyOf(bulk[i]))))
  {
    hide UpsertAll, Collapse, ToValues, FirstRules, RulesEverMatched, KeyOf, VisibleTable, AllMatched;
    var bulk, single := UpsertAll(rows, bulkId, ToValues(Collapse(ps))), UpsertAll(rows, singleId, ToValues(ps));
    BulkRefinesOneByOne(rows, bulkId, singleId, ps);
    SameKeys(bulk, single);
    assert Keys(bulk)[i] == Keys(single)[i];
    if i < |rows| {
      OldRowsKeepTheirRule(rows, bulkId, ToValues(Collapse(ps)), i);
      OldRowsKeepTheirRule(rows, singleId, ToValues(ps), i);
    } else {
      CollapseDistinct(ps);
      OneByOneStores(rows, singleId, ps);
      OneByOneStores(rows, bulkId, Collapse(ps));
      CollapsedRules(ps, KeyOf(bulk[i]));
      FirstRulesNonEmpty(ps, KeyOf(bulk[i]));
    }
  }

  /** The stored `rule_id` is not part of the refinement: the two forms can disagree on it. */
  lemma StoredRuleMayDiffer(p: Proposal, q: Proposal)
    requires p == Proposal("t", 1, {7}, Some("l")) && q == Proposal("t", 2, {3}, Some("l"))
    ensures UpsertAll([], 1, ToValues(Collapse([p, q])))[0].ruleId == 3
    ensures UpsertAll([], 1, ToValues([p, q]))[0].ruleId == 7
  {
    CollapsePair(p, q);
    UpsertSingle(p.(rules := {7, 3}));
    UpsertSingle(p);
    assert MinOf({7, 3}) == 3 by { assert 3 in {7, 3}; }
    assert ToValues([p, q])[..1] == ToValues([p]);
  }

  lemma CollapsePair(p: Proposal, q: Proposal)
    requires ProposalKey(p) == ProposalKey(q)
    ensures Collapse([p, q]) == [p.(rules := p.rules + q.rules)]
  {
    assert [p, q][..1] == [p] && [p][..0] == [];
    assert Collapse([p]) == [p];
  }

  lemma UpsertSingle(p: Proposal)
    requires p.rules != {}
    ensures UpsertAll([], 1, ToValues([p])) == [Alert(1, p.tenant, p.entryId, MinOf(p.rules), SortedSeq(p.rules), p.canonicalLink)]
  {
    SortedSeqNonEmpty(p.rules);
    assert ToValues([p])[..0] == [];
  }
}
