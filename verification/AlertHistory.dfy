/**
  Whole runs of committed ingestion batches against the alerts table, from an empty table on.
 */
module AlertHistory {
  import opened Common
  import opened AlertUpsert
  import opened AlertsRepository

  datatype Table = Table(rows: seq<Alert>, nextId: nat)

  ghost predicate AllBatchesMatched(batches: seq<seq<Proposal>>) {
    forall i | 0 <= i < |batches| :: AllMatched(batches[i])
  }

  function Commit(t: Table, batch: seq<Proposal>): Table {
    var values := ToValues(Collapse(batch));
    Table(UpsertAll(t.rows, t.nextId, values), t.nextId + |values|)
  }

  function Run(batches: seq<seq<Proposal>>): Table {
    if batches == [] then Table([], 1) else Commit(Run(batches[..|batches| - 1]), batches[|batches| - 1])
  }

  /** Every proposal of the run, in order, as if there had been no batches. */
  function Flatten(batches: seq<seq<Proposal>>): seq<Proposal> {
    if batches == [] then [] else Flatten(batches[..|batches| - 1]) + batches[|batches| - 1]
  }

  /** All rules any entry under key `k` ever matched. */
  function RulesEverMatched(ps: seq<Proposal>, k: Key): set<int> {
    if ps == [] then {}
    else
      RulesEverMatched(ps[..|ps| - 1], k) + if ProposalKey(ps[|ps| - 1]) == k then ps[|ps| - 1].rules else {}
  }

  /** The keys of the rows each batch reported as `created`, batch after batch. */
  function KeysReportedCreated(batches: seq<seq<Proposal>>): seq<Key> {
    if batches == [] then []
    else
      var before, after := Run(batches[..|batches| - 1]).rows, Run(batches).rows;
      KeysReportedCreated(batches[..|batches| - 1]) + if |before| <= |after| then Keys(after[|before|..]) else []
  }

  lemma {:induction false} FlattenMatched(batches: seq<seq<Proposal>>)
    requires AllBatchesMatched(batches)
    ensures AllMatched(Flatten(batches))
  {
    if batches != [] {
      FlattenMatched(batches[..|batches| - 1]);
    }
  }

  lemma {:induction false} VisibleUpsertConcat(vs: seq<Visible>, ps: seq<Proposal>, qs: seq<Proposal>)
    requires AllMatched(ps) && AllMatched(qs)
    ensures AllMatched(ps + qs)
    ensures VisibleUpsertAll(vs, ps + qs) == VisibleUpsertAll(VisibleUpsertAll(vs, ps), qs)
  {
    hide VisibleUpsert;
    if qs == [] {
      assert ps + qs == ps;
    } else {
      var n := |qs| - 1;
      VisibleUpsertConcat(vs, ps, qs[..n]);
      assert (ps + qs)[..|ps + qs| - 1] == ps + qs[..n];
    }
  }

  /** Batching is invisible: a run leaves what upserting its proposals one by one would leave. */
  lemma {:induction false} RunVisible(batches: seq<seq<Proposal>>)
    requires AllBatchesMatched(batches)
    ensures AllMatched(Flatten(batches))
    ensures VisibleTable(Run(batches).rows) == VisibleUpsertAll([], Flatten(batches))
  {
    FlattenMatched(batches);
    if batches != [] {
      var n := |batches| - 1;
      RunVisible(batches[..n]);
      var t := Run(batches[..n]);
      BatchEffect(t.rows, t.nextId, batches[n]);
      VisibleUpsertConcat([], Flatten(batches[..n]), batches[n]);
    }
  }

  /** The table an unbatched run leaves: distinct keys, each with exactly the rules it ever matched. */
  ghost predicate Faithful(vs: seq<Visible>, ps: seq<Proposal>) {
    && Distinct(VisibleKeys(vs))
    && Elems(VisibleKeys(vs)) == Elems(ProposalKeys(ps))
    && forall i | 0 <= i < |vs| :: vs[i].matchedRules == SortedSeq(RulesEverMatched(ps, VisibleKey(vs[i])))
  }

  lemma {:induction false} UpsertsFaithful(ps: seq<Proposal>)
    requires AllMatched(ps)
    ensures Faithful(VisibleUpsertAll([], ps), ps)
  {
    if ps != [] {
      var n := |ps| - 1;
      UpsertsFaithful(ps[..n]);
      FaithfulStep(VisibleUpsertAll([], ps[..n]), ps[..n], ps[n]);
      assert ps == ps[..n] + [ps[n]];
    }
  }

  lemma RulesStep(ps: seq<Proposal>, p: Proposal, k: Key)
    ensures RulesEverMatched(ps + [p], k) == RulesEverMatched(ps, k) + if ProposalKey(p) == k then p.rules else {}
  {
    assert (ps + [p])[..|ps|] == ps;
  }

  lemma {:induction false} RulesOfUnseenKey(ps: seq<Proposal>, k: Key)
    requires k !in ProposalKeys(ps)
    ensures RulesEverMatched(ps, k) == {}
  {
    if ps != [] {
      var n := |ps| - 1;
      assert ProposalKeys(ps)[n] != k;
      assert ProposalKeys(ps[..n]) == ProposalKeys(ps)[..n];
      RulesOfUnseenKey(ps[..n], k);
    }
  }

  lemma FaithfulStep(vs: seq<Visible>, ps: seq<Proposal>, p: Proposal)
    requires Faithful(vs, ps) && p.rules != {}
    ensures Faithful(VisibleUpsert(vs, p), ps + [p])
  {
    KeysAfterUpsert(vs, p);
    assert ProposalKeys(ps + [p]) == ProposalKeys(ps) + [ProposalKey(p)];
    FaithfulKeys(VisibleKeys(vs), ProposalKeys(ps), ProposalKey(p));
    forall i | 0 <= i < |VisibleUpsert(vs, p)|
      ensures VisibleUpsert(vs, p)[i].matchedRules == SortedSeq(RulesEverMatched(ps + [p], VisibleKey(VisibleUpsert(vs, p)[i])))
    {
      assert i < |vs| ==> VisibleKey(vs[i]) == VisibleKeys(vs)[i];
      assert ProposalKey(p) in Elems(VisibleKeys(vs)) <==> ProposalKey(p) in Elems(ProposalKeys(ps));
      FaithfulRules(vs, ps, p, i);
    }
  }

  lemma FaithfulRules(vs: seq<Visible>, ps: seq<Proposal>, p: Proposal, i: nat)
    requires p.rules != {} && i < |VisibleUpsert(vs, p)|
    requires i < |vs| ==> vs[i].matchedRules == SortedSeq(RulesEverMatched(ps, VisibleKey(vs[i])))
    requires i < |vs| ==> (VisibleKey(vs[i]) == ProposalKey(p) <==> i == IndexOf(VisibleKeys(vs), ProposalKey(p)))
    requires ProposalKey(p) !in VisibleKeys(vs) ==> ProposalKey(p) !in ProposalKeys(ps)
    ensures var row := VisibleUpsert(vs, p)[i];
            row.matchedRules == SortedSeq(RulesEverMatched(ps + [p], VisibleKey(row)))
  {
    var k, key := ProposalKey(p), VisibleKey(VisibleUpsert(vs, p)[i]);
    MatchedAfterUpsert(vs, p, i);
    RulesStep(ps, p, key);
    if k !in VisibleKeys(vs) {
      RulesOfUnseenKey(ps, k);
    }
    hide VisibleUpsert, RulesEverMatched, VisibleKey, ProposalKey;
    var was := RulesEverMatched(ps, key);
    assert i < |vs| ==> Elems(vs[i].matchedRules) == was;
    assert was + {} == was && (was == {} ==> was + p.rules == p.rules);
  }

  lemma MatchedAfterUpsert(vs: seq<Visible>, p: Proposal, i: nat)
    requires p.rules != {} && i < |VisibleUpsert(vs, p)|
    ensures var at, row := IndexOf(VisibleKeys(vs), ProposalKey(p)), VisibleUpsert(vs, p)[i];
            if i < |vs| then
              && VisibleKey(row) == VisibleKey(vs[i])
              && row.matchedRules == if i == at then SortedSeq(Elems(vs[i].matchedRules) + p.rules) else vs[i].matchedRules
            else
              at == |vs| && VisibleKey(row) == ProposalKey(p) && row.matchedRules == SortedSeq(p.rules)
  {
  }

  lemma FaithfulKeys(was: seq<Key>, proposed: seq<Key>, k: Key)
    requires Distinct(was) && Elems(was) == Elems(proposed)
    ensures var now := if k in was then was else was + [k];
            Distinct(now) && Elems(now) == Elems(proposed + [k])
  {
    assert Elems(proposed + [k]) == Elems(proposed) + {k};
    assert Elems(was + [k]) == Elems(was) + {k};
  }

  /**
    Over any sequence of committed batches there is one alert per (tenant, dedupe key) that ever
    matched, and its `matched_rules` is strictly increasing and equals all rules ever matched.
   */
  lemma OneAlertPerArticle(batches: seq<seq<Proposal>>)
    requires AllBatchesMatched(batches)
    ensures Distinct(Keys(Run(batches).rows))
    ensures Elems(Keys(Run(batches).rows)) == Elems(ProposalKeys(Flatten(batches)))
    ensures forall i | 0 <= i < |Run(batches).rows| ::
              var a := Run(batches).rows[i];
              StrictlyIncreasing(a.matchedRules) && Elems(a.matchedRules) == RulesEverMatched(Flatten(batches), KeyOf(a))
  {
    RunVisible(batches);
    UpsertsFaithful(Flatten(batches));
    var rows := Run(batches).rows;
    var vs := VisibleTable(rows);
    assert VisibleKeys(vs) == Keys(rows);
    forall i | 0 <= i < |rows|
      ensures StrictlyIncreasing(rows[i].matchedRules) && Elems(rows[i].matchedRules) == RulesEverMatched(Flatten(batches), KeyOf(rows[i]))
    {
      assert vs[i].matchedRules == SortedSeq(RulesEverMatched(Flatten(batches), VisibleKey(vs[i])));
    }
  }

  /** Every key is reported in `created` exactly once over the whole run. */
  lemma CreatedExactlyOnce(batches: seq<seq<Proposal>>)
    requires AllBatchesMatched(batches)
    ensures Distinct(KeysReportedCreated(batches))
    ensures Elems(KeysReportedCreated(batches)) == Elems(ProposalKeys(Flatten(batches)))
  {
    OneAlertPerArticle(batches);
    ReportedKeysAreTableKeys(batches);
  }

  lemma {:induction false} ReportedKeysAreTableKeys(batches: seq<seq<Proposal>>)
    requires AllBatchesMatched(batches)
    ensures KeysReportedCreated(batches) == Keys(Run(batches).rows)
  {
    if batches != [] {
      var n := |batches| - 1;
      ReportedKeysAreTableKeys(batches[..n]);
      var t, after := Run(batches[..n]), Run(batches).rows;
      BatchEffect(t.rows, t.nextId, batches[n]);
      hide UpsertAll, Collapse, ToValues, Keys;
      KeysSplit(t.rows, after);
    }
  }

  lemma KeysSplit(before: seq<Alert>, after: seq<Alert>)
    requires |before| <= |after| && Keys(after)[..|before|] == Keys(before)
    ensures Keys(after) == Keys(before) + Keys(after[|before|..])
  {
    assert Keys(after) == Keys(after)[..|before|] + Keys(after)[|before|..];
    assert Keys(after)[|before|..] == Keys(after[|before|..]);
  }
}
