/**
  One ingestion batch in terms of the entries themselves: which alerts it leaves, with which rules,
  whatever the collapse and the bulk statement do in between.
 */
module AlertBatch {
  import opened Common
  import opened AlertUpsert

  type Canonicalizer = Option<string> -> Option<string>

  // ---------------------------------------------------------------- what a batch asks for

  predicate Matched(entries: map<int, Entry>, matches: map<int, seq<int>>, id: int) {
    id in entries && id in matches && matches[id] != []
  }

  /** The article of an entry: its canonical link within its tenant, or the entry itself when it has none. */
  function ArticleKey(entries: map<int, Entry>, canon: Canonicalizer, id: int): Key
    requires id in entries
  {
    Key(entries[id].tenant, match canon(entries[id].link) case Some(link) => link case None => "entry:" + Decimal(id))
  }

  predicate MatchedUnder(entries: map<int, Entry>, matches: map<int, seq<int>>, canon: Canonicalizer, id: int, k: Key) {
    Matched(entries, matches, id) && ArticleKey(entries, canon, id) == k
  }

  /** All rules that matched entries of one article match. */
  function ArticleRules(entries: map<int, Entry>, matches: map<int, seq<int>>, canon: Canonicalizer, k: Key): set<int> {
    set id, rule | id in matches && MatchedUnder(entries, matches, canon, id, k) && rule in matches[id] :: rule
  }

  ghost predicate HasRules(a: Alert, rules: set<int>) {
    StrictlyIncreasing(a.matchedRules) && Elems(a.matchedRules) == rules
  }

  /** An alert that was there before: untouched, or extended by the rules of its article. */
  ghost predicate OldAlert(entries: map<int, Entry>, matches: map<int, seq<int>>, canon: Canonicalizer, was: Alert, now: Alert) {
    if exists id :: MatchedUnder(entries, matches, canon, id, KeyOf(was))
    then now == was.(matchedRules := now.matchedRules) &&
         HasRules(now, Elems(was.matchedRules) + ArticleRules(entries, matches, canon, KeyOf(was)))
    else now == was
  }

  /** A new alert stands for the first matched entry of its article and carries the rules of all of them. */
  ghost predicate NewAlert(entries: map<int, Entry>, matches: map<int, seq<int>>, canon: Canonicalizer, a: Alert) {
    && Matched(entries, matches, a.entryId)
    && a.tenant == entries[a.entryId].tenant && a.canonicalLink == canon(entries[a.entryId].link)
    && (forall id | MatchedUnder(entries, matches, canon, id, ArticleKey(entries, canon, a.entryId)) :: a.entryId <= id)
    && HasRules(a, ArticleRules(entries, matches, canon, ArticleKey(entries, canon, a.entryId)))
    && a.matchedRules != [] && a.ruleId == a.matchedRules[0]
  }

  /** Everything one batch does to the table of alerts. */
  ghost predicate ArticleBatch(
    entries: map<int, Entry>, matches: map<int, seq<int>>, canon: Canonicalizer, before: seq<Alert>, after: seq<Alert>
  ) {
    && |before| <= |after| && Distinct(Keys(after))
    && (forall id | Matched(entries, matches, id) :: ArticleKey(entries, canon, id) in Keys(after))
    && (forall i | 0 <= i < |before| :: OldAlert(entries, matches, canon, before[i], after[i]))
    && (forall i | |before| <= i < |after| :: NewAlert(entries, matches, canon, after[i]))
  }

  /** Two alerts or entries share a dedupe text by their link, by being the same linkless entry, or by a link that spells one. */
  lemma DedupeTextsEqualIff(link: Option<string>, id: int, link': Option<string>, id': int)
    ensures DedupeText(link, id) == DedupeText(link', id') <==>
            match (link, link')
            case (Some(a), Some(b)) => a == b
            case (None, None) => id == id'
            case (Some(a), None) => a == "entry:" + Decimal(id')
            case (None, Some(b)) => b == "entry:" + Decimal(id)
  {
    if link.None? && link'.None? && DedupeText(link, id) == DedupeText(link', id') {
      assert DedupeText(link, id)[6..] == Decimal(id) && DedupeText(link', id')[6..] == Decimal(id');
      DecimalInjective(id, id');
    }
  }

  /** The entries with at least one matching rule, in id order, as proposals. */
  function MatchedProposals(entries: map<int, Entry>, matches: map<int, seq<int>>, canon: Canonicalizer): (ps: seq<Proposal>)
    ensures forall i | 0 <= i < |ps| :: ps[i].rules != {}
    ensures forall i | 0 <= i < |ps| :: exists id :: id in entries && ps[i].tenant == entries[id].tenant
  {
    var ids := SortedSeq(set id | id in matches && |matches[id]| > 0 && id in entries);
    assert forall i | 0 <= i < |ids| :: ids[i] in Elems(ids);
    assert forall i | 0 <= i < |ids| :: matches[ids[i]][0] in Elems(matches[ids[i]]);
    seq(|ids|, i requires 0 <= i < |ids| =>
      Proposal(entries[ids[i]].tenant, ids[i], Elems(matches[ids[i]]), canon(entries[ids[i]].link)))
  }

  /** One proposal per matched entry, ascending, each with the entry's own tenant, link and rules. */
  ghost predicate Proposes(entries: map<int, Entry>, matches: map<int, seq<int>>, canon: Canonicalizer, ps: seq<Proposal>) {
    && (forall i | 0 <= i < |ps| :: Matched(entries, matches, ps[i].entryId) &&
          ps[i] == Proposal(entries[ps[i].entryId].tenant, ps[i].entryId, Elems(matches[ps[i].entryId]), canon(entries[ps[i].entryId].link)))
    && (forall i, j | 0 <= i < j < |ps| :: ps[i].entryId < ps[j].entryId)
    && (forall id | Matched(entries, matches, id) :: exists i :: 0 <= i < |ps| && ps[i].entryId == id)
  }

  lemma MatchedProposalsPropose(entries: map<int, Entry>, matches: map<int, seq<int>>, canon: Canonicalizer)
    ensures Proposes(entries, matches, canon, MatchedProposals(entries, matches, canon))
  {
    var matched := set id | id in matches && |matches[id]| > 0 && id in entries;
    var ids := SortedSeq(matched);
    assert forall i | 0 <= i < |ids| :: ids[i] in Elems(ids);
    forall id | Matched(entries, matches, id)
      ensures exists i :: 0 <= i < |ids| && MatchedProposals(entries, matches, canon)[i].entryId == id
    {
      assert id in Elems(ids);
      var i :| 0 <= i < |ids| && ids[i] == id;
      assert MatchedProposals(entries, matches, canon)[i].entryId == id;
    }
  }

  // ---------------------------------------------------------------- the collapsed batch

  /** Proposal `i` is the first of its key, and `q` is it with the rules of all proposals of that key. */
  ghost predicate CollapsedFrom(ps: seq<Proposal>, i: nat, q: Proposal) {
    && i < |ps| && q == ps[i].(rules := q.rules)
    && (forall j | 0 <= j < i :: ProposalKey(ps[j]) != ProposalKey(q))
    && (forall rule :: rule in q.rules <==> exists j :: 0 <= j < |ps| && ProposalKey(ps[j]) == ProposalKey(q) && rule in ps[j].rules)
  }

  ghost predicate Collapsed(ps: seq<Proposal>, q: Proposal) { exists i: nat :: CollapsedFrom(ps, i, q) }

  ghost predicate CollapseExact(ps: seq<Proposal>, pending: seq<Proposal>) {
    && (forall j | 0 <= j < |pending| :: Collapsed(ps, pending[j]))
    && (forall i | 0 <= i < |ps| :: ProposalKey(ps[i]) in ProposalKeys(pending))
  }

  lemma OneMore(ps: seq<Proposal>, p: Proposal, i: nat, q: Proposal)
    requires CollapsedFrom(ps, i, q)
    ensures CollapsedFrom(ps + [p], i, q.(rules := if ProposalKey(p) == ProposalKey(q) then q.rules + p.rules else q.rules))
  {
    hide DedupeText;
    var more := ps + [p];
    var r := q.(rules := if ProposalKey(p) == ProposalKey(q) then q.rules + p.rules else q.rules);
    assert ProposalKey(r) == ProposalKey(q);
    assert more[|ps|] == p;
    forall rule ensures rule in r.rules <==> exists j :: 0 <= j < |more| && ProposalKey(more[j]) == ProposalKey(r) && rule in more[j].rules {
      if rule in q.rules {
        var j :| 0 <= j < |ps| && ProposalKey(ps[j]) == ProposalKey(q) && rule in ps[j].rules;
        assert more[j] == ps[j];
      }
      if j :| 0 <= j < |more| && ProposalKey(more[j]) == ProposalKey(r) && rule in more[j].rules {
        assert j < |ps| ==> more[j] == ps[j];
      }
    }
  }

  lemma FirstOfItsKey(ps: seq<Proposal>, p: Proposal)
    requires forall j | 0 <= j < |ps| :: ProposalKey(ps[j]) != ProposalKey(p)
    ensures CollapsedFrom(ps + [p], |ps|, p)
  {
    hide DedupeText;
    assert (ps + [p])[|ps|] == p;
  }

  lemma CollapseExactStep(ps: seq<Proposal>, pending: seq<Proposal>, p: Proposal)
    requires CollapseExact(ps, pending) && DistinctKeys(pending)
    ensures CollapseExact(ps + [p], AddPending(pending, p))
  {
    hide DedupeText, CollapsedFrom, ProposalKey;
    var next, at := AddPending(pending, p), IndexOf(ProposalKeys(pending), ProposalKey(p));
    GrownKeys(pending, p);
    forall j | 0 <= j < |next| ensures Collapsed(ps + [p], next[j]) {
      if j < |pending| {
        var i: nat :| CollapsedFrom(ps, i, pending[j]);
        OneMore(ps, p, i, pending[j]);
        assert ProposalKeys(pending)[j] == ProposalKey(p) <==> j == at;
        assert next[j] == pending[j].(rules := if j == at then pending[j].rules + p.rules else pending[j].rules);
      } else {
        forall k | 0 <= k < |ps| ensures ProposalKey(ps[k]) != ProposalKey(p) {
          assert ProposalKey(ps[k]) in ProposalKeys(pending);
        }
        FirstOfItsKey(ps, p);
        assert next[j] == p;
      }
    }
    var more := ps + [p];
    forall i | 0 <= i < |more| ensures ProposalKey(more[i]) in ProposalKeys(next) {
      assert more[i] == if i < |ps| then ps[i] else p;
    }
  }

  lemma GrownKeys(pending: seq<Proposal>, p: Proposal)
    ensures ProposalKeys(AddPending(pending, p)) ==
            if ProposalKey(p) in ProposalKeys(pending) then ProposalKeys(pending) else ProposalKeys(pending) + [ProposalKey(p)]
  {
  }

  /** Each collapsed proposal is the first proposal of its key, with the rules of all of them. */
  lemma {:induction false} CollapseIsExact(ps: seq<Proposal>)
    requires AllMatched(ps)
    ensures CollapseExact(ps, Collapse(ps))
  {
    if ps != [] {
      var n := |ps| - 1;
      CollapseIsExact(ps[..n]);
      CollapseDistinct(ps[..n]);
      CollapseExactStep(ps[..n], Collapse(ps[..n]), ps[n]);
      assert ps == ps[..n] + [ps[n]];
    }
  }

  // ---------------------------------------------------------------- the statement, row by row

  ghost predicate DistinctValues(vs: seq<ValueRow>) {
    forall i, j | 0 <= i < j < |vs| :: ValueKey(vs[i]) != ValueKey(vs[j])
  }

  ghost predicate Proposed(vs: seq<ValueRow>, k: Key) {
    exists j :: 0 <= j < |vs| && ValueKey(vs[j]) == k
  }

  /** The rows that were there before: extended by the value row of their key, if there is one. */
  ghost predicate OldRowsExact(rows: seq<Alert>, vs: seq<ValueRow>, t: seq<Alert>) {
    && |rows| <= |t|
    && (forall i | 0 <= i < |rows| :: KeyOf(t[i]) == KeyOf(rows[i]))
    && (forall i | 0 <= i < |rows| && !Proposed(vs, KeyOf(rows[i])) :: t[i] == rows[i])
    && (forall i, j | 0 <= i < |rows| && 0 <= j < |vs| && ValueKey(vs[j]) == KeyOf(rows[i]) :: t[i] == Merged(rows[i], vs[j]))
  }

  function Merged(a: Alert, v: ValueRow): Alert { a.(matchedRules := SortedSeq(Elems(a.matchedRules + v.matchedRules))) }

  ghost predicate InsertedFrom(rows: seq<Alert>, firstId: nat, vs: seq<ValueRow>, j: nat, a: Alert) {
    && j < |vs| && ValueKey(vs[j]) !in Keys(rows)
    && a == Alert(firstId + j, vs[j].tenant, vs[j].entryId, vs[j].ruleId, vs[j].matchedRules, vs[j].canonicalLink)
  }

  ghost predicate Inserted(rows: seq<Alert>, firstId: nat, vs: seq<ValueRow>, a: Alert) {
    exists j: nat :: InsertedFrom(rows, firstId, vs, j, a)
  }

  ghost predicate NewRowsExact(rows: seq<Alert>, firstId: nat, vs: seq<ValueRow>, t: seq<Alert>) {
    && |rows| <= |t|
    && (forall i | |rows| <= i < |t| :: Inserted(rows, firstId, vs, t[i]))
    && (forall i, j | |rows| <= i < j < |t| :: t[i].id < t[j].id)
  }

  ghost predicate KeysExact(vs: seq<ValueRow>, t: seq<Alert>) {
    Distinct(Keys(t)) && forall j | 0 <= j < |vs| :: ValueKey(vs[j]) in Keys(t)
  }

  /** The rows after the statement, against the rows before. */
  ghost predicate RowsExact(rows: seq<Alert>, firstId: nat, vs: seq<ValueRow>, t: seq<Alert>) {
    OldRowsExact(rows, vs, t) && NewRowsExact(rows, firstId, vs, t) && KeysExact(vs, t)
  }

  lemma ProposedStep(vs: seq<ValueRow>, v: ValueRow, k: Key)
    ensures Proposed(vs + [v], k) <==> Proposed(vs, k) || k == ValueKey(v)
  {
    var more := vs + [v];
    if Proposed(vs, k) {
      var j :| 0 <= j < |vs| && ValueKey(vs[j]) == k;
      assert ValueKey(more[j]) == k;
    }
    assert ValueKey(more[|vs|]) == ValueKey(v);
  }

  /** What one upsert does, by position. */
  lemma UpsertedRow(t: seq<Alert>, id: nat, v: ValueRow)
    ensures var u, at := UpsertOne(t, id, v), IndexOf(Keys(t), ValueKey(v));
            if at < |t| then u == t[at := Merged(t[at], v)]
            else u == t + [Alert(id, v.tenant, v.entryId, v.ruleId, v.matchedRules, v.canonicalLink)]
    ensures Keys(UpsertOne(t, id, v)) == if ValueKey(v) in Keys(t) then Keys(t) else Keys(t) + [ValueKey(v)]
  {
  }

  /** A key that stands only now for the first time is not that of a row appended before. */
  lemma NotAppendedYet(rows: seq<Alert>, firstId: nat, vs: seq<ValueRow>, t: seq<Alert>, v: ValueRow)
    requires NewRowsExact(rows, firstId, vs, t) && !Proposed(vs, ValueKey(v))
    ensures IndexOf(Keys(t), ValueKey(v)) < |rows| || IndexOf(Keys(t), ValueKey(v)) == |t|
  {
    hide DedupeText;
  }

  lemma OldRowsStep(rows: seq<Alert>, firstId: nat, vs: seq<ValueRow>, t: seq<Alert>, v: ValueRow)
    requires OldRowsExact(rows, vs, t) && NewRowsExact(rows, firstId, vs, t) && !Proposed(vs, ValueKey(v)) && Distinct(Keys(rows))
    ensures OldRowsExact(rows, vs + [v], UpsertOne(t, firstId + |vs|, v))
  {
    var u, more, at := UpsertOne(t, firstId + |vs|, v), vs + [v], IndexOf(Keys(t), ValueKey(v));
    UpsertedRow(t, firstId + |vs|, v);
    NotAppendedYet(rows, firstId, vs, t, v);
    hide UpsertOne, KeyOf, ValueKey, Merged, Proposed;
    assert forall i | 0 <= i < |rows| :: Keys(u)[i] == Keys(t)[i] == Keys(rows)[i];
    forall i | 0 <= i < |rows| && !Proposed(more, KeyOf(rows[i])) ensures u[i] == rows[i] {
      ProposedStep(vs, v, KeyOf(rows[i]));
    }
    forall i, j | 0 <= i < |rows| && 0 <= j < |more| && ValueKey(more[j]) == KeyOf(rows[i]) ensures u[i] == Merged(rows[i], more[j]) {
      if j < |vs| {
        StandsProposed(vs, j);
        assert ValueKey(v) != KeyOf(rows[i]);
      } else {
        assert Keys(rows)[i] == ValueKey(v);
        assert i == at;
      }
    }
  }

  lemma StandsProposed(vs: seq<ValueRow>, j: nat)
    requires j < |vs|
    ensures Proposed(vs, ValueKey(vs[j]))
  {
  }

  lemma NewRowsStep(rows: seq<Alert>, firstId: nat, vs: seq<ValueRow>, t: seq<Alert>, v: ValueRow)
    requires OldRowsExact(rows, vs, t) && NewRowsExact(rows, firstId, vs, t) && !Proposed(vs, ValueKey(v))
    ensures NewRowsExact(rows, firstId, vs + [v], UpsertOne(t, firstId + |vs|, v))
  {
    var u, more := UpsertOne(t, firstId + |vs|, v), vs + [v];
    UpsertedRow(t, firstId + |vs|, v);
    NotAppendedYet(rows, firstId, vs, t, v);
    hide UpsertOne, KeyOf, ValueKey, Merged, Proposed;
    forall i | |rows| <= i < |u| ensures Inserted(rows, firstId, more, u[i]) {
      if i < |t| {
        var j: nat :| InsertedFrom(rows, firstId, vs, j, t[i]);
        assert InsertedFrom(rows, firstId, more, j, u[i]);
      } else {
        assert ValueKey(v) !in Keys(t) && more[|vs|] == v;
        forall k | 0 <= k < |rows| ensures Keys(rows)[k] != ValueKey(v) {
          assert Keys(t)[k] == Keys(rows)[k];
        }
        assert InsertedFrom(rows, firstId, more, |vs|, u[i]);
      }
    }
  }

  lemma KeysStep(vs: seq<ValueRow>, t: seq<Alert>, id: nat, v: ValueRow)
    requires KeysExact(vs, t)
    ensures KeysExact(vs + [v], UpsertOne(t, id, v))
  {
    UpsertedRow(t, id, v);
    hide UpsertOne, KeyOf, ValueKey;
  }

  lemma NothingUpserted(rows: seq<Alert>, firstId: nat)
    requires Distinct(Keys(rows))
    ensures RowsExact(rows, firstId, [], UpsertAll(rows, firstId, []))
  {
  }

  lemma UpsertAllStep(rows: seq<Alert>, firstId: nat, vs: seq<ValueRow>, v: ValueRow)
    ensures UpsertAll(rows, firstId, vs + [v]) == UpsertOne(UpsertAll(rows, firstId, vs), firstId + |vs|, v)
  {
    assert (vs + [v])[..|vs|] == vs;
  }

  lemma DistinctMost(vs: seq<ValueRow>, v: ValueRow)
    requires DistinctValues(vs + [v])
    ensures DistinctValues(vs) && !Proposed(vs, ValueKey(v))
  {
    var all := vs + [v];
    assert all[|vs|] == v && forall j | 0 <= j < |vs| :: all[j] == vs[j];
  }

  lemma RowsExactStep(rows: seq<Alert>, firstId: nat, vs: seq<ValueRow>, t: seq<Alert>, v: ValueRow)
    requires RowsExact(rows, firstId, vs, t) && !Proposed(vs, ValueKey(v)) && Distinct(Keys(rows))
    ensures RowsExact(rows, firstId, vs + [v], UpsertOne(t, firstId + |vs|, v))
  {
    hide OldRowsExact, NewRowsExact, KeysExact, Proposed, KeyOf, ValueKey, UpsertOne;
    OldRowsStep(rows, firstId, vs, t, v);
    NewRowsStep(rows, firstId, vs, t, v);
    KeysStep(vs, t, firstId + |vs|, v);
  }

  lemma {:induction false} UpsertAllIsExact(rows: seq<Alert>, firstId: nat, vs: seq<ValueRow>)
    requires Distinct(Keys(rows)) && DistinctValues(vs)
    ensures RowsExact(rows, firstId, vs, UpsertAll(rows, firstId, vs))
  {
    hide *;
    if vs == [] {
      NothingUpserted(rows, firstId);
    } else {
      var most, v := vs[..|vs| - 1], vs[|vs| - 1];
      assert vs == most + [v];
      DistinctMost(most, v);
      UpsertAllIsExact(rows, firstId, most);
      UpsertAllStep(rows, firstId, most, v);
      RowsExactStep(rows, firstId, most, UpsertAll(rows, firstId, most), v);
    }
  }

  // ---------------------------------------------------------------- the batch

  lemma KeyOfProposal(entries: map<int, Entry>, matches: map<int, seq<int>>, canon: Canonicalizer, ps: seq<Proposal>, i: nat)
    requires Proposes(entries, matches, canon, ps) && i < |ps|
    ensures ps[i].entryId in entries && ProposalKey(ps[i]) == ArticleKey(entries, canon, ps[i].entryId)
  {
    hide Decimal;
  }

  lemma ProposalOf(entries: map<int, Entry>, matches: map<int, seq<int>>, canon: Canonicalizer, ps: seq<Proposal>, id: int) returns (i: nat)
    requires Proposes(entries, matches, canon, ps) && Matched(entries, matches, id)
    ensures i < |ps| && ps[i].entryId == id && ProposalKey(ps[i]) == ArticleKey(entries, canon, id) && ps[i].rules == Elems(matches[id])
  {
    i :| 0 <= i < |ps| && ps[i].entryId == id;
    KeyOfProposal(entries, matches, canon, ps, i);
  }

  /** A collapsed proposal carries the rules of its article, and stands for its first matched entry. */
  lemma CollapsedArticle(entries: map<int, Entry>, matches: map<int, seq<int>>, canon: Canonicalizer, ps: seq<Proposal>, i: nat, q: Proposal)
    requires Proposes(entries, matches, canon, ps) && CollapsedFrom(ps, i, q)
    ensures MatchedUnder(entries, matches, canon, q.entryId, ProposalKey(q))
    ensures q.tenant == entries[q.entryId].tenant && q.canonicalLink == canon(entries[q.entryId].link)
    ensures q.rules == ArticleRules(entries, matches, canon, ProposalKey(q))
    ensures forall id | MatchedUnder(entries, matches, canon, id, ProposalKey(q)) :: q.entryId <= id
  {
    KeyOfProposal(entries, matches, canon, ps, i);
    assert ProposalKey(ps[i]) == ProposalKey(q);
    hide DedupeText, ProposalKey, ArticleKey;
    var k := ProposalKey(q);
    forall id | MatchedUnder(entries, matches, canon, id, k) ensures q.entryId <= id && Elems(matches[id]) <= q.rules {
      var j := ProposalOf(entries, matches, canon, ps, id);
      assert j >= i;
      forall rule | rule in ps[j].rules ensures rule in q.rules {
      }
    }
    forall rule | rule in q.rules ensures rule in ArticleRules(entries, matches, canon, k) {
      var j: nat :| j < |ps| && ProposalKey(ps[j]) == k && rule in ps[j].rules;
      KeyOfProposal(entries, matches, canon, ps, j);
      assert MatchedUnder(entries, matches, canon, ps[j].entryId, k) && rule in matches[ps[j].entryId];
    }
    forall rule | rule in ArticleRules(entries, matches, canon, k) ensures rule in q.rules {
      var id :| id in matches && MatchedUnder(entries, matches, canon, id, k) && rule in matches[id];
      assert rule in Elems(matches[id]);
    }
  }

  /** The value row of an article with a matched entry. */
  lemma ArticleRow(entries: map<int, Entry>, matches: map<int, seq<int>>, canon: Canonicalizer, ps: seq<Proposal>, k: Key)
    requires Proposes(entries, matches, canon, ps) && CollapseExact(ps, Collapse(ps))
    ensures Proposed(ToValues(Collapse(ps)), k) <==> exists id :: MatchedUnder(entries, matches, canon, id, k)
    ensures forall j | 0 <= j < |Collapse(ps)| && ValueKey(ToValues(Collapse(ps))[j]) == k ::
              Elems(ToValues(Collapse(ps))[j].matchedRules) == ArticleRules(entries, matches, canon, k)
  {
    hide DedupeText, Collapse, ArticleKey, ToValue, ValueKey, ProposalKey, ArticleRules, Proposes, MatchedUnder;
    var pending := Collapse(ps);
    var vs := ToValues(pending);
    forall j | 0 <= j < |vs| && ValueKey(vs[j]) == k
      ensures MatchedUnder(entries, matches, canon, pending[j].entryId, k)
      ensures Elems(vs[j].matchedRules) == ArticleRules(entries, matches, canon, k)
    {
      ValueOf(pending[j]);
      var f: nat :| CollapsedFrom(ps, f, pending[j]);
      CollapsedArticle(entries, matches, canon, ps, f, pending[j]);
    }
    if id :| MatchedUnder(entries, matches, canon, id, k) {
      MatchedHasRow(entries, matches, canon, ps, id, k);
    }
  }

  lemma MatchedHasRow(entries: map<int, Entry>, matches: map<int, seq<int>>, canon: Canonicalizer, ps: seq<Proposal>, id: int, k: Key)
    requires Proposes(entries, matches, canon, ps) && CollapseExact(ps, Collapse(ps)) && MatchedUnder(entries, matches, canon, id, k)
    ensures Proposed(ToValues(Collapse(ps)), k)
  {
    hide DedupeText, Collapse, ArticleKey, ToValue, ValueKey, ProposalKey, Proposes;
    var pending := Collapse(ps);
    var p := ProposalOf(entries, matches, canon, ps, id);
    var j :| 0 <= j < |pending| && ProposalKeys(pending)[j] == k;
    ValueOf(pending[j]);
    assert ToValues(pending)[j] == ToValue(pending[j]) && ProposalKeys(pending)[j] == ProposalKey(pending[j]);
    assert ValueKey(ToValues(pending)[j]) == k;
  }

  lemma OldAlertRow(
    entries: map<int, Entry>, matches: map<int, seq<int>>, canon: Canonicalizer, ps: seq<Proposal>, rows: seq<Alert>, t: seq<Alert>, i: nat
  )
    requires Proposes(entries, matches, canon, ps) && i < |rows|
    requires CollapseExact(ps, Collapse(ps)) && OldRowsExact(rows, ToValues(Collapse(ps)), t)
    ensures OldAlert(entries, matches, canon, rows[i], t[i])
  {
    hide DedupeText, Collapse, ArticleKey, ToValue, KeyOf, ValueKey, ProposalKey, ArticleRules, Proposes, MatchedUnder, CollapseExact;
    var k := KeyOf(rows[i]);
    var vs := ToValues(Collapse(ps));
    ArticleRow(entries, matches, canon, ps, k);
    if Proposed(vs, k) {
      var j :| 0 <= j < |vs| && ValueKey(vs[j]) == k;
      assert t[i] == Merged(rows[i], vs[j]);
      assert Elems(rows[i].matchedRules + vs[j].matchedRules) == Elems(rows[i].matchedRules) + Elems(vs[j].matchedRules);
    }
  }

  lemma ValueOf(p: Proposal)
    ensures ValueKey(ToValue(p)) == ProposalKey(p) && ToValue(p).tenant == p.tenant && ToValue(p).entryId == p.entryId
    ensures ToValue(p).canonicalLink == p.canonicalLink
    ensures StrictlyIncreasing(ToValue(p).matchedRules) && Elems(ToValue(p).matchedRules) == p.rules
    ensures p.rules != {} ==> ToValue(p).matchedRules != [] && ToValue(p).ruleId == ToValue(p).matchedRules[0]
  {
    if p.rules != {} { SortedSeqNonEmpty(p.rules); }
  }

  lemma NewAlertRow(
    entries: map<int, Entry>, matches: map<int, seq<int>>, canon: Canonicalizer, ps: seq<Proposal>, rows: seq<Alert>, firstId: nat, a: Alert
  )
    requires Proposes(entries, matches, canon, ps) && AllMatched(Collapse(ps)) && CollapseExact(ps, Collapse(ps))
    requires Inserted(rows, firstId, ToValues(Collapse(ps)), a)
    ensures NewAlert(entries, matches, canon, a)
  {
    hide DedupeText, Collapse, ArticleKey, ToValue, KeyOf, ValueKey, ProposalKey, ArticleRules, Proposes;
    var pending := Collapse(ps);
    var j: nat :| InsertedFrom(rows, firstId, ToValues(pending), j, a);
    ValueOf(pending[j]);
    var f: nat :| CollapsedFrom(ps, f, pending[j]);
    CollapsedArticle(entries, matches, canon, ps, f, pending[j]);
  }

  /**
    One batch, over the entries: afterwards each matched entry has exactly one alert of its article;
    that alert has its old rules and those of all matched entries of the article; a new one stands
    for the first of them; no other alert is added or changed.
   */
  lemma BatchByArticle(entries: map<int, Entry>, matches: map<int, seq<int>>, canon: Canonicalizer, rows: seq<Alert>, firstId: nat)
    requires Distinct(Keys(rows))
    ensures AllMatched(MatchedProposals(entries, matches, canon))
    ensures ArticleBatch(entries, matches, canon, rows, UpsertAll(rows, firstId, ToValues(Collapse(MatchedProposals(entries, matches, canon)))))
  {
    var ps := MatchedProposals(entries, matches, canon);
    MatchedProposalsPropose(entries, matches, canon);
    hide DedupeText, MatchedProposals, Collapse, UpsertAll, ArticleKey, ToValue, OldAlert, NewAlert, KeyOf, ValueKey, ProposalKey, Proposes;
    CollapseIsExact(ps);
    CollapseDistinct(ps);
    var pending := Collapse(ps);
    var vs, t := ToValues(pending), UpsertAll(rows, firstId, ToValues(pending));
    forall j ensures 0 <= j < |pending| ==> ValueKey(vs[j]) == ProposalKeys(pending)[j] {
      if 0 <= j < |pending| { ValueOf(pending[j]); }
    }
    UpsertAllIsExact(rows, firstId, vs);
    forall id | Matched(entries, matches, id) ensures ArticleKey(entries, canon, id) in Keys(t) {
      MatchedHasRow(entries, matches, canon, ps, id, ArticleKey(entries, canon, id));
    }
    forall i | 0 <= i < |rows| ensures OldAlert(entries, matches, canon, rows[i], t[i]) {
      OldAlertRow(entries, matches, canon, ps, rows, t, i);
    }
    forall i | |rows| <= i < |t| ensures NewAlert(entries, matches, canon, t[i]) {
      NewAlertRow(entries, matches, canon, ps, rows, firstId, t[i]);
    }
  }
}
