/**
  The query part of an article link's dedupe key. Names are lower-cased within ASCII, which decides
  the tracking test as full lower-casing does: no other letter lower-cases to a whole listed name.
 */
module CanonicalQuery {
  import opened Common
  import opened Text

  function LowerChar(c: char): char { if 'A' <= c <= 'Z' then (c as int + 32) as char else c }

  function Lower(s: string): (t: string)
    ensures |t| == |s| && forall i | 0 <= i < |s| :: t[i] == LowerChar(s[i])
  {
    seq(|s|, i requires 0 <= i < |s| => LowerChar(s[i]))
  }

  const TRACKING: set<string> :=
    {"fbclid", "gclid", "mc_cid", "mc_eid", "ref", "ref_src", "at_medium", "at_campaign", "__twitter_impression"}

  predicate IsTrackingParam(name: string) {
    "utm_" <= Lower(name) || Lower(name) in TRACKING
  }

  /** `pair.split('=', 1)[0]`. */
  function Name(pair: string): string { pair[..Find(pair, '=')] }

  /** `pair.replaceAll('+', '%20')`. */
  function Spaces(s: string): string {
    if s == "" then "" else (if s[0] == '+' then "%20" else [s[0]]) + Spaces(s[1..])
  }

  predicate Survives(pair: string) { pair != "" && !IsTrackingParam(Name(pair)) }

  function Filter(pairs: seq<string>): seq<string> {
    if pairs == [] then [] else (if Survives(pairs[0]) then [pairs[0]] else []) + Filter(pairs[1..])
  }

  function Escape(pairs: seq<string>): (r: seq<string>)
    ensures |r| == |pairs| && forall i | 0 <= i < |r| :: r[i] == Spaces(pairs[i])
  {
    seq(|pairs|, i requires 0 <= i < |pairs| => Spaces(pairs[i]))
  }

  /** The pairs a query's key consists of, as they stand in the query. */
  function Surviving(raw: string): seq<string> { Escape(Filter(Split(raw, '&'))) }

  function CanonicalizeQuery(raw: string): string {
    if raw == "" then "" else Join(Sort(Surviving(raw)), "&")
  }

  // ---------------------------------------------------------------- shape of surviving pairs

  /** What a pair looks like once it is in a key. */
  predicate Canonical(pair: string) { Survives(pair) && '&' !in pair && '+' !in pair }

  ghost predicate AllCanonical(pairs: seq<string>) { forall i | 0 <= i < |pairs| :: Canonical(pairs[i]) }

  lemma {:induction false} SpacesChars(s: string)
    ensures '+' !in Spaces(s)
    ensures '&' !in s ==> '&' !in Spaces(s)
    ensures '+' !in s ==> Spaces(s) == s
    ensures s != "" ==> Spaces(s) != ""
  {
    if s != "" {
      SpacesChars(s[1..]);
      assert s == [s[0]] + s[1..];
    }
  }

  /** The name of an escaped pair is the escaped name. */
  lemma {:induction false} NameOfSpaces(pair: string)
    ensures Name(Spaces(pair)) == Spaces(Name(pair))
  {
    if pair != "" {
      var head := if pair[0] == '+' then "%20" else [pair[0]];
      NameOfSpaces(pair[1..]);
      if pair[0] != '=' {
        assert Name(pair) == [pair[0]] + Name(pair[1..]);
        assert Name(pair)[1..] == Name(pair[1..]);
        NameAfter(head, Spaces(pair[1..]));
      }
    }
  }

  lemma NameAfter(head: string, s: string)
    requires forall i | 0 <= i < |head| :: head[i] != '='
    ensures Name(head + s) == head + Name(s)
  {
    FindIs(head + s, '=', |head| + Find(s, '='));
  }

  lemma {:induction false} SpacesPrefix(s: string, k: nat)
    requires k <= |Spaces(s)| && forall i | 0 <= i < k :: Spaces(s)[i] != '%'
    ensures k <= |s| && forall i | 0 <= i < k :: s[i] == Spaces(s)[i]
  {
    if k > 0 {
      assert Spaces(s)[0] == if s[0] == '+' then '%' else s[0];
      var rest := Spaces(s[1..]);
      assert Spaces(s)[1..] == rest;
      assert forall i | 0 <= i < k - 1 :: rest[i] == Spaces(s)[i + 1];
      SpacesPrefix(s[1..], k - 1);
      assert forall i | 1 <= i < k :: s[i] == s[1..][i - 1];
    }
  }

  lemma {:induction false} PlusLeavesPercent(s: string)
    requires '+' in s
    ensures '%' in Spaces(s)
  {
    if s[0] != '+' {
      assert s == [s[0]] + s[1..];
      PlusLeavesPercent(s[1..]);
    } else {
      assert Spaces(s)[0] == '%';
    }
  }

  lemma ListedHaveNoPercent(name: string)
    requires '%' in name
    ensures Lower(name) !in TRACKING
  {
    var i :| 0 <= i < |name| && name[i] == '%';
    assert Lower(name)[i] == '%';
    forall t | t in TRACKING ensures '%' !in t {
    }
  }

  lemma UtmStays(name: string)
    ensures "utm_" <= Lower(Spaces(name)) ==> "utm_" <= Lower(name)
  {
    var low := Lower(Spaces(name));
    if "utm_" <= low {
      assert low[0] == 'u' && low[1] == 't' && low[2] == 'm' && low[3] == '_';
      SpacesPrefix(name, 4);
      assert Lower(name)[0] == 'u' && Lower(name)[1] == 't' && Lower(name)[2] == 'm' && Lower(name)[3] == '_';
    }
  }

  /** Escaping never turns a surviving pair into a tracking one. */
  lemma EscapedSurvives(pair: string)
    requires Survives(pair)
    ensures Survives(Spaces(pair))
  {
    var name := Name(pair);
    NameOfSpaces(pair);
    SpacesChars(pair);
    SpacesChars(name);
    if '+' in name {
      PlusLeavesPercent(name);
      ListedHaveNoPercent(Spaces(name));
      UtmStays(name);
    }
  }

  lemma {:induction false} FilterKeeps(pairs: seq<string>)
    ensures forall p | p in Filter(pairs) :: p in pairs && Survives(p)
  {
    if pairs != [] {
      FilterKeeps(pairs[1..]);
      assert pairs == [pairs[0]] + pairs[1..];
    }
  }

  lemma SurvivingAreCanonical(raw: string)
    ensures AllCanonical(Surviving(raw))
  {
    var kept := Filter(Split(raw, '&'));
    FilterKeeps(Split(raw, '&'));
    forall i | 0 <= i < |kept| ensures Canonical(Spaces(kept[i])) {
      assert kept[i] in kept;
      EscapedSurvives(kept[i]);
      SpacesChars(kept[i]);
    }
  }

  lemma {:induction false} CanonicalUnchanged(pairs: seq<string>)
    requires AllCanonical(pairs)
    ensures Filter(pairs) == pairs && Escape(pairs) == pairs
  {
    if pairs != [] {
      assert Canonical(pairs[0]);
      CanonicalUnchanged(pairs[1..]);
      assert pairs == [pairs[0]] + pairs[1..];
    }
    forall i | 0 <= i < |pairs| ensures Spaces(pairs[i]) == pairs[i] {
      assert Canonical(pairs[i]);
      SpacesChars(pairs[i]);
    }
  }

  lemma SortedCanonical(pairs: seq<string>)
    requires AllCanonical(pairs)
    ensures AllCanonical(Sort(pairs)) && |Sort(pairs)| == |pairs|
  {
    hide Canonical, Sort;
    var sorted := Sort(pairs);
    assert |multiset(sorted)| == |sorted| && |multiset(pairs)| == |pairs|;
    forall i | 0 <= i < |sorted| ensures Canonical(sorted[i]) {
      assert sorted[i] in multiset(sorted);
      assert sorted[i] in multiset(pairs);
    }
  }

  /** A key reads back as its own pairs, in order. */
  lemma KeyReadsBack(raw: string)
    ensures Surviving(CanonicalizeQuery(raw)) == Sort(Surviving(raw))
  {
    hide Split, Filter, Escape, Sort;
    SurvivingOfEmpty();
    SurvivingAreCanonical(raw);
    SortedCanonical(Surviving(raw));
    var pairs := Sort(Surviving(raw));
    if pairs != [] {
      assert forall p | p in pairs :: Canonical(p);
      SplitJoin(pairs, '&');
      CanonicalUnchanged(pairs);
      assert raw != "";
    } else {
      assert CanonicalizeQuery(raw) == "";
    }
  }

  lemma SurvivingOfEmpty()
    ensures Surviving("") == [] && Sort([]) == []
  {
    assert Split("", '&') == [""];
    assert Filter([""]) == [];
  }

  /** The key is a normal form: two queries share it exactly when the same pairs survive in both, however often and in whatever order. */
  lemma KeysEqualIffSamePairs(a: string, b: string)
    ensures CanonicalizeQuery(a) == CanonicalizeQuery(b) <==> multiset(Surviving(a)) == multiset(Surviving(b))
  {
    hide Surviving, Sort;
    SurvivingOfEmpty();
    KeyReadsBack(a);
    KeyReadsBack(b);
    if multiset(Surviving(a)) == multiset(Surviving(b)) {
      OrderedUnique(Sort(Surviving(a)), Sort(Surviving(b)));
    }
  }

  lemma KeyIsIdempotent(raw: string)
    ensures CanonicalizeQuery(CanonicalizeQuery(raw)) == CanonicalizeQuery(raw)
  {
    KeyReadsBack(raw);
    KeysEqualIffSamePairs(CanonicalizeQuery(raw), raw);
  }

  // ---------------------------------------------------------------- order and campaign parameters

  lemma FilterFirst(x: string, rest: seq<string>)
    ensures Filter([x] + rest) == (if Survives(x) then [x] else []) + Filter(rest)
    ensures Filter([]) == []
  {
    assert ([x] + rest)[1..] == rest;
  }

  lemma {:induction false} FilterAppend(a: seq<string>, b: seq<string>)
    ensures Filter(a + b) == Filter(a) + Filter(b)
  {
    hide *;
    if a == [] {
      FilterFirst("", []);
      assert a + b == b;
    } else {
      var x, rest := a[0], a[1..];
      FilterAppend(rest, b);
      FilterFirst(x, rest);
      FilterFirst(x, rest + b);
      assert a == [x] + rest && a + b == [x] + (rest + b);
    }
  }

  lemma EscapeAppend(a: seq<string>, b: seq<string>)
    ensures Escape(a + b) == Escape(a) + Escape(b)
  {
  }

  lemma Cancel(x: string, a: multiset<string>, b: multiset<string>, c: multiset<string>)
    requires multiset{x} + a == b + (multiset{x} + c)
    ensures a == b + c
  {
    assert multiset{x} + a - multiset{x} == a;
    assert b + (multiset{x} + c) - multiset{x} == b + c;
  }

  lemma TakeOut(p: seq<string>, q: seq<string>) returns (before: seq<string>, after: seq<string>)
    requires p != [] && multiset(p) == multiset(q)
    ensures p == [p[0]] + p[1..] && q == before + ([p[0]] + after) && multiset(p[1..]) == multiset(before + after)
  {
    assert p[0] in multiset(q);
    var k :| 0 <= k < |q| && q[k] == p[0];
    before, after := q[..k], q[k + 1..];
    assert p == [p[0]] + p[1..] && q == before + ([p[0]] + after);
    Cancel(p[0], multiset(p[1..]), multiset(before), multiset(after));
  }

  lemma {:induction false} ReorderedPairs(p: seq<string>, q: seq<string>)
    requires multiset(p) == multiset(q)
    ensures multiset(Escape(Filter(p))) == multiset(Escape(Filter(q)))
  {
    hide *;
    if p == [] {
      assert |q| == |multiset(q)|;
    } else {
      var before, after := TakeOut(p, q);
      ReorderedPairs(p[1..], before + after);
      ParseAppend([p[0]], p[1..]);
      ParseAppend([p[0]], after);
      ParseAppend(before, [p[0]] + after);
      ParseAppend(before, after);
    }
  }

  lemma ParseAppend(a: seq<string>, b: seq<string>)
    ensures Escape(Filter(a + b)) == Escape(Filter(a)) + Escape(Filter(b))
  {
    FilterAppend(a, b);
    EscapeAppend(Filter(a), Filter(b));
  }

  /** The order of a query's parameters never matters. */
  lemma OrderDoesNotMatter(a: string, b: string)
    requires multiset(Split(a, '&')) == multiset(Split(b, '&'))
    ensures CanonicalizeQuery(a) == CanonicalizeQuery(b)
  {
    ReorderedPairs(Split(a, '&'), Split(b, '&'));
    KeysEqualIffSamePairs(a, b);
  }

  /** Nor does appending a tracking parameter, or an empty one. */
  lemma CampaignParametersDoNotMatter(raw: string, pair: string)
    requires '&' !in pair && !Survives(pair)
    ensures CanonicalizeQuery(raw + "&" + pair) == CanonicalizeQuery(raw)
  {
    SplitLast(raw, pair);
    ParseAppend(Split(raw, '&'), [pair]);
    assert Escape(Filter([pair])) == [];
    KeysEqualIffSamePairs(raw + "&" + pair, raw);
  }

  lemma {:induction false} SplitLast(raw: string, pair: string)
    requires '&' !in pair
    ensures Split(raw + "&" + pair, '&') == Split(raw, '&') + [pair]
    decreases |raw|
  {
    hide Split;
    NoSeparator(pair);
    var i := Find(raw, '&');
    if i == |raw| {
      NoSeparator(raw);
      SplitFirst(raw, pair, '&');
    } else {
      var first, rest := raw[..i], raw[i + 1..];
      assert '&' !in first;
      SplitLast(rest, pair);
      assert raw == first + "&" + rest;
      assert raw + "&" + pair == first + "&" + (rest + "&" + pair);
      SplitFirst(first, rest, '&');
      SplitFirst(first, rest + "&" + pair, '&');
      assert [first] + (Split(rest, '&') + [pair]) == [first] + Split(rest, '&') + [pair];
    }
  }

  lemma NoSeparator(s: string)
    requires forall i | 0 <= i < |s| :: s[i] != '&'
    ensures Split(s, '&') == [s]
  {
    FindIs(s, '&', |s|);
  }

  // ---------------------------------------------------------------- characters and length of a key

  lemma {:induction false} JoinChars(parts: seq<string>, c: char)
    requires c != '&' && forall i | 0 <= i < |parts| :: c !in parts[i]
    ensures c !in Join(parts, "&")
  {
    if |parts| > 1 {
      JoinChars(parts[1..], c);
    }
  }

  lemma SortedMembers(q: seq<string>, p: string)
    requires p in Sort(q)
    ensures p in q
  {
    assert p in multiset(Sort(q));
  }

  lemma {:induction false} SplitChars(s: string, sep: char, c: char)
    requires c !in s
    ensures forall p | p in Split(s, sep) :: c !in p
    decreases |s|
  {
    var i := Find(s, sep);
    if i < |s| {
      SplitChars(s[i + 1..], sep, c);
    }
  }

  lemma {:induction false} SpacesAddNo(s: string, c: char)
    requires c !in s && c !in "%20"
    ensures c !in Spaces(s)
  {
    if s != "" {
      SpacesAddNo(s[1..], c);
    }
  }

  /** A key contains no `+`, and a `#` only where the query has one. */
  lemma KeyChars(raw: string)
    ensures '+' !in CanonicalizeQuery(raw)
    ensures '#' !in raw ==> '#' !in CanonicalizeQuery(raw)
  {
    var kept := Filter(Split(raw, '&'));
    var sorted := Sort(Surviving(raw));
    forall i | 0 <= i < |sorted| ensures '+' !in sorted[i] && ('#' !in raw ==> '#' !in sorted[i]) {
      SortedMembers(Surviving(raw), sorted[i]);
      var k :| 0 <= k < |kept| && Spaces(kept[k]) == sorted[i];
      SpacesChars(kept[k]);
      if '#' !in raw {
        FilterKeeps(Split(raw, '&'));
        SplitChars(raw, '&', '#');
        SpacesAddNo(kept[k], '#');
      }
    }
    JoinChars(sorted, '+');
    if '#' !in raw { JoinChars(sorted, '#'); }
  }

  /** Characters of the pairs, and one separator for each. */
  function Size(pairs: seq<string>): nat {
    if pairs == [] then 0 else |pairs[0]| + 1 + Size(pairs[1..])
  }

  lemma {:induction false} JoinSize(parts: seq<string>)
    requires parts != []
    ensures |Join(parts, "&")| + 1 == Size(parts)
  {
    if |parts| > 1 {
      JoinSize(parts[1..]);
    }
  }

  lemma {:induction false} SplitSize(s: string)
    ensures Size(Split(s, '&')) == |s| + 1
    decreases |s|
  {
    var i := Find(s, '&');
    if i < |s| {
      SplitSize(s[i + 1..]);
      var rest := Split(s[i + 1..], '&');
      assert ([s[..i]] + rest)[1..] == rest;
    }
  }

  lemma {:induction false} InsertSize(x: string, q: seq<string>)
    requires Ordered(q)
    ensures Size(Insert(x, q)) == |x| + 1 + Size(q)
  {
    if q == [] || Leq(x, q[0]) {
      assert ([x] + q)[1..] == q;
    } else {
      InsertSize(x, q[1..]);
      var rest := Insert(x, q[1..]);
      assert ([q[0]] + rest)[1..] == rest;
    }
  }

  lemma {:induction false} SortSize(q: seq<string>)
    ensures Size(Sort(q)) == Size(q)
  {
    if q != [] {
      SortSize(q[1..]);
      InsertSize(q[0], Sort(q[1..]));
    }
  }

  lemma {:induction false} SurvivingSize(pairs: seq<string>)
    requires forall i | 0 <= i < |pairs| :: '+' !in pairs[i]
    ensures Size(Escape(Filter(pairs))) <= Size(pairs)
  {
    if pairs != [] {
      var x, rest := pairs[0], pairs[1..];
      SurvivingSize(rest);
      SpacesChars(x);
      hide Size, Filter, Escape, Spaces, Survives;
      assert pairs == [x] + rest;
      EscapeFirst(x, rest);
      SizeFirst(x, rest);
      SizeFirst(x, Escape(Filter(rest)));
      assert [] + Escape(Filter(rest)) == Escape(Filter(rest));
    } else {
      assert Escape(Filter(pairs)) == [];
    }
  }

  lemma EscapeFirst(x: string, rest: seq<string>)
    ensures Escape(Filter([x] + rest)) == (if Survives(x) then [Spaces(x)] else []) + Escape(Filter(rest))
  {
    FilterFirst(x, rest);
    EscapeAppend(if Survives(x) then [x] else [], Filter(rest));
  }

  lemma SizeFirst(x: string, rest: seq<string>)
    ensures Size([x] + rest) == |x| + 1 + Size(rest)
  {
    assert ([x] + rest)[1..] == rest;
  }

  /** Without a `+` to escape, a key is no longer than its query. */
  lemma KeyLength(raw: string)
    requires '+' !in raw
    ensures |CanonicalizeQuery(raw)| <= |raw|
  {
    hide Split, Filter, Escape, Sort, Join;
    SplitSize(raw);
    SplitChars(raw, '&', '+');
    assert forall i | 0 <= i < |Split(raw, '&')| :: Split(raw, '&')[i] in Split(raw, '&');
    SurvivingSize(Split(raw, '&'));
    SortSize(Surviving(raw));
    if Sort(Surviving(raw)) == [] {
      assert CanonicalizeQuery(raw) == Join([], "&") || raw == "";
      JoinNothing();
    } else {
      JoinSize(Sort(Surviving(raw)));
    }
  }

  lemma JoinNothing() ensures Join([], "&") == "" {}

  // ---------------------------------------------------------------- which parameters are dropped, and which kept

  /** `name` spells `listed`, which is in lower case, in any mix of cases. */
  predicate Spells(name: string, listed: string) {
    |name| == |listed| && forall i | 0 <= i < |name| ::
      name[i] == listed[i] || ('a' <= listed[i] <= 'z' && name[i] == listed[i] - 'a' + 'A')
  }

  lemma LowerIsSpelling(name: string, listed: string)
    requires forall i | 0 <= i < |listed| :: !('A' <= listed[i] <= 'Z')
    ensures Lower(name) == listed <==> Spells(name, listed)
  {
    assert forall i | 0 <= i < |name| && |name| == |listed| ::
        LowerChar(name[i]) == listed[i] <==> (name[i] == listed[i] || ('a' <= listed[i] <= 'z' && name[i] == listed[i] - 'a' + 'A'));
    if Spells(name, listed) {
      assert Lower(name) == listed;
    }
  }

  /** The names of campaign parameters, and the nine others that only tell where a reader came from. */
  predicate NamesReferral(name: string) {
    || (|name| >= 4 && Spells(name[..4], "utm_"))
    || Spells(name, "fbclid") || Spells(name, "gclid") || Spells(name, "mc_cid") || Spells(name, "mc_eid")
    || Spells(name, "ref") || Spells(name, "ref_src") || Spells(name, "at_medium") || Spells(name, "at_campaign")
    || Spells(name, "__twitter_impression")
  }

  lemma TrackingIsReferral(name: string)
    ensures IsTrackingParam(name) <==> NamesReferral(name)
  {
    forall listed | listed in TRACKING ensures Lower(name) == listed <==> Spells(name, listed) {
      LowerIsSpelling(name, listed);
    }
    if |name| >= 4 {
      LowerIsSpelling(name[..4], "utm_");
      assert Lower(name)[..4] == Lower(name[..4]);
      assert "utm_" <= Lower(name) <==> Lower(name)[..4] == "utm_";
    }
    hide Spells, Lower;
    assert TRACKING == {"fbclid", "gclid", "mc_cid", "mc_eid", "ref", "ref_src", "at_medium", "at_campaign", "__twitter_impression"};
  }

  /** A parameter is dropped exactly when it is empty or the text before its first `=` names a referral. */
  lemma DroppedIff(name: string, rest: string)
    requires '=' !in name && (rest == "" || rest[0] == '=')
    ensures !Survives(name + rest) <==> name + rest == "" || NamesReferral(name)
  {
    FindIs(name + rest, '=', |name|);
    assert (name + rest)[..|name|] == name;
    TrackingIsReferral(name);
  }

  /** Every other parameter is kept as often as it stands in the query. */
  lemma {:induction false} FilterCounts(pairs: seq<string>, pair: string)
    ensures multiset(Filter(pairs))[pair] == if Survives(pair) then multiset(pairs)[pair] else 0
  {
    if pairs != [] {
      FilterCounts(pairs[1..], pair);
      assert pairs == [pairs[0]] + pairs[1..];
      hide Survives;
    }
  }

  lemma SpacesAtPlus(first: string, rest: string)
    requires '+' !in first
    ensures Spaces(first + "+" + rest) == first + "%20" + Spaces(rest)
  {
    assert first + "+" + rest == first + ("+" + rest);
    SpacesConcat(first, "+" + rest);
    SpacesChars(first);
    assert ("+" + rest)[1..] == rest;
    assert first + ("%20" + Spaces(rest)) == first + "%20" + Spaces(rest);
  }

  lemma JoinSplitFirst(first: string, parts: seq<string>)
    requires parts != []
    ensures Join([first] + parts, "%20") == first + "%20" + Join(parts, "%20")
  {
    assert ([first] + parts)[1..] == parts;
  }

  /** Escaping writes `%20` between the stretches a `+` separates, and nothing else. */
  lemma {:induction false} SpacesJoin(s: string)
    ensures Spaces(s) == Join(Split(s, '+'), "%20")
    decreases |s|
  {
    hide *;
    var i := Find(s, '+');
    if i == |s| {
      SpacesChars(s);
      WholeSplit(s);
    } else {
      var first, rest := s[..i], s[i + 1..];
      assert s == first + "+" + rest;
      SpacesJoin(rest);
      SpacesAtPlus(first, rest);
      SplitFirst(first, rest, '+');
      JoinSplitFirst(first, Split(rest, '+'));
    }
  }

  lemma WholeSplit(s: string)
    requires '+' !in s
    ensures Join(Split(s, '+'), "%20") == s
  {
    FindIs(s, '+', |s|);
  }

  lemma {:induction false} SpacesConcat(a: string, b: string)
    ensures Spaces(a + b) == Spaces(a) + Spaces(b)
  {
    if a == "" {
      assert a + b == b;
    } else {
      assert (a + b)[1..] == a[1..] + b;
      SpacesConcat(a[1..], b);
    }
  }
}
