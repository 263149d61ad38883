/** Vocabulary shared by the FeedPulse models: optional values, outcomes, and sorted id lists. */
module Common {

  datatype Option<+T> = None | Some(value: T) {
    function GetOr(default: T): T {
      match this
      case Some(v) => v
      case None => default
    }
  }

  datatype Result<+T, +E> = Ok(value: T) | Err(error: E)

  function Elems<T>(q: seq<T>): set<T> {
    set x | x in q
  }

  ghost predicate Distinct<T>(q: seq<T>) {
    forall i, j | 0 <= i < j < |q| :: q[i] != q[j]
  }

  lemma {:induction false} DistinctCount<T>(ids: seq<T>)
    requires Distinct(ids)
    ensures |Elems(ids)| == |ids|
  {
    if ids != [] {
      var n := |ids| - 1;
      DistinctCount(ids[..n]);
      assert Elems(ids) == Elems(ids[..n]) + {ids[n]};
    }
  }

  /** Index of the first occurrence of `x` at or after `from`, or `|q|` when there is none. */
  function IndexFrom<T(==)>(q: seq<T>, x: T, from: nat): (i: nat)
    requires from <= |q|
    ensures from <= i <= |q|
    ensures i < |q| ==> q[i] == x
    ensures forall j | from <= j < i :: q[j] != x
    decreases |q| - from
  {
    if from == |q| || q[from] == x then from else IndexFrom(q, x, from + 1)
  }

  function IndexOf<T(==)>(q: seq<T>, x: T): (i: nat)
    ensures i <= |q|
    ensures i < |q| ==> q[i] == x
    ensures forall j | 0 <= j < i :: q[j] != x
    ensures i == |q| <==> x !in q
  {
    IndexFrom(q, x, 0)
  }

  lemma IndexOfExtended<T>(q: seq<T>, r: seq<T>, x: T)
    requires x in q && |q| <= |r| && r[..|q|] == q
    ensures IndexOf(r, x) == IndexOf(q, x)
  {
    var i, j := IndexOf(q, x), IndexOf(r, x);
    assert r[..|q|][i] == r[i];
    assert j <= i && r[..|q|][j] == r[j];
  }

  predicate StrictlyIncreasing(q: seq<int>) {
    forall i, j | 0 <= i < j < |q| :: q[i] < q[j]
  }

  lemma SomeMember<T>(s: set<T>) returns (y: T)
    requires s != {}
    ensures y in s
  {
    y :| y in s;
  }

  method AnyOf<T>(s: set<T>) returns (x: T)
    requires s != {}
    ensures x in s
  {
    x :| x in s;
  }

  ghost predicate IsMin(m: int, s: set<int>) {
    m in s && forall x | x in s :: m <= x
  }

  lemma MinExists(s: set<int>)
    requires s != {}
    ensures exists m :: IsMin(m, s)
  {
    var y := SomeMember(s);
    var rest := s - {y};
    assert forall x | x in s :: x == y || x in rest;
    if rest == {} {
      assert IsMin(y, s);
    } else {
      MinExists(rest);
      var m :| IsMin(m, rest);
      var least := if y < m then y else m;
      assert IsMin(least, s);
    }
  }

  function MinOf(s: set<int>): (m: int)
    requires s != {}
    ensures m in s && forall x | x in s :: m <= x
  {
    MinExists(s);
    assert exists m :: IsMin(m, s);
    var m :| m in s && forall x | x in s :: m <= x;
    m
  }

  /** The ids of `s` in ascending order: `[...set].sort((a, b) => a - b)` and `ORDER BY 1`. */
  function SortedSeq(s: set<int>): (q: seq<int>)
    ensures StrictlyIncreasing(q)
    ensures Elems(q) == s
  {
    if s == {} then []
    else
      var m := MinOf(s);
      var rest := SortedSeq(s - {m});
      assert forall x | x in rest :: x in Elems(rest);
      assert Elems([m] + rest) == {m} + Elems(rest);
      [m] + rest
  }

  lemma SortedSeqNonEmpty(s: set<int>)
    requires s != {}
    ensures |SortedSeq(s)| > 0 && SortedSeq(s)[0] == MinOf(s)
  {
  }

  /** A strictly increasing list is determined by its set of members. */
  lemma {:induction false} SortedSeqUnique(p: seq<int>, q: seq<int>)
    requires StrictlyIncreasing(p) && StrictlyIncreasing(q)
    requires Elems(p) == Elems(q)
    ensures p == q
  {
    assert |q| > 0 ==> q[0] in Elems(q);
    if p != [] {
      assert p[0] in Elems(q);
      assert q != [];
      assert q[0] in Elems(p);
      assert p[0] == q[0];
      forall x ensures x in Elems(p[1..]) <==> x in Elems(q[1..]) {
        assert x in Elems(p[1..]) <==> x in Elems(p) && x != p[0];
        assert x in Elems(q[1..]) <==> x in Elems(q) && x != q[0];
      }
      SortedSeqUnique(p[1..], q[1..]);
    }
  }

  /** Decimal text of a row id, as `id::text` and template strings print it. */
  function Decimal(n: int): string
    decreases n < 0, if n < 0 then -n else n
  {
    if n < 0 then "-" + Decimal(-n)
    else if n < 10 then [n as char + '0']
    else Decimal(n / 10) + [(n % 10) as char + '0']
  }

  lemma {:induction false} DecimalChars(n: int)
    ensures Decimal(n) != [] && forall c | c in Decimal(n) :: '0' <= c <= '9' || (n < 0 && c == '-')
    ensures n >= 0 ==> Decimal(n)[0] != '-'
    decreases n < 0, if n < 0 then -n else n
  {
    if n < 0 { DecimalChars(-n); }
    if n >= 10 { DecimalChars(n / 10); }
  }

  lemma {:induction false} DecimalInjective(m: int, n: int)
    requires Decimal(m) == Decimal(n)
    ensures m == n
    decreases m < 0, if m < 0 then -m else m
  {
    var s, t := Decimal(m), Decimal(n);
    DecimalChars(m);
    DecimalChars(n);
    assert s[0] == t[0] && (m < 0 <==> n < 0);
    if m < 0 {
      assert s[1..] == Decimal(-m) && t[1..] == Decimal(-n);
      DecimalInjective(-m, -n);
    } else {
      if m >= 10 { DecimalChars(m / 10); }
      if n >= 10 { DecimalChars(n / 10); }
      assert |s| == |t| && (m < 10 <==> |s| == 1) && (n < 10 <==> |t| == 1);
      if m >= 10 {
        assert s[..|s| - 1] == Decimal(m / 10) && t[..|t| - 1] == Decimal(n / 10);
        assert s[|s| - 1] == t[|t| - 1];
        DecimalInjective(m / 10, n / 10);
      }
    }
  }
}
