/** String operations of the language runtime that the models share; a character is one code unit. */
module Text {

  /** White space and line terminators as `String.prototype.trim` removes them. */
  predicate IsSpace(c: char) {
    || '\U{0009}' <= c <= '\U{000D}' || c == ' ' || c == '\U{00A0}' || c == '\U{1680}'
    || '\U{2000}' <= c <= '\U{200A}' || c == '\U{2028}' || c == '\U{2029}' || c == '\U{202F}'
    || c == '\U{205F}' || c == '\U{3000}' || c == '\U{FEFF}'
  }

  function Trim(s: string): (t: string)
    ensures Trimmed(t) && |t| <= |s|
    ensures t == s <==> Trimmed(s)
    ensures forall c | c in t :: c in s
    decreases |s|
  {
    if s == "" then ""
    else if IsSpace(s[0]) then Trim(s[1..])
    else if IsSpace(s[|s| - 1]) then Trim(s[..|s| - 1])
    else s
  }

  /** Trimming takes white space off both ends, and nothing else. */
  lemma TrimIsSlice(s: string) returns (i: nat, j: nat)
    ensures i <= j <= |s| && Trim(s) == s[i..j]
    ensures forall k | 0 <= k < |s| && !(i <= k < j) :: IsSpace(s[k])
    decreases |s|
  {
    hide IsSpace;
    if s == "" || Trimmed(s) {
      i, j := 0, |s|;
    } else if IsSpace(s[0]) {
      var rest := s[1..];
      var k, l := TrimIsSlice(rest);
      i, j := k + 1, l + 1;
      hide Trim, Trimmed;
      assert rest[k..l] == s[i..j];
      forall m | 0 <= m < |s| && !(i <= m < j) ensures IsSpace(s[m]) {
        if m > 0 { assert rest[m - 1] == s[m]; }
      }
    } else {
      var most := s[..|s| - 1];
      i, j := TrimIsSlice(most);
      hide Trim, Trimmed;
      assert most[i..j] == s[i..j];
      forall m | 0 <= m < |s| && !(i <= m < j) ensures IsSpace(s[m]) {
        if m < |most| { assert most[m] == s[m]; }
      }
    }
  }

  predicate Trimmed(s: string) {
    s != "" ==> !IsSpace(s[0]) && !IsSpace(s[|s| - 1])
  }

  /** Index of the first `c`, or the length. */
  function Find(s: string, c: char): (i: nat)
    ensures i <= |s| && (i < |s| ==> s[i] == c)
    ensures forall j | 0 <= j < i :: s[j] != c
  {
    if s == "" || s[0] == c then 0 else Find(s[1..], c) + 1
  }

  lemma FindIs(s: string, c: char, i: nat)
    requires i <= |s| && (forall j | 0 <= j < i :: s[j] != c) && (i < |s| ==> s[i] == c)
    ensures Find(s, c) == i
  {
    var j := Find(s, c);
    assert j < |s| ==> s[j] == c;
  }

  /** `s.split(sep)` for a one-character separator. */
  function Split(s: string, sep: char): (parts: seq<string>)
    ensures parts != []
    ensures forall p | p in parts :: sep !in p
    decreases |s|
  {
    var i := Find(s, sep);
    if i == |s| then [s] else [s[..i]] + Split(s[i + 1..], sep)
  }

  /** `parts.join(sep)`. */
  function Join(parts: seq<string>, sep: string): string {
    if parts == [] then "" else if |parts| == 1 then parts[0] else parts[0] + sep + Join(parts[1..], sep)
  }

  lemma {:induction false} SplitJoin(parts: seq<string>, sep: char)
    requires parts != [] && forall p | p in parts :: sep !in p
    ensures Split(Join(parts, [sep]), sep) == parts
  {
    assert parts[0] in parts;
    if |parts| == 1 {
      FindIs(parts[0], sep, |parts[0]|);
      assert parts == [parts[0]];
    } else {
      SplitJoin(parts[1..], sep);
      hide Join, Split;
      SplitFirst(parts[0], Join(parts[1..], [sep]), sep);
      JoinFirst(parts, [sep]);
      assert parts == [parts[0]] + parts[1..];
    }
  }

  lemma JoinFirst(parts: seq<string>, sep: string)
    requires |parts| > 1
    ensures Join(parts, sep) == parts[0] + sep + Join(parts[1..], sep)
  {
  }

  lemma SplitFirst(first: string, rest: string, sep: char)
    requires sep !in first
    ensures Split(first + [sep] + rest, sep) == [first] + Split(rest, sep)
  {
    var s := first + [sep] + rest;
    assert s[..|first|] == first && s[|first| + 1..] == rest;
    FindIs(s, sep, |first|);
  }

  // ---------------------------------------------------------------- sorting

  /** The default order of `Array.prototype.sort`: by code units, a prefix first. */
  predicate Leq(a: string, b: string) {
    a == "" || (b != "" && (a[0] < b[0] || (a[0] == b[0] && Leq(a[1..], b[1..]))))
  }

  lemma {:induction false} LeqTotal(a: string, b: string)
    ensures Leq(a, b) || Leq(b, a)
    ensures Leq(a, b) && Leq(b, a) ==> a == b
  {
    if a != "" && b != "" {
      LeqTotal(a[1..], b[1..]);
      assert a == [a[0]] + a[1..] && b == [b[0]] + b[1..];
    }
  }

  lemma {:induction false} LeqTrans(a: string, b: string, c: string)
    requires Leq(a, b) && Leq(b, c)
    ensures Leq(a, c)
  {
    if a != "" && a[0] == b[0] == c[0] {
      LeqTrans(a[1..], b[1..], c[1..]);
    }
  }

  predicate Ordered(q: seq<string>) {
    |q| <= 1 || (Leq(q[0], q[1]) && Ordered(q[1..]))
  }

  function Insert(x: string, q: seq<string>): (r: seq<string>)
    requires Ordered(q)
    ensures Ordered(r) && multiset(r) == multiset(q) + multiset{x}
    ensures |r| == |q| + 1 && (r[0] == x || (q != [] && r[0] == q[0]))
  {
    LeqTotal(x, if q == [] then x else q[0]);
    if q == [] || Leq(x, q[0]) then [x] + q
    else
      assert q == [q[0]] + q[1..];
      [q[0]] + Insert(x, q[1..])
  }

  function Sort(q: seq<string>): (r: seq<string>)
    ensures Ordered(r) && multiset(r) == multiset(q)
  {
    if q == [] then []
    else
      assert q == [q[0]] + q[1..];
      Insert(q[0], Sort(q[1..]))
  }

  lemma {:induction false} FirstIsLeast(q: seq<string>, x: string)
    requires Ordered(q) && x in q
    ensures Leq(q[0], x)
  {
    LeqTotal(x, x);
    if x != q[0] {
      assert q == [q[0]] + q[1..];
      FirstIsLeast(q[1..], x);
      LeqTrans(q[0], q[1], x);
    }
  }

  lemma HeadAndTail(p: seq<string>)
    requires p != []
    ensures p == [p[0]] + p[1..] && multiset(p) == multiset{p[0]} + multiset(p[1..])
    ensures p[0] in multiset(p)
  {
    assert p == [p[0]] + p[1..];
  }

  lemma SameHead(p: seq<string>, q: seq<string>)
    requires Ordered(p) && Ordered(q) && multiset(p) == multiset(q) && p != [] && q != []
    ensures p[0] == q[0]
  {
    HeadAndTail(p);
    HeadAndTail(q);
    FirstIsLeast(q, p[0]);
    FirstIsLeast(p, q[0]);
    LeqTotal(p[0], q[0]);
  }

  lemma OrderedTail(p: seq<string>)
    requires Ordered(p) && p != []
    ensures Ordered(p[1..])
  {
  }

  lemma SameRest(x: string, a: multiset<string>, b: multiset<string>)
    requires multiset{x} + a == multiset{x} + b
    ensures a == b
  {
    assert multiset{x} + a - multiset{x} == a && multiset{x} + b - multiset{x} == b;
  }

  /** Two ordered lists of the same strings are the same list. */
  lemma {:induction false} OrderedUnique(p: seq<string>, q: seq<string>)
    requires Ordered(p) && Ordered(q) && multiset(p) == multiset(q)
    ensures p == q
  {
    hide *;
    assert |p| == |multiset(p)| == |q|;
    if p != [] {
      SameHead(p, q);
      HeadAndTail(p);
      HeadAndTail(q);
      SameRest(p[0], multiset(p[1..]), multiset(q[1..]));
      OrderedTail(p);
      OrderedTail(q);
      OrderedUnique(p[1..], q[1..]);
    }
  }
}
