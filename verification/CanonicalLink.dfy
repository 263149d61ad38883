/**
  The hand-written stages around the query: path normalization, and the whole form for links the
  URL parser rejects. Lower-casing is within ASCII.
 */
module CanonicalLink {
  import opened Common
  import opened Text
  import opened CanonicalQuery

  // ---------------------------------------------------------------- paths

  /** `pathname.replace(/\/{2,}/g, '/')`. */
  function CollapseSlashes(p: string): string {
    if |p| <= 1 then p
    else if p[0] == '/' && p[1] == '/' then CollapseSlashes(p[1..])
    else [p[0]] + CollapseSlashes(p[1..])
  }

  /** `collapsed.replace(/\/+$/g, '')`. */
  function StripSlashes(p: string): string {
    if p != "" && p[|p| - 1] == '/' then StripSlashes(p[..|p| - 1]) else p
  }

  function NormalizePath(p: string): string {
    var collapsed := CollapseSlashes(p);
    if collapsed == "/" then "/" else StripSlashes(collapsed)
  }

  predicate NoDoubleSlash(p: string) {
    forall i | 0 < i < |p| :: p[i - 1] != '/' || p[i] != '/'
  }

  /** A path in its final form: no slash doubled, none at the end unless it is all there is. */
  predicate NormalPath(p: string) {
    p == "" || (p[0] == '/' && NoDoubleSlash(p) && (p[|p| - 1] == '/' ==> p == "/"))
  }

  lemma {:induction false} CollapseKeeps(p: string)
    ensures var r := CollapseSlashes(p);
            && NoDoubleSlash(r) && |r| <= |p| && (p != "" ==> r != "" && r[0] == p[0])
            && (forall c | c in r :: c in p)
    ensures NoDoubleSlash(p) ==> CollapseSlashes(p) == p
  {
    if |p| > 1 {
      CollapseKeeps(p[1..]);
      assert p == [p[0]] + p[1..];
      assert NoDoubleSlash(p) ==> NoDoubleSlash(p[1..]) && !(p[0] == '/' && p[1] == '/') by {
        assert forall i | 0 < i < |p[1..]| :: p[1..][i - 1] == p[i] && p[1..][i] == p[i + 1];
      }
    }
  }

  /** A path is normalized to a normal one, and a normal one stays: so normalizing twice changes nothing more. */
  lemma PathIsNormalized(p: string)
    requires p != "" && p[0] == '/'
    ensures NormalPath(NormalizePath(p)) && NormalizePath(p) != "" && |NormalizePath(p)| <= |p|
    ensures forall c | c in NormalizePath(p) :: c in p
  {
    CollapseKeeps(p);
    var r := CollapseSlashes(p);
    if r != "/" && r[|r| - 1] == '/' {
      assert r[|r| - 2] != '/';
      assert StripSlashes(r) == r[..|r| - 1];
    }
  }

  lemma NormalPathStays(p: string)
    requires NormalPath(p)
    ensures NormalizePath(p) == p
  {
    CollapseKeeps(p);
  }

  // ---------------------------------------------------------------- parts of a link

  predicate IsLetter(c: char) { 'a' <= c <= 'z' || 'A' <= c <= 'Z' }

  predicate IsSchemeChar(c: char) { IsLetter(c) || '0' <= c <= '9' || c == '+' || c == '.' || c == '-' }

  /** Length of the match of `/^[a-z][a-z0-9+.-]*:\/\//i`, 0 when there is none. */
  function SchemeLength(s: string): (n: nat)
    ensures n <= |s|
  {
    var i := Find(s, ':');
    if 1 <= i && i + 2 < |s| && s[i + 1] == '/' && s[i + 2] == '/' && IsLetter(s[0]) && (forall j | 0 < j < i :: IsSchemeChar(s[j]))
    then i + 3 else 0
  }

  predicate EndsWith(s: string, suffix: string) { |suffix| <= |s| && s[|s| - |suffix|..] == suffix }

  function StripDefaultPort(scheme: string, authority: string): string {
    if scheme == "http://" && EndsWith(authority, ":80") then authority[..|authority| - 3]
    else if scheme == "https://" && EndsWith(authority, ":443") then authority[..|authority| - 4]
    else authority
  }

  datatype Parts = Parts(scheme: string, authority: string, path: string, query: string) {
    function Base(): string { scheme + authority + path }

    function Render(): string { if query == "" then Base() else Base() + "?" + query }
  }

  function BeforeQuery(v: string): string { v[..Find(v, '?')] }

  function RawQuery(v: string): string {
    var i := Find(v, '?');
    if i == |v| then "" else v[i + 1..]
  }

  function PartsOfBase(base: string, query: string): Parts {
    var n := SchemeLength(base);
    var scheme, remainder := Lower(base[..n]), base[n..];
    var k := Find(remainder, '/');
    Parts(scheme, StripDefaultPort(scheme, Lower(remainder[..k])), if k == |remainder| then "" else NormalizePath(remainder[k..]), query)
  }

  /** The canonical parts of a trimmed link without fragment. */
  function PartsOf(v: string): Parts {
    PartsOfBase(BeforeQuery(v), CanonicalizeQuery(RawQuery(v)))
  }

  /** `value.split('#')[0].trim()`. */
  function WithoutFragment(value: string): string { Trim(value[..Find(value, '#')]) }

  function CanonicalizeWithoutParser(value: string): Option<string> {
    var v := WithoutFragment(value);
    if v == "" then None
    else
      var canonical := PartsOf(v).Render();
      if canonical == "" then None else Some(canonical)
  }

  // ---------------------------------------------------------------- canonical parts read back

  ghost predicate CanonicalParts(p: Parts) {
    && (p.scheme != "" ==> SchemeLength(p.scheme) == |p.scheme| && Lower(p.scheme) == p.scheme)
    && Lower(p.authority) == p.authority && '/' !in p.authority
    && NormalPath(p.path)
    && '?' !in p.Base()
    && CanonicalizeQuery(p.query) == p.query
  }

  lemma SchemeExtends(s: string, more: string)
    requires s != "" && SchemeLength(s) == |s|
    ensures SchemeLength(s + more) == |s|
  {
    FindIs(s + more, ':', Find(s, ':'));
  }

  lemma SchemeLowered(base: string)
    requires SchemeLength(base) > 0
    ensures var scheme := Lower(base[..SchemeLength(base)]); SchemeLength(scheme) == |scheme| && Lower(scheme) == scheme
  {
    var n := SchemeLength(base);
    FindIs(Lower(base[..n]), ':', n - 3);
  }

  /** Without a scheme, authority and path never join into one. */
  lemma NoSchemeArises(authority: string, path: string)
    requires '/' !in authority && NormalPath(path)
    ensures SchemeLength(authority + path) == 0
  {
    var s := authority + path;
    var a := |authority|;
    assert forall j | 0 <= j < a :: s[j] == authority[j];
    assert forall j | a <= j < |s| :: s[j] == path[j - a];
  }

  lemma LowerFacts(s: string)
    ensures Lower(Lower(s)) == Lower(s)
    ensures '/' !in s ==> '/' !in Lower(s)
    ensures '?' !in s ==> '?' !in Lower(s)
    ensures '#' !in s ==> '#' !in Lower(s)
  {
  }

  lemma PartsOfPieces(scheme: string, authority: string, path: string, query: string)
    requires SchemeLength(scheme + authority + path) == |scheme| && '/' !in authority && (path == "" || path[0] == '/')
    ensures PartsOfBase(scheme + authority + path, query) ==
            Parts(Lower(scheme), StripDefaultPort(Lower(scheme), Lower(authority)), if path == "" then "" else NormalizePath(path), query)
  {
    hide SchemeLength, StripDefaultPort, NormalizePath, Lower;
    var base, rest := scheme + authority + path, authority + path;
    assert base[..|scheme|] == scheme && base[|scheme|..] == rest;
    FindIs(rest, '/', |authority|);
    assert rest[..|authority|] == authority && rest[|authority|..] == path;
  }

  lemma Pieces(base: string) returns (scheme: string, authority: string, path: string)
    ensures base == scheme + authority + path && SchemeLength(base) == |scheme| && '/' !in authority && (path == "" || path[0] == '/')
    ensures scheme == base[..SchemeLength(base)]
  {
    scheme := base[..SchemeLength(base)];
    var rest := base[SchemeLength(base)..];
    var k := Find(rest, '/');
    authority, path := rest[..k], rest[k..];
  }

  lemma PathPart(path: string)
    requires path == "" || path[0] == '/'
    ensures var r := if path == "" then "" else NormalizePath(path);
            NormalPath(r) && |r| <= |path| && forall c | c in r :: c in path
  {
    if path != "" { PathIsNormalized(path); }
  }

  lemma PartsOfBaseCanonical(base: string, query: string)
    requires '?' !in base && CanonicalizeQuery(query) == query
    ensures CanonicalParts(PartsOfBase(base, query))
    ensures |PartsOfBase(base, query).Base()| <= |base|
    ensures '#' !in base ==> '#' !in PartsOfBase(base, query).Base()
  {
    hide CanonicalizeQuery, NormalizePath, NormalPath, SchemeLength, PartsOfBase, StripDefaultPort, EndsWith, Find;
    var scheme, authority, path := Pieces(base);
    PartsOfPieces(scheme, authority, path, query);
    if scheme != "" { SchemeLowered(base); }
    LowerFacts(scheme);
    LowerFacts(authority);
    PathPart(path);
    AuthorityPrefix(Lower(scheme), Lower(authority));
    hide Lower;
  }

  lemma AuthorityPrefix(scheme: string, authority: string)
    ensures var r := StripDefaultPort(scheme, authority);
            && |r| <= |authority| && r == authority[..|r|]
            && (Lower(authority) == authority ==> Lower(r) == r)
  {
  }

  /** Parts in canonical form are read back unchanged, except that a default port may show again. */
  lemma PartsReadBack(p: Parts)
    requires CanonicalParts(p)
    ensures PartsOf(p.Render()) == p.(authority := StripDefaultPort(p.scheme, p.authority))
  {
    var v, base := p.Render(), p.Base();
    FindIs(v, '?', |base|);
    assert BeforeQuery(v) == base;
    assert RawQuery(v) == p.query by { if p.query != "" { assert v[|base| + 1..] == p.query; } }
    hide CanonicalizeQuery, BeforeQuery, RawQuery;
    BaseReadsBack(p);
  }

  lemma BaseReadsBack(p: Parts)
    requires CanonicalParts(p)
    ensures PartsOfBase(p.Base(), p.query) == p.(authority := StripDefaultPort(p.scheme, p.authority))
  {
    hide CanonicalizeQuery, NormalizePath, StripDefaultPort, SchemeLength, PartsOfBase, Lower;
    assert p.Base() == p.scheme + (p.authority + p.path);
    if p.scheme == "" {
      NoSchemeArises(p.authority, p.path);
      LowerEmpty();
      assert p.Base() == p.authority + p.path;
    } else {
      SchemeExtends(p.scheme, p.authority + p.path);
    }
    PartsOfPieces(p.scheme, p.authority, p.path, p.query);
    NormalPathStays(p.path);
  }

  lemma LowerEmpty() ensures Lower("") == "" {}

  // ---------------------------------------------------------------- reading a canonical link again

  lemma RawQueryOfSlice(base: string, query: string, i: nat, j: nat)
    requires '?' !in base && '+' !in query && i <= j <= |base| + 1 + |query|
    ensures '+' !in RawQuery((base + "?" + query)[i..j])
  {
    var c := base + "?" + query;
    var v := c[i..j];
    var k := Find(v, '?');
    assert forall m | 0 <= m < |base| :: c[m] == base[m];
    assert forall m | |base| < m < |c| :: c[m] == query[m - |base| - 1];
    if k < |v| {
      assert c[i + k] == v[k] == '?';
      forall m | k < m < |v| ensures v[m] != '+' {
        assert v[m] == c[i + m];
      }
    }
  }

  lemma RawQueryOfTrimmed(p: Parts)
    requires '?' !in p.Base() && '+' !in p.query
    ensures '+' !in RawQuery(Trim(p.Render()))
  {
    hide RawQuery, Trim, Trimmed;
    var base := p.Base();
    var i, j := TrimIsSlice(p.Render());
    RawQueryOfSlice(base, p.query, i, j);
    assert p.query == "" ==> base[i..j] == (base + "?" + "")[i..j];
  }

  lemma PartsOfCanonical(v: string)
    requires '#' !in v
    ensures CanonicalParts(PartsOf(v)) && '+' !in PartsOf(v).query && '#' !in PartsOf(v).Render()
    ensures '+' !in RawQuery(v) ==> |PartsOf(v).Render()| <= |v|
  {
    var base, raw := BeforeQuery(v), RawQuery(v);
    var query := CanonicalizeQuery(raw);
    assert '?' !in base && '#' !in base && '#' !in raw;
    KeyIsIdempotent(raw);
    KeyChars(raw);
    hide CanonicalizeQuery, BeforeQuery, RawQuery;
    PartsOfBaseCanonical(base, query);
    hide CanonicalParts;
    if '+' !in raw { KeyLength(raw); }
    assert raw == "" ==> query == "" by { EmptyKey(); }
    assert |base| + (if raw == "" then 0 else |raw| + 1) <= |v| by { QueryLengths(v); }
  }

  lemma EmptyKey() ensures CanonicalizeQuery("") == "" {}

  lemma QueryLengths(v: string)
    ensures |BeforeQuery(v)| + (if RawQuery(v) == "" then 0 else |RawQuery(v)| + 1) <= |v|
  {
  }

  lemma LinkParts(value: string)
    ensures var v, form := WithoutFragment(value), CanonicalizeWithoutParser(value);
            form.Some? ==> form.value == PartsOf(v).Render() && '#' !in v && v != ""
  {
    assert '#' !in value[..Find(value, '#')];
  }

  lemma WithoutFragmentOf(c: string)
    requires '#' !in c
    ensures WithoutFragment(c) == Trim(c)
  {
    FindIs(c, '#', |c|);
    assert c[..|c|] == c;
  }

  /** Reading a form again changes it exactly when it ends in white space or shows a default port. */
  lemma FormIsStableIff(value: string)
    ensures var form, p := CanonicalizeWithoutParser(value), PartsOf(WithoutFragment(value));
            form.Some? ==>
              (CanonicalizeWithoutParser(form.value) == form <==>
               Trimmed(form.value) && StripDefaultPort(p.scheme, p.authority) == p.authority)
  {
    hide WithoutFragment, PartsOf, CanonicalParts, RawQuery, StripDefaultPort, Trimmed;
    var v := WithoutFragment(value);
    var p, form := PartsOf(v), CanonicalizeWithoutParser(value);
    LinkParts(value);
    if form.Some? {
      var c := form.value;
      PartsOfCanonical(v);
      WithoutFragmentOf(c);
      var again := Trim(c);
      if Trimmed(c) {
        PartsReadBack(p);
        AuthorityPrefix(p.scheme, p.authority);
      } else {
        assert |again| < |c|;
        assert '+' !in RawQuery(again) by { CanonicalBase(p); RawQueryOfTrimmed(p); }
        PartsOfCanonical(again);
      }
    }
  }

  lemma CanonicalBase(p: Parts)
    requires CanonicalParts(p)
    ensures '?' !in p.Base()
  {
  }

  // ---------------------------------------------------------------- which links are stable

  predicate EndsInSpace(s: string) { s != "" && IsSpace(s[|s| - 1]) }

  /** The scheme, authority and path as they stand in the text before the `?`, scheme and authority lower-cased. */
  function SchemeOf(v: string): string { Lower(BeforeQuery(v)[..SchemeLength(BeforeQuery(v))]) }

  function AfterScheme(v: string): string { BeforeQuery(v)[SchemeLength(BeforeQuery(v))..] }

  function AuthorityOf(v: string): string { Lower(AfterScheme(v)[..Find(AfterScheme(v), '/')]) }

  function PathOf(v: string): string { AfterScheme(v)[Find(AfterScheme(v), '/')..] }

  /** The default port of the scheme stands twice at the end of the authority. */
  predicate DefaultPortTwice(scheme: string, authority: string) {
    (scheme == "http://" && EndsWith(authority, ":80:80")) || (scheme == "https://" && EndsWith(authority, ":443:443"))
  }

  /**
    What the form will end in: the greatest surviving parameter; failing that, the path up to its
    trailing slashes; without a path, the authority up to its default port.
   */
  predicate LeavesSpaceAtEnd(v: string) {
    var pairs := Sort(Surviving(RawQuery(v)));
    if RawQuery(v) != "" && pairs != [] then EndsInSpace(pairs[|pairs| - 1])
    else if PathOf(v) != "" then EndsInSpace(StripSlashes(PathOf(v)))
    else EndsInSpace(StripDefaultPort(SchemeOf(v), AuthorityOf(v)))
  }

  lemma PartsFromText(v: string)
    ensures PartsOf(v) ==
            Parts(SchemeOf(v), StripDefaultPort(SchemeOf(v), AuthorityOf(v)), if PathOf(v) == "" then "" else NormalizePath(PathOf(v)),
                  CanonicalizeQuery(RawQuery(v)))
  {
    hide CanonicalizeQuery, NormalizePath, StripDefaultPort, SchemeLength, Lower, BeforeQuery, RawQuery;
  }

  lemma StripTwiceIff(scheme: string, authority: string)
    ensures var once := StripDefaultPort(scheme, authority);
            StripDefaultPort(scheme, once) == once <==> !DefaultPortTwice(scheme, authority)
  {
    var n := |authority|;
    if scheme == "http://" && EndsWith(authority, ":80") {
      SuffixTwice(authority, ":80");
      assert ":80" + ":80" == ":80:80";
    } else if scheme == "https://" && EndsWith(authority, ":443") {
      SuffixTwice(authority, ":443");
      assert ":443" + ":443" == ":443:443";
    } else {
      SuffixOfSuffix(authority, ":80", ":80");
      SuffixOfSuffix(authority, ":443", ":443");
      assert ":80" + ":80" == ":80:80" && ":443" + ":443" == ":443:443";
    }
  }

  lemma SuffixTwice(s: string, suffix: string)
    requires EndsWith(s, suffix)
    ensures EndsWith(s[..|s| - |suffix|], suffix) <==> EndsWith(s, suffix + suffix)
  {
    var rest := s[..|s| - |suffix|];
    assert s == rest + suffix;
    if EndsWith(rest, suffix) {
      var front := rest[..|rest| - |suffix|];
      assert rest == front + suffix;
      assert s == front + (suffix + suffix);
      assert s[|front|..] == suffix + suffix;
    }
    if EndsWith(s, suffix + suffix) {
      var front := s[..|s| - 2 * |suffix|];
      assert s == front + (suffix + suffix);
      assert rest == front + suffix;
    }
  }

  lemma SuffixOfSuffix(s: string, a: string, b: string)
    ensures EndsWith(s, a + b) ==> EndsWith(s, b)
  {
    if EndsWith(s, a + b) {
      var front := s[..|s| - |a + b|];
      assert s == front + (a + b);
      assert s == (front + a) + b;
    }
  }

  lemma {:induction false} StripHead(x: char, q: string)
    ensures StripSlashes([x] + q) ==
            if StripSlashes(q) == "" then (if x == '/' then "" else [x]) else [x] + StripSlashes(q)
  {
    if q != "" && q[|q| - 1] == '/' {
      StripHead(x, q[..|q| - 1]);
      assert ([x] + q)[..|q|] == [x] + q[..|q| - 1];
    } else if q == "" {
      assert [x] + q == [x] && StripSlashes([x][..0]) == "";
    }
  }

  /** Collapsing slashes does not change what stands before the trailing ones. */
  lemma {:induction false} CollapseKeepsEnd(p: string)
    ensures StripSlashes(CollapseSlashes(p)) == "" <==> StripSlashes(p) == ""
    ensures EndsInSpace(StripSlashes(CollapseSlashes(p))) <==> EndsInSpace(StripSlashes(p))
  {
    if |p| > 1 {
      var x, q := p[0], p[1..];
      assert p == [x] + q;
      CollapseKeepsEnd(q);
      StripHead(x, q);
      StripHead(x, CollapseSlashes(q));
      hide StripSlashes;
    }
  }

  lemma PathEnd(p: string)
    requires p != "" && p[0] == '/'
    ensures EndsInSpace(NormalizePath(p)) <==> EndsInSpace(StripSlashes(p))
  {
    CollapseKeepsEnd(p);
    var slash := "/";
    assert slash[..0] == "" && StripSlashes(slash) == "";
  }

  lemma {:induction false} JoinEnd(pairs: seq<string>)
    requires pairs != [] && forall i | 0 <= i < |pairs| :: pairs[i] != ""
    ensures Join(pairs, "&") != "" && EndsInSpace(Join(pairs, "&")) == EndsInSpace(pairs[|pairs| - 1])
  {
    if |pairs| > 1 {
      JoinEnd(pairs[1..]);
    }
  }

  lemma QueryEnd(raw: string)
    ensures var pairs := Sort(Surviving(raw));
            && (CanonicalizeQuery(raw) != "" <==> raw != "" && pairs != [])
            && (CanonicalizeQuery(raw) != "" ==> EndsInSpace(CanonicalizeQuery(raw)) == EndsInSpace(pairs[|pairs| - 1]))
  {
    hide Surviving, Sort;
    SurvivingAreCanonical(raw);
    SortedCanonical(Surviving(raw));
    var pairs := Sort(Surviving(raw));
    assert forall i | 0 <= i < |pairs| :: Canonical(pairs[i]);
    if pairs != [] { JoinEnd(pairs); }
  }

  lemma SchemeEnd(base: string)
    ensures var scheme := Lower(base[..SchemeLength(base)]); !EndsInSpace(scheme) && (scheme != "" ==> !IsSpace(scheme[0]))
  {
  }

  lemma BaseEnd(v: string)
    ensures var p := PartsOf(v);
            EndsInSpace(p.Base()) == if PathOf(v) != "" then EndsInSpace(StripSlashes(PathOf(v)))
                                     else EndsInSpace(StripDefaultPort(SchemeOf(v), AuthorityOf(v)))
  {
    hide CanonicalizeQuery, NormalizePath, StripSlashes, StripDefaultPort, SchemeLength, Lower, PartsOf;
    PartsFromText(v);
    SchemeEnd(BeforeQuery(v));
    if PathOf(v) != "" {
      PathEnd(PathOf(v));
      PathIsNormalized(PathOf(v));
    }
  }

  /** Without a scheme, the base starts with the first character of the text, lower-cased. */
  lemma UnschemedStart(v: string)
    requires SchemeOf(v) == "" && BeforeQuery(v) != ""
    ensures var base, rest := BeforeQuery(v), (if PathOf(v) == "" then "" else NormalizePath(PathOf(v)));
            AuthorityOf(v) + rest != "" && (AuthorityOf(v) + rest)[0] == LowerChar(base[0])
  {
    hide NormalizePath, SchemeLength;
    var base := BeforeQuery(v);
    assert base[0..] == base;
    if base[0] == '/' {
      NormalStart(PathOf(v));
    }
  }

  /** A form never starts with white space: its first character is the link's, lower-cased. */
  lemma FormStart(v: string)
    requires Trimmed(v) && v != ""
    ensures PartsOf(v).Render() != "" ==> !IsSpace(PartsOf(v).Render()[0])
  {
    hide CanonicalizeQuery, NormalizePath, Trimmed, PartsOf, SchemeOf, AuthorityOf, PathOf, BeforeQuery;
    PartsFromText(v);
    SchemeStart(v);
    if SchemeOf(v) == "" && BeforeQuery(v) != "" {
      UnschemedStart(v);
      TrimmedEnds(v);
      BeforeQueryStart(v);
      SpaceLowered(v[0]);
    }
    if BeforeQuery(v) == "" { NothingBeforeQuery(v); }
  }

  lemma SchemeStart(v: string)
    ensures SchemeOf(v) != "" ==> !IsSpace(SchemeOf(v)[0])
  {
    SchemeEnd(BeforeQuery(v));
  }

  lemma SpaceLowered(c: char)
    ensures IsSpace(LowerChar(c)) == IsSpace(c)
  {
  }

  lemma BeforeQueryStart(v: string)
    requires BeforeQuery(v) != ""
    ensures v != "" && BeforeQuery(v)[0] == v[0]
  {
  }

  lemma NothingBeforeQuery(v: string)
    requires BeforeQuery(v) == ""
    ensures SchemeOf(v) == "" && AuthorityOf(v) == "" && PathOf(v) == ""
  {
  }

  lemma TrimmedEnds(s: string)
    requires Trimmed(s) && s != ""
    ensures !IsSpace(s[0]) && !EndsInSpace(s)
  {
  }

  lemma NormalStart(p: string)
    requires p != "" && p[0] == '/'
    ensures NormalizePath(p) != "" && NormalizePath(p)[0] == '/'
  {
    PathIsNormalized(p);
  }

  lemma FormEnd(v: string)
    requires Trimmed(v) && v != ""
    ensures PartsOf(v).Render() != "" ==> (Trimmed(PartsOf(v).Render()) <==> !LeavesSpaceAtEnd(v))
  {
    hide CanonicalizeQuery, Surviving, Sort, StripSlashes, StripDefaultPort, SchemeOf, AuthorityOf, PathOf, RawQuery, PartsOf;
    FormStart(v);
    QueryEnd(RawQuery(v));
    BaseEnd(v);
    PartsFromText(v);
  }

  /**
    A link canonicalized without the parser is canonicalized to itself exactly when no white space
    is left at its end and its authority does not end in the default port twice. Both are read off
    the link.
   */
  lemma LinkIsStableIff(value: string)
    ensures var v, form := WithoutFragment(value), CanonicalizeWithoutParser(value);
            form.Some? ==>
              (CanonicalizeWithoutParser(form.value) == form <==>
               !LeavesSpaceAtEnd(v) && !DefaultPortTwice(SchemeOf(v), AuthorityOf(v)))
  {
    hide WithoutFragment, PartsOf, LeavesSpaceAtEnd, DefaultPortTwice, SchemeOf, AuthorityOf, StripDefaultPort, Trimmed;
    var v, form := WithoutFragment(value), CanonicalizeWithoutParser(value);
    if form.Some? {
      LinkParts(value);
      WithoutFragmentTrimmed(value);
      FormIsStableIff(value);
      FormEnd(v);
      PartsFromText(v);
      StripTwiceIff(SchemeOf(v), AuthorityOf(v));
    }
  }

  lemma WithoutFragmentTrimmed(value: string)
    ensures Trimmed(WithoutFragment(value))
  {
  }

  function TwoPorts(): Parts { Parts("http://", "h:80:80", "", "") }

  lemma HttpScheme()
    ensures SchemeLength("http://") == 7 && Lower("http://") == "http://" && '?' !in "http://"
  {
    FindIs("http://", ':', 4);
  }

  lemma PortAuthority()
    ensures Lower("h:80:80") == "h:80:80" && '/' !in "h:80:80" && '?' !in "h:80:80"
  {
  }

  lemma TwoPortsCanonical()
    ensures CanonicalParts(TwoPorts())
  {
    hide SchemeLength, Lower, CanonicalizeQuery;
    HttpScheme();
    PortAuthority();
    EmptyKey();
    NormalPathStays("");
  }

  lemma PortsComeOff()
    ensures StripDefaultPort("http://", "h:80:80") == "h:80" && StripDefaultPort("http://", "h:80") == "h"
  {
    assert "h:80:80"[4..] == ":80" && "h:80:80"[..4] == "h:80" && "h:80"[1..] == ":80" && "h:80"[..1] == "h";
  }

  lemma TwoPortsText()
    ensures TwoPorts().Render() == "http://h:80:80" && Parts("http://", "h:80", "", "").Render() == "http://h:80"
    ensures TwoPorts().(authority := "h:80") == Parts("http://", "h:80", "", "")
    ensures TwoPorts().scheme == "http://" && TwoPorts().authority == "h:80:80"
  {
  }

  lemma TwoPortsTrimmed()
    ensures '#' !in "http://h:80:80" && Trim("http://h:80:80") == "http://h:80:80"
  {
  }

  lemma FormOf(value: string)
    ensures var v := WithoutFragment(value);
            v != "" && PartsOf(v).Render() != "" ==> CanonicalizeWithoutParser(value) == Some(PartsOf(v).Render())
  {
  }

  /** The repeated default port of `http://h:80:80` comes off one at a time. */
  lemma RepeatedPortIsUnstable()
    ensures CanonicalizeWithoutParser("http://h:80:80") == Some("http://h:80")
    ensures CanonicalizeWithoutParser("http://h:80") != Some("http://h:80")
  {
    hide *;
    var value := "http://h:80:80";
    TwoPortsText();
    TwoPortsTrimmed();
    TwoPortsCanonical();
    PortsComeOff();
    PartsReadBack(TwoPorts());
    WithoutFragmentOf(value);
    FormOf(value);
    FormIsStableIff(value);
  }

  lemma TrackingPair()
    ensures !Survives("utm_x=1") && '&' !in "utm_x=1"
  {
    var pair := "utm_x=1";
    FindIs(pair, '=', 5);
    assert Name(pair) == "utm_x";
    var low := Lower("utm_x");
    assert low == "utm_x" && low[..4] == "utm_";
  }

  lemma TrackingQueryVanishes()
    ensures CanonicalizeQuery("utm_x=1") == ""
  {
    hide Survives, Sort, Find, Split;
    var pair := "utm_x=1";
    TrackingPair();
    NoSeparator(pair);
    FilterFirst(pair, []);
    assert [pair] + [] == [pair];
    QueryEnd(pair);
    SurvivingOfEmpty();
    assert Surviving(pair) == [];
  }

  lemma SpacedBase()
    ensures PartsOfBase("foo ", "") == Parts("", "foo ", "", "")
  {
    hide SchemeLength, PartsOfBase, Lower;
    var base := "foo ";
    NoSchemeArises(base, "");
    assert base + "" == base && "" + base + "" == base;
    LowerEmpty();
    LowerSpaced();
    PartsOfPieces("", base, "", "");
  }

  lemma LowerSpaced()
    ensures Lower("foo ") == "foo "
  {
  }

  const SPACED: string := "foo ?utm_x=1"

  lemma SpacedText()
    ensures BeforeQuery(SPACED) == "foo " && RawQuery(SPACED) == "utm_x=1"
  {
    FindIs(SPACED, '?', 4);
  }

  lemma SpacedIsTrimmed()
    ensures SPACED != "" && '#' !in SPACED && Trim(SPACED) == SPACED && !Trimmed("foo ")
  {
  }

  lemma PartsUnfold(v: string)
    ensures PartsOf(v) == PartsOfBase(BeforeQuery(v), CanonicalizeQuery(RawQuery(v)))
  {
  }

  lemma RenderAuthority(authority: string)
    ensures Parts("", authority, "", "").Render() == authority
  {
  }

  /** The white space in front of a dropped query stays at the end of the form, and comes off when it is read again. */
  lemma SpaceBeforeQueryIsUnstable()
    ensures CanonicalizeWithoutParser(SPACED) == Some("foo ")
    ensures CanonicalizeWithoutParser("foo ") != Some("foo ")
  {
    hide *;
    SpacedText();
    SpacedIsTrimmed();
    TrackingQueryVanishes();
    SpacedBase();
    PartsUnfold(SPACED);
    WithoutFragmentOf(SPACED);
    RenderAuthority("foo ");
    FormOf(SPACED);
    FormIsStableIff(SPACED);
  }
}
