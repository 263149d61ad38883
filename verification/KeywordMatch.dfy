/**
  The keyword matcher with its bounded memo of compiled patterns. Text normalization and the
  letter-or-digit test are parameters; a pattern is kept as the escaped phrase of its source.
 */
module KeywordMatch {
  import opened Common

  const MAX_COMPILED_PHRASE_PATTERNS: nat := 5000

  // ---------------------------------------------------------------- patterns

  /** The characters with a meaning in a pattern. */
  predicate IsSyntax(c: char) { c in {'.', '*', '+', '?', '^', '$', '{', '}', '(', ')', '|', '[', ']', '\\'} }

  /** `value.replace(/[.*+?^${}()|[\]\\]/g, '\\$&')`. */
  function EscapeRegExp(s: string): string {
    if s == "" then "" else (if IsSyntax(s[0]) then ['\\', s[0]] else [s[0]]) + EscapeRegExp(s[1..])
  }

  /** The text a pattern source matches when it is made of plain and escaped characters only. */
  function LiteralOf(source: string): Option<string>
    decreases |source|
  {
    if source == "" then Some("")
    else if source[0] == '\\' then
      if |source| == 1 then None
      else
        match LiteralOf(source[2..])
        case Some(rest) => Some([source[1]] + rest)
        case None => None
    else if IsSyntax(source[0]) then None
    else
      match LiteralOf(source[1..])
      case Some(rest) => Some([source[0]] + rest)
      case None => None
  }

  /** An escaped phrase matches itself and nothing else, whatever syntax characters it has. */
  lemma {:induction false} EscapedIsLiteral(s: string)
    ensures LiteralOf(EscapeRegExp(s)) == Some(s)
  {
    if s != "" {
      EscapedIsLiteral(s[1..]);
      var rest := EscapeRegExp(s[1..]);
      if IsSyntax(s[0]) {
        assert (['\\', s[0]] + rest)[2..] == rest;
      } else {
        assert ([s[0]] + rest)[1..] == rest;
      }
      assert s == [s[0]] + s[1..];
    }
  }

  /** Exactly the fourteen characters with a meaning in a pattern get a backslash. */
  lemma SyntaxIsEscaped(c: char)
    ensures EscapeRegExp([c]) == if c in ".*+?^${}()|[]\\" then ['\\', c] else [c]
  {
    assert [c][1..] == "";
  }

  /** `(?<![\p{L}\p{N}])` + source + `(?![\p{L}\p{N}])`. */
  datatype Pattern = Pattern(source: string)

  function Compile(phrase: string): Option<Pattern> {
    if phrase == "" then None else Some(Pattern(EscapeRegExp(phrase)))
  }

  /** `phrase` stands at `i` with no letter or digit on either side. */
  predicate StandsAt(h: string, phrase: string, i: nat, isLetterOrDigit: char -> bool) {
    && i + |phrase| <= |h| && h[i..i + |phrase|] == phrase
    && (i > 0 ==> !isLetterOrDigit(h[i - 1]))
    && (i + |phrase| < |h| ==> !isLetterOrDigit(h[i + |phrase|]))
  }

  predicate WholeOccurrence(h: string, phrase: string, isLetterOrDigit: char -> bool) {
    exists i | 0 <= i <= |h| :: StandsAt(h, phrase, i, isLetterOrDigit)
  }

  /** `pattern.test(h)`: positions are tried from the left. */
  method Test(pattern: Pattern, h: string, isLetterOrDigit: char -> bool) returns (found: bool)
    ensures LiteralOf(pattern.source).Some? ==> (found <==> WholeOccurrence(h, LiteralOf(pattern.source).value, isLetterOrDigit))
  {
    var literal := LiteralOf(pattern.source);
    if literal.None? {
      return false;
    }
    for i := 0 to |h| + 1
      invariant forall j | 0 <= j < i :: !StandsAt(h, literal.value, j, isLetterOrDigit)
    {
      if StandsAt(h, literal.value, i, isLetterOrDigit) {
        return true;
      }
    }
    found := false;
  }

  // ---------------------------------------------------------------- rules

  datatype KeywordRule = KeywordRule(includeKeywords: seq<string>, excludeKeywords: seq<string>)

  /** What a keyword means for a normalized text, with no memo in sight. */
  predicate Hits(h: string, keyword: string, normalize: string -> string, isLetterOrDigit: char -> bool) {
    normalize(keyword) != "" && WholeOccurrence(h, normalize(keyword), isLetterOrDigit)
  }

  predicate AnyHits(h: string, keywords: seq<string>, normalize: string -> string, isLetterOrDigit: char -> bool) {
    exists i | 0 <= i < |keywords| :: Hits(h, keywords[i], normalize, isLetterOrDigit)
  }

  class Matcher {
    const normalize: string -> string
    const isLetterOrDigit: char -> bool
    var compiled: map<string, Option<Pattern>>

    /** The memo is bounded and holds what compiling again would give, also for the phrase that compiles to nothing. */
    ghost predicate Valid() reads this {
      |compiled| <= MAX_COMPILED_PHRASE_PATTERNS && forall phrase | phrase in compiled :: compiled[phrase] == Compile(phrase)
    }

    constructor (normalize: string -> string, isLetterOrDigit: char -> bool)
      ensures Valid() && compiled == map[] && this.normalize == normalize && this.isLetterOrDigit == isLetterOrDigit
    {
      this.normalize, this.isLetterOrDigit := normalize, isLetterOrDigit;
      compiled := map[];
    }

    method PhrasePattern(keyword: string) returns (pattern: Option<Pattern>)
      requires Valid()
      modifies this
      ensures Valid() && pattern == Compile(normalize(keyword)) && normalize(keyword) in compiled
      ensures normalize(keyword) in old(compiled) ==> compiled == old(compiled)
      ensures normalize(keyword) !in old(compiled) ==>
                compiled == (if |old(compiled)| >= MAX_COMPILED_PHRASE_PATTERNS then map[] else old(compiled))[normalize(keyword) := pattern]
    {
      var phrase := normalize(keyword);
      if phrase in compiled {
        return compiled[phrase];
      }
      pattern := Compile(phrase);
      if |compiled| >= MAX_COMPILED_PHRASE_PATTERNS {
        compiled := map[];
      }
      assert |compiled[phrase := pattern]| == |compiled| + 1 by {
        assert compiled[phrase := pattern].Keys == compiled.Keys + {phrase};
      }
      compiled := compiled[phrase := pattern];
    }

    /** Whatever earlier calls left in the memo, the answer is that of an uncached match. */
    method KeywordMatches(h: string, keyword: string) returns (b: bool)
      requires Valid()
      modifies this
      ensures Valid() && (b <==> Hits(h, keyword, normalize, isLetterOrDigit))
      ensures normalize(keyword) == "" ==> !b
    {
      var pattern := PhrasePattern(keyword);
      if pattern.None? {
        return false;
      }
      EscapedIsLiteral(normalize(keyword));
      b := Test(pattern.value, h, isLetterOrDigit);
    }

    method SomeMatches(h: string, keywords: seq<string>) returns (b: bool)
      requires Valid()
      modifies this
      ensures Valid() && (b <==> AnyHits(h, keywords, normalize, isLetterOrDigit))
    {
      for i := 0 to |keywords|
        invariant Valid()
        invariant forall j | 0 <= j < i :: !Hits(h, keywords[j], normalize, isLetterOrDigit)
      {
        var hit := KeywordMatches(h, keywords[i]);
        if hit {
          return true;
        }
      }
      b := false;
    }

    method RuleMatchesNormalizedText(h: string, rule: KeywordRule) returns (b: bool)
      requires Valid()
      modifies this
      ensures Valid()
      ensures b <==> AnyHits(h, rule.includeKeywords, normalize, isLetterOrDigit) && !AnyHits(h, rule.excludeKeywords, normalize, isLetterOrDigit)
    {
      var included := SomeMatches(h, rule.includeKeywords);
      if !included {
        return false;
      }
      var excluded := SomeMatches(h, rule.excludeKeywords);
      b := !excluded;
    }

    method EntryMatchesRule(text: string, rule: KeywordRule) returns (b: bool)
      requires Valid()
      modifies this
      ensures Valid()
      ensures b <==> AnyHits(normalize(text), rule.includeKeywords, normalize, isLetterOrDigit) &&
                     !AnyHits(normalize(text), rule.excludeKeywords, normalize, isLetterOrDigit)
    {
      b := RuleMatchesNormalizedText(normalize(text), rule);
    }
  }

  // ---------------------------------------------------------------- word boundaries

  /** A letter or digit added at either end of a phrase ends the match: `outage` is not found in `outages`, nor `ai` in `xai`. */
  lemma LongerWordsDoNotMatch(phrase: string, c: char, isLetterOrDigit: char -> bool)
    requires phrase != "" && isLetterOrDigit(c)
    ensures !WholeOccurrence(phrase + [c], phrase, isLetterOrDigit)
    ensures !WholeOccurrence([c] + phrase, phrase, isLetterOrDigit)
  {
    var n := |phrase|;
    var after, before := phrase + [c], [c] + phrase;
    assert !StandsAt(after, phrase, 0, isLetterOrDigit);
    assert !StandsAt(before, phrase, 1, isLetterOrDigit);
    if StandsAt(after, phrase, 1, isLetterOrDigit) {
      AllEqualAfter(phrase, c);
    }
    if StandsAt(before, phrase, 0, isLetterOrDigit) {
      AllEqualBefore(phrase, c);
    }
  }

  /** Punctuation, space or the ends of the text around a phrase do not hide it. */
  lemma FoundBetweenBoundaries(before: string, phrase: string, after: string, isLetterOrDigit: char -> bool)
    requires before != "" ==> !isLetterOrDigit(before[|before| - 1])
    requires after != "" ==> !isLetterOrDigit(after[0])
    ensures WholeOccurrence(before + phrase + after, phrase, isLetterOrDigit)
  {
    assert StandsAt(before + phrase + after, phrase, |before|, isLetterOrDigit);
  }

  lemma {:induction false} AllEqualAfter(phrase: string, c: char)
    requires phrase != "" && (phrase + [c])[1..] == phrase
    ensures phrase[0] == c
  {
    var all := phrase + [c];
    var k := |phrase| - 1;
    while k > 0
      invariant 0 <= k < |phrase| && phrase[k] == c
    {
      assert all[1..][k - 1] == all[k] == phrase[k];
      k := k - 1;
    }
  }

  lemma {:induction false} AllEqualBefore(phrase: string, c: char)
    requires phrase != "" && ([c] + phrase)[..|phrase|] == phrase
    ensures phrase[|phrase| - 1] == c
  {
    var all := [c] + phrase;
    var k := 0;
    while k < |phrase| - 1
      invariant 0 <= k < |phrase| && phrase[k] == c
    {
      assert all[..|phrase|][k + 1] == all[k + 1] == phrase[k];
      k := k + 1;
    }
  }
}
