/** Entity decoding of OPML attribute values: five replacements, one after the other. */
module XmlEntities {
  import opened Common

  /** The predefined entity of a character, as section 4.6 of XML 1.0 spells it. */
  function Entity(c: char): string {
    if c in ESCAPED then "&" + Name(c) else [c]
  }

  function Name(c: char): string {
    match c
    case '"' => "quot;"
    case '\'' => "apos;"
    case '<' => "lt;"
    case '>' => "gt;"
    case _ => "amp;"
  }

  const ESCAPED: set<char> := {'"', '\'', '<', '>', '&'}

  /** `s.replace(/part/g, c)` for a non-empty literal `part`. */
  function ReplaceAll(s: string, part: string, c: char): string
    requires part != ""
    decreases |s|
  {
    if s == "" then ""
    else if part <= s then [c] + ReplaceAll(s[|part|..], part, c)
    else [s[0]] + ReplaceAll(s[1..], part, c)
  }

  /** `decodeXmlEntities`. */
  function Decode(s: string): string {
    var s1 := ReplaceAll(s, "&quot;", '"');
    var s2 := ReplaceAll(s1, "&apos;", '\'');
    var s3 := ReplaceAll(s2, "&lt;", '<');
    var s4 := ReplaceAll(s3, "&gt;", '>');
    ReplaceAll(s4, "&amp;", '&')
  }

  function Encode(s: string): string {
    if s == "" then "" else Entity(s[0]) + Encode(s[1..])
  }

  // ---------------------------------------------------------------- a single left-to-right pass

  /** `s` starts with the entity of an escaped character that `known` holds. */
  predicate StartsWith(s: string, c: char, known: set<char>) {
    c in known && c in ESCAPED && Entity(c) <= s
  }

  /** The character whose entity stands at the start of `s`. */
  function At(s: string, known: set<char>): (c: Option<char>)
    ensures c.Some? ==> StartsWith(s, c.value, known)
    ensures c.None? ==> forall d :: !StartsWith(s, d, known)
  {
    if StartsWith(s, '"', known) then Some('"')
    else if StartsWith(s, '\'', known) then Some('\'')
    else if StartsWith(s, '<', known) then Some('<')
    else if StartsWith(s, '>', known) then Some('>')
    else if StartsWith(s, '&', known) then Some('&')
    else None
  }

  /** One pass that decodes the entities in `known` where they stand and rescans nothing it wrote. */
  function OnePass(s: string, known: set<char>): string
    decreases |s|
  {
    if s == "" then ""
    else
      match At(s, known)
      case Some(c) => [c] + OnePass(s[|Entity(c)|..], known)
      case None => [s[0]] + OnePass(s[1..], known)
  }

  /** No two entities start at the same place. */
  lemma OneEntityAt(s: string, c: char, d: char)
    requires c in ESCAPED && d in ESCAPED && Entity(c) <= s && Entity(d) <= s
    ensures c == d
  {
    assert Entity(c)[1] == s[1] == Entity(d)[1] && Entity(c)[2] == s[2] == Entity(d)[2];
  }

  /** Text without any of the five characters: an entity after its `&`. */
  predicate Plain(s: string) { forall i | 0 <= i < |s| :: s[i] !in ESCAPED }

  lemma PlainTail(c: char)
    requires c in ESCAPED
    ensures Entity(c) == "&" + Name(c) && Entity(c)[1..] == Name(c) && Plain(Name(c)) && |Name(c)| >= 3
  {
  }

  lemma FirstOut(s: string, known: set<char>)
    requires s != ""
    ensures OnePass(s, known) != "" && (OnePass(s, known)[0] == s[0] || OnePass(s, known)[0] in ESCAPED)
    ensures s[0] != '&' ==> OnePass(s, known) == [s[0]] + OnePass(s[1..], known)
  {
    if At(s, known).Some? {
      PlainTail(At(s, known).value);
    }
  }

  lemma PrefixHead(w: string, s: string)
    requires w != "" && s != ""
    ensures w <= s <==> w[0] == s[0] && w[1..] <= s[1..]
  {
    assert w == [w[0]] + w[1..] && s == [s[0]] + s[1..];
  }

  /** Plain text passes through, and plain text in the output was there in the input. */
  lemma {:induction false} PlainThrough(s: string, w: string, known: set<char>)
    requires Plain(w)
    ensures w <= s ==> OnePass(s, known) == w + OnePass(s[|w|..], known)
    ensures w <= OnePass(s, known) ==> w <= s
    decreases |w|
  {
    if w != "" && s != "" {
      FirstOut(s, known);
      PlainThrough(s[1..], w[1..], known);
      hide OnePass, Entity, Name, At;
      var out := OnePass(s[1..], known);
      PrefixHead(w, s);
      PrefixHead(w, OnePass(s, known));
      if w[0] == s[0] {
        assert ([s[0]] + out)[1..] == out;
        if w[1..] <= s[1..] {
          assert s[1..][|w[1..]|..] == s[|w|..];
          assert w == [s[0]] + w[1..];
        }
      }
    }
  }

  /** Replacing one more entity, other than after `&amp;`, is one more entity known to the single pass. */
  lemma {:induction false} ReplacementExtendsPass(s: string, known: set<char>, c: char)
    requires c in ESCAPED && c !in known && '&' !in known
    ensures ReplaceAll(OnePass(s, known), Entity(c), c) == OnePass(s, known + {c})
    decreases |s|
  {
    if s != "" {
      PlainTail(c);
      var here := At(s, known + {c});
      if here == Some(c) {
        ReplacementExtendsPass(s[|Entity(c)|..], known, c);
        EntityThrough(s, known, c);
        var rest := OnePass(s[|Entity(c)|..], known);
        assert (Entity(c) + rest)[|Entity(c)|..] == rest;
      } else if here.Some? {
        ReplacementExtendsPass(s[|Entity(here.value)|..], known, c);
        AtExtended(s, known, c);
        var rest := OnePass(s[|Entity(here.value)|..], known);
        assert OnePass(s, known) == [here.value] + rest;
        assert ([here.value] + rest)[1..] == rest;
      } else {
        ReplacementExtendsPass(s[1..], known, c);
        AtExtended(s, known, c);
        var rest := OnePass(s[1..], known);
        assert OnePass(s, known) == [s[0]] + rest && ([s[0]] + rest)[1..] == rest;
        PlainThrough(s[1..], Name(c), known);
        NoNewEntity(s, c, rest);
      }
    }
  }

  lemma AtExtended(s: string, known: set<char>, c: char)
    requires At(s, known + {c}) != Some(c)
    ensures At(s, known) == At(s, known + {c})
  {
    forall d, e | StartsWith(s, d, known + {c}) && StartsWith(s, e, known + {c}) ensures d == e { OneEntityAt(s, d, e); }
  }

  lemma OnlyUnknownHere(s: string, known: set<char>, c: char)
    requires c in ESCAPED && c !in known && Entity(c) <= s
    ensures At(s, known) == None
  {
    forall d | StartsWith(s, d, known) ensures d == c { OneEntityAt(s, c, d); }
  }

  lemma EntityThrough(s: string, known: set<char>, c: char)
    requires c in ESCAPED && c !in known && Entity(c) <= s
    ensures OnePass(s, known) == Entity(c) + OnePass(s[|Entity(c)|..], known)
  {
    PlainTail(c);
    OnlyUnknownHere(s, known, c);
    hide Name, Entity, At, Plain;
    PrefixHead(Entity(c), s);
    PlainThrough(s[1..], Name(c), known);
    assert OnePass(s, known) == [s[0]] + OnePass(s[1..], known);
    hide OnePass;
    assert s[1..][|Name(c)|..] == s[|Entity(c)|..];
  }

  lemma NoNewEntity(s: string, c: char, rest: string)
    requires s != "" && c in ESCAPED && !(Entity(c) <= s) && (Name(c) <= rest ==> Name(c) <= s[1..])
    ensures !(Entity(c) <= [s[0]] + rest)
  {
    hide Name;
    assert Entity(c) <= [s[0]] + rest ==> Name(c) <= rest by {
      assert Entity(c)[1..] == Name(c) && ([s[0]] + rest)[1..] == rest;
    }
    assert s == [s[0]] + s[1..];
  }

  lemma {:induction false} NothingKnown(s: string)
    ensures OnePass(s, {}) == s
  {
    if s != "" {
      NothingKnown(s[1..]);
    }
  }

  /** The five replacements decode every text as a single pass does: none of them sees what another wrote. */
  lemma DecodeIsOnePass(s: string)
    ensures Decode(s) == OnePass(s, ESCAPED)
  {
    NothingKnown(s);
    assert Entity('"') == "&quot;" && Entity('\'') == "&apos;" && Entity('<') == "&lt;" && Entity('>') == "&gt;" && Entity('&') == "&amp;";
    hide Entity, OnePass, ReplaceAll;
    ReplacementExtendsPass(s, {}, '"');
    ReplacementExtendsPass(s, {'"'}, '\'');
    ReplacementExtendsPass(s, {'"', '\''}, '<');
    ReplacementExtendsPass(s, {'"', '\'', '<'}, '>');
    ReplacementExtendsPass(s, {'"', '\'', '<', '>'}, '&');
    assert {} + {'"'} == {'"'} && {'"'} + {'\''} == {'"', '\''} && {'"', '\''} + {'<'} == {'"', '\'', '<'};
    assert {'"', '\'', '<'} + {'>'} == {'"', '\'', '<', '>'} && {'"', '\'', '<', '>'} + {'&'} == ESCAPED;
  }

  lemma {:induction false} OnePassUndoesEncode(s: string)
    ensures OnePass(Encode(s), ESCAPED) == s
  {
    if s != "" {
      OnePassUndoesEncode(s[1..]);
      var rest := Encode(s[1..]);
      assert (Entity(s[0]) + rest)[|Entity(s[0])|..] == rest;
      forall d | StartsWith(Encode(s), d, ESCAPED) ensures d == s[0] {
        PlainTail(d);
        if s[0] in ESCAPED { OneEntityAt(Encode(s), s[0], d); }
      }
      assert s[0] in ESCAPED ==> StartsWith(Encode(s), s[0], ESCAPED);
    }
  }

  /** Decoding undoes escaping, for every text. */
  lemma DecodeUndoesEncode(s: string)
    ensures Decode(Encode(s)) == s
  {
    DecodeIsOnePass(Encode(s));
    OnePassUndoesEncode(s);
  }

  /** With `&amp;` replaced before `&lt;`, an escaped `&lt;` would come out as `<`. */
  lemma AmpersandMustComeLast()
    ensures Encode("&lt;") == "&amp;lt;" && Decode("&amp;lt;") == "&lt;"
    ensures ReplaceAll(ReplaceAll("&amp;lt;", "&amp;", '&'), "&lt;", '<') == "<"
  {
    assert Encode("&lt;") == "&amp;lt;" by {
      assert "&lt;"[1..] == "lt;" && "lt;"[1..] == "t;" && "t;"[1..] == ";" && ";"[1..] == "";
      assert Encode(";") == ";" && Encode("t;") == "t;" && Encode("lt;") == "lt;";
    }
    DecodeUndoesEncode("&lt;");
    AmpersandFirst();
  }

  lemma AmpersandFirst()
    ensures ReplaceAll("&amp;lt;", "&amp;", '&') == "&lt;" && ReplaceAll("&lt;", "&lt;", '<') == "<"
  {
    assert "lt;"[1..] == "t;" && "t;"[1..] == ";" && ";"[1..] == "";
    assert ReplaceAll(";", "&amp;", '&') == ";" && ReplaceAll("t;", "&amp;", '&') == "t;" && ReplaceAll("lt;", "&amp;", '&') == "lt;";
    assert "&amp;lt;"[|"&amp;"|..] == "lt;" && "&lt;"[|"&lt;"|..] == "";
  }
}
