/**
  `extractOpmlItems`: the loop over outline tags with its path stack, against the outline tree the
  tags spell. Attribute values arrive raw; lexing the XML text into tags is not modelled.
 */
module OpmlTags {
  import opened Common
  import opened Text
  import opened XmlEntities

  /** `s || null`. */
  function OrNull(s: string): Option<string> { if s == "" then None else Some(s) }

  // ---------------------------------------------------------------- tags and items

  /** An outline tag: its attributes as matched, in order, values as written. */
  datatype Tag = Closing | Opening(attributes: seq<(string, string)>, selfClosing: bool)

  datatype Item = Item(title: Option<string>, outlinePath: Option<string>, sourceXmlUrl: string)

  datatype ParseError = TooLarge | InvalidRoot | DoctypeNotAllowed | OutlineLimitExceeded | MalformedOutline

  /** The attribute map of a tag: a repeated name keeps its last value. */
  function AttributeMap(attributes: seq<(string, string)>): map<string, string> {
    if attributes == [] then map[]
    else
      var (key, value) := attributes[|attributes| - 1];
      AttributeMap(attributes[..|attributes| - 1])[key := Decode(Trim(value))]
  }

  method ParseAttributes(attributes: seq<(string, string)>) returns (parsed: map<string, string>)
    ensures parsed == AttributeMap(attributes)
  {
    parsed := map[];
    var i := 0;
    while i < |attributes|
      invariant i <= |attributes|
      invariant parsed == AttributeMap(attributes[..i])
    {
      assert attributes[..i + 1][..i] == attributes[..i];
      parsed := parsed[attributes[i].0 := Decode(Trim(attributes[i].1))];
      i := i + 1;
    }
    assert attributes[..i] == attributes;
  }

  /** The value read for a name is that of its last occurrence. */
  lemma {:induction false} LastAttributeWins(attributes: seq<(string, string)>, i: nat)
    requires i < |attributes| && forall j | i < j < |attributes| :: attributes[j].0 != attributes[i].0
    ensures attributes[i].0 in AttributeMap(attributes)
    ensures AttributeMap(attributes)[attributes[i].0] == Decode(Trim(attributes[i].1))
  {
    if i < |attributes| - 1 {
      LastAttributeWins(attributes[..|attributes| - 1], i);
    }
  }

  function First(attributes: map<string, string>, name: string, other: string): string {
    if name in attributes then attributes[name] else if other in attributes then attributes[other] else ""
  }

  function TitleOf(tag: Tag): Option<string>
    requires tag.Opening?
  {
    OrNull(Trim(First(AttributeMap(tag.attributes), "title", "text")))
  }

  function XmlUrlOf(tag: Tag): string
    requires tag.Opening?
  {
    Trim(First(AttributeMap(tag.attributes), "xmlUrl", "xmlurl"))
  }

  /** Attribute `i` is the last of its name. */
  predicate LastOf(attributes: seq<(string, string)>, i: nat, name: string) {
    i < |attributes| && attributes[i].0 == name && forall j | i < j < |attributes| :: attributes[j].0 != name
  }

  predicate HasName(attributes: seq<(string, string)>, name: string) {
    exists i | 0 <= i < |attributes| :: attributes[i].0 == name
  }

  /** What stands in an attribute: unescaped, without white space around. */
  function Content(value: string): string { Trim(Decode(Trim(value))) }

  lemma {:induction false} NameInMap(attributes: seq<(string, string)>, name: string)
    ensures name in AttributeMap(attributes) <==> HasName(attributes, name)
  {
    if attributes != [] {
      var n := |attributes| - 1;
      NameInMap(attributes[..n], name);
      if HasName(attributes[..n], name) {
        var i :| 0 <= i < n && attributes[..n][i].0 == name;
        assert attributes[i].0 == name;
      }
      if i :| 0 <= i < |attributes| && attributes[i].0 == name {
        assert i < n ==> attributes[..n][i].0 == name;
      }
    }
  }

  /** The title is what `title` holds, even when that is nothing; without a `title`, what `text` holds. */
  lemma TitleBeforeText(attributes: seq<(string, string)>, selfClosing: bool, i: nat)
    ensures var title := TitleOf(Opening(attributes, selfClosing));
            && (LastOf(attributes, i, "title") ==> title == OrNull(Content(attributes[i].1)))
            && (!HasName(attributes, "title") && LastOf(attributes, i, "text") ==> title == OrNull(Content(attributes[i].1)))
            && (!HasName(attributes, "title") && !HasName(attributes, "text") ==> title == None)
  {
    hide Trim, Decode;
    NameInMap(attributes, "title");
    NameInMap(attributes, "text");
    if i < |attributes| && LastOf(attributes, i, attributes[i].0) {
      LastAttributeWins(attributes, i);
    }
  }

  /** An outline is a feed by its `xmlUrl`; the spelling `xmlurl` counts only without it. */
  lemma XmlUrlSpellings(attributes: seq<(string, string)>, selfClosing: bool, i: nat)
    ensures var url := XmlUrlOf(Opening(attributes, selfClosing));
            && (LastOf(attributes, i, "xmlUrl") ==> url == Content(attributes[i].1))
            && (!HasName(attributes, "xmlUrl") && LastOf(attributes, i, "xmlurl") ==> url == Content(attributes[i].1))
            && (!HasName(attributes, "xmlUrl") && !HasName(attributes, "xmlurl") ==> url == "")
  {
    hide Decode;
    NameInMap(attributes, "xmlUrl");
    NameInMap(attributes, "xmlurl");
    if i < |attributes| && LastOf(attributes, i, attributes[i].0) {
      LastAttributeWins(attributes, i);
    }
  }

  function WithTitle(path: seq<string>, title: Option<string>): seq<string> {
    path + if title.Some? then [title.value] else []
  }

  /** The item of a feed tag below the folders in `path`. */
  function ItemAt(path: seq<string>, tag: Tag): Item
    requires tag.Opening?
  {
    Item(TitleOf(tag), OrNull(Trim(Join(WithTitle(path, TitleOf(tag)), " / "))), XmlUrlOf(tag))
  }

  // ---------------------------------------------------------------- the loop

  datatype State = Reading(stack: seq<string>, parsed: seq<Item>) | Malformed

  function Next(s: State, tag: Tag): State {
    if s.Malformed? then s
    else
      match tag
      case Closing => if s.stack == [] then Malformed else s.(stack := s.stack[..|s.stack| - 1])
      case Opening(_, selfClosing) =>
        if XmlUrlOf(tag) != "" then s.(parsed := s.parsed + [ItemAt(s.stack, tag)])
        else if !selfClosing && TitleOf(tag).Some? then s.(stack := s.stack + [TitleOf(tag).value])
        else s
  }

  function Scan(s: State, tags: seq<Tag>): State {
    if tags == [] then s else Next(Scan(s, tags[..|tags| - 1]), tags[|tags| - 1])
  }

  /** The text as the checks before the loop see it. */
  datatype Document = Document(bytes: nat, hasRoot: bool, hasDoctype: bool, tags: seq<Tag>)

  /** What the checks before the loop refuse. */
  function Refusal(doc: Document, maxBytes: int, maxOutlineTags: int): Option<ParseError> {
    if doc.bytes > maxBytes then Some(TooLarge)
    else if !doc.hasRoot then Some(InvalidRoot)
    else if doc.hasDoctype then Some(DoctypeNotAllowed)
    else if |doc.tags| > maxOutlineTags && doc.tags != [] then Some(OutlineLimitExceeded)
    else None
  }

  function Extracted(doc: Document, maxBytes: int, maxOutlineTags: int): Result<seq<Item>, ParseError> {
    match Refusal(doc, maxBytes, maxOutlineTags)
    case Some(e) => Err(e)
    case None =>
      var end := Scan(Reading([], []), doc.tags);
      if end.Reading? && end.stack == [] then Ok(end.parsed) else Err(MalformedOutline)
  }

  method ExtractOpmlItems(doc: Document, maxBytes: int, maxOutlineTags: int) returns (r: Result<seq<Item>, ParseError>)
    ensures r == Extracted(doc, maxBytes, maxOutlineTags)
    ensures r == Err(TooLarge) <==> doc.bytes > maxBytes
    ensures r == Err(InvalidRoot) <==> doc.bytes <= maxBytes && !doc.hasRoot
    ensures r == Err(DoctypeNotAllowed) <==> doc.bytes <= maxBytes && doc.hasRoot && doc.hasDoctype
    ensures r == Err(OutlineLimitExceeded) <==>
              doc.bytes <= maxBytes && doc.hasRoot && !doc.hasDoctype && doc.tags != [] && |doc.tags| > maxOutlineTags
  {
    if doc.bytes > maxBytes {
      return Err(TooLarge);
    }
    if !doc.hasRoot {
      return Err(InvalidRoot);
    }
    if doc.hasDoctype {
      return Err(DoctypeNotAllowed);
    }
    var tags := doc.tags;
    if tags == [] {
      return Ok([]);
    }
    if |tags| > maxOutlineTags {
      return Err(OutlineLimitExceeded);
    }
    var pathStack: seq<string>, parsed: seq<Item> := [], [];
    var i := 0;
    while i < |tags|
      invariant i <= |tags|
      invariant Scan(Reading([], []), tags[..i]) == Reading(pathStack, parsed)
    {
      assert tags[..i + 1][..i] == tags[..i];
      var tag := tags[i];
      i := i + 1;
      if tag.Closing? {
        if pathStack == [] {
          StaysMalformed(Reading([], []), tags, i);
          return Err(MalformedOutline);
        }
        pathStack := pathStack[..|pathStack| - 1];
        continue;
      }
      var attributes := ParseAttributes(tag.attributes);
      var title := OrNull(Trim(First(attributes, "title", "text")));
      var xmlUrl := Trim(First(attributes, "xmlUrl", "xmlurl"));
      if xmlUrl != "" {
        var outlinePath := Trim(Join(pathStack + (if title.Some? then [title.value] else []), " / "));
        parsed := parsed + [Item(title, OrNull(outlinePath), xmlUrl)];
        continue;
      }
      if !tag.selfClosing && title.Some? {
        pathStack := pathStack + [title.value];
      }
    }
    assert tags[..i] == tags;
    r := if pathStack != [] then Err(MalformedOutline) else Ok(parsed);
  }

  lemma {:induction false} StaysMalformed(s: State, tags: seq<Tag>, i: nat)
    requires i <= |tags| && Scan(s, tags[..i]) == Malformed
    ensures Scan(s, tags) == Malformed
  {
    if i == |tags| {
      assert tags[..i] == tags;
    } else {
      assert tags[..|tags| - 1][..i] == tags[..i];
      StaysMalformed(s, tags[..|tags| - 1], i);
    }
  }

  lemma {:induction false} ScanAppend(s: State, a: seq<Tag>, b: seq<Tag>)
    ensures Scan(s, a + b) == Scan(Scan(s, a), b)
    decreases |b|
  {
    if b == [] {
      assert a + b == a;
    } else {
      assert (a + b)[..|a + b| - 1] == a + b[..|b| - 1];
      ScanAppend(s, a, b[..|b| - 1]);
    }
  }

  // ---------------------------------------------------------------- accepted tag sequences

  predicate Pushes(tag: Tag) { tag.Opening? && XmlUrlOf(tag) == "" && !tag.selfClosing && TitleOf(tag).Some? }

  /** Pushes minus pops. */
  function Depth(tags: seq<Tag>): int {
    if tags == [] then 0
    else
      var tag := tags[|tags| - 1];
      Depth(tags[..|tags| - 1]) + if Pushes(tag) then 1 else if tag.Closing? then -1 else 0
  }

  ghost predicate NeverBelow(tags: seq<Tag>) {
    forall i | 0 <= i <= |tags| :: Depth(tags[..i]) >= 0
  }

  ghost predicate Balanced(tags: seq<Tag>) { NeverBelow(tags) && Depth(tags) == 0 }

  lemma NeverBelowStep(tags: seq<Tag>)
    requires tags != []
    ensures NeverBelow(tags) <==> NeverBelow(tags[..|tags| - 1]) && Depth(tags) >= 0
  {
    hide Depth;
    var n := |tags| - 1;
    assert tags[..n + 1] == tags;
    assert forall i | 0 <= i <= n :: tags[..n][..i] == tags[..i];
    if NeverBelow(tags) {
      forall i | 0 <= i <= n ensures Depth(tags[..n][..i]) >= 0 {
        assert Depth(tags[..i]) >= 0;
      }
      assert Depth(tags[..n + 1]) >= 0;
    }
    if NeverBelow(tags[..n]) && Depth(tags) >= 0 {
      forall i | 0 <= i <= n + 1 ensures Depth(tags[..i]) >= 0 {
        if i <= n { assert Depth(tags[..n][..i]) >= 0; }
      }
    }
  }

  lemma NextDepth(s: State, tag: Tag)
    requires s.Reading?
    ensures var change := if Pushes(tag) then 1 else if tag.Closing? then -1 else 0;
            var t := Next(s, tag);
            && (t.Reading? <==> |s.stack| + change >= 0)
            && (t.Reading? ==> |t.stack| == |s.stack| + change)
  {
    hide TitleOf, XmlUrlOf, ItemAt;
  }

  lemma {:induction false} ScanDepth(tags: seq<Tag>)
    ensures var end := Scan(Reading([], []), tags);
            && (end.Reading? <==> NeverBelow(tags))
            && (end.Reading? ==> |end.stack| == Depth(tags))
  {
    if tags != [] {
      var n := |tags| - 1;
      ScanDepth(tags[..n]);
      NeverBelowStep(tags);
      var before := Scan(Reading([], []), tags[..n]);
      if before.Reading? { NextDepth(before, tags[n]); }
      hide NeverBelow, Pushes;
      assert Scan(Reading([], []), tags) == Next(before, tags[n]);
    }
  }

  /** Any tag sequence is accepted exactly when no prefix pops more than it pushed and all pushes are popped. */
  lemma AcceptedIffBalanced(tags: seq<Tag>)
    ensures var end := Scan(Reading([], []), tags); (end.Reading? && end.stack == []) <==> Balanced(tags)
  {
    ScanDepth(tags);
  }

  // ---------------------------------------------------------------- outline trees

  /** Sibling outlines: an empty-element tag, or an element with its children, then the rest. */
  datatype Forest =
    | End
    | Leaf(attributes: seq<(string, string)>, rest: Forest)
    | Element(attributes: seq<(string, string)>, children: Forest, rest: Forest)

  /** The tags a forest is written as. */
  function Tags(f: Forest): seq<Tag> {
    match f
    case End => []
    case Leaf(attributes, rest) => [Opening(attributes, true)] + Tags(rest)
    case Element(attributes, children, rest) => [Opening(attributes, false)] + Tags(children) + [Closing] + Tags(rest)
  }

  predicate IsFeed(attributes: seq<(string, string)>) { XmlUrlOf(Opening(attributes, false)) != "" }

  function Title(attributes: seq<(string, string)>): Option<string> { TitleOf(Opening(attributes, false)) }

  /** Every element with an end tag is a titled folder, not a feed. */
  predicate Importable(f: Forest) {
    match f
    case End => true
    case Leaf(_, rest) => Importable(rest)
    case Element(attributes, children, rest) =>
      !IsFeed(attributes) && Title(attributes).Some? && Importable(children) && Importable(rest)
  }

  /** The feeds in document order, each below the titles of the folders around it. */
  function Feeds(f: Forest, folders: seq<string>): seq<Item> {
    match f
    case End => []
    case Leaf(attributes, rest) =>
      (if IsFeed(attributes)
       then [Item(Title(attributes), FolderPath(WithTitle(folders, Title(attributes))), XmlUrlOf(Opening(attributes, false)))]
       else []) + Feeds(rest, folders)
    case Element(attributes, children, rest) =>
      Feeds(children, WithTitle(folders, Title(attributes))) + Feeds(rest, folders)
  }

  /** Titles joined by ` / `; no path when there are none. */
  function FolderPath(titles: seq<string>): Option<string> {
    if titles == [] then None else Some(Join(titles, " / "))
  }

  predicate Titles(path: seq<string>) {
    forall t | t in path :: t != "" && Trimmed(t)
  }

  lemma {:induction false} JoinTrimmed(path: seq<string>)
    requires Titles(path) && path != []
    ensures Join(path, " / ") != "" && Trimmed(Join(path, " / "))
  {
    assert path[0] in path;
    if |path| > 1 {
      var rest := path[1..];
      assert forall t | t in rest :: t in path;
      JoinTrimmed(rest);
      var joined := Join(path, " / ");
      assert joined[0] == path[0][0] && joined[|joined| - 1] == Join(rest, " / ")[|Join(rest, " / ")| - 1];
    }
  }

  /** The final `trim() || null` of a path never changes anything but the empty path. */
  lemma PathOf(path: seq<string>, attributes: seq<(string, string)>, selfClosing: bool)
    requires Titles(path)
    ensures ItemAt(path, Opening(attributes, selfClosing)) ==
            Item(Title(attributes), FolderPath(WithTitle(path, Title(attributes))), XmlUrlOf(Opening(attributes, false)))
    ensures Titles(WithTitle(path, Title(attributes)))
  {
    var titles := WithTitle(path, Title(attributes));
    assert Titles(titles);
    if titles != [] { JoinTrimmed(titles); }
  }

  lemma ScanElement(s: State, attributes: seq<(string, string)>, children: Forest, rest: Forest)
    ensures Scan(s, Tags(Element(attributes, children, rest))) ==
            Scan(Next(Scan(Next(s, Opening(attributes, false)), Tags(children)), Closing), Tags(rest))
  {
    hide Next;
    var tag := Opening(attributes, false);
    var tail := Tags(children) + ([Closing] + Tags(rest));
    assert Tags(Element(attributes, children, rest)) == [tag] + tail;
    ScanFirst(s, tag, tail);
    ScanAppend(Next(s, tag), Tags(children), [Closing] + Tags(rest));
    ScanFirst(Scan(Next(s, tag), Tags(children)), Closing, Tags(rest));
  }

  /** A folder's tag enters it, and the closing tag leaves it. */
  lemma EnterFolder(stack: seq<string>, parsed: seq<Item>, read: seq<Item>, attributes: seq<(string, string)>)
    requires !IsFeed(attributes) && Title(attributes).Some?
    ensures var inner := WithTitle(stack, Title(attributes));
            && Next(Reading(stack, parsed), Opening(attributes, false)) == Reading(inner, parsed)
            && Next(Reading(inner, read), Closing) == Reading(stack, read)
  {
    hide ItemAt, XmlUrlOf;
    var inner := WithTitle(stack, Title(attributes));
    assert inner[..|inner| - 1] == stack;
  }

  lemma ReadLeaf(stack: seq<string>, parsed: seq<Item>, attributes: seq<(string, string)>, rest: Forest) returns (read: seq<Item>)
    requires Titles(stack)
    ensures Next(Reading(stack, parsed), Opening(attributes, true)) == Reading(stack, parsed + read)
    ensures Feeds(Leaf(attributes, rest), stack) == read + Feeds(rest, stack)
  {
    hide ItemAt, FolderPath, WithTitle;
    PathOf(stack, attributes, true);
    read := if IsFeed(attributes) then [ItemAt(stack, Opening(attributes, true))] else [];
  }

  lemma EndReadsFeeds(stack: seq<string>, parsed: seq<Item>)
    ensures Scan(Reading(stack, parsed), Tags(End)) == Reading(stack, parsed + Feeds(End, stack))
  {
  }

  /**
    The loop over the tags of an importable forest reads exactly its feeds, in document order and
    each with its folders as path, and leaves the stack as it was.
   */
  lemma {:induction false} ScanReadsFeeds(f: Forest, stack: seq<string>, parsed: seq<Item>)
    requires Importable(f) && Titles(stack)
    ensures Scan(Reading(stack, parsed), Tags(f)) == Reading(stack, parsed + Feeds(f, stack))
  {
    hide Scan, Next, ItemAt, Title, TitleOf, XmlUrlOf, IsFeed, Feeds, FolderPath, WithTitle, Titles, Join, Trim;
    match f
    case End => EndReadsFeeds(stack, parsed);
    case Leaf(attributes, rest) =>
      var read := ReadLeaf(stack, parsed, attributes, rest);
      ScanFirst(Reading(stack, parsed), Opening(attributes, true), Tags(rest));
      ScanReadsFeeds(rest, stack, parsed + read);
      assert parsed + read + Feeds(rest, stack) == parsed + Feeds(f, stack);
    case Element(attributes, children, rest) =>
      var inner := WithTitle(stack, Title(attributes));
      TitlesInside(stack, attributes);
      ScanReadsFeeds(children, inner, parsed);
      ScanReadsFeeds(rest, stack, parsed + Feeds(children, inner));
      ElementReadsFeeds(stack, parsed, attributes, children, rest);
  }

  lemma TitlesInside(stack: seq<string>, attributes: seq<(string, string)>)
    requires Titles(stack)
    ensures Titles(WithTitle(stack, Title(attributes)))
  {
    PathOf(stack, attributes, false);
  }

  lemma FeedsOfElement(attributes: seq<(string, string)>, children: Forest, rest: Forest, folders: seq<string>)
    ensures Feeds(Element(attributes, children, rest), folders) ==
            Feeds(children, WithTitle(folders, Title(attributes))) + Feeds(rest, folders)
  {
  }

  lemma ElementReadsFeeds(stack: seq<string>, parsed: seq<Item>, attributes: seq<(string, string)>, children: Forest, rest: Forest)
    requires !IsFeed(attributes) && Title(attributes).Some?
    requires var inner := WithTitle(stack, Title(attributes));
             Scan(Reading(inner, parsed), Tags(children)) == Reading(inner, parsed + Feeds(children, inner))
    requires var read := parsed + Feeds(children, WithTitle(stack, Title(attributes)));
             Scan(Reading(stack, read), Tags(rest)) == Reading(stack, read + Feeds(rest, stack))
    ensures var f := Element(attributes, children, rest);
            Scan(Reading(stack, parsed), Tags(f)) == Reading(stack, parsed + Feeds(f, stack))
  {
    hide *;
    var inner := WithTitle(stack, Title(attributes));
    var f := Element(attributes, children, rest);
    FeedsOfElement(attributes, children, rest, stack);
    EnterFolder(stack, parsed, parsed + Feeds(children, inner), attributes);
    ScanElement(Reading(stack, parsed), attributes, children, rest);
    assert parsed + Feeds(children, inner) + Feeds(rest, stack) == parsed + Feeds(f, stack);
  }

  lemma ScanFirst(s: State, tag: Tag, tags: seq<Tag>)
    ensures Scan(s, [tag] + tags) == Scan(Next(s, tag), tags)
  {
    assert Scan(s, [tag]) == Next(Scan(s, []), tag);
    ScanAppend(s, [tag], tags);
  }

  lemma {:induction false} DepthAppend(a: seq<Tag>, b: seq<Tag>)
    ensures Depth(a + b) == Depth(a) + Depth(b)
    decreases |b|
  {
    if b == [] {
      assert a + b == a;
    } else {
      assert (a + b)[..|a + b| - 1] == a + b[..|b| - 1];
      DepthAppend(a, b[..|b| - 1]);
    }
  }

  lemma {:induction false} UnimportablePops(f: Forest)
    ensures Depth(Tags(f)) <= 0
    ensures Depth(Tags(f)) == 0 ==> Importable(f)
  {
    match f
    case End =>
    case Leaf(attributes, rest) =>
      UnimportablePops(rest);
      DepthAppend([Opening(attributes, true)], Tags(rest));
    case Element(attributes, children, rest) =>
      UnimportablePops(children);
      UnimportablePops(rest);
      var tag := Opening(attributes, false);
      DepthAppend([tag] + Tags(children) + [Closing], Tags(rest));
      DepthAppend([tag] + Tags(children), [Closing]);
      DepthAppend([tag], Tags(children));
      assert Depth([tag]) == if Pushes(tag) then 1 else 0;
      assert Depth([Closing]) == -1;
  }

  /**
    A whole document is accepted exactly when its forest is importable, and then gives its feeds;
    a feed written with an end tag makes the import fail.
   */
  lemma ImportsExactlyImportableForests(f: Forest)
    ensures var end := Scan(Reading([], []), Tags(f));
            && ((end.Reading? && end.stack == []) <==> Importable(f))
            && (Importable(f) ==> end.parsed == Feeds(f, []))
  {
    if Importable(f) {
      ScanReadsFeeds(f, [], []);
    } else {
      UnimportablePops(f);
      AcceptedIffBalanced(Tags(f));
    }
  }

  /** The same feed is imported as an empty-element tag and refused with an end tag. */
  lemma EndTagDecides(attributes: seq<(string, string)>)
    requires IsFeed(attributes)
    ensures Importable(Leaf(attributes, End)) && !Importable(Element(attributes, End, End))
    ensures Scan(Reading([], []), Tags(Element(attributes, End, End))) == Malformed
  {
    var tag := Opening(attributes, false);
    ScanFirst(Reading([], []), tag, [Closing]);
    assert Tags(Element(attributes, End, End)) == [tag] + [Closing];
    assert Scan(Next(Reading([], []), tag), [Closing]) == Next(Scan(Next(Reading([], []), tag), []), Closing);
  }
}
