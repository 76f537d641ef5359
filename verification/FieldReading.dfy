/** Reading block-style YAML mappings, by indentation: what the writer of proxies writes is read back. */
module FieldReading {
  import opened Wrappers
  import opened Text
  import opened YamlText
  import opened YamlDocument
  import opened YamlEmit

  // ---------- a reader of block mappings ----------

  /** What stands behind a key: nothing, a plain word, a quoted text, a list of texts, or a mapping. */
  datatype Node = Empty | Word(text: string) | Quoted(text: string) | Items(entries: seq<string>) | Block(fields: seq<Entry>)

  datatype Entry = Entry(key: string, node: Node)

  /** Where the lines end that are deeper than an indentation. */
  function BlockEnd(lines: seq<string>, indent: nat, k: nat): (end: nat)
    requires k <= |lines|
    ensures k <= end <= |lines|
    decreases |lines| - k
  {
    if k == |lines| || Indent(lines[k]) <= indent then k else BlockEnd(lines, indent, k + 1)
  }

  predicate IsItem(text: string) {
    |text| >= 2 && text[0] == '-' && text[1] == ' '
  }

  function ReadScalar(raw: string): Option<Node> {
    var text, value := Trim(raw), YamlValue(raw);
    if text == "" then Some(Empty)
    else if value == None then None
    else Some(if text[0] == '"' then Quoted(value.value) else Word(value.value))
  }

  function ReadItems(lines: seq<string>, indent: nat): Option<seq<string>> {
    if lines == [] then Some([])
    else
      var text := TrimStart(lines[0]);
      if Indent(lines[0]) != indent || !IsItem(text) then None
      else
        var first, rest := YamlValue(text[1..]), ReadItems(lines[1..], indent);
        if first == None || rest == None then None else Some([first.value] + rest.value)
  }

  /** The fields that lines of one indentation, and the deeper ones below them, hold; None where they cannot be read. */
  function ReadMapping(lines: seq<string>, indent: nat): Option<seq<Entry>>
    decreases |lines|, 0
  {
    if lines == [] then Some([])
    else if Indent(lines[0]) != indent then None
    else
      var end := BlockEnd(lines, indent, 1);
      Chain(ReadEntry(lines[0], lines[1..end]), ReadMapping(lines[end..], indent))
  }

  function ReadEntry(line: string, inner: seq<string>): Option<seq<Entry>>
    decreases |inner|, 2
  {
    var text := TrimStart(line);
    var raw := AfterFirst(text, ':');
    var node := if raw == None then None else ReadNode(raw.value, inner);
    if node == None then None else Some([Entry(BeforeFirst(text, ':'), node.value)])
  }

  function ReadNode(raw: string, inner: seq<string>): Option<Node>
    decreases |inner|, 1
  {
    if inner == [] then ReadScalar(raw)
    else if Trim(raw) != "" then None
    else if IsItem(TrimStart(inner[0])) then
      var items := ReadItems(inner, Indent(inner[0]));
      if items == None then None else Some(Items(items.value))
    else
      var fields := ReadMapping(inner, Indent(inner[0]));
      if fields == None then None else Some(Block(fields.value))
  }

  function Chain<T>(a: Option<seq<T>>, b: Option<seq<T>>): Option<seq<T>> {
    if a == None || b == None then None else Some(a.value + b.value)
  }

  // ---------- what fields mean ----------

  /** The fields that are to be read: those without a value and empty texts are not written, and an empty list or
      mapping has nothing behind its key. */
  function Meaning(fields: seq<Field>): seq<Entry>
    decreases fields
  {
    if fields == [] then [] else MeaningOf(fields[0]) + Meaning(fields[1..])
  }

  function MeaningOf(f: Field): seq<Entry>
    decreases f
  {
    match f.value
    case Missing => []
    case Literal(text) => [Entry(f.key, Word(text))]
    case Str(text) => if text == "" then [] else [Entry(f.key, Quoted(text))]
    case List(entries) => [Entry(f.key, if entries == [] then Empty else Items(entries))]
    case Mapping(fields) =>
      var inner := Meaning(fields);
      [Entry(f.key, if inner == [] then Empty else Block(inner))]
  }

  /** No text looks as if a comment started in it. */
  predicate AreUncommented(fields: seq<Field>) {
    forall f :: f in fields ==>
      match f.value
      case Str(text) => !LooksCommented(text)
      case List(entries) => forall e :: e in entries ==> !LooksCommented(e)
      case Mapping(inner) => AreUncommented(inner)
      case _ => true
  }

  /** Keys and literals as the decoders of links make them: of letters, digits and dashes, and not like quoted texts. */
  predicate AreLegible(fields: seq<Field>) {
    forall f :: f in fields ==>
      IsKey(f.key)
      && match f.value
         case Literal(text) => IsWord(text) && text[0] != '"' && text[0] != '\''
         case Mapping(inner) => AreLegible(inner)
         case _ => true
  }

  /** What reading some fields gives. */
  function ReadingOf(fields: seq<Field>): Option<seq<Entry>> {
    if AreUncommented(fields) then Some(Meaning(fields)) else None
  }

  // ---------- single lines ----------

  lemma {:induction false} BlockEndIs(lines: seq<string>, indent: nat, k: nat, end: nat)
    requires k <= end <= |lines| && (forall j :: k <= j < end ==> Indent(lines[j]) > indent)
    requires end < |lines| ==> Indent(lines[end]) <= indent
    ensures BlockEnd(lines, indent, k) == end
    decreases end - k
  {
    if k < end {
      BlockEndIs(lines, indent, k + 1, end);
    }
  }

  lemma {:induction false} KeyBefore(key: string, rest: string)
    requires forall k :: 0 <= k < |key| ==> KeyChar(key[k])
    ensures BeforeFirst(key + ":" + rest, ':') == key && AfterFirst(key + ":" + rest, ':') == Some(rest)
  {
    assert !KeyChar(':');
    FirstAt(key, ':', rest);
  }

  /** A line with a key: its indentation, that it is no item, and its two sides. */
  lemma KeyedLine(indent: nat, key: string, rest: string)
    requires IsKey(key)
    ensures var line := Spaces(indent) + key + ":" + rest;
      && Indent(line) == indent && !IsItem(TrimStart(line)) && IsBody(line)
      && BeforeFirst(TrimStart(line), ':') == key && AfterFirst(TrimStart(line), ':') == Some(rest)
  {
    var line, tail := Spaces(indent) + key + ":" + rest, key + ":" + rest;
    VisibleKey(key);
    hide KeyChar, IsSpace, Spaces, Indent, TrimStart, IsBody;
    assert line == Spaces(indent) + tail;
    LineWith(indent, tail);
    KeyBefore(key, rest);
    assert tail[|key|] == ':';
    assert |key| > 1 ==> tail[1] == key[1];
  }

  lemma SpacesBlank(n: nat)
    ensures forall k :: 0 <= k < n ==> IsSpace(Spaces(n)[k])
  {
  }

  lemma VisibleKey(key: string)
    requires IsKey(key)
    ensures !IsSpace(key[0]) && key[0] != '#' && forall k :: 0 <= k < |key| ==> key[k] != ' '
  {
  }

  lemma ItemLine(indent: nat, entry: string)
    ensures var line := Spaces(indent) + "- " + Quote(entry);
      && Indent(line) == indent && TrimStart(line) == "- " + Quote(entry) && IsItem(TrimStart(line)) && IsBody(line)
      && TrimStart(line)[1..] == " " + Quote(entry)
  {
    hide Quote, Spaces, Indent, IsSpace, TrimStart, IsBody;
    DashVisible();
    LineWith(indent, "- " + Quote(entry));
    Associate(Spaces(indent), "- ", Quote(entry));
    assert ("- " + Quote(entry))[1..] == " " + Quote(entry);
  }

  lemma LineWith(indent: nat, tail: string)
    requires tail != "" && !IsSpace(tail[0]) && tail[0] != '#'
    ensures Indent(Spaces(indent) + tail) == indent && TrimStart(Spaces(indent) + tail) == tail && IsBody(Spaces(indent) + tail)
  {
    SpacesBlank(indent);
    hide Spaces, IsSpace;
    var line := Spaces(indent) + tail;
    assert line[indent] == tail[0];
    IndentIs(line, indent);
    hide Indent;
    assert line[indent..] == tail;
  }

  lemma DashVisible()
    ensures !IsSpace('-')
  {
  }

  lemma ScalarRead(text: string)
    ensures ReadScalar(" " + Quote(text)) == if LooksCommented(text) then None else Some(Quoted(text))
  {
    QuotedReadBack(text);
    QuoteShape(text);
    hide Quote, YamlValue, LooksCommented;
    TrimAfterSpace(Quote(text));
  }

  lemma WordRead(text: string)
    requires IsWord(text) && text[0] != '"' && text[0] != '\''
    ensures ReadScalar(" " + text) == Some(Word(text))
  {
    TrimAfterSpace(text);
    NoSpaceHash(text);
    StripNothing(text);
    hide Trim, StripComment;
  }

  lemma {:induction false} NoSpaceHash(text: string)
    requires forall k :: 0 <= k < |text| ==> !IsSpace(text[k])
    ensures !SpaceHash(text)
  {
    hide IsSpace;
    if |text| >= 2 {
      NoSpaceHash(text[1..]);
    }
  }

  lemma NothingRead()
    ensures ReadScalar("") == Some(Empty) && Trim("") == ""
  {
  }

  // ---------- lists ----------

  lemma {:induction false} ItemsRead(entries: seq<string>, indent: nat)
    ensures ReadItems(EntryLines(entries, indent), indent)
      == if forall e :: e in entries ==> !LooksCommented(e) then Some(entries) else None
    ensures forall k :: 0 <= k < |EntryLines(entries, indent)| ==>
      Indent(EntryLines(entries, indent)[k]) == indent && IsBody(EntryLines(entries, indent)[k])
    ensures |EntryLines(entries, indent)| == |entries|
    ensures entries != [] ==> IsItem(TrimStart(EntryLines(entries, indent)[0]))
  {
    hide Quote, YamlValue, LooksCommented, TrimStart, IsItem, IsBody;
    if entries != [] {
      ItemsRead(entries[1..], indent);
      ItemLine(indent, entries[0]);
      QuotedReadBack(entries[0]);
      assert entries == [entries[0]] + entries[1..];
    }
  }

  // ---------- mappings ----------

  lemma {:induction false} LinesHead(fields: seq<Field>, indent: nat)
    requires fields != []
    ensures MappingLines(fields, indent) == FieldLines(fields[0], indent) + MappingLines(fields[1..], indent)
  {
    hide FieldLines;
    var n := |fields| - 1;
    if n == 0 {
      assert fields[..0] == [] && fields[1..] == [];
      assert [] + FieldLines(fields[0], indent) == FieldLines(fields[0], indent) + [];
    } else {
      LinesHead(fields[..n], indent);
      assert fields[..n][1..] == fields[1..][..n - 1] && fields[1..][n - 1] == fields[n] && fields[..n][0] == fields[0];
      Associate(FieldLines(fields[0], indent), MappingLines(fields[1..][..n - 1], indent), FieldLines(fields[n], indent));
    }
  }

  /** The first line, if there is one, has the indentation of the mapping and a key; all lines are at least as deep. */
  ghost predicate IsBlockAt(lines: seq<string>, indent: nat) {
    && (lines != [] ==> Indent(lines[0]) == indent && !IsItem(TrimStart(lines[0])))
    && forall k :: 0 <= k < |lines| ==> Indent(lines[k]) >= indent && IsBody(lines[k])
  }

  lemma {:induction false} BlockShape(fields: seq<Field>, indent: nat)
    requires AreLegible(fields)
    ensures IsBlockAt(MappingLines(fields, indent), indent)
    decreases fields
  {
    hide IsItem, TrimStart, FieldLines, IsBody;
    if fields != [] {
      var n := |fields| - 1;
      BlockShape(fields[..n], indent);
      assert fields[n] in fields;
      FieldShape(fields[n], indent);
    }
  }

  lemma {:induction false} FieldShape(f: Field, indent: nat)
    requires AreLegible([f])
    ensures IsBlockAt(FieldLines(f, indent), indent)
    decreases f
  {
    hide Quote, Spaces, IsItem, TrimStart, IsKey, IsBody, Indent, EntryLines, MappingLines, AreLegible, IsBlockAt;
    LegibleOne(f);
    NoBlock(indent);
    match f.value {
      case Missing =>
      case Literal(text) =>
        OneLine(indent, f.key, text);
        Headed(FieldLines(f, indent)[0], [], indent);
      case Str(text) =>
        OneLine(indent, f.key, Quote(text));
        if text != "" {
          Headed(FieldLines(f, indent)[0], [], indent);
        }
      case List(entries) =>
        OneLine(indent, f.key, "");
        ItemsRead(entries, indent + 2);
        Headed(FieldLines(f, indent)[0], EntryLines(entries, indent + 2), indent);
      case Mapping(fields) =>
        OneLine(indent, f.key, "");
        BlockShape(fields, indent + 2);
        BlockDeeper(MappingLines(fields, indent + 2), indent + 2);
        Headed(FieldLines(f, indent)[0], MappingLines(fields, indent + 2), indent);
    }
  }

  lemma NoBlock(indent: nat)
    ensures IsBlockAt([], indent)
  {
  }

  lemma BlockDeeper(lines: seq<string>, indent: nat)
    requires IsBlockAt(lines, indent)
    ensures forall k :: 0 <= k < |lines| ==> Indent(lines[k]) >= indent && IsBody(lines[k])
  {
    hide IsBody, IsItem, TrimStart, Indent;
  }

  lemma Headed(line: string, inner: seq<string>, indent: nat)
    requires Indent(line) == indent && !IsItem(TrimStart(line)) && IsBody(line)
    requires forall k :: 0 <= k < |inner| ==> Indent(inner[k]) >= indent && IsBody(inner[k])
    ensures IsBlockAt([line] + inner, indent)
    ensures [line] + [] == [line]
  {
    hide IsBody, IsItem, TrimStart, Indent;
  }

  lemma OneLine(indent: nat, key: string, text: string)
    requires IsKey(key)
    ensures var line := Spaces(indent) + key + ": " + text;
      && Indent(line) == indent && !IsItem(TrimStart(line)) && IsBody(line)
      && BeforeFirst(TrimStart(line), ':') == key && AfterFirst(TrimStart(line), ':') == Some(" " + text)
    ensures var line := Spaces(indent) + key + ":";
      && Indent(line) == indent && !IsItem(TrimStart(line)) && IsBody(line)
      && BeforeFirst(TrimStart(line), ':') == key && AfterFirst(TrimStart(line), ':') == Some("")
  {
    KeyedLine(indent, key, " " + text);
    KeyedLine(indent, key, "");
    hide Spaces, IsBody;
    assert Spaces(indent) + key + ": " + text == Spaces(indent) + key + ":" + (" " + text);
    assert Spaces(indent) + key + ":" + "" == Spaces(indent) + key + ":";
  }

  /** Lines of one field in front of others of its indentation. */
  lemma EntryThen(line: string, inner: seq<string>, rest: seq<string>, indent: nat)
    requires Indent(line) == indent && (forall k :: 0 <= k < |inner| ==> Indent(inner[k]) > indent)
    requires rest != [] ==> Indent(rest[0]) == indent
    ensures ReadMapping([line] + inner + rest, indent) == Chain(ReadEntry(line, inner), ReadMapping(rest, indent))
  {
    hide Indent, ReadEntry;
    var lines := [line] + inner + rest;
    var end := 1 + |inner|;
    assert forall k :: 1 <= k < end ==> lines[k] == inner[k - 1];
    assert end < |lines| ==> lines[end] == rest[0];
    BlockEndIs(lines, indent, 1, end);
    assert lines[1..end] == inner && lines[end..] == rest;
  }

  lemma {:induction false} FieldThen(f: Field, indent: nat, rest: seq<string>)
    requires AreLegible([f]) && (rest != [] ==> Indent(rest[0]) == indent)
    ensures ReadMapping(FieldLines(f, indent) + rest, indent) == Chain(ReadingOf([f]), ReadMapping(rest, indent))
    decreases f, 1
  {
    hide FieldLines, ReadMapping, ReadEntry, ReadingOf, AreLegible, Chain, Indent;
    if FieldLines(f, indent) == [] {
      NothingWritten(f, indent);
      ChainNothing(rest, indent);
    } else {
      var line, inner := FieldLines(f, indent)[0], FieldLines(f, indent)[1..];
      FieldShape(f, indent);
      BlockHead(FieldLines(f, indent), indent);
      FieldRead(f, indent);
      assert FieldLines(f, indent) + rest == [line] + inner + rest;
      EntryThen(line, inner, rest, indent);
    }
  }

  lemma BlockHead(lines: seq<string>, indent: nat)
    requires IsBlockAt(lines, indent) && lines != []
    ensures Indent(lines[0]) == indent
  {
  }

  lemma NothingWritten(f: Field, indent: nat)
    requires FieldLines(f, indent) == []
    ensures ReadingOf([f]) == Some([])
  {
    hide Quote, LooksCommented;
    SingleMeaning(f);
    assert f in [f];
    ShortUncommented();
  }

  lemma ShortUncommented()
    ensures !LooksCommented("")
  {
  }

  lemma SingleMeaning(f: Field)
    ensures Meaning([f]) == MeaningOf(f)
  {
    hide MeaningOf;
    assert [f][1..] == [];
    assert MeaningOf(f) + [] == MeaningOf(f);
  }

  lemma ChainNothing(rest: seq<string>, indent: nat)
    ensures [] + rest == rest && Chain(Some([]), ReadMapping(rest, indent)) == ReadMapping(rest, indent)
  {
    hide ReadMapping;
    var r := ReadMapping(rest, indent);
    if r.Some? {
      assert [] + r.value == r.value;
    }
  }

  /** The lines of a field are read as what it means. */
  lemma {:induction false} FieldRead(f: Field, indent: nat)
    requires AreLegible([f]) && FieldLines(f, indent) != []
    ensures forall k :: 1 <= k < |FieldLines(f, indent)| ==> Indent(FieldLines(f, indent)[k]) > indent
    ensures ReadEntry(FieldLines(f, indent)[0], FieldLines(f, indent)[1..]) == ReadingOf([f])
    decreases f, 0
  {
    hide Quote, Spaces, IsItem, TrimStart, IsKey, LooksCommented, ReadScalar, ReadItems, ReadMapping, Trim, IsWord, EntryLines, MappingLines,
         IsBody, ReadEntry, ReadNode, Meaning, AreUncommented, ReadingOf;
    LegibleOne(f);
    ReadingOfOne(f);
    match f.value {
      case Missing =>
      case Literal(text) =>
        OneLine(indent, f.key, text);
        WordRead(text);
        assert FieldLines(f, indent)[1..] == [];
        EntryRead(FieldLines(f, indent)[0], f.key, " " + text, []);
        NodeAlone(" " + text);
      case Str(text) =>
        OneLine(indent, f.key, Quote(text));
        ScalarRead(text);
        assert FieldLines(f, indent)[1..] == [];
        EntryRead(FieldLines(f, indent)[0], f.key, " " + Quote(text), []);
        NodeAlone(" " + Quote(text));
      case List(entries) =>
        OneLine(indent, f.key, "");
        ListRead(entries, indent + 2);
        assert FieldLines(f, indent)[1..] == EntryLines(entries, indent + 2);
        EntryRead(FieldLines(f, indent)[0], f.key, "", EntryLines(entries, indent + 2));
      case Mapping(fields) =>
        OneLine(indent, f.key, "");
        BlockShape(fields, indent + 2);
        FieldsRead(fields, indent + 2);
        InnerMeaning(fields, indent + 2);
        BlockRead(fields, indent + 2);
        assert FieldLines(f, indent)[1..] == MappingLines(fields, indent + 2);
        EntryRead(FieldLines(f, indent)[0], f.key, "", MappingLines(fields, indent + 2));
    }
  }

  lemma LegibleOne(f: Field)
    requires AreLegible([f])
    ensures IsKey(f.key)
    ensures f.value.Literal? ==> IsWord(f.value.text) && f.value.text[0] != '"' && f.value.text[0] != '\''
    ensures f.value.Mapping? ==> AreLegible(f.value.fields)
  {
    hide IsKey, IsWord;
    assert f in [f];
  }

  lemma NodeAlone(raw: string)
    ensures ReadNode(raw, []) == ReadScalar(raw)
  {
  }

  lemma EntryRead(line: string, key: string, raw: string, inner: seq<string>)
    requires BeforeFirst(TrimStart(line), ':') == key && AfterFirst(TrimStart(line), ':') == Some(raw)
    ensures ReadEntry(line, inner) == if ReadNode(raw, inner) == None then None else Some([Entry(key, ReadNode(raw, inner).value)])
  {
    hide ReadNode, TrimStart;
  }

  lemma ReadingOfOne(f: Field)
    ensures ReadingOf([f]) ==
      match f.value
      case Missing => Some([])
      case Literal(text) => Some([Entry(f.key, Word(text))])
      case Str(text) => if text == "" then Some([]) else if LooksCommented(text) then None else Some([Entry(f.key, Quoted(text))])
      case List(entries) =>
        if forall e :: e in entries ==> !LooksCommented(e)
        then Some([Entry(f.key, if entries == [] then Empty else Items(entries))]) else None
      case Mapping(fields) =>
        if AreUncommented(fields) then Some([Entry(f.key, if Meaning(fields) == [] then Empty else Block(Meaning(fields)))]) else None
  {
    hide LooksCommented;
    SingleMeaning(f);
    ShortUncommented();
    assert f in [f];
  }

  lemma ListRead(entries: seq<string>, indent: nat)
    ensures ReadNode("", EntryLines(entries, indent)) ==
      if forall e :: e in entries ==> !LooksCommented(e) then Some(if entries == [] then Empty else Items(entries)) else None
    ensures forall k :: 0 <= k < |EntryLines(entries, indent)| ==> Indent(EntryLines(entries, indent)[k]) == indent
  {
    hide Quote, IsItem, TrimStart, LooksCommented, ReadScalar, ReadItems, ReadMapping, Trim, EntryLines, IsBody;
    NothingRead();
    ItemsRead(entries, indent);
  }

  lemma BlockRead(fields: seq<Field>, indent: nat)
    requires IsBlockAt(MappingLines(fields, indent), indent)
    requires ReadMapping(MappingLines(fields, indent), indent) == ReadingOf(fields)
    requires MappingLines(fields, indent) == [] <==> Meaning(fields) == []
    requires MappingLines(fields, indent) == [] ==> AreUncommented(fields)
    ensures ReadNode("", MappingLines(fields, indent)) ==
      if AreUncommented(fields) then Some(if Meaning(fields) == [] then Empty else Block(Meaning(fields))) else None
  {
    hide IsItem, TrimStart, ReadScalar, ReadItems, ReadMapping, Trim, MappingLines, Meaning, AreUncommented, IsBody;
    NothingRead();
  }

  /** Something is written exactly if something is meant. */
  lemma {:induction false} InnerMeaning(fields: seq<Field>, indent: nat)
    requires AreLegible(fields)
    ensures MappingLines(fields, indent) == [] <==> Meaning(fields) == []
    ensures MappingLines(fields, indent) == [] ==> AreUncommented(fields)
    decreases fields
  {
    hide FieldLines, LooksCommented;
    if fields != [] {
      LinesHead(fields, indent);
      InnerMeaning(fields[1..], indent);
      WrittenIsMeant(fields[0], indent);
    }
  }

  lemma WrittenIsMeant(f: Field, indent: nat)
    ensures FieldLines(f, indent) == [] <==> MeaningOf(f) == []
    ensures FieldLines(f, indent) == [] ==> AreUncommented([f])
  {
    hide Quote, LooksCommented, EntryLines, MappingLines;
    ShortUncommented();
  }

  /** The fields that are written are read back, in their order; that is refused exactly where some text looks
      commented. */
  lemma {:induction false} FieldsRead(fields: seq<Field>, indent: nat)
    requires AreLegible(fields)
    ensures ReadMapping(MappingLines(fields, indent), indent) == ReadingOf(fields)
    decreases fields, 2
  {
    hide ReadMapping, FieldLines;
    if fields == [] {
      NoFields(indent);
    } else {
      var f, rest := fields[0], fields[1..];
      assert f in fields && fields == [f] + rest;
      LinesHead(fields, indent);
      FieldsRead(rest, indent);
      BlockShape(rest, indent);
      FieldThen(f, indent, MappingLines(rest, indent));
      ReadingChain(f, rest);
    }
  }

  lemma NoFields(indent: nat)
    ensures ReadMapping(MappingLines([], indent), indent) == ReadingOf([])
  {
  }

  lemma ReadingChain(f: Field, rest: seq<Field>)
    ensures ReadingOf([f] + rest) == Chain(ReadingOf([f]), ReadingOf(rest))
  {
    hide MeaningOf, LooksCommented;
    SingleMeaning(f);
    assert ([f] + rest)[1..] == rest;
    assert Meaning([f] + rest) == MeaningOf(f) + Meaning(rest);
    hide Meaning;
    assert f in [f];
  }
}
