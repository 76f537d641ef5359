/** Reading the items of a block-style YAML list, or the entries of a mapping, one by one: each as far as it can be
    read, whatever the others are like. */
module ListReading {
  import opened Wrappers
  import opened Text
  import opened YamlText
  import opened YamlDocument
  import opened YamlEmit
  import opened YamlFragment
  import opened YamlRoutes
  import opened MergeRouting
  import opened FieldReading

  // ---------- parts ----------

  datatype Kind = AtItems | AtKeys

  /** Whether a line begins a part: an item, or a key, of the indentation. */
  predicate Begins(kind: Kind, indent: nat, line: string) {
    if kind == AtItems then ItemIndent(line) == Some(indent) else Indent(line) == indent
  }

  function PartEnd(kind: Kind, indent: nat, lines: seq<string>, k: nat): (end: nat)
    requires k <= |lines|
    ensures k <= end <= |lines|
    decreases |lines| - k
  {
    if k == |lines| || Begins(kind, indent, lines[k]) then k else PartEnd(kind, indent, lines, k + 1)
  }

  function Parts(kind: Kind, indent: nat, lines: seq<string>): seq<seq<string>>
    decreases |lines|
  {
    if lines == [] then []
    else if !Begins(kind, indent, lines[0]) then Parts(kind, indent, lines[1..])
    else
      var end := PartEnd(kind, indent, lines, 1);
      [lines[..end]] + Parts(kind, indent, lines[end..])
  }

  lemma {:induction false} PartEndIs(kind: Kind, indent: nat, lines: seq<string>, k: nat, end: nat)
    requires k <= end <= |lines| && (forall j :: k <= j < end ==> !Begins(kind, indent, lines[j]))
    requires end < |lines| ==> Begins(kind, indent, lines[end])
    ensures PartEnd(kind, indent, lines, k) == end
    decreases end - k
  {
    hide Begins;
    if k < end {
      PartEndIs(kind, indent, lines, k + 1, end);
    }
  }

  lemma {:induction false} PartEndFound(kind: Kind, indent: nat, lines: seq<string>, k: nat)
    requires k <= |lines|
    ensures var end := PartEnd(kind, indent, lines, k);
      && (forall j :: k <= j < end ==> !Begins(kind, indent, lines[j]))
      && (end < |lines| ==> Begins(kind, indent, lines[end]))
    decreases |lines| - k
  {
    hide Begins;
    if k < |lines| && !Begins(kind, indent, lines[k]) {
      PartEndFound(kind, indent, lines, k + 1);
    }
  }

  /** Lines that begin a part are parts of their own behind others. */
  lemma {:induction false} PartsAppend(kind: Kind, indent: nat, a: seq<string>, b: seq<string>)
    requires b != [] ==> Begins(kind, indent, b[0])
    ensures Parts(kind, indent, a + b) == Parts(kind, indent, a) + Parts(kind, indent, b)
    decreases |a|
  {
    hide Begins;
    if a == [] {
      assert a + b == b;
    } else if !Begins(kind, indent, a[0]) {
      assert (a + b)[1..] == a[1..] + b;
      PartsAppend(kind, indent, a[1..], b);
    } else {
      var end := PartEnd(kind, indent, a, 1);
      PartEndFound(kind, indent, a, 1);
      assert forall j :: 0 <= j < |a| ==> (a + b)[j] == a[j];
      assert end < |a + b| ==> Begins(kind, indent, (a + b)[end]);
      PartEndIs(kind, indent, a + b, 1, end);
      assert (a + b)[..end] == a[..end] && (a + b)[end..] == a[end..] + b;
      PartsAppend(kind, indent, a[end..], b);
      Associate([a[..end]], Parts(kind, indent, a[end..]), Parts(kind, indent, b));
    }
  }

  lemma OnePart(kind: Kind, indent: nat, lines: seq<string>)
    requires lines != [] && Begins(kind, indent, lines[0])
    requires forall k :: 1 <= k < |lines| ==> !Begins(kind, indent, lines[k])
    ensures Parts(kind, indent, lines) == [lines]
  {
    hide Begins;
    PartEndIs(kind, indent, lines, 1, |lines|);
    assert lines[..|lines|] == lines && lines[|lines|..] == [];
  }

  // ---------- reading the parts ----------

  /** An item without its dash: the rest of the line is the first line of a deeper mapping. */
  function Undashed(line: string): string {
    var n := Indent(line);
    if n < |line| then Spaces(n + 1) + line[n + 1..] else line
  }

  function ReadPart(kind: Kind, part: seq<string>): Option<seq<Entry>> {
    if part == [] then None
    else if kind == AtKeys then ReadEntry(part[0], part[1..])
    else ReadMapping([Undashed(part[0])] + part[1..], Indent(Undashed(part[0])))
  }

  function ReadEach(kind: Kind, parts: seq<seq<string>>): seq<Option<seq<Entry>>> {
    seq(|parts|, k requires 0 <= k < |parts| => ReadPart(kind, parts[k]))
  }

  /** What the parts of some lines hold, each where it can be read. */
  function ReadParts(kind: Kind, indent: nat, lines: seq<string>): seq<Option<seq<Entry>>> {
    ReadEach(kind, Parts(kind, indent, lines))
  }

  lemma ReadAppend(kind: Kind, indent: nat, a: seq<string>, b: seq<string>)
    requires b != [] ==> Begins(kind, indent, b[0])
    ensures ReadParts(kind, indent, a + b) == ReadParts(kind, indent, a) + ReadParts(kind, indent, b)
  {
    hide Begins, ReadPart, Parts;
    PartsAppend(kind, indent, a, b);
  }

  lemma ReadNothing(kind: Kind, indent: nat)
    ensures ReadParts(kind, indent, []) == []
  {
  }

  // ---------- proxies ----------

  /** What a proxy is to be read as: its name, also an empty one, and its fields. */
  function ProxyReading(p: Proxy): Option<seq<Entry>> {
    if LooksCommented(p.name) then None else Chain(Some([Entry("name", Quoted(p.name))]), ReadingOf(p.fields))
  }

  function ProxyReadings(proxies: seq<Proxy>): seq<Option<seq<Entry>>> {
    seq(|proxies|, k requires 0 <= k < |proxies| => ProxyReading(proxies[k]))
  }

  /** The first line of an item, read as the first line of its mapping. */
  lemma NameUndashed(name: string, indent: nat)
    ensures ItemIndent(NameLine(name, indent)) == Some(indent) && IsBody(NameLine(name, indent))
    ensures Undashed(NameLine(name, indent)) == Spaces(indent + 2) + "name" + ": " + Quote(name)
  {
    hide Quote, IsSpace, Spaces, TrimStart, IsBody, ItemIndent;
    var line, tail := NameLine(name, indent), "- name: " + Quote(name);
    assert line == Spaces(indent) + tail;
    DashVisible();
    LineWith(indent, tail);
    hide Indent;
    DashedItem(line, indent);
    assert line[indent + 1..] == " name: " + Quote(name);
    SpacesNext(indent + 1);
    NameMoved(Spaces(indent + 1), Quote(name));
  }

  lemma NameMoved(blank: string, quoted: string)
    ensures blank + (" name: " + quoted) == blank + " " + "name" + ": " + quoted
  {
    assert " name: " + quoted == " " + ("name" + (": " + quoted));
  }

  lemma DashedItem(line: string, indent: nat)
    requires Indent(line) == indent && indent + 1 < |line| && line[indent] == '-' && line[indent + 1] == ' '
    ensures ItemIndent(line) == Some(indent)
  {
  }

  lemma SpacesNext(n: nat)
    ensures Spaces(n) + " " == Spaces(n + 1)
  {
    var a, b := Spaces(n) + " ", Spaces(n + 1);
    assert |a| == |b|;
    assert forall k :: 0 <= k < |a| ==> a[k] == b[k];
  }

  lemma DeeperNoItem(lines: seq<string>, indent: nat)
    requires forall k :: 0 <= k < |lines| ==> Indent(lines[k]) > indent
    ensures forall k :: 0 <= k < |lines| ==> !Begins(AtItems, indent, lines[k]) && !Begins(AtKeys, indent, lines[k])
  {
  }

  /** A written proxy is one item, and it is read as its name and fields. */
  lemma ProxyRead(p: Proxy, indent: nat)
    requires AreLegible(p.fields)
    ensures ReadParts(AtItems, indent, ProxyLines(p, indent)) == [ProxyReading(p)]
    ensures ItemIndent(ProxyLines(p, indent)[0]) == Some(indent)
    ensures forall k :: 0 <= k < |ProxyLines(p, indent)| ==> IsBody(ProxyLines(p, indent)[k])
  {
    hide Quote, IsBody, Spaces, ReadMapping, ReadEntry, MappingLines, NameLine, ItemIndent, Undashed, ReadScalar, LooksCommented, IsItem,
         TrimStart, Indent, ReadingOf, Parts;
    var line, inner := NameLine(p.name, indent), MappingLines(p.fields, indent + 2);
    var first := Undashed(line);
    NameUndashed(p.name, indent);
    BlockShape(p.fields, indent + 2);
    FieldsRead(p.fields, indent + 2);
    NameKey();
    OneLine(indent + 2, "name", Quote(p.name));
    ScalarRead(p.name);
    NodeAlone(" " + Quote(p.name));
    EntryRead(first, "name", " " + Quote(p.name), []);
    DeeperNoItem(inner, indent);
    assert ProxyLines(p, indent) == [line] + inner && ([line] + inner)[1..] == inner;
    OnePart(AtItems, indent, [line] + inner);
    EntryThen(first, [], inner, indent + 2);
    assert [first] + [] + inner == [first] + inner;
  }

  lemma NameKey()
    ensures IsKey("name")
  {
  }

  ghost predicate AllLegible(proxies: seq<Proxy>) {
    forall k :: 0 <= k < |proxies| ==> AreLegible(proxies[k].fields)
  }

  lemma {:induction false} ProxiesRead(proxies: seq<Proxy>, indent: nat)
    requires AllLegible(proxies)
    ensures ReadParts(AtItems, indent, ListLines(proxies, indent)) == ProxyReadings(proxies)
    ensures proxies != [] ==> ListLines(proxies, indent) != [] && ItemIndent(ListLines(proxies, indent)[0]) == Some(indent)
    ensures forall k :: 0 <= k < |ListLines(proxies, indent)| ==> IsBody(ListLines(proxies, indent)[k])
  {
    hide IsBody, ReadParts, ProxyLines, ItemIndent, ProxyReading, AreLegible;
    if proxies == [] {
      ReadNothing(AtItems, indent);
    } else {
      var n := |proxies| - 1;
      ProxiesRead(proxies[..n], indent);
      ProxyRead(proxies[n], indent);
      ProxyLinesSome(proxies[n], indent);
      ReadAppend(AtItems, indent, ListLines(proxies[..n], indent), ProxyLines(proxies[n], indent));
    }
  }

  lemma ProxyLinesSome(p: Proxy, indent: nat)
    ensures ProxyLines(p, indent) != []
  {
  }

  // ---------- groups ----------

  /** A new group, as a list item: the old target and the links, or the providers, are its members. */
  function GroupItem(name: string, target: string, mode: SourceMode, names: seq<string>): Proxy {
    Proxy(name,
          if mode == Links then [Field("type", Literal("select")), Field("proxies", List([target] + names))]
          else [Field("type", Literal("select")), Field("proxies", List([target])), Field("use", List(names))])
  }

  /** The lines of a new group are those of such an item. */
  lemma GroupIsItem(indent: nat, name: string, target: string, mode: SourceMode, names: seq<string>)
    ensures GroupLines(indent, name, target, mode, names) == ProxyLines(GroupItem(name, target, mode, names), indent)
    ensures AreLegible(GroupItem(name, target, mode, names).fields)
  {
    KeysOfGroup();
    var fields := GroupItem(name, target, mode, names).fields;
    var n := indent + 2;
    hide Quote, NameLine, Spaces, FieldLines, EntryLines;
    assert MappingLines(fields, n) == FieldLines(fields[0], n) + FieldLines(fields[1], n)
      + (if mode == Links then [] else FieldLines(fields[2], n)) by {
      ThreeFields(fields, n);
    }
    GroupFields(n, target, names);
    assert [NameLine(name, indent)] + MappingLines(fields, n) == ProxyLines(GroupItem(name, target, mode, names), indent);
  }

  lemma ThreeFields(fields: seq<Field>, n: nat)
    requires 2 <= |fields| <= 3
    ensures MappingLines(fields, n) == FieldLines(fields[0], n) + FieldLines(fields[1], n)
      + (if |fields| == 2 then [] else FieldLines(fields[2], n))
  {
    hide FieldLines;
    var two := fields[..2];
    assert two[..1] == [fields[0]] && [fields[0]][..0] == [] && fields[..|fields| - 1] == if |fields| == 3 then two else [fields[0]];
    assert MappingLines([fields[0]], n) == FieldLines(fields[0], n);
    assert MappingLines(two, n) == FieldLines(fields[0], n) + FieldLines(fields[1], n);
    assert |fields| == 2 ==> fields == two;
  }

  lemma GroupFields(n: nat, target: string, names: seq<string>)
    ensures FieldLines(Field("type", Literal("select")), n) == [Spaces(n) + "type: select"]
    ensures FieldLines(Field("proxies", List([target])), n) == [Spaces(n) + "proxies:", Spaces(n + 2) + "- " + Quote(target)]
    ensures FieldLines(Field("proxies", List([target] + names)), n)
      == [Spaces(n) + "proxies:", Spaces(n + 2) + "- " + Quote(target)] + EntryLines(names, n + 2)
    ensures FieldLines(Field("use", List(names)), n) == [Spaces(n) + "use:"] + EntryLines(names, n + 2)
  {
    hide Quote;
    assert ([target] + names)[1..] == names && [target][1..] == [];
    assert EntryLines([target], n + 2) == [Spaces(n + 2) + "- " + Quote(target)];
    assert EntryLines([target] + names, n + 2) == [Spaces(n + 2) + "- " + Quote(target)] + EntryLines(names, n + 2);
    hide Spaces, EntryLines;
    assert Spaces(n) + "type" + ": " + "select" == Spaces(n) + "type: select";
    assert Spaces(n) + "proxies" + ":" == Spaces(n) + "proxies:" && Spaces(n) + "use" + ":" == Spaces(n) + "use:";
  }

  lemma KeysOfGroup()
    ensures IsKey("type") && IsKey("proxies") && IsKey("use") && IsWord("select")
  {
  }

  // ---------- providers ----------

  /** A provider: its url and where it is kept. */
  function ProviderField(name: string, url: string): Field {
    Field(name, Mapping([Field("type", Literal("http")), Field("url", Str(url)),
                         Field("path", Literal("./proxy-providers/" + name + ".yaml")),
                         Field("interval", Literal("3600")), Field("format", Literal("uri"))]))
  }

  function ProviderReadings(names: seq<string>, urls: seq<string>): seq<Option<seq<Entry>>>
    requires |names| <= |urls|
  {
    seq(|names|, k requires 0 <= k < |names| => ReadingOf([ProviderField(names[k], urls[k])]))
  }

  /** The lines of a provider are those of such a field. */
  lemma ProviderIsField(name: string, url: string, shift: nat)
    requires url != ""
    ensures Shifted(ProviderLines(name, url), shift) == FieldLines(ProviderField(name, url), shift + 2)
  {
    var f := ProviderField(name, url);
    var fields := f.value.fields;
    ProviderIsWritten(name, url);
    hide ProviderField, ProviderLines, FieldLines, Shifted;
    ShiftedField(f, 2, shift);
  }

  lemma ProviderIsWritten(name: string, url: string)
    requires url != ""
    ensures ProviderLines(name, url) == FieldLines(ProviderField(name, url), 2)
  {
    hide Quote, Spaces, FieldLines;
    var f := ProviderField(name, url);
    FiveFields(f.value.fields);
    hide MappingLines;
    FixedFields();
    PathField(name);
    UrlField(url);
    KeyOfProvider(f);
  }

  lemma FixedFields()
    ensures FieldLines(Field("type", Literal("http")), 4) == [Spaces(4) + "type: http"]
    ensures FieldLines(Field("interval", Literal("3600")), 4) == [Spaces(4) + "interval: 3600"]
    ensures FieldLines(Field("format", Literal("uri")), 4) == [Spaces(4) + "format: uri"]
  {
    hide Spaces;
    assert Spaces(4) + "type" + ": " + "http" == Spaces(4) + "type: http";
    assert Spaces(4) + "interval" + ": " + "3600" == Spaces(4) + "interval: 3600";
    assert Spaces(4) + "format" + ": " + "uri" == Spaces(4) + "format: uri";
  }

  lemma PathField(name: string)
    ensures FieldLines(Field("path", Literal("./proxy-providers/" + name + ".yaml")), 4)
      == [Spaces(4) + ("path: ./proxy-providers/" + name + ".yaml")]
  {
    hide Spaces;
    var path := "./proxy-providers/" + name + ".yaml";
    assert "path: " + path == "path: ./proxy-providers/" + name + ".yaml";
    assert Spaces(4) + "path" + ": " + path == Spaces(4) + ("path: " + path);
  }

  lemma KeyOfProvider(f: Field)
    requires f.value.Mapping?
    ensures FieldLines(f, 2) == [Spaces(2) + f.key + ":"] + MappingLines(f.value.fields, 4)
  {
  }

  lemma UrlField(url: string)
    requires url != ""
    ensures FieldLines(Field("url", Str(url)), 4) == [Spaces(4) + "url: " + Quote(url)]
  {
    hide Spaces, Quote;
    assert Spaces(4) + "url" + ": " + Quote(url) == Spaces(4) + "url: " + Quote(url);
  }

  lemma FiveFields(fields: seq<Field>)
    requires |fields| == 5
    ensures MappingLines(fields, 4) == FieldLines(fields[0], 4) + FieldLines(fields[1], 4) + FieldLines(fields[2], 4)
      + FieldLines(fields[3], 4) + FieldLines(fields[4], 4)
  {
    hide FieldLines;
    assert fields[..4][..3] == fields[..3] && fields[..3][..2] == fields[..2];
    ThreeFields(fields[..3], 4);
  }

  lemma {:induction false} ProviderListRead(names: seq<string>, urls: seq<string>, shift: nat)
    requires |names| <= |urls| && forall k :: 0 <= k < |names| ==> IsKey(names[k]) && urls[k] != ""
    ensures ReadParts(AtKeys, shift + 2, Shifted(ProviderList(names, urls), shift)) == ProviderReadings(names, urls)
    ensures var lines := Shifted(ProviderList(names, urls), shift);
      && (forall k :: 0 <= k < |lines| ==> IsBody(lines[k]))
      && (names != [] ==> lines != [] && Indent(lines[0]) == shift + 2)
  {
    hide IsBody, ReadParts, ProviderLines, ProviderField, Indent, IsKey, ReadingOf;
    if names == [] {
      ReadNothing(AtKeys, shift + 2);
      ShiftedNothing(shift);
    } else {
      var n := |names| - 1;
      ProviderListRead(names[..n], urls, shift);
      ProviderRead(names[n], urls[n], shift);
      ShiftedAppend(ProviderList(names[..n], urls), ProviderLines(names[n], urls[n]), shift);
      hide Shifted;
      ReadAppend(AtKeys, shift + 2, Shifted(ProviderList(names[..n], urls), shift), Shifted(ProviderLines(names[n], urls[n]), shift));
    }
  }

  /** A written provider is one entry of the mapping of providers. */
  lemma ProviderRead(name: string, url: string, shift: nat)
    requires IsKey(name) && url != ""
    ensures ReadParts(AtKeys, shift + 2, Shifted(ProviderLines(name, url), shift)) == [ReadingOf([ProviderField(name, url)])]
    ensures var lines := Shifted(ProviderLines(name, url), shift);
      && (forall k :: 0 <= k < |lines| ==> IsBody(lines[k])) && lines != [] && Indent(lines[0]) == shift + 2
  {
    var f := ProviderField(name, url);
    LegibleProvider(name, url);
    ProviderIsField(name, url, shift);
    WrittenField(f, shift + 2);
    FieldShape(f, shift + 2);
    FieldRead(f, shift + 2);
    hide ProviderField, ProviderLines, FieldLines, Shifted, IsBody, Indent, ReadEntry, ReadingOf, Parts, IsItem, TrimStart;
    var lines := FieldLines(f, shift + 2);
    DeeperNoItem(lines[1..], shift + 2);
    OnePart(AtKeys, shift + 2, lines);
  }

  lemma WrittenField(f: Field, indent: nat)
    requires f.value.Mapping?
    ensures FieldLines(f, indent) != []
  {
  }

  lemma LegibleProvider(name: string, url: string)
    requires IsKey(name)
    ensures AreLegible([ProviderField(name, url)]) && ProviderField(name, url).value.Mapping?
  {
    hide IsKey;
    ProviderKeys();
    var path := "./proxy-providers/" + name + ".yaml";
    KeyIsWord(name);
    assert IsWord(path);
  }

  lemma ProviderKeys()
    ensures IsKey("type") && IsKey("url") && IsKey("path") && IsKey("interval") && IsKey("format")
  {
  }

  lemma KeyIsWord(name: string)
    requires IsKey(name)
    ensures forall k :: 0 <= k < |name| ==> !IsSpace(name[k])
  {
  }
}
