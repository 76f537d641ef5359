/** Reading a merge again in full: the fields of the new proxies, what is known of the new providers, and the members
    of a new group. */
module MergeFields {
  import opened Wrappers
  import opened Text
  import opened YamlText
  import opened YamlDocument
  import opened YamlEmit
  import opened YamlFragment
  import opened YamlRoutes
  import opened LineEdits
  import opened MergedNames
  import opened MergePlan
  import opened MergeText
  import opened MergePlacing
  import opened MergeRouting
  import opened YamlMerge
  import opened SectionContent
  import opened SectionReading
  import opened MergedSections
  import opened MergeReading
  import opened FieldReading
  import opened ListReading

  /** The indentation of the parts of some content: that of its first line, which must begin one. */
  function PartIndent(kind: Kind, content: seq<string>): Option<nat>
    requires content != []
  {
    if kind == AtItems then ItemIndent(content[0]) else Some(Indent(content[0]))
  }

  /** What the items, or the entries, in a section of a file hold, each where it can be read. */
  function PartsOf(kind: Kind, key: string, lines: seq<string>): Option<seq<Option<seq<Entry>>>> {
    var content := ReadSection(key, lines);
    if content == None then None
    else if content.value == [] then Some([])
    else if PartIndent(kind, content.value) == None then None
    else Some(ReadParts(kind, PartIndent(kind, content.value).value, content.value))
  }

  /** Parts that come behind the content of a section are read behind what was read of it. */
  lemma PartsGrow(kind: Kind, key: string, lines: seq<string>, edited: seq<string>, content: seq<string>, more: seq<string>, indent: nat)
    requires ReadSection(key, lines) == Some(content) && ReadSection(key, edited) == Some(content + more)
    requires content != [] ==> PartIndent(kind, content) == Some(indent)
    requires more != [] ==> Begins(kind, indent, more[0])
    ensures PartsOf(kind, key, lines).Some?
    ensures PartsOf(kind, key, edited) == Some(PartsOf(kind, key, lines).value + ReadParts(kind, indent, more))
  {
    hide ReadSection, ReadParts, ItemIndent, Indent;
    ReadAppend(kind, indent, content, more);
    ReadNothing(kind, indent);
    if content == [] {
      assert content + more == more;
      assert [] + ReadParts(kind, indent, more) == ReadParts(kind, indent, more);
    } else if more == [] {
      assert content + more == content;
    }
  }

  /** The proxies that the links stand for, under the names they were given. */
  function Named(names: seq<string>, parsed: seq<Proxy>): seq<Proxy>
    requires |names| == |parsed|
  {
    seq(|names|, k requires 0 <= k < |names| => Proxy(names[k], parsed[k].fields))
  }

  /** The proxies of the merged file: those there were, and the new ones with the fields that were parsed. */
  lemma ProxiesReread(text: string, names: seq<string>, group: string, lines: seq<string>, source: string,
                      requestedGroup: string, parse: (string, nat) -> Option<Proxy>, isUrl: string -> bool, m: Merge)
    requires WasMerged(text, names, group, lines, Links, source, requestedGroup, parse, isUrl, m) && AllReadable(names)
    requires forall e: string, k: nat :: parse(e, k).Some? ==> AreLegible(parse(e, k).value.fields)
    ensures var parsed := Parsed(Entries(source), parse, |Entries(source)|);
      && |names| == |parsed| && PartsOf(AtItems, "proxies", lines).Some?
      && PartsOf(AtItems, "proxies", Lines(text))
           == Some(PartsOf(AtItems, "proxies", lines).value + ProxyReadings(Named(names, parsed)))
  {
    hide *;
    TextIsEdited(text, names, group, lines, Links, source, requestedGroup, parse, isUrl, m, "proxies");
    var a, b, touched := MergeShape(text, names, group, lines, Links, source, requestedGroup, parse, isUrl, m);
    ProxiesAre(text, names, group, lines, source, requestedGroup, parse, isUrl, m);
    SectionKeys();
    var content, indent := FragmentContent(lines, Links, ListLines(m.proxies, 2), m, a, b, touched);
    ShiftedList(m.proxies, 2, indent - 2);
    assert 2 + (indent - 2) == indent;
    ProxiesGrow(lines, Edited(lines, m.plan.insertions, Replaced(m.plan)), content, m.proxies, indent);
    SameParts(AtItems, "proxies", Edited(lines, m.plan.insertions, Replaced(m.plan)), Lines(text));
  }

  lemma SectionKeys()
    ensures SectionKey(Links) == "proxies" && SectionKey(Subscriptions) == "proxy-providers"
  {
  }

  lemma SameParts(kind: Kind, key: string, a: seq<string>, b: seq<string>)
    requires ReadSection(key, a) == ReadSection(key, b)
    ensures PartsOf(kind, key, a) == PartsOf(kind, key, b)
  {
    hide ReadSection, ReadParts, PartIndent;
  }

  lemma ProxiesGrow(lines: seq<string>, edited: seq<string>, content: seq<string>, proxies: seq<Proxy>, indent: nat)
    requires ReadSection("proxies", lines) == Some(content) && AllLegible(proxies)
    requires ReadSection("proxies", edited) == Some(content + Bodies(ListLines(proxies, indent)))
    requires content != [] ==> ItemIndent(content[0]) == Some(indent)
    ensures PartsOf(AtItems, "proxies", lines).Some?
    ensures PartsOf(AtItems, "proxies", edited) == Some(PartsOf(AtItems, "proxies", lines).value + ProxyReadings(proxies))
  {
    hide ReadSection, ReadParts, PartsOf, ItemIndent, Bodies, ListLines, IsBody, ProxyReadings, AllLegible;
    ProxiesRead(proxies, indent);
    AllBodies(ListLines(proxies, indent));
    if proxies == [] {
      NoLines(indent);
    }
    PartsGrow(AtItems, "proxies", lines, edited, content, ListLines(proxies, indent), indent);
  }

  lemma NoLines(indent: nat)
    ensures ListLines([], indent) == []
  {
  }

  /** The proxies of a merge are those parsed, and the body of the fragment is their list. */
  lemma ProxiesAre(text: string, names: seq<string>, group: string, lines: seq<string>, source: string,
                   requestedGroup: string, parse: (string, nat) -> Option<Proxy>, isUrl: string -> bool, m: Merge)
    requires WasMerged(text, names, group, lines, Links, source, requestedGroup, parse, isUrl, m)
    requires forall e: string, k: nat :: parse(e, k).Some? ==> AreLegible(parse(e, k).value.fields)
    ensures var parsed := Parsed(Entries(source), parse, |Entries(source)|); |names| == |parsed| && m.proxies == Named(names, parsed)
    ensures AllLegible(m.proxies) && FragmentBody(m.fragment.text) == ListLines(m.proxies, 2)
  {
    hide IsRead, HasPlaced, HasRouted, IsPlan, OnlyReplaceable, Edited, Replaced, IsClean, ReadsAsMerged, FindSection, AreFresh, Entries,
         FragmentBody, FragmentText, ListLines, AllDeep, AreLegible, IsFirstFree, Parsed, AllWellFormed;
    BodyIs(Links, source, m.file.existing, parse, isUrl, m.fragment, m.proxies, FragmentBody(m.fragment.text));
    var parsed := Parsed(Entries(source), parse, |Entries(source)|);
    ParsedLegible(Entries(source), parse, |Entries(source)|);
    assert forall k :: 0 <= k < |parsed| ==> m.proxies[k] == Proxy(names[k], parsed[k].fields);
  }

  lemma {:induction false} ParsedLegible(entries: seq<string>, parse: (string, nat) -> Option<Proxy>, n: nat)
    requires n <= |entries| && forall e: string, k: nat :: parse(e, k).Some? ==> AreLegible(parse(e, k).value.fields)
    ensures AllLegible(Parsed(entries, parse, n))
  {
    hide AreLegible;
    if n > 0 {
      ParsedLegible(entries, parse, n - 1);
    }
  }

  // ---------- providers ----------

  /** The providers of the merged file: those there were, and the new ones with their URLs. */
  lemma ProviderFieldsReread(text: string, names: seq<string>, group: string, lines: seq<string>, source: string,
                             requestedGroup: string, parse: (string, nat) -> Option<Proxy>, isUrl: string -> bool, m: Merge)
    requires WasMerged(text, names, group, lines, Subscriptions, source, requestedGroup, parse, isUrl, m)
    ensures var urls := Urls(Entries(source), isUrl);
      && |names| == |urls| && PartsOf(AtKeys, "proxy-providers", lines).Some?
      && PartsOf(AtKeys, "proxy-providers", Lines(text))
           == Some(PartsOf(AtKeys, "proxy-providers", lines).value + ProviderReadings(names, urls))
  {
    hide *;
    TextIsEdited(text, names, group, lines, Subscriptions, source, requestedGroup, parse, isUrl, m, "proxy-providers");
    var a, b, touched := MergeShape(text, names, group, lines, Subscriptions, source, requestedGroup, parse, isUrl, m);
    ProvidersAre(text, names, group, lines, source, requestedGroup, parse, isUrl, m);
    var urls := Urls(Entries(source), isUrl);
    SectionKeys();
    var content, indent := FragmentContent(lines, Subscriptions, ProviderList(names, urls), m, a, b, touched);
    ProviderListGrows(lines, Edited(lines, m.plan.insertions, Replaced(m.plan)), content, names, urls, indent);
    SameParts(AtKeys, "proxy-providers", Edited(lines, m.plan.insertions, Replaced(m.plan)), Lines(text));
  }

  lemma ProviderListGrows(lines: seq<string>, edited: seq<string>, content: seq<string>, names: seq<string>, urls: seq<string>, indent: nat)
    requires |names| <= |urls| && forall k :: 0 <= k < |names| ==> IsKey(names[k]) && urls[k] != ""
    requires ReadSection("proxy-providers", lines) == Some(content) && indent >= 2
    requires ReadSection("proxy-providers", edited) == Some(content + Bodies(Shifted(ProviderList(names, urls), indent - 2)))
    requires content != [] ==> Indent(content[0]) == indent
    ensures PartsOf(AtKeys, "proxy-providers", lines).Some?
    ensures PartsOf(AtKeys, "proxy-providers", edited)
      == Some(PartsOf(AtKeys, "proxy-providers", lines).value + ProviderReadings(names, urls))
  {
    hide ReadSection, ReadParts, PartsOf, Bodies, ProviderList, Shifted, IsBody, ProviderReadings, IsKey, Indent;
    var more := Shifted(ProviderList(names, urls), indent - 2);
    ProviderListRead(names, urls, indent - 2);
    AllBodies(more);
    if names == [] {
      NothingListed(urls, indent - 2);
    }
    PartsGrow(AtKeys, "proxy-providers", lines, edited, content, more, indent);
  }

  lemma NothingListed(urls: seq<string>, shift: nat)
    ensures Shifted(ProviderList([], urls), shift) == []
  {
  }

  lemma ProvidersAre(text: string, names: seq<string>, group: string, lines: seq<string>, source: string,
                     requestedGroup: string, parse: (string, nat) -> Option<Proxy>, isUrl: string -> bool, m: Merge)
    requires WasMerged(text, names, group, lines, Subscriptions, source, requestedGroup, parse, isUrl, m)
    ensures var urls := Urls(Entries(source), isUrl);
      && |names| == |urls| && FragmentBody(m.fragment.text) == ProviderList(names, urls)
      && forall k :: 0 <= k < |names| ==> IsKey(names[k]) && urls[k] != ""
  {
    hide IsRead, HasPlaced, HasRouted, IsPlan, OnlyReplaceable, Edited, Replaced, IsClean, ReadsAsMerged, FindSection, AreFresh, Entries,
         FragmentBody, FragmentText, AllDeep, AreProviderNames, Urls, ProviderList, IsKey;
    BodyIs(Subscriptions, source, m.file.existing, parse, isUrl, m.fragment, m.proxies, FragmentBody(m.fragment.text));
    NamesAreProviderNames(names, NameSet(m.file.existing));
    EntriesWritten(Split(source, '\n'));
    EntriesAre(source);
    UrlsWritten(Entries(source), isUrl);
  }

  lemma EntriesAre(source: string)
    ensures Entries(source) == Meaningful(Split(source, '\n'))
  {
  }

  lemma {:induction false} UrlsWritten(entries: seq<string>, isUrl: string -> bool)
    requires "" !in entries
    ensures "" !in Urls(entries, isUrl)
  {
    if entries != [] {
      UrlsWritten(entries[1..], isUrl);
    }
  }

  lemma {:induction false} EntriesWritten(lines: seq<string>)
    ensures "" !in Meaningful(lines)
  {
    hide Trim;
    if lines != [] {
      EntriesWritten(lines[1..]);
    }
  }

  // ---------- a new group ----------

  /** The groups of the merged file: those there were, and the new one, whose members are the old target of the MATCH
      rule and the new proxies, or the new providers. */
  lemma GroupReread(text: string, names: seq<string>, group: string, lines: seq<string>, mode: SourceMode, source: string,
                    parse: (string, nat) -> Option<Proxy>, isUrl: string -> bool, m: Merge)
    requires WasMerged(text, names, group, lines, mode, source, CREATE, parse, isUrl, m)
    requires mode == Subscriptions || AllReadable(names)
    ensures MatchOf(lines).Some? && MatchOf(lines).value.Some? && PartsOf(AtItems, "proxy-groups", lines).Some?
    ensures PartsOf(AtItems, "proxy-groups", Lines(text))
      == Some(PartsOf(AtItems, "proxy-groups", lines).value + [ProxyReading(GroupItem(group, MatchOf(lines).value.value, mode, names))])
  {
    hide *;
    TextIsEdited(text, names, group, lines, mode, source, CREATE, parse, isUrl, m, "proxy-groups");
    var a, b, touched := MergeShape(text, names, group, lines, mode, source, CREATE, parse, isUrl, m);
    SectionsRead(text, names, group, lines, mode, source, CREATE, parse, isUrl, m);
    var r := RoutedAt(lines, m.file.sections, group, mode, names, b);
    MatchIsRead(lines, m.file.sections, Some(r));
    var content, indent := GroupContentIs(lines, m.file.sections, m.plan, a, b, touched, group, r.target, mode, names);
    GroupGrows(lines, Edited(lines, m.plan.insertions, Replaced(m.plan)), content, indent, group, r.target, mode, names);
    SameParts(AtItems, "proxy-groups", Edited(lines, m.plan.insertions, Replaced(m.plan)), Lines(text));
  }

  lemma SectionsRead(text: string, names: seq<string>, group: string, lines: seq<string>, mode: SourceMode, source: string,
                     requestedGroup: string, parse: (string, nat) -> Option<Proxy>, isUrl: string -> bool, m: Merge)
    requires WasMerged(text, names, group, lines, mode, source, requestedGroup, parse, isUrl, m)
    ensures IsDocument(lines, m.file.sections) && names == m.fragment.names && FindSection(m.file.sections, "rules").Some?
  {
    hide HasParsed, HasPlaced, HasRouted, IsPlan, OnlyReplaceable, Edited, Replaced, IsClean, ReadsAsMerged, FindSection, IsDocument;
  }

  lemma RoutedAt(lines: seq<string>, sections: seq<Section>, name: string, mode: SourceMode, names: seq<string>, b: Block) returns (r: Rule)
    requires IsGroupRouted(lines, sections, name, mode, names, b)
    ensures MatchRuleIs(lines, sections, Some(r)) && IsGroupBlock(lines, sections, name, r.target, mode, names, b)
  {
    hide MatchRuleIs, IsGroupBlock;
    r :| MatchRuleIs(lines, sections, Some(r)) && IsGroupBlock(lines, sections, name, r.target, mode, names, b);
  }

  lemma GroupGrows(lines: seq<string>, edited: seq<string>, content: seq<string>, indent: nat, group: string, target: string,
                   mode: SourceMode, names: seq<string>)
    requires ReadSection("proxy-groups", lines) == Some(content)
    requires ReadSection("proxy-groups", edited) == Some(content + Bodies(GroupLines(indent, group, target, mode, names)))
    requires content != [] ==> ItemIndent(content[0]) == Some(indent)
    ensures PartsOf(AtItems, "proxy-groups", lines).Some?
    ensures PartsOf(AtItems, "proxy-groups", edited)
      == Some(PartsOf(AtItems, "proxy-groups", lines).value + [ProxyReading(GroupItem(group, target, mode, names))])
  {
    hide ReadSection, ReadParts, PartsOf, ItemIndent, Bodies, GroupLines, IsBody, ProxyLines, GroupItem, AreLegible, ProxyReading;
    GroupIsItem(indent, group, target, mode, names);
    var item := GroupItem(group, target, mode, names);
    ProxyRead(item, indent);
    ProxyLinesSome(item, indent);
    AllBodies(ProxyLines(item, indent));
    PartsGrow(AtItems, "proxy-groups", lines, edited, content, ProxyLines(item, indent), indent);
  }

  // ---------- a new group in the next merge ----------

  lemma {:induction false} KindStays(lines: seq<string>, from: nat, i: nat, end: nat, indent: nat)
    requires from <= i <= end <= |lines| && forall k :: i <= k < end ==> FieldText(lines[k], indent, "type") == None
    ensures KindOf(lines, from, end, indent) == KindOf(lines, from, i, indent)
  {
    hide YamlValue, FieldText, IsCaptured;
    if i < end {
      KindStays(lines, from, i, end - 1, indent);
    }
  }

  /** A group that a merge has created is one that the next merge can let names join: its name and type are read. */
  lemma CreatedIsSelect(indent: nat, name: string, target: string, mode: SourceMode, names: seq<string>)
    requires IsReadable(name)
    ensures var lines := GroupLines(indent, name, target, mode, names);
      |lines| > 1 && NameOf(lines[0]) == Some(name) && KindOf(lines, 1, |lines|, indent + 2) == Some("select")
  {
    hide *;
    NameLineName(name, indent);
    GroupAs(indent, name, target, mode, names);
    TypeLine(indent + 2);
    var lines := GroupLines(indent, name, target, mode, names);
    GroupNoType(indent, name, target, mode, names);
    KindStays(lines, 1, 2, |lines|, indent + 2);
    KindHere(lines, indent + 2);
  }

  lemma KindHere(lines: seq<string>, indent: nat)
    requires |lines| > 1 && FieldText(lines[1], indent, "type") == Some(" select")
    requires IsCaptured(" select") && YamlValue(" select") == Some("select")
    ensures KindOf(lines, 1, 2, indent) == Some("select")
  {
    hide YamlValue, FieldText, IsCaptured;
  }

  lemma GroupNoType(indent: nat, name: string, target: string, mode: SourceMode, names: seq<string>)
    ensures var lines := GroupLines(indent, name, target, mode, names);
      |lines| > 1 && forall k :: 2 <= k < |lines| ==> FieldText(lines[k], indent + 2, "type") == None
  {
    hide *;
    OtherLines(indent + 2, target);
    EntriesNoType(names, indent);
    GroupAs(indent, name, target, mode, names);
    var lines, entries := GroupLines(indent, name, target, mode, names), EntryLines(names, indent + 4);
    var d := |lines| - |entries|;
    assert lines[d..] == entries;
    forall k | 2 <= k < |lines|
      ensures FieldText(lines[k], indent + 2, "type") == None
    {
      if k >= d {
        assert lines[k] == entries[k - d];
      }
    }
  }

  lemma GroupAs(indent: nat, name: string, target: string, mode: SourceMode, names: seq<string>)
    ensures GroupLines(indent, name, target, mode, names)
      == [NameLine(name, indent), Spaces(indent + 2) + "type: select", Spaces(indent + 2) + "proxies:", Spaces(indent + 4) + "- " + Quote(target)]
         + ((if mode == Links then [] else [Spaces(indent + 2) + "use:"]) + EntryLines(names, indent + 4))
  {
  }

  lemma TypeLine(indent: nat)
    ensures FieldText(Spaces(indent) + "type: select", indent, "type") == Some(" select")
    ensures IsCaptured(" select") && YamlValue(" select") == Some("select")
  {
    hide YamlValue, IsCaptured, TrimStart, IsBody, Indent, Spaces, IsSpace;
    LetterStart();
    LineWith(indent, "type: select");
    FieldOf(indent, "type", " select", Spaces(indent) + "type: select");
    SelectRead();
  }

  lemma FieldOf(indent: nat, key: string, text: string, line: string)
    requires Indent(line) == indent && line == Spaces(indent) + (key + ":" + text)
    ensures FieldText(line, indent, key) == Some(text)
  {
    hide Indent;
    assert line[indent..] == key + ":" + text;
    assert (key + ":" + text)[..|key| + 1] == key + ":";
    assert line[indent + |key| + 1..] == text;
  }

  lemma LetterStart()
    ensures !IsSpace('t') && !IsSpace('p') && !IsSpace('u') && !IsSpace('s') && !IsSpace('-')
  {
  }

  lemma SelectRead()
    ensures IsCaptured(" select") && YamlValue(" select") == Some("select")
  {
    LetterStart();
    IndentIs(" select", 1);
    SelectWord();
    NoSpaceHash("select");
    StripNothing("select");
    TrimAfterSpace("select");
    hide Trim, StripComment;
    assert " select"[1..] == "select";
  }

  lemma SelectWord()
    ensures IsWord("select") && NoBreak("select")
  {
  }

  lemma OtherLines(indent: nat, target: string)
    ensures FieldText(Spaces(indent) + "proxies:", indent, "type") == None
    ensures FieldText(Spaces(indent) + "use:", indent, "type") == None
    ensures FieldText(Spaces(indent + 2) + "- " + Quote(target), indent, "type") == None
  {
    LetterStart();
    LineWith(indent, "proxies:");
    LineWith(indent, "use:");
    ItemLine(indent + 2, target);
    assert ("type" + ":")[0] == 't' && (Spaces(indent) + "proxies:")[indent..][0] == 'p' && (Spaces(indent) + "use:")[indent..][0] == 'u';
    hide Quote, Spaces, Indent;
  }

  lemma EntriesNoType(names: seq<string>, indent: nat)
    ensures var entries := EntryLines(names, indent + 4);
      forall k :: 0 <= k < |entries| ==> FieldText(entries[k], indent + 2, "type") == None
  {
    hide EntryLines, IsBody, Indent, LooksCommented;
    ItemsRead(names, indent + 4);
  }
}
