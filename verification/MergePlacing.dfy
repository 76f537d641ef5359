/** Where a merge may write, and placing its fragment: in the section there is, or as a new section. */
module MergePlacing {
  import opened Wrappers
  import opened Text
  import opened YamlText
  import opened YamlDocument
  import opened YamlEmit
  import opened LineEdits
  import opened ProxyNames
  import opened MergedNames
  import opened MergePlan
  import opened YamlFragment
  import opened YamlRoutes
  import opened MergeText

  // ---------- where a merge may write ----------

  const EMPTY := Plan(map[], [])

  /** The lines a merge may replace: headers of sections that are empty, the MATCH rule, empty lists. */
  predicate MayReplace(line: string) {
    || (IsTopLevel(line) && KeyLine(line).Some? && KeyLine(line).value.1 in {"[]", "{}", "null"})
    || (RuleTarget(line).Some? && RuleTarget(line).value.Some?)
    || IsEmptyList(line, "proxies") || IsEmptyList(line, "use")
  }

  predicate IsEmptyList(line: string, key: string) {
    var t := FieldText(line, Indent(line), key);
    t.Some? && Trim(t.value) == "[]"
  }

  ghost predicate OnlyReplaceable(lines: seq<string>, plan: Plan) {
    forall a :: a in Replaced(plan) ==> a < |lines| && MayReplace(lines[a])
  }

  ghost predicate IsSound(lines: seq<string>, sections: seq<Section>, L: Layout, plan: Plan) {
    && IsDocument(lines, sections) && IsLayout(lines, sections, L)
    && IsSafe(L, plan) && IsPlan(plan, |lines|) && OnlyReplaceable(lines, plan)
  }

  /** Only section headers replaced so far, and not that of the groups. */
  ghost predicate HeadersOnly(lines: seq<string>, plan: Plan) {
    forall a :: a in Replaced(plan) ==>
      a < |lines| && IsTopLevel(lines[a]) && KeyLine(lines[a]).Some? && KeyLine(lines[a]).value.0 != "proxy-groups"
  }

  lemma InsertKeeps(lines: seq<string>, sections: seq<Section>, L: Layout, plan: Plan, q: nat, block: seq<string>)
    requires IsSound(lines, sections, L, plan) && q <= |lines| && IsSafe(L, Insert(plan, q, block))
    ensures IsSound(lines, sections, L, Insert(plan, q, block))
    ensures Replaced(Insert(plan, q, block)) == Replaced(plan)
  {
    hide IsDocument, IsLayout, IsSafe, MayReplace;
  }

  lemma ReplaceKeeps(lines: seq<string>, sections: seq<Section>, L: Layout, plan: Plan, a: nat, line: string)
    requires IsSound(lines, sections, L, plan) && IsSafe(L, Replace(plan, a, line))
    requires a < |lines| && a !in Replaced(plan) && MayReplace(lines[a])
    ensures IsSound(lines, sections, L, Replace(plan, a, line))
  {
    hide IsDocument, IsLayout, IsSafe, MayReplace;
    ReplacePlan(plan, |lines|, a, line);
    ReplacedNext(plan, a, line);
  }

  lemma EmptyPlan(lines: seq<string>, L: Layout)
    ensures Replaced(EMPTY) == map[] && IsPlan(EMPTY, |lines|)
    ensures L.main == [] ==> IsSafe(L, EMPTY)
  {
  }

  lemma FirstInsertion(lines: seq<string>, sections: seq<Section>, L: Layout)
    requires IsDocument(lines, sections) && IsLayout(lines, sections, L) && IsClean(L.main)
    ensures IsSound(lines, sections, L, Insert(EMPTY, L.p, L.main))
    ensures Replaced(Insert(EMPTY, L.p, L.main)) == map[]
  {
    hide IsDocument, MayReplace, NoReturn;
    EmptyPlan(lines, L);
    assert InsertedAt(EMPTY.insertions, L.p) + L.main == L.main;
    assert Replaced(Insert(EMPTY, L.p, L.main)) == Replaced(EMPTY);
    EmptyForeign();
    assert L.main[|L.main|..] == [];
  }

  lemma DeepClean(lines: seq<string>, indent: nat)
    requires AllDeep(lines, indent)
    ensures IsClean(lines)
    ensures indent > 0 ==> IsForeign(lines)
  {
    forall k | 0 <= k < |lines|
      ensures NoReturn(lines[k]) && (indent > 0 ==> IsOther(lines[k]))
    {
      assert IsDeep(lines[k], indent);
      if indent > 0 {
        DeepShape(lines[k], indent);
      }
    }
  }

  lemma ShiftedDeep(lines: seq<string>, indent: nat, shift: nat)
    requires AllDeep(lines, indent)
    ensures AllDeep(Shifted(lines, shift), indent)
  {
    forall k | 0 <= k < |lines|
      ensures IsDeep(Shifted(lines, shift)[k], indent)
    {
      ShiftedDeepLine(lines[k], indent, shift);
    }
  }

  lemma ShiftedDeepLine(line: string, indent: nat, shift: nat)
    requires IsDeep(line, indent)
    ensures IsDeep(Spaces(shift) + line, indent)
  {
    var n := Indent(line);
    IndentIs(Spaces(shift) + line, shift + n);
  }

  // ---------- placing the fragment ----------

  function SectionKey(mode: SourceMode): string {
    if mode == Subscriptions then "proxy-providers" else "proxies"
  }

  /** Behind the last line of a part of the file that is not empty. */
  ghost predicate IsContentEnd(lines: seq<string>, start: nat, end: nat, at: nat) {
    && start < at <= end <= |lines| && (forall k :: at <= k < end ==> IsBlank(lines[k]))
    && (at == start + 1 || !IsBlank(lines[at - 1]))
  }

  method InsertionPoint(lines: seq<string>, s: Section) returns (at: nat)
    requires s.start < s.end <= |lines|
    ensures IsContentEnd(lines, s.start, s.end, at)
  {
    hide IsBlank;
    at := s.end;
    while at > s.start + 1 && IsBlank(lines[at - 1])
      invariant s.start < at <= s.end && forall k :: at <= k < s.end ==> IsBlank(lines[k])
    {
      at := at - 1;
    }
  }

  /** What reading the original has come to at the insertion point of its proxies. */
  ghost predicate ReadyFor(lines: seq<string>, L: Layout, indent: nat) {
    L.section.Some? ==>
      && L.p <= |lines| && Run(START, lines[..L.p]).Reading?
      && Run(START, lines[..L.p]).inside in {InProxies(None), InProxies(Some(indent))}
  }

  lemma InsideAt(lines: seq<string>, sections: seq<Section>, L: Layout, list: BlockList)
    requires IsDocument(lines, sections) && IsLayout(lines, sections, L) && NamesOf(lines).Some?
    requires L.section.Some? && IsBlockList(lines, L.section.value, Some(list))
    ensures ReadyFor(lines, L, list.indent)
  {
    hide IsDocument, IsTopLevel, KeyLine, IsBody, ItemIndent, Run, OtherLines, Inner, NamesOf, IsBlank;
    var s := L.section.value;
    NamesAt(lines, sections, L);
    OneSection(lines, sections, s);
    Entered(lines, s);
    RunInside(lines, s.start + 1, L.p, s.end, list.indent);
  }

  /** New proxies in the section there is. */
  lemma LinksInSection(lines: seq<string>, sections: seq<Section>, s: Section, list: BlockList, at: nat, proxies: seq<Proxy>)
      returns (L: Layout)
    requires IsDocument(lines, sections) && NamesOf(lines).Some? && FindSection(sections, "proxies") == Some(Some(s))
    requires s.start < at <= s.end <= |lines| && forall k :: at <= k < s.end ==> IsBlank(lines[k])
    requires IsBlockValue(s.value) && IsBlockList(lines, s, Some(list)) && list.indent >= 2 && AllWellFormed(proxies)
    ensures L == Layout(Some(s), at, s.end, ListLines(proxies, list.indent))
    ensures var block := Shifted(ListLines(proxies, 2), list.indent - 2);
      var plan := Insert(if s.value != "" then Replace(EMPTY, s.start, "proxies:") else EMPTY, at, block);
      IsSound(lines, sections, L, plan) && HeadersOnly(lines, plan)
    ensures IsMain(L, proxies, list.indent) && ReadyFor(lines, L, list.indent)
  {
    hide IsDocument, IsTopLevel, KeyLine, IsBlockList, OtherLines, Inner, Run, MayReplace, IsSafe, IsClean, AllDeep, AllWellFormed,
         IsForeign, IsBlank, IsSound, Matching, NamesOf, Shifted;
    ListDeep(proxies, list.indent);
    DeepClean(ListLines(proxies, list.indent), list.indent);
    ShiftedList(proxies, 2, list.indent - 2);
    hide ListLines;
    OneSection(lines, sections, s);
    L := Layout(Some(s), at, s.end, ListLines(proxies, list.indent));
    InsideAt(lines, sections, L, list);
    FirstInsertion(lines, sections, L);
    var plan := Insert(EMPTY, at, L.main);
    if s.value != "" {
      HeaderReplaced(lines, sections, L, plan, s);
      assert Replace(plan, s.start, "proxies:") == Insert(Replace(EMPTY, s.start, "proxies:"), at, L.main);
    }
  }

  lemma HeaderReplaced(lines: seq<string>, sections: seq<Section>, L: Layout, plan: Plan, s: Section)
    requires IsSound(lines, sections, L, plan) && Replaced(plan) == map[] && L.section == Some(s)
    requires s.start < |lines| && IsTopLevel(lines[s.start]) && KeyLine(lines[s.start]) == Some(("proxies", s.value))
    requires IsBlockValue(s.value) && s.value != ""
    ensures IsSound(lines, sections, L, Replace(plan, s.start, "proxies:"))
    ensures HeadersOnly(lines, Replace(plan, s.start, "proxies:"))
  {
    hide IsDocument, IsTopLevel, KeyLine, IsSafe, IsPlan, NoReturn;
    KeyHeader("proxies");
    assert "proxies" + ":" == "proxies:";
    SafeReplace(L, plan, s.start, "proxies:");
    ReplaceKeeps(lines, sections, L, plan, s.start, "proxies:");
    ReplacedNext(plan, s.start, "proxies:");
  }

  /** New proxies as a new section, in front of the groups, or the rules, or at the end. */
  lemma LinksAsSection(lines: seq<string>, sections: seq<Section>, at: nat, proxies: seq<Proxy>) returns (L: Layout)
    requires IsDocument(lines, sections) && FindSection(sections, "proxies") == Some(None)
    requires at == |lines| || exists s :: s in sections && s.start == at
    requires AllWellFormed(proxies)
    ensures at <= |lines| && L == Layout(None, at, at, ["proxies:"] + ListLines(proxies, 2) + [""])
    ensures var plan := Insert(EMPTY, at, ["proxies:"] + ListLines(proxies, 2) + [""]);
      IsSound(lines, sections, L, plan) && HeadersOnly(lines, plan)
    ensures IsMain(L, proxies, 2) && ReadyFor(lines, L, 2)
  {
    hide IsDocument, IsTopLevel, KeyLine, IsSafe, AllDeep, AllWellFormed, IsForeign, IsSound, Matching;
    ListDeep(proxies, 2);
    DeepClean(ListLines(proxies, 2), 2);
    hide ListLines;
    L := Layout(None, at, at, ["proxies:"] + ListLines(proxies, 2) + [""]);
    if at != |lines| {
      var s :| s in sections && s.start == at;
      SectionShape(lines, sections, s);
    }
    SectionClean("proxies:", ListLines(proxies, 2));
    FirstInsertion(lines, sections, L);
  }

  lemma SectionClean(head: string, body: seq<string>)
    requires NoReturn(head) && IsClean(body)
    ensures IsClean([head] + body + [""])
  {
  }

  /** Subscriptions leave the proxies alone; any reading of them may end behind their section. */
  lemma ProviderLayout(lines: seq<string>, sections: seq<Section>) returns (L: Layout)
    requires IsDocument(lines, sections) && NamesOf(lines).Some?
    ensures IsSound(lines, sections, L, EMPTY) && HeadersOnly(lines, EMPTY) && L.main == []
    ensures L.section == None ==> L.p == |lines|
  {
    hide IsDocument, IsTopLevel, KeyLine, MayReplace, IsSafe, IsPlan, NamesOf, Matching, Inner, OtherLines, Run;
    AtMostOneSection(lines, sections);
    var found := FindSection(sections, "proxies").value;
    if found == None {
      L := Layout(None, |lines|, |lines|, []);
      EmptyPlan(lines, L);
    } else {
      var t := found.value;
      OneSection(lines, sections, t);
      L := Layout(Some(t), t.end, t.end, []);
      EmptyPlan(lines, L);
    }
  }

  lemma AtMostOneSection(lines: seq<string>, sections: seq<Section>)
    requires IsDocument(lines, sections) && NamesOf(lines).Some?
    ensures FindSection(sections, "proxies").Some?
  {
    if FindSection(sections, "proxies") == None {
      TwoSections(lines, sections);
    }
  }

  lemma OtherHeader(key: string)
    requires key != "" && IsLetter(key[0]) && (forall k :: 0 <= k < |key| ==> KeyChar(key[k])) && key != "proxies"
    ensures IsTopLevel(key + ":") && IsOther(key + ":") && NoReturn(key + ":")
  {
    KeyHeader(key);
  }

  lemma ProviderHeader()
    ensures IsTopLevel("proxy-providers:") && IsOther("proxy-providers:") && NoReturn("proxy-providers:")
  {
    OtherHeader("proxy-providers");
    assert "proxy-providers" + ":" == "proxy-providers:";
  }

  lemma GroupHeader()
    ensures IsTopLevel("proxy-groups:") && IsOther("proxy-groups:") && NoReturn("proxy-groups:")
  {
    OtherHeader("proxy-groups");
    assert "proxy-groups" + ":" == "proxy-groups:";
  }

  /** An empty section written in one line is opened for a block. */
  lemma OpenedHeader(lines: seq<string>, sections: seq<Section>, L: Layout, plan: Plan, s: Section, line: string)
    requires IsSound(lines, sections, L, plan) && s in sections && s.key != "proxies" && s.start !in Replaced(plan)
    requires IsBlockValue(s.value) && s.value != ""
    requires IsTopLevel(line) && IsOther(line) && NoReturn(line)
    ensures IsSound(lines, sections, L, Replace(plan, s.start, line))
  {
    hide IsDocument, IsTopLevel, KeyLine, IsSafe, IsPlan, IsOther, NoReturn, Inner;
    SectionShape(lines, sections, s);
    ReplaceHeader(lines, sections, L, plan, s, line);
    hide IsLayout;
    ReplaceKeeps(lines, sections, L, plan, s.start, line);
  }

  lemma BlockWithin(lines: seq<string>, sections: seq<Section>, L: Layout, plan: Plan, s: Section, q: nat, block: seq<string>)
    requires IsSound(lines, sections, L, plan) && s in sections && s.key != "proxies" && s.start < q <= s.end <= |lines|
    requires L.section == None ==> L.p <= s.start || (L.main == [] && L.p == |lines|)
    requires AllDeep(block, 1)
    ensures IsSound(lines, sections, L, Insert(plan, q, block))
    ensures Replaced(Insert(plan, q, block)) == Replaced(plan)
  {
    hide IsDocument, IsLayout, IsSafe, IsPlan, AllDeep, IsClean, IsForeign, OnlyReplaceable;
    DeepClean(block, 1);
    InsertWithin(lines, sections, L, plan, s, q, block);
    InsertKeeps(lines, sections, L, plan, q, block);
  }

  lemma NewSection(lines: seq<string>, sections: seq<Section>, L: Layout, plan: Plan, q: nat, head: string, body: seq<string>)
    requires IsSound(lines, sections, L, plan) && q <= |lines|
    requires q == |lines| || exists s :: s in sections && s.key != "proxies" && s.start == q
    requires IsTopLevel(head) && IsOther(head) && NoReturn(head) && AllDeep(body, 1)
    ensures IsSound(lines, sections, L, Insert(plan, q, [head] + body + [""]))
    ensures Replaced(Insert(plan, q, [head] + body + [""])) == Replaced(plan)
  {
    hide IsDocument, IsLayout, IsSafe, IsPlan, AllDeep, IsClean, OnlyReplaceable, IsTopLevel, KeyLine;
    DeepClean(body, 1);
    SectionClean(head, body);
    EmptyLineOther();
    InsertHeaded(lines, sections, L, plan, q, [head] + body + [""]);
    InsertKeeps(lines, sections, L, plan, q, [head] + body + [""]);
  }

  lemma EmptyLineOther()
    ensures IsOther("")
  {
  }

  lemma ProvidersInSection(lines: seq<string>, sections: seq<Section>, L: Layout, s: Section, at: nat, block: seq<string>)
    requires IsSound(lines, sections, L, EMPTY) && L.main == [] && (L.section == None ==> L.p == |lines|)
    requires s in sections && s.key == "proxy-providers" && IsBlockValue(s.value)
    requires s.start < at <= s.end <= |lines| && AllDeep(block, 1)
    ensures var plan := Insert(if s.value != "" then Replace(EMPTY, s.start, "proxy-providers:") else EMPTY, at, block);
      IsSound(lines, sections, L, plan) && HeadersOnly(lines, plan)
  {
    hide IsSound, IsTopLevel, KeyLine, AllDeep, IsOther, NoReturn, Inner;
    EmptyPlan(lines, L);
    assert IsDocument(lines, sections) by {
      SoundDocument(lines, sections, L, EMPTY);
    }
    SectionShape(lines, sections, s);
    hide IsDocument;
    if s.value != "" {
      ProviderHeader();
      OpenedHeader(lines, sections, L, EMPTY, s, "proxy-providers:");
      ReplacedNext(EMPTY, s.start, "proxy-providers:");
      BlockWithin(lines, sections, L, Replace(EMPTY, s.start, "proxy-providers:"), s, at, block);
    } else {
      BlockWithin(lines, sections, L, EMPTY, s, at, block);
    }
  }

  lemma SoundDocument(lines: seq<string>, sections: seq<Section>, L: Layout, plan: Plan)
    requires IsSound(lines, sections, L, plan)
    ensures IsDocument(lines, sections) && IsLayout(lines, sections, L) && IsSafe(L, plan) && IsPlan(plan, |lines|)
    ensures OnlyReplaceable(lines, plan)
  {
    hide IsDocument, IsLayout, IsSafe, IsPlan, OnlyReplaceable;
  }

  /** Where a new section goes: in front of the groups, or else the rules, or else at the end. */
  function NewSectionPoint(lines: seq<string>, groups: Option<Section>, rules: Option<Section>): nat {
    if groups.Some? then groups.value.start else if rules.Some? then rules.value.start else |lines|
  }

  lemma PointOfSection(lines: seq<string>, sections: seq<Section>, groups: Option<Section>, rules: Option<Section>)
    requires IsDocument(lines, sections)
    requires FindSection(sections, "proxy-groups") == Some(groups) && FindSection(sections, "rules") == Some(rules)
    ensures var q := NewSectionPoint(lines, groups, rules);
      q <= |lines| && (q == |lines| || exists s :: s in sections && s.key != "proxies" && s.start == q)
  {
    hide IsDocument, IsTopLevel, KeyLine, Matching;
    if groups.Some? {
      FoundSection(lines, sections, "proxy-groups", groups.value);
    } else if rules.Some? {
      FoundSection(lines, sections, "rules", rules.value);
    }
  }

  /** New entries are indented like those there are. */
  ghost predicate IsEntryIndent(lines: seq<string>, mode: SourceMode, s: Section, indent: nat) {
    && s.start < s.end <= |lines|
    && if mode == Links then exists list :: IsBlockList(lines, s, Some(list)) && indent == list.indent
       else var content := Bodies(lines[s.start + 1..s.end]); indent == if content == [] then 2 else Indent(content[0])
  }

  /** The fragment goes behind the content of its section, indented like the entries there, or becomes a section. */
  ghost predicate IsFragmentPlaced(lines: seq<string>, mode: SourceMode, section: Option<Section>, groups: Option<Section>,
                                   rules: Option<Section>, body: seq<string>, plan: Plan) {
    var header := SectionKey(mode) + ":";
    match section
    case Some(s) =>
      && IsBlockValue(s.value)
      && exists at: nat, indent: nat ::
           && IsContentEnd(lines, s.start, s.end, at) && IsEntryIndent(lines, mode, s, indent) && indent >= 2
           && plan == Insert(if s.value != "" then Replace(EMPTY, s.start, header) else EMPTY, at, Shifted(body, indent - 2))
    case None =>
      plan == Insert(EMPTY, NewSectionPoint(lines, groups, rules), [header] + body + [""])
  }

  /** The section is written in one line, is no block list, or is not indented enough. */
  ghost predicate PlacingRefused(lines: seq<string>, mode: SourceMode, section: Option<Section>) {
    && section.Some? && section.value.start < section.value.end <= |lines|
    && (|| !IsBlockValue(section.value.value)
        || (mode == Links && IsBlockList(lines, section.value, None))
        || exists indent: nat :: IsEntryIndent(lines, mode, section.value, indent) && indent < 2)
  }

  /** The indentation that new entries of a section take. */
  method EntryIndent(lines: seq<string>, mode: SourceMode, s: Section) returns (indent: Option<nat>, ghost list: BlockList)
    requires s.start < s.end <= |lines|
    ensures mode == Links && indent.Some? ==> IsBlockList(lines, s, Some(list)) && indent.value == list.indent
    ensures indent.Some? ==> IsEntryIndent(lines, mode, s, indent.value)
    ensures indent == None ==> mode == Links && IsBlockList(lines, s, None)
  {
    hide IsBlockList;
    list := BlockList(2, []);
    if mode == Links {
      var found := YamlList(lines, s);
      if found == None {
        return None, list;
      }
      return Some(found.value.indent), found.value;
    }
    var content := Bodies(lines[s.start + 1..s.end]);
    indent := Some(if content == [] then 2 else Indent(content[0]));
  }

  ghost predicate IsFound(sections: seq<Section>, key: string, s: Option<Section>) {
    FindSection(sections, key) == Some(s)
  }

  /** The first insertion: the fragment goes to the end of its section, or becomes a section. */
  method PlaceFragment(lines: seq<string>, sections: seq<Section>, mode: SourceMode, section: Option<Section>,
                       groups: Option<Section>, rules: Option<Section>, body: seq<string>, ghost proxies: seq<Proxy>)
    returns (plan: Option<Plan>, ghost L: Layout, ghost indent: nat)
    requires IsDocument(lines, sections) && NamesOf(lines).Some? && AllDeep(body, 2)
    requires IsFound(sections, SectionKey(mode), section)
    requires IsFound(sections, "proxy-groups", groups) && IsFound(sections, "rules", rules)
    requires mode == Links ==> body == ListLines(proxies, 2) && AllWellFormed(proxies)
    ensures plan.Some? ==> IsSound(lines, sections, L, plan.value) && HeadersOnly(lines, plan.value)
    ensures plan.Some? && mode == Links ==> IsMain(L, proxies, indent) && ReadyFor(lines, L, indent)
    ensures plan.Some? ==> IsFragmentPlaced(lines, mode, section, groups, rules, body, plan.value)
    ensures plan == None ==> PlacingRefused(lines, mode, section)
    ensures plan.Some? && mode == Subscriptions ==> L.main == []
    ensures plan.Some? && L.section == None && groups.Some? ==>
      L.p == groups.value.start || (L.main == [] && L.p == |lines|)
  {
    hide IsDocument, NamesOf, AllDeep, ListLines, AllWellFormed, IsSound, HeadersOnly, IsMain, ReadyFor, FindSection, Shifted,
         IsTopLevel, KeyLine, Inner, IsBlockList, IsEntryIndent;
    L := ProviderLayout(lines, sections);
    indent := 2;
    var key := SectionKey(mode);
    if section.Some? {
      var s := section.value;
      assert FindSection(sections, key) == Some(Some(s));
      FoundSection(lines, sections, key, s);
      if !IsBlockValue(s.value) {
        return None, L, indent;
      }
      var p := EMPTY;
      if s.value != "" {
        p := Replace(p, s.start, key + ":");
      }
      var entry, list := EntryIndent(lines, mode, s);
      if entry == None || entry.value < 2 {
        return None, L, indent;
      }
      var at := InsertionPoint(lines, s);
      p := Insert(p, at, Shifted(body, entry.value - 2));
      if mode == Links {
        assert "proxies" + ":" == "proxies:";
        L := LinksInSection(lines, sections, s, list, at, proxies);
        indent := list.indent;
      } else {
        assert "proxy-providers" + ":" == "proxy-providers:";
        ShiftedDeep(body, 2, entry.value - 2);
        Shallower(Shifted(body, entry.value - 2), 2);
        ProvidersInSection(lines, sections, L, s, at, Shifted(body, entry.value - 2));
      }
      plan := Some(p);
    } else {
      var at := NewSectionPoint(lines, groups, rules);
      PointOfSection(lines, sections, groups, rules);
      plan := Some(Insert(EMPTY, at, [key + ":"] + body + [""]));
      if mode == Links {
        assert "proxies" + ":" == "proxies:";
        L := LinksAsSection(lines, sections, at, proxies);
      } else {
        assert "proxy-providers" + ":" == "proxy-providers:";
        ProviderHeader();
        Shallower(body, 2);
        NewSection(lines, sections, L, EMPTY, at, "proxy-providers:", body);
        SameHeaders(lines, EMPTY, plan.value);
      }
    }
  }

  lemma Shallower(lines: seq<string>, indent: nat)
    requires AllDeep(lines, indent) && indent > 0
    ensures AllDeep(lines, 1)
  {
    Deeper(lines, indent, 1);
  }

  lemma SameHeaders(lines: seq<string>, plan: Plan, plan': Plan)
    requires HeadersOnly(lines, plan) && Replaced(plan') == Replaced(plan)
    ensures HeadersOnly(lines, plan')
  {
  }
}
