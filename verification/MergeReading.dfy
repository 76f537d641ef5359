/** Reading a merged configuration again: its providers, and the target of its MATCH rule. */
module MergeReading {
  import opened Wrappers
  import opened Text
  import opened YamlText
  import opened YamlDocument
  import opened YamlEmit
  import opened ProxyNames
  import opened LineEdits
  import opened MergedNames
  import opened MergePlan
  import opened MergeText
  import opened YamlFragment
  import opened YamlRoutes
  import opened MergePlacing
  import opened MergeRouting
  import opened SectionContent
  import opened SectionReading
  import opened MergedSections
  import opened YamlMerge

  // ---------- the shape of a merge ----------

  lemma InsertAdds(plan: Plan, at: nat, block: seq<string>, i: nat)
    ensures InsertedAt(Insert(plan, at, block).insertions, i) == InsertedAt(plan.insertions, i) + (if i == at then block else [])
    ensures Replaced(Insert(plan, at, block)) == Replaced(plan)
  {
  }

  lemma DeepInner(lines: seq<string>, indent: nat)
    requires AllDeep(lines, indent) && indent > 0
    ensures AllInner(lines) && AllInner(lines + [""])
  {
    hide IsTopLevel, IsDeep;
    forall k | 0 <= k < |lines|
      ensures !IsTopLevel(lines[k])
    {
      DeepShape(lines[k], indent);
    }
    EmptyInner();
  }

  lemma EmptyInner()
    ensures !IsTopLevel("")
  {
  }

  /** The header of a section that a merge adds. */
  lemma NewHeader(key: string)
    requires key == "proxies" || key == "proxy-providers" || key == "proxy-groups"
    ensures IsTopLevel(key + ":") && KeyLine(key + ":") == Some((key, ""))
  {
    KeyHeader(key);
  }

  lemma SectionBlockIs(lines: seq<string>, at: nat, key: string, body: seq<string>)
    requires key == "proxies" || key == "proxy-providers" || key == "proxy-groups"
    requires at <= |lines| && (at < |lines| ==> IsTopLevel(lines[at])) && AllInner(body + [""])
    ensures IsSectionBlock(lines, Block(at, [key + ":"] + body + [""], key))
  {
    hide IsTopLevel, KeyLine;
    NewHeader(key);
    assert ([key + ":"] + body + [""])[1..] == body + [""];
  }

  lemma PointIsBoundary(lines: seq<string>, sections: seq<Section>)
    requires IsDocument(lines, sections) && FindSection(sections, "proxy-groups").Some? && FindSection(sections, "rules").Some?
    ensures var q := NewSectionPoint(lines, SectionOf(sections, "proxy-groups"), SectionOf(sections, "rules"));
      q <= |lines| && (q < |lines| ==> IsTopLevel(lines[q]))
  {
    hide IsDocument, IsTopLevel, KeyLine, Matching;
    if SectionOf(sections, "proxy-groups").Some? {
      FoundSection(lines, sections, "proxy-groups", SectionOf(sections, "proxy-groups").value);
    } else if SectionOf(sections, "rules").Some? {
      FoundSection(lines, sections, "rules", SectionOf(sections, "rules").value);
    }
  }

  /** Sections are apart. */
  lemma SectionsApart(lines: seq<string>, sections: seq<Section>, s: Section, t: Section, q: nat)
    requires IsDocument(lines, sections) && s in sections && t in sections && s.key != t.key
    requires s.start < q <= s.end
    ensures !(t.start < q <= t.end)
  {
    hide IsTopLevel, KeyLine;
    var j :| 0 <= j < |sections| && sections[j] == s;
    var k :| 0 <= k < |sections| && sections[k] == t;
    if j < k {
      SectionsAscend(lines, sections, j, k);
    } else {
      SectionsAscend(lines, sections, k, j);
    }
  }

  /** Where the fragment is. */
  ghost predicate IsFragmentBlock(lines: seq<string>, sections: seq<Section>, mode: SourceMode, body: seq<string>, a: Block) {
    && a.owner == SectionKey(mode)
    && match SectionOf(sections, SectionKey(mode))
       case Some(s) =>
         && IsBlockValue(s.value) && IsContentEnd(lines, s.start, s.end, a.at) && AllInner(a.lines)
         && exists indent: nat :: IsEntryIndent(lines, mode, s, indent) && indent >= 2 && a.lines == Shifted(body, indent - 2)
       case None =>
         && IsSectionBlock(lines, a) && a.lines == [SectionKey(mode) + ":"] + body + [""]
         && a.at == NewSectionPoint(lines, SectionOf(sections, "proxy-groups"), SectionOf(sections, "rules"))
  }

  lemma FragmentBlock(lines: seq<string>, sections: seq<Section>, mode: SourceMode, body: seq<string>, plan: Plan) returns (a: Block)
    requires IsDocument(lines, sections) && AllDeep(body, 2)
    requires FindSection(sections, SectionKey(mode)).Some? && FindSection(sections, "proxy-groups").Some?
    requires FindSection(sections, "rules").Some?
    requires IsFragmentPlaced(lines, mode, SectionOf(sections, SectionKey(mode)), SectionOf(sections, "proxy-groups"),
                              SectionOf(sections, "rules"), body, plan)
    ensures IsFragmentBlock(lines, sections, mode, body, a) && IsBlock(lines, sections, a)
    ensures forall i: nat :: InsertedAt(plan.insertions, i) == BlockAt(a, i)
    ensures forall k :: k in Replaced(plan) ==> IsReplacement(lines, sections, k, Replaced(plan)[k], None)
  {
    hide IsDocument, IsTopLevel, KeyLine, AllDeep, Shifted, FindSection, IsEntryIndent, IsSectionBlock, Replaced;
    var key := SectionKey(mode);
    var section := SectionOf(sections, key);
    if section.Some? {
      var s := section.value;
      var at: nat, indent: nat :|
        && IsContentEnd(lines, s.start, s.end, at) && IsEntryIndent(lines, mode, s, indent) && indent >= 2
        && plan == Insert(if s.value != "" then Replace(EMPTY, s.start, key + ":") else EMPTY, at, Shifted(body, indent - 2));
      a := Block(at, Shifted(body, indent - 2), key);
      ShiftedDeep(body, 2, indent - 2);
      DeepInner(a.lines, 2);
      FoundSection(lines, sections, key, s);
      var start := if s.value != "" then Replace(EMPTY, s.start, key + ":") else EMPTY;
      forall i: nat
        ensures InsertedAt(plan.insertions, i) == BlockAt(a, i)
      {
        InsertAdds(start, at, a.lines, i);
        FreshPlan(start, i);
      }
      InsertAdds(start, at, a.lines, 0);
      NewHeader(key);
      HeaderOnly(lines, sections, s, key + ":", start);
    } else {
      var at := NewSectionPoint(lines, SectionOf(sections, "proxy-groups"), SectionOf(sections, "rules"));
      a := Block(at, [key + ":"] + body + [""], key);
      PointIsBoundary(lines, sections);
      DeepInner(body, 2);
      SectionBlockIs(lines, at, key, body);
      forall i: nat
        ensures InsertedAt(plan.insertions, i) == BlockAt(a, i)
      {
        InsertAdds(EMPTY, at, a.lines, i);
        FreshPlan(EMPTY, i);
      }
      InsertAdds(EMPTY, at, a.lines, 0);
      NothingReplaced();
    }
  }

  lemma NothingReplaced()
    ensures Replaced(EMPTY) == map[]
  {
  }

  lemma FreshPlan(plan: Plan, i: nat)
    requires plan.insertions == map[]
    ensures InsertedAt(plan.insertions, i) == []
  {
  }

  /** A header written anew, and nothing else. */
  lemma HeaderOnly(lines: seq<string>, sections: seq<Section>, s: Section, line: string, start: Plan)
    requires s in sections && s.start < |lines| && IsTopLevel(line) && KeyLine(line) == Some((s.key, ""))
    requires start == Replace(EMPTY, s.start, line) || start == EMPTY
    ensures start.insertions == map[]
    ensures forall k :: k in Replaced(start) ==> IsReplacement(lines, sections, k, Replaced(start)[k], None)
  {
    hide IsTopLevel, KeyLine;
    ReplacedNext(EMPTY, s.start, line);
    NothingReplaced();
  }

  // ---------- the route ----------

  /** What a route adds to a placed fragment: a block among the groups, or none, and replaced lines. */
  ghost predicate IsRouteBlock(lines: seq<string>, sections: seq<Section>, before: Plan, after: Plan, b: Block, touched: Option<Touched>) {
    && b.owner == "proxy-groups" && IsBlock(lines, sections, b)
    && (IsSectionBlock(lines, b) ==>
         && SectionOf(sections, "proxy-groups") == None
         && b.at == NewSectionPoint(lines, None, SectionOf(sections, "rules")))
    && (forall i: nat :: InsertedAt(after.insertions, i) == InsertedAt(before.insertions, i) + BlockAt(b, i))
    && (forall k :: k in Replaced(after) && (k in Replaced(before) ==> Replaced(after)[k] != Replaced(before)[k]) ==>
         IsReplacement(lines, sections, k, Replaced(after)[k], touched))
  }

  lemma InSectionReplaced(lines: seq<string>, sections: seq<Section>, t: Section, k: nat, line: string, touched: Option<Touched>)
    requires t in sections && t.start < k < t.end <= |lines| && !IsTopLevel(line)
    requires touched == Some(Touched(k, t.key))
    ensures IsReplacement(lines, sections, k, line, touched)
  {
    hide IsTopLevel, KeyLine;
  }

  lemma HeaderReplaced(lines: seq<string>, sections: seq<Section>, t: Section, line: string, touched: Option<Touched>)
    requires t in sections && t.start < |lines| && IsTopLevel(line) && KeyLine(line) == Some((t.key, ""))
    ensures IsReplacement(lines, sections, t.start, line, touched)
  {
    hide IsTopLevel, KeyLine;
  }

  /** Replacing one more line. */
  lemma RouteReplaces(lines: seq<string>, sections: seq<Section>, before: Plan, between: Plan, b: Block, touched: Option<Touched>, k: nat, line: string)
    requires IsRouteBlock(lines, sections, before, between, b, None) && IsReplacement(lines, sections, k, line, touched)
    ensures IsRouteBlock(lines, sections, before, Replace(between, k, line), b, touched)
    ensures k in Replaced(Replace(between, k, line)) && Replaced(Replace(between, k, line))[k] == line
  {
    hide IsTopLevel, KeyLine, IsBlock, IsSectionBlock, Replaced;
    ReplacedNext(between, k, line);
  }

  lemma NoBlock(lines: seq<string>, sections: seq<Section>, before: Plan) returns (b: Block)
    ensures IsRouteBlock(lines, sections, before, before, b, None)
  {
    b := Block(0, [], "proxy-groups");
    assert forall i: nat :: InsertedAt(before.insertions, i) + [] == InsertedAt(before.insertions, i);
    hide IsTopLevel, KeyLine;
  }

  /** A block inserted after a header has perhaps been written anew, or a line within the groups. */
  lemma InnerRoute(lines: seq<string>, sections: seq<Section>, s: Section, before: Plan, start: Plan, k: nat, line: string, b: Block,
                   touched: Option<Touched>)
    requires s in sections && s.key == "proxy-groups" && s.start < b.at <= s.end <= |lines|
    requires b.owner == "proxy-groups" && AllInner(b.lines)
    requires start == before || (start == Replace(before, k, line) && IsReplacement(lines, sections, k, line, touched))
    ensures IsRouteBlock(lines, sections, before, Insert(start, b.at, b.lines), b, touched)
  {
    hide IsTopLevel, KeyLine, IsReplacement, Replaced, IsSectionBlock;
    ReplacedNext(before, k, line);
    forall i: nat
      ensures InsertedAt(Insert(start, b.at, b.lines).insertions, i) == InsertedAt(before.insertions, i) + BlockAt(b, i)
    {
      InsertAdds(start, b.at, b.lines, i);
    }
    InsertAdds(start, b.at, b.lines, 0);
    InnerIsNoSection(lines, b);
  }

  lemma InnerIsNoSection(lines: seq<string>, b: Block)
    requires AllInner(b.lines)
    ensures !IsSectionBlock(lines, b)
  {
    hide IsTopLevel, KeyLine;
  }

  /** Where a new group is, and what it says. */
  ghost predicate IsGroupBlock(lines: seq<string>, sections: seq<Section>, name: string, target: string, mode: SourceMode,
                               names: seq<string>, b: Block) {
    match SectionOf(sections, "proxy-groups")
    case Some(s) =>
      && s.start < s.end <= |lines| && IsBlockValue(s.value) && IsContentEnd(lines, s.start, s.end, b.at) && AllInner(b.lines)
      && exists list :: IsBlockList(lines, s, Some(list)) && b.lines == GroupLines(list.indent, name, target, mode, names)
    case None =>
      IsSectionBlock(lines, b) && b.lines == ["proxy-groups:"] + GroupLines(2, name, target, mode, names) + [""]
  }

  /** The group of a merge, with the old target of the MATCH rule first. */
  ghost predicate IsGroupRouted(lines: seq<string>, sections: seq<Section>, name: string, mode: SourceMode, names: seq<string>, b: Block) {
    exists r :: MatchRuleIs(lines, sections, Some(r)) && IsGroupBlock(lines, sections, name, r.target, mode, names, b)
  }

  lemma GroupRoute(lines: seq<string>, sections: seq<Section>, name: string, target: string, mode: SourceMode, names: seq<string>,
                   before: Plan, after: Plan) returns (b: Block)
    requires IsDocument(lines, sections) && FindSection(sections, "proxy-groups").Some? && FindSection(sections, "rules").Some?
    requires IsGroupPlaced(lines, SectionOf(sections, "proxy-groups"), SectionOf(sections, "rules"), name, target, mode, names,
                           before, after)
    ensures IsRouteBlock(lines, sections, before, after, b, None)
    ensures IsGroupBlock(lines, sections, name, target, mode, names, b)
  {
    hide IsDocument, IsTopLevel, KeyLine, GroupLines, FindSection, IsBlockList, IsSectionBlock, Replaced, IsReplacement, IsRouteBlock;
    var key := "proxy-groups";
    NewHeader(key);
    assert key + ":" == "proxy-groups:";
    if SectionOf(sections, key).Some? {
      var s := SectionOf(sections, key).value;
      FoundSection(lines, sections, key, s);
      var at: nat, list :|
        && IsContentEnd(lines, s.start, s.end, at) && IsBlockList(lines, s, Some(list))
        && after == Insert(if s.value != "" then Replace(before, s.start, "proxy-groups:") else before, at,
                           GroupLines(list.indent, name, target, mode, names));
      ListIndent(lines, sections, s, list);
      GroupLinesDeep(list.indent, name, target, mode, names);
      DeepInner(GroupLines(list.indent, name, target, mode, names), 1);
      b := Block(at, GroupLines(list.indent, name, target, mode, names), key);
      HeaderReplaced(lines, sections, s, "proxy-groups:", None);
      InnerRoute(lines, sections, s, before, if s.value != "" then Replace(before, s.start, "proxy-groups:") else before,
                 s.start, "proxy-groups:", b, None);
    } else {
      var body := GroupLines(2, name, target, mode, names);
      GroupLinesDeep(2, name, target, mode, names);
      DeepInner(body, 1);
      b := Block(NewSectionPoint(lines, None, SectionOf(sections, "rules")), [key + ":"] + body + [""], key);
      PointIsBoundary(lines, sections);
      SectionBlockIs(lines, b.at, key, body);
      SectionRoute(lines, sections, before, b);
    }
  }

  lemma SectionRoute(lines: seq<string>, sections: seq<Section>, before: Plan, b: Block)
    requires b.owner == "proxy-groups" && IsSectionBlock(lines, b) && SectionOf(sections, "proxy-groups") == None
    requires b.at == NewSectionPoint(lines, None, SectionOf(sections, "rules"))
    ensures IsRouteBlock(lines, sections, before, Insert(before, b.at, b.lines), b, None)
  {
    hide IsTopLevel, KeyLine, IsReplacement, Replaced, IsSectionBlock, SectionOf;
    forall i: nat
      ensures InsertedAt(Insert(before, b.at, b.lines).insertions, i) == InsertedAt(before.insertions, i) + BlockAt(b, i)
    {
      InsertAdds(before, b.at, b.lines, i);
    }
    InsertAdds(before, b.at, b.lines, 0);
  }

  /** How the names join a group: behind the entries of its field, whose line is written anew if it was an empty list, or
      with a new field at the end of the group. */
  ghost predicate IsJoinBlock(lines: seq<string>, g: Group, mode: SourceMode, names: seq<string>, before: Plan, after: Plan, b: Block,
                              touched: Option<Touched>, field: Option<nat>) {
    var indent, key := g.indent + 2, FieldName(mode);
    var header := Spaces(indent) + key + ":";
    && IsLastField(lines, g.start + 1, g.end, indent, key, field) && AllInner(b.lines)
    && match field
       case Some(f) =>
         && f < |lines| && FieldValue(lines[f], indent, key) in {Some(""), Some("[]")}
         && IsFieldEnd(lines, f, g.end, indent, b.at) && b.lines == EntryLines(names, indent + 2)
         && touched == Some(Touched(f, "proxy-groups"))
         && (FieldValue(lines[f], indent, key) == Some("[]") ==> f in Replaced(after) && Replaced(after)[f] == header)
         && (FieldValue(lines[f], indent, key) == Some("") ==> f in Replaced(after) ==> f in Replaced(before))
       case None =>
         IsContentEnd(lines, g.start, g.end, b.at) && b.lines == [header] + EntryLines(names, indent + 2) && touched == None
  }

  lemma JoinRoute(lines: seq<string>, sections: seq<Section>, s: Section, g: Group, mode: SourceMode, names: seq<string>,
                  before: Plan, after: Plan) returns (b: Block, touched: Option<Touched>, field: Option<nat>)
    requires IsDocument(lines, sections) && s in sections && s.key == "proxy-groups" && s.end <= |lines| && IsGroup(lines, s, g)
    requires IsJoined(lines, before, after, g, mode, names)
    ensures IsRouteBlock(lines, sections, before, after, b, touched) && (touched.Some? ==> touched.value.owner == "proxy-groups")
    ensures IsJoinBlock(lines, g, mode, names, before, after, b, touched, field)
  {
    hide IsDocument, IsTopLevel, KeyLine, Replaced, IsReplacement, IsRouteBlock, FieldValue, FieldName, Spaces, EntryLines,
         IsLastField, IsFieldEnd, NameOf, KindOf, ItemIndent, IsJoinBlock;
    field :|
      && IsLastField(lines, g.start + 1, g.end, g.indent + 2, FieldName(mode), field)
      && IsJoinedAt(lines, before, after, g, mode, names, field);
    if field.Some? {
      b, touched := JoinField(lines, sections, s, g, mode, names, before, after, field.value);
    } else {
      b, touched := JoinNew(lines, sections, s, g, mode, names, before, after);
    }
  }

  lemma JoinField(lines: seq<string>, sections: seq<Section>, s: Section, g: Group, mode: SourceMode, names: seq<string>,
                  before: Plan, after: Plan, f: nat) returns (b: Block, touched: Option<Touched>)
    requires IsDocument(lines, sections) && s in sections && s.key == "proxy-groups" && s.end <= |lines| && IsGroup(lines, s, g)
    requires IsLastField(lines, g.start + 1, g.end, g.indent + 2, FieldName(mode), Some(f))
    requires IsJoinedAt(lines, before, after, g, mode, names, Some(f))
    ensures IsRouteBlock(lines, sections, before, after, b, touched) && touched == Some(Touched(f, "proxy-groups"))
    ensures IsJoinBlock(lines, g, mode, names, before, after, b, touched, Some(f))
  {
    hide IsDocument, IsTopLevel, KeyLine, IsSectionBlock, Replaced, IsReplacement, IsRouteBlock, FieldValue, FieldName, Spaces, EntryLines,
         IsLastField, IsFieldEnd, NameOf, KindOf, ItemIndent;
    var indent := g.indent + 2;
    var header, block := Spaces(indent) + FieldName(mode) + ":", EntryLines(names, indent + 2);
    LastField(lines, g.start + 1, g.end, indent, FieldName(mode), Some(f));
    FieldBlockDeep(indent, mode, names);
    DeepInner(block, 1);
    var start := if FieldValue(lines[f], indent, FieldName(mode)) == Some("[]") then Replace(before, f, header) else before;
    var at: nat :| IsFieldEnd(lines, f, g.end, indent, at) && after == Insert(start, at, block);
    FieldEndIn(lines, f, g.end, indent, at);
    b, touched := Block(at, block, "proxy-groups"), Some(Touched(f, "proxy-groups"));
    FieldLineDeep(indent, mode);
    DeepShape(header, indent);
    InSectionReplaced(lines, sections, s, f, header, touched);
    ReplacedNext(before, f, header);
    InsertAdds(start, at, block, 0);
    InnerRoute(lines, sections, s, before, start, f, header, b, touched);
  }

  lemma JoinNew(lines: seq<string>, sections: seq<Section>, s: Section, g: Group, mode: SourceMode, names: seq<string>,
                before: Plan, after: Plan) returns (b: Block, touched: Option<Touched>)
    requires IsDocument(lines, sections) && s in sections && s.key == "proxy-groups" && s.end <= |lines| && IsGroup(lines, s, g)
    requires IsLastField(lines, g.start + 1, g.end, g.indent + 2, FieldName(mode), None)
    requires IsJoinedAt(lines, before, after, g, mode, names, None)
    ensures IsRouteBlock(lines, sections, before, after, b, touched) && touched == None
    ensures IsJoinBlock(lines, g, mode, names, before, after, b, touched, None)
  {
    hide IsDocument, IsTopLevel, KeyLine, IsSectionBlock, Replaced, IsReplacement, IsRouteBlock, FieldValue, FieldName, Spaces, EntryLines,
         IsLastField, IsFieldEnd, NameOf, KindOf, ItemIndent;
    var indent := g.indent + 2;
    var block := [Spaces(indent) + FieldName(mode) + ":"] + EntryLines(names, indent + 2);
    FieldBlockDeep(indent, mode, names);
    DeepInner(block, 1);
    var at: nat :| IsContentEnd(lines, g.start, g.end, at) && after == Insert(before, at, block);
    b, touched := Block(at, block, "proxy-groups"), None;
    InnerRoute(lines, sections, s, before, before, 0, "", b, None);
  }

  lemma FieldEndIn(lines: seq<string>, f: nat, end: nat, indent: nat, at: nat)
    requires IsFieldEnd(lines, f, end, indent, at)
    ensures f < at <= end
  {
    hide IsDeeper, IsBlank;
  }

  /** Where the MATCH rule goes. */
  ghost predicate IsRuleWritten(lines: seq<string>, sections: seq<Section>, plan: Plan, touched: Option<Touched>, group: string) {
    exists r :: MatchRuleIs(lines, sections, Some(r)) && touched == Some(Touched(r.index, "rules")) && r.index in Replaced(plan)
                && Replaced(plan)[r.index] == RuleLine(r.indent, group)
  }

  lemma RouteIs(lines: seq<string>, mode: SourceMode, requestedGroup: string, m: Merge, group: string)
    returns (b: Block, touched: Option<Touched>)
    requires IsDocument(lines, m.file.sections) && GroupsAre(lines, m.file.sections, m.file.groups)
    requires HasRouted(lines, mode, requestedGroup, m, group)
    requires FindSection(m.file.sections, "proxy-groups").Some? && FindSection(m.file.sections, "rules").Some?
    ensures IsRouteBlock(lines, m.file.sections, m.placed, m.plan, b, touched)
    ensures requestedGroup == DIRECT || requestedGroup == CREATE ==> IsRuleWritten(lines, m.file.sections, m.plan, touched, group)
    ensures requestedGroup != DIRECT && requestedGroup != CREATE ==> TouchedIn(touched, "rules") == None
    ensures touched.Some? ==> touched.value.owner == "proxy-groups" || touched.value.owner == "rules"
    ensures requestedGroup == CREATE ==>
      TouchedIn(touched, "proxy-groups") == None && IsGroupRouted(lines, m.file.sections, group, mode, m.fragment.names, b)
  {
    hide IsDocument, IsTopLevel, KeyLine, FindSection, IsRouteBlock, IsReplacement, Replaced, MatchRuleIs, RuleLine, IsGroupPlaced, IsJoined,
         GroupsAre, IsSelect, IsGroupName, RuleTarget, IsGroupBlock;
    var sections := m.file.sections;
    if requestedGroup == DIRECT {
      var r :| MatchRuleIs(lines, sections, Some(r)) && m.plan == Replace(m.placed, r.index, RuleLine(r.indent, group));
      b := NoBlock(lines, sections, m.placed);
      touched := Some(Touched(r.index, "rules"));
      WriteRule(lines, sections, m.placed, m.placed, b, r, group);
    } else if requestedGroup == CREATE {
      var placed: Plan, r: Rule :|
        && IsGroupPlaced(lines, SectionOf(sections, "proxy-groups"), SectionOf(sections, "rules"), group, r.target, mode,
                         m.fragment.names, m.placed, placed)
        && MatchRuleIs(lines, sections, Some(r)) && IsKnownTarget(m.file.existing, r.target)
        && m.plan == Replace(placed, r.index, RuleLine(r.indent, group));
      b := GroupRoute(lines, sections, group, r.target, mode, m.fragment.names, m.placed, placed);
      touched := Some(Touched(r.index, "rules"));
      WriteRule(lines, sections, m.placed, placed, b, r, group);
    } else {
      var k: nat :| IsFirstSelect(m.file.groups, requestedGroup, k)
                    && IsJoined(lines, m.placed, m.plan, m.file.groups[k], mode, m.fragment.names);
      GroupInSection(lines, sections, m.file.groups, k, SectionOf(sections, "proxy-groups"));
      var field;
      b, touched, field := JoinRoute(lines, sections, SectionOf(sections, "proxy-groups").value, m.file.groups[k], mode,
                                     m.fragment.names, m.placed, m.plan);
    }
  }

  lemma WriteRule(lines: seq<string>, sections: seq<Section>, before: Plan, between: Plan, b: Block, r: Rule, group: string)
    requires IsDocument(lines, sections) && MatchRuleIs(lines, sections, Some(r)) && IsRouteBlock(lines, sections, before, between, b, None)
    ensures IsRouteBlock(lines, sections, before, Replace(between, r.index, RuleLine(r.indent, group)), b, Some(Touched(r.index, "rules")))
    ensures IsRuleWritten(lines, sections, Replace(between, r.index, RuleLine(r.indent, group)), Some(Touched(r.index, "rules")), group)
  {
    hide IsDocument, IsTopLevel, KeyLine, IsRouteBlock, IsReplacement, Replaced, MatchRuleIs, RuleLine, RuleTarget;
    var s := MatchRuleInside(lines, sections, r);
    RuleLineDeep(r.indent, group);
    InSectionReplaced(lines, sections, s, r.index, RuleLine(r.indent, group), Some(Touched(r.index, "rules")));
    RouteReplaces(lines, sections, before, between, b, Some(Touched(r.index, "rules")), r.index, RuleLine(r.indent, group));
  }

  // ---------- the whole shape ----------

  /** The fragment and the route are two blocks of different sections. */
  lemma ShapeIs(lines: seq<string>, sections: seq<Section>, mode: SourceMode, body: seq<string>, placed: Plan, plan: Plan,
                a: Block, b: Block, touched: Option<Touched>)
    requires IsDocument(lines, sections) && FindSection(sections, "proxy-groups").Some?
    requires IsFragmentBlock(lines, sections, mode, body, a) && IsBlock(lines, sections, a)
    requires forall i: nat :: InsertedAt(placed.insertions, i) == BlockAt(a, i)
    requires forall k :: k in Replaced(placed) ==> IsReplacement(lines, sections, k, Replaced(placed)[k], None)
    requires IsRouteBlock(lines, sections, placed, plan, b, touched)
    ensures IsShape(lines, sections, plan, a, b, touched)
  {
    hide IsDocument, IsTopLevel, KeyLine, IsFragmentBlock, IsBlock, IsSectionBlock, IsReplacement, Replaced, FindSection, BlockAt;
    OwnersDiffer(mode);
    FragmentOwner(lines, sections, mode, body, a);
    forall k | k in Replaced(plan)
      ensures IsReplacement(lines, sections, k, Replaced(plan)[k], touched)
    {
      if k in Replaced(placed) {
        AnyRule(lines, sections, k, Replaced(placed)[k], touched);
      }
    }
    if a.at == b.at && b.lines != [] && !IsSectionBlock(lines, b) {
      BlocksApart(lines, sections, mode, body, a, b);
    }
  }

  lemma OwnersDiffer(mode: SourceMode)
    ensures SectionKey(mode) != "proxy-groups" && SectionKey(mode) != "rules"
  {
  }

  lemma FragmentOwner(lines: seq<string>, sections: seq<Section>, mode: SourceMode, body: seq<string>, a: Block)
    requires IsFragmentBlock(lines, sections, mode, body, a)
    ensures a.owner == SectionKey(mode)
  {
    hide IsTopLevel, KeyLine;
  }

  lemma AnyRule(lines: seq<string>, sections: seq<Section>, k: nat, line: string, touched: Option<Touched>)
    requires IsReplacement(lines, sections, k, line, None)
    ensures IsReplacement(lines, sections, k, line, touched)
  {
    hide IsTopLevel, KeyLine;
  }

  /** Within the groups there is no fragment. */
  lemma BlocksApart(lines: seq<string>, sections: seq<Section>, mode: SourceMode, body: seq<string>, a: Block, b: Block)
    requires IsDocument(lines, sections) && FindSection(sections, "proxy-groups").Some?
    requires IsFragmentBlock(lines, sections, mode, body, a)
    requires b.owner == "proxy-groups" && IsBlock(lines, sections, b) && b.lines != [] && !IsSectionBlock(lines, b)
    ensures a.at != b.at
  {
    hide IsDocument, IsTopLevel, KeyLine, IsSectionBlock, Matching;
    OwnersDiffer(mode);
    var t :| t in sections && t.key == b.owner && t.start < b.at <= t.end <= |lines|;
    FoundGroups(lines, sections, t);
    var section := SectionOf(sections, SectionKey(mode));
    if section.Some? {
      FoundFragment(lines, sections, mode);
      SectionsApart(lines, sections, section.value, t, a.at);
    }
  }

  lemma FoundGroups(lines: seq<string>, sections: seq<Section>, t: Section)
    requires IsDocument(lines, sections) && FindSection(sections, "proxy-groups").Some? && t in sections && t.key == "proxy-groups"
    ensures SectionOf(sections, "proxy-groups") == Some(t)
  {
    hide IsTopLevel, KeyLine;
    MatchingMembers(sections, "proxy-groups");
  }

  lemma FoundFragment(lines: seq<string>, sections: seq<Section>, mode: SourceMode)
    requires IsDocument(lines, sections) && SectionOf(sections, SectionKey(mode)).Some?
    ensures SectionOf(sections, SectionKey(mode)).value in sections
    ensures SectionOf(sections, SectionKey(mode)).value.key == SectionKey(mode)
  {
    hide IsDocument, IsTopLevel, KeyLine, Matching;
    FoundSection(lines, sections, SectionKey(mode), SectionOf(sections, SectionKey(mode)).value);
  }

  // ---------- providers ----------

  lemma {:induction false} KeysAppend(a: seq<string>, b: seq<string>, indent: nat)
    ensures KeysAt(a + b, indent) == KeysAt(a, indent) + KeysAt(b, indent)
  {
    hide ProviderKey;
    if a == [] {
      assert a + b == b;
    } else {
      KeysAppend(a[1..], b, indent);
      KeysHead(a, indent);
      KeysHead(a + b, indent);
      assert (a + b)[1..] == a[1..] + b;
      Associate(if ProviderKey(a[0]).Some? && Indent(a[0]) == indent then [ProviderKey(a[0]).value] else [],
                KeysAt(a[1..], indent), KeysAt(b, indent));
      hide KeysAt;
    }
  }

  lemma KeysHead(a: seq<string>, indent: nat)
    requires a != []
    ensures KeysAt(a, indent) ==
      (if ProviderKey(a[0]).Some? && Indent(a[0]) == indent then [ProviderKey(a[0]).value] else []) + KeysAt(a[1..], indent)
  {
    hide ProviderKey;
  }

  /** A line of a provider, indented: its content, and its key if it is the first line. */
  lemma ProviderLine(name: string, shift: nat)
    requires IsWord(name) && forall k :: 0 <= k < |name| ==> KeyChar(name[k])
    ensures var line := Spaces(shift) + (Spaces(2) + name + ":");
      IsBody(line) && Indent(line) == shift + 2 && ProviderKey(line) == Some(name)
  {
    hide IsBody, ProviderKey, Indent, KeyChar, IsSpace;
    var line := Spaces(shift) + (Spaces(2) + name + ":");
    assert line == Spaces(shift + 2) + (name + ":");
    BlankSpace();
    KeyedLine(Spaces(shift + 2), name);
  }

  lemma BlankSpace()
    ensures IsSpace(' ')
  {
  }

  lemma KeyedLine(blank: string, name: string)
    requires name != "" && (forall k :: 0 <= k < |name| ==> KeyChar(name[k])) && forall k :: 0 <= k < |blank| ==> IsSpace(blank[k])
    ensures var line := blank + (name + ":"); IsBody(line) && Indent(line) == |blank| && ProviderKey(line) == Some(name)
  {
    hide KeyChar, KeyLength, IsSpace;
    var line := blank + (name + ":");
    KeyStart(name);
    assert line[|blank|] == name[0];
    IndentIs(line, |blank|);
    hide Indent;
    KeyLengthAll(name, ":");
    assert TrimStart(line) == name + ":";
  }

  lemma KeyStart(name: string)
    requires name != "" && KeyChar(name[0])
    ensures !IsSpace(name[0]) && name[0] != '#' && !KeyChar(':')
  {
  }

  lemma DeeperLine(line: string, shift: nat)
    requires Indent(line) == 4 && 4 < |line| && line[4] != '#'
    ensures IsBody(Spaces(shift) + line) && Indent(Spaces(shift) + line) == shift + 4
  {
    var t := Spaces(shift) + line;
    assert forall k :: 0 <= k < 4 ==> IsSpace(line[k]);
    assert t[shift + 4] == line[4];
    IndentIs(t, shift + 4);
  }

  /** The lines of a provider behind its first one. */
  function Options(name: string, url: string): seq<string> {
    ProviderLines(name, url)[1..]
  }

  lemma OptionLines(name: string, url: string, shift: nat)
    ensures |Options(name, url)| == 5
    ensures forall k :: 0 <= k < 5 ==> IsBody(Spaces(shift) + Options(name, url)[k]) && Indent(Spaces(shift) + Options(name, url)[k]) == shift + 4
  {
    hide Quote;
    var lines := ProviderLines(name, url);
    forall k | 1 <= k < 6
      ensures IsBody(Spaces(shift) + lines[k]) && Indent(Spaces(shift) + lines[k]) == shift + 4
    {
      OptionStart(lines[k], if k == 1 then "type: http" else if k == 2 then "url: " + Quote(url)
        else if k == 3 then "path: ./proxy-providers/" + name + ".yaml" else if k == 4 then "interval: 3600" else "format: uri", shift);
    }
  }

  lemma OptionStart(line: string, text: string, shift: nat)
    requires line == Spaces(4) + text && text != "" && IsLetter(text[0])
    ensures IsBody(Spaces(shift) + line) && Indent(Spaces(shift) + line) == shift + 4
  {
    assert line[4] == text[0];
    IndentIs(line, 4);
    DeeperLine(line, shift);
  }

  lemma {:induction false} AllBodies(lines: seq<string>)
    requires forall k :: 0 <= k < |lines| ==> IsBody(lines[k])
    ensures Bodies(lines) == lines
  {
    hide IsBody;
    if lines != [] {
      AllBodies(lines[1..]);
    }
  }

  lemma {:induction false} NoKeys(lines: seq<string>, indent: nat)
    requires forall k :: 0 <= k < |lines| ==> Indent(lines[k]) != indent
    ensures KeysAt(lines, indent) == []
  {
    hide ProviderKey;
    if lines != [] {
      NoKeys(lines[1..], indent);
    }
  }

  /** One provider brings its name. */
  lemma ProviderContent(name: string, url: string, shift: nat)
    requires IsKey(name)
    ensures Brings(Bodies(Shifted(ProviderLines(name, url), shift)), [name], shift)
  {
    hide Spaces, IsBody, Bodies, KeysAt, Options, ProviderKey;
    WordName(name);
    ProviderLine(name, shift);
    OptionLines(name, url, shift);
    var lines := Shifted(ProviderLines(name, url), shift);
    ProviderHead(name, url, shift);
    forall k | 0 <= k < 6
      ensures IsBody(lines[k]) && (k > 0 ==> Indent(lines[k]) == shift + 4)
    {
      if k > 0 {
        assert lines[(k - 1) + 1] == Spaces(shift) + Options(name, url)[k - 1];
      }
    }
    hide ProviderLines;
    AllBodies(lines);
    KeysHead(lines, shift + 2);
    NoKeys(lines[1..], shift + 2);
    assert [name] + [] == [name];
  }

  lemma WordName(name: string)
    requires IsKey(name)
    ensures IsWord(name)
  {
  }

  lemma ProviderHead(name: string, url: string, shift: nat)
    ensures var lines := Shifted(ProviderLines(name, url), shift);
      && |lines| == 6 && lines[0] == Spaces(shift) + (Spaces(2) + name + ":")
      && forall k :: 0 <= k < 5 ==> lines[k + 1] == Spaces(shift) + Options(name, url)[k]
  {
    hide Spaces, Quote;
  }

  /** The content that providers bring. */
  function Brought(names: seq<string>, urls: seq<string>, shift: nat): seq<string>
    requires |names| <= |urls|
  {
    Bodies(Shifted(ProviderList(names, urls), shift))
  }

  lemma BroughtNext(names: seq<string>, urls: seq<string>, shift: nat)
    requires names != [] && |names| <= |urls|
    ensures var n := |names| - 1;
      Brought(names, urls, shift) == Brought(names[..n], urls, shift) + Bodies(Shifted(ProviderLines(names[n], urls[n]), shift))
  {
    var n := |names| - 1;
    var before, last := ProviderList(names[..n], urls), ProviderLines(names[n], urls[n]);
    assert ProviderList(names, urls) == before + last;
    hide ProviderList, ProviderLines, Bodies, Shifted;
    ShiftedAppend(before, last, shift);
    BodiesAppend(Shifted(before, shift), Shifted(last, shift));
  }

  /** Content with the keys of some providers, the first of them in its first line. */
  ghost predicate Brings(content: seq<string>, names: seq<string>, shift: nat) {
    && KeysAt(content, shift + 2) == names
    && (names != [] ==> content != [] && content[0] == Spaces(shift) + (Spaces(2) + names[0] + ":"))
    && (names == [] ==> content == [])
  }

  lemma BringsMore(x: seq<string>, names: seq<string>, y: seq<string>, name: string, shift: nat)
    requires Brings(x, names, shift) && Brings(y, [name], shift)
    ensures Brings(x + y, names + [name], shift)
  {
    hide Spaces, KeysAt;
    KeysAppend(x, y, shift + 2);
    if names == [] {
      assert x + y == y;
    }
  }

  lemma {:induction false} ProvidersContent(names: seq<string>, urls: seq<string>, shift: nat)
    requires |names| <= |urls| && forall k :: 0 <= k < |names| ==> IsKey(names[k])
    ensures Brings(Brought(names, urls, shift), names, shift)
  {
    hide Brought, Brings, IsKey, ProviderLines, Bodies, Shifted;
    if names == [] {
      NoProviderContent(urls, shift);
    } else {
      var n := |names| - 1;
      ProvidersContent(names[..n], urls, shift);
      ProviderContent(names[n], urls[n], shift);
      BroughtNext(names, urls, shift);
      BringsMore(Brought(names[..n], urls, shift), names[..n], Bodies(Shifted(ProviderLines(names[n], urls[n]), shift)), names[n], shift);
      assert names == names[..n] + [names[n]];
    }
  }

  lemma NoProviderContent(urls: seq<string>, shift: nat)
    ensures Brings(Brought([], urls, shift), [], shift)
  {
  }

  lemma NamesAreProviderNames(names: seq<string>, reserved: set<string>)
    requires AreProviderNames(names, reserved)
    ensures forall k :: 0 <= k < |names| ==> IsKey(names[k])
  {
    forall k | 0 <= k < |names|
      ensures IsKey(names[k])
    {
      assert IsFirstNumber(k, reserved + NameSet(names[..k]), names[k]);
      var j: nat :| names[k] == ProviderCandidate(k, j);
      DecimalDigits(k + 1 + j);
    }
  }

  lemma DecimalDigits(n: nat)
    ensures forall k :: 0 <= k < |Decimal(n)| ==> IsDigit(Decimal(n)[k])
  {
    ParseOfDecimal(n);
  }

  /** Behind the providers there are come the new ones. */
  lemma ProvidersGrow(content: seq<string>, names: seq<string>, urls: seq<string>, indent: nat)
    requires ProviderKeys(content).Some? && indent >= 2 && indent == if content == [] then 2 else Indent(content[0])
    requires |names| <= |urls| && forall k :: 0 <= k < |names| ==> IsKey(names[k])
    ensures ProviderKeys(content + Brought(names, urls, indent - 2))
      == Some(ProviderKeys(content).value + names)
  {
    hide Spaces, IsBody, ProviderKey, IsKey, KeysAt, Brought;
    var more := Brought(names, urls, indent - 2);
    ProvidersContent(names, urls, indent - 2);
    KeysAppend(content, more, indent);
    if content == [] {
      assert content + more == more;
      NoKeyLines(indent);
      if names != [] {
        FirstProvider(names[0], indent - 2);
      }
    }
  }

  lemma NoKeyLines(indent: nat)
    ensures KeysAt([], indent) == []
  {
  }

  lemma FirstProvider(name: string, shift: nat)
    requires IsKey(name)
    ensures var line := Spaces(shift) + (Spaces(2) + name + ":"); Indent(line) == shift + 2 && ProviderKey(line) == Some(name)
  {
    WordName(name);
    ProviderLine(name, shift);
  }

  // ---------- reading a merge again ----------

  lemma MergeShape(text: string, names: seq<string>, group: string, lines: seq<string>, mode: SourceMode, source: string,
                   requestedGroup: string, parse: (string, nat) -> Option<Proxy>, isUrl: string -> bool, m: Merge)
    returns (a: Block, b: Block, touched: Option<Touched>)
    requires WasMerged(text, names, group, lines, mode, source, requestedGroup, parse, isUrl, m)
    ensures IsShape(lines, m.file.sections, m.plan, a, b, touched) && b.owner == "proxy-groups"
    ensures FindSection(m.file.sections, SectionKey(mode)).Some? && FindSection(m.file.sections, "proxy-groups").Some?
    ensures TouchedIn(touched, SectionKey(mode)) == None
    ensures IsFragmentBlock(lines, m.file.sections, mode, FragmentBody(m.fragment.text), a) && a.owner == SectionKey(mode)
    ensures requestedGroup == DIRECT || requestedGroup == CREATE ==> IsRuleWritten(lines, m.file.sections, m.plan, touched, group)
    ensures requestedGroup != DIRECT && requestedGroup != CREATE ==> TouchedIn(touched, "rules") == None
    ensures touched.Some? ==> touched.value.owner == "proxy-groups" || touched.value.owner == "rules"
    ensures requestedGroup == CREATE ==>
      TouchedIn(touched, "proxy-groups") == None && IsGroupRouted(lines, m.file.sections, group, mode, m.fragment.names, b)
  {
    hide IsDocument, IsTopLevel, KeyLine, FindSection, IsRouteBlock, IsReplacement, Replaced, MatchRuleIs, IsFragmentBlock, IsShape, IsBlock,
         GroupsAre, IsLinkFragment, IsProviderFragment, FragmentBody, IsFragmentPlaced, Edited, AllDeep, ReadsAsMerged, NamesOf,
         IsRouted, IsRuleWritten, IsPlan, IsClean, AreFresh, OnlyReplaceable, ProviderNames, IsGroupRouted;
    var sections := m.file.sections;
    HasSections(lines, mode, m);
    var body := FragmentBody(m.fragment.text);
    BodyIs(mode, source, m.file.existing, parse, isUrl, m.fragment, m.proxies, body);
    a := FragmentBlock(lines, sections, mode, body, m.placed);
    b, touched := RouteIs(lines, mode, requestedGroup, m, group);
    ShapeIs(lines, sections, mode, body, m.placed, m.plan, a, b, touched);
    RouteOwner(lines, sections, m.placed, m.plan, b, touched);
    OwnersDiffer(mode);
    FragmentOwner(lines, sections, mode, body, a);
  }

  lemma RouteOwner(lines: seq<string>, sections: seq<Section>, before: Plan, after: Plan, b: Block, touched: Option<Touched>)
    requires IsRouteBlock(lines, sections, before, after, b, touched)
    ensures b.owner == "proxy-groups"
  {
    hide IsTopLevel, KeyLine, IsReplacement, IsBlock;
  }

  /** A file that has been read has no section twice that matters. */
  lemma HasSections(lines: seq<string>, mode: SourceMode, m: Merge)
    requires IsRead(lines, m.file)
    ensures FindSection(m.file.sections, "proxy-groups").Some? && FindSection(m.file.sections, SectionKey(mode)).Some?
  {
    hide IsDocument, IsTopLevel, KeyLine, Matching, NamesOf, IsBlockList;
    if mode == Links {
      AtMostOneSection(lines, m.file.sections);
    }
  }

  /** The merged text has readable headers, and its sections are those of the edited lines. */
  lemma TextIsEdited(text: string, names: seq<string>, group: string, lines: seq<string>, mode: SourceMode, source: string,
                     requestedGroup: string, parse: (string, nat) -> Option<Proxy>, isUrl: string -> bool, m: Merge, key: string)
    requires WasMerged(text, names, group, lines, mode, source, requestedGroup, parse, isUrl, m)
    requires mode == Subscriptions || AllReadable(names)
    ensures var edited := Edited(lines, m.plan.insertions, Replaced(m.plan));
      AllHeaders(edited) && ReadSection(key, Lines(text)) == ReadSection(key, edited)
  {
    hide IsRead, HasParsed, HasPlaced, HasRouted, Edited, Replaced, NamesOf, Lines, EndOnce, Join, IsClean, AllReadable, AllHeaders, ReadSection,
         OnlyReplaceable, IsPlan, FindSection;
    var edited := Edited(lines, m.plan.insertions, Replaced(m.plan));
    Reread(edited);
    RereadSection(key, edited);
    NamesNeedHeaders(edited);
  }

  /** The providers of the merged file: those there were, and the new ones. */
  lemma ProvidersReread(text: string, names: seq<string>, group: string, lines: seq<string>, mode: SourceMode, source: string,
                        requestedGroup: string, parse: (string, nat) -> Option<Proxy>, isUrl: string -> bool, m: Merge)
    requires WasMerged(text, names, group, lines, mode, source, requestedGroup, parse, isUrl, m)
    requires mode == Subscriptions || AllReadable(names)
    ensures ProvidersOf(lines).Some?
    ensures ProvidersOf(Lines(text)) == Some(if mode == Subscriptions then ProvidersOf(lines).value + names else ProvidersOf(lines).value)
  {
    var key, sections := "proxy-providers", m.file.sections;
    TextIsEdited(text, names, group, lines, mode, source, requestedGroup, parse, isUrl, m, key);
    var a, b, touched := MergeShape(text, names, group, lines, mode, source, requestedGroup, parse, isUrl, m);
    hide IsTopLevel, KeyLine, FindSection, IsReplacement, Replaced, IsFragmentBlock, IsShape, ReadSection, ProviderKeys,
         GroupsAre, IsLinkFragment, IsProviderFragment, FragmentBody, IsFragmentPlaced, Edited, ReadsAsMerged, NamesOf, Lines,
         IsRouted, IsRuleWritten, IsPlan, IsClean, AreFresh, OnlyReplaceable, ProviderNames, HasPlaced, HasRouted, AllReadable, AllHeaders,
         IsDocument, HasParsed, IsBlock;
    ProvidersAreRead(lines, sections);
    if mode == Links {
      SectionKept(lines, sections, m.plan, a, b, touched, key);
    } else {
      ProvidersAdded(lines, source, parse, isUrl, m, a, b, touched);
    }
  }

  lemma ProvidersAdded(lines: seq<string>, source: string, parse: (string, nat) -> Option<Proxy>, isUrl: string -> bool, m: Merge,
                       a: Block, b: Block, touched: Option<Touched>)
    requires HasParsed(Subscriptions, source, parse, isUrl, m) && m.fragment.text != "" && ProvidersOf(lines).Some?
    requires TouchedIn(touched, "proxy-providers") == None
    requires IsShape(lines, m.file.sections, m.plan, a, b, touched) && FindSection(m.file.sections, "proxy-providers").Some?
    requires IsFragmentBlock(lines, m.file.sections, Subscriptions, FragmentBody(m.fragment.text), a)
    requires AllHeaders(Edited(lines, m.plan.insertions, Replaced(m.plan)))
    ensures var content := ReadSection("proxy-providers", Edited(lines, m.plan.insertions, Replaced(m.plan)));
      content.Some? && ProviderKeys(content.value) == Some(ProvidersOf(lines).value + m.fragment.names)
  {
    hide IsDocument, IsTopLevel, KeyLine, FindSection, IsReplacement, Replaced, ReadSection, ProviderKeys, Shifted,
         IsLinkFragment, FragmentBody, Edited, AreFresh, AllHeaders, Brought, ProviderList, AreProviderNames, IsFragmentBlock, IsShape,
         Entries, Urls, FragmentText, Bodies, IsBlockValue;
    var names, urls, body := m.fragment.names, Urls(Entries(source), isUrl), FragmentBody(m.fragment.text);
    BodyIs(Subscriptions, source, m.file.existing, parse, isUrl, m.fragment, m.proxies, body);
    NamesAreProviderNames(names, NameSet(m.file.existing));
    var content, indent := FragmentContent(lines, Subscriptions, body, m, a, b, touched);
    BroughtIs(names, urls, indent - 2);
    ProvidersGrow(content, names, urls, indent);
  }

  /** The fragment comes behind the content of its section, indented like it. */
  lemma FragmentContent(lines: seq<string>, mode: SourceMode, body: seq<string>, m: Merge, a: Block, b: Block, touched: Option<Touched>)
    returns (content: seq<string>, indent: nat)
    requires TouchedIn(touched, SectionKey(mode)) == None && FindSection(m.file.sections, SectionKey(mode)).Some?
    requires IsShape(lines, m.file.sections, m.plan, a, b, touched) && IsFragmentBlock(lines, m.file.sections, mode, body, a)
    requires AllHeaders(Edited(lines, m.plan.insertions, Replaced(m.plan)))
    ensures ReadSection(SectionKey(mode), lines) == Some(content) && indent >= 2
    ensures mode == Links && content != [] ==> ItemIndent(content[0]) == Some(indent)
    ensures mode == Subscriptions ==> indent == if content == [] then 2 else Indent(content[0])
    ensures ReadSection(SectionKey(mode), Edited(lines, m.plan.insertions, Replaced(m.plan)))
      == Some(content + Bodies(Shifted(body, indent - 2)))
  {
    hide IsDocument, IsTopLevel, KeyLine, FindSection, IsReplacement, Replaced, IsSectionBlock, ReadSection, Shifted,
         Edited, AllHeaders, IsBlock, IsContentEnd, Bodies, IsBlockValue, IsInStep, OnlyReplaces, IsItemList, NoBody, ItemIndent;
    var key, sections := SectionKey(mode), m.file.sections;
    if SectionOf(sections, key).Some? {
      var s := SectionOf(sections, key).value;
      indent :| IsEntryIndent(lines, mode, s, indent) && indent >= 2 && a.lines == Shifted(body, indent - 2);
      content := Bodies(lines[s.start + 1..s.end]);
      OneRead(lines, sections, key, s);
      ShapeInStep(lines, sections, m.plan, a, b, touched, key);
      SectionGrown(lines, sections, m.plan, a, b, touched, a, s);
      InnerAdded(a);
      if mode == Links {
        var list :| IsBlockList(lines, s, Some(list)) && indent == list.indent;
        ListContent(lines, s, list);
      }
    } else {
      content, indent := [], 2;
      NoneRead(lines, sections, key);
      SectionCome(lines, sections, m.plan, a, b, touched, a);
      NewHeader(key);
      SectionAdded(a, key + ":", body);
      NotShifted(body);
      assert [] + Bodies(body) == Bodies(body);
    }
  }

  lemma NothingRead()
    ensures ProviderKeys([]) == Some([])
  {
  }

  lemma InnerAdded(a: Block)
    requires AllInner(a.lines)
    ensures Added(a) == Bodies(a.lines)
  {
    hide IsTopLevel, Bodies;
  }

  lemma SectionAdded(a: Block, header: string, body: seq<string>)
    requires a.lines == [header] + body + [""] && IsTopLevel(header)
    ensures Added(a) == Bodies(body)
  {
    hide IsTopLevel, IsBody;
    assert a.lines[1..] == body + [""];
    BodiesAppend(body, [""]);
    EmptyLine();
    assert Bodies(body) + [] == Bodies(body);
  }

  lemma EmptyLine()
    ensures Bodies([""]) == []
  {
    assert [""][1..] == [];
    assert IsBlank("");
  }

  lemma BroughtIs(names: seq<string>, urls: seq<string>, shift: nat)
    requires |names| <= |urls|
    ensures Brought(names, urls, shift) == Bodies(Shifted(ProviderList(names, urls), shift))
  {
  }

  lemma NotShifted(lines: seq<string>)
    ensures Shifted(lines, 0) == lines
  {
    forall k | 0 <= k < |lines|
      ensures Shifted(lines, 0)[k] == lines[k]
    {
      assert Spaces(0) == "";
      assert "" + lines[k] == lines[k];
    }
  }

  // ---------- routes that can be read ----------

  lemma {:induction false} PrefixReadable(prefix: string, s: string)
    requires forall k :: 0 <= k < |prefix| ==> !RawSpace(prefix[k]) && !IsRawBreak(prefix[k])
    ensures IsReadable(prefix + s) == IsReadable(s)
  {
    if prefix == "" {
      assert prefix + s == s;
    } else {
      PrefixReadable(prefix[1..], s);
      var t := prefix + s;
      assert t[1..] == prefix[1..] + s && t[0] == prefix[0];
      assert NoRawBreak(t) == NoRawBreak(t[1..]) by {
        assert t == [t[0]] + t[1..];
      }
    }
  }

  /** The rule to a readable name can be read, and the names of new groups are readable. */
  lemma RouteReadable(existing: set<string>, group: string)
    ensures IsReadable("MATCH," + group) == IsReadable(group)
    ensures IsGroupName(existing, group) ==> IsReadable(group) && Trim(group) == group
  {
    PrefixReadable("MATCH,", group);
    if IsGroupName(existing, group) {
      var k: nat :| group == GroupCandidate(k);
      DecimalDigits(k + 1);
      assert forall i :: 0 <= i < |group| ==> !RawSpace(group[i]) && !IsRawBreak(group[i]) && !IsSpace(group[i]);
      PrefixReadable(group, "");
      assert group + "" == group;
      TrimVisible(group);
    }
  }

  /** The group, or the proxy, that the MATCH rule is made to lead to can be read in it. */
  lemma GroupReadable(text: string, names: seq<string>, group: string, lines: seq<string>, mode: SourceMode, source: string,
                      requestedGroup: string, parse: (string, nat) -> Option<Proxy>, isUrl: string -> bool, m: Merge)
    requires WasMerged(text, names, group, lines, mode, source, requestedGroup, parse, isUrl, m)
    requires mode == Subscriptions || AllReadable(names)
    requires requestedGroup == DIRECT || requestedGroup == CREATE
    ensures IsReadable("MATCH," + group) && IsReadable(group) && (requestedGroup == CREATE ==> Trim(group) == group)
  {
    hide IsReadable, IsGroupName, IsGroupPlaced, MatchRuleIs, IsRead, HasParsed, HasPlaced, Edited, Replaced, ReadsAsMerged, IsPlan, IsClean,
         FindSection, IsRuleReplaced, Trim;
    RouteReadable(NameSet(m.file.existing), group);
    if requestedGroup == DIRECT {
      assert names[0] == group;
    }
  }

  // ---------- the MATCH rule ----------

  /** A written rule, as it is read again. */
  lemma RuleLineTarget(indent: nat, target: string)
    ensures ItemIndent(RuleLine(indent, target)) == Some(indent)
    ensures IsReadable("MATCH," + target) ==> RuleTarget(RuleLine(indent, target)) == Some(Some(Trim(target)))
  {
    hide Quote, Trim, IsReadable, YamlValue, IsCaptured;
    var line, text := RuleLine(indent, target), "MATCH," + target;
    assert line == Spaces(indent) + ("- " + Quote(text));
    IndentIs(line, indent);
    var rest := line[indent + 1..];
    QuoteStarts(text);
    assert rest == " " + Quote(text);
    IndentIs(rest, 1);
    if IsReadable(text) {
      ReadableRule(text);
      assert text[..6] == "MATCH," && text[6..] == target;
    }
  }

  lemma QuoteStarts(s: string)
    ensures Quote(s) != "" && !IsSpace(Quote(s)[0])
  {
  }

  lemma ReadableRule(text: string)
    requires IsReadable(text)
    ensures IsCaptured(" " + Quote(text)) && YamlValue(" " + Quote(text)) == Some(text)
  {
    QuoteCaptured(text);
    QuotedReadBack(text);
  }

  /** Behind the last MATCH rule no other one is found. */
  lemma {:induction false} TargetStays(lines: seq<string>, indent: nat, from: nat, i: nat, end: nat, before: seq<string>)
    requires from <= i <= end <= |lines|
    requires forall k :: from <= k < end && ItemAt(lines, k, indent) ==> RuleTarget(lines[k]) == Some(None)
    ensures LastTarget(before + Bodies(lines[from..i]), indent) == LastTarget(before, indent)
    decreases i
  {
    hide RuleTarget, ItemIndent, IsBody, Bodies, LastTarget;
    if i == from {
      NothingTargeted(lines, from, indent);
      assert before + [] == before;
    } else {
      TargetStays(lines, indent, from, i - 1, end, before);
      BodiesNext(lines, from, i - 1);
      var content := Bodies(lines[from..i - 1]);
      if IsBody(lines[i - 1]) {
        assert before + (content + [lines[i - 1]]) == before + content + [lines[i - 1]];
        LastTargetNext(before + content, lines[i - 1], indent);
      } else {
        assert content + [] == content;
      }
    }
  }

  /** Content with its last MATCH rule replaced by another one. */
  lemma TargetReplaced(lines: seq<string>, s: Section, list: BlockList, r: Rule, line: string, target: string)
    requires s.start < s.end <= |lines| && IsBlockList(lines, s, Some(list)) && IsMatchRule(lines, s, list, Some(r))
    requires ItemIndent(line) == Some(list.indent) && RuleTarget(line) == Some(Some(target))
    ensures s.start < r.index < s.end
    ensures MatchTarget(Bodies(lines[s.start + 1..r.index]) + ([line] + Bodies(lines[r.index + 1..s.end]))) == Some(Some(target))
  {
    hide RuleTarget, ItemIndent, IsBody, Bodies, LastTarget, IsBlockValue, NoBody, IsItemList;
    var from, indent := s.start + 1, list.indent;
    ListedMatch(lines, s, list, Some(r));
    TargetFrom(lines, indent, from, r.index, s.end, Some(r));
    var before, rest := Bodies(lines[from..r.index]), Bodies(lines[r.index + 1..s.end]);
    LastTargetNext(before, line, indent);
    TargetStays(lines, indent, r.index + 1, s.end, s.end, before + [line]);
    assert before + ([line] + rest) == before + [line] + rest;
    if before != [] {
      ListContent(lines, s, list);
      assert lines[from..s.end] == lines[from..r.index] + lines[r.index..s.end];
      BodiesAppend(lines[from..r.index], lines[r.index..s.end]);
    }
  }

  /** The MATCH rule of the merged file leads to the group, or the proxy, of the route. */
  lemma MatchReread(text: string, names: seq<string>, group: string, lines: seq<string>, mode: SourceMode, source: string,
                    requestedGroup: string, parse: (string, nat) -> Option<Proxy>, isUrl: string -> bool, m: Merge)
    requires WasMerged(text, names, group, lines, mode, source, requestedGroup, parse, isUrl, m)
    requires mode == Subscriptions || AllReadable(names)
    requires requestedGroup == DIRECT || requestedGroup == CREATE
    ensures MatchOf(Lines(text)) == Some(Some(if requestedGroup == CREATE then group else Trim(group)))
  {
    GroupReadable(text, names, group, lines, mode, source, requestedGroup, parse, isUrl, m);
    var key, sections := "rules", m.file.sections;
    TextIsEdited(text, names, group, lines, mode, source, requestedGroup, parse, isUrl, m, key);
    var a, b, touched := MergeShape(text, names, group, lines, mode, source, requestedGroup, parse, isUrl, m);
    hide IsTopLevel, KeyLine, FindSection, IsReplacement, Replaced, IsFragmentBlock, IsShape, ReadSection, MatchTarget, MatchRuleIs, RuleLine,
         GroupsAre, FragmentBody, IsFragmentPlaced, Edited, ReadsAsMerged, NamesOf, Lines, IsReadable, Trim,
         IsRouted, IsPlan, IsClean, OnlyReplaceable, HasPlaced, HasRouted, AllReadable, AllHeaders,
         IsDocument, HasParsed, IsBlock, IsRead, WasMerged, IsGroupRouted;
    var r :| MatchRuleIs(lines, sections, Some(r)) && touched == Some(Touched(r.index, "rules")) && r.index in Replaced(m.plan)
             && Replaced(m.plan)[r.index] == RuleLine(r.indent, group);
    RuleRewritten(lines, sections, mode, m.plan, a, b, r, group);
  }

  /** When a group there is gets the names, the MATCH rule stays. */
  lemma MatchKept(text: string, names: seq<string>, group: string, lines: seq<string>, mode: SourceMode, source: string,
                  requestedGroup: string, parse: (string, nat) -> Option<Proxy>, isUrl: string -> bool, m: Merge)
    requires WasMerged(text, names, group, lines, mode, source, requestedGroup, parse, isUrl, m)
    requires mode == Subscriptions || AllReadable(names)
    requires requestedGroup != DIRECT && requestedGroup != CREATE && ReadSection("rules", lines).Some?
    ensures MatchOf(Lines(text)) == MatchOf(lines)
  {
    hide WasMerged, AllReadable, ReadSection, Lines, MatchTarget;
    RulesKept(text, names, group, lines, mode, source, requestedGroup, parse, isUrl, m);
  }

  lemma RulesKept(text: string, names: seq<string>, group: string, lines: seq<string>, mode: SourceMode, source: string,
                  requestedGroup: string, parse: (string, nat) -> Option<Proxy>, isUrl: string -> bool, m: Merge)
    requires WasMerged(text, names, group, lines, mode, source, requestedGroup, parse, isUrl, m)
    requires mode == Subscriptions || AllReadable(names)
    requires requestedGroup != DIRECT && requestedGroup != CREATE && ReadSection("rules", lines).Some?
    ensures ReadSection("rules", Lines(text)) == ReadSection("rules", lines)
  {
    hide *;
    TextIsEdited(text, names, group, lines, mode, source, requestedGroup, parse, isUrl, m, "rules");
    var a, b, touched := MergeShape(text, names, group, lines, mode, source, requestedGroup, parse, isUrl, m);
    OwnersDiffer(mode);
    SectionKept(lines, m.file.sections, m.plan, a, b, touched, "rules");
  }

  lemma RuleRewritten(lines: seq<string>, sections: seq<Section>, mode: SourceMode, plan: Plan, a: Block, b: Block, r: Rule, group: string)
    requires IsShape(lines, sections, plan, a, b, Some(Touched(r.index, "rules"))) && a.owner == SectionKey(mode) && b.owner == "proxy-groups"
    requires MatchRuleIs(lines, sections, Some(r)) && IsReadable("MATCH," + group)
    requires r.index in Replaced(plan) && Replaced(plan)[r.index] == RuleLine(r.indent, group)
    requires AllHeaders(Edited(lines, plan.insertions, Replaced(plan)))
    ensures var content := ReadSection("rules", Edited(lines, plan.insertions, Replaced(plan)));
      content.Some? && MatchTarget(content.value) == Some(Some(Trim(group)))
  {
    hide IsDocument, IsTopLevel, KeyLine, FindSection, IsReplacement, Replaced, IsBlock, RuleTarget, ItemIndent, IsItemList, NoBody,
         Edited, Bodies, IsBlockValue, Content, Values, Rest, AllHeaders, Extra, IsInStep, OnlyReplaces, MatchTarget, RuleLine, Trim,
         IsReadable, LastTarget;
    var key, ins, rep := "rules", plan.insertions, Replaced(plan);
    OwnersDiffer(mode);
    var s := FindSection(sections, key).value.value;
    var list :| IsBlockList(lines, s, Some(list)) && IsMatchRule(lines, s, list, Some(r));
    FoundSection(lines, sections, key, s);
    RuleLineTarget(r.indent, group);
    TargetReplaced(lines, s, list, r, RuleLine(r.indent, group), Trim(group));
    ShapeInStep(lines, sections, plan, a, b, Some(Touched(r.index, "rules")), key);
    forall k | 0 <= k <= |lines|
      ensures Extra(key, lines, ins, k) == []
    {
      ShapeExtra(lines, sections, plan, a, b, Some(Touched(r.index, "rules")), key, k);
    }
    var t := MatchRuleInside(lines, sections, r);
    StateAt(lines, sections, s, r.index, key);
    ItemIsBody(lines[r.index]);
    ItemIsBody(RuleLine(r.indent, group));
    OneReplacement(key, lines, ins, rep, r.index);
    ContentUpTo(lines, sections, key, s, r.index);
    RestIn(lines, sections, key, s, r.index + 1);
    ListContent(lines, s, list);
    ValuesKept(lines, sections, plan, a, b, Some(Touched(r.index, "rules")), key, s);
  }

  // ---------- a new group ----------

  lemma {:induction false} DeeperNamed(content: seq<string>, more: seq<string>, indent: nat)
    requires forall k :: 0 <= k < |more| ==> Indent(more[k]) > indent
    ensures NamesIn(content + more, indent) == NamesIn(content, indent)
  {
    hide NameOf, NamesIn;
    if more == [] {
      assert content + more == content;
    } else {
      var n := |more| - 1;
      DeeperNamed(content, more[..n], indent);
      assert content + more == content + more[..n] + [more[n]];
      NamesInNext(content + more[..n], more[n], indent);
    }
  }

  lemma {:induction false} BodiesFrom(lines: seq<string>)
    ensures forall line :: line in Bodies(lines) ==> line in lines
  {
    hide IsBody;
    if lines != [] {
      BodiesFrom(lines[1..]);
    }
  }

  /** All lines of a group but the first one are deeper. */
  lemma TailDeep(indent: nat, name: string, target: string, mode: SourceMode, names: seq<string>)
    ensures var lines := GroupLines(indent, name, target, mode, names);
      lines != [] && lines[0] == NameLine(name, indent) && AllDeep(lines[1..], indent + 2)
  {
    hide NameLine, Quote, Spaces, EntryLines, IsDeep;
    FieldsDeep(indent, target);
    EntriesDeep(names, indent + 4);
    Deeper(EntryLines(names, indent + 4), indent + 4, indent + 2);
    var head := [Spaces(indent + 2) + "type: select", Spaces(indent + 2) + "proxies:", Spaces(indent + 4) + "- " + Quote(target)];
    var use := if mode == Links then [] else [Spaces(indent + 2) + "use:"];
    var lines := GroupLines(indent, name, target, mode, names);
    assert lines == [NameLine(name, indent)] + (head + use + EntryLines(names, indent + 4));
    assert lines[1..] == head + use + EntryLines(names, indent + 4);
  }

  lemma FieldsDeep(indent: nat, target: string)
    ensures IsDeep(Spaces(indent + 2) + "type: select", indent + 2) && IsDeep(Spaces(indent + 2) + "proxies:", indent + 2)
    ensures IsDeep(Spaces(indent + 4) + "- " + Quote(target), indent + 2) && IsDeep(Spaces(indent + 2) + "use:", indent + 2)
  {
    hide Spaces, Quote, IsDeep;
    TargetDeep(indent, target);
    FieldDeep(indent + 2, "type: select");
    FieldDeep(indent + 2, "proxies:");
    FieldDeep(indent + 2, "use:");
  }

  lemma FieldDeep(indent: nat, text: string)
    requires text == "type: select" || text == "proxies:" || text == "use:"
    ensures IsDeep(Spaces(indent) + text, indent)
  {
    hide Spaces, IsDeep;
    DeepLine(indent, text);
  }

  lemma TargetDeep(indent: nat, target: string)
    ensures IsDeep(Spaces(indent + 4) + "- " + Quote(target), indent + 2)
  {
    hide Spaces, Quote;
    QuoteShape(target);
    DeepParts(indent + 4, "- ", Quote(target));
  }

  /** A new group brings its name. */
  lemma GroupContent(content: seq<string>, indent: nat, name: string, target: string, mode: SourceMode, names: seq<string>)
    requires IsReadable(name) && NamesIn(content, indent).Some?
    requires indent > 0
    ensures var more := Bodies(GroupLines(indent, name, target, mode, names));
      && NamesIn(content + more, indent) == Some(NamesIn(content, indent).value + [name])
      && more != [] && ItemIndent(more[0]) == Some(indent)
  {
    hide NameLine, NamesIn, NameOf, IsBody, GroupLines, Bodies, IsReadable, ItemIndent, AllDeep;
    var lines := GroupLines(indent, name, target, mode, names);
    TailDeep(indent, name, target, mode, names);
    NameLineShape(name, indent);
    NameLineParts(name, indent);
    NameLineName(name, indent);
    BodiesHead(lines);
    var first, tail := lines[0], Bodies(lines[1..]);
    NamesInNext(content, first, indent);
    TailIsDeeper(lines[1..], indent);
    DeeperNamed(content + [first], tail, indent);
    assert content + ([first] + tail) == content + [first] + tail;
  }

  lemma TailIsDeeper(lines: seq<string>, indent: nat)
    requires AllDeep(lines, indent + 2)
    ensures forall k :: 0 <= k < |Bodies(lines)| ==> Indent(Bodies(lines)[k]) > indent
  {
    hide IsBody, Bodies;
    BodiesFrom(lines);
    forall k | 0 <= k < |Bodies(lines)|
      ensures Indent(Bodies(lines)[k]) > indent
    {
      var line := Bodies(lines)[k];
      assert line in lines;
    }
  }

  /** The groups of the merged file: those there were, and the new one. */
  lemma GroupsReread(text: string, names: seq<string>, group: string, lines: seq<string>, mode: SourceMode, source: string,
                     parse: (string, nat) -> Option<Proxy>, isUrl: string -> bool, m: Merge)
    requires WasMerged(text, names, group, lines, mode, source, CREATE, parse, isUrl, m)
    requires mode == Subscriptions || AllReadable(names)
    ensures GroupNamesOf(lines) == Some(GroupNames(m.file.groups)) && GroupNamesOf(Lines(text)) == Some(GroupNames(m.file.groups) + [group])
  {
    TextIsEdited(text, names, group, lines, mode, source, CREATE, parse, isUrl, m, "proxy-groups");
    var a, b, touched := MergeShape(text, names, group, lines, mode, source, CREATE, parse, isUrl, m);
    ReadGroups(lines, m.file.sections, m.file.groups);
    GroupReadable(text, names, group, lines, mode, source, CREATE, parse, isUrl, m);
    hide IsTopLevel, KeyLine, FindSection, IsReplacement, Replaced, IsFragmentBlock, IsShape, ReadSection, MatchRuleIs, RuleLine,
         GroupsAre, FragmentBody, IsFragmentPlaced, Edited, ReadsAsMerged, NamesOf, Lines, IsReadable, GroupNamesIn,
         IsRouted, IsPlan, IsClean, OnlyReplaceable, HasPlaced, HasRouted, AllReadable, AllHeaders, GroupNames,
         IsDocument, HasParsed, IsBlock, IsGroupRouted, IsRuleWritten;
    GroupAdded(lines, m.file.sections, m.plan, a, b, touched, group, mode, m.fragment.names);
  }

  lemma ReadGroups(lines: seq<string>, sections: seq<Section>, groups: seq<Group>)
    requires IsDocument(lines, sections) && GroupsAre(lines, sections, groups)
    ensures GroupNamesOf(lines) == Some(GroupNames(groups))
  {
    hide IsDocument, GroupsAre, GroupNamesOf;
    GroupsAreRead(lines, sections, groups);
    assert GroupNamesOf(lines).value == GroupNames(groups);
  }

  lemma GroupAdded(lines: seq<string>, sections: seq<Section>, plan: Plan, a: Block, b: Block, touched: Option<Touched>, group: string,
                   mode: SourceMode, names: seq<string>)
    requires IsShape(lines, sections, plan, a, b, touched) && b.owner == "proxy-groups" && TouchedIn(touched, "proxy-groups") == None
    requires IsGroupRouted(lines, sections, group, mode, names, b) && IsReadable(group) && GroupNamesOf(lines).Some?
    requires FindSection(sections, "proxy-groups").Some? && AllHeaders(Edited(lines, plan.insertions, Replaced(plan)))
    ensures var content := ReadSection("proxy-groups", Edited(lines, plan.insertions, Replaced(plan)));
      content.Some? && GroupNamesIn(content.value) == Some(GroupNamesOf(lines).value + [group])
  {
    hide IsDocument, IsTopLevel, KeyLine, FindSection, IsReplacement, Replaced, ReadSection, GroupLines, NamesIn, IsShape, IsGroupBlock,
         Edited, AllHeaders, Bodies, IsReadable, ItemIndent, MatchRuleIs;
    var r :| MatchRuleIs(lines, sections, Some(r)) && IsGroupBlock(lines, sections, group, r.target, mode, names, b);
    var content, indent := GroupContentIs(lines, sections, plan, a, b, touched, group, r.target, mode, names);
    NoNames(indent);
    GroupContent(content, indent, group, r.target, mode, names);
    var more := Bodies(GroupLines(indent, group, r.target, mode, names));
    assert content == [] ==> content + more == more;
  }

  /** A new group comes behind the content of the section of groups, indented like it. */
  lemma GroupContentIs(lines: seq<string>, sections: seq<Section>, plan: Plan, a: Block, b: Block, touched: Option<Touched>, group: string,
                       target: string, mode: SourceMode, names: seq<string>) returns (content: seq<string>, indent: nat)
    requires IsShape(lines, sections, plan, a, b, touched) && b.owner == "proxy-groups" && TouchedIn(touched, "proxy-groups") == None
    requires IsGroupBlock(lines, sections, group, target, mode, names, b)
    requires FindSection(sections, "proxy-groups").Some? && AllHeaders(Edited(lines, plan.insertions, Replaced(plan)))
    ensures ReadSection("proxy-groups", lines) == Some(content) && indent > 0
    ensures content != [] ==> ItemIndent(content[0]) == Some(indent)
    ensures ReadSection("proxy-groups", Edited(lines, plan.insertions, Replaced(plan)))
      == Some(content + Bodies(GroupLines(indent, group, target, mode, names)))
  {
    hide IsDocument, IsTopLevel, KeyLine, FindSection, IsReplacement, Replaced, IsSectionBlock, ReadSection, GroupLines,
         Edited, AllHeaders, IsBlock, IsContentEnd, Bodies, IsBlockValue, IsItemList, NoBody, ItemIndent;
    var key := "proxy-groups";
    if SectionOf(sections, key).Some? {
      var s := SectionOf(sections, key).value;
      var list :| IsBlockList(lines, s, Some(list)) && b.lines == GroupLines(list.indent, group, target, mode, names);
      content, indent := Bodies(lines[s.start + 1..s.end]), list.indent;
      OneRead(lines, sections, key, s);
      SectionGrown(lines, sections, plan, a, b, touched, b, s);
      InnerAdded(b);
      ListContent(lines, s, list);
      FoundSection(lines, sections, key, s);
      ListIndent(lines, sections, s, list);
    } else {
      content, indent := [], 2;
      NoneRead(lines, sections, key);
      SectionCome(lines, sections, plan, a, b, touched, b);
      NewHeader(key);
      assert key + ":" == "proxy-groups:";
      SectionAdded(b, "proxy-groups:", GroupLines(2, group, target, mode, names));
      assert [] + Added(b) == Added(b);
    }
  }
}
