/** Routing through merged proxies: the MATCH rule itself, a new group, or a group there is. */
module MergeRouting {
  import opened Wrappers
  import opened Text
  import opened YamlText
  import opened YamlDocument
  import opened YamlEmit
  import opened LineEdits
  import opened ProxyNames
  import opened MergedNames
  import opened MergePlan
  import opened YamlFragment
  import opened YamlRoutes
  import opened MergeText
  import opened MergePlacing

  // ---------- the MATCH rule ----------

  function RuleLine(indent: nat, target: string): string {
    Spaces(indent) + "- " + Quote("MATCH," + target)
  }

  lemma RuleLineDeep(indent: nat, target: string)
    requires indent > 0
    ensures !IsTopLevel(RuleLine(indent, target)) && NoReturn(RuleLine(indent, target))
  {
    QuoteShape("MATCH," + target);
    DeepParts(indent, "- ", Quote("MATCH," + target));
    DeepShape(RuleLine(indent, target), indent);
  }

  lemma ItemInside(line: string, indent: nat)
    requires !IsTopLevel(line) && ItemIndent(line) == Some(indent)
    ensures indent > 0
  {
  }

  /** Every replaced line is at the top level. */
  ghost predicate TopOnly(lines: seq<string>, plan: Plan) {
    forall a :: a in Replaced(plan) ==> a < |lines| && IsTopLevel(lines[a])
  }

  lemma HeadersAreTop(lines: seq<string>, plan: Plan)
    requires HeadersOnly(lines, plan)
    ensures TopOnly(lines, plan)
  {
  }

  lemma MatchRuleInside(lines: seq<string>, sections: seq<Section>, rule: Rule) returns (s: Section)
    requires IsDocument(lines, sections) && MatchRuleIs(lines, sections, Some(rule))
    ensures s in sections && s.key == "rules" && s.start < rule.index < s.end <= |lines|
    ensures !IsTopLevel(lines[rule.index]) && rule.indent > 0 && RuleTarget(lines[rule.index]) == Some(Some(rule.target))
  {
    hide IsDocument, IsTopLevel, ItemIndent, RuleTarget, IsBlockList, Matching, KeyLine;
    s := FindSection(sections, "rules").value.value;
    FoundSection(lines, sections, "rules", s);
    SectionShape(lines, sections, s);
    var list :| IsBlockList(lines, s, Some(list)) && IsMatchRule(lines, s, list, Some(rule));
    ItemInside(lines[rule.index], rule.indent);
  }

  lemma RuleReplaced(lines: seq<string>, sections: seq<Section>, L: Layout, plan: Plan, rule: Rule, target: string)
    requires IsSound(lines, sections, L, plan) && TopOnly(lines, plan) && MatchRuleIs(lines, sections, Some(rule))
    ensures IsSound(lines, sections, L, Replace(plan, rule.index, RuleLine(rule.indent, target)))
    ensures rule.indent > 0 && rule.index < |lines| && RuleTarget(lines[rule.index]) == Some(Some(rule.target))
  {
    hide IsSound, IsTopLevel, RuleLine, RuleTarget, MatchRuleIs, IsDocument, IsLayout, IsSafe, OnlyReplaceable, NoReturn;
    SoundDocument(lines, sections, L, plan);
    var s := MatchRuleInside(lines, sections, rule);
    RuleLineDeep(rule.indent, target);
    ReplaceWithin(lines, sections, L, plan, s, rule.index, RuleLine(rule.indent, target));
    ReplaceKeeps(lines, sections, L, plan, rule.index, RuleLine(rule.indent, target));
  }

  /** The MATCH rule, and only it, is replaced by one with a new target. */
  ghost predicate IsRuleReplaced(lines: seq<string>, sections: seq<Section>, before: Plan, after: Plan, target: string) {
    exists rule ::
      MatchRuleIs(lines, sections, Some(rule)) && after == Replace(before, rule.index, RuleLine(rule.indent, target))
  }

  /** The file has no MATCH rule, or its rules cannot be read. */
  ghost predicate NoMatchRule(lines: seq<string>, sections: seq<Section>) {
    MatchRuleIs(lines, sections, None) || RulesUnreadable(lines, sections)
  }

  /** Direct routing: the MATCH rule goes to the only new proxy. */
  method RouteDirect(lines: seq<string>, sections: seq<Section>, mode: SourceMode, names: seq<string>, groups: seq<Group>,
                     plan: Plan, ghost L: Layout)
    returns (result: Option<(Plan, string)>)
    requires IsSound(lines, sections, L, plan) && HeadersOnly(lines, plan)
    ensures result.Some? ==>
      && IsSound(lines, sections, L, result.value.0)
      && mode == Links && groups == [] && names == [result.value.1]
      && IsRuleReplaced(lines, sections, plan, result.value.0, names[0])
    ensures result == None ==> mode != Links || |names| != 1 || groups != [] || NoMatchRule(lines, sections)
  {
    hide IsSound, HeadersOnly, TopOnly, MatchRuleIs, RulesUnreadable, RuleLine, IsDocument;
    if mode != Links || |names| != 1 || groups != [] {
      return None;
    }
    SoundDocument(lines, sections, L, plan);
    var found := YamlMatchRule(lines, sections);
    if found == None || found.value == None {
      return None;
    }
    var rule := found.value.value;
    HeadersAreTop(lines, plan);
    RuleReplaced(lines, sections, L, plan, rule, names[0]);
    result := Some((Replace(plan, rule.index, RuleLine(rule.indent, names[0])), names[0]));
  }

  // ---------- a new group ----------

  /** FREENETIC, FREENETIC-2, FREENETIC-3, ... */
  function GroupCandidate(k: nat): string {
    if k == 0 then "FREENETIC" else "FREENETIC-" + Decimal(k + 1)
  }

  function GroupCandidates(): (c: nat -> string)
    ensures Distinct(c) && forall k :: c(k) == GroupCandidate(k)
  {
    GroupCandidatesDistinct();
    (k: nat) => GroupCandidate(k)
  }

  lemma GroupCandidatesDistinct()
    ensures forall i: nat, j: nat :: GroupCandidate(i) == GroupCandidate(j) ==> i == j
  {
    forall i: nat, j: nat | GroupCandidate(i) == GroupCandidate(j)
      ensures i == j
    {
      var a, b := GroupCandidate(i), GroupCandidate(j);
      if i > 0 && j > 0 {
        assert a[10..] == Decimal(i + 1) && b[10..] == Decimal(j + 1);
        DecimalInjective(i + 1, j + 1);
      }
    }
  }

  ghost predicate IsGroupName(existing: set<string>, name: string) {
    exists k: nat ::
      && name == GroupCandidate(k) && name !in existing
      && forall j :: 0 <= j < k ==> GroupCandidate(j) in existing
  }

  method NewGroupName(existing: set<string>) returns (name: string)
    ensures IsGroupName(existing, name)
  {
    var c := GroupCandidates();
    var k := FirstFree(c, existing);
    name := GroupCandidate(k);
    assert forall j: nat :: GroupCandidate(j) == c(j);
  }

  function GroupLines(indent: nat, name: string, target: string, mode: SourceMode, names: seq<string>): seq<string> {
    [NameLine(name, indent), Spaces(indent + 2) + "type: select", Spaces(indent + 2) + "proxies:",
     Spaces(indent + 4) + "- " + Quote(target)]
    + (if mode == Links then [] else [Spaces(indent + 2) + "use:"])
    + EntryLines(names, indent + 4)
  }

  lemma GroupLinesDeep(indent: nat, name: string, target: string, mode: SourceMode, names: seq<string>)
    requires indent > 0
    ensures AllDeep(GroupLines(indent, name, target, mode, names), 1)
  {
    hide NameLine, Quote, Spaces, EntryLines, IsDeep;
    HeadDeep(indent, name, target);
    EntriesDeep(names, indent + 4);
    Deeper(EntryLines(names, indent + 4), indent + 4, 1);
    var head := [NameLine(name, indent), Spaces(indent + 2) + "type: select", Spaces(indent + 2) + "proxies:",
                 Spaces(indent + 4) + "- " + Quote(target)];
    var mid := if mode == Links then [] else [Spaces(indent + 2) + "use:"];
    assert AllDeep(head, 1) && AllDeep(mid, 1);
    assert GroupLines(indent, name, target, mode, names) == head + mid + EntryLines(names, indent + 4);
  }

  lemma HeadDeep(indent: nat, name: string, target: string)
    requires indent > 0
    ensures IsDeep(NameLine(name, indent), 1) && IsDeep(Spaces(indent + 4) + "- " + Quote(target), 1)
    ensures IsDeep(Spaces(indent + 2) + "type: select", 1) && IsDeep(Spaces(indent + 2) + "proxies:", 1)
    ensures IsDeep(Spaces(indent + 2) + "use:", 1)
  {
    NameLineDeep(name, indent);
    DeepLine(indent + 2, "type: select");
    DeepLine(indent + 2, "proxies:");
    DeepLine(indent + 2, "use:");
    QuoteShape(target);
    DeepParts(indent + 4, "- ", Quote(target));
    hide NameLine, Quote, Spaces, NoReturn, IsSpace;
  }

  /** The indentation of a list: that of its first item, which is not at the top level. */
  lemma ListIndent(lines: seq<string>, sections: seq<Section>, s: Section, list: BlockList)
    requires IsDocument(lines, sections) && s in sections && s.start < s.end <= |lines| && IsBlockList(lines, s, Some(list))
    ensures list.indent > 0
  {
    hide IsDocument, IsTopLevel, KeyLine, IsBody, ItemIndent, IsItemList;
    SectionShape(lines, sections, s);
    if !NoBody(lines, s.start + 1, s.end) {
      var i := FirstBody(lines, s.start + 1, s.end);
      ItemInside(lines[i], list.indent);
    }
  }

  lemma GroupHeaderReplaced(lines: seq<string>, sections: seq<Section>, L: Layout, plan: Plan, s: Section)
    requires IsSound(lines, sections, L, plan) && HeadersOnly(lines, plan)
    requires s in sections && s.key == "proxy-groups" && IsBlockValue(s.value) && s.value != ""
    ensures IsSound(lines, sections, L, Replace(plan, s.start, "proxy-groups:"))
    ensures TopOnly(lines, Replace(plan, s.start, "proxy-groups:"))
  {
    hide IsSound, IsTopLevel, KeyLine, IsDocument, IsLayout, IsSafe, OnlyReplaceable, NoReturn, IsOther, Inner;
    SoundDocument(lines, sections, L, plan);
    SectionShape(lines, sections, s);
    GroupHeader();
    OpenedHeader(lines, sections, L, plan, s, "proxy-groups:");
    ReplacedNext(plan, s.start, "proxy-groups:");
  }

  lemma SameTop(lines: seq<string>, plan: Plan, plan': Plan)
    requires TopOnly(lines, plan) && Replaced(plan') == Replaced(plan)
    ensures TopOnly(lines, plan')
  {
  }

  /** The group is inserted behind the content of the section of the groups, indented like them, or as one. */
  ghost predicate IsGroupPlaced(lines: seq<string>, groupSection: Option<Section>, rulesSection: Option<Section>,
                                name: string, target: string, mode: SourceMode, names: seq<string>, before: Plan, after: Plan) {
    match groupSection
    case Some(s) =>
      && s.start < s.end <= |lines| && IsBlockValue(s.value)
      && exists at: nat, list ::
           && IsContentEnd(lines, s.start, s.end, at) && IsBlockList(lines, s, Some(list))
           && after == Insert(if s.value != "" then Replace(before, s.start, "proxy-groups:") else before, at,
                              GroupLines(list.indent, name, target, mode, names))
    case None =>
      after == Insert(before, NewSectionPoint(lines, None, rulesSection),
                      ["proxy-groups:"] + GroupLines(2, name, target, mode, names) + [""])
  }

  ghost predicate GroupsRefused(lines: seq<string>, groupSection: Option<Section>) {
    && groupSection.Some? && groupSection.value.start < groupSection.value.end <= |lines|
    && IsBlockList(lines, groupSection.value, None)
  }

  /** The insertion of a new group, into the section of the groups or as one. */
  method PlaceGroup(lines: seq<string>, sections: seq<Section>, groupSection: Option<Section>, rulesSection: Option<Section>,
                    name: string, target: string, mode: SourceMode, names: seq<string>, plan: Plan, ghost L: Layout)
    returns (result: Option<Plan>)
    requires IsSound(lines, sections, L, plan) && HeadersOnly(lines, plan)
    requires IsFound(sections, "proxy-groups", groupSection) && IsFound(sections, "rules", rulesSection)
    requires L.section == None && groupSection.Some? ==>
      L.p == groupSection.value.start || (L.main == [] && L.p == |lines|)
    ensures result.Some? ==>
      && IsSound(lines, sections, L, result.value) && TopOnly(lines, result.value)
      && IsGroupPlaced(lines, groupSection, rulesSection, name, target, mode, names, plan, result.value)
    ensures result == None ==> GroupsRefused(lines, groupSection)
  {
    hide IsSound, HeadersOnly, TopOnly, IsDocument, FindSection, GroupLines, IsLayout, IsSafe, IsPlan, OnlyReplaceable, IsBlockList,
         AllDeep, IsTopLevel, KeyLine, IsOther, NoReturn, Replaced;
    SoundDocument(lines, sections, L, plan);
    HeadersAreTop(lines, plan);
    if groupSection.Some? {
      var s := groupSection.value;
      FoundSection(lines, sections, "proxy-groups", s);
      var list := YamlList(lines, s);
      if list == None {
        return None;
      }
      BlockListValue(lines, s, list.value);
      var indent := list.value.indent;
      ListIndent(lines, sections, s, list.value);
      var p := plan;
      if s.value != "" {
        p := Replace(p, s.start, "proxy-groups:");
        GroupHeaderReplaced(lines, sections, L, plan, s);
      }
      var at := InsertionPoint(lines, s);
      var block := GroupLines(indent, name, target, mode, names);
      GroupLinesDeep(indent, name, target, mode, names);
      BlockWithin(lines, sections, L, p, s, at, block);
      SameTop(lines, p, Insert(p, at, block));
      result := Some(Insert(p, at, block));
    } else {
      var at := NewSectionPoint(lines, None, rulesSection);
      PointOfSection(lines, sections, None, rulesSection);
      var block := GroupLines(2, name, target, mode, names);
      GroupLinesDeep(2, name, target, mode, names);
      GroupHeader();
      NewSection(lines, sections, L, plan, at, "proxy-groups:", block);
      SameTop(lines, plan, Insert(plan, at, ["proxy-groups:"] + block + [""]));
      result := Some(Insert(plan, at, ["proxy-groups:"] + block + [""]));
    }
  }

  lemma BlockListValue(lines: seq<string>, s: Section, list: BlockList)
    requires s.start < s.end <= |lines| && IsBlockList(lines, s, Some(list))
    ensures IsBlockValue(s.value)
  {
  }

  predicate IsKnownTarget(existing: seq<string>, target: string) {
    target != "" && (target in existing || target == "DIRECT" || target == "REJECT")
  }

  /** A new group in front of which the old target of MATCH is selected, and MATCH leads to the group. */
  ghost predicate IsGroupCreated(lines: seq<string>, sections: seq<Section>, groupSection: Option<Section>,
                                 rulesSection: Option<Section>, mode: SourceMode, names: seq<string>, existing: seq<string>,
                                 before: Plan, after: Plan, name: string) {
    && IsGroupName(NameSet(existing), name)
    && exists placed: Plan, rule: Rule ::
         && IsGroupPlaced(lines, groupSection, rulesSection, name, rule.target, mode, names, before, placed)
         && MatchRuleIs(lines, sections, Some(rule)) && IsKnownTarget(existing, rule.target)
         && after == Replace(placed, rule.index, RuleLine(rule.indent, name))
  }

  ghost predicate CreationRefused(lines: seq<string>, sections: seq<Section>, groupSection: Option<Section>, existing: seq<string>) {
    || NoMatchRule(lines, sections)
    || (exists rule :: MatchRuleIs(lines, sections, Some(rule)) && !IsKnownTarget(existing, rule.target))
    || GroupsRefused(lines, groupSection)
  }

  /** A new select group with the old target of MATCH first; MATCH goes to the group. */
  method CreateGroup(lines: seq<string>, sections: seq<Section>, groupSection: Option<Section>, rulesSection: Option<Section>,
                     mode: SourceMode, names: seq<string>, existing: seq<string>, plan: Plan, ghost L: Layout)
    returns (result: Option<(Plan, string)>)
    requires IsSound(lines, sections, L, plan) && HeadersOnly(lines, plan)
    requires IsFound(sections, "proxy-groups", groupSection) && IsFound(sections, "rules", rulesSection)
    requires L.section == None && groupSection.Some? ==>
      L.p == groupSection.value.start || (L.main == [] && L.p == |lines|)
    ensures result.Some? ==>
      && IsSound(lines, sections, L, result.value.0)
      && IsGroupCreated(lines, sections, groupSection, rulesSection, mode, names, existing, plan, result.value.0, result.value.1)
    ensures result == None ==> CreationRefused(lines, sections, groupSection, existing)
  {
    hide IsSound, HeadersOnly, TopOnly, MatchRuleIs, RuleLine, IsDocument, IsGroupName, GroupLines, FindSection, Replaced,
         RulesUnreadable, IsGroupPlaced, GroupsRefused;
    SoundDocument(lines, sections, L, plan);
    var found := YamlMatchRule(lines, sections);
    if found == None || found.value == None {
      return None;
    }
    var rule := found.value.value;
    if !IsKnownTarget(existing, rule.target) {
      return None;
    }
    var name := NewGroupName(NameSet(existing));
    var placed := PlaceGroup(lines, sections, groupSection, rulesSection, name, rule.target, mode, names, plan, L);
    if placed == None {
      return None;
    }
    RuleReplaced(lines, sections, L, placed.value, rule, name);
    result := Some((Replace(placed.value, rule.index, RuleLine(rule.indent, name)), name));
  }

  // ---------- a group there is ----------

  /** The trimmed value of a field that is written in one line. */
  function FieldValue(line: string, indent: nat, key: string): Option<string> {
    var t := FieldText(line, indent, key);
    if t.Some? && NoBreak(t.value[Indent(t.value)..]) then Some(Trim(t.value)) else None
  }

  /** The last such field of a group. */
  ghost predicate IsLastField(lines: seq<string>, from: nat, end: nat, indent: nat, key: string, index: Option<nat>) {
    && from <= end <= |lines|
    && (index.Some? ==> from <= index.value < end && FieldValue(lines[index.value], indent, key).Some?)
    && (forall k :: from <= k < end && FieldValue(lines[k], indent, key).Some? ==> index.Some? && k <= index.value)
  }

  method FindField(lines: seq<string>, from: nat, end: nat, indent: nat, key: string) returns (index: Option<nat>)
    requires from <= end <= |lines|
    ensures IsLastField(lines, from, end, indent, key, index)
  {
    hide FieldValue;
    index := None;
    for k := from to end
      invariant index.Some? ==> from <= index.value < k && FieldValue(lines[index.value], indent, key).Some?
      invariant forall j :: from <= j < k && FieldValue(lines[j], indent, key).Some? ==> index.Some? && j <= index.value
    {
      if FieldValue(lines[k], indent, key).Some? {
        index := Some(k);
      }
    }
  }

  /** The end of the entries of a field: the next line that is not deeper than it, but for empty lines before that. */
  ghost predicate IsFieldEnd(lines: seq<string>, index: nat, end: nat, indent: nat, at: nat) {
    exists stop: nat ::
      && IsContentEnd(lines, index, stop, at) && stop <= end <= |lines|
      && (forall k :: index < k < stop ==> IsDeeper(lines[k], indent))
      && (stop < end ==> !IsDeeper(lines[stop], indent))
  }

  predicate IsDeeper(line: string, indent: nat) {
    IsBody(line) ==> Indent(line) > indent
  }

  method FieldEnd(lines: seq<string>, index: nat, end: nat, indent: nat) returns (at: nat)
    requires index < end <= |lines|
    ensures index < at <= end && IsFieldEnd(lines, index, end, indent, at)
  {
    hide IsBody, IsBlank, IsDeeper;
    at := index + 1;
    while at < end && IsDeeper(lines[at], indent)
      invariant index < at <= end
      invariant forall k :: index < k < at ==> IsDeeper(lines[k], indent)
    {
      at := at + 1;
    }
    ghost var stop := at;
    while at > index + 1 && IsBlank(lines[at - 1])
      invariant index < at <= stop
      invariant forall k :: at <= k < stop ==> IsBlank(lines[k])
    {
      at := at - 1;
    }
    assert IsContentEnd(lines, index, stop, at);
  }

  function FieldName(mode: SourceMode): string {
    if mode == Subscriptions then "use" else "proxies"
  }

  lemma FieldLineDeep(indent: nat, mode: SourceMode)
    ensures IsDeep(Spaces(indent) + FieldName(mode) + ":", indent)
  {
    DeepParts(indent, FieldName(mode), ":");
  }

  lemma EmptyListMayReplace(line: string, indent: nat, mode: SourceMode)
    requires FieldValue(line, indent, FieldName(mode)) == Some("[]")
    ensures MayReplace(line)
  {
  }

  lemma FieldReplaced(lines: seq<string>, sections: seq<Section>, L: Layout, plan: Plan, s: Section, a: nat, indent: nat,
                      mode: SourceMode)
    requires IsSound(lines, sections, L, plan) && TopOnly(lines, plan) && s in sections && s.key == "proxy-groups"
    requires s.start < a < s.end <= |lines| && indent > 0 && FieldValue(lines[a], indent, FieldName(mode)) == Some("[]")
    ensures IsSound(lines, sections, L, Replace(plan, a, Spaces(indent) + FieldName(mode) + ":"))
  {
    hide IsSound, IsTopLevel, KeyLine, FieldValue, IsDocument, IsLayout, IsSafe, OnlyReplaceable, NoReturn, MayReplace, Spaces, FieldName;
    SoundDocument(lines, sections, L, plan);
    SectionShape(lines, sections, s);
    FieldLineDeep(indent, mode);
    var line := Spaces(indent) + FieldName(mode) + ":";
    DeepShape(line, indent);
    ReplaceWithin(lines, sections, L, plan, s, a, line);
    EmptyListMayReplace(lines[a], indent, mode);
    ReplaceKeeps(lines, sections, L, plan, a, line);
  }

  lemma FieldBlockDeep(indent: nat, mode: SourceMode, names: seq<string>)
    requires indent > 0
    ensures AllDeep(EntryLines(names, indent + 2), 1)
    ensures AllDeep([Spaces(indent) + FieldName(mode) + ":"] + EntryLines(names, indent + 2), 1)
  {
    FieldLineDeep(indent, mode);
    EntriesDeep(names, indent + 2);
    Deeper(EntryLines(names, indent + 2), indent + 2, 1);
    hide Spaces, EntryLines, IsSpace, NoReturn, FieldName;
  }

  /** The names become the last entries of the field; a group without the field gets it, as its last one. */
  ghost predicate IsJoined(lines: seq<string>, before: Plan, after: Plan, g: Group, mode: SourceMode, names: seq<string>) {
    exists field ::
      && IsLastField(lines, g.start + 1, g.end, g.indent + 2, FieldName(mode), field)
      && IsJoinedAt(lines, before, after, g, mode, names, field)
  }

  ghost predicate IsJoinedAt(lines: seq<string>, before: Plan, after: Plan, g: Group, mode: SourceMode, names: seq<string>,
                             field: Option<nat>) {
    var indent := g.indent + 2;
    var header := Spaces(indent) + FieldName(mode) + ":";
    match field
    case Some(f) =>
      && f < |lines| && FieldValue(lines[f], indent, FieldName(mode)) in {Some(""), Some("[]")}
      && exists at: nat ::
           && IsFieldEnd(lines, f, g.end, indent, at)
           && after == Insert(if FieldValue(lines[f], indent, FieldName(mode)) == Some("[]") then Replace(before, f, header) else before,
                              at, EntryLines(names, indent + 2))
    case None =>
      exists at: nat ::
        IsContentEnd(lines, g.start, g.end, at) && after == Insert(before, at, [header] + EntryLines(names, indent + 2))
  }

  /** The field of the group has its entries in one line. */
  ghost predicate JoinRefused(lines: seq<string>, g: Group, mode: SourceMode) {
    exists f: nat ::
      && IsLastField(lines, g.start + 1, g.end, g.indent + 2, FieldName(mode), Some(f))
      && FieldValue(lines[f], g.indent + 2, FieldName(mode)).value !in {"", "[]"}
  }

  lemma LastField(lines: seq<string>, from: nat, end: nat, indent: nat, key: string, index: Option<nat>)
    requires IsLastField(lines, from, end, indent, key, index)
    ensures index.Some? ==> from <= index.value < end <= |lines| && FieldValue(lines[index.value], indent, key).Some?
  {
    hide FieldValue;
  }

  /** The names join the proxies, or the providers, of a select group. */
  method JoinGroup(lines: seq<string>, sections: seq<Section>, s: Section, g: Group, mode: SourceMode, names: seq<string>,
                   plan: Plan, ghost L: Layout)
    returns (result: Option<Plan>)
    requires IsSound(lines, sections, L, plan) && HeadersOnly(lines, plan)
    requires s in sections && s.key == "proxy-groups" && s.end <= |lines| && IsGroup(lines, s, g)
    requires L.section == None ==> L.p == s.start || (L.main == [] && L.p == |lines|)
    ensures result.Some? ==> IsSound(lines, sections, L, result.value)
    ensures result.Some? ==> IsJoined(lines, plan, result.value, g, mode, names)
    ensures result == None ==> JoinRefused(lines, g, mode)
  {
    hide IsSound, HeadersOnly, TopOnly, IsDocument, IsLayout, IsSafe, OnlyReplaceable, FieldValue, FieldName, Spaces, EntryLines, Replaced,
         AllDeep, KindOf, NameOf, ItemIndent, IsLastField, IsFieldEnd;
    HeadersAreTop(lines, plan);
    var indent := g.indent + 2;
    var field := FindField(lines, g.start + 1, g.end, indent, FieldName(mode));
    LastField(lines, g.start + 1, g.end, indent, FieldName(mode), field);
    FieldBlockDeep(indent, mode, names);
    var at: nat;
    var p := plan;
    var block: seq<string>;
    if field.Some? {
      var value := FieldValue(lines[field.value], indent, FieldName(mode)).value;
      if value != "" && value != "[]" {
        return None;
      }
      if value != "" {
        p := Replace(p, field.value, Spaces(indent) + FieldName(mode) + ":");
        FieldReplaced(lines, sections, L, plan, s, field.value, indent, mode);
      }
      at := FieldEnd(lines, field.value, g.end, indent);
      block := EntryLines(names, indent + 2);
      assert IsJoinedAt(lines, plan, Insert(p, at, block), g, mode, names, field);
    } else {
      at := g.end;
      while at > g.start + 1 && IsBlank(lines[at - 1])
        invariant g.start < at <= g.end && forall k :: at <= k < g.end ==> IsBlank(lines[k])
      {
        at := at - 1;
      }
      block := [Spaces(indent) + FieldName(mode) + ":"] + EntryLines(names, indent + 2);
      assert IsContentEnd(lines, g.start, g.end, at);
      assert IsJoinedAt(lines, plan, Insert(p, at, block), g, mode, names, field);
    }
    BlockWithin(lines, sections, L, p, s, at, block);
    result := Some(Insert(p, at, block));
  }
}
