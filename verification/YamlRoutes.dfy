/** The parts of a configuration a merge routes through: proxy groups, providers, the MATCH rule. */
module YamlRoutes {
  import opened Wrappers
  import opened Text
  import opened YamlText
  import opened YamlDocument
  import opened ProxyNames

  // ---------- groups ----------

  datatype Group = Group(start: nat, end: nat, indent: nat, name: string, kind: string)

  /** The text after "key:" on a line with this indentation. */
  function FieldText(line: string, indent: nat, key: string): Option<string> {
    if Indent(line) == indent && StartsWith(line[indent..], key + ":") then Some(line[indent + |key| + 1..]) else None
  }

  /** The type written last in an item; None where its value cannot be read. */
  function KindOf(lines: seq<string>, from: nat, end: nat, indent: nat): Option<string>
    requires from <= end <= |lines|
    decreases end
  {
    if from == end then Some("")
    else
      var before := KindOf(lines, from, end - 1, indent);
      var t := FieldText(lines[end - 1], indent, "type");
      if before == None || t == None || !IsCaptured(t.value) then before else YamlValue(t.value)
  }

  ghost predicate IsGroup(lines: seq<string>, s: Section, g: Group)
    requires s.end <= |lines|
  {
    && s.start < g.start < g.end <= s.end
    && ItemIndent(lines[g.start]) == Some(g.indent)
    && NameOf(lines[g.start]) == Some(g.name)
    && KindOf(lines, g.start + 1, g.end, g.indent + 2) == Some(g.kind)
  }

  /** The groups of a file are the items of its section of groups, if it has one. */
  ghost predicate GroupsAre(lines: seq<string>, sections: seq<Section>, groups: seq<Group>) {
    match FindSection(sections, "proxy-groups")
    case None => false
    case Some(None) => groups == []
    case Some(Some(s)) =>
      && s.start < s.end <= |lines|
      && exists list :: IsBlockList(lines, s, Some(list)) && AreGroups(lines, s, list, groups)
  }

  /** The groups cannot be read: several sections of them, no block list, or an item whose name or type
      cannot be read. */
  ghost predicate GroupsUnreadable(lines: seq<string>, sections: seq<Section>) {
    match FindSection(sections, "proxy-groups")
    case None => true
    case Some(None) => false
    case Some(Some(s)) =>
      && s.start < s.end <= |lines|
      && (|| IsBlockList(lines, s, None)
          || exists list, k :: IsBlockList(lines, s, Some(list)) && IsUnreadableGroup(lines, list, k))
  }

  ghost predicate IsUnreadableGroup(lines: seq<string>, list: BlockList, k: nat) {
    && k < |list.items| && list.items[k].start < list.items[k].end <= |lines|
    && (NameOf(lines[list.items[k].start]) == None
        || KindOf(lines, list.items[k].start + 1, list.items[k].end, list.indent + 2) == None)
  }

  method YamlGroups(lines: seq<string>, sections: seq<Section>) returns (groups: Option<seq<Group>>)
    requires IsDocument(lines, sections)
    ensures groups.Some? ==> GroupsAre(lines, sections, groups.value)
    ensures groups == None ==> GroupsUnreadable(lines, sections)
  {
    hide IsDocument, Matching, IsBlockList, AreGroups, IsUnreadableGroup;
    var found := FindSection(sections, "proxy-groups");
    if found == None {
      return None;
    }
    if found.value == None {
      return Some([]);
    }
    var s := found.value.value;
    FoundSection(lines, sections, "proxy-groups", s);
    var list := YamlList(lines, s);
    if list == None {
      return None;
    }
    groups := GroupsOf(lines, s, list.value);
  }

  ghost predicate AreGroups(lines: seq<string>, s: Section, list: BlockList, groups: seq<Group>)
    requires s.end <= |lines|
  {
    && |groups| == |list.items|
    && (forall k :: 0 <= k < |groups| ==> IsGroup(lines, s, groups[k]))
    && (forall k :: 0 <= k < |groups| ==> IsGroupOf(groups[k], list, k))
  }

  lemma FoundSection(lines: seq<string>, sections: seq<Section>, key: string, s: Section)
    requires IsDocument(lines, sections) && FindSection(sections, key) == Some(Some(s))
    ensures s in sections && s.key == key && s.start < s.end <= |lines|
    ensures forall t :: t in sections && t.key == key ==> t == s
    ensures IsTopLevel(lines[s.start]) && KeyLine(lines[s.start]) == Some((key, s.value))
  {
    hide IsTopLevel, KeyLine;
    MatchingMembers(sections, key);
    assert s in Matching(sections, key);
    forall t | t in sections && t.key == key
      ensures t == s
    {
      assert t in Matching(sections, key);
    }
    var k :| 0 <= k < |sections| && sections[k] == s;
    SectionLines(lines, sections, k);
  }

  predicate IsGroupOf(g: Group, list: BlockList, k: nat)
    requires k < |list.items|
  {
    g.start == list.items[k].start && g.end == list.items[k].end && g.indent == list.indent
  }

  lemma ListItem(lines: seq<string>, s: Section, list: BlockList, k: nat)
    requires s.start < s.end <= |lines| && IsBlockList(lines, s, Some(list)) && k < |list.items|
    ensures s.start < list.items[k].start < list.items[k].end <= s.end
    ensures ItemIndent(lines[list.items[k].start]) == Some(list.indent)
  {
    hide ItemIndent, IsBody;
    assert ItemAt(lines, list.items[k].start, list.indent);
  }

  lemma GroupRead(lines: seq<string>, s: Section, g: Group)
    requires s.start < g.start < g.end <= s.end <= |lines| && ItemIndent(lines[g.start]) == Some(g.indent)
    requires NameOf(lines[g.start]) == Some(g.name) && KindOf(lines, g.start + 1, g.end, g.indent + 2) == Some(g.kind)
    ensures IsGroup(lines, s, g)
  {
    hide NameOf, ItemIndent, KindOf;
  }

  method GroupsOf(lines: seq<string>, s: Section, list: BlockList) returns (groups: Option<seq<Group>>)
    requires s.start < s.end <= |lines| && IsBlockList(lines, s, Some(list))
    ensures groups.Some? ==> AreGroups(lines, s, list, groups.value)
    ensures groups == None ==> exists k :: IsUnreadableGroup(lines, list, k)
  {
    hide NameOf, ItemIndent, IsBody, IsBlockValue, NoBody, KindOf, IsBlockList, IsGroup;
    var found: seq<Group> := [];
    for k := 0 to |list.items|
      invariant |found| == k
      invariant forall j :: 0 <= j < k ==> IsGroup(lines, s, found[j])
      invariant forall j :: 0 <= j < k ==> IsGroupOf(found[j], list, j)
    {
      var item := list.items[k];
      ListItem(lines, s, list, k);
      var name := NameOf(lines[item.start]);
      if name == None {
        assert IsUnreadableGroup(lines, list, k);
        return None;
      }
      var kind := KindIn(lines, item.start + 1, item.end, list.indent + 2);
      if kind == None {
        assert IsUnreadableGroup(lines, list, k);
        return None;
      }
      var group := Group(item.start, item.end, list.indent, name.value, kind.value);
      GroupRead(lines, s, group);
      found := found + [group];
    }
    groups := Some(found);
  }

  method KindIn(lines: seq<string>, from: nat, to: nat, indent: nat) returns (kind: Option<string>)
    requires from <= to <= |lines|
    ensures kind == KindOf(lines, from, to, indent)
  {
    hide YamlValue, FieldText, IsCaptured;
    var found := "";
    for index := from to to
      invariant KindOf(lines, from, index, indent) == Some(found)
    {
      var t := FieldText(lines[index], indent, "type");
      if t.Some? && IsCaptured(t.value) {
        var value := YamlValue(t.value);
        if value == None {
          KindNone(lines, from, index + 1, to, indent);
          return None;
        }
        found := value.value;
      }
    }
    kind := Some(found);
  }

  lemma {:induction false} KindNone(lines: seq<string>, from: nat, i: nat, to: nat, indent: nat)
    requires from <= i <= to <= |lines| && KindOf(lines, from, i, indent) == None
    ensures KindOf(lines, from, to, indent) == None
  {
    hide YamlValue, FieldText, IsCaptured;
    if i < to {
      KindNone(lines, from, i, to - 1, indent);
    }
  }

  // ---------- providers ----------

  function Bodies(lines: seq<string>): seq<string> {
    if lines == [] then []
    else (if IsBody(lines[0]) then [lines[0]] else []) + Bodies(lines[1..])
  }

  /** The key of a line, after its indentation. */
  function ProviderKey(line: string): Option<string> {
    var rest := TrimStart(line);
    var n := KeyLength(rest);
    if 0 < n < |rest| && rest[n] == ':' then Some(rest[..n]) else None
  }

  function KeysAt(lines: seq<string>, indent: nat): seq<string> {
    if lines == [] then []
    else
      var key := ProviderKey(lines[0]);
      (if key.Some? && Indent(lines[0]) == indent then [key.value] else []) + KeysAt(lines[1..], indent)
  }

  /** yamlProviderNames; None where it throws. */
  function ProviderNames(lines: seq<string>, sections: seq<Section>): Option<seq<string>>
    requires IsDocument(lines, sections)
  {
    var found := FindSection(sections, "proxy-providers");
    if found == None then None
    else if found.value == None then Some([])
    else
      var s := found.value.value;
      FoundSection(lines, sections, "proxy-providers", s);
      if !IsBlockValue(s.value) then None
      else
        var content := Bodies(lines[s.start + 1..s.end]);
        if content == [] then Some([])
        else if ProviderKey(content[0]) == None then None
        else Some(KeysAt(content, Indent(content[0])))
  }

  // ---------- the MATCH rule ----------

  datatype Rule = Rule(index: nat, indent: nat, target: string)

  /** The target of an item that is a MATCH rule: None where the item cannot be read, Some(None) where it
      is no MATCH rule. */
  function RuleTarget(line: string): Option<Option<string>> {
    if ItemIndent(line) == None then Some(None)
    else
      var rest := line[Indent(line) + 1..];
      if (Indent(rest) == |rest| && |rest| < 2) || !IsCaptured(rest) then Some(None)
      else
        var value := YamlValue(rest);
        if value == None then None
        else if StartsWith(value.value, "MATCH,") then Some(Some(Trim(value.value[6..])))
        else Some(None)
  }

  ghost predicate IsMatchRule(lines: seq<string>, s: Section, list: BlockList, rule: Option<Rule>)
    requires s.end <= |lines|
  {
    && (forall item :: item in list.items && item.start < |lines| ==> RuleTarget(lines[item.start]).Some?)
    && match rule
    case Some(m) =>
      && s.start < m.index < s.end && m.indent == list.indent
      && ItemIndent(lines[m.index]) == Some(m.indent)
      && RuleTarget(lines[m.index]) == Some(Some(m.target))
      && (forall item :: item in list.items && item.start > m.index && item.start < |lines| ==>
           RuleTarget(lines[item.start]) == Some(None))
    case None =>
      forall item :: item in list.items && item.start < |lines| ==> RuleTarget(lines[item.start]) == Some(None)
  }

  /** The last MATCH rule of a file, if it has rules. */
  ghost predicate MatchRuleIs(lines: seq<string>, sections: seq<Section>, rule: Option<Rule>) {
    match FindSection(sections, "rules")
    case None => false
    case Some(None) => rule == None
    case Some(Some(s)) =>
      && s.start < s.end <= |lines|
      && exists list :: IsBlockList(lines, s, Some(list)) && IsMatchRule(lines, s, list, rule)
  }

  /** There is no MATCH rule to be had: several sections of rules, no block list, or an item that cannot be read. */
  ghost predicate RulesUnreadable(lines: seq<string>, sections: seq<Section>) {
    match FindSection(sections, "rules")
    case None => true
    case Some(None) => false
    case Some(Some(s)) =>
      && s.start < s.end <= |lines|
      && (|| IsBlockList(lines, s, None)
          || exists list, k :: IsBlockList(lines, s, Some(list)) && IsUnreadableRule(lines, list, k))
  }

  ghost predicate IsUnreadableRule(lines: seq<string>, list: BlockList, k: nat) {
    k < |list.items| && list.items[k].start < |lines| && RuleTarget(lines[list.items[k].start]) == None
  }

  method YamlMatchRule(lines: seq<string>, sections: seq<Section>) returns (rule: Option<Option<Rule>>)
    requires IsDocument(lines, sections)
    ensures rule.Some? ==> MatchRuleIs(lines, sections, rule.value)
    ensures rule == None ==> RulesUnreadable(lines, sections)
  {
    hide IsDocument, Matching, IsBlockList, IsMatchRule, IsUnreadableRule;
    var found := FindSection(sections, "rules");
    if found == None {
      return None;
    }
    if found.value == None {
      return Some(None);
    }
    var s := found.value.value;
    FoundSection(lines, sections, "rules", s);
    var list := YamlList(lines, s);
    if list == None {
      return None;
    }
    rule := LastMatch(lines, s, list.value);
  }

  /** Of the first k items, the one before at is the last MATCH rule; none is when at is 0. */
  ghost predicate LastSoFar(lines: seq<string>, list: BlockList, k: nat, at: nat, rule: Option<Rule>)
    requires at <= k <= |list.items|
    requires forall item :: item in list.items ==> item.start < |lines|
  {
    && (forall j :: 0 <= j < k ==> RuleTarget(lines[list.items[j].start]).Some?)
    && (forall j :: at <= j < k ==> RuleTarget(lines[list.items[j].start]) == Some(None))
    && (rule == None <==> at == 0)
    && (rule.Some? ==> rule.value.index == list.items[at - 1].start && rule.value.indent == list.indent
                       && RuleTarget(lines[list.items[at - 1].start]) == Some(Some(rule.value.target)))
  }

  method LastMatch(lines: seq<string>, s: Section, list: BlockList) returns (rule: Option<Option<Rule>>)
    requires s.start < s.end <= |lines| && IsBlockList(lines, s, Some(list))
    ensures rule.Some? ==> IsMatchRule(lines, s, list, rule.value)
    ensures rule == None ==> exists k :: IsUnreadableRule(lines, list, k)
  {
    hide RuleTarget, ItemIndent, IsBody, NoBody, IsBlockValue, ItemAt;
    var found: Option<Rule> := None;
    ghost var at := 0;
    for k := 0 to |list.items|
      invariant at <= k && LastSoFar(lines, list, k, at, found)
    {
      var item := list.items[k];
      var target := RuleTarget(lines[item.start]);
      if target == None {
        assert IsUnreadableRule(lines, list, k);
        return None;
      }
      if target.value.Some? {
        found := Some(Rule(item.start, list.indent, target.value.value));
        at := k + 1;
      }
    }
    LastIsMatchRule(lines, s, list, at, found);
    rule := Some(found);
  }

  lemma LastIsMatchRule(lines: seq<string>, s: Section, list: BlockList, at: nat, rule: Option<Rule>)
    requires s.start < s.end <= |lines| && IsItemList(lines, s.start + 1, s.end, list.indent, list.items)
    requires at <= |list.items| && LastSoFar(lines, list, |list.items|, at, rule)
    ensures IsMatchRule(lines, s, list, rule)
  {
    hide RuleTarget, ItemIndent, IsBody;
    if rule.Some? {
      assert ItemAt(lines, list.items[at - 1].start, list.indent);
    }
    forall item | item in list.items && (rule.Some? ==> item.start > rule.value.index)
      ensures RuleTarget(lines[item.start]) == Some(None)
    {
      var j :| 0 <= j < |list.items| && list.items[j] == item;
      if j < at - 1 {
        ItemsAscend(lines, s.start + 1, s.end, list.indent, list.items, j, at - 1);
      }
    }
  }
}
