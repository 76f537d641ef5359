/** The providers and the MATCH rule of a configuration, read line by line; the merger's own functions find the
    same. */
module SectionReading {
  import opened Wrappers
  import opened Text
  import opened YamlText
  import opened YamlDocument
  import opened ProxyNames
  import opened LineEdits
  import opened MergedNames
  import opened MergePlan
  import opened MergeText
  import opened YamlRoutes
  import opened SectionContent

  // ---------- providers ----------

  function ProviderKeys(content: seq<string>): Option<seq<string>> {
    if content == [] then Some([])
    else if ProviderKey(content[0]) == None then None
    else Some(KeysAt(content, Indent(content[0])))
  }

  /** The names of the providers in a file. */
  function ProvidersOf(lines: seq<string>): Option<seq<string>> {
    var content := ReadSection("proxy-providers", lines);
    if content == None then None else ProviderKeys(content.value)
  }

  lemma ProvidersAreRead(lines: seq<string>, sections: seq<Section>)
    requires IsDocument(lines, sections)
    ensures ProviderNames(lines, sections) == ProvidersOf(lines)
  {
    hide IsDocument, FindSection, ReadSection, KeysAt, ProviderKey, Bodies, IsBlockValue, Content, Values;
    var key := "proxy-providers";
    var found := FindSection(sections, key);
    if found == None {
      TwiceRead(lines, sections, key);
    } else if found.value == None {
      NoneRead(lines, sections, key);
    } else {
      OneRead(lines, sections, key, found.value.value);
    }
  }

  // ---------- the MATCH rule ----------

  /** The last target of a MATCH rule among items with an indentation; None where an item cannot be read. */
  function LastTarget(content: seq<string>, indent: nat): Option<Option<string>> {
    if content == [] then Some(None)
    else
      var before, line := LastTarget(content[..|content| - 1], indent), content[|content| - 1];
      if before == None || ItemIndent(line) != Some(indent) then before
      else
        var target := RuleTarget(line);
        if target == None || target.value.Some? then target else before
  }

  function MatchTarget(content: seq<string>): Option<Option<string>> {
    if content == [] then Some(None)
    else
      var indent := ItemIndent(content[0]);
      if indent == None then None else LastTarget(content, indent.value)
  }

  /** The target of the last MATCH rule of a file, if it has one. */
  function MatchOf(lines: seq<string>): Option<Option<string>> {
    var content := ReadSection("rules", lines);
    if content == None then None else MatchTarget(content.value)
  }

  lemma {:induction false} BodiesAppend(a: seq<string>, b: seq<string>)
    ensures Bodies(a + b) == Bodies(a) + Bodies(b)
  {
    hide IsBody;
    if a == [] {
      assert a + b == b && Bodies(a) == [];
    } else {
      BodiesAppend(a[1..], b);
      BodiesHead(a);
      BodiesHead(a + b);
      assert (a + b)[1..] == a[1..] + b;
      Associate(if IsBody(a[0]) then [a[0]] else [], Bodies(a[1..]), Bodies(b));
      hide Bodies;
    }
  }

  lemma BodiesHead(a: seq<string>)
    requires a != []
    ensures Bodies(a) == (if IsBody(a[0]) then [a[0]] else []) + Bodies(a[1..])
  {
    hide IsBody;
  }

  lemma BodiesNext(lines: seq<string>, from: nat, i: nat)
    requires from <= i < |lines|
    ensures Bodies(lines[from..i + 1]) == Bodies(lines[from..i]) + (if IsBody(lines[i]) then [lines[i]] else [])
  {
    hide IsBody;
    assert lines[from..i + 1] == lines[from..i] + [lines[i]];
    BodiesAppend(lines[from..i], [lines[i]]);
    assert [lines[i]][1..] == [];
  }

  lemma {:induction false} BodiesNone(lines: seq<string>, from: nat, i: nat)
    requires from <= i <= |lines|
    ensures Bodies(lines[from..i]) == [] <==> NoBody(lines, from, i)
    decreases i
  {
    hide IsBody;
    if from < i {
      BodiesNone(lines, from, i - 1);
      BodiesNext(lines, from, i - 1);
    }
  }

  /** The first content line. */
  lemma {:induction false} FirstContent(lines: seq<string>, from: nat, i: nat, j: nat)
    requires from <= i < j <= |lines| && NoBody(lines, from, i) && IsBody(lines[i])
    ensures Bodies(lines[from..j]) != [] && Bodies(lines[from..j])[0] == lines[i]
    decreases j
  {
    hide IsBody, Bodies;
    BodiesNext(lines, from, j - 1);
    if i == j - 1 {
      BodiesNone(lines, from, i);
    } else {
      FirstContent(lines, from, i, j - 1);
    }
  }

  lemma LastTargetNext(content: seq<string>, line: string, indent: nat)
    ensures LastTarget(content + [line], indent) ==
      if LastTarget(content, indent) == None || ItemIndent(line) != Some(indent) then LastTarget(content, indent)
      else if RuleTarget(line) == None || RuleTarget(line).value.Some? then RuleTarget(line)
      else LastTarget(content, indent)
  {
    hide ItemIndent, RuleTarget;
    assert (content + [line])[..|content|] == content;
  }

  /** Items up to a line: what the MATCH rule among them is. */
  ghost predicate TargetUpTo(lines: seq<string>, indent: nat, from: nat, i: nat, rule: Option<Rule>)
    requires from <= i <= |lines|
  {
    LastTarget(Bodies(lines[from..i]), indent) ==
      Some(if rule.Some? && rule.value.index < i then Some(rule.value.target) else None)
  }

  /** All items can be read; the one of the rule is a MATCH rule, and none behind it is. */
  ghost predicate IsLastMatch(lines: seq<string>, indent: nat, from: nat, end: nat, rule: Option<Rule>)
    requires from <= end <= |lines|
  {
    && (forall i :: from <= i < end && ItemAt(lines, i, indent) ==> RuleTarget(lines[i]).Some?)
    && (forall i :: from <= i < end && ItemAt(lines, i, indent) && (rule.Some? ==> i > rule.value.index) ==>
         RuleTarget(lines[i]) == Some(None))
    && (rule.Some? ==>
         from <= rule.value.index < end && ItemAt(lines, rule.value.index, indent)
         && RuleTarget(lines[rule.value.index]) == Some(Some(rule.value.target)))
  }

  /** From the line of the rule on, it is the last one. */
  lemma {:induction false} TargetFrom(lines: seq<string>, indent: nat, from: nat, i: nat, end: nat, rule: Option<Rule>)
    requires from <= i <= end <= |lines| && IsLastMatch(lines, indent, from, end, rule)
    ensures LastTarget(Bodies(lines[from..i]), indent).Some?
    ensures rule == None || rule.value.index < i ==> TargetUpTo(lines, indent, from, i, rule)
    decreases i
  {
    hide ItemIndent, RuleTarget, IsBody, Bodies, LastTarget;
    if from < i {
      TargetFrom(lines, indent, from, i - 1, end, rule);
      BodiesNext(lines, from, i - 1);
      if IsBody(lines[i - 1]) {
        LastTargetNext(Bodies(lines[from..i - 1]), lines[i - 1], indent);
      } else {
        assert Bodies(lines[from..i - 1]) + [] == Bodies(lines[from..i - 1]);
      }
    } else {
      NothingTargeted(lines, from, indent);
    }
  }

  lemma NothingTargeted(lines: seq<string>, from: nat, indent: nat)
    requires from <= |lines|
    ensures Bodies(lines[from..from]) == [] && LastTarget([], indent) == Some(None)
  {
  }

  lemma ListedMatch(lines: seq<string>, s: Section, list: BlockList, rule: Option<Rule>)
    requires s.start < s.end <= |lines| && IsBlockList(lines, s, Some(list)) && IsMatchRule(lines, s, list, rule)
    ensures IsLastMatch(lines, list.indent, s.start + 1, s.end, rule)
  {
    hide ItemIndent, RuleTarget, IsBody, NoBody;
    forall i | s.start < i < s.end && ItemAt(lines, i, list.indent)
      ensures exists item :: item in list.items && item.start == i
    {
      var k :| 0 <= k < |list.items| && list.items[k].start == i;
      assert list.items[k] in list.items;
    }
    if rule.Some? {
      ItemIsBody(lines[rule.value.index]);
    }
  }

  lemma ItemIsBody(line: string)
    requires ItemIndent(line).Some?
    ensures IsBody(line)
  {
  }

  /** yamlMatchRule finds the target that the line by line reading finds. */
  lemma MatchIsRead(lines: seq<string>, sections: seq<Section>, rule: Option<Rule>)
    requires IsDocument(lines, sections) && MatchRuleIs(lines, sections, rule)
    ensures MatchOf(lines) == Some(if rule.Some? then Some(rule.value.target) else None)
  {
    hide IsDocument, FindSection, ReadSection, Bodies, IsBlockValue, Content, Values, RuleTarget, ItemIndent, IsMatchRule, LastTarget,
         IsItemList, IsBody, NoBody;
    var found := FindSection(sections, "rules").value;
    if found == None {
      NoneRead(lines, sections, "rules");
    } else {
      var s := found.value;
      OneRead(lines, sections, "rules", s);
      var list :| IsBlockList(lines, s, Some(list)) && IsMatchRule(lines, s, list, rule);
      ListedMatch(lines, s, list, rule);
      TargetFrom(lines, list.indent, s.start + 1, s.end, s.end, rule);
      ListContent(lines, s, list);
      NoRule(lines, list.indent, s.start + 1, s.end, rule);
    }
  }

  /** A list without content has no MATCH rule. */
  lemma NoRule(lines: seq<string>, indent: nat, from: nat, end: nat, rule: Option<Rule>)
    requires from <= end <= |lines| && IsLastMatch(lines, indent, from, end, rule)
    ensures Bodies(lines[from..end]) == [] ==> rule == None
  {
    hide IsBody, Bodies, RuleTarget, ItemIndent;
    BodiesNone(lines, from, end);
  }

  /** The indentation of a list is that of its first content line. */
  lemma ListContent(lines: seq<string>, s: Section, list: BlockList)
    requires s.start < s.end <= |lines| && IsBlockList(lines, s, Some(list))
    ensures IsBlockValue(s.value)
    ensures var content := Bodies(lines[s.start + 1..s.end]); content != [] ==> ItemIndent(content[0]) == Some(list.indent)
  {
    hide IsBody, Bodies, ItemIndent, IsItemList, NoBody, IsBlockValue;
    BodiesNone(lines, s.start + 1, s.end);
    if !NoBody(lines, s.start + 1, s.end) {
      var i := FirstBody(lines, s.start + 1, s.end);
      FirstContent(lines, s.start + 1, i, s.end);
    }
  }

  // ---------- groups ----------

  /** The names of the items with an indentation; None where one cannot be read. */
  function NamesIn(content: seq<string>, indent: nat): Option<seq<string>> {
    if content == [] then Some([])
    else
      var before, line := NamesIn(content[..|content| - 1], indent), content[|content| - 1];
      if before == None || ItemIndent(line) != Some(indent) then before
      else
        var name := NameOf(line);
        if name == None then None else Some(before.value + [name.value])
  }

  function GroupNamesIn(content: seq<string>): Option<seq<string>> {
    if content == [] then Some([])
    else
      var indent := ItemIndent(content[0]);
      if indent == None then None else NamesIn(content, indent.value)
  }

  /** The names of the groups of a file. */
  function GroupNamesOf(lines: seq<string>): Option<seq<string>> {
    var content := ReadSection("proxy-groups", lines);
    if content == None then None else GroupNamesIn(content.value)
  }

  lemma NamesInNext(content: seq<string>, line: string, indent: nat)
    ensures NamesIn(content + [line], indent) ==
      if NamesIn(content, indent) == None || ItemIndent(line) != Some(indent) then NamesIn(content, indent)
      else if NameOf(line) == None then None
      else Some(NamesIn(content, indent).value + [NameOf(line).value])
  {
    hide ItemIndent, NameOf;
    assert (content + [line])[..|content|] == content;
  }

  lemma {:induction false} NamesAreItemNames(lines: seq<string>, indent: nat, from: nat, i: nat)
    requires from <= i <= |lines|
    ensures NamesIn(Bodies(lines[from..i]), indent) == ItemNames(lines, indent, from, i)
    decreases i
  {
    hide ItemIndent, NameOf, IsBody, Bodies;
    if from < i {
      NamesAreItemNames(lines, indent, from, i - 1);
      BodiesNext(lines, from, i - 1);
      hide NamesIn;
      if IsBody(lines[i - 1]) {
        NamesInNext(Bodies(lines[from..i - 1]), lines[i - 1], indent);
      } else {
        assert Bodies(lines[from..i - 1]) + [] == Bodies(lines[from..i - 1]);
      }
    } else {
      NothingTargeted(lines, from, indent);
    }
  }

  /** The names of items, one after another. */
  lemma {:induction false} ItemsNamed(lines: seq<string>, from: nat, end: nat, indent: nat, items: seq<Item>, names: seq<string>, k: nat)
    requires from <= end <= |lines| && IsItemList(lines, from, end, indent, items) && |names| == |items| && k <= |items|
    requires forall j :: 0 <= j < |items| ==> NameOf(lines[items[j].start]) == Some(names[j])
    ensures var at := if k < |items| then items[k].start else end;
      from <= at <= end && ItemNames(lines, indent, from, at) == Some(names[..k])
  {
    hide IsBody, ItemIndent, NameOf;
    if k == 0 {
      NoItemBefore(lines, from, end, indent, items);
    } else {
      ItemsNamed(lines, from, end, indent, items, names, k - 1);
      NoItemBetween(lines, from, end, indent, items, k - 1);
      NoItemNames(lines, indent, from, items[k - 1].start + 1, items[k - 1].end);
      assert names[..k] == names[..k - 1] + [names[k - 1]];
    }
  }

  /** yamlGroups finds the names that the line by line reading finds. */
  lemma GroupsAreRead(lines: seq<string>, sections: seq<Section>, groups: seq<Group>)
    requires IsDocument(lines, sections) && GroupsAre(lines, sections, groups)
    ensures GroupNamesOf(lines).Some? && |GroupNamesOf(lines).value| == |groups|
    ensures forall k :: 0 <= k < |groups| ==> GroupNamesOf(lines).value[k] == groups[k].name
  {
    hide IsDocument, FindSection, ReadSection, Bodies, IsBlockValue, Content, Values, ItemIndent, NamesIn, NameOf, KindOf,
         IsItemList, IsBody, NoBody, ItemNames;
    var found := FindSection(sections, "proxy-groups").value;
    if found == None {
      NoneRead(lines, sections, "proxy-groups");
    } else {
      var s := found.value;
      OneRead(lines, sections, "proxy-groups", s);
      var list :| IsBlockList(lines, s, Some(list)) && AreGroups(lines, s, list, groups);
      var names := seq(|groups|, k requires 0 <= k < |groups| => groups[k].name);
      ItemsNamed(lines, s.start + 1, s.end, list.indent, list.items, names, |list.items|);
      NamesAreItemNames(lines, list.indent, s.start + 1, s.end);
      ListContent(lines, s, list);
      assert names[..|names|] == names;
      NoNames(list.indent);
    }
  }

  lemma NoNames(indent: nat)
    ensures NamesIn([], indent) == Some([])
  {
  }

  // ---------- reading a text again ----------

  /** Where some line at the top level is no section header, no names can be read. */
  lemma NamesNeedHeaders(lines: seq<string>)
    requires NamesOf(lines).Some?
    ensures AllHeaders(lines)
  {
    hide IsTopLevel, KeyLine, Run, NamesOf;
    forall i | 0 <= i < |lines| && IsTopLevel(lines[i])
      ensures KeyLine(lines[i]).Some?
    {
      if KeyLine(lines[i]) == None {
        BadHeader(lines, i);
      }
    }
  }

  lemma BadHeader(lines: seq<string>, i: nat)
    requires i < |lines| && IsTopLevel(lines[i]) && KeyLine(lines[i]) == None
    ensures NamesOf(lines) == None
  {
    RunNext(lines, i);
    StaysUnreadable(lines, i + 1, |lines|);
    assert lines[..|lines|] == lines;
  }

  lemma BlankSection(key: string, lines: seq<string>)
    ensures ReadSection(key, lines + [""]) == ReadSection(key, lines)
  {
    hide IsHeader, KeyLine, Content, Values, After;
    ContentAppend(key, false, lines, [""]);
    ValuesAppend(key, lines, [""]);
    BlankContent(key, After(key, false, lines));
    assert Content(key, false, lines) + [] == Content(key, false, lines) && Values(key, lines) + [] == Values(key, lines);
    assert !IsTopLevel("");
    hide IsTopLevel, IsBlockValue;
    assert forall k :: 0 <= k < |lines| ==> (lines + [""])[k] == lines[k];
  }

  lemma BlankContent(key: string, inside: bool)
    ensures Content(key, inside, [""]) == [] && Values(key, [""]) == []
  {
    assert [""][1..] == [];
    assert IsBlank("");
  }

  lemma {:induction false} RereadSection(key: string, lines: seq<string>)
    requires lines != [] && IsClean(lines)
    ensures ReadSection(key, Lines(EndOnce(Join(lines, "\n")))) == ReadSection(key, lines)
  {
    hide ReadSection, Normalize;
    var n := |lines| - 1;
    var text := Join(lines, "\n");
    if lines[n] == "" && n > 0 {
      JoinSnoc(lines[..n], "", "\n");
      assert lines == lines[..n] + [""];
      assert text[..|text| - 1] == Join(lines[..n], "\n");
      RereadSection(key, lines[..n]);
      BlankSection(key, lines[..n]);
    } else {
      JoinLast(lines);
      assert text == TrimBreaks(text);
      JoinSnoc(lines, "", "\n");
      assert EndOnce(text) == Join(lines + [""], "\n");
      LinesOfJoin(lines + [""]);
      BlankSection(key, lines);
    }
  }
}
