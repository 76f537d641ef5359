/** Reading a group again after names have joined it: the other groups stay, and it has its old members and the new
    ones, exactly when the old ones are indented like those. */
module MergeJoin {
  import opened Wrappers
  import opened Text
  import opened YamlText
  import opened YamlDocument
  import opened YamlEmit
  import opened YamlFragment
  import opened YamlRoutes
  import opened ProxyNames
  import opened LineEdits
  import opened MergedNames
  import opened MergePlan
  import opened MergeText
  import opened MergePlacing
  import opened MergeRouting
  import opened YamlMerge
  import opened SectionContent
  import opened SectionReading
  import opened MergedSections
  import opened MergeReading
  import opened FieldReading
  import opened ListReading
  import opened GroupMembers
  import opened MergeFields

  /** The groups of a file, each with its content lines. */
  function GroupParts(lines: seq<string>): Option<seq<seq<string>>> {
    var content := ReadSection("proxy-groups", lines);
    if content == None then None
    else if content.value == [] then Some([])
    else
      var indent := ItemIndent(content.value[0]);
      if indent == None then None else Some(Parts(AtItems, indent.value, content.value))
  }

  // ---------- a line written anew ----------

  lemma {:induction false} EditedAnew(lines: seq<string>, anew: seq<string>, ins: map<nat, seq<string>>, rep: map<nat, string>, i: nat)
    requires |anew| == |lines| && i <= |lines|
    requires forall k :: 0 <= k < |lines| ==> LineAt(anew, rep, k) == LineAt(lines, rep, k)
    ensures EditedFrom(anew, ins, rep, i) == EditedFrom(lines, ins, rep, i)
    decreases |lines| - i
  {
    hide LineAt, InsertedAt;
    if i < |lines| {
      EditedAnew(lines, anew, ins, rep, i + 1);
    }
  }

  lemma BlockAnew(lines: seq<string>, sections: seq<Section>, f: nat, line: string, b: Block)
    requires f < |lines| && !IsTopLevel(lines[f]) && !IsTopLevel(line)
    ensures IsBlock(lines, sections, b) == IsBlock(lines[f := line], sections, b)
    ensures IsSectionBlock(lines, b) == IsSectionBlock(lines[f := line], b)
  {
    hide IsTopLevel, KeyLine, AllInner;
  }

  /** A line within a section can be taken as replaced before the edit. */
  lemma ShapeAnew(lines: seq<string>, sections: seq<Section>, plan: Plan, a: Block, b: Block, f: nat, key: string)
    requires IsShape(lines, sections, plan, a, b, Some(Touched(f, key))) && f < |lines| && f in Replaced(plan)
    requires !IsTopLevel(lines[f]) && !IsTopLevel(Replaced(plan)[f])
    ensures var anew := lines[f := Replaced(plan)[f]];
      && IsShape(anew, sections, plan, a, b, Some(Touched(f, key))) && OnlyReplaces(key, anew, Replaced(plan), None)
      && Edited(anew, plan.insertions, Replaced(plan)) == Edited(lines, plan.insertions, Replaced(plan))
  {
    hide IsTopLevel, KeyLine, IsDocument, IsBlock, IsSectionBlock, Replaced, After;
    var rep := Replaced(plan);
    var anew := lines[f := rep[f]];
    DocumentAnew(lines, sections, f, rep[f]);
    BlockAnew(lines, sections, f, rep[f], a);
    BlockAnew(lines, sections, f, rep[f], b);
    EditedAnew(lines, anew, plan.insertions, rep, 0);
    ShapeInStep(anew, sections, plan, a, b, Some(Touched(f, key)), key);
  }

  // ---------- the parts ----------

  /** A part in the middle of the others. */
  lemma PartBetween(before: seq<string>, part: seq<string>, behind: seq<string>, indent: nat)
    requires part != [] && ItemIndent(part[0]) == Some(indent)
    requires forall k :: 1 <= k < |part| ==> ItemIndent(part[k]) != Some(indent)
    requires behind != [] ==> ItemIndent(behind[0]) == Some(indent)
    ensures Parts(AtItems, indent, before + (part + behind))
      == Parts(AtItems, indent, before) + ([part] + Parts(AtItems, indent, behind))
  {
    hide ItemIndent, Parts;
    OnePart(AtItems, indent, part);
    PartsAppend(AtItems, indent, part, behind);
    assert (part + behind)[0] == part[0];
    PartsAppend(AtItems, indent, before, part + behind);
  }

  lemma BodiesSplit(lines: seq<string>, from: nat, mid: nat, end: nat)
    requires from <= mid <= end <= |lines|
    ensures Bodies(lines[from..end]) == Bodies(lines[from..mid]) + Bodies(lines[mid..end])
  {
    hide Bodies;
    assert lines[from..end] == lines[from..mid] + lines[mid..end];
    BodiesAppend(lines[from..mid], lines[mid..end]);
  }

  lemma {:induction false} BodiesHold(lines: seq<string>, from: nat, end: nat, k: nat) returns (i: nat)
    requires from <= end <= |lines| && k < |Bodies(lines[from..end])|
    ensures from <= i < end && Bodies(lines[from..end])[k] == lines[i] && IsBody(lines[i])
    decreases end - from
  {
    hide IsBody;
    BodiesSplit(lines, from, from + 1, end);
    OneBody(lines, from);
    if IsBody(lines[from]) && k == 0 {
      i := from;
    } else {
      i := BodiesHold(lines, from + 1, end, if IsBody(lines[from]) then k - 1 else k);
    }
  }

  lemma OneBody(lines: seq<string>, i: nat)
    requires i < |lines|
    ensures Bodies(lines[i..i + 1]) == if IsBody(lines[i]) then [lines[i]] else []
  {
    hide IsBody;
    assert lines[i..i + 1][1..] == [];
    assert lines[i..i + 1][0] == lines[i];
  }

  /** No item of the list begins within a group. */
  lemma WithinGroup(lines: seq<string>, s: Section, list: BlockList, groups: seq<Group>, k: nat)
    requires s.start < s.end <= |lines| && IsBlockList(lines, s, Some(list)) && AreGroups(lines, s, list, groups) && k < |groups|
    ensures s.start < groups[k].start < groups[k].end <= s.end && groups[k].indent == list.indent
    ensures ItemIndent(lines[groups[k].start]) == Some(list.indent)
    ensures forall i :: groups[k].start < i < groups[k].end ==> ItemIndent(lines[i]) != Some(list.indent)
    ensures groups[k].end < s.end ==> ItemIndent(lines[groups[k].end]) == Some(list.indent)
  {
    hide IsBody, NoBody, NameOf, KindOf, ItemIndent;
    assert IsGroup(lines, s, groups[k]) && IsGroupOf(groups[k], list, k);
    assert list.items[k].start == groups[k].start && list.items[k].end == groups[k].end;
    assert ItemAt(lines, list.items[k].start, list.indent);
    NoItemBetween(lines, s.start + 1, s.end, list.indent, list.items, k);
    forall i | groups[k].start < i < groups[k].end
      ensures ItemIndent(lines[i]) != Some(list.indent)
    {
      assert !ItemAt(lines, i, list.indent);
      BodyIfItem(lines[i]);
    }
    if k + 1 < |groups| {
      assert ItemAt(lines, list.items[k + 1].start, list.indent) && list.items[k].end == list.items[k + 1].start;
    } else {
      assert list.items[|list.items| - 1].end == s.end;
    }
  }

  lemma BodyIfItem(line: string)
    ensures ItemIndent(line).Some? ==> IsBody(line)
  {
  }

  // ---------- the lines of a group ----------

  /** The content behind a field: its deeper entries, and what follows them. */
  lemma BehindField(lines: seq<string>, from: nat, end: nat, indent: nat, key: string, f: nat, at: nat)
    requires IsLastField(lines, from, end, indent, key, Some(f)) && IsFieldEnd(lines, f, end, indent, at)
    ensures from <= f < at <= end <= |lines|
    ensures var d := Bodies(lines[f + 1..at]); (forall k :: 0 <= k < |d| ==> Indent(d[k]) > indent) && NoField(d, indent, key)
    ensures var e := Bodies(lines[at..end]); EndsHere(e, indent) && NoField(e, indent, key)
  {
    hide IsBlank, IsBody, FieldValue, Indent;
    var stop: nat :|
      && IsContentEnd(lines, f, stop, at) && stop <= end <= |lines|
      && (forall k :: f < k < stop ==> IsDeeper(lines[k], indent))
      && (stop < end ==> !IsDeeper(lines[stop], indent));
    var d, e := Bodies(lines[f + 1..at]), Bodies(lines[at..end]);
    forall k | 0 <= k < |d|
      ensures Indent(d[k]) > indent && FieldValue(d[k], indent, key) == None
    {
      var i := BodiesHold(lines, f + 1, at, k);
      assert IsDeeper(lines[i], indent);
    }
    forall k | 0 <= k < |e|
      ensures FieldValue(e[k], indent, key) == None
    {
      var i := BodiesHold(lines, at, end, k);
    }
    BodiesSplit(lines, at, stop, end);
    BlankBodies(lines[at..stop]);
    if stop < end {
      BodiesSplit(lines, stop, stop + 1, end);
      OneBody(lines, stop);
    }
  }

  /** A line that is a field is content, and begins no item of the list of groups. */
  lemma FieldLine(line: string, indent: nat, mode: SourceMode)
    requires FieldValue(line, indent, FieldName(mode)).Some? && indent >= 2
    ensures IsBody(line) && ItemIndent(line) == None && !IsTopLevel(line)
  {
    FieldKeyStart(mode);
    hide FieldName, IsSpace;
    assert line[indent..][0] == line[indent];
  }

  lemma FieldKeyStart(mode: SourceMode)
    ensures FieldName(mode) != "" && IsLetter(FieldName(mode)[0]) && !IsSpace(FieldName(mode)[0])
    ensures FieldName(mode)[0] != '#' && FieldName(mode)[0] != '-'
  {
  }

  /** The line that is written for a field. */
  lemma HeaderLine(indent: nat, mode: SourceMode)
    requires indent >= 2
    ensures FieldValue(Spaces(indent) + FieldName(mode) + ":", indent, FieldName(mode)) == Some("")
    ensures IsBody(Spaces(indent) + FieldName(mode) + ":") && ItemIndent(Spaces(indent) + FieldName(mode) + ":") == None
  {
    var key := FieldName(mode);
    var line, tail := Spaces(indent) + key + ":", key + ":";
    FieldKeyStart(mode);
    hide FieldName, Spaces, Indent, Trim, IsSpace;
    assert line == Spaces(indent) + tail;
    LineWith(indent, tail);
    HeaderText(line, indent, key);
    NothingAfter();
    FieldLine(line, indent, mode);
  }

  lemma HeaderText(line: string, indent: nat, key: string)
    requires Indent(line) == indent && TrimStart(line) == key + ":"
    ensures FieldText(line, indent, key) == Some("")
  {
    hide Indent;
    var tail := key + ":";
    assert line[indent..] == tail && tail[..|key| + 1] == tail && tail[|key| + 1..] == "";
    assert line[indent + |key| + 1..] == tail[|key| + 1..];
  }

  lemma NothingAfter()
    ensures Trim("") == "" && Indent("") == 0 && NoBreak("")
  {
  }

  /** The lines of the new entries: content, no fields, and no items of the list of groups. */
  lemma EntryContent(names: seq<string>, indent: nat, key: string)
    ensures Bodies(EntryLines(names, indent + 2)) == EntryLines(names, indent + 2)
    ensures NoField(EntryLines(names, indent + 2), indent, key)
    ensures var n := EntryLines(names, indent + 2); forall k :: 0 <= k < |n| ==> ItemIndent(n[k]) == Some(indent + 2)
  {
    hide EntryLines, LooksCommented, IsBody, Indent, ItemIndent;
    ItemsRead(names, indent + 2);
    EntriesAreMembers(names, indent + 2);
    AllBodies(EntryLines(names, indent + 2));
  }

  /** The old lines of a group and the new ones, and what its members are. */
  ghost predicate IsGrown(before: seq<string>, after: seq<string>, indent: nat, key: string, names: seq<string>) {
    && before != [] && after != [] && after[0] == before[0]
    && (MembersOf(before, indent, key).Some? ==>
         (MembersOf(after, indent, key) == Some(MembersOf(before, indent, key).value + names)
          <==> MemberIndent(before, indent, key) in {None, Some(indent + 2)} && forall x :: x in names ==> !LooksCommented(x)))
  }

  ghost predicate NoItems(lines: seq<string>, from: nat, indent: nat) {
    forall k :: from <= k < |lines| ==> ItemIndent(lines[k]) != Some(indent)
  }

  lemma FieldGroup(a: seq<string>, was: string, now: string, d: seq<string>, e: seq<string>, indent: nat, key: string, names: seq<string>)
    requires a != [] && names != [] && FieldValue(was, indent, key).Some? && FieldValue(now, indent, key) == Some("")
    requires NoField(d, indent, key) && NoField(e, indent, key) && NoField(EntryLines(names, indent + 2), indent, key)
    requires (forall k :: 0 <= k < |d| ==> Indent(d[k]) > indent) && EndsHere(e, indent)
    ensures IsGrown(a + [was] + (d + e), a + [now] + (d + EntryLines(names, indent + 2) + e), indent, key, names)
  {
    hide LooksCommented, FieldValue, EntryLines, Indent, ItemIndent, MembersOf, MemberIndent;
    if MembersOf(a + [was] + (d + e), indent, key).Some? {
      FieldJoined(a, was, now, d, e, indent, key, names);
    }
  }

  lemma NewFieldGroup(part: seq<string>, header: string, indent: nat, key: string, names: seq<string>)
    requires part != [] && names != [] && NoField(part, indent, key) && FieldValue(header, indent, key) == Some("")
    requires NoField(EntryLines(names, indent + 2), indent, key)
    ensures IsGrown(part, part + ([header] + EntryLines(names, indent + 2)), indent, key, names)
  {
    hide LooksCommented, FieldValue, EntryLines, Indent, ItemIndent, MembersOf, MemberIndent;
    FieldCome(part, header, indent, key, names);
    assert [] + names == names;
  }

  // ---------- the section of the groups ----------

  /** The content of the section before and after: the same in front of a group and behind it. */
  datatype Split = Split(front: seq<string>, was: seq<string>, now: seq<string>, behind: seq<string>)

  ghost predicate IsSplit(p: Split, lines: seq<string>, edited: seq<string>, first: string, indent: nat, key: string, names: seq<string>) {
    && ReadSection("proxy-groups", lines) == Some(p.front + (p.was + p.behind))
    && ReadSection("proxy-groups", edited) == Some(p.front + (p.now + p.behind))
    && IsGrown(p.was, p.now, indent + 2, key, names) && p.was[0] == first
    && NoItems(p.was, 1, indent) && NoItems(p.now, 1, indent)
    && (p.behind != [] ==> ItemIndent(p.behind[0]) == Some(indent))
  }

  /** A group in the content of its section. */
  lemma AroundGroup(lines: seq<string>, sections: seq<Section>, s: Section, list: BlockList, groups: seq<Group>, k: nat)
    requires IsDocument(lines, sections) && FindSection(sections, "proxy-groups") == Some(Some(s)) && IsBlockValue(s.value)
    requires s.start < s.end <= |lines| && IsBlockList(lines, s, Some(list)) && AreGroups(lines, s, list, groups) && k < |groups|
    ensures var g := groups[k];
      && s.start < g.start < g.end <= s.end
      && ReadSection("proxy-groups", lines)
           == Some(Bodies(lines[s.start + 1..g.start]) + (Bodies(lines[g.start..g.end]) + Bodies(lines[g.end..s.end])))
      && IsBody(lines[g.start]) && (Bodies(lines[g.end..s.end]) != [] ==> ItemIndent(Bodies(lines[g.end..s.end])[0]) == Some(list.indent))
  {
    hide IsDocument, FindSection, IsBlockValue, IsBody, Bodies, ItemIndent, IsItemList, NoBody, NameOf, KindOf, ReadSection;
    var g := groups[k];
    WithinGroup(lines, s, list, groups, k);
    OneRead(lines, sections, "proxy-groups", s);
    BodiesSplit(lines, s.start + 1, g.start, s.end);
    BodiesSplit(lines, g.start, g.end, s.end);
    BodyIfItem(lines[g.start]);
    if g.end < s.end {
      BodyIfItem(lines[g.end]);
      BodiesSplit(lines, g.end, g.end + 1, s.end);
      OneBody(lines, g.end);
    } else {
      NoneThere(lines, s.end);
    }
  }

  lemma NoneThere(lines: seq<string>, i: nat)
    requires i <= |lines|
    ensures Bodies(lines[i..i]) == []
  {
  }

  /** No item of the list among the content of a group behind its first line. */
  lemma NoItemsIn(lines: seq<string>, from: nat, end: nat, indent: nat)
    requires from <= end <= |lines| && forall i :: from <= i < end ==> ItemIndent(lines[i]) != Some(indent)
    ensures NoItems(Bodies(lines[from..end]), 0, indent)
  {
    hide ItemIndent, IsBody;
    var content := Bodies(lines[from..end]);
    forall k | 0 <= k < |content|
      ensures ItemIndent(content[k]) != Some(indent)
    {
      var i := BodiesHold(lines, from, end, k);
    }
  }

  lemma NoItemsAppend(a: seq<string>, b: seq<string>, from: nat, indent: nat)
    requires NoItems(a, from, indent) && NoItems(b, 0, indent) && from <= |a|
    ensures NoItems(a + b, from, indent)
  {
    hide ItemIndent;
  }

  /** The content of the group up to a line, that line, and what follows. */
  lemma GroupAt(lines: seq<string>, from: nat, f: nat, at: nat, end: nat)
    requires from < f < at <= end <= |lines| && IsBody(lines[from]) && IsBody(lines[f])
    ensures Bodies(lines[from..end])
      == Bodies(lines[from..f]) + [lines[f]] + (Bodies(lines[f + 1..at]) + Bodies(lines[at..end]))
    ensures Bodies(lines[from..at]) == Bodies(lines[from..f]) + [lines[f]] + Bodies(lines[f + 1..at])
    ensures Bodies(lines[from..f]) != [] && Bodies(lines[from..f])[0] == lines[from]
  {
    hide IsBody, Bodies;
    BodiesSplit(lines, from, from + 1, f);
    OneBody(lines, from);
    BodiesSplit(lines, from, f, at);
    BodiesSplit(lines, f, f + 1, at);
    OneBody(lines, f);
    BodiesSplit(lines, from, at, end);
    Associate(Bodies(lines[from..f]), [lines[f]], Bodies(lines[f + 1..at]));
    Associate(Bodies(lines[from..f]) + [lines[f]], Bodies(lines[f + 1..at]), Bodies(lines[at..end]));
  }

  /** With another line in the place of f. */
  lemma GroupAnew(lines: seq<string>, s: Section, from: nat, f: nat, at: nat, line: string)
    requires s.start < from < f < at <= s.end <= |lines| && IsBody(lines[from]) && IsBody(line) && IsBody(lines[f])
    ensures var anew := lines[f := line];
      && Bodies(anew[s.start + 1..at]) == Bodies(lines[s.start + 1..from]) + (Bodies(lines[from..f]) + [line] + Bodies(lines[f + 1..at]))
      && Bodies(anew[at..s.end]) == Bodies(lines[at..s.end])
  {
    hide IsBody, Bodies;
    var anew := lines[f := line];
    BodiesSplit(anew, s.start + 1, from, at);
    GroupAt(anew, from, f, at, at);
    assert anew[s.start + 1..from] == lines[s.start + 1..from] && anew[from..f] == lines[from..f];
    assert anew[f + 1..at] == lines[f + 1..at] && anew[at..s.end] == lines[at..s.end];
  }

  /** The new names behind the entries of a field of a group. */
  lemma JoinedField(lines: seq<string>, sections: seq<Section>, plan: Plan, a: Block, b: Block, s: Section, list: BlockList,
                    groups: seq<Group>, k: nat, mode: SourceMode, names: seq<string>, f: nat) returns (p: Split)
    requires IsShape(lines, sections, plan, a, b, Some(Touched(f, "proxy-groups"))) && b.owner == "proxy-groups" && AllInner(b.lines)
    requires FindSection(sections, "proxy-groups") == Some(Some(s)) && IsBlockValue(s.value)
    requires s.start < s.end <= |lines| && IsBlockList(lines, s, Some(list)) && AreGroups(lines, s, list, groups) && k < |groups|
    requires var g, key := groups[k], FieldName(mode);
      && IsLastField(lines, g.start + 1, g.end, list.indent + 2, key, Some(f)) && IsFieldEnd(lines, f, g.end, list.indent + 2, b.at)
      && FieldValue(lines[f], list.indent + 2, key) in {Some(""), Some("[]")}
      && (FieldValue(lines[f], list.indent + 2, key) == Some("[]") ==>
           f in Replaced(plan) && Replaced(plan)[f] == Spaces(list.indent + 2) + key + ":")
      && (FieldValue(lines[f], list.indent + 2, key) == Some("") ==> f !in Replaced(plan))
    requires b.lines == EntryLines(names, list.indent + 2 + 2) && names != []
    requires AllHeaders(Edited(lines, plan.insertions, Replaced(plan)))
    ensures IsSplit(p, lines, Edited(lines, plan.insertions, Replaced(plan)), lines[groups[k].start], list.indent, FieldName(mode), names)
  {
    hide IsShape, FindSection, IsBlockValue, IsBlockList, AreGroups, IsFieldEnd, FieldValue, EntryLines, AllHeaders, Edited, Replaced,
         FieldName, IsBody, Bodies, ItemIndent, NoField, EndsHere, Indent, IsGrown, NoItems, ReadSection, IsTopLevel, Spaces, IsLastField,
         OnlyReplaces, LooksCommented, AllInner;
    var g, key, indent, at := groups[k], FieldName(mode), list.indent + 2, b.at;
    ShapeDocument(lines, sections, plan, a, b, Some(Touched(f, "proxy-groups")));
    AroundGroup(lines, sections, s, list, groups, k);
    WithinGroup(lines, s, list, groups, k);
    BehindField(lines, g.start + 1, g.end, indent, key, f, at);
    FieldLine(lines[f], indent, mode);
    HeaderLine(indent, mode);
    var line := if f in Replaced(plan) then Replaced(plan)[f] else lines[f];
    FieldLine(line, indent, mode);
    GroupAt(lines, g.start, f, at, g.end);
    GroupAnew(lines, s, g.start, f, at, line);
    var anew := lines[f := line];
    var d, e, x := Bodies(lines[f + 1..at]), Bodies(lines[at..g.end]), Bodies(lines[g.start..f]);
    EntryContent(names, indent, key);
    Inserted(lines, sections, plan, a, b, s, f, line);
    InnerAdded(b);
    BodiesSplit(lines, at, g.end, s.end);
    FieldGroup(x, lines[f], line, d, e, indent, key, names);
    var front, behind := Bodies(lines[s.start + 1..g.start]), Bodies(lines[g.end..s.end]);
    var n := EntryLines(names, indent + 2);
    p := Split(front, x + [lines[f]] + (d + e), x + [line] + (d + n + e), behind);
    Regroup(front, x + [line], d, n, e, behind);
    OtherItems(n, indent + 2, list.indent);
    NoItemsOf(lines, g.start, f, at, g.end, line, n, list.indent);
  }

  lemma ShapeDocument(lines: seq<string>, sections: seq<Section>, plan: Plan, a: Block, b: Block, touched: Option<Touched>)
    requires IsShape(lines, sections, plan, a, b, touched)
    ensures IsDocument(lines, sections)
  {
    hide IsDocument, IsBlock, IsReplacement, IsSectionBlock, Replaced;
  }

  lemma Regroup<T>(front: seq<T>, x: seq<T>, d: seq<T>, n: seq<T>, e: seq<T>, behind: seq<T>)
    ensures (front + (x + d)) + (n + (e + behind)) == front + ((x + (d + n + e)) + behind)
  {
  }

  /** No items of the list of groups among the old and the new lines of the group. */
  lemma NoItemsOf(lines: seq<string>, from: nat, f: nat, at: nat, end: nat, line: string, n: seq<string>, indent: nat)
    requires from < f < at <= end <= |lines| && IsBody(lines[from])
    requires forall i :: from < i < end ==> ItemIndent(lines[i]) != Some(indent)
    requires ItemIndent(line) != Some(indent) && NoItems(n, 0, indent)
    ensures var x, d, e := Bodies(lines[from..f]), Bodies(lines[f + 1..at]), Bodies(lines[at..end]);
      && NoItems(x + [lines[f]] + (d + e), 1, indent) && NoItems(x + [line] + (d + n + e), 1, indent)
  {
    hide Bodies, ItemIndent, IsBody;
    var x, d, e := Bodies(lines[from..f]), Bodies(lines[f + 1..at]), Bodies(lines[at..end]);
    BodiesSplit(lines, from, from + 1, f);
    OneBody(lines, from);
    NoItemsIn(lines, from + 1, f, indent);
    NoItemsIn(lines, f + 1, at, indent);
    NoItemsIn(lines, at, end, indent);
    assert NoItems(x, 1, indent);
    NoItemsAppend(x, [lines[f]], 1, indent);
    NoItemsAppend(x, [line], 1, indent);
    NoItemsAppend(d, e, 0, indent);
    NoItemsAppend(d, n, 0, indent);
    NoItemsAppend(d + n, e, 0, indent);
    NoItemsAppend(x + [lines[f]], d + e, 1, indent);
    NoItemsAppend(x + [line], d + n + e, 1, indent);
  }

  /** The content of the section of groups when names are inserted and one of its lines is written anew. */
  lemma Inserted(lines: seq<string>, sections: seq<Section>, plan: Plan, a: Block, b: Block, s: Section, f: nat, line: string)
    requires IsShape(lines, sections, plan, a, b, Some(Touched(f, "proxy-groups"))) && b.owner == "proxy-groups" && AllInner(b.lines)
    requires FindSection(sections, "proxy-groups") == Some(Some(s)) && IsBlockValue(s.value) && s.start < b.at <= s.end <= |lines|
    requires f < |lines| && line == (if f in Replaced(plan) then Replaced(plan)[f] else lines[f])
    requires !IsTopLevel(lines[f]) && !IsTopLevel(line)
    requires AllHeaders(Edited(lines, plan.insertions, Replaced(plan)))
    ensures var anew := lines[f := line];
      ReadSection("proxy-groups", Edited(lines, plan.insertions, Replaced(plan)))
        == Some(Bodies(anew[s.start + 1..b.at]) + (Added(b) + Bodies(anew[b.at..s.end])))
  {
    hide IsShape, FindSection, IsBlockValue, AllHeaders, Edited, Replaced, Bodies, ReadSection, IsTopLevel, AllInner, Added;
    if f in Replaced(plan) {
      ShapeAnew(lines, sections, plan, a, b, f, "proxy-groups");
      SectionInserted(lines[f := line], sections, plan, a, b, Some(Touched(f, "proxy-groups")), b, s);
    } else {
      assert lines[f := line] == lines;
      ShapeInStep(lines, sections, plan, a, b, Some(Touched(f, "proxy-groups")), "proxy-groups");
      SectionInserted(lines, sections, plan, a, b, Some(Touched(f, "proxy-groups")), b, s);
    }
  }

  lemma OtherItems(lines: seq<string>, m: nat, indent: nat)
    requires m != indent && forall k :: 0 <= k < |lines| ==> ItemIndent(lines[k]) == Some(m)
    ensures NoItems(lines, 0, indent)
  {
    hide ItemIndent;
  }

  /** A new field at the end of a group. */
  lemma JoinedNew(lines: seq<string>, sections: seq<Section>, plan: Plan, a: Block, b: Block, s: Section, list: BlockList,
                  groups: seq<Group>, k: nat, mode: SourceMode, names: seq<string>) returns (p: Split)
    requires IsShape(lines, sections, plan, a, b, None) && b.owner == "proxy-groups" && AllInner(b.lines)
    requires FindSection(sections, "proxy-groups") == Some(Some(s)) && IsBlockValue(s.value)
    requires s.start < s.end <= |lines| && IsBlockList(lines, s, Some(list)) && AreGroups(lines, s, list, groups) && k < |groups|
    requires IsLastField(lines, groups[k].start + 1, groups[k].end, list.indent + 2, FieldName(mode), None)
    requires IsContentEnd(lines, groups[k].start, groups[k].end, b.at)
    requires b.lines == [Spaces(list.indent + 2) + FieldName(mode) + ":"] + EntryLines(names, list.indent + 2 + 2) && names != []
    requires AllHeaders(Edited(lines, plan.insertions, Replaced(plan)))
    ensures IsSplit(p, lines, Edited(lines, plan.insertions, Replaced(plan)), lines[groups[k].start], list.indent, FieldName(mode), names)
  {
    hide IsShape, FindSection, IsBlockValue, IsBlockList, AreGroups, FieldValue, EntryLines, AllHeaders, Edited, Replaced,
         FieldName, IsBody, Bodies, ItemIndent, NoField, Indent, IsGrown, NoItems, ReadSection, IsTopLevel, Spaces, IsLastField,
         OnlyReplaces, LooksCommented, AllInner, IsContentEnd;
    var g, key, indent, at := groups[k], FieldName(mode), list.indent + 2, b.at;
    ShapeDocument(lines, sections, plan, a, b, None);
    AroundGroup(lines, sections, s, list, groups, k);
    WithinGroup(lines, s, list, groups, k);
    ContentEndIn(lines, g.start, g.end, at);
    HeaderLine(indent, mode);
    EntryContent(names, indent, key);
    var header, n := Spaces(indent) + key + ":", EntryLines(names, indent + 2);
    ShapeInStep(lines, sections, plan, a, b, None, "proxy-groups");
    SectionInserted(lines, sections, plan, a, b, None, b, s);
    InnerAdded(b);
    HeadedBodies(header, n);
    BodiesSplit(lines, s.start + 1, g.start, at);
    BodiesSplit(lines, g.start, at, g.end);
    BodiesSplit(lines, at, g.end, s.end);
    GroupWithout(lines, g.start, g.end, list.indent, key);
    var part := Bodies(lines[g.start..g.end]);
    NewFieldGroup(part, header, indent, key, names);
    var front, behind := Bodies(lines[s.start + 1..g.start]), Bodies(lines[g.end..s.end]);
    p := Split(front, part, part + ([header] + n), behind);
    assert part + [] == part && Bodies(lines[g.start..at]) + [] == Bodies(lines[g.start..at]) && [] + behind == behind;
    Regroup(front, part, [], [header] + n, [], behind);
    assert part + ([] + ([header] + n) + []) == part + ([header] + n);
    OtherItems(n, indent + 2, list.indent);
    HeadNoItem(header, n, list.indent);
    NoItemsAppend(part, [header] + n, 1, list.indent);
  }

  lemma ContentEndIn(lines: seq<string>, start: nat, end: nat, at: nat)
    requires IsContentEnd(lines, start, end, at)
    ensures start < at <= end <= |lines| && Bodies(lines[at..end]) == []
  {
    hide IsBlank, Bodies;
    BlankBodies(lines[at..end]);
  }

  lemma HeadedBodies(header: string, lines: seq<string>)
    requires IsBody(header) && Bodies(lines) == lines
    ensures Bodies([header] + lines) == [header] + lines
  {
    hide IsBody, Bodies;
    BodiesHead([header] + lines);
    assert ([header] + lines)[1..] == lines;
  }

  lemma HeadNoItem(header: string, lines: seq<string>, indent: nat)
    requires ItemIndent(header) == None && NoItems(lines, 0, indent)
    ensures NoItems([header] + lines, 0, indent)
  {
    hide ItemIndent;
  }

  /** A group without the field. */
  lemma GroupWithout(lines: seq<string>, from: nat, end: nat, indent: nat, key: string)
    requires from < end <= |lines| && IsLastField(lines, from + 1, end, indent + 2, key, None) && ItemIndent(lines[from]) == Some(indent)
    requires forall i :: from < i < end ==> ItemIndent(lines[i]) != Some(indent)
    ensures var part := Bodies(lines[from..end]);
      part != [] && part[0] == lines[from] && NoField(part, indent + 2, key) && NoItems(part, 1, indent)
  {
    ItemNoField(lines[from], indent, key);
    hide IsBody, Bodies, FieldValue, ItemIndent;
    BodyIfItem(lines[from]);
    BodiesSplit(lines, from, from + 1, end);
    OneBody(lines, from);
    NoItemsIn(lines, from + 1, end, indent);
    var rest := Bodies(lines[from + 1..end]);
    forall k | 0 <= k < |rest|
      ensures FieldValue(rest[k], indent + 2, key) == None
    {
      var i := BodiesHold(lines, from + 1, end, k);
    }
  }

  lemma ItemNoField(line: string, indent: nat, key: string)
    requires ItemIndent(line) == Some(indent)
    ensures FieldValue(line, indent + 2, key) == None
  {
  }

  // ---------- reading a joined group again ----------

  /** The parts before and after: all but one are the same. */
  ghost predicate IsJoinRead(before: seq<seq<string>>, after: seq<seq<string>>, j: nat, first: string, indent: nat, key: string,
                             names: seq<string>) {
    && |after| == |before| && j < |before| && (forall i :: 0 <= i < |before| && i != j ==> after[i] == before[i])
    && IsGrown(before[j], after[j], indent + 2, key, names) && before[j][0] == first
  }

  lemma SplitRead(p: Split, lines: seq<string>, edited: seq<string>, first: string, indent: nat, key: string, names: seq<string>)
    returns (j: nat)
    requires IsSplit(p, lines, edited, first, indent, key, names) && ItemIndent(first) == Some(indent)
    requires p.front != [] ==> ItemIndent(p.front[0]) == Some(indent)
    ensures GroupParts(lines).Some? && GroupParts(edited).Some?
    ensures IsJoinRead(GroupParts(lines).value, GroupParts(edited).value, j, first, indent, key, names)
  {
    hide ItemIndent, ReadSection, Parts, MembersOf, MemberIndent, LooksCommented;
    PartBetween(p.front, p.was, p.behind, indent);
    PartBetween(p.front, p.now, p.behind, indent);
    var before := Parts(AtItems, indent, p.front);
    j := |before|;
    assert (p.front + (p.was + p.behind))[0] == if p.front == [] then p.was[0] else p.front[0];
    assert (p.front + (p.now + p.behind))[0] == if p.front == [] then p.now[0] else p.front[0];
  }

  /** The shape of a merge into a group. */
  lemma JoinShape(text: string, names: seq<string>, group: string, lines: seq<string>, mode: SourceMode, source: string,
                  requestedGroup: string, parse: (string, nat) -> Option<Proxy>, isUrl: string -> bool, m: Merge)
    returns (a: Block, b: Block, touched: Option<Touched>, field: Option<nat>, k: nat)
    requires WasMerged(text, names, group, lines, mode, source, requestedGroup, parse, isUrl, m)
    requires requestedGroup != DIRECT && requestedGroup != CREATE
    ensures IsShape(lines, m.file.sections, m.plan, a, b, touched) && b.owner == "proxy-groups"
    ensures IsFirstSelect(m.file.groups, requestedGroup, k) && group == requestedGroup && names == m.fragment.names
    ensures IsJoinBlock(lines, m.file.groups[k], mode, names, m.placed, m.plan, b, touched, field)
    ensures IsDocument(lines, m.file.sections) && GroupsAre(lines, m.file.sections, m.file.groups)
    ensures forall i :: i in Replaced(m.placed) ==> IsReplacement(lines, m.file.sections, i, Replaced(m.placed)[i], None)
  {
    hide IsDocument, IsTopLevel, KeyLine, FindSection, IsRouteBlock, IsReplacement, Replaced, MatchRuleIs, IsFragmentBlock, IsShape, IsBlock,
         GroupsAre, IsLinkFragment, IsProviderFragment, FragmentBody, IsFragmentPlaced, Edited, AllDeep, ReadsAsMerged, NamesOf,
         IsPlan, IsClean, AreFresh, OnlyReplaceable, ProviderNames, IsJoinBlock, IsJoined, IsSelect;
    var sections := m.file.sections;
    HasSections(lines, mode, m);
    var body := FragmentBody(m.fragment.text);
    BodyIs(mode, source, m.file.existing, parse, isUrl, m.fragment, m.proxies, body);
    a := FragmentBlock(lines, sections, mode, body, m.placed);
    k :| IsFirstSelect(m.file.groups, requestedGroup, k) && IsJoined(lines, m.placed, m.plan, m.file.groups[k], mode, m.fragment.names);
    GroupInSection(lines, sections, m.file.groups, k, SectionOf(sections, "proxy-groups"));
    b, touched, field := JoinRoute(lines, sections, SectionOf(sections, "proxy-groups").value, m.file.groups[k], mode,
                                   m.fragment.names, m.placed, m.plan);
    ShapeIs(lines, sections, mode, body, m.placed, m.plan, a, b, touched);
    RouteOwner(lines, sections, m.placed, m.plan, b, touched);
  }

  lemma HeaderOnly(lines: seq<string>, sections: seq<Section>, k: nat, line: string)
    requires IsDocument(lines, sections) && IsReplacement(lines, sections, k, line, None)
    ensures k < |lines| && IsTopLevel(lines[k])
  {
    hide IsTopLevel, KeyLine, AreConsecutive;
  }

  /** The names of a merge: some, and none that looks commented. */
  lemma NamesUncommented(text: string, names: seq<string>, group: string, lines: seq<string>, mode: SourceMode, source: string,
                         requestedGroup: string, parse: (string, nat) -> Option<Proxy>, isUrl: string -> bool, m: Merge)
    requires WasMerged(text, names, group, lines, mode, source, requestedGroup, parse, isUrl, m)
    requires mode == Subscriptions || AllReadable(names)
    ensures names != [] && forall x :: x in names ==> !LooksCommented(x)
  {
    SomeNames(text, names, group, lines, mode, source, requestedGroup, parse, isUrl, m);
    if mode == Subscriptions {
      ProvidersAre(text, names, group, lines, source, requestedGroup, parse, isUrl, m);
      hide WasMerged, IsKey, LooksCommented;
      forall x | x in names
        ensures !LooksCommented(x)
      {
        var k :| 0 <= k < |names| && names[k] == x;
        KeyUncommented(x);
      }
    }
  }

  lemma SomeNames(text: string, names: seq<string>, group: string, lines: seq<string>, mode: SourceMode, source: string,
                  requestedGroup: string, parse: (string, nat) -> Option<Proxy>, isUrl: string -> bool, m: Merge)
    requires WasMerged(text, names, group, lines, mode, source, requestedGroup, parse, isUrl, m)
    ensures names != []
  {
    hide IsRead, HasPlaced, HasRouted, IsPlan, OnlyReplaceable, Edited, Replaced, IsClean, ReadsAsMerged, FindSection, AreFresh, Entries,
         AreProviderNames, Urls, IsRenaming, AllWellFormed, ListLines, ProviderList;
  }

  lemma KeyUncommented(name: string)
    requires IsKey(name)
    ensures !LooksCommented(name)
  {
    KeyIsWord(name);
    NeverCommented(name);
  }

  lemma {:induction false} NeverCommented(s: string)
    requires forall k :: 0 <= k < |s| ==> !IsSpace(s[k])
    ensures !LooksCommented(s)
  {
    hide IsSpace;
    if |s| >= 2 {
      NeverCommented(s[1..]);
    }
  }

  /** A group among others, and what it has become: all others are the same, and it has its old members and the new ones
      exactly if it had none or they are indented by two more than the field. */
  ghost predicate HasMembers(before: seq<seq<string>>, after: seq<seq<string>>, j: nat, indent: nat, group: string, mode: SourceMode,
                             names: seq<string>) {
    var key := if mode == Subscriptions then "use" else "proxies";
    && |after| == |before| && j < |before| && (forall i :: 0 <= i < |before| && i != j ==> after[i] == before[i])
    && before[j] != [] && ItemIndent(before[j][0]) == Some(indent) && NameOf(before[j][0]) == Some(group)
    && (MembersOf(before[j], indent + 2, key).Some? ==>
         (MembersOf(after[j], indent + 2, key) == Some(MembersOf(before[j], indent + 2, key).value + names)
          <==> MemberIndent(before[j], indent + 2, key) in {None, Some(indent + 4)}))
  }

  /** What becomes of the groups when names join one of them. */
  lemma MembersReread(text: string, names: seq<string>, group: string, lines: seq<string>, mode: SourceMode, source: string,
                      requestedGroup: string, parse: (string, nat) -> Option<Proxy>, isUrl: string -> bool, m: Merge)
    returns (j: nat, indent: nat)
    requires WasMerged(text, names, group, lines, mode, source, requestedGroup, parse, isUrl, m)
    requires mode == Subscriptions || AllReadable(names)
    requires requestedGroup != DIRECT && requestedGroup != CREATE
    ensures GroupParts(lines).Some? && GroupParts(Lines(text)).Some?
    ensures HasMembers(GroupParts(lines).value, GroupParts(Lines(text)).value, j, indent, group, mode, names)
  {
    hide *;
    TextIsEdited(text, names, group, lines, mode, source, requestedGroup, parse, isUrl, m, "proxy-groups");
    NamesUncommented(text, names, group, lines, mode, source, requestedGroup, parse, isUrl, m);
    var a, b, touched, field, k := JoinShape(text, names, group, lines, mode, source, requestedGroup, parse, isUrl, m);
    FirstSelectNamed(m.file.groups, requestedGroup, k);
    j, indent := JoinRead(lines, m, mode, names, a, b, touched, field, k);
    SameGroups(Edited(lines, m.plan.insertions, Replaced(m.plan)), Lines(text));
    JoinedMembers(GroupParts(lines).value, GroupParts(Lines(text)).value, j, indent, group, mode, names);
  }

  lemma FirstSelectNamed(groups: seq<Group>, name: string, k: nat)
    requires IsFirstSelect(groups, name, k)
    ensures k < |groups| && groups[k].name == name
  {
  }

  lemma JoinedMembers(before: seq<seq<string>>, after: seq<seq<string>>, j: nat, indent: nat, group: string, mode: SourceMode,
                      names: seq<string>)
    requires exists first ::
      && ItemIndent(first) == Some(indent) && NameOf(first) == Some(group)
      && IsJoinRead(before, after, j, first, indent, FieldName(mode), names)
    requires forall x :: x in names ==> !LooksCommented(x)
    ensures HasMembers(before, after, j, indent, group, mode, names)
  {
    hide ItemIndent, NameOf, MembersOf, MemberIndent, LooksCommented;
  }

  lemma SameGroups(a: seq<string>, b: seq<string>)
    requires ReadSection("proxy-groups", a) == ReadSection("proxy-groups", b)
    ensures GroupParts(a) == GroupParts(b)
  {
    hide ReadSection, Parts, ItemIndent;
  }

  lemma JoinRead(lines: seq<string>, m: Merge, mode: SourceMode, names: seq<string>, a: Block, b: Block, touched: Option<Touched>,
                 field: Option<nat>, k: nat) returns (j: nat, indent: nat)
    requires IsDocument(lines, m.file.sections) && GroupsAre(lines, m.file.sections, m.file.groups) && k < |m.file.groups| && names != []
    requires IsShape(lines, m.file.sections, m.plan, a, b, touched) && b.owner == "proxy-groups"
    requires IsJoinBlock(lines, m.file.groups[k], mode, names, m.placed, m.plan, b, touched, field)
    requires forall i :: i in Replaced(m.placed) ==> IsReplacement(lines, m.file.sections, i, Replaced(m.placed)[i], None)
    requires AllHeaders(Edited(lines, m.plan.insertions, Replaced(m.plan)))
    ensures GroupParts(lines).Some? && GroupParts(Edited(lines, m.plan.insertions, Replaced(m.plan))).Some?
    ensures exists first ::
      && ItemIndent(first) == Some(indent) && NameOf(first) == Some(m.file.groups[k].name)
      && IsJoinRead(GroupParts(lines).value, GroupParts(Edited(lines, m.plan.insertions, Replaced(m.plan))).value, j, first, indent,
                    FieldName(mode), names)
  {
    hide IsShape, IsDocument, IsReplacement, Replaced, Edited, AllHeaders, ReadSection, Parts, NameOf, ItemIndent, FieldValue, FieldName,
         IsLastField, IsFieldEnd, IsContentEnd, EntryLines, Spaces, IsItemList, NoBody, IsBody, KindOf, AllInner, IsJoinRead, FindSection,
         Bodies, IsBlockValue, IsTopLevel;
    var sections, groups := m.file.sections, m.file.groups;
    var s := SectionOf(sections, "proxy-groups").value;
    var list :| IsBlockList(lines, s, Some(list)) && AreGroups(lines, s, list, groups);
    var g := groups[k];
    assert IsGroup(lines, s, g) && IsGroupOf(g, list, k);
    ListContent(lines, s, list);
    WithinGroup(lines, s, list, groups, k);
    indent := list.indent;
    var p;
    if field.Some? {
      FieldLine(lines[field.value], indent + 2, mode);
      if field.value in Replaced(m.placed) {
        HeaderOnly(lines, sections, field.value, Replaced(m.placed)[field.value]);
      }
      p := JoinedField(lines, sections, m.plan, a, b, s, list, groups, k, mode, names, field.value);
    } else {
      p := JoinedNew(lines, sections, m.plan, a, b, s, list, groups, k, mode, names);
    }
    FrontIndent(lines, sections, s, list, p, Edited(lines, m.plan.insertions, Replaced(m.plan)), lines[g.start], FieldName(mode), names);
    j := SplitRead(p, lines, Edited(lines, m.plan.insertions, Replaced(m.plan)), lines[g.start], indent, FieldName(mode), names);
  }

  lemma FrontIndent(lines: seq<string>, sections: seq<Section>, s: Section, list: BlockList, p: Split, edited: seq<string>, first: string,
                    key: string, names: seq<string>)
    requires IsDocument(lines, sections) && FindSection(sections, "proxy-groups") == Some(Some(s)) && s.start < s.end <= |lines|
    requires IsBlockList(lines, s, Some(list)) && IsSplit(p, lines, edited, first, list.indent, key, names)
    ensures p.front != [] ==> ItemIndent(p.front[0]) == Some(list.indent)
  {
    hide IsDocument, FindSection, IsBlockList, ReadSection, IsGrown, NoItems, ItemIndent, Bodies, IsBlockValue;
    OneRead(lines, sections, "proxy-groups", s);
    ListContent(lines, s, list);
    assert p.front != [] ==> (p.front + (p.was + p.behind))[0] == p.front[0];
  }
}
