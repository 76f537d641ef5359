/** The names of the proxies of a configuration, read line by line; and the proof that the section and
    list functions of the merger find exactly these names. */
module ProxyNames {
  import opened Wrappers
  import opened Text
  import opened YamlText
  import opened YamlDocument

  /** Outside the section of the proxies, or in it, with the indentation of its items once known. */
  datatype Inside = Outside | InProxies(indent: Option<nat>)

  datatype Reading = Unreadable | Reading(inside: Inside, seen: bool, names: seq<string>)

  const START := Reading(Outside, false, [])

  function Named(r: Reading, line: string, indent: nat): Reading
    requires r.Reading?
  {
    var name := NameOf(line);
    if name == None then Unreadable
    else Reading(InProxies(Some(indent)), r.seen, r.names + [name.value])
  }

  function Step(r: Reading, line: string): Reading {
    if r.Unreadable? then r
    else if IsTopLevel(line) then
      var header := KeyLine(line);
      if header == None then Unreadable
      else if header.value.0 != "proxies" then r.(inside := Outside)
      else if r.seen || !IsBlockValue(header.value.1) then Unreadable
      else Reading(InProxies(None), true, r.names)
    else if r.inside == Outside || !IsBody(line) then r
    else
      var i := ItemIndent(line);
      if r.inside.indent == None then if i == None then Unreadable else Named(r, line, i.value)
      else if i == r.inside.indent then Named(r, line, i.value)
      else r
  }

  function Run(r: Reading, lines: seq<string>): Reading {
    if lines == [] then r else Step(Run(r, lines[..|lines| - 1]), lines[|lines| - 1])
  }

  /** The names in a file; None where the merger reports an error about its sections or proxies. */
  function NamesOf(lines: seq<string>): Option<seq<string>> {
    var r := Run(START, lines);
    if r.Unreadable? then None else Some(r.names)
  }

  // ---------- runs ----------

  lemma {:induction false} RunAppend(r: Reading, a: seq<string>, b: seq<string>)
    ensures Run(r, a + b) == Run(Run(r, a), b)
  {
    if b == [] {
      assert a + b == a;
    } else {
      var n := |b| - 1;
      assert (a + b)[..|a + b| - 1] == a + b[..n];
      RunAppend(r, a, b[..n]);
    }
  }

  lemma RunOne(r: Reading, line: string)
    ensures Run(r, [line]) == Step(r, line)
  {
    assert [line][..0] == [];
  }

  lemma RunNext(lines: seq<string>, i: nat)
    requires i < |lines|
    ensures Run(START, lines[..i + 1]) == Step(Run(START, lines[..i]), lines[i])
  {
    assert lines[..i + 1][..i] == lines[..i];
  }

  lemma {:induction false} StaysUnreadable(lines: seq<string>, i: nat, j: nat)
    requires i <= j <= |lines| && Run(START, lines[..i]) == Unreadable
    ensures Run(START, lines[..j]) == Unreadable
  {
    if i < j {
      StaysUnreadable(lines, i, j - 1);
      RunNext(lines, j - 1);
    }
  }

  predicate IsOther(line: string) {
    IsTopLevel(line) ==> KeyLine(line).Some? && KeyLine(line).value.0 != "proxies"
  }

  ghost predicate OtherLines(lines: seq<string>, i: nat, j: nat)
    requires i <= j <= |lines|
  {
    forall k :: i <= k < j ==> IsOther(lines[k])
  }

  /** Outside the section, other lines leave everything as it is. */
  lemma {:induction false} RunOutside(lines: seq<string>, i: nat, j: nat)
    requires i <= j <= |lines| && OtherLines(lines, i, j)
    requires Run(START, lines[..i]).Reading? && Run(START, lines[..i]).inside == Outside
    ensures Run(START, lines[..j]) == Run(START, lines[..i])
  {
    if i < j {
      RunOutside(lines, i, j - 1);
      RunNext(lines, j - 1);
    }
  }

  // ---------- one section ----------

  /** The names of the items that start in a range of lines. */
  function ItemNames(lines: seq<string>, indent: nat, from: nat, i: nat): Option<seq<string>>
    requires from <= i <= |lines|
    decreases i
  {
    if i == from then Some([])
    else
      var names := ItemNames(lines, indent, from, i - 1);
      if names == None || !ItemAt(lines, i - 1, indent) then names
      else
        var name := NameOf(lines[i - 1]);
        if name == None then None else Some(names.value + [name.value])
  }

  lemma {:induction false} NoItemNames(lines: seq<string>, indent: nat, from: nat, i: nat, j: nat)
    requires from <= i <= j <= |lines| && forall k :: i <= k < j ==> !ItemAt(lines, k, indent)
    ensures ItemNames(lines, indent, from, j) == ItemNames(lines, indent, from, i)
  {
    hide IsBody, ItemIndent, NameOf;
    if i < j {
      NoItemNames(lines, indent, from, i, j - 1);
    }
  }

  ghost predicate Inner(lines: seq<string>, from: nat, to: nat)
    requires from <= to <= |lines|
  {
    forall k :: from <= k < to ==> !IsTopLevel(lines[k])
  }

  ghost predicate FirstIndent(lines: seq<string>, from: nat, to: nat, indent: nat)
    requires from <= to <= |lines|
  {
    forall k :: from <= k < to && NoBody(lines, from, k) && IsBody(lines[k]) ==> ItemIndent(lines[k]) == Some(indent)
  }

  lemma StepInside(r: Reading, lines: seq<string>, i: nat, indent: nat)
    requires i < |lines| && !IsTopLevel(lines[i])
    requires r.Reading?
    requires r == Reading(InProxies(None), true, r.names) || r == Reading(InProxies(Some(indent)), true, r.names)
    requires r.inside.indent == None && IsBody(lines[i]) ==> ItemIndent(lines[i]) == Some(indent)
    ensures Step(r, lines[i]) ==
      if !ItemAt(lines, i, indent) then r
      else if NameOf(lines[i]) == None then Unreadable
      else Reading(InProxies(Some(indent)), true, r.names + [NameOf(lines[i]).value])
    ensures !ItemAt(lines, i, indent) && IsBody(lines[i]) ==> r.inside == InProxies(Some(indent))
  {
    hide IsTopLevel, IsBody, ItemIndent, NameOf;
  }

  /** In the section of the proxies the line by line reading collects the names of its items. */
  lemma {:induction false} RunInside(lines: seq<string>, from: nat, i: nat, to: nat, indent: nat)
    requires from <= i <= to <= |lines| && Inner(lines, from, to) && FirstIndent(lines, from, to, indent)
    requires Run(START, lines[..from]) == Reading(InProxies(None), true, [])
    ensures var names := ItemNames(lines, indent, from, i);
      Run(START, lines[..i]) ==
        if names == None then Unreadable
        else Reading(InProxies(if NoBody(lines, from, i) then None else Some(indent)), true, names.value)
    decreases i
  {
    hide IsTopLevel, IsBody, ItemIndent, NameOf, Step;
    if from < i {
      RunInside(lines, from, i - 1, to, indent);
      RunNext(lines, i - 1);
      assert NoBody(lines, from, i) <==> NoBody(lines, from, i - 1) && !IsBody(lines[i - 1]);
      var r := Run(START, lines[..i - 1]);
      if r.Reading? {
        StepInside(r, lines, i - 1, indent);
      } else {
        StaysUnreadable(lines, i - 1, i);
      }
    }
  }

  lemma NoFirstItem(lines: seq<string>, from: nat, i: nat, to: nat)
    requires from <= i < to <= |lines| && Inner(lines, from, to) && NoBody(lines, from, i)
    requires IsBody(lines[i]) && ItemIndent(lines[i]) == None
    requires Run(START, lines[..from]) == Reading(InProxies(None), true, [])
    ensures Run(START, lines[..to]) == Unreadable
  {
    RunBlank(lines, from, i, to);
    RunNext(lines, i);
    StaysUnreadable(lines, i + 1, to);
  }

  lemma {:induction false} RunBlank(lines: seq<string>, from: nat, i: nat, to: nat)
    requires from <= i <= to <= |lines| && Inner(lines, from, to) && NoBody(lines, from, i)
    ensures Run(START, lines[..i]) == Run(START, lines[..from])
    decreases i
  {
    if from < i {
      RunBlank(lines, from, i - 1, to);
      RunNext(lines, i - 1);
    }
  }

  // ---------- yamlProxyNames ----------

  /** Walking the items is collecting by lines. */
  method NamesOfItems(lines: seq<string>, ghost from: nat, ghost to: nat, ghost indent: nat, items: seq<Item>)
    returns (names: Option<seq<string>>)
    requires from <= to <= |lines| && IsItemList(lines, from, to, indent, items)
    ensures names == ItemNames(lines, indent, from, to)
  {
    hide IsBody, ItemIndent, NameOf;
    var found: seq<string> := [];
    ghost var at := if items == [] then to else items[0].start;
    NoItemBefore(lines, from, to, indent, items);
    for k := 0 to |items|
      invariant from <= at <= to && at == if k < |items| then items[k].start else to
      invariant ItemNames(lines, indent, from, at) == Some(found)
    {
      var name := NameOf(lines[items[k].start]);
      NoItemBetween(lines, from, to, indent, items, k);
      NoItemNames(lines, indent, from, at + 1, items[k].end);
      if name == None {
        NoneStays(lines, indent, from, at + 1, to);
        return None;
      }
      found := found + [name.value];
      at := items[k].end;
    }
    names := Some(found);
  }

  lemma {:induction false} NoneStays(lines: seq<string>, indent: nat, from: nat, i: nat, j: nat)
    requires from <= i <= j <= |lines| && ItemNames(lines, indent, from, i) == None
    ensures ItemNames(lines, indent, from, j) == None
  {
    hide IsBody, ItemIndent, NameOf;
    if i < j {
      NoneStays(lines, indent, from, i, j - 1);
    }
  }

  lemma {:induction false} ItemsAscend(lines: seq<string>, from: nat, to: nat, indent: nat, items: seq<Item>, j: nat, k: nat)
    requires from <= to <= |lines| && IsItemList(lines, from, to, indent, items) && j < k < |items|
    ensures items[j].end <= items[k].start
    decreases k
  {
    if j + 1 < k {
      ItemsAscend(lines, from, to, indent, items, j, k - 1);
    }
  }

  lemma NoItemBefore(lines: seq<string>, from: nat, to: nat, indent: nat, items: seq<Item>)
    requires from <= to <= |lines| && IsItemList(lines, from, to, indent, items)
    ensures var at := if items == [] then to else items[0].start;
      from <= at <= to && ItemNames(lines, indent, from, at) == Some([])
  {
    var at := if items == [] then to else items[0].start;
    forall i | from <= i < at
      ensures !ItemAt(lines, i, indent)
    {
      if ItemAt(lines, i, indent) {
        var k :| 0 <= k < |items| && items[k].start == i;
        if k > 0 {
          ItemsAscend(lines, from, to, indent, items, 0, k);
        }
      }
    }
    NoItemNames(lines, indent, from, from, at);
  }

  lemma NoItemBetween(lines: seq<string>, from: nat, to: nat, indent: nat, items: seq<Item>, k: nat)
    requires from <= to <= |lines| && IsItemList(lines, from, to, indent, items) && k < |items|
    ensures forall i :: items[k].start < i < items[k].end ==> !ItemAt(lines, i, indent)
  {
    forall i | items[k].start < i < items[k].end
      ensures !ItemAt(lines, i, indent)
    {
      if ItemAt(lines, i, indent) {
        var j :| 0 <= j < |items| && items[j].start == i;
        if j < k {
          ItemsAscend(lines, from, to, indent, items, j, k);
        } else if k < j {
          ItemsAscend(lines, from, to, indent, items, k, j);
        }
      }
    }
  }

  // ---------- the sections ----------

  /** All section headers but the ones of the proxies are other lines. */
  lemma OtherSections(lines: seq<string>, sections: seq<Section>, i: nat, j: nat)
    requires IsDocument(lines, sections) && i <= j <= |lines|
    requires forall s :: s in sections && s.key == "proxies" ==> !(i <= s.start < j)
    ensures OtherLines(lines, i, j)
  {
    hide IsTopLevel, KeyLine;
    forall k | i <= k < j && IsTopLevel(lines[k])
      ensures IsOther(lines[k])
    {
      var m :| 0 <= m < |sections| && sections[m].start == k;
      assert sections[m] in sections;
    }
  }

  lemma {:induction false} MatchingOrder(lines: seq<string>, sections: seq<Section>, key: string)
    requires forall j, k :: 0 <= j < k < |sections| ==> sections[j].start < sections[k].start
    ensures forall j, k :: 0 <= j < k < |Matching(sections, key)| ==>
              Matching(sections, key)[j].start < Matching(sections, key)[k].start
  {
    if sections != [] {
      MatchingOrder(lines, sections[1..], key);
      MatchingMembers(sections[1..], key);
      assert forall s :: s in sections[1..] ==> sections[0].start < s.start;
      var rest := Matching(sections[1..], key);
      assert forall k :: 0 <= k < |rest| ==> rest[k] in rest;
    }
  }

  lemma {:induction false} SectionsAscend(lines: seq<string>, sections: seq<Section>, j: nat, k: nat)
    requires IsDocument(lines, sections) && j < k < |sections|
    ensures sections[j].end <= sections[k].start
    decreases k
  {
    hide IsTopLevel, KeyLine;
    if j + 1 < k {
      SectionsAscend(lines, sections, j, k - 1);
    }
  }

  /** Two sections of proxies are an error. */
  lemma TwoSections(lines: seq<string>, sections: seq<Section>)
    requires IsDocument(lines, sections) && FindSection(sections, "proxies") == None
    ensures NamesOf(lines) == None
  {
    hide IsTopLevel, KeyLine;
    forall j, k | 0 <= j < k < |sections|
      ensures sections[j].start < sections[k].start
    {
      SectionsAscend(lines, sections, j, k);
    }
    MatchingOrder(lines, sections, "proxies");
    MatchingMembers(sections, "proxies");
    var m := Matching(sections, "proxies");
    var a, b := m[0], m[1];
    assert a in m && b in m;
    SeenStays(lines, a.start, b.start);
    StaysUnreadable(lines, b.start + 1, |lines|);
    assert lines[..|lines|] == lines;
  }

  lemma SeenStays(lines: seq<string>, i: nat, j: nat)
    requires i < j < |lines|
    requires IsTopLevel(lines[i]) && KeyLine(lines[i]).Some? && KeyLine(lines[i]).value.0 == "proxies"
    requires IsTopLevel(lines[j]) && KeyLine(lines[j]).Some? && KeyLine(lines[j]).value.0 == "proxies"
    ensures Run(START, lines[..j + 1]) == Unreadable
  {
    hide IsTopLevel, KeyLine, Run;
    RunNext(lines, i);
    SeenUntil(lines, i + 1, j);
    RunNext(lines, j);
  }

  lemma {:induction false} SeenUntil(lines: seq<string>, i: nat, j: nat)
    requires i <= j <= |lines|
    requires var r := Run(START, lines[..i]); r.Unreadable? || r.seen
    ensures var r := Run(START, lines[..j]); r.Unreadable? || r.seen
  {
    hide IsTopLevel, KeyLine, IsBody, ItemIndent, NameOf;
    if i < j {
      SeenUntil(lines, i, j - 1);
      RunNext(lines, j - 1);
    }
  }

  /** Without a section of proxies there are no names. */
  lemma NoSection(lines: seq<string>, sections: seq<Section>)
    requires IsDocument(lines, sections) && FindSection(sections, "proxies") == Some(None)
    ensures forall i :: 0 <= i <= |lines| ==> Run(START, lines[..i]) == START
    ensures NamesOf(lines) == Some([])
  {
    MatchingMembers(sections, "proxies");
    assert lines[..|lines|] == lines;
    forall i | 0 <= i <= |lines|
      ensures Run(START, lines[..i]) == START
    {
      OtherSections(lines, sections, 0, i);
      RunOutside(lines, 0, i);
    }
  }

  /** The single section of proxies, its lines, and the other sections around it. */
  lemma OneSection(lines: seq<string>, sections: seq<Section>, s: Section)
    requires IsDocument(lines, sections) && FindSection(sections, "proxies") == Some(Some(s))
    ensures s.start < s.end <= |lines|
    ensures IsTopLevel(lines[s.start]) && KeyLine(lines[s.start]) == Some(("proxies", s.value))
    ensures s.end < |lines| ==> IsTopLevel(lines[s.end])
    ensures Inner(lines, s.start + 1, s.end)
    ensures OtherLines(lines, 0, s.start) && OtherLines(lines, s.end, |lines|)
    ensures forall i :: 0 <= i <= s.start ==> Run(START, lines[..i]) == START
  {
    hide IsTopLevel, KeyLine, IsDocument, OtherLines, Inner, Run;
    MatchingMembers(sections, "proxies");
    assert s in Matching(sections, "proxies");
    hide Matching;
    var k :| 0 <= k < |sections| && sections[k] == s;
    SectionLines(lines, sections, k);
    forall t | t in sections && t.key == "proxies"
      ensures t == s
    {
      assert t in Matching(sections, "proxies");
    }
    OtherSections(lines, sections, 0, s.start);
    OtherSections(lines, sections, s.end, |lines|);
    UntilFirst(lines, s.start);
  }

  lemma UntilFirst(lines: seq<string>, n: nat)
    requires n <= |lines| && OtherLines(lines, 0, n)
    ensures forall i :: 0 <= i <= n ==> Run(START, lines[..i]) == START
  {
    forall i | 0 <= i <= n
      ensures Run(START, lines[..i]) == START
    {
      RunOutside(lines, 0, i);
    }
  }

  lemma SectionLines(lines: seq<string>, sections: seq<Section>, k: nat)
    requires IsDocument(lines, sections) && k < |sections|
    ensures var s := sections[k];
      && s.start < s.end <= |lines| && Inner(lines, s.start + 1, s.end)
      && IsTopLevel(lines[s.start]) && KeyLine(lines[s.start]) == Some((s.key, s.value))
      && (s.end < |lines| ==> IsTopLevel(lines[s.end]))
  {
    hide IsTopLevel, KeyLine;
    var s := sections[k];
    if s.end < |lines| {
      assert sections[k].end == if k + 1 < |sections| then sections[k + 1].start else |lines|;
      var next := sections[k + 1];
      assert next.start < |lines| && IsTopLevel(lines[next.start]);
    }
    forall i | s.start < i < s.end
      ensures !IsTopLevel(lines[i])
    {
      if IsTopLevel(lines[i]) {
        var m :| 0 <= m < |sections| && sections[m].start == i;
        if m < k {
          SectionsAscend(lines, sections, m, k);
        } else if k < m {
          SectionsAscend(lines, sections, k, m);
        }
      }
    }
  }

  /** yamlProxyNames finds what the line by line reading finds. */
  method YamlProxyNames(lines: seq<string>, sections: seq<Section>) returns (names: Option<seq<string>>)
    requires IsDocument(lines, sections)
    ensures names == NamesOf(lines)
  {
    hide IsTopLevel, KeyLine, IsBody, ItemIndent, NameOf, Run, IsDocument, Matching, NamesOf;
    var found := FindSection(sections, "proxies");
    if found == None {
      TwoSections(lines, sections);
      return None;
    }
    if found.value == None {
      NoSection(lines, sections);
      return Some([]);
    }
    var s := found.value.value;
    OneSection(lines, sections, s);
    var list := YamlList(lines, s);
    if list == None {
      NoList(lines, s);
      return None;
    }
    names := NamesOfItems(lines, s.start + 1, s.end, list.value.indent, list.value.items);
    SectionNames(lines, s, list.value);
  }

  lemma Entered(lines: seq<string>, s: Section)
    requires s.start < s.end <= |lines| && Run(START, lines[..s.start]) == START
    requires IsTopLevel(lines[s.start]) && KeyLine(lines[s.start]) == Some(("proxies", s.value))
    ensures Run(START, lines[..s.start + 1]) ==
      if IsBlockValue(s.value) then Reading(InProxies(None), true, []) else Unreadable
  {
    hide Run, IsTopLevel, KeyLine;
    RunNext(lines, s.start);
  }

  lemma NoList(lines: seq<string>, s: Section)
    requires s.start < s.end <= |lines| && Run(START, lines[..s.start]) == START
    requires IsTopLevel(lines[s.start]) && KeyLine(lines[s.start]) == Some(("proxies", s.value))
    requires Inner(lines, s.start + 1, s.end) && IsBlockList(lines, s, None)
    ensures NamesOf(lines) == None
  {
    hide Run, IsTopLevel, KeyLine, IsBody, ItemIndent;
    Entered(lines, s);
    if IsBlockValue(s.value) {
      var i :| s.start + 1 <= i < s.end && NoBody(lines, s.start + 1, i) && IsBody(lines[i]) && ItemIndent(lines[i]) == None;
      NoFirstItem(lines, s.start + 1, i, s.end);
      StaysUnreadable(lines, s.end, |lines|);
    } else {
      StaysUnreadable(lines, s.start + 1, |lines|);
    }
    assert lines[..|lines|] == lines;
  }

  /** From the end of the section on nothing is added. */
  lemma AfterSection(lines: seq<string>, i: nat, j: nat)
    requires i < j <= |lines| && IsTopLevel(lines[i]) && OtherLines(lines, i, |lines|)
    requires Run(START, lines[..i]).Reading?
    ensures Run(START, lines[..j]) == Run(START, lines[..i]).(inside := Outside)
  {
    hide Run;
    RunNext(lines, i);
    RunOutside(lines, i + 1, j);
  }

  lemma SectionNames(lines: seq<string>, s: Section, list: BlockList)
    requires s.start < s.end <= |lines| && Run(START, lines[..s.start]) == START
    requires IsTopLevel(lines[s.start]) && KeyLine(lines[s.start]) == Some(("proxies", s.value))
    requires Inner(lines, s.start + 1, s.end) && OtherLines(lines, s.end, |lines|)
    requires s.end < |lines| ==> IsTopLevel(lines[s.end])
    requires IsBlockList(lines, s, Some(list))
    ensures NamesOf(lines) == ItemNames(lines, list.indent, s.start + 1, s.end)
  {
    hide Run, IsTopLevel, KeyLine, IsBody, ItemIndent, NameOf, OtherLines, Inner;
    Entered(lines, s);
    RunInside(lines, s.start + 1, s.end, s.end, list.indent);
    assert lines[..|lines|] == lines;
    if ItemNames(lines, list.indent, s.start + 1, s.end) == None {
      StaysUnreadable(lines, s.end, |lines|);
    } else if s.end < |lines| {
      AfterSection(lines, s.end, |lines|);
    }
  }
}
