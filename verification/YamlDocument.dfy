/** The block-style YAML the merger understands: top-level sections, block lists, proxy names; and a
    line by line reading of the proxy names that says what all of it means. */
module YamlDocument {
  import opened Wrappers
  import opened Text
  import opened YamlText

  // ---------- line shapes ----------

  predicate IsComment(line: string) {
    Indent(line) < |line| && line[Indent(line)] == '#'
  }

  predicate IsMarker(line: string) {
    |line| >= 3 && (line[..3] == "---" || line[..3] == "...") && IsBlank(line[3..])
  }

  /** Lines that do not start a section: empty, comments, document markers, indented. */
  predicate IsTopLevel(line: string) {
    line != "" && !IsSpace(line[0]) && !IsComment(line) && !IsMarker(line)
  }

  predicate KeyChar(c: char) {
    IsLetter(c) || IsDigit(c) || c == '_' || c == '-'
  }

  predicate IsKey(key: string) {
    key != "" && forall k :: 0 <= k < |key| ==> KeyChar(key[k])
  }

  function KeyLength(s: string): (n: nat)
    ensures n <= |s|
  {
    if s == [] || !KeyChar(s[0]) then 0 else 1 + KeyLength(s[1..])
  }

  /** A section header, as its key and trimmed value. */
  function KeyLine(line: string): Option<(string, string)> {
    var n := KeyLength(line);
    if n == 0 || !IsLetter(line[0]) || n == |line| || line[n] != ':' || !NoBreak(line[n + 1..]) then None
    else Some((line[..n], Trim(line[n + 1..])))
  }

  /** Values that leave a section to be written as a block. */
  predicate IsBlockValue(value: string) {
    value == "" || value == "[]" || value == "{}" || value == "null"
  }

  /** Lines that count as the content of a section. */
  predicate IsBody(line: string) {
    !IsBlank(line) && !IsComment(line)
  }

  /** The indentation of a list item. */
  function ItemIndent(line: string): Option<nat> {
    var n := Indent(line);
    if n + 1 < |line| && line[n] == '-' && IsSpace(line[n + 1]) then Some(n) else None
  }

  /** What follows the dash of a list item. */
  function ItemText(line: string): string
    requires ItemIndent(line).Some?
  {
    TrimStart(line[Indent(line) + 1..])
  }

  /** Whether white space and then at least one character of a single line make up a text. */
  predicate IsCaptured(t: string) {
    var n := Indent(t);
    if n < |t| then NoBreak(t[n..]) else n > 0 && !IsBreak(t[n - 1])
  }

  /** The text after "name:" on the first line of an item. */
  function NameText(line: string): Option<string> {
    if ItemIndent(line) == None then None
    else
      var t := ItemText(line);
      if StartsWith(t, "name:") && IsCaptured(t[5..]) then Some(t[5..]) else None
  }

  function NameOf(line: string): Option<string> {
    var t := NameText(line);
    if t == None then None else YamlValue(t.value)
  }

  // ---------- sections ----------

  datatype Section = Section(key: string, start: nat, value: string, end: nat)

  /** The sections cut the file at exactly its top-level lines. */
  ghost predicate IsDocument(lines: seq<string>, sections: seq<Section>) {
    && (forall k :: 0 <= k < |sections| ==>
         && sections[k].start < sections[k].end <= |lines|
         && IsTopLevel(lines[sections[k].start])
         && KeyLine(lines[sections[k].start]) == Some((sections[k].key, sections[k].value)))
    && AreConsecutive(|lines|, sections)
    && (forall i :: 0 <= i < |lines| && IsTopLevel(lines[i]) ==>
         exists k :: 0 <= k < |sections| && sections[k].start == i)
  }

  /** Each section ends where the next one starts, and the last one at the end. */
  ghost predicate AreConsecutive(end: nat, sections: seq<Section>) {
    forall k :: 0 <= k < |sections| ==> sections[k].end == (if k + 1 < |sections| then sections[k + 1].start else end)
  }

  /** Another line within a section leaves the sections as they are. */
  lemma DocumentAnew(lines: seq<string>, sections: seq<Section>, f: nat, line: string)
    requires IsDocument(lines, sections) && f < |lines| && !IsTopLevel(lines[f]) && !IsTopLevel(line)
    ensures IsDocument(lines[f := line], sections)
  {
    hide IsTopLevel, KeyLine, AreConsecutive;
    var anew := lines[f := line];
    assert forall k :: 0 <= k < |sections| ==> sections[k].start != f;
    assert forall i :: 0 <= i < |anew| && IsTopLevel(anew[i]) ==> anew[i] == lines[i];
  }

  /** The headers in front of a line, as sections whose end is still open. */
  ghost predicate AreHeaders(lines: seq<string>, found: seq<Section>, index: nat)
    requires index <= |lines|
  {
    && (forall k :: 0 <= k < |found| ==> found[k].start < index && IsTopLevel(lines[found[k].start]))
    && (forall k :: 0 <= k < |found| ==> KeyLine(lines[found[k].start]) == Some((found[k].key, found[k].value)))
    && (forall j, k :: 0 <= j < k < |found| ==> found[j].start < found[k].start)
    && (forall i :: 0 <= i < index && IsTopLevel(lines[i]) ==> exists k :: 0 <= k < |found| && found[k].start == i)
  }

  lemma HeaderSkipped(lines: seq<string>, found: seq<Section>, index: nat)
    requires index < |lines| && AreHeaders(lines, found, index) && !IsTopLevel(lines[index])
    ensures AreHeaders(lines, found, index + 1)
  {
    hide IsTopLevel, KeyLine;
  }

  lemma HeaderAdded(lines: seq<string>, found: seq<Section>, index: nat, section: Section)
    requires index < |lines| && AreHeaders(lines, found, index) && IsTopLevel(lines[index])
    requires section.start == index && KeyLine(lines[index]) == Some((section.key, section.value))
    ensures AreHeaders(lines, found + [section], index + 1)
  {
    hide IsTopLevel, KeyLine;
    var all := found + [section];
    assert all[|found|].start == index;
    forall i | 0 <= i < index && IsTopLevel(lines[i])
      ensures exists k :: 0 <= k < |all| && all[k].start == i
    {
      var k :| 0 <= k < |found| && found[k].start == i;
      assert all[k].start == i;
    }
  }

  method YamlSections(lines: seq<string>) returns (sections: Option<seq<Section>>)
    ensures sections.Some? ==> IsDocument(lines, sections.value)
    ensures sections == None <==> exists i :: 0 <= i < |lines| && IsTopLevel(lines[i]) && KeyLine(lines[i]) == None
  {
    hide IsTopLevel, KeyLine, AreHeaders, IsDocument;
    var found: seq<Section> := [];
    NoHeaders(lines);
    for index := 0 to |lines|
      invariant forall i :: 0 <= i < index && IsTopLevel(lines[i]) ==> KeyLine(lines[i]).Some?
      invariant AreHeaders(lines, found, index)
    {
      var line := lines[index];
      if IsTopLevel(line) {
        var header := KeyLine(line);
        if header == None {
          return None;
        }
        var section := Section(header.value.0, index, header.value.1, |lines|);
        HeaderAdded(lines, found, index, section);
        found := found + [section];
      } else {
        HeaderSkipped(lines, found, index);
      }
    }
    var ended := WithEnds(lines, found);
    EndsMakeDocument(lines, found, ended);
    sections := Some(ended);
  }

  lemma NoHeaders(lines: seq<string>)
    ensures AreHeaders(lines, [], 0)
  {
  }

  /** Each section ends where the next one starts. */
  ghost predicate AreEnded(lines: seq<string>, found: seq<Section>, sections: seq<Section>) {
    && |sections| == |found|
    && (forall k :: 0 <= k < |found| ==>
         sections[k].start == found[k].start && sections[k].key == found[k].key && sections[k].value == found[k].value)
    && (forall k :: 0 <= k < |found| ==> sections[k].end == (if k + 1 < |found| then found[k + 1].start else |lines|))
  }

  method WithEnds(lines: seq<string>, found: seq<Section>) returns (sections: seq<Section>)
    ensures AreEnded(lines, found, sections)
  {
    sections := [];
    for index := 0 to |found|
      invariant |sections| == index
      invariant forall k :: 0 <= k < index ==>
        sections[k].start == found[k].start && sections[k].key == found[k].key && sections[k].value == found[k].value
      invariant forall k :: 0 <= k < index ==> sections[k].end == (if k + 1 < |found| then found[k + 1].start else |lines|)
    {
      sections := sections + [found[index].(end := if index + 1 < |found| then found[index + 1].start else |lines|)];
    }
  }

  lemma EndsMakeDocument(lines: seq<string>, found: seq<Section>, sections: seq<Section>)
    requires AreHeaders(lines, found, |lines|) && AreEnded(lines, found, sections)
    ensures IsDocument(lines, sections)
  {
    hide IsTopLevel, KeyLine;
    forall k | 0 <= k < |sections|
      ensures sections[k].start < sections[k].end <= |lines|
      ensures IsTopLevel(lines[sections[k].start])
      ensures KeyLine(lines[sections[k].start]) == Some((sections[k].key, sections[k].value))
      ensures sections[k].end == (if k + 1 < |sections| then sections[k + 1].start else |lines|)
    {
      assert sections[k].start == found[k].start;
      if k + 1 < |found| {
        assert found[k].start < found[k + 1].start && sections[k + 1].start == found[k + 1].start;
      }
    }
    forall i | 0 <= i < |lines| && IsTopLevel(lines[i])
      ensures exists k :: 0 <= k < |sections| && sections[k].start == i
    {
      var k :| 0 <= k < |found| && found[k].start == i;
      assert sections[k].start == i;
    }
  }

  function Matching(sections: seq<Section>, key: string): seq<Section> {
    if sections == [] then []
    else (if sections[0].key == key then [sections[0]] else []) + Matching(sections[1..], key)
  }

  /** The section with a key, if there is one; more than one is an error. */
  function FindSection(sections: seq<Section>, key: string): Option<Option<Section>> {
    var m := Matching(sections, key);
    if |m| > 1 then None else Some(if m == [] then None else Some(m[0]))
  }

  lemma {:induction false} MatchingMembers(sections: seq<Section>, key: string)
    ensures forall s :: s in Matching(sections, key) <==> s in sections && s.key == key
  {
    if sections != [] {
      MatchingMembers(sections[1..], key);
    }
  }

  // ---------- lists ----------

  datatype Item = Item(start: nat, end: nat)

  datatype BlockList = BlockList(indent: nat, items: seq<Item>)

  predicate ItemAt(lines: seq<string>, i: nat, indent: nat)
    requires i < |lines|
  {
    IsBody(lines[i]) && ItemIndent(lines[i]) == Some(indent)
  }

  /** The items between two lines, each reaching to the next. */
  ghost predicate IsItemList(lines: seq<string>, from: nat, to: nat, indent: nat, items: seq<Item>)
    requires from <= to <= |lines|
  {
    && (forall k :: 0 <= k < |items| ==>
         && from <= items[k].start < items[k].end <= to
         && ItemAt(lines, items[k].start, indent)
         && items[k].end == (if k + 1 < |items| then items[k + 1].start else to))
    && (items != [] ==> items[|items| - 1].end == to)
    && (forall i :: from <= i < to && ItemAt(lines, i, indent) ==> exists k :: 0 <= k < |items| && items[k].start == i)
  }

  ghost predicate NoBody(lines: seq<string>, from: nat, to: nat)
    requires from <= to <= |lines|
  {
    forall i :: from <= i < to ==> !IsBody(lines[i])
  }

  /** What yamlList finds in a section; None where it throws. */
  ghost predicate IsBlockList(lines: seq<string>, section: Section, list: Option<BlockList>)
    requires section.start < section.end <= |lines|
  {
    var from := section.start + 1;
    match list
    case Some(l) =>
      && IsBlockValue(section.value)
      && IsItemList(lines, from, section.end, l.indent, l.items)
      && (NoBody(lines, from, section.end) ==> l == BlockList(2, []))
      && (forall i :: from <= i < section.end && NoBody(lines, from, i) && IsBody(lines[i]) ==>
           ItemIndent(lines[i]) == Some(l.indent))
    case None =>
      || !IsBlockValue(section.value)
      || exists i :: from <= i < section.end && NoBody(lines, from, i) && IsBody(lines[i]) && ItemIndent(lines[i]) == None
  }

  method BodyOf(lines: seq<string>, from: nat, to: nat) returns (body: seq<nat>)
    requires from <= to <= |lines|
    ensures forall k :: 0 <= k < |body| ==> from <= body[k] < to && IsBody(lines[body[k]])
    ensures forall j, k :: 0 <= j < k < |body| ==> body[j] < body[k]
    ensures forall i :: from <= i < to && IsBody(lines[i]) ==> i in body
  {
    hide IsBody;
    body := [];
    for index := from to to
      invariant forall k :: 0 <= k < |body| ==> from <= body[k] < index && IsBody(lines[body[k]])
      invariant forall j, k :: 0 <= j < k < |body| ==> body[j] < body[k]
      invariant forall i :: from <= i < index && IsBody(lines[i]) ==> i in body
    {
      if IsBody(lines[index]) {
        body := body + [index];
      }
    }
  }

  method YamlList(lines: seq<string>, section: Section) returns (list: Option<BlockList>)
    requires section.start < section.end <= |lines|
    ensures IsBlockList(lines, section, list)
  {
    hide IsBody, ItemIndent;
    if !IsBlockValue(section.value) {
      return None;
    }
    var from, to := section.start + 1, section.end;
    var body := BodyOf(lines, from, to);
    if body == [] {
      return Some(BlockList(2, []));
    }
    assert body[0] in body;
    assert forall i :: from <= i < body[0] ==> !IsBody(lines[i]);
    assert forall i :: from <= i < to && NoBody(lines, from, i) && IsBody(lines[i]) ==> i == body[0];
    var first := ItemIndent(lines[body[0]]);
    if first == None {
      return None;
    }
    var indent := first.value;
    var items := ItemsOf(lines, body, from, to, indent);
    list := Some(BlockList(indent, items));
  }

  method ItemsOf(lines: seq<string>, body: seq<nat>, from: nat, to: nat, indent: nat) returns (items: seq<Item>)
    requires from <= to <= |lines|
    requires forall k :: 0 <= k < |body| ==> from <= body[k] < to && IsBody(lines[body[k]])
    requires forall j, k :: 0 <= j < k < |body| ==> body[j] < body[k]
    requires forall i :: from <= i < to && IsBody(lines[i]) ==> i in body
    ensures IsItemList(lines, from, to, indent, items)
  {
    hide IsBody, ItemIndent;
    var starts := StartsOf(lines, body, from, to, indent);
    items := [];
    for index := 0 to |starts|
      invariant |items| == index
      invariant forall k :: 0 <= k < index ==> items[k].start == starts[k]
      invariant forall k :: 0 <= k < index ==> items[k].end == (if k + 1 < |starts| then starts[k + 1] else to)
    {
      items := items + [Item(starts[index], if index + 1 < |starts| then starts[index + 1] else to)];
    }
    forall i | from <= i < to && ItemAt(lines, i, indent)
      ensures exists k :: 0 <= k < |items| && items[k].start == i
    {
      var k :| 0 <= k < |starts| && starts[k] == i;
      assert items[k].start == i;
    }
  }

  method StartsOf(lines: seq<string>, body: seq<nat>, ghost from: nat, ghost to: nat, indent: nat)
    returns (starts: seq<nat>)
    requires from <= to <= |lines|
    requires forall k :: 0 <= k < |body| ==> from <= body[k] < to && IsBody(lines[body[k]])
    requires forall j, k :: 0 <= j < k < |body| ==> body[j] < body[k]
    requires forall i :: from <= i < to && IsBody(lines[i]) ==> i in body
    ensures forall k :: 0 <= k < |starts| ==> from <= starts[k] < to && ItemAt(lines, starts[k], indent)
    ensures forall j, k :: 0 <= j < k < |starts| ==> starts[j] < starts[k]
    ensures forall i :: from <= i < to && ItemAt(lines, i, indent) ==> i in starts
  {
    hide IsBody, ItemIndent;
    starts := [];
    for b := 0 to |body|
      invariant forall k :: 0 <= k < |starts| ==> from <= starts[k] < to && ItemAt(lines, starts[k], indent)
      invariant forall k :: 0 <= k < |starts| ==> b > 0 && starts[k] <= body[b - 1]
      invariant forall j, k :: 0 <= j < k < |starts| ==> starts[j] < starts[k]
      invariant forall c :: 0 <= c < b && ItemAt(lines, body[c], indent) ==> body[c] in starts
    {
      if ItemIndent(lines[body[b]]) == Some(indent) {
        starts := starts + [body[b]];
      }
    }
  }

  /** The first content line, where there is one. */
  lemma {:induction false} FirstBody(lines: seq<string>, from: nat, end: nat) returns (i: nat)
    requires from <= end <= |lines| && !NoBody(lines, from, end)
    ensures from <= i < end && NoBody(lines, from, i) && IsBody(lines[i])
    decreases end
  {
    hide IsBody;
    if NoBody(lines, from, end - 1) {
      i := end - 1;
    } else {
      i := FirstBody(lines, from, end - 1);
    }
  }
}
