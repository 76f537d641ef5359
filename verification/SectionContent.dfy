/** The content of one section of a configuration, read line by line; what the section functions of the merger
    find is the same, and edits change it line by line. */
module SectionContent {
  import opened Wrappers
  import opened Text
  import opened YamlText
  import opened YamlDocument
  import opened ProxyNames
  import opened LineEdits
  import opened MergedNames
  import opened YamlRoutes

  // ---------- reading ----------

  predicate IsHeader(key: string, line: string) {
    IsTopLevel(line) && KeyLine(line).Some? && KeyLine(line).value.0 == key
  }

  /** The content lines of the sections with a key; inside says whether the lines begin in one. */
  function Content(key: string, inside: bool, lines: seq<string>): seq<string>
    decreases |lines|
  {
    if lines == [] then []
    else if IsTopLevel(lines[0]) then Content(key, IsHeader(key, lines[0]), lines[1..])
    else (if inside && IsBody(lines[0]) then [lines[0]] else []) + Content(key, inside, lines[1..])
  }

  /** Whether the end of the lines is in a section with the key. */
  function After(key: string, inside: bool, lines: seq<string>): bool
    decreases |lines|
  {
    if lines == [] then inside
    else After(key, if IsTopLevel(lines[0]) then IsHeader(key, lines[0]) else inside, lines[1..])
  }

  /** The values in the headers with the key. */
  function Values(key: string, lines: seq<string>): seq<string> {
    if lines == [] then []
    else (if IsHeader(key, lines[0]) then [KeyLine(lines[0]).value.1] else []) + Values(key, lines[1..])
  }

  predicate AllHeaders(lines: seq<string>) {
    forall k :: 0 <= k < |lines| && IsTopLevel(lines[k]) ==> KeyLine(lines[k]).Some?
  }

  /** The content of the section with a key, none where there is no such section; None where the merger reports
      an error about headers, about several such sections, or about one that is written in one line. */
  function ReadSection(key: string, lines: seq<string>): Option<seq<string>> {
    var values := Values(key, lines);
    if !AllHeaders(lines) || |values| > 1 || (values != [] && !IsBlockValue(values[0])) then None
    else Some(Content(key, false, lines))
  }

  lemma {:induction false} ContentAppend(key: string, inside: bool, a: seq<string>, b: seq<string>)
    ensures Content(key, inside, a + b) == Content(key, inside, a) + Content(key, After(key, inside, a), b)
    ensures After(key, inside, a + b) == After(key, After(key, inside, a), b)
    decreases |a|
  {
    hide IsTopLevel, IsHeader, IsBody;
    if a == [] {
      assert a + b == b;
    } else {
      var head := if IsTopLevel(a[0]) || !inside || !IsBody(a[0]) then [] else [a[0]];
      var next := if IsTopLevel(a[0]) then IsHeader(key, a[0]) else inside;
      ContentAppend(key, next, a[1..], b);
      assert (a + b)[1..] == a[1..] + b;
      Associate(head, Content(key, next, a[1..]), Content(key, After(key, next, a[1..]), b));
    }
  }

  lemma {:induction false} ValuesAppend(key: string, a: seq<string>, b: seq<string>)
    ensures Values(key, a + b) == Values(key, a) + Values(key, b)
  {
    if a == [] {
      assert a + b == b;
      NoValues(key);
    } else {
      ValuesAppend(key, a[1..], b);
      assert (a + b)[1..] == a[1..] + b;
      ValuesHead(key, a);
      ValuesHead(key, a + b);
      hide Values;
      Associate(Values(key, [a[0]]), Values(key, a[1..]), Values(key, b));
    }
  }

  lemma NoValues(key: string)
    ensures Values(key, []) == []
  {
  }

  lemma ValuesHead(key: string, a: seq<string>)
    requires a != []
    ensures Values(key, a) == Values(key, [a[0]]) + Values(key, a[1..])
  {
    hide IsHeader, KeyLine;
    assert [a[0]][1..] == [];
  }

  ghost predicate AllInner(lines: seq<string>) {
    forall k :: 0 <= k < |lines| ==> !IsTopLevel(lines[k])
  }

  lemma {:induction false} InnerContent(key: string, inside: bool, lines: seq<string>)
    requires AllInner(lines)
    ensures Content(key, inside, lines) == if inside then Bodies(lines) else []
    ensures After(key, inside, lines) == inside && Values(key, lines) == []
  {
    hide IsTopLevel, IsBody;
    if lines != [] {
      InnerContent(key, inside, lines[1..]);
    }
  }

  ghost predicate NoHeader(key: string, lines: seq<string>) {
    forall k :: 0 <= k < |lines| ==> !IsHeader(key, lines[k])
  }

  lemma {:induction false} OtherContent(key: string, lines: seq<string>)
    requires NoHeader(key, lines)
    ensures Content(key, false, lines) == [] && !After(key, false, lines) && Values(key, lines) == []
  {
    hide IsTopLevel, IsHeader, IsBody;
    if lines != [] {
      OtherContent(key, lines[1..]);
    }
  }

  /** Behind a header with another key there is no more content, whether the lines begin in the section or not. */
  lemma HeadedContent(key: string, inside: bool, lines: seq<string>)
    requires NoHeader(key, lines) && lines != [] && IsTopLevel(lines[0])
    ensures Content(key, inside, lines) == [] && !After(key, inside, lines)
  {
    hide IsTopLevel, IsBody;
    OtherContent(key, lines[1..]);
  }

  // ---------- what the section functions find ----------

  lemma DocumentHeaders(lines: seq<string>, sections: seq<Section>)
    requires IsDocument(lines, sections)
    ensures AllHeaders(lines)
  {
    hide IsTopLevel, KeyLine;
  }

  lemma NoSuchHeader(lines: seq<string>, sections: seq<Section>, key: string, i: nat, j: nat)
    requires IsDocument(lines, sections) && i <= j <= |lines|
    requires forall s :: s in sections && s.key == key ==> !(i <= s.start < j)
    ensures NoHeader(key, lines[i..j])
  {
    hide IsTopLevel, KeyLine;
    forall k | i <= k < j && IsTopLevel(lines[k])
      ensures !IsHeader(key, lines[k])
    {
      var m :| 0 <= m < |sections| && sections[m].start == k;
      assert sections[m] in sections;
    }
  }

  lemma NoneRead(lines: seq<string>, sections: seq<Section>, key: string)
    requires IsDocument(lines, sections) && FindSection(sections, key) == Some(None)
    ensures Values(key, lines) == [] && ReadSection(key, lines) == Some([])
    ensures NoHeader(key, lines)
  {
    hide IsDocument, IsTopLevel, KeyLine, IsHeader;
    MatchingMembers(sections, key);
    DocumentHeaders(lines, sections);
    NoSuchHeader(lines, sections, key, 0, |lines|);
    assert lines[0..|lines|] == lines;
    OtherContent(key, lines);
  }

  /** The state in front of a line of a section, and of the line behind it. */
  lemma StateAt(lines: seq<string>, sections: seq<Section>, t: Section, q: nat, key: string)
    requires IsDocument(lines, sections) && t in sections && t.start < q <= t.end <= |lines|
    ensures After(key, false, lines[..q]) == (t.key == key)
  {
    hide IsDocument, IsTopLevel, KeyLine;
    var k :| 0 <= k < |sections| && sections[k] == t;
    SectionLines(lines, sections, k);
    var inner := lines[t.start + 1..q];
    assert lines[..q] == lines[..t.start] + ([lines[t.start]] + inner);
    ContentAppend(key, false, lines[..t.start], [lines[t.start]] + inner);
    assert ([lines[t.start]] + inner)[1..] == inner;
    InnerContent(key, t.key == key, inner);
  }

  lemma OneRead(lines: seq<string>, sections: seq<Section>, key: string, s: Section)
    requires IsDocument(lines, sections) && FindSection(sections, key) == Some(Some(s))
    ensures s.start < s.end <= |lines| && Values(key, lines) == [s.value]
    ensures Content(key, false, lines) == Bodies(lines[s.start + 1..s.end])
    ensures ReadSection(key, lines) == if IsBlockValue(s.value) then Some(Bodies(lines[s.start + 1..s.end])) else None
    ensures NoHeader(key, lines[..s.start]) && NoHeader(key, lines[s.end..])
    ensures s.end < |lines| ==> IsTopLevel(lines[s.end])
  {
    hide IsDocument, IsTopLevel, KeyLine, Matching, IsHeader, IsBlockValue;
    FoundSection(lines, sections, key, s);
    var k :| 0 <= k < |sections| && sections[k] == s;
    SectionLines(lines, sections, k);
    DocumentHeaders(lines, sections);
    NoSuchHeader(lines, sections, key, 0, s.start);
    assert lines[0..s.start] == lines[..s.start];
    NoSuchHeader(lines, sections, key, s.end, |lines|);
    assert lines[s.end..|lines|] == lines[s.end..];
    SectionParts(key, lines, s);
  }

  lemma SectionParts(key: string, lines: seq<string>, s: Section)
    requires s.start < s.end <= |lines| && Inner(lines, s.start + 1, s.end) && s.key == key
    requires IsTopLevel(lines[s.start]) && KeyLine(lines[s.start]) == Some((key, s.value))
    requires NoHeader(key, lines[..s.start]) && NoHeader(key, lines[s.end..])
    requires s.end < |lines| ==> IsTopLevel(lines[s.end])
    ensures Values(key, lines) == [s.value] && Content(key, false, lines) == Bodies(lines[s.start + 1..s.end])
  {
    hide IsTopLevel, KeyLine, Content, Values, After, Bodies, IsHeader;
    var before, inner, rest := lines[..s.start], lines[s.start + 1..s.end], lines[s.end..];
    var head := [lines[s.start]];
    assert lines == before + (head + (inner + rest));
    OtherContent(key, before);
    ContentAppend(key, false, before, head + (inner + rest));
    ValuesAppend(key, before, head + (inner + rest));
    HeaderRead(key, lines[s.start], s.value, inner + rest);
    assert AllInner(inner);
    InnerThenRest(key, inner, rest);
    assert [s.value] + [] == [s.value];
  }

  lemma HeaderRead(key: string, header: string, value: string, rest: seq<string>)
    requires IsTopLevel(header) && KeyLine(header) == Some((key, value))
    ensures Content(key, false, [header] + rest) == Content(key, true, rest) && Values(key, [header] + rest) == [value] + Values(key, rest)
  {
    hide IsTopLevel, KeyLine;
    assert ([header] + rest)[1..] == rest;
  }

  lemma InnerThenRest(key: string, inner: seq<string>, rest: seq<string>)
    requires AllInner(inner) && NoHeader(key, rest) && (rest != [] ==> IsTopLevel(rest[0]))
    ensures Content(key, true, inner + rest) == Bodies(inner) && Values(key, inner + rest) == []
  {
    ContentAppend(key, true, inner, rest);
    ValuesAppend(key, inner, rest);
    InnerContent(key, true, inner);
    OtherContent(key, rest);
    if rest != [] {
      HeadedContent(key, true, rest);
    } else {
      NoContent(key, true);
    }
    hide Content, Values, After, Bodies;
    assert Bodies(inner) + [] == Bodies(inner);
  }

  lemma NoContent(key: string, inside: bool)
    ensures Content(key, inside, []) == []
  {
  }

  lemma {:induction false} ValueThere(key: string, lines: seq<string>, i: nat)
    requires i < |lines| && IsHeader(key, lines[i])
    ensures |Values(key, lines)| > 0
  {
    hide IsHeader, KeyLine;
    assert lines == lines[..i] + lines[i..];
    ValuesAppend(key, lines[..i], lines[i..]);
  }

  lemma TwiceRead(lines: seq<string>, sections: seq<Section>, key: string)
    requires IsDocument(lines, sections) && FindSection(sections, key) == None
    ensures ReadSection(key, lines) == None
  {
    hide IsTopLevel, KeyLine;
    forall j, k | 0 <= j < k < |sections|
      ensures sections[j].start < sections[k].start
    {
      SectionsAscend(lines, sections, j, k);
    }
    MatchingOrder(lines, sections, key);
    MatchingMembers(sections, key);
    var m := Matching(sections, key);
    var a, b := m[0], m[1];
    assert a in m && b in m;
    assert lines == lines[..b.start] + lines[b.start..];
    ValuesAppend(key, lines[..b.start], lines[b.start..]);
    ValueThere(key, lines[..b.start], a.start);
    ValueThere(key, lines[b.start..], 0);
  }

  // ---------- edits ----------

  /** What one position of an edited file contributes: the lines inserted there. */
  function Extra(key: string, lines: seq<string>, ins: map<nat, seq<string>>, i: nat): seq<string>
    requires i <= |lines|
  {
    Content(key, After(key, false, lines[..i]), InsertedAt(ins, i))
  }

  /** Headers stay headers with their keys, other lines stay other lines, and new headers come only in front of
      a header or at the end. */
  ghost predicate IsInStep(key: string, lines: seq<string>, ins: map<nat, seq<string>>, rep: map<nat, string>) {
    && (forall a :: a in rep ==>
         && a < |lines| && IsTopLevel(lines[a]) == IsTopLevel(rep[a]) && IsHeader(key, lines[a]) == IsHeader(key, rep[a]))
    && (forall i :: 0 <= i < |lines| && !IsTopLevel(lines[i]) ==> AllInner(InsertedAt(ins, i)))
  }

  /** The content of the edited file from a position on. */
  function EditedContent(key: string, lines: seq<string>, ins: map<nat, seq<string>>, rep: map<nat, string>, i: nat): seq<string>
    requires i <= |lines|
    decreases |lines| - i
  {
    Extra(key, lines, ins, i)
    + (if i == |lines| then []
       else
         var line := LineAt(lines, rep, i);
         (if After(key, false, lines[..i]) && !IsTopLevel(line) && IsBody(line) then [line] else [])
         + EditedContent(key, lines, ins, rep, i + 1))
  }

  lemma {:induction false} EditedIsContent(key: string, lines: seq<string>, ins: map<nat, seq<string>>, rep: map<nat, string>, i: nat)
    requires i <= |lines| && IsInStep(key, lines, ins, rep)
    ensures Content(key, After(key, false, lines[..i]), EditedFrom(lines, ins, rep, i)) == EditedContent(key, lines, ins, rep, i)
    decreases |lines| - i
  {
    hide IsTopLevel, IsHeader, IsBody, Content, After, KeyLine;
    var state, block := After(key, false, lines[..i]), InsertedAt(ins, i);
    if i == |lines| {
      assert EditedFrom(lines, ins, rep, i) == block;
      assert EditedContent(key, lines, ins, rep, i) == Content(key, state, block) + [];
    } else {
      var line, rest := LineAt(lines, rep, i), EditedFrom(lines, ins, rep, i + 1);
      assert EditedFrom(lines, ins, rep, i) == block + ([line] + rest);
      EditedIsContent(key, lines, ins, rep, i + 1);
      NextState(key, lines, i);
      OneStep(key, state, block, lines[i], line, rest);
    }
  }

  lemma NextState(key: string, lines: seq<string>, i: nat)
    requires i < |lines|
    ensures After(key, false, lines[..i + 1]) ==
      if IsTopLevel(lines[i]) then IsHeader(key, lines[i]) else After(key, false, lines[..i])
  {
    hide IsTopLevel, IsHeader, IsBody;
    assert lines[..i + 1] == lines[..i] + [lines[i]];
    ContentAppend(key, false, lines[..i], [lines[i]]);
    assert [lines[i]][1..] == [];
  }

  /** An insertion, a line and what follows, where the line was another one of its kind. */
  lemma OneStep(key: string, state: bool, block: seq<string>, was: string, line: string, rest: seq<string>)
    requires IsTopLevel(was) == IsTopLevel(line) && IsHeader(key, was) == IsHeader(key, line)
    requires !IsTopLevel(was) ==> AllInner(block)
    ensures var next := if IsTopLevel(was) then IsHeader(key, was) else state;
      Content(key, state, block + ([line] + rest)) ==
        Content(key, state, block) + ((if state && !IsTopLevel(line) && IsBody(line) then [line] else []) + Content(key, next, rest))
  {
    hide IsTopLevel, IsHeader, IsBody;
    ContentAppend(key, state, block, [line] + rest);
    assert ([line] + rest)[1..] == rest;
    if !IsTopLevel(was) {
      InnerContent(key, state, block);
    }
  }

  /** Values of an edited file. */
  function EditedValues(key: string, lines: seq<string>, ins: map<nat, seq<string>>, rep: map<nat, string>, i: nat): seq<string>
    requires i <= |lines|
    decreases |lines| - i
  {
    Values(key, InsertedAt(ins, i))
    + (if i == |lines| then [] else Values(key, [LineAt(lines, rep, i)]) + EditedValues(key, lines, ins, rep, i + 1))
  }

  lemma {:induction false} EditedAreValues(key: string, lines: seq<string>, ins: map<nat, seq<string>>, rep: map<nat, string>, i: nat)
    requires i <= |lines|
    ensures Values(key, EditedFrom(lines, ins, rep, i)) == EditedValues(key, lines, ins, rep, i)
    decreases |lines| - i
  {
    hide Values;
    var block := InsertedAt(ins, i);
    if i == |lines| {
      assert EditedFrom(lines, ins, rep, i) == block;
      assert Values(key, block) + [] == Values(key, block);
    } else {
      var line, rest := LineAt(lines, rep, i), EditedFrom(lines, ins, rep, i + 1);
      assert EditedFrom(lines, ins, rep, i) == block + ([line] + rest);
      ValuesAppend(key, block, [line] + rest);
      ValuesAppend(key, [line], rest);
      EditedAreValues(key, lines, ins, rep, i + 1);
    }
  }

  // ---------- one insertion, one replacement ----------

  /** The content from a line on. */
  function Rest(key: string, lines: seq<string>, i: nat): seq<string>
    requires i <= |lines|
  {
    Content(key, After(key, false, lines[..i]), lines[i..])
  }

  predicate IsContentLine(key: string, lines: seq<string>, i: nat)
    requires i < |lines|
  {
    After(key, false, lines[..i]) && !IsTopLevel(lines[i]) && IsBody(lines[i])
  }

  lemma RestStep(key: string, lines: seq<string>, i: nat)
    requires i < |lines|
    ensures Rest(key, lines, i) == (if IsContentLine(key, lines, i) then [lines[i]] else []) + Rest(key, lines, i + 1)
  {
    hide IsTopLevel, IsHeader, IsBody;
    NextState(key, lines, i);
    assert lines[i..][1..] == lines[i + 1..] && lines[i..][0] == lines[i];
  }

  lemma RestSplit(key: string, lines: seq<string>, p: nat)
    requires p <= |lines|
    ensures Content(key, false, lines) == Content(key, false, lines[..p]) + Rest(key, lines, p)
  {
    hide IsTopLevel, IsHeader, IsBody;
    assert lines == lines[..p] + lines[p..];
    ContentAppend(key, false, lines[..p], lines[p..]);
  }

  /** The lines that are replaced by others are none of the content, but perhaps one. */
  ghost predicate OnlyReplaces(key: string, lines: seq<string>, rep: map<nat, string>, a: Option<nat>) {
    forall k :: k in rep && k < |lines| && a != Some(k) ==>
      || rep[k] == lines[k]
      || (IsTopLevel(lines[k]) == IsTopLevel(rep[k]) && (IsTopLevel(lines[k]) || !After(key, false, lines[..k])))
  }

  lemma {:induction false} Untouched(key: string, lines: seq<string>, ins: map<nat, seq<string>>, rep: map<nat, string>, a: Option<nat>, i: nat)
    requires i <= |lines| && OnlyReplaces(key, lines, rep, a) && (a.Some? ==> a.value < i)
    requires forall k :: i <= k <= |lines| ==> Extra(key, lines, ins, k) == []
    ensures EditedContent(key, lines, ins, rep, i) == Rest(key, lines, i)
    decreases |lines| - i
  {
    hide IsTopLevel, IsHeader, IsBody, Extra;
    if i < |lines| {
      Untouched(key, lines, ins, rep, a, i + 1);
      RestStep(key, lines, i);
    }
  }

  lemma {:induction false} InsertedOnce(key: string, lines: seq<string>, ins: map<nat, seq<string>>, rep: map<nat, string>, p: nat, i: nat)
    requires i <= p <= |lines| && OnlyReplaces(key, lines, rep, None)
    requires forall k :: 0 <= k <= |lines| && k != p ==> Extra(key, lines, ins, k) == []
    ensures EditedContent(key, lines, ins, rep, i)
      == Content(key, After(key, false, lines[..i]), lines[i..p]) + (Extra(key, lines, ins, p) + Rest(key, lines, p))
    decreases p - i
  {
    hide IsTopLevel, IsHeader, IsBody, Extra, Rest;
    if i < p {
      InsertedOnce(key, lines, ins, rep, p, i + 1);
      NextState(key, lines, i);
      assert lines[i..p][1..] == lines[i + 1..p];
    } else {
      assert lines[i..p] == [];
      EditedLast(key, lines, ins, rep, p);
    }
  }

  lemma EditedLast(key: string, lines: seq<string>, ins: map<nat, seq<string>>, rep: map<nat, string>, p: nat)
    requires p <= |lines| && OnlyReplaces(key, lines, rep, None)
    requires forall k :: p < k <= |lines| ==> Extra(key, lines, ins, k) == []
    ensures EditedContent(key, lines, ins, rep, p) == Extra(key, lines, ins, p) + Rest(key, lines, p)
  {
    hide IsTopLevel, IsHeader, IsBody, Extra;
    if p < |lines| {
      Untouched(key, lines, ins, rep, None, p + 1);
      RestStep(key, lines, p);
    }
  }

  /** One insertion puts its lines into the content, where the content is at that position. */
  lemma OneInsertion(key: string, lines: seq<string>, ins: map<nat, seq<string>>, rep: map<nat, string>, p: nat)
    requires p <= |lines| && IsInStep(key, lines, ins, rep) && OnlyReplaces(key, lines, rep, None)
    requires forall k :: 0 <= k <= |lines| && k != p ==> Extra(key, lines, ins, k) == []
    ensures Content(key, false, Edited(lines, ins, rep))
      == Content(key, false, lines[..p]) + (Extra(key, lines, ins, p) + Rest(key, lines, p))
  {
    hide IsTopLevel, IsHeader, IsBody, Extra, Rest, Content;
    EditedIsContent(key, lines, ins, rep, 0);
    InsertedOnce(key, lines, ins, rep, p, 0);
    assert lines[0..p] == lines[..p] && lines[..0] == [];
  }

  lemma {:induction false} ReplacedOnce(key: string, lines: seq<string>, ins: map<nat, seq<string>>, rep: map<nat, string>, a: nat, i: nat)
    requires i <= a < |lines| && OnlyReplaces(key, lines, rep, Some(a)) && a in rep
    requires forall k :: 0 <= k <= |lines| ==> Extra(key, lines, ins, k) == []
    requires IsContentLine(key, lines, a) && !IsTopLevel(rep[a]) && IsBody(rep[a])
    ensures EditedContent(key, lines, ins, rep, i)
      == Content(key, After(key, false, lines[..i]), lines[i..a]) + ([rep[a]] + Rest(key, lines, a + 1))
    decreases a - i
  {
    hide IsTopLevel, IsHeader, IsBody, Extra, Rest;
    if i < a {
      ReplacedOnce(key, lines, ins, rep, a, i + 1);
      NextState(key, lines, i);
      assert lines[i..a][1..] == lines[i + 1..a];
    } else {
      assert lines[i..a] == [];
      Untouched(key, lines, ins, rep, Some(a), a + 1);
    }
  }

  /** One replacement of a content line replaces it in the content. */
  lemma OneReplacement(key: string, lines: seq<string>, ins: map<nat, seq<string>>, rep: map<nat, string>, a: nat)
    requires a < |lines| && IsInStep(key, lines, ins, rep) && OnlyReplaces(key, lines, rep, Some(a)) && a in rep
    requires forall k :: 0 <= k <= |lines| ==> Extra(key, lines, ins, k) == []
    requires IsContentLine(key, lines, a) && IsBody(rep[a])
    ensures var before := Content(key, false, lines[..a]);
      && Content(key, false, lines) == before + ([lines[a]] + Rest(key, lines, a + 1))
      && Content(key, false, Edited(lines, ins, rep)) == before + ([rep[a]] + Rest(key, lines, a + 1))
  {
    hide IsTopLevel, IsHeader, IsBody, Extra, Rest, Content;
    EditedIsContent(key, lines, ins, rep, 0);
    ReplacedOnce(key, lines, ins, rep, a, 0);
    assert lines[0..a] == lines[..a] && lines[..0] == [];
    RestSplit(key, lines, a);
    RestStep(key, lines, a);
  }

  // ---------- headers of an edited file ----------

  lemma LineValue(key: string, line: string)
    ensures IsHeader(key, line) ==> KeyLine(line).Some?
    ensures Values(key, [line]) == if IsHeader(key, line) then [KeyLine(line).value.1] else []
  {
    hide IsTopLevel, KeyLine;
    assert [line][1..] == [];
  }

  lemma ValuesStep(key: string, lines: seq<string>, ins: map<nat, seq<string>>, rep: map<nat, string>, i: nat)
    requires i < |lines| && IsInStep(key, lines, ins, rep)
    ensures EditedValues(key, lines, ins, rep, i) == Values(key, InsertedAt(ins, i))
      + (Values(key, [LineAt(lines, rep, i)]) + EditedValues(key, lines, ins, rep, i + 1))
    ensures IsHeader(key, LineAt(lines, rep, i)) == IsHeader(key, lines[i])
  {
    hide IsHeader, IsTopLevel, Values, InsertedAt;
  }

  lemma ValuesEnd(key: string, lines: seq<string>, ins: map<nat, seq<string>>, rep: map<nat, string>)
    ensures EditedValues(key, lines, ins, rep, |lines|) == Values(key, InsertedAt(ins, |lines|))
  {
    hide IsHeader, Values, InsertedAt;
  }

  lemma {:induction false} HeaderKept(key: string, lines: seq<string>, ins: map<nat, seq<string>>, rep: map<nat, string>, i: nat, h: nat)
    requires i <= |lines| && IsInStep(key, lines, ins, rep) && h < |lines| && IsHeader(key, lines[h])
    requires forall k :: 0 <= k < |lines| && k != h ==> !IsHeader(key, lines[k])
    requires forall k :: 0 <= k <= |lines| ==> Values(key, InsertedAt(ins, k)) == []
    ensures EditedValues(key, lines, ins, rep, i) == if i <= h then [KeyLine(LineAt(lines, rep, h)).value.1] else []
    decreases |lines| - i
  {
    hide IsTopLevel, KeyLine, Values, IsHeader, LineAt, InsertedAt, EditedValues, IsInStep;
    if i < |lines| {
      HeaderKept(key, lines, ins, rep, i + 1, h);
      LineValue(key, LineAt(lines, rep, i));
      ValuesStep(key, lines, ins, rep, i);
    } else {
      ValuesEnd(key, lines, ins, rep);
    }
  }

  lemma {:induction false} HeaderComes(key: string, lines: seq<string>, ins: map<nat, seq<string>>, rep: map<nat, string>, i: nat, p: nat)
    requires i <= |lines| && IsInStep(key, lines, ins, rep) && p <= |lines|
    requires forall k :: 0 <= k < |lines| ==> !IsHeader(key, lines[k])
    requires forall k :: 0 <= k <= |lines| && k != p ==> Values(key, InsertedAt(ins, k)) == []
    ensures EditedValues(key, lines, ins, rep, i) == if i <= p then Values(key, InsertedAt(ins, p)) else []
    decreases |lines| - i
  {
    hide IsTopLevel, KeyLine, Values, IsHeader, LineAt, InsertedAt, EditedValues, IsInStep;
    if i < |lines| {
      HeaderComes(key, lines, ins, rep, i + 1, p);
      LineValue(key, LineAt(lines, rep, i));
      ValuesStep(key, lines, ins, rep, i);
    } else {
      ValuesEnd(key, lines, ins, rep);
    }
  }
}
