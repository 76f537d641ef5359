/** What two inserted blocks and a few replaced lines do to the sections of a file, read line by line. */
module MergedSections {
  import opened Wrappers
  import opened Text
  import opened YamlText
  import opened YamlDocument
  import opened YamlEmit
  import opened ProxyNames
  import opened LineEdits
  import opened MergedNames
  import opened MergePlan
  import opened MergeText
  import opened YamlRoutes
  import opened MergePlacing
  import opened SectionContent
  import opened SectionReading

  // ---------- blocks ----------

  /** Lines that are inserted at a position for a section. */
  datatype Block = Block(at: nat, lines: seq<string>, owner: string)

  ghost predicate IsInnerBlock(lines: seq<string>, sections: seq<Section>, b: Block) {
    AllInner(b.lines) && exists t :: t in sections && t.key == b.owner && t.start < b.at <= t.end <= |lines|
  }

  /** A section of its own, in front of a header or at the end. */
  ghost predicate IsSectionBlock(lines: seq<string>, b: Block) {
    && b.at <= |lines| && (b.at < |lines| ==> IsTopLevel(lines[b.at]))
    && b.lines != [] && IsTopLevel(b.lines[0]) && KeyLine(b.lines[0]) == Some((b.owner, "")) && AllInner(b.lines[1..])
  }

  ghost predicate IsBlock(lines: seq<string>, sections: seq<Section>, b: Block) {
    (b.lines == [] && b.at <= |lines|) || IsInnerBlock(lines, sections, b) || IsSectionBlock(lines, b)
  }

  /** The content that a block brings. */
  function Added(b: Block): seq<string> {
    if b.lines != [] && IsTopLevel(b.lines[0]) then Bodies(b.lines[1..]) else Bodies(b.lines)
  }

  lemma InnerAdds(lines: seq<string>, sections: seq<Section>, b: Block, key: string)
    requires IsDocument(lines, sections) && IsInnerBlock(lines, sections, b)
    ensures b.at <= |lines|
    ensures var inside := After(key, false, lines[..b.at]);
      && inside == (key == b.owner)
      && Content(key, inside, b.lines) == (if key == b.owner then Added(b) else [])
      && After(key, inside, b.lines) == inside && Values(key, b.lines) == []
  {
    hide IsDocument, IsTopLevel, Bodies;
    var t :| t in sections && t.key == b.owner && t.start < b.at <= t.end <= |lines|;
    StateAt(lines, sections, t, b.at, key);
    InnerContent(key, key == b.owner, b.lines);
    assert b.lines != [] ==> !IsTopLevel(b.lines[0]);
  }

  lemma SectionAdds(lines: seq<string>, b: Block, key: string, inside: bool)
    requires IsSectionBlock(lines, b)
    ensures Content(key, inside, b.lines) == if key == b.owner then Added(b) else []
    ensures Values(key, b.lines) == if key == b.owner then [""] else []
  {
    hide IsTopLevel, KeyLine, Bodies;
    InnerContent(key, key == b.owner, b.lines[1..]);
  }

  // ---------- the shape of a plan ----------

  /** A line within a section that is replaced. */
  datatype Touched = Touched(index: nat, owner: string)

  /** A header written anew, or the one line that is touched. */
  ghost predicate IsReplacement(lines: seq<string>, sections: seq<Section>, k: nat, line: string, touched: Option<Touched>) {
    && k < |lines|
    && (|| (exists t :: t in sections && t.start == k && IsTopLevel(line) && KeyLine(line) == Some((t.key, "")))
        || (!IsTopLevel(line) && exists t :: t in sections && t.start < k < t.end && touched == Some(Touched(k, t.key))))
  }

  /** Two blocks for different sections, the first one first where they meet, and replacements. */
  ghost predicate IsShape(lines: seq<string>, sections: seq<Section>, plan: Plan, a: Block, b: Block, touched: Option<Touched>) {
    && IsDocument(lines, sections)
    && a.owner != b.owner && IsBlock(lines, sections, a) && IsBlock(lines, sections, b)
    && (a.at == b.at ==> b.lines == [] || IsSectionBlock(lines, b))
    && (forall i :: 0 <= i <= |lines| ==> InsertedAt(plan.insertions, i) == BlockAt(a, i) + BlockAt(b, i))
    && (forall k :: k in Replaced(plan) ==> IsReplacement(lines, sections, k, Replaced(plan)[k], touched))
  }

  function BlockAt(b: Block, i: nat): seq<string> {
    if i == b.at then b.lines else []
  }

  function AddedAt(b: Block, key: string, i: nat): seq<string> {
    if i == b.at && key == b.owner then Added(b) else []
  }

  lemma BlockAdds(lines: seq<string>, sections: seq<Section>, b: Block, key: string)
    requires IsDocument(lines, sections) && IsBlock(lines, sections, b)
    ensures b.at <= |lines| && Content(key, After(key, false, lines[..b.at]), b.lines) == AddedAt(b, key, b.at)
  {
    hide IsDocument, IsTopLevel, KeyLine, IsInnerBlock, IsSectionBlock, Bodies;
    if IsInnerBlock(lines, sections, b) {
      InnerAdds(lines, sections, b, key);
    } else if IsSectionBlock(lines, b) {
      InSection(lines, b);
      SectionAdds(lines, b, key, After(key, false, lines[..b.at]));
    } else {
      NoLines(b);
    }
  }

  lemma InSection(lines: seq<string>, b: Block)
    requires IsSectionBlock(lines, b)
    ensures b.at <= |lines| && b.lines != []
  {
    hide IsTopLevel, KeyLine;
  }

  lemma NoLines(b: Block)
    requires b.lines == []
    ensures Added(b) == []
  {
  }

  /** What each position of a planned file adds to the content of a section. */
  lemma ShapeExtra(lines: seq<string>, sections: seq<Section>, plan: Plan, a: Block, b: Block, touched: Option<Touched>, key: string, i: nat)
    requires IsShape(lines, sections, plan, a, b, touched) && i <= |lines|
    ensures Extra(key, lines, plan.insertions, i) == AddedAt(a, key, i) + AddedAt(b, key, i)
  {
    hide IsDocument, IsTopLevel, KeyLine, IsInnerBlock, IsSectionBlock, IsReplacement, Added, Content, After;
    var inside := After(key, false, lines[..i]);
    ContentAppend(key, inside, BlockAt(a, i), BlockAt(b, i));
    NothingThere(key, inside);
    NothingThere(key, After(key, inside, BlockAt(a, i)));
    if i == a.at {
      BlockAdds(lines, sections, a, key);
    }
    if i == b.at && i != a.at {
      BlockAdds(lines, sections, b, key);
    }
    if i == b.at && i == a.at {
      if b.lines == [] {
        NoLines(b);
      } else {
        SectionAdds(lines, b, key, After(key, inside, a.lines));
      }
    }
  }

  lemma NothingThere(key: string, inside: bool)
    ensures Content(key, inside, []) == [] && After(key, inside, []) == inside
  {
  }

  lemma ShapeInStep(lines: seq<string>, sections: seq<Section>, plan: Plan, a: Block, b: Block, touched: Option<Touched>, key: string)
    requires IsShape(lines, sections, plan, a, b, touched)
    ensures IsInStep(key, lines, plan.insertions, Replaced(plan))
    ensures OnlyReplaces(key, lines, Replaced(plan), TouchedIn(touched, key))
  {
    hide IsDocument, IsTopLevel, KeyLine, Content, After, Replaced;
    var rep := Replaced(plan);
    forall k | k in rep
      ensures k < |lines| && IsTopLevel(lines[k]) == IsTopLevel(rep[k]) && IsHeader(key, lines[k]) == IsHeader(key, rep[k])
      ensures TouchedIn(touched, key) == Some(k) || IsTopLevel(lines[k]) || !After(key, false, lines[..k])
    {
      ReplacementKeeps(lines, sections, k, rep[k], touched, key);
    }
    forall i | 0 <= i < |lines| && !IsTopLevel(lines[i])
      ensures AllInner(InsertedAt(plan.insertions, i))
    {
      InnerBlockAt(lines, sections, a, i);
      InnerBlockAt(lines, sections, b, i);
    }
  }

  lemma InnerBlockAt(lines: seq<string>, sections: seq<Section>, b: Block, i: nat)
    requires IsBlock(lines, sections, b) && i < |lines| && !IsTopLevel(lines[i])
    ensures AllInner(BlockAt(b, i))
  {
    hide IsTopLevel, KeyLine;
  }

  function TouchedIn(touched: Option<Touched>, key: string): Option<nat> {
    if touched.Some? && touched.value.owner == key then Some(touched.value.index) else None
  }

  lemma ReplacementKeeps(lines: seq<string>, sections: seq<Section>, k: nat, line: string, touched: Option<Touched>, key: string)
    requires IsDocument(lines, sections) && IsReplacement(lines, sections, k, line, touched)
    ensures k < |lines| && IsTopLevel(lines[k]) == IsTopLevel(line) && IsHeader(key, lines[k]) == IsHeader(key, line)
    ensures TouchedIn(touched, key) == Some(k) || IsTopLevel(lines[k]) || !After(key, false, lines[..k])
  {
    hide IsDocument, IsTopLevel, KeyLine;
    if t :| t in sections && t.start == k && IsTopLevel(line) && KeyLine(line) == Some((t.key, "")) {
      var m :| 0 <= m < |sections| && sections[m] == t;
      SectionLines(lines, sections, m);
    } else {
      var t :| t in sections && t.start < k < t.end && touched == Some(Touched(k, t.key));
      var m :| 0 <= m < |sections| && sections[m] == t;
      SectionLines(lines, sections, m);
      StateAt(lines, sections, t, k, key);
    }
  }

  // ---------- headers ----------

  /** What each position adds to the headers of a section: nothing, but a new section its own. */
  lemma ShapeValues(lines: seq<string>, sections: seq<Section>, plan: Plan, a: Block, b: Block, touched: Option<Touched>, key: string, i: nat)
    requires IsShape(lines, sections, plan, a, b, touched) && i <= |lines|
    ensures Values(key, InsertedAt(plan.insertions, i)) == ValuesAt(a, key, i) + ValuesAt(b, key, i)
  {
    hide IsDocument, IsTopLevel, KeyLine, IsReplacement, Values, IsInnerBlock, IsSectionBlock;
    ValuesAppend(key, BlockAt(a, i), BlockAt(b, i));
    BlockValues(lines, sections, a, key, i);
    BlockValues(lines, sections, b, key, i);
  }

  function ValuesAt(b: Block, key: string, i: nat): seq<string> {
    if i == b.at && key == b.owner && b.lines != [] && IsTopLevel(b.lines[0]) then [""] else []
  }

  lemma BlockValues(lines: seq<string>, sections: seq<Section>, b: Block, key: string, i: nat)
    requires IsDocument(lines, sections) && IsBlock(lines, sections, b)
    ensures Values(key, BlockAt(b, i)) == ValuesAt(b, key, i)
  {
    hide IsDocument, IsTopLevel, KeyLine;
    if i == b.at && b.lines != [] {
      if IsSectionBlock(lines, b) {
        SectionAdds(lines, b, key, false);
      } else {
        InnerAdds(lines, sections, b, key);
      }
    }
  }

  /** The headers of a section that is there: still one, and of a block. */
  lemma ValuesKept(lines: seq<string>, sections: seq<Section>, plan: Plan, a: Block, b: Block, touched: Option<Touched>, key: string, s: Section)
    requires IsShape(lines, sections, plan, a, b, touched) && FindSection(sections, key) == Some(Some(s)) && IsBlockValue(s.value)
    requires (key == a.owner ==> AllInner(a.lines)) && (key == b.owner ==> AllInner(b.lines))
    ensures var values := Values(key, Edited(lines, plan.insertions, Replaced(plan))); |values| == 1 && IsBlockValue(values[0])
  {
    var ins, rep := plan.insertions, Replaced(plan);
    hide IsDocument, IsTopLevel, KeyLine, Values, IsBlock, Replaced, Matching, FindSection;
    ShapeInStep(lines, sections, plan, a, b, touched, key);
    FoundSection(lines, sections, key, s);
    OnlyHeader(lines, sections, key, s);
    forall k | 0 <= k <= |lines|
      ensures Values(key, InsertedAt(ins, k)) == []
    {
      ShapeValues(lines, sections, plan, a, b, touched, key, k);
    }
    EditedAreValues(key, lines, ins, rep, 0);
    HeaderKept(key, lines, ins, rep, 0, s.start);
    if s.start in rep {
      HeaderReplacement(lines, sections, s, rep[s.start], touched);
    }
  }

  lemma HeaderReplacement(lines: seq<string>, sections: seq<Section>, s: Section, line: string, touched: Option<Touched>)
    requires IsDocument(lines, sections) && s in sections && IsReplacement(lines, sections, s.start, line, touched)
    ensures KeyLine(line).Some? && KeyLine(line).value.1 == ""
  {
    hide IsDocument, IsTopLevel, KeyLine;
    var k :| 0 <= k < |sections| && sections[k] == s;
    SectionLines(lines, sections, k);
    if t :| t in sections && t.start < s.start < t.end {
      var j :| 0 <= j < |sections| && sections[j] == t;
      SectionLines(lines, sections, j);
    }
  }

  lemma OnlyHeader(lines: seq<string>, sections: seq<Section>, key: string, s: Section)
    requires IsDocument(lines, sections) && FindSection(sections, key) == Some(Some(s))
    ensures s.start < |lines| && IsHeader(key, lines[s.start])
    ensures forall k :: 0 <= k < |lines| && k != s.start ==> !IsHeader(key, lines[k])
  {
    hide IsTopLevel, KeyLine, Matching;
    FoundSection(lines, sections, key, s);
    forall k | 0 <= k < |lines| && IsHeader(key, lines[k])
      ensures k == s.start
    {
      var m :| 0 <= m < |sections| && sections[m].start == k;
      assert sections[m] in sections;
    }
  }

  // ---------- what becomes of a section ----------

  /** A section that nothing is inserted into, and none of whose lines is replaced. */
  lemma SectionKept(lines: seq<string>, sections: seq<Section>, plan: Plan, a: Block, b: Block, touched: Option<Touched>, key: string)
    requires IsShape(lines, sections, plan, a, b, touched) && ReadSection(key, lines).Some?
    requires key != a.owner && key != b.owner && TouchedIn(touched, key) == None
    requires AllHeaders(Edited(lines, plan.insertions, Replaced(plan)))
    ensures ReadSection(key, Edited(lines, plan.insertions, Replaced(plan))) == ReadSection(key, lines)
  {
    var ins, rep := plan.insertions, Replaced(plan);
    hide IsDocument, IsTopLevel, KeyLine, IsBlock, Replaced, Matching, FindSection, IsBlockValue, Content, Values, Rest, AllHeaders, Extra,
         IsInStep, OnlyReplaces;
    ShapeInStep(lines, sections, plan, a, b, touched, key);
    forall k | 0 <= k <= |lines|
      ensures Extra(key, lines, ins, k) == []
    {
      ShapeExtra(lines, sections, plan, a, b, touched, key, k);
    }
    EditedIsContent(key, lines, ins, rep, 0);
    Untouched(key, lines, ins, rep, None, 0);
    RestAll(key, lines);
    SomeSection(lines, sections, key);
    if FindSection(sections, key).value.Some? {
      var s := FindSection(sections, key).value.value;
      ValuesKept(lines, sections, plan, a, b, touched, key, s);
    } else {
      NoneRead(lines, sections, key);
      forall k | 0 <= k <= |lines|
        ensures Values(key, InsertedAt(ins, k)) == []
      {
        ShapeValues(lines, sections, plan, a, b, touched, key, k);
      }
      EditedAreValues(key, lines, ins, rep, 0);
      HeaderComes(key, lines, ins, rep, 0, 0);
    }
  }

  lemma RestAll(key: string, lines: seq<string>)
    ensures Rest(key, lines, 0) == Content(key, false, lines) && lines[..0] == []
  {
    assert lines[0..] == lines;
  }

  /** A section that can be read is there at most once, and written as a block. */
  lemma SomeSection(lines: seq<string>, sections: seq<Section>, key: string)
    requires IsDocument(lines, sections) && ReadSection(key, lines).Some?
    ensures FindSection(sections, key).Some?
    ensures FindSection(sections, key).value.Some? ==> IsBlockValue(FindSection(sections, key).value.value.value)
  {
    hide IsDocument, FindSection, IsBlockValue, Content, Values, AllHeaders;
    if FindSection(sections, key) == None {
      TwiceRead(lines, sections, key);
    } else if FindSection(sections, key).value.Some? {
      OneRead(lines, sections, key, FindSection(sections, key).value.value);
    }
  }

  /** A block within a section comes into its content in that place. */
  lemma SectionInserted(lines: seq<string>, sections: seq<Section>, plan: Plan, a: Block, b: Block, touched: Option<Touched>, x: Block, s: Section)
    requires IsShape(lines, sections, plan, a, b, touched) && (x == a || x == b) && AllInner(x.lines)
    requires FindSection(sections, x.owner) == Some(Some(s)) && IsBlockValue(s.value) && s.start < x.at <= s.end <= |lines|
    requires OnlyReplaces(x.owner, lines, Replaced(plan), None)
    requires AllHeaders(Edited(lines, plan.insertions, Replaced(plan)))
    ensures ReadSection(x.owner, Edited(lines, plan.insertions, Replaced(plan)))
      == Some(Bodies(lines[s.start + 1..x.at]) + (Added(x) + Bodies(lines[x.at..s.end])))
  {
    var key, ins, rep := x.owner, plan.insertions, Replaced(plan);
    hide IsDocument, IsTopLevel, KeyLine, IsBlock, Replaced, Matching, FindSection, IsBlockValue, Content, Values, Rest, AllHeaders, Extra,
         IsInStep, OnlyReplaces, Added, Bodies;
    ShapeInStep(lines, sections, plan, a, b, touched, key);
    forall k | 0 <= k <= |lines|
      ensures Extra(key, lines, ins, k) == AddedAt(x, key, k)
    {
      ShapeExtra(lines, sections, plan, a, b, touched, key, k);
    }
    OneInsertion(key, lines, ins, rep, x.at);
    ContentUpTo(lines, sections, key, s, x.at);
    RestIn(lines, sections, key, s, x.at);
    ValuesKept(lines, sections, plan, a, b, touched, key, s);
  }

  /** A block at the end of the content of a section comes behind that content. */
  lemma SectionGrown(lines: seq<string>, sections: seq<Section>, plan: Plan, a: Block, b: Block, touched: Option<Touched>, x: Block, s: Section)
    requires IsShape(lines, sections, plan, a, b, touched) && (x == a || x == b) && AllInner(x.lines)
    requires FindSection(sections, x.owner) == Some(Some(s)) && IsBlockValue(s.value) && IsContentEnd(lines, s.start, s.end, x.at)
    requires TouchedIn(touched, x.owner) == None
    requires AllHeaders(Edited(lines, plan.insertions, Replaced(plan)))
    ensures s.start < s.end <= |lines|
    ensures ReadSection(x.owner, Edited(lines, plan.insertions, Replaced(plan))) == Some(Bodies(lines[s.start + 1..s.end]) + Added(x))
  {
    hide IsDocument, IsTopLevel, KeyLine, IsBlock, Replaced, Matching, FindSection, IsBlockValue, AllHeaders, IsInStep, OnlyReplaces,
         Added, Bodies, ReadSection, IsBlank;
    ShapeInStep(lines, sections, plan, a, b, touched, x.owner);
    SectionInserted(lines, sections, plan, a, b, touched, x, s);
    BlankBodies(lines[x.at..s.end]);
    assert lines[s.start + 1..s.end] == lines[s.start + 1..x.at] + lines[x.at..s.end];
    BodiesAppend(lines[s.start + 1..x.at], lines[x.at..s.end]);
    var before := Bodies(lines[s.start + 1..x.at]);
    assert before + [] == before && Added(x) + [] == Added(x);
  }

  /** The rest of the content of a section. */
  lemma RestIn(lines: seq<string>, sections: seq<Section>, key: string, s: Section, at: nat)
    requires IsDocument(lines, sections) && FindSection(sections, key) == Some(Some(s)) && s.start < at <= s.end <= |lines|
    ensures Rest(key, lines, at) == Bodies(lines[at..s.end])
  {
    hide IsDocument, IsTopLevel, KeyLine, FindSection, Matching, IsHeader, IsBlank, IsBody;
    FoundSection(lines, sections, key, s);
    OneRead(lines, sections, key, s);
    StateAt(lines, sections, s, at, key);
    var k :| 0 <= k < |sections| && sections[k] == s;
    SectionLines(lines, sections, k);
    var inner, rest := lines[at..s.end], lines[s.end..];
    assert lines[at..] == inner + rest;
    ContentAppend(key, true, inner, rest);
    InnerContent(key, true, inner);
    if rest != [] {
      HeadedContent(key, true, rest);
    }
  }

  /** The content of a section in front of one of its lines. */
  lemma ContentUpTo(lines: seq<string>, sections: seq<Section>, key: string, s: Section, q: nat)
    requires IsDocument(lines, sections) && FindSection(sections, key) == Some(Some(s)) && s.start < q <= s.end <= |lines|
    ensures Content(key, false, lines[..q]) == Bodies(lines[s.start + 1..q])
  {
    hide IsDocument, IsTopLevel, KeyLine, FindSection, Matching, IsHeader, IsBlank, IsBody, Content, Bodies;
    OneRead(lines, sections, key, s);
    RestIn(lines, sections, key, s, q);
    RestSplit(key, lines, q);
    assert lines[s.start + 1..s.end] == lines[s.start + 1..q] + lines[q..s.end];
    BodiesAppend(lines[s.start + 1..q], lines[q..s.end]);
    SameTail(Content(key, false, lines[..q]), Bodies(lines[s.start + 1..q]), Bodies(lines[q..s.end]));
  }

  lemma SameTail<T>(a: seq<T>, b: seq<T>, c: seq<T>)
    requires a + c == b + c
    ensures a == b
  {
    assert |a| == |b|;
    assert a == (a + c)[..|a|] && b == (b + c)[..|b|];
  }

  lemma {:induction false} BlankBodies(lines: seq<string>)
    requires forall k :: 0 <= k < |lines| ==> IsBlank(lines[k])
    ensures Bodies(lines) == []
  {
    hide IsBlank;
    if lines != [] {
      BlankBodies(lines[1..]);
    }
  }

  /** A section that comes with its block has just that content. */
  lemma SectionCome(lines: seq<string>, sections: seq<Section>, plan: Plan, a: Block, b: Block, touched: Option<Touched>, x: Block)
    requires IsShape(lines, sections, plan, a, b, touched) && (x == a || x == b) && IsSectionBlock(lines, x)
    requires FindSection(sections, x.owner) == Some(None)
    requires AllHeaders(Edited(lines, plan.insertions, Replaced(plan)))
    ensures ReadSection(x.owner, Edited(lines, plan.insertions, Replaced(plan))) == Some(Added(x))
  {
    var key, ins, rep := x.owner, plan.insertions, Replaced(plan);
    hide IsDocument, IsTopLevel, KeyLine, IsBlock, Replaced, Matching, FindSection, Content, Values, Rest, AllHeaders, Extra,
         IsInStep, Added, Bodies, IsReplacement, After;
    ShapeInStep(lines, sections, plan, a, b, touched, key);
    NoneRead(lines, sections, key);
    NeverInside(key, lines, rep);
    forall k | 0 <= k <= |lines|
      ensures Extra(key, lines, ins, k) == AddedAt(x, key, k)
      ensures Values(key, InsertedAt(ins, k)) == ValuesAt(x, key, k)
    {
      ShapeExtra(lines, sections, plan, a, b, touched, key, k);
      ShapeValues(lines, sections, plan, a, b, touched, key, k);
    }
    ReplacesOutside(lines, sections, plan, a, b, touched, key);
    OneInsertion(key, lines, ins, rep, x.at);
    RestSplit(key, lines, x.at);
    EditedAreValues(key, lines, ins, rep, 0);
    HeaderComes(key, lines, ins, rep, 0, x.at);
    NoContent(key, lines);
    assert [] + (Added(x) + []) == Added(x);
  }

  lemma NoContent(key: string, lines: seq<string>)
    requires NoHeader(key, lines)
    ensures Content(key, false, lines) == []
  {
    OtherContent(key, lines);
  }

  lemma NeverInside(key: string, lines: seq<string>, rep: map<nat, string>)
    requires NoHeader(key, lines)
    ensures forall k :: 0 <= k <= |lines| ==> !After(key, false, lines[..k])
  {
    hide IsHeader, After;
    forall k | 0 <= k <= |lines|
      ensures !After(key, false, lines[..k])
    {
      OtherContent(key, lines[..k]);
    }
  }

  lemma ReplacesOutside(lines: seq<string>, sections: seq<Section>, plan: Plan, a: Block, b: Block, touched: Option<Touched>, key: string)
    requires IsShape(lines, sections, plan, a, b, touched) && NoHeader(key, lines)
    ensures OnlyReplaces(key, lines, Replaced(plan), None)
  {
    hide IsTopLevel, IsHeader, After, IsBlock, IsReplacement, Replaced;
    NeverInside(key, lines, Replaced(plan));
    ShapeInStep(lines, sections, plan, a, b, touched, key);
  }
}
