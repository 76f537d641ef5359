/** The edits a merge collects, and why reading the proxy names of the edited file gives the names of the
    original followed by the new ones. */
module MergePlan {
  import opened Wrappers
  import opened Text
  import opened YamlText
  import opened YamlDocument
  import opened YamlEmit
  import opened LineEdits
  import opened ProxyNames
  import opened MergedNames

  /** Insertions and replacements by original line number, as they are collected. */
  datatype Plan = Plan(insertions: map<nat, seq<string>>, replacements: seq<Edit>)

  function Insert(plan: Plan, at: nat, block: seq<string>): Plan {
    plan.(insertions := plan.insertions[at := InsertedAt(plan.insertions, at) + block])
  }

  function Replace(plan: Plan, at: nat, line: string): Plan {
    plan.(replacements := plan.replacements + [Edit(at, [line], 1)])
  }

  /** The replaced lines, by position. */
  function Replaced(plan: Plan): map<nat, string> {
    Replacements(plan.replacements)
  }

  lemma ReplacedNext(plan: Plan, at: nat, line: string)
    ensures Replaced(Replace(plan, at, line)) == Replaced(plan)[at := line]
  {
    var s := Replace(plan, at, line).replacements;
    assert s[..|s| - 1] == plan.replacements;
  }

  /** Insertions in front of a line or at the end, and at most one replacement of each line. */
  ghost predicate IsPlan(plan: Plan, n: nat) {
    && (forall q :: q in plan.insertions ==> q <= n)
    && (forall e :: e in plan.replacements ==> e.count == 1 && InRange(e, n))
    && (forall i, j :: 0 <= i < j < |plan.replacements| ==> plan.replacements[i].at != plan.replacements[j].at)
  }

  lemma {:induction false} ReplacedFrom(s: seq<Edit>, a: nat)
    requires exists e :: e in s && e.at == a && e.count == 1 && |e.lines| == 1
    ensures a in Replacements(s)
  {
    var e :| e in s && e.at == a && e.count == 1 && |e.lines| == 1;
    if s[|s| - 1] != e {
      ReplacedFrom(s[..|s| - 1], a);
    }
  }

  lemma ReplacePlan(plan: Plan, n: nat, at: nat, line: string)
    requires IsPlan(plan, n) && at < n && at !in Replaced(plan)
    ensures IsPlan(Replace(plan, at, line), n)
  {
    forall i | 0 <= i < |plan.replacements|
      ensures plan.replacements[i].at != at
    {
      if plan.replacements[i].at == at {
        assert plan.replacements[i] in plan.replacements;
        ReplacedFrom(plan.replacements, at);
      }
    }
  }

  // ---------- where the proxies go ----------

  /** The section of the proxies, if there is one; the position p of the new ones; the end e of their
      section; and what is inserted at p for them. */
  datatype Layout = Layout(section: Option<Section>, p: nat, e: nat, main: seq<string>)

  ghost predicate IsLayout(lines: seq<string>, sections: seq<Section>, L: Layout) {
    && FindSection(sections, "proxies") == Some(L.section)
    && L.p <= L.e <= |lines|
    && (forall k :: L.p <= k < L.e ==> IsBlank(lines[k]))
    && (L.e < |lines| ==> IsTopLevel(lines[L.e]))
    && (L.section.Some? ==> L.section.value.start < L.p && L.e == L.section.value.end)
    && (L.section == None ==> L.p == L.e)
  }

  /** Lines below this one precede the content of the section. */
  function Low(L: Layout): nat {
    if L.section.Some? then L.section.value.start + 1 else L.p
  }

  ghost predicate SafeInsertion(L: Layout, q: nat, block: seq<string>) {
    if q == L.p then
      && |L.main| <= |block| && block[..|L.main|] == L.main && IsForeign(block[|L.main|..])
      && (|block| == |L.main| || (L.e == L.p && (IsHeaded(block[|L.main|..]) || (L.main == [] && L.section == None))))
    else
      IsForeign(block) && (q < Low(L) || (q >= L.e && (q == L.e ==> IsHeaded(block))))
  }

  ghost predicate SafeReplacement(L: Layout, a: nat, line: string) {
    || (a < Low(L) && IsOther(line) && (L.section.Some? ==> a != L.section.value.start))
    || (L.section.Some? && a == L.section.value.start && IsTopLevel(line) && KeyLine(line) == Some(("proxies", "")))
    || (a >= L.e && IsOther(line) && (a == L.e ==> IsTopLevel(line)))
  }

  /** Nothing in the plan disturbs the reading of the proxies; all of its lines are single lines. */
  ghost predicate IsSafe(L: Layout, plan: Plan) {
    && (L.p in plan.insertions || L.main == [])
    && (forall q :: q in plan.insertions ==> SafeInsertion(L, q, plan.insertions[q]) && IsClean(plan.insertions[q]))
    && (forall a :: a in Replaced(plan) ==> SafeReplacement(L, a, Replaced(plan)[a]) && NoReturn(Replaced(plan)[a]))
  }

  ghost predicate IsClean(lines: seq<string>) {
    forall k :: 0 <= k < |lines| ==> NoReturn(lines[k])
  }

  // ---------- adding to a plan ----------

  lemma ForeignAppend(a: seq<string>, b: seq<string>)
    requires IsForeign(a) && IsForeign(b)
    ensures IsForeign(a + b)
  {
  }

  lemma SafeInsert(L: Layout, plan: Plan, q: nat, block: seq<string>)
    requires IsSafe(L, plan) && IsForeign(block) && IsClean(block)
    requires L.section.Some? ==> L.section.value.start < L.p <= L.e
    requires L.section == None ==> L.p == L.e
    requires q < Low(L) || q > L.e || (q == L.e && IsHeaded(block)) || (q == L.e == L.p && L.main == [] && L.section == None)
    ensures IsSafe(L, Insert(plan, q, block))
  {
    hide IsOther, SafeReplacement, IsTopLevel, NoReturn;
    var before := InsertedAt(plan.insertions, q);
    var after := before + block;
    assert IsClean(after);
    if q == L.p {
      assert |L.main| <= |before|;
      assert after[..|L.main|] == before[..|L.main|] == L.main;
      assert after[|L.main|..] == before[|L.main|..] + block;
      var rest := before[|L.main|..];
      ForeignAppend(rest, block);
      assert rest != [] ==> (rest + block)[0] == rest[0];
      assert rest == [] ==> rest + block == block;
      assert block == [] ==> rest + block == rest;
    } else {
      ForeignAppend(before, block);
      assert q == L.e ==> IsHeaded(after);
    }
    assert SafeInsertion(L, q, after);
    var plan' := Insert(plan, q, block);
    assert Replaced(plan') == Replaced(plan);
    forall k | k in plan'.insertions
      ensures SafeInsertion(L, k, plan'.insertions[k]) && IsClean(plan'.insertions[k])
    {
      assert k != q ==> k in plan.insertions;
    }
  }

  lemma SafeReplace(L: Layout, plan: Plan, a: nat, line: string)
    requires IsSafe(L, plan) && SafeReplacement(L, a, line) && NoReturn(line)
    ensures IsSafe(L, Replace(plan, a, line))
  {
    hide SafeReplacement, SafeInsertion, NoReturn, IsClean, Replaced;
    ReplacedNext(plan, a, line);
    var plan' := Replace(plan, a, line);
    forall b | b in Replaced(plan')
      ensures SafeReplacement(L, b, Replaced(plan')[b]) && NoReturn(Replaced(plan')[b])
    {
      assert b != a ==> b in Replaced(plan);
    }
  }

  // ---------- reading the edited file ----------

  lemma SafeBefore(L: Layout, plan: Plan, m: nat)
    requires IsSafe(L, plan) && (if L.section.Some? then m == L.section.value.start < L.p <= L.e else m == L.p == L.e)
    ensures OtherBefore(plan.insertions, Replaced(plan), m)
    ensures L.section.Some? && m in plan.insertions ==> IsForeign(plan.insertions[m])
    ensures L.section.Some? && m in Replaced(plan) ==>
      IsTopLevel(Replaced(plan)[m]) && KeyLine(Replaced(plan)[m]) == Some(("proxies", ""))
    ensures L.section.Some? ==> forall k :: m + 1 <= k < L.p ==> k !in plan.insertions && k !in Replaced(plan)
  {
    hide IsOther, IsTopLevel, KeyLine, Replaced, NoReturn, IsClean, IsForeign;
  }

  lemma SafeAfter(lines: seq<string>, L: Layout, plan: Plan)
    requires IsSafe(L, plan) && L.p <= L.e <= |lines|
    requires if L.section.Some? then L.section.value.start < L.p else L.p == L.e
    requires forall k :: L.p <= k < L.e ==> IsBlank(lines[k])
    requires L.e < |lines| ==> IsTopLevel(lines[L.e])
    requires OtherLines(lines, L.e, |lines|)
    ensures OtherAfter(lines, plan.insertions, Replaced(plan), L.p, L.e)
  {
    hide IsOther, IsTopLevel, KeyLine, Replaced, NoReturn, IsClean, IsForeign, OtherLines, IsBlank;
  }

  /** The header of the section reads the same, replaced or not. */
  lemma HeaderStep(line: string, value: string, other: string)
    requires IsTopLevel(line) && KeyLine(line) == Some(("proxies", value)) && IsBlockValue(value)
    requires other == line || (IsTopLevel(other) && KeyLine(other) == Some(("proxies", "")))
    ensures Step(START, other) == Step(START, line) == Reading(InProxies(None), true, [])
  {
    hide IsTopLevel, KeyLine;
  }

  /** Up to p, the edited file reads like the original. */
  lemma ReadsUpTo(lines: seq<string>, sections: seq<Section>, L: Layout, plan: Plan)
    requires IsDocument(lines, sections) && IsLayout(lines, sections, L) && IsSafe(L, plan)
    requires L.section.Some? ==> IsBlockValue(L.section.value.value)
    ensures Run(START, EditedTo(lines, plan.insertions, Replaced(plan), L.p)) == Run(START, lines[..L.p])
  {
    hide IsSafe, IsDocument, IsTopLevel, KeyLine, Run, IsOther, OtherLines, OtherBefore, Inner, Replaced, IsForeign, Step;
    var ins, rep := plan.insertions, Replaced(plan);
    if L.section == None {
      NoSection(lines, sections);
      NoSectionOther(lines, sections);
      OtherLinesPart(lines, L.p);
      SafeBefore(L, plan, L.p);
      EditedBefore(lines, ins, rep, L.p, L.p);
    } else {
      var s := L.section.value;
      OneSection(lines, sections, s);
      SafeBefore(L, plan, s.start);
      EditedBefore(lines, ins, rep, s.start, s.start);
      EditedNext(lines, ins, rep, s.start);
      EmptyForeign();
      RunForeign(START, InsertedAt(ins, s.start));
      HeaderStep(lines[s.start], s.value, LineAt(lines, rep, s.start));
      RunNext(lines, s.start);
      EditedNowhere(lines, ins, rep, s.start + 1, L.p);
    }
  }

  lemma EmptyForeign()
    ensures IsForeign([])
  {
  }

  lemma NoSectionOther(lines: seq<string>, sections: seq<Section>)
    requires IsDocument(lines, sections) && FindSection(sections, "proxies") == Some(None)
    ensures OtherLines(lines, 0, |lines|)
  {
    MatchingMembers(sections, "proxies");
    OtherSections(lines, sections, 0, |lines|);
  }

  lemma OtherLinesPart(lines: seq<string>, p: nat)
    requires p <= |lines| && OtherLines(lines, 0, |lines|)
    ensures OtherLines(lines, 0, p) && OtherLines(lines, p, |lines|)
  {
  }

  /** Reading the edited file is reading the original up to p, and then what was inserted there. */
  lemma SafeNames(lines: seq<string>, sections: seq<Section>, L: Layout, plan: Plan)
    requires IsDocument(lines, sections) && IsLayout(lines, sections, L) && IsSafe(L, plan)
    requires L.section.Some? ==> IsBlockValue(L.section.value.value)
    ensures var r := Run(Run(START, lines[..L.p]), L.main);
      NamesOf(Edited(lines, plan.insertions, Replaced(plan))) == if r.Reading? then Some(r.names) else None
  {
    hide IsDocument, IsTopLevel, KeyLine, Run, IsOther, OtherLines, Inner, Replaced, IsForeign, Step, IsBlank;
    ReadsUpTo(lines, sections, L, plan);
    if L.section == None {
      NoSectionOther(lines, sections);
      NoSection(lines, sections);
      OtherLinesPart(lines, L.p);
    } else {
      OneSection(lines, sections, L.section.value);
    }
    SafeAfter(lines, L, plan);
    var at := Run(START, lines[..L.p]);
    var block := InsertedAt(plan.insertions, L.p);
    EmptyForeign();
    RunBlock(L, at, block);
    EditedNames(lines, plan.insertions, Replaced(plan), L.p, L.e, Run(at, block));
  }

  lemma RunBlock(L: Layout, at: Reading, block: seq<string>)
    requires SafeInsertion(L, L.p, block) || (block == [] && L.main == [])
    requires L.section == None ==> at == START
    ensures var r := Run(at, L.main);
      && (r.Reading? <==> Run(at, block).Reading?) && (r.Reading? ==> Run(at, block).names == r.names)
  {
    hide Run, IsOther, IsTopLevel;
    var r := Run(at, L.main);
    if |block| > |L.main| {
      var rest := block[|L.main|..];
      assert block == L.main + rest;
      RunAppend(at, L.main, rest);
      if r.Unreadable? {
        RunUnreadable(rest);
      } else if IsHeaded(rest) {
        RunHeaded(r, rest);
      } else {
        RunNothing(at);
        RunForeign(r, rest);
      }
    } else {
      assert block == L.main;
    }
  }

  lemma RunNothing(r: Reading)
    ensures Run(r, []) == r
  {
  }

  /** The reading at p holds all the names there are. */
  lemma NamesAt(lines: seq<string>, sections: seq<Section>, L: Layout)
    requires IsDocument(lines, sections) && IsLayout(lines, sections, L) && NamesOf(lines).Some?
    ensures var r := Run(START, lines[..L.p]); r.Reading? && r.names == NamesOf(lines).value
    ensures L.section.Some? ==> IsBlockValue(L.section.value.value)
    ensures L.section == None ==> Run(START, lines[..L.p]) == START
  {
    hide IsDocument, IsTopLevel, KeyLine, Run, OtherLines, Step, IsBlank, IsBody;
    assert lines[..|lines|] == lines;
    if Run(START, lines[..L.p]).Unreadable? {
      StaysUnreadable(lines, L.p, |lines|);
    }
    if L.section == None {
      NoSection(lines, sections);
    } else {
      var s := L.section.value;
      OneSection(lines, sections, s);
      Entered(lines, s);
      if !IsBlockValue(s.value) {
        StaysUnreadable(lines, s.start + 1, |lines|);
      }
      BlankNoBody(lines, L.p, L.e);
      RunBlank(lines, L.p, L.e, L.e);
      if L.e < |lines| {
        AfterSection(lines, L.e, |lines|);
      }
    }
  }

  lemma BlankNoBody(lines: seq<string>, p: nat, e: nat)
    requires p <= e <= |lines| && forall k :: p <= k < e ==> IsBlank(lines[k])
    ensures NoBody(lines, p, e)
  {
    hide IsBlank;
  }

  /** What is inserted for new proxies: a list with the indentation of the section, or a section. */
  ghost predicate IsMain(L: Layout, proxies: seq<Proxy>, indent: nat) {
    && indent > 0
    && L.main == if L.section.Some? then ListLines(proxies, indent) else ["proxies:"] + ListLines(proxies, indent) + [""]
  }

  /** Reading the merged file gives the old names and then the new ones, if these are readable; and an
      error otherwise. */
  lemma LinkNames(lines: seq<string>, sections: seq<Section>, L: Layout, plan: Plan, proxies: seq<Proxy>, indent: nat)
    requires IsDocument(lines, sections) && IsLayout(lines, sections, L) && IsSafe(L, plan)
    requires NamesOf(lines).Some? && IsMain(L, proxies, indent) && AllWellFormed(proxies) && L.p <= |lines|
    requires L.section.Some? ==>
      Run(START, lines[..L.p]).Reading? && Run(START, lines[..L.p]).inside in {InProxies(None), InProxies(Some(indent))}
    ensures NamesOf(Edited(lines, plan.insertions, Replaced(plan))) ==
      if AllReadable(ProxyNamesOf(proxies)) then Some(NamesOf(lines).value + ProxyNamesOf(proxies)) else None
  {
    hide IsDocument, IsLayout, IsSafe, Run, Step, Edited, ListLines, NamesOf, Replaced;
    SafeNamesOf(lines, sections, L, plan);
    var at := Run(START, lines[..L.p]);
    if L.section.Some? {
      RunList(at, proxies, indent);
    } else {
      RunNewSection(proxies, indent);
      assert at.names + ProxyNamesOf(proxies) == ProxyNamesOf(proxies);
    }
  }

  lemma SafeNamesOf(lines: seq<string>, sections: seq<Section>, L: Layout, plan: Plan)
    requires IsDocument(lines, sections) && IsLayout(lines, sections, L) && IsSafe(L, plan) && NamesOf(lines).Some?
    ensures var r := Run(Run(START, lines[..L.p]), L.main);
      NamesOf(Edited(lines, plan.insertions, Replaced(plan))) == if r.Reading? then Some(r.names) else None
    ensures var r := Run(START, lines[..L.p]); r.Reading? && r.names == NamesOf(lines).value
    ensures L.section == None ==> Run(START, lines[..L.p]) == START
  {
    hide *;
    NamesAt(lines, sections, L);
    SafeNames(lines, sections, L, plan);
  }

  lemma RunNewSection(proxies: seq<Proxy>, indent: nat)
    requires indent > 0 && AllWellFormed(proxies)
    ensures Run(START, ["proxies:"] + ListLines(proxies, indent) + [""]) ==
      if !AllReadable(ProxyNamesOf(proxies)) then Unreadable
      else Reading(if proxies == [] then InProxies(None) else InProxies(Some(indent)), true, ProxyNamesOf(proxies))
  {
    var head, list := ["proxies:"], ListLines(proxies, indent);
    RunOne(START, "proxies:");
    HeaderLine();
    hide Run, ListLines, IsReadable, Step;
    RunAppend(START, head, list);
    var r := Reading(InProxies(None), true, []);
    RunList(r, proxies, indent);
    assert r.names + ProxyNamesOf(proxies) == ProxyNamesOf(proxies);
    RunAppend(START, head + list, [""]);
    RunOne(Run(START, head + list), "");
    if AllReadable(ProxyNamesOf(proxies)) {
      BlankStep(Run(START, head + list), "");
    } else {
      RunUnreadable([""]);
    }
  }

  lemma HeaderLine()
    ensures IsTopLevel("proxies:") && KeyLine("proxies:") == Some(("proxies", ""))
    ensures Step(START, "proxies:") == Reading(InProxies(None), true, [])
  {
    KeyHeader("proxies");
    assert "proxies" + ":" == "proxies:";
  }

  lemma {:induction false} KeyLengthAll(key: string, rest: string)
    requires forall k :: 0 <= k < |key| ==> KeyChar(key[k])
    requires rest == "" || !KeyChar(rest[0])
    ensures KeyLength(key + rest) == |key|
  {
    if key != "" {
      assert (key + rest)[1..] == key[1..] + rest;
      KeyLengthAll(key[1..], rest);
    } else {
      assert key + rest == rest;
    }
  }

  lemma KeyHeader(key: string)
    requires key != "" && IsLetter(key[0]) && forall k :: 0 <= k < |key| ==> KeyChar(key[k])
    ensures IsTopLevel(key + ":") && KeyLine(key + ":") == Some((key, "")) && NoReturn(key + ":")
  {
    var line := key + ":";
    KeyLengthAll(key, ":");
    assert line[|key| + 1..] == "" && line[..|key|] == key;
    IndentIs(line, 0);
  }

  // ---------- edits in and around other sections ----------

  lemma Apart(lines: seq<string>, sections: seq<Section>, s: Section, t: Section)
    requires IsDocument(lines, sections) && s in sections && t in sections && s != t
    ensures s.end <= t.start || t.end <= s.start
  {
    hide IsTopLevel, KeyLine;
    var j :| 0 <= j < |sections| && sections[j] == s;
    var k :| 0 <= k < |sections| && sections[k] == t;
    if j < k {
      SectionsAscend(lines, sections, j, k);
    } else {
      SectionsAscend(lines, sections, k, j);
    }
  }

  lemma SectionShape(lines: seq<string>, sections: seq<Section>, s: Section)
    requires IsDocument(lines, sections) && s in sections
    ensures s.start < s.end <= |lines| && Inner(lines, s.start + 1, s.end)
    ensures IsTopLevel(lines[s.start]) && KeyLine(lines[s.start]) == Some((s.key, s.value))
  {
    var k :| 0 <= k < |sections| && sections[k] == s;
    SectionLines(lines, sections, k);
  }

  /** Where a section other than that of the proxies lies. */
  lemma OtherSection(lines: seq<string>, sections: seq<Section>, L: Layout, s: Section)
    requires IsDocument(lines, sections) && IsLayout(lines, sections, L) && s in sections && s.key != "proxies"
    ensures L.section.Some? ==> s.end <= L.section.value.start || L.e <= s.start
    ensures s.start < s.end <= |lines|
    ensures L.e < |lines| ==> !(s.start < L.e < s.end)
  {
    hide IsTopLevel, KeyLine;
    SectionShape(lines, sections, s);
    if L.section.Some? {
      MatchingMembers(sections, "proxies");
      var t := L.section.value;
      assert t in Matching(sections, "proxies");
      Apart(lines, sections, s, t);
    }
  }

  /** New lines inside another section are safe, and in front of the one that follows it. */
  lemma InsertWithin(lines: seq<string>, sections: seq<Section>, L: Layout, plan: Plan, s: Section, q: nat, block: seq<string>)
    requires IsDocument(lines, sections) && IsLayout(lines, sections, L) && IsSafe(L, plan)
    requires s in sections && s.key != "proxies" && s.start < q <= s.end
    requires L.section == None ==> L.p <= s.start || (L.main == [] && L.p == |lines|)
    requires IsForeign(block) && IsClean(block)
    ensures IsSafe(L, Insert(plan, q, block))
  {
    hide IsDocument, IsTopLevel, KeyLine, IsSafe, IsForeign, IsClean;
    OtherSection(lines, sections, L, s);
    SafeInsert(L, plan, q, block);
  }

  /** So is a new section at the end or in front of another section. */
  lemma InsertHeaded(lines: seq<string>, sections: seq<Section>, L: Layout, plan: Plan, q: nat, block: seq<string>)
    requires IsDocument(lines, sections) && IsLayout(lines, sections, L) && IsSafe(L, plan)
    requires q == |lines| || exists s :: s in sections && s.key != "proxies" && s.start == q
    requires IsForeign(block) && IsClean(block) && IsHeaded(block)
    ensures IsSafe(L, Insert(plan, q, block))
  {
    hide IsDocument, IsTopLevel, KeyLine, IsSafe, IsForeign, IsClean, IsHeaded;
    if q < |lines| {
      var s :| s in sections && s.key != "proxies" && s.start == q;
      OtherSection(lines, sections, L, s);
      SafeInsert(L, plan, q, block);
    } else {
      SafeInsert(L, plan, q, block);
    }
  }

  lemma ReplaceWithin(lines: seq<string>, sections: seq<Section>, L: Layout, plan: Plan, s: Section, a: nat, line: string)
    requires IsDocument(lines, sections) && IsLayout(lines, sections, L) && IsSafe(L, plan)
    requires s in sections && s.key != "proxies" && s.start < a < s.end
    requires !IsTopLevel(line) && NoReturn(line)
    ensures IsSafe(L, Replace(plan, a, line))
  {
    hide IsDocument, IsTopLevel, KeyLine, IsSafe, NoReturn;
    OtherSection(lines, sections, L, s);
    SafeReplace(L, plan, a, line);
  }

  lemma ReplaceHeader(lines: seq<string>, sections: seq<Section>, L: Layout, plan: Plan, s: Section, line: string)
    requires IsDocument(lines, sections) && IsLayout(lines, sections, L) && IsSafe(L, plan)
    requires s in sections && s.key != "proxies"
    requires IsTopLevel(line) && IsOther(line) && NoReturn(line)
    ensures IsSafe(L, Replace(plan, s.start, line))
  {
    hide IsDocument, IsTopLevel, KeyLine, IsSafe, NoReturn, IsOther;
    OtherSection(lines, sections, L, s);
    SafeReplace(L, plan, s.start, line);
  }
}
