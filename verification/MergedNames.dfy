/** Reading the proxy names of an edited configuration: the names of the original, then the new ones. */
module MergedNames {
  import opened Wrappers
  import opened Text
  import opened YamlText
  import opened YamlDocument
  import opened YamlEmit
  import opened LineEdits
  import opened ProxyNames

  // ---------- single lines ----------

  /** Names that come back from a quoted name line: nothing in them looks like a comment, and no line
      or paragraph separator cuts the line. */
  predicate IsReadable(name: string) {
    !LooksCommented(name) && NoRawBreak(name)
  }

  ghost predicate AllReadable(names: seq<string>) {
    forall k :: 0 <= k < |names| ==> IsReadable(names[k])
  }

  lemma NameLineParts(name: string, indent: nat)
    ensures ItemIndent(NameLine(name, indent)) == Some(indent)
    ensures Indent(NameLine(name, indent)) == indent && NameLine(name, indent)[indent] == '-'
    ensures ItemText(NameLine(name, indent)) == "name: " + Quote(name)
  {
    hide Quote;
    var line := NameLine(name, indent);
    assert line == Spaces(indent) + ("- name: " + Quote(name));
    IndentIs(line, indent);
    assert line[indent + 1..] == " name: " + Quote(name);
    IndentIs(" name: " + Quote(name), 1);
    assert (" name: " + Quote(name))[1..] == "name: " + Quote(name);
  }

  lemma QuoteCaptured(name: string)
    ensures IsCaptured(" " + Quote(name)) == NoRawBreak(name)
  {
    var q := Quote(name);
    assert q == "\"" + Quotable(name);
    IndentIs(" " + q, 1);
    assert (" " + q)[1..] == q;
    QuotableBreaks(name);
    assert NoBreak(q) == NoBreak(Quotable(name)) by {
      assert forall k :: 0 <= k < |Quotable(name)| ==> q[k + 1] == Quotable(name)[k];
    }
  }

  /** A name line gives its name back exactly when the name is readable. */
  lemma NameLineName(name: string, indent: nat)
    ensures NameOf(NameLine(name, indent)) == if IsReadable(name) then Some(name) else None
  {
    NameLineParts(name, indent);
    QuoteCaptured(name);
    QuotedReadBack(name);
    hide Quote, ItemIndent, ItemText, YamlValue, IsCaptured, LooksCommented, NoRawBreak, NameLine;
    var t := "name: " + Quote(name);
    assert t[..5] == "name:" && t[5..] == " " + Quote(name);
  }

  /** A name that the merger writes and cannot read. */
  lemma CommentedName()
    ensures NameOf(NameLine("a #b", 2)) == None
  {
    hide NameOf, NameLine;
    var name := "a #b";
    assert name[1..] == " #b";
    assert LooksCommented(name[1..]);
    NameLineName(name, 2);
  }

  lemma DeepShape(line: string, indent: nat)
    requires IsDeep(line, indent) && indent > 0
    ensures !IsTopLevel(line) && IsOther(line)
    ensures ItemIndent(line).Some? ==> ItemIndent(line).value >= indent
  {
  }

  lemma NameLineShape(name: string, indent: nat)
    requires indent > 0
    ensures !IsTopLevel(NameLine(name, indent)) && IsBody(NameLine(name, indent))
  {
    NameLineParts(name, indent);
  }

  // ---------- a list of proxies ----------

  lemma {:induction false} RunDeep(r: Reading, lines: seq<string>, indent: nat)
    requires r.Reading? && r.inside == InProxies(Some(indent)) && indent > 0
    requires AllDeep(lines, indent + 2)
    ensures Run(r, lines) == r
  {
    hide IsDeep, IsTopLevel, IsBody, ItemIndent;
    if lines != [] {
      var n := |lines| - 1;
      RunDeep(r, lines[..n], indent);
      DeepShape(lines[n], indent + 2);
    }
  }

  lemma {:induction false} RunProxy(r: Reading, p: Proxy, indent: nat)
    requires r.Reading? && indent > 0 && WellFormed(p.fields)
    requires r.inside == InProxies(None) || r.inside == InProxies(Some(indent))
    ensures Run(r, ProxyLines(p, indent)) ==
      if IsReadable(p.name) then Reading(InProxies(Some(indent)), r.seen, r.names + [p.name]) else Unreadable
  {
    var head, rest := [NameLine(p.name, indent)], MappingLines(p.fields, indent + 2);
    NameLineParts(p.name, indent);
    NameLineShape(p.name, indent);
    NameLineName(p.name, indent);
    MappingDeep(p.fields, indent + 2);
    hide NameLine, MappingLines, IsTopLevel, IsBody, ItemIndent, ItemText, NameOf, AllDeep, Run, IsReadable, WellFormed;
    RunAppend(r, head, rest);
    RunOne(r, NameLine(p.name, indent));
    var named := Step(r, NameLine(p.name, indent));
    if IsReadable(p.name) {
      RunDeep(named, rest, indent);
    } else {
      RunUnreadable(rest);
    }
  }

  lemma {:induction false} RunUnreadable(lines: seq<string>)
    ensures Run(Unreadable, lines) == Unreadable
  {
    if lines != [] {
      RunUnreadable(lines[..|lines| - 1]);
    }
  }

  /** Reading an emitted list adds its names, in order. */
  lemma {:induction false} RunList(r: Reading, proxies: seq<Proxy>, indent: nat)
    requires r.Reading? && indent > 0 && AllWellFormed(proxies)
    requires r.inside == InProxies(None) || r.inside == InProxies(Some(indent))
    ensures Run(r, ListLines(proxies, indent)) ==
      if !AllReadable(ProxyNamesOf(proxies)) then Unreadable
      else Reading(if proxies == [] then r.inside else InProxies(Some(indent)), r.seen, r.names + ProxyNamesOf(proxies))
  {
    hide ProxyLines, WellFormed, IsReadable;
    if proxies == [] {
      assert r.names + ProxyNamesOf(proxies) == r.names;
    } else {
      var n := |proxies| - 1;
      var p := proxies[n];
      RunList(r, proxies[..n], indent);
      RunAppend(r, ListLines(proxies[..n], indent), ProxyLines(p, indent));
      assert ProxyNamesOf(proxies) == ProxyNamesOf(proxies[..n]) + [p.name];
      assert AllReadable(ProxyNamesOf(proxies)) <==> AllReadable(ProxyNamesOf(proxies[..n])) && IsReadable(p.name) by {
        if AllReadable(ProxyNamesOf(proxies)) {
          assert ProxyNamesOf(proxies)[n] == p.name;
          assert forall k :: 0 <= k < n ==> ProxyNamesOf(proxies[..n])[k] == ProxyNamesOf(proxies)[k];
        }
      }
      if AllReadable(ProxyNamesOf(proxies[..n])) {
        RunProxy(Run(r, ListLines(proxies[..n], indent)), p, indent);
        assert r.names + ProxyNamesOf(proxies[..n]) + [p.name] == r.names + ProxyNamesOf(proxies);
      } else {
        RunUnreadable(ProxyLines(p, indent));
      }
    }
  }

  // ---------- other blocks ----------

  ghost predicate IsForeign(block: seq<string>) {
    forall k :: 0 <= k < |block| ==> IsOther(block[k])
  }

  predicate IsHeaded(block: seq<string>) {
    block != [] && IsTopLevel(block[0])
  }

  lemma {:induction false} RunForeign(r: Reading, block: seq<string>)
    requires r.Reading? && r.inside == Outside && IsForeign(block)
    ensures Run(r, block) == r
  {
    hide IsTopLevel, KeyLine;
    if block != [] {
      RunForeign(r, block[..|block| - 1]);
      assert IsOther(block[|block| - 1]);
    }
  }

  lemma RunHeaded(r: Reading, block: seq<string>)
    requires r.Reading? && IsHeaded(block) && IsForeign(block)
    ensures Run(r, block) == r.(inside := Outside)
  {
    hide IsTopLevel, KeyLine;
    assert block == [block[0]] + block[1..] && IsOther(block[0]);
    RunAppend(r, [block[0]], block[1..]);
    RunOne(r, block[0]);
    RunForeign(r.(inside := Outside), block[1..]);
  }

  // ---------- the edited file, up to the proxies ----------

  lemma EditedNext(lines: seq<string>, ins: map<nat, seq<string>>, rep: map<nat, string>, i: nat)
    requires i < |lines|
    ensures Run(START, EditedTo(lines, ins, rep, i + 1))
         == Step(Run(Run(START, EditedTo(lines, ins, rep, i)), InsertedAt(ins, i)), LineAt(lines, rep, i))
  {
    var a, b, line := EditedTo(lines, ins, rep, i), InsertedAt(ins, i), LineAt(lines, rep, i);
    RunAppend(START, a + b, [line]);
    RunAppend(START, a, b);
    RunOne(Run(START, a + b), line);
  }

  lemma EditedEnd(lines: seq<string>, ins: map<nat, seq<string>>, rep: map<nat, string>)
    ensures Run(START, Edited(lines, ins, rep))
         == Run(Run(START, EditedTo(lines, ins, rep, |lines|)), InsertedAt(ins, |lines|))
  {
    PrefixUpTo(lines, ins, rep, |lines|);
    assert EditedFrom(lines, ins, rep, |lines|) == InsertedAt(ins, |lines|);
    RunAppend(START, EditedTo(lines, ins, rep, |lines|), InsertedAt(ins, |lines|));
  }

  /** In front of the proxies only other lines are inserted or replaced. */
  ghost predicate OtherBefore(ins: map<nat, seq<string>>, rep: map<nat, string>, m: nat) {
    && (forall q :: q in ins && q < m ==> IsForeign(ins[q]))
    && (forall a :: a in rep && a < m ==> IsOther(rep[a]))
  }

  lemma NothingYet(lines: seq<string>, ins: map<nat, seq<string>>, rep: map<nat, string>)
    ensures Run(START, EditedTo(lines, ins, rep, 0)) == START
  {
  }

  lemma {:induction false} EditedBefore(lines: seq<string>, ins: map<nat, seq<string>>, rep: map<nat, string>, m: nat, i: nat)
    requires i <= m <= |lines| && OtherLines(lines, 0, m) && OtherBefore(ins, rep, m)
    ensures Run(START, EditedTo(lines, ins, rep, i)) == START
  {
    hide IsOther, Step, EditedTo, Run;
    if i == 0 {
      NothingYet(lines, ins, rep);
    } else {
      EditedBefore(lines, ins, rep, m, i - 1);
      EditedNext(lines, ins, rep, i - 1);
      RunForeign(START, InsertedAt(ins, i - 1));
      OtherStep(START, LineAt(lines, rep, i - 1));
    }
  }

  lemma OtherStep(r: Reading, line: string)
    requires r.Reading? && IsOther(line)
    ensures r.inside == Outside ==> Step(r, line) == r
    ensures IsTopLevel(line) ==> Step(r, line) == r.(inside := Outside)
  {
  }

  lemma NothingRead(r: Reading)
    ensures Run(r, []) == r
  {
  }

  /** Where nothing is edited, the edited file reads as the original. */
  lemma {:induction false} EditedNowhere(lines: seq<string>, ins: map<nat, seq<string>>, rep: map<nat, string>, i: nat, j: nat)
    requires i <= j <= |lines|
    requires forall k :: i <= k < j ==> k !in ins && k !in rep
    requires Run(START, EditedTo(lines, ins, rep, i)) == Run(START, lines[..i])
    ensures Run(START, EditedTo(lines, ins, rep, j)) == Run(START, lines[..j])
  {
    hide Step, Run, EditedTo;
    if i < j {
      EditedNowhere(lines, ins, rep, i, j - 1);
      EditedNext(lines, ins, rep, j - 1);
      RunNext(lines, j - 1);
      NothingRead(Run(START, EditedTo(lines, ins, rep, j - 1)));
    }
  }

  // ---------- the edited file, from the new proxies on ----------

  /** From p on, where the new proxies are inserted: empty lines up to e, where the next section starts
      or the file ends; beyond, only other lines, before and after editing. */
  ghost predicate OtherAfter(lines: seq<string>, ins: map<nat, seq<string>>, rep: map<nat, string>, p: nat, e: nat) {
    && p <= e <= |lines|
    && (forall k :: p <= k < e ==> IsBlank(lines[k]))
    && OtherLines(lines, e, |lines|)
    && (e < |lines| ==> IsTopLevel(lines[e]))
    && (forall q :: q in ins && q > p ==> q >= e && IsForeign(ins[q]) && (q == e ==> IsHeaded(ins[q])))
    && (forall a :: a in rep && a >= p ==> a >= e && IsOther(rep[a]) && (a == e ==> IsTopLevel(rep[a])))
  }

  /** Having read the names, whatever follows p changes none of them. */
  lemma {:induction false} EditedAfter(lines: seq<string>, ins: map<nat, seq<string>>, rep: map<nat, string>,
                                       p: nat, e: nat, i: nat, r: Reading)
    requires OtherAfter(lines, ins, rep, p, e) && p < i <= |lines|
    requires r == Run(Run(START, EditedTo(lines, ins, rep, p)), InsertedAt(ins, p)) && r.Reading?
    ensures Run(START, EditedTo(lines, ins, rep, i)) == r.(inside := if i <= e then r.inside else Outside)
    decreases i
  {
    hide Run, IsOther, IsTopLevel, IsForeign, IsHeaded, IsBlank;
    var k := i - 1;
    EditedNext(lines, ins, rep, k);
    var line := LineAt(lines, rep, k);
    if k > p {
      EditedAfter(lines, ins, rep, p, e, k, r);
    }
    var before := if k == p then r else Run(START, EditedTo(lines, ins, rep, k));
    var mid := if k == p then r else Run(before, InsertedAt(ins, k));
    if k > p {
      AfterInserted(before, InsertedAt(ins, k), k < e, k == e);
    }
    if k < e {
      BlankStep(mid, line);
    } else {
      OtherStep(mid, line);
    }
  }

  lemma AfterInserted(r: Reading, block: seq<string>, early: bool, at: bool)
    requires r.Reading? && !(early && at)
    requires early ==> block == []
    requires at ==> block == [] || (IsForeign(block) && IsHeaded(block))
    requires !early && !at ==> r.inside == Outside && IsForeign(block)
    ensures Run(r, block) == r || (at && Run(r, block) == r.(inside := Outside))
  {
    if block == [] {
    } else if at {
      RunHeaded(r, block);
    } else {
      RunForeign(r, block);
    }
  }

  lemma BlankStep(r: Reading, line: string)
    requires r.Reading? && IsBlank(line)
    ensures Step(r, line) == r
  {
  }

  /** And at the end of the file. */
  lemma EditedNames(lines: seq<string>, ins: map<nat, seq<string>>, rep: map<nat, string>, p: nat, e: nat, r: Reading)
    requires OtherAfter(lines, ins, rep, p, e)
    requires r == Run(Run(START, EditedTo(lines, ins, rep, p)), InsertedAt(ins, p))
    ensures NamesOf(Edited(lines, ins, rep)) == if r.Reading? then Some(r.names) else None
  {
    hide Run, IsOther, IsTopLevel, IsForeign, IsHeaded, IsBlank;
    EditedEnd(lines, ins, rep);
    if r.Unreadable? {
      EditedUnreadable(lines, ins, rep, p);
    } else if p < |lines| {
      EditedAfter(lines, ins, rep, p, e, |lines|, r);
      AfterInserted(Run(START, EditedTo(lines, ins, rep, |lines|)), InsertedAt(ins, |lines|), false, |lines| == e);
    }
  }

  lemma EditedUnreadable(lines: seq<string>, ins: map<nat, seq<string>>, rep: map<nat, string>, p: nat)
    requires p <= |lines| && Run(Run(START, EditedTo(lines, ins, rep, p)), InsertedAt(ins, p)).Unreadable?
    ensures Run(START, Edited(lines, ins, rep)) == Unreadable
  {
    PrefixUpTo(lines, ins, rep, p);
    var a, b := EditedTo(lines, ins, rep, p), InsertedAt(ins, p);
    var rest := EditedFrom(lines, ins, rep, p)[|b|..];
    assert Edited(lines, ins, rep) == a + b + rest;
    RunAppend(START, a, b);
    RunAppend(START, a + b, rest);
    RunUnreadable(rest);
  }
}
