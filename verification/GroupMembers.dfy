/** The members of a group of proxies, read from its lines, and what becomes of them when names are added behind. */
module GroupMembers {
  import opened Wrappers
  import opened Text
  import opened YamlText
  import opened YamlDocument
  import opened YamlEmit
  import opened MergeRouting
  import opened FieldReading

  // ---------- a reader of members ----------

  /** The last line of an item that is a field of this indentation and key. */
  function LastFieldOf(part: seq<string>, indent: nat, key: string): (f: Option<nat>)
    ensures f.Some? ==> f.value < |part| && FieldValue(part[f.value], indent, key).Some?
  {
    if part == [] then None
    else
      var n := |part| - 1;
      if FieldValue(part[n], indent, key).Some? then Some(n) else LastFieldOf(part[..n], indent, key)
  }

  /** The lines of a list below a field: deeper ones, and items with the indentation of the field itself. */
  predicate IsListed(line: string, indent: nat) {
    Indent(line) > indent || ItemIndent(line) == Some(indent)
  }

  function Listed(lines: seq<string>, indent: nat): seq<string> {
    if lines == [] || !IsListed(lines[0], indent) then [] else [lines[0]] + Listed(lines[1..], indent)
  }

  /** Items, all of them with one indentation. */
  function ReadMembers(lines: seq<string>, n: nat): Option<seq<string>> {
    if lines == [] then Some([])
    else if ItemIndent(lines[0]) != Some(n) then None
    else
      var first, rest := YamlValue(lines[0][n + 1..]), ReadMembers(lines[1..], n);
      if first == None || rest == None then None else Some([first.value] + rest.value)
  }

  function ReadList(value: string, lines: seq<string>): Option<seq<string>> {
    if lines == [] then (if value == "" || value == "[]" then Some([]) else None)
    else if value != "" || ItemIndent(lines[0]) == None then None
    else ReadMembers(lines, ItemIndent(lines[0]).value)
  }

  /** The entries of a field of an item; None where they cannot be read. */
  function MembersOf(part: seq<string>, indent: nat, key: string): Option<seq<string>> {
    var f := LastFieldOf(part, indent, key);
    if f == None then Some([])
    else ReadList(FieldValue(part[f.value], indent, key).value, Listed(part[f.value + 1..], indent))
  }

  /** The indentation of the first entry, if there is one. */
  function MemberIndent(part: seq<string>, indent: nat, key: string): Option<nat> {
    var f := LastFieldOf(part, indent, key);
    if f == None then None
    else
      var lines := Listed(part[f.value + 1..], indent);
      if lines == [] then None else ItemIndent(lines[0])
  }

  // ---------- names behind the entries ----------

  ghost predicate NoField(lines: seq<string>, indent: nat, key: string) {
    forall k :: 0 <= k < |lines| ==> FieldValue(lines[k], indent, key) == None
  }

  lemma {:induction false} LastFieldIs(a: seq<string>, line: string, b: seq<string>, indent: nat, key: string)
    requires FieldValue(line, indent, key).Some? && NoField(b, indent, key)
    ensures LastFieldOf(a + [line] + b, indent, key) == Some(|a|)
  {
    hide FieldValue;
    var part := a + [line] + b;
    if b == [] {
      assert part == a + [line];
    } else {
      var n := |b| - 1;
      assert part[..|part| - 1] == a + [line] + b[..n];
      LastFieldIs(a, line, b[..n], indent, key);
    }
  }

  lemma {:induction false} NoLastField(part: seq<string>, indent: nat, key: string)
    requires NoField(part, indent, key)
    ensures LastFieldOf(part, indent, key) == None
  {
    hide FieldValue;
    if part != [] {
      NoLastField(part[..|part| - 1], indent, key);
    }
  }

  lemma {:induction false} ListedThen(a: seq<string>, b: seq<string>, indent: nat)
    requires forall k :: 0 <= k < |a| ==> IsListed(a[k], indent)
    ensures Listed(a + b, indent) == a + Listed(b, indent)
  {
    hide IsListed;
    if a == [] {
      assert a + b == b;
    } else {
      assert (a + b)[1..] == a[1..] + b;
      ListedThen(a[1..], b, indent);
    }
  }

  lemma {:induction false} MembersAppend(a: seq<string>, b: seq<string>, n: nat)
    ensures ReadMembers(a + b, n) ==
      if ReadMembers(a, n) == None || ReadMembers(b, n) == None then None else Some(ReadMembers(a, n).value + ReadMembers(b, n).value)
  {
    hide YamlValue, ItemIndent;
    var x, y := ReadMembers(a, n), ReadMembers(b, n);
    if a == [] {
      assert a + b == b;
      assert y.Some? ==> [] + y.value == y.value;
    } else {
      assert (a + b)[1..] == a[1..] + b;
      MembersAppend(a[1..], b, n);
      if x.Some? && y.Some? {
        Associate([x.value[0]], x.value[1..], y.value);
        assert x.value == [x.value[0]] + x.value[1..];
      }
    }
  }

  /** The lines of new entries are members with their indentation. */
  lemma {:induction false} EntriesAreMembers(names: seq<string>, n: nat)
    ensures ReadMembers(EntryLines(names, n), n)
      == if forall e :: e in names ==> !LooksCommented(e) then Some(names) else None
    ensures |EntryLines(names, n)| == |names|
    ensures forall k :: 0 <= k < |names| ==> ItemIndent(EntryLines(names, n)[k]) == Some(n) && Indent(EntryLines(names, n)[k]) == n
  {
    hide Quote, YamlValue, LooksCommented, ItemIndent, Indent, Spaces;
    if names != [] {
      EntriesAreMembers(names[1..], n);
      EntryAt(names[0], n);
      QuotedReadBack(names[0]);
      assert EntryLines(names, n)[1..] == EntryLines(names[1..], n);
      hide EntryLines;
      assert names == [names[0]] + names[1..];
    }
  }

  lemma EntryAt(name: string, n: nat)
    ensures var line := Spaces(n) + "- " + Quote(name);
      ItemIndent(line) == Some(n) && Indent(line) == n && line[n + 1..] == " " + Quote(name)
  {
    hide Quote;
    ItemLine(n, name);
    var line := Spaces(n) + "- " + Quote(name);
    assert line[n..] == "- " + Quote(name);
    assert line[n + 1..] == line[n..][1..];
  }

  lemma {:induction false} OtherIndent(lines: seq<string>, k: nat, n: nat)
    requires k < |lines| && ItemIndent(lines[k]) != Some(n)
    ensures ReadMembers(lines, n) == None
  {
    hide YamlValue, ItemIndent;
    if k > 0 {
      OtherIndent(lines[1..], k - 1, n);
    }
  }

  /** Lines at which a list ends: none, or one that is no deeper than the field. */
  ghost predicate EndsHere(lines: seq<string>, indent: nat) {
    lines != [] ==> Indent(lines[0]) <= indent
  }

  /** Entries with the indentation of the new ones, or none: the new names come behind them. Entries of another
      indentation, also those that are as deep as the field itself, cannot be read together with the new ones. */
  lemma NamesBehind(value: string, d: seq<string>, e: seq<string>, indent: nat, names: seq<string>)
    requires (forall k :: 0 <= k < |d| ==> Indent(d[k]) > indent) && EndsHere(e, indent) && names != []
    requires ReadList(value, Listed(d + e, indent)).Some?
    ensures var past, joined := Listed(d + e, indent), Listed(d + EntryLines(names, indent + 2) + e, indent);
      ReadList("", joined) == Some(ReadList(value, past).value + names)
      <==> (past == [] || ItemIndent(past[0]) == Some(indent + 2)) && forall x :: x in names ==> !LooksCommented(x)
  {
    hide LooksCommented, EntryLines, ItemIndent, Indent, ReadList, Listed;
    var n := EntryLines(names, indent + 2);
    EntriesAreMembers(names, indent + 2);
    ListedThen(d, e, indent);
    ListedThen(d + n, e, indent);
    var tail := Listed(e, indent);
    if tail == [] {
      assert d + tail == d && d + n + tail == d + n;
      DeepList(value, d, names, indent);
    } else {
      TailIsCompact(e, indent);
      if d != [] {
        Mixed(d, tail, value, indent);
      }
      assert d + tail == tail && d + n + tail == n + tail;
      CompactList(tail, names, indent);
    }
  }

  /** What follows the deeper entries in the list has the indentation of the field. */
  lemma TailIsCompact(e: seq<string>, indent: nat)
    requires EndsHere(e, indent) && Listed(e, indent) != []
    ensures ItemIndent(Listed(e, indent)[0]) == Some(indent)
  {
  }

  lemma Mixed(d: seq<string>, tail: seq<string>, value: string, indent: nat)
    requires d != [] && tail != [] && Indent(d[0]) > indent && ItemIndent(tail[0]) == Some(indent)
    ensures ReadList(value, d + tail) == None
  {
    hide YamlValue;
    var lines := d + tail;
    if ItemIndent(d[0]).Some? {
      assert lines[|d|] == tail[0] && lines[0] == d[0];
      ItemDeep(d[0]);
      hide Indent, ItemIndent;
      OtherIndent(lines, |d|, ItemIndent(lines[0]).value);
    }
  }

  lemma ItemDeep(line: string)
    requires ItemIndent(line).Some?
    ensures ItemIndent(line).value == Indent(line)
  {
  }

  lemma DeepList(value: string, d: seq<string>, names: seq<string>, indent: nat)
    requires names != [] && ReadList(value, d).Some?
    ensures ReadList("", d + EntryLines(names, indent + 2)) == Some(ReadList(value, d).value + names)
      <==> (d == [] || ItemIndent(d[0]) == Some(indent + 2)) && forall x :: x in names ==> !LooksCommented(x)
  {
    hide LooksCommented, EntryLines, ItemIndent, Indent;
    var n := EntryLines(names, indent + 2);
    EntriesAreMembers(names, indent + 2);
    assert ItemIndent(n[0]) == Some(indent + 2);
    if d == [] {
      assert d + n == n && [] + names == names;
    } else {
      var m := ItemIndent(d[0]).value;
      assert (d + n)[0] == d[0];
      MembersAppend(d, n, m);
      if m != indent + 2 {
        OtherIndent(n, 0, m);
      }
    }
  }

  lemma CompactList(tail: seq<string>, names: seq<string>, indent: nat)
    requires names != [] && tail != [] && ItemIndent(tail[0]) == Some(indent)
    ensures ReadList("", EntryLines(names, indent + 2) + tail) == None
  {
    hide EntryLines, ItemIndent, LooksCommented;
    var n := EntryLines(names, indent + 2);
    EntriesAreMembers(names, indent + 2);
    assert (n + tail)[0] == n[0] && (n + tail)[|n|] == tail[0];
    OtherIndent(n + tail, |n|, indent + 2);
  }

  // ---------- a group with new members ----------

  /** The names behind the entries of a field there is. */
  lemma FieldJoined(a: seq<string>, was: string, now: string, d: seq<string>, e: seq<string>, indent: nat, key: string, names: seq<string>)
    requires FieldValue(was, indent, key).Some? && FieldValue(now, indent, key) == Some("") && names != []
    requires NoField(d, indent, key) && NoField(e, indent, key) && NoField(EntryLines(names, indent + 2), indent, key)
    requires (forall k :: 0 <= k < |d| ==> Indent(d[k]) > indent) && EndsHere(e, indent)
    requires MembersOf(a + [was] + (d + e), indent, key).Some?
    ensures var past, joined := a + [was] + (d + e), a + [now] + (d + EntryLines(names, indent + 2) + e);
      MembersOf(joined, indent, key) == Some(MembersOf(past, indent, key).value + names)
      <==> MemberIndent(past, indent, key) in {None, Some(indent + 2)} && forall x :: x in names ==> !LooksCommented(x)
  {
    hide LooksCommented, FieldValue, EntryLines, Indent, ItemIndent, ReadList, Listed;
    var n := EntryLines(names, indent + 2);
    var past, joined := a + [was] + (d + e), a + [now] + (d + n + e);
    LastFieldIs(a, was, d + e, indent, key);
    LastFieldIs(a, now, d + n + e, indent, key);
    assert past[|a|] == was && past[|a| + 1..] == d + e && joined[|a|] == now && joined[|a| + 1..] == d + n + e;
    NamesBehind(FieldValue(was, indent, key).value, d, e, indent, names);
    ListHeaded(FieldValue(was, indent, key).value, Listed(d + e, indent));
  }

  lemma ListHeaded(value: string, lines: seq<string>)
    requires ReadList(value, lines).Some?
    ensures lines != [] ==> ItemIndent(lines[0]).Some?
  {
    hide ItemIndent;
  }

  /** A new field behind all others. */
  lemma FieldCome(part: seq<string>, header: string, indent: nat, key: string, names: seq<string>)
    requires NoField(part, indent, key) && FieldValue(header, indent, key) == Some("") && names != []
    requires NoField(EntryLines(names, indent + 2), indent, key)
    ensures MembersOf(part, indent, key) == Some([]) && MemberIndent(part, indent, key) == None
    ensures MembersOf(part + ([header] + EntryLines(names, indent + 2)), indent, key) == Some(names)
      <==> forall x :: x in names ==> !LooksCommented(x)
  {
    hide LooksCommented, FieldValue, EntryLines, Indent, ItemIndent, ReadList, Listed;
    var n := EntryLines(names, indent + 2);
    NoLastField(part, indent, key);
    LastFieldIs(part, header, n, indent, key);
    var joined := part + [header] + n;
    assert part + ([header] + n) == joined && joined[|part|] == header && joined[|part| + 1..] == n;
    AllListed(names, indent);
    EmptyList();
    DeepList("", [], names, indent);
    assert [] + n == n && [] + names == names;
  }

  lemma EmptyList()
    ensures ReadList("", []) == Some([])
  {
  }

  lemma AllListed(names: seq<string>, indent: nat)
    ensures Listed(EntryLines(names, indent + 2), indent) == EntryLines(names, indent + 2)
  {
    hide EntryLines, ItemIndent, LooksCommented;
    var n := EntryLines(names, indent + 2);
    EntriesAreMembers(names, indent + 2);
    ListedThen(n, [], indent);
    assert n + [] == n;
  }

  /** A group whose entry is as deep as its field: it is read, but not together with a new name, which comes in front of
      it and is two deeper than the field. */
  lemma CompactMember(a: seq<string>, was: string, entry: string, value: string, indent: nat, key: string, name: string)
    requires FieldValue(was, indent, key) == Some("") && ItemIndent(entry) == Some(indent) && FieldValue(entry, indent, key) == None
    requires YamlValue(entry[indent + 1..]) == Some(value)
    ensures MembersOf(a + [was] + [entry], indent, key) == Some([value]) && MemberIndent(a + [was] + [entry], indent, key) == Some(indent)
    ensures MembersOf(a + [was] + (EntryLines([name], indent + 2) + [entry]), indent, key) == None
  {
    hide FieldValue, ItemIndent, Indent, EntryLines, LooksCommented, YamlValue;
    var n := EntryLines([name], indent + 2);
    EntriesAreMembers([name], indent + 2);
    EntryFields(name, indent, key);
    LastFieldIs(a, was, [entry], indent, key);
    LastFieldIs(a, was, n + [entry], indent, key);
    ListedThen([entry], [], indent);
    ListedThen(n, [entry], indent);
    OneMember(entry, value, indent);
    CompactList([entry], [name], indent);
    var part, joined := a + [was] + [entry], a + [was] + (n + [entry]);
    assert [entry] + [] == [entry];
    assert part[|a|] == was && part[|a| + 1..] == [entry] && joined[|a|] == was && joined[|a| + 1..] == n + [entry];
    hide ReadList, Listed, LastFieldOf;
  }

  lemma OneMember(entry: string, value: string, indent: nat)
    requires ItemIndent(entry) == Some(indent) && YamlValue(entry[indent + 1..]) == Some(value)
    ensures ReadList("", [entry]) == Some([value])
  {
    hide ItemIndent, YamlValue;
    assert [entry][1..] == [];
    assert [entry][0] == entry && ReadMembers([], indent) == Some([]);
    assert ReadMembers([entry], indent) == Some([value] + []) && [value] + [] == [value];
  }

  lemma EntryFields(name: string, indent: nat, key: string)
    ensures NoField(EntryLines([name], indent + 2), indent, key)
  {
    hide LooksCommented, EntryLines, ItemIndent, Indent;
    EntriesAreMembers([name], indent + 2);
    var n := EntryLines([name], indent + 2);
    forall k | 0 <= k < |n|
      ensures FieldValue(n[k], indent, key) == None
    {
      assert Indent(n[k]) == indent + 2;
    }
  }

  /** Such lines. */
  lemma CompactGroup(name: string)
    ensures var part := ["    proxies:", "    - A"];
      && MembersOf(part, 4, "proxies") == Some(["A"]) && MemberIndent(part, 4, "proxies") == Some(4)
      && MembersOf(["    proxies:"] + (EntryLines([name], 6) + ["    - A"]), 4, "proxies") == None
  {
    CompactField();
    CompactEntry();
    hide FieldValue, ItemIndent, MembersOf, MemberIndent, YamlValue, EntryLines;
    CompactMember([], "    proxies:", "    - A", "A", 4, "proxies", name);
    assert [] + ["    proxies:"] + ["    - A"] == ["    proxies:", "    - A"];
    var rest := EntryLines([name], 6) + ["    - A"];
    assert [] + ["    proxies:"] + rest == ["    proxies:"] + rest;
  }

  lemma CompactField()
    ensures FieldValue("    proxies:", 4, "proxies") == Some("")
  {
    var line := "    proxies:";
    IndentIs(line, 4);
    assert line[4..] == "proxies:" && "proxies" + ":" == "proxies:" && line[12..] == "";
    assert Trim("") == "" && Indent("") == 0;
  }

  lemma CompactEntry()
    ensures ItemIndent("    - A") == Some(4) && FieldValue("    - A", 4, "proxies") == None && YamlValue("    - A"[5..]) == Some("A")
  {
    var line := "    - A";
    IndentIs(line, 4);
    assert line[4..][0] == '-' && ("proxies" + ":")[0] == 'p';
    WordA();
    hide Indent, YamlValue;
    assert line[5..] == " A";
  }

  lemma WordA()
    ensures YamlValue(" A") == Some("A")
  {
    TrimAfterSpace("A");
    StripNothing("A");
    hide Trim, StripComment;
  }
}
