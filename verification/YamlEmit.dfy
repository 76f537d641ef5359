/** Writing proxies as block-style YAML. */
module YamlEmit {
  import opened Text
  import opened YamlText
  import opened YamlDocument

  /** A field of a proxy as the merger tells fields apart: nothing to write, a literal (a truth value or
      a number, as its text), a text, a list of texts, or a mapping. */
  datatype Value = Missing | Literal(text: string) | Str(text: string) | List(entries: seq<string>) | Mapping(fields: seq<Field>)

  datatype Field = Field(key: string, value: Value)

  datatype Proxy = Proxy(name: string, fields: seq<Field>)

  function ProxyNamesOf(proxies: seq<Proxy>): seq<string> {
    seq(|proxies|, i requires 0 <= i < |proxies| => proxies[i].name)
  }

  predicate IsWord(s: string) {
    s != "" && forall k :: 0 <= k < |s| ==> !IsSpace(s[k])
  }

  /** Keys and literals are single words. */
  predicate WellFormed(fields: seq<Field>) {
    forall f :: f in fields ==>
      IsWord(f.key)
      && match f.value
         case Literal(text) => IsWord(text)
         case Mapping(inner) => WellFormed(inner)
         case _ => true
  }

  function Spaces(n: nat): (s: string)
    ensures |s| == n && forall k :: 0 <= k < n ==> s[k] == ' '
  {
    if n == 0 then "" else " " + Spaces(n - 1)
  }

  function EntryLines(entries: seq<string>, indent: nat): seq<string> {
    if entries == [] then [] else [Spaces(indent) + "- " + Quote(entries[0])] + EntryLines(entries[1..], indent)
  }

  /** The lines of one field; empty texts are left out. */
  function FieldLines(f: Field, indent: nat): seq<string>
    decreases f
  {
    match f.value
    case Missing => []
    case Literal(text) => [Spaces(indent) + f.key + ": " + text]
    case Str(text) => if text == "" then [] else [Spaces(indent) + f.key + ": " + Quote(text)]
    case List(entries) => [Spaces(indent) + f.key + ":"] + EntryLines(entries, indent + 2)
    case Mapping(fields) => [Spaces(indent) + f.key + ":"] + MappingLines(fields, indent + 2)
  }

  function MappingLines(fields: seq<Field>, indent: nat): seq<string>
    decreases fields
  {
    if fields == [] then [] else MappingLines(fields[..|fields| - 1], indent) + FieldLines(fields[|fields| - 1], indent)
  }

  method EmitEntries(lines: seq<string>, entries: seq<string>, indent: nat) returns (out: seq<string>)
    ensures out == lines + EntryLines(entries, indent)
  {
    out := lines;
    for k := 0 to |entries|
      invariant out + EntryLines(entries[k..], indent) == lines + EntryLines(entries, indent)
    {
      var line := Spaces(indent) + "- " + Quote(entries[k]);
      assert entries[k..][1..] == entries[k + 1..];
      assert (out + [line]) + EntryLines(entries[k + 1..], indent) == out + ([line] + EntryLines(entries[k + 1..], indent));
      out := out + [line];
    }
  }

  method EmitField(lines: seq<string>, f: Field, indent: nat) returns (out: seq<string>)
    ensures out == lines + FieldLines(f, indent)
    decreases f
  {
    hide Quote;
    match f.value {
      case Missing =>
        out := lines;
      case Literal(text) =>
        out := lines + [Spaces(indent) + f.key + ": " + text];
      case Str(text) =>
        out := if text == "" then lines else lines + [Spaces(indent) + f.key + ": " + Quote(text)];
      case List(entries) =>
        out := EmitEntries(lines + [Spaces(indent) + f.key + ":"], entries, indent + 2);
      case Mapping(fields) =>
        out := EmitMapping(lines + [Spaces(indent) + f.key + ":"], fields, indent + 2);
    }
  }

  method EmitMapping(lines: seq<string>, fields: seq<Field>, indent: nat) returns (out: seq<string>)
    ensures out == lines + MappingLines(fields, indent)
    decreases fields
  {
    hide FieldLines;
    out := lines;
    for k := 0 to |fields|
      invariant out == lines + MappingLines(fields[..k], indent)
    {
      assert fields[..k + 1][..k] == fields[..k];
      out := EmitField(out, fields[k], indent);
    }
    assert fields[..|fields|] == fields;
  }

  function NameLine(name: string, indent: nat): string {
    Spaces(indent) + "- name: " + Quote(name)
  }

  function ProxyLines(proxy: Proxy, indent: nat): seq<string> {
    [NameLine(proxy.name, indent)] + MappingLines(proxy.fields, indent + 2)
  }

  function ListLines(proxies: seq<Proxy>, indent: nat): seq<string> {
    if proxies == [] then []
    else ListLines(proxies[..|proxies| - 1], indent) + ProxyLines(proxies[|proxies| - 1], indent)
  }

  method EmitProxy(lines: seq<string>, proxy: Proxy) returns (out: seq<string>)
    ensures out == lines + ProxyLines(proxy, 2)
  {
    out := EmitMapping(lines + [NameLine(proxy.name, 2)], proxy.fields, 4);
  }

  // ---------- moving blocks to the right ----------

  function Shifted(lines: seq<string>, shift: nat): seq<string> {
    seq(|lines|, i requires 0 <= i < |lines| => Spaces(shift) + lines[i])
  }

  lemma ShiftedAppend(a: seq<string>, b: seq<string>, shift: nat)
    ensures Shifted(a + b, shift) == Shifted(a, shift) + Shifted(b, shift)
  {
  }

  lemma SpacesAdd(m: nat, n: nat, s: string)
    ensures Spaces(m) + (Spaces(n) + s) == Spaces(m + n) + s
  {
    assert Spaces(m) + Spaces(n) == Spaces(m + n);
  }

  lemma {:induction false} ShiftedEntries(entries: seq<string>, indent: nat, shift: nat)
    ensures Shifted(EntryLines(entries, indent), shift) == EntryLines(entries, indent + shift)
  {
    if entries != [] {
      ShiftedEntries(entries[1..], indent, shift);
      var tail := "- " + Quote(entries[0]);
      SpacesAdd(shift, indent, tail);
      assert Spaces(indent) + "- " + Quote(entries[0]) == Spaces(indent) + tail;
      assert Spaces(indent + shift) + "- " + Quote(entries[0]) == Spaces(indent + shift) + tail;
      ShiftedAppend([Spaces(indent) + tail], EntryLines(entries[1..], indent), shift);
    }
  }

  lemma ShiftedKey(key: string, rest: string, indent: nat, shift: nat)
    ensures Shifted([Spaces(indent) + key + rest], shift) == [Spaces(indent + shift) + key + rest]
  {
    SpacesAdd(shift, indent, key + rest);
    assert Spaces(indent) + key + rest == Spaces(indent) + (key + rest);
    assert Spaces(indent + shift) + key + rest == Spaces(indent + shift) + (key + rest);
  }

  lemma {:induction false} ShiftedField(f: Field, indent: nat, shift: nat)
    ensures Shifted(FieldLines(f, indent), shift) == FieldLines(f, indent + shift)
    decreases f
  {
    hide Shifted, Quote;
    ShiftedNothing(shift);
    match f.value {
      case Missing =>
      case Literal(text) =>
        ShiftedKey(f.key + ": ", text, indent, shift);
        assert forall n: nat :: Spaces(n) + f.key + ": " + text == Spaces(n) + (f.key + ": ") + text;
      case Str(text) =>
        ShiftedKey(f.key + ": ", Quote(text), indent, shift);
        assert forall n: nat :: Spaces(n) + f.key + ": " + Quote(text) == Spaces(n) + (f.key + ": ") + Quote(text);
      case List(entries) =>
        ShiftedKey(f.key, ":", indent, shift);
        ShiftedEntries(entries, indent + 2, shift);
        ShiftedAppend([Spaces(indent) + f.key + ":"], EntryLines(entries, indent + 2), shift);
      case Mapping(fields) =>
        ShiftedKey(f.key, ":", indent, shift);
        ShiftedMapping(fields, indent + 2, shift);
        ShiftedAppend([Spaces(indent) + f.key + ":"], MappingLines(fields, indent + 2), shift);
    }
  }

  lemma ShiftedNothing(shift: nat)
    ensures Shifted([], shift) == []
  {
  }

  lemma {:induction false} ShiftedMapping(fields: seq<Field>, indent: nat, shift: nat)
    ensures Shifted(MappingLines(fields, indent), shift) == MappingLines(fields, indent + shift)
    decreases fields
  {
    if fields != [] {
      var n := |fields| - 1;
      ShiftedMapping(fields[..n], indent, shift);
      ShiftedField(fields[n], indent, shift);
      ShiftedAppend(MappingLines(fields[..n], indent), FieldLines(fields[n], indent), shift);
    }
  }

  /** Moving the list to the right writes it with a deeper indentation. */
  lemma {:induction false} ShiftedList(proxies: seq<Proxy>, indent: nat, shift: nat)
    ensures Shifted(ListLines(proxies, indent), shift) == ListLines(proxies, indent + shift)
  {
    hide Shifted, Quote, MappingLines, Spaces;
    ShiftedNothing(shift);
    if proxies != [] {
      var n := |proxies| - 1;
      var p := proxies[n];
      ShiftedList(proxies[..n], indent, shift);
      ShiftedAppend(ListLines(proxies[..n], indent), ProxyLines(p, indent), shift);
      ShiftedAppend([NameLine(p.name, indent)], MappingLines(p.fields, indent + 2), shift);
      ShiftedMapping(p.fields, indent + 2, shift);
      ShiftedKey("- name: ", Quote(p.name), indent, shift);
    }
  }

  // ---------- what the lines look like ----------

  predicate NoReturn(line: string) {
    forall k :: 0 <= k < |line| ==> line[k] != '\n' && line[k] != '\r'
  }

  /** A line of at least this indentation that does not end in white space. */
  predicate IsDeep(line: string, indent: nat) {
    indent <= Indent(line) < |line| && !IsSpace(line[|line| - 1]) && NoReturn(line)
  }

  lemma {:induction false} EscapeNoReturn(s: string)
    ensures NoReturn(Escape(s))
  {
    if s != [] {
      EscapeNoReturn(s[1..]);
      assert NoReturn(EscapeChar(s[0]));
    }
  }

  lemma QuoteShape(s: string)
    ensures NoReturn(Quote(s)) && |Quote(s)| >= 2 && Quote(s)[0] == '"' && Quote(s)[|Quote(s)| - 1] == '"'
  {
    EscapeNoReturn(s);
  }

  lemma DeepLine(indent: nat, text: string)
    requires text != "" && !IsSpace(text[0]) && !IsSpace(text[|text| - 1]) && NoReturn(text)
    ensures IsDeep(Spaces(indent) + text, indent) && Indent(Spaces(indent) + text) == indent
  {
    IndentIs(Spaces(indent) + text, indent);
  }

  ghost predicate AllDeep(lines: seq<string>, indent: nat) {
    forall k :: 0 <= k < |lines| ==> IsDeep(lines[k], indent)
  }

  lemma DeepParts(indent: nat, a: string, b: string)
    requires a != "" && !IsSpace(a[0]) && b != "" && !IsSpace(b[|b| - 1]) && NoReturn(a) && NoReturn(b)
    ensures IsDeep(Spaces(indent) + a + b, indent) && Indent(Spaces(indent) + a + b) == indent
  {
    hide IsSpace, IsDeep, NoReturn, Spaces, Indent;
    NoReturnParts(a, b);
    Associate(Spaces(indent), a, b);
    assert (a + b)[0] == a[0] && (a + b)[|a + b| - 1] == b[|b| - 1];
    DeepLine(indent, a + b);
  }

  lemma {:induction false} EntriesDeep(entries: seq<string>, indent: nat)
    ensures AllDeep(EntryLines(entries, indent), indent)
  {
    if entries != [] {
      EntriesDeep(entries[1..], indent);
      QuoteShape(entries[0]);
      DeepParts(indent, "- ", Quote(entries[0]));
    }
  }

  lemma Deeper(lines: seq<string>, m: nat, n: nat)
    requires AllDeep(lines, m) && n <= m
    ensures AllDeep(lines, n)
  {
  }

  lemma NoReturnParts(a: string, b: string)
    requires NoReturn(a) && NoReturn(b)
    ensures NoReturn(a + b)
  {
  }

  lemma WordShape(word: string)
    requires IsWord(word)
    ensures NoReturn(word) && !IsSpace(word[0]) && !IsSpace(word[|word| - 1])
  {
  }

  lemma DeepColon()
    ensures NoReturn(":") && NoReturn(": ") && !IsSpace(':')
  {
  }

  lemma KeyLineDeep(indent: nat, key: string, text: string)
    requires IsWord(key) && text != "" && !IsSpace(text[|text| - 1]) && NoReturn(text)
    ensures IsDeep(Spaces(indent) + key + ":", indent)
    ensures IsDeep(Spaces(indent) + key + ": " + text, indent)
  {
    WordShape(key);
    DeepColon();
    NoReturnParts(": ", text);
    hide IsSpace, IsDeep, Spaces, NoReturn, IsWord;
    DeepParts(indent, key, ":");
    DeepParts(indent, key, ": " + text);
    assert Spaces(indent) + key + (": " + text) == Spaces(indent) + key + ": " + text;
  }

  lemma {:induction false} FieldDeep(f: Field, indent: nat)
    requires WellFormed([f])
    ensures AllDeep(FieldLines(f, indent), indent)
    decreases f
  {
    hide Quote, IsDeep, IsSpace, NoReturn, Spaces;
    assert f in [f];
    match f.value {
      case Missing =>
      case Literal(text) =>
        WordShape(text);
        KeyLineDeep(indent, f.key, text);
      case Str(text) =>
        QuoteEnds(text);
        KeyLineDeep(indent, f.key, Quote(text));
      case List(entries) =>
        QuoteEnds("");
        KeyLineDeep(indent, f.key, Quote(""));
        EntriesDeep(entries, indent + 2);
        Deeper(EntryLines(entries, indent + 2), indent + 2, indent);
      case Mapping(fields) =>
        QuoteEnds("");
        KeyLineDeep(indent, f.key, Quote(""));
        MappingDeep(fields, indent + 2);
        Deeper(MappingLines(fields, indent + 2), indent + 2, indent);
    }
  }

  lemma QuoteEnds(s: string)
    ensures Quote(s) != "" && NoReturn(Quote(s)) && !IsSpace(Quote(s)[|Quote(s)| - 1])
  {
    QuoteShape(s);
  }

  lemma {:induction false} MappingDeep(fields: seq<Field>, indent: nat)
    requires WellFormed(fields)
    ensures AllDeep(MappingLines(fields, indent), indent)
    decreases fields
  {
    hide IsDeep;
    if fields != [] {
      var n := |fields| - 1;
      MappingDeep(fields[..n], indent);
      FieldDeep(fields[n], indent);
    }
  }

  ghost predicate AllWellFormed(proxies: seq<Proxy>) {
    forall k :: 0 <= k < |proxies| ==> WellFormed(proxies[k].fields)
  }

  lemma NameLineDeep(name: string, indent: nat)
    ensures IsDeep(NameLine(name, indent), indent) && Indent(NameLine(name, indent)) == indent
  {
    QuoteShape(name);
    DeepParts(indent, "- name: ", Quote(name));
  }

  lemma {:induction false} ListDeep(proxies: seq<Proxy>, indent: nat)
    requires AllWellFormed(proxies)
    ensures AllDeep(ListLines(proxies, indent), indent)
  {
    hide IsDeep;
    if proxies != [] {
      var n := |proxies| - 1;
      ListDeep(proxies[..n], indent);
      NameLineDeep(proxies[n].name, indent);
      MappingDeep(proxies[n].fields, indent + 2);
      Deeper(MappingLines(proxies[n].fields, indent + 2), indent + 2, indent);
    }
  }
}
