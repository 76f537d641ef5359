/** The text of a configuration and its lines, before and after a merge, and the lines of a fragment. */
module MergeText {
  import opened Text
  import opened YamlText
  import opened YamlDocument
  import opened YamlEmit
  import opened ProxyNames
  import opened MergedNames
  import opened MergePlan
  import opened YamlFragment

  // ---------- text and lines ----------

  /** text.replace(/\r\n?/g, '\n'). */
  function Normalize(text: string): (s: string)
    ensures '\r' !in s
  {
    if text == "" then ""
    else if text[0] == '\r' then
      if |text| > 1 && text[1] == '\n' then "\n" + Normalize(text[2..]) else "\n" + Normalize(text[1..])
    else [text[0]] + Normalize(text[1..])
  }

  function Lines(text: string): seq<string> {
    Split(Normalize(text), '\n')
  }

  lemma {:induction false} NormalizeClean(text: string)
    requires '\r' !in text
    ensures Normalize(text) == text
  {
    if text != "" {
      NormalizeClean(text[1..]);
    }
  }

  lemma {:induction false} SplitWithout(s: string, sep: char, c: char)
    requires c !in s
    ensures forall k :: 0 <= k < |Split(s, sep)| ==> c !in Split(s, sep)[k]
  {
    if s != "" {
      SplitWithout(s[1..], sep, c);
    }
  }

  lemma LinesClean(text: string)
    ensures IsClean(Lines(text)) && Lines(text) != []
  {
    SplitWithout(Normalize(text), '\n', '\r');
  }

  function TrimBreaks(s: string): string {
    if s != "" && s[|s| - 1] == '\n' then TrimBreaks(s[..|s| - 1]) else s
  }

  /** s.replace(/\n*$/, '\n'). */
  function EndOnce(s: string): string {
    TrimBreaks(s) + "\n"
  }

  lemma {:induction false} JoinWithout(parts: seq<string>, sep: string, c: char)
    requires c !in sep && forall k :: 0 <= k < |parts| ==> c !in parts[k]
    ensures c !in Join(parts, sep)
  {
    if |parts| > 1 {
      JoinWithout(parts[1..], sep, c);
    }
  }

  lemma LinesOfJoin(parts: seq<string>)
    requires parts != [] && IsClean(parts)
    ensures Lines(Join(parts, "\n")) == parts
  {
    JoinWithout(parts, "\n", '\r');
    NormalizeClean(Join(parts, "\n"));
    SplitJoin(parts, '\n');
  }

  lemma BlankLast(lines: seq<string>)
    ensures NamesOf(lines + [""]) == NamesOf(lines)
  {
    RunAppend(START, lines, [""]);
    RunOne(Run(START, lines), "");
    if Run(START, lines).Reading? {
      BlankStep(Run(START, lines), "");
    }
  }

  /** Reading the text with a single line break at its end is reading its lines. */
  lemma {:induction false} Reread(lines: seq<string>)
    requires lines != [] && IsClean(lines)
    ensures NamesOf(Lines(EndOnce(Join(lines, "\n")))) == NamesOf(lines)
  {
    hide NamesOf, Normalize;
    var n := |lines| - 1;
    var text := Join(lines, "\n");
    if lines[n] == "" && n > 0 {
      JoinSnoc(lines[..n], "", "\n");
      assert lines == lines[..n] + [""];
      assert text[..|text| - 1] == Join(lines[..n], "\n");
      Reread(lines[..n]);
      BlankLast(lines[..n]);
    } else {
      JoinLast(lines);
      assert text == TrimBreaks(text);
      JoinSnoc(lines, "", "\n");
      assert EndOnce(text) == Join(lines + [""], "\n");
      LinesOfJoin(lines + [""]);
      BlankLast(lines);
    }
  }

  lemma JoinLast(lines: seq<string>)
    requires lines != [] && IsClean(lines) && (lines[|lines| - 1] != "" || |lines| == 1)
    ensures var text := Join(lines, "\n"); text == "" || text[|text| - 1] != '\n'
  {
    var n := |lines| - 1;
    assert NoReturn(lines[n]);
    if n > 0 {
      JoinSnoc(lines[..n], lines[n], "\n");
      assert lines == lines[..n] + [lines[n]];
    }
  }

  // ---------- the fragment ----------

  lemma {:induction false} ProvidersDeep(names: seq<string>, urls: seq<string>)
    requires |names| <= |urls| && forall k :: 0 <= k < |names| ==> IsWord(names[k])
    ensures AllDeep(ProviderList(names, urls), 2)
  {
    hide IsDeep, IsWord, Quote;
    if names != [] {
      var n := |names| - 1;
      ProvidersDeep(names[..n], urls);
      ProviderDeep(names[n], urls[n]);
    }
  }

  lemma ProviderDeep(name: string, url: string)
    requires IsWord(name)
    ensures AllDeep(ProviderLines(name, url), 2)
  {
    hide Spaces, Quote, IsSpace, NoReturn, IsDeep, IsWord;
    FixedLinesDeep();
    UrlLineDeep(url);
    NameLinesDeep(name);
  }

  lemma FixedLinesDeep()
    ensures IsDeep(Spaces(4) + "type: http", 2) && IsDeep(Spaces(4) + "interval: 3600", 2)
    ensures IsDeep(Spaces(4) + "format: uri", 2)
  {
    DeepLine(4, "type: http");
    DeepLine(4, "interval: 3600");
    DeepLine(4, "format: uri");
  }

  lemma UrlLineDeep(url: string)
    ensures IsDeep(Spaces(4) + "url: " + Quote(url), 2)
  {
    QuoteShape(url);
    hide Quote;
    DeepParts(4, "url: ", Quote(url));
  }

  lemma NameLinesDeep(name: string)
    requires IsWord(name)
    ensures IsDeep(Spaces(2) + name + ":", 2)
    ensures IsDeep(Spaces(4) + ("path: ./proxy-providers/" + name + ".yaml"), 2)
  {
    WordShape(name);
    DeepParts(2, name, ":");
    var path := "path: ./proxy-providers/";
    NoReturnParts(path, name);
    PathEnds();
    hide IsSpace, IsWord;
    DeepParts(4, path + name, ".yaml");
    hide IsDeep;
    assert Spaces(4) + (path + name) + ".yaml" == Spaces(4) + (path + name + ".yaml");
  }

  lemma PathEnds()
    ensures !IsSpace('p') && !IsSpace('l')
  {
  }

  lemma ProviderNamesAreWords(names: seq<string>, reserved: set<string>)
    requires AreProviderNames(names, reserved)
    ensures forall k :: 0 <= k < |names| ==> IsWord(names[k])
  {
    forall k | 0 <= k < |names|
      ensures IsWord(names[k])
    {
      assert IsFirstNumber(k, reserved + NameSet(names[..k]), names[k]);
      var m: nat :| names[k] == ProviderCandidate(k, m);
    }
  }

  /** fragment.text.trimEnd().split('\n').slice(1). */
  function FragmentBody(text: string): seq<string> {
    Split(TrimEnd(text), '\n')[1..]
  }

  lemma BodyOfFragment(head: string, body: seq<string>)
    requires IsClean([head]) && body != [] && AllDeep(body, 2)
    ensures FragmentBody(FragmentText([head] + body)) == body
  {
    var lines := [head] + body;
    var n := |lines| - 1;
    assert IsDeep(lines[n], 2) by {
      assert lines[n] == body[n - 1];
    }
    JoinSnoc(lines[..n], lines[n], "\n");
    assert lines == lines[..n] + [lines[n]];
    var text := Join(lines, "\n");
    TrimOneBreak(text);
    assert forall k :: 0 <= k < |lines| ==> '\n' !in lines[k] by {
      assert NoReturn([head][0]);
      assert forall k :: 0 < k <= n ==> lines[k] == body[k - 1];
    }
    SplitJoin(lines, '\n');
    assert lines[1..] == body;
  }

  lemma TrimOneBreak(text: string)
    requires text != "" && !IsSpace(text[|text| - 1])
    ensures TrimEnd(text + "\n") == text
  {
    assert (text + "\n")[..|text|] == text;
  }
}
