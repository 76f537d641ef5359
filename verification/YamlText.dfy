/** The scalars and line shapes of the YAML merger: quoting and reading values, and what its regular
    expressions accept. */
module YamlText {
  import opened Wrappers
  import opened Text

  // ---------- quoted strings ----------

  /** JSON.stringify of one character. */
  function EscapeChar(c: char): (s: string)
    ensures s != []
  {
    if c == '"' then "\\\""
    else if c == '\\' then "\\\\"
    else if c as int == 8 then "\\b"
    else if c as int == 9 then "\\t"
    else if c as int == 10 then "\\n"
    else if c as int == 12 then "\\f"
    else if c as int == 13 then "\\r"
    else if (c as int) < 32 then "\\u00" + [HexDigit(c as int / 16), HexDigit(c as int % 16)]
    else [c]
  }

  function Escape(s: string): string {
    if s == [] then [] else EscapeChar(s[0]) + Escape(s[1..])
  }

  /** JSON.stringify of a string. */
  function Quote(s: string): string {
    "\"" + Escape(s) + "\""
  }

  function SimpleEscape(c: char): Option<char> {
    if c == '"' || c == '\\' || c == '/' then Some(c)
    else if c == 'b' then Some(8 as char)
    else if c == 't' then Some(9 as char)
    else if c == 'n' then Some(10 as char)
    else if c == 'f' then Some(12 as char)
    else if c == 'r' then Some(13 as char)
    else None
  }

  function Unicode(a: char, b: char, c: char, d: char): Option<char> {
    var (w, x, y, z) := (HexValue(a), HexValue(b), HexValue(c), HexValue(d));
    if w == None || x == None || y == None || z == None then None
    else
      var n := 4096 * w.value + 256 * x.value + 16 * y.value + z.value;
      if 0xd800 <= n < 0xe000 then None else Some(n as char)
  }

  /** The rest of a quoted string, up to the closing quote that must end it. */
  function ParseRest(s: string): Option<string> {
    if s == [] then None
    else if s[0] == '"' then if |s| == 1 then Some("") else None
    else if s[0] == '\\' then
      if |s| < 2 then None
      else if s[1] == 'u' then
        if |s| < 6 then None
        else Prepend(Unicode(s[2], s[3], s[4], s[5]), ParseRest(s[6..]))
      else Prepend(SimpleEscape(s[1]), ParseRest(s[2..]))
    else if (s[0] as int) < 32 then None
    else Prepend(Some(s[0]), ParseRest(s[1..]))
  }

  function Prepend(c: Option<char>, rest: Option<string>): Option<string> {
    if c.Some? && rest.Some? then Some([c.value] + rest.value) else None
  }

  /** JSON.parse of a text that starts with a quote. */
  function ParseQuoted(s: string): Option<string>
    requires s != [] && s[0] == '"'
  {
    ParseRest(s[1..])
  }

  lemma ParseEscapedChar(c: char, rest: string)
    ensures ParseRest(EscapeChar(c) + rest) == Prepend(Some(c), ParseRest(rest))
  {
    var e := EscapeChar(c);
    if |e| == 6 {
      ParseUnicode(c, rest);
    } else if |e| == 2 {
      ParseSimple(c, rest);
    } else {
      assert ([c] + rest)[1..] == rest;
    }
  }

  lemma ParseUnicode(c: char, rest: string)
    requires |EscapeChar(c)| == 6
    ensures ParseRest(EscapeChar(c) + rest) == Prepend(Some(c), ParseRest(rest))
  {
    var e := EscapeChar(c);
    var s := e + rest;
    var high, low := c as int / 16, c as int % 16;
    assert s[6..] == rest;
    assert e[0] == '\\' && e[1] == 'u' && e[2] == '0' && e[3] == '0' && e[4] == HexDigit(high) && e[5] == HexDigit(low);
    hide EscapeChar, ParseRest;
    UnicodeOf(c);
    OneUnicode(s);
  }

  lemma UnicodeOf(c: char)
    requires (c as int) < 32
    ensures Unicode('0', '0', HexDigit(c as int / 16), HexDigit(c as int % 16)) == Some(c)
  {
    hide HexDigit;
    assert HexValue('0') == Some(0);
    assert c as int == 16 * (c as int / 16) + c as int % 16;
  }

  lemma OneUnicode(s: string)
    requires |s| >= 6 && s[0] == '\\' && s[1] == 'u'
    ensures ParseRest(s) == Prepend(Unicode(s[2], s[3], s[4], s[5]), ParseRest(s[6..]))
  {
    hide Unicode, Prepend;
  }

  lemma ParseSimple(c: char, rest: string)
    requires |EscapeChar(c)| == 2
    ensures ParseRest(EscapeChar(c) + rest) == Prepend(Some(c), ParseRest(rest))
  {
    var e := EscapeChar(c);
    var s := e + rest;
    assert s[2..] == rest && s[0] == '\\' && s[1] == e[1] && e[1] != 'u' && SimpleEscape(e[1]) == Some(c);
    hide EscapeChar, SimpleEscape, Prepend;
  }

  lemma {:induction false} ParseEscaped(s: string, rest: string)
    ensures ParseRest(Escape(s) + rest) == if ParseRest(rest).Some? then Some(s + ParseRest(rest).value) else None
  {
    hide ParseRest, EscapeChar;
    if s == [] {
      assert Escape(s) + rest == rest;
      assert ParseRest(rest).Some? ==> s + ParseRest(rest).value == ParseRest(rest).value;
    } else {
      assert Escape(s) + rest == EscapeChar(s[0]) + (Escape(s[1..]) + rest);
      ParseEscapedChar(s[0], Escape(s[1..]) + rest);
      ParseEscaped(s[1..], rest);
      if ParseRest(rest).Some? {
        assert [s[0]] + (s[1..] + ParseRest(rest).value) == s + ParseRest(rest).value;
      }
    }
  }

  lemma QuoteRoundTrip(s: string)
    ensures ParseQuoted(Quote(s)) == Some(s)
  {
    assert Quote(s)[1..] == Escape(s) + "\"";
    ParseEscaped(s, "\"");
    assert s + "" == s;
  }

  // ---------- comments ----------

  /** White space and then a number sign, with no further line: where a trailing comment starts. */
  predicate CommentAhead(s: string) {
    var n := Indent(s);
    0 < n < |s| && s[n] == '#' && NoBreak(s[n..])
  }

  /** s.replace(/\s+#.*$/, ''): up to the first place where a comment starts. */
  function StripComment(s: string): string {
    if s == [] || CommentAhead(s) then [] else [s[0]] + StripComment(s[1..])
  }

  /** Characters that stay white space when they are quoted. */
  predicate RawSpace(c: char) {
    IsSpace(c) && c as int >= 32
  }

  /** White space directly in front of a number sign. */
  predicate SpaceHash(s: string) {
    |s| >= 2 && ((IsSpace(s[0]) && s[1] == '#' && NoBreak(s[1..])) || SpaceHash(s[1..]))
  }

  /** Quoted or not, such a text looks as if a comment started in it. */
  predicate LooksCommented(s: string) {
    |s| >= 2 && ((RawSpace(s[0]) && s[1] == '#' && NoRawBreak(s[1..])) || LooksCommented(s[1..]))
  }

  lemma {:induction false} CommentIsSpaceHash(s: string)
    requires CommentAhead(s)
    ensures SpaceHash(s)
  {
    assert s[1..][Indent(s) - 1..] == s[Indent(s)..];
    if Indent(s) > 1 {
      CommentIsSpaceHash(s[1..]);
    }
  }

  lemma {:induction false} StripNothing(s: string)
    requires !SpaceHash(s)
    ensures StripComment(s) == s
  {
    if s != [] {
      if CommentAhead(s) {
        CommentIsSpaceHash(s);
      }
      StripNothing(s[1..]);
    }
  }

  lemma EscapeShape(c: char)
    ensures |EscapeChar(c)| > 1 ==> forall i :: 0 <= i < |EscapeChar(c)| ==> !IsSpace(EscapeChar(c)[i])
    ensures |EscapeChar(c)| == 1 ==> EscapeChar(c) == [c] && c as int >= 32
    ensures EscapeChar(c)[0] == '#' <==> c == '#'
  {
  }

  lemma {:induction false} SpaceHashPast(c: string, tail: string)
    requires forall i :: 0 <= i < |c| ==> !IsSpace(c[i])
    ensures SpaceHash(c + tail) == SpaceHash(tail)
    ensures StripComment(c + tail) == c + StripComment(tail)
  {
    if c == [] {
      assert c + tail == tail && c + StripComment(tail) == StripComment(tail);
    } else {
      assert (c + tail)[1..] == c[1..] + tail;
      IndentIs(c + tail, 0);
      SpaceHashPast(c[1..], tail);
      assert [c[0]] + (c[1..] + StripComment(tail)) == c + StripComment(tail);
    }
  }

  function Quotable(s: string): (e: string)
    ensures e != []
  {
    Escape(s) + "\""
  }

  lemma {:induction false} QuotableBreaks(s: string)
    ensures NoBreak(Quotable(s)) == NoRawBreak(s)
  {
    if s != [] {
      QuotableBreaks(s[1..]);
      QuotableStep(s);
      EscapeShape(s[0]);
      var c, tail := EscapeChar(s[0]), Quotable(s[1..]);
      assert NoBreak(c + tail) <==> NoBreak(c) && NoBreak(tail) by {
        if NoBreak(c + tail) {
          assert forall k :: 0 <= k < |tail| ==> tail[k] == (c + tail)[|c| + k];
          assert forall k :: 0 <= k < |c| ==> c[k] == (c + tail)[k];
        }
      }
      assert s == [s[0]] + s[1..];
      assert NoBreak(c) <==> !IsRawBreak(s[0]) by {
        if |c| == 1 { assert c[0] == s[0]; }
      }
    }
  }

  lemma QuotableStep(s: string)
    requires s != []
    ensures Quotable(s) == EscapeChar(s[0]) + Quotable(s[1..])
    ensures Quotable(s[1..])[0] == '#' <==> |s| > 1 && s[1] == '#'
  {
    if |s| > 1 {
      EscapeShape(s[1]);
    }
  }

  /** Escaping leaves white space in front of a number sign exactly where it was. */
  lemma {:induction false} EscapeKeepsComments(s: string)
    ensures SpaceHash(Quotable(s)) == LooksCommented(s)
  {
    if s != [] {
      EscapeKeepsComments(s[1..]);
      QuotableBreaks(s[1..]);
      QuotableStep(s);
      EscapeShape(s[0]);
      var c, tail := EscapeChar(s[0]), Quotable(s[1..]);
      if |c| > 1 {
        SpaceHashPast(c, tail);
      } else {
        assert (c + tail)[1..] == tail;
      }
    }
  }

  /** Where the text looks commented, stripping cuts the quoted text before its closing quote. */
  lemma {:induction false} StripCuts(s: string) returns (p: string)
    requires LooksCommented(s)
    ensures StripComment(Quotable(s)) == Escape(p)
  {
    QuotableStep(s);
    EscapeShape(s[0]);
    var c, tail := EscapeChar(s[0]), Quotable(s[1..]);
    if CommentAhead(Quotable(s)) {
      p := "";
    } else {
      if RawSpace(s[0]) && s[1] == '#' && NoRawBreak(s[1..]) {
        assert Quotable(s)[0] == s[0] && Quotable(s)[1] == '#';
        IndentIs(Quotable(s), 1);
        assert Quotable(s)[1..] == tail;
        QuotableBreaks(s[1..]);
      }
      var rest := StripCuts(s[1..]);
      p := [s[0]] + rest;
      assert p[1..] == rest;
      if |c| > 1 {
        SpaceHashPast(c, tail);
      } else {
        assert (c + tail)[1..] == tail;
      }
    }
  }

  // ---------- values ----------

  function SingleQuoted(s: string): string {
    if |s| < 2 then s
    else if s[0] == '\'' && s[1] == '\'' then "'" + SingleQuoted(s[2..])
    else [s[0]] + SingleQuoted(s[1..])
  }

  /** yamlValue; None where it reports an unsupported quoted value. */
  function YamlValue(raw: string): Option<string> {
    var v := StripComment(Trim(raw));
    if v == [] then Some("")
    else if v[0] == '"' then ParseQuoted(v)
    else if v[0] == '\'' then
      if v[|v| - 1] != '\'' then None
      else Some(SingleQuoted(if |v| < 2 then "" else v[1..|v| - 1]))
    else Some(v)
  }

  /** A quoted text is read back, unless it looks commented; then reading it is refused. */
  lemma QuotedReadBack(s: string)
    ensures YamlValue(" " + Quote(s)) == Some(s) <==> !LooksCommented(s)
    ensures LooksCommented(s) ==> YamlValue(" " + Quote(s)) == None
  {
    var e := Quotable(s);
    assert Quote(s) == "\"" + e;
    TrimAfterSpace(Quote(s));
    SpaceHashPast("\"", e);
    var v := "\"" + StripComment(e);
    assert v[1..] == StripComment(e);
    if LooksCommented(s) {
      var p := StripCuts(s);
      assert Escape(p) == Escape(p) + "";
      ParseEscaped(p, "");
    } else {
      EscapeKeepsComments(s);
      StripNothing(e);
      QuoteRoundTrip(s);
    }
    hide Trim, StripComment, ParseRest, Escape, LooksCommented;
  }
}
