/** The scalars of a configuration that the merger does not write itself, but reads: plain ones, single quotes,
    and comments behind values. */
module YamlScalars {
  import opened Wrappers
  import opened Text
  import opened YamlText

  /** A text as it stands between single quotes. */
  function Doubled(s: string): string {
    if s == "" then "" else (if s[0] == '\'' then "''" else [s[0]]) + Doubled(s[1..])
  }

  lemma {:induction false} DoubledBack(s: string)
    ensures SingleQuoted(Doubled(s)) == s
  {
    if s != "" {
      DoubledBack(s[1..]);
      if s[0] == '\'' {
        assert Doubled(s)[2..] == Doubled(s[1..]);
      } else {
        assert Doubled(s)[1..] == Doubled(s[1..]);
        OtherHead(Doubled(s));
      }
    }
  }

  lemma OtherHead(t: string)
    requires t != "" && t[0] != '\''
    ensures SingleQuoted(t) == [t[0]] + SingleQuoted(t[1..])
  {
    if |t| == 1 {
      assert SingleQuoted(t[1..]) == "";
      assert t == [t[0]] + "";
    }
  }

  /** White space directly in front of a number sign. */
  predicate HasComment(s: string) {
    |s| >= 2 && ((IsSpace(s[0]) && s[1] == '#') || HasComment(s[1..]))
  }

  lemma {:induction false} NoSpaceHash(s: string)
    requires !HasComment(s)
    ensures !SpaceHash(s)
  {
    hide IsSpace;
    if |s| >= 2 {
      NoSpaceHash(s[1..]);
    }
  }

  /** Doubling quotes puts no number sign behind white space. */
  lemma {:induction false} DoubledComments(s: string)
    requires !HasComment(s)
    ensures !HasComment(Doubled(s) + "'")
    ensures (Doubled(s) + "'")[0] == '#' ==> s != "" && s[0] == '#'
  {
    QuoteVisible();
    hide IsSpace;
    if s != "" {
      DoubledComments(s[1..]);
      var rest := Doubled(s[1..]) + "'";
      if s[0] == '\'' {
        assert Doubled(s) + "'" == "''" + rest && ("''" + rest)[1..] == "'" + rest && ("'" + rest)[1..] == rest;
      } else {
        assert Doubled(s) + "'" == [s[0]] + rest && ([s[0]] + rest)[1..] == rest;
      }
    }
  }

  lemma QuoteVisible()
    ensures !IsSpace('\'')
  {
  }

  /** A text between single quotes is read back, unless it looks commented. */
  lemma SingleQuotesRead(s: string)
    requires !HasComment(s)
    ensures YamlValue("'" + Doubled(s) + "'") == Some(s)
  {
    var inner := Doubled(s) + "'";
    var v := "'" + inner;
    assert "'" + Doubled(s) + "'" == v;
    QuoteVisible();
    DoubledComments(s);
    assert v[1..] == inner;
    assert !HasComment(v);
    NoSpaceHash(v);
    StripNothing(v);
    TrimVisible(v);
    DoubledBack(s);
    assert v[1..|v| - 1] == Doubled(s);
    hide Trim, StripComment, Doubled, SingleQuoted, SpaceHash, HasComment;
  }

  /** A plain scalar stands for itself, also with a comment behind it. */
  lemma PlainRead(s: string, comment: string)
    requires s != "" && !IsSpace(s[0]) && !IsSpace(s[|s| - 1]) && s[0] != '"' && s[0] != '\'' && !HasComment(s)
    requires NoBreak(comment) && (comment == "" || !IsSpace(comment[|comment| - 1]))
    ensures YamlValue(s) == Some(s) && YamlValue(s + " #" + comment) == Some(s)
  {
    NoSpaceHash(s);
    StripNothing(s);
    TrimVisible(s);
    CommentCut(s, comment);
    NumberSign();
    TrimVisible(s + " #" + comment);
    hide Trim, StripComment, SpaceHash, HasComment;
  }

  lemma NumberSign()
    ensures !IsSpace('#') && IsSpace(' ') && !IsBreak('#')
  {
  }

  /** The white space in front of the number sign, and all behind it, goes. */
  lemma {:induction false} CommentCut(s: string, comment: string)
    requires !HasComment(s) && (s == "" || !IsSpace(s[|s| - 1])) && NoBreak(comment)
    ensures StripComment(s + " #" + comment) == s
  {
    var t := s + " #" + comment;
    NumberSign();
    if s == "" {
      assert t == " #" + comment && t[1..] == "#" + comment;
      IndentIs(t, 1);
      assert NoBreak(t[1..]);
    } else {
      assert t[1..] == s[1..] + " #" + comment;
      CommentCut(s[1..], comment);
      NotAhead(s, comment);
    }
  }

  lemma NotAhead(s: string, comment: string)
    requires s != "" && !HasComment(s) && !IsSpace(s[|s| - 1])
    ensures !CommentAhead(s + " #" + comment)
  {
    var t := s + " #" + comment;
    var n := Indent(s);
    assert n < |s|;
    IndentIs(t, n);
    if n > 0 && s[n] == '#' {
      CommentAt(s, n - 1);
    }
  }

  lemma {:induction false} CommentAt(s: string, k: nat)
    requires k + 1 < |s| && IsSpace(s[k]) && s[k + 1] == '#'
    ensures HasComment(s)
  {
    hide IsSpace;
    if k > 0 {
      CommentAt(s[1..], k - 1);
    }
  }
}
