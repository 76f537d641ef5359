/** What the keys of a terminal do to the line: the editor told by the bytes that arrive. */
module Keystrokes {
  import opened Wrappers
  import opened LineEditor

  const ENTER: Byte := 13
  const UP: seq<Byte> := [27, 91, 65]
  const DOWN: seq<Byte> := [27, 91, 66]
  const RIGHT: seq<Byte> := [27, 91, 67]
  const LEFT: seq<Byte> := [27, 91, 68]
  const DELETE: seq<Byte> := [27, 91, 51, 126]
  const BACKSPACE: seq<Byte> := [127]

  predicate IsEditKey(key: Key) {
    key.Char? || key in {Backspace, Delete, Up, Down, Right, Left}
  }

  /** The bytes that a terminal sends for a key. */
  function Sent(key: Key): seq<Byte>
    requires IsEditKey(key)
  {
    match key
    case Char(c) => [c]
    case Backspace => BACKSPACE
    case Delete => DELETE
    case Up => UP
    case Down => DOWN
    case Right => RIGHT
    case _ => LEFT
  }

  function Bytes(s: seq<Byte>): Input {
    seq(|s|, i requires 0 <= i < |s| => Some(s[i]))
  }

  predicate AreEditKeys(keys: seq<Key>) {
    forall k :: 0 <= k < |keys| ==> IsEditKey(keys[k])
  }

  function SentAll(keys: seq<Key>): Input
    requires AreEditKeys(keys)
  {
    if keys == [] then [] else SentAll(keys[..|keys| - 1]) + Bytes(Sent(keys[|keys| - 1]))
  }

  lemma KeyRead(key: Key, rest: Input)
    requires IsEditKey(key)
    ensures Decode(Bytes(Sent(key)) + rest) == (key, rest)
  {
    var sent, input := Sent(key), Bytes(Sent(key)) + rest;
    assert input[|sent|..] == rest;
    if |sent| == 1 {
      assert input[0] == Some(sent[0]);
    } else {
      assert input[0] == Some(27) && input[1] == Some(91) && input[2] == Some(sent[2]);
      assert input[1..][1..] == input[2..] && input[2..][1..] == input[3..];
      if key == Delete {
        assert input[3] == Some(126) && input[3..][1..] == input[4..];
      }
    }
  }

  /** Keys are edits, one after the other, whatever comes behind them. */
  lemma {:induction false} KeysAreEdits(e: Editing, keys: seq<Key>, rest: Input, history: seq<seq<Byte>>, size: nat)
    requires size > 0 && IsEditing(e, history, size) && IsHistory(history) && AreEditKeys(keys)
    ensures Read(e, SentAll(keys) + rest, history, size) == Read(EditAll(e, keys, history, size), rest, history, size)
  {
    if keys == [] {
      assert SentAll(keys) + rest == rest;
    } else {
      var n := |keys| - 1;
      var key, init := keys[n], keys[..n];
      var later := Bytes(Sent(key)) + rest;
      assert SentAll(keys) + rest == SentAll(init) + later;
      KeysAreEdits(e, init, later, history, size);
      KeyRead(key, rest);
      hide Decode, Edit, Sent, Bytes, IsEditing;
      OneKey(EditAll(e, init, history, size), key, later, rest, history, size);
    }
  }

  lemma OneKey(e: Editing, key: Key, input: Input, rest: Input, history: seq<seq<Byte>>, size: nat)
    requires size > 0 && IsEditing(e, history, size) && IsHistory(history) && IsEditKey(key) && Decode(input) == (key, rest)
    ensures Read(e, input, history, size) == Read(Edit(e, key, history, size), rest, history, size)
  {
    hide Decode, Edit, IsEditing;
  }

  /** The line that stands there when Enter is pressed. */
  lemma EnterEnds(e: Editing, rest: Input, history: seq<seq<Byte>>, size: nat)
    requires size > 0 && IsEditing(e, history, size) && IsHistory(history)
    ensures Read(e, [Some(ENTER)] + rest, history, size) == (Line(e.text), rest)
  {
    assert ([Some(ENTER)] + rest)[1..] == rest;
  }

  // ---------- typing ----------

  predicate ArePrintable(text: seq<Byte>) {
    forall k :: 0 <= k < |text| ==> 32 <= text[k] < 127
  }

  function Chars(text: seq<Byte>): (keys: seq<Key>)
    requires ArePrintable(text)
    ensures AreEditKeys(keys)
  {
    seq(|text|, i requires 0 <= i < |text| => Char(text[i]))
  }

  lemma {:induction false} TypingSends(text: seq<Byte>)
    requires ArePrintable(text)
    ensures SentAll(Chars(text)) == Bytes(text)
  {
    if text != [] {
      var n := |text| - 1;
      TypingSends(text[..n]);
      assert Chars(text)[..n] == Chars(text[..n]);
      assert Bytes(text) == Bytes(text[..n]) + Bytes([text[n]]);
    }
  }

  lemma {:induction false} TypingMakes(text: seq<Byte>, history: seq<seq<Byte>>, size: nat)
    requires |text| < size && IsHistory(history) && ArePrintable(text)
    ensures EditAll(Fresh(history), Chars(text), history, size) == Typed(text, history)
  {
    if text == [] {
      assert Chars(text) == [];
    } else {
      var n := |text| - 1;
      TypingMakes(text[..n], history, size);
      assert Chars(text)[..n] == Chars(text[..n]);
      CharAtEnd(text[..n], text[n], history, size);
      assert text[..n] + [text[n]] == text;
      hide Edit, IsEditing;
    }
  }

  /** A line that has only been typed. */
  function Typed(text: seq<Byte>, history: seq<seq<Byte>>): Editing {
    Editing(text, |text|, |history|, [])
  }

  lemma CharAtEnd(text: seq<Byte>, c: Printable, history: seq<seq<Byte>>, size: nat)
    requires |text| + 1 < size && IsHistory(history) && ArePrintable(text)
    ensures IsEditing(Typed(text, history), history, size)
    ensures Edit(Typed(text, history), Char(c), history, size) == Typed(text + [c], history)
  {
    assert text[..|text|] + [c] + text[|text|..] == text + [c];
  }

  lemma {:induction false} SentAppend(a: seq<Key>, b: seq<Key>)
    requires AreEditKeys(a) && AreEditKeys(b)
    ensures SentAll(a + b) == SentAll(a) + SentAll(b)
  {
    hide Sent, Bytes;
    if b == [] {
      assert a + b == a;
    } else {
      var n := |b| - 1;
      SentAppend(a, b[..n]);
      assert (a + b)[..|a + b| - 1] == a + b[..n];
    }
  }

  lemma {:induction false} EditAppend(e: Editing, a: seq<Key>, b: seq<Key>, history: seq<seq<Byte>>, size: nat)
    requires size > 0 && IsEditing(e, history, size) && IsHistory(history)
    ensures EditAll(e, a + b, history, size) == EditAll(EditAll(e, a, history, size), b, history, size)
  {
    hide Edit, IsEditing;
    if b == [] {
      assert a + b == a;
    } else {
      var n := |b| - 1;
      EditAppend(e, a, b[..n], history, size);
      assert (a + b)[..|a + b| - 1] == a + b[..n];
    }
  }

  /** A text, then some keys, then Enter. */
  lemma TypedThen(text: seq<Byte>, keys: seq<Key>, sent: Input, rest: Input, history: seq<seq<Byte>>, size: nat)
    requires |text| < size && IsHistory(history) && ArePrintable(text) && AreEditKeys(keys) && sent == SentAll(keys)
    ensures IsEditing(Typed(text, history), history, size)
    ensures Read(Fresh(history), Bytes(text) + sent + ([Some(ENTER)] + rest), history, size)
      == (Line(EditAll(Typed(text, history), keys, history, size).text), rest)
  {
    hide EditAll, Read, Edit;
    TypingSends(text);
    TypingMakes(text, history, size);
    SentAppend(Chars(text), keys);
    EditAppend(Fresh(history), Chars(text), keys, history, size);
    KeysAreEdits(Fresh(history), Chars(text) + keys, [Some(ENTER)] + rest, history, size);
    EnterEnds(EditAll(Fresh(history), Chars(text) + keys, history, size), rest, history, size);
  }

  lemma FewSent(a: Key, b: Key, c: Key)
    requires IsEditKey(a) && IsEditKey(b) && IsEditKey(c)
    ensures SentAll([a]) == Bytes(Sent(a)) && SentAll([a, b]) == Bytes(Sent(a)) + Bytes(Sent(b))
    ensures SentAll([a, b, c]) == Bytes(Sent(a)) + Bytes(Sent(b)) + Bytes(Sent(c))
  {
    hide Bytes, Sent;
    assert [a][..0] == [] && [a, b][..1] == [a] && [a, b, c][..2] == [a, b];
    assert SentAll([]) == [];
  }

  lemma OneEdit(e: Editing, a: Key, history: seq<seq<Byte>>, size: nat)
    requires size > 0 && IsEditing(e, history, size) && IsHistory(history)
    ensures EditAll(e, [a], history, size) == Edit(e, a, history, size)
  {
    hide Edit, IsEditing;
    assert [a][..0] == [];
    assert EditAll(e, [], history, size) == e;
  }

  lemma TwoEdits(e: Editing, a: Key, b: Key, history: seq<seq<Byte>>, size: nat)
    requires size > 0 && IsEditing(e, history, size) && IsHistory(history)
    ensures EditAll(e, [a, b], history, size) == Edit(Edit(e, a, history, size), b, history, size)
  {
    hide Edit, IsEditing, EditAll;
    EditAppend(e, [a], [b], history, size);
    assert [a] + [b] == [a, b];
    OneEdit(e, a, history, size);
    OneEdit(Edit(e, a, history, size), b, history, size);
  }

  /** Printable bytes and Enter are the line. */
  lemma TypedLine(text: seq<Byte>, rest: Input, history: seq<seq<Byte>>, size: nat)
    requires |text| < size && IsHistory(history) && ArePrintable(text)
    ensures Read(Fresh(history), Bytes(text) + ([Some(ENTER)] + rest), history, size) == (Line(text), rest)
  {
    TypedThen(text, [], [], rest, history, size);
    assert Bytes(text) + [] == Bytes(text);
  }

  /** An arrow up shows the last entry of the history, whatever was typed. */
  lemma ArrowUp(text: seq<Byte>, rest: Input, history: seq<seq<Byte>>, size: nat)
    requires |text| < size && IsHistory(history) && ArePrintable(text) && history != []
    ensures Read(Fresh(history), Bytes(text) + Bytes(UP) + ([Some(ENTER)] + rest), history, size)
      == (Line(Cut(history[|history| - 1], size)), rest)
  {
    OneEdit(Typed(text, history), Up, history, size);
    assert EditAll(Typed(text, history), [Up], history, size).text == Cut(history[|history| - 1], size);
    hide Read, EditAll, Decode, Edit, Cut;
    TypedThen(text, [Up], Bytes(UP), rest, history, size) by {
      FewSent(Up, Up, Up);
    }
  }

  /** And an arrow down behind it shows what was typed. */
  lemma ArrowDown(text: seq<Byte>, rest: Input, history: seq<seq<Byte>>, size: nat)
    requires |text| < size <= LINE_MAX && IsHistory(history) && ArePrintable(text) && history != []
    ensures Read(Fresh(history), Bytes(text) + (Bytes(UP) + Bytes(DOWN)) + ([Some(ENTER)] + rest), history, size) == (Line(text), rest)
  {
    TwoEdits(Typed(text, history), Up, Down, history, size);
    assert EditAll(Typed(text, history), [Up, Down], history, size).text == text;
    hide Read, EditAll, Decode, Edit, Cut;
    TypedThen(text, [Up, Down], Bytes(UP) + Bytes(DOWN), rest, history, size) by {
      FewSent(Up, Down, Up);
    }
  }

  /** Behind an arrow to the left a byte goes in front of the last one. */
  lemma ArrowLeft(text: seq<Byte>, c: Printable, rest: Input, history: seq<seq<Byte>>, size: nat)
    requires 0 < |text| && |text| + 1 < size && IsHistory(history) && ArePrintable(text)
    ensures var n := |text| - 1;
      Read(Fresh(history), Bytes(text) + (Bytes(LEFT) + Bytes([c])) + ([Some(ENTER)] + rest), history, size)
      == (Line(text[..n] + [c] + text[n..]), rest)
  {
    TwoEdits(Typed(text, history), Left, Char(c), history, size);
    assert EditAll(Typed(text, history), [Left, Char(c)], history, size).text == text[..|text| - 1] + [c] + text[|text| - 1..];
    hide Read, EditAll, Decode, Edit, Cut;
    TypedThen(text, [Left, Char(c)], Bytes(LEFT) + Bytes([c]), rest, history, size) by {
      FewSent(Left, Char(c), Left);
    }
  }

  /** Behind another one to the right it goes to the end. */
  lemma ArrowRight(text: seq<Byte>, c: Printable, rest: Input, history: seq<seq<Byte>>, size: nat)
    requires 0 < |text| && |text| + 1 < size && IsHistory(history) && ArePrintable(text)
    ensures Read(Fresh(history), Bytes(text) + (Bytes(LEFT) + Bytes(RIGHT) + Bytes([c])) + ([Some(ENTER)] + rest), history, size)
      == (Line(text + [c]), rest)
  {
    hide Read, EditAll, Decode, Edit, Bytes, SentAll, Sent;
    LeftRightSent(c);
    TypedThen(text, [Left, Right, Char(c)], Bytes(LEFT) + Bytes(RIGHT) + Bytes([c]), rest, history, size);
    EditAppend(Typed(text, history), [Left, Right], [Char(c)], history, size);
    assert [Left, Right] + [Char(c)] == [Left, Right, Char(c)];
    LeftRight(text, history, size);
    CharAtEnd(text, c, history, size);
    OneEdit(Typed(text, history), Char(c), history, size);
  }

  lemma LeftRightSent(c: Printable)
    ensures AreEditKeys([Left, Right, Char(c)]) && SentAll([Left, Right, Char(c)]) == Bytes(LEFT) + Bytes(RIGHT) + Bytes([c])
  {
    FewSent(Left, Right, Char(c));
  }

  lemma LeftRight(text: seq<Byte>, history: seq<seq<Byte>>, size: nat)
    requires 0 < |text| < size && IsHistory(history) && IsEditing(Typed(text, history), history, size)
    ensures EditAll(Typed(text, history), [Left, Right], history, size) == Typed(text, history)
  {
    TwoEdits(Typed(text, history), Left, Right, history, size);
    hide EditAll;
  }

  /** Backspace takes the last byte away. */
  lemma BackspaceTakes(text: seq<Byte>, rest: Input, history: seq<seq<Byte>>, size: nat)
    requires 0 < |text| < size && IsHistory(history) && ArePrintable(text)
    ensures Read(Fresh(history), Bytes(text) + Bytes(BACKSPACE) + ([Some(ENTER)] + rest), history, size)
      == (Line(text[..|text| - 1]), rest)
  {
    OneEdit(Typed(text, history), Backspace, history, size);
    assert text[..|text| - 1] + text[|text|..] == text[..|text| - 1];
    assert EditAll(Typed(text, history), [Backspace], history, size).text == text[..|text| - 1];
    hide Read, EditAll, Decode, Edit, Cut;
    TypedThen(text, [Backspace], Bytes(BACKSPACE), rest, history, size) by {
      FewSent(Backspace, Left, Left);
    }
  }

  /** So do an arrow to the left and Delete. */
  lemma DeleteTakes(text: seq<Byte>, rest: Input, history: seq<seq<Byte>>, size: nat)
    requires 0 < |text| < size && IsHistory(history) && ArePrintable(text)
    ensures Read(Fresh(history), Bytes(text) + (Bytes(LEFT) + Bytes(DELETE)) + ([Some(ENTER)] + rest), history, size)
      == (Line(text[..|text| - 1]), rest)
  {
    TwoEdits(Typed(text, history), Left, Delete, history, size);
    assert text[..|text| - 1] + text[|text|..] == text[..|text| - 1];
    assert EditAll(Typed(text, history), [Left, Delete], history, size).text == text[..|text| - 1];
    hide Read, EditAll, Decode, Edit, Cut;
    TypedThen(text, [Left, Delete], Bytes(LEFT) + Bytes(DELETE), rest, history, size) by {
      FewSent(Left, Delete, Left);
    }
  }
}
