/** The raw-mode line editor of fnc: a NUL-terminated buffer edited in place, against an editor on
    sequences; browsing the history; and the history a session leaves. */
module LineEditor {
  import opened Wrappers

  type Byte = b: int | 0 <= b < 256
  type Printable = b: int | 32 <= b < 127 witness 32

  const LINE_MAX := 512
  const HIST_MAX := 200

  /** What the terminal delivers: bytes, and reads that fail. Behind the end all reads fail. */
  type Input = seq<Option<Byte>>

  // ---------- keys ----------

  datatype Key =
    | Failed
    | Enter
    | Interrupt
    | EndOfInput
    | Backspace
    | Delete
    | Up
    | Down
    | Right
    | Left
    | Char(c: Printable)
    | Ignored

  function First(input: Input): Option<Byte> {
    if input == [] then None else input[0]
  }

  function Rest(input: Input): (r: Input)
    ensures |r| <= |input| && (input != [] ==> |r| < |input|)
  {
    if input == [] then [] else input[1..]
  }

  /** Behind an escape byte: a bracket or an O, and a letter; or a 3 and any one byte. */
  function DecodeEscape(input: Input): (r: (Key, Input))
    ensures |r.1| <= |input| && r.0 != Failed
  {
    var a, t := First(input), Rest(input);
    if a == None || (a.value != '[' as int && a.value != 'O' as int) then (Ignored, t)
    else
      var b, u := First(t), Rest(t);
      if b == None then (Ignored, u)
      else if b.value == '3' as int then (if First(u) == None then Ignored else Delete, Rest(u))
      else if b.value == 'A' as int then (Up, u)
      else if b.value == 'B' as int then (Down, u)
      else if b.value == 'C' as int then (Right, u)
      else if b.value == 'D' as int then (Left, u)
      else (Ignored, u)
  }

  function Decode(input: Input): (r: (Key, Input))
    ensures r.0 != Failed ==> |r.1| < |input|
    ensures |r.1| <= |input| && (input != [] ==> |r.1| < |input|)
  {
    var c, t := First(input), Rest(input);
    if c == None then (Failed, t)
    else if c.value == 13 || c.value == 10 then (Enter, t)
    else if c.value == 127 || c.value == 8 then (Backspace, t)
    else if c.value == 3 then (Interrupt, t)
    else if c.value == 4 then (EndOfInput, t)
    else if c.value == 27 then DecodeEscape(t)
    else if 32 <= c.value < 127 then (Char(c.value), t)
    else (Ignored, t)
  }

  // ---------- the editor on sequences ----------

  datatype Editing = Editing(text: seq<Byte>, pos: nat, index: nat, saved: seq<Byte>)

  /** What fits into a buffer with its terminating NUL. */
  function Cut(s: seq<Byte>, size: nat): seq<Byte>
    requires size > 0
  {
    if |s| < size then s else s[..size - 1]
  }

  predicate NulFree(s: seq<Byte>) {
    forall k :: 0 <= k < |s| ==> s[k] != 0
  }

  lemma StillNulFree(t: seq<Byte>, i: nat, middle: seq<Byte>, j: nat)
    requires NulFree(t) && NulFree(middle) && i <= j <= |t|
    ensures NulFree(t[..i] + middle + t[j..]) && NulFree(t[..i] + t[j..])
  {
  }

  predicate IsEditing(e: Editing, history: seq<seq<Byte>>, size: nat) {
    && e.pos <= |e.text| < size && e.index <= |history| && |e.saved| < LINE_MAX
    && NulFree(e.text) && NulFree(e.saved)
  }

  predicate IsHistory(history: seq<seq<Byte>>) {
    forall k :: 0 <= k < |history| ==> NulFree(history[k])
  }

  function Shown(text: seq<Byte>, index: nat, saved: seq<Byte>, size: nat): Editing
    requires size > 0
  {
    var t := Cut(text, size);
    Editing(t, |t|, index, saved)
  }

  /** One editing key. */
  function Edit(e: Editing, key: Key, history: seq<seq<Byte>>, size: nat): (r: Editing)
    requires size > 0 && IsEditing(e, history, size) && IsHistory(history)
    ensures IsEditing(r, history, size)
  {
    match key
    case Backspace =>
      StillNulFree(e.text, if e.pos > 0 then e.pos - 1 else 0, [], e.pos);
      if e.pos > 0 then e.(text := e.text[..e.pos - 1] + e.text[e.pos..], pos := e.pos - 1) else e
    case Delete =>
      StillNulFree(e.text, e.pos, [], if e.pos < |e.text| then e.pos + 1 else e.pos);
      if e.pos < |e.text| then e.(text := e.text[..e.pos] + e.text[e.pos + 1..]) else e
    case Up =>
      if e.index > 0 then
        Shown(history[e.index - 1], e.index - 1, if e.index == |history| then Cut(e.text, LINE_MAX) else e.saved, size)
      else e
    case Down =>
      if e.index < |history| then
        Shown(if e.index + 1 == |history| then e.saved else history[e.index + 1], e.index + 1, e.saved, size)
      else e
    case Right => if e.pos < |e.text| then e.(pos := e.pos + 1) else e
    case Left => if e.pos > 0 then e.(pos := e.pos - 1) else e
    case Char(c) =>
      StillNulFree(e.text, e.pos, [c], e.pos);
      if |e.text| + 1 < size then e.(text := e.text[..e.pos] + [c] + e.text[e.pos..], pos := e.pos + 1) else e
    case _ => e
  }

  datatype Outcome = Eof | Line(text: seq<Byte>)

  /** Reading one line: what it gives and the input that remains. */
  function Read(e: Editing, input: Input, history: seq<seq<Byte>>, size: nat): (r: (Outcome, Input))
    requires size > 0 && IsEditing(e, history, size) && IsHistory(history)
    ensures |r.1| <= |input| && (input != [] ==> |r.1| < |input|)
    ensures r.0.Line? ==> |r.0.text| < size && NulFree(r.0.text)
    decreases |input|
  {
    var (key, rest) := Decode(input);
    match key
    case Failed => (if e.text == [] then Eof else Line(e.text), rest)
    case Enter => (Line(e.text), rest)
    case Interrupt => (Line([]), rest)
    case EndOfInput => if e.text == [] then (Eof, rest) else Read(e, rest, history, size)
    case _ => Read(Edit(e, key, history, size), rest, history, size)
  }

  function Fresh(history: seq<seq<Byte>>): Editing {
    Editing([], 0, |history|, [])
  }

  // ---------- the buffer ----------

  /** A buffer that holds a text and its terminating NUL. */
  ghost predicate Holds(a: array<Byte>, s: seq<Byte>)
    reads a
  {
    |s| < a.Length && a[..|s|] == s && a[|s|] == 0 && NulFree(s)
  }

  /** snprintf(a, size, "%s", s). */
  method Print(a: array<Byte>, s: seq<Byte>)
    requires a.Length > 0 && NulFree(s)
    modifies a
    ensures Holds(a, Cut(s, a.Length))
  {
    var n := if |s| < a.Length then |s| else a.Length - 1;
    forall i | 0 <= i < n {
      a[i] := s[i];
    }
    a[n] := 0;
    assert a[..n] == Cut(s, a.Length);
  }

  /** strlen. */
  method Length(a: array<Byte>, ghost s: seq<Byte>) returns (n: nat)
    requires Holds(a, s)
    ensures n == |s|
  {
    n := 0;
    assert |s| > 0 ==> a[..|s|][0] == s[0];
    while a[n] != 0
      invariant n <= |s| && (n < |s| ==> a[n] == s[n])
      decreases |s| - n
    {
      n := n + 1;
      assert n < |s| ==> a[..|s|][n] == s[n];
    }
  }

  /** The bytes from pos on move one place to the left. */
  method CloseGap(a: array<Byte>, len: nat, pos: nat)
    requires 0 < pos <= len < a.Length && NulFree(a[..len])
    modifies a
    ensures Holds(a, old(a[..pos - 1] + a[pos..len]))
  {
    ghost var t := a[..len];
    ghost var s := t[..pos - 1] + t[pos..];
    StillNulFree(t, pos - 1, [], pos);
    assert s == a[..pos - 1] + a[pos..len];
    forall i | pos - 1 <= i < len - 1 {
      a[i] := a[i + 1];
    }
    a[len - 1] := 0;
    assert a[..len - 1] == s;
  }

  /** The bytes from pos on move one place to the right, and a byte goes in. */
  method OpenGap(a: array<Byte>, len: nat, pos: nat, c: Byte)
    requires pos <= len && len + 1 < a.Length && NulFree(a[..len]) && c != 0
    modifies a
    ensures Holds(a, old(a[..pos] + [c] + a[pos..len]))
  {
    ghost var t := a[..len];
    ghost var s := t[..pos] + [c] + t[pos..];
    StillNulFree(t, pos, [c], pos);
    assert s == a[..pos] + [c] + a[pos..len];
    forall i | pos <= i < len {
      a[i + 1] := a[i];
    }
    a[pos] := c;
    a[len + 1] := 0;
    assert a[..len + 1] == s;
  }

  /** The buffers and counters of the loop stand for a state of the editor on sequences. */
  ghost predicate Stands(e: Editing, buf: array<Byte>, len: nat, pos: nat, index: nat, saved: array<Byte>)
    reads buf, saved
  {
    Holds(buf, e.text) && Holds(saved, e.saved) && len == |e.text| && pos == e.pos && index == e.index
  }

  /** An entry of the history is copied into the buffer. */
  method Show(buf: array<Byte>, entry: seq<Byte>, saved: array<Byte>) returns (len: nat)
    requires buf != saved && buf.Length > 0 && NulFree(entry)
    modifies buf
    ensures Holds(buf, Cut(entry, buf.Length)) && len == |Cut(entry, buf.Length)|
  {
    Print(buf, entry);
    len := Length(buf, Cut(entry, buf.Length));
  }

  /** The saved line is copied back. */
  method Restore(buf: array<Byte>, saved: array<Byte>, ghost s: seq<Byte>) returns (len: nat)
    requires buf != saved && buf.Length > 0 && Holds(saved, s)
    modifies buf
    ensures Holds(buf, Cut(s, buf.Length)) && len == |Cut(s, buf.Length)|
  {
    var n := Length(saved, s);
    Print(buf, saved[..n]);
    len := Length(buf, Cut(s, buf.Length));
  }

  method EraseInBuffer(key: Key, buf: array<Byte>, len0: nat, pos0: nat, ghost e: Editing, ghost history: seq<seq<Byte>>)
    returns (len: nat, pos: nat)
    requires key == Backspace || key == Delete
    requires buf.Length > 0 && IsEditing(e, history, buf.Length) && IsHistory(history)
    requires Holds(buf, e.text) && len0 == |e.text| && pos0 == e.pos
    modifies buf
    ensures var r := Edit(e, key, history, buf.Length);
      Holds(buf, r.text) && len == |r.text| && pos == r.pos && r.saved == e.saved && r.index == e.index
  {
    len, pos := len0, pos0;
    assert buf[..len] == e.text;
    if key == Backspace {
      if pos > 0 {
        assert buf[..pos - 1] == e.text[..pos - 1] && buf[pos..len] == e.text[pos..];
        CloseGap(buf, len, pos);
        pos := pos - 1;
        len := len - 1;
      }
    } else if pos < len {
      assert buf[..pos] == e.text[..pos] && buf[pos + 1..len] == e.text[pos + 1..];
      CloseGap(buf, len, pos + 1);
      len := len - 1;
    }
  }

  method InsertInBuffer(c: Printable, buf: array<Byte>, len0: nat, pos0: nat, ghost e: Editing, ghost history: seq<seq<Byte>>)
    returns (len: nat, pos: nat)
    requires buf.Length > 0 && IsEditing(e, history, buf.Length) && IsHistory(history)
    requires Holds(buf, e.text) && len0 == |e.text| && pos0 == e.pos
    modifies buf
    ensures var r := Edit(e, Char(c), history, buf.Length);
      Holds(buf, r.text) && len == |r.text| && pos == r.pos && r.saved == e.saved && r.index == e.index
  {
    len, pos := len0, pos0;
    assert buf[..len] == e.text;
    if len < buf.Length - 1 {
      assert buf[..pos] == e.text[..pos] && buf[pos..len] == e.text[pos..];
      OpenGap(buf, len, pos, c);
      pos := pos + 1;
      len := len + 1;
    }
  }

  /** Up and down: an entry of the history, or the saved line, is copied into the buffer. */
  method BrowseInBuffer(key: Key, buf: array<Byte>, len0: nat, pos0: nat, index0: nat, saved: array<Byte>,
                        history: seq<seq<Byte>>, ghost e: Editing)
    returns (len: nat, pos: nat, index: nat)
    requires key == Up || key == Down
    requires buf != saved && buf.Length > 0 && saved.Length == LINE_MAX
    requires IsEditing(e, history, buf.Length) && IsHistory(history) && Stands(e, buf, len0, pos0, index0, saved)
    modifies buf, saved
    ensures Stands(Edit(e, key, history, buf.Length), buf, len, pos, index, saved)
  {
    len, pos, index := len0, pos0, index0;
    if key == Up {
      if index > 0 {
        if index == |history| {
          assert buf[..len] == e.text;
          Print(saved, buf[..len]);
        }
        index := index - 1;
        len := Show(buf, history[index], saved);
        pos := len;
      }
    } else if index < |history| {
      index := index + 1;
      if index == |history| {
        len := Restore(buf, saved, e.saved);
      } else {
        len := Show(buf, history[index], saved);
      }
      pos := len;
    }
  }

  /** An editing key on the buffer is the same key on sequences. */
  method EditBuffer(key: Key, buf: array<Byte>, len0: nat, pos0: nat, index0: nat, saved: array<Byte>,
                    history: seq<seq<Byte>>, ghost e: Editing)
    returns (len: nat, pos: nat, index: nat)
    requires buf != saved && buf.Length > 0 && saved.Length == LINE_MAX
    requires IsEditing(e, history, buf.Length) && IsHistory(history) && Stands(e, buf, len0, pos0, index0, saved)
    modifies buf, saved
    ensures Stands(Edit(e, key, history, buf.Length), buf, len, pos, index, saved)
  {
    hide Holds, NulFree, IsHistory;
    len, pos, index := len0, pos0, index0;
    if key == Up || key == Down {
      hide Edit;
      len, pos, index := BrowseInBuffer(key, buf, len, pos, index, saved, history, e);
    } else if key == Backspace || key == Delete {
      hide Edit;
      len, pos := EraseInBuffer(key, buf, len, pos, e, history);
    } else if key.Char? {
      hide Edit;
      len, pos := InsertInBuffer(key.c, buf, len, pos, e, history);
    } else if key == Right {
      if pos < len {
        pos := pos + 1;
      }
    } else if key == Left {
      if pos > 0 {
        pos := pos - 1;
      }
    }
  }

  /** read_line: the length of the line in the buffer, or -1 at the end of the input. */
  method ReadLine(buf: array<Byte>, history: seq<seq<Byte>>, input: Input) returns (n: int, rest: Input)
    requires buf.Length > 0 && IsHistory(history)
    modifies buf
    ensures var (outcome, remaining) := Read(Fresh(history), input, history, buf.Length);
      && rest == remaining
      && (outcome == Eof ==> n == -1)
      && (outcome.Line? ==> n == |outcome.text| && Holds(buf, outcome.text))
  {
    var len: nat, pos: nat, index: nat := 0, 0, |history|;
    var saved := new Byte[LINE_MAX](_ => 0);
    buf[0] := 0;
    rest := input;
    ghost var e := Fresh(history);
    while true
      invariant IsEditing(e, history, buf.Length) && Stands(e, buf, len, pos, index, saved) && fresh(saved)
      invariant Read(e, rest, history, buf.Length) == Read(Fresh(history), input, history, buf.Length)
      decreases |rest|
    {
      hide IsEditing, Edit, Decode;
      var (key, tail) := Decode(rest);
      DecodeShrinks(rest);
      if key == Failed {
        return if len == 0 then -1 else len, tail;
      } else if key == Enter {
        return len, tail;
      } else if key == Interrupt {
        buf[0] := 0;
        return 0, tail;
      } else if key == EndOfInput {
        if len == 0 {
          return -1, tail;
        }
      } else {
        len, pos, index := EditBuffer(key, buf, len, pos, index, saved, history, e);
        e := Edit(e, key, history, buf.Length);
      }
      rest := tail;
    }
  }

  lemma DecodeShrinks(input: Input)
    ensures Decode(input).0 != Failed ==> |Decode(input).1| < |input|
  {
  }

  // ---------- browsing ----------

  function EditAll(e: Editing, keys: seq<Key>, history: seq<seq<Byte>>, size: nat): (r: Editing)
    requires size > 0 && IsEditing(e, history, size) && IsHistory(history)
    ensures IsEditing(r, history, size)
  {
    if keys == [] then e else Edit(EditAll(e, keys[..|keys| - 1], history, size), keys[|keys| - 1], history, size)
  }

  /** Away from the bottom of the history, whatever is typed. */
  ghost predicate IsExcursion(e: Editing, keys: seq<Key>, history: seq<seq<Byte>>, size: nat)
    requires size > 0 && IsEditing(e, history, size) && IsHistory(history)
  {
    forall i :: 0 < i < |keys| ==> EditAll(e, keys[..i], history, size).index < |history|
  }

  lemma {:induction false} DraftKept(e: Editing, keys: seq<Key>, history: seq<seq<Byte>>, size: nat)
    requires size > 0 && IsEditing(e, history, size) && IsHistory(history) && e.index == |history|
    requires keys != [] && IsExcursion(e, keys, history, size) && EditAll(e, keys, history, size).index < |history|
    ensures EditAll(e, keys, history, size).saved == Cut(e.text, LINE_MAX)
  {
    var n := |keys| - 1;
    var init := keys[..n];
    assert EditAll(e, [], history, size) == e;
    if n > 0 {
      assert forall i :: 0 < i < n ==> init[..i] == keys[..i];
      assert EditAll(e, keys[..n], history, size).index < |history|;
      DraftKept(e, init, history, size);
    } else {
      assert init == [];
    }
  }

  /** Coming back to the bottom of the history restores the line that was left there, however the entries
      in between were browsed and edited. */
  lemma DraftRestored(e: Editing, keys: seq<Key>, history: seq<seq<Byte>>, size: nat)
    requires 0 < size <= LINE_MAX && IsEditing(e, history, size) && IsHistory(history) && e.index == |history|
    requires |keys| >= 2 && IsExcursion(e, keys, history, size) && EditAll(e, keys, history, size).index == |history|
    ensures EditAll(e, keys, history, size).text == e.text && EditAll(e, keys, history, size).pos == |e.text|
  {
    var n := |keys| - 1;
    var init := keys[..n];
    assert forall i :: 0 < i < n ==> init[..i] == keys[..i];
    assert EditAll(e, keys[..n], history, size).index < |history|;
    DraftKept(e, init, history, size);
  }

  // ---------- the history ----------

  function Remembered(history: seq<seq<Byte>>, line: seq<Byte>): seq<seq<Byte>> {
    if history != [] && history[|history| - 1] == line then history
    else (if |history| == HIST_MAX then history[1..] else history) + [line]
  }

  /** The array of the history; a full one loses its first entry. */
  method Remember(history: array<seq<Byte>>, count0: nat, line: seq<Byte>) returns (count: nat)
    requires history.Length == HIST_MAX && count0 <= HIST_MAX
    modifies history
    ensures count <= HIST_MAX && history[..count] == Remembered(old(history[..count0]), line)
  {
    count := count0;
    if count == 0 || history[count - 1] != line {
      if count == HIST_MAX {
        forall i | 0 <= i < HIST_MAX - 1 {
          history[i] := history[i + 1];
        }
        count := count - 1;
        assert history[..count] == old(history[1..count0]);
      }
      history[count] := line;
      count := count + 1;
    }
  }

  /** A stream of lines without immediate repetitions. */
  function StutterFree(lines: seq<seq<Byte>>): seq<seq<Byte>> {
    if lines == [] then []
    else
      var before, line := StutterFree(lines[..|lines| - 1]), lines[|lines| - 1];
      if before != [] && before[|before| - 1] == line then before else before + [line]
  }

  function Last<T>(s: seq<T>, n: nat): seq<T> {
    if |s| <= n then s else s[|s| - n..]
  }

  function RememberAll(lines: seq<seq<Byte>>): seq<seq<Byte>> {
    if lines == [] then [] else Remembered(RememberAll(lines[..|lines| - 1]), lines[|lines| - 1])
  }

  /** The history is the last 200 lines of the stream without immediate repetitions. */
  lemma {:induction false} HistoryIsLast(lines: seq<seq<Byte>>)
    ensures RememberAll(lines) == Last(StutterFree(lines), HIST_MAX)
  {
    if lines != [] {
      HistoryIsLast(lines[..|lines| - 1]);
      var all, line := StutterFree(lines[..|lines| - 1]), lines[|lines| - 1];
      if all == [] || all[|all| - 1] != line {
        assert StutterFree(lines) == all + [line];
        if |all| >= HIST_MAX {
          assert Last(all, HIST_MAX)[1..] + [line] == Last(all + [line], HIST_MAX);
        }
      }
    }
  }

  lemma {:induction false} NoStutter(lines: seq<seq<Byte>>)
    ensures var s := StutterFree(lines);
      && (forall i :: 0 <= i < |s| - 1 ==> s[i] != s[i + 1])
      && (lines != [] ==> s != [] && s[|s| - 1] == lines[|lines| - 1])
      && (forall line :: line in s <==> line in lines)
  {
    if lines != [] {
      var n := |lines| - 1;
      var before, line := StutterFree(lines[..n]), lines[n];
      NoStutter(lines[..n]);
      assert StutterFree(lines) in {before, before + [line]};
      assert lines == lines[..n] + [line];
      assert forall x :: x in before + [line] <==> x in before || x == line;
    }
  }

  // ---------- a session ----------

  predicate IsBlankByte(c: Byte) {
    c == ' ' as int || c == '\t' as int
  }

  function WordLength(s: seq<Byte>): (n: nat)
    ensures n <= |s|
  {
    if s == [] || IsBlankByte(s[0]) then 0 else 1 + WordLength(s[1..])
  }

  /** strtok at blanks, up to a number of words. */
  function Tokens(s: seq<Byte>, max: nat): seq<seq<Byte>>
    decreases |s|
  {
    if s == [] || max == 0 then []
    else if IsBlankByte(s[0]) then Tokens(s[1..], max)
    else
      var n := WordLength(s);
      [s[..n]] + Tokens(s[n..], max - 1)
  }

  const EXIT: seq<Byte> := [101, 120, 105, 116]
  const QUIT: seq<Byte> := [113, 117, 105, 116]
  const INTERFACE: seq<Byte> := [105, 110, 116, 101, 114, 102, 97, 99, 101]

  /** What a line does to the session: whether it ends, and the interface that is being configured. */
  function Command(line: seq<Byte>, current: seq<Byte>, known: seq<Byte> -> bool): (bool, seq<Byte>) {
    var argv := Tokens(line, 32);
    if argv == [] then (false, current)
    else if argv[0] == EXIT || argv[0] == QUIT then (current == [], [])
    else if current == [] && argv[0] == INTERFACE && |argv| == 2 then (false, if known(argv[1]) then Cut(argv[1], 64) else [])
    else (false, current)
  }

  /** The lines a session reads, empty ones left out. */
  function SessionLines(input: Input, history: seq<seq<Byte>>, current: seq<Byte>, known: seq<Byte> -> bool): seq<seq<Byte>>
    requires IsHistory(history)
    decreases |input|
  {
    var (outcome, rest) := Read(Fresh(history), input, history, LINE_MAX);
    if outcome == Eof || input == [] then []
    else if outcome.text == [] then SessionLines(rest, history, current, known)
    else
      var (ends, current') := Command(outcome.text, current, known);
      RememberedIsHistory(history, outcome.text);
      [outcome.text] + (if ends then [] else SessionLines(rest, Remembered(history, outcome.text), current', known))
  }

  lemma RememberedIsHistory(history: seq<seq<Byte>>, line: seq<Byte>)
    requires IsHistory(history) && NulFree(line)
    ensures IsHistory(Remembered(history, line))
  {
    hide NulFree;
  }

  lemma NothingToRead(history: seq<seq<Byte>>)
    requires IsHistory(history)
    ensures Read(Fresh(history), [], history, LINE_MAX).0 == Eof
  {
  }

  /** One turn of a session: a line is read, remembered and executed. */
  method Turn(line: array<Byte>, history: array<seq<Byte>>, count0: nat, current0: seq<Byte>, input: Input,
              known: seq<Byte> -> bool)
    returns (count: nat, current: seq<Byte>, rest: Input, done: bool, said: seq<seq<Byte>>)
    requires line.Length == LINE_MAX && history.Length == HIST_MAX && count0 <= HIST_MAX && IsHistory(history[..count0])
    modifies line, history
    ensures count <= HIST_MAX && IsHistory(history[..count])
    ensures said == [] || |said| == 1
    ensures history[..count] == if said == [] then old(history[..count0]) else Remembered(old(history[..count0]), said[0])
    ensures SessionLines(input, old(history[..count0]), current0, known)
         == said + (if done then [] else SessionLines(rest, history[..count], current, known))
    ensures !done ==> |rest| < |input|
  {
    hide Read, Command, Remembered, NulFree;
    count, current, done, said := count0, current0, false, [];
    ghost var before := history[..count0];
    NothingToRead(before);
    var n;
    n, rest := ReadLine(line, history[..count], input);
    if n < 0 {
      done := true;
    } else if n > 0 {
      var text := line[..n];
      RememberedIsHistory(before, text);
      count := Remember(history, count, text);
      said := [text];
      var (ends, next) := Command(text, current, known);
      done, current := ends, next;
    }
  }

  /** fnc_repl: reads, remembers and executes lines until the input or the session ends. The history is the last
      of the lines that were read, without immediate repetitions. */
  method Session(input: Input, known: seq<Byte> -> bool) returns (remembered: seq<seq<Byte>>)
    ensures remembered == Last(StutterFree(SessionLines(input, [], [], known)), HIST_MAX)
  {
    hide SessionLines, RememberAll, Remembered, StutterFree, Last, NulFree;
    var line := new Byte[LINE_MAX];
    var history := new seq<Byte>[HIST_MAX];
    var count: nat, current: seq<Byte>, rest := 0, [], input;
    ghost var lines := [];
    assert history[..count] == [];
    NothingRemembered();
    var done := false;
    while !done
      invariant count <= HIST_MAX && history[..count] == RememberAll(lines) && IsHistory(history[..count])
      invariant SessionLines(input, [], [], known)
             == lines + (if done then [] else SessionLines(rest, history[..count], current, known))
      decreases !done, |rest|
    {
      var said;
      count, current, rest, done, said := Turn(line, history, count, current, rest, known);
      RememberMore(lines, said);
      AppendMore(lines, said, if done then [] else SessionLines(rest, history[..count], current, known));
      lines := lines + said;
    }
    assert lines == SessionLines(input, [], [], known);
    HistoryIsLast(lines);
    remembered := history[..count];
  }

  lemma NothingRemembered()
    ensures RememberAll([]) == []
  {
  }

  lemma RememberMore(lines: seq<seq<Byte>>, said: seq<seq<Byte>>)
    requires said == [] || |said| == 1
    ensures RememberAll(lines + said) == if said == [] then RememberAll(lines) else Remembered(RememberAll(lines), said[0])
  {
    if said == [] {
      assert lines + said == lines;
    } else {
      assert (lines + said)[..|lines|] == lines;
    }
  }

  lemma AppendMore(a: seq<seq<Byte>>, b: seq<seq<Byte>>, c: seq<seq<Byte>>)
    ensures a + (b + c) == a + b + c
  {
  }
}
