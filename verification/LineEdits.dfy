/** Applying collected edits to a list of lines: a stable descending sort and in-place splices, against
    the simultaneous edit "for every original line its insertions, then the line or its replacement". */
module LineEdits {

  /** count lines at position at are replaced by the given ones: 1 for a replacement, 0 for an insertion. */
  datatype Edit = Edit(at: nat, lines: seq<string>, count: nat)

  /** Array.prototype.splice. */
  function Splice(s: seq<string>, at: nat, count: nat, items: seq<string>): seq<string> {
    var start := if at < |s| then at else |s|;
    var end := if start + count < |s| then start + count else |s|;
    s[..start] + items + s[end..]
  }

  // ---------- the simultaneous edit ----------

  function InsertedAt(insertions: map<nat, seq<string>>, i: nat): seq<string> {
    if i in insertions then insertions[i] else []
  }

  function LineAt(lines: seq<string>, replacements: map<nat, string>, i: nat): string
    requires i < |lines|
  {
    if i in replacements then replacements[i] else lines[i]
  }

  function EditedFrom(lines: seq<string>, insertions: map<nat, seq<string>>, replacements: map<nat, string>, i: nat)
    : seq<string>
    requires i <= |lines|
    decreases |lines| - i
  {
    InsertedAt(insertions, i)
    + (if i == |lines| then []
       else [LineAt(lines, replacements, i)] + EditedFrom(lines, insertions, replacements, i + 1))
  }

  function Edited(lines: seq<string>, insertions: map<nat, seq<string>>, replacements: map<nat, string>): seq<string> {
    EditedFrom(lines, insertions, replacements, 0)
  }

  // ---------- what the loop is given ----------

  /** The insertions among the edits, by position. */
  function Insertions(edits: seq<Edit>): map<nat, seq<string>> {
    if edits == [] then map[]
    else
      var e := edits[|edits| - 1];
      var before := Insertions(edits[..|edits| - 1]);
      if e.count == 0 then before[e.at := e.lines] else before
  }

  /** The replacements among the edits, by position. */
  function Replacements(edits: seq<Edit>): map<nat, string> {
    if edits == [] then map[]
    else
      var e := edits[|edits| - 1];
      var before := Replacements(edits[..|edits| - 1]);
      if e.count == 1 && |e.lines| == 1 then before[e.at := e.lines[0]] else before
  }

  /** One line for one existing line, or lines in front of a line or at the end. */
  predicate InRange(e: Edit, n: nat) {
    (e.count == 1 && |e.lines| == 1 && e.at < n) || (e.count == 0 && e.at <= n)
  }

  /** Replacements first, then insertions, at most one of each kind at a position. */
  ghost predicate Collected(edits: seq<Edit>, n: nat) {
    && (forall e :: e in edits ==> InRange(e, n))
    && (forall i, j :: 0 <= i < j < |edits| && edits[i].at == edits[j].at ==> edits[i].count == 1 && edits[j].count == 0)
  }

  function At(edits: seq<Edit>, a: nat): seq<Edit> {
    if edits == [] then []
    else if edits[0].at == a then [edits[0]] + At(edits[1..], a)
    else At(edits[1..], a)
  }

  /** A stable sort by descending position: same edits at every position, in the same order. */
  ghost predicate StableDescending(edits: seq<Edit>, sorted: seq<Edit>) {
    && (forall i, j :: 0 <= i < j < |sorted| ==> sorted[i].at >= sorted[j].at)
    && (forall a: nat :: At(sorted, a) == At(edits, a))
  }

  /** Insertion sort, as one sort that is stable. */
  method SortDescending(edits: seq<Edit>) returns (sorted: seq<Edit>)
    ensures StableDescending(edits, sorted)
  {
    hide StableDescending;
    sorted := [];
    SortedNothing();
    assert edits[..0] == [];
    for k := 0 to |edits|
      invariant StableDescending(edits[..k], sorted)
    {
      var p := |sorted|;
      while p > 0 && sorted[p - 1].at < edits[k].at
        invariant 0 <= p <= |sorted|
        invariant forall i :: p <= i < |sorted| ==> sorted[i].at < edits[k].at
      {
        p := p - 1;
      }
      InsertSorted(edits[..k], sorted, p, edits[k]);
      assert edits[..k + 1] == edits[..k] + [edits[k]];
      sorted := sorted[..p] + [edits[k]] + sorted[p..];
    }
    assert edits[..|edits|] == edits;
  }

  lemma SortedNothing()
    ensures StableDescending([], [])
  {
  }

  lemma InsertSorted(edits: seq<Edit>, sorted: seq<Edit>, p: nat, e: Edit)
    requires p <= |sorted| && StableDescending(edits, sorted)
    requires forall i :: p <= i < |sorted| ==> sorted[i].at < e.at
    requires p > 0 ==> sorted[p - 1].at >= e.at
    ensures StableDescending(edits + [e], sorted[..p] + [e] + sorted[p..])
  {
    hide At;
    var head, tail := sorted[..p], sorted[p..];
    forall a: nat
      ensures At(head + [e] + tail, a) == At(edits + [e], a)
    {
      assert sorted == head + tail;
      AtInserted(edits, head, tail, e, a);
    }
  }

  lemma AtInserted(edits: seq<Edit>, head: seq<Edit>, tail: seq<Edit>, e: Edit, a: nat)
    requires At(head + tail, a) == At(edits, a) && forall i :: 0 <= i < |tail| ==> tail[i].at < e.at
    ensures At(head + [e] + tail, a) == At(edits + [e], a)
  {
    hide At;
    AtAppend(edits, [e], a);
    AtAppend(head, tail, a);
    AtAppend(head + [e], tail, a);
    AtAppend(head, [e], a);
    AtOne(e, a);
    if e.at == a {
      NoneAt(tail, a);
      assert At(head, a) + [] == At(head, a);
    } else {
      assert At(head, a) + [] == At(head, a) && At(edits, a) + [] == At(edits, a);
    }
  }

  lemma AtOne(e: Edit, a: nat)
    ensures At([e], a) == if e.at == a then [e] else []
  {
    assert [e][1..] == [];
  }

  lemma {:induction false} AtAppend(s: seq<Edit>, t: seq<Edit>, a: nat)
    ensures At(s + t, a) == At(s, a) + At(t, a)
  {
    if s == [] {
      assert s + t == t;
    } else {
      AtAppend(s[1..], t, a);
      assert (s + t)[1..] == s[1..] + t;
    }
  }

  lemma {:induction false} NoneAt(s: seq<Edit>, a: nat)
    requires forall i :: 0 <= i < |s| ==> s[i].at != a
    ensures At(s, a) == []
  {
    if s != [] {
      NoneAt(s[1..], a);
    }
  }

  lemma {:induction false} AtMembers(s: seq<Edit>, a: nat)
    ensures forall e :: e in At(s, a) <==> e in s && e.at == a
  {
    if s != [] {
      AtMembers(s[1..], a);
    }
  }

  // ---------- positions after sorting ----------

  /** Two edits at one position keep their order. */
  lemma {:induction false} AtPair(s: seq<Edit>, i: nat, j: nat)
    requires i < j < |s| && s[i].at == s[j].at
    ensures exists p, q :: 0 <= p < q < |At(s, s[i].at)| && At(s, s[i].at)[p] == s[i] && At(s, s[i].at)[q] == s[j]
  {
    var a := s[i].at;
    var x, y, z := s[..i], s[i + 1..j], s[j + 1..];
    assert s == x + [s[i]] + y + [s[j]] + z;
    AtAppend(x + [s[i]] + y + [s[j]], z, a);
    AtAppend(x + [s[i]] + y, [s[j]], a);
    AtAppend(x + [s[i]], y, a);
    AtAppend(x, [s[i]], a);
    assert At([s[i]], a) == [s[i]] && At([s[j]], a) == [s[j]];
    var p := |At(x, a)|;
    var q := |At(x + [s[i]] + y, a)|;
    assert At(s, a)[p] == s[i] && At(s, a)[q] == s[j];
  }

  lemma {:induction false} AtOrdered(s: seq<Edit>, n: nat, a: nat, p: nat, q: nat)
    requires Collected(s, n) && p < q < |At(s, a)|
    ensures At(s, a)[p].count == 1 && At(s, a)[q].count == 0
  {
    var rest := At(s[1..], a);
    if s[0].at != a {
      AtOrdered(s[1..], n, a, p, q);
    } else if p > 0 {
      AtOrdered(s[1..], n, a, p - 1, q - 1);
    } else {
      AtMembers(s[1..], a);
      assert rest[q - 1] in rest;
      var j :| 0 <= j < |s[1..]| && s[1..][j] == rest[q - 1];
      assert s[0].at == s[j + 1].at;
    }
  }

  /** Sorting keeps the edits collected. */
  lemma SortedCollected(edits: seq<Edit>, sorted: seq<Edit>, n: nat)
    requires Collected(edits, n) && StableDescending(edits, sorted)
    ensures Collected(sorted, n)
  {
    forall e | e in sorted
      ensures InRange(e, n)
    {
      AtMembers(sorted, e.at);
      AtMembers(edits, e.at);
      assert e in At(edits, e.at);
    }
    forall i, j | 0 <= i < j < |sorted| && sorted[i].at == sorted[j].at
      ensures sorted[i].count == 1 && sorted[j].count == 0
    {
      AtPair(sorted, i, j);
      var all := At(sorted, sorted[i].at);
      var p, q :| 0 <= p < q < |all| && all[p] == sorted[i] && all[q] == sorted[j];
      AtOrdered(edits, n, sorted[i].at, p, q);
    }
  }

  function LastInsertion(s: seq<Edit>): seq<seq<string>> {
    if s == [] then []
    else if s[|s| - 1].count == 0 then [s[|s| - 1].lines]
    else LastInsertion(s[..|s| - 1])
  }

  function LastReplacement(s: seq<Edit>): seq<string> {
    if s == [] then []
    else if s[|s| - 1].count == 1 && |s[|s| - 1].lines| == 1 then [s[|s| - 1].lines[0]]
    else LastReplacement(s[..|s| - 1])
  }

  lemma AtSnoc(s: seq<Edit>, a: nat)
    requires s != []
    ensures var k := |s| - 1;
      At(s, a) == if s[k].at == a then At(s[..k], a) + [s[k]] else At(s[..k], a)
  {
    var k := |s| - 1;
    assert s == s[..k] + [s[k]];
    AtAppend(s[..k], [s[k]], a);
    assert At([s[k]], a) == if s[k].at == a then [s[k]] else [];
  }

  /** What stands at a position depends only on the edits there. */
  lemma {:induction false} InsertionsByPosition(s: seq<Edit>, a: nat)
    ensures (if a in Insertions(s) then [Insertions(s)[a]] else []) == LastInsertion(At(s, a))
  {
    if s != [] {
      var k := |s| - 1;
      InsertionsByPosition(s[..k], a);
      AtSnoc(s, a);
      if s[k].at == a {
        assert At(s, a)[..|At(s, a)| - 1] == At(s[..k], a);
      }
    }
  }

  lemma {:induction false} ReplacementsByPosition(s: seq<Edit>, a: nat)
    ensures (if a in Replacements(s) then [Replacements(s)[a]] else []) == LastReplacement(At(s, a))
  {
    if s != [] {
      var k := |s| - 1;
      ReplacementsByPosition(s[..k], a);
      AtSnoc(s, a);
      if s[k].at == a {
        assert At(s, a)[..|At(s, a)| - 1] == At(s[..k], a);
      }
    }
  }

  lemma SortedMaps(edits: seq<Edit>, sorted: seq<Edit>)
    requires StableDescending(edits, sorted)
    ensures Insertions(sorted) == Insertions(edits) && Replacements(sorted) == Replacements(edits)
  {
    forall a: nat
      ensures (a in Insertions(sorted)) == (a in Insertions(edits))
      ensures a in Insertions(sorted) ==> Insertions(sorted)[a] == Insertions(edits)[a]
      ensures (a in Replacements(sorted)) == (a in Replacements(edits))
      ensures a in Replacements(sorted) ==> Replacements(sorted)[a] == Replacements(edits)[a]
    {
      InsertionsByPosition(sorted, a);
      InsertionsByPosition(edits, a);
      ReplacementsByPosition(sorted, a);
      ReplacementsByPosition(edits, a);
      assert At(sorted, a) == At(edits, a);
    }
  }

  // ---------- the loop ----------

  ghost predicate KeysFrom(insertions: map<nat, seq<string>>, replacements: map<nat, string>, a: nat) {
    (forall k :: k in insertions ==> a <= k) && (forall k :: k in replacements ==> a <= k)
  }

  /** In front of the first edited position nothing has changed. */
  lemma {:induction false} UneditedPrefix(lines: seq<string>, insertions: map<nat, seq<string>>,
                                          replacements: map<nat, string>, i: nat, a: nat)
    requires i <= a <= |lines| && KeysFrom(insertions, replacements, a)
    ensures EditedFrom(lines, insertions, replacements, i)
         == lines[i..a] + EditedFrom(lines, insertions, replacements, a)
    decreases a - i
  {
    if i < a {
      UneditedPrefix(lines, insertions, replacements, i + 1, a);
      assert lines[i..a] == [lines[i]] + lines[i + 1..a];
    } else {
      assert lines[i..a] == [];
    }
  }

  lemma {:induction false} SameBeyond(lines: seq<string>, ins: map<nat, seq<string>>, rep: map<nat, string>,
                                      ins': map<nat, seq<string>>, rep': map<nat, string>, i: nat)
    requires i <= |lines|
    requires forall k: nat :: i <= k ==> InsertedAt(ins, k) == InsertedAt(ins', k)
    requires forall k: nat :: i <= k < |lines| ==> LineAt(lines, rep, k) == LineAt(lines, rep', k)
    ensures EditedFrom(lines, ins, rep, i) == EditedFrom(lines, ins', rep', i)
    decreases |lines| - i
  {
    if i < |lines| {
      SameBeyond(lines, ins, rep, ins', rep', i + 1);
    }
  }

  /** Nothing but a replacement precedes an edit at its own position. */
  lemma FirstAtPosition(done: seq<Edit>, e: Edit, n: nat)
    requires Collected(done + [e], n)
    ensures e.at !in Insertions(done)
    ensures e.count == 1 ==> e.at !in Replacements(done)
  {
    var both := done + [e];
    if e.at in Insertions(done) {
      var d := OriginOfInsertion(done, e.at);
      var i :| 0 <= i < |done| && done[i] == d;
      SamePosition(both, n, i, |done|);
    }
    if e.count == 1 && e.at in Replacements(done) {
      var d := OriginOfReplacement(done, e.at);
      var i :| 0 <= i < |done| && done[i] == d;
      SamePosition(both, n, i, |done|);
    }
  }

  lemma SamePosition(edits: seq<Edit>, n: nat, i: nat, j: nat)
    requires Collected(edits, n) && i < j < |edits| && edits[i].at == edits[j].at
    ensures edits[i].count == 1 && edits[j].count == 0
  {
  }

  lemma SpliceMiddle(before: seq<string>, x: seq<string>, rest: seq<string>, items: seq<string>)
    ensures Splice(before + (x + rest), |before|, |x|, items) == before + (items + rest)
  {
    assert before + (x + rest) == before + x + rest;
  }

  lemma SpliceReplaces(lines: seq<string>, ins: map<nat, seq<string>>, rep: map<nat, string>, a: nat, line: string)
    requires a < |lines| && KeysFrom(ins, rep, a) && a !in ins && a !in rep
    ensures Splice(Edited(lines, ins, rep), a, 1, [line]) == Edited(lines, ins, rep[a := line])
  {
    var rest := EditedFrom(lines, ins, rep, a + 1);
    ReplacedAt(lines, ins, rep, a, line);
    hide EditedFrom, Splice;
    UneditedPrefix(lines, ins, rep, 0, a);
    UneditedPrefix(lines, ins, rep[a := line], 0, a);
    SpliceMiddle(lines[0..a], [lines[a]], rest, [line]);
  }

  lemma ReplacedAt(lines: seq<string>, ins: map<nat, seq<string>>, rep: map<nat, string>, a: nat, line: string)
    requires a < |lines| && a !in ins && a !in rep
    ensures EditedFrom(lines, ins, rep, a) == [lines[a]] + EditedFrom(lines, ins, rep, a + 1)
    ensures EditedFrom(lines, ins, rep[a := line], a) == [line] + EditedFrom(lines, ins, rep, a + 1)
  {
    SameBeyond(lines, ins, rep, ins, rep[a := line], a + 1);
  }

  lemma SpliceInserts(lines: seq<string>, ins: map<nat, seq<string>>, rep: map<nat, string>, a: nat, items: seq<string>)
    requires a <= |lines| && KeysFrom(ins, rep, a) && a !in ins
    ensures Splice(Edited(lines, ins, rep), a, 0, items) == Edited(lines, ins[a := items], rep)
  {
    var rest := EditedFrom(lines, ins, rep, a);
    InsertedBefore(lines, ins, rep, a, items);
    hide EditedFrom, Splice;
    UneditedPrefix(lines, ins, rep, 0, a);
    UneditedPrefix(lines, ins[a := items], rep, 0, a);
    assert [] + rest == rest;
    SpliceMiddle(lines[0..a], [], rest, items);
  }

  lemma InsertedBefore(lines: seq<string>, ins: map<nat, seq<string>>, rep: map<nat, string>, a: nat, items: seq<string>)
    requires a <= |lines| && a !in ins
    ensures EditedFrom(lines, ins[a := items], rep, a) == items + EditedFrom(lines, ins, rep, a)
  {
    if a < |lines| {
      SameBeyond(lines, ins, rep, ins[a := items], rep, a + 1);
    }
  }

  /** One splice, in front of everything spliced so far, carries out one edit. */
  lemma SpliceIsEdit(lines: seq<string>, done: seq<Edit>, e: Edit, current: seq<string>)
    requires Collected(done + [e], |lines|)
    requires forall d :: d in done ==> d.at >= e.at
    requires current == Edited(lines, Insertions(done), Replacements(done))
    ensures Splice(current, e.at, e.count, e.lines)
         == Edited(lines, Insertions(done + [e]), Replacements(done + [e]))
  {
    assert (done + [e])[..|done|] == done && e in done + [e];
    KeysOfMaps(done, e.at);
    FirstAtPosition(done, e, |lines|);
    if e.count == 1 {
      assert e.lines == [e.lines[0]];
      SpliceReplaces(lines, Insertions(done), Replacements(done), e.at, e.lines[0]);
    } else {
      SpliceInserts(lines, Insertions(done), Replacements(done), e.at, e.lines);
    }
    hide Splice, Edited;
  }

  lemma {:induction false} KeysOfMaps(s: seq<Edit>, a: nat)
    requires forall d :: d in s ==> d.at >= a
    ensures KeysFrom(Insertions(s), Replacements(s), a)
  {
    if s != [] {
      KeysOfMaps(s[..|s| - 1], a);
    }
  }

  lemma {:induction false} OriginOfInsertion(s: seq<Edit>, a: nat) returns (d: Edit)
    requires a in Insertions(s)
    ensures d in s && d.at == a && d.count == 0
  {
    var e := s[|s| - 1];
    if e.count == 0 && e.at == a {
      d := e;
    } else {
      d := OriginOfInsertion(s[..|s| - 1], a);
    }
  }

  lemma {:induction false} OriginOfReplacement(s: seq<Edit>, a: nat) returns (d: Edit)
    requires a in Replacements(s)
    ensures d in s && d.at == a && d.count == 1
  {
    var e := s[|s| - 1];
    if e.count == 1 && |e.lines| == 1 && e.at == a {
      d := e;
    } else {
      d := OriginOfReplacement(s[..|s| - 1], a);
    }
  }

  lemma CollectedPrefix(sorted: seq<Edit>, n: nat, k: nat)
    requires Collected(sorted, n) && k < |sorted|
    requires forall i, j :: 0 <= i < j < |sorted| ==> sorted[i].at >= sorted[j].at
    ensures sorted[..k + 1] == sorted[..k] + [sorted[k]]
    ensures Collected(sorted[..k] + [sorted[k]], n)
    ensures forall d :: d in sorted[..k] ==> d.at >= sorted[k].at
  {
  }

  lemma Descending(edits: seq<Edit>, sorted: seq<Edit>)
    requires StableDescending(edits, sorted)
    ensures forall i, j :: 0 <= i < j < |sorted| ==> sorted[i].at >= sorted[j].at
  {
  }

  lemma NothingEdited(lines: seq<string>)
    ensures Edited(lines, Insertions([]), Replacements([])) == lines
  {
    UneditedPrefix(lines, map[], map[], 0, |lines|);
  }

  /** Sorting by descending position and splicing one after another is the simultaneous edit. */
  method ApplyEdits(lines: seq<string>, edits: seq<Edit>) returns (current: seq<string>)
    requires Collected(edits, |lines|)
    ensures current == Edited(lines, Insertions(edits), Replacements(edits))
  {
    var sorted := SortDescending(edits);
    SortedCollected(edits, sorted, |lines|);
    SortedMaps(edits, sorted);
    Descending(edits, sorted);
    hide StableDescending, Collected;
    current := lines;
    NothingEdited(lines);
    assert sorted[..0] == [];
    for k := 0 to |sorted|
      invariant current == Edited(lines, Insertions(sorted[..k]), Replacements(sorted[..k]))
    {
      hide Edited, Splice, Insertions, Replacements;
      CollectedPrefix(sorted, |lines|, k);
      SpliceIsEdit(lines, sorted[..k], sorted[k], current);
      current := Splice(current, sorted[k].at, sorted[k].count, sorted[k].lines);
    }
    assert sorted[..|sorted|] == sorted;
  }

  // ---------- what becomes of each original line ----------

  /** Where original line i ends up. */
  function NewPosition(insertions: map<nat, seq<string>>, i: nat): nat {
    |InsertedAt(insertions, i)| + (if i == 0 then 0 else NewPosition(insertions, i - 1) + 1)
  }

  /** Every line survives in order, as itself or as its replacement. */
  lemma {:induction false} LinesSurvive(lines: seq<string>, insertions: map<nat, seq<string>>,
                                        replacements: map<nat, string>, i: nat)
    requires i < |lines|
    ensures NewPosition(insertions, i) < |Edited(lines, insertions, replacements)|
    ensures Edited(lines, insertions, replacements)[NewPosition(insertions, i)] == LineAt(lines, replacements, i)
    ensures i > 0 ==> NewPosition(insertions, i - 1) < NewPosition(insertions, i)
  {
    PrefixUpTo(lines, insertions, replacements, i);
  }

  function EditedTo(lines: seq<string>, insertions: map<nat, seq<string>>, replacements: map<nat, string>, i: nat)
    : (r: seq<string>)
    requires i <= |lines|
  {
    if i == 0 then []
    else EditedTo(lines, insertions, replacements, i - 1) + InsertedAt(insertions, i - 1)
         + [LineAt(lines, replacements, i - 1)]
  }

  lemma {:induction false} PrefixUpTo(lines: seq<string>, insertions: map<nat, seq<string>>,
                                      replacements: map<nat, string>, i: nat)
    requires i <= |lines|
    ensures Edited(lines, insertions, replacements)
         == EditedTo(lines, insertions, replacements, i) + EditedFrom(lines, insertions, replacements, i)
    ensures |EditedTo(lines, insertions, replacements, i)| + |InsertedAt(insertions, i)| == NewPosition(insertions, i)
  {
    hide InsertedAt, LineAt, EditedFrom, EditedTo;
    if i == 0 {
      EditedToNothing(lines, insertions, replacements);
    } else {
      PrefixUpTo(lines, insertions, replacements, i - 1);
      EditedStep(lines, insertions, replacements, i - 1);
      Reassociate(EditedTo(lines, insertions, replacements, i - 1), InsertedAt(insertions, i - 1),
                  [LineAt(lines, replacements, i - 1)], EditedFrom(lines, insertions, replacements, i));
    }
  }

  lemma EditedToNothing(lines: seq<string>, insertions: map<nat, seq<string>>, replacements: map<nat, string>)
    ensures EditedTo(lines, insertions, replacements, 0) == []
  {
  }

  lemma EditedStep(lines: seq<string>, insertions: map<nat, seq<string>>, replacements: map<nat, string>, i: nat)
    requires i < |lines|
    ensures EditedTo(lines, insertions, replacements, i + 1)
         == EditedTo(lines, insertions, replacements, i) + InsertedAt(insertions, i) + [LineAt(lines, replacements, i)]
    ensures EditedFrom(lines, insertions, replacements, i)
         == InsertedAt(insertions, i) + ([LineAt(lines, replacements, i)] + EditedFrom(lines, insertions, replacements, i + 1))
  {
  }

  lemma Reassociate(a: seq<string>, b: seq<string>, c: seq<string>, d: seq<string>)
    ensures a + (b + (c + d)) == (a + b + c) + d
  {
  }
}
