/** The final message sequence (section 7.6 of ISO/IEC 18004:2015): block by block into column by
    column, and the reader that finds every symbol again from the block lengths alone. */
module Interleave {

  function Lengths<T>(blocks: seq<seq<T>>): seq<nat> {
    seq(|blocks|, b requires 0 <= b < |blocks| => |blocks[b]|)
  }

  /** How many of the first b blocks are longer than i. */
  function Rank(lens: seq<nat>, i: nat, b: nat): nat
    requires b <= |lens|
  {
    if b == 0 then 0 else Rank(lens, i, b - 1) + (if i < lens[b - 1] then 1 else 0)
  }

  /** How many symbols columns 0 to i - 1 hold. */
  function Offset(lens: seq<nat>, i: nat): nat {
    if i == 0 then 0 else Offset(lens, i - 1) + Rank(lens, i - 1, |lens|)
  }

  function Longest(lens: seq<nat>): nat {
    if lens == [] then 0
    else
      var m := Longest(lens[..|lens| - 1]);
      if m < lens[|lens| - 1] then lens[|lens| - 1] else m
  }

  function Sum(lens: seq<nat>): nat {
    if lens == [] then 0 else Sum(lens[..|lens| - 1]) + lens[|lens| - 1]
  }

  // ---------- the reader ----------

  /** Blocks of the given lengths out of a message in column order; missing symbols read as filler. */
  function Deinterleave<T>(lens: seq<nat>, s: seq<T>, filler: T): seq<seq<T>> {
    seq(|lens|, b requires 0 <= b < |lens| =>
      seq(lens[b], i requires 0 <= i < lens[b] =>
        var at := Offset(lens, i) + Rank(lens, i, b);
        if at < |s| then s[at] else filler))
  }

  // ---------- the writer ----------

  /** s starts with the first i columns of the blocks and then symbol i of the first b blocks. */
  ghost predicate Written<T>(blocks: seq<seq<T>>, s: seq<T>, i: nat, b: nat)
    requires b <= |blocks|
  {
    var lens := Lengths(blocks);
    && |s| == Offset(lens, i) + Rank(lens, i, b)
    && (forall c, j | 0 <= c < |blocks| && 0 <= j < |blocks[c]| && (j < i || (j == i && c < b)) ::
         var at := Offset(lens, j) + Rank(lens, j, c);
         at < |s| && s[at] == blocks[c][j])
  }

  lemma WrittenNothing<T>(blocks: seq<seq<T>>)
    ensures Written(blocks, [], 0, 0)
  {
  }

  lemma WrittenSymbol<T>(blocks: seq<seq<T>>, s: seq<T>, i: nat, b: nat)
    requires b < |blocks| && Written(blocks, s, i, b)
    ensures Written(blocks, if i < |blocks[b]| then s + [blocks[b][i]] else s, i, b + 1)
  {
  }

  lemma WrittenColumn<T>(blocks: seq<seq<T>>, s: seq<T>, i: nat)
    requires Written(blocks, s, i, |blocks|)
    ensures Written(blocks, s, i + 1, 0)
  {
    var lens := Lengths(blocks);
    assert Offset(lens, i + 1) == Offset(lens, i) + Rank(lens, i, |blocks|);
  }

  /** Nothing but symbols of the blocks. */
  ghost predicate Drawn<T>(s: seq<T>, blocks: seq<seq<T>>) {
    forall x :: x in s ==> InBlock(x, blocks)
  }

  ghost predicate InBlock<T>(x: T, blocks: seq<seq<T>>) {
    exists b :: 0 <= b < |blocks| && x in blocks[b]
  }

  method PushColumns<T>(blocks: seq<seq<T>>) returns (result: seq<T>)
    ensures Written(blocks, result, Longest(Lengths(blocks)), 0)
    ensures Drawn(result, blocks)
  {
    hide Written;
    var max := LongestBlock(blocks);
    result := [];
    WrittenNothing(blocks);
    for i := 0 to max
      invariant Written(blocks, result, i, 0) && Drawn(result, blocks)
    {
      for b := 0 to |blocks|
        invariant Written(blocks, result, i, b) && Drawn(result, blocks)
      {
        WrittenSymbol(blocks, result, i, b);
        if i < |blocks[b]| {
          result := result + [blocks[b][i]];
        }
      }
      WrittenColumn(blocks, result, i);
    }
  }

  method LongestBlock<T>(blocks: seq<seq<T>>) returns (max: nat)
    ensures max == Longest(Lengths(blocks))
  {
    max := 0;
    for b := 0 to |blocks|
      invariant max == Longest(Lengths(blocks)[..b])
    {
      assert Lengths(blocks)[..b + 1][..b] == Lengths(blocks)[..b];
      if max < |blocks[b]| {
        max := |blocks[b]|;
      }
    }
    assert Lengths(blocks)[..|blocks|] == Lengths(blocks);
  }

  lemma DrawnAppend<T>(s: seq<T>, a: seq<seq<T>>, t: seq<T>, b: seq<seq<T>>)
    requires Drawn(s, a) && Drawn(t, b)
    ensures Drawn(s + t, a + b)
  {
    var both := a + b;
    forall x | x in s + t
      ensures InBlock(x, both)
    {
      if x in s {
        assert InBlock(x, a);
        var c :| 0 <= c < |a| && x in a[c];
        assert both[c] == a[c];
      } else {
        assert InBlock(x, b);
        var c :| 0 <= c < |b| && x in b[c];
        assert both[|a| + c] == b[c];
      }
    }
  }

  /** The whole message: all data columns, then all check columns. */
  method InterleaveBlocks<T>(dataBlocks: seq<seq<T>>, ecBlocks: seq<seq<T>>) returns (result: seq<T>)
    ensures |result| == Sum(Lengths(dataBlocks)) + Sum(Lengths(ecBlocks))
    ensures Drawn(result, dataBlocks + ecBlocks)
    ensures forall filler ::
      Deinterleave(Lengths(dataBlocks), result[..Sum(Lengths(dataBlocks))], filler) == dataBlocks
    ensures forall filler ::
      Deinterleave(Lengths(ecBlocks), result[Sum(Lengths(dataBlocks))..], filler) == ecBlocks
  {
    var data := PushColumns(dataBlocks);
    var ec := PushColumns(ecBlocks);
    ReadBack(dataBlocks, data);
    ReadBack(ecBlocks, ec);
    result := data + ec;
    DrawnAppend(data, dataBlocks, ec, ecBlocks);
    assert result[..|data|] == data && result[|data|..] == ec;
  }

  lemma {:induction false} LongestBounds(lens: seq<nat>, b: nat)
    requires b < |lens|
    ensures lens[b] <= Longest(lens)
  {
    if b < |lens| - 1 {
      LongestBounds(lens[..|lens| - 1], b);
    }
  }

  /** Every symbol is in the message once all columns are written, and nothing else is. */
  lemma ReadBack<T>(blocks: seq<seq<T>>, s: seq<T>)
    requires Written(blocks, s, Longest(Lengths(blocks)), 0)
    ensures |s| == Sum(Lengths(blocks))
    ensures forall filler :: Deinterleave(Lengths(blocks), s, filler) == blocks
  {
    var lens := Lengths(blocks);
    forall b | 0 <= b < |lens|
      ensures lens[b] <= Longest(lens)
    {
      LongestBounds(lens, b);
    }
    OffsetIsSum(lens, Longest(lens));
    CappedIsSum(lens, Longest(lens));
    forall filler: T
      ensures Deinterleave(lens, s, filler) == blocks
    {
      var out := Deinterleave(lens, s, filler);
      forall c | 0 <= c < |blocks|
        ensures out[c] == blocks[c]
      {
        forall j | 0 <= j < |blocks[c]|
          ensures out[c][j] == blocks[c][j]
        {
          LongestBounds(lens, c);
          assert j < Longest(lens);
        }
      }
    }
  }

  /** The lengths cut off at n, added up. */
  function Capped(lens: seq<nat>, n: nat): nat {
    if lens == [] then 0
    else Capped(lens[..|lens| - 1], n) + (if lens[|lens| - 1] < n then lens[|lens| - 1] else n)
  }

  lemma {:induction false} CappedStep(lens: seq<nat>, n: nat, b: nat)
    requires b <= |lens|
    ensures Capped(lens[..b], n + 1) == Capped(lens[..b], n) + Rank(lens, n, b)
  {
    if b > 0 {
      CappedStep(lens, n, b - 1);
      assert lens[..b][..b - 1] == lens[..b - 1];
    }
  }

  lemma {:induction false} CappedZero(lens: seq<nat>)
    ensures Capped(lens, 0) == 0
  {
    if lens != [] {
      CappedZero(lens[..|lens| - 1]);
    }
  }

  lemma {:induction false} OffsetIsSum(lens: seq<nat>, n: nat)
    ensures Offset(lens, n) == Capped(lens, n)
  {
    if n == 0 {
      CappedZero(lens);
    } else {
      OffsetIsSum(lens, n - 1);
      CappedStep(lens, n - 1, |lens|);
      assert lens[..|lens|] == lens;
    }
  }

  lemma {:induction false} CappedIsSum(lens: seq<nat>, n: nat)
    requires forall b :: 0 <= b < |lens| ==> lens[b] <= n
    ensures Capped(lens, n) == Sum(lens)
  {
    if lens != [] {
      CappedIsSum(lens[..|lens| - 1], n);
    }
  }
}
