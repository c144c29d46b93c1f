/**
 Splitting a codeword sequence into blocks and interleaving them, for any list of
 block sizes (section 7.6 of ISO/IEC 18004:2015).
 */
module QrBlocks {
  import opened QrBits

  // ---- interleaving of any list of blocks

  type Block = seq<Code>

  function Sizes(blocks: seq<Block>): (sizes: seq<nat>)
    ensures |sizes| == |blocks|
  {
    seq(|blocks|, i requires 0 <= i < |blocks| => |blocks[i]|)
  }

  /** Codeword `i` of every block that has one. */
  function Round(blocks: seq<Block>, i: nat): seq<Code> {
    if blocks == [] then [] else
      var last := blocks[|blocks| - 1];
      Round(blocks[..|blocks| - 1], i) + if i < |last| then [last[i]] else []
  }

  /** The first `n` rounds. */
  function Interleave(blocks: seq<Block>, n: nat): seq<Code> {
    if n == 0 then [] else Interleave(blocks, n - 1) + Round(blocks, n - 1)
  }

  /** How many of the blocks have a codeword `i`. */
  function RoundLength(sizes: seq<nat>, i: nat): nat {
    if sizes == [] then 0 else
      RoundLength(sizes[..|sizes| - 1], i) + if i < sizes[|sizes| - 1] then 1 else 0
  }

  /** Where round `i` starts in the interleaved stream. */
  function RoundStart(sizes: seq<nat>, i: nat): nat {
    if i == 0 then 0 else RoundStart(sizes, i - 1) + RoundLength(sizes, i - 1)
  }

  /** Where codeword `i` of block `b` lies in the interleaved stream. */
  function Position(sizes: seq<nat>, b: nat, i: nat): nat
    requires b <= |sizes|
  {
    RoundStart(sizes, i) + RoundLength(sizes[..b], i)
  }

  lemma {:induction false} RoundLengthIs(blocks: seq<Block>, i: nat)
    ensures |Round(blocks, i)| == RoundLength(Sizes(blocks), i)
  {
    if blocks != [] {
      var n := |blocks| - 1;
      RoundLengthIs(blocks[..n], i);
      assert Sizes(blocks)[..n] == Sizes(blocks[..n]);
    }
  }

  lemma {:induction false} InterleaveLength(blocks: seq<Block>, n: nat)
    ensures |Interleave(blocks, n)| == RoundStart(Sizes(blocks), n)
  {
    if n != 0 {
      InterleaveLength(blocks, n - 1);
      RoundLengthIs(blocks, n - 1);
    }
  }

  lemma {:induction false} RoundAt(blocks: seq<Block>, b: nat, i: nat)
    requires b < |blocks| && i < |blocks[b]|
    ensures var k := RoundLength(Sizes(blocks)[..b], i);
            k < |Round(blocks, i)| && Round(blocks, i)[k] == blocks[b][i]
    decreases |blocks|
  {
    var n := |blocks| - 1;
    assert Sizes(blocks)[..n] == Sizes(blocks[..n]);
    RoundLengthIs(blocks[..n], i);
    if b < n {
      RoundAt(blocks[..n], b, i);
      assert Sizes(blocks)[..b] == Sizes(blocks[..n])[..b];
    }
  }

  /** The interleaved stream has codeword `i` of block `b` at its position. */
  lemma {:induction false} InterleaveAt(blocks: seq<Block>, n: nat, b: nat, i: nat)
    requires b < |blocks| && i < |blocks[b]| && i < n
    ensures var k := Position(Sizes(blocks), b, i);
            k < |Interleave(blocks, n)| && Interleave(blocks, n)[k] == blocks[b][i]
    decreases n
  {
    hide Round, RoundLength, RoundStart, Sizes;
    if i < n - 1 {
      InterleaveAt(blocks, n - 1, b, i);
    } else {
      RoundAt(blocks, b, i);
      InterleaveLength(blocks, i);
    }
  }

  /** The first `count` codewords of block `b`, each taken from its position in the stream. */
  function BlockPrefix(stream: seq<Code>, sizes: seq<nat>, b: nat, count: nat): Block
    requires b < |sizes|
  {
    seq(if count < sizes[b] then count else sizes[b],
        (i: nat) => CodeAt(stream, Position(sizes, b, i)))
  }

  /** The decoder's blocks. */
  function Deinterleave(stream: seq<Code>, sizes: seq<nat>): (blocks: seq<Block>)
    ensures |blocks| == |sizes|
  {
    seq(|sizes|, b requires 0 <= b < |sizes| => BlockPrefix(stream, sizes, b, sizes[b]))
  }

  /** Codeword `k` of a stream; reading past the end counts as 0. */
  function CodeAt(stream: seq<Code>, k: nat): Code {
    if k < |stream| then stream[k] else 0
  }

  /** De-interleaving inverts interleaving for every list of blocks, whatever follows it in the stream. */
  lemma DeinterleaveInterleaved(blocks: seq<Block>, n: nat, rest: seq<Code>)
    requires forall b :: 0 <= b < |blocks| ==> |blocks[b]| <= n
    ensures Deinterleave(Interleave(blocks, n) + rest, Sizes(blocks)) == blocks
  {
    hide Position, Interleave;
    var sizes := Sizes(blocks);
    var stream := Interleave(blocks, n) + rest;
    var out := Deinterleave(stream, sizes);
    forall b | 0 <= b < |blocks|
      ensures out[b] == blocks[b]
    {
      forall i | 0 <= i < |blocks[b]|
        ensures out[b][i] == blocks[b][i]
      {
        InterleaveAt(blocks, n, b, i);
      }
    }
  }

  /** The encoder's interleaving loops. */
  method InterleaveBlocks(blocks: seq<Block>, n: nat) returns (out: seq<Code>)
    ensures out == Interleave(blocks, n)
  {
    out := [];
    for i := 0 to n
      invariant out == Interleave(blocks, i)
    {
      for b := 0 to |blocks|
        invariant out == Interleave(blocks, i) + Round(blocks[..b], i)
      {
        assert blocks[..b + 1][..b] == blocks[..b];
        if i < |blocks[b]| {
          out := out + [blocks[b][i]];
        }
      }
      assert blocks[..|blocks|] == blocks;
    }
  }

  /** The decoder's de-interleaving loops, which read the stream in order. */
  method DeinterleaveStream(stream: seq<Code>, sizes: seq<nat>, n: nat) returns (blocks: seq<Block>)
    requires forall b :: 0 <= b < |sizes| ==> sizes[b] <= n
    ensures blocks == Deinterleave(stream, sizes)
  {
    hide RoundStart, RoundLength, BlockPrefix;
    var out := new Block[|sizes|](_ => []);
    var idx := 0;
    RoundStartZero(sizes);
    BlockPrefixSteps(stream, sizes, 0);
    for i := 0 to n
      invariant idx == RoundStart(sizes, i)
      invariant forall b :: 0 <= b < |sizes| ==> out[b] == BlockPrefix(stream, sizes, b, i)
    {
      RoundLengthEmpty(i);
      BlockPrefixSteps(stream, sizes, i);
      for b := 0 to |sizes|
        invariant idx == Position(sizes, b, i)
        invariant forall c :: 0 <= c < |sizes| ==> out[c] == BlockPrefix(stream, sizes, c, if c < b then i + 1 else i)
      {
        RoundLengthNext(sizes, b, i);
        if i < sizes[b] {
          out[b] := out[b] + [CodeAt(stream, idx)];
          idx := idx + 1;
        }
      }
      assert sizes[..|sizes|] == sizes;
      RoundStartNext(sizes, i);
    }
    blocks := out[..];
    forall b | 0 <= b < |sizes|
      ensures blocks[b] == BlockPrefix(stream, sizes, b, sizes[b])
    {
      BlockPrefixFull(stream, sizes, b, n);
    }
  }

  lemma BlockPrefixSteps(stream: seq<Code>, sizes: seq<nat>, i: nat)
    ensures forall b :: 0 <= b < |sizes| ==> BlockPrefix(stream, sizes, b, 0) == []
    ensures forall b :: 0 <= b < |sizes| ==>
      BlockPrefix(stream, sizes, b, i + 1) ==
      BlockPrefix(stream, sizes, b, i) + if i < sizes[b] then [CodeAt(stream, Position(sizes, b, i))] else []
  {
    hide Position, CodeAt;
  }

  lemma BlockPrefixFull(stream: seq<Code>, sizes: seq<nat>, b: nat, n: nat)
    requires b < |sizes| && sizes[b] <= n
    ensures BlockPrefix(stream, sizes, b, n) == BlockPrefix(stream, sizes, b, sizes[b])
  {
    hide Position, CodeAt;
  }

  lemma RoundLengthEmpty(i: nat)
    ensures RoundLength([], i) == 0
  {
  }

  lemma RoundLengthNext(sizes: seq<nat>, b: nat, i: nat)
    requires b < |sizes|
    ensures RoundLength(sizes[..b + 1], i) == RoundLength(sizes[..b], i) + if i < sizes[b] then 1 else 0
  {
    assert sizes[..b + 1][..b] == sizes[..b];
  }

  lemma RoundStartZero(sizes: seq<nat>)
    ensures RoundStart(sizes, 0) == 0
  {
  }

  lemma RoundStartNext(sizes: seq<nat>, i: nat)
    ensures RoundStart(sizes, i + 1) == RoundStart(sizes, i) + RoundLength(sizes, i)
  {
  }

  // ---- splitting into blocks

  function Total(sizes: seq<nat>): nat {
    if sizes == [] then 0 else Total(sizes[..|sizes| - 1]) + sizes[|sizes| - 1]
  }

  function Split(data: seq<Code>, sizes: seq<nat>): (blocks: seq<Block>)
    requires |data| == Total(sizes)
    ensures |blocks| == |sizes|
    decreases |sizes|
  {
    if sizes == [] then [] else
      var n := |sizes| - 1;
      var k := |data| - sizes[n];
      Split(data[..k], sizes[..n]) + [data[k..]]
  }

  function Flatten(blocks: seq<Block>): seq<Code> {
    if blocks == [] then [] else Flatten(blocks[..|blocks| - 1]) + blocks[|blocks| - 1]
  }

  lemma SizesSnoc(blocks: seq<Block>, last: Block)
    ensures Sizes(blocks + [last]) == Sizes(blocks) + [|last|]
  {
  }

  lemma {:induction false} SplitSizes(data: seq<Code>, sizes: seq<nat>)
    requires |data| == Total(sizes)
    ensures Sizes(Split(data, sizes)) == sizes
    decreases |sizes|
  {
    if sizes != [] {
      var n := |sizes| - 1;
      var k := |data| - sizes[n];
      SplitSizes(data[..k], sizes[..n]);
      SizesSnoc(Split(data[..k], sizes[..n]), data[k..]);
      assert sizes == sizes[..n] + [sizes[n]];
    }
  }

  lemma {:induction false} FlattenSplit(data: seq<Code>, sizes: seq<nat>)
    requires |data| == Total(sizes)
    ensures Flatten(Split(data, sizes)) == data
    decreases |sizes|
  {
    if sizes != [] {
      var n := |sizes| - 1;
      var k := |data| - sizes[n];
      FlattenSplit(data[..k], sizes[..n]);
      var blocks := Split(data, sizes);
      assert blocks[..n] == Split(data[..k], sizes[..n]);
    }
  }

  /** The part of every block that the first `n` rounds emit. */
  function TotalUpTo(sizes: seq<nat>, n: nat): nat {
    if sizes == [] then 0 else
      var last := sizes[|sizes| - 1];
      TotalUpTo(sizes[..|sizes| - 1], n) + if last < n then last else n
  }

  lemma {:induction false} TotalUpToNext(sizes: seq<nat>, n: nat)
    ensures TotalUpTo(sizes, n + 1) == TotalUpTo(sizes, n) + RoundLength(sizes, n)
  {
    if sizes != [] {
      TotalUpToNext(sizes[..|sizes| - 1], n);
    }
  }

  lemma {:induction false} TotalUpToEnds(sizes: seq<nat>, n: nat)
    requires forall b :: 0 <= b < |sizes| ==> sizes[b] <= n
    ensures TotalUpTo(sizes, n) == Total(sizes) && TotalUpTo(sizes, 0) == 0
  {
    if sizes != [] {
      TotalUpToEnds(sizes[..|sizes| - 1], n);
    }
  }

  lemma {:induction false} RoundStartIs(sizes: seq<nat>, n: nat)
    ensures RoundStart(sizes, n) == TotalUpTo(sizes, n)
  {
    if n == 0 {
      RoundStartAtZero(sizes);
    } else {
      RoundStartIs(sizes, n - 1);
      TotalUpToNext(sizes, n - 1);
    }
  }

  lemma {:induction false} RoundStartAtZero(sizes: seq<nat>)
    ensures TotalUpTo(sizes, 0) == 0
  {
    if sizes != [] {
      RoundStartAtZero(sizes[..|sizes| - 1]);
    }
  }

  /** Interleaving loses and invents nothing: it emits as many codewords as the blocks hold. */
  lemma InterleaveTotal(blocks: seq<Block>, n: nat)
    requires forall b :: 0 <= b < |blocks| ==> |blocks[b]| <= n
    ensures |Interleave(blocks, n)| == Total(Sizes(blocks))
  {
    InterleaveLength(blocks, n);
    RoundStartIs(Sizes(blocks), n);
    TotalUpToEnds(Sizes(blocks), n);
  }
}
