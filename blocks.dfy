/**
 * Stacking the embedding tables into one node block,
 * `tf.concat([user, item(, cat, price)], axis=0)`, and splitting the
 * propagated block back by the known sizes, `tf.split(x, sizes, 0)`.
 */
module Blocks {
  import opened Tensor
  import opened Wrappers

  function SumSizes(sizes: seq<nat>): nat {
    if sizes == [] then 0 else sizes[0] + SumSizes(sizes[1..])
  }

  /** The number of rows of each block. */
  function Sizes(blocks: seq<Matrix>): (sizes: seq<nat>)
    ensures |sizes| == |blocks| && forall k :: 0 <= k < |blocks| ==> sizes[k] == |blocks[k]|
  {
    seq(|blocks|, k requires 0 <= k < |blocks| => |blocks[k]|)
  }

  /** Sequences of lengths `ws` have `SumSizes(ws)` elements in all. */
  lemma {:induction false} TotalLengthIsSumSizes<T>(ss: seq<seq<T>>, ws: seq<nat>)
    requires |ss| == |ws| && forall k :: 0 <= k < |ss| ==> |ss[k]| == ws[k]
    ensures TotalLength(ss) == SumSizes(ws)
  {
    if ss != [] {
      TotalLengthIsSumSizes(ss[1..], ws[1..]);
    }
  }

  /** Consecutive row ranges of `m` with the given sizes, which add up to `|m|`. */
  function SplitExact(m: Matrix, sizes: seq<nat>): (bs: seq<Matrix>)
    requires SumSizes(sizes) == |m|
    ensures |bs| == |sizes| && forall k :: 0 <= k < |sizes| ==> |bs[k]| == sizes[k]
  {
    if sizes == [] then [] else [m[..sizes[0]]] + SplitExact(m[sizes[0]..], sizes[1..])
  }

  /** `tf.split(m, sizes, 0)`: fails when the sizes do not add up to the row count. */
  function SplitRows(m: Matrix, sizes: seq<nat>): Option<seq<Matrix>> {
    if SumSizes(sizes) == |m| then Some(SplitExact(m, sizes)) else None
  }

  lemma {:induction false} SumSizesIsTotalLength(blocks: seq<Matrix>)
    ensures SumSizes(Sizes(blocks)) == TotalLength(blocks) == |Flatten(blocks)|
  {
    FlattenLength(blocks);
    if blocks != [] {
      SumSizesIsTotalLength(blocks[1..]);
      assert Sizes(blocks)[1..] == Sizes(blocks[1..]);
    }
  }

  lemma {:induction false} SplitExactFlatten(blocks: seq<Matrix>)
    ensures SumSizes(Sizes(blocks)) == |Flatten(blocks)|
    ensures SplitExact(Flatten(blocks), Sizes(blocks)) == blocks
  {
    SumSizesIsTotalLength(blocks);
    if blocks != [] {
      var m := Flatten(blocks);
      assert m == blocks[0] + Flatten(blocks[1..]);
      assert m[..|blocks[0]|] == blocks[0];
      assert m[|blocks[0]|..] == Flatten(blocks[1..]);
      assert Sizes(blocks)[1..] == Sizes(blocks[1..]);
      SplitExactFlatten(blocks[1..]);
    }
  }

  /** Concatenating the tables and splitting by their sizes returns the tables. */
  lemma SplitConcatRoundTrip(blocks: seq<Matrix>)
    ensures SplitRows(Flatten(blocks), Sizes(blocks)) == Some(blocks)
  {
    SplitExactFlatten(blocks);
  }

  lemma {:induction false} FlattenSplitExact(m: Matrix, sizes: seq<nat>)
    requires SumSizes(sizes) == |m|
    ensures Flatten(SplitExact(m, sizes)) == m
  {
    if sizes != [] {
      FlattenSplitExact(m[sizes[0]..], sizes[1..]);
      assert m == m[..sizes[0]] + m[sizes[0]..];
    }
  }

  /** A successful split loses nothing: concatenating the parts gives `m`;
      and the split fails exactly when the sizes do not add up to `|m|`. */
  lemma ConcatSplitRoundTrip(m: Matrix, sizes: seq<nat>)
    ensures SplitRows(m, sizes).Some? <==> SumSizes(sizes) == |m|
    ensures SplitRows(m, sizes).Some? ==> Flatten(SplitRows(m, sizes).value) == m
  {
    if SumSizes(sizes) == |m| {
      FlattenSplitExact(m, sizes);
    }
  }

  /** The user block is the first `n_users` rows, the item block the next `n_items`. */
  lemma UserAndItemBlocks(m: Matrix, sizes: seq<nat>)
    requires |sizes| >= 2 && SplitRows(m, sizes).Some?
    ensures sizes[0] + sizes[1] <= |m|
    ensures SplitRows(m, sizes).value[0] == m[..sizes[0]]
    ensures SplitRows(m, sizes).value[1] == m[sizes[0]..sizes[0] + sizes[1]]
  {
    assert SumSizes(sizes) == sizes[0] + (sizes[1] + SumSizes(sizes[2..])) by {
      assert sizes[1..][1..] == sizes[2..];
    }
    var rest := m[sizes[0]..];
    assert SplitExact(m, sizes)[1] == SplitExact(rest, sizes[1..])[0];
    assert rest[..sizes[1]] == m[sizes[0]..sizes[0] + sizes[1]];
  }
}
