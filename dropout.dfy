/**
 * `LightGCN._dropout_sparse`: edge dropout on a COO fold. The uniform draws
 * of `tf.random_uniform([n_nonzero_elems])` are an input `noise`, one draw
 * per entry, each in [0, 1). Entry `j` survives when
 * `floor(keep_prob + noise[j])` is nonzero (`tf.cast(..., tf.bool)`), and the
 * survivors are multiplied by `1 / keep_prob`.
 */
module Dropout {
  import opened Sparse

  /** The mask bit `tf.cast(tf.floor(keepProb + u), tf.bool)`. */
  predicate Keep(keepProb: real, u: real) {
    (keepProb + u).Floor != 0
  }

  /** Draws as `tf.random_uniform` produces them: each in [0, 1). */
  predicate UniformDraws(noise: seq<real>) {
    forall j :: 0 <= j < |noise| ==> 0.0 <= noise[j] < 1.0
  }

  /** For a keep probability in [0, 1] the mask keeps exactly the draws with
      `keepProb + u >= 1`. */
  lemma KeepIff(keepProb: real, u: real)
    requires 0.0 <= keepProb <= 1.0 && 0.0 <= u < 1.0
    ensures Keep(keepProb, u) <==> keepProb + u >= 1.0
  {
    var x := keepProb + u;
    assert 0.0 <= x < 2.0;
    if x < 1.0 {
      assert x.Floor == 0;
    } else {
      assert x.Floor == 1;
    }
  }

  /** A draw in [0, 1) never keeps an entry when the keep probability is 0,
      so the division by the keep probability only happens when it is nonzero. */
  lemma KeptImpliesNonzero(keepProb: real, u: real)
    requires 0.0 <= u < 1.0 && Keep(keepProb, u)
    ensures keepProb != 0.0
  {
  }

  /** A surviving entry: same position, value rescaled by `1 / keepProb`. */
  function Rescale(e: Entry, keepProb: real): (r: Entry)
    requires keepProb != 0.0
    ensures r.row == e.row && r.col == e.col && r.value * keepProb == e.value
  {
    Entry(e.row, e.col, e.value / keepProb)
  }

  /** `tf.sparse_retain` followed by the rescaling, over the entries from index `j` on. */
  function DropFrom(es: seq<Entry>, keepProb: real, noise: seq<real>, j: nat): (r: seq<Entry>)
    requires |noise| == |es| && UniformDraws(noise) && j <= |es|
    ensures |r| <= |es| - j
    decreases |es| - j
  {
    if j == |es| then []
    else
      (if Keep(keepProb, noise[j])
       then KeptImpliesNonzero(keepProb, noise[j]); [Rescale(es[j], keepProb)]
       else [])
      + DropFrom(es, keepProb, noise, j + 1)
  }

  /** The indices from `j` on whose draw keeps the entry, in increasing order. */
  function KeptFrom(keepProb: real, noise: seq<real>, j: nat): (ks: seq<nat>)
    requires j <= |noise|
    ensures forall m :: 0 <= m < |ks| ==> j <= ks[m] < |noise|
    decreases |noise| - j
  {
    if j == |noise| then []
    else (if Keep(keepProb, noise[j]) then [j] else []) + KeptFrom(keepProb, noise, j + 1)
  }

  /** `_dropout_sparse(s, keepProb, |s.entries|)` with the given draws. */
  function DropoutSparse(s: SparseTensor, keepProb: real, noise: seq<real>): (r: SparseTensor)
    requires |noise| == |s.entries| && UniformDraws(noise)
    ensures r.rows == s.rows && r.cols == s.cols
    ensures |r.entries| <= |s.entries|
  {
    SparseTensor(DropFrom(s.entries, keepProb, noise, 0), s.rows, s.cols)
  }

  /** The kept indices are strictly increasing and are exactly those whose draw keeps. */
  lemma {:induction false} KeptFromSpec(keepProb: real, noise: seq<real>, j: nat)
    requires j <= |noise|
    ensures forall m, n :: 0 <= m < n < |KeptFrom(keepProb, noise, j)| ==>
      KeptFrom(keepProb, noise, j)[m] < KeptFrom(keepProb, noise, j)[n]
    ensures forall t :: j <= t < |noise| ==> (t in KeptFrom(keepProb, noise, j) <==> Keep(keepProb, noise[t]))
    decreases |noise| - j
  {
    if j < |noise| {
      KeptFromSpec(keepProb, noise, j + 1);
    }
  }

  /** Entry `m` of the result is the rescaled entry at the `m`-th kept index:
      survivors stay in their original order. */
  lemma {:induction false} DropFromIsKept(es: seq<Entry>, keepProb: real, noise: seq<real>, j: nat)
    requires |noise| == |es| && UniformDraws(noise) && j <= |es|
    ensures |DropFrom(es, keepProb, noise, j)| == |KeptFrom(keepProb, noise, j)|
    ensures keepProb != 0.0 ==> forall m :: 0 <= m < |KeptFrom(keepProb, noise, j)| ==>
      DropFrom(es, keepProb, noise, j)[m] == Rescale(es[KeptFrom(keepProb, noise, j)[m]], keepProb)
    decreases |es| - j
  {
    if j < |es| {
      DropFromIsKept(es, keepProb, noise, j + 1);
      var rest, restKs := DropFrom(es, keepProb, noise, j + 1), KeptFrom(keepProb, noise, j + 1);
      if Keep(keepProb, noise[j]) {
        KeptImpliesNonzero(keepProb, noise[j]);
        assert DropFrom(es, keepProb, noise, j) == [Rescale(es[j], keepProb)] + rest;
        assert KeptFrom(keepProb, noise, j) == [j] + restKs;
      } else {
        assert DropFrom(es, keepProb, noise, j) == rest;
        assert KeptFrom(keepProb, noise, j) == restKs;
      }
    }
  }

  /** The result of `_dropout_sparse`: its entries are the kept entries of `s`,
      in their original order, each value divided by the keep probability; the
      entries so kept are exactly those whose draw passes the mask. */
  lemma DropoutKeepsMaskedEntries(s: SparseTensor, keepProb: real, noise: seq<real>)
    requires |noise| == |s.entries| && UniformDraws(noise)
    ensures var ks := KeptFrom(keepProb, noise, 0);
      && |DropoutSparse(s, keepProb, noise).entries| == |ks|
      && (forall m, n :: 0 <= m < n < |ks| ==> ks[m] < ks[n])
      && (forall t :: 0 <= t < |noise| ==> (t in ks <==> Keep(keepProb, noise[t])))
      && (keepProb != 0.0 ==> forall m :: 0 <= m < |ks| ==>
            DropoutSparse(s, keepProb, noise).entries[m] == Rescale(s.entries[ks[m]], keepProb))
  {
    KeptFromSpec(keepProb, noise, 0);
    DropFromIsKept(s.entries, keepProb, noise, 0);
  }

  lemma {:induction false} DropFromInBounds(es: seq<Entry>, keepProb: real, noise: seq<real>, j: nat, rows: nat, cols: nat)
    requires |noise| == |es| && UniformDraws(noise) && j <= |es|
    requires forall n :: 0 <= n < |es| ==> es[n].row < rows && es[n].col < cols
    ensures forall n :: 0 <= n < |DropFrom(es, keepProb, noise, j)| ==>
      DropFrom(es, keepProb, noise, j)[n].row < rows && DropFrom(es, keepProb, noise, j)[n].col < cols
    decreases |es| - j
  {
    if j < |es| {
      DropFromInBounds(es, keepProb, noise, j + 1, rows, cols);
    }
  }

  /** Dropout keeps the tensor inside its dense shape. */
  lemma DropoutInBounds(s: SparseTensor, keepProb: real, noise: seq<real>)
    requires |noise| == |s.entries| && UniformDraws(noise) && InBounds(s)
    ensures InBounds(DropoutSparse(s, keepProb, noise))
  {
    DropFromInBounds(s.entries, keepProb, noise, 0, s.rows, s.cols);
  }

  lemma {:induction false} DropFromKeepAll(es: seq<Entry>, noise: seq<real>, j: nat)
    requires |noise| == |es| && UniformDraws(noise) && j <= |es|
    ensures DropFrom(es, 1.0, noise, j) == es[j..]
    decreases |es| - j
  {
    if j < |es| {
      DropFromKeepAll(es, noise, j + 1);
      assert (1.0 + noise[j]).Floor == 1;
      assert Rescale(es[j], 1.0) == es[j];
      assert es[j..] == [es[j]] + es[j + 1..];
    }
  }

  /** With keep probability 1 every entry survives unchanged. */
  lemma KeepProbOneIsIdentity(s: SparseTensor, noise: seq<real>)
    requires |noise| == |s.entries| && UniformDraws(noise)
    ensures DropoutSparse(s, 1.0, noise) == s
  {
    DropFromKeepAll(s.entries, noise, 0);
    assert s.entries[0..] == s.entries;
  }

  lemma {:induction false} DropFromKeepNone(es: seq<Entry>, noise: seq<real>, j: nat)
    requires |noise| == |es| && UniformDraws(noise) && j <= |es|
    ensures DropFrom(es, 0.0, noise, j) == []
    decreases |es| - j
  {
    if j < |es| {
      DropFromKeepNone(es, noise, j + 1);
      assert (0.0 + noise[j]).Floor == 0;
    }
  }

  /** With keep probability 0 (node dropout 1) nothing survives, and the
      `1 / keep_prob` factor is never applied to an entry. */
  lemma KeepProbZeroDropsAll(s: SparseTensor, noise: seq<real>)
    requires |noise| == |s.entries| && UniformDraws(noise)
    ensures DropoutSparse(s, 0.0, noise).entries == []
  {
    DropFromKeepNone(s.entries, noise, 0);
  }
}
