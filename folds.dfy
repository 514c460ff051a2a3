/**
 * The row-fold partitioner (`LightGCN._split_A_hat` and
 * `_split_A_hat_node_dropout`) and the per-fold multiply that every
 * `_create_*_embed` runs once per layer: fold `f` of an `R`-row adjacency is
 * the row range [f * (R / n_fold), (f + 1) * (R / n_fold)), except that the
 * last fold runs to row `R`.
 */
module Folds {
  import opened Tensor
  import opened Sparse
  import opened Dropout

  /** `self.n_fold`. */
  const NFold: nat := 100

  /** `fold_len = length_of_adj // self.n_fold`. */
  function FoldLen(rows: nat, nFold: nat): nat
    requires nFold > 0
  {
    rows / nFold
  }

  /** First row of fold `i`. */
  function FoldStart(i: nat, rows: nat, nFold: nat): nat
    requires nFold > 0
  {
    i * FoldLen(rows, nFold)
  }

  /** One past the last row of fold `i`: the last fold absorbs the remainder. */
  function FoldEnd(i: nat, rows: nat, nFold: nat): (e: nat)
    requires i < nFold
    ensures FoldStart(i, rows, nFold) <= e <= rows
  {
    var len := FoldLen(rows, nFold);
    assert nFold * len <= rows;
    assert i * len <= (nFold - 1) * len <= rows by {
      MulMono(i, nFold - 1, len);
      MulMono(nFold - 1, nFold, len);
    }
    if i == nFold - 1 then rows
    else
      assert (i + 1) * len <= nFold * len by { MulMono(i + 1, nFold, len); }
      (i + 1) * len
  }

  lemma MulMono(a: nat, b: nat, c: nat)
    requires a <= b
    ensures a * c <= b * c
  {
    assert b * c == a * c + (b - a) * c;
  }

  /** Fold `i` starts where fold `i - 1` ends; the first starts at 0 and the last ends at `rows`. */
  lemma FoldsContiguous(rows: nat, nFold: nat)
    requires nFold > 0
    ensures FoldStart(0, rows, nFold) == 0
    ensures FoldEnd(nFold - 1, rows, nFold) == rows
    ensures forall i :: 0 < i < nFold ==> FoldEnd(i - 1, rows, nFold) == FoldStart(i, rows, nFold)
  {
  }

  /** Distinct folds do not overlap: an earlier fold ends before a later one starts. */
  lemma FoldsDisjoint(rows: nat, nFold: nat, i: nat, j: nat)
    requires i < j < nFold
    ensures FoldEnd(i, rows, nFold) <= FoldStart(j, rows, nFold)
  {
    MulMono(i + 1, j, FoldLen(rows, nFold));
  }

  /** The fold that holds row `r`. */
  function FoldOf(r: nat, rows: nat, nFold: nat): nat
    requires nFold > 0
  {
    var len := FoldLen(rows, nFold);
    if len == 0 || r / len >= nFold - 1 then nFold - 1 else r / len
  }

  /** Every row below `rows` lies in exactly one fold, namely `FoldOf(r)`. */
  lemma FoldsCover(rows: nat, nFold: nat, r: nat)
    requires nFold > 0 && r < rows
    ensures FoldOf(r, rows, nFold) < nFold
    ensures FoldStart(FoldOf(r, rows, nFold), rows, nFold) <= r < FoldEnd(FoldOf(r, rows, nFold), rows, nFold)
    ensures forall i :: 0 <= i < nFold && FoldStart(i, rows, nFold) <= r < FoldEnd(i, rows, nFold) ==>
      i == FoldOf(r, rows, nFold)
  {
    var len := FoldLen(rows, nFold);
    var f := FoldOf(r, rows, nFold);
    if len > 0 {
      var q := r / len;
      assert q * len <= r < (q + 1) * len;
      if q >= nFold - 1 {
        MulMono(nFold - 1, q, len);
      }
    }
    forall i | 0 <= i < nFold && FoldStart(i, rows, nFold) <= r < FoldEnd(i, rows, nFold)
      ensures i == f
    {
      if i < f {
        FoldsDisjoint(rows, nFold, i, f);
      } else if f < i {
        FoldsDisjoint(rows, nFold, f, i);
      }
    }
  }

  /** With fewer rows than folds, `fold_len` is 0: every fold but the last is
      empty and the last fold holds all rows. */
  lemma FewRowsEmptyFolds(rows: nat, nFold: nat)
    requires 0 < nFold && rows < nFold
    ensures forall i :: 0 <= i < nFold - 1 ==> FoldStart(i, rows, nFold) == FoldEnd(i, rows, nFold) == 0
    ensures FoldStart(nFold - 1, rows, nFold) == 0 && FoldEnd(nFold - 1, rows, nFold) == rows
  {
    assert FoldLen(rows, nFold) == 0;
  }

  /** Row range `X[start:end]` of fold `i`. */
  function Fold(a: Matrix, i: nat, nFold: nat): Matrix
    requires i < nFold
  {
    a[FoldStart(i, |a|, nFold)..FoldEnd(i, |a|, nFold)]
  }

  /** The folds `_split_A_hat` returns, each converted to COO form. */
  function FoldsOf(a: Matrix, cols: nat, nFold: nat): (fs: seq<SparseTensor>)
    requires nFold > 0 && IsMatrix(a, |a|, cols)
    ensures |fs| == nFold
  {
    seq(nFold, i requires 0 <= i < nFold => ToCoo(Fold(a, i, nFold), cols))
  }

  /** `_split_A_hat(X)` for the `|a|` x `cols` adjacency `a`. */
  method SplitAHat(a: Matrix, cols: nat, nFold: nat) returns (folds: seq<SparseTensor>)
    requires nFold > 0 && IsMatrix(a, |a|, cols)
    ensures folds == FoldsOf(a, cols, nFold)
  {
    folds := [];
    var lengthOfAdj := |a|;
    var foldLen := lengthOfAdj / nFold;
    var i := 0;
    while i < nFold
      invariant 0 <= i <= nFold
      invariant folds == FoldsOf(a, cols, nFold)[..i]
    {
      var start := i * foldLen;
      var end := if i == nFold - 1 then lengthOfAdj else (i + 1) * foldLen;
      assert start == FoldStart(i, |a|, nFold) && end == FoldEnd(i, |a|, nFold);
      folds := folds + [ToCoo(a[start..end], cols)];
      i := i + 1;
    }
  }

  /** The draws for `_split_A_hat_node_dropout`: one uniform vector per fold,
      as long as the fold's `count_nonzero`. */
  predicate NoiseFits(a: Matrix, nFold: nat, noise: seq<seq<real>>)
    requires nFold > 0
  {
    |noise| == nFold &&
    forall f :: 0 <= f < nFold ==> |noise[f]| == CountNonzero(Fold(a, f, nFold)) && UniformDraws(noise[f])
  }

  /** The folds `_split_A_hat_node_dropout` returns: each COO fold passed through
      `_dropout_sparse` with keep probability `keepProb` (`1 - node_dropout[0]`). */
  function DroppedFoldsOf(a: Matrix, cols: nat, nFold: nat, keepProb: real, noise: seq<seq<real>>): (fs: seq<SparseTensor>)
    requires nFold > 0 && IsMatrix(a, |a|, cols) && NoiseFits(a, nFold, noise)
    ensures |fs| == nFold
  {
    seq(nFold, i requires 0 <= i < nFold =>
      NonzeroCountIsEntryCount(Fold(a, i, nFold), 0);
      DropoutSparse(ToCoo(Fold(a, i, nFold), cols), keepProb, noise[i]))
  }

  /** `_split_A_hat_node_dropout(X)` with the given draws. */
  method SplitAHatNodeDropout(a: Matrix, cols: nat, nFold: nat, keepProb: real, noise: seq<seq<real>>)
    returns (folds: seq<SparseTensor>)
    requires nFold > 0 && IsMatrix(a, |a|, cols) && NoiseFits(a, nFold, noise)
    ensures folds == DroppedFoldsOf(a, cols, nFold, keepProb, noise)
  {
    folds := [];
    var lengthOfAdj := |a|;
    var foldLen := lengthOfAdj / nFold;
    var i := 0;
    while i < nFold
      invariant 0 <= i <= nFold
      invariant folds == DroppedFoldsOf(a, cols, nFold, keepProb, noise)[..i]
    {
      var start := i * foldLen;
      var end := if i == nFold - 1 then lengthOfAdj else (i + 1) * foldLen;
      assert start == FoldStart(i, |a|, nFold) && end == FoldEnd(i, |a|, nFold);
      var temp := ToCoo(a[start..end], cols);
      var nNonzeroTemp := CountNonzero(a[start..end]);
      NonzeroCountIsEntryCount(a[start..end], 0);
      assert |noise[i]| == nNonzeroTemp == |temp.entries|;
      folds := folds + [DropoutSparse(temp, keepProb, noise[i])];
      i := i + 1;
    }
  }

  /** With keep probability 1 the dropout split gives the plain split. */
  lemma KeepAllFoldsArePlainFolds(a: Matrix, cols: nat, nFold: nat, noise: seq<seq<real>>)
    requires nFold > 0 && IsMatrix(a, |a|, cols) && NoiseFits(a, nFold, noise)
    ensures DroppedFoldsOf(a, cols, nFold, 1.0, noise) == FoldsOf(a, cols, nFold)
  {
    forall i | 0 <= i < nFold
      ensures DroppedFoldsOf(a, cols, nFold, 1.0, noise)[i] == FoldsOf(a, cols, nFold)[i]
    {
      NonzeroCountIsEntryCount(Fold(a, i, nFold), 0);
      KeepProbOneIsIdentity(ToCoo(Fold(a, i, nFold), cols), noise[i]);
    }
  }

  /** Folds that can each be multiplied by a matrix with `n` rows. */
  predicate FoldsFit(folds: seq<SparseTensor>, n: nat) {
    forall f :: 0 <= f < |folds| ==> InBounds(folds[f]) && folds[f].cols == n
  }

  /** Total number of rows over all folds. */
  function FoldRows(folds: seq<SparseTensor>): nat {
    if folds == [] then 0 else folds[0].rows + FoldRows(folds[1..])
  }

  /** `tf.concat(temp_embed, 0)` where `temp_embed[f]` is fold `f` times `e`. */
  function FoldProduct(folds: seq<SparseTensor>, e: Matrix, d: nat): Matrix
    requires FoldsFit(folds, |e|) && IsMatrix(e, |e|, d)
  {
    Flatten(seq(|folds|, f requires 0 <= f < |folds| => SpMM(folds[f], e, d)))
  }

  /** The inner loop of every `_create_*_embed`: multiply each fold by the
      previous layer's embeddings and stack the products in fold order. */
  method FoldedProduct(folds: seq<SparseTensor>, e: Matrix, d: nat) returns (side: Matrix)
    requires FoldsFit(folds, |e|) && IsMatrix(e, |e|, d)
    ensures side == FoldProduct(folds, e, d)
    ensures IsMatrix(side, FoldRows(folds), d)
  {
    var tempEmbed: seq<Matrix> := [];
    var f := 0;
    while f < |folds|
      invariant 0 <= f <= |folds|
      invariant tempEmbed == seq(f, k requires 0 <= k < f => SpMM(folds[k], e, d))
    {
      tempEmbed := tempEmbed + [SpMM(folds[f], e, d)];
      f := f + 1;
    }
    side := Flatten(tempEmbed);
    FoldProductShape(folds, e, d);
  }

  lemma {:induction false} FoldProductShape(folds: seq<SparseTensor>, e: Matrix, d: nat)
    requires FoldsFit(folds, |e|) && IsMatrix(e, |e|, d)
    ensures IsMatrix(FoldProduct(folds, e, d), FoldRows(folds), d)
  {
    var ms := seq(|folds|, f requires 0 <= f < |folds| => SpMM(folds[f], e, d));
    FlattenRowsWidth(ms, d);
    FoldRowsIsTotalLength(folds, ms, e, d);
  }

  lemma {:induction false} FoldRowsIsTotalLength(folds: seq<SparseTensor>, ms: seq<Matrix>, e: Matrix, d: nat)
    requires FoldsFit(folds, |e|) && IsMatrix(e, |e|, d)
    requires ms == seq(|folds|, f requires 0 <= f < |folds| => SpMM(folds[f], e, d))
    ensures TotalLength(ms) == FoldRows(folds)
  {
    if folds != [] {
      FoldRowsIsTotalLength(folds[1..], ms[1..], e, d);
    }
  }

  /** Concatenating the fold slices of `m` in fold order gives back the first
      rows of `m` up to the end of fold `k - 1`. */
  lemma {:induction false} FlattenFoldPrefix(m: Matrix, nFold: nat, k: nat)
    requires 0 < k <= nFold
    ensures Flatten(seq(k, i requires 0 <= i < k => Fold(m, i, nFold))) == m[..FoldEnd(k - 1, |m|, nFold)]
  {
    var slices := seq(k, i requires 0 <= i < k => Fold(m, i, nFold));
    if k == 1 {
      assert slices == [Fold(m, 0, nFold)];
      assert Flatten(slices) == Fold(m, 0, nFold) + Flatten(slices[1..]);
    } else {
      FlattenFoldPrefix(m, nFold, k - 1);
      assert slices == seq(k - 1, i requires 0 <= i < k - 1 => Fold(m, i, nFold)) + [Fold(m, k - 1, nFold)];
      FlattenSnoc(seq(k - 1, i requires 0 <= i < k - 1 => Fold(m, i, nFold)), Fold(m, k - 1, nFold));
      FoldsContiguous(|m|, nFold);
      assert m[..FoldEnd(k - 2, |m|, nFold)] + Fold(m, k - 1, nFold) == m[..FoldEnd(k - 1, |m|, nFold)];
    }
  }

  /** Multiplying fold by fold and concatenating in fold order is one whole
      multiply by the adjacency. */
  lemma FoldProductIsMatMul(a: Matrix, cols: nat, nFold: nat, e: Matrix, d: nat)
    requires nFold > 0 && IsMatrix(a, |a|, cols) && IsMatrix(e, cols, d)
    ensures FoldsFit(FoldsOf(a, cols, nFold), |e|)
    ensures FoldProduct(FoldsOf(a, cols, nFold), e, d) == MatMul(a, e, d)
  {
    var folds := FoldsOf(a, cols, nFold);
    var m := MatMul(a, e, d);
    var products := seq(nFold, f requires 0 <= f < nFold => SpMM(folds[f], e, d));
    var slices := seq(nFold, f requires 0 <= f < nFold => Fold(m, f, nFold));
    forall f | 0 <= f < nFold
      ensures products[f] == slices[f]
    {
      SpMMOfCoo(Fold(a, f, nFold), cols, e, d);
      MatMulSlice(a, e, d, FoldStart(f, |a|, nFold), FoldEnd(f, |a|, nFold));
    }
    assert products == slices;
    FlattenFoldPrefix(m, nFold, nFold);
    FoldsContiguous(|m|, nFold);
    assert m[..|m|] == m;
  }

  /** The plain folds of an `|a|`-row adjacency hold `|a|` rows in all. */
  lemma FoldRowsOfFoldsOf(a: Matrix, cols: nat, nFold: nat)
    requires nFold > 0 && IsMatrix(a, |a|, cols)
    ensures FoldsFit(FoldsOf(a, cols, nFold), cols)
    ensures FoldRows(FoldsOf(a, cols, nFold)) == |a|
  {
    var e: Matrix := seq(cols, k => []);
    FoldProductIsMatMul(a, cols, nFold, e, 0);
    FoldProductShape(FoldsOf(a, cols, nFold), e, 0);
  }

  lemma {:induction false} DroppedFoldRows(plain: seq<SparseTensor>, dropped: seq<SparseTensor>)
    requires |plain| == |dropped|
    requires forall f :: 0 <= f < |plain| ==> dropped[f].rows == plain[f].rows
    ensures FoldRows(dropped) == FoldRows(plain)
  {
    if plain != [] {
      DroppedFoldRows(plain[1..], dropped[1..]);
    }
  }

  /** The dropout folds keep the shapes of the plain folds. */
  lemma DroppedFoldsShape(a: Matrix, cols: nat, nFold: nat, keepProb: real, noise: seq<seq<real>>)
    requires nFold > 0 && IsMatrix(a, |a|, cols) && NoiseFits(a, nFold, noise)
    ensures FoldsFit(DroppedFoldsOf(a, cols, nFold, keepProb, noise), cols)
    ensures FoldRows(DroppedFoldsOf(a, cols, nFold, keepProb, noise)) == |a|
  {
    var dropped := DroppedFoldsOf(a, cols, nFold, keepProb, noise);
    forall f | 0 <= f < nFold
      ensures InBounds(dropped[f]) && dropped[f].cols == cols
    {
      NonzeroCountIsEntryCount(Fold(a, f, nFold), 0);
      DropoutInBounds(ToCoo(Fold(a, f, nFold), cols), keepProb, noise[f]);
    }
    FoldRowsOfFoldsOf(a, cols, nFold);
    DroppedFoldRows(FoldsOf(a, cols, nFold), dropped);
  }
}
