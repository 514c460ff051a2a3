/**
 * The batch end of the graph: `tf.nn.embedding_lookup` of the final and the
 * initial embeddings, `batch_ratings`, and `create_bpr_loss`. `tf.nn.softplus`
 * is a function parameter; `tf.nn.l2_loss(t)` is half the sum of the squares
 * of the entries of `t`.
 */
module Loss {
  import opened Tensor
  import opened Wrappers

  /** `tf.nn.embedding_lookup(table, ids)`: row `k` of the result is row `ids[k]` of `table`. */
  function Lookup(table: Matrix, ids: seq<nat>): (r: Matrix)
    requires forall k :: 0 <= k < |ids| ==> ids[k] < |table|
    ensures |r| == |ids| && forall k :: 0 <= k < |ids| ==> r[k] == table[ids[k]]
  {
    seq(|ids|, k requires 0 <= k < |ids| => table[ids[k]])
  }

  /** Looking rows up keeps the table's width. */
  lemma LookupShape(table: Matrix, ids: seq<nat>, d: nat)
    requires IsMatrix(table, |table|, d)
    requires forall k :: 0 <= k < |ids| ==> ids[k] < |table|
    ensures IsMatrix(Lookup(table, ids), |ids|, d)
  {
  }

  /** `tf.reduce_sum(tf.multiply(a, b), axis=1)`. */
  function RowScores(a: Matrix, b: Matrix): (s: seq<real>)
    requires SameShape(a, b)
    ensures |s| == |a|
  {
    seq(|a|, i requires 0 <= i < |a| => Sum(VMul(a[i], b[i])))
  }

  /** Each score is the inner product of a user row with the matching item row. */
  lemma ScoresAreDots(a: Matrix, b: Matrix)
    requires SameShape(a, b)
    ensures forall i :: 0 <= i < |a| ==> RowScores(a, b)[i] == Dot(a[i], b[i])
  {
    forall i | 0 <= i < |a| ensures RowScores(a, b)[i] == Dot(a[i], b[i]) {
      SumOfProductIsDot(a[i], b[i]);
    }
  }

  /** `tf.matmul(u, p, transpose_b=True)` for `d`-wide `u` and `p`. */
  function BatchRatings(u: Matrix, p: Matrix, d: nat): (r: Matrix)
    requires IsMatrix(u, |u|, d) && IsMatrix(p, |p|, d)
    ensures IsMatrix(r, |u|, |p|)
  {
    MatMul(u, Transpose(p, d), |p|)
  }

  /** The rating of user row `i` for item row `j` is their inner product. */
  lemma RatingsAreDots(u: Matrix, p: Matrix, d: nat)
    requires IsMatrix(u, |u|, d) && IsMatrix(p, |p|, d)
    ensures forall i, j :: 0 <= i < |u| && 0 <= j < |p| ==> BatchRatings(u, p, d)[i][j] == Dot(u[i], p[j])
  {
    var t := Transpose(p, d);
    forall j | 0 <= j < |p| ensures Column(t, j) == p[j] {
      assert forall k :: 0 <= k < d ==> Column(t, j)[k] == p[j][k];
    }
  }

  /** Ratings of looked-up rows are inner products of the table rows with those ids. */
  lemma LookupRatings(ua: Matrix, ia: Matrix, users: seq<nat>, items: seq<nat>, d: nat)
    requires IsMatrix(ua, |ua|, d) && IsMatrix(ia, |ia|, d)
    requires forall k :: 0 <= k < |users| ==> users[k] < |ua|
    requires forall k :: 0 <= k < |items| ==> items[k] < |ia|
    ensures IsMatrix(Lookup(ua, users), |users|, d) && IsMatrix(Lookup(ia, items), |items|, d)
    ensures forall i, j :: 0 <= i < |users| && 0 <= j < |items| ==>
      BatchRatings(Lookup(ua, users), Lookup(ia, items), d)[i][j] == Dot(ua[users[i]], ia[items[j]])
  {
    LookupShape(ua, users, d);
    LookupShape(ia, items, d);
    RatingsAreDots(Lookup(ua, users), Lookup(ia, items), d);
  }

  /** The diagonal of the rating matrix of a batch is its positive scores. */
  lemma RatingsDiagonalIsScores(u: Matrix, p: Matrix, d: nat)
    requires IsMatrix(u, |u|, d) && IsMatrix(p, |u|, d)
    ensures forall i :: 0 <= i < |u| ==> BatchRatings(u, p, d)[i][i] == RowScores(u, p)[i]
  {
    RatingsAreDots(u, p, d);
    ScoresAreDots(u, p);
  }

  /** `tf.reduce_mean` of a nonempty vector. */
  function Mean(s: seq<real>): real
    requires |s| > 0
  {
    Sum(s) / |s| as real
  }

  function Square(x: real): real {
    x * x
  }

  /** A square is nonnegative, and zero only for zero. */
  lemma SquareZeroIff(x: real)
    ensures Square(x) >= 0.0
    ensures Square(x) == 0.0 <==> x == 0.0
  {
    if x > 0.0 {
      calc {
        Square(x);
      ==
        x * x;
      >
        0.0 * x;
      ==
        0.0;
      }
    } else if x < 0.0 {
      calc {
        Square(x);
      ==
        (-x) * (-x);
      >
        0.0 * (-x);
      ==
        0.0;
      }
    }
  }

  /** The squares of the entries of a row. */
  function RowSquares(v: Vector): (q: seq<real>)
    ensures |q| == |v| && forall j :: 0 <= j < |v| ==> q[j] == Square(v[j])
  {
    seq(|v|, j requires 0 <= j < |v| => Square(v[j]))
  }

  /** Sum of the squares of the entries of `m`, row by row. */
  function SquareSum(m: Matrix): real {
    Sum(seq(|m|, i requires 0 <= i < |m| => Sum(RowSquares(m[i]))))
  }

  /** `tf.nn.l2_loss`. */
  function L2Loss(m: Matrix): real {
    SquareSum(m) / 2.0
  }

  /** A sum of nonnegative terms is nonnegative, and zero exactly when every term is. */
  lemma {:induction false} SumNonnegative(s: seq<real>)
    requires forall k :: 0 <= k < |s| ==> s[k] >= 0.0
    ensures Sum(s) >= 0.0
    ensures Sum(s) == 0.0 <==> forall k :: 0 <= k < |s| ==> s[k] == 0.0
  {
    if s != [] {
      SumNonnegative(s[1..]);
      assert forall k :: 1 <= k < |s| ==> s[k] == s[1..][k - 1];
    }
  }

  /** The squares of a row sum to zero exactly when the row is all zeros. */
  lemma RowSquaresZeroIff(v: Vector)
    ensures Sum(RowSquares(v)) >= 0.0
    ensures Sum(RowSquares(v)) == 0.0 <==> forall j :: 0 <= j < |v| ==> v[j] == 0.0
  {
    var q := RowSquares(v);
    forall j | 0 <= j < |v| ensures q[j] >= 0.0 && (q[j] == 0.0 <==> v[j] == 0.0) {
      SquareZeroIff(v[j]);
    }
    SumNonnegative(q);
  }

  /** `tf.nn.l2_loss(m)` is nonnegative, and zero exactly when `m` is all zeros. */
  lemma L2LossZeroIff(m: Matrix)
    ensures L2Loss(m) >= 0.0
    ensures L2Loss(m) == 0.0 <==> forall i, j :: 0 <= i < |m| && 0 <= j < |m[i]| ==> m[i][j] == 0.0
  {
    var rows := seq(|m|, i requires 0 <= i < |m| => Sum(RowSquares(m[i])));
    forall i | 0 <= i < |m|
      ensures rows[i] >= 0.0
      ensures rows[i] == 0.0 <==> forall j :: 0 <= j < |m[i]| ==> m[i][j] == 0.0
    {
      RowSquaresZeroIff(m[i]);
    }
    SumNonnegative(rows);
  }

  /** The three parts `create_bpr_loss` returns; `reg` is the one-element constant tensor. */
  datatype Losses = Losses(mf: real, emb: real, reg: seq<real>)

  /** The embeddings one batch feeds to `create_bpr_loss`: the final embeddings of the
      users and of their positive and negative items, and the initial (`_pre`) table
      rows of the same ids. */
  datatype Batch = Batch(users: Matrix, pos: Matrix, neg: Matrix, usersPre: Matrix, posPre: Matrix, negPre: Matrix)

  /** Every part of a batch has one row per user in it. The final rows are `d` wide
      (the sum of the layer widths for the concatenating variants), the initial
      (`_pre`) rows `dPre` wide (`emb_dim`). */
  predicate BatchFits(b: Batch, d: nat, dPre: nat) {
    var n := |b.users|;
    && IsMatrix(b.users, n, d) && IsMatrix(b.pos, n, d) && IsMatrix(b.neg, n, d)
    && IsMatrix(b.usersPre, n, dPre) && IsMatrix(b.posPre, n, dPre) && IsMatrix(b.negPre, n, dPre)
  }

  /** The terms `softplus(-(pos_scores - neg_scores))` averaged by the BPR loss. */
  function MfTerms(b: Batch, d: nat, dPre: nat, softplus: real -> real): (t: seq<real>)
    requires BatchFits(b, d, dPre)
    ensures |t| == |b.users|
  {
    var pos := RowScores(b.users, b.pos);
    var neg := RowScores(b.users, b.neg);
    seq(|b.users|, k requires 0 <= k < |b.users| => softplus(-(pos[k] - neg[k])))
  }

  /** `create_bpr_loss` with `decay` and `batch_size` from the settings. The mean of an
      empty batch and a division by a zero `batch_size` have no real value: `None`. */
  function BprLoss(b: Batch, d: nat, dPre: nat, decay: real, batchSize: nat, softplus: real -> real): (r: Option<Losses>)
    requires BatchFits(b, d, dPre)
    ensures r.Some? <==> |b.users| > 0 && batchSize > 0
  {
    if |b.users| == 0 || batchSize == 0 then None
    else
      var regularizer := (L2Loss(b.usersPre) + L2Loss(b.posPre) + L2Loss(b.negPre)) / batchSize as real;
      Some(Losses(Mean(MfTerms(b, d, dPre, softplus)), decay * regularizer, [0.0]))
  }

  /** `self.loss`: the BPR term plus the embedding regulariser. */
  function TotalLoss(l: Losses): real {
    l.mf + l.emb
  }

  /** The optimised loss of a batch is the BPR term plus `decay` times the regulariser,
      so it is never below the BPR term for a nonnegative decay and equals it for
      `decay = 0`; `reg_loss` takes no part in it. */
  lemma TotalLossOfBatch(b: Batch, d: nat, dPre: nat, decay: real, batchSize: nat, softplus: real -> real,
                         reg: seq<real>)
    requires BatchFits(b, d, dPre) && |b.users| > 0 && batchSize > 0
    ensures var l := BprLoss(b, d, dPre, decay, batchSize, softplus).value;
      && TotalLoss(l) == Mean(MfTerms(b, d, dPre, softplus))
           + decay * ((L2Loss(b.usersPre) + L2Loss(b.posPre) + L2Loss(b.negPre)) / batchSize as real)
      && (decay >= 0.0 ==> TotalLoss(l) >= l.mf)
      && (decay == 0.0 ==> TotalLoss(l) == l.mf)
      && TotalLoss(l.(reg := reg)) == TotalLoss(l)
  {
    EmbLossSign(b, d, dPre, if decay >= 0.0 then decay else 0.0, batchSize, softplus);
  }

  /** The regulariser is never negative for a nonnegative decay, and for a positive decay it
      is zero exactly when the initial rows of the batch are all zero. `reg_loss` is `[0]`. */
  lemma EmbLossSign(b: Batch, d: nat, dPre: nat, decay: real, batchSize: nat, softplus: real -> real)
    requires BatchFits(b, d, dPre) && |b.users| > 0 && batchSize > 0 && decay >= 0.0
    ensures var l := BprLoss(b, d, dPre, decay, batchSize, softplus).value;
      && l.emb >= 0.0
      && l.reg == [0.0]
      && (decay > 0.0 ==>
            (l.emb == 0.0 <==>
               L2Loss(b.usersPre) == 0.0 && L2Loss(b.posPre) == 0.0 && L2Loss(b.negPre) == 0.0))
  {
    L2LossZeroIff(b.usersPre);
    L2LossZeroIff(b.posPre);
    L2LossZeroIff(b.negPre);
    var s := L2Loss(b.usersPre) + L2Loss(b.posPre) + L2Loss(b.negPre);
    var reg := s / batchSize as real;
    assert reg >= 0.0;
    assert reg == 0.0 <==> s == 0.0;
    if decay > 0.0 && decay * reg == 0.0 {
      assert reg == 0.0;
    }
  }

  /** Doubling `batch_size` halves the regulariser and leaves the BPR term alone. */
  lemma EmbLossScalesWithBatchSize(b: Batch, d: nat, dPre: nat, decay: real, batchSize: nat, softplus: real -> real)
    requires BatchFits(b, d, dPre) && |b.users| > 0 && batchSize > 0
    ensures var l1 := BprLoss(b, d, dPre, decay, batchSize, softplus).value;
      var l2 := BprLoss(b, d, dPre, decay, 2 * batchSize, softplus).value;
      l2.mf == l1.mf && 2.0 * l2.emb == l1.emb
  {
    var s := L2Loss(b.usersPre) + L2Loss(b.posPre) + L2Loss(b.negPre);
    assert s / (2 * batchSize) as real == (s / batchSize as real) / 2.0;
  }

  /** `f` is strictly increasing, as `tf.nn.softplus` is. */
  ghost predicate Increasing(f: real -> real) {
    forall x, y :: x < y ==> f(x) < f(y)
  }

  /** A sum grows when no term shrinks and term `k0` grows. */
  lemma {:induction false} SumStrictlyMonotone(s: seq<real>, t: seq<real>, k0: nat)
    requires |s| == |t| && k0 < |s|
    requires forall k :: 0 <= k < |s| ==> s[k] <= t[k]
    requires s[k0] < t[k0]
    ensures Sum(s) < Sum(t)
  {
    if k0 == 0 {
      SumMonotone(s[1..], t[1..]);
    } else {
      SumStrictlyMonotone(s[1..], t[1..], k0 - 1);
    }
  }

  lemma {:induction false} SumMonotone(s: seq<real>, t: seq<real>)
    requires |s| == |t| && forall k :: 0 <= k < |s| ==> s[k] <= t[k]
    ensures Sum(s) <= Sum(t)
  {
    if s != [] {
      SumMonotone(s[1..], t[1..]);
    }
  }

  /** Term by term: a higher positive score against the same negative score gives a
      smaller `softplus(-(pos - neg))`, an equal one the same term. */
  lemma MfTermsFall(b: Batch, b2: Batch, d: nat, dPre: nat, softplus: real -> real)
    requires Increasing(softplus)
    requires BatchFits(b, d, dPre) && BatchFits(b2, d, dPre) && |b2.users| == |b.users|
    requires RowScores(b2.users, b2.neg) == RowScores(b.users, b.neg)
    requires forall k :: 0 <= k < |b.users| ==> RowScores(b.users, b.pos)[k] <= RowScores(b2.users, b2.pos)[k]
    ensures forall k :: 0 <= k < |b.users| ==> MfTerms(b2, d, dPre, softplus)[k] <= MfTerms(b, d, dPre, softplus)[k]
    ensures forall k :: 0 <= k < |b.users| && RowScores(b.users, b.pos)[k] < RowScores(b2.users, b2.pos)[k] ==>
      MfTerms(b2, d, dPre, softplus)[k] < MfTerms(b, d, dPre, softplus)[k]
  {
    var pos, pos2, neg := RowScores(b.users, b.pos), RowScores(b2.users, b2.pos), RowScores(b.users, b.neg);
    forall k | 0 <= k < |b.users|
      ensures MfTerms(b2, d, dPre, softplus)[k] <= MfTerms(b, d, dPre, softplus)[k]
      ensures pos[k] < pos2[k] ==> MfTerms(b2, d, dPre, softplus)[k] < MfTerms(b, d, dPre, softplus)[k]
    {
      var x, x2 := -(pos[k] - neg[k]), -(pos2[k] - neg[k]);
      if x2 < x {
        assert softplus(x2) < softplus(x);
      } else {
        assert x2 == x;
      }
    }
  }

  /** For the strictly increasing softplus, scoring every positive item at least as high,
      one of them strictly higher, with the negative items unchanged, strictly lowers the
      BPR term. */
  lemma MfLossFallsAsPositiveScoresRise(b: Batch, b2: Batch, d: nat, dPre: nat, decay: real, batchSize: nat,
                                       softplus: real -> real, k0: nat)
    requires Increasing(softplus)
    requires BatchFits(b, d, dPre) && BatchFits(b2, d, dPre) && batchSize > 0
    requires |b2.users| == |b.users| && k0 < |b.users|
    requires RowScores(b2.users, b2.neg) == RowScores(b.users, b.neg)
    requires forall k :: 0 <= k < |b.users| ==> RowScores(b.users, b.pos)[k] <= RowScores(b2.users, b2.pos)[k]
    requires RowScores(b.users, b.pos)[k0] < RowScores(b2.users, b2.pos)[k0]
    ensures BprLoss(b2, d, dPre, decay, batchSize, softplus).value.mf < BprLoss(b, d, dPre, decay, batchSize, softplus).value.mf
  {
    var t, t2 := MfTerms(b, d, dPre, softplus), MfTerms(b2, d, dPre, softplus);
    MfTermsFall(b, b2, d, dPre, softplus);
    SumStrictlyMonotone(t2, t, k0);
    MeanStrictlyMonotone(t2, t);
  }

  lemma MeanStrictlyMonotone(s: seq<real>, t: seq<real>)
    requires |s| == |t| > 0 && Sum(s) < Sum(t)
    ensures Mean(s) < Mean(t)
  {
    var n := |s| as real;
    var gap := Sum(t) - Sum(s);
    assert gap / n > 0.0;
    assert Sum(t) / n - Sum(s) / n == gap / n;
  }

  lemma {:induction false} SumConstant(s: seq<real>, c: real)
    requires forall k :: 0 <= k < |s| ==> s[k] == c
    ensures Sum(s) == |s| as real * c
  {
    if s != [] {
      SumConstant(s[1..], c);
    }
  }

  /** When every positive item scores the same as its negative item, the BPR term is
      `softplus(0)` (`log 2` for the real softplus). */
  lemma TiedScoresGiveSoftplusZero(b: Batch, d: nat, dPre: nat, decay: real, batchSize: nat, softplus: real -> real)
    requires BatchFits(b, d, dPre) && |b.users| > 0 && batchSize > 0
    requires RowScores(b.users, b.pos) == RowScores(b.users, b.neg)
    ensures BprLoss(b, d, dPre, decay, batchSize, softplus).value.mf == softplus(0.0)
  {
    var t := MfTerms(b, d, dPre, softplus);
    assert forall k :: 0 <= k < |t| ==> t[k] == softplus(0.0);
    SumConstant(t, softplus(0.0));
  }

  /** A batch of the concatenating variants: one-entry `_pre` rows (`emb_dim = 1`)
      beside two-entry final rows (one layer), which the loss accepts. */
  lemma MixedWidthBatch(b: Batch)
    requires b == Batch([[1.0, 2.0]], [[1.0, 2.0]], [[1.0, 2.0]], [[1.0]], [[1.0]], [[1.0]])
    ensures BatchFits(b, 2, 1)
    ensures BprLoss(b, 2, 1, 1.0, 1, x => x).value.mf == 0.0
    ensures BprLoss(b, 2, 1, 1.0, 1, x => x).value.emb == 1.5
  {
    var t := MfTerms(b, 2, 1, x => x);
    assert RowScores(b.users, b.pos)[0] == 5.0 by {
      var v := VMul(b.users[0], b.pos[0]);
      assert v == [1.0, 4.0];
      assert Sum(v) == 1.0 + Sum(v[1..]) && v[1..] == [4.0];
      assert Sum([4.0]) == 4.0 + Sum([4.0][1..]);
    }
    assert RowScores(b.users, b.neg) == RowScores(b.users, b.pos);
    assert t == [0.0];
    assert Sum(t) == 0.0 + Sum(t[1..]);
    forall m | m == b.usersPre || m == b.posPre || m == b.negPre
      ensures L2Loss(m) == 0.5
    {
      var q := RowSquares(m[0]);
      assert q == [1.0] && Sum(q) == 1.0 + Sum(q[1..]);
      var rows := seq(|m|, i requires 0 <= i < |m| => Sum(RowSquares(m[i])));
      assert rows == [1.0] && Sum(rows) == 1.0 + Sum(rows[1..]);
    }
  }
}
