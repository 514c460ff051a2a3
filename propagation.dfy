/**
 * The layer loop shared by every `_create_*_embed` method: each layer
 * multiplies the current embeddings by the folded adjacency (the side
 * embeddings) and applies the variant's update rule, recording one matrix
 * per layer. `tf.nn.l2_normalize` takes the reciprocal square root as a
 * parameter `rsqrt`; `tf.nn.leaky_relu` is given exactly.
 */
module Propagation {
  import opened Tensor
  import opened Sparse
  import opened Folds
  import opened Config

  /** `tf.nn.leaky_relu` with its default slope 0.2. */
  function LeakyRelu(x: real): real {
    if x < 0.0 then 0.2 * x else x
  }

  /** The `epsilon` of `tf.nn.l2_normalize`. */
  const L2Epsilon: real := 0.000000000001

  function SumSquares(v: Vector): real {
    Sum(VMul(v, v))
  }

  function Max(a: real, b: real): real {
    if a >= b then a else b
  }

  /** One row of `l2_normalize`: the row times `rsqrt(max(sum of squares, epsilon))`. */
  function NormalizeRow(x: Vector, rsqrt: real -> real): (r: Vector)
    ensures |r| == |x|
  {
    var c := rsqrt(Max(SumSquares(x), L2Epsilon));
    seq(|x|, j requires 0 <= j < |x| => x[j] * c)
  }

  /** `tf.nn.l2_normalize(m, axis=1)`. */
  function L2Normalize(m: Matrix, rsqrt: real -> real): (r: Matrix)
    ensures SameShape(r, m)
  {
    seq(|m|, i requires 0 <= i < |m| => NormalizeRow(m[i], rsqrt))
  }

  /** `rsqrt` is a positive reciprocal square root on the positive reals. */
  ghost predicate IsRsqrt(rsqrt: real -> real) {
    forall s :: s > 0.0 ==> rsqrt(s) > 0.0 && rsqrt(s) * rsqrt(s) * s == 1.0
  }

  /** With a true reciprocal square root, a row whose squares add up to at least
      epsilon comes out of `l2_normalize` with unit length. */
  lemma L2NormalizeUnitRows(m: Matrix, rsqrt: real -> real, i: nat)
    requires IsRsqrt(rsqrt) && i < |m| && SumSquares(m[i]) >= L2Epsilon
    ensures SumSquares(L2Normalize(m, rsqrt)[i]) == 1.0
  {
    var x := m[i];
    var c := rsqrt(SumSquares(x));
    var r := L2Normalize(m, rsqrt)[i];
    assert Max(SumSquares(x), L2Epsilon) == SumSquares(x);
    var sq := VMul(x, x);
    var scaled := seq(|sq|, k requires 0 <= k < |sq| => c * c * sq[k]);
    forall k | 0 <= k < |x| ensures VMul(r, r)[k] == scaled[k] {
      assert r[k] == x[k] * c;
      ScaledSquare(x[k], c);
    }
    assert VMul(r, r) == scaled;
    SumScale(sq, c * c);
    assert c * c * SumSquares(x) == 1.0;
  }

  lemma ScaledSquare(a: real, c: real)
    ensures (a * c) * (a * c) == c * c * (a * a)
  {
  }

  /** `tf.matmul(x, w) + b` with the bias row broadcast to every row. */
  function Dense(x: Matrix, w: Matrix, b: Vector): (r: Matrix)
    requires forall i :: 0 <= i < |x| ==> |x[i]| == |w|
    requires IsMatrix(w, |w|, |b|)
    ensures IsMatrix(r, |x|, |b|)
  {
    AddBias(MatMul(x, w, |b|), b)
  }

  /** The weights of layer `k`: `W_gc_k`, `b_gc_k`, `W_bi_k`, `b_bi_k`, `W_mlp_k`, `b_mlp_k`. */
  datatype LayerWeights = LayerWeights(
    wGc: Matrix, bGc: Vector,
    wBi: Matrix, bBi: Vector,
    wMlp: Matrix, bMlp: Vector)

  /** The shapes `_init_weights` gives layer `k`: `widths[k]` x `widths[k + 1]` matrices
      and `widths[k + 1]`-entry biases. */
  predicate LayerFits(w: LayerWeights, din: nat, dout: nat) {
    && IsMatrix(w.wGc, din, dout) && |w.bGc| == dout
    && IsMatrix(w.wBi, din, dout) && |w.bBi| == dout
    && IsMatrix(w.wMlp, din, dout) && |w.bMlp| == dout
  }

  /** The variants whose layers apply the weight matrices. */
  predicate UsesWeights(v: Variant) {
    v.Ngcf? || v.NgcfPas? || v.Gcn? || v.Gcmc?
  }

  /** Width of the embeddings a layer produces from `din`-wide ones. */
  function StepWidth(v: Variant, din: nat, dout: nat): nat {
    if UsesWeights(v) then dout else din
  }

  /** The graph-convolution message `leaky_relu(side W_gc + b_gc)` of `ngcf`, `gcn` and `gcmc`. */
  function GraphConvMessage(w: LayerWeights, side: Matrix, din: nat, dout: nat): (e: Matrix)
    requires IsMatrix(side, |side|, din) && LayerFits(w, din, dout)
    ensures IsMatrix(e, |side|, dout)
  {
    MMap(LeakyRelu, Dense(side, w.wGc, w.bGc))
  }

  /** The bi-interaction message `leaky_relu((ego * side) W_bi + b_bi)` of `ngcf`. */
  function BiMessage(w: LayerWeights, ego: Matrix, side: Matrix, din: nat, dout: nat): (e: Matrix)
    requires IsMatrix(ego, |ego|, din) && IsMatrix(side, |ego|, din) && LayerFits(w, din, dout)
    ensures IsMatrix(e, |ego|, dout)
  {
    MMap(LeakyRelu, Dense(MMul(ego, side), w.wBi, w.bBi))
  }

  /** What one layer produces: the embeddings the next layer starts from, and the
      matrix appended to `all_embeddings`. */
  datatype Step = Step(ego: Matrix, record: Matrix)

  /** One layer of variant `v`, given the current embeddings `ego` and the side
      embeddings `side` (the adjacency times `ego`). */
  function LayerStep(v: Variant, w: LayerWeights, ego: Matrix, side: Matrix, din: nat, dout: nat,
                     rsqrt: real -> real): (s: Step)
    requires IsMatrix(ego, |ego|, din) && IsMatrix(side, |ego|, din)
    requires UsesWeights(v) ==> LayerFits(w, din, dout)
    requires v.Gcmc? ==> din == dout
    ensures IsMatrix(s.ego, |ego|, StepWidth(v, din, dout))
    ensures IsMatrix(s.record, |ego|, StepWidth(v, din, dout))
  {
    match v
    case LightGcn | LightGcnAlpha1 | LightGcnConcat | Pas =>
      Step(side, side)
    case Gcf | GcfSum =>
      var e := MAdd(side, MMul(ego, side));
      Step(e, L2Normalize(e, rsqrt))
    case GcfOnlyIp | GcfSumOnlyIp =>
      var e := MMul(ego, side);
      Step(e, L2Normalize(e, rsqrt))
    case GcfMinusIp =>
      Step(side, L2Normalize(side, rsqrt))
    case Ngcf | NgcfPas =>
      var e := MAdd(GraphConvMessage(w, side, din, dout), BiMessage(w, ego, side, din, dout));
      Step(e, L2Normalize(e, rsqrt))
    case Gcn =>
      var e := GraphConvMessage(w, side, din, dout);
      Step(e, e)
    case Gcmc =>
      var e := GraphConvMessage(w, side, din, dout);
      Step(e, Dense(e, w.wMlp, w.bMlp))
  }

  /** The weights of every layer shaped as `_init_weights` makes them from
      `widths = [emb_dim] + layer_size`, and for `gcmc`, whose dense layer maps
      `widths[k]` columns, equal widths. */
  predicate WeightsFit(v: Variant, weights: seq<LayerWeights>, widths: seq<nat>) {
    && |widths| == |weights| + 1
    && (UsesWeights(v) ==> forall k :: 0 <= k < |weights| ==> LayerFits(weights[k], widths[k], widths[k + 1]))
    && (v.Gcmc? ==> forall k :: 0 <= k < |weights| ==> widths[k] == widths[k + 1])
  }

  /** Everything the layer loop needs: fitting weights and folds covering the `|ego0|` nodes. */
  predicate Setup(v: Variant, folds: seq<SparseTensor>, ego0: Matrix, weights: seq<LayerWeights>, widths: seq<nat>) {
    && WeightsFit(v, weights, widths)
    && FoldsFit(folds, |ego0|) && FoldRows(folds) == |ego0|
    && IsMatrix(ego0, |ego0|, widths[0])
  }

  /** Width of the embeddings after `k` layers. */
  function Width(v: Variant, widths: seq<nat>, k: nat): nat
    requires k < |widths|
  {
    if UsesWeights(v) then widths[k] else widths[0]
  }

  /** Width of the `m`-th recorded matrix: `gcmc` records no layer 0. */
  function RecordWidth(v: Variant, widths: seq<nat>, m: nat): nat
    requires m < |widths| && (v.Gcmc? ==> m + 1 < |widths|)
  {
    if v.Gcmc? then widths[m + 1] else Width(v, widths, m)
  }

  /** How many matrices `k` layers record: `all_embeddings` starts from the initial
      embeddings, except for `gcmc`, which starts empty. */
  function RecordCount(v: Variant, k: nat): nat {
    if v.Gcmc? then k else k + 1
  }

  /** `all_embeddings` and the current embeddings after `k` layers. */
  datatype Trace = Trace(layers: seq<Matrix>, ego: Matrix)

  function Propagated(v: Variant, folds: seq<SparseTensor>, ego0: Matrix, weights: seq<LayerWeights>,
                      widths: seq<nat>, rsqrt: real -> real, k: nat): (t: Trace)
    requires Setup(v, folds, ego0, weights, widths) && k <= |weights|
    ensures IsMatrix(t.ego, |ego0|, Width(v, widths, k))
    ensures |t.layers| == RecordCount(v, k)
    ensures forall m :: 0 <= m < |t.layers| ==> IsMatrix(t.layers[m], |ego0|, RecordWidth(v, widths, m))
  {
    if k == 0 then
      Trace(if v.Gcmc? then [] else [ego0], ego0)
    else
      var prev := Propagated(v, folds, ego0, weights, widths, rsqrt, k - 1);
      var d := Width(v, widths, k - 1);
      FoldProductShape(folds, prev.ego, d);
      var side := FoldProduct(folds, prev.ego, d);
      var s := LayerStep(v, weights[k - 1], prev.ego, side, d, widths[k], rsqrt);
      Trace(prev.layers + [s.record], s.ego)
  }

  /** One pass of the layer loop: layer `k` turns the state after `k` layers into the
      state after `k + 1`. */
  method PropagateLayer(v: Variant, folds: seq<SparseTensor>, ego0: Matrix, weights: seq<LayerWeights>,
                        widths: seq<nat>, rsqrt: real -> real, k: nat, layers: seq<Matrix>, ego: Matrix)
    returns (layers': seq<Matrix>, ego': Matrix)
    requires Setup(v, folds, ego0, weights, widths) && k < |weights|
    requires Propagated(v, folds, ego0, weights, widths, rsqrt, k) == Trace(layers, ego)
    ensures Propagated(v, folds, ego0, weights, widths, rsqrt, k + 1) == Trace(layers', ego')
  {
    var d := Width(v, widths, k);
    var side := FoldedProduct(folds, ego, d);
    var step := LayerStep(v, weights[k], ego, side, d, widths[k + 1], rsqrt);
    layers' := layers + [step.record];
    ego' := step.ego;
  }

  /** The layer loop of `_create_*_embed`. */
  method Propagate(v: Variant, folds: seq<SparseTensor>, ego0: Matrix, weights: seq<LayerWeights>,
                   widths: seq<nat>, rsqrt: real -> real) returns (layers: seq<Matrix>)
    requires Setup(v, folds, ego0, weights, widths)
    ensures layers == Propagated(v, folds, ego0, weights, widths, rsqrt, |weights|).layers
  {
    var ego := ego0;
    layers := if v.Gcmc? then [] else [ego0];
    var k := 0;
    while k < |weights|
      invariant k <= |weights|
      invariant Propagated(v, folds, ego0, weights, widths, rsqrt, k) == Trace(layers, ego)
    {
      layers, ego := PropagateLayer(v, folds, ego0, weights, widths, rsqrt, k, layers, ego);
      k := k + 1;
    }
  }

  /** Each layer appends one record and leaves the earlier ones alone. */
  lemma PropagatedAppends(v: Variant, folds: seq<SparseTensor>, ego0: Matrix,
      weights: seq<LayerWeights>, widths: seq<nat>, rsqrt: real -> real, k: nat)
    requires Setup(v, folds, ego0, weights, widths) && 0 < k <= |weights|
    ensures Propagated(v, folds, ego0, weights, widths, rsqrt, k).layers[..RecordCount(v, k - 1)]
         == Propagated(v, folds, ego0, weights, widths, rsqrt, k - 1).layers
  {
    var prev := Propagated(v, folds, ego0, weights, widths, rsqrt, k - 1).layers;
    var cur := Propagated(v, folds, ego0, weights, widths, rsqrt, k).layers;
    assert cur == prev + [cur[|prev|]];
  }

  /** Each further layer only appends: the records after `m` layers stay, unchanged, at the
      front of the records after `k >= m` layers. */
  lemma {:induction false} RecordsArePrefixes(v: Variant, folds: seq<SparseTensor>, ego0: Matrix,
      weights: seq<LayerWeights>, widths: seq<nat>, rsqrt: real -> real, k: nat, m: nat)
    requires Setup(v, folds, ego0, weights, widths) && m <= k <= |weights|
    ensures Propagated(v, folds, ego0, weights, widths, rsqrt, m).layers
         == Propagated(v, folds, ego0, weights, widths, rsqrt, k).layers[..RecordCount(v, m)]
    decreases k
  {
    if k > m {
      RecordsArePrefixes(v, folds, ego0, weights, widths, rsqrt, k - 1, m);
      PropagatedAppends(v, folds, ego0, weights, widths, rsqrt, k);
    }
  }

  /** For every variant but `gcmc`, layer 0 is the initial embeddings. */
  lemma FirstRecordIsEgo0(v: Variant, folds: seq<SparseTensor>, ego0: Matrix,
      weights: seq<LayerWeights>, widths: seq<nat>, rsqrt: real -> real, k: nat)
    requires Setup(v, folds, ego0, weights, widths) && k <= |weights| && !v.Gcmc?
    ensures Propagated(v, folds, ego0, weights, widths, rsqrt, k).layers[0] == ego0
  {
    RecordsArePrefixes(v, folds, ego0, weights, widths, rsqrt, k, 0);
    var cur := Propagated(v, folds, ego0, weights, widths, rsqrt, k).layers;
    assert cur[0] == cur[..1][0];
  }

  /** `k` applications of the dense adjacency `a` to `e0`. */
  function Power(a: Matrix, k: nat, e0: Matrix, d: nat): (r: Matrix)
    requires IsMatrix(a, |a|, |a|) && IsMatrix(e0, |a|, d)
    ensures IsMatrix(r, |a|, d)
  {
    if k == 0 then e0 else MatMul(a, Power(a, k - 1, e0, d), d)
  }

  /** The folds of `_split_A_hat` over the adjacency `a` of the `|ego0|` nodes. */
  predicate PlainFolds(a: Matrix, folds: seq<SparseTensor>, ego0: Matrix) {
    IsMatrix(a, |ego0|, |ego0|) && folds == FoldsOf(a, |ego0|, NFold)
  }

  /** What the layer loop over the whole adjacency `a` needs. */
  predicate PlainSetup(v: Variant, a: Matrix, ego0: Matrix, weights: seq<LayerWeights>, widths: seq<nat>) {
    && WeightsFit(v, weights, widths)
    && IsMatrix(a, |ego0|, |ego0|)
    && IsMatrix(ego0, |ego0|, widths[0])
  }

  /** The layer loop multiplying by the whole adjacency `a` instead of its folds. */
  function PlainTrace(v: Variant, a: Matrix, ego0: Matrix, weights: seq<LayerWeights>, widths: seq<nat>,
                      rsqrt: real -> real, k: nat): (t: Trace)
    requires PlainSetup(v, a, ego0, weights, widths) && k <= |weights|
    ensures IsMatrix(t.ego, |ego0|, Width(v, widths, k))
    ensures |t.layers| == RecordCount(v, k)
  {
    if k == 0 then
      Trace(if v.Gcmc? then [] else [ego0], ego0)
    else
      var prev := PlainTrace(v, a, ego0, weights, widths, rsqrt, k - 1);
      var d := Width(v, widths, k - 1);
      var s := LayerStep(v, weights[k - 1], prev.ego, MatMul(a, prev.ego, d), d, widths[k], rsqrt);
      Trace(prev.layers + [s.record], s.ego)
  }

  /** Cutting the adjacency into `n_fold` folds, multiplying fold by fold and stacking
      the products changes nothing: every layer sees `A E` itself. */
  lemma {:induction false} FoldedIsPlain(v: Variant, a: Matrix, folds: seq<SparseTensor>, ego0: Matrix,
      weights: seq<LayerWeights>, widths: seq<nat>, rsqrt: real -> real, k: nat)
    requires Setup(v, folds, ego0, weights, widths) && PlainFolds(a, folds, ego0) && k <= |weights|
    ensures PlainSetup(v, a, ego0, weights, widths)
    ensures Propagated(v, folds, ego0, weights, widths, rsqrt, k) == PlainTrace(v, a, ego0, weights, widths, rsqrt, k)
  {
    if k > 0 {
      FoldedIsPlain(v, a, folds, ego0, weights, widths, rsqrt, k - 1);
      var prev := Propagated(v, folds, ego0, weights, widths, rsqrt, k - 1);
      FoldProductIsMatMul(a, |ego0|, NFold, prev.ego, Width(v, widths, k - 1));
    }
  }

  /** Each layer of the plain loop appends one record and leaves the earlier ones alone. */
  lemma PlainAppends(v: Variant, a: Matrix, ego0: Matrix,
      weights: seq<LayerWeights>, widths: seq<nat>, rsqrt: real -> real, k: nat)
    requires PlainSetup(v, a, ego0, weights, widths) && 0 < k <= |weights|
    ensures PlainTrace(v, a, ego0, weights, widths, rsqrt, k).layers[..RecordCount(v, k - 1)]
         == PlainTrace(v, a, ego0, weights, widths, rsqrt, k - 1).layers
  {
    var prev := PlainTrace(v, a, ego0, weights, widths, rsqrt, k - 1).layers;
    var cur := PlainTrace(v, a, ego0, weights, widths, rsqrt, k).layers;
    assert cur == prev + [cur[|prev|]];
  }

  /** A light layer (`lightgcn`, `LightGCN-alpha-1`, `LightGCN-concat`, `pas`) moves on to
      the side embeddings `A E` and records them as they are. */
  lemma LightRule(v: Variant, a: Matrix, ego0: Matrix,
      weights: seq<LayerWeights>, widths: seq<nat>, rsqrt: real -> real, k: nat)
    requires v.LightGcn? || v.LightGcnAlpha1? || v.LightGcnConcat? || v.Pas?
    requires PlainSetup(v, a, ego0, weights, widths) && k < |weights|
    ensures var e := PlainTrace(v, a, ego0, weights, widths, rsqrt, k).ego;
      var next := PlainTrace(v, a, ego0, weights, widths, rsqrt, k + 1);
      && next.ego == MatMul(a, e, widths[0])
      && next.layers[k + 1] == next.ego
  {
  }

  /** A `gcf-minus-ip` layer moves on to the side embeddings `A E` and records them
      normalised. */
  lemma MinusIpRule(v: Variant, a: Matrix, ego0: Matrix,
      weights: seq<LayerWeights>, widths: seq<nat>, rsqrt: real -> real, k: nat)
    requires v.GcfMinusIp?
    requires PlainSetup(v, a, ego0, weights, widths) && k < |weights|
    ensures var e := PlainTrace(v, a, ego0, weights, widths, rsqrt, k).ego;
      var next := PlainTrace(v, a, ego0, weights, widths, rsqrt, k + 1);
      && next.ego == MatMul(a, e, widths[0])
      && next.layers[k + 1] == L2Normalize(next.ego, rsqrt)
  {
  }

  /** The light variants record `A^m E0` as layer `m`. */
  lemma {:induction false} LightLayersArePowers(v: Variant, a: Matrix, ego0: Matrix,
      weights: seq<LayerWeights>, widths: seq<nat>, rsqrt: real -> real, k: nat)
    requires v.LightGcn? || v.LightGcnAlpha1? || v.LightGcnConcat? || v.Pas?
    requires PlainSetup(v, a, ego0, weights, widths) && k <= |weights|
    ensures PlainTrace(v, a, ego0, weights, widths, rsqrt, k).ego == Power(a, k, ego0, widths[0])
    ensures forall m :: 0 <= m <= k ==>
      PlainTrace(v, a, ego0, weights, widths, rsqrt, k).layers[m] == Power(a, m, ego0, widths[0])
  {
    if k > 0 {
      LightLayersArePowers(v, a, ego0, weights, widths, rsqrt, k - 1);
      LightRule(v, a, ego0, weights, widths, rsqrt, k - 1);
      PlainAppends(v, a, ego0, weights, widths, rsqrt, k);
      var prev := PlainTrace(v, a, ego0, weights, widths, rsqrt, k - 1).layers;
      var cur := PlainTrace(v, a, ego0, weights, widths, rsqrt, k).layers;
      forall m | 0 <= m < k ensures cur[m] == Power(a, m, ego0, widths[0]) {
        assert cur[m] == cur[..k][m];
      }
    }
  }

  /** `gcf-minus-ip` moves on to the side embeddings: after `k` layers it holds `A^k E0`. */
  lemma {:induction false} MinusIpEgo(v: Variant, a: Matrix, ego0: Matrix,
      weights: seq<LayerWeights>, widths: seq<nat>, rsqrt: real -> real, k: nat)
    requires v.GcfMinusIp?
    requires PlainSetup(v, a, ego0, weights, widths) && k <= |weights|
    ensures PlainTrace(v, a, ego0, weights, widths, rsqrt, k).ego == Power(a, k, ego0, widths[0])
  {
    if k > 0 {
      MinusIpEgo(v, a, ego0, weights, widths, rsqrt, k - 1);
      MinusIpRule(v, a, ego0, weights, widths, rsqrt, k - 1);
    }
  }

  /** The plain loop only appends, too. */
  lemma {:induction false} PlainPrefix(v: Variant, a: Matrix, ego0: Matrix,
      weights: seq<LayerWeights>, widths: seq<nat>, rsqrt: real -> real, k: nat, m: nat)
    requires PlainSetup(v, a, ego0, weights, widths) && m <= k <= |weights|
    ensures PlainTrace(v, a, ego0, weights, widths, rsqrt, m).layers
         == PlainTrace(v, a, ego0, weights, widths, rsqrt, k).layers[..RecordCount(v, m)]
    decreases k
  {
    if k > m {
      PlainPrefix(v, a, ego0, weights, widths, rsqrt, k - 1, m);
      PlainAppends(v, a, ego0, weights, widths, rsqrt, k);
    }
  }

  /** `gcf-minus-ip` records the normalised `A^m E0` as layer `m >= 1`. */
  lemma MinusIpLayers(v: Variant, a: Matrix, ego0: Matrix,
      weights: seq<LayerWeights>, widths: seq<nat>, rsqrt: real -> real, k: nat)
    requires v.GcfMinusIp?
    requires PlainSetup(v, a, ego0, weights, widths) && k <= |weights|
    ensures forall m :: 1 <= m <= k ==>
      PlainTrace(v, a, ego0, weights, widths, rsqrt, k).layers[m]
        == L2Normalize(Power(a, m, ego0, widths[0]), rsqrt)
  {
    var cur := PlainTrace(v, a, ego0, weights, widths, rsqrt, k).layers;
    forall m | 1 <= m <= k ensures cur[m] == L2Normalize(Power(a, m, ego0, widths[0]), rsqrt) {
      MinusIpLayerAt(v, a, ego0, weights, widths, rsqrt, k, m);
    }
  }

  lemma MinusIpLayerAt(v: Variant, a: Matrix, ego0: Matrix,
      weights: seq<LayerWeights>, widths: seq<nat>, rsqrt: real -> real, k: nat, m: nat)
    requires v.GcfMinusIp?
    requires PlainSetup(v, a, ego0, weights, widths) && 1 <= m <= k <= |weights|
    ensures PlainTrace(v, a, ego0, weights, widths, rsqrt, k).layers[m]
         == L2Normalize(Power(a, m, ego0, widths[0]), rsqrt)
  {
    PlainPrefix(v, a, ego0, weights, widths, rsqrt, k, m);
    MinusIpRule(v, a, ego0, weights, widths, rsqrt, m - 1);
    MinusIpEgo(v, a, ego0, weights, widths, rsqrt, m);
    var at := PlainTrace(v, a, ego0, weights, widths, rsqrt, m);
    var cur := PlainTrace(v, a, ego0, weights, widths, rsqrt, k).layers;
    assert at.layers[m] == L2Normalize(at.ego, rsqrt);
    assert cur[m] == cur[..m + 1][m];
  }

  /** `gcf-only-ip` and `gcf-sum-only-ip` multiply the embeddings entrywise by the side
      embeddings, `E' = E * (A E)`, and record the normalised result. */
  lemma OnlyIpRule(v: Variant, a: Matrix, ego0: Matrix,
      weights: seq<LayerWeights>, widths: seq<nat>, rsqrt: real -> real, k: nat)
    requires v.GcfOnlyIp? || v.GcfSumOnlyIp?
    requires PlainSetup(v, a, ego0, weights, widths) && k < |weights|
    ensures var e := PlainTrace(v, a, ego0, weights, widths, rsqrt, k).ego;
      var next := PlainTrace(v, a, ego0, weights, widths, rsqrt, k + 1);
      && next.ego == MMul(e, MatMul(a, e, widths[0]))
      && next.layers[k + 1] == L2Normalize(next.ego, rsqrt)
  {
  }

  /** `gcf` and `gcf-sum` add the side embeddings and their entrywise product with the
      current ones, `E' = A E + E * (A E)`, and record the normalised result. */
  lemma GcfRule(v: Variant, a: Matrix, ego0: Matrix,
      weights: seq<LayerWeights>, widths: seq<nat>, rsqrt: real -> real, k: nat)
    requires v.Gcf? || v.GcfSum?
    requires PlainSetup(v, a, ego0, weights, widths) && k < |weights|
    ensures var e := PlainTrace(v, a, ego0, weights, widths, rsqrt, k).ego;
      var next := PlainTrace(v, a, ego0, weights, widths, rsqrt, k + 1);
      && next.ego == MAdd(MatMul(a, e, widths[0]), MMul(e, MatMul(a, e, widths[0])))
      && next.layers[k + 1] == L2Normalize(next.ego, rsqrt)
  {
  }

  /** The `gcn` and `gcmc` layer: `E' = leaky_relu((A E) W_gc + b_gc)`; `gcn` records
      `E'` itself and `gcmc` records the dense layer `E' W_mlp + b_mlp`. */
  lemma GraphConvRule(v: Variant, a: Matrix, ego0: Matrix,
      weights: seq<LayerWeights>, widths: seq<nat>, rsqrt: real -> real, k: nat)
    requires v.Gcn? || v.Gcmc?
    requires PlainSetup(v, a, ego0, weights, widths) && k < |weights|
    ensures var e := PlainTrace(v, a, ego0, weights, widths, rsqrt, k).ego;
      var next := PlainTrace(v, a, ego0, weights, widths, rsqrt, k + 1);
      var w := weights[k];
      && next.ego == MMap(LeakyRelu, Dense(MatMul(a, e, widths[k]), w.wGc, w.bGc))
      && next.layers[RecordCount(v, k)] ==
           if v.Gcn? then next.ego else Dense(next.ego, w.wMlp, w.bMlp)
  {
  }

  /** The `ngcf` and `ngcfpas` layer: the sum message `leaky_relu((A E) W_gc + b_gc)` plus
      the bi message `leaky_relu((E * A E) W_bi + b_bi)`, recorded after normalisation. */
  lemma NgcfRule(v: Variant, a: Matrix, ego0: Matrix,
      weights: seq<LayerWeights>, widths: seq<nat>, rsqrt: real -> real, k: nat)
    requires v.Ngcf? || v.NgcfPas?
    requires PlainSetup(v, a, ego0, weights, widths) && k < |weights|
    ensures var e := PlainTrace(v, a, ego0, weights, widths, rsqrt, k).ego;
      var side := MatMul(a, e, widths[k]);
      var next := PlainTrace(v, a, ego0, weights, widths, rsqrt, k + 1);
      var w := weights[k];
      && next.ego == MAdd(MMap(LeakyRelu, Dense(side, w.wGc, w.bGc)),
                          MMap(LeakyRelu, Dense(MMul(e, side), w.wBi, w.bBi)))
      && next.layers[k + 1] == L2Normalize(next.ego, rsqrt)
  {
  }

  /** `LightRule` for the folded loop `Propagate` runs. */
  lemma LightStep(v: Variant, a: Matrix, folds: seq<SparseTensor>, ego0: Matrix,
      weights: seq<LayerWeights>, widths: seq<nat>, rsqrt: real -> real, k: nat)
    requires v.LightGcn? || v.LightGcnAlpha1? || v.LightGcnConcat? || v.Pas?
    requires Setup(v, folds, ego0, weights, widths) && PlainFolds(a, folds, ego0) && k < |weights|
    ensures var e := Propagated(v, folds, ego0, weights, widths, rsqrt, k).ego;
      var next := Propagated(v, folds, ego0, weights, widths, rsqrt, k + 1);
      && next.ego == MatMul(a, e, widths[0])
      && next.layers[k + 1] == next.ego
  {
    FoldedIsPlain(v, a, folds, ego0, weights, widths, rsqrt, k);
    FoldedIsPlain(v, a, folds, ego0, weights, widths, rsqrt, k + 1);
    LightRule(v, a, ego0, weights, widths, rsqrt, k);
  }

  /** `MinusIpRule` (the corrected `gcf-minus-ip` layer) for the folded loop. */
  lemma MinusIpStep(v: Variant, a: Matrix, folds: seq<SparseTensor>, ego0: Matrix,
      weights: seq<LayerWeights>, widths: seq<nat>, rsqrt: real -> real, k: nat)
    requires v.GcfMinusIp?
    requires Setup(v, folds, ego0, weights, widths) && PlainFolds(a, folds, ego0) && k < |weights|
    ensures var e := Propagated(v, folds, ego0, weights, widths, rsqrt, k).ego;
      var next := Propagated(v, folds, ego0, weights, widths, rsqrt, k + 1);
      && next.ego == MatMul(a, e, widths[0])
      && next.layers[k + 1] == L2Normalize(next.ego, rsqrt)
  {
    FoldedIsPlain(v, a, folds, ego0, weights, widths, rsqrt, k);
    FoldedIsPlain(v, a, folds, ego0, weights, widths, rsqrt, k + 1);
    MinusIpRule(v, a, ego0, weights, widths, rsqrt, k);
  }

  /** `OnlyIpRule` for the folded loop. */
  lemma OnlyIpStep(v: Variant, a: Matrix, folds: seq<SparseTensor>, ego0: Matrix,
      weights: seq<LayerWeights>, widths: seq<nat>, rsqrt: real -> real, k: nat)
    requires v.GcfOnlyIp? || v.GcfSumOnlyIp?
    requires Setup(v, folds, ego0, weights, widths) && PlainFolds(a, folds, ego0) && k < |weights|
    ensures var e := Propagated(v, folds, ego0, weights, widths, rsqrt, k).ego;
      var next := Propagated(v, folds, ego0, weights, widths, rsqrt, k + 1);
      && next.ego == MMul(e, MatMul(a, e, widths[0]))
      && next.layers[k + 1] == L2Normalize(next.ego, rsqrt)
  {
    FoldedIsPlain(v, a, folds, ego0, weights, widths, rsqrt, k);
    FoldedIsPlain(v, a, folds, ego0, weights, widths, rsqrt, k + 1);
    OnlyIpRule(v, a, ego0, weights, widths, rsqrt, k);
  }

  /** `GcfRule` for the folded loop. */
  lemma GcfStep(v: Variant, a: Matrix, folds: seq<SparseTensor>, ego0: Matrix,
      weights: seq<LayerWeights>, widths: seq<nat>, rsqrt: real -> real, k: nat)
    requires v.Gcf? || v.GcfSum?
    requires Setup(v, folds, ego0, weights, widths) && PlainFolds(a, folds, ego0) && k < |weights|
    ensures var e := Propagated(v, folds, ego0, weights, widths, rsqrt, k).ego;
      var next := Propagated(v, folds, ego0, weights, widths, rsqrt, k + 1);
      && next.ego == MAdd(MatMul(a, e, widths[0]), MMul(e, MatMul(a, e, widths[0])))
      && next.layers[k + 1] == L2Normalize(next.ego, rsqrt)
  {
    FoldedIsPlain(v, a, folds, ego0, weights, widths, rsqrt, k);
    FoldedIsPlain(v, a, folds, ego0, weights, widths, rsqrt, k + 1);
    GcfRule(v, a, ego0, weights, widths, rsqrt, k);
  }

  /** `GraphConvRule` for the folded loop. */
  lemma GraphConvStep(v: Variant, a: Matrix, folds: seq<SparseTensor>, ego0: Matrix,
      weights: seq<LayerWeights>, widths: seq<nat>, rsqrt: real -> real, k: nat)
    requires v.Gcn? || v.Gcmc?
    requires Setup(v, folds, ego0, weights, widths) && PlainFolds(a, folds, ego0) && k < |weights|
    ensures var e := Propagated(v, folds, ego0, weights, widths, rsqrt, k).ego;
      var next := Propagated(v, folds, ego0, weights, widths, rsqrt, k + 1);
      var w := weights[k];
      && next.ego == MMap(LeakyRelu, Dense(MatMul(a, e, widths[k]), w.wGc, w.bGc))
      && next.layers[RecordCount(v, k)] ==
           if v.Gcn? then next.ego else Dense(next.ego, w.wMlp, w.bMlp)
  {
    FoldedIsPlain(v, a, folds, ego0, weights, widths, rsqrt, k);
    FoldedIsPlain(v, a, folds, ego0, weights, widths, rsqrt, k + 1);
    GraphConvRule(v, a, ego0, weights, widths, rsqrt, k);
  }

  /** `NgcfRule` for the folded loop. */
  lemma NgcfStep(v: Variant, a: Matrix, folds: seq<SparseTensor>, ego0: Matrix,
      weights: seq<LayerWeights>, widths: seq<nat>, rsqrt: real -> real, k: nat)
    requires v.Ngcf? || v.NgcfPas?
    requires Setup(v, folds, ego0, weights, widths) && PlainFolds(a, folds, ego0) && k < |weights|
    ensures var e := Propagated(v, folds, ego0, weights, widths, rsqrt, k).ego;
      var next := Propagated(v, folds, ego0, weights, widths, rsqrt, k + 1);
      var side := MatMul(a, e, widths[k]);
      var w := weights[k];
      && next.ego == MAdd(MMap(LeakyRelu, Dense(side, w.wGc, w.bGc)),
                          MMap(LeakyRelu, Dense(MMul(e, side), w.wBi, w.bBi)))
      && next.layers[k + 1] == L2Normalize(next.ego, rsqrt)
  {
    FoldedIsPlain(v, a, folds, ego0, weights, widths, rsqrt, k);
    FoldedIsPlain(v, a, folds, ego0, weights, widths, rsqrt, k + 1);
    NgcfRule(v, a, ego0, weights, widths, rsqrt, k);
  }

  /** `_create_gcf_minus_IP_embed` as the loop is written: `ego_embeddings` is never
      reassigned, so every layer multiplies the initial embeddings again. */
  function MinusIpAsWritten(folds: seq<SparseTensor>, ego0: Matrix, d: nat, rsqrt: real -> real, k: nat)
    : (layers: seq<Matrix>)
    requires FoldsFit(folds, |ego0|) && IsMatrix(ego0, |ego0|, d)
    ensures |layers| == k + 1 && layers[0] == ego0
  {
    if k == 0 then [ego0]
    else MinusIpAsWritten(folds, ego0, d, rsqrt, k - 1) + [L2Normalize(FoldProduct(folds, ego0, d), rsqrt)]
  }

  /** As written, all layers after layer 0 are one and the same matrix. */
  lemma {:induction false} MinusIpAsWrittenRepeats(folds: seq<SparseTensor>, ego0: Matrix, d: nat,
      rsqrt: real -> real, k: nat)
    requires FoldsFit(folds, |ego0|) && IsMatrix(ego0, |ego0|, d)
    ensures forall m :: 1 <= m <= k ==>
      MinusIpAsWritten(folds, ego0, d, rsqrt, k)[m] == L2Normalize(FoldProduct(folds, ego0, d), rsqrt)
  {
    if k > 0 {
      MinusIpAsWrittenRepeats(folds, ego0, d, rsqrt, k - 1);
      var prev := MinusIpAsWritten(folds, ego0, d, rsqrt, k - 1);
      assert forall m :: 1 <= m < k ==> MinusIpAsWritten(folds, ego0, d, rsqrt, k)[m] == prev[m];
    }
  }

  /** Two nodes, node 0 linked to node 1, one-dimensional embeddings 1 and 1: in the
      second layer the loop as written records `l2_normalize(A E0)`, whose first row is
      `rsqrt(1) > 0`, while the intended second layer `l2_normalize(A^2 E0)` is zero. */
  lemma MinusIpAsWrittenDiffers(a: Matrix, ego0: Matrix, folds: seq<SparseTensor>, weights: seq<LayerWeights>,
      rsqrt: real -> real)
    requires a == [[0.0, 1.0], [0.0, 0.0]] && ego0 == [[1.0], [1.0]]
    requires folds == FoldsOf(a, |ego0|, NFold) && |weights| == 2 && IsRsqrt(rsqrt)
    ensures Setup(GcfMinusIp, folds, ego0, weights, [1, 1, 1])
    ensures MinusIpAsWritten(folds, ego0, 1, rsqrt, 2)[2]
         != Propagated(GcfMinusIp, folds, ego0, weights, [1, 1, 1], rsqrt, 2).layers[2]
  {
    AdjacencyExample(a, ego0);
    ExampleSetup(a, ego0, folds, weights);
    AsWrittenExample(a, ego0, folds, rsqrt);
    IntendedExample(a, ego0, folds, weights, rsqrt);
    NormalizeUnitEntry(MatMul(a, ego0, 1), rsqrt);
    NormalizeZeroEntry(Power(a, 2, ego0, 1), rsqrt);
  }

  lemma ExampleSetup(a: Matrix, ego0: Matrix, folds: seq<SparseTensor>, weights: seq<LayerWeights>)
    requires IsMatrix(a, |ego0|, |ego0|) && IsMatrix(ego0, |ego0|, 1)
    requires folds == FoldsOf(a, |ego0|, NFold) && |weights| == 2
    ensures Setup(GcfMinusIp, folds, ego0, weights, [1, 1, 1]) && PlainFolds(a, folds, ego0)
  {
    FoldRowsOfFoldsOf(a, |ego0|, NFold);
  }

  /** The second layer as written is the normalised `A E0`. */
  lemma AsWrittenExample(a: Matrix, ego0: Matrix, folds: seq<SparseTensor>, rsqrt: real -> real)
    requires IsMatrix(a, |ego0|, |ego0|) && IsMatrix(ego0, |ego0|, 1)
    requires folds == FoldsOf(a, |ego0|, NFold)
    ensures FoldsFit(folds, |ego0|)
    ensures MinusIpAsWritten(folds, ego0, 1, rsqrt, 2)[2] == L2Normalize(MatMul(a, ego0, 1), rsqrt)
  {
    FoldProductIsMatMul(a, |ego0|, NFold, ego0, 1);
    MinusIpAsWrittenRepeats(folds, ego0, 1, rsqrt, 2);
  }

  /** The intended second layer is the normalised `A (A E0)`. */
  lemma IntendedExample(a: Matrix, ego0: Matrix, folds: seq<SparseTensor>, weights: seq<LayerWeights>,
      rsqrt: real -> real)
    requires IsMatrix(a, |ego0|, |ego0|) && IsMatrix(ego0, |ego0|, 1)
    requires folds == FoldsOf(a, |ego0|, NFold) && |weights| == 2
    ensures Setup(GcfMinusIp, folds, ego0, weights, [1, 1, 1])
    ensures Propagated(GcfMinusIp, folds, ego0, weights, [1, 1, 1], rsqrt, 2).layers[2]
         == L2Normalize(Power(a, 2, ego0, 1), rsqrt)
    ensures Power(a, 2, ego0, 1) == MatMul(a, MatMul(a, ego0, 1), 1)
  {
    ExampleSetup(a, ego0, folds, weights);
    FoldedIsPlain(GcfMinusIp, a, folds, ego0, weights, [1, 1, 1], rsqrt, 2);
    MinusIpLayers(GcfMinusIp, a, ego0, weights, [1, 1, 1], rsqrt, 2);
    PowerTwo(a, ego0, 1);
  }

  lemma PowerTwo(a: Matrix, e0: Matrix, d: nat)
    requires IsMatrix(a, |a|, |a|) && IsMatrix(e0, |a|, d)
    ensures Power(a, 2, e0, d) == MatMul(a, MatMul(a, e0, d), d)
  {
    assert Power(a, 1, e0, d) == MatMul(a, e0, d);
  }

  /** A row `[1]` normalises to `[rsqrt(1)]`, which is positive. */
  lemma NormalizeUnitEntry(m: Matrix, rsqrt: real -> real)
    requires |m| > 0 && m[0] == [1.0] && IsRsqrt(rsqrt)
    ensures L2Normalize(m, rsqrt)[0][0] == rsqrt(1.0) > 0.0
  {
    assert SumSquares(m[0]) == 1.0 by {
      assert VMul(m[0], m[0]) == [1.0];
      assert [1.0][1..] == [];
    }
  }

  /** A zero entry stays zero under normalisation. */
  lemma NormalizeZeroEntry(m: Matrix, rsqrt: real -> real)
    requires |m| > 0 && |m[0]| > 0 && m[0][0] == 0.0
    ensures L2Normalize(m, rsqrt)[0][0] == 0.0
  {
  }

  /** The products of the example: `A E0 = [[1], [0]]` and `A (A E0) = [[0], [0]]`. */
  lemma AdjacencyExample(a: Matrix, ego0: Matrix)
    requires a == [[0.0, 1.0], [0.0, 0.0]] && ego0 == [[1.0], [1.0]]
    ensures MatMul(a, ego0, 1) == [[1.0], [0.0]]
    ensures MatMul(a, MatMul(a, ego0, 1), 1)[0][0] == 0.0
  {
    var ae := MatMul(a, ego0, 1);
    assert Column(ego0, 0) == [1.0, 1.0];
    assert [1.0, 1.0][1..] == [1.0] && [1.0][1..] == [];
    assert a[0][1..] == [1.0] && a[1][1..] == [0.0] && [1.0][1..] == [] && [0.0][1..] == [];
    assert ae[0][0] == Dot(a[0], [1.0, 1.0]) == 1.0;
    assert ae[1][0] == Dot(a[1], [1.0, 1.0]) == 0.0;
    assert ae[0] == [1.0] && ae[1] == [0.0];
    assert ae == [[1.0], [0.0]];
    assert Column(ae, 0) == [1.0, 0.0];
    assert [1.0, 0.0][1..] == [0.0];
    assert MatMul(a, ae, 1)[0][0] == Dot(a[0], [1.0, 0.0]) == 0.0;
  }
}
