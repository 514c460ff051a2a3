/**
 * The ways the propagation variants combine their per-layer embeddings into
 * one: `tf.reduce_mean` and `tf.reduce_sum` over `tf.stack(layers, 1)`,
 * `tf.concat(layers, 1)`, and `_calc_alpha_k` with its `leveled` weighting
 * `_leveled_alpha_k`.
 */
module Combine {
  import opened Tensor
  import opened Wrappers
  import opened Blocks
  import opened Config

  /** Stacked layers, `tf.stack(layers, 1)`: `t[i][k]` is row `i` of layer `k`. */
  type Stacked = seq<seq<Vector>>

  predicate IsStacked(t: Stacked, n: nat, l: nat, d: nat) {
    |t| == n && forall i :: 0 <= i < n ==> IsMatrix(t[i], l, d)
  }

  /** Every layer is an `n` x `d` matrix. */
  predicate SameLayers(layers: seq<Matrix>, n: nat, d: nat) {
    forall k :: 0 <= k < |layers| ==> IsMatrix(layers[k], n, d)
  }

  function Stack(layers: seq<Matrix>, n: nat, d: nat): (t: Stacked)
    requires SameLayers(layers, n, d)
    ensures IsStacked(t, n, |layers|, d)
    ensures forall i, k :: 0 <= i < n && 0 <= k < |layers| ==> t[i][k] == layers[k][i]
  {
    seq(n, i requires 0 <= i < n => seq(|layers|, k requires 0 <= k < |layers| => layers[k][i]))
  }

  /** Elementwise sum of vectors of width `d`. */
  function VecSum(vs: seq<Vector>, d: nat): (s: Vector)
    requires forall k :: 0 <= k < |vs| ==> |vs[k]| == d
    ensures |s| == d
  {
    if vs == [] then Zeros(d) else VAdd(vs[0], VecSum(vs[1..], d))
  }

  /** Entry `j` of the elementwise sum is the sum of the entries `j`. */
  lemma {:induction false} VecSumAt(vs: seq<Vector>, d: nat, j: nat)
    requires forall k :: 0 <= k < |vs| ==> |vs[k]| == d
    requires j < d
    ensures VecSum(vs, d)[j] == Sum(seq(|vs|, k requires 0 <= k < |vs| => vs[k][j]))
  {
    if vs != [] {
      VecSumAt(vs[1..], d, j);
      var all := seq(|vs|, k requires 0 <= k < |vs| => vs[k][j]);
      var rest := seq(|vs[1..]|, k requires 0 <= k < |vs[1..]| => vs[1..][k][j]);
      assert forall k :: 0 <= k < |rest| ==> all[1..][k] == rest[k];
      assert all[1..] == rest;
    }
  }

  /** `tf.reduce_sum(t, axis=1)`. */
  function ReduceSum1(t: Stacked, l: nat, d: nat): (r: Matrix)
    requires IsStacked(t, |t|, l, d)
    ensures IsMatrix(r, |t|, d)
  {
    seq(|t|, i requires 0 <= i < |t| => VecSum(t[i], d))
  }

  /** `tf.reduce_mean(t, axis=1)` over `l > 0` stacked layers. */
  function ReduceMean1(t: Stacked, l: nat, d: nat): (r: Matrix)
    requires IsStacked(t, |t|, l, d) && l > 0
    ensures IsMatrix(r, |t|, d)
  {
    seq(|t|, i requires 0 <= i < |t| => seq(d, j requires 0 <= j < d => VecSum(t[i], d)[j] / l as real))
  }

  /** Entry (`i`, `j`) of every layer, in layer order. */
  function CellValues(layers: seq<Matrix>, n: nat, d: nat, i: nat, j: nat): (s: seq<real>)
    requires SameLayers(layers, n, d) && i < n && j < d
    ensures |s| == |layers| && forall k :: 0 <= k < |layers| ==> s[k] == layers[k][i][j]
  {
    seq(|layers|, k requires 0 <= k < |layers| => layers[k][i][j])
  }

  /** The sum over the layers of entry (`i`, `j`). */
  function LayerSum(layers: seq<Matrix>, n: nat, d: nat, i: nat, j: nat): real
    requires SameLayers(layers, n, d) && i < n && j < d
  {
    Sum(CellValues(layers, n, d, i, j))
  }

  /** The sum over stacked rows is the sum over the layers. */
  lemma StackedSumAt(layers: seq<Matrix>, n: nat, d: nat, i: nat, j: nat)
    requires SameLayers(layers, n, d) && i < n && j < d
    ensures VecSum(Stack(layers, n, d)[i], d)[j] == LayerSum(layers, n, d, i, j)
  {
    var t := Stack(layers, n, d);
    VecSumAt(t[i], d, j);
    assert seq(|t[i]|, k requires 0 <= k < |t[i]| => t[i][k][j]) == CellValues(layers, n, d, i, j);
  }

  /** `reduce_mean(stack(layers, 1), axis=1)`, used by `gcf-sum`,
      `gcf-sum-only-ip`, `pas` and `lightgcn` with `alpha_k = mean`. */
  function MeanLayers(layers: seq<Matrix>, n: nat, d: nat): (r: Matrix)
    requires |layers| > 0 && SameLayers(layers, n, d)
    ensures IsMatrix(r, n, d)
  {
    ReduceMean1(Stack(layers, n, d), |layers|, d)
  }

  /** `reduce_sum(stack(layers, 1), axis=1)`, used by `LightGCN-alpha-1`. */
  function SumLayers(layers: seq<Matrix>, n: nat, d: nat): (r: Matrix)
    requires SameLayers(layers, n, d)
    ensures IsMatrix(r, n, d)
  {
    ReduceSum1(Stack(layers, n, d), |layers|, d)
  }

  /** The mean combiner averages every entry over the layers. */
  lemma MeanLayersIsAverage(layers: seq<Matrix>, n: nat, d: nat)
    requires |layers| > 0 && SameLayers(layers, n, d)
    ensures forall i, j :: 0 <= i < n && 0 <= j < d ==>
      MeanLayers(layers, n, d)[i][j] == LayerSum(layers, n, d, i, j) / |layers| as real
  {
    forall i, j | 0 <= i < n && 0 <= j < d
      ensures MeanLayers(layers, n, d)[i][j] == LayerSum(layers, n, d, i, j) / |layers| as real
    {
      StackedSumAt(layers, n, d, i, j);
    }
  }

  /** The sum combiner adds every entry over the layers, with no normalisation. */
  lemma SumLayersIsTotal(layers: seq<Matrix>, n: nat, d: nat)
    requires SameLayers(layers, n, d)
    ensures forall i, j :: 0 <= i < n && 0 <= j < d ==>
      SumLayers(layers, n, d)[i][j] == LayerSum(layers, n, d, i, j)
  {
    forall i, j | 0 <= i < n && 0 <= j < d
      ensures SumLayers(layers, n, d)[i][j] == LayerSum(layers, n, d, i, j)
    {
      StackedSumAt(layers, n, d, i, j);
    }
  }

  /** The sum of `L` layers is `L` times their mean. */
  lemma SumIsLayerCountTimesMean(layers: seq<Matrix>, n: nat, d: nat)
    requires |layers| > 0 && SameLayers(layers, n, d)
    ensures forall i, j :: 0 <= i < n && 0 <= j < d ==>
      SumLayers(layers, n, d)[i][j] == |layers| as real * MeanLayers(layers, n, d)[i][j]
  {
    MeanLayersIsAverage(layers, n, d);
    SumLayersIsTotal(layers, n, d);
  }

  /** Layer `k` is an `n` x `widths[k]` matrix. */
  predicate LayerWidths(layers: seq<Matrix>, n: nat, widths: seq<nat>) {
    |widths| == |layers| && forall k :: 0 <= k < |layers| ==> IsMatrix(layers[k], n, widths[k])
  }

  /** `tf.concat(layers, 1)` of `n`-row layers, used by `ngcf`, `ngcfpas`, `gcn`,
      `gcmc`, `gcf`, `gcf-only-ip`, `gcf-minus-ip` and `LightGCN-concat`. */
  function ConcatLayers(layers: seq<Matrix>, n: nat): (r: Matrix)
    requires forall k :: 0 <= k < |layers| ==> |layers[k]| == n
    ensures |r| == n
  {
    seq(n, i requires 0 <= i < n => Flatten(Column(layers, i)))
  }

  /** The column at which layer `k` starts in the concatenation. */
  function Offset(widths: seq<nat>, k: nat): nat
    requires k <= |widths|
  {
    SumSizes(widths[..k])
  }

  lemma {:induction false} OffsetBelow(widths: seq<nat>, k: nat)
    requires k < |widths|
    ensures Offset(widths, k) + widths[k] <= SumSizes(widths)
    decreases k
  {
    if k > 0 {
      OffsetBelow(widths[1..], k - 1);
      assert widths[..k] == [widths[0]] + widths[1..][..k - 1];
      assert ([widths[0]] + widths[1..][..k - 1])[1..] == widths[1..][..k - 1];
    }
  }

  lemma ConcatLayersAt(layers: seq<Matrix>, n: nat, widths: seq<nat>, i: nat, k: nat, j: nat)
    requires LayerWidths(layers, n, widths)
    requires i < n && k < |layers| && j < widths[k]
    ensures |ConcatLayers(layers, n)[i]| == SumSizes(widths)
    ensures Offset(widths, k) + j < SumSizes(widths)
    ensures ConcatLayers(layers, n)[i][Offset(widths, k) + j] == layers[k][i][j]
  {
    var ps := Column(layers, i);
    assert ConcatLayers(layers, n)[i] == Flatten(ps);
    FlattenAt(ps, k, j);
    FlattenLength(ps);
    TotalLengthIsSumSizes(ps, widths);
    TotalLengthIsSumSizes(ps[..k], widths[..k]);
  }

  /** The concatenated layers are side by side: each row is as wide as all the layers
      together, and entry `j` of layer `k` sits after the columns of layers `0 .. k-1`. */
  lemma ConcatLayersPlacement(layers: seq<Matrix>, n: nat, widths: seq<nat>)
    requires LayerWidths(layers, n, widths)
    ensures IsMatrix(ConcatLayers(layers, n), n, SumSizes(widths))
    ensures forall k :: 0 <= k < |layers| ==> Offset(widths, k) + widths[k] <= SumSizes(widths)
    ensures forall i, k, j :: 0 <= i < n && 0 <= k < |layers| && 0 <= j < widths[k] ==>
      ConcatLayers(layers, n)[i][Offset(widths, k) + j] == layers[k][i][j]
  {
    var r := ConcatLayers(layers, n);
    forall i | 0 <= i < n ensures |r[i]| == SumSizes(widths) {
      FlattenLength(Column(layers, i));
      TotalLengthIsSumSizes(Column(layers, i), widths);
    }
    forall k | 0 <= k < |layers| ensures Offset(widths, k) + widths[k] <= SumSizes(widths) {
      OffsetBelow(widths, k);
    }
    forall i, k, j | 0 <= i < n && 0 <= k < |layers| && 0 <= j < widths[k]
      ensures ConcatLayers(layers, n)[i][Offset(widths, k) + j] == layers[k][i][j]
    {
      ConcatLayersAt(layers, n, widths, i, k, j);
    }
  }

  lemma {:induction false} SumSizesConstant(l: nat, d: nat)
    ensures SumSizes(seq(l, _ => d)) == l * d
  {
    if l > 0 {
      assert seq(l, _ => d)[1..] == seq(l - 1, _ => d);
      SumSizesConstant(l - 1, d);
    }
  }

  /** Layer `k` of `l` layers of width `d` starts at column `k * d`. */
  lemma OffsetUniform(l: nat, d: nat, k: nat)
    requires k <= l
    ensures Offset(seq(l, _ => d), k) == k * d
  {
    assert seq(l, _ => d)[..k] == seq(k, _ => d);
    SumSizesConstant(k, d);
  }

  lemma ConcatRowWidth(layers: seq<Matrix>, n: nat, d: nat, i: nat)
    requires SameLayers(layers, n, d) && i < n
    ensures |ConcatLayers(layers, n)[i]| == |layers| * d
  {
    var widths: seq<nat> := seq(|layers|, _ => d);
    assert LayerWidths(layers, n, widths);
    FlattenLength(Column(layers, i));
    TotalLengthIsSumSizes(Column(layers, i), widths);
    SumSizesConstant(|layers|, d);
  }

  /** Entry `j` of row `i` of layer `k` sits at column `k * d + j` of row `i` of `r`. */
  predicate PlacedAt(r: Matrix, layers: seq<Matrix>, d: nat, i: nat, k: nat, j: nat)
    requires i < |r| && k < |layers| && i < |layers[k]| && j < |layers[k][i]|
  {
    k * d + j < |r[i]| && r[i][k * d + j] == layers[k][i][j]
  }

  /** One entry of `ConcatUniformPlacement`. */
  lemma ConcatUniformAt(layers: seq<Matrix>, n: nat, d: nat, i: nat, k: nat, j: nat)
    requires SameLayers(layers, n, d) && i < n && k < |layers| && j < d
    ensures PlacedAt(ConcatLayers(layers, n), layers, d, i, k, j)
  {
    var widths: seq<nat> := seq(|layers|, _ => d);
    assert LayerWidths(layers, n, widths);
    ConcatLayersAt(layers, n, widths, i, k, j);
    SumSizesConstant(|layers|, d);
    OffsetUniform(|layers|, d, k);
  }

  /** Layers of one width `d`: the concatenation is `|layers| * d` wide and entry `j`
      of layer `k` is at column `k * d + j`. */
  lemma ConcatUniformPlacement(layers: seq<Matrix>, n: nat, d: nat)
    requires SameLayers(layers, n, d)
    ensures IsMatrix(ConcatLayers(layers, n), n, |layers| * d)
    ensures forall i, k, j :: 0 <= i < n && 0 <= k < |layers| && 0 <= j < d ==>
      PlacedAt(ConcatLayers(layers, n), layers, d, i, k, j)
  {
    ConcatUniformWidth(layers, n, d);
    forall i, k, j | 0 <= i < n && 0 <= k < |layers| && 0 <= j < d
      ensures PlacedAt(ConcatLayers(layers, n), layers, d, i, k, j)
    {
      ConcatUniformAt(layers, n, d, i, k, j);
    }
  }

  lemma ConcatUniformWidth(layers: seq<Matrix>, n: nat, d: nat)
    requires SameLayers(layers, n, d)
    ensures IsMatrix(ConcatLayers(layers, n), n, |layers| * d)
  {
    forall i | 0 <= i < n ensures |ConcatLayers(layers, n)[i]| == |layers| * d {
      ConcatRowWidth(layers, n, d, i);
    }
  }

  /** The `leveled` coefficients for `d`-wide rows: `d` copies of each layer's effect. */
  function EffectRows(effects: seq<real>, d: nat): (rows: Matrix)
    ensures IsMatrix(rows, |effects|, d)
  {
    seq(|effects|, k requires 0 <= k < |effects| => seq(d, _ => effects[k]))
  }

  /** The value `_leveled_alpha_k` computes: `reduce_sum(multiply(t, coefficients), axis=1)`. */
  function LeveledLayers(t: Stacked, effects: seq<real>, d: nat): (r: Matrix)
    requires IsStacked(t, |t|, |effects|, d)
    ensures IsMatrix(r, |t|, d)
  {
    ReduceSum1(seq(|t|, i requires 0 <= i < |t| => MMul(t[i], EffectRows(effects, d))), |effects|, d)
  }

  /** `_leveled_alpha_k`. The loop overwrites effect `i` by `emb_dim` copies of it; the
      coefficients repeat those rows once per entry of `node_dim`, whose count must
      broadcast against the node count (equal to it, or 1). */
  method LeveledAlphaK(t: Stacked, layerEffects: seq<real>, embDim: nat, nodeDimCount: nat)
    returns (r: Matrix)
    requires IsStacked(t, |t|, |layerEffects|, embDim)
    requires nodeDimCount == |t| || nodeDimCount == 1
    ensures r == LeveledLayers(t, layerEffects, embDim)
  {
    var effects := new Vector[|layerEffects|];
    for i := 0 to |layerEffects|
      invariant forall k :: 0 <= k < i ==> effects[k] == seq(embDim, _ => layerEffects[k])
    {
      effects[i] := seq(embDim, _ => layerEffects[i]);
    }
    var rows := effects[..];
    assert rows == EffectRows(layerEffects, embDim);
    var coefficients := seq(nodeDimCount, _ => rows);
    var product := seq(|t|, i requires 0 <= i < |t| =>
      MMul(t[i], coefficients[if nodeDimCount == 1 then 0 else i]));
    r := ReduceSum1(product, |layerEffects|, embDim);
  }

  /** `leveled` weighs layer `k` by `effects[k]` and adds the layers up. */
  lemma LeveledIsWeightedSum(layers: seq<Matrix>, n: nat, d: nat, effects: seq<real>)
    requires SameLayers(layers, n, d) && |effects| == |layers|
    ensures forall i, j :: 0 <= i < n && 0 <= j < d ==>
      LeveledLayers(Stack(layers, n, d), effects, d)[i][j] == Sum(VMul(effects, CellValues(layers, n, d, i, j)))
  {
    forall i, j | 0 <= i < n && 0 <= j < d
      ensures LeveledLayers(Stack(layers, n, d), effects, d)[i][j] == Sum(VMul(effects, CellValues(layers, n, d, i, j)))
    {
      LeveledCell(layers, n, d, effects, i, j);
    }
  }

  lemma LeveledCell(layers: seq<Matrix>, n: nat, d: nat, effects: seq<real>, i: nat, j: nat)
    requires SameLayers(layers, n, d) && |effects| == |layers| && i < n && j < d
    ensures LeveledLayers(Stack(layers, n, d), effects, d)[i][j] == Sum(VMul(effects, CellValues(layers, n, d, i, j)))
  {
    var t := Stack(layers, n, d);
    var rows := EffectRows(effects, d);
    var p := seq(|t|, i requires 0 <= i < |t| => MMul(t[i], rows));
    VecSumAt(p[i], d, j);
    var lhs := seq(|p[i]|, k requires 0 <= k < |p[i]| => p[i][k][j]);
    var rhs := VMul(effects, CellValues(layers, n, d, i, j));
    assert forall k :: 0 <= k < |layers| ==> lhs[k] == rhs[k];
    assert lhs == rhs;
  }

  /** Equal weights `c` scale the sum. */
  lemma {:induction false} SumUniformWeights(w: seq<real>, s: seq<real>, c: real)
    requires |w| == |s| && forall k :: 0 <= k < |w| ==> w[k] == c
    ensures Sum(VMul(w, s)) == c * Sum(s)
  {
    if s != [] {
      var p := VMul(w, s);
      var q := VMul(w[1..], s[1..]);
      assert forall k :: 0 <= k < |q| ==> p[1..][k] == q[k];
      assert p[1..] == q;
      SumUniformWeights(w[1..], s[1..], c);
      calc {
        Sum(p);
        p[0] + Sum(q);
        c * s[0] + c * Sum(s[1..]);
        c * (s[0] + Sum(s[1..]));
        c * Sum(s);
      }
    }
  }

  /** Equal effects `c` scale the plain sum; `c = 1 / (n_layers + 1)` gives the mean. */
  lemma LeveledUniformIsScaledSum(layers: seq<Matrix>, n: nat, d: nat, effects: seq<real>, c: real)
    requires SameLayers(layers, n, d) && |effects| == |layers|
    requires forall k :: 0 <= k < |effects| ==> effects[k] == c
    ensures forall i, j :: 0 <= i < n && 0 <= j < d ==>
      LeveledLayers(Stack(layers, n, d), effects, d)[i][j] == c * SumLayers(layers, n, d)[i][j]
  {
    LeveledIsWeightedSum(layers, n, d, effects);
    SumLayersIsTotal(layers, n, d);
    forall i, j | 0 <= i < n && 0 <= j < d
      ensures LeveledLayers(Stack(layers, n, d), effects, d)[i][j] == c * SumLayers(layers, n, d)[i][j]
    {
      SumUniformWeights(effects, CellValues(layers, n, d, i, j), c);
    }
  }

  /** What `_calc_alpha_k` yields: the mean, the leveled sum, or nothing (Python's
      implicit `None`, on which the following `tf.split` fails) for any other `alpha_k`. */
  function AlphaKLayers(alphaK: AlphaK, t: Stacked, l: nat, d: nat, effects: seq<real>): (r: Option<Matrix>)
    requires IsStacked(t, |t|, l, d) && l > 0
    requires alphaK.LeveledAlpha? ==> |effects| == l
    ensures r.Some? <==> !alphaK.UnknownAlpha?
    ensures r.Some? ==> IsMatrix(r.value, |t|, d)
  {
    match alphaK
    case MeanAlpha => Some(ReduceMean1(t, l, d))
    case LeveledAlpha => Some(LeveledLayers(t, effects, d))
    case UnknownAlpha(_) => None
  }

  /** `_calc_alpha_k`. */
  method CalcAlphaK(alphaK: AlphaK, t: Stacked, l: nat, d: nat, effects: seq<real>, nodeDimCount: nat)
    returns (r: Option<Matrix>)
    requires IsStacked(t, |t|, l, d) && l > 0
    requires alphaK.LeveledAlpha? ==> |effects| == l && (nodeDimCount == |t| || nodeDimCount == 1)
    ensures r == AlphaKLayers(alphaK, t, l, d, effects)
  {
    match alphaK
    case MeanAlpha =>
      r := Some(ReduceMean1(t, l, d));
    case LeveledAlpha =>
      var m := LeveledAlphaK(t, effects, d, nodeDimCount);
      r := Some(m);
    case UnknownAlpha(_) =>
      r := None;
  }

  /** One node with a one-dimensional embedding and the layer values 1, 2, 3: mean 2,
      sum 6, concatenation [1, 2, 3], and effects 0.5 each give 3. */
  lemma ThreeLayerExample()
    ensures var layers := [[[1.0]], [[2.0]], [[3.0]]];
      && MeanLayers(layers, 1, 1) == [[2.0]]
      && SumLayers(layers, 1, 1) == [[6.0]]
      && ConcatLayers(layers, 1) == [[1.0, 2.0, 3.0]]
      && LeveledLayers(Stack(layers, 1, 1), [0.5, 0.5, 0.5], 1) == [[3.0]]
  {
    var layers := [[[1.0]], [[2.0]], [[3.0]]];
    var s := seq(|layers|, k requires 0 <= k < |layers| => layers[k][0][0]);
    assert s == [1.0, 2.0, 3.0];
    assert Sum(s) == 6.0 by {
      assert [3.0][1..] == [];
      assert Sum([3.0]) == 3.0;
      assert [2.0, 3.0][1..] == [3.0];
      assert Sum([2.0, 3.0]) == 5.0;
      assert s[1..] == [2.0, 3.0];
    }
    assert LayerSum(layers, 1, 1, 0, 0) == 6.0;
    MeanLayersIsAverage(layers, 1, 1);
    var m := MeanLayers(layers, 1, 1);
    assert m[0] == [2.0];
    SumLayersIsTotal(layers, 1, 1);
    var t := SumLayers(layers, 1, 1);
    assert t[0] == [6.0];
    LeveledUniformIsScaledSum(layers, 1, 1, [0.5, 0.5, 0.5], 0.5);
    var lv := LeveledLayers(Stack(layers, 1, 1), [0.5, 0.5, 0.5], 1);
    assert lv[0] == [3.0];
    ConcatUniformPlacement(layers, 1, 1);
    var c := ConcatLayers(layers, 1);
    assert PlacedAt(c, layers, 1, 0, 0, 0) && PlacedAt(c, layers, 1, 0, 1, 0) && PlacedAt(c, layers, 1, 0, 2, 0);
    assert c[0][0 * 1 + 0] == 1.0 && c[0][1 * 1 + 0] == 2.0 && c[0][2 * 1 + 0] == 3.0;
    assert c[0] == [1.0, 2.0, 3.0];
  }
}
