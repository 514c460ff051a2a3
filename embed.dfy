/**
 * The `_create_*_embed` family end to end: choose the adjacency, split it
 * into folds (with or without edge dropout), stack the embedding tables,
 * run the layer loop, combine the recorded layers as the variant does, and
 * split the result back into the user and item blocks.
 */
module Embed {
  import opened Tensor
  import opened Wrappers
  import opened Sparse
  import opened Dropout
  import opened Folds
  import opened Blocks
  import opened Config
  import opened Combine
  import opened Propagation

  /** The tables `user_embedding`, `item_embedding`, `cat_embedding`, `price_embedding`. */
  datatype Tables = Tables(user: Matrix, item: Matrix, cat: Matrix, price: Matrix)

  /** Everything the graph is built from besides the settings. `nodeDropout` is
      `node_dropout[0]`, `noise` the uniform draws of `_dropout_sparse` (one sequence
      per fold), and `nodeDimCount` is `len(node_dim)`. */
  datatype Inputs = Inputs(
    embDim: nat,
    tables: Tables,
    weights: seq<LayerWeights>,
    normAdj: Matrix,
    catAndPriceAdj: Option<Matrix>,
    nodeDropoutFlag: bool,
    nodeDropout: real,
    noise: seq<seq<real>>,
    nodeDimCount: nat)

  /** The price-aware variants propagate over users, items, categories and prices. */
  predicate UsesCatAndPrice(v: Variant) {
    v.Pas? || v.NgcfPas?
  }

  /** The tables in `tf.concat` order. */
  function EgoBlocks(v: Variant, t: Tables): (bs: seq<Matrix>)
    ensures |bs| >= 2 && bs[0] == t.user && bs[1] == t.item
  {
    if UsesCatAndPrice(v) then [t.user, t.item, t.cat, t.price] else [t.user, t.item]
  }

  /** `gcn` and `gcmc` always call `_split_A_hat`; the other variants drop edges when
      `node_dropout_flag` is set. */
  predicate UsesNodeDropout(v: Variant, flag: bool) {
    flag && !v.Gcn? && !v.Gcmc?
  }

  /** The adjacency a variant propagates over: `cat_and_price_adj`, which exists only
      when `adj_type` is `adj_with_cp`, for the price-aware variants; `norm_adj` otherwise. */
  function Adjacency(v: Variant, normAdj: Matrix, catAndPriceAdj: Option<Matrix>): Option<Matrix> {
    if UsesCatAndPrice(v) then catAndPriceAdj else Some(normAdj)
  }

  /** `weight_size_list`: `emb_dim` followed by the layer sizes. */
  function Widths(s: Settings, x: Inputs): (ws: seq<nat>)
    ensures |ws| == |s.layerSize| + 1 && ws[0] == x.embDim
  {
    [x.embDim] + s.layerSize
  }

  /** `gcmc` multiplies `widths[k + 1]`-wide embeddings by the `widths[k]`-row `W_mlp_k`. */
  predicate GcmcWidthsAgree(v: Variant, widths: seq<nat>) {
    v.Gcmc? ==> forall k :: 0 <= k < |widths| - 1 ==> widths[k] == widths[k + 1]
  }

  /** What the constructor guarantees before the embeddings are built: tables and
      weights shaped as `_init_weights` makes them, layer effects validated, a
      `node_dim` that broadcasts against the nodes, and one uniform draw per stored
      entry of every fold that dropout is applied to. */
  predicate WellFormed(s: Settings, x: Inputs) {
    var v := s.variant;
    var widths := Widths(s, x);
    var adj := Adjacency(v, x.normAdj, x.catAndPriceAdj);
    var n := |x.tables.user| + |x.tables.item| + (if UsesCatAndPrice(v) then |x.tables.cat| + |x.tables.price| else 0);
    && IsMatrix(x.tables.user, |x.tables.user|, x.embDim)
    && IsMatrix(x.tables.item, |x.tables.item|, x.embDim)
    && IsMatrix(x.tables.cat, |x.tables.cat|, x.embDim)
    && IsMatrix(x.tables.price, |x.tables.price|, x.embDim)
    && |x.weights| == |s.layerSize|
    && (forall k :: 0 <= k < |x.weights| ==> LayerFits(x.weights[k], widths[k], widths[k + 1]))
    && (s.alphaK.LeveledAlpha? ==> |s.layerEffects| == |s.layerSize| + 1)
    && (v.LightGcn? && s.alphaK.LeveledAlpha? ==> x.nodeDimCount == n || x.nodeDimCount == 1)
    && (UsesNodeDropout(v, x.nodeDropoutFlag) && adj.Some? && IsMatrix(adj.value, n, n) ==>
          NoiseFits(adj.value, NFold, x.noise))
  }

  /** The node count of the stacked tables. */
  lemma EgoShape(v: Variant, t: Tables, d: nat)
    requires IsMatrix(t.user, |t.user|, d) && IsMatrix(t.item, |t.item|, d)
    requires IsMatrix(t.cat, |t.cat|, d) && IsMatrix(t.price, |t.price|, d)
    ensures IsMatrix(Flatten(EgoBlocks(v, t)), TotalLength(EgoBlocks(v, t)), d)
    ensures TotalLength(EgoBlocks(v, t)) == |Flatten(EgoBlocks(v, t))| ==
      |t.user| + |t.item| + (if UsesCatAndPrice(v) then |t.cat| + |t.price| else 0)
  {
    var bs := EgoBlocks(v, t);
    FlattenRowsWidth(bs, d);
    FlattenLength(bs);
    assert TotalLength(bs) == |bs[0]| + TotalLength(bs[1..]);
    assert TotalLength(bs[1..]) == |bs[1]| + TotalLength(bs[2..]) by {
      assert bs[1..][1..] == bs[2..];
    }
    if UsesCatAndPrice(v) {
      assert TotalLength(bs[2..]) == |bs[2]| + TotalLength(bs[3..]) by {
        assert bs[2..][1..] == bs[3..];
      }
      assert TotalLength(bs[3..]) == |bs[3]| + TotalLength(bs[3..][1..]);
      assert bs[3..][1..] == [];
    } else {
      assert bs[2..] == [];
    }
  }

  /** The matrices recorded by the layer loop of variant `v` over `widths`. */
  predicate Recorded(v: Variant, layers: seq<Matrix>, n: nat, widths: seq<nat>) {
    && |widths| >= 1
    && |layers| == RecordCount(v, |widths| - 1)
    && forall m :: 0 <= m < |layers| ==> IsMatrix(layers[m], n, RecordWidth(v, widths, m))
  }

  /** How each `_create_*_embed` combines `all_embeddings`. */
  function CombineLayers(v: Variant, alphaK: AlphaK, layers: seq<Matrix>, n: nat, widths: seq<nat>,
                         effects: seq<real>): Option<Matrix>
    requires Recorded(v, layers, n, widths)
    requires v.LightGcn? && alphaK.LeveledAlpha? ==> |effects| == |layers|
  {
    var d := widths[0];
    match v
    case LightGcn =>
      AlphaKLayers(alphaK, Stack(layers, n, d), |layers|, d, effects)
    case LightGcnAlpha1 =>
      Some(SumLayers(layers, n, d))
    case GcfSum | GcfSumOnlyIp | Pas =>
      Some(MeanLayers(layers, n, d))
    case Gcmc =>
      // the list starts empty, and `tf.concat` of no tensors fails
      if |layers| == 0 then None else Some(ConcatLayers(layers, n))
    case _ =>
      Some(ConcatLayers(layers, n))
  }

  /** The folds the layer loop multiplies by. */
  function FoldsFor(v: Variant, a: Matrix, x: Inputs): seq<SparseTensor>
    requires IsMatrix(a, |a|, |a|)
    requires UsesNodeDropout(v, x.nodeDropoutFlag) ==> NoiseFits(a, NFold, x.noise)
  {
    if UsesNodeDropout(v, x.nodeDropoutFlag) then DroppedFoldsOf(a, |a|, NFold, 1.0 - x.nodeDropout, x.noise)
    else FoldsOf(a, |a|, NFold)
  }

  lemma FoldsForShape(v: Variant, a: Matrix, x: Inputs)
    requires IsMatrix(a, |a|, |a|)
    requires UsesNodeDropout(v, x.nodeDropoutFlag) ==> NoiseFits(a, NFold, x.noise)
    ensures FoldsFit(FoldsFor(v, a, x), |a|) && FoldRows(FoldsFor(v, a, x)) == |a|
  {
    if UsesNodeDropout(v, x.nodeDropoutFlag) {
      DroppedFoldsShape(a, |a|, NFold, 1.0 - x.nodeDropout, x.noise);
    } else {
      FoldRowsOfFoldsOf(a, |a|, NFold);
    }
  }

  /** Whether the graph can be built: the adjacency exists and has one row and column
      per node, and for `gcmc` the layer widths agree. */
  predicate Buildable(s: Settings, x: Inputs) {
    var adj := Adjacency(s.variant, x.normAdj, x.catAndPriceAdj);
    var n := |Flatten(EgoBlocks(s.variant, x.tables))|;
    adj.Some? && IsMatrix(adj.value, n, n) && GcmcWidthsAgree(s.variant, Widths(s, x))
  }

  /** A graph that can be built gives the layer loop all it needs. */
  lemma SetupOfBuildable(s: Settings, x: Inputs)
    requires WellFormed(s, x) && Buildable(s, x)
    ensures var v := s.variant;
      var a := Adjacency(v, x.normAdj, x.catAndPriceAdj).value;
      && |Flatten(EgoBlocks(v, x.tables))| == |a|
      && IsMatrix(a, |a|, |a|)
      && (UsesNodeDropout(v, x.nodeDropoutFlag) ==> NoiseFits(a, NFold, x.noise))
      && Setup(v, FoldsFor(v, a, x), Flatten(EgoBlocks(v, x.tables)), x.weights, Widths(s, x))
  {
    var v := s.variant;
    var a := Adjacency(v, x.normAdj, x.catAndPriceAdj).value;
    EgoShape(v, x.tables, x.embDim);
    FoldsForShape(v, a, x);
  }

  /** The recorded layers when the graph can be built. */
  function AllEmbeddings(s: Settings, x: Inputs, rsqrt: real -> real): (layers: seq<Matrix>)
    requires WellFormed(s, x) && Buildable(s, x)
    ensures Recorded(s.variant, layers, |Flatten(EgoBlocks(s.variant, x.tables))|, Widths(s, x))
  {
    var v := s.variant;
    var ego0 := Flatten(EgoBlocks(v, x.tables));
    var a := Adjacency(v, x.normAdj, x.catAndPriceAdj).value;
    SetupOfBuildable(s, x);
    Propagated(v, FoldsFor(v, a, x), ego0, x.weights, Widths(s, x), rsqrt, |x.weights|).layers
  }

  /** `(ua_embeddings, ia_embeddings)` as the constructor computes them, or `None` where
      the graph construction fails. */
  function EmbedOutput(s: Settings, x: Inputs, rsqrt: real -> real): Option<(Matrix, Matrix)>
    requires WellFormed(s, x)
  {
    if !Buildable(s, x) then None
    else
      var blocks := EgoBlocks(s.variant, x.tables);
      var n := |Flatten(blocks)|;
      var combined := CombineLayers(s.variant, s.alphaK, AllEmbeddings(s, x, rsqrt), n, Widths(s, x), s.layerEffects);
      if combined.None? then None
      else
        SplitRowsOfCombined(blocks, combined.value)
  }

  /** `tf.split(combined, [n_users, n_items(, n_cat, n_price)], 0)`, keeping the
      user and item parts. */
  function SplitRowsOfCombined(blocks: seq<Matrix>, combined: Matrix): Option<(Matrix, Matrix)>
    requires |blocks| >= 2
  {
    var parts := SplitRows(combined, Sizes(blocks));
    if parts.None? then None else Some((parts.value[0], parts.value[1]))
  }

  /** The fold split: `_split_A_hat_node_dropout` when node dropout is on, `_split_A_hat`
      otherwise. */
  method SplitFolds(v: Variant, a: Matrix, x: Inputs) returns (folds: seq<SparseTensor>)
    requires IsMatrix(a, |a|, |a|)
    requires UsesNodeDropout(v, x.nodeDropoutFlag) ==> NoiseFits(a, NFold, x.noise)
    ensures folds == FoldsFor(v, a, x)
  {
    if UsesNodeDropout(v, x.nodeDropoutFlag) {
      folds := SplitAHatNodeDropout(a, |a|, NFold, 1.0 - x.nodeDropout, x.noise);
    } else {
      folds := SplitAHat(a, |a|, NFold);
    }
  }

  /** The fold split and the layer loop of a `_create_*_embed` method. */
  method PropagateAll(s: Settings, x: Inputs, rsqrt: real -> real) returns (layers: seq<Matrix>)
    requires WellFormed(s, x) && Buildable(s, x)
    ensures layers == AllEmbeddings(s, x, rsqrt)
  {
    var v := s.variant;
    var egoEmbeddings := Flatten(EgoBlocks(v, x.tables));
    var a := Adjacency(v, x.normAdj, x.catAndPriceAdj).value;
    SetupOfBuildable(s, x);
    var folds := SplitFolds(v, a, x);
    layers := Propagate(v, folds, egoEmbeddings, x.weights, Widths(s, x), rsqrt);
  }

  /** The combining step: `_calc_alpha_k` for `lightgcn`, the inline combiner otherwise. */
  method CombineAll(v: Variant, alphaK: AlphaK, layers: seq<Matrix>, n: nat, widths: seq<nat>,
                    effects: seq<real>, nodeDimCount: nat) returns (combined: Option<Matrix>)
    requires Recorded(v, layers, n, widths)
    requires v.LightGcn? && alphaK.LeveledAlpha? ==>
      |effects| == |layers| && (nodeDimCount == n || nodeDimCount == 1)
    ensures combined == CombineLayers(v, alphaK, layers, n, widths, effects)
  {
    if v.LightGcn? {
      combined := CalcAlphaK(alphaK, Stack(layers, n, widths[0]), |layers|, widths[0], effects, nodeDimCount);
    } else {
      combined := CombineLayers(v, alphaK, layers, n, widths, effects);
    }
  }

  /** A `_create_*_embed` method. */
  method CreateEmbed(s: Settings, x: Inputs, rsqrt: real -> real) returns (r: Option<(Matrix, Matrix)>)
    requires WellFormed(s, x)
    ensures r == EmbedOutput(s, x, rsqrt)
  {
    if !Buildable(s, x) {
      return None;
    }
    var blocks := EgoBlocks(s.variant, x.tables);
    EgoShape(s.variant, x.tables, x.embDim);
    var layers := PropagateAll(s, x, rsqrt);
    var combined := CombineAll(s.variant, s.alphaK, layers, |Flatten(blocks)|, Widths(s, x),
                               s.layerEffects, x.nodeDimCount);
    if combined.None? {
      return None;
    }
    r := SplitRowsOfCombined(blocks, combined.value);
  }

  /** Every combiner keeps one row per node. */
  lemma CombinedRows(v: Variant, alphaK: AlphaK, layers: seq<Matrix>, n: nat, widths: seq<nat>, effects: seq<real>)
    requires Recorded(v, layers, n, widths)
    requires v.LightGcn? && alphaK.LeveledAlpha? ==> |effects| == |layers|
    ensures CombineLayers(v, alphaK, layers, n, widths, effects).Some? ==>
      |CombineLayers(v, alphaK, layers, n, widths, effects).value| == n
  {
  }

  /** The graph fails to build exactly when the adjacency is missing or misshapen, the
      `gcmc` widths disagree, `lightgcn` gets an `alpha_k` other than `mean` and
      `leveled`, or `gcmc` has no layers to concatenate. Otherwise the user and item
      embeddings are the first `n_users` rows and the next `n_items` rows of the
      combined layers. */
  lemma EmbedOutcome(s: Settings, x: Inputs, rsqrt: real -> real)
    requires WellFormed(s, x)
    ensures EmbedOutput(s, x, rsqrt).None? <==>
      !Buildable(s, x) || (s.variant.LightGcn? && s.alphaK.UnknownAlpha?) || (s.variant.Gcmc? && |s.layerSize| == 0)
    ensures EmbedOutput(s, x, rsqrt).Some? ==>
      var n := |Flatten(EgoBlocks(s.variant, x.tables))|;
      var c := CombineLayers(s.variant, s.alphaK, AllEmbeddings(s, x, rsqrt), n, Widths(s, x), s.layerEffects);
      var nu, ni := |x.tables.user|, |x.tables.item|;
      && c.Some? && |c.value| == n && nu + ni <= n
      && EmbedOutput(s, x, rsqrt).value == (c.value[..nu], c.value[nu..nu + ni])
  {
    if Buildable(s, x) {
      var blocks := EgoBlocks(s.variant, x.tables);
      var n := |Flatten(blocks)|;
      var layers := AllEmbeddings(s, x, rsqrt);
      var c := CombineLayers(s.variant, s.alphaK, layers, n, Widths(s, x), s.layerEffects);
      CombinedRows(s.variant, s.alphaK, layers, n, Widths(s, x), s.layerEffects);
      if c.Some? {
        SumSizesIsTotalLength(blocks);
        var sizes := Sizes(blocks);
        assert SplitRows(c.value, sizes).Some?;
        UserAndItemBlocks(c.value, sizes);
      }
    }
  }

  /** `gcn` and `gcmc` never drop edges, whatever `node_dropout_flag` says. */
  lemma GraphConvIgnoresDropoutFlag(s: Settings, x: Inputs, rsqrt: real -> real)
    requires s.variant.Gcn? || s.variant.Gcmc?
    requires WellFormed(s, x)
    ensures WellFormed(s, x.(nodeDropoutFlag := !x.nodeDropoutFlag))
    ensures EmbedOutput(s, x, rsqrt) == EmbedOutput(s, x.(nodeDropoutFlag := !x.nodeDropoutFlag), rsqrt)
  {
    var y := x.(nodeDropoutFlag := !x.nodeDropoutFlag);
    if Buildable(s, x) {
      var a := Adjacency(s.variant, x.normAdj, x.catAndPriceAdj).value;
      assert FoldsFor(s.variant, a, x) == FoldsFor(s.variant, a, y);
      assert AllEmbeddings(s, x, rsqrt) == AllEmbeddings(s, y, rsqrt);
    }
  }

  /** A node dropout of 0 (keep probability 1) keeps every edge: the result is the
      same as with dropout switched off. */
  lemma ZeroDropoutIsNoDropout(s: Settings, x: Inputs, rsqrt: real -> real)
    requires WellFormed(s, x) && x.nodeDropout == 0.0
    ensures WellFormed(s, x.(nodeDropoutFlag := false))
    ensures EmbedOutput(s, x, rsqrt) == EmbedOutput(s, x.(nodeDropoutFlag := false), rsqrt)
  {
    var y := x.(nodeDropoutFlag := false);
    assert Widths(s, y) == Widths(s, x);
    if Buildable(s, x) {
      var v := s.variant;
      var a := Adjacency(v, x.normAdj, x.catAndPriceAdj).value;
      EgoShape(v, x.tables, x.embDim);
      if UsesNodeDropout(v, x.nodeDropoutFlag) {
        KeepAllFoldsArePlainFolds(a, |a|, NFold, x.noise);
      }
      assert FoldsFor(v, a, x) == FoldsFor(v, a, y);
      assert AllEmbeddings(s, x, rsqrt) == AllEmbeddings(s, y, rsqrt);
    }
  }

  /** `A^0 E0, ..., A^L E0`. */
  function Powers(a: Matrix, l: nat, e0: Matrix, d: nat): (ps: seq<Matrix>)
    requires IsMatrix(a, |a|, |a|) && IsMatrix(e0, |a|, d)
    ensures |ps| == l + 1 && SameLayers(ps, |a|, d)
  {
    seq(l + 1, m requires 0 <= m <= l => Power(a, m, e0, d))
  }

  /** Without dropout the light variants record the powers of the adjacency applied
      to the stacked tables. */
  lemma LightEmbeddingsArePowers(s: Settings, x: Inputs, rsqrt: real -> real)
    requires s.variant.LightGcn? || s.variant.LightGcnAlpha1? || s.variant.LightGcnConcat? || s.variant.Pas?
    requires WellFormed(s, x) && Buildable(s, x) && !x.nodeDropoutFlag
    ensures var a := Adjacency(s.variant, x.normAdj, x.catAndPriceAdj).value;
      var e0 := Flatten(EgoBlocks(s.variant, x.tables));
      IsMatrix(e0, |a|, x.embDim) &&
      AllEmbeddings(s, x, rsqrt) == Powers(a, |s.layerSize|, e0, x.embDim)
  {
    var v := s.variant;
    var a := Adjacency(v, x.normAdj, x.catAndPriceAdj).value;
    var e0 := Flatten(EgoBlocks(v, x.tables));
    EgoShape(v, x.tables, x.embDim);
    FoldsForShape(v, a, x);
    var folds := FoldsFor(v, a, x);
    FoldedIsPlain(v, a, folds, e0, x.weights, Widths(s, x), rsqrt, |x.weights|);
    LightLayersArePowers(v, a, e0, x.weights, Widths(s, x), rsqrt, |x.weights|);
    assert AllEmbeddings(s, x, rsqrt) == Powers(a, |s.layerSize|, e0, x.embDim);
  }

  /** LightGCN with `alpha_k = mean` and no dropout: the embedding of node `i` is the
      average over `m = 0 .. L` of row `i` of `A^m E0`; users are the first nodes, items
      follow them. */
  lemma LightGcnMeanEmbedding(s: Settings, x: Inputs, rsqrt: real -> real)
    requires s.variant.LightGcn? && s.alphaK.MeanAlpha?
    requires WellFormed(s, x) && Buildable(s, x) && !x.nodeDropoutFlag
    ensures var a := Adjacency(s.variant, x.normAdj, x.catAndPriceAdj).value;
      var e0 := Flatten(EgoBlocks(s.variant, x.tables));
      var nu, ni, l := |x.tables.user|, |x.tables.item|, |s.layerSize|;
      && IsMatrix(e0, |a|, x.embDim) && nu + ni == |a|
      && EmbedOutput(s, x, rsqrt).Some?
      && var (users, items) := EmbedOutput(s, x, rsqrt).value;
      && IsMatrix(users, nu, x.embDim) && IsMatrix(items, ni, x.embDim)
      && (forall i, j :: 0 <= i < nu && 0 <= j < x.embDim ==>
            users[i][j] == LayerSum(Powers(a, l, e0, x.embDim), |a|, x.embDim, i, j) / (l + 1) as real)
      && (forall i, j :: 0 <= i < ni && 0 <= j < x.embDim ==>
            items[i][j] == LayerSum(Powers(a, l, e0, x.embDim), |a|, x.embDim, nu + i, j) / (l + 1) as real)
  {
    var v := s.variant;
    var a := Adjacency(v, x.normAdj, x.catAndPriceAdj).value;
    var e0 := Flatten(EgoBlocks(v, x.tables));
    var l := |s.layerSize|;
    EgoShape(v, x.tables, x.embDim);
    LightEmbeddingsArePowers(s, x, rsqrt);
    var ps := Powers(a, l, e0, x.embDim);
    EmbedOutcome(s, x, rsqrt);
    MeanLayersIsAverage(ps, |a|, x.embDim);
    assert CombineLayers(v, s.alphaK, ps, |a|, Widths(s, x), s.layerEffects) == Some(MeanLayers(ps, |a|, x.embDim));
  }
}
