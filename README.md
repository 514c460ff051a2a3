# LightGCN graph construction in Dafny

This project models the core of the `LightGCN` TensorFlow class in `LightGCN.py`. That class is a
family of graph-convolutional recommenders: LightGCN and its `alpha-1` and
`concat` variants, NGCF, GCN, GC-MC, the price-aware `pas` and `ngcfpas`, and the `gcf`
variants. The model covers:

- how the normalised adjacency matrix is cut into `n_fold = 100` row folds, the last fold
  absorbing the remainder (`_split_A_hat`, `_split_A_hat_node_dropout`);
- how each fold is turned into a COO sparse tensor (`_convert_sp_mat_to_sp_tensor`) and, under
  node dropout, thinned by a mask built from uniform draws and rescaled (`_dropout_sparse`);
- how every layer multiplies the folds into the current embeddings and concatenates the fold
  products (the fold-multiply scaffold), and what each variant does with that product
  (plain propagation, bi-interaction, leaky-ReLU dense layers, `l2_normalize`);
- how the recorded layers are combined: mean, sum, the LightGCN `alpha_k` choice between `mean`
  and `leveled` layer weights, and concatenation along the feature axis;
- the split of the combined embeddings back into user and item blocks;
- the constructor's `alg_type` dispatch and `layer_effects` validation;
- the batch lookups, `batch_ratings` and the BPR loss of `create_bpr_loss`.

Tensors are exact real matrices (`seq<seq<real>>`). The adjacency is a dense real matrix, and
its sparse form is the row-major list of its nonzero entries. Randomness, `tf.rsqrt` inside
`l2_normalize` and `tf.nn.softplus` are parameters. The layer loop, the fold split and the
`leveled` coefficient loop are methods with loop invariants, each proved equal to a recursive
specification function. Properties of the source are stated as lemmas about those functions.

Modules: `Tensor` (dense operations), `Wrappers` (Option/Result), `Sparse` (COO form),
`Dropout`, `Folds`, `Blocks` (row concat/split), `Config` (variant names, `alpha_k`,
validation), `Combine` (layer combiners), `Propagation` (layer loop and per-variant rules),
`Embed` (the `_create_*_embed` methods end to end), `Loss` (lookups, ratings, BPR loss).

## Model

| member | source | states |
|---|---|---|
| Config.ParseVariant | LightGCN.py:131-168 | only the thirteen `alg_type` strings the dispatch tests are recognised, and a recognised name is that variant's own name |
| Config.ParseVariantName | LightGCN.py:131-168 | every variant's name is recognised as that variant (the dispatch is a bijection on its names) |
| Config.ParseAlphaK | LightGCN.py:512-517 | `alpha_k` is `mean` or `leveled` exactly for those strings; anything else is kept as unknown |
| Config.ValidateLayerEffects | LightGCN.py:199-204 | the error text is empty exactly when there are `n_layers + 1` layer effects, and otherwise is the source's message |
| Config.Construct | LightGCN.py:45-49 | a successful construction carries the given layer sizes and layer effects |
| Config.ConstructAccepts | LightGCN.py:45-49 | construction succeeds iff the type is known and (`leveled` ⇒ `n_layers + 1` effects); the settings carry those inputs; the mismatch is reported first |
| Folds.FoldEnd | LightGCN.py:257-263 | every fold range lies inside the adjacency: `start ≤ end ≤ n` |
| Folds.FoldsContiguous | LightGCN.py:258-263 | each fold starts where the previous one ends; the first starts at 0 and the last ends at `n` |
| Folds.FoldsDisjoint | LightGCN.py:258-263 | a fold ends no later than any later fold starts, so distinct folds share no row |
| Folds.FoldsCover | LightGCN.py:258-263 | every row of the adjacency lies in exactly one fold |
| Folds.FewRowsEmptyFolds | LightGCN.py:257-263 | with fewer rows than folds the first 99 folds are empty and the last holds every row |
| Folds.FoldsOf | LightGCN.py:254-266 | the split always yields exactly `n_fold` folds |
| Folds.SplitAHat | LightGCN.py:254-266 | the loop that builds `A_fold_hat` returns exactly the specified folds |
| Folds.DroppedFoldsOf | LightGCN.py:268-283 | fold `f` is `_dropout_sparse` of the COO fold with keep probability `1 - node_dropout[0]` and that fold's draws |
| Folds.SplitAHatNodeDropout | LightGCN.py:268-283 | the loop that builds the dropped folds returns exactly the specified folds |
| Folds.KeepAllFoldsArePlainFolds | LightGCN.py:268-283 | with `node_dropout[0] = 0` the dropped folds equal the plain folds |
| Folds.FoldedProduct | LightGCN.py:498-504 | the per-fold `sparse_tensor_dense_matmul` loop followed by `tf.concat` returns the specified stacked product |
| Folds.FoldProductIsMatMul | LightGCN.py:498-504 | multiplying the folds one by one and stacking the results is the full product `A · E` |
| Folds.DroppedFoldsShape | LightGCN.py:268-283 | dropped folds keep the fold shapes, so the fold product is defined for them too |
| Sparse.ToCoo | LightGCN.py:692-695 | the COO tensor has the matrix's dense shape and every entry lies inside it |
| Sparse.ToCooEntries | LightGCN.py:692-695 | every COO entry is a nonzero of the matrix carrying its own value, and the entries are in strictly increasing row-major order |
| Sparse.CooRoundTrip | LightGCN.py:692-695 | converting the COO tensor back to a dense matrix gives the original matrix |
| Sparse.SpMMOfCoo | LightGCN.py:692-695 | multiplying the COO form of `A` into `E` equals the dense product `A · E` |
| Sparse.NonzeroCountIsEntryCount | LightGCN.py:280-281 | `count_nonzero` of a fold equals the number of COO entries, so each entry gets one draw |
| Dropout.KeepIff | LightGCN.py:703-704 | for a keep probability in [0, 1] and a draw in [0, 1), the mask keeps an entry iff `keep_prob + u >= 1` |
| Dropout.KeptImpliesNonzero | LightGCN.py:703-707 | an entry is kept only when the keep probability is nonzero, so `1 / keep_prob` is defined where it is used |
| Dropout.DropoutSparse | LightGCN.py:697-707 | dropout keeps the dense shape and never adds entries |
| Dropout.DropoutKeepsMaskedEntries | LightGCN.py:697-707 | the result is the entries whose draw passes the mask, in original order, each divided by the keep probability |
| Dropout.DropoutInBounds | LightGCN.py:705 | `sparse_retain` keeps every entry inside the dense shape |
| Dropout.KeepProbOneIsIdentity | LightGCN.py:697-707 | with keep probability 1 the tensor is unchanged |
| Dropout.KeepProbZeroDropsAll | LightGCN.py:697-707 | with keep probability 0 no entry survives |
| Blocks.SplitConcatRoundTrip | LightGCN.py:495 | splitting a `tf.concat` of blocks by the block sizes gives the blocks back |
| Blocks.ConcatSplitRoundTrip | LightGCN.py:509 | `tf.split` by sizes succeeds iff the sizes add up to the row count, and concatenating the pieces gives the matrix back |
| Blocks.UserAndItemBlocks | LightGCN.py:509 | the user part is the first `n_users` rows and the item part the next `n_items` rows |
| Combine.MeanLayersIsAverage | LightGCN.py:507-514 | `reduce_mean` over the stacked layer axis: entry `(i, j)` is the sum of the layers' entries over the layer count |
| Combine.SumLayersIsTotal | LightGCN.py:563-564 | `reduce_sum` over the stacked layer axis: entry `(i, j)` is the sum of the layers' entries |
| Combine.SumIsLayerCountTimesMean | LightGCN.py:563-564 | the `alpha-1` sum is `L + 1` times the LightGCN mean |
| Combine.ConcatLayersPlacement | LightGCN.py:586 | `tf.concat(all_embeddings, 1)` has width the sum of the layer widths, and layer `k`'s column `j` sits at its offset plus `j` |
| Combine.ConcatUniformPlacement | LightGCN.py:586 | with equal widths `d`, layer `k`'s column `j` sits at column `k * d + j` |
| Combine.LeveledAlphaK | LightGCN.py:520-544 | the loop that broadcasts each layer effect over `emb_dim`, followed by the multiply and `reduce_sum` over layers, returns the specified leveled combination |
| Combine.LeveledIsWeightedSum | LightGCN.py:536-544 | the leveled output is the layer-effect-weighted sum of the layers, entry by entry |
| Combine.LeveledUniformIsScaledSum | LightGCN.py:536-544 | equal layer effects `c` give `c` times the plain layer sum (`1 / (L + 1)` gives the mean) |
| Combine.AlphaKLayers | LightGCN.py:512-517 | `_calc_alpha_k` yields a value exactly for `mean` and `leveled`, and nothing for any other setting |
| Combine.CalcAlphaK | LightGCN.py:512-517 | the dispatch method returns the specified combination |
| Combine.ThreeLayerExample | LightGCN.py:507-586 | three one-entry layers 1, 2, 3 give mean 2, sum 6, concatenation `[1, 2, 3]`, and leveled effects 0.5 give 3 |
| Propagation.L2Normalize | LightGCN.py:365 | `l2_normalize` keeps the shape of its input |
| Propagation.L2NormalizeUnitRows | LightGCN.py:365 | a row whose squared norm is at least `1e-12` is scaled to unit squared norm |
| Propagation.Dense | LightGCN.py:607 | `matmul(x, W) + b` has one row per row of `x`, as wide as the bias |
| Propagation.LayerStep | LightGCN.py:296-673 | one layer of each variant keeps the node count and has the layer's specified output width (`gcf-minus-ip` as corrected, see Findings) |
| Propagation.PropagateLayer | LightGCN.py:498-506 | one pass of the loop body turns the state after `k` layers into the state after `k + 1` |
| Propagation.Propagate | LightGCN.py:498-506 | the layer loop returns exactly the specified recorded layers |
| Propagation.RecordsArePrefixes | LightGCN.py:498-506 | every layer appends to `all_embeddings` without touching earlier records: the records after `m` layers are the first records after any later layer |
| Propagation.FirstRecordIsEgo0 | LightGCN.py:495-496 | the first record is the stacked tables, for every variant but `gcmc` |
| Propagation.FoldedIsPlain | LightGCN.py:498-504 | multiplying fold by fold and stacking the products gives, layer after layer, the same records and embeddings as multiplying by the whole adjacency |
| Propagation.LightRule | LightGCN.py:498-506 | a light layer (`lightgcn`, `alpha-1`, `concat`, `pas`) moves to `A E` and records it unchanged |
| Propagation.LightLayersArePowers | LightGCN.py:498-506 | for the light variants and `pas`, layer `m` of the loop over the whole adjacency is `A^m E0` |
| Propagation.MinusIpRule | LightGCN.py:383-395 | a corrected `gcf-minus-ip` layer moves to `A E` and records its `l2_normalize` |
| Propagation.MinusIpEgo | LightGCN.py:383-395 | in the corrected `gcf-minus-ip`, the embedding after `k` layers is `A^k E0` |
| Propagation.MinusIpLayers | LightGCN.py:383-395 | in the corrected `gcf-minus-ip`, the record of layer `m ≥ 1` is `l2_normalize(A^m E0)` |
| Propagation.OnlyIpRule | LightGCN.py:418-421 | the `only-ip` variants set `E ← E ⊙ (A E)` and record its `l2_normalize` |
| Propagation.GcfRule | LightGCN.py:362-365 | the `gcf` variants set `E ← A E + E ⊙ (A E)` and record its `l2_normalize` |
| Propagation.GraphConvRule | LightGCN.py:641-661 | `gcn` and `gcmc` set `E ← leaky_relu(A E W_gc + b_gc)`; `gcn` records it, `gcmc` records its dense `W_mlp` layer |
| Propagation.NgcfRule | LightGCN.py:607-619 | NGCF sets `E ← leaky_relu(A E W_gc + b_gc) + leaky_relu((E ⊙ A E) W_bi + b_bi)` and records its `l2_normalize` |
| Propagation.LightStep | LightGCN.py:498-506 | in the folded loop that `Propagate` runs, a light layer moves to `A E` and records it unchanged |
| Propagation.MinusIpStep | LightGCN.py:383-395 | in the folded loop, a corrected `gcf-minus-ip` layer moves to `A E` and records its `l2_normalize` |
| Propagation.OnlyIpStep | LightGCN.py:414-421 | in the folded loop, the `only-ip` variants set `E ← E ⊙ (A E)` and record its `l2_normalize` |
| Propagation.GcfStep | LightGCN.py:356-365 | in the folded loop, the `gcf` variants set `E ← A E + E ⊙ (A E)` and record its `l2_normalize` |
| Propagation.GraphConvStep | LightGCN.py:641-661 | in the folded loop, `gcn` and `gcmc` set `E ← leaky_relu(A E W_gc + b_gc)`; `gcn` records it, `gcmc` its dense `W_mlp` layer |
| Propagation.NgcfStep | LightGCN.py:607-619 | in the folded loop, NGCF sets `E ← leaky_relu(A E W_gc + b_gc) + leaky_relu((E ⊙ A E) W_bi + b_bi)` and records its `l2_normalize` |
| Propagation.MinusIpAsWrittenRepeats | LightGCN.py:383-395 | as written, the `gcf-minus-ip` loop records the same `l2_normalize(A E0)` at every layer |
| Propagation.MinusIpAsWrittenDiffers | LightGCN.py:383-395 | on a two-node graph the as-written second record differs from the propagated one |
| Embed.EgoShape | LightGCN.py:291 | the stacked tables have one row per user, item and, for the price-aware variants, category and price |
| Embed.SplitFolds | LightGCN.py:490-493 | the dropped folds are chosen exactly when node dropout is on, the plain folds otherwise |
| Embed.PropagateAll | LightGCN.py:489-506 | choosing the dropped or plain folds and running the layer loop returns the specified recorded layers |
| Embed.CombineAll | LightGCN.py:507-587 | the combination step returns the variant's specified combination of the records |
| Embed.CreateEmbed | LightGCN.py:131-168 | the dispatched `_create_*_embed` returns the specified user and item embeddings (`gcf-minus-ip` as corrected, see Findings) |
| Embed.EmbedOutcome | LightGCN.py:131-168 | building fails iff the adjacency is missing or misshapen, the `gcmc` widths disagree, LightGCN has an unknown `alpha_k`, or `gcmc` has no layers; otherwise users and items are the first `n_users` and next `n_items` combined rows |
| Embed.GraphConvIgnoresDropoutFlag | LightGCN.py:628-651 | `gcn` and `gcmc` give the same embeddings whatever `node_dropout_flag` is |
| Embed.ZeroDropoutIsNoDropout | LightGCN.py:489-493 | node dropout 0 gives the same embeddings as switching dropout off |
| Embed.LightEmbeddingsArePowers | LightGCN.py:489-506 | without dropout, the light variants record `A^0 E0, ..., A^L E0` |
| Embed.LightGcnMeanEmbedding | LightGCN.py:489-510 | LightGCN with `mean`: user `i` is the average over `m ≤ L` of row `i` of `A^m E0`, and item `i` that of row `n_users + i` |
| Loss.Lookup | LightGCN.py:175-180 | `embedding_lookup` returns one row per id, the table's row with that id |
| Loss.ScoresAreDots | LightGCN.py:676-677 | `reduce_sum(multiply(u, p), 1)` is the inner product of matching rows |
| Loss.BatchRatings | LightGCN.py:186 | `matmul(u, p, transpose_b)` has one row per user and one column per item |
| Loss.RatingsAreDots | LightGCN.py:186 | rating `(i, j)` is the inner product of user row `i` and item row `j` |
| Loss.LookupRatings | LightGCN.py:175-186 | the rating of batch positions `(i, j)` is the inner product of the looked-up user and item rows |
| Loss.RatingsDiagonalIsScores | LightGCN.py:186 | the diagonal of `batch_ratings` is the positive scores of the loss |
| Loss.L2LossZeroIff | LightGCN.py:679-680 | `l2_loss` is nonnegative and zero exactly for an all-zero tensor |
| Loss.BprLoss | LightGCN.py:675-690 | the loss has a value exactly for a nonempty batch and a nonzero `batch_size`; the final rows and the `emb_dim`-wide `_pre` rows may differ in width |
| Loss.EmbLossSign | LightGCN.py:679-688 | for `decay ≥ 0` the regulariser is nonnegative, for `decay > 0` zero exactly when the `_pre` rows are zero; `reg_loss` is `[0]` |
| Loss.EmbLossScalesWithBatchSize | LightGCN.py:681 | doubling `batch_size` halves the regulariser and leaves the BPR term unchanged |
| Loss.MfLossFallsAsPositiveScoresRise | LightGCN.py:683 | for a strictly increasing softplus, raising no positive score less and one strictly, with the negative scores fixed, strictly lowers the BPR term |
| Loss.TotalLossOfBatch | LightGCN.py:190-195 | `self.loss` is the BPR term plus `decay` times the regulariser: at least the BPR term for `decay ≥ 0`, equal to it for `decay = 0`, and independent of `reg_loss` |
| Loss.MixedWidthBatch | LightGCN.py:175-180 | a batch with two-wide final rows and one-wide `_pre` rows, as a concatenating variant gives, has a loss: BPR term 0 for the identity softplus and regulariser 1.5 |
| Loss.TiedScoresGiveSoftplusZero | LightGCN.py:683 | when each positive score equals its negative score, the BPR term is `softplus(0)` |

## Left out

- The TensorFlow graph, its placeholders, summaries, sessions and the Adam optimiser (`self.opt`). Only the values the graph computes are modelled.
- `_init_weights`: random or pretrained initialisation is input. The tables and per-layer weights are parameters shaped as `_init_weights` makes them (`Embed.WellFormed`).
- `create_model_str`, `load_pretrained_data` and the rest of the training script. These are file and log I/O.
- `float32` arithmetic. Reals are exact.
- The bodies of `tf.rsqrt` and `tf.nn.softplus`. They are function parameters, with a predicate stating what `rsqrt` must satisfy.
- `tf.random_uniform`. Its draws are inputs, one per stored entry of a fold.
- Message dropout. No variant applies it; the `ngcf-pas`, `ngcf`, `gcn` and `gcmc` loops carry it only as a commented-out line (LightGCN.py:335, 616, 642, 666).
- Stored zeros. The adjacency is modelled as a dense matrix whose COO form holds exactly the nonzeros, so `count_nonzero` and the stored-entry count agree by construction.
- The `assert` in `_validate_layer_effects` aborting the process. It is a `Failure` result instead; running Python with `-O` would skip it.
- `Combine.LeveledAlphaK`: does not model that the source overwrites the list `self.layer_effects` in place. Each call therefore starts from flat effects, whereas a second call in the source would see the broadcast lists.
- `Combine.LeveledAlphaK`: requires `len(node_dim)` to be 1 or the node count, the cases where the source succeeds. Otherwise `tf.multiply` fails to broadcast the coefficients, or, for a single node, broadcasts them to `len(node_dim)` rows that the `tf.split` at LightGCN.py:509 then rejects.
- `Config.Construct`: as in the source, the `leveled` layer effects are validated for every variant, although only LightGCN uses them.
- An `alg_type` outside the dispatch leaves `ua_embeddings` unset, so the source fails later (at line 175). The model reports it at construction as `UnknownAlgType`.
- Shape errors that TensorFlow raises at graph-construction time are preconditions or `None` results, not exceptions.
- `Propagation.LayerStep`: the `gcf-minus-ip` case is modelled as corrected (the embedding moves to `A E` each layer), not as LightGCN.py:383-395 is written. `Propagation.MinusIpAsWritten` models the written loop, whose every record is `l2_normalize(A E0)` (`Propagation.MinusIpAsWrittenRepeats`); see Findings.
- `Embed.CreateEmbed`: for `gcf-minus-ip` it returns the embeddings of the corrected loop, so its user and item rows differ from what `_create_gcf_minus_IP_embed` computes as written once there are two or more layers (`Propagation.MinusIpAsWrittenDiffers`).
- `Loss.BprLoss`: the empty batch and `batch_size = 0`, which give NaN or infinity in TensorFlow, are `None`.

## Findings

| source | as written | input that shows it | evidently intended | confidence | as-written member | corrected member |
|---|---|---|---|---|---|---|
| LightGCN.py:383-395 | the `gcf-minus-ip` layer loop never reassigns `ego_embeddings`, so every layer multiplies the initial embeddings again and records `l2_normalize(A E0)` each time | two nodes, adjacency `[[0, 1], [0, 0]]`, `E0 = [[1], [1]]`, two layers: the as-written second record is `[[rsqrt(1)], [0]]`, the propagated one is `[[0], [0]]` | propagate like the other variants (`ego_embeddings = side_embeddings`), recording `l2_normalize(A^m E0)` at layer `m` | medium, not executed | Propagation.MinusIpAsWrittenDiffers | Propagation.MinusIpLayers |
