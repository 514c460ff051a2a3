/**
 * The settings `LightGCN.__init__` reads before it builds the graph: which
 * propagation variant `alg_type` names, how `alpha_k` combines the layers of
 * `lightgcn`, and the check `_validate_layer_effects` makes on the layer
 * effects when `alpha_k` is `leveled`.
 */
module Config {
  import opened Wrappers

  /** The propagation variants the constructor dispatches on. */
  datatype Variant =
    | LightGcn          // 'lightgcn'
    | LightGcnAlpha1    // 'LightGCN-alpha-1'
    | Ngcf              // 'ngcf'
    | Gcn               // 'gcn'
    | Gcmc              // 'gcmc'
    | NgcfPas           // 'ngcfpas'
    | Pas               // 'pas'
    | Gcf               // 'gcf'
    | GcfOnlyIp         // 'gcf-only-ip'
    | GcfSum            // 'gcf-sum'
    | GcfSumOnlyIp      // 'gcf-sum-only-ip'
    | GcfMinusIp        // 'gcf-minus-ip'
    | LightGcnConcat    // 'LightGCN-concat'

  /** The `alg_type` string of each variant, compared exactly (case matters). */
  function VariantName(v: Variant): string {
    match v
    case LightGcn => "lightgcn"
    case LightGcnAlpha1 => "LightGCN-alpha-1"
    case Ngcf => "ngcf"
    case Gcn => "gcn"
    case Gcmc => "gcmc"
    case NgcfPas => "ngcfpas"
    case Pas => "pas"
    case Gcf => "gcf"
    case GcfOnlyIp => "gcf-only-ip"
    case GcfSum => "gcf-sum"
    case GcfSumOnlyIp => "gcf-sum-only-ip"
    case GcfMinusIp => "gcf-minus-ip"
    case LightGcnConcat => "LightGCN-concat"
  }

  /** The dispatch chain of the constructor: `None` for a name no branch matches. */
  function ParseVariant(name: string): (v: Option<Variant>)
    ensures v.Some? ==> VariantName(v.value) == name
  {
    if name == "lightgcn" then Some(LightGcn)
    else if name == "LightGCN-alpha-1" then Some(LightGcnAlpha1)
    else if name == "ngcf" then Some(Ngcf)
    else if name == "gcn" then Some(Gcn)
    else if name == "gcmc" then Some(Gcmc)
    else if name == "ngcfpas" then Some(NgcfPas)
    else if name == "pas" then Some(Pas)
    else if name == "gcf" then Some(Gcf)
    else if name == "gcf-only-ip" then Some(GcfOnlyIp)
    else if name == "gcf-sum" then Some(GcfSum)
    else if name == "gcf-sum-only-ip" then Some(GcfSumOnlyIp)
    else if name == "gcf-minus-ip" then Some(GcfMinusIp)
    else if name == "LightGCN-concat" then Some(LightGcnConcat)
    else None
  }

  /** Every variant is reached by exactly its own name, so the dispatch is a bijection
      between the thirteen names and the variants. */
  lemma ParseVariantName(v: Variant)
    ensures ParseVariant(VariantName(v)) == Some(v)
  {
  }

  /** How `_calc_alpha_k` combines the stacked layers of `lightgcn`. */
  datatype AlphaK = MeanAlpha | LeveledAlpha | UnknownAlpha(name: string)

  function ParseAlphaK(s: string): (a: AlphaK)
    ensures a == MeanAlpha <==> s == "mean"
    ensures a == LeveledAlpha <==> s == "leveled"
    ensures a.UnknownAlpha? ==> a.name == s
  {
    if s == "mean" then MeanAlpha
    else if s == "leveled" then LeveledAlpha
    else UnknownAlpha(s)
  }

  const LayerEffectsMessage: string :=
    "number of arguments for layer_effects does not match number of layers\n"

  /** `_validate_layer_effects`: the accumulated error text, empty when there is one
      effect per layer including layer 0. */
  function ValidateLayerEffects(layerEffects: seq<real>, nLayers: nat): (error: string)
    ensures error == "" <==> |layerEffects| == nLayers + 1
    ensures error != "" ==> error == LayerEffectsMessage
  {
    if |layerEffects| != nLayers + 1 then "" + LayerEffectsMessage else ""
  }

  datatype ConfigError =
    | LayerEffectsMismatch(message: string)   // the failing `assert` of `_validate_layer_effects`
    | UnknownAlgType(name: string)            // no branch sets `ua_embeddings`

  /** The settings the model is built from; `layerSize` is `eval(args.layer_size)`. */
  datatype Settings = Settings(
    variant: Variant,
    alphaK: AlphaK,
    layerSize: seq<nat>,
    layerEffects: seq<real>)

  /** The part of `__init__` that can reject a configuration: the layer effects are
      validated first (only when `alpha_k` is `leveled`), then `alg_type` is dispatched. */
  function Construct(algType: string, alphaK: string, layerSize: seq<nat>, layerEffects: seq<real>)
    : (r: Result<Settings, ConfigError>)
    ensures r.Success? ==> r.value.layerSize == layerSize && r.value.layerEffects == layerEffects
  {
    if alphaK == "leveled" && ValidateLayerEffects(layerEffects, |layerSize|) != "" then
      Failure(LayerEffectsMismatch(ValidateLayerEffects(layerEffects, |layerSize|)))
    else
      match ParseVariant(algType)
      case None => Failure(UnknownAlgType(algType))
      case Some(v) => Success(Settings(v, ParseAlphaK(alphaK), layerSize, layerEffects))
  }

  /** A configuration is accepted exactly when `alg_type` names a variant and, for
      `leveled`, there are `n_layers + 1` layer effects; a mismatch is reported before
      an unknown `alg_type`. */
  lemma ConstructAccepts(algType: string, alphaK: string, layerSize: seq<nat>, layerEffects: seq<real>)
    ensures Construct(algType, alphaK, layerSize, layerEffects).Success? <==>
      ParseVariant(algType).Some? && (alphaK == "leveled" ==> |layerEffects| == |layerSize| + 1)
    ensures Construct(algType, alphaK, layerSize, layerEffects).Success? ==>
      var s := Construct(algType, alphaK, layerSize, layerEffects).value;
      VariantName(s.variant) == algType && s.alphaK == ParseAlphaK(alphaK)
    ensures alphaK == "leveled" && |layerEffects| != |layerSize| + 1 ==>
      Construct(algType, alphaK, layerSize, layerEffects) == Failure(LayerEffectsMismatch(LayerEffectsMessage))
  {
  }
}
