/** The tf.Transform callback of the encoder-decoder model
    (encoder_decoder_preprocessing.py): densify every raw feature, z-score
    every feature except the `_TIMESTAMP` ones, select the model features and
    stack them, in sorted-key order, into the tensor that is both the model
    input and its label. */
module EncoderDecoderPreprocessing {
  import opened Wrappers
  import opened Strings
  import opened Tensors
  import opened TimeseriesTransformUtils
  import opened FeatureAlignment

  const FLOAT32_KEY: string := "Float32"
  const LABEL_KEY: string := "LABEL"

  /** The outputs dict after the densifying loop. */
  function Densified(inputs: map<string, Tensor>): map<string, Tensor> {
    map k | k in inputs :: ToDense(inputs[k])
  }

  /** The outputs dict after the scaling loop: `_TIMESTAMP` keys stay unscaled. */
  function Scaled(dense: map<string, Tensor>): map<string, Tensor> {
    map k | k in dense :: if EndsWith(k, TIMESTAMP_SUFFIX) then dense[k] else ScaleToZScore(dense[k])
  }

  /** The model features' tensors in sorted-key order, stacked on a new last
      axis and reshaped to [-1, timesteps, number of features]. */
  function StackedModelInput(model: map<string, Tensor>, timesteps: int): (r: Tensor)
    ensures var keys := SortedKeys(model.Keys);
      && r.Reshape? && r.reshaped.StackLastAxis?
      && r.timesteps == timesteps && r.width == |keys| == |r.reshaped.parts|
      && forall p :: 0 <= p < |keys| ==> keys[p] in model && r.reshaped.parts[p] == model[keys[p]]
  {
    var keys := SortedKeys(model.Keys);
    Reshape(StackLastAxis(seq(|keys|, i requires 0 <= i < |keys| => model[keys[i]])), timesteps, |keys|)
  }

  /** What preprocessing_fn returns (or raises). */
  ghost function Preprocessing(inputs: map<string, Tensor>, config: Config): Result<map<string, Tensor>, ValueError> {
    match FeatureDict(Scaled(Densified(inputs)), config)
    case Err(e) => Err(e)
    case Ok(model) =>
      var float32 := StackedModelInput(model, config.timesteps);
      Ok(map[FLOAT32_KEY := float32, LABEL_KEY := float32])
  }

  /** The first loop of preprocessing_fn: every raw feature, sparse or not,
      is replaced by its dense form under the same key. */
  method DensifyAll(inputs: map<string, Tensor>) returns (outputs: map<string, Tensor>)
    ensures outputs == Densified(inputs)
  {
    outputs := inputs;
    var todo := outputs.Keys;
    while todo != {}
      invariant todo <= inputs.Keys && outputs.Keys == inputs.Keys
      invariant forall k :: k in outputs ==> outputs[k] == if k in todo then inputs[k] else ToDense(inputs[k])
      decreases todo
    {
      var key :| key in todo;
      outputs := outputs[key := ToDense(outputs[key])];
      todo := todo - {key};
    }
  }

  /** The second loop of preprocessing_fn: every feature whose name does not
      end with `_TIMESTAMP` is replaced by its z-score under the same key. */
  method ScaleAll(dense: map<string, Tensor>) returns (outputs: map<string, Tensor>)
    ensures outputs == Scaled(dense)
  {
    outputs := dense;
    var todo := outputs.Keys;
    while todo != {}
      invariant todo <= dense.Keys && outputs.Keys == dense.Keys
      invariant forall k :: k in outputs ==>
                  outputs[k] == if k in todo || EndsWith(k, TIMESTAMP_SUFFIX) then dense[k] else ScaleToZScore(dense[k])
      decreases todo
    {
      var key :| key in todo;
      if !EndsWith(key, TIMESTAMP_SUFFIX) {
        outputs := outputs[key := ScaleToZScore(outputs[key])];
      }
      todo := todo - {key};
    }
  }

  /** preprocessing_fn: densify, scale, select the model features and stack
      them in sorted-key order under `Float32` and `LABEL`. */
  method PreprocessingFn(inputs: map<string, Tensor>, customConfig: Config) returns (r: Result<map<string, Tensor>, ValueError>)
    ensures r == Preprocessing(inputs, customConfig)
  {
    var timesteps := customConfig.timesteps;
    var outputs := DensifyAll(inputs);
    outputs := ScaleAll(outputs);
    var trainXTensors := CreateFeatureListFromDict(outputs, customConfig);
    if trainXTensors.Err? {
      return Err(trainXTensors.error);
    }
    var keys := SortedKeys(trainXTensors.value.Keys);
    var trainXValues := seq(|keys|, i requires 0 <= i < |keys| => trainXTensors.value[keys[i]]);
    var float32 := Reshape(StackLastAxis(trainXValues), timesteps, |trainXValues|);
    assert float32 == StackedModelInput(trainXTensors.value, timesteps);
    outputs := map[FLOAT32_KEY := float32, LABEL_KEY := float32];
    return Ok(outputs);
  }

  /** Every raw feature is still a key after densifying and scaling, and
      exactly the `_TIMESTAMP` ones are left unscaled. */
  lemma ScalingRule(inputs: map<string, Tensor>)
    ensures Scaled(Densified(inputs)).Keys == inputs.Keys
    ensures forall k :: k in inputs && EndsWith(k, TIMESTAMP_SUFFIX) ==>
              Scaled(Densified(inputs))[k] == ToDense(inputs[k])
    ensures forall k :: k in inputs && !EndsWith(k, TIMESTAMP_SUFFIX) ==>
              Scaled(Densified(inputs))[k] == ScaleToZScore(ToDense(inputs[k]))
  {
  }

  /** For one raw measurement and one raw timestamp, densifying and scaling
      z-score the measurement and leave the timestamp dense but unscaled. */
  lemma ScalingExample()
    ensures Scaled(Densified(map["LOAD" := Feature("LOAD"), "DATE_TIMESTAMP" := Feature("DATE_TIMESTAMP")]))
         == map["LOAD" := ScaleToZScore(ToDense(Feature("LOAD"))),
                "DATE_TIMESTAMP" := ToDense(Feature("DATE_TIMESTAMP"))]
  {
    assert !EndsWith("LOAD", TIMESTAMP_SUFFIX);
    assert "DATE_TIMESTAMP"[4..] == TIMESTAMP_SUFFIX;
    ScalingRule(map["LOAD" := Feature("LOAD"), "DATE_TIMESTAMP" := Feature("DATE_TIMESTAMP")]);
  }

  /** A configured raw feature that the transform keeps holds its scaled
      tensor: under the alignment conditions no derived name replaces it. */
  lemma KeptFeatureValue(inputs: map<string, Tensor>, ks: seq<string>, config: Config, k: string)
    requires AlignmentConditions(inputs, ks, config)
    requires FeatureDict(Scaled(Densified(inputs)), config).Ok?
    requires k in FeatureDict(Scaled(Densified(inputs)), config).value && k in inputs && k in config.features
    ensures FeatureDict(Scaled(Densified(inputs)), config).value[k]
            == if EndsWith(k, TIMESTAMP_SUFFIX) then ToDense(inputs[k]) else ScaleToZScore(ToDense(inputs[k]))
  {
    var scaled := Scaled(Densified(inputs));
    ScalingRule(inputs);
    FeatureDictContents(scaled, config);
    var timestamps := TimestampKeys(KeepConfiguredKeys(scaled, config.features));
    if config.enableTimestampFeatures && k in DerivedKeys(timestamps, config.timeFeatures) {
      var o := DerivedOwner(k, timestamps, config.timeFeatures);
      assert false;
    }
  }

  /** Any other key the transform keeps is a derived name of a configured
      `_TIMESTAMP` feature and holds the time coordinate of its unscaled tensor. */
  lemma DerivedFeatureValue(inputs: map<string, Tensor>, config: Config, n: string)
    requires FeatureDict(Scaled(Densified(inputs)), config).Ok?
    requires n in FeatureDict(Scaled(Densified(inputs)), config).value && !(n in inputs && n in config.features)
    ensures exists t :: t in inputs && t in config.features && EndsWith(t, TIMESTAMP_SUFFIX)
              && n in DerivedNames(t, config.timeFeatures)
              && FeatureDict(Scaled(Densified(inputs)), config).value[n] == TimeCoordinate(n, ToDense(inputs[t]))
  {
    var scaled := Scaled(Densified(inputs));
    ScalingRule(inputs);
    FeatureDictContents(scaled, config);
    var t :| t in scaled && t in config.features && EndsWith(t, TIMESTAMP_SUFFIX)
             && n in DerivedNames(t, config.timeFeatures);
  }

  /** When the feature dict is built, preprocessing returns one stacked
      tensor under both `Float32` and `LABEL`, whose part p is the model
      feature at sorted position p. */
  lemma PreprocessingOutput(inputs: map<string, Tensor>, config: Config)
    requires FeatureDict(Scaled(Densified(inputs)), config).Ok?
    ensures var model := FeatureDict(Scaled(Densified(inputs)), config).value;
      var keys := SortedKeys(model.Keys);
      var out := Preprocessing(inputs, config).value;
      && out.Keys == {FLOAT32_KEY, LABEL_KEY}
      && out[FLOAT32_KEY] == out[LABEL_KEY]
      && out[LABEL_KEY].Reshape? && out[LABEL_KEY].reshaped.StackLastAxis?
      && out[LABEL_KEY].timesteps == config.timesteps
      && out[LABEL_KEY].width == |keys| == |out[LABEL_KEY].reshaped.parts|
      && forall p :: 0 <= p < |keys| ==> keys[p] in model && out[LABEL_KEY].reshaped.parts[p] == model[keys[p]]
  {
    var model := FeatureDict(Scaled(Densified(inputs)), config).value;
  }

  /** The training/inference contract.  Under the alignment conditions the
      transform succeeds exactly when inference can compute its labels from
      the raw feature names; then the result has just the keys `Float32` and
      `LABEL`, bound to one tensor of shape [-1, timesteps, number of labels],
      and position p of its last axis holds the feature that inference labels
      `labels[p]`: the z-scored input of a configured feature (unscaled if it
      is a `_TIMESTAMP` feature), or a time coordinate of an unscaled
      configured `_TIMESTAMP` feature for a derived name. */
  lemma TrainingInferenceAlignment(inputs: map<string, Tensor>, ks: seq<string>, config: Config)
    requires AlignmentConditions(inputs, ks, config)
    ensures Preprocessing(inputs, config).Ok? <==> FeatureList(ks, config).Ok?
    ensures FeatureList(ks, config).Ok? ==>
      var labels := FeatureList(ks, config).value;
      var out := Preprocessing(inputs, config).value;
      && out.Keys == {FLOAT32_KEY, LABEL_KEY}
      && out[FLOAT32_KEY] == out[LABEL_KEY]
      && out[LABEL_KEY].Reshape? && out[LABEL_KEY].reshaped.StackLastAxis?
      && out[LABEL_KEY].timesteps == config.timesteps
      && out[LABEL_KEY].width == |labels| == |out[LABEL_KEY].reshaped.parts|
      && (forall p :: 0 <= p < |labels| && labels[p] in inputs && labels[p] in config.features ==>
            out[LABEL_KEY].reshaped.parts[p]
            == if EndsWith(labels[p], TIMESTAMP_SUFFIX) then ToDense(inputs[labels[p]])
               else ScaleToZScore(ToDense(inputs[labels[p]])))
      && (forall p :: 0 <= p < |labels| && !(labels[p] in inputs && labels[p] in config.features) ==>
            exists t :: t in inputs && t in config.features && EndsWith(t, TIMESTAMP_SUFFIX)
              && labels[p] in DerivedNames(t, config.timeFeatures)
              && out[LABEL_KEY].reshaped.parts[p] == TimeCoordinate(labels[p], ToDense(inputs[t])))
  {
    var scaled := Scaled(Densified(inputs));
    ScalingRule(inputs);
    assert AlignmentConditions(scaled, ks, config);
    ListDictAlignment(scaled, ks, config);
    if FeatureList(ks, config).Ok? {
      var labels := FeatureList(ks, config).value;
      var model := FeatureDict(scaled, config).value;
      assert labels == SortedKeys(model.Keys);
      PreprocessingOutput(inputs, config);
      forall p | 0 <= p < |labels| && labels[p] in inputs && labels[p] in config.features {
        KeptFeatureValue(inputs, ks, config, labels[p]);
      }
      forall p | 0 <= p < |labels| && !(labels[p] in inputs && labels[p] in config.features) {
        DerivedFeatureValue(inputs, config, labels[p]);
      }
    }
  }
}
