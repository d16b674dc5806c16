# Encoder-decoder feature pipeline of timeseries-streaming, in Dafny

This project models the Python core of the timeseries-streaming ML pipeline's
encoder-decoder anomaly detector. It covers three pieces:

- **Feature-name derivation** (`timeseries_transform_utils.py`). A raw feature
  whose name ends in `_TIMESTAMP` is replaced by sine and cosine time
  coordinates, one per requested period (MINUTE, HOUR, DAY, MONTH, YEAR).
  There are two variants:
  - a list variant used at inference, which yields the sorted label list;
  - a dict variant used at training, which yields the model feature tensors.
- **The tf.Transform callback** (`encoder_decoder_preprocessing.py`). It
  densifies every raw feature and z-scores every feature except the
  `_TIMESTAMP` ones. It then selects the model features and stacks them, in
  sorted-key order, into one tensor that is both the model input and its
  label.
- **Post-inference reconciliation** (`process_encdec_inf_rtn.py`):
  - The `ProcessReturn` Beam DoFn buffers prediction logs. For each buffered
    element, it pairs the last timestep of the transformed request with the
    model's response, position by position, and names each position by the
    replayed label list. It then puts back each element's window.
  - `CheckAnomalous` records for each feature the distance between input and
    output, and flags the feature when that distance exceeds a threshold.

The central results are:

- **List/dict alignment** (`FeatureAlignment.ListDictAlignment`). Under stated
  conditions, the label list computed at inference fails exactly when the
  training-time feature dict fails. Otherwise the list equals the dict's keys
  in sorted order.
- **Training/inference alignment**
  (`EncoderDecoderPreprocessing.TrainingInferenceAlignment`). Position p of
  the stacked training tensor holds the feature that inference calls
  `labels[p]`.
- **Pairing in process_result** (`ProcessEncdecInfRtn.ProcessReturn.ProcessResultPairing`).
  Every record pairs response position p with request position p under
  label p, and the last buffered element is dropped.

Python's `str` ordering is modelled code point by code point (a proper
prefix comes first), and it is proved to be a total order. `list.sort` is an
insertion sort, proved sorted and a permutation; `SortedUnique` shows it is
the only sorted permutation. Python dicts become Dafny maps. This is sound
because two distinct `_TIMESTAMP` features never derive the same name
(`DerivedNamesDisjoint`), so the order in which the dict is updated cannot
change its contents. TensorFlow operations are free constructors of a
symbolic `Tensors.Tensor` datatype: the model tracks which tensor ends up
where, not what is computed.

Where the code keeps state or loops over it, so does the model:
- The loops in `create_feature_list_from_list`, `create_feature_list_from_dict`,
  `preprocessing_fn`, `process_result` and `CheckAnomalous.process` are
  `while` loops with invariants.
- `ProcessReturn` is a class with a `batch` field.
- Some methods are proved equal to a specification function, and the
  properties are proved about that function: `CreateFeatureListFromList`,
  `CreateFeatureListFromDict`, `DensifyAll`, `ScaleAll`, `PreprocessingFn`,
  `ReconcileFeatures`, `ProcessResult` and `FinishBundle`.
- The others state their result or new state directly: `AddBackWindows`,
  `CheckAnomalous.Process`, `ProcessReturn.Process` and `StartBundle`.

Behaviour the code has and the model keeps:
- When `process` flushes an overfull buffer, it emits the buffered results
  and discards the incoming prediction log, which is never buffered.
- `process_result` returns one element fewer than it is given.
- The field `input_value` is read from the model's response and
  `output_value` from the transformed request.

## Model

| member | source | states |
|---|---|---|
| Strings.LexLeqReflexive | timeseries-streaming/timeseries-python-applications/MLPipeline/timeseries/utils/timeseries_transform_utils.py:51 | every string is ordered before or equal to itself |
| Strings.LexLeqTotal | timeseries-streaming/timeseries-python-applications/MLPipeline/timeseries/utils/timeseries_transform_utils.py:51 | any two strings are comparable |
| Strings.LexLeqAntisymmetric | timeseries-streaming/timeseries-python-applications/MLPipeline/timeseries/utils/timeseries_transform_utils.py:51 | two strings each ordered before the other are equal |
| Strings.LexLeqTransitive | timeseries-streaming/timeseries-python-applications/MLPipeline/timeseries/utils/timeseries_transform_utils.py:51 | the str ordering is transitive |
| Strings.Insert | timeseries-streaming/timeseries-python-applications/MLPipeline/timeseries/utils/timeseries_transform_utils.py:51 | inserting into a sorted list gives a sorted list holding one more copy of the element |
| Strings.InsertNoDup | timeseries-streaming/timeseries-python-applications/MLPipeline/timeseries/utils/timeseries_transform_utils.py:51 | inserting an absent element into a duplicate-free list keeps it duplicate-free |
| Strings.SortStrings | timeseries-streaming/timeseries-python-applications/MLPipeline/timeseries/utils/timeseries_transform_utils.py:51 | list.sort returns a sorted permutation of its input with the same members, duplicate-free when the input is |
| Strings.SortedUnique | timeseries-streaming/timeseries-python-applications/MLPipeline/timeseries/utils/timeseries_transform_utils.py:51 | two sorted lists with the same multiset are equal, so list.sort has exactly one possible result |
| Strings.StrictlySortedUnique | timeseries-streaming/timeseries-python-applications/MLPipeline/timeseries/encoder_decoder/encoder_decoder_preprocessing.py:52 | two sorted duplicate-free lists with the same members are equal |
| Strings.SortedKeys | timeseries-streaming/timeseries-python-applications/MLPipeline/timeseries/encoder_decoder/encoder_decoder_preprocessing.py:52 | sorted() of a dict lists each key exactly once, sorted, and the count equals the number of keys |
| Strings.SortStringsOfKeys | timeseries-streaming/timeseries-python-applications/MLPipeline/timeseries/encoder_decoder/encoder_decoder_preprocessing.py:52 | sorting a duplicate-free list gives the same result as sorted() of a dict with the same keys |
| TimeseriesTransformUtils.RemoveSuffix | timeseries-streaming/timeseries-python-applications/MLPipeline/timeseries/utils/timeseries_transform_utils.py:161-169 | a non-empty suffix the string ends with is dropped, so the result plus the suffix is the string; otherwise the string is unchanged |
| TimeseriesTransformUtils.TimeCoordinateFeaturesNames | timeseries-streaming/timeseries-python-applications/MLPipeline/timeseries/utils/timeseries_transform_utils.py:86-106 | ValueError for a feature not ending in `_TIMESTAMP`, then for a period outside MINUTE/HOUR/DAY/MONTH/YEAR; succeeds exactly otherwise, with the derived names |
| TimeseriesTransformUtils.DerivedNamesShape | timeseries-streaming/timeseries-python-applications/MLPipeline/timeseries/utils/timeseries_transform_utils.py:100-106 | 2k names for k periods: the sine of period i at position i and its cosine at k+i, built on the name without `_TIMESTAMP` |
| TimeseriesTransformUtils.CoordinateNameSuffix | timeseries-streaming/timeseries-python-applications/MLPipeline/timeseries/utils/timeseries_transform_utils.py:102-103 | every derived name ends in `-TIMESTAMP` and never in `_TIMESTAMP` |
| TimeseriesTransformUtils.DerivedNamesSuffix | timeseries-streaming/timeseries-python-applications/MLPipeline/timeseries/utils/timeseries_transform_utils.py:102-104 | no derived name is itself a timestamp feature |
| TimeseriesTransformUtils.CoordinateNameInjective | timeseries-streaming/timeseries-python-applications/MLPipeline/timeseries/utils/timeseries_transform_utils.py:102-103 | for supported periods, the name determines the base, the wave and the period |
| TimeseriesTransformUtils.DerivedNameForm | timeseries-streaming/timeseries-python-applications/MLPipeline/timeseries/utils/timeseries_transform_utils.py:102-104 | every derived name is `<base>-<wave>-<period>-TIMESTAMP` with wave SIN or COS for a requested period |
| TimeseriesTransformUtils.DerivedNamesDisjoint | timeseries-streaming/timeseries-python-applications/MLPipeline/timeseries/utils/timeseries_transform_utils.py:75-82 | two timestamp features share a derived name only if they are the same feature |
| TimeseriesTransformUtils.DerivedNamesNoDup | timeseries-streaming/timeseries-python-applications/MLPipeline/timeseries/utils/timeseries_transform_utils.py:102-104 | with no period requested twice, a feature's derived names are distinct |
| TimeseriesTransformUtils.KeepConfigured | timeseries-streaming/timeseries-python-applications/MLPipeline/timeseries/utils/timeseries_transform_utils.py:35 | the filter keeps exactly the features that are also configured, without adding duplicates |
| TimeseriesTransformUtils.RemoveFirst | timeseries-streaming/timeseries-python-applications/MLPipeline/timeseries/utils/timeseries_transform_utils.py:47 | list.remove fails exactly when the element is absent, and otherwise removes one copy |
| TimeseriesTransformUtils.RemoveFirstNoDup | timeseries-streaming/timeseries-python-applications/MLPipeline/timeseries/utils/timeseries_transform_utils.py:47 | on a duplicate-free list, list.remove leaves every other member and only those |
| TimeseriesTransformUtils.FeatureList | timeseries-streaming/timeseries-python-applications/MLPipeline/timeseries/utils/timeseries_transform_utils.py:26-52 | a successful result is sorted; with timestamp features disabled it always succeeds, and is a permutation of the configured features present |
| TimeseriesTransformUtils.CreateFeatureListFromList | timeseries-streaming/timeseries-python-applications/MLPipeline/timeseries/utils/timeseries_transform_utils.py:26-52 | the filter, the loop over config['features'] with its remove and extend calls, and the sort compute FeatureList, errors included |
| TimeseriesTransformUtils.ExpandErrPersists | timeseries-streaming/timeseries-python-applications/MLPipeline/timeseries/utils/timeseries_transform_utils.py:39-48 | once the loop raises, later configured features do not change the outcome |
| TimeseriesTransformUtils.DerivedFromMembers | timeseries-streaming/timeseries-python-applications/MLPipeline/timeseries/utils/timeseries_transform_utils.py:40-45 | the collected time features are exactly the derived names of the visited `_TIMESTAMP` features |
| TimeseriesTransformUtils.DerivedFromNoDup | timeseries-streaming/timeseries-python-applications/MLPipeline/timeseries/utils/timeseries_transform_utils.py:40-48 | the collected time features contain no duplicates when the configuration has none |
| TimeseriesTransformUtils.ExpandModelWithin | timeseries-streaming/timeseries-python-applications/MLPipeline/timeseries/utils/timeseries_transform_utils.py:41-47 | the loop only removes model features and never adds one |
| TimeseriesTransformUtils.ExpandOkState | timeseries-streaming/timeseries-python-applications/MLPipeline/timeseries/utils/timeseries_transform_utils.py:39-48 | after the loop, the model features are the kept ones minus the visited `_TIMESTAMP` ones, and the time features are their derived names |
| TimeseriesTransformUtils.ExpandSucceeds | timeseries-streaming/timeseries-python-applications/MLPipeline/timeseries/utils/timeseries_transform_utils.py:39-48 | the loop succeeds when every visited `_TIMESTAMP` feature is present and the periods are supported |
| TimeseriesTransformUtils.ExpandFailsUnsupported | timeseries-streaming/timeseries-python-applications/MLPipeline/timeseries/utils/timeseries_transform_utils.py:41-45 | one visited `_TIMESTAMP` feature with an unsupported period list raises that ValueError |
| TimeseriesTransformUtils.ExpandOnlyPeriodError | timeseries-streaming/timeseries-python-applications/MLPipeline/timeseries/utils/timeseries_transform_utils.py:39-48 | with unsupported periods, the period ValueError is the only error the loop can raise |
| TimeseriesTransformUtils.ExpandFailsMissing | timeseries-streaming/timeseries-python-applications/MLPipeline/timeseries/utils/timeseries_transform_utils.py:46-47 | a configured `_TIMESTAMP` feature missing from the input makes the loop raise (list.remove, unless the period check raises first) |
| TimeseriesTransformUtils.FeatureListWithTimestamps | timeseries-streaming/timeseries-python-applications/MLPipeline/timeseries/utils/timeseries_transform_utils.py:26-52 | when enabled, the labels are exactly the configured non-timestamp features present plus the derived names of every configured `_TIMESTAMP` feature, and no label ends in `_TIMESTAMP` |
| TimeseriesTransformUtils.FeatureListMissingTimestamp | timeseries-streaming/timeseries-python-applications/MLPipeline/timeseries/utils/timeseries_transform_utils.py:39-47 | when enabled, a configured `_TIMESTAMP` feature absent from the input is an error |
| TimeseriesTransformUtils.FeatureListUnsupported | timeseries-streaming/timeseries-python-applications/MLPipeline/timeseries/utils/timeseries_transform_utils.py:39-45 | when enabled, a configured `_TIMESTAMP` feature with unsupported periods raises the period ValueError |
| TimeseriesTransformUtils.FeatureListSucceeds | timeseries-streaming/timeseries-python-applications/MLPipeline/timeseries/utils/timeseries_transform_utils.py:26-52 | when enabled, the call succeeds if every configured `_TIMESTAMP` feature is present and the periods are supported |
| TimeseriesTransformUtils.TimeCoordinateFeatures | timeseries-streaming/timeseries-python-applications/MLPipeline/timeseries/utils/timeseries_transform_utils.py:109-120 | fails exactly when the name function fails, with the same error; otherwise maps each derived name, and nothing else, to its time coordinate of the timestamp |
| TimeseriesTransformUtils.FeatureDict | timeseries-streaming/timeseries-python-applications/MLPipeline/timeseries/utils/timeseries_transform_utils.py:55-83 | fails exactly when enabled, a configured `_TIMESTAMP` feature is present and the periods are unsupported; the error is that ValueError |
| TimeseriesTransformUtils.TimeCoordinateMapAdd | timeseries-streaming/timeseries-python-applications/MLPipeline/timeseries/utils/timeseries_transform_utils.py:75-82 | adding one timestamp feature's dict to the others adds exactly its own derived entries |
| TimeseriesTransformUtils.CreateFeatureListFromDict | timeseries-streaming/timeseries-python-applications/MLPipeline/timeseries/utils/timeseries_transform_utils.py:55-83 | the filtering comprehensions and the update loop compute FeatureDict, errors included |
| TimeseriesTransformUtils.TimeCoordinateMapAt | timeseries-streaming/timeseries-python-applications/MLPipeline/timeseries/utils/timeseries_transform_utils.py:75-82 | a derived name of a present timestamp feature ends up bound to that feature's time coordinate |
| TimeseriesTransformUtils.FeatureDictContents | timeseries-streaming/timeseries-python-applications/MLPipeline/timeseries/utils/timeseries_transform_utils.py:55-83 | every key is a configured input feature or a derived name of a configured `_TIMESTAMP` feature; kept features keep their tensors; when enabled no key ends in `_TIMESTAMP` and every derived name is present |
| FeatureAlignment.ListDictAlignment | timeseries-streaming/timeseries-python-applications/MLPipeline/timeseries/utils/timeseries_transform_utils.py:26-83 | under the alignment conditions, the list variant fails exactly when the dict variant does; otherwise the labels are the dict's keys in sorted order |
| EncoderDecoderPreprocessing.StackedModelInput | timeseries-streaming/timeseries-python-applications/MLPipeline/timeseries/encoder_decoder/encoder_decoder_preprocessing.py:52-56 | the stacked tensor has width equal to the number of model features, and its part p is the feature with the p-th sorted key |
| EncoderDecoderPreprocessing.DensifyAll | timeseries-streaming/timeseries-python-applications/MLPipeline/timeseries/encoder_decoder/encoder_decoder_preprocessing.py:38-40 | the first loop replaces every feature by its dense form under the same key |
| EncoderDecoderPreprocessing.ScaleAll | timeseries-streaming/timeseries-python-applications/MLPipeline/timeseries/encoder_decoder/encoder_decoder_preprocessing.py:45-47 | the second loop z-scores every feature except the `_TIMESTAMP` ones |
| EncoderDecoderPreprocessing.PreprocessingFn | timeseries-streaming/timeseries-python-applications/MLPipeline/timeseries/encoder_decoder/encoder_decoder_preprocessing.py:24-60 | preprocessing_fn computes Preprocessing, errors included |
| EncoderDecoderPreprocessing.ScalingExample | timeseries-streaming/timeseries-python-applications/MLPipeline/timeseries/encoder_decoder/encoder_decoder_preprocessing.py:38-47 | for a raw measurement `LOAD` and a raw timestamp `DATE_TIMESTAMP`, the loops z-score the measurement and leave the timestamp dense but unscaled |
| EncoderDecoderPreprocessing.ScalingRule | timeseries-streaming/timeseries-python-applications/MLPipeline/timeseries/encoder_decoder/encoder_decoder_preprocessing.py:38-47 | after both loops the keys are unchanged, and exactly the `_TIMESTAMP` features are dense but unscaled |
| EncoderDecoderPreprocessing.KeptFeatureValue | timeseries-streaming/timeseries-python-applications/MLPipeline/timeseries/encoder_decoder/encoder_decoder_preprocessing.py:45-52 | a configured raw feature kept in the model holds its scaled dense tensor (unscaled if `_TIMESTAMP`) |
| EncoderDecoderPreprocessing.DerivedFeatureValue | timeseries-streaming/timeseries-python-applications/MLPipeline/timeseries/encoder_decoder/encoder_decoder_preprocessing.py:50-52 | every other model feature is a derived name holding the time coordinate of an unscaled configured `_TIMESTAMP` feature |
| EncoderDecoderPreprocessing.PreprocessingOutput | timeseries-streaming/timeseries-python-applications/MLPipeline/timeseries/encoder_decoder/encoder_decoder_preprocessing.py:50-60 | the output has exactly the keys `Float32` and `LABEL`, bound to one tensor shaped [-1, timesteps, model features] that stacks the model features in sorted order |
| EncoderDecoderPreprocessing.TrainingInferenceAlignment | timeseries-streaming/timeseries-python-applications/MLPipeline/timeseries/encoder_decoder/encoder_decoder_preprocessing.py:24-60 | under the alignment conditions, preprocessing fails exactly when inference's label list does; position p of the stacked tensor holds the feature inference names labels[p] |
| ProcessEncdecInfRtn.LastIndex | timeseries-streaming/timeseries-python-applications/MLPipeline/timeseries/encoder_decoder/transforms/process_encdec_inf_rtn.py:149-154 | the position that wins for a label is the last one carrying it |
| ProcessEncdecInfRtn.FeatureResultsAt | timeseries-streaming/timeseries-python-applications/MLPipeline/timeseries/encoder_decoder/transforms/process_encdec_inf_rtn.py:148-163 | with distinct labels, there is one entry per label; label p pairs response position p (input_value) with request position p (output_value); the raw array is attached exactly when the label does not end in `-TIMESTAMP` |
| ProcessEncdecInfRtn.ReconcilePairs | timeseries-streaming/timeseries-python-applications/MLPipeline/timeseries/encoder_decoder/transforms/process_encdec_inf_rtn.py:136-166 | every record process_result builds carries the parsed span timestamps and pairs positions as above |
| ProcessEncdecInfRtn.AddBackWindows | timeseries-streaming/timeseries-python-applications/MLPipeline/timeseries/encoder_decoder/transforms/process_encdec_inf_rtn.py:170-175 | record i gets element i's timestamp and windows back, for every record but the last, so there are max(n-1, 0) results |
| ProcessEncdecInfRtn.ReconcileFeatures | timeseries-streaming/timeseries-python-applications/MLPipeline/timeseries/encoder_decoder/transforms/process_encdec_inf_rtn.py:148-163 | the inner loop raises IndexError exactly when the last timestep has more positions than labels or response values; otherwise it builds the feature results |
| ProcessEncdecInfRtn.ProcessReturn.constructor | timeseries-streaming/timeseries-python-applications/MLPipeline/timeseries/encoder_decoder/transforms/process_encdec_inf_rtn.py:40-44 | keeps the config and the batching size, and starts with an empty buffer |
| ProcessEncdecInfRtn.ProcessReturn.WithDefaultBatching | timeseries-streaming/timeseries-python-applications/MLPipeline/timeseries/encoder_decoder/transforms/process_encdec_inf_rtn.py:40-44 | without a batching size, the buffer bound uses the default of 1000 and the buffer starts empty |
| ProcessEncdecInfRtn.ProcessReturn.StartBundle | timeseries-streaming/timeseries-python-applications/MLPipeline/timeseries/encoder_decoder/transforms/process_encdec_inf_rtn.py:50-51 | empties the buffer |
| ProcessEncdecInfRtn.ProcessReturn.FinishBundle | timeseries-streaming/timeseries-python-applications/MLPipeline/timeseries/encoder_decoder/transforms/process_encdec_inf_rtn.py:53-55 | emits process_result of the buffer |
| ProcessEncdecInfRtn.ProcessReturn.Process | timeseries-streaming/timeseries-python-applications/MLPipeline/timeseries/encoder_decoder/transforms/process_encdec_inf_rtn.py:57-72 | more than one example string raises and leaves the buffer alone; an overfull buffer is reconciled, emitted and cleared, and the incoming log is lost; otherwise the log is buffered with its timestamp and window; the buffer never exceeds batching size + 1 |
| ProcessEncdecInfRtn.ProcessReturn.ProcessResult | timeseries-streaming/timeseries-python-applications/MLPipeline/timeseries/encoder_decoder/transforms/process_encdec_inf_rtn.py:74-175 | the collection loop, the per-element loop and AddBackWindows compute ProcessResultSpec: IndexError for a missing example string or a short response, the label-list error propagated, otherwise one windowed record per element but the last |
| ProcessEncdecInfRtn.ProcessReturn.ProcessResultPairing | timeseries-streaming/timeseries-python-applications/MLPipeline/timeseries/encoder_decoder/transforms/process_encdec_inf_rtn.py:74-175 | output i keeps element i's timestamp and windows; there are max(n-1, 0) outputs; each record pairs positions under the replayed labels |
| ProcessEncdecInfRtn.Score | timeseries-streaming/timeseries-python-applications/MLPipeline/timeseries/encoder_decoder/transforms/process_encdec_inf_rtn.py:194-199 | diff is the non-negative distance between input and output; anomaly holds exactly when they differ by strictly more than the threshold in either direction; other fields are unchanged |
| ProcessEncdecInfRtn.CheckAnomalous.constructor | timeseries-streaming/timeseries-python-applications/MLPipeline/timeseries/encoder_decoder/transforms/process_encdec_inf_rtn.py:184-186 | keeps the threshold |
| ProcessEncdecInfRtn.CheckAnomalous.WithDefaultThreshold | timeseries-streaming/timeseries-python-applications/MLPipeline/timeseries/encoder_decoder/transforms/process_encdec_inf_rtn.py:184-186 | without a threshold, the default 0.05 is used |
| ProcessEncdecInfRtn.CheckAnomalous.Process | timeseries-streaming/timeseries-python-applications/MLPipeline/timeseries/encoder_decoder/transforms/process_encdec_inf_rtn.py:188-201 | the output holds both span timestamps and every feature entry scored, and nothing else; a feature named like a span key replaces it |

## Left out

- Time-coordinate numerics (`create_time_coordinate` and the MINUTE ... YEAR
  constants): a derived feature is the symbolic tensor `TimeCoordinate(name, timestamp)`.
  Only names built from supported periods reach it, so its fall-through `None` never arises.
- TensorFlow arithmetic (`tf.sparse.to_dense`, `tft.scale_to_z_score`, `tf.stack`,
  `tf.reshape`, float32/float64 casts) is modelled as free constructors, not as numbers.
- TensorFlow's own failures are not modelled. In particular, `tf.stack` raises on an
  empty list, which happens when no configured feature is present. There the model
  returns `Ok` with a stack of width 0.
- What `setup()` loads (the TFTransformOutput, its transform layer and raw feature
  spec, and `tf.io.parse_example`) becomes the class's constant fields
  `rawFeatureKeys` and `parseExample`, which the caller supplies.
- `tf.io.parse_tensor`: each prediction log carries its response already parsed and
  indexed at 0. The IndexError on an empty response tensor is not modelled.
- Span metadata: the first value of each `METADATA_SPAN_*_TS` row is part of
  `ParsedExample`. The KeyError when the metadata is absent, and the IndexError on
  an empty metadata row, are not modelled. `datetime.fromtimestamp` is not modelled;
  timestamps stay as epoch milliseconds.
- `raw_data_array` is the symbolic `RawDataArray(feature, batch position)`, not the
  printed numpy row.
- Python floats are modelled as reals: `abs` and the comparison with the threshold
  are exact, with no rounding.
- numpy arrays are sequences of sequences, so ragged rows are allowed where numpy
  has a uniform shape.
- Beam: windows are opaque values. `process` and `finish_bundle` return their
  emitted list instead of yielding it lazily. The buffer starts empty at
  construction, whereas Python only creates it in `start_bundle`.
- CheckAnomalous.Process: the Python code updates the input's feature dicts in place
  (aliasing). The model builds new values instead, so the input record is unchanged.
- Python dict iteration order is not modelled. Maps are enough because derived
  names never collide, so the order of the updates cannot matter.
- The config dict's missing-key KeyErrors are not modelled: the config is a record
  with every field present.
- FeatureAlignment.ListDictAlignment and EncoderDecoderPreprocessing.TrainingInferenceAlignment
  hold under these conditions:
  - the raw feature names are distinct;
  - the configured features are distinct, and so are the periods;
  - when timestamp features are enabled, every configured `_TIMESTAMP` feature is present;
  - no present configured feature is named like a derived name.
- ProcessEncdecInfRtn.ProcessReturn.ProcessResultPairing assumes the replayed
  labels are distinct. Otherwise a later position overwrites an earlier one,
  which `LastIndex` captures.
- `encoder_decoder_model.py` is not part of this model.
