/** Post-inference reconciliation (process_encdec_inf_rtn.py): ProcessReturn
    buffers prediction logs and, per buffered batch, pairs the last timestep of
    each transformed request with the model's response, labelling positions by
    the replayed feature list; CheckAnomalous flags every feature whose input
    and output differ by more than a threshold. */
module ProcessEncdecInfRtn {
  import opened Wrappers
  import opened Strings
  import opened TimeseriesTransformUtils

  const DEFAULT_BATCHING_SIZE: int := 1000
  const DEFAULT_THRESHOLD: real := 0.05
  const SPAN_START_KEY: string := "span_start_timestamp"
  const SPAN_END_KEY: string := "span_end_timestamp"

  /** A Beam window, kept opaque. */
  datatype Window = Window(id: int)

  /** A Beam WindowedValue: a value with its event timestamp and its windows. */
  datatype WindowedValue<T> = WindowedValue(value: T, timestamp: int, windows: seq<Window>) {
    /** WindowedValue.with_value: the same timestamp and windows around a new value. */
    function WithValue<U>(v: U): WindowedValue<U> {
      WindowedValue(v, timestamp, windows)
    }
  }

  /** A PredictionLog, reduced to what the reconciler reads: the request's
      serialized example strings and the response tensor `output_0`, already
      parsed and indexed at 0 ([timestep][model feature]). */
  datatype PredictionLog = PredictionLog(exampleStrings: seq<string>, response: seq<seq<real>>)

  /** What parsing one serialized example against the raw feature spec and
      applying the transform layer yield for it: its row of the `LABEL` tensor
      ([timestep][model feature]) and the first values of its two span
      metadata features, in epoch milliseconds. */
  datatype ParsedExample = ParsedExample(transformed: seq<seq<real>>, spanStartMs: int, spanEndMs: int)

  /** The printed dense row `batchPos` of the parsed raw feature `feature`. */
  datatype RawDataArray = RawDataArray(feature: string, batchPos: nat)

  /** One entry of `feature_results`, with the fields CheckAnomalous adds. */
  datatype FeatureResult = FeatureResult(
    inputValue: real,
    outputValue: real,
    rawDataArray: Option<RawDataArray>,
    diff: Option<real>,
    anomaly: Option<bool>)

  /** The record process_result builds per batch element. */
  datatype Reconciled = Reconciled(spanStartMs: int, spanEndMs: int, featureResults: map<string, FeatureResult>)

  datatype Error =
    | MultipleExampleStrings
    | IndexError
    | FeatureListError(cause: ValueError)

  function Max(a: int, b: int): int {
    if a < b then b else a
  }

  /** The last position of x in s. */
  function LastIndex(s: seq<string>, x: string): (p: nat)
    requires x in s
    ensures p < |s| && s[p] == x
    ensures forall q :: p < q < |s| ==> s[q] != x
    decreases |s|
  {
    if s[|s| - 1] == x then |s| - 1
    else
      assert x in s[..|s| - 1] by {
        var j :| 0 <= j < |s| && s[j] == x;
        assert s[..|s| - 1][j] == x;
      }
      LastIndex(s[..|s| - 1], x)
  }

  /** The entry for `name` built from model-feature position p; the raw data
      array is attached only to labels that do not end with `-TIMESTAMP`. */
  function Entry(name: string, inputValue: real, outputValue: real, batchPos: nat): FeatureResult {
    FeatureResult(inputValue, outputValue,
                  if EndsWith(name, DERIVED_SUFFIX) then None else Some(RawDataArray(name, batchPos)),
                  None, None)
  }

  /** `feature_results` after the loop over model-feature positions: one entry
      per name, built from the last position carrying that name. */
  function FeatureResults(labels: seq<string>, inputRow: seq<real>, outputRow: seq<real>, batchPos: nat): map<string, FeatureResult>
    requires |labels| <= |inputRow| && |labels| <= |outputRow|
  {
    map l | l in labels :: Entry(l, inputRow[LastIndex(labels, l)], outputRow[LastIndex(labels, l)], batchPos)
  }

  /** The record for one batch element (the body of the loop over the
      `LABEL` rows): IndexError when the transformed example has no timestep,
      when the response has fewer timesteps, or when the last timestep has
      more model features than there are labels or response values. */
  function Reconcile(parsed: ParsedExample, response: seq<seq<real>>, labels: seq<string>, batchPos: nat): Result<Reconciled, Error> {
    if |parsed.transformed| == 0 then Err(IndexError)
    else
      var last := |parsed.transformed| - 1;
      if last >= |response| then Err(IndexError)
      else
        var width := |parsed.transformed[last]|;
        if width > |labels| || width > |response[last]| then Err(IndexError)
        else
          Ok(Reconciled(parsed.spanStartMs, parsed.spanEndMs,
                        FeatureResults(labels[..width], response[last], parsed.transformed[last], batchPos)))
  }

  /** With duplicate-free labels, name p's entry pairs position p of the
      response (`input_value`) with position p of the transformed request
      (`output_value`), and carries the raw data array exactly when the name
      does not end with `-TIMESTAMP`; there is no other entry. */
  lemma FeatureResultsAt(labels: seq<string>, inputRow: seq<real>, outputRow: seq<real>, batchPos: nat)
    requires NoDup(labels)
    requires |labels| <= |inputRow| && |labels| <= |outputRow|
    ensures var r := FeatureResults(labels, inputRow, outputRow, batchPos);
      && (forall l :: l in r <==> l in labels)
      && (forall p :: 0 <= p < |labels| ==>
            && r[labels[p]].inputValue == inputRow[p]
            && r[labels[p]].outputValue == outputRow[p]
            && (r[labels[p]].rawDataArray.Some? <==> !EndsWith(labels[p], DERIVED_SUFFIX))
            && r[labels[p]].diff.None? && r[labels[p]].anomaly.None?)
  {
    forall p | 0 <= p < |labels| ensures LastIndex(labels, labels[p]) == p {
      var q := LastIndex(labels, labels[p]);
    }
  }

  lemma LastIndexExtend(s: seq<string>, x: string, y: string)
    requires y in s && y != x
    ensures LastIndex(s + [x], y) == LastIndex(s, y)
  {
    assert (s + [x])[..|s|] == s;
  }

  /** Adding a position to the labels adds (or replaces) exactly that
      label's entry. */
  lemma FeatureResultsSnoc(labels: seq<string>, name: string, inputRow: seq<real>, outputRow: seq<real>, batchPos: nat)
    requires |labels| < |inputRow| && |labels| < |outputRow|
    ensures FeatureResults(labels + [name], inputRow, outputRow, batchPos)
         == FeatureResults(labels, inputRow, outputRow, batchPos)[name := Entry(name, inputRow[|labels|], outputRow[|labels|], batchPos)]
  {
    var a := FeatureResults(labels + [name], inputRow, outputRow, batchPos);
    var b := FeatureResults(labels, inputRow, outputRow, batchPos)[name := Entry(name, inputRow[|labels|], outputRow[|labels|], batchPos)];
    assert a.Keys == b.Keys;
    forall l | l in a ensures a[l] == b[l] {
      if l != name {
        LastIndexExtend(labels, name, l);
      }
    }
  }

  /** What one reconciled record promises: its span timestamps are the
      parsed example's, its keys are the labels of the last timestep's
      positions, and label p pairs position p of the response's last timestep
      (`input_value`) with position p of the transformed request's last
      timestep (`output_value`). */
  ghost predicate Pairs(parsed: ParsedExample, response: seq<seq<real>>, labels: seq<string>, rec: Reconciled)
  {
    var last := |parsed.transformed| - 1;
    && 0 <= last < |response|
    && rec.spanStartMs == parsed.spanStartMs && rec.spanEndMs == parsed.spanEndMs
    && |parsed.transformed[last]| <= |labels| && |parsed.transformed[last]| <= |response[last]|
    && (forall l :: l in rec.featureResults <==> l in labels[..|parsed.transformed[last]|])
    && forall p :: 0 <= p < |parsed.transformed[last]| ==>
         && labels[p] in rec.featureResults
         && rec.featureResults[labels[p]].inputValue == response[last][p]
         && rec.featureResults[labels[p]].outputValue == parsed.transformed[last][p]
         && (rec.featureResults[labels[p]].rawDataArray.Some? <==> !EndsWith(labels[p], DERIVED_SUFFIX))
  }

  /** With duplicate-free labels, every record Reconcile produces pairs
      positions as Pairs states. */
  lemma ReconcilePairs(parsed: ParsedExample, response: seq<seq<real>>, labels: seq<string>, batchPos: nat)
    requires NoDup(labels)
    requires Reconcile(parsed, response, labels, batchPos).Ok?
    ensures Pairs(parsed, response, labels, Reconcile(parsed, response, labels, batchPos).value)
  {
    var last := |parsed.transformed| - 1;
    var width := |parsed.transformed[last]|;
    assert NoDup(labels[..width]);
    FeatureResultsAt(labels[..width], response[last], parsed.transformed[last], batchPos);
  }

  /** The buffering reconciler.  The constant fields stand for the
      constructor's config and batching size and for what setup() loads: the
      raw feature names of the transform output and, per serialized example,
      what parsing and the transform layer give for it. */
  class ProcessReturn {
    const config: Config
    const batchingSize: int
    const rawFeatureKeys: seq<string>
    const parseExample: string -> ParsedExample
    var batch: seq<WindowedValue<PredictionLog>>

    /** The buffer never holds more than batchingSize + 1 elements. */
    ghost predicate Valid()
      reads this
    {
      |batch| <= Max(batchingSize + 1, 0)
    }

    constructor(config: Config, batchingSize: int, rawFeatureKeys: seq<string>, parseExample: string -> ParsedExample)
      ensures this.config == config && this.batchingSize == batchingSize
      ensures this.rawFeatureKeys == rawFeatureKeys && this.parseExample == parseExample
      ensures Valid() && batch == []
    {
      this.config := config;
      this.batchingSize := batchingSize;
      this.rawFeatureKeys := rawFeatureKeys;
      this.parseExample := parseExample;
      batch := [];
    }

    /** ProcessReturn(config) with the default batching size. */
    constructor WithDefaultBatching(config: Config, rawFeatureKeys: seq<string>, parseExample: string -> ParsedExample)
      ensures this.config == config && batchingSize == DEFAULT_BATCHING_SIZE
      ensures this.rawFeatureKeys == rawFeatureKeys && this.parseExample == parseExample
      ensures Valid() && batch == []
    {
      this.config := config;
      batchingSize := DEFAULT_BATCHING_SIZE;
      this.rawFeatureKeys := rawFeatureKeys;
      this.parseExample := parseExample;
      batch := [];
    }

    /** What process_result returns (or raises) for a buffered batch: every
        element needs an example string, the labels are the replayed feature
        list, and element i's window and timestamp wrap record i for every
        element but the last. */
    function ProcessResultSpec(element: seq<WindowedValue<PredictionLog>>): Result<seq<WindowedValue<Reconciled>>, Error> {
      if exists i :: 0 <= i < |element| && |element[i].value.exampleStrings| == 0 then Err(IndexError)
      else
        match FeatureList(rawFeatureKeys, config)
        case Err(e) => Err(FeatureListError(e))
        case Ok(labels) =>
          if exists i :: 0 <= i < |element| && RecordOf(element, labels, i).Err? then Err(IndexError)
          else Ok(seq(Max(|element| - 1, 0), i requires 0 <= i < Max(|element| - 1, 0) =>
                        element[i].WithValue(RecordOf(element, labels, i).value)))
    }

    function RecordOf(element: seq<WindowedValue<PredictionLog>>, labels: seq<string>, i: nat): Result<Reconciled, Error>
      requires i < |element| && |element[i].value.exampleStrings| > 0
    {
      Reconcile(parseExample(element[i].value.exampleStrings[0]), element[i].value.response, labels, i)
    }

    /** process_result yields one value fewer than it is given: output i
        carries element i's window and timestamp around a record that pairs
        element i's response with its transformed request position by
        position (Pairs); the last element is dropped. */
    lemma ProcessResultPairing(element: seq<WindowedValue<PredictionLog>>)
      requires ProcessResultSpec(element).Ok?
      requires NoDup(FeatureList(rawFeatureKeys, config).value)
      ensures var out := ProcessResultSpec(element).value;
        && |out| == Max(|element| - 1, 0)
        && forall i :: 0 <= i < |out| ==>
             && out[i].timestamp == element[i].timestamp && out[i].windows == element[i].windows
             && Pairs(parseExample(element[i].value.exampleStrings[0]), element[i].value.response,
                      FeatureList(rawFeatureKeys, config).value, out[i].value)
    {
      var out := ProcessResultSpec(element).value;
      var labels := FeatureList(rawFeatureKeys, config).value;
      forall i | 0 <= i < |out|
        ensures Pairs(parseExample(element[i].value.exampleStrings[0]), element[i].value.response, labels, out[i].value)
      {
        assert RecordOf(element, labels, i).Ok?;
        ReconcilePairs(parseExample(element[i].value.exampleStrings[0]), element[i].value.response, labels, i);
      }
    }

    /** When every element has an example string and reconciles to the
        given records, process_result returns the records rewindowed. */
    lemma ProcessResultSpecOk(element: seq<WindowedValue<PredictionLog>>, records: seq<Reconciled>, out: seq<WindowedValue<Reconciled>>)
      requires FeatureList(rawFeatureKeys, config).Ok?
      requires |records| == |element|
      requires forall j :: 0 <= j < |element| ==>
                 |element[j].value.exampleStrings| > 0
                 && RecordOf(element, FeatureList(rawFeatureKeys, config).value, j) == Ok(records[j])
      requires |out| == Max(|element| - 1, 0)
      requires forall j :: 0 <= j < |out| ==> out[j] == element[j].WithValue(records[j])
      ensures ProcessResultSpec(element) == Ok(out)
    {
      var spec := ProcessResultSpec(element);
      assert spec.Ok?;
      assert spec.value == out;
    }

    method StartBundle()
      modifies this
      ensures Valid() && batch == []
    {
      batch := [];
    }

    /** finish_bundle: emits process_result of whatever is buffered. */
    method FinishBundle() returns (r: Result<seq<WindowedValue<Reconciled>>, Error>)
      ensures r == ProcessResultSpec(batch)
    {
      r := ProcessResult(batch);
    }

    /** process: a log with more than one example string raises before the
        buffer is touched; an overfull buffer (more than batchingSize elements)
        is reconciled, emitted and cleared, and the incoming element is lost;
        otherwise the element is buffered with its timestamp and window and
        nothing is emitted. */
    method Process(element: PredictionLog, window: Window, timestamp: int) returns (r: Result<seq<WindowedValue<Reconciled>>, Error>)
      requires Valid()
      modifies this
      ensures Valid()
      ensures |element.exampleStrings| > 1 ==> r == Err(MultipleExampleStrings) && batch == old(batch)
      ensures |element.exampleStrings| <= 1 && |old(batch)| > batchingSize ==>
                r == ProcessResultSpec(old(batch)) && batch == (if r.Ok? then [] else old(batch))
      ensures |element.exampleStrings| <= 1 && |old(batch)| <= batchingSize ==>
                r == Ok([]) && batch == old(batch) + [WindowedValue(element, timestamp, [window])]
    {
      if |element.exampleStrings| > 1 {
        return Err(MultipleExampleStrings);
      }
      if |batch| > batchingSize {
        r := ProcessResult(batch);
        if r.Err? {
          return;
        }
        batch := [];
      } else {
        batch := batch + [WindowedValue(element, timestamp, [window])];
        r := Ok([]);
      }
    }

    /** process_result, with its loops over the batch, over the model-feature
        positions of each element's last timestep, and over the positions
        that get their window back. */
    method ProcessResult(element: seq<WindowedValue<PredictionLog>>) returns (r: Result<seq<WindowedValue<Reconciled>>, Error>)
      ensures r == ProcessResultSpec(element)
    {
      var elementValue := seq(|element|, i requires 0 <= i < |element| => element[i].value);
      var requestInputs: seq<string> := [];
      var requestOutputs: seq<seq<seq<real>>> := [];
      var k := 0;
      while k < |elementValue|
        invariant 0 <= k <= |elementValue|
        invariant |requestInputs| == k && |requestOutputs| == k
        invariant forall j :: 0 <= j < k ==>
                    |elementValue[j].exampleStrings| > 0
                    && requestInputs[j] == elementValue[j].exampleStrings[0]
                    && requestOutputs[j] == elementValue[j].response
      {
        if |elementValue[k].exampleStrings| == 0 {
          return Err(IndexError);
        }
        requestInputs := requestInputs + [elementValue[k].exampleStrings[0]];
        requestOutputs := requestOutputs + [elementValue[k].response];
        k := k + 1;
      }
      assert |elementValue| == |element| && forall j :: 0 <= j < |element| ==> elementValue[j] == element[j].value;
      assert forall j :: 0 <= j < |element| ==>
        && |element[j].value.exampleStrings| > 0
        && requestInputs[j] == element[j].value.exampleStrings[0]
        && requestOutputs[j] == element[j].value.response;
      var batchedExample := seq(|requestInputs|, j requires 0 <= j < |requestInputs| => parseExample(requestInputs[j]));

      var labelsResult := CreateFeatureListFromList(rawFeatureKeys, config);
      if labelsResult.Err? {
        return Err(FeatureListError(labelsResult.error));
      }
      var featureLabels := labelsResult.value;

      var processedInputs: seq<Reconciled> := [];
      var batchPos := 0;
      while batchPos < |batchedExample|
        invariant 0 <= batchPos <= |batchedExample| && |processedInputs| == batchPos
        invariant forall j :: 0 <= j < batchPos ==>
                    RecordOf(element, featureLabels, j) == Ok(processedInputs[j])
      {
        var batchInput := batchedExample[batchPos].transformed;
        assert batchedExample[batchPos] == parseExample(element[batchPos].value.exampleStrings[0]);
        if |batchInput| == 0 {
          assert RecordOf(element, featureLabels, batchPos).Err?;
          return Err(IndexError);
        }
        var lastTimestepPos := |batchInput| - 1;
        var results := requestOutputs[batchPos];
        var lastTimestepOutput := batchInput[lastTimestepPos];
        if lastTimestepPos >= |results| {
          assert RecordOf(element, featureLabels, batchPos).Err?;
          return Err(IndexError);
        }
        var lastTimestepInput := results[lastTimestepPos];
        var featureResults := ReconcileFeatures(featureLabels, lastTimestepInput, lastTimestepOutput, batchPos);
        if featureResults.None? {
          assert RecordOf(element, featureLabels, batchPos).Err?;
          return Err(IndexError);
        }
        processedInputs := processedInputs + [Reconciled(batchedExample[batchPos].spanStartMs,
                                                         batchedExample[batchPos].spanEndMs,
                                                         featureResults.value)];
        batchPos := batchPos + 1;
      }

      var windowedValue := AddBackWindows(element, processedInputs);
      ProcessResultSpecOk(element, processedInputs, windowedValue);
      return Ok(windowedValue);
    }
  }

  /** The last loop of process_result: record i goes back into element i's
      timestamp and windows, for every position but the last. */
  method AddBackWindows<T>(element: seq<WindowedValue<T>>, processedInputs: seq<Reconciled>)
    returns (windowedValue: seq<WindowedValue<Reconciled>>)
    requires |processedInputs| <= |element|
    ensures |windowedValue| == Max(|processedInputs| - 1, 0)
    ensures forall j :: 0 <= j < |windowedValue| ==>
              windowedValue[j].value == processedInputs[j]
              && windowedValue[j].timestamp == element[j].timestamp
              && windowedValue[j].windows == element[j].windows
  {
    windowedValue := [];
    var inputPos := 0;
    while inputPos < |processedInputs| - 1
      invariant 0 <= inputPos <= Max(|processedInputs| - 1, 0) && |windowedValue| == inputPos
      invariant forall j :: 0 <= j < inputPos ==> windowedValue[j] == element[j].WithValue(processedInputs[j])
    {
      windowedValue := windowedValue + [element[inputPos].WithValue(processedInputs[inputPos])];
      inputPos := inputPos + 1;
    }
  }

  /** The inner loop of process_result: one entry per model-feature position
      of the last timestep, keyed by the name at that position; None when a
      position has no name or no response value (IndexError). */
  method ReconcileFeatures(featureLabels: seq<string>, lastTimestepInput: seq<real>, lastTimestepOutput: seq<real>, batchPos: nat)
    returns (r: Option<map<string, FeatureResult>>)
    ensures r.None? <==> |lastTimestepOutput| > |featureLabels| || |lastTimestepOutput| > |lastTimestepInput|
    ensures r.Some? ==> r.value == FeatureResults(featureLabels[..|lastTimestepOutput|], lastTimestepInput, lastTimestepOutput, batchPos)
  {
    var featureResults: map<string, FeatureResult> := map[];
    var p := 0;
    while p < |lastTimestepOutput|
      invariant 0 <= p <= |lastTimestepOutput| && p <= |featureLabels| && p <= |lastTimestepInput|
      invariant featureResults == FeatureResults(featureLabels[..p], lastTimestepInput, lastTimestepOutput, batchPos)
    {
      if p >= |featureLabels| || p >= |lastTimestepInput| {
        return None;
      }
      var name := featureLabels[p];
      FeatureResultsSnoc(featureLabels[..p], name, lastTimestepInput, lastTimestepOutput, batchPos);
      assert featureLabels[..p + 1] == featureLabels[..p] + [name];
      var entry := FeatureResult(lastTimestepInput[p], lastTimestepOutput[p], None, None, None);
      if !EndsWith(name, DERIVED_SUFFIX) {
        entry := entry.(rawDataArray := Some(RawDataArray(name, batchPos)));
      }
      featureResults := featureResults[name := entry];
      p := p + 1;
    }
    return Some(featureResults);
  }

  function Abs(x: real): real {
    if x < 0.0 then -x else x
  }

  /** One feature entry after CheckAnomalous: `diff` is the distance between
      input and output, and `anomaly` holds exactly when the two differ by
      more than the threshold (strictly); nothing else changes. */
  function Score(v: FeatureResult, threshold: real): (s: FeatureResult)
    ensures s.diff.Some? && s.diff.value >= 0.0
    ensures s.diff.value == if v.inputValue >= v.outputValue then v.inputValue - v.outputValue
                            else v.outputValue - v.inputValue
    ensures s.anomaly == Some(v.inputValue - v.outputValue > threshold || v.outputValue - v.inputValue > threshold)
    ensures s.inputValue == v.inputValue && s.outputValue == v.outputValue && s.rawDataArray == v.rawDataArray
  {
    var diff := Abs(v.inputValue - v.outputValue);
    v.(diff := Some(diff), anomaly := Some(diff > threshold))
  }

  /** A value of CheckAnomalous's output dict. */
  datatype OutputField = SpanTimestamp(ms: int) | Scored(result: FeatureResult)

  /** The threshold classifier. */
  class CheckAnomalous {
    const threshold: real

    constructor(threshold: real)
      ensures this.threshold == threshold
    {
      this.threshold := threshold;
    }

    /** CheckAnomalous() with the default threshold. */
    constructor WithDefaultThreshold()
      ensures threshold == DEFAULT_THRESHOLD
    {
      threshold := DEFAULT_THRESHOLD;
    }

    /** process: both span timestamps, then every feature entry scored; the
        output holds nothing else (a feature named like a span key replaces it). */
    method Process(element: Reconciled) returns (result: map<string, OutputField>)
      ensures result.Keys == element.featureResults.Keys + {SPAN_START_KEY, SPAN_END_KEY}
      ensures forall k :: k in element.featureResults ==>
                result[k] == Scored(Score(element.featureResults[k], threshold))
      ensures SPAN_START_KEY !in element.featureResults ==> result[SPAN_START_KEY] == SpanTimestamp(element.spanStartMs)
      ensures SPAN_END_KEY !in element.featureResults ==> result[SPAN_END_KEY] == SpanTimestamp(element.spanEndMs)
    {
      result := map[SPAN_START_KEY := SpanTimestamp(element.spanStartMs), SPAN_END_KEY := SpanTimestamp(element.spanEndMs)];
      var todo := element.featureResults.Keys;
      while todo != {}
        invariant todo <= element.featureResults.Keys
        invariant result.Keys == (element.featureResults.Keys - todo) + {SPAN_START_KEY, SPAN_END_KEY}
        invariant forall k :: k in element.featureResults.Keys - todo ==>
                    result[k] == Scored(Score(element.featureResults[k], threshold))
        invariant SPAN_START_KEY !in element.featureResults.Keys - todo ==>
                    result[SPAN_START_KEY] == SpanTimestamp(element.spanStartMs)
        invariant SPAN_END_KEY !in element.featureResults.Keys - todo ==>
                    result[SPAN_END_KEY] == SpanTimestamp(element.spanEndMs)
        decreases todo
      {
        var k :| k in todo;
        var v := element.featureResults[k];
        result := result[k := Scored(Score(v, threshold))];
        todo := todo - {k};
      }
    }
  }
}
