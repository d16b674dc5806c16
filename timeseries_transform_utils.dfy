/** Feature-name derivation for the timeseries model (timeseries_transform_utils.py):
    which features the model uses, the sine/cosine features derived from each
    `_TIMESTAMP` feature, and the two variants that compute the model's feature
    set, one over a list of feature names (replayed at inference time) and one
    over a dict of feature tensors (used at training time). */
module TimeseriesTransformUtils {
  import opened Wrappers
  import opened Strings
  import opened Tensors

  /** Suffix that marks a raw timestamp feature. */
  const TIMESTAMP_SUFFIX: string := "_TIMESTAMP"
  /** Suffix of every feature name derived from a timestamp (a hyphen, not an underscore). */
  const DERIVED_SUFFIX: string := "-TIMESTAMP"

  /** The model's custom config; the Python dict's keys become fields. */
  datatype Config = Config(
    timesteps: int,
    features: seq<string>,
    enableTimestampFeatures: bool,
    timeFeatures: seq<string>)

  /** The ValueErrors the code raises. */
  datatype ValueError =
    | NotATimestampFeature(feature: string)
    | UnsupportedTimeFeatures(requested: seq<string>)
    | NotInList(feature: string)

  /** The periods accepted in config['time_features']. */
  predicate IsPeriod(p: string) {
    p == "MINUTE" || p == "HOUR" || p == "DAY" || p == "MONTH" || p == "YEAR"
  }

  predicate SupportedTimeFeatures(requested: seq<string>) {
    forall t :: t in requested ==> IsPeriod(t)
  }

  predicate IsWave(w: string) {
    w == "SIN" || w == "COS"
  }

  /** removesuffix: drops a non-empty suffix the string ends with, and is the
      identity otherwise (also for the empty suffix). */
  function RemoveSuffix(s: string, suffix: string): (r: string)
    ensures |suffix| > 0 && EndsWith(s, suffix) ==> r + suffix == s
    ensures !(|suffix| > 0 && EndsWith(s, suffix)) ==> r == s
  {
    if |suffix| > 0 && EndsWith(s, suffix) then s[..|s| - |suffix|] else s
  }

  /** The name `<base>-<wave>-<period>-TIMESTAMP` of one derived time coordinate. */
  function CoordinateName(base: string, wave: string, period: string): string {
    base + "-" + wave + "-" + period + "-TIMESTAMP"
  }

  /** All sine names, in config order, followed by all cosine names. */
  function DerivedNames(feature: string, requested: seq<string>): seq<string> {
    var base := RemoveSuffix(feature, TIMESTAMP_SUFFIX);
    seq(|requested|, i requires 0 <= i < |requested| => CoordinateName(base, "SIN", requested[i]))
    + seq(|requested|, i requires 0 <= i < |requested| => CoordinateName(base, "COS", requested[i]))
  }

  /** create_time_coordinate_features_names: fails on a feature without the
      `_TIMESTAMP` suffix and on a requested period outside MINUTE, HOUR, DAY,
      MONTH, YEAR; otherwise gives a sine and a cosine name per period. */
  function TimeCoordinateFeaturesNames(feature: string, config: Config): (r: Result<seq<string>, ValueError>)
    ensures !EndsWith(feature, TIMESTAMP_SUFFIX) ==> r == Err(NotATimestampFeature(feature))
    ensures EndsWith(feature, TIMESTAMP_SUFFIX) && !SupportedTimeFeatures(config.timeFeatures) ==>
              r == Err(UnsupportedTimeFeatures(config.timeFeatures))
    ensures r.Ok? <==> EndsWith(feature, TIMESTAMP_SUFFIX) && SupportedTimeFeatures(config.timeFeatures)
    ensures r.Ok? ==> r.value == DerivedNames(feature, config.timeFeatures)
  {
    if !EndsWith(feature, TIMESTAMP_SUFFIX) then Err(NotATimestampFeature(feature))
    else if !SupportedTimeFeatures(config.timeFeatures) then Err(UnsupportedTimeFeatures(config.timeFeatures))
    else Ok(DerivedNames(feature, config.timeFeatures))
  }

  /** The derived names of a timestamp feature: 2k names for k periods, the
      sine of period i at i and its cosine at k + i, built from the feature's
      name without `_TIMESTAMP`. */
  lemma DerivedNamesShape(feature: string, requested: seq<string>)
    requires EndsWith(feature, TIMESTAMP_SUFFIX)
    ensures var names := DerivedNames(feature, requested);
      var base := RemoveSuffix(feature, TIMESTAMP_SUFFIX);
      && base + TIMESTAMP_SUFFIX == feature
      && |names| == 2 * |requested|
      && (forall i :: 0 <= i < |requested| ==>
            names[i] == CoordinateName(base, "SIN", requested[i])
            && names[|requested| + i] == CoordinateName(base, "COS", requested[i]))
  {
  }

  lemma CoordinateNameSuffix(base: string, wave: string, period: string)
    ensures EndsWith(CoordinateName(base, wave, period), DERIVED_SUFFIX)
    ensures !EndsWith(CoordinateName(base, wave, period), TIMESTAMP_SUFFIX)
  {
    var prefix := base + "-" + wave + "-" + period;
    var name := prefix + DERIVED_SUFFIX;
    assert name[|name| - 10..] == DERIVED_SUFFIX;
    assert name[|name| - 10] == '-';
  }

  /** Every derived name ends in `-TIMESTAMP`, never in `_TIMESTAMP`, so the
      derived features are never mistaken for raw timestamps. */
  lemma DerivedNamesSuffix(feature: string, requested: seq<string>)
    ensures forall n :: n in DerivedNames(feature, requested) ==>
              EndsWith(n, DERIVED_SUFFIX) && !EndsWith(n, TIMESTAMP_SUFFIX)
  {
    var base := RemoveSuffix(feature, TIMESTAMP_SUFFIX);
    var names := DerivedNames(feature, requested);
    forall n | n in names
      ensures EndsWith(n, DERIVED_SUFFIX) && !EndsWith(n, TIMESTAMP_SUFFIX)
    {
      var j :| 0 <= j < |names| && names[j] == n;
      if j < |requested| {
        CoordinateNameSuffix(base, "SIN", requested[j]);
      } else {
        CoordinateNameSuffix(base, "COS", requested[j - |requested|]);
      }
    }
  }

  lemma CancelRight(x: string, a: string, y: string, b: string)
    requires x + a == y + b && |a| == |b|
    ensures x == y && a == b
  {
    assert x == (x + a)[..|x|];
    assert y == (y + b)[..|y|];
    assert a == (x + a)[|x|..];
    assert b == (y + b)[|y|..];
  }

  /** The last letter of a supported period tells its length. */
  lemma PeriodLastLetter(p: string, q: string)
    requires IsPeriod(p) && IsPeriod(q)
    requires p[|p| - 1] == q[|q| - 1]
    ensures |p| == |q|
  {
  }

  /** Distinct (base, wave, period) triples give distinct names. */
  lemma CoordinateNameInjective(b1: string, w1: string, p1: string, b2: string, w2: string, p2: string)
    requires IsWave(w1) && IsWave(w2) && IsPeriod(p1) && IsPeriod(p2)
    requires CoordinateName(b1, w1, p1) == CoordinateName(b2, w2, p2)
    ensures b1 == b2 && w1 == w2 && p1 == p2
  {
    var x1 := b1 + "-" + w1 + "-";
    var x2 := b2 + "-" + w2 + "-";
    CancelRight(x1 + p1, DERIVED_SUFFIX, x2 + p2, DERIVED_SUFFIX);
    assert (x1 + p1)[|x1 + p1| - 1] == p1[|p1| - 1];
    assert (x2 + p2)[|x2 + p2| - 1] == p2[|p2| - 1];
    PeriodLastLetter(p1, p2);
    CancelRight(x1, p1, x2, p2);
    CancelRight(b1 + "-" + w1, "-", b2 + "-" + w2, "-");
    CancelRight(b1 + "-", w1, b2 + "-", w2);
    CancelRight(b1, "-", b2, "-");
  }

  lemma DerivedNameForm(feature: string, requested: seq<string>, n: string)
    requires n in DerivedNames(feature, requested)
    ensures exists w, i :: IsWave(w) && 0 <= i < |requested|
              && n == CoordinateName(RemoveSuffix(feature, TIMESTAMP_SUFFIX), w, requested[i])
  {
    var names := DerivedNames(feature, requested);
    var j :| 0 <= j < |names| && names[j] == n;
    if j < |requested| {
      assert IsWave("SIN");
    } else {
      assert IsWave("COS");
    }
  }

  /** Two timestamp features share a derived name only if they are the same
      feature: derived names of distinct timestamp features never collide. */
  lemma DerivedNamesDisjoint(k1: string, k2: string, requested: seq<string>, n: string)
    requires EndsWith(k1, TIMESTAMP_SUFFIX) && EndsWith(k2, TIMESTAMP_SUFFIX)
    requires SupportedTimeFeatures(requested)
    requires n in DerivedNames(k1, requested) && n in DerivedNames(k2, requested)
    ensures k1 == k2
  {
    DerivedNameForm(k1, requested, n);
    DerivedNameForm(k2, requested, n);
    var w1, i1 :| IsWave(w1) && 0 <= i1 < |requested|
      && n == CoordinateName(RemoveSuffix(k1, TIMESTAMP_SUFFIX), w1, requested[i1]);
    var w2, i2 :| IsWave(w2) && 0 <= i2 < |requested|
      && n == CoordinateName(RemoveSuffix(k2, TIMESTAMP_SUFFIX), w2, requested[i2]);
    assert requested[i1] in requested && requested[i2] in requested;
    CoordinateNameInjective(RemoveSuffix(k1, TIMESTAMP_SUFFIX), w1, requested[i1],
                            RemoveSuffix(k2, TIMESTAMP_SUFFIX), w2, requested[i2]);
  }

  /** With no period requested twice, a feature's derived names are distinct. */
  lemma DerivedNamesNoDup(feature: string, requested: seq<string>)
    requires SupportedTimeFeatures(requested) && NoDup(requested)
    ensures NoDup(DerivedNames(feature, requested))
  {
    var base := RemoveSuffix(feature, TIMESTAMP_SUFFIX);
    var names := DerivedNames(feature, requested);
    var k := |requested|;
    forall i, j | 0 <= i < j < |names| ensures names[i] != names[j] {
      var wi, pi := if i < k then "SIN" else "COS", if i < k then i else i - k;
      var wj, pj := if j < k then "SIN" else "COS", if j < k then j else j - k;
      assert names[i] == CoordinateName(base, wi, requested[pi]);
      assert names[j] == CoordinateName(base, wj, requested[pj]);
      assert requested[pi] in requested && requested[pj] in requested;
      if names[i] == names[j] {
        CoordinateNameInjective(base, wi, requested[pi], base, wj, requested[pj]);
        assert false;
      }
    }
  }

  // ---------------------------------------------------------------------------
  // create_feature_list_from_list

  /** The comprehension `[k for k in features if k in feature_list]`. */
  function KeepConfigured(features: seq<string>, featureList: seq<string>): (r: seq<string>)
    ensures forall x :: x in r <==> x in features && x in featureList
    ensures NoDup(features) ==> NoDup(r)
  {
    if features == [] then []
    else
      var rest := KeepConfigured(features[1..], featureList);
      assert features == [features[0]] + features[1..];
      if features[0] in featureList then [features[0]] + rest else rest
  }

  /** list.remove: drops the first occurrence of x, and fails when there is none. */
  function RemoveFirst(s: seq<string>, x: string): (r: Option<seq<string>>)
    ensures r.None? <==> x !in s
    ensures r.Some? ==> multiset(r.value) == multiset(s) - multiset{x}
  {
    if s == [] then None
    else if s[0] == x then
      assert s == [s[0]] + s[1..];
      Some(s[1..])
    else
      assert s == [s[0]] + s[1..];
      match RemoveFirst(s[1..], x)
      case None => None
      case Some(rest) => Some([s[0]] + rest)
  }

  /** On a list without duplicates, list.remove drops every copy of x. */
  lemma {:induction false} RemoveFirstNoDup(s: seq<string>, x: string)
    requires NoDup(s) && x in s
    ensures NoDup(RemoveFirst(s, x).value)
    ensures forall y :: y in RemoveFirst(s, x).value <==> y in s && y != x
  {
    assert s == [s[0]] + s[1..];
    if s[0] == x {
      assert forall y :: y in s[1..] ==> y != x;
    } else {
      RemoveFirstNoDup(s[1..], x);
      var rest := RemoveFirst(s[1..], x).value;
      assert s[0] !in s[1..];
      NoDupConcat([s[0]], rest);
    }
  }

  /** The two lists the timestamp loop keeps. */
  datatype Expansion = Expansion(modelFeatures: seq<string>, timeFeatures: seq<string>)

  /** The state of the loop over config['features'] once it has visited
      `visited`: each `_TIMESTAMP` feature appends its derived names and is
      removed from the model features; the first failure ends the loop. */
  function ExpandTimestamps(kept: seq<string>, visited: seq<string>, config: Config): Result<Expansion, ValueError>
    decreases |visited|
  {
    if visited == [] then Ok(Expansion(kept, []))
    else
      match ExpandTimestamps(kept, visited[..|visited| - 1], config)
      case Err(e) => Err(e)
      case Ok(st) =>
        var k := visited[|visited| - 1];
        if !EndsWith(k, TIMESTAMP_SUFFIX) then Ok(st)
        else
          match TimeCoordinateFeaturesNames(k, config)
          case Err(e) => Err(e)
          case Ok(names) =>
            match RemoveFirst(st.modelFeatures, k)
            case None => Err(NotInList(k))
            case Some(rest) => Ok(Expansion(rest, st.timeFeatures + names))
  }

  /** The derived names of the `_TIMESTAMP` features of `visited`, in order. */
  function DerivedFrom(visited: seq<string>, requested: seq<string>): seq<string>
    decreases |visited|
  {
    if visited == [] then []
    else
      var k := visited[|visited| - 1];
      DerivedFrom(visited[..|visited| - 1], requested)
      + (if EndsWith(k, TIMESTAMP_SUFFIX) then DerivedNames(k, requested) else [])
  }

  /** What create_feature_list_from_list returns (or raises): the configured
      features present in `features`, the `_TIMESTAMP` ones replaced by their
      derived names when timestamp features are enabled, in lexical order. */
  function FeatureList(features: seq<string>, config: Config): (r: Result<seq<string>, ValueError>)
    ensures r.Ok? ==> Sorted(r.value)
    ensures !config.enableTimestampFeatures ==>
              r.Ok? && (forall x :: x in r.value <==> x in features && x in config.features)
              && multiset(r.value) == multiset(KeepConfigured(features, config.features))
  {
    var kept := KeepConfigured(features, config.features);
    if !config.enableTimestampFeatures then Ok(SortStrings(kept))
    else
      match ExpandTimestamps(kept, config.features, config)
      case Err(e) => Err(e)
      case Ok(st) => Ok(SortStrings(st.modelFeatures + st.timeFeatures))
  }

  lemma {:induction false} ExpandErrPersists(kept: seq<string>, visited: seq<string>, n: nat, config: Config)
    requires n <= |visited|
    requires ExpandTimestamps(kept, visited[..n], config).Err?
    ensures ExpandTimestamps(kept, visited, config) == ExpandTimestamps(kept, visited[..n], config)
    decreases |visited| - n
  {
    if n < |visited| {
      assert visited[..|visited| - 1][..n] == visited[..n];
      ExpandErrPersists(kept, visited[..|visited| - 1], n, config);
    } else {
      assert visited[..n] == visited;
    }
  }

  /** create_feature_list_from_list, with its filtering comprehension, the loop
      that replaces each configured `_TIMESTAMP` feature by its derived names
      (extend, then remove), and the in-place sort. */
  method CreateFeatureListFromList(features: seq<string>, config: Config) returns (r: Result<seq<string>, ValueError>)
    ensures r == FeatureList(features, config)
  {
    var featureList := config.features;
    var modelFeatures := KeepConfigured(features, featureList);
    if config.enableTimestampFeatures {
      ghost var kept := modelFeatures;
      var timeFeatures: seq<string> := [];
      var i := 0;
      while i < |featureList|
        invariant 0 <= i <= |featureList|
        invariant ExpandTimestamps(kept, featureList[..i], config) == Ok(Expansion(modelFeatures, timeFeatures))
      {
        var k := featureList[i];
        assert featureList[..i + 1][..i] == featureList[..i];
        if EndsWith(k, TIMESTAMP_SUFFIX) {
          var timeFeature := TimeCoordinateFeaturesNames(k, config);
          if timeFeature.Err? {
            ExpandErrPersists(kept, featureList, i + 1, config);
            return Err(timeFeature.error);
          }
          timeFeatures := timeFeatures + timeFeature.value;
          var removed := RemoveFirst(modelFeatures, k);
          if removed.None? {
            ExpandErrPersists(kept, featureList, i + 1, config);
            return Err(NotInList(k));
          }
          modelFeatures := removed.value;
        }
        i := i + 1;
      }
      assert featureList[..i] == featureList;
      modelFeatures := modelFeatures + timeFeatures;
    }
    modelFeatures := SortStrings(modelFeatures);
    return Ok(modelFeatures);
  }

  // Properties of the list variant.

  /** The derived names collected by the loop are those of the visited
      `_TIMESTAMP` features. */
  lemma {:induction false} DerivedFromMembers(visited: seq<string>, requested: seq<string>, n: string)
    ensures n in DerivedFrom(visited, requested) <==>
              exists k :: k in visited && EndsWith(k, TIMESTAMP_SUFFIX) && n in DerivedNames(k, requested)
    decreases |visited|
  {
    if visited != [] {
      var prefix := visited[..|visited| - 1];
      var k := visited[|visited| - 1];
      DerivedFromMembers(prefix, requested, n);
      assert visited == prefix + [k];
      if n in DerivedFrom(visited, requested) && n !in DerivedFrom(prefix, requested) {
        assert k in visited && EndsWith(k, TIMESTAMP_SUFFIX) && n in DerivedNames(k, requested);
      }
    }
  }

  /** No derived name is collected twice when the visited features and the
      requested periods have no duplicates. */
  lemma {:induction false} DerivedFromNoDup(visited: seq<string>, requested: seq<string>)
    requires SupportedTimeFeatures(requested) && NoDup(requested) && NoDup(visited)
    ensures NoDup(DerivedFrom(visited, requested))
    decreases |visited|
  {
    if visited != [] {
      var prefix := visited[..|visited| - 1];
      var k := visited[|visited| - 1];
      assert visited == prefix + [k];
      assert k !in prefix;
      DerivedFromNoDup(prefix, requested);
      if EndsWith(k, TIMESTAMP_SUFFIX) {
        DerivedNamesNoDup(k, requested);
        forall n | n in DerivedFrom(prefix, requested)
          ensures n !in DerivedNames(k, requested)
        {
          DerivedFromMembers(prefix, requested, n);
          var k' :| k' in prefix && EndsWith(k', TIMESTAMP_SUFFIX) && n in DerivedNames(k', requested);
          if n in DerivedNames(k, requested) {
            DerivedNamesDisjoint(k', k, requested, n);
          }
        }
        NoDupConcat(DerivedFrom(prefix, requested), DerivedNames(k, requested));
      } else {
        assert DerivedFrom(visited, requested) == DerivedFrom(prefix, requested) + [];
      }
    }
  }

  /** A successful loop only ever removes features. */
  lemma {:induction false} ExpandModelWithin(kept: seq<string>, visited: seq<string>, config: Config)
    requires ExpandTimestamps(kept, visited, config).Ok?
    ensures forall x :: x in ExpandTimestamps(kept, visited, config).value.modelFeatures ==> x in kept
    decreases |visited|
  {
    if visited != [] {
      var prefix := visited[..|visited| - 1];
      ExpandModelWithin(kept, prefix, config);
      var st := ExpandTimestamps(kept, prefix, config).value;
      var k := visited[|visited| - 1];
      if EndsWith(k, TIMESTAMP_SUFFIX) {
        var rest := RemoveFirst(st.modelFeatures, k).value;
        forall x | x in rest ensures x in kept {
          assert x in multiset(rest);
        }
      }
    }
  }

  /** After a successful loop over `visited`, the model features are the kept
      features minus the visited `_TIMESTAMP` ones, and the time features are
      their derived names. */
  lemma {:induction false} ExpandOkState(kept: seq<string>, visited: seq<string>, config: Config)
    requires NoDup(kept)
    requires ExpandTimestamps(kept, visited, config).Ok?
    ensures var st := ExpandTimestamps(kept, visited, config).value;
      && NoDup(st.modelFeatures)
      && (forall x :: x in st.modelFeatures <==>
            x in kept && !(x in visited && EndsWith(x, TIMESTAMP_SUFFIX)))
      && st.timeFeatures == DerivedFrom(visited, config.timeFeatures)
    decreases |visited|
  {
    if visited != [] {
      var prefix := visited[..|visited| - 1];
      var k := visited[|visited| - 1];
      assert visited == prefix + [k];
      ExpandOkState(kept, prefix, config);
      var st := ExpandTimestamps(kept, prefix, config).value;
      if EndsWith(k, TIMESTAMP_SUFFIX) {
        RemoveFirstNoDup(st.modelFeatures, k);
      }
    }
  }

  /** The loop succeeds when every visited `_TIMESTAMP` feature is present
      once, and the requested periods are supported whenever there is one. */
  lemma {:induction false} ExpandSucceeds(kept: seq<string>, visited: seq<string>, config: Config)
    requires NoDup(kept) && NoDup(visited)
    requires forall k :: k in visited && EndsWith(k, TIMESTAMP_SUFFIX) ==>
               k in kept && SupportedTimeFeatures(config.timeFeatures)
    ensures ExpandTimestamps(kept, visited, config).Ok?
    decreases |visited|
  {
    if visited != [] {
      var prefix := visited[..|visited| - 1];
      var k := visited[|visited| - 1];
      assert visited == prefix + [k];
      assert k !in prefix;
      ExpandSucceeds(kept, prefix, config);
      ExpandOkState(kept, prefix, config);
    }
  }

  /** One visited `_TIMESTAMP` feature with an unsupported period list makes
      the loop raise the period error. */
  lemma {:induction false} ExpandFailsUnsupported(kept: seq<string>, visited: seq<string>, config: Config, k: string)
    requires !SupportedTimeFeatures(config.timeFeatures)
    requires k in visited && EndsWith(k, TIMESTAMP_SUFFIX)
    ensures ExpandTimestamps(kept, visited, config) == Err(UnsupportedTimeFeatures(config.timeFeatures))
    decreases |visited|
  {
    var prefix := visited[..|visited| - 1];
    assert visited == prefix + [visited[|visited| - 1]];
    if k in prefix {
      ExpandFailsUnsupported(kept, prefix, config, k);
    } else if ExpandTimestamps(kept, prefix, config).Ok? {
      assert k == visited[|visited| - 1];
    } else {
      assert visited[..|visited| - 1] == prefix;
      ExpandOnlyPeriodError(kept, prefix, config);
    }
  }

  /** With an unsupported period list the loop can fail only with the period
      error: list.remove is reached only after the names were derived. */
  lemma {:induction false} ExpandOnlyPeriodError(kept: seq<string>, visited: seq<string>, config: Config)
    requires !SupportedTimeFeatures(config.timeFeatures)
    requires ExpandTimestamps(kept, visited, config).Err?
    ensures ExpandTimestamps(kept, visited, config) == Err(UnsupportedTimeFeatures(config.timeFeatures))
    decreases |visited|
  {
    var prefix := visited[..|visited| - 1];
    if ExpandTimestamps(kept, prefix, config).Err? {
      ExpandOnlyPeriodError(kept, prefix, config);
    }
  }

  /** A visited `_TIMESTAMP` feature absent from the kept features makes the
      loop fail (list.remove raises). */
  lemma {:induction false} ExpandFailsMissing(kept: seq<string>, visited: seq<string>, config: Config, k: string)
    requires k in visited && EndsWith(k, TIMESTAMP_SUFFIX) && k !in kept
    ensures ExpandTimestamps(kept, visited, config).Err?
    decreases |visited|
  {
    var prefix := visited[..|visited| - 1];
    var last := visited[|visited| - 1];
    assert visited == prefix + [last];
    if k in prefix {
      ExpandFailsMissing(kept, prefix, config, k);
    } else if ExpandTimestamps(kept, prefix, config).Ok? {
      ExpandModelWithin(kept, prefix, config);
    }
  }

  /** With timestamp features enabled, a successful call returns the
      configured non-timestamp features present in `features` together with
      the derived names of every configured `_TIMESTAMP` feature, and nothing
      else: each `_TIMESTAMP` feature is replaced by its derived names. */
  lemma FeatureListWithTimestamps(features: seq<string>, config: Config)
    requires config.enableTimestampFeatures && NoDup(features)
    requires FeatureList(features, config).Ok?
    ensures forall x :: x in FeatureList(features, config).value <==>
              || (x in features && x in config.features && !EndsWith(x, TIMESTAMP_SUFFIX))
              || exists k :: k in config.features && EndsWith(k, TIMESTAMP_SUFFIX)
                   && x in DerivedNames(k, config.timeFeatures)
    ensures forall x :: x in FeatureList(features, config).value ==> !EndsWith(x, TIMESTAMP_SUFFIX)
  {
    var kept := KeepConfigured(features, config.features);
    ExpandOkState(kept, config.features, config);
    forall x ensures x in DerivedFrom(config.features, config.timeFeatures) <==>
                     exists k :: k in config.features && EndsWith(k, TIMESTAMP_SUFFIX)
                       && x in DerivedNames(k, config.timeFeatures)
    {
      DerivedFromMembers(config.features, config.timeFeatures, x);
    }
    forall k | k in config.features && EndsWith(k, TIMESTAMP_SUFFIX) {
      DerivedNamesSuffix(k, config.timeFeatures);
    }
  }

  /** With timestamp features enabled, a configured `_TIMESTAMP` feature that
      is missing from `features` makes the call fail. */
  lemma FeatureListMissingTimestamp(features: seq<string>, config: Config, k: string)
    requires config.enableTimestampFeatures
    requires k in config.features && EndsWith(k, TIMESTAMP_SUFFIX) && k !in features
    ensures FeatureList(features, config).Err?
  {
    ExpandFailsMissing(KeepConfigured(features, config.features), config.features, config, k);
  }

  /** With timestamp features enabled, one configured `_TIMESTAMP` feature
      and an unsupported period list raise the period error. */
  lemma FeatureListUnsupported(features: seq<string>, config: Config, k: string)
    requires config.enableTimestampFeatures && !SupportedTimeFeatures(config.timeFeatures)
    requires k in config.features && EndsWith(k, TIMESTAMP_SUFFIX)
    ensures FeatureList(features, config) == Err(UnsupportedTimeFeatures(config.timeFeatures))
  {
    ExpandFailsUnsupported(KeepConfigured(features, config.features), config.features, config, k);
  }

  /** With timestamp features enabled, the call succeeds when the configured
      features have no duplicates, every configured `_TIMESTAMP` feature is
      present, and the periods are supported whenever there is one. */
  lemma FeatureListSucceeds(features: seq<string>, config: Config)
    requires config.enableTimestampFeatures && NoDup(features) && NoDup(config.features)
    requires forall k :: k in config.features && EndsWith(k, TIMESTAMP_SUFFIX) ==>
               k in features && SupportedTimeFeatures(config.timeFeatures)
    ensures FeatureList(features, config).Ok?
  {
    ExpandSucceeds(KeepConfigured(features, config.features), config.features, config);
  }

  // ---------------------------------------------------------------------------
  // create_feature_list_from_dict

  /** create_time_coordinate_features: a dict from each derived name of a
      timestamp feature to the time coordinate of the feature's tensor. */
  function TimeCoordinateFeatures(feature: string, timestamp: Tensor, config: Config): (r: Result<map<string, Tensor>, ValueError>)
    ensures r.Ok? <==> TimeCoordinateFeaturesNames(feature, config).Ok?
    ensures r.Err? ==> r.error == TimeCoordinateFeaturesNames(feature, config).error
    ensures r.Ok? ==> forall n :: n in r.value <==> n in DerivedNames(feature, config.timeFeatures)
    ensures r.Ok? ==> forall n :: n in r.value ==> r.value[n] == TimeCoordinate(n, timestamp)
  {
    match TimeCoordinateFeaturesNames(feature, config)
    case Err(e) => Err(e)
    case Ok(names) => Ok(map n | n in names :: TimeCoordinate(n, timestamp))
  }

  /** The derived names of a set of timestamp features. */
  function DerivedKeys(timestamps: set<string>, requested: seq<string>): set<string> {
    set k, n | k in timestamps && n in DerivedNames(k, requested) :: n
  }

  /** The timestamp feature that a derived name came from. */
  ghost function DerivedOwner(n: string, timestamps: set<string>, requested: seq<string>): (k: string)
    requires n in DerivedKeys(timestamps, requested)
    ensures k in timestamps && n in DerivedNames(k, requested)
  {
    var k :| k in timestamps && n in DerivedNames(k, requested); k
  }

  /** The union of the time-coordinate dicts of a set of timestamp features. */
  ghost function TimeCoordinateMap(timestamps: set<string>, features: map<string, Tensor>, requested: seq<string>): map<string, Tensor>
    requires timestamps <= features.Keys
  {
    map n | n in DerivedKeys(timestamps, requested) :: TimeCoordinate(n, features[DerivedOwner(n, timestamps, requested)])
  }

  /** The configured features of a dict with their values. */
  function KeepConfiguredKeys(features: map<string, Tensor>, featureList: seq<string>): map<string, Tensor> {
    map k | k in features && k in featureList :: features[k]
  }

  function WithoutTimestamps(m: map<string, Tensor>): map<string, Tensor> {
    map k | k in m && !EndsWith(k, TIMESTAMP_SUFFIX) :: m[k]
  }

  function TimestampKeys(m: map<string, Tensor>): set<string> {
    set k | k in m && EndsWith(k, TIMESTAMP_SUFFIX)
  }

  /** What create_feature_list_from_dict returns (or raises): the configured
      features with their tensors, each `_TIMESTAMP` one replaced by its
      time-coordinate tensors when timestamp features are enabled. */
  ghost function FeatureDict(features: map<string, Tensor>, config: Config): (r: Result<map<string, Tensor>, ValueError>)
    ensures r.Err? <==> config.enableTimestampFeatures
                        && TimestampKeys(KeepConfiguredKeys(features, config.features)) != {}
                        && !SupportedTimeFeatures(config.timeFeatures)
    ensures r.Err? ==> r.error == UnsupportedTimeFeatures(config.timeFeatures)
  {
    var kept := KeepConfiguredKeys(features, config.features);
    if !config.enableTimestampFeatures then Ok(kept)
    else
      var timestamps := TimestampKeys(kept);
      if timestamps != {} && !SupportedTimeFeatures(config.timeFeatures) then
        Err(UnsupportedTimeFeatures(config.timeFeatures))
      else
        Ok(WithoutTimestamps(kept) + TimeCoordinateMap(timestamps, features, config.timeFeatures))
  }

  /** Adding one more timestamp feature adds exactly its own time-coordinate
      dict, because derived names of distinct timestamp features never collide. */
  lemma TimeCoordinateMapAdd(done: set<string>, k: string, features: map<string, Tensor>, config: Config)
    requires done <= features.Keys && k in features && k !in done
    requires forall t :: t in done ==> EndsWith(t, TIMESTAMP_SUFFIX)
    requires EndsWith(k, TIMESTAMP_SUFFIX) && SupportedTimeFeatures(config.timeFeatures)
    ensures TimeCoordinateMap(done + {k}, features, config.timeFeatures)
            == TimeCoordinateMap(done, features, config.timeFeatures)
               + TimeCoordinateFeatures(k, features[k], config).value
  {
    var tf := config.timeFeatures;
    var left := TimeCoordinateMap(done + {k}, features, tf);
    var right := TimeCoordinateMap(done, features, tf) + TimeCoordinateFeatures(k, features[k], config).value;
    forall n ensures n in left <==> n in right {
      if n in DerivedNames(k, tf) {
        assert n in DerivedKeys(done + {k}, tf);
      }
      if n in DerivedKeys(done, tf) {
        var o := DerivedOwner(n, done, tf);
        assert n in DerivedKeys(done + {k}, tf);
      }
    }
    forall n | n in left ensures left[n] == right[n] {
      var o := DerivedOwner(n, done + {k}, tf);
      if n in DerivedNames(k, tf) {
        DerivedNamesDisjoint(o, k, tf, n);
      } else {
        assert o in done;
        assert n in DerivedKeys(done, tf);
        var o' := DerivedOwner(n, done, tf);
        DerivedNamesDisjoint(o, o', tf, n);
      }
    }
  }

  lemma MapUnionAssociative(a: map<string, Tensor>, b: map<string, Tensor>, c: map<string, Tensor>)
    ensures (a + b) + c == a + (b + c)
  {
  }

  /** create_feature_list_from_dict: the filtering comprehensions, the
      time-coordinate dicts, and the loop that merges them with dict.update.
      The loop visits the timestamp features in any order; the result does not
      depend on it. */
  method CreateFeatureListFromDict(features: map<string, Tensor>, config: Config) returns (r: Result<map<string, Tensor>, ValueError>)
    ensures r == FeatureDict(features, config)
  {
    var featureList := config.features;
    var modelFeatures := map k | k in features && k in featureList :: features[k];
    if config.enableTimestampFeatures {
      ghost var kept := modelFeatures;
      assert kept == KeepConfiguredKeys(features, config.features);
      var timestampFeatureList := set k | k in modelFeatures && EndsWith(k, TIMESTAMP_SUFFIX);
      assert timestampFeatureList == TimestampKeys(kept);
      modelFeatures := map k | k in modelFeatures && !EndsWith(k, TIMESTAMP_SUFFIX) :: modelFeatures[k];
      var todo := timestampFeatureList;
      while todo != {}
        invariant todo <= timestampFeatureList
        invariant timestampFeatureList - todo != {} ==> SupportedTimeFeatures(config.timeFeatures)
        invariant modelFeatures == WithoutTimestamps(kept)
                    + TimeCoordinateMap(timestampFeatureList - todo, features, config.timeFeatures)
        decreases todo
      {
        var k :| k in todo;
        var timestampFeatures := TimeCoordinateFeatures(k, features[k], config);
        if timestampFeatures.Err? {
          return Err(timestampFeatures.error);
        }
        ghost var done := timestampFeatureList - todo;
        TimeCoordinateMapAdd(done, k, features, config);
        MapUnionAssociative(WithoutTimestamps(kept),
                            TimeCoordinateMap(done, features, config.timeFeatures),
                            timestampFeatures.value);
        assert timestampFeatureList - (todo - {k}) == done + {k};
        modelFeatures := modelFeatures + timestampFeatures.value;
        todo := todo - {k};
      }
      assert timestampFeatureList - todo == TimestampKeys(kept);
    }
    return Ok(modelFeatures);
  }

  // Properties of the dict variant.

  /** A derived name of a present timestamp feature is a key of the merged
      time-coordinate dicts, bound to that feature's time coordinate. */
  lemma TimeCoordinateMapAt(timestamps: set<string>, features: map<string, Tensor>, requested: seq<string>, t: string, n: string)
    requires timestamps <= features.Keys
    requires forall k :: k in timestamps ==> EndsWith(k, TIMESTAMP_SUFFIX)
    requires SupportedTimeFeatures(requested)
    requires t in timestamps && n in DerivedNames(t, requested)
    ensures n in TimeCoordinateMap(timestamps, features, requested)
    ensures TimeCoordinateMap(timestamps, features, requested)[n] == TimeCoordinate(n, features[t])
  {
    assert n in DerivedKeys(timestamps, requested);
    var o := DerivedOwner(n, timestamps, requested);
    DerivedNamesDisjoint(o, t, requested, n);
  }

  /** create_feature_list_from_dict keeps only configured features: every key
      of its result is either a configured feature of the input, bound to its
      original tensor unless a derived name replaced it, or a derived name of a
      configured `_TIMESTAMP` feature, bound to that feature's time coordinate.
      With timestamp features enabled no key ends with `_TIMESTAMP`. */
  lemma FeatureDictContents(features: map<string, Tensor>, config: Config)
    requires FeatureDict(features, config).Ok?
    ensures var r := FeatureDict(features, config).value;
      var enabled := config.enableTimestampFeatures;
      var tf := config.timeFeatures;
      && (forall k :: k in r ==>
            (k in features && k in config.features && !(enabled && EndsWith(k, TIMESTAMP_SUFFIX)))
            || (enabled && exists t :: (t in features && t in config.features
                                         && EndsWith(t, TIMESTAMP_SUFFIX) && k in DerivedNames(t, tf))))
      && (forall k :: k in features && k in config.features && !(enabled && EndsWith(k, TIMESTAMP_SUFFIX))
            && !(enabled && k in DerivedKeys(TimestampKeys(KeepConfiguredKeys(features, config.features)), tf))
            ==> k in r && r[k] == features[k])
      && (enabled ==> forall k :: k in r ==> !EndsWith(k, TIMESTAMP_SUFFIX))
      && (enabled ==> forall t, n ::
            (t in features && t in config.features && EndsWith(t, TIMESTAMP_SUFFIX) && n in DerivedNames(t, tf))
            ==> n in r && r[n] == TimeCoordinate(n, features[t]))
  {
    var r := FeatureDict(features, config).value;
    var tf := config.timeFeatures;
    if config.enableTimestampFeatures {
      var kept := KeepConfiguredKeys(features, config.features);
      var timestamps := TimestampKeys(kept);
      forall k | k in r
        ensures !EndsWith(k, TIMESTAMP_SUFFIX)
        ensures (k in features && k in config.features && !EndsWith(k, TIMESTAMP_SUFFIX))
                || exists t :: t in features && t in config.features
                     && EndsWith(t, TIMESTAMP_SUFFIX) && k in DerivedNames(t, tf)
      {
        if k in DerivedKeys(timestamps, tf) {
          var o := DerivedOwner(k, timestamps, tf);
          DerivedNamesSuffix(o, tf);
        }
      }
      forall t, n | t in features && t in config.features && EndsWith(t, TIMESTAMP_SUFFIX)
                    && n in DerivedNames(t, tf)
        ensures n in r && r[n] == TimeCoordinate(n, features[t])
      {
        assert t in timestamps;
        TimeCoordinateMapAt(timestamps, features, tf, t, n);
      }
    }
  }
}
