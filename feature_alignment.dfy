/** The ordering contract between training and inference: the features that
    the training-time transform stacks, in sorted-key order, are the labels
    that inference replays from the list of raw feature names. */
module FeatureAlignment {
  import opened Wrappers
  import opened Strings
  import opened Tensors
  import opened TimeseriesTransformUtils

  /** The conditions under which the list and dict variants agree: no
      duplicates among the raw features, the configured features or the
      requested periods; every configured `_TIMESTAMP` feature present; and no
      derived name equal to a configured feature that is present. */
  ghost predicate AlignmentConditions(d: map<string, Tensor>, ks: seq<string>, config: Config) {
    && NoDup(ks) && (forall k :: k in ks <==> k in d)
    && NoDup(config.features) && NoDup(config.timeFeatures)
    && (config.enableTimestampFeatures ==>
          && (forall k :: k in config.features && EndsWith(k, TIMESTAMP_SUFFIX) ==> k in d)
          && (forall k, t ::
                (k in d && k in config.features && t in config.features && EndsWith(t, TIMESTAMP_SUFFIX))
                ==> k !in DerivedNames(t, config.timeFeatures)))
  }

  /** Under the alignment conditions, create_feature_list_from_list over the
      raw feature names fails exactly when create_feature_list_from_dict over
      the raw features does, and otherwise returns the dict's keys in sorted
      order: the inference-time labels are the training-time stacking order. */
  lemma ListDictAlignment(d: map<string, Tensor>, ks: seq<string>, config: Config)
    requires AlignmentConditions(d, ks, config)
    ensures FeatureList(ks, config).Ok? <==> FeatureDict(d, config).Ok?
    ensures FeatureList(ks, config).Ok? ==>
              FeatureList(ks, config).value == SortedKeys(FeatureDict(d, config).value.Keys)
  {
    var cf := config.features;
    var tf := config.timeFeatures;
    var kept := KeepConfigured(ks, cf);
    var keptKeys := KeepConfiguredKeys(d, cf);
    if !config.enableTimestampFeatures {
      SortStringsOfKeys(kept, keptKeys.Keys);
    } else {
      var timestamps := TimestampKeys(keptKeys);
      if exists k :: k in cf && EndsWith(k, TIMESTAMP_SUFFIX) {
        var k :| k in cf && EndsWith(k, TIMESTAMP_SUFFIX);
        assert k in timestamps;
        if !SupportedTimeFeatures(tf) {
          FeatureListUnsupported(ks, config, k);
          return;
        }
      }
      FeatureListSucceeds(ks, config);
      ExpandOkState(kept, cf, config);
      var st := ExpandTimestamps(kept, cf, config).value;
      var listed := st.modelFeatures + st.timeFeatures;
      var keys := FeatureDict(d, config).value.Keys;
      forall x ensures x in st.timeFeatures <==> x in DerivedKeys(timestamps, tf) {
        DerivedFromMembers(cf, tf, x);
        if x in DerivedKeys(timestamps, tf) {
          var o := DerivedOwner(x, timestamps, tf);
        }
      }
      if SupportedTimeFeatures(tf) {
        DerivedFromNoDup(cf, tf);
      } else {
        assert st.timeFeatures == [] by {
          if st.timeFeatures != [] {
            var x := st.timeFeatures[0];
            assert x in st.timeFeatures;
            DerivedFromMembers(cf, tf, x);
          }
        }
      }
      forall x | x in st.modelFeatures ensures x !in st.timeFeatures {
        if x in st.timeFeatures {
          DerivedFromMembers(cf, tf, x);
        }
      }
      NoDupConcat(st.modelFeatures, st.timeFeatures);
      SortStringsOfKeys(listed, keys);
    }
  }
}
