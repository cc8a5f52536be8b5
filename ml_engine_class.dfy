/** The engine class of the argument classifier, beyond what it shares with
    the other modules: the guard that decides whether the keyword column is
    one-hot encoded and joined to the vectorised bags. */
module MlEngine {
  import opened Wrappers
  import opened FeatureBags

  /** Python truthiness of a list: it holds at least one element. */
  predicate ListTruthy<T>(xs: seq<T>) {
    |xs| > 0
  }

  /** The guard exactly as written, `if ["key_words"]`: a one-element list
      literal, not a lookup in the setup, so it never looks at `s`. */
  function OneHotGuardAsWritten(s: Setup): (r: bool)
    ensures r
  {
    ListTruthy(["key_words"])
  }

  /** The evidently intended guard, `if setup["key_words"]`: the same switch
      that decides whether the assembly loop fills the keyword list. */
  function OneHotGuard(s: Setup): (r: bool)
    ensures r <==> Enabled(s, KeyWords)
  {
    s.keyWords
  }

  /** With keywords switched off and at least one labelled record, the guard
      as written still encodes the keyword list, which is then empty while the
      bag frame has one row per labelled record. */
  lemma OneHotGuardAsWrittenMisaligned(keys: seq<string>, features: map<string, FeatureRecord>,
                                       labels: map<string, map<string, string>>, yLabel: string, s: Setup)
    requires forall k :: k in keys ==> k in features
    requires RowsOf(keys, features, labels, yLabel, s, EngineAssembly).Ok?
    requires !s.keyWords && |LabelledKeys(keys, labels)| > 0
    ensures OneHotGuardAsWritten(s)
    ensures |RowsOf(keys, features, labels, yLabel, s, EngineAssembly).value.keyWords| == 0
    ensures |RowsOf(keys, features, labels, yLabel, s, EngineAssembly).value.corpus| > 0
  {
    RowsOfContent(keys, features, labels, yLabel, s, EngineAssembly);
  }

  /** With the intended guard, the keyword list is encoded exactly when it
      has one entry per row of the bag frame, so the columns line up. */
  lemma OneHotGuardAligned(keys: seq<string>, features: map<string, FeatureRecord>,
                           labels: map<string, map<string, string>>, yLabel: string, s: Setup)
    requires forall k :: k in keys ==> k in features
    requires RowsOf(keys, features, labels, yLabel, s, EngineAssembly).Ok?
    ensures OneHotGuard(s) ==>
      |RowsOf(keys, features, labels, yLabel, s, EngineAssembly).value.keyWords|
        == |RowsOf(keys, features, labels, yLabel, s, EngineAssembly).value.corpus|
    ensures !OneHotGuard(s) ==> RowsOf(keys, features, labels, yLabel, s, EngineAssembly).value.keyWords == []
  {
    RowsOfContent(keys, features, labels, yLabel, s, EngineAssembly);
  }
}
