/** Assembly of the per-sentence feature records and their labels into the
    rows that the classifier's vectoriser consumes (`__create_dataset` of the
    engine class and of the engine script), up to the vectoriser itself. */
module FeatureBags {
  import opened Wrappers
  import opened Text
  import opened PyDicts

  /** The numeric statistics of one feature record. */
  datatype Stats = Stats(textLength: int, avgWordLength: int, numberPunctMarks: int,
                         parseTreeDepth: int, numberSubClauses: int)

  /** One entry of the feature file, as the feature extractor writes it. */
  datatype FeatureRecord = FeatureRecord(
    unigrams: seq<string>, bigrams: seq<string>, trigrams: seq<string>,
    wordCouples: seq<string>, punctuation: seq<string>, adverbs: seq<string>,
    verbs: seq<string>, modalAux: seq<string>, keyWords: seq<string>, stats: Stats)

  /** The boolean switches of the data setup; `stats` is the engine class's
      "text_stats" entry and the script's "stats" entry. */
  datatype Setup = Setup(
    unigrams: bool, bigrams: bool, trigrams: bool, wordCouples: bool, punctuation: bool,
    adverbs: bool, verbs: bool, modalAux: bool, keyWords: bool, stats: bool)

  datatype Group = Unigrams | Bigrams | Trigrams | WordCouples | Punctuation | Adverbs | Verbs | ModalAux | KeyWords

  function Field(v: FeatureRecord, g: Group): seq<string> {
    match g
    case Unigrams => v.unigrams
    case Bigrams => v.bigrams
    case Trigrams => v.trigrams
    case WordCouples => v.wordCouples
    case Punctuation => v.punctuation
    case Adverbs => v.adverbs
    case Verbs => v.verbs
    case ModalAux => v.modalAux
    case KeyWords => v.keyWords
  }

  predicate Enabled(s: Setup, g: Group) {
    match g
    case Unigrams => s.unigrams
    case Bigrams => s.bigrams
    case Trigrams => s.trigrams
    case WordCouples => s.wordCouples
    case Punctuation => s.punctuation
    case Adverbs => s.adverbs
    case Verbs => s.verbs
    case ModalAux => s.modalAux
    case KeyWords => s.keyWords
  }

  /** `v[g] if setup[g] and len(v[g]) > 0 else []`. */
  function Part(v: FeatureRecord, s: Setup, g: Group): seq<string> {
    if Enabled(s, g) && |Field(v, g)| > 0 then Field(v, g) else []
  }

  /** The groups concatenated in the given order. */
  function Bag(v: FeatureRecord, s: Setup, order: seq<Group>): seq<string> {
    if order == [] then [] else Part(v, s, order[0]) + Bag(v, s, order[1..])
  }

  /** The engine class's group order (vocabulary, then categorical groups). */
  const EngineOrder: seq<Group> := [Unigrams, Bigrams, Trigrams, WordCouples, Punctuation, Adverbs, Verbs, ModalAux]
  /** The script's group order, which also includes the keywords. */
  const ScriptOrder: seq<Group> := [Unigrams, Bigrams, Trigrams, Adverbs, Verbs, ModalAux, WordCouples, Punctuation, KeyWords]

  /** A bag holds exactly the tokens of the enabled groups of its order. */
  lemma {:induction false} BagMembership(v: FeatureRecord, s: Setup, order: seq<Group>, x: string)
    ensures x in Bag(v, s, order) <==> exists i :: 0 <= i < |order| && Enabled(s, order[i]) && x in Field(v, order[i])
  {
    if order != [] {
      BagMembership(v, s, order[1..], x);
      if x in Bag(v, s, order[1..]) {
        var i :| 0 <= i < |order[1..]| && Enabled(s, order[1..][i]) && x in Field(v, order[1..][i]);
        assert order[i + 1] == order[1..][i];
      }
      forall i | 0 < i < |order| ensures order[i] == order[1..][i - 1] { }
    }
  }

  /** The length of a bag is the total size of its enabled groups. */
  function EnabledSize(v: FeatureRecord, s: Setup, order: seq<Group>): nat {
    if order == [] then 0 else (if Enabled(s, order[0]) then |Field(v, order[0])| else 0) + EnabledSize(v, s, order[1..])
  }

  lemma {:induction false} BagSize(v: FeatureRecord, s: Setup, order: seq<Group>)
    ensures |Bag(v, s, order)| == EnabledSize(v, s, order)
  {
    if order != [] {
      BagSize(v, s, order[1..]);
    }
  }

  /** Every token lower-cased. */
  function LowerAll(xs: seq<string>): (r: seq<string>)
    ensures |r| == |xs| && forall i :: 0 <= i < |xs| ==> r[i] == Lower(xs[i])
  {
    if xs == [] then [] else [Lower(xs[0])] + LowerAll(xs[1..])
  }

  /** The engine class's keyword feature: "kw_none" for no keywords, else
      "kw_" and the first keyword with spaces replaced, keeping its case; any
      later keyword is ignored. */
  function KeywordFeature(v: FeatureRecord): (r: string)
    ensures v.keyWords == [] ==> r == "kw_none"
    ensures v.keyWords != [] ==>
      && StartsWith(r, "kw_") && |r| == 3 + |v.keyWords[0]|
      && forall i :: 0 <= i < |v.keyWords[0]| ==>
           r[3 + i] == (if v.keyWords[0][i] == ' ' then '_' else v.keyWords[0][i])
  {
    if |v.keyWords| > 0 then "kw_" + ReplaceChar(v.keyWords[0], ' ', '_') else "kw_none"
  }

  /** Which of the two assembly loops: the engine class (fixed lower-casing
      and a keyword column), or the script (lower-casing by parameter, keywords
      inside the bag). */
  datatype Assembly = EngineAssembly | ScriptAssembly(lower: bool)

  /** The bag of one record as the given loop builds it. */
  function RowBag(v: FeatureRecord, s: Setup, a: Assembly): seq<string> {
    match a
    case EngineAssembly => LowerAll(Bag(v, s, EngineOrder))
    case ScriptAssembly(lower) => if lower then LowerAll(Bag(v, s, ScriptOrder)) else Bag(v, s, ScriptOrder)
  }

  /** The lists the loop accumulates before vectorisation. */
  datatype Rows = Rows(corpus: seq<seq<string>>, keyWords: seq<seq<string>>, stats: seq<Stats>, labels: seq<string>)

  /** The feature ids that have a label, in feature order. */
  function LabelledKeys(keys: seq<string>, labels: map<string, map<string, string>>): (r: seq<string>)
    ensures forall k :: k in r <==> k in keys && k in labels
    ensures |r| <= |keys|
  {
    if keys == [] then []
    else LabelledKeys(keys[..|keys| - 1], labels) + (if keys[|keys| - 1] in labels then [keys[|keys| - 1]] else [])
  }

  /** The rows built from the records in order: an unlabelled record is
      skipped; a labelled one adds a bag, a keyword entry (engine class, when
      enabled), a stats entry (when enabled) and its raw label; a label record
      without the requested field raises `KeyError`. */
  function RowsOf(keys: seq<string>, features: map<string, FeatureRecord>, labels: map<string, map<string, string>>,
                  yLabel: string, s: Setup, a: Assembly): Result<Rows>
    requires forall k :: k in keys ==> k in features
    decreases |keys|
  {
    if keys == [] then Ok(Rows([], [], [], []))
    else
      match RowsOf(keys[..|keys| - 1], features, labels, yLabel, s, a)
      case Err(e) => Err(e)
      case Ok(rows) => RowsStep(rows, keys[|keys| - 1], features, labels, yLabel, s, a)
  }

  /** One record's turn of the assembly loop. */
  function RowsStep(rows: Rows, k: string, features: map<string, FeatureRecord>, labels: map<string, map<string, string>>,
                    yLabel: string, s: Setup, a: Assembly): Result<Rows>
    requires k in features
  {
    if k !in labels then Ok(rows)
    else if yLabel !in labels[k] then Err(KeyError(yLabel))
    else
      var v := features[k];
      Ok(Rows(rows.corpus + [RowBag(v, s, a)],
              rows.keyWords + (if a.EngineAssembly? && s.keyWords then [[KeywordFeature(v)]] else []),
              rows.stats + (if s.stats then [v.stats] else []),
              rows.labels + [labels[k][yLabel]]))
  }

  lemma RowsOfSnoc(keys: seq<string>, features: map<string, FeatureRecord>, labels: map<string, map<string, string>>,
                   yLabel: string, s: Setup, a: Assembly, n: nat)
    requires forall k :: k in keys ==> k in features
    requires n < |keys| && RowsOf(keys[..n], features, labels, yLabel, s, a).Ok?
    ensures RowsOf(keys[..n + 1], features, labels, yLabel, s, a)
      == RowsStep(RowsOf(keys[..n], features, labels, yLabel, s, a).value, keys[n], features, labels, yLabel, s, a)
  {
    assert keys[..n + 1][..n] == keys[..n];
  }

  /** The assembly loop of both `__create_dataset` variants, up to the
      vectoriser. */
  method CreateDataset(features: Dict<string, FeatureRecord>, labels: Dict<string, map<string, string>>,
                       yLabel: string, s: Setup, a: Assembly) returns (r: Result<Rows>)
    requires features.Valid()
    ensures r == RowsOf(features.keys, features.m, labels.m, yLabel, s, a)
  {
    var rows := Rows([], [], [], []);
    var n := 0;
    assert features.keys[..n] == [];
    while n < |features.keys|
      invariant 0 <= n <= |features.keys|
      invariant RowsOf(features.keys[..n], features.m, labels.m, yLabel, s, a) == Ok(rows)
    {
      RowsOfSnoc(features.keys, features.m, labels.m, yLabel, s, a, n);
      var next := AddRow(rows, features.keys[n], features.m, labels.m, yLabel, s, a);
      if next.Err? {
        RowsOfErrSticks(features.keys, features.m, labels.m, yLabel, s, a, n + 1);
        return Err(next.error);
      }
      rows := next.value;
      n := n + 1;
    }
    assert features.keys[..n] == features.keys;
    return Ok(rows);
  }

  /** The loop body for one feature id: an unlabelled record is skipped;
      otherwise its bag, keyword entry and stats entry are appended before the
      label field is read, which raises `KeyError` when it is missing. */
  method AddRow(rows: Rows, k: string, features: map<string, FeatureRecord>, labels: map<string, map<string, string>>,
                yLabel: string, s: Setup, a: Assembly) returns (r: Result<Rows>)
    requires k in features
    ensures r == RowsStep(rows, k, features, labels, yLabel, s, a)
  {
    if k !in labels {
      return Ok(rows);
    }
    var labelData := labels[k];
    var v := features[k];
    var featData := RowBag(v, s, a);
    var corpus := rows.corpus + [featData];
    var keyWords := rows.keyWords;
    if a.EngineAssembly? && s.keyWords {
      var kwName := KeywordFeature(v);
      keyWords := keyWords + [[kwName]];
    }
    var stats := rows.stats;
    if s.stats {
      stats := stats + [v.stats];
    }
    if yLabel !in labelData {
      return Err(KeyError(yLabel));
    }
    var labelList := rows.labels + [labelData[yLabel]];
    assert keyWords == rows.keyWords + (if a.EngineAssembly? && s.keyWords then [[KeywordFeature(v)]] else []);
    assert stats == rows.stats + (if s.stats then [v.stats] else []);
    return Ok(Rows(corpus, keyWords, stats, labelList));
  }

  lemma {:induction false} RowsOfErrSticks(keys: seq<string>, features: map<string, FeatureRecord>,
                                          labels: map<string, map<string, string>>, yLabel: string, s: Setup, a: Assembly, n: nat)
    requires forall k :: k in keys ==> k in features
    requires n <= |keys|
    requires RowsOf(keys[..n], features, labels, yLabel, s, a).Err?
    ensures RowsOf(keys, features, labels, yLabel, s, a) == RowsOf(keys[..n], features, labels, yLabel, s, a)
    decreases |keys| - n
  {
    if n == |keys| {
      assert keys[..n] == keys;
    } else {
      assert keys[..n + 1][..n] == keys[..n];
      RowsOfErrSticks(keys, features, labels, yLabel, s, a, n + 1);
    }
  }

  /** The assembly fails exactly when some labelled record's label lacks the
      requested field, and then with `KeyError` on that field name. */
  lemma {:induction false} RowsOfFails(keys: seq<string>, features: map<string, FeatureRecord>,
                                      labels: map<string, map<string, string>>, yLabel: string, s: Setup, a: Assembly)
    requires forall k :: k in keys ==> k in features
    ensures RowsOf(keys, features, labels, yLabel, s, a).Err? <==>
      exists k :: k in LabelledKeys(keys, labels) && yLabel !in labels[k]
    ensures RowsOf(keys, features, labels, yLabel, s, a).Err? ==>
      RowsOf(keys, features, labels, yLabel, s, a).error == KeyError(yLabel)
    decreases |keys|
  {
    if keys != [] {
      RowsOfFails(keys[..|keys| - 1], features, labels, yLabel, s, a);
    }
  }

  /** One row per labelled record, in feature order: the corpus and label
      lists have equal length, the j-th row is the j-th labelled record's bag
      and raw label, and keyword and stats entries exist for every row exactly
      when enabled. */
  lemma RowsOfContent(keys: seq<string>, features: map<string, FeatureRecord>,
                       labels: map<string, map<string, string>>, yLabel: string, s: Setup, a: Assembly)
    requires forall k :: k in keys ==> k in features
    requires RowsOf(keys, features, labels, yLabel, s, a).Ok?
    ensures var rows := RowsOf(keys, features, labels, yLabel, s, a).value;
      var lk := LabelledKeys(keys, labels);
      && |rows.corpus| == |lk| && |rows.labels| == |lk|
      && |rows.keyWords| == (if a.EngineAssembly? && s.keyWords then |lk| else 0)
      && |rows.stats| == (if s.stats then |lk| else 0)
      && (forall j :: 0 <= j < |lk| ==>
            && yLabel in labels[lk[j]]
            && rows.corpus[j] == RowBag(features[lk[j]], s, a)
            && rows.labels[j] == labels[lk[j]][yLabel])
      && (forall j :: 0 <= j < |rows.keyWords| ==> rows.keyWords[j] == [KeywordFeature(features[lk[j]])])
      && (forall j :: 0 <= j < |rows.stats| ==> rows.stats[j] == features[lk[j]].stats)
  {
    RowsOfLengths(keys, features, labels, yLabel, s, a);
    RowsOfBags(keys, features, labels, yLabel, s, a);
    RowsOfExtras(keys, features, labels, yLabel, s, a);
  }

  lemma {:induction false} RowsOfLengths(keys: seq<string>, features: map<string, FeatureRecord>,
                                        labels: map<string, map<string, string>>, yLabel: string, s: Setup, a: Assembly)
    requires forall k :: k in keys ==> k in features
    requires RowsOf(keys, features, labels, yLabel, s, a).Ok?
    ensures var rows := RowsOf(keys, features, labels, yLabel, s, a).value;
      var lk := LabelledKeys(keys, labels);
      && |rows.corpus| == |lk| && |rows.labels| == |lk|
      && |rows.keyWords| == (if a.EngineAssembly? && s.keyWords then |lk| else 0)
      && |rows.stats| == (if s.stats then |lk| else 0)
    decreases |keys|
  {
    if keys != [] {
      RowsOfLengths(keys[..|keys| - 1], features, labels, yLabel, s, a);
    }
  }

  lemma {:induction false} RowsOfBags(keys: seq<string>, features: map<string, FeatureRecord>,
                                     labels: map<string, map<string, string>>, yLabel: string, s: Setup, a: Assembly)
    requires forall k :: k in keys ==> k in features
    requires RowsOf(keys, features, labels, yLabel, s, a).Ok?
    ensures var rows := RowsOf(keys, features, labels, yLabel, s, a).value;
      var lk := LabelledKeys(keys, labels);
      && |rows.corpus| == |lk| && |rows.labels| == |lk|
      && (forall j :: 0 <= j < |lk| ==>
            && yLabel in labels[lk[j]]
            && rows.corpus[j] == RowBag(features[lk[j]], s, a)
            && rows.labels[j] == labels[lk[j]][yLabel])
    decreases |keys|
  {
    if keys != [] {
      RowsOfBags(keys[..|keys| - 1], features, labels, yLabel, s, a);
    }
  }

  lemma {:induction false} RowsOfExtras(keys: seq<string>, features: map<string, FeatureRecord>,
                                       labels: map<string, map<string, string>>, yLabel: string, s: Setup, a: Assembly)
    requires forall k :: k in keys ==> k in features
    requires RowsOf(keys, features, labels, yLabel, s, a).Ok?
    ensures var rows := RowsOf(keys, features, labels, yLabel, s, a).value;
      var lk := LabelledKeys(keys, labels);
      && |rows.keyWords| == (if a.EngineAssembly? && s.keyWords then |lk| else 0)
      && |rows.stats| == (if s.stats then |lk| else 0)
      && (forall j :: 0 <= j < |rows.keyWords| ==> rows.keyWords[j] == [KeywordFeature(features[lk[j]])])
      && (forall j :: 0 <= j < |rows.stats| ==> rows.stats[j] == features[lk[j]].stats)
    decreases |keys|
  {
    if keys != [] {
      RowsOfExtras(keys[..|keys| - 1], features, labels, yLabel, s, a);
    }
  }
}
