/** The engine script of the argument classifier: its label codec, built
    from every label row, and the mapping of the dataset's raw labels through
    that codec when the dataset is split. */
module MlScript {
  import opened Wrappers
  import opened Text
  import opened PyDicts
  import opened CategoryCodec
  import opened MlUtility
  import opened FeatureBags

  /** The requested field of every label record, in dict order, "" where a
      record lacks it. */
  function FieldValues(keys: seq<string>, m: map<string, map<string, string>>, key: string): (r: seq<string>)
    requires forall k :: k in keys ==> k in m
    ensures |r| == |keys| && forall i :: 0 <= i < |keys| ==> r[i] == FieldOrEmpty(m[keys[i]], key)
    decreases |keys|
  {
    if keys == [] then [] else FieldValues(keys[..|keys| - 1], m, key) + [FieldOrEmpty(m[keys[|keys| - 1]], key)]
  }

  /** Python `__get_label_dict(labels, y_label)`: the codec of the requested
      field over all label rows. */
  method GetLabelDict(labels: Dict<string, map<string, string>>, yLabel: string) returns (labelDict: Dict<string, nat>)
    requires labels.Valid()
    ensures labelDict == CodecDict(FieldValues(labels.keys, labels.m, yLabel))
  {
    var catgList := ConvertDictDictToList(labels, yLabel);
    assert catgList == FieldValues(labels.keys, labels.m, yLabel);
    labelDict := ConvertCategToNum(catgList);
  }

  /** Every label row gets a code, whether or not a feature record carries
      its id; a row without the field contributes the code of "". */
  lemma LabelDictCoversAllRows(labels: Dict<string, map<string, string>>, yLabel: string, k: string)
    requires labels.Valid() && k in labels.m
    ensures Lower(FieldOrEmpty(labels.m[k], yLabel)) in CodecDict(FieldValues(labels.keys, labels.m, yLabel)).m
  {
    var vs := FieldValues(labels.keys, labels.m, yLabel);
    var i :| 0 <= i < |labels.keys| && labels.keys[i] == k;
    CategoriesCover(vs);
    assert Lower(vs[i]) in LoweredValues(vs);
  }

  /** A labelled row's raw label is among the values the codec was built from. */
  lemma RowLabelInFieldValues(labels: Dict<string, map<string, string>>, yLabel: string, k: string)
    requires labels.Valid() && k in labels.m && yLabel in labels.m[k]
    ensures labels.m[k][yLabel] in FieldValues(labels.keys, labels.m, yLabel)
  {
    var vs := FieldValues(labels.keys, labels.m, yLabel);
    var i :| 0 <= i < |labels.keys| && labels.keys[i] == k;
    assert vs[i] == labels.m[k][yLabel];
  }

  /** The label column of `split_dataset` maps each raw dataset label through
      the codec (`LookupAll`). Splitting the dataset assembled from the same
      label file succeeds
      exactly when every labelled row's raw label is already lower-case,
      because the codec's keys are lower-cased. */
  lemma SplitLabelsNeedLowerCase(features: Dict<string, FeatureRecord>, labels: Dict<string, map<string, string>>,
                                 yLabel: string, s: Setup, lower: bool)
    requires features.Valid() && labels.Valid()
    requires RowsOf(features.keys, features.m, labels.m, yLabel, s, ScriptAssembly(lower)).Ok?
    ensures var rows := RowsOf(features.keys, features.m, labels.m, yLabel, s, ScriptAssembly(lower)).value;
      LookupAll(CodecDict(FieldValues(labels.keys, labels.m, yLabel)).m, rows.labels).Ok? <==>
        forall j :: 0 <= j < |rows.labels| ==> Lower(rows.labels[j]) == rows.labels[j]
  {
    RowLabelsInCodec(features, labels, yLabel, s, lower);
  }

  /** Each labelled row's raw label is a codec key exactly when it is
      lower-case. */
  lemma RowLabelsInCodec(features: Dict<string, FeatureRecord>, labels: Dict<string, map<string, string>>,
                         yLabel: string, s: Setup, lower: bool)
    requires features.Valid() && labels.Valid()
    requires RowsOf(features.keys, features.m, labels.m, yLabel, s, ScriptAssembly(lower)).Ok?
    ensures var rows := RowsOf(features.keys, features.m, labels.m, yLabel, s, ScriptAssembly(lower)).value;
      forall j :: 0 <= j < |rows.labels| ==>
        (rows.labels[j] in CodecDict(FieldValues(labels.keys, labels.m, yLabel)).m <==> Lower(rows.labels[j]) == rows.labels[j])
  {
    var rows := RowsOf(features.keys, features.m, labels.m, yLabel, s, ScriptAssembly(lower)).value;
    var vs := FieldValues(labels.keys, labels.m, yLabel);
    RowsOfContent(features.keys, features.m, labels.m, yLabel, s, ScriptAssembly(lower));
    var lk := LabelledKeys(features.keys, labels.m);
    forall j | 0 <= j < |rows.labels|
      ensures rows.labels[j] in CodecDict(vs).m <==> Lower(rows.labels[j]) == rows.labels[j]
    {
      assert lk[j] in lk;
      RowLabelInFieldValues(labels, yLabel, lk[j]);
      InCodecIffLowerCase(vs, rows.labels[j]);
    }
  }
}
