/** Label transformation of the argument classifier's machine-learning engine
    (`get_label_dict`) and the prefix naming of one-hot keyword features
    (`value_to_features`). */
module MlUtility {
  import opened Wrappers
  import opened Text
  import opened PyDicts
  import opened CategoryCodec

  /** The task type values of the engine's `TaskType` enumeration. */
  const Identification: string := "identification"
  const Classification: string := "classification"

  /** A label list after transformation: integer codes, or the original
      labels when the task type is neither known value. */
  datatype LabelList = Codes(codes: seq<int>) | Names(names: seq<string>)

  /** `0 if item == "-" else 1` for every item. */
  function BinaryCodes(labels: seq<string>): (r: seq<int>)
    ensures |r| == |labels|
    ensures forall i :: 0 <= i < |labels| ==> r[i] == (if labels[i] == "-" then 0 else 1)
  {
    if labels == [] then [] else [if labels[0] == "-" then 0 else 1] + BinaryCodes(labels[1..])
  }

  /** `[label_dict[item] for item in items]`: the first item without an entry
      raises `KeyError`. */
  function LookupAll(m: map<string, nat>, items: seq<string>): (r: Result<seq<int>>)
    ensures r.Ok? <==> forall i :: 0 <= i < |items| ==> items[i] in m
    ensures r.Ok? ==> |r.value| == |items| && forall i :: 0 <= i < |items| ==> r.value[i] == m[items[i]]
    ensures r.Err? ==> exists i :: 0 <= i < |items| && items[i] !in m && r.error == KeyError(items[i])
  {
    if items == [] then Ok([])
    else if items[0] !in m then Err(KeyError(items[0]))
    else
      match LookupAll(m, items[1..])
      case Err(e) => Err(e)
      case Ok(rest) => Ok([m[items[0]]] + rest)
  }

  /** `{v: k for k, v in d.items()}` over the keys in insertion order; a later
      key with the same value overwrites an earlier one. */
  function InvertPairs(keys: seq<string>, m: map<string, nat>): (r: Dict<int, string>)
    requires forall i :: 0 <= i < |keys| ==> keys[i] in m
    ensures r.Valid()
    decreases |keys|
  {
    if keys == [] then Empty()
    else
      var init := keys[..|keys| - 1];
      var last := keys[|keys| - 1];
      Put(InvertPairs(init, m), m[last], last)
  }

  /** The identification label dict `{0: "no", 1: "yes"}`. */
  function BinaryDict(): (d: Dict<int, string>)
    ensures d.Valid()
  {
    Dict([0, 1], map[0 := "no", 1 := "yes"])
  }

  /** Python `get_label_dict` (and the engine's `__get_label_dict`, which
      has the same code). */
  function GetLabelDict(taskType: string, labelList: seq<string>): (r: Result<(Dict<int, string>, LabelList)>)
    ensures taskType == Identification ==>
      r.Ok? && r.value.0 == BinaryDict() && r.value.1.Codes?
      && |r.value.1.codes| == |labelList|
      && forall i :: 0 <= i < |labelList| ==> (r.value.1.codes[i] == 0 <==> labelList[i] == "-")
    ensures taskType == Identification ==>
      forall i :: 0 <= i < |labelList| ==> r.value.1.codes[i] in r.value.0.m
    ensures taskType != Identification && taskType != Classification ==>
      r == Ok((Empty(), Names(labelList)))
  {
    if taskType == Identification then
      Ok((BinaryDict(), Codes(BinaryCodes(labelList))))
    else if taskType == Classification then
      var labelDict := CodecDict(labelList);
      match LookupAll(labelDict.m, labelList)
      case Err(e) => Err(e)
      case Ok(codes) => Ok((InvertPairs(labelDict.keys, labelDict.m), Codes(codes)))
    else
      Ok((Empty(), Names(labelList)))
  }

  /** A raw label has an entry in the codec exactly when it is already
      lower-case, because the codec's keys are the lower-cased labels. */
  lemma InCodecIffLowerCase(labels: seq<string>, x: string)
    requires x in labels
    ensures x in CodecDict(labels).m <==> Lower(x) == x
  {
    CategoriesCover(labels);
    var i :| 0 <= i < |labels| && labels[i] == x;
    assert Lower(labels[i]) in LoweredValues(labels);
  }

  /** The classification branch fails with `KeyError` exactly when some label
      is not already lower-case. */
  lemma ClassificationKeyError(labels: seq<string>)
    ensures GetLabelDict(Classification, labels).Err? <==>
      exists i :: 0 <= i < |labels| && Lower(labels[i]) != labels[i]
    ensures GetLabelDict(Classification, labels).Err? ==>
      exists i :: 0 <= i < |labels| && Lower(labels[i]) != labels[i]
        && GetLabelDict(Classification, labels).error == KeyError(labels[i])
  {
    forall i | 0 <= i < |labels|
      ensures labels[i] in CodecDict(labels).m <==> Lower(labels[i]) == labels[i]
    {
      InCodecIffLowerCase(labels, labels[i]);
    }
  }

  /** The codes 0..n-1 in order. */
  function Range(n: nat): (r: seq<int>)
    ensures |r| == n && forall i :: 0 <= i < n ==> r[i] == i
  {
    if n == 0 then [] else Range(n - 1) + [n - 1]
  }

  /** Inverting the codec dict lists the codes 0..k-1, in order... */
  lemma {:induction false} InvertCodecKeys(cs: seq<string>, m: map<string, nat>)
    requires forall i :: 0 <= i < |cs| ==> cs[i] in m && m[cs[i]] == i
    ensures InvertPairs(cs, m).keys == Range(|cs|)
    decreases |cs|
  {
    if cs != [] {
      var n := |cs|;
      var init := cs[..n - 1];
      forall i | 0 <= i < |init| ensures init[i] in m && m[init[i]] == i {
        assert init[i] == cs[i];
      }
      InvertCodecKeys(init, m);
      assert m[cs[n - 1]] == n - 1;
      InvertStep(InvertPairs(init, m), InvertPairs(cs, m), n, cs[n - 1]);
    }
  }

  /** ...each mapped to its category. */
  lemma {:induction false} InvertCodecValues(cs: seq<string>, m: map<string, nat>)
    requires forall i :: 0 <= i < |cs| ==> cs[i] in m && m[cs[i]] == i
    ensures forall i :: 0 <= i < |cs| ==> i in InvertPairs(cs, m).m && InvertPairs(cs, m).m[i] == cs[i]
    decreases |cs|
  {
    if cs != [] {
      var n := |cs|;
      var init := cs[..n - 1];
      forall i | 0 <= i < |init| ensures init[i] in m && m[init[i]] == i {
        assert init[i] == cs[i];
      }
      InvertCodecValues(init, m);
      var prev := InvertPairs(init, m);
      var cur := InvertPairs(cs, m);
      assert m[cs[n - 1]] == n - 1;
      assert cur.m == prev.m[n - 1 := cs[n - 1]];
      forall i | 0 <= i < n ensures i in cur.m && cur.m[i] == cs[i] {
        if i < n - 1 {
          assert prev.m[i] == init[i] == cs[i];
        }
      }
    }
  }

  /** Adding the next code to an inverse listing the codes below it. */
  lemma InvertStep(prev: Dict<int, string>, cur: Dict<int, string>, n: nat, x: string)
    requires n > 0 && prev.Valid() && prev.keys == Range(n - 1)
    requires cur == Put(prev, n - 1, x)
    ensures cur.keys == Range(n) && cur.m == prev.m[n - 1 := x]
  {
    assert n - 1 !in Range(n - 1);
  }

  /** With lower-case labels, every label has its codec entry, and the
      classification branch returns the inverted codec and the looked-up codes. */
  lemma ClassificationUnfold(labels: seq<string>)
    requires forall i :: 0 <= i < |labels| ==> Lower(labels[i]) == labels[i]
    ensures forall i :: 0 <= i < |labels| ==> labels[i] in CodecDict(labels).m
    ensures LookupAll(CodecDict(labels).m, labels).Ok?
    ensures GetLabelDict(Classification, labels) ==
      Ok((InvertPairs(Categories(labels), CodecDict(labels).m), Codes(LookupAll(CodecDict(labels).m, labels).value)))
  {
    forall i | 0 <= i < |labels| ensures labels[i] in CodecDict(labels).m {
      InCodecIffLowerCase(labels, labels[i]);
    }
  }

  /** The classification branch on lower-case labels: the returned dict is
      the code-to-label inverse of the codec, listing codes 0..k-1. */
  lemma ClassificationDict(labels: seq<string>)
    requires forall i :: 0 <= i < |labels| ==> Lower(labels[i]) == labels[i]
    ensures GetLabelDict(Classification, labels).Ok?
    ensures GetLabelDict(Classification, labels).value.0.keys == Range(|Categories(labels)|)
    ensures forall i :: 0 <= i < |Categories(labels)| ==>
      i in GetLabelDict(Classification, labels).value.0.m
      && GetLabelDict(Classification, labels).value.0.m[i] == Categories(labels)[i]
  {
    ClassificationUnfold(labels);
    var d := CodecDict(labels);
    var cs := d.keys;
    forall i | 0 <= i < |cs| ensures cs[i] in d.m && d.m[cs[i]] == i {
      assert cs[i] in d.keys;
    }
    InvertCodecKeys(cs, d.m);
    InvertCodecValues(cs, d.m);
    assert GetLabelDict(Classification, labels).value.0 == InvertPairs(cs, d.m);
  }

  /** The classification branch on lower-case labels: each label gets its
      first-seen code, and decoding that code through the returned dict gives
      the label back. */
  lemma ClassificationRoundTrip(labels: seq<string>, i: nat)
    requires forall j :: 0 <= j < |labels| ==> Lower(labels[j]) == labels[j]
    requires i < |labels|
    ensures Distinct(Categories(labels)) && labels[i] in Categories(labels)
    ensures GetLabelDict(Classification, labels).Ok?
    ensures GetLabelDict(Classification, labels).value.1.Codes?
    ensures |GetLabelDict(Classification, labels).value.1.codes| == |labels|
    ensures GetLabelDict(Classification, labels).value.1.codes[i] == Position(Categories(labels), labels[i])
    ensures Position(Categories(labels), labels[i]) in GetLabelDict(Classification, labels).value.0.m
    ensures GetLabelDict(Classification, labels).value.0.m[Position(Categories(labels), labels[i])] == labels[i]
  {
    var cs := Categories(labels);
    var d := CodecDict(labels);
    CategoriesWellFormed(labels);
    ClassificationUnfold(labels);
    ClassificationDict(labels);
    InCodecIffLowerCase(labels, labels[i]);
    var p := Position(cs, labels[i]);
    assert d.m[cs[p]] == p;
    var codes := LookupAll(d.m, labels).value;
    assert codes[i] == d.m[labels[i]] == p;
    var r := GetLabelDict(Classification, labels).value;
    assert r.1 == Codes(codes);
    assert r.0.m[p] == cs[p];
  }

  /** The one-hot feature name of one value. */
  function FeatureName(prefix: string, value: string): (r: string)
    ensures StartsWith(r, prefix + "_")
    ensures ' ' !in r[|prefix| + 1..]
    ensures |r| == |prefix| + 1 + |value|
  {
    prefix + "_" + ReplaceChar(Lower(value), ' ', '_')
  }

  /** Python `value_to_features`: one name per value in order, or the single
      sentinel `prefix + "_none"` for an empty list. */
  method ValueToFeatures(values: seq<string>, prefix: string) returns (keyWords: seq<string>)
    ensures |values| > 0 ==> |keyWords| == |values|
    ensures forall i :: 0 <= i < |values| ==> keyWords[i] == FeatureName(prefix, values[i])
    ensures |values| == 0 ==> keyWords == [prefix + "_none"]
    ensures |keyWords| == if |values| > 0 then |values| else 1
  {
    keyWords := [];
    if |values| > 0 {
      var n := 0;
      while n < |values|
        invariant 0 <= n <= |values|
        invariant |keyWords| == n
        invariant forall i :: 0 <= i < n ==> keyWords[i] == FeatureName(prefix, values[i])
      {
        var kwName := prefix + "_" + ReplaceChar(Lower(values[n]), ' ', '_');
        keyWords := keyWords + [kwName];
        n := n + 1;
      }
    } else {
      var kwName := prefix + "_none";
      keyWords := keyWords + [kwName];
    }
  }

  /** The sentinel is a possible name too: a value that lower-cases to
      "none" yields the same feature as the empty list. */
  lemma SentinelCollision(prefix: string, value: string)
    requires Lower(value) == "none"
    ensures FeatureName(prefix, value) == prefix + "_none"
  {
    assert ReplaceChar("none", ' ', '_') == "none";
  }
}
