/** The utility functions of the data-processing machine-learning library:
    a categorical-to-integer label codec that numbers lower-cased values in the
    order they are first seen, and the extraction of one field from a dict of
    dicts. */
module CategoryCodec {
  import opened Text
  import opened PyDicts

  /** The distinct lower-cased values of `xs`, in order of first occurrence:
      the key order of the codec's dict, and a value's code is its position. */
  function Categories(xs: seq<string>): seq<string>
    decreases |xs|
  {
    if xs == [] then []
    else
      var prev := Categories(xs[..|xs| - 1]);
      var v := Lower(xs[|xs| - 1]);
      if v in prev then prev else prev + [v]
  }

  predicate Distinct(cs: seq<string>) {
    forall i, j :: 0 <= i < j < |cs| ==> cs[i] != cs[j]
  }

  /** The set of lower-cased values of `xs`. */
  ghost function LoweredValues(xs: seq<string>): set<string> {
    set i | 0 <= i < |xs| :: Lower(xs[i])
  }

  /** Position of `v` in a duplicate-free sequence: its code. */
  ghost function Position(cs: seq<string>, v: string): (k: nat)
    requires Distinct(cs) && v in cs
    ensures k < |cs| && cs[k] == v
  {
    var k :| 0 <= k < |cs| && cs[k] == v; k
  }

  /** The codec's result as a value: each category mapped to its position. */
  function CodecDict(xs: seq<string>): (d: Dict<string, nat>)
    ensures d.Valid() && d.keys == Categories(xs)
    ensures forall i :: 0 <= i < |d.keys| ==> d.m[d.keys[i]] == i
  {
    var cs := Categories(xs);
    CategoriesWellFormed(xs);
    Dict(cs, map i | 0 <= i < |cs| :: cs[i] := i)
  }

  /** Python `convert_categ_to_num`: walks the list once, lower-cases each
      value and gives an unseen value the next code, `len(label_dict)`. */
  method ConvertCategToNum(catgList: seq<string>) returns (labelDict: Dict<string, nat>)
    ensures labelDict.Valid()
    ensures labelDict.keys == Categories(catgList)
    ensures forall i :: 0 <= i < |labelDict.keys| ==> labelDict.m[labelDict.keys[i]] == i
    ensures labelDict == CodecDict(catgList)
  {
    labelDict := Empty();
    var n := 0;
    while n < |catgList|
      invariant 0 <= n <= |catgList|
      invariant labelDict.Valid()
      invariant labelDict.keys == Categories(catgList[..n])
      invariant forall i :: 0 <= i < |labelDict.keys| ==> labelDict.m[labelDict.keys[i]] == i
    {
      assert catgList[..n + 1][..n] == catgList[..n];
      labelDict := AddCategory(labelDict, catgList[n]);
      n := n + 1;
    }
    assert catgList[..n] == catgList;
    CodecDictUnique(catgList, labelDict);
  }

  /** The loop body: an unseen lower-cased value gets the next code. */
  method AddCategory(labelDict: Dict<string, nat>, x: string) returns (r: Dict<string, nat>)
    requires labelDict.Valid()
    requires forall i :: 0 <= i < |labelDict.keys| ==> labelDict.m[labelDict.keys[i]] == i
    ensures r.Valid()
    ensures r.keys == if Lower(x) in labelDict.keys then labelDict.keys else labelDict.keys + [Lower(x)]
    ensures forall i :: 0 <= i < |r.keys| ==> r.m[r.keys[i]] == i
  {
    var value := Lower(x);
    r := labelDict;
    if value !in labelDict.m {
      DictSize(labelDict);
      r := Put(labelDict, value, |labelDict.m|);
    }
  }

  /** A dict listing the categories in order, each mapped to its position,
      is the codec dict. */
  lemma CodecDictUnique(xs: seq<string>, d: Dict<string, nat>)
    requires d.Valid() && d.keys == Categories(xs)
    requires forall i :: 0 <= i < |d.keys| ==> d.m[d.keys[i]] == i
    ensures d == CodecDict(xs)
  {
    var spec := CodecDict(xs);
    assert d.m == spec.m by {
      forall k | k in d.m ensures k in spec.m && d.m[k] == spec.m[k] {
        var i :| 0 <= i < |d.keys| && d.keys[i] == k;
        assert spec.m[spec.keys[i]] == i;
      }
    }
  }

  /** The number of entries of a dict is the number of its keys. */
  lemma DictSize<V>(d: Dict<string, V>)
    requires d.Valid()
    ensures |d.m| == |d.keys|
  {
    assert d.m.Keys == set k | k in d.keys;
    DistinctCardinality(d.keys);
  }

  lemma {:induction false} DistinctCardinality(s: seq<string>)
    requires forall i, j :: 0 <= i < j < |s| ==> s[i] != s[j]
    ensures |set k | k in s| == |s|
  {
    if s != [] {
      var init := s[..|s| - 1];
      DistinctCardinality(init);
      assert (set k | k in s) == (set k | k in init) + {s[|s| - 1]};
      assert s[|s| - 1] !in init;
    }
  }

  /** Keys are lower-case and listed once. */
  lemma {:induction false} CategoriesWellFormed(xs: seq<string>)
    ensures Distinct(Categories(xs))
    ensures forall c :: c in Categories(xs) ==> Lower(c) == c
    decreases |xs|
  {
    if xs != [] {
      CategoriesWellFormed(xs[..|xs| - 1]);
      LowerIdempotent(xs[|xs| - 1]);
    }
  }

  lemma LoweredValuesSnoc(xs: seq<string>)
    requires xs != []
    ensures LoweredValues(xs) == LoweredValues(xs[..|xs| - 1]) + {Lower(xs[|xs| - 1])}
  {
    var init := xs[..|xs| - 1];
    forall c | c in LoweredValues(xs)
      ensures c in LoweredValues(init) + {Lower(xs[|xs| - 1])}
    {
      var i :| 0 <= i < |xs| && c == Lower(xs[i]);
      if i < |init| {
        assert init[i] == xs[i];
      }
    }
    forall c | c in LoweredValues(init)
      ensures c in LoweredValues(xs)
    {
      var i :| 0 <= i < |init| && c == Lower(init[i]);
      assert xs[i] == init[i];
    }
  }

  lemma {:induction false} CategoriesValues(xs: seq<string>)
    ensures (set c | c in Categories(xs)) == LoweredValues(xs)
    decreases |xs|
  {
    if xs != [] {
      CategoriesValues(xs[..|xs| - 1]);
      LoweredValuesSnoc(xs);
    }
  }

  /** Every lower-cased input value has a code, the codes are exactly
      0..k-1, and k is the number of distinct lower-cased values; keys are
      lower-case and listed once. */
  lemma CategoriesCover(xs: seq<string>)
    ensures Distinct(Categories(xs))
    ensures forall c :: c in Categories(xs) ==> Lower(c) == c
    ensures forall c :: c in Categories(xs) <==> c in LoweredValues(xs)
    ensures |Categories(xs)| == |LoweredValues(xs)|
  {
    CategoriesWellFormed(xs);
    CategoriesValues(xs);
    DistinctCardinality(Categories(xs));
  }

  /** Codes follow first occurrence: when position `j` is the first
      occurrence of its lower-cased value, every value seen before it has a
      smaller code. */
  lemma {:induction false} CategoriesFirstSeen(xs: seq<string>, i: nat, j: nat)
    requires i < j < |xs|
    requires forall k :: 0 <= k < j ==> Lower(xs[k]) != Lower(xs[j])
    ensures Distinct(Categories(xs))
    ensures Lower(xs[i]) in Categories(xs) && Lower(xs[j]) in Categories(xs)
    ensures Position(Categories(xs), Lower(xs[i])) < Position(Categories(xs), Lower(xs[j]))
  {
    var cs := Categories(xs);
    var pre := xs[..j];
    var before := Categories(pre);
    CategoriesWellFormed(xs);
    CategoriesValues(pre);
    assert Lower(pre[i]) in LoweredValues(pre);
    assert Lower(xs[j]) !in LoweredValues(pre) by {
      assert forall k :: 0 <= k < j ==> Lower(pre[k]) != Lower(xs[j]);
    }
    assert xs[..j + 1] == pre + [xs[j]];
    CategoriesSnoc(pre, xs[j]);
    CategoriesPrefix(xs, j + 1);
    var ext := before + [Lower(xs[j])];
    assert cs[..|before| + 1] == ext;
    var pi :| 0 <= pi < |before| && before[pi] == Lower(xs[i]);
    assert ext[pi] == Lower(xs[i]) && ext[|before|] == Lower(xs[j]);
    assert cs[pi] == ext[pi] && cs[|before|] == ext[|before|];
    PositionOf(cs, pi);
    PositionOf(cs, |before|);
  }

  lemma PositionOf(cs: seq<string>, k: nat)
    requires Distinct(cs) && k < |cs|
    ensures Position(cs, cs[k]) == k
  {
  }

  /** The categories of a prefix are a prefix of the categories. */
  lemma {:induction false} CategoriesPrefix(xs: seq<string>, n: nat)
    requires n <= |xs|
    ensures |Categories(xs[..n])| <= |Categories(xs)|
    ensures Categories(xs)[..|Categories(xs[..n])|] == Categories(xs[..n])
    decreases |xs| - n
  {
    if n < |xs| {
      CategoriesPrefix(xs, n + 1);
      assert xs[..n + 1][..n] == xs[..n];
    } else {
      assert xs[..n] == xs;
    }
  }

  /** Two values share a code exactly when they agree after lower-casing, so
      inverting the codec loses nothing. */
  lemma SameCodeIffSameLowered(xs: seq<string>, x: string, y: string)
    requires x in xs && y in xs
    ensures Distinct(Categories(xs))
    ensures Lower(x) in Categories(xs) && Lower(y) in Categories(xs)
    ensures Position(Categories(xs), Lower(x)) == Position(Categories(xs), Lower(y)) <==> Lower(x) == Lower(y)
  {
    CategoriesCover(xs);
    var i :| 0 <= i < |xs| && xs[i] == x;
    var j :| 0 <= j < |xs| && xs[j] == y;
    assert Lower(xs[i]) in LoweredValues(xs);
    assert Lower(xs[j]) in LoweredValues(xs);
  }

  /** Re-running the codec on its own keys, in insertion order, gives the
      same keys in the same order, hence the same codes. */
  lemma CodecIdempotent(xs: seq<string>)
    ensures Categories(Categories(xs)) == Categories(xs)
  {
    CategoriesCover(xs);
    var cs := Categories(xs);
    forall i | 0 <= i < |cs| ensures Lower(cs[i]) == cs[i] {
      assert cs[i] in cs;
    }
    CategoriesOfDistinctLower(cs);
  }

  lemma {:induction false} CategoriesOfDistinctLower(cs: seq<string>)
    requires Distinct(cs)
    requires forall i :: 0 <= i < |cs| ==> Lower(cs[i]) == cs[i]
    ensures Categories(cs) == cs
    decreases |cs|
  {
    if cs != [] {
      var init := cs[..|cs| - 1];
      var last := cs[|cs| - 1];
      assert Distinct(init) by {
        forall i, j | 0 <= i < j < |init| ensures init[i] != init[j] {
          assert init[i] == cs[i] && init[j] == cs[j];
        }
      }
      forall i | 0 <= i < |init| ensures Lower(init[i]) == init[i] {
        assert init[i] == cs[i];
      }
      CategoriesOfDistinctLower(init);
      assert last !in init by {
        forall i | 0 <= i < |init| ensures init[i] != last {
          assert init[i] == cs[i];
        }
      }
      assert cs == init + [last];
      CategoriesSnoc(init, last);
    }
  }

  /** One more value extends the categories when its lower-cased form is new. */
  lemma CategoriesSnoc(init: seq<string>, x: string)
    ensures Categories(init + [x]) ==
      if Lower(x) in Categories(init) then Categories(init) else Categories(init) + [Lower(x)]
  {
    assert (init + [x])[..|init|] == init;
  }

  /** `v.get(key, "")` on one inner dict. */
  function FieldOrEmpty(record: map<string, string>, key: string): string {
    if key in record then record[key] else ""
  }

  /** Python `convert_dict_dict_to_list`: one value per outer entry, in the
      outer dict's iteration order, with "" where the inner dict lacks the key. */
  method ConvertDictDictToList<K(==, !new)>(dictDict: Dict<K, map<string, string>>, key: string) returns (values: seq<string>)
    requires dictDict.Valid()
    ensures |values| == |dictDict.keys|
    ensures forall i :: 0 <= i < |values| ==>
      values[i] == (if key in dictDict.m[dictDict.keys[i]] then dictDict.m[dictDict.keys[i]][key] else "")
  {
    values := [];
    var n := 0;
    while n < |dictDict.keys|
      invariant 0 <= n <= |dictDict.keys|
      invariant |values| == n
      invariant forall i :: 0 <= i < n ==> values[i] == FieldOrEmpty(dictDict.m[dictDict.keys[i]], key)
    {
      var value := FieldOrEmpty(dictDict.m[dictDict.keys[n]], key);
      values := values + [value];
      n := n + 1;
    }
  }
}
