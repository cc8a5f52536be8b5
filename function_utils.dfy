/** The string and collection helpers of the feature extractor
    (`FunctionUtils`): array joining through a string builder, sub-arrays,
    list rendering and parsing, sets and map keys as lists, and sorting a map
    by value. */
module FunctionUtils {
  import opened Wrappers
  import opened Text
  import opened PyDicts

  predicate NoDuplicates<T(==)>(xs: seq<T>) {
    forall i, j :: 0 <= i < j < |xs| ==> xs[i] != xs[j]
  }

  // ---------------------------------------------------------------------------
  // arrayToString

  /** The builder's content after appending each item followed by the delimiter. */
  function Appended(items: seq<string>, delimiter: string): string
    decreases |items|
  {
    if items == [] then "" else Appended(items[..|items| - 1], delimiter) + items[|items| - 1] + delimiter
  }

  /** `arrayToString` as a value: "" for a null or empty array; otherwise the
      builder's content with its last character deleted, which raises when
      the content is empty. */
  function ArrayToStringOf(arr: Option<seq<string>>, delimiter: string): Result<string> {
    if arr.None? || |arr.value| == 0 then Ok("")
    else
      var content := Appended(arr.value, delimiter);
      if |content| == 0 then Err(StringIndexOutOfBounds) else Ok(content[..|content| - 1])
  }

  /** Java `arrayToString(array, delimiter)`, the item strings being the
      items' `toString()`. */
  method ArrayToString(arr: Option<seq<string>>, delimiter: string) returns (r: Result<string>)
    ensures r == ArrayToStringOf(arr, delimiter)
  {
    var result := "";
    if arr.Some? && |arr.value| > 0 {
      var items := arr.value;
      var sb := "";
      var n := 0;
      while n < |items|
        invariant 0 <= n <= |items|
        invariant sb == Appended(items[..n], delimiter)
      {
        assert items[..n + 1][..n] == items[..n];
        sb := sb + items[n] + delimiter;
        n := n + 1;
      }
      assert items[..n] == items;
      if |sb| == 0 {
        return Err(StringIndexOutOfBounds);
      }
      result := sb[..|sb| - 1];
    }
    return Ok(result);
  }

  /** The appended content is the join followed by one more delimiter. */
  lemma {:induction false} AppendedJoin(items: seq<string>, delimiter: string)
    requires items != []
    ensures Appended(items, delimiter) == Join(items, delimiter) + delimiter
    decreases |items|
  {
    var init := items[..|items| - 1];
    var last := items[|items| - 1];
    if init == [] {
      assert items == [last];
    } else {
      AppendedJoin(init, delimiter);
      JoinSnoc(init, last, delimiter);
      assert init + [last] == items;
    }
  }

  /** With a non-empty delimiter the result is the join plus all but the last
      delimiter character: exactly the join for a one-character delimiter. */
  lemma ArrayToStringJoin(items: seq<string>, delimiter: string)
    requires items != [] && |delimiter| >= 1
    ensures ArrayToStringOf(Some(items), delimiter) == Ok(Join(items, delimiter) + delimiter[..|delimiter| - 1])
    ensures |delimiter| == 1 ==> ArrayToStringOf(Some(items), delimiter) == Ok(Join(items, delimiter))
  {
    AppendedJoin(items, delimiter);
    var j := Join(items, delimiter);
    assert (j + delimiter)[..|j + delimiter| - 1] == j + delimiter[..|delimiter| - 1];
  }

  /** With an empty delimiter the last character of the text is lost, and
      an array of empty strings raises. */
  lemma ArrayToStringEmptyDelimiter(items: seq<string>)
    requires items != []
    ensures Join(items, "") == "" ==> ArrayToStringOf(Some(items), "") == Err(StringIndexOutOfBounds)
    ensures Join(items, "") != "" ==>
      ArrayToStringOf(Some(items), "") == Ok(Join(items, "")[..|Join(items, "")| - 1])
  {
    AppendedJoin(items, "");
    assert Join(items, "") + "" == Join(items, "");
  }

  // ---------------------------------------------------------------------------
  // getSubArray

  /** Java `getSubArray(array, startIx, endIndex)`: null (`None`) unless
      `startIx >= 0` and `endIndex <= length`; inside those bounds
      `Arrays.copyOfRange` raises when the start is past the end. */
  function GetSubArray(arr: seq<string>, startIx: int, endIndex: int): (r: Result<Option<seq<string>>>)
    ensures !(startIx >= 0 && endIndex <= |arr|) <==> r == Ok(None)
    ensures startIx >= 0 && endIndex <= |arr| && startIx > endIndex <==> r == Err(IllegalArgument)
    ensures 0 <= startIx <= endIndex <= |arr| ==>
      r.Ok? && r.value.Some? && |r.value.value| == endIndex - startIx
      && forall k :: 0 <= k < endIndex - startIx ==> r.value.value[k] == arr[startIx + k]
  {
    if startIx >= 0 && endIndex <= |arr| then
      if startIx > endIndex then Err(IllegalArgument) else Ok(Some(arr[startIx..endIndex]))
    else Ok(None)
  }

  /** Adjacent windows concatenate to the covering window. */
  lemma SubArrayConcat(arr: seq<string>, i: int, j: int, k: int)
    requires 0 <= i <= j <= k <= |arr|
    ensures GetSubArray(arr, i, j).value.value + GetSubArray(arr, j, k).value.value
      == GetSubArray(arr, i, k).value.value
  {
    assert arr[i..j] + arr[j..k] == arr[i..k];
  }

  // ---------------------------------------------------------------------------
  // List rendering and parsing

  /** Java `listToString(list, sep)`: `Collectors.joining(sep + "," + sep, sep, sep)`. */
  function ListToString(list: seq<string>, sep: string): (r: string)
    ensures r == sep + Join(list, sep + "," + sep) + sep
    ensures list == [] ==> r == sep + sep
  {
    sep + Join(list, sep + "," + sep) + sep
  }

  /** Java `createListFromText(text)`: every "[" and "]" removed, then Java's
      split on ",", which drops trailing empty strings. */
  function CreateListFromText(text: string): (r: seq<string>)
    ensures forall i :: 0 <= i < |r| ==> ',' !in r[i] && '[' !in r[i] && ']' !in r[i]
  {
    var s := RemoveChar(RemoveChar(text, '['), ']');
    SplitFieldsFree(s, ',');
    var r := JavaSplit(s, ',');
    assert forall i :: 0 <= i < |r| ==> forall x :: x in r[i] ==> x in s by {
      forall i, x | 0 <= i < |r| && x in r[i] ensures x in s {
        SplitFieldsChars(s, ',', i, x);
      }
    }
    r
  }

  lemma {:induction false} SplitFieldsChars(s: string, c: char, i: nat, x: char)
    requires i < |JavaSplit(s, c)| && x in JavaSplit(s, c)[i]
    ensures x in s
  {
    if c in s {
      SplitChars(s, c, i, x);
    }
  }

  lemma {:induction false} SplitChars(s: string, c: char, i: nat, x: char)
    requires i < |Split(s, c)| && x in Split(s, c)[i]
    ensures x in s
    decreases |s|
  {
    var k := IndexOf(s, c);
    if k < |s| && i > 0 {
      SplitChars(s[k + 1..], c, i - 1, x);
    }
  }

  /** A bracketed list rendered with an empty quote reads back: the elements
      must be free of brackets and commas, the list non-empty, and its last
      element non-empty unless it is the only one. */
  lemma ListRoundTrip(list: seq<string>)
    requires |list| >= 1
    requires forall i :: 0 <= i < |list| ==> ',' !in list[i] && '[' !in list[i] && ']' !in list[i]
    requires |list| == 1 || list[|list| - 1] != ""
    ensures CreateListFromText("[" + ListToString(list, "") + "]") == list
  {
    var j := Join(list, ",");
    assert "" + "," + "" == ",";
    assert ListToString(list, "") == "" + j + "";
    assert "" + j + "" == j;
    JoinFree(list, ",", '[');
    JoinFree(list, ",", ']');
    RemoveCharConcat("[" + j, "]", '[');
    RemoveCharConcat("[", j, '[');
    RemoveCharConcat(j, "]", ']');
    assert RemoveChar(RemoveChar("[" + j + "]", '['), ']') == j;
    JavaSplitJoin(list, ',');
  }

  /** A join of fields free of a character, with a separator free of it, is free of it. */
  lemma {:induction false} JoinFree(parts: seq<string>, sep: string, x: char)
    requires x !in sep
    requires forall i :: 0 <= i < |parts| ==> x !in parts[i]
    ensures x !in Join(parts, sep)
    decreases |parts|
  {
    if |parts| > 1 {
      JoinFree(parts[1..], sep, x);
    }
  }

  // ---------------------------------------------------------------------------
  // Sets and map keys as lists

  /** Java `listFromSet(set)`: the elements in the set's iteration order,
      which is left unspecified. */
  method ListFromSet<T(==)>(s: set<T>) returns (list: seq<T>)
    ensures NoDuplicates(list)
    ensures forall x :: x in list <==> x in s
    ensures |list| == |s|
  {
    list := [];
    var rest := s;
    while rest != {}
      invariant rest <= s
      invariant forall x :: x in list <==> x in s && x !in rest
      invariant NoDuplicates(list)
      invariant |list| + |rest| == |s|
      decreases |rest|
    {
      var x :| x in rest;
      list := list + [x];
      rest := rest - {x};
    }
  }

  /** Java `listFromMapKeys(map)`: the keys in the map's iteration order. */
  method ListFromMapKeys<K(==), V>(m: map<K, V>) returns (list: seq<K>)
    ensures NoDuplicates(list)
    ensures forall k :: k in list <==> k in m
    ensures |list| == |m|
  {
    list := ListFromSet(m.Keys);
  }

  // ---------------------------------------------------------------------------
  // sortMapByValue

  /** Inserting one entry after every entry whose value is at least its own:
      one step of a stable sort by non-increasing value. */
  function InsertByValue(sorted: seq<(string, int)>, e: (string, int)): seq<(string, int)>
    decreases |sorted|
  {
    if sorted == [] then [e]
    else if sorted[0].1 >= e.1 then [sorted[0]] + InsertByValue(sorted[1..], e)
    else [e] + sorted
  }

  /** The entries stably sorted by non-increasing value, as the stream's
      `sorted(comparingByValue(reverseOrder()))` orders them. */
  function SortByValue(entries: seq<(string, int)>): seq<(string, int)>
    decreases |entries|
  {
    if entries == [] then [] else InsertByValue(SortByValue(entries[..|entries| - 1]), entries[|entries| - 1])
  }

  predicate NonIncreasing(xs: seq<(string, int)>) {
    forall i, j :: 0 <= i < j < |xs| ==> xs[i].1 >= xs[j].1
  }

  predicate DistinctKeys(xs: seq<(string, int)>) {
    forall i, j :: 0 <= i < j < |xs| ==> xs[i].0 != xs[j].0
  }

  function KeysOf(xs: seq<(string, int)>): (r: seq<string>)
    ensures |r| == |xs| && forall i :: 0 <= i < |xs| ==> r[i] == xs[i].0
  {
    if xs == [] then [] else KeysOf(xs[..|xs| - 1]) + [xs[|xs| - 1].0]
  }

  /** Insertion puts the entry at one position and shifts the rest. */
  lemma {:induction false} InsertSplits(sorted: seq<(string, int)>, e: (string, int))
    ensures exists k :: 0 <= k <= |sorted| && InsertByValue(sorted, e) == sorted[..k] + [e] + sorted[k..]
    decreases |sorted|
  {
    if sorted == [] {
      assert InsertByValue(sorted, e) == sorted[..0] + [e] + sorted[0..];
    } else if sorted[0].1 >= e.1 {
      InsertSplits(sorted[1..], e);
      var k :| 0 <= k <= |sorted[1..]| && InsertByValue(sorted[1..], e) == sorted[1..][..k] + [e] + sorted[1..][k..];
      assert [sorted[0]] + sorted[1..][..k] == sorted[..k + 1];
      assert sorted[1..][k..] == sorted[k + 1..];
    } else {
      assert InsertByValue(sorted, e) == sorted[..0] + [e] + sorted[0..];
    }
  }

  lemma {:induction false} InsertKeepsOrder(sorted: seq<(string, int)>, e: (string, int))
    requires NonIncreasing(sorted)
    ensures NonIncreasing(InsertByValue(sorted, e))
    ensures |InsertByValue(sorted, e)| == |sorted| + 1
    ensures sorted != [] ==> InsertByValue(sorted, e)[0] == (if sorted[0].1 >= e.1 then sorted[0] else e)
    decreases |sorted|
  {
    if sorted != [] && sorted[0].1 >= e.1 {
      InsertKeepsOrder(sorted[1..], e);
      var rest := InsertByValue(sorted[1..], e);
      assert forall j :: 0 <= j < |rest| ==> rest[j].1 <= sorted[0].1 by {
        InsertSplits(sorted[1..], e);
        forall j | 0 <= j < |rest| ensures rest[j].1 <= sorted[0].1 {
          assert rest[j] in sorted[1..] || rest[j] == e by {
            var k :| 0 <= k <= |sorted[1..]| && rest == sorted[1..][..k] + [e] + sorted[1..][k..];
            if j < k {
              assert rest[j] == sorted[1..][j];
            } else if j > k {
              assert rest[j] == sorted[1..][j - 1];
            }
          }
          if rest[j] != e {
            var m :| 0 <= m < |sorted[1..]| && sorted[1..][m] == rest[j];
            assert sorted[1..][m] == sorted[m + 1];
          }
        }
      }
    }
  }

  /** The sort orders by non-increasing value and is a permutation. */
  lemma {:induction false} SortByValueSorted(entries: seq<(string, int)>)
    ensures NonIncreasing(SortByValue(entries))
    ensures multiset(SortByValue(entries)) == multiset(entries)
    decreases |entries|
  {
    if entries != [] {
      var init := entries[..|entries| - 1];
      var e := entries[|entries| - 1];
      SortByValueSorted(init);
      InsertKeepsOrder(SortByValue(init), e);
      InsertMultiset(SortByValue(init), e);
      assert entries == init + [e];
    }
  }

  lemma InsertMultiset(s: seq<(string, int)>, e: (string, int))
    ensures multiset(InsertByValue(s, e)) == multiset(s) + multiset{e}
  {
    InsertSplits(s, e);
    var k :| 0 <= k <= |s| && InsertByValue(s, e) == s[..k] + [e] + s[k..];
    assert s == s[..k] + s[k..];
  }

  /** The keys of the sorted entries are those of the entries, each once
      when the entries' keys are distinct. */
  lemma SortByValueKeys(entries: seq<(string, int)>)
    requires DistinctKeys(entries)
    ensures DistinctKeys(SortByValue(entries))
    ensures forall e :: e in SortByValue(entries) <==> e in entries
  {
    var s := SortByValue(entries);
    SortByValueSorted(entries);
    assert forall e :: e in s <==> e in multiset(s);
    assert forall e :: e in entries <==> e in multiset(entries);
    forall i, j | 0 <= i < j < |s| ensures s[i].0 != s[j].0 {
      if s[i].0 == s[j].0 {
        SameKeySameEntry(entries, s[i], s[j]);
        MultisetTwice(s, i, j);
        assert multiset(entries)[s[i]] >= 2;
        CountAtMostOne(entries, s[i]);
      }
    }
  }

  lemma SameKeySameEntry(entries: seq<(string, int)>, a: (string, int), b: (string, int))
    requires DistinctKeys(entries)
    requires a in entries && b in entries && a.0 == b.0
    ensures a == b
  {
    var i :| 0 <= i < |entries| && entries[i] == a;
    var j :| 0 <= j < |entries| && entries[j] == b;
  }

  lemma {:induction false} MultisetTwice(s: seq<(string, int)>, i: nat, j: nat)
    requires i < j < |s| && s[i] == s[j]
    ensures multiset(s)[s[i]] >= 2
  {
    assert s == s[..i] + [s[i]] + s[i + 1..j] + [s[j]] + s[j + 1..];
  }

  lemma {:induction false} CountAtMostOne(entries: seq<(string, int)>, e: (string, int))
    requires DistinctKeys(entries)
    ensures multiset(entries)[e] <= 1
    decreases |entries|
  {
    if entries != [] {
      var init := entries[..|entries| - 1];
      var last := entries[|entries| - 1];
      assert DistinctKeys(init) by {
        assert forall i :: 0 <= i < |init| ==> init[i] == entries[i];
      }
      CountAtMostOne(init, e);
      assert entries == init + [last];
      if last == e {
        forall k | 0 <= k < |init| ensures init[k] != e {
          assert entries[k].0 != entries[|init|].0;
        }
        assert e !in multiset(init);
      }
    }
  }

  /** Java `sortMapByValue(map)`, the map given as its entries in iteration
      order: a `LinkedHashMap` filled in sorted order. */
  method SortMapByValue(entries: seq<(string, int)>) returns (reverseSortedMap: Dict<string, int>)
    requires DistinctKeys(entries)
    ensures reverseSortedMap.Valid()
    ensures reverseSortedMap.keys == KeysOf(SortByValue(entries))
    ensures forall e :: e in entries ==> e.0 in reverseSortedMap.m && reverseSortedMap.m[e.0] == e.1
    ensures forall i, j :: 0 <= i < j < |reverseSortedMap.keys| ==>
      reverseSortedMap.m[reverseSortedMap.keys[i]] >= reverseSortedMap.m[reverseSortedMap.keys[j]]
  {
    var sorted := SortByValue(entries);
    SortByValueKeys(entries);
    reverseSortedMap := PutAll(sorted);
    SortByValueSorted(entries);
    LinkedEntries(entries, sorted, reverseSortedMap);
  }

  /** The `forEachOrdered(put)` loop over entries with distinct keys. */
  method PutAll(sorted: seq<(string, int)>) returns (d: Dict<string, int>)
    requires DistinctKeys(sorted)
    ensures d.Valid() && d.keys == KeysOf(sorted)
    ensures forall i :: 0 <= i < |sorted| ==> sorted[i].0 in d.m && d.m[sorted[i].0] == sorted[i].1
  {
    d := Empty();
    var n := 0;
    while n < |sorted|
      invariant 0 <= n <= |sorted|
      invariant d.Valid()
      invariant d.keys == KeysOf(sorted[..n])
      invariant forall i :: 0 <= i < n ==> sorted[i].0 in d.m && d.m[sorted[i].0] == sorted[i].1
    {
      var x := sorted[n];
      FreshKey(sorted, n);
      assert sorted[..n + 1][..n] == sorted[..n];
      assert KeysOf(sorted[..n + 1]) == KeysOf(sorted[..n]) + [x.0];
      d := Put(d, x.0, x.1);
      n := n + 1;
    }
    assert sorted[..n] == sorted;
  }

  lemma FreshKey(sorted: seq<(string, int)>, n: nat)
    requires n < |sorted| && DistinctKeys(sorted)
    ensures sorted[n].0 !in KeysOf(sorted[..n])
  {
    var pre := KeysOf(sorted[..n]);
    assert forall i :: 0 <= i < n ==> pre[i] != sorted[n].0;
  }

  lemma LinkedEntries(entries: seq<(string, int)>, sorted: seq<(string, int)>, d: Dict<string, int>)
    requires forall e :: e in sorted <==> e in entries
    requires NonIncreasing(sorted)
    requires d.keys == KeysOf(sorted)
    requires forall i :: 0 <= i < |sorted| ==> sorted[i].0 in d.m && d.m[sorted[i].0] == sorted[i].1
    ensures forall e :: e in entries ==> e.0 in d.m && d.m[e.0] == e.1
    ensures forall i, j :: 0 <= i < j < |d.keys| ==> d.m[d.keys[i]] >= d.m[d.keys[j]]
  {
    forall e | e in entries ensures e.0 in d.m && d.m[e.0] == e.1 {
      var i :| 0 <= i < |sorted| && sorted[i] == e;
    }
  }
}
