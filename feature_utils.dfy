/** The feature helpers of the feature extractor (`FeatureUtils`): greedy
    matching of argument linkers against a token array, word couples, and
    lower-cased n-grams. */
module FeatureUtils {
  import opened Wrappers
  import opened Text
  import opened FunctionUtils

  /** `Constants.NGRAMS_DELIMITER`. */
  const NgramsDelimiter: string := "-"

  /** An entry of the linker lexicon: its text and its token count. How a
      linker compares with an n-gram (`isEquals`) is a parameter. */
  datatype Linker = Linker(linker: string, nTokens: int)

  // ---------------------------------------------------------------------------
  // getNGram

  /** Java `getNGram(tokens, ixStart, endIx)`: the tokens of the window joined
      by "-" and lower-cased; any exception is caught and leaves "". */
  function GetNGram(tokens: seq<string>, ixStart: int, endIx: int): string {
    var nGram :=
      if |tokens| > 0 then
        match GetSubArray(tokens, ixStart, endIx)
        case Err(_) => ""
        case Ok(subList) =>
          match ArrayToStringOf(subList, NgramsDelimiter)
          case Err(_) => ""
          case Ok(text) => text
      else "";
    Lower(nGram)
  }

  /** "" for no tokens or a window not inside the array; otherwise the
      lower-cased join of the window by "-" (the empty window giving ""). */
  lemma GetNGramWindow(tokens: seq<string>, ixStart: int, endIx: int)
    ensures !(0 <= ixStart <= endIx <= |tokens|) ==> GetNGram(tokens, ixStart, endIx) == ""
    ensures 0 <= ixStart <= endIx <= |tokens| ==>
      GetNGram(tokens, ixStart, endIx) == Lower(Join(tokens[ixStart..endIx], NgramsDelimiter))
  {
    if 0 <= ixStart < endIx <= |tokens| {
      ArrayToStringJoin(tokens[ixStart..endIx], NgramsDelimiter);
    }
  }

  // ---------------------------------------------------------------------------
  // getUsedLinkerList

  /** The linker texts of the lexicon. */
  function Names(lexicon: seq<Linker>): set<string> {
    set l | l in lexicon :: l.linker
  }

  /** Whether entry `k` of the lexicon is recorded at position `i`: its
      n-gram there equals it and its text is not yet recorded. */
  predicate Hit(window: (int, int) -> string, lexicon: seq<Linker>, isEquals: (Linker, string) -> bool,
                i: int, linkers: seq<string>, k: nat)
    requires k < |lexicon|
  {
    isEquals(lexicon[k], window(i, i + lexicon[k].nTokens)) && lexicon[k].linker !in linkers
  }

  /** The first entry from `j` on that is recorded at position `i`. */
  function FirstMatch(window: (int, int) -> string, lexicon: seq<Linker>, isEquals: (Linker, string) -> bool,
                      i: int, linkers: seq<string>, j: nat): (r: Option<nat>)
    requires j <= |lexicon|
    ensures r.Some? ==> j <= r.value < |lexicon| && lexicon[r.value].linker !in linkers
    decreases |lexicon| - j
  {
    if j == |lexicon| then None
    else if Hit(window, lexicon, isEquals, i, linkers, j) then Some(j)
    else FirstMatch(window, lexicon, isEquals, i, linkers, j + 1)
  }

  /** The first matching entry in lexicon order wins: it matches, its text is
      not yet recorded, and no earlier entry qualifies; with no winner, no
      entry qualifies. */
  lemma {:induction false} FirstMatchWins(window: (int, int) -> string, lexicon: seq<Linker>, isEquals: (Linker, string) -> bool,
                                         i: int, linkers: seq<string>, j: nat)
    requires j <= |lexicon|
    ensures var r := FirstMatch(window, lexicon, isEquals, i, linkers, j);
      && (r.Some? ==> Hit(window, lexicon, isEquals, i, linkers, r.value))
      && (r.Some? ==> forall k :: j <= k < r.value ==> !Hit(window, lexicon, isEquals, i, linkers, k))
      && (r.None? ==> forall k :: j <= k < |lexicon| ==> !Hit(window, lexicon, isEquals, i, linkers, k))
    decreases |lexicon| - j
  {
    if j < |lexicon| && !Hit(window, lexicon, isEquals, i, linkers, j) {
      FirstMatchWins(window, lexicon, isEquals, i, linkers, j + 1);
    }
  }

  /** The linker texts not yet recorded: each match removes one, which bounds
      the scan even for linkers of zero or negative length. */
  function Unrecorded(lexicon: seq<Linker>, linkers: seq<string>): set<string> {
    Names(lexicon) - set x | x in linkers
  }

  lemma UnrecordedShrinks(lexicon: seq<Linker>, linkers: seq<string>, k: nat)
    requires k < |lexicon| && lexicon[k].linker !in linkers
    ensures |Unrecorded(lexicon, linkers + [lexicon[k].linker])| < |Unrecorded(lexicon, linkers)|
  {
    var x := lexicon[k].linker;
    assert x in Names(lexicon);
    assert Unrecorded(lexicon, linkers + [x]) == Unrecorded(lexicon, linkers) - {x};
  }

  /** The scan from position `i` with `linkers` recorded: at each position the
      first matching unrecorded entry is recorded and the scan resumes after
      its tokens; with no match the scan moves one position on. */
  function UsedLinkers(n: int, window: (int, int) -> string, lexicon: seq<Linker>, isEquals: (Linker, string) -> bool,
                       i: int, linkers: seq<string>): seq<string>
    decreases |Unrecorded(lexicon, linkers)|, n - i
  {
    if i >= n then linkers
    else
      match FirstMatch(window, lexicon, isEquals, i, linkers, 0)
      case None => UsedLinkers(n, window, lexicon, isEquals, i + 1, linkers)
      case Some(k) =>
        UnrecordedShrinks(lexicon, linkers, k);
        UsedLinkers(n, window, lexicon, isEquals, i + lexicon[k].nTokens, linkers + [lexicon[k].linker])
  }

  /** One step of the scan at a position before the end. */
  lemma UsedLinkersStep(n: int, window: (int, int) -> string, lexicon: seq<Linker>, isEquals: (Linker, string) -> bool,
                        i: int, linkers: seq<string>)
    requires i < n
    ensures var r := FirstMatch(window, lexicon, isEquals, i, linkers, 0);
      && (r.None? ==> UsedLinkers(n, window, lexicon, isEquals, i, linkers)
                      == UsedLinkers(n, window, lexicon, isEquals, i + 1, linkers))
      && (r.Some? ==> UsedLinkers(n, window, lexicon, isEquals, i, linkers)
                      == UsedLinkers(n, window, lexicon, isEquals, i + lexicon[r.value].nTokens, linkers + [lexicon[r.value].linker]))
  {
  }

  /** The n-grams of a token array, by window. */
  function NGrams(tokens: seq<string>): (int, int) -> string {
    (ixStart: int, endIx: int) => GetNGram(tokens, ixStart, endIx)
  }

  /** Java `getUsedLinkerList(tokens, lexicon)`. */
  method GetUsedLinkerList(tokens: seq<string>, lexicon: seq<Linker>, isEquals: (Linker, string) -> bool)
    returns (linkers: seq<string>)
    ensures linkers == UsedLinkers(|tokens|, NGrams(tokens), lexicon, isEquals, 0, [])
  {
    linkers := ScanLinkers(|tokens|, NGrams(tokens), lexicon, isEquals);
  }

  /** The outer loop of `getUsedLinkerList` over `n` positions, with `window`
      standing for `getNGram` on the tokens. */
  method ScanLinkers(n: int, window: (int, int) -> string, lexicon: seq<Linker>, isEquals: (Linker, string) -> bool)
    returns (linkers: seq<string>)
    ensures linkers == UsedLinkers(n, window, lexicon, isEquals, 0, [])
  {
    linkers := [];
    var i := 0;
    while i < n
      invariant UsedLinkers(n, window, lexicon, isEquals, i, linkers)
        == UsedLinkers(n, window, lexicon, isEquals, 0, [])
      decreases |Unrecorded(lexicon, linkers)|, n - i
    {
      var k := MatchAt(window, lexicon, isEquals, i, linkers);
      UsedLinkersStep(n, window, lexicon, isEquals, i, linkers);
      if k.Some? {
        var linker := lexicon[k.value];
        UnrecordedShrinks(lexicon, linkers, k.value);
        linkers := linkers + [linker.linker];
        i := i + linker.nTokens - 1;
      }
      i := i + 1;
    }
  }

  /** The inner loop of `getUsedLinkerList` at position `i`, with `window`
      standing for `getNGram` on the tokens: the index of the entry it records
      before breaking, if any. */
  method MatchAt(window: (int, int) -> string, lexicon: seq<Linker>, isEquals: (Linker, string) -> bool,
                 i: int, linkers: seq<string>) returns (k: Option<nat>)
    ensures k == FirstMatch(window, lexicon, isEquals, i, linkers, 0)
  {
    var j := 0;
    while j < |lexicon|
      invariant 0 <= j <= |lexicon|
      invariant FirstMatch(window, lexicon, isEquals, i, linkers, 0) == FirstMatch(window, lexicon, isEquals, i, linkers, j)
    {
      var linker := lexicon[j];
      var nGram := window(i, i + linker.nTokens);
      if isEquals(linker, nGram) && linker.linker !in linkers {
        assert Hit(window, lexicon, isEquals, i, linkers, j);
        return Some(j);
      }
      assert !Hit(window, lexicon, isEquals, i, linkers, j);
      j := j + 1;
    }
    return None;
  }

  /** The result extends the recorded linkers: later matches are appended,
      so linkers appear in the order of their matching positions. */
  lemma {:induction false} UsedLinkersExtends(n: int, window: (int, int) -> string, lexicon: seq<Linker>, isEquals: (Linker, string) -> bool,
                                             i: int, linkers: seq<string>)
    ensures |linkers| <= |UsedLinkers(n, window, lexicon, isEquals, i, linkers)|
    ensures UsedLinkers(n, window, lexicon, isEquals, i, linkers)[..|linkers|] == linkers
    decreases |Unrecorded(lexicon, linkers)|, n - i
  {
    if i < n {
      UsedLinkersStep(n, window, lexicon, isEquals, i, linkers);
      var r := FirstMatch(window, lexicon, isEquals, i, linkers, 0);
      if r.None? {
        UsedLinkersExtends(n, window, lexicon, isEquals, i + 1, linkers);
      } else {
        var k := r.value;
        UnrecordedShrinks(lexicon, linkers, k);
        var next := linkers + [lexicon[k].linker];
        UsedLinkersExtends(n, window, lexicon, isEquals, i + lexicon[k].nTokens, next);
        var res := UsedLinkers(n, window, lexicon, isEquals, i + lexicon[k].nTokens, next);
        PrefixTrans(res, next, linkers);
      }
    } else {
      PrefixSuffix(linkers, 0);
    }
  }

  /** No linker is recorded twice, and every recorded linker is a lexicon entry. */
  lemma {:induction false} UsedLinkersDistinct(n: int, window: (int, int) -> string, lexicon: seq<Linker>, isEquals: (Linker, string) -> bool,
                                              i: int, linkers: seq<string>)
    requires NoDuplicates(linkers)
    requires forall x :: x in linkers ==> x in Names(lexicon)
    ensures NoDuplicates(UsedLinkers(n, window, lexicon, isEquals, i, linkers))
    ensures forall x :: x in UsedLinkers(n, window, lexicon, isEquals, i, linkers) ==> x in Names(lexicon)
    decreases |Unrecorded(lexicon, linkers)|, n - i
  {
    if i < n {
      UsedLinkersStep(n, window, lexicon, isEquals, i, linkers);
      var r := FirstMatch(window, lexicon, isEquals, i, linkers, 0);
      if r.None? {
        UsedLinkersDistinct(n, window, lexicon, isEquals, i + 1, linkers);
      } else {
        var k := r.value;
        UnrecordedShrinks(lexicon, linkers, k);
        var x := lexicon[k].linker;
        assert x in Names(lexicon);
        UsedLinkersDistinct(n, window, lexicon, isEquals, i + lexicon[k].nTokens, linkers + [x]);
      }
    }
  }

  /** `getUsedLinkerList` never returns a duplicate, and returns only
      lexicon texts. */
  lemma UsedLinkerListSound(tokens: seq<string>, lexicon: seq<Linker>, isEquals: (Linker, string) -> bool)
    ensures NoDuplicates(UsedLinkers(|tokens|, NGrams(tokens), lexicon, isEquals, 0, []))
    ensures forall x :: x in UsedLinkers(|tokens|, NGrams(tokens), lexicon, isEquals, 0, []) ==> x in Names(lexicon)
  {
    UsedLinkersDistinct(|tokens|, NGrams(tokens), lexicon, isEquals, 0, []);
  }

  // ---------------------------------------------------------------------------
  // getWordCouples

  /** The couple of the tokens at positions `a` and `b`. */
  function Couple(tokens: seq<string>, a: nat, b: nat): string
    requires a < b < |tokens|
  {
    tokens[a] + "-" + tokens[b]
  }

  /** The couples of every ordered pair of positions. */
  ghost predicate IsCouple(tokens: seq<string>, x: string) {
    exists a: nat, b: nat :: a < b < |tokens| && x == Couple(tokens, a, b)
  }

  /** The couples of position `a` with the positions after it, below `j`. */
  ghost function RowCouples(tokens: seq<string>, a: nat, j: nat): set<string>
    requires j <= |tokens|
    decreases j
  {
    if j <= a + 1 then {} else RowCouples(tokens, a, j - 1) + {Couple(tokens, a, j - 1)}
  }

  /** The couples whose first position is below `i`. */
  ghost function CouplesBefore(tokens: seq<string>, i: nat): set<string>
    requires i <= |tokens|
  {
    if i == 0 then {} else CouplesBefore(tokens, i - 1) + RowCouples(tokens, i - 1, |tokens|)
  }

  lemma {:induction false} RowCouplesSize(tokens: seq<string>, a: nat, j: nat)
    requires j <= |tokens|
    ensures |RowCouples(tokens, a, j)| <= if j > a then j - a - 1 else 0
    decreases j
  {
    if j > a + 1 {
      RowCouplesSize(tokens, a, j - 1);
    }
  }

  lemma {:induction false} CouplesBeforeSize(tokens: seq<string>, i: nat)
    requires i <= |tokens|
    ensures |CouplesBefore(tokens, i)| <= PairsBefore(|tokens|, i)
  {
    if i > 0 {
      CouplesBeforeSize(tokens, i - 1);
      RowCouplesSize(tokens, i - 1, |tokens|);
    }
  }

  lemma {:induction false} RowCouplesMembers(tokens: seq<string>, a: nat, j: nat, x: string)
    requires j <= |tokens|
    ensures x in RowCouples(tokens, a, j) <==> exists b: nat :: a < b < j && x == Couple(tokens, a, b)
    decreases j
  {
    if j > a + 1 {
      RowCouplesMembers(tokens, a, j - 1, x);
    }
  }

  lemma {:induction false} CouplesBeforeMembers(tokens: seq<string>, i: nat, x: string)
    requires i <= |tokens|
    ensures x in CouplesBefore(tokens, i) <==>
      exists a: nat, b: nat :: a < i && a < b < |tokens| && x == Couple(tokens, a, b)
  {
    if i > 0 {
      CouplesBeforeMembers(tokens, i - 1, x);
      RowCouplesMembers(tokens, i - 1, |tokens|, x);
      if x in RowCouples(tokens, i - 1, |tokens|) {
        var b: nat :| i - 1 < b < |tokens| && x == Couple(tokens, i - 1, b);
        assert exists a: nat, b: nat :: a < i && a < b < |tokens| && x == Couple(tokens, a, b) by {
          assert i - 1 < i;
        }
      }
      if exists a: nat, b: nat :: a < i && a < b < |tokens| && x == Couple(tokens, a, b) {
        var a: nat, b: nat :| a < i && a < b < |tokens| && x == Couple(tokens, a, b);
        if a == i - 1 {
          assert x in RowCouples(tokens, i - 1, |tokens|);
        } else {
          assert x in CouplesBefore(tokens, i - 1);
        }
      }
    }
  }

  /** The number of pairs whose first position is below `i`. */
  function PairsBefore(n: int, i: nat): int {
    if i == 0 then 0 else PairsBefore(n, i - 1) + (n - i)
  }

  lemma {:induction false} PairsBeforeValue(n: int, i: nat)
    ensures 2 * PairsBefore(n, i) == i * (2 * n - i - 1)
  {
    if i > 0 {
      PairsBeforeValue(n, i - 1);
    }
  }

  /** There are at most n(n-1)/2 couples. */
  lemma CouplesCount(tokens: seq<string>)
    requires |tokens| >= 1
    ensures 2 * |CouplesBefore(tokens, |tokens| - 1)| <= |tokens| * (|tokens| - 1)
  {
    var n := |tokens|;
    CouplesBeforeSize(tokens, n - 1);
    PairsBeforeValue(n, n - 1);
    assert 2 * n - (n - 1) - 1 == n;
    assert (n - 1) * n == n * (n - 1);
  }

  /** Every couple has first position at most the next-to-last one. */
  lemma CouplesAll(tokens: seq<string>, x: string)
    requires |tokens| >= 1
    ensures x in CouplesBefore(tokens, |tokens| - 1) <==> IsCouple(tokens, x)
  {
    CouplesBeforeMembers(tokens, |tokens| - 1, x);
  }

  /** Java `getWordCouples(tokens, removeEquals)`: every couple once, in the
      hash map's unspecified key order, whatever `removeEquals` says. */
  method GetWordCouples(tokens: seq<string>, removeEquals: bool) returns (list: seq<string>)
    ensures NoDuplicates(list)
    ensures forall x :: x in list <==> IsCouple(tokens, x)
    ensures 2 * |list| <= |tokens| * (|tokens| - 1)
    ensures |tokens| < 2 ==> list == []
  {
    var wordCouples := CollectCouples(tokens, removeEquals);
    list := ListFromMapKeys(wordCouples);
    CouplesListed(tokens, LastFirst(tokens), wordCouples.Keys, list);
  }

  /** The last first position of a couple, or 0 for an empty list. */
  function LastFirst(tokens: seq<string>): (i: nat)
    ensures i <= |tokens|
  {
    if |tokens| >= 1 then |tokens| - 1 else 0
  }

  /** The outer loop of `getWordCouples`: the couples of every first position. */
  method CollectCouples(tokens: seq<string>, removeEquals: bool) returns (wordCouples: map<string, bool>)
    ensures wordCouples.Keys == CouplesBefore(tokens, LastFirst(tokens))
  {
    wordCouples := map[];
    var n := |tokens|;
    var i := 0;
    while i < n - 1
      invariant 0 <= i <= LastFirst(tokens)
      invariant wordCouples.Keys == CouplesBefore(tokens, i)
    {
      wordCouples := AddCouples(tokens, i, removeEquals, wordCouples);
      i := i + 1;
    }
  }

  /** A duplicate-free listing of the couples found by the loop lists exactly
      the couples, at most n(n-1)/2 of them. */
  lemma CouplesListed(tokens: seq<string>, i: nat, keys: set<string>, list: seq<string>)
    requires i == LastFirst(tokens)
    requires keys == CouplesBefore(tokens, i)
    requires forall x :: x in list <==> x in keys
    requires |list| == |keys|
    ensures forall x :: x in list <==> IsCouple(tokens, x)
    ensures 2 * |list| <= |tokens| * (|tokens| - 1)
    ensures |tokens| < 2 ==> list == []
  {
    var n := |tokens|;
    if n < 2 {
      assert i == 0 && keys == {};
    }
    if n >= 1 {
      CouplesCount(tokens);
      forall x ensures x in list <==> IsCouple(tokens, x) {
        CouplesAll(tokens, x);
      }
    } else {
      forall x ensures !IsCouple(tokens, x) {
      }
    }
  }

  /** The inner loop of `getWordCouples`: the couples of position `i`. */
  method AddCouples(tokens: seq<string>, i: nat, removeEquals: bool, wordCouples: map<string, bool>)
    returns (w: map<string, bool>)
    requires i < |tokens|
    ensures w.Keys == wordCouples.Keys + RowCouples(tokens, i, |tokens|)
  {
    w := wordCouples;
    var j := i + 1;
    while j < |tokens|
      invariant i + 1 <= j <= |tokens|
      invariant w.Keys == wordCouples.Keys + RowCouples(tokens, i, j)
    {
      var wordPairs := tokens[i] + "-" + tokens[j];
      assert RowCouples(tokens, i, j + 1) == RowCouples(tokens, i, j) + {wordPairs};
      if !removeEquals || wordPairs !in w {
        w := w[wordPairs := true];
      }
      j := j + 1;
    }
  }
}
