/** The n-gram scans of the feature extractors. The marked scan (argument and
    detection features) opens with "$init$" and closes with "$end$"; the plain
    scan (the two older text features) pairs only neighbouring words, and
    only when the earlier word is non-empty. Both carry the previous two words
    (`wordN_1`, `wordN_2`) from step to step. */
module NGrams {

  const Init: string := "$init$"
  const End: string := "$end$"

  /** `a + "-" + b`. */
  function Dash(a: string, b: string): string {
    a + "-" + b
  }

  /** The word `k` places before the end, or "" when there is none: the value
      `wordN_1` (k = 0) or `wordN_2` (k = 1) holds after the scan. */
  function Back(ws: seq<string>, k: nat): string {
    if k < |ws| then ws[|ws| - 1 - k] else ""
  }

  // ---------------------------------------------------------------------------
  // Marked n-grams

  /** The bigram of step `j`: the previous word, or "$init$" when there is
      none or it is empty, dashed to the word. */
  function MarkedBigramAt(ws: seq<string>, j: nat): string
    requires j < |ws|
  {
    Dash(if j == 0 || ws[j - 1] == "" then Init else ws[j - 1], ws[j])
  }

  /** The trigram of step `j`, recorded only when the previous word is non-empty. */
  function MarkedTrigramAt(ws: seq<string>, j: nat): string
    requires 1 <= j < |ws|
  {
    Dash(if j < 2 || ws[j - 2] == "" then Init else ws[j - 2], MarkedBigramAt(ws, j))
  }

  function EndBigram(ws: seq<string>): string {
    Dash(Back(ws, 0), End)
  }

  function EndTrigram(ws: seq<string>): string {
    Dash(Back(ws, 1), EndBigram(ws))
  }

  /** One bigram per step, then the end bigram. */
  function MarkedBigrams(ws: seq<string>): seq<string> {
    seq(|ws|, j requires 0 <= j < |ws| => MarkedBigramAt(ws, j)) + [EndBigram(ws)]
  }

  /** The trigrams of the first `k` steps. */
  function StepTrigrams(ws: seq<string>, k: nat): seq<string>
    requires k <= |ws|
  {
    if k == 0 then []
    else StepTrigrams(ws, k - 1) + (if k >= 2 && ws[k - 2] != "" then [MarkedTrigramAt(ws, k - 1)] else [])
  }

  /** The step trigrams, then the end trigram. */
  function MarkedTrigrams(ws: seq<string>): seq<string> {
    StepTrigrams(ws, |ws|) + [EndTrigram(ws)]
  }

  /** The marked scan over `words` (`ArgumentFeature` and
      `DetectionTextFeature`). */
  method MarkedNGrams(words: seq<string>) returns (bigrams: seq<string>, trigrams: seq<string>)
    ensures bigrams == MarkedBigrams(words)
    ensures trigrams == MarkedTrigrams(words)
  {
    bigrams := [];
    trigrams := [];
    var wordN1 := "";
    var wordN2 := "";
    var j := 0;
    while j < |words|
      invariant 0 <= j <= |words|
      invariant wordN1 == Back(words[..j], 0) && wordN2 == Back(words[..j], 1)
      invariant |bigrams| == j
      invariant forall m :: 0 <= m < j ==> bigrams[m] == MarkedBigramAt(words, m)
      invariant trigrams == StepTrigrams(words, j)
    {
      var word := words[j];
      var bigram := Dash(if wordN1 == "" then Init else wordN1, word);
      bigrams := bigrams + [bigram];
      if wordN1 != "" {
        var trigram := Dash(if wordN2 == "" then Init else wordN2, bigram);
        trigrams := trigrams + [trigram];
      }
      wordN2 := wordN1;
      wordN1 := word;
      j := j + 1;
    }
    assert words[..j] == words;
    bigrams := bigrams + [Dash(wordN1, End)];
    trigrams := trigrams + [Dash(wordN2, Dash(wordN1, End))];
  }

  /** POS bigrams: the bigram half of the marked scan, over tags. */
  method MarkedBigramScan(words: seq<string>) returns (bigrams: seq<string>)
    ensures bigrams == MarkedBigrams(words)
  {
    bigrams := [];
    var wordN1 := "";
    var j := 0;
    while j < |words|
      invariant 0 <= j <= |words|
      invariant wordN1 == Back(words[..j], 0)
      invariant |bigrams| == j
      invariant forall m :: 0 <= m < j ==> bigrams[m] == MarkedBigramAt(words, m)
    {
      var word := words[j];
      bigrams := bigrams + [Dash(if wordN1 == "" then Init else wordN1, word)];
      wordN1 := word;
      j := j + 1;
    }
    assert words[..j] == words;
    bigrams := bigrams + [Dash(wordN1, End)];
  }

  predicate NoEmpty(ws: seq<string>) {
    forall j :: 0 <= j < |ws| ==> ws[j] != ""
  }

  /** With n non-empty words there are n + 1 marked bigrams, from
      "$init$-w1" through the neighbouring pairs to "wn-$end$". */
  lemma MarkedBigramsShape(ws: seq<string>)
    requires NoEmpty(ws) && |ws| >= 1
    ensures |MarkedBigrams(ws)| == |ws| + 1
    ensures MarkedBigrams(ws)[0] == Dash(Init, ws[0])
    ensures forall j :: 1 <= j < |ws| ==> MarkedBigrams(ws)[j] == Dash(ws[j - 1], ws[j])
    ensures MarkedBigrams(ws)[|ws|] == Dash(ws[|ws| - 1], End)
  {
  }

  /** With non-empty words every step after the first records a trigram. */
  lemma {:induction false} StepTrigramsShape(ws: seq<string>, k: nat)
    requires NoEmpty(ws) && 1 <= k <= |ws|
    ensures |StepTrigrams(ws, k)| == k - 1
    ensures forall m :: 0 <= m < k - 1 ==> StepTrigrams(ws, k)[m] == MarkedTrigramAt(ws, m + 1)
  {
    if k > 1 {
      StepTrigramsShape(ws, k - 1);
      assert ws[k - 2] != "";
    }
  }

  /** With n non-empty words there are n marked trigrams, from
      "$init$-w1-w2" through the neighbouring triples to "w(n-1)-wn-$end$";
      a single word gives only "-w1-$end$". */
  lemma MarkedTrigramsShape(ws: seq<string>)
    requires NoEmpty(ws) && |ws| >= 1
    ensures |MarkedTrigrams(ws)| == |ws|
    ensures |ws| >= 2 ==> MarkedTrigrams(ws)[0] == Dash(Init, Dash(ws[0], ws[1]))
    ensures forall j :: 2 <= j < |ws| ==> MarkedTrigrams(ws)[j - 1] == Dash(ws[j - 2], Dash(ws[j - 1], ws[j]))
    ensures |ws| >= 2 ==> MarkedTrigrams(ws)[|ws| - 1] == Dash(ws[|ws| - 2], Dash(ws[|ws| - 1], End))
    ensures |ws| == 1 ==> MarkedTrigrams(ws) == [Dash("", Dash(ws[0], End))]
  {
    StepTrigramsShape(ws, |ws|);
    var st := StepTrigrams(ws, |ws|);
    forall j | 2 <= j < |ws|
      ensures MarkedTrigrams(ws)[j - 1] == Dash(ws[j - 2], Dash(ws[j - 1], ws[j]))
    {
      assert MarkedTrigrams(ws)[j - 1] == st[j - 1] == MarkedTrigramAt(ws, j);
    }
    if |ws| >= 2 {
      assert MarkedTrigrams(ws)[0] == st[0] == MarkedTrigramAt(ws, 1);
    }
  }

  // ---------------------------------------------------------------------------
  // Plain n-grams

  /** The bigrams of the first `k` plain steps: step j records
      "w(j-1)-wj" when w(j-1) exists and is non-empty. */
  function PlainBigrams(ws: seq<string>, k: nat): seq<string>
    requires k <= |ws|
  {
    if k == 0 then []
    else PlainBigrams(ws, k - 1) + (if k >= 2 && ws[k - 2] != "" then [Dash(ws[k - 2], ws[k - 1])] else [])
  }

  /** The trigrams of the first `k` plain steps: step j records
      "w(j-2)-w(j-1)-wj" when both earlier words exist and are non-empty. */
  function PlainTrigrams(ws: seq<string>, k: nat): seq<string>
    requires k <= |ws|
  {
    if k == 0 then []
    else
      var step := if k >= 3 && ws[k - 2] != "" && ws[k - 3] != "" then [Dash(Dash(ws[k - 3], ws[k - 2]), ws[k - 1])] else [];
      PlainTrigrams(ws, k - 1) + step
  }

  /** The plain scan over `words` (the older `TextFeature`s). */
  method PlainNGrams(words: seq<string>) returns (bigrams: seq<string>, trigrams: seq<string>)
    ensures bigrams == PlainBigrams(words, |words|)
    ensures trigrams == PlainTrigrams(words, |words|)
  {
    bigrams := [];
    trigrams := [];
    var wordN1 := "";
    var wordN2 := "";
    var j := 0;
    while j < |words|
      invariant 0 <= j <= |words|
      invariant wordN1 == Back(words[..j], 0) && wordN2 == Back(words[..j], 1)
      invariant bigrams == PlainBigrams(words, j)
      invariant trigrams == PlainTrigrams(words, j)
    {
      var word := words[j];
      if wordN1 != "" {
        bigrams := bigrams + [Dash(wordN1, word)];
        if wordN2 != "" {
          trigrams := trigrams + [Dash(Dash(wordN2, wordN1), word)];
        }
      }
      wordN2 := wordN1;
      wordN1 := word;
      j := j + 1;
    }
  }

  /** With non-empty words the plain scan gives the n - 1 neighbouring pairs. */
  lemma {:induction false} PlainBigramsShape(ws: seq<string>, k: nat)
    requires NoEmpty(ws) && 1 <= k <= |ws|
    ensures |PlainBigrams(ws, k)| == k - 1
    ensures forall m :: 0 <= m < k - 1 ==> PlainBigrams(ws, k)[m] == Dash(ws[m], ws[m + 1])
  {
    if k > 1 {
      PlainBigramsShape(ws, k - 1);
      assert ws[k - 2] != "";
    }
  }

  /** With non-empty words the plain scan gives the max(0, n - 2)
      neighbouring triples. */
  lemma {:induction false} PlainTrigramsShape(ws: seq<string>, k: nat)
    requires NoEmpty(ws) && 2 <= k <= |ws|
    ensures |PlainTrigrams(ws, k)| == k - 2
    ensures forall m :: 0 <= m < k - 2 ==> PlainTrigrams(ws, k)[m] == Dash(Dash(ws[m], ws[m + 1]), ws[m + 2])
  {
    if k > 2 {
      PlainTrigramsShape(ws, k - 1);
      assert ws[k - 2] != "" && ws[k - 3] != "";
    } else {
      assert PlainTrigrams(ws, 1) == [];
    }
  }

  /** Fewer than three words give no plain trigram, fewer than two no bigram. */
  lemma PlainShortInputs(ws: seq<string>)
    ensures |ws| < 2 ==> PlainBigrams(ws, |ws|) == []
    ensures |ws| < 3 ==> PlainTrigrams(ws, |ws|) == []
  {
    if |ws| == 2 {
      assert PlainTrigrams(ws, 1) == [];
    }
  }
}
