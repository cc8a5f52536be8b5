/** The feature extractor's older `TextFeature` (package `nlp.am`): every
    token tagged PUNCT is a punctuation mark and every other token a unigram,
    with no normalisation or validity filter; plain n-grams; the parse
    statistics; word couples and key words are never filled in. */
module LegacyFeatures {
  import opened Wrappers
  import opened Text
  import opened Tokens
  import opened NGrams
  import opened ArgumentEngine
  import opened TextFeatureBase

  /** The fields `extractFeatures` updates. */
  datatype Legacy = Legacy(
    unigrams: seq<string>, bigrams: seq<string>, trigrams: seq<string>,
    adverbs: seq<string>, verbs: seq<string>, modalAuxs: seq<string>,
    wordCouples: seq<string>, punctuation: seq<string>, keyWords: seq<string>,
    avgWordLength: int, numberPunctMarks: int, parseTreeDepth: int, numberSubclauses: int,
    isValid: bool)

  /** The values the constructor gives them. */
  const Initial: Legacy := Legacy([], [], [], [], [], [], [], [], [], 0, 0, 0, 0, false)

  /** One token of the loop: PUNCT to the marks, anything else to the
      unigrams and, for ADV, VERB and AUX, to that list. */
  function StepLegacy(g: Legacy, t: Token): Legacy {
    if t.tag == "PUNCT" then g.(punctuation := g.punctuation + [t.word])
    else WithTagged(WithUnigram(g, t.word), t)
  }

  /** A unigram and its length. */
  function WithUnigram(g: Legacy, w: string): Legacy {
    g.(unigrams := g.unigrams + [w], avgWordLength := g.avgWordLength + |w|)
  }

  /** A unigram's ADV, VERB or AUX list. */
  function WithTagged(g: Legacy, t: Token): Legacy {
    if t.tag == "ADV" then g.(adverbs := g.adverbs + [t.word])
    else if t.tag == "VERB" then g.(verbs := g.verbs + [t.word])
    else if t.tag == "AUX" then g.(modalAuxs := g.modalAuxs + [t.word])
    else g
  }

  /** The token loop over `ts`. */
  function Scanned(f: Legacy, ts: seq<Token>): Legacy {
    if ts == [] then f else StepLegacy(Scanned(f, ts[..|ts| - 1]), ts[|ts| - 1])
  }

  /** The plain n-gram loop. */
  function WithNGrams(g: Legacy): Legacy {
    g.(bigrams := g.bigrams + PlainBigrams(g.unigrams, |g.unigrams|),
       trigrams := g.trigrams + PlainTrigrams(g.unigrams, |g.unigrams|))
  }

  /** The phrase statistics of the parse tree. */
  function WithParse(g: Legacy, tree: Option<Tree>): Legacy {
    var phraseList := PhraseListOf(tree);
    g.(parseTreeDepth := MaxDepth(g.parseTreeDepth, phraseList), numberSubclauses := |phraseList|)
  }

  /** The second stage, run when the sentence has a unigram. */
  function Completed(g: Legacy, tree: Option<Tree>): Legacy
    requires |g.unigrams| > 0
  {
    WithParse(WithNGrams(Averaged(g)), tree).(isValid := true)
  }

  /** The mean word length and the number of marks. */
  function Averaged(g: Legacy): Legacy
    requires |g.unigrams| > 0
  {
    g.(avgWordLength := g.avgWordLength / |g.unigrams|, numberPunctMarks := |g.punctuation|)
  }

  /** `extractFeatures()` from the fields `f`, for the tokens and the tree
      `argEngine.getTree(text)` returns. */
  function Extract(f: Legacy, tokens: seq<Token>, tree: Option<Tree>): Legacy {
    var g := Scanned(f, tokens);
    if |g.unigrams| == 0 then g else Completed(g, tree)
  }

  /** The keys of `toString`, in order. */
  const ToStringKeys: seq<string> := [
    "unigrams", "bigrams", "trigrams", "adverbs", "verbs", "modal_aux", "word_couples",
    "punctuation", "key_words", "text_length", "avg_word_length", "number_punct_marks",
    "parse_tree_depth", "number_sub_clauses"]

  class TextFeature {
    const text: string
    const textLength: int

    var unigrams: seq<string>
    var bigrams: seq<string>
    var trigrams: seq<string>
    var adverbs: seq<string>
    var verbs: seq<string>
    var modalAuxs: seq<string>
    var wordCouples: seq<string>
    var punctuation: seq<string>
    var keyWords: seq<string>
    var avgWordLength: int
    var numberPunctMarks: int
    var parseTreeDepth: int
    var numberSubclauses: int
    var isValid: bool

    function Snapshot(): Legacy
      reads this
    {
      Legacy(unigrams, bigrams, trigrams, adverbs, verbs, modalAuxs, wordCouples, punctuation,
             keyWords, avgWordLength, numberPunctMarks, parseTreeDepth, numberSubclauses, isValid)
    }

    /** The engine is used only by `extractFeatures`, through its inputs. */
    constructor(text: string)
      ensures this.text == text && textLength == |text|
      ensures Snapshot() == Initial
    {
      this.text := text;
      this.textLength := |text|;
      unigrams, bigrams, trigrams, adverbs, verbs, modalAuxs := [], [], [], [], [], [];
      wordCouples, punctuation, keyWords := [], [], [];
      avgWordLength, numberPunctMarks, parseTreeDepth, numberSubclauses := 0, 0, 0, 0;
      isValid := false;
    }

    /** `isValid()`. */
    function Valid(): (r: bool)
      reads this
      ensures r == isValid
    {
      isValid
    }

    /** `extraction()`: texts shorter than `MIN_LENGTH` are left untouched. */
    method Extraction(tokens: seq<Token>, tree: Option<Tree>)
      modifies this
      ensures !Extracts(textLength) ==> Snapshot() == old(Snapshot())
      ensures Extracts(textLength) ==> Snapshot() == Extract(old(Snapshot()), tokens, tree)
    {
      if textLength >= MinLength {
        ExtractFeatures(tokens, tree);
      }
    }

    /** `extractFeatures()`. */
    method ExtractFeatures(tokens: seq<Token>, tree: Option<Tree>)
      modifies this
      ensures Snapshot() == Extract(old(Snapshot()), tokens, tree)
    {
      ScanTokens(tokens);
      if |unigrams| > 0 {
        Complete(tree);
      }
    }

    /** The token loop. */
    method ScanTokens(tokens: seq<Token>)
      modifies this
      ensures Snapshot() == Scanned(old(Snapshot()), tokens)
    {
      ghost var f := Snapshot();
      var i := 0;
      while i < |tokens|
        invariant 0 <= i <= |tokens|
        invariant Snapshot() == Scanned(f, tokens[..i])
      {
        assert tokens[..i + 1][..i] == tokens[..i];
        AddToken(tokens[i]);
        i := i + 1;
      }
      assert tokens[..i] == tokens;
    }

    /** One step of the token loop. */
    method AddToken(t: Token)
      modifies this
      ensures Snapshot() == StepLegacy(old(Snapshot()), t)
    {
      if t.tag == "PUNCT" {
        punctuation := punctuation + [t.word];
      } else {
        unigrams := unigrams + [t.word];
        avgWordLength := avgWordLength + |t.word|;
        assert Snapshot() == WithUnigram(old(Snapshot()), t.word);
        AddTagged(t);
      }
    }

    method AddTagged(t: Token)
      modifies this
      ensures Snapshot() == WithTagged(old(Snapshot()), t)
    {
      if t.tag == "ADV" {
        adverbs := adverbs + [t.word];
      } else if t.tag == "VERB" {
        verbs := verbs + [t.word];
      } else if t.tag == "AUX" {
        modalAuxs := modalAuxs + [t.word];
      }
    }

    /** The statements after the loop, run when a unigram was added. */
    method Complete(tree: Option<Tree>)
      requires |unigrams| > 0
      modifies this
      ensures Snapshot() == Completed(old(Snapshot()), tree)
    {
      Average();
      AddNGrams();
      AddParse(tree);
      isValid := true;
    }

    method Average()
      requires |unigrams| > 0
      modifies this
      ensures Snapshot() == Averaged(old(Snapshot()))
    {
      avgWordLength := avgWordLength / |unigrams|;
      numberPunctMarks := |punctuation|;
    }

    method AddNGrams()
      modifies this
      ensures Snapshot() == WithNGrams(old(Snapshot()))
    {
      var newBigrams, newTrigrams := PlainNGrams(unigrams);
      bigrams := bigrams + newBigrams;
      trigrams := trigrams + newTrigrams;
    }

    method AddParse(tree: Option<Tree>)
      modifies this
      ensures Snapshot() == WithParse(old(Snapshot()), tree)
    {
      var phraseList := GetPhraseList(tree);
      var depth := parseTreeDepth;
      var i := 0;
      while i < |phraseList|
        invariant 0 <= i <= |phraseList|
        invariant depth == MaxDepth(parseTreeDepth, phraseList[..i])
      {
        assert phraseList[..i + 1][..i] == phraseList[..i];
        if phraseList[i].depth > depth {
          depth := phraseList[i].depth;
        }
        i := i + 1;
      }
      assert phraseList[..i] == phraseList;
      parseTreeDepth := depth;
      numberSubclauses := |phraseList|;
    }

    /** The `toString` record, keys in single quotes; `render` is the
        one-argument `FunctionUtils.listToString` this class calls. */
    function Fields(render: seq<string> -> string): (pairs: seq<(string, string)>)
      reads this
      ensures KeysOf(pairs) == ToStringKeys
    {
      Zip(ToStringKeys, [Bracketed(render, unigrams), Bracketed(render, bigrams),
        Bracketed(render, trigrams), Bracketed(render, adverbs), Bracketed(render, verbs),
        Bracketed(render, modalAuxs), Bracketed(render, wordCouples), Bracketed(render, punctuation),
        Bracketed(render, keyWords), IntToString(textLength), IntToString(avgWordLength),
        IntToString(numberPunctMarks), IntToString(parseTreeDepth), IntToString(numberSubclauses)])
    }

    /** `toString()`. */
    function ToString(render: seq<string> -> string): (s: string)
      reads this
      ensures StartsWith(s, RecordHead("unigrams", "'"))
    {
      RecordStartsWithFirstKey(Fields(render), "'");
      Record(Fields(render), "'")
    }
  }

  /** This class's `listToString`: the rendering in brackets. */
  function Bracketed(render: seq<string> -> string, list: seq<string>): (r: string)
    ensures |r| >= 2 && r[0] == '[' && r[|r| - 1] == ']'
  {
    "[" + render(list) + "]"
  }

  // ---------------------------------------------------------------------------
  // Properties of the extraction

  /** The token loop appends the PUNCT words to the marks, the others to the
      unigrams (and their lengths to the total), and the ADV, VERB and AUX
      words to their lists; nothing else changes. */
  lemma {:induction false} ScannedFields(f: Legacy, ts: seq<Token>)
    ensures var g := Scanned(f, ts);
      && g.punctuation == f.punctuation + Tagged(ts, "PUNCT")
      && g.unigrams == f.unigrams + NonPunct(ts)
      && g.avgWordLength == f.avgWordLength + NonPunctLength(ts)
      && g.adverbs == f.adverbs + Tagged(ts, "ADV")
      && g.verbs == f.verbs + Tagged(ts, "VERB")
      && g.modalAuxs == f.modalAuxs + Tagged(ts, "AUX")
    ensures Scanned(f, ts).(punctuation := f.punctuation, unigrams := f.unigrams,
      avgWordLength := f.avgWordLength, adverbs := f.adverbs, verbs := f.verbs,
      modalAuxs := f.modalAuxs) == f
  {
    if ts != [] {
      var init := ts[..|ts| - 1];
      ScannedFields(f, init);
      var t := ts[|ts| - 1];
      assert f.punctuation + Tagged(init, "PUNCT") + (if t.tag == "PUNCT" then [t.word] else [])
        == f.punctuation + Tagged(ts, "PUNCT");
      assert f.unigrams + NonPunct(init) + (if t.tag != "PUNCT" then [t.word] else []) == f.unigrams + NonPunct(ts);
      TaggedStep(f.adverbs, ts, "ADV");
      TaggedStep(f.verbs, ts, "VERB");
      TaggedStep(f.modalAuxs, ts, "AUX");
    }
  }

  lemma TaggedStep(prefix: seq<string>, ts: seq<Token>, tag: string)
    requires ts != []
    ensures var t := ts[|ts| - 1];
      prefix + Tagged(ts, tag) == prefix + Tagged(ts[..|ts| - 1], tag) + (if t.tag == tag then [t.word] else [])
  {
  }

  /** The scan of the initial fields holds exactly the routed tokens. */
  lemma ScanInitial(ts: seq<Token>)
    ensures Scanned(Initial, ts) == Initial.(punctuation := Tagged(ts, "PUNCT"), unigrams := NonPunct(ts),
      avgWordLength := NonPunctLength(ts), adverbs := Tagged(ts, "ADV"), verbs := Tagged(ts, "VERB"),
      modalAuxs := Tagged(ts, "AUX"))
  {
    ScannedFields(Initial, ts);
  }

  /** From the initial fields the feature becomes valid exactly when some
      token is not tagged PUNCT; word couples and key words stay empty. */
  lemma ExtractValidIff(tokens: seq<Token>, tree: Option<Tree>)
    ensures Extract(Initial, tokens, tree).isValid <==> exists i :: 0 <= i < |tokens| && tokens[i].tag != "PUNCT"
    ensures Extract(Initial, tokens, tree).wordCouples == [] && Extract(Initial, tokens, tree).keyWords == []
  {
    ScanInitial(tokens);
    NonPunctExists(tokens);
  }

  /** Every token is a mark or a unigram, and each unigram joins at most one
      of the adverb, verb and auxiliary lists. */
  lemma ExtractCounts(tokens: seq<Token>, tree: Option<Tree>)
    ensures var g := Extract(Initial, tokens, tree);
      && |g.punctuation| + |g.unigrams| == |tokens|
      && |g.adverbs| + |g.verbs| + |g.modalAuxs| <= |g.unigrams|
  {
    ScanInitial(tokens);
    PlainPartition(tokens);
  }

  /** With non-empty words, a valid extraction of n unigrams has the n - 1
      neighbouring pairs as bigrams and the max(0, n - 2) neighbouring
      triples as trigrams, and the punctuation counter matches. */
  lemma ExtractValidShape(tokens: seq<Token>, tree: Option<Tree>)
    requires forall i :: 0 <= i < |tokens| ==> tokens[i].word != ""
    requires Extract(Initial, tokens, tree).isValid
    ensures var g := Extract(Initial, tokens, tree);
      var n := |g.unigrams|;
      && n >= 1 && g.numberPunctMarks == |g.punctuation|
      && |g.bigrams| == n - 1
      && (forall m :: 0 <= m < n - 1 ==> g.bigrams[m] == Dash(g.unigrams[m], g.unigrams[m + 1]))
      && |g.trigrams| == (if n >= 2 then n - 2 else 0)
      && (forall m :: 0 <= m < n - 2 ==> g.trigrams[m] == Dash(Dash(g.unigrams[m], g.unigrams[m + 1]), g.unigrams[m + 2]))
  {
    ScanInitial(tokens);
    NonPunctNonEmpty(tokens);
    var s := Scanned(Initial, tokens);
    CompletedShape(s, tree);
  }

  lemma CompletedShape(s: Legacy, tree: Option<Tree>)
    requires |s.unigrams| > 0 && NoEmpty(s.unigrams) && s.bigrams == [] && s.trigrams == []
    ensures var g := Completed(s, tree);
      var ws := s.unigrams;
      var n := |ws|;
      && g.unigrams == ws && g.numberPunctMarks == |g.punctuation| && g.punctuation == s.punctuation
      && |g.bigrams| == n - 1
      && (forall m :: 0 <= m < n - 1 ==> g.bigrams[m] == Dash(ws[m], ws[m + 1]))
      && |g.trigrams| == (if n >= 2 then n - 2 else 0)
      && (forall m :: 0 <= m < n - 2 ==> g.trigrams[m] == Dash(Dash(ws[m], ws[m + 1]), ws[m + 2]))
  {
    var ws := s.unigrams;
    var n := |ws|;
    var g := Completed(s, tree);
    assert g.bigrams == PlainBigrams(ws, n) && g.trigrams == PlainTrigrams(ws, n);
    PlainBigramsShape(ws, n);
    if n >= 2 {
      PlainTrigramsShape(ws, n);
    } else {
      PlainShortInputs(ws);
    }
  }

  /** In a valid extraction the sub-clause count is the number of phrases of
      the parse tree and the depth that of the deepest one, below the tree's
      height. */
  lemma ExtractValidParse(tokens: seq<Token>, tree: Option<Tree>)
    requires Extract(Initial, tokens, tree).isValid
    ensures var g := Extract(Initial, tokens, tree);
      && g.numberSubclauses == |PhraseListOf(tree)|
      && (tree.None? ==> g.parseTreeDepth == 0)
      && (tree.Some? ==> 0 <= g.parseTreeDepth <= Height(tree.value))
  {
    ScanInitial(tokens);
    if tree.Some? {
      TreeDepthBound(tree.value);
    }
  }
}
