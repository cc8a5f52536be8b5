/** The argument classifier's `TextFeature` (package `ml`): the plain token
    routing and n-grams over an already processed document. `process` marks
    the feature valid for every text of at least `MIN_LENGTH` characters. */
module ClassifierFeatures {
  import opened Tokens
  import opened NGrams
  import opened TextFeatureBase

  /** The fields `process` updates. */
  datatype Plain = Plain(
    unigrams: seq<string>, bigrams: seq<string>, trigrams: seq<string>,
    adverbs: seq<string>, verbs: seq<string>, modalAuxs: seq<string>, punctuation: seq<string>,
    avgWordLength: int, numberPunctMarks: int, parseTreeDepth: int, numberSubclauses: int,
    isValid: bool)

  /** The values the constructor gives them (the counters keep Java's 0). */
  const Initial: Plain := Plain([], [], [], [], [], [], [], 0, 0, 0, 0, false)

  /** One token of the loop: anything not PUNCT is a unigram; then the
      first of ADV, VERB, AUX and PUNCT that matches picks the list. */
  function StepPlain(g: Plain, t: Token): Plain {
    WithTagged(if t.tag != "PUNCT" then WithUnigram(g, t.word) else g, t)
  }

  /** A unigram and its length. */
  function WithUnigram(g: Plain, w: string): Plain {
    g.(unigrams := g.unigrams + [w], avgWordLength := g.avgWordLength + |w|)
  }

  /** A token's ADV, VERB, AUX or PUNCT list. */
  function WithTagged(g: Plain, t: Token): Plain {
    if t.tag == "ADV" then g.(adverbs := g.adverbs + [t.word])
    else if t.tag == "VERB" then g.(verbs := g.verbs + [t.word])
    else if t.tag == "AUX" then g.(modalAuxs := g.modalAuxs + [t.word])
    else if t.tag == "PUNCT" then g.(punctuation := g.punctuation + [t.word])
    else g
  }

  /** The token loop over `ts`. */
  function Scanned(f: Plain, ts: seq<Token>): Plain {
    if ts == [] then f else StepPlain(Scanned(f, ts[..|ts| - 1]), ts[|ts| - 1])
  }

  /** The second stage, run when the document has a unigram. */
  function Completed(g: Plain): Plain
    requires |g.unigrams| > 0
  {
    WithNGrams(Averaged(g))
  }

  /** The mean word length and the number of marks. */
  function Averaged(g: Plain): Plain
    requires |g.unigrams| > 0
  {
    g.(avgWordLength := g.avgWordLength / |g.unigrams|, numberPunctMarks := |g.punctuation|)
  }

  /** The plain n-gram loop. */
  function WithNGrams(g: Plain): Plain {
    g.(bigrams := g.bigrams + PlainBigrams(g.unigrams, |g.unigrams|),
       trigrams := g.trigrams + PlainTrigrams(g.unigrams, |g.unigrams|))
  }

  /** `extractFeatures()` from the fields `f`. */
  function Extract(f: Plain, tokens: seq<Token>): Plain {
    var g := Scanned(f, tokens);
    if |g.unigrams| == 0 then g else Completed(g)
  }

  /** `process()` from the fields `f`. */
  function Processed(f: Plain, textLength: int, tokens: seq<Token>): Plain {
    if Extracts(textLength) then Extract(f, tokens).(isValid := true) else f
  }

  class TextFeature {
    /** `nlpDoc.text()` and `nlpDoc.tokens()`. */
    const text: string
    const tokens: seq<Token>
    const textLength: int

    var unigrams: seq<string>
    var bigrams: seq<string>
    var trigrams: seq<string>
    var adverbs: seq<string>
    var verbs: seq<string>
    var modalAuxs: seq<string>
    var punctuation: seq<string>
    var avgWordLength: int
    var numberPunctMarks: int
    var parseTreeDepth: int
    var numberSubclauses: int
    var isValid: bool

    function Snapshot(): Plain
      reads this
    {
      Plain(unigrams, bigrams, trigrams, adverbs, verbs, modalAuxs, punctuation,
            avgWordLength, numberPunctMarks, parseTreeDepth, numberSubclauses, isValid)
    }

    constructor(text: string, tokens: seq<Token>)
      ensures this.text == text && this.tokens == tokens && textLength == |text|
      ensures Snapshot() == Initial
    {
      this.text := text;
      this.tokens := tokens;
      this.textLength := |text|;
      unigrams, bigrams, trigrams, adverbs, verbs, modalAuxs, punctuation := [], [], [], [], [], [], [];
      avgWordLength, numberPunctMarks, parseTreeDepth, numberSubclauses := 0, 0, 0, 0;
      isValid := false;
    }

    /** `isValid()`. */
    function Valid(): (r: bool)
      reads this
      ensures r == isValid
    {
      isValid
    }

    /** `process()`. */
    method Process()
      modifies this
      ensures Snapshot() == Processed(old(Snapshot()), textLength, tokens)
    {
      if textLength >= MinLength {
        ExtractFeatures();
        isValid := true;
      }
    }

    /** `extractFeatures()`. */
    method ExtractFeatures()
      modifies this
      ensures Snapshot() == Extract(old(Snapshot()), tokens)
    {
      ghost var f := Snapshot();
      var i := 0;
      while i < |tokens|
        invariant 0 <= i <= |tokens|
        invariant Snapshot() == Scanned(f, tokens[..i])
      {
        assert tokens[..i + 1][..i] == tokens[..i];
        AddToken(tokens[i]);
        i := i + 1;
      }
      assert tokens[..i] == tokens;
      if |unigrams| > 0 {
        Average();
        AddNGrams();
      }
    }

    /** One step of the token loop. */
    method AddToken(t: Token)
      modifies this
      ensures Snapshot() == StepPlain(old(Snapshot()), t)
    {
      var currWord := t.word;
      var posTag := t.tag;
      if posTag != "PUNCT" {
        unigrams := unigrams + [currWord];
        avgWordLength := avgWordLength + |currWord|;
        assert Snapshot() == WithUnigram(old(Snapshot()), t.word);
      }
      AddTagged(t);
    }

    method AddTagged(t: Token)
      modifies this
      ensures Snapshot() == WithTagged(old(Snapshot()), t)
    {
      if t.tag == "ADV" {
        adverbs := adverbs + [t.word];
      } else if t.tag == "VERB" {
        verbs := verbs + [t.word];
      } else if t.tag == "AUX" {
        modalAuxs := modalAuxs + [t.word];
      } else if t.tag == "PUNCT" {
        punctuation := punctuation + [t.word];
      }
    }

    method Average()
      requires |unigrams| > 0
      modifies this
      ensures Snapshot() == Averaged(old(Snapshot()))
    {
      avgWordLength := avgWordLength / |unigrams|;
      numberPunctMarks := |punctuation|;
    }

    method AddNGrams()
      modifies this
      ensures Snapshot() == WithNGrams(old(Snapshot()))
    {
      var newBigrams, newTrigrams := PlainNGrams(unigrams);
      bigrams := bigrams + newBigrams;
      trigrams := trigrams + newTrigrams;
    }
  }

  // ---------------------------------------------------------------------------
  // Properties

  /** The token loop appends the PUNCT words to the marks, the others to the
      unigrams (and their lengths to the total), and the ADV, VERB and AUX
      words to their lists; nothing else changes. */
  lemma {:induction false} ScannedFields(f: Plain, ts: seq<Token>)
    ensures var g := Scanned(f, ts);
      && g.punctuation == f.punctuation + Tagged(ts, "PUNCT")
      && g.unigrams == f.unigrams + NonPunct(ts)
      && g.avgWordLength == f.avgWordLength + NonPunctLength(ts)
      && g.adverbs == f.adverbs + Tagged(ts, "ADV")
      && g.verbs == f.verbs + Tagged(ts, "VERB")
      && g.modalAuxs == f.modalAuxs + Tagged(ts, "AUX")
    ensures Scanned(f, ts).(punctuation := f.punctuation, unigrams := f.unigrams,
      avgWordLength := f.avgWordLength, adverbs := f.adverbs, verbs := f.verbs,
      modalAuxs := f.modalAuxs) == f
  {
    if ts != [] {
      var init := ts[..|ts| - 1];
      ScannedFields(f, init);
      var t := ts[|ts| - 1];
      assert f.punctuation + Tagged(init, "PUNCT") + (if t.tag == "PUNCT" then [t.word] else [])
        == f.punctuation + Tagged(ts, "PUNCT");
      assert f.unigrams + NonPunct(init) + (if t.tag != "PUNCT" then [t.word] else []) == f.unigrams + NonPunct(ts);
      assert f.adverbs + Tagged(init, "ADV") + (if t.tag == "ADV" then [t.word] else []) == f.adverbs + Tagged(ts, "ADV");
      assert f.verbs + Tagged(init, "VERB") + (if t.tag == "VERB" then [t.word] else []) == f.verbs + Tagged(ts, "VERB");
      assert f.modalAuxs + Tagged(init, "AUX") + (if t.tag == "AUX" then [t.word] else []) == f.modalAuxs + Tagged(ts, "AUX");
    }
  }

  /** The scan of the initial fields holds exactly the routed tokens. */
  lemma ScanInitial(ts: seq<Token>)
    ensures Scanned(Initial, ts) == Initial.(punctuation := Tagged(ts, "PUNCT"), unigrams := NonPunct(ts),
      avgWordLength := NonPunctLength(ts), adverbs := Tagged(ts, "ADV"), verbs := Tagged(ts, "VERB"),
      modalAuxs := Tagged(ts, "AUX"))
  {
    ScannedFields(Initial, ts);
  }

  /** `process()` marks the feature valid exactly when the text is long
      enough, whatever its tokens are; a short text leaves every field as
      it was. */
  lemma ProcessedValid(textLength: int, tokens: seq<Token>)
    ensures Processed(Initial, textLength, tokens).isValid <==> textLength >= MinLength
    ensures textLength < MinLength ==> Processed(Initial, textLength, tokens) == Initial
  {
  }

  /** Every token is a mark or a unigram, and each unigram joins at most one
      of the adverb, verb and auxiliary lists. */
  lemma ProcessedCounts(textLength: int, tokens: seq<Token>)
    requires Extracts(textLength)
    ensures var g := Processed(Initial, textLength, tokens);
      && |g.punctuation| + |g.unigrams| == |tokens|
      && |g.adverbs| + |g.verbs| + |g.modalAuxs| <= |g.unigrams|
      && (|g.unigrams| > 0 ==> g.numberPunctMarks == |g.punctuation|)
      && g.parseTreeDepth == 0 && g.numberSubclauses == 0
  {
    ScanInitial(tokens);
    PlainPartition(tokens);
  }

  /** With non-empty words, the n unigrams of a long enough text give the
      n - 1 neighbouring pairs as bigrams and the max(0, n - 2) neighbouring
      triples as trigrams. */
  lemma ProcessedShape(textLength: int, tokens: seq<Token>)
    requires Extracts(textLength)
    requires forall i :: 0 <= i < |tokens| ==> tokens[i].word != ""
    ensures var g := Processed(Initial, textLength, tokens);
      var n := |g.unigrams|;
      && |g.bigrams| == (if n >= 1 then n - 1 else 0)
      && (forall m :: 0 <= m < n - 1 ==> g.bigrams[m] == Dash(g.unigrams[m], g.unigrams[m + 1]))
      && |g.trigrams| == (if n >= 2 then n - 2 else 0)
      && (forall m :: 0 <= m < n - 2 ==> g.trigrams[m] == Dash(Dash(g.unigrams[m], g.unigrams[m + 1]), g.unigrams[m + 2]))
  {
    ScanInitial(tokens);
    var s := Scanned(Initial, tokens);
    var ws := s.unigrams;
    var n := |ws|;
    NonPunctNonEmpty(tokens);
    if n > 0 {
      var g := Completed(s);
      assert g.bigrams == PlainBigrams(ws, n) && g.trigrams == PlainTrigrams(ws, n);
      PlainBigramsShape(ws, n);
      if n >= 2 {
        PlainTrigramsShape(ws, n);
      } else {
        PlainShortInputs(ws);
      }
    }
  }
}
