/** The feature extractor's `DetectionTextFeature`: the marked token routing
    without nouns, POS tags or entities, and a validity flag instead of a
    result. */
module DetectionFeatures {
  import opened Wrappers
  import opened Text
  import opened Tokens
  import opened NGrams
  import opened ArgumentEngine
  import opened FeatureUtils
  import opened TextFeatureBase

  /** The fields `extractFeatures` updates. */
  datatype Detection = Detection(
    unigrams: seq<string>, bigrams: seq<string>, trigrams: seq<string>,
    adverbs: seq<string>, verbs: seq<string>, modalAuxs: seq<string>,
    wordCouples: seq<string>, punctuation: seq<string>, keyWords: seq<string>,
    avgWordLength: int, numberPunctMarks: int, parseTreeDepth: int, numberSubclauses: int,
    isValid: bool)

  /** The values the constructor gives them. */
  const Initial: Detection := Detection([], [], [], [], [], [], [], [], [], 0, 0, 0, 0, false)

  /** One token of the loop: a mark joins the punctuation; a kept word joins
      the unigrams, its length the running total, and the word its tag group. */
  function StepDetection(g: Detection, r: Route): Detection {
    if r.Mark? then g.(punctuation := g.punctuation + [r.mark])
    else if r.Kept? then WithGroup(WithUnigram(g, r.word), r.word, r.tag)
    else g
  }

  /** A kept word's unigram and length. */
  function WithUnigram(g: Detection, w: string): Detection {
    g.(unigrams := g.unigrams + [w], avgWordLength := g.avgWordLength + |w|)
  }

  /** A kept word in its tag group, if it has one. */
  function WithGroup(g: Detection, w: string, tag: string): Detection {
    match GroupOf(w, tag, false)
    case Verbs => g.(verbs := g.verbs + [w])
    case Adverbs => g.(adverbs := g.adverbs + [w])
    case ModalAuxs => g.(modalAuxs := g.modalAuxs + [w])
    case _ => g
  }

  /** The token loop over the routes `rs`. */
  function Scanned(f: Detection, rs: seq<Route>): Detection {
    if rs == [] then f else StepDetection(Scanned(f, rs[..|rs| - 1]), rs[|rs| - 1])
  }

  /** The n-gram loop. */
  function WithNGrams(g: Detection): Detection {
    g.(bigrams := g.bigrams + MarkedBigrams(g.unigrams),
       trigrams := g.trigrams + MarkedTrigrams(g.unigrams))
  }

  /** The phrase statistics of the parse tree. */
  function WithParse(g: Detection, tree: Option<Tree>): Detection {
    var phraseList := PhraseListOf(tree);
    g.(parseTreeDepth := MaxDepth(g.parseTreeDepth, phraseList), numberSubclauses := |phraseList|)
  }

  /** The mean word length and the number of marks. */
  function Averaged(g: Detection): Detection
    requires |g.unigrams| > 0
  {
    g.(avgWordLength := g.avgWordLength / |g.unigrams|, numberPunctMarks := |g.punctuation|)
  }

  /** The word couples and the linkers of the lexicon that the unigrams use. */
  function WithLinkers(g: Detection, lexicon: seq<Linker>, h: Helpers): Detection {
    g.(wordCouples := h.wordCouples(g.unigrams), keyWords := h.usedLinkers(g.unigrams, lexicon))
  }

  /** The second stage, run when the sentence has a valid unigram. */
  function Completed(g: Detection, a: Analysis, lexicon: seq<Linker>, h: Helpers): Detection
    requires |g.unigrams| > 0
  {
    WithLinkers(WithParse(WithNGrams(Averaged(g)), a.tree), lexicon, h).(isValid := true)
  }

  /** `extractFeatures()` from the fields `f`: the new fields, or the
      exception a token raises after the earlier tokens were added. */
  function Extract(f: Detection, a: Analysis, dateFormat: string, lexicon: seq<Linker>,
                   o: StringOracle, h: Helpers): (Detection, Result<()>)
  {
    var rs := Routes(a.tokens, dateFormat, o);
    var k := FirstRaise(rs);
    var g := Scanned(f, rs[..k]);
    if k < |rs| then (g, Err(StringIndexOutOfBounds))
    else if |g.unigrams| == 0 then (g, Ok(()))
    else (Completed(g, a, lexicon, h), Ok(()))
  }

  /** The keys of `toString`, in order. */
  const ToStringKeys: seq<string> := [
    "unigrams", "bigrams", "trigrams", "adverbs", "verbs", "modal_aux", "word_couples",
    "punctuation", "key_words", "text_length", "avg_word_length", "number_punct_marks",
    "parse_tree_depth", "number_sub_clauses"]

  class DetectionTextFeature {
    const id: string
    const text: string
    /** The engine's language; the constructor dereferences the engine. */
    const language: string
    const lexicon: seq<Linker>
    const dateFormat: string
    const textLength: int

    var unigrams: seq<string>
    var bigrams: seq<string>
    var trigrams: seq<string>
    var adverbs: seq<string>
    var verbs: seq<string>
    var modalAuxs: seq<string>
    var wordCouples: seq<string>
    var punctuation: seq<string>
    var keyWords: seq<string>
    var avgWordLength: int
    var numberPunctMarks: int
    var parseTreeDepth: int
    var numberSubclauses: int
    var isValid: bool

    function Snapshot(): Detection
      reads this
    {
      Detection(unigrams, bigrams, trigrams, adverbs, verbs, modalAuxs, wordCouples, punctuation,
                keyWords, avgWordLength, numberPunctMarks, parseTreeDepth, numberSubclauses, isValid)
    }

    constructor(id: string, text: string, language: string, lexicon: seq<Linker>)
      ensures this.id == id && this.text == text && this.language == language && this.lexicon == lexicon
      ensures dateFormat == DateFormatOf(language) && textLength == |text|
      ensures Snapshot() == Initial
    {
      this.id := id;
      this.text := text;
      this.language := language;
      this.lexicon := lexicon;
      this.dateFormat := DateFormatOf(language);
      this.textLength := |text|;
      unigrams, bigrams, trigrams, adverbs, verbs, modalAuxs := [], [], [], [], [], [];
      wordCouples, punctuation, keyWords := [], [], [];
      avgWordLength, numberPunctMarks, parseTreeDepth, numberSubclauses := 0, 0, 0, 0;
      isValid := false;
    }

    /** `getID()`. */
    function GetId(): (r: string)
      reads this
      ensures r == id
    {
      id
    }

    /** `isValid()`. */
    function Valid(): (r: bool)
      reads this
      ensures r == isValid
    {
      isValid
    }

    /** `extraction()`: texts shorter than `MIN_LENGTH` are left untouched. */
    method Extraction(a: Analysis, o: StringOracle, h: Helpers) returns (r: Result<()>)
      modifies this
      ensures !Extracts(textLength) ==> r == Ok(()) && Snapshot() == old(Snapshot())
      ensures Extracts(textLength) ==> (Snapshot(), r) == Extract(old(Snapshot()), a, dateFormat, lexicon, o, h)
    {
      r := Ok(());
      if textLength >= MinLength {
        r := ExtractFeatures(a, o, h);
      }
    }

    /** `extractFeatures()`. */
    method ExtractFeatures(a: Analysis, o: StringOracle, h: Helpers) returns (r: Result<()>)
      modifies this
      ensures (Snapshot(), r) == Extract(old(Snapshot()), a, dateFormat, lexicon, o, h)
    {
      var raised := ScanTokens(a.tokens, o);
      if raised {
        return Err(StringIndexOutOfBounds);
      }
      if |unigrams| > 0 {
        Complete(a, h);
      }
      return Ok(());
    }

    /** The token loop: stops at the first token that raises. */
    method ScanTokens(tokens: seq<Token>, o: StringOracle) returns (raised: bool)
      modifies this
      ensures raised == (FirstRaise(Routes(tokens, dateFormat, o)) < |tokens|)
      ensures Snapshot() == Scanned(old(Snapshot()), Routes(tokens, dateFormat, o)[..FirstRaise(Routes(tokens, dateFormat, o))])
    {
      ghost var rs := Routes(tokens, dateFormat, o);
      ghost var k := FirstRaise(rs);
      ghost var f := Snapshot();
      var i := 0;
      while i < |tokens|
        invariant 0 <= i <= k
        invariant Snapshot() == Scanned(f, rs[..i])
      {
        assert rs[..i + 1][..i] == rs[..i];
        assert rs[i] == RouteOf(tokens[i], dateFormat, o);
        FirstRaiseAt(rs, i);
        var tokenRaised := AddToken(tokens[i], o);
        if tokenRaised {
          return true;
        }
        i := i + 1;
      }
      return false;
    }

    /** One step of the token loop. */
    method AddToken(t: Token, o: StringOracle) returns (raised: bool)
      modifies this
      ensures raised == RouteOf(t, dateFormat, o).Raises?
      ensures Snapshot() == StepDetection(old(Snapshot()), RouteOf(t, dateFormat, o))
    {
      var isPunct := IsPunctuation(t);
      if isPunct.Err? {
        return true;
      }
      if isPunct.value {
        punctuation := punctuation + [o.cleanPunctuationMark(t.word)];
      } else {
        var word := Normalise(t.word, dateFormat, o);
        if o.isValidToken(word) {
          AddWord(word, t.tag);
        }
      }
      return false;
    }

    /** A valid word: its unigram, its length and its tag group. */
    method AddWord(word: string, tag: string)
      modifies this
      ensures Snapshot() == StepDetection(old(Snapshot()), Kept(word, tag))
    {
      unigrams := unigrams + [word];
      avgWordLength := avgWordLength + |word|;
      assert Snapshot() == WithUnigram(old(Snapshot()), word);
      AddToGroup(word, tag);
    }

    method AddToGroup(word: string, tag: string)
      modifies this
      ensures Snapshot() == WithGroup(old(Snapshot()), word, tag)
    {
      if tag == "VERB" && |word| > 1 {
        verbs := verbs + [word];
      } else if tag == "ADV" {
        adverbs := adverbs + [word];
      } else if tag == "AUX" {
        modalAuxs := modalAuxs + [word];
      }
    }

    /** The statements after the loop, run when a unigram was kept. */
    method Complete(a: Analysis, h: Helpers)
      requires |unigrams| > 0
      modifies this
      ensures Snapshot() == Completed(old(Snapshot()), a, lexicon, h)
    {
      Average();
      AddNGrams();
      AddParse(a.tree);
      AddLinkers(h);
      isValid := true;
    }

    method Average()
      requires |unigrams| > 0
      modifies this
      ensures Snapshot() == Averaged(old(Snapshot()))
    {
      avgWordLength := avgWordLength / |unigrams|;
      numberPunctMarks := |punctuation|;
    }

    method AddLinkers(h: Helpers)
      modifies this
      ensures Snapshot() == WithLinkers(old(Snapshot()), lexicon, h)
    {
      wordCouples := h.wordCouples(unigrams);
      keyWords := h.usedLinkers(unigrams, lexicon);
    }

    method AddNGrams()
      modifies this
      ensures Snapshot() == WithNGrams(old(Snapshot()))
    {
      var newBigrams, newTrigrams := MarkedNGrams(unigrams);
      bigrams := bigrams + newBigrams;
      trigrams := trigrams + newTrigrams;
    }

    method AddParse(tree: Option<Tree>)
      modifies this
      ensures Snapshot() == WithParse(old(Snapshot()), tree)
    {
      var phraseList := GetPhraseList(tree);
      parseTreeDepth := DeepestPhrase(parseTreeDepth, phraseList);
      numberSubclauses := |phraseList|;
    }

    /** The `toString` record, keys in double quotes. */
    function Fields(): (pairs: seq<(string, string)>)
      reads this
      ensures KeysOf(pairs) == ToStringKeys
    {
      Zip(ToStringKeys, [ListToString(unigrams), ListToString(bigrams), ListToString(trigrams),
        ListToString(adverbs), ListToString(verbs), ListToString(modalAuxs), ListToString(wordCouples),
        ListToString(punctuation), ListToString(keyWords), IntToString(textLength),
        IntToString(avgWordLength), IntToString(numberPunctMarks), IntToString(parseTreeDepth),
        IntToString(numberSubclauses)])
    }

    /** `toString()`. */
    function ToString(): (s: string)
      reads this
      ensures StartsWith(s, RecordHead("unigrams", "\""))
    {
      RecordStartsWithFirstKey(Fields(), "\"");
      Record(Fields(), "\"")
    }
  }

  // ---------------------------------------------------------------------------
  // Properties of the extraction

  /** The token loop appends the marks, unigrams, lengths and groups of the
      routes, and leaves every other field alone. */
  lemma {:induction false} ScannedFields(f: Detection, rs: seq<Route>)
    ensures var g := Scanned(f, rs);
      && g.punctuation == f.punctuation + Marks(rs)
      && g.unigrams == f.unigrams + Words(rs)
      && g.avgWordLength == f.avgWordLength + WordLength(rs)
      && g.verbs == f.verbs + Grouped(rs, Verbs, false)
      && g.adverbs == f.adverbs + Grouped(rs, Adverbs, false)
      && g.modalAuxs == f.modalAuxs + Grouped(rs, ModalAuxs, false)
    ensures Scanned(f, rs).(punctuation := f.punctuation, unigrams := f.unigrams,
      avgWordLength := f.avgWordLength, verbs := f.verbs, adverbs := f.adverbs,
      modalAuxs := f.modalAuxs) == f
  {
    if rs != [] {
      var init := rs[..|rs| - 1];
      ScannedFields(f, init);
      var g := Scanned(f, init);
      var r := rs[|rs| - 1];
      assert Scanned(f, rs) == StepDetection(g, r);
      assert f.punctuation + Marks(init) + (if r.Mark? then [r.mark] else []) == f.punctuation + Marks(rs);
      assert f.unigrams + Words(init) + (if r.Kept? then [r.word] else []) == f.unigrams + Words(rs);
      GroupedStep(f.verbs, rs, Verbs);
      GroupedStep(f.adverbs, rs, Adverbs);
      GroupedStep(f.modalAuxs, rs, ModalAuxs);
    }
  }

  lemma GroupedStep(prefix: seq<string>, rs: seq<Route>, grp: Group)
    requires rs != []
    ensures var r := rs[|rs| - 1];
      prefix + Grouped(rs, grp, false) ==
        prefix + Grouped(rs[..|rs| - 1], grp, false) + (if r.Kept? && GroupOf(r.word, r.tag, false) == grp then [r.word] else [])
  {
  }

  /** The extraction raises exactly when a token is an empty word not tagged
      PUNCT; from the initial fields it marks the feature valid exactly when
      no token raises and some token yields a valid unigram. */
  lemma ExtractOutcome(a: Analysis, dateFormat: string, lexicon: seq<Linker>, o: StringOracle, h: Helpers)
    ensures Extract(Initial, a, dateFormat, lexicon, o, h).1.Err? <==>
      exists i :: 0 <= i < |a.tokens| && a.tokens[i].tag != "PUNCT" && a.tokens[i].word == ""
    ensures Extract(Initial, a, dateFormat, lexicon, o, h).0.isValid <==>
      FirstRaise(Routes(a.tokens, dateFormat, o)) == |a.tokens| &&
      exists i :: 0 <= i < |a.tokens| && RouteOf(a.tokens[i], dateFormat, o).Kept?
  {
    var rs := Routes(a.tokens, dateFormat, o);
    var k := FirstRaise(rs);
    RaisesIff(a.tokens, dateFormat, o);
    var s := Scanned(Initial, rs[..k]);
    assert |s.unigrams| == |Words(rs[..k])| && !s.isValid by {
      ScannedFields(Initial, rs[..k]);
    }
    if k == |rs| {
      assert rs[..k] == rs;
      WordsExist(rs);
      if exists i :: 0 <= i < |a.tokens| && RouteOf(a.tokens[i], dateFormat, o).Kept? {
        var i :| 0 <= i < |a.tokens| && RouteOf(a.tokens[i], dateFormat, o).Kept?;
        assert rs[i].Kept?;
      }
      if exists i :: 0 <= i < |rs| && rs[i].Kept? {
        var i :| 0 <= i < |rs| && rs[i].Kept?;
        assert RouteOf(a.tokens[i], dateFormat, o).Kept?;
      }
    }
  }

  /** A valid extraction is the second stage over the scan of every token. */
  lemma ValidUnfold(a: Analysis, dateFormat: string, lexicon: seq<Linker>, o: StringOracle, h: Helpers)
    requires Extract(Initial, a, dateFormat, lexicon, o, h).0.isValid
    ensures var s := Scanned(Initial, Routes(a.tokens, dateFormat, o));
      |s.unigrams| > 0 && Extract(Initial, a, dateFormat, lexicon, o, h).0 == Completed(s, a, lexicon, h)
  {
    var rs := Routes(a.tokens, dateFormat, o);
    var k := FirstRaise(rs);
    ScannedFields(Initial, rs[..k]);
    assert rs[..|rs|] == rs;
  }

  /** The second stage keeps what the loop gathered, adds the n-grams and
      the parse statistics, and sets the flag. */
  lemma CompletedFields(g: Detection, a: Analysis, lexicon: seq<Linker>, h: Helpers)
    requires |g.unigrams| > 0
    ensures var c := Completed(g, a, lexicon, h);
      && c.unigrams == g.unigrams && c.punctuation == g.punctuation && c.verbs == g.verbs
      && c.adverbs == g.adverbs && c.modalAuxs == g.modalAuxs && c.isValid
      && c.avgWordLength == g.avgWordLength / |g.unigrams| && c.numberPunctMarks == |g.punctuation|
      && c.bigrams == g.bigrams + MarkedBigrams(g.unigrams)
      && c.trigrams == g.trigrams + MarkedTrigrams(g.unigrams)
      && c.numberSubclauses == |PhraseListOf(a.tree)|
      && c.parseTreeDepth == MaxDepth(g.parseTreeDepth, PhraseListOf(a.tree))
      && c.wordCouples == h.wordCouples(g.unigrams) && c.keyWords == h.usedLinkers(g.unigrams, lexicon)
  {
  }

  /** In a valid extraction the lists the loop fills hold the contributions
      of every token. */
  lemma ValidLists(a: Analysis, dateFormat: string, lexicon: seq<Linker>, o: StringOracle, h: Helpers)
    requires Extract(Initial, a, dateFormat, lexicon, o, h).0.isValid
    ensures var g := Extract(Initial, a, dateFormat, lexicon, o, h).0;
      var rs := Routes(a.tokens, dateFormat, o);
      && g.unigrams == Words(rs) && g.punctuation == Marks(rs) && |Words(rs)| > 0
      && g.avgWordLength == WordLength(rs) / |Words(rs)|
      && g.verbs == Grouped(rs, Verbs, false) && g.adverbs == Grouped(rs, Adverbs, false)
      && g.modalAuxs == Grouped(rs, ModalAuxs, false)
  {
    var rs := Routes(a.tokens, dateFormat, o);
    var s := Scanned(Initial, rs);
    ValidUnfold(a, dateFormat, lexicon, o, h);
    ScannedFields(Initial, rs);
    CompletedFields(s, a, lexicon, h);
  }

  /** A valid extraction has n >= 1 unigrams; n + 1 marked bigrams running
      from "$init$-w1" to "wn-$end$" and n marked trigrams; and as many
      punctuation marks as the counter says. */
  lemma ExtractValidShape(a: Analysis, dateFormat: string, lexicon: seq<Linker>, o: StringOracle, h: Helpers)
    requires Extract(Initial, a, dateFormat, lexicon, o, h).0.isValid
    ensures var g := Extract(Initial, a, dateFormat, lexicon, o, h).0;
      var n := |g.unigrams|;
      && n >= 1 && |g.bigrams| == n + 1 && g.bigrams[0] == Dash(Init, g.unigrams[0])
      && g.bigrams[n] == Dash(g.unigrams[n - 1], End) && |g.trigrams| == n
      && g.numberPunctMarks == |g.punctuation|
  {
    var rs := Routes(a.tokens, dateFormat, o);
    var s := Scanned(Initial, rs);
    ValidUnfold(a, dateFormat, lexicon, o, h);
    ScannedFields(Initial, rs);
    KeptNonEmpty(rs);
    CompletedShape(s, a, lexicon, h);
    var g := Extract(Initial, a, dateFormat, lexicon, o, h).0;
    assert g == Completed(s, a, lexicon, h);
  }

  /** In a valid extraction the marks and unigrams come from different
      tokens and each unigram joins at most one tag group. */
  lemma ExtractValidCounts(a: Analysis, dateFormat: string, lexicon: seq<Linker>, o: StringOracle, h: Helpers)
    requires Extract(Initial, a, dateFormat, lexicon, o, h).0.isValid
    ensures var g := Extract(Initial, a, dateFormat, lexicon, o, h).0;
      && |g.punctuation| + |g.unigrams| <= |a.tokens|
      && |g.verbs| + |g.adverbs| + |g.modalAuxs| <= |g.unigrams|
  {
    var rs := Routes(a.tokens, dateFormat, o);
    ValidLists(a, dateFormat, lexicon, o, h);
    MarksAndWords(rs);
    GroupsBounded(rs, false);
  }

  /** The second stage over loop results without earlier n-grams. */
  lemma CompletedShape(s: Detection, a: Analysis, lexicon: seq<Linker>, h: Helpers)
    requires |s.unigrams| > 0 && NoEmpty(s.unigrams) && s.bigrams == [] && s.trigrams == []
    ensures var g := Completed(s, a, lexicon, h);
      var n := |g.unigrams|;
      && g.unigrams == s.unigrams && g.punctuation == s.punctuation
      && g.verbs == s.verbs && g.adverbs == s.adverbs && g.modalAuxs == s.modalAuxs
      && |g.bigrams| == n + 1 && g.bigrams[0] == Dash(Init, g.unigrams[0])
      && g.bigrams[n] == Dash(g.unigrams[n - 1], End) && |g.trigrams| == n
      && g.numberPunctMarks == |g.punctuation|
  {
    var ws := s.unigrams;
    CompletedFields(s, a, lexicon, h);
    assert [] + MarkedBigrams(ws) == MarkedBigrams(ws);
    assert [] + MarkedTrigrams(ws) == MarkedTrigrams(ws);
    MarkedBigramsShape(ws);
    MarkedTrigramsShape(ws);
  }

  /** In a valid extraction the sub-clause count is the number of phrases of
      the parse tree and the depth that of the deepest one, below the tree's
      height. */
  lemma ExtractValidParse(a: Analysis, dateFormat: string, lexicon: seq<Linker>, o: StringOracle, h: Helpers)
    requires Extract(Initial, a, dateFormat, lexicon, o, h).0.isValid
    ensures var g := Extract(Initial, a, dateFormat, lexicon, o, h).0;
      && g.numberSubclauses == |PhraseListOf(a.tree)|
      && (a.tree.None? ==> g.parseTreeDepth == 0)
      && (a.tree.Some? ==> 0 <= g.parseTreeDepth <= Height(a.tree.value))
  {
    var rs := Routes(a.tokens, dateFormat, o);
    var s := Scanned(Initial, rs);
    ValidUnfold(a, dateFormat, lexicon, o, h);
    ScannedFields(Initial, rs);
    CompletedFields(s, a, lexicon, h);
    if a.tree.Some? {
      TreeDepthBound(a.tree.value);
    }
  }
}
