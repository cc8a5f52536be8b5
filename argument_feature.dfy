/** The feature extractor's `ArgumentFeature`: the argumentative features of
    one sentence for the detection task. The NLP engine's output for the text
    (tokens, named entities, constituency tree) and the `FeatureUtils`
    overloads it calls are inputs. */
module ArgumentFeatures {
  import opened Wrappers
  import opened Text
  import opened Tokens
  import opened NGrams
  import opened ArgumentEngine
  import opened FeatureUtils
  import opened TextFeatureBase

  /** `getDateFormat()`: "" without an engine (`None`), otherwise the
      language's format. */
  function GetDateFormat(language: Option<string>): (format: string)
    ensures format == "" <==> language.None?
    ensures language == Some(LangEn) ==> format == "MM/dd/yyyy"
    ensures language.Some? && language.value != LangEn ==> format == "dd/MM/yyyy"
  {
    if language.None? then "" else DateFormatOf(language.value)
  }

  /** The fields `extractFeatures` updates. */
  datatype Features = Features(
    tokenCount: int, avgWordLength: int, punctMarksCount: int,
    bowUnigrams: seq<string>, bowBigrams: seq<string>, bowTrigrams: seq<string>,
    posUnigrams: seq<string>, posBigrams: seq<string>, wordCouples: seq<string>,
    entities: seq<string>, adverbs: seq<string>, verbs: seq<string>, nouns: seq<string>,
    modalAuxs: seq<string>, parseTreeDepth: int, subClausesCount: int,
    punctuation: seq<string>, keyWords: seq<string>)

  /** The values the constructor gives them. */
  const Initial: Features :=
    Features(0, 0, 0, [], [], [], [], [], [], [], [], [], [], [], 0, 0, [], [])

  /** One token of the loop: a mark joins the punctuation; a kept word joins
      the unigrams, its tag the POS unigrams, its length the running total,
      and the word its tag group. */
  function StepFeatures(g: Features, r: Route): Features {
    if r.Mark? then g.(punctuation := g.punctuation + [r.mark])
    else if r.Kept? then WithGroup(WithUnigram(g, r.word, r.tag), r.word, r.tag)
    else g
  }

  /** A kept word's unigram, tag and length. */
  function WithUnigram(g: Features, w: string, tag: string): Features {
    g.(bowUnigrams := g.bowUnigrams + [w], posUnigrams := g.posUnigrams + [tag],
       avgWordLength := g.avgWordLength + |w|)
  }

  /** A kept word in its tag group, if it has one. */
  function WithGroup(g: Features, w: string, tag: string): Features {
    match GroupOf(w, tag, true)
    case Verbs => g.(verbs := g.verbs + [w])
    case Adverbs => g.(adverbs := g.adverbs + [w])
    case ModalAuxs => g.(modalAuxs := g.modalAuxs + [w])
    case Nouns => g.(nouns := g.nouns + [w])
    case NoGroup => g
  }

  /** The token loop over the routes `rs`. */
  function Scanned(f: Features, rs: seq<Route>): Features {
    if rs == [] then f else StepFeatures(Scanned(f, rs[..|rs| - 1]), rs[|rs| - 1])
  }

  /** The n-gram loop and the POS bigram loop. */
  function WithNGrams(g: Features): Features {
    g.(bowBigrams := g.bowBigrams + MarkedBigrams(g.bowUnigrams),
       bowTrigrams := g.bowTrigrams + MarkedTrigrams(g.bowUnigrams),
       posBigrams := g.posBigrams + MarkedBigrams(g.posUnigrams))
  }

  /** The named entities and the phrase statistics of the parse tree. */
  function WithParse(g: Features, a: Analysis): Features {
    var phraseList := PhraseListOf(a.tree);
    g.(entities := a.entities,
       parseTreeDepth := MaxDepth(g.parseTreeDepth, phraseList),
       subClausesCount := |phraseList|)
  }

  /** The mean word length and the number of marks. */
  function Averaged(g: Features): Features
    requires |g.bowUnigrams| > 0
  {
    g.(avgWordLength := g.avgWordLength / |g.bowUnigrams|, punctMarksCount := |g.punctuation|)
  }

  /** The word couples and the linkers of the lexicon that the unigrams use. */
  function WithLinkers(g: Features, lexicon: seq<Linker>, h: Helpers): Features {
    g.(wordCouples := h.wordCouples(g.bowUnigrams), keyWords := h.usedLinkers(g.bowUnigrams, lexicon))
  }

  /** The second stage, run when the sentence has a valid unigram. */
  function Completed(g: Features, a: Analysis, lexicon: seq<Linker>, h: Helpers): Features
    requires |g.bowUnigrams| > 0
  {
    WithLinkers(WithParse(WithNGrams(Averaged(g)), a), lexicon, h)
  }

  /** `extractFeatures()` from the fields `f`: the new fields and the result,
      or the exception a token raises after the earlier tokens were added. */
  function Extract(f: Features, a: Analysis, dateFormat: string, lexicon: seq<Linker>,
                   o: StringOracle, h: Helpers): (Features, Result<bool>)
  {
    if a.tokens == [] then (f, Ok(false))
    else
      var rs := Routes(a.tokens, dateFormat, o);
      var k := FirstRaise(rs);
      var g := Scanned(f.(tokenCount := |a.tokens|), rs[..k]);
      if k < |rs| then (g, Err(StringIndexOutOfBounds))
      else if |g.bowUnigrams| == 0 then (g, Ok(false))
      else (Completed(g, a, lexicon, h), Ok(true))
  }

  /** The keys of `toString`, in order. */
  const ToStringKeys: seq<string> := [
    "id", "bow_unigrams", "bow_bigrams", "bow_trigrams", "pos_unigrams", "pos_bigrams",
    "word_couples", "entities", "adverbs", "verbs", "nouns", "modal_auxs", "punctuation",
    "key_words", "text_length", "text_position", "token_count", "avg_word_length",
    "punct_marks_count", "parse_tree_depth", "sub_clauses_count"]

  class ArgumentFeature {
    const id: string
    const text: string
    /** The engine's language, or `None` for a null engine. */
    const language: Option<string>
    const lexicon: seq<Linker>
    const dateFormat: string
    const textLength: int
    const textPosition: int

    var tokenCount: int
    var avgWordLength: int
    var punctMarksCount: int
    var bowUnigrams: seq<string>
    var bowBigrams: seq<string>
    var bowTrigrams: seq<string>
    var posUnigrams: seq<string>
    var posBigrams: seq<string>
    var wordCouples: seq<string>
    var entities: seq<string>
    var adverbs: seq<string>
    var verbs: seq<string>
    var nouns: seq<string>
    var modalAuxs: seq<string>
    var parseTreeDepth: int
    var subClausesCount: int
    var punctuation: seq<string>
    var keyWords: seq<string>

    function Snapshot(): Features
      reads this
    {
      Features(tokenCount, avgWordLength, punctMarksCount, bowUnigrams, bowBigrams, bowTrigrams,
               posUnigrams, posBigrams, wordCouples, entities, adverbs, verbs, nouns, modalAuxs,
               parseTreeDepth, subClausesCount, punctuation, keyWords)
    }

    /** The sentence position (`getSentencePosition()`) is an input. */
    constructor(id: string, text: string, language: Option<string>, lexicon: seq<Linker>, textPosition: int)
      ensures this.id == id && this.text == text && this.language == language && this.lexicon == lexicon
      ensures dateFormat == GetDateFormat(language)
      ensures textLength == |text| && this.textPosition == textPosition
      ensures Snapshot() == Initial
    {
      this.id := id;
      this.text := text;
      this.language := language;
      this.lexicon := lexicon;
      this.dateFormat := GetDateFormat(language);
      this.textLength := |text|;
      this.textPosition := textPosition;
      tokenCount, avgWordLength, punctMarksCount := 0, 0, 0;
      bowUnigrams, bowBigrams, bowTrigrams, posUnigrams, posBigrams := [], [], [], [], [];
      wordCouples, entities, adverbs, verbs, nouns, modalAuxs := [], [], [], [], [], [];
      parseTreeDepth, subClausesCount := 0, 0;
      punctuation, keyWords := [], [];
    }

    /** `extraction()`: texts shorter than `MIN_LENGTH` give false untouched;
        otherwise the engine processes the text (a null engine raises). */
    method Extraction(a: Analysis, o: StringOracle, h: Helpers) returns (r: Result<bool>)
      modifies this
      ensures !Extracts(textLength) ==> r == Ok(false) && Snapshot() == old(Snapshot())
      ensures Extracts(textLength) && language.None? ==> r == Err(NullPointer) && Snapshot() == old(Snapshot())
      ensures Extracts(textLength) && language.Some? ==>
        (Snapshot(), r) == Extract(old(Snapshot()), a, dateFormat, lexicon, o, h)
    {
      if textLength >= MinLength {
        if language.None? {
          return Err(NullPointer);
        }
        r := ExtractFeatures(a, o, h);
      } else {
        r := Ok(false);
      }
    }

    /** `extractFeatures()`. */
    method ExtractFeatures(a: Analysis, o: StringOracle, h: Helpers) returns (r: Result<bool>)
      modifies this
      ensures (Snapshot(), r) == Extract(old(Snapshot()), a, dateFormat, lexicon, o, h)
    {
      var isValid := false;
      var tokens := a.tokens;
      if |tokens| > 0 {
        tokenCount := |tokens|;
        var raised := ScanTokens(tokens, o);
        if raised {
          return Err(StringIndexOutOfBounds);
        }
        if |bowUnigrams| > 0 {
          Complete(a, h);
          isValid := true;
        }
      }
      return Ok(isValid);
    }

    /** The token loop: stops at the first token that raises. */
    method ScanTokens(tokens: seq<Token>, o: StringOracle) returns (raised: bool)
      modifies this
      ensures raised == (FirstRaise(Routes(tokens, dateFormat, o)) < |tokens|)
      ensures Snapshot() == Scanned(old(Snapshot()), Routes(tokens, dateFormat, o)[..FirstRaise(Routes(tokens, dateFormat, o))])
    {
      ghost var rs := Routes(tokens, dateFormat, o);
      ghost var k := FirstRaise(rs);
      ghost var f := Snapshot();
      var i := 0;
      while i < |tokens|
        invariant 0 <= i <= k
        invariant Snapshot() == Scanned(f, rs[..i])
      {
        assert rs[..i + 1][..i] == rs[..i];
        assert rs[i] == RouteOf(tokens[i], dateFormat, o);
        FirstRaiseAt(rs, i);
        var tokenRaised := AddToken(tokens[i], o);
        if tokenRaised {
          return true;
        }
        i := i + 1;
      }
      return false;
    }

    /** One step of the token loop: the token goes to the punctuation marks
        or, once normalised and valid, to the unigrams and at most one tag group. */
    method AddToken(t: Token, o: StringOracle) returns (raised: bool)
      modifies this
      ensures raised == RouteOf(t, dateFormat, o).Raises?
      ensures Snapshot() == StepFeatures(old(Snapshot()), RouteOf(t, dateFormat, o))
    {
      var isPunct := IsPunctuation(t);
      if isPunct.Err? {
        return true;
      }
      if isPunct.value {
        punctuation := punctuation + [o.cleanPunctuationMark(t.word)];
      } else {
        var word := Normalise(t.word, dateFormat, o);
        if o.isValidToken(word) {
          AddWord(word, t.tag);
        }
      }
      return false;
    }

    /** A valid word: its unigram, its tag, its length and its tag group. */
    method AddWord(word: string, tag: string)
      modifies this
      ensures Snapshot() == StepFeatures(old(Snapshot()), Kept(word, tag))
    {
      bowUnigrams := bowUnigrams + [word];
      posUnigrams := posUnigrams + [tag];
      avgWordLength := avgWordLength + |word|;
      assert Snapshot() == WithUnigram(old(Snapshot()), word, tag);
      AddToGroup(word, tag);
    }

    method AddToGroup(word: string, tag: string)
      modifies this
      ensures Snapshot() == WithGroup(old(Snapshot()), word, tag)
    {
      if tag == "VERB" && |word| > 1 {
        verbs := verbs + [word];
      } else if tag == "ADV" {
        adverbs := adverbs + [word];
      } else if tag == "AUX" {
        modalAuxs := modalAuxs + [word];
      } else if tag == "NOUN" {
        nouns := nouns + [word];
      }
    }

    /** The statements after the loop, run when a unigram was kept. */
    method Complete(a: Analysis, h: Helpers)
      requires |bowUnigrams| > 0
      modifies this
      ensures Snapshot() == Completed(old(Snapshot()), a, lexicon, h)
    {
      Average();
      AddNGrams();
      AddParse(a);
      AddLinkers(h);
    }

    method Average()
      requires |bowUnigrams| > 0
      modifies this
      ensures Snapshot() == Averaged(old(Snapshot()))
    {
      avgWordLength := avgWordLength / |bowUnigrams|;
      punctMarksCount := |punctuation|;
    }

    method AddNGrams()
      modifies this
      ensures Snapshot() == WithNGrams(old(Snapshot()))
    {
      var bigrams, trigrams := MarkedNGrams(bowUnigrams);
      var posPairs := MarkedBigramScan(posUnigrams);
      bowBigrams := bowBigrams + bigrams;
      bowTrigrams := bowTrigrams + trigrams;
      posBigrams := posBigrams + posPairs;
    }

    method AddParse(a: Analysis)
      modifies this
      ensures Snapshot() == WithParse(old(Snapshot()), a)
    {
      entities := a.entities;
      var phraseList := GetPhraseList(a.tree);
      parseTreeDepth := DeepestPhrase(parseTreeDepth, phraseList);
      subClausesCount := |phraseList|;
    }

    method AddLinkers(h: Helpers)
      modifies this
      ensures Snapshot() == WithLinkers(old(Snapshot()), lexicon, h)
    {
      wordCouples := h.wordCouples(bowUnigrams);
      keyWords := h.usedLinkers(bowUnigrams, lexicon);
    }

    /** The `toString` record: the id in quotes, then the lists and counters. */
    function Fields(): (pairs: seq<(string, string)>)
      reads this
      ensures KeysOf(pairs) == ToStringKeys
    {
      Zip(ToStringKeys, ["\"" + id + "\"", ListToString(bowUnigrams), ListToString(bowBigrams),
        ListToString(bowTrigrams), ListToString(posUnigrams), ListToString(posBigrams),
        ListToString(wordCouples), ListToString(entities), ListToString(adverbs), ListToString(verbs),
        ListToString(nouns), ListToString(modalAuxs), ListToString(punctuation),
        ListToString(keyWords), IntToString(textLength), IntToString(textPosition),
        IntToString(tokenCount), IntToString(avgWordLength), IntToString(punctMarksCount),
        IntToString(parseTreeDepth), IntToString(subClausesCount)])
    }

    /** `toString()`. */
    function ToString(): (s: string)
      reads this
      ensures StartsWith(s, RecordHead("id", "\""))
    {
      RecordStartsWithFirstKey(Fields(), "\"");
      Record(Fields(), "\"")
    }
  }

  // ---------------------------------------------------------------------------
  // Properties of the extraction

  /** The token loop appends, field by field, the marks, unigrams, tags,
      lengths and groups of the routes, and leaves every other field alone. */
  lemma {:induction false} ScannedFields(f: Features, rs: seq<Route>)
    ensures var g := Scanned(f, rs);
      && g.punctuation == f.punctuation + Marks(rs)
      && g.bowUnigrams == f.bowUnigrams + Words(rs)
      && g.posUnigrams == f.posUnigrams + Tags(rs)
      && g.avgWordLength == f.avgWordLength + WordLength(rs)
      && g.verbs == f.verbs + Grouped(rs, Verbs, true)
      && g.adverbs == f.adverbs + Grouped(rs, Adverbs, true)
      && g.modalAuxs == f.modalAuxs + Grouped(rs, ModalAuxs, true)
      && g.nouns == f.nouns + Grouped(rs, Nouns, true)
    ensures Scanned(f, rs).(punctuation := f.punctuation, bowUnigrams := f.bowUnigrams,
      posUnigrams := f.posUnigrams, avgWordLength := f.avgWordLength, verbs := f.verbs,
      adverbs := f.adverbs, modalAuxs := f.modalAuxs, nouns := f.nouns) == f
  {
    if rs != [] {
      var init := rs[..|rs| - 1];
      ScannedFields(f, init);
      var g := Scanned(f, init);
      var r := rs[|rs| - 1];
      assert Scanned(f, rs) == StepFeatures(g, r);
      assert f.punctuation + Marks(init) + (if r.Mark? then [r.mark] else []) == f.punctuation + Marks(rs);
      assert f.bowUnigrams + Words(init) + (if r.Kept? then [r.word] else []) == f.bowUnigrams + Words(rs);
      assert f.posUnigrams + Tags(init) + (if r.Kept? then [r.tag] else []) == f.posUnigrams + Tags(rs);
      GroupedStep(f.verbs, rs, Verbs);
      GroupedStep(f.adverbs, rs, Adverbs);
      GroupedStep(f.modalAuxs, rs, ModalAuxs);
      GroupedStep(f.nouns, rs, Nouns);
    }
  }

  lemma GroupedStep(prefix: seq<string>, rs: seq<Route>, grp: Group)
    requires rs != []
    ensures var r := rs[|rs| - 1];
      prefix + Grouped(rs, grp, true) ==
        prefix + Grouped(rs[..|rs| - 1], grp, true) + (if r.Kept? && GroupOf(r.word, r.tag, true) == grp then [r.word] else [])
  {
  }

  /** The outcome of `extractFeatures()`: false without tokens, leaving the
      fields as they were; otherwise an exception exactly when a token is an
      empty word not tagged PUNCT. */
  lemma ExtractOutcome(f: Features, a: Analysis, dateFormat: string, lexicon: seq<Linker>, o: StringOracle, h: Helpers)
    ensures a.tokens == [] ==> Extract(f, a, dateFormat, lexicon, o, h) == (f, Ok(false))
    ensures a.tokens != [] ==>
      (Extract(f, a, dateFormat, lexicon, o, h).1.Err? <==>
        exists i :: 0 <= i < |a.tokens| && a.tokens[i].tag != "PUNCT" && a.tokens[i].word == "")
    ensures Extract(f, a, dateFormat, lexicon, o, h).1.Err? ==>
      Extract(f, a, dateFormat, lexicon, o, h).1.error == StringIndexOutOfBounds
  {
    RaisesIff(a.tokens, dateFormat, o);
  }

  /** From the initial fields, the extraction is valid exactly when no token
      raises and some token yields a valid unigram. */
  lemma ExtractValidIff(a: Analysis, dateFormat: string, lexicon: seq<Linker>, o: StringOracle, h: Helpers)
    ensures Extract(Initial, a, dateFormat, lexicon, o, h).1 == Ok(true) <==>
      FirstRaise(Routes(a.tokens, dateFormat, o)) == |a.tokens| &&
      exists i :: 0 <= i < |a.tokens| && RouteOf(a.tokens[i], dateFormat, o).Kept?
  {
    var rs := Routes(a.tokens, dateFormat, o);
    var k := FirstRaise(rs);
    var s := Scanned(Initial.(tokenCount := |a.tokens|), rs[..k]);
    ScannedFields(Initial.(tokenCount := |a.tokens|), rs[..k]);
    assert |s.bowUnigrams| == |Words(rs[..k])|;
    if k == |rs| {
      assert rs[..k] == rs;
      WordsExist(rs);
      if exists i :: 0 <= i < |a.tokens| && RouteOf(a.tokens[i], dateFormat, o).Kept? {
        var i :| 0 <= i < |a.tokens| && RouteOf(a.tokens[i], dateFormat, o).Kept?;
        assert rs[i].Kept?;
      }
      if exists i :: 0 <= i < |rs| && rs[i].Kept? {
        var i :| 0 <= i < |rs| && rs[i].Kept?;
        assert RouteOf(a.tokens[i], dateFormat, o).Kept?;
      }
    }
  }

  /** A valid extraction is the second stage over the scan of every token. */
  lemma ValidUnfold(a: Analysis, dateFormat: string, lexicon: seq<Linker>, o: StringOracle, h: Helpers)
    requires Extract(Initial, a, dateFormat, lexicon, o, h).1 == Ok(true)
    ensures var s := Scanned(Initial.(tokenCount := |a.tokens|), Routes(a.tokens, dateFormat, o));
      |s.bowUnigrams| > 0 && Extract(Initial, a, dateFormat, lexicon, o, h).0 == Completed(s, a, lexicon, h)
  {
    var rs := Routes(a.tokens, dateFormat, o);
    assert rs[..|rs|] == rs;
  }

  /** The second stage keeps what the loop gathered and fills in the rest. */
  lemma CompletedFields(g: Features, a: Analysis, lexicon: seq<Linker>, h: Helpers)
    requires |g.bowUnigrams| > 0
    ensures var c := Completed(g, a, lexicon, h);
      && c.tokenCount == g.tokenCount && c.bowUnigrams == g.bowUnigrams && c.posUnigrams == g.posUnigrams
      && c.punctuation == g.punctuation && c.verbs == g.verbs && c.adverbs == g.adverbs
      && c.modalAuxs == g.modalAuxs && c.nouns == g.nouns
      && c.avgWordLength == g.avgWordLength / |g.bowUnigrams| && c.punctMarksCount == |g.punctuation|
      && c.bowBigrams == g.bowBigrams + MarkedBigrams(g.bowUnigrams)
      && c.bowTrigrams == g.bowTrigrams + MarkedTrigrams(g.bowUnigrams)
      && c.posBigrams == g.posBigrams + MarkedBigrams(g.posUnigrams)
      && c.entities == a.entities && c.subClausesCount == |PhraseListOf(a.tree)|
      && c.parseTreeDepth == MaxDepth(g.parseTreeDepth, PhraseListOf(a.tree))
      && c.wordCouples == h.wordCouples(g.bowUnigrams) && c.keyWords == h.usedLinkers(g.bowUnigrams, lexicon)
  {
  }

  /** In a valid extraction the lists the loop fills hold the contributions
      of every token. */
  lemma ValidLists(a: Analysis, dateFormat: string, lexicon: seq<Linker>, o: StringOracle, h: Helpers)
    requires Extract(Initial, a, dateFormat, lexicon, o, h).1 == Ok(true)
    ensures var g := Extract(Initial, a, dateFormat, lexicon, o, h).0;
      var rs := Routes(a.tokens, dateFormat, o);
      && g.bowUnigrams == Words(rs) && g.posUnigrams == Tags(rs) && g.punctuation == Marks(rs)
      && g.verbs == Grouped(rs, Verbs, true) && g.adverbs == Grouped(rs, Adverbs, true)
      && g.modalAuxs == Grouped(rs, ModalAuxs, true) && g.nouns == Grouped(rs, Nouns, true)
  {
    var rs := Routes(a.tokens, dateFormat, o);
    var s := Scanned(Initial.(tokenCount := |a.tokens|), rs);
    ValidUnfold(a, dateFormat, lexicon, o, h);
    ScannedFields(Initial.(tokenCount := |a.tokens|), rs);
    CompletedFields(s, a, lexicon, h);
  }

  /** When a token raises, the fields hold what the tokens before it added
      and the second stage has not run. */
  lemma ExtractRaisedKeepsPrefix(a: Analysis, dateFormat: string, lexicon: seq<Linker>, o: StringOracle, h: Helpers)
    requires Extract(Initial, a, dateFormat, lexicon, o, h).1.Err?
    ensures var g := Extract(Initial, a, dateFormat, lexicon, o, h).0;
      var rs := Routes(a.tokens, dateFormat, o)[..FirstRaise(Routes(a.tokens, dateFormat, o))];
      && g.tokenCount == |a.tokens|
      && g.bowUnigrams == Words(rs) && g.posUnigrams == Tags(rs) && g.punctuation == Marks(rs)
      && g.bowBigrams == [] && g.bowTrigrams == [] && g.posBigrams == [] && g.keyWords == []
      && g.punctMarksCount == 0 && g.subClausesCount == 0
  {
    var rs := Routes(a.tokens, dateFormat, o);
    ScannedFields(Initial.(tokenCount := |a.tokens|), rs[..FirstRaise(rs)]);
  }

  /** A valid extraction from the initial fields has n >= 1 unigrams and as
      many POS unigrams; n + 1 marked bigrams running from "$init$-w1" to
      "wn-$end$", n marked trigrams and n + 1 POS bigrams; the mean word
      length; and as many punctuation marks as the counter says. */
  lemma ExtractValidShape(a: Analysis, dateFormat: string, lexicon: seq<Linker>, o: StringOracle, h: Helpers)
    requires Extract(Initial, a, dateFormat, lexicon, o, h).1 == Ok(true)
    ensures var g := Extract(Initial, a, dateFormat, lexicon, o, h).0;
      var n := |g.bowUnigrams|;
      && n >= 1 && |g.posUnigrams| == n && g.tokenCount == |a.tokens|
      && |g.bowBigrams| == n + 1 && g.bowBigrams[0] == Dash(Init, g.bowUnigrams[0])
      && g.bowBigrams[n] == Dash(g.bowUnigrams[n - 1], End)
      && |g.bowTrigrams| == n && |g.posBigrams| == n + 1
      && g.avgWordLength == WordLength(Routes(a.tokens, dateFormat, o)) / n
      && g.punctMarksCount == |g.punctuation|
  {
    var rs := Routes(a.tokens, dateFormat, o);
    var s := Scanned(Initial.(tokenCount := |a.tokens|), rs);
    ValidUnfold(a, dateFormat, lexicon, o, h);
    assert s.bowUnigrams == Words(rs) && s.posUnigrams == Tags(rs) && s.tokenCount == |a.tokens|
      && s.avgWordLength == WordLength(rs) && s.bowBigrams == [] && s.bowTrigrams == [] && s.posBigrams == [] by {
      ScannedFields(Initial.(tokenCount := |a.tokens|), rs);
    }
    assert |Words(rs)| == |Tags(rs)| by { WordsAligned(rs); }
    assert NoEmpty(Words(rs)) by { KeptNonEmpty(rs); }
    CompletedShape(s, a, lexicon, h);
    var g := Extract(Initial, a, dateFormat, lexicon, o, h).0;
    assert g == Completed(s, a, lexicon, h);
  }

  /** The second stage over loop results without earlier n-grams. */
  lemma CompletedShape(s: Features, a: Analysis, lexicon: seq<Linker>, h: Helpers)
    requires |s.bowUnigrams| > 0 && NoEmpty(s.bowUnigrams) && |s.posUnigrams| == |s.bowUnigrams|
    requires s.bowBigrams == [] && s.bowTrigrams == [] && s.posBigrams == []
    ensures var g := Completed(s, a, lexicon, h);
      var n := |g.bowUnigrams|;
      && g.bowUnigrams == s.bowUnigrams && |g.posUnigrams| == n && g.tokenCount == s.tokenCount
      && |g.bowBigrams| == n + 1 && g.bowBigrams[0] == Dash(Init, g.bowUnigrams[0])
      && g.bowBigrams[n] == Dash(g.bowUnigrams[n - 1], End)
      && |g.bowTrigrams| == n && |g.posBigrams| == n + 1
      && g.avgWordLength == s.avgWordLength / n
      && g.punctMarksCount == |g.punctuation|
  {
    var ws := s.bowUnigrams;
    CompletedFields(s, a, lexicon, h);
    assert [] + MarkedBigrams(ws) == MarkedBigrams(ws);
    assert [] + MarkedTrigrams(ws) == MarkedTrigrams(ws);
    MarkedBigramsShape(ws);
    MarkedTrigramsShape(ws);
  }

  /** In a valid extraction the marks and unigrams come from different tokens
      and each unigram joins at most one tag group. */
  lemma ExtractValidCounts(a: Analysis, dateFormat: string, lexicon: seq<Linker>, o: StringOracle, h: Helpers)
    requires Extract(Initial, a, dateFormat, lexicon, o, h).1 == Ok(true)
    ensures var g := Extract(Initial, a, dateFormat, lexicon, o, h).0;
      && |g.punctuation| + |g.bowUnigrams| <= |a.tokens|
      && |g.verbs| + |g.adverbs| + |g.modalAuxs| + |g.nouns| <= |g.bowUnigrams|
  {
    var rs := Routes(a.tokens, dateFormat, o);
    ValidLists(a, dateFormat, lexicon, o, h);
    MarksAndWords(rs);
    GroupsBounded(rs, true);
  }

  /** In a valid extraction every unigram comes, with its tag, from one of
      the sentence's tokens. */
  lemma ExtractValidUnigrams(a: Analysis, dateFormat: string, lexicon: seq<Linker>, o: StringOracle, h: Helpers)
    requires Extract(Initial, a, dateFormat, lexicon, o, h).1 == Ok(true)
    ensures var g := Extract(Initial, a, dateFormat, lexicon, o, h).0;
      |g.posUnigrams| == |g.bowUnigrams| &&
      forall j :: 0 <= j < |g.bowUnigrams| ==>
        exists i :: 0 <= i < |a.tokens| && RouteOf(a.tokens[i], dateFormat, o) == Kept(g.bowUnigrams[j], g.posUnigrams[j])
  {
    var rs := Routes(a.tokens, dateFormat, o);
    ValidLists(a, dateFormat, lexicon, o, h);
    WordsAligned(rs);
    var ws, tags := Words(rs), Tags(rs);
    forall j | 0 <= j < |ws|
      ensures exists i :: 0 <= i < |a.tokens| && RouteOf(a.tokens[i], dateFormat, o) == Kept(ws[j], tags[j])
    {
      var i :| 0 <= i < |rs| && rs[i] == Kept(ws[j], tags[j]);
      assert RouteOf(a.tokens[i], dateFormat, o) == rs[i];
    }
  }

  /** In a valid extraction the sub-clause count is the number of phrases of
      the parse tree and the depth is that of the deepest one, below the
      tree's height; entities, couples and linkers come from the engine and
      the helpers. */
  lemma ExtractValidParse(a: Analysis, dateFormat: string, lexicon: seq<Linker>, o: StringOracle, h: Helpers)
    requires Extract(Initial, a, dateFormat, lexicon, o, h).1 == Ok(true)
    ensures var g := Extract(Initial, a, dateFormat, lexicon, o, h).0;
      && g.subClausesCount == |PhraseListOf(a.tree)|
      && (a.tree.None? ==> g.parseTreeDepth == 0)
      && (a.tree.Some? ==> 0 <= g.parseTreeDepth <= Height(a.tree.value))
      && g.entities == a.entities
      && g.wordCouples == h.wordCouples(g.bowUnigrams)
      && g.keyWords == h.usedLinkers(g.bowUnigrams, lexicon)
  {
    var rs := Routes(a.tokens, dateFormat, o);
    var s := Scanned(Initial.(tokenCount := |a.tokens|), rs);
    ValidUnfold(a, dateFormat, lexicon, o, h);
    ScannedFields(Initial.(tokenCount := |a.tokens|), rs);
    CompletedFields(s, a, lexicon, h);
    if a.tree.Some? {
      TreeDepthBound(a.tree.value);
    }
  }
}
