/** The token routing shared by the feature extractors. A token is a (word,
    POS tag) pair as the NLP pipeline delivers it; the `StringUtils` predicates
    the routing consults are not part of this model and come in as an oracle. */
module Tokens {
  import opened Wrappers
  import opened Text

  datatype Token = Token(word: string, tag: string)

  /** `StringUtils.isNumeric`, `isDateTime(word, format)`, `isValidToken` and
      `cleanPuntuationMark`. */
  datatype StringOracle = StringOracle(
    isNumeric: string -> bool,
    isDateTime: (string, string) -> bool,
    isValidToken: string -> bool,
    cleanPunctuationMark: string -> string)

  /** `TextFeature.SPECIAL_PUNCT`: inverted exclamation mark, "!", inverted
      question mark, "?", "'", "%" and ":". */
  const SpecialPunct: string := "\U{A1}!\U{BF}?'%:"

  /** The punctuation test `(tag is PUNCT and the word does not start with
      "etc") or the first character is special`. Reading the first character
      of an empty word raises, which the first disjunct can short-circuit. */
  function IsPunctuation(t: Token): (r: Result<bool>)
    ensures r.Err? <==> t.tag != "PUNCT" && t.word == ""
    ensures r.Err? ==> r.error == StringIndexOutOfBounds
    ensures r == Ok(true) <==>
      (t.tag == "PUNCT" && !StartsWith(t.word, "etc")) || (t.word != "" && t.word[0] in SpecialPunct)
  {
    if t.tag == "PUNCT" && !StartsWith(t.word, "etc") then Ok(true)
    else if t.word == "" then Err(StringIndexOutOfBounds)
    else Ok(t.word[0] in SpecialPunct)
  }

  /** The first filter: numbers, dates in the language's format and "HH:mm"
      times become placeholders, tested in that order. */
  function Normalise(word: string, dateFormat: string, o: StringOracle): (r: string)
    ensures o.isNumeric(word) ==> r == "$number$"
    ensures r == word || r == "$number$" || r == "$date$" || r == "$time$"
    ensures !o.isNumeric(word) && !o.isDateTime(word, dateFormat) && !o.isDateTime(word, "HH:mm") ==> r == word
    ensures word != "" ==> r != ""
  {
    if o.isNumeric(word) then "$number$"
    else if o.isDateTime(word, dateFormat) then "$date$"
    else if o.isDateTime(word, "HH:mm") then "$time$"
    else word
  }

  /** Where a token ends up in the marked extractors: a cleaned punctuation
      mark, a kept (normalised word, tag) unigram, nowhere (the validity filter
      drops it), or an exception. */
  datatype Route = Mark(mark: string) | Kept(word: string, tag: string) | Dropped | Raises

  function RouteOf(t: Token, dateFormat: string, o: StringOracle): (r: Route)
    ensures r.Raises? <==> IsPunctuation(t).Err?
    ensures r.Mark? <==> IsPunctuation(t) == Ok(true)
    ensures r.Kept? ==> IsPunctuation(t) == Ok(false) && r.tag == t.tag
    ensures r.Kept? ==> r.word != "" && o.isValidToken(r.word)
  {
    match IsPunctuation(t)
    case Err(_) => Raises
    case Ok(isPunct) =>
      if isPunct then Mark(o.cleanPunctuationMark(t.word))
      else
        var w := Normalise(t.word, dateFormat, o);
        if o.isValidToken(w) then Kept(w, t.tag) else Dropped
  }

  /** The routes of a token sequence. */
  function Routes(ts: seq<Token>, dateFormat: string, o: StringOracle): (rs: seq<Route>)
    ensures |rs| == |ts|
    ensures forall i :: 0 <= i < |ts| ==> rs[i] == RouteOf(ts[i], dateFormat, o)
  {
    if ts == [] then []
    else Routes(ts[..|ts| - 1], dateFormat, o) + [RouteOf(ts[|ts| - 1], dateFormat, o)]
  }

  /** The number of tokens processed before the first that raises. */
  function FirstRaise(rs: seq<Route>): (k: nat)
    ensures k <= |rs|
    ensures forall i :: 0 <= i < k ==> !rs[i].Raises?
    ensures k < |rs| ==> rs[k].Raises?
  {
    if rs == [] || rs[0].Raises? then 0 else 1 + FirstRaise(rs[1..])
  }

  /** Before the first raise, a token raises exactly at the first raise. */
  lemma FirstRaiseAt(rs: seq<Route>, i: nat)
    requires i <= FirstRaise(rs) && i < |rs|
    ensures rs[i].Raises? <==> FirstRaise(rs) == i
  {
  }

  /** Some token raises exactly when an empty word is not tagged PUNCT. */
  lemma RaisesIff(ts: seq<Token>, dateFormat: string, o: StringOracle)
    ensures FirstRaise(Routes(ts, dateFormat, o)) < |ts| <==>
      exists i :: 0 <= i < |ts| && ts[i].tag != "PUNCT" && ts[i].word == ""
  {
    var rs := Routes(ts, dateFormat, o);
    if exists i :: 0 <= i < |ts| && ts[i].tag != "PUNCT" && ts[i].word == "" {
      var i :| 0 <= i < |ts| && ts[i].tag != "PUNCT" && ts[i].word == "";
      assert rs[i].Raises?;
    }
  }

  /** The tag groups of a kept word: verbs longer than one character, adverbs,
      auxiliaries and, where the extractor keeps them, nouns. */
  datatype Group = Verbs | Adverbs | ModalAuxs | Nouns | NoGroup

  function GroupOf(word: string, tag: string, withNouns: bool): Group {
    if tag == "VERB" && |word| > 1 then Verbs
    else if tag == "ADV" then Adverbs
    else if tag == "AUX" then ModalAuxs
    else if withNouns && tag == "NOUN" then Nouns
    else NoGroup
  }

  /** The cleaned punctuation marks, in order. */
  function Marks(rs: seq<Route>): seq<string> {
    if rs == [] then []
    else Marks(rs[..|rs| - 1]) + (if rs[|rs| - 1].Mark? then [rs[|rs| - 1].mark] else [])
  }

  /** The kept unigrams, in order. */
  function Words(rs: seq<Route>): seq<string> {
    if rs == [] then []
    else Words(rs[..|rs| - 1]) + (if rs[|rs| - 1].Kept? then [rs[|rs| - 1].word] else [])
  }

  /** The tags of the kept unigrams, in order. */
  function Tags(rs: seq<Route>): seq<string> {
    if rs == [] then []
    else Tags(rs[..|rs| - 1]) + (if rs[|rs| - 1].Kept? then [rs[|rs| - 1].tag] else [])
  }

  /** The kept unigrams of group `g`, in order. */
  function Grouped(rs: seq<Route>, g: Group, withNouns: bool): seq<string> {
    if rs == [] then []
    else
      var r := rs[|rs| - 1];
      Grouped(rs[..|rs| - 1], g, withNouns) + (if r.Kept? && GroupOf(r.word, r.tag, withNouns) == g then [r.word] else [])
  }

  /** The summed length of the kept unigrams. */
  function WordLength(rs: seq<Route>): nat {
    if rs == [] then 0
    else WordLength(rs[..|rs| - 1]) + (if rs[|rs| - 1].Kept? then |rs[|rs| - 1].word| else 0)
  }

  /** Every kept unigram is paired with its own token's tag, at the same
      position of the two lists, and comes from a token that is not
      punctuation. */
  lemma {:induction false} WordsAligned(rs: seq<Route>)
    ensures |Words(rs)| == |Tags(rs)|
    ensures forall j :: 0 <= j < |Words(rs)| ==>
      exists i :: 0 <= i < |rs| && rs[i] == Kept(Words(rs)[j], Tags(rs)[j])
  {
    if rs != [] {
      var init := rs[..|rs| - 1];
      WordsAligned(init);
      forall j | 0 <= j < |Words(rs)|
        ensures exists i :: 0 <= i < |rs| && rs[i] == Kept(Words(rs)[j], Tags(rs)[j])
      {
        if j < |Words(init)| {
          var i :| 0 <= i < |init| && init[i] == Kept(Words(init)[j], Tags(init)[j]);
          assert rs[i] == init[i];
        } else {
          assert rs[|rs| - 1] == Kept(Words(rs)[j], Tags(rs)[j]);
        }
      }
    }
  }

  /** A kept unigram is never empty. */
  lemma {:induction false} WordsNonEmpty(ts: seq<Token>, dateFormat: string, o: StringOracle, k: nat)
    requires k <= |ts|
    ensures forall j :: 0 <= j < |Words(Routes(ts, dateFormat, o)[..k])| ==> Words(Routes(ts, dateFormat, o)[..k])[j] != ""
  {
    var rs := Routes(ts, dateFormat, o)[..k];
    KeptNonEmpty(rs);
  }

  lemma {:induction false} KeptNonEmpty(rs: seq<Route>)
    requires forall i :: 0 <= i < |rs| && rs[i].Kept? ==> rs[i].word != ""
    ensures forall j :: 0 <= j < |Words(rs)| ==> Words(rs)[j] != ""
  {
    if rs != [] {
      KeptNonEmpty(rs[..|rs| - 1]);
    }
  }

  /** Each kept unigram joins at most one group, so the groups together hold
      at most as many words as the unigrams. */
  lemma {:induction false} GroupsBounded(rs: seq<Route>, withNouns: bool)
    ensures |Grouped(rs, Verbs, withNouns)| + |Grouped(rs, Adverbs, withNouns)|
      + |Grouped(rs, ModalAuxs, withNouns)| + |Grouped(rs, Nouns, withNouns)| <= |Words(rs)|
    ensures !withNouns ==> Grouped(rs, Nouns, withNouns) == []
  {
    if rs != [] {
      GroupsBounded(rs[..|rs| - 1], withNouns);
    }
  }

  /** There is a kept unigram exactly when some route keeps one. */
  lemma {:induction false} WordsExist(rs: seq<Route>)
    ensures |Words(rs)| > 0 <==> exists i :: 0 <= i < |rs| && rs[i].Kept?
  {
    if rs != [] {
      var init := rs[..|rs| - 1];
      WordsExist(init);
      if exists i :: 0 <= i < |init| && init[i].Kept? {
        var i :| 0 <= i < |init| && init[i].Kept?;
        assert rs[i] == init[i];
      }
      if exists i :: 0 <= i < |rs| && rs[i].Kept? {
        var i :| 0 <= i < |rs| && rs[i].Kept?;
        if i < |init| {
          assert init[i] == rs[i];
        }
      }
    }
  }

  /** Marks and unigrams come from different tokens. */
  lemma {:induction false} MarksAndWords(rs: seq<Route>)
    ensures |Marks(rs)| + |Words(rs)| <= |rs|
  {
    if rs != [] {
      MarksAndWords(rs[..|rs| - 1]);
    }
  }

  // ---------------------------------------------------------------------------
  // The plain routing of the older text features

  /** The words of the tokens whose tag is not PUNCT, in order. */
  function NonPunct(ts: seq<Token>): seq<string> {
    if ts == [] then []
    else NonPunct(ts[..|ts| - 1]) + (if ts[|ts| - 1].tag != "PUNCT" then [ts[|ts| - 1].word] else [])
  }

  /** The words of the tokens tagged `tag`, in order. */
  function Tagged(ts: seq<Token>, tag: string): seq<string> {
    if ts == [] then []
    else Tagged(ts[..|ts| - 1], tag) + (if ts[|ts| - 1].tag == tag then [ts[|ts| - 1].word] else [])
  }

  /** The summed length of the non-PUNCT words. */
  function NonPunctLength(ts: seq<Token>): nat {
    if ts == [] then 0
    else NonPunctLength(ts[..|ts| - 1]) + (if ts[|ts| - 1].tag != "PUNCT" then |ts[|ts| - 1].word| else 0)
  }

  /** Every token is either punctuation or a unigram, and each joins at most
      one of the adverb, verb, auxiliary and punctuation lists. */
  lemma {:induction false} PlainPartition(ts: seq<Token>)
    ensures |NonPunct(ts)| + |Tagged(ts, "PUNCT")| == |ts|
    ensures |Tagged(ts, "ADV")| + |Tagged(ts, "VERB")| + |Tagged(ts, "AUX")| + |Tagged(ts, "PUNCT")| <= |ts|
    ensures |Tagged(ts, "ADV")| + |Tagged(ts, "VERB")| + |Tagged(ts, "AUX")| <= |NonPunct(ts)|
  {
    if ts != [] {
      PlainPartition(ts[..|ts| - 1]);
    }
  }

  /** A unigram exists exactly when some token is not tagged PUNCT. */
  lemma {:induction false} NonPunctExists(ts: seq<Token>)
    ensures |NonPunct(ts)| > 0 <==> exists i :: 0 <= i < |ts| && ts[i].tag != "PUNCT"
  {
    if ts != [] {
      var init := ts[..|ts| - 1];
      NonPunctExists(init);
      if exists i :: 0 <= i < |init| && init[i].tag != "PUNCT" {
        var i :| 0 <= i < |init| && init[i].tag != "PUNCT";
        assert ts[i] == init[i];
      }
      if exists i :: 0 <= i < |ts| && ts[i].tag != "PUNCT" {
        var i :| 0 <= i < |ts| && ts[i].tag != "PUNCT";
        if i < |init| {
          assert init[i] == ts[i];
        }
      }
    }
  }

  /** Every unigram is the word of a token, so it is non-empty when words are. */
  lemma {:induction false} NonPunctNonEmpty(ts: seq<Token>)
    requires forall i :: 0 <= i < |ts| ==> ts[i].word != ""
    ensures forall j :: 0 <= j < |NonPunct(ts)| ==> NonPunct(ts)[j] != ""
  {
    if ts != [] {
      NonPunctNonEmpty(ts[..|ts| - 1]);
    }
  }
}
