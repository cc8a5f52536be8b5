/** What the feature extractor's abstract `TextFeature` gives its subclasses:
    the length gate of `extraction`, the bracketed list rendering, and the
    record layout the `toString` methods share. */
module TextFeatureBase {
  import opened Wrappers
  import opened Text
  import opened FunctionUtils
  import opened Tokens
  import opened ArgumentEngine
  import opened FeatureUtils

  /** `MIN_LENGTH`: shorter texts are not processed. */
  const MinLength: nat := 3

  /** Whether `extraction` runs `extractFeatures` for a text of this length. */
  predicate Extracts(textLength: int) {
    textLength >= MinLength
  }

  /** The date format of a language: month first for English, day first
      otherwise. */
  function DateFormatOf(language: string): (format: string)
    ensures language == LangEn ==> format == "MM/dd/yyyy"
    ensures language != LangEn ==> format == "dd/MM/yyyy"
  {
    if language == LangEn then "MM/dd/yyyy" else "dd/MM/yyyy"
  }

  /** What the engine returns for the text: `createCoreNlpDocument(text).tokens()`,
      `getNamedEntities(text)` and `getConstituencyTree(text)`. */
  datatype Analysis = Analysis(tokens: seq<Token>, entities: seq<string>, tree: Option<Tree>)

  /** The `FeatureUtils.getWordCouples(list)` and
      `getUsedLinkerList(list, lexicon)` overloads the extractors call. */
  datatype Helpers = Helpers(
    wordCouples: seq<string> -> seq<string>,
    usedLinkers: (seq<string>, seq<Linker>) -> seq<string>)

  /** The phrases of the parse tree, none without one. */
  function PhraseListOf(tree: Option<Tree>): seq<Phrase> {
    if tree.None? then [] else Phrases(tree.value, 0)
  }

  /** `listToString(list)`: the elements in double quotes, separated by ","
      and enclosed in brackets; a rendering of two bare quotes becomes "". */
  function ListToString(list: seq<string>): (r: string)
    ensures |r| >= 2 && r[0] == '[' && r[|r| - 1] == ']'
  {
    var result := FunctionUtils.ListToString(list, "\"");
    "[" + (if result == "\"\"" then "" else result) + "]"
  }

  /** An empty list renders as "[]". */
  lemma ListToStringEmpty()
    ensures ListToString([]) == "[]"
  {
    assert FunctionUtils.ListToString([], "\"") == "\"\"";
  }

  /** A list holding one empty string also renders as "[]", so the two
      cannot be told apart. */
  lemma ListToStringCollision()
    ensures ListToString([""]) == ListToString([]) == "[]"
  {
    assert Join([""], "\",\"") == "";
    assert FunctionUtils.ListToString([""], "\"") == "\"\"";
    ListToStringEmpty();
  }

  /** Any other list renders each element in quotes, joined by ",". */
  lemma ListToStringQuoted(list: seq<string>)
    requires list != [] && list != [""]
    ensures ListToString(list) == "[\"" + Join(list, "\",\"") + "\"]"
  {
    var sep := "\"";
    assert sep + "," + sep == "\",\"";
    var j := Join(list, "\",\"");
    assert j != "" by {
      if |list| > 1 {
        assert j == list[0] + "\",\"" + Join(list[1..], "\",\"");
      }
    }
    var result := FunctionUtils.ListToString(list, sep);
    assert result == sep + j + sep;
    assert |result| == |j| + 2 > 2;
    assert "[" + result + "]" == "[\"" + j + "\"]";
  }

  // ---------------------------------------------------------------------------
  // Record rendering of `toString`

  /** `{<q>key<q>: value, ...}` for the given keys and rendered values. */
  function Record(pairs: seq<(string, string)>, quote: string): string {
    "{" + Join(Entries(pairs, quote), ", ") + "}"
  }

  function Entries(pairs: seq<(string, string)>, quote: string): (r: seq<string>)
    ensures |r| == |pairs|
  {
    if pairs == [] then []
    else [quote + pairs[0].0 + quote + ": " + pairs[0].1] + Entries(pairs[1..], quote)
  }

  /** The keys of a record, in order. */
  function KeysOf(pairs: seq<(string, string)>): (r: seq<string>)
    ensures |r| == |pairs|
    ensures forall i :: 0 <= i < |pairs| ==> r[i] == pairs[i].0
  {
    if pairs == [] then [] else [pairs[0].0] + KeysOf(pairs[1..])
  }

  /** Each key paired with its rendered value, in order. */
  function Zip(keys: seq<string>, values: seq<string>): (pairs: seq<(string, string)>)
    requires |keys| == |values|
    ensures KeysOf(pairs) == keys
    ensures |pairs| == |keys| && forall i :: 0 <= i < |keys| ==> pairs[i] == (keys[i], values[i])
  {
    if keys == [] then [] else [(keys[0], values[0])] + Zip(keys[1..], values[1..])
  }

  /** The opening of a record whose first key is `key`. */
  function RecordHead(key: string, quote: string): string {
    "{" + quote + key + quote + ": "
  }

  /** A record starts with its first key. */
  lemma RecordStartsWithFirstKey(pairs: seq<(string, string)>, quote: string)
    requires pairs != []
    ensures StartsWith(Record(pairs, quote), RecordHead(pairs[0].0, quote))
  {
    var es := Entries(pairs, quote);
    var first := quote + pairs[0].0 + quote + ": " + pairs[0].1;
    var head := "{" + quote + pairs[0].0 + quote + ": ";
    var rest := if |es| == 1 then "" else ", " + Join(es[1..], ", ");
    assert es[0] == first;
    assert Join(es, ", ") == first + rest;
    assert Record(pairs, quote) == head + (pairs[0].1 + rest + "}");
  }
}
