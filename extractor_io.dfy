/** The feature extractor's `IOManager`: the comma-separated dataset file it
    writes and reads back, the linker taxonomy it filters, and the JSON text
    of the features. A file is its whole content, `None` when it does not
    exist; whether a file can be opened for writing is a parameter. */
module ExtractorIO {
  import opened Wrappers
  import opened Text
  import opened Lines
  import opened Propositions

  /** Linkers the taxonomy never keeps, and the (empty) whitelist. */
  const InvalidLinkers: set<string> := {"e", "ni", "o", "y"}
  const ValidLinkers: set<string> := {}

  /** The filter of `readLinkerTaxonomy`. */
  predicate KeepsLinker(linker: string) {
    (ValidLinkers == {} || linker in ValidLinkers) && linker !in InvalidLinkers
  }

  // ---------------------------------------------------------------------------
  // getTextField

  /** The text loop of `getTextField`: each field is appended, after a ','
      only when the text so far is not empty. */
  function Gathered(fields: seq<string>): string {
    if fields == [] then ""
    else
      var text := Gathered(fields[..|fields| - 1]);
      (if text != "" then text + "," else text) + fields[|fields| - 1]
  }

  /** One leading '"' and then one trailing '"' are removed; looking at the
      first or the last character of an empty text raises. */
  function Unquoted(text: string): (r: Result<string>)
    ensures r.Err? <==> text == "" || text == "\""
    ensures r.Err? ==> r.error == StringIndexOutOfBounds
  {
    if text == [] then Err(StringIndexOutOfBounds)
    else
      var t := if text[0] == '"' then text[1..] else text;
      if t == [] then Err(StringIndexOutOfBounds)
      else if t[|t| - 1] == '"' then Ok(t[..|t| - 1])
      else Ok(t)
  }

  /** The fields between the two ids and the last three. */
  function TextFields(data: seq<string>): seq<string> {
    if |data| > 5 then data[2..|data| - 3] else []
  }

  /** `getTextField(data)`. */
  function TextField(data: seq<string>): Result<string> {
    Unquoted(Gathered(TextFields(data)))
  }

  method GetTextField(data: seq<string>) returns (r: Result<string>)
    ensures r == TextField(data)
  {
    ghost var fields := TextFields(data);
    var text := "";
    var i := 2;
    while i < |data| - 3
      invariant 2 <= i
      invariant |data| > 5 ==> i <= |data| - 3
      invariant |data| <= 5 ==> i == 2
      invariant text == Gathered(fields[..i - 2])
    {
      assert fields[..i - 1][..i - 2] == fields[..i - 2];
      assert fields[i - 2] == data[i];
      text := text + (if text != "" then "," else "") + data[i];
      i := i + 1;
    }
    assert fields[..i - 2] == fields;
    if |text| == 0 {
      return Err(StringIndexOutOfBounds);
    }
    if text[0] == '"' {
      text := text[1..];
    }
    if |text| == 0 {
      return Err(StringIndexOutOfBounds);
    }
    if text[|text| - 1] == '"' {
      text := text[..|text| - 1];
    }
    r := Ok(text);
  }

  // ---------------------------------------------------------------------------
  // readDatasetToCsvFile

  /** One row of the loop: rows of fewer than 6 fields are skipped; the ids
      are parsed, then the text is gathered, any of which may raise; the last
      three fields are the linker, its category and its sub-category. */
  function RowOf(row: string): (r: Result<Option<Proposition>>)
    ensures |JavaSplit(row, ',')| < 6 ==> r == Ok(None)
    ensures |JavaSplit(row, ',')| >= 6 ==> r.Err? || r.value.Some?
    ensures r.Ok? && r.value.Some? ==>
      var data := JavaSplit(row, ',');
      var n := |data|;
      r.value.value.linker == ArgumentLinker(data[n - 2], data[n - 1], "", data[n - 3])
  {
    var data := JavaSplit(row, ',');
    var n := |data|;
    if n < 6 then Ok(None)
    else
      match JavaParseInt(data[0])
      case Err(e) => Err(e)
      case Ok(proposalID) =>
        match JavaParseInt(data[1])
        case Err(e) => Err(e)
        case Ok(sentenceID) =>
          match TextField(data)
          case Err(e) => Err(e)
          case Ok(text) =>
            Ok(Some(Proposition(proposalID, sentenceID, text, ArgumentLinker(data[n - 2], data[n - 1], "", data[n - 3]))))
  }

  /** The row loop: the propositions in file order; the first row that raises
      ends the read. */
  function DatasetOf(rows: seq<string>): Result<seq<Proposition>> {
    if rows == [] then Ok([])
    else
      match DatasetOf(rows[..|rows| - 1])
      case Err(e) => Err(e)
      case Ok(dataset) =>
        match RowOf(rows[|rows| - 1])
        case Err(e) => Err(e)
        case Ok(None) => Ok(dataset)
        case Ok(Some(p)) => Ok(dataset + [p])
  }

  /** `readDatasetToCsvFile`: a missing file reads as no propositions; the
      header line is dropped. */
  function ReadDataset(file: Option<string>): Result<seq<Proposition>> {
    match file
    case None => Ok([])
    case Some(content) => DatasetOf(DataRows(content))
  }

  /** The body of the row loop. */
  method ReadRow(row: string) returns (r: Result<Option<Proposition>>)
    ensures r == RowOf(row)
  {
    var data := JavaSplit(row, ',');
    var n := |data|;
    if n < 6 {
      return Ok(None);
    }
    var proposalID := JavaParseInt(data[0]);
    if proposalID.Err? {
      return Err(proposalID.error);
    }
    var sentenceID := JavaParseInt(data[1]);
    if sentenceID.Err? {
      return Err(sentenceID.error);
    }
    var text := GetTextField(data);
    if text.Err? {
      return Err(text.error);
    }
    var linker := ArgumentLinker(data[n - 2], data[n - 1], "", data[n - 3]);
    r := Ok(Some(Proposition(proposalID.value, sentenceID.value, text.value, linker)));
  }

  method ReadDatasetToCsvFile(file: Option<string>) returns (r: Result<seq<Proposition>>)
    ensures r == ReadDataset(file)
    ensures file.None? ==> r == Ok([])
  {
    if file.None? {
      return Ok([]);
    }
    var rows := DataRows(file.value);
    var dataset: seq<Proposition> := [];
    var i := 0;
    while i < |rows|
      invariant 0 <= i <= |rows|
      invariant DatasetOf(rows[..i]) == Ok(dataset)
    {
      PrefixSnoc(rows, i);
      var row := ReadRow(rows[i]);
      if row.Err? {
        DatasetErrPersists(rows[..i + 1], rows[i + 1..]);
        PrefixSuffix(rows, i + 1);
        return Err(row.error);
      }
      if row.value.Some? {
        dataset := dataset + [row.value.value];
      }
      i := i + 1;
    }
    PrefixSuffix(rows, i);
    r := Ok(dataset);
  }

  // ---------------------------------------------------------------------------
  // saveDatasetToCsvFile

  /** The header line, "proposal_id,sentence_id,text,linker_value,category,sub_category". */
  const HeaderColumns: seq<string> := ["proposal_id", "sentence_id", "text", "linker_value", "category", "sub_category"]
  const CsvHeader: string := Join(HeaderColumns, ",")

  /** One line of the file, without its '\n': the text is quoted, the
      relation type is not written. */
  function RowText(p: Proposition): string {
    IntToString(p.proposalID) + "," + IntToString(p.sentenceID) + "," + Quoted(p.text) + ","
      + p.linker.linker + "," + p.linker.category + "," + p.linker.subCategory
  }

  /** `"\"%s\""`. */
  function Quoted(text: string): string {
    "\"" + text + "\""
  }

  function RowTexts(dataset: seq<Proposition>): (rows: seq<string>)
    ensures |rows| == |dataset|
    ensures forall i {:trigger rows[i]} :: 0 <= i < |dataset| ==> rows[i] == RowText(dataset[i])
  {
    if dataset == [] then [] else RowTexts(dataset[..|dataset| - 1]) + [RowText(dataset[|dataset| - 1])]
  }

  /** One more proposition adds its line. */
  lemma CsvTextStep(dataset: seq<Proposition>, i: nat)
    requires i < |dataset|
    ensures Terminated([CsvHeader] + RowTexts(dataset[..i + 1]))
      == Terminated([CsvHeader] + RowTexts(dataset[..i])) + (RowText(dataset[i]) + "\n")
  {
    var lines := [CsvHeader] + RowTexts(dataset[..i]);
    PrefixSnoc(dataset, i);
    assert RowTexts(dataset[..i + 1]) == RowTexts(dataset[..i]) + [RowText(dataset[i])];
    SeqAssoc([CsvHeader], RowTexts(dataset[..i]), [RowText(dataset[i])]);
    TerminatedSnoc(lines, RowText(dataset[i]));
  }

  /** The whole file: the header and then one line per proposition. */
  function CsvText(dataset: seq<Proposition>): string {
    Terminated([CsvHeader] + RowTexts(dataset))
  }

  /** `saveDatasetToCsvFile`: when the file can be opened every line is
      written and the result is true; otherwise nothing is written. */
  method SaveDatasetToCsvFile(dataset: seq<Proposition>, canWrite: bool) returns (result: bool, file: Option<string>)
    ensures result == canWrite
    ensures file == if canWrite then Some(CsvText(dataset)) else None
  {
    if !canWrite {
      return false, None;
    }
    var content := CsvHeader + "\n";
    assert [CsvHeader] + RowTexts(dataset[..0]) == [CsvHeader];
    var i := 0;
    while i < |dataset|
      invariant 0 <= i <= |dataset|
      invariant content == Terminated([CsvHeader] + RowTexts(dataset[..i]))
    {
      var line := RowText(dataset[i]) + "\n";
      CsvTextStep(dataset, i);
      content := content + line;
      i := i + 1;
    }
    assert dataset[..i] == dataset;
    return true, Some(content);
  }

  // ---------------------------------------------------------------------------
  // readLinkerTaxonomy

  /** One row of the taxonomy: six fields, and a linker the filter keeps. */
  function TaxonomyRow(row: string): (r: Option<ArgumentLinker>)
    ensures r.Some? <==> (|JavaSplit(row, ',')| == 6 && JavaSplit(row, ',')[5] != "e"
      && JavaSplit(row, ',')[5] != "ni" && JavaSplit(row, ',')[5] != "o" && JavaSplit(row, ',')[5] != "y")
    ensures r.Some? ==> r.value == ArgumentLinker(JavaSplit(row, ',')[2], JavaSplit(row, ',')[3],
      JavaSplit(row, ',')[4], JavaSplit(row, ',')[5])
  {
    var data := JavaSplit(row, ',');
    if |data| == 6 && KeepsLinker(data[5]) then Some(ArgumentLinker(data[2], data[3], data[4], data[5]))
    else None
  }

  /** The linkers added to the manager, in file order. */
  function TaxonomyOf(rows: seq<string>): seq<ArgumentLinker> {
    if rows == [] then []
    else
      var linkers := TaxonomyOf(rows[..|rows| - 1]);
      match TaxonomyRow(rows[|rows| - 1])
      case None => linkers
      case Some(l) => linkers + [l]
  }

  function ReadTaxonomy(file: Option<string>): seq<ArgumentLinker> {
    match file
    case None => []
    case Some(content) => TaxonomyOf(DataRows(content))
  }

  /** `readLinkerTaxonomy`, for the lexicon file of the language. */
  method ReadLinkerTaxonomy(file: Option<string>) returns (linkers: seq<ArgumentLinker>)
    ensures linkers == ReadTaxonomy(file)
    ensures file.None? ==> linkers == []
  {
    linkers := [];
    if file.None? {
      return;
    }
    var rows := DataRows(file.value);
    var i := 0;
    while i < |rows|
      invariant 0 <= i <= |rows|
      invariant linkers == TaxonomyOf(rows[..i])
    {
      assert rows[..i + 1][..i] == rows[..i];
      var data := JavaSplit(rows[i], ',');
      if |data| == 6 {
        var category, subCategory, relationType, linker := data[2], data[3], data[4], data[5];
        if (ValidLinkers == {} || linker in ValidLinkers) && linker !in InvalidLinkers {
          linkers := linkers + [ArgumentLinker(category, subCategory, relationType, linker)];
        }
      }
      i := i + 1;
    }
    assert rows[..i] == rows;
  }

  // ---------------------------------------------------------------------------
  // saveTextFeatures

  /** One feature's member: its id and its own JSON text. */
  function FeatureEntry(feature: (string, string)): string {
    "  \"" + feature.0 + "\": " + feature.1
  }

  function FeatureEntries(features: seq<(string, string)>): (entries: seq<string>)
    ensures |entries| == |features|
    ensures forall i {:trigger entries[i]} :: 0 <= i < |features| ==> entries[i] == FeatureEntry(features[i])
  {
    seq(|features|, i requires 0 <= i < |features| => FeatureEntry(features[i]))
  }

  /** The JSON text: the members separated by ",\n" between "{\n" and "\n}";
      with no feature the opening brace is cut away with the missing comma. */
  function FeaturesJson(features: seq<(string, string)>): string {
    if features == [] then "\n}" else "{\n" + Join(FeatureEntries(features), ",\n") + "\n}"
  }

  /** Each entry followed by ",\n", as the loop appends them. */
  function Listed(entries: seq<string>): string {
    if entries == [] then "" else Listed(entries[..|entries| - 1]) + entries[|entries| - 1] + ",\n"
  }

  /** `saveTextFeatures`: the text is built first, then written when the file
      can be opened. */
  method SaveTextFeatures(features: seq<(string, string)>, canWrite: bool) returns (result: bool, file: Option<string>)
    ensures result == canWrite
    ensures file == if canWrite then Some(FeaturesJson(features)) else None
  {
    ghost var entries := FeatureEntries(features);
    var jsonText := "{\n";
    var i := 0;
    while i < |features|
      invariant 0 <= i <= |features|
      invariant jsonText == "{\n" + Listed(entries[..i])
    {
      assert entries[..i + 1][..i] == entries[..i];
      jsonText := jsonText + "  \"" + features[i].0 + "\": " + features[i].1 + ",\n";
      i := i + 1;
    }
    assert entries[..i] == entries;
    jsonText := jsonText[..|jsonText| - 2] + "\n}";
    JsonText(features);
    if !canWrite {
      return false, None;
    }
    return true, Some(jsonText);
  }

  // ---------------------------------------------------------------------------
  // Properties

  /** The listed entries are their join followed by one ",\n". */
  lemma {:induction false} ListedJoin(entries: seq<string>)
    requires entries != []
    ensures Listed(entries) == Join(entries, ",\n") + ",\n"
    decreases |entries|
  {
    var init := entries[..|entries| - 1];
    var x := entries[|entries| - 1];
    if init == [] {
      assert entries == [x];
    } else {
      ListedJoin(init);
      assert entries == init + [x];
      JoinSnoc(init, x, ",\n");
    }
  }

  /** Cutting the last two characters of "{\n" and the listed entries, and
      closing with "\n}", gives the JSON text. */
  lemma JsonText(features: seq<(string, string)>)
    ensures var s := "{\n" + Listed(FeatureEntries(features));
      s[..|s| - 2] + "\n}" == FeaturesJson(features)
  {
    var entries := FeatureEntries(features);
    var s := "{\n" + Listed(entries);
    if features == [] {
      assert s == "{\n";
    } else {
      ListedJoin(entries);
      var j := "{\n" + Join(entries, ",\n");
      assert s == j + ",\n";
      assert s[..|s| - 2] == j;
    }
  }

  /** With features, the text opens with "{\n", closes with "\n}", and each
      feature's member appears in list order between ",\n" separators. */
  lemma FeaturesJsonShape(features: seq<(string, string)>)
    requires features != []
    ensures var j := FeaturesJson(features);
      StartsWith(j, "{\n") && j[|j| - 2..] == "\n}"
      && j[2..|j| - 2] == Join(FeatureEntries(features), ",\n")
  {
    var j := FeaturesJson(features);
    var body := Join(FeatureEntries(features), ",\n");
    assert j == "{\n" + body + "\n}";
    assert j[..2] == "{\n";
    assert j[2..|j| - 2] == body;
  }

  /** With no features the text is just "\n}". */
  lemma NoFeaturesJson()
    ensures FeaturesJson([]) == "\n}"
  {
  }

  /** Leading empty fields leave no comma behind. */
  lemma {:induction false} GatheredSkipsLeadingEmpty(fields: seq<string>)
    ensures Gathered([""] + fields) == Gathered(fields)
    decreases |fields|
  {
    if fields != [] {
      var init := fields[..|fields| - 1];
      assert ([""] + fields)[..|fields|] == [""] + init;
      GatheredSkipsLeadingEmpty(init);
    }
  }

  /** From a non-empty first field on, the fields are joined with ','. */
  lemma {:induction false} GatheredJoin(fields: seq<string>)
    requires fields != [] && fields[0] != ""
    ensures Gathered(fields) == Join(fields, ",")
    ensures Gathered(fields) != ""
    decreases |fields|
  {
    var init := fields[..|fields| - 1];
    var x := fields[|fields| - 1];
    if init == [] {
      assert fields == [x];
    } else {
      GatheredJoin(init);
      assert fields == init + [x];
      JoinSnoc(init, x, ",");
    }
  }

  /** A quoted text loses exactly its two quotes. */
  lemma UnquotedQuoted(text: string)
    ensures Unquoted("\"" + text + "\"") == Ok(text)
  {
    var q := "\"" + text + "\"";
    assert q[1..] == text + "\"";
    assert (text + "\"")[..|text|] == text;
  }

  /** A row whose text fields are empty raises. */
  lemma EmptyTextRaises(data: seq<string>)
    requires |data| >= 6
    requires forall i :: 2 <= i < |data| - 3 ==> data[i] == ""
    ensures TextField(data) == Err(StringIndexOutOfBounds)
  {
    var fields := TextFields(data);
    EmptyFieldsGather(fields);
  }

  lemma {:induction false} EmptyFieldsGather(fields: seq<string>)
    requires forall i :: 0 <= i < |fields| ==> fields[i] == ""
    ensures Gathered(fields) == ""
    decreases |fields|
  {
    if fields != [] {
      EmptyFieldsGather(fields[..|fields| - 1]);
    }
  }

  /** Once a row raises, later rows change nothing. */
  lemma {:induction false} DatasetErrPersists(rows: seq<string>, more: seq<string>)
    requires DatasetOf(rows).Err?
    ensures DatasetOf(rows + more) == DatasetOf(rows)
    decreases |more|
  {
    if more == [] {
      assert rows + more == rows;
    } else {
      var init := more[..|more| - 1];
      assert (rows + more)[..|rows + more| - 1] == rows + init;
      DatasetErrPersists(rows, init);
    }
  }

  /** A read that does not raise keeps one proposition per row of at least
      six fields, in row order. */
  function LongRows(rows: seq<string>): nat {
    if rows == [] then 0
    else LongRows(rows[..|rows| - 1]) + (if |JavaSplit(rows[|rows| - 1], ',')| >= 6 then 1 else 0)
  }

  lemma {:induction false} DatasetSize(rows: seq<string>)
    requires DatasetOf(rows).Ok?
    ensures |DatasetOf(rows).value| == LongRows(rows)
    decreases |rows|
  {
    if rows != [] {
      var init := rows[..|rows| - 1];
      match DatasetOf(init)
      case Err(_) =>
      case Ok(_) => DatasetSize(init);
    }
  }

  /** What the writer can write and read back: 32-bit ids, no line breaks,
      no ',' in the last three fields, and a non-empty last field (Java's
      `split` drops trailing empty fields). */
  predicate Writable(p: Proposition) {
    && MinInt32 <= p.proposalID <= MaxInt32 && MinInt32 <= p.sentenceID <= MaxInt32
    && NoBreak(p.text) && NoBreak(p.linker.linker) && NoBreak(p.linker.category) && NoBreak(p.linker.subCategory)
    && ',' !in p.linker.linker && ',' !in p.linker.category && ',' !in p.linker.subCategory
    && p.linker.subCategory != ""
  }

  /** A proposition as it reads back: the relation type is not written. */
  function Restored(p: Proposition): Proposition {
    p.(linker := p.linker.(relationType := ""))
  }

  /** A last field without the separator splits off as itself. */
  lemma SplitSnoc(x: string, u: string)
    requires ',' !in u
    ensures Split(x + "," + u, ',') == Split(x, ',') + [u]
  {
    SplitConcat(x, ',', u);
    SplitNoSeparator(u, ',');
  }

  /** The propositions as they read back. */
  function RestoredAll(dataset: seq<Proposition>): (r: seq<Proposition>)
    ensures |r| == |dataset|
    ensures forall i {:trigger r[i]} :: 0 <= i < |dataset| ==> r[i] == Restored(dataset[i])
  {
    seq(|dataset|, i requires 0 <= i < |dataset| => Restored(dataset[i]))
  }

  /** A row of six ','-free fields around one free text splits into the
      fields and the pieces of the text. */
  lemma SplitRow(a: string, b: string, q: string, x: string, y: string, z: string)
    requires ',' !in a && ',' !in b && ',' !in x && ',' !in y && ',' !in z
    ensures Split(a + "," + b + "," + q + "," + x + "," + y + "," + z, ',') == [a, b] + Split(q, ',') + [x, y, z]
  {
    var x2 := a + "," + b;
    SplitNoSeparator(a, ',');
    SplitSnoc(a, b);
    assert [a] + [b] == [a, b];
    var x3 := x2 + "," + q;
    SplitConcat(x2, ',', q);
    var x4 := x3 + "," + x;
    SplitSnoc(x3, x);
    var x5 := x4 + "," + y;
    SplitSnoc(x4, y);
    SplitSnoc(x5, z);
    Regroup(a, b, Split(q, ','), x, y, z);
  }

  lemma Regroup<T>(a: T, b: T, middle: seq<T>, x: T, y: T, z: T)
    ensures [a, b] + middle + [x] + [y] + [z] == [a, b] + middle + [x, y, z]
  {
  }

  /** A written row splits into the two ids, the pieces of the quoted text
      and the three linker fields. */
  lemma RowSplit(p: Proposition)
    requires Writable(p)
    ensures JavaSplit(RowText(p), ',') == [IntToString(p.proposalID), IntToString(p.sentenceID)]
      + Split(Quoted(p.text), ',') + [p.linker.linker, p.linker.category, p.linker.subCategory]
  {
    var a, b := IntToString(p.proposalID), IntToString(p.sentenceID);
    IntToStringHasNo(p.proposalID, ',');
    IntToStringHasNo(p.sentenceID, ',');
    var row := RowText(p);
    SplitRow(a, b, Quoted(p.text), p.linker.linker, p.linker.category, p.linker.subCategory);
    var parts := Split(row, ',');
    assert row[|a|] == ',';
    JavaSplitKeepsFields(row, ',', parts);
  }

  /** A written row reads back as the proposition, without its relation type. */
  lemma RowRoundTrip(p: Proposition)
    requires Writable(p)
    ensures RowOf(RowText(p)) == Ok(Some(Restored(p)))
  {
    RowSplit(p);
    var q := Quoted(p.text);
    var pieces := Split(q, ',');
    var data := JavaSplit(RowText(p), ',');
    var n := |data|;
    assert TextFields(data) == pieces;
    assert pieces[0] != "" by {
      var k := IndexOf(q, ',');
      assert q[0] == '"';
      assert k > 0;
      assert pieces[0] == q[..k] || pieces[0] == q;
    }
    GatheredJoin(pieces);
    SplitJoin(q, ',');
    UnquotedQuoted(p.text);
    ParseIntRoundTrip(p.proposalID);
    ParseIntRoundTrip(p.sentenceID);
    assert data[0] == IntToString(p.proposalID) && data[1] == IntToString(p.sentenceID);
    assert data[n - 3] == p.linker.linker && data[n - 2] == p.linker.category && data[n - 1] == p.linker.subCategory;
  }

  /** A join has a character only when a part or the separator has it. */
  lemma {:induction false} JoinHasNo(parts: seq<string>, sep: string, c: char)
    requires c !in sep
    requires forall i :: 0 <= i < |parts| ==> c !in parts[i]
    ensures c !in Join(parts, sep)
    decreases |parts|
  {
    if |parts| > 1 {
      JoinHasNo(parts[1..], sep, c);
    }
  }

  /** The header is one line. */
  lemma HeaderNoBreak()
    ensures NoBreak(CsvHeader)
  {
    forall i | 0 <= i < |HeaderColumns| ensures '\n' !in HeaderColumns[i] && '\r' !in HeaderColumns[i] {
    }
    JoinHasNo(HeaderColumns, ",", '\n');
    JoinHasNo(HeaderColumns, ",", '\r');
    NoBreakIff(CsvHeader);
  }

  /** A written row has no line break. */
  lemma RowTextNoBreak(p: Proposition)
    requires Writable(p)
    ensures NoBreak(RowText(p))
  {
    IntToStringHasNo(p.proposalID, '\n');
    IntToStringHasNo(p.proposalID, '\r');
    IntToStringHasNo(p.sentenceID, '\n');
    IntToStringHasNo(p.sentenceID, '\r');
    NoBreakIff(p.text);
    NoBreakIff(p.linker.linker);
    NoBreakIff(p.linker.category);
    NoBreakIff(p.linker.subCategory);
    NoBreakIff(RowText(p));
  }

  /** The written file holds the header and then one line per proposition,
      in list order. */
  lemma WrittenLines(dataset: seq<Proposition>)
    requires forall i {:trigger Writable(dataset[i])} :: 0 <= i < |dataset| ==> Writable(dataset[i])
    ensures ReadLines(CsvText(dataset)) == [CsvHeader] + RowTexts(dataset)
    ensures DataRows(CsvText(dataset)) == RowTexts(dataset)
  {
    var rows := RowTexts(dataset);
    HeaderNoBreak();
    forall i | 0 <= i < |rows| ensures NoBreak(rows[i]) {
      RowTextNoBreak(dataset[i]);
    }
    DataRowsTerminated(CsvHeader, rows);
  }

  /** Rows that each read as one proposition read as all of them, in order. */
  lemma {:induction false} DatasetOfMapped(rows: seq<string>, dataset: seq<Proposition>)
    requires |rows| == |dataset|
    requires forall i {:trigger RowOf(rows[i])} :: 0 <= i < |rows| ==> RowOf(rows[i]) == Ok(Some(dataset[i]))
    ensures DatasetOf(rows) == Ok(dataset)
    decreases |rows|
  {
    if rows != [] {
      var k := |rows| - 1;
      DatasetOfMapped(rows[..k], dataset[..k]);
      SnocLast(dataset);
      assert RowOf(rows[k]) == Ok(Some(dataset[k]));
    }
  }

  /** Saving a dataset and reading the file back gives the same propositions,
      each with an empty relation type. */
  lemma SaveReadRoundTrip(dataset: seq<Proposition>)
    requires forall i {:trigger Writable(dataset[i])} :: 0 <= i < |dataset| ==> Writable(dataset[i])
    ensures ReadDataset(Some(CsvText(dataset))) == Ok(RestoredAll(dataset))
  {
    WrittenLines(dataset);
    var rows := RowTexts(dataset);
    var restored := RestoredAll(dataset);
    forall i | 0 <= i < |rows| ensures RowOf(rows[i]) == Ok(Some(restored[i])) {
      RowRoundTrip(dataset[i]);
    }
    DatasetOfMapped(rows, restored);
  }

  /** Every linker of the taxonomy comes from a kept row, so none is one of
      the invalid linkers. */
  lemma {:induction false} TaxonomyFromRows(rows: seq<string>, l: ArgumentLinker)
    requires l in TaxonomyOf(rows)
    ensures exists i :: 0 <= i < |rows| && TaxonomyRow(rows[i]) == Some(l)
    ensures l.linker !in InvalidLinkers
    decreases |rows|
  {
    var init := rows[..|rows| - 1];
    if l in TaxonomyOf(init) {
      TaxonomyFromRows(init, l);
      var i :| 0 <= i < |init| && TaxonomyRow(init[i]) == Some(l);
      assert rows[i] == init[i];
    } else {
      assert TaxonomyRow(rows[|rows| - 1]) == Some(l);
    }
  }

  /** Every kept row's linker is in the taxonomy. */
  lemma {:induction false} TaxonomyKeepsRows(rows: seq<string>, i: nat)
    requires i < |rows| && TaxonomyRow(rows[i]).Some?
    ensures TaxonomyRow(rows[i]).value in TaxonomyOf(rows)
    decreases |rows|
  {
    var init := rows[..|rows| - 1];
    if i < |init| {
      assert init[i] == rows[i];
      TaxonomyKeepsRows(init, i);
    }
  }
}
