/** The argument classifier's `IOManager.readDataset`: a labelled dataset
    read from a comma-separated file. The file is a parameter: None when it
    does not exist, otherwise its whole content. */
module ClassifierIO {
  import opened Wrappers
  import opened Text
  import opened Lines

  /** The classifier's `Proposition`: ids, sentence text and label. */
  datatype LabelledProposition = LabelledProposition(proposalID: int, sentenceID: int, text: string, labelValue: string)

  /** One data row: `row.split(",")` must give exactly four fields, else the
      row is skipped; the ids are parsed with `Integer.parseInt`, whose
      NumberFormatException nothing catches. */
  function RowOf(row: string): (r: Result<Option<LabelledProposition>>)
    ensures r == Ok(None) <==> |JavaSplit(row, ',')| != 4
    ensures r.Err? ==> r.error.NumberFormat?
    ensures |JavaSplit(row, ',')| == 4 ==>
      var data := JavaSplit(row, ',');
      (r.Ok? <==> JavaParseInt(data[0]).Ok? && JavaParseInt(data[1]).Ok?)
      && (r.Ok? ==> r.value == Some(LabelledProposition(JavaParseInt(data[0]).value, JavaParseInt(data[1]).value, data[2], data[3])))
  {
    var data := JavaSplit(row, ',');
    if |data| != 4 then Ok(None)
    else
      match JavaParseInt(data[0])
      case Err(e) => Err(e)
      case Ok(proposalID) =>
        match JavaParseInt(data[1])
        case Err(e) => Err(e)
        case Ok(sentenceID) => Ok(Some(LabelledProposition(proposalID, sentenceID, data[2], data[3])))
  }

  /** The row loop: rows in file order, the first exception ending it. */
  function DatasetOf(rows: seq<string>): Result<seq<LabelledProposition>> {
    if rows == [] then Ok([])
    else
      match DatasetOf(rows[..|rows| - 1])
      case Err(e) => Err(e)
      case Ok(dataset) =>
        match RowOf(rows[|rows| - 1])
        case Err(e) => Err(e)
        case Ok(None) => Ok(dataset)
        case Ok(Some(p)) => Ok(dataset + [p])
  }

  /** `readDataset`: a missing file reads as no propositions; the first line
      is read and dropped. */
  function ReadDataset(file: Option<string>): Result<seq<LabelledProposition>> {
    match file
    case None => Ok([])
    case Some(content) => DatasetOf(DataRows(content))
  }

  /** The body of the row loop. */
  method ReadRow(row: string) returns (r: Result<Option<LabelledProposition>>)
    ensures r == RowOf(row)
  {
    var data := JavaSplit(row, ',');
    if |data| != 4 {
      return Ok(None);
    }
    var proposalID := JavaParseInt(data[0]);
    if proposalID.Err? {
      return Err(proposalID.error);
    }
    var sentenceID := JavaParseInt(data[1]);
    if sentenceID.Err? {
      return Err(sentenceID.error);
    }
    r := Ok(Some(LabelledProposition(proposalID.value, sentenceID.value, data[2], data[3])));
  }

  method ReadDatasetFile(file: Option<string>) returns (r: Result<seq<LabelledProposition>>)
    ensures r == ReadDataset(file)
    ensures file.None? ==> r == Ok([])
  {
    if file.None? {
      return Ok([]);
    }
    var rows := DataRows(file.value);
    var dataset: seq<LabelledProposition> := [];
    var i := 0;
    while i < |rows|
      invariant 0 <= i <= |rows|
      invariant DatasetOf(rows[..i]) == Ok(dataset)
    {
      PrefixSnoc(rows, i);
      var row := ReadRow(rows[i]);
      if row.Err? {
        DatasetErrPersists(rows[..i + 1], rows[i + 1..]);
        PrefixSuffix(rows, i + 1);
        return Err(row.error);
      }
      if row.value.Some? {
        dataset := dataset + [row.value.value];
      }
      i := i + 1;
    }
    PrefixSuffix(rows, i);
    r := Ok(dataset);
  }

  // ---------------------------------------------------------------------------
  // Properties

  lemma {:induction false} DatasetErrPersists(rows: seq<string>, more: seq<string>)
    requires DatasetOf(rows).Err?
    ensures DatasetOf(rows + more) == DatasetOf(rows)
    decreases |more|
  {
    if more == [] {
      assert rows + more == rows;
    } else {
      var n := |more| - 1;
      assert (rows + more)[..|rows + more| - 1] == rows + more[..n];
      DatasetErrPersists(rows, more[..n]);
    }
  }

  /** A row of four fields, the third free, splits into the pieces of the
      third between the others. */
  lemma SplitRow(a: string, b: string, text: string, labelValue: string)
    requires ',' !in a && ',' !in b && ',' !in labelValue
    ensures Split(a + "," + b + "," + text + "," + labelValue, ',') == [a, b] + Split(text, ',') + [labelValue]
  {
    var x2 := a + "," + b;
    SplitNoSeparator(a, ',');
    SplitConcat(a, ',', b);
    SplitNoSeparator(b, ',');
    assert [a] + [b] == [a, b];
    var x3 := x2 + "," + text;
    SplitConcat(x2, ',', text);
    SplitConcat(x3, ',', labelValue);
    SplitNoSeparator(labelValue, ',');
  }

  /** A string with the separator splits into at least two fields. */
  lemma SplitsInTwo(s: string, c: char)
    requires c in s
    ensures |Split(s, c)| >= 2
  {
    SplitAt(s, c);
  }

  /** A comma in the text adds a field, so the row is skipped. */
  lemma CommaTextDropsRow(a: string, b: string, text: string, labelValue: string)
    requires ',' !in a && ',' !in b && ',' !in labelValue && labelValue != ""
    requires ',' in text
    ensures RowOf(a + "," + b + "," + text + "," + labelValue) == Ok(None)
  {
    var row := a + "," + b + "," + text + "," + labelValue;
    SplitRow(a, b, text, labelValue);
    SplitsInTwo(text, ',');
    var parts := Split(row, ',');
    assert parts[|parts| - 1] == labelValue;
    assert row[|a|] == ',';
    JavaSplitKeepsFields(row, ',', parts);
  }

  /** A row as the dataset file holds it. */
  function RowText(p: LabelledProposition): string {
    IntToString(p.proposalID) + "," + IntToString(p.sentenceID) + "," + p.text + "," + p.labelValue
  }

  /** A proposition that a row can carry: 32-bit ids, a comma-free text, a
      non-empty comma-free labelValue, and no line break. */
  predicate Readable(p: LabelledProposition) {
    MinInt32 <= p.proposalID <= MaxInt32 && MinInt32 <= p.sentenceID <= MaxInt32
    && ',' !in p.text && ',' !in p.labelValue && p.labelValue != ""
    && NoBreak(p.text) && NoBreak(p.labelValue)
  }

  /** The row of such a proposition reads back as the proposition. */
  lemma RowRoundTrip(p: LabelledProposition)
    requires Readable(p)
    ensures RowOf(RowText(p)) == Ok(Some(p))
  {
    var a, b := IntToString(p.proposalID), IntToString(p.sentenceID);
    IntToStringHasNo(p.proposalID, ',');
    IntToStringHasNo(p.sentenceID, ',');
    var row := RowText(p);
    SplitRow(a, b, p.text, p.labelValue);
    SplitNoSeparator(p.text, ',');
    var parts := Split(row, ',');
    assert parts == [a, b, p.text, p.labelValue];
    assert row[|a|] == ',';
    JavaSplitKeepsFields(row, ',', parts);
    ParseIntRoundTrip(p.proposalID);
    ParseIntRoundTrip(p.sentenceID);
  }

  lemma RowTextNoBreak(p: LabelledProposition)
    requires Readable(p)
    ensures NoBreak(RowText(p))
  {
    IntToStringHasNo(p.proposalID, '\n');
    IntToStringHasNo(p.proposalID, '\r');
    IntToStringHasNo(p.sentenceID, '\n');
    IntToStringHasNo(p.sentenceID, '\r');
    NoBreakIff(p.text);
    NoBreakIff(p.labelValue);
    NoBreakIff(RowText(p));
  }

  function RowTexts(dataset: seq<LabelledProposition>): (rows: seq<string>)
    ensures |rows| == |dataset|
    ensures forall i {:trigger rows[i]} :: 0 <= i < |dataset| ==> rows[i] == RowText(dataset[i])
  {
    seq(|dataset|, i requires 0 <= i < |dataset| => RowText(dataset[i]))
  }

  lemma {:induction false} DatasetOfMapped(rows: seq<string>, dataset: seq<LabelledProposition>)
    requires |rows| == |dataset|
    requires forall i {:trigger RowOf(rows[i])} :: 0 <= i < |rows| ==> RowOf(rows[i]) == Ok(Some(dataset[i]))
    ensures DatasetOf(rows) == Ok(dataset)
    decreases |rows|
  {
    if rows != [] {
      var k := |rows| - 1;
      DatasetOfMapped(rows[..k], dataset[..k]);
      SnocLast(dataset);
      assert RowOf(rows[k]) == Ok(Some(dataset[k]));
    }
  }

  /** A file of any one-line header and then one row per proposition reads
      as those propositions, in file order. */
  lemma FileOrder(header: string, dataset: seq<LabelledProposition>)
    requires NoBreak(header)
    requires forall i {:trigger Readable(dataset[i])} :: 0 <= i < |dataset| ==> Readable(dataset[i])
    ensures ReadDataset(Some(Terminated([header] + RowTexts(dataset)))) == Ok(dataset)
  {
    var rows := RowTexts(dataset);
    forall i | 0 <= i < |rows| ensures NoBreak(rows[i]) && RowOf(rows[i]) == Ok(Some(dataset[i])) {
      RowTextNoBreak(dataset[i]);
      RowRoundTrip(dataset[i]);
    }
    DataRowsTerminated(header, rows);
    DatasetOfMapped(rows, dataset);
  }
}
