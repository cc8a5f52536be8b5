/** The label-file readers of the argument classifier (`__read_label_file` in
    the engine and in the script, `read_labels_file` in the entry module).
    Each skips the header line, splits every other line on "," with Python's
    `split` and keys a record of linker, category and sub-category by
    "field0-field1". The readers differ only in which fields they pick. */
module LabelFiles {
  import opened Wrappers
  import opened Text
  import opened PyDicts

  /** Which fields become linker, category and sub-category: the last three
      (engine and script), or the third from last for all three (entry module). */
  datatype FieldPick = LastThree | ThirdFromLast

  /** Python `data[k]` for an index in range, negative ones counting from the end. */
  function PyAt(data: seq<string>, k: int): string
    requires -|data| <= k < |data|
  {
    if k >= 0 then data[k] else data[|data| + k]
  }

  /** `{"linker": ..., "category": ..., "sub_category": ...}`. */
  function LabelRecord(linker: string, category: string, subCategory: string): map<string, string> {
    map["linker" := linker, "category" := category, "sub_category" := subCategory]
  }

  /** One label line: `data[1]` raises `IndexError` when the line has no comma;
      otherwise the key is "field0-field1" and the three fields are picked with
      Python's negative indexing, which wraps for two fields. The line is not
      stripped, so the last field keeps its terminator. */
  function ParseLine(line: string, pick: FieldPick): (r: Result<(string, map<string, string>)>)
    ensures r.Err? ==> r.error == IndexError
    ensures r.Ok? ==> |Split(line, ',')| >= 2 && r.value.0 == Split(line, ',')[0] + "-" + Split(line, ',')[1]
    ensures r.Ok? ==> r.value.1.Keys == {"linker", "category", "sub_category"}
    ensures r.Ok? && pick == ThirdFromLast ==>
      r.value.1["linker"] == r.value.1["category"] == r.value.1["sub_category"]
  {
    var data := Split(line, ',');
    var n := |data|;
    if n < 2 then Err(IndexError)
    else
      var propId := data[0] + "-" + data[1];
      match pick
      case LastThree => Ok((propId, LabelRecord(PyAt(data, n - 3), PyAt(data, n - 2), PyAt(data, n - 1))))
      case ThirdFromLast => Ok((propId, LabelRecord(PyAt(data, n - 3), PyAt(data, n - 3), PyAt(data, n - 3))))
  }

  /** A line parses exactly when it holds a comma. */
  lemma ParseLineFailsIffNoComma(line: string, pick: FieldPick)
    ensures ParseLine(line, pick).Err? <==> ',' !in line
  {
    if ',' in line {
      var k := IndexOf(line, ',');
      assert k < |line| by {
        var j :| 0 <= j < |line| && line[j] == ',';
      }
      assert |Split(line, ',')| == 1 + |Split(line[k + 1..], ',')|;
    } else {
      SplitNoSeparator(line, ',');
    }
  }

  /** The key is the first two fields joined by "-", and the record takes the
      last three fields, however many commas the text between them holds. */
  lemma ParseLineFields(id0: string, id1: string, text: string, linker: string, category: string, sub: string)
    requires ',' !in id0 && ',' !in id1 && ',' !in linker && ',' !in category && ',' !in sub
    ensures ParseLine(Join([id0, id1, text, linker, category, sub], ","), LastThree)
      == Ok((id0 + "-" + id1, LabelRecord(linker, category, sub)))
    ensures ParseLine(Join([id0, id1, text, linker, category, sub], ","), ThirdFromLast)
      == Ok((id0 + "-" + id1, LabelRecord(linker, linker, linker)))
  {
    var data := [id0, id1] + Split(text, ',') + [linker, category, sub];
    SplitLine(id0, id1, text, linker, category, sub);
    var n := |data|;
    assert data[0] == id0 && data[1] == id1;
    assert data[n - 3] == linker && data[n - 2] == category && data[n - 1] == sub;
  }

  lemma SplitLine(id0: string, id1: string, text: string, linker: string, category: string, sub: string)
    requires ',' !in id0 && ',' !in id1 && ',' !in linker && ',' !in category && ',' !in sub
    ensures Split(Join([id0, id1, text, linker, category, sub], ","), ',')
      == [id0, id1] + Split(text, ',') + [linker, category, sub]
  {
    JoinSix(id0, id1, text, linker, category, sub);
    SplitSix(id0, id1, text, linker, category, sub);
  }

  lemma JoinSix(id0: string, id1: string, text: string, linker: string, category: string, sub: string)
    ensures Join([id0, id1, text, linker, category, sub], ",")
      == id0 + "," + (id1 + "," + (text + "," + (linker + "," + (category + "," + sub))))
  {
    assert Join([category, sub], ",") == category + "," + sub;
    assert Join([linker, category, sub], ",") == linker + "," + Join([category, sub], ",");
    assert Join([text, linker, category, sub], ",") == text + "," + Join([linker, category, sub], ",");
    assert Join([id1, text, linker, category, sub], ",") == id1 + "," + Join([text, linker, category, sub], ",");
  }

  lemma SplitSix(id0: string, id1: string, text: string, linker: string, category: string, sub: string)
    requires ',' !in id0 && ',' !in id1 && ',' !in linker && ',' !in category && ',' !in sub
    ensures Split(id0 + "," + (id1 + "," + (text + "," + (linker + "," + (category + "," + sub)))), ',')
      == [id0, id1] + Split(text, ',') + [linker, category, sub]
  {
    var j3 := linker + "," + (category + "," + sub);
    SplitTail(linker, category, sub);
    SplitNoSeparator(id0, ',');
    SplitNoSeparator(id1, ',');
    var t := Split(text, ',');
    SplitConcat(text, ',', j3);
    SplitConcat(id1, ',', text + "," + j3);
    SplitConcat(id0, ',', id1 + "," + (text + "," + j3));
    ConsTwo(id0, id1, t + [linker, category, sub]);
  }

  lemma ConsTwo(a: string, b: string, rest: seq<string>)
    ensures [a] + ([b] + rest) == [a, b] + rest
  {
  }

  lemma SplitTail(a: string, b: string, c: string)
    requires ',' !in a && ',' !in b && ',' !in c
    ensures Split(a + "," + (b + "," + c), ',') == [a, b, c]
  {
    SplitNoSeparator(a, ',');
    SplitNoSeparator(b, ',');
    SplitNoSeparator(c, ',');
    SplitConcat(b, ',', c);
    SplitConcat(a, ',', b + "," + c);
  }

  /** The dict built from data lines in order: a repeated key overwrites the
      earlier record and keeps its first position; the first malformed line
      raises. */
  function ParseLines(lines: seq<string>, pick: FieldPick): (r: Result<Dict<string, map<string, string>>>)
    ensures r.Ok? ==> r.value.Valid()
    decreases |lines|
  {
    if lines == [] then Ok(Empty())
    else
      var prev := ParseLines(lines[..|lines| - 1], pick);
      var line := ParseLine(lines[|lines| - 1], pick);
      if prev.Err? then Err(prev.error)
      else if line.Err? then Err(line.error)
      else Ok(Put(prev.value, line.value.0, line.value.1))
  }

  /** A non-empty read succeeds exactly when its earlier lines and its last line do. */
  lemma ParseLinesStep(lines: seq<string>, pick: FieldPick)
    requires lines != []
    ensures ParseLines(lines, pick).Ok? <==>
      ParseLines(lines[..|lines| - 1], pick).Ok? && ParseLine(lines[|lines| - 1], pick).Ok?
  {
  }

  /** The shared reading loop: the header line is skipped, and fewer than two
      lines give an empty dict. */
  method ReadLabelFile(lines: seq<string>, pick: FieldPick) returns (r: Result<Dict<string, map<string, string>>>)
    ensures |lines| <= 1 ==> r == Ok(Empty())
    ensures |lines| > 1 ==> r == ParseLines(lines[1..], pick)
  {
    if |lines| > 1 {
      r := ReadDataLines(lines[1..], pick);
    } else {
      r := Ok(Empty());
    }
  }

  /** The loop over the data lines, one record put per line. */
  method ReadDataLines(data: seq<string>, pick: FieldPick) returns (r: Result<Dict<string, map<string, string>>>)
    ensures r == ParseLines(data, pick)
  {
    var labels := Empty();
    var n := 0;
    while n < |data|
      invariant 0 <= n <= |data|
      invariant ParseLines(data[..n], pick) == Ok(labels)
    {
      var line := ParseLine(data[n], pick);
      ParseLinesAt(data, pick, n, labels);
      if line.Err? {
        ParseLinesErrSticks(data, pick, n + 1);
        return Err(line.error);
      }
      labels := Put(labels, line.value.0, line.value.1);
      n := n + 1;
    }
    PrefixSuffix(data, n);
    return Ok(labels);
  }

  /** One more line: its error, or the dict with its record put. */
  lemma ParseLinesAt(data: seq<string>, pick: FieldPick, n: nat, labels: Dict<string, map<string, string>>)
    requires n < |data| && ParseLines(data[..n], pick) == Ok(labels)
    ensures var line := ParseLine(data[n], pick);
      && (line.Err? ==> ParseLines(data[..n + 1], pick) == Err(line.error))
      && (line.Ok? ==> ParseLines(data[..n + 1], pick) == Ok(Put(labels, line.value.0, line.value.1)))
  {
    PrefixSnoc(data, n);
  }

  /** Once a prefix fails, the whole fails with the same error. */
  lemma {:induction false} ParseLinesErrSticks(lines: seq<string>, pick: FieldPick, n: nat)
    requires n <= |lines|
    requires ParseLines(lines[..n], pick).Err?
    ensures ParseLines(lines, pick) == ParseLines(lines[..n], pick)
    decreases |lines| - n
  {
    if n == |lines| {
      assert lines[..n] == lines;
    } else {
      assert lines[..n + 1][..n] == lines[..n];
      ParseLinesErrSticks(lines, pick, n + 1);
    }
  }

  /** A successful read parsed every line. */
  lemma ParseLinesEachLine(lines: seq<string>, pick: FieldPick, j: nat)
    requires ParseLines(lines, pick).Ok?
    requires j < |lines|
    ensures ParseLine(lines[j], pick).Ok?
    ensures ParseLines(lines[..j + 1], pick).Ok?
  {
    ParseLinesPrefixOk(lines, pick, j + 1);
    var p := lines[..j + 1];
    ParseLinesStep(p, pick);
    assert p[|p| - 1] == lines[j];
  }

  /** Every prefix of a successful read succeeds too. */
  lemma {:induction false} ParseLinesPrefixOk(lines: seq<string>, pick: FieldPick, n: nat)
    requires ParseLines(lines, pick).Ok?
    requires n <= |lines|
    ensures ParseLines(lines[..n], pick).Ok?
    decreases |lines|
  {
    if n < |lines| {
      var init := lines[..|lines| - 1];
      ParseLinesStep(lines, pick);
      ParseLinesPrefixOk(init, pick, n);
      assert init[..n] == lines[..n];
    } else {
      assert lines[..n] == lines;
    }
  }

  /** The last line with a given key decides its record: later lines with
      other keys leave it alone. */
  lemma {:induction false} LastLineWins(lines: seq<string>, pick: FieldPick, j: nat)
    requires ParseLines(lines, pick).Ok?
    requires j < |lines|
    requires ParseLine(lines[j], pick).Ok?
    requires forall i :: j < i < |lines| && ParseLine(lines[i], pick).Ok? ==>
      ParseLine(lines[i], pick).value.0 != ParseLine(lines[j], pick).value.0
    ensures ParseLine(lines[j], pick).value.0 in ParseLines(lines, pick).value.m
    ensures ParseLines(lines, pick).value.m[ParseLine(lines[j], pick).value.0] == ParseLine(lines[j], pick).value.1
    decreases |lines|
  {
    var init := lines[..|lines| - 1];
    var x := ParseLine(lines[j], pick).value;
    var last := ParseLine(lines[|lines| - 1], pick);
    var prev := ParseLines(init, pick);
    assert ParseLines(lines, pick) == Ok(Put(prev.value, last.value.0, last.value.1));
    if j < |lines| - 1 {
      forall i | j < i < |init| && ParseLine(init[i], pick).Ok?
        ensures ParseLine(init[i], pick).value.0 != ParseLine(init[j], pick).value.0
      {
        assert init[i] == lines[i];
      }
      assert init[j] == lines[j];
      LastLineWins(init, pick, j);
      assert last.value.0 != x.0;
    }
  }
}
