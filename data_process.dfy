/** Pre-processing of annotated proposals and comments into labelled
    sentences (`pre_process_dataset`): each text is cut at its dot tokens,
    each sentence of at least three characters collects the labels of the
    annotated spans inside it, and one output record is emitted per label. */
module DataProcess {
  import opened Wrappers
  import opened Text

  /** A token of the annotated document; only its text and end offset are used. */
  datatype DocToken = DocToken(text: string, start: nat, end: nat)
  /** An annotated span: character offsets and a label. */
  datatype Span = Span(start: int, end: int, spanLabel: string)
  /** One input document; `proposalId` and `commentId` are present or absent. */
  datatype InputRow = InputRow(proposalId: Option<string>, commentId: Option<string>, text: string,
                               tokens: seq<DocToken>, spans: seq<Span>)
  /** One output row: `[sent_id, sent_text, sent_label]`. */
  datatype OutRecord = OutRecord(sentId: string, sentText: string, sentLabel: string)

  const DotMark: string := "."
  const ValidSentSize: nat := 3
  const LabelSpam: string := "SPAM"
  const LinkerLabel: string := "LINKER"

  // ---------------------------------------------------------------------------
  // Dot marks

  /** The tokens whose text is ".", in document order. */
  function DotTokens(tokens: seq<DocToken>): (r: seq<DocToken>)
    ensures forall t :: t in r <==> t in tokens && t.text == DotMark
  {
    if tokens == [] then []
    else DotTokens(tokens[..|tokens| - 1]) + (if tokens[|tokens| - 1].text == DotMark then [tokens[|tokens| - 1]] else [])
  }

  /** The dot marks of a text, or one synthetic mark ending at the text's end. */
  function DotMarks(text: string, tokens: seq<DocToken>): (r: seq<DocToken>)
    ensures |r| >= 1
    ensures (forall t :: t in tokens ==> t.text != DotMark) ==> r == [DocToken(".", 0, |text|)]
    ensures (exists t :: t in tokens && t.text == DotMark) ==> r == DotTokens(tokens)
  {
    var dots := DotTokens(tokens);
    assert |dots| > 0 ==> dots[0] in dots;
    if |dots| == 0 then [DocToken(".", 0, |text|)] else dots
  }

  // ---------------------------------------------------------------------------
  // Labels of one sentence

  /** Labels of the spans lying inside [ixStart, ixEnd], first occurrence
      first, without duplicates and without the linker label. */
  function SpanLabels(spans: seq<Span>, ixStart: int, ixEnd: int): seq<string>
    decreases |spans|
  {
    if spans == [] then []
    else
      var prev := SpanLabels(spans[..|spans| - 1], ixStart, ixEnd);
      var span := spans[|spans| - 1];
      if span.start >= ixStart && span.end <= ixEnd && span.spanLabel !in prev && span.spanLabel != LinkerLabel
      then prev + [span.spanLabel] else prev
  }

  /** The labels of a valid sentence: its span labels, or just "SPAM". */
  function SentenceLabels(spans: seq<Span>, ixStart: int, ixEnd: int): seq<string> {
    var labels := SpanLabels(spans, ixStart, ixEnd);
    if |labels| == 0 then [LabelSpam] else labels
  }

  /** A sentence's labels are listed once each, never the linker label, and
      are exactly the labels of the non-linker spans inside the sentence. */
  lemma {:induction false} SpanLabelsSound(spans: seq<Span>, ixStart: int, ixEnd: int)
    ensures forall i, j :: 0 <= i < j < |SpanLabels(spans, ixStart, ixEnd)| ==>
      SpanLabels(spans, ixStart, ixEnd)[i] != SpanLabels(spans, ixStart, ixEnd)[j]
    ensures LinkerLabel !in SpanLabels(spans, ixStart, ixEnd)
    ensures forall l :: l in SpanLabels(spans, ixStart, ixEnd) <==>
      exists s :: s in spans && s.start >= ixStart && s.end <= ixEnd && s.spanLabel == l && l != LinkerLabel
    decreases |spans|
  {
    if spans != [] {
      var init := spans[..|spans| - 1];
      SpanLabelsSound(init, ixStart, ixEnd);
      assert forall s :: s in spans <==> s in init || s == spans[|spans| - 1] by {
        assert spans == init + [spans[|spans| - 1]];
      }
    }
  }

  /** A valid sentence always has a label, and has exactly ["SPAM"] when no
      non-linker span lies inside it. */
  lemma SentenceLabelsSpam(spans: seq<Span>, ixStart: int, ixEnd: int)
    ensures |SentenceLabels(spans, ixStart, ixEnd)| >= 1
    ensures (forall s :: s in spans && s.start >= ixStart && s.end <= ixEnd ==> s.spanLabel == LinkerLabel) ==>
      SentenceLabels(spans, ixStart, ixEnd) == [LabelSpam]
  {
    SpanLabelsSound(spans, ixStart, ixEnd);
    if |SpanLabels(spans, ixStart, ixEnd)| > 0 {
      assert SpanLabels(spans, ixStart, ixEnd)[0] in SpanLabels(spans, ixStart, ixEnd);
    }
  }

  /** The span loop of one sentence. */
  method AnnotateSentence(spans: seq<Span>, ixStart: int, ixEnd: int) returns (labels: seq<string>)
    ensures labels == SentenceLabels(spans, ixStart, ixEnd)
  {
    labels := [];
    var j := 0;
    while j < |spans|
      invariant 0 <= j <= |spans|
      invariant labels == SpanLabels(spans[..j], ixStart, ixEnd)
    {
      assert spans[..j + 1][..j] == spans[..j];
      var span := spans[j];
      if span.start >= ixStart && span.end <= ixEnd {
        var spanLabel := span.spanLabel;
        if spanLabel !in labels && spanLabel != LinkerLabel {
          labels := labels + [spanLabel];
        }
      }
      j := j + 1;
    }
    assert spans[..j] == spans;
    if |labels| == 0 {
      labels := labels + [LabelSpam];
    }
  }

  // ---------------------------------------------------------------------------
  // Sentences of one text

  datatype Sentence = Sentence(sentId: nat, text: string, labels: seq<string>)

  /** The state of the dot loop: next start offset, next sentence number and
      the valid sentences so far. */
  datatype SegState = SegState(ixStart: nat, sentId: nat, sentences: seq<Sentence>)

  /** One turn of the dot loop: the sentence is the stripped slice from the
      current start to the mark's end; it counts only with at least three
      characters; the next start is always the mark's end plus one. */
  function Step(text: string, spans: seq<Span>, st: SegState, ixEnd: nat): SegState {
    var sentText := PyStrip(PySlice(text, st.ixStart, ixEnd));
    if |sentText| >= ValidSentSize
    then SegState(ixEnd + 1, st.sentId + 1, st.sentences + [Sentence(st.sentId, sentText, SentenceLabels(spans, st.ixStart, ixEnd))])
    else SegState(ixEnd + 1, st.sentId, st.sentences)
  }

  /** The dot loop over the given marks. */
  function Segment(text: string, spans: seq<Span>, dots: seq<DocToken>): SegState
    decreases |dots|
  {
    if dots == [] then SegState(0, 0, [])
    else Step(text, spans, Segment(text, spans, dots[..|dots| - 1]), dots[|dots| - 1].end)
  }

  /** Sentence numbers run 0, 1, 2, ... over the valid sentences only (short
      ones do not advance them), every sentence has at least three characters,
      and the next start is the last mark's end plus one. */
  lemma {:induction false} SegmentNumbering(text: string, spans: seq<Span>, dots: seq<DocToken>)
    ensures Segment(text, spans, dots).sentId == |Segment(text, spans, dots).sentences|
    ensures forall i :: 0 <= i < |Segment(text, spans, dots).sentences| ==>
      Segment(text, spans, dots).sentences[i].sentId == i
      && |Segment(text, spans, dots).sentences[i].text| >= ValidSentSize
      && |Segment(text, spans, dots).sentences[i].labels| >= 1
    ensures Segment(text, spans, dots).ixStart == if dots == [] then 0 else dots[|dots| - 1].end + 1
    decreases |dots|
  {
    if dots != [] {
      var st := Segment(text, spans, dots[..|dots| - 1]);
      SegmentNumbering(text, spans, dots[..|dots| - 1]);
      SentenceLabelsSpam(spans, st.ixStart, dots[|dots| - 1].end);
    }
  }

  /** The sentences of a prefix of the marks are a prefix of the sentences. */
  lemma {:induction false} SegmentPrefix(text: string, spans: seq<Span>, dots: seq<DocToken>, d: nat)
    requires d <= |dots|
    ensures |Segment(text, spans, dots[..d]).sentences| <= |Segment(text, spans, dots).sentences|
    ensures Segment(text, spans, dots).sentences[..|Segment(text, spans, dots[..d]).sentences|]
      == Segment(text, spans, dots[..d]).sentences
    decreases |dots| - d
  {
    if d < |dots| {
      SegmentPrefix(text, spans, dots, d + 1);
      SegmentSnoc(text, spans, dots, d);
      var st := Segment(text, spans, dots[..d]);
      StepExtends(text, spans, st, dots[d].end);
      var a := st.sentences;
      var b := Segment(text, spans, dots[..d + 1]).sentences;
      var c := Segment(text, spans, dots).sentences;
      assert c[..|a|] == c[..|b|][..|a|];
    } else {
      assert dots[..d] == dots;
    }
  }

  /** A turn keeps the sentences found so far. */
  lemma StepExtends(text: string, spans: seq<Span>, st: SegState, ixEnd: nat)
    ensures |st.sentences| <= |Step(text, spans, st, ixEnd).sentences|
    ensures Step(text, spans, st, ixEnd).sentences[..|st.sentences|] == st.sentences
  {
    assert (st.sentences + [Sentence(st.sentId, PyStrip(PySlice(text, st.ixStart, ixEnd)), SentenceLabels(spans, st.ixStart, ixEnd))])[..|st.sentences|] == st.sentences;
  }

  // ---------------------------------------------------------------------------
  // Output records

  /** `proposal_id + "-" + comment_id + "-" + str(sent_id) + "-" + str(i)`. */
  function RecordId(proposalId: string, commentId: string, sentId: nat, i: nat): string {
    proposalId + "-" + commentId + "-" + NatToString(sentId) + "-" + NatToString(i)
  }

  /** A record id splits back into its four parts when the two ids hold no "-". */
  lemma RecordIdParts(proposalId: string, commentId: string, sentId: nat, i: nat)
    requires '-' !in proposalId && '-' !in commentId
    ensures Split(RecordId(proposalId, commentId, sentId, i), '-') == [proposalId, commentId, NatToString(sentId), NatToString(i)]
  {
    var s := NatToString(sentId);
    var k := NatToString(i);
    DigitsHaveNo(s, '-');
    DigitsHaveNo(k, '-');
    SplitNoSeparator(proposalId, '-');
    SplitNoSeparator(commentId, '-');
    SplitNoSeparator(s, '-');
    SplitNoSeparator(k, '-');
    var y := proposalId + "-" + commentId;
    var x := y + "-" + s;
    assert RecordId(proposalId, commentId, sentId, i) == x + "-" + k;
    SplitConcat(x, '-', k);
    SplitConcat(y, '-', s);
    SplitConcat(proposalId, '-', commentId);
  }

  /** One record per label of a sentence, numbered 0.. in label order. */
  function EmitLabels(proposalId: string, commentId: string, sentId: nat, text: string, labels: seq<string>): (r: seq<OutRecord>)
    ensures |r| == |labels|
    ensures forall i :: 0 <= i < |labels| ==> r[i] == OutRecord(RecordId(proposalId, commentId, sentId, i), text, labels[i])
    decreases |labels|
  {
    if labels == [] then []
    else
      EmitLabels(proposalId, commentId, sentId, text, labels[..|labels| - 1])
        + [OutRecord(RecordId(proposalId, commentId, sentId, |labels| - 1), text, labels[|labels| - 1])]
  }

  /** The records of a sequence of sentences, in order. */
  function EmitSentences(proposalId: string, commentId: string, sentences: seq<Sentence>): seq<OutRecord>
    decreases |sentences|
  {
    if sentences == [] then []
    else
      var s := sentences[|sentences| - 1];
      EmitSentences(proposalId, commentId, sentences[..|sentences| - 1]) + EmitLabels(proposalId, commentId, s.sentId, s.text, s.labels)
  }

  /** Emitting reads `proposal_id`, which is unbound until some row supplied one. */
  function EmitAll(proposalId: Option<string>, commentId: string, sentences: seq<Sentence>): Result<seq<OutRecord>> {
    if sentences == [] then Ok([])
    else if proposalId.None? then Err(UnboundName("proposal_id"))
    else Ok(EmitSentences(proposalId.value, commentId, sentences))
  }

  // ---------------------------------------------------------------------------
  // The row loop

  /** The ids carried between rows and the records emitted so far. */
  datatype ProcState = ProcState(proposalId: Option<string>, commentId: string, out: seq<OutRecord>)

  /** A row supplies `proposal_id` if it has one, and otherwise `comment_id` if
      it has one; whatever it does not supply carries over. */
  function NextIds(row: InputRow, proposalId: Option<string>, commentId: string): (Option<string>, string) {
    if row.proposalId.Some? then (row.proposalId, commentId)
    else if row.commentId.Some? then (proposalId, row.commentId.value)
    else (proposalId, commentId)
  }

  /** One turn of the row loop: the row's ids, then its sentences' records. */
  function RowStep(st: ProcState, row: InputRow): Result<ProcState> {
    var (pid, cid) := NextIds(row, st.proposalId, st.commentId);
    var seg := Segment(row.text, row.spans, DotMarks(row.text, row.tokens));
    match EmitAll(pid, cid, seg.sentences)
    case Err(e) => Err(e)
    case Ok(records) => Ok(ProcState(pid, cid, st.out + records))
  }

  /** The rows processed in order; `comment_id` starts as "0", and
      `proposal_id` starts unbound. */
  function Process(rows: seq<InputRow>): Result<ProcState>
    decreases |rows|
  {
    if rows == [] then Ok(ProcState(None, "0", []))
    else
      match Process(rows[..|rows| - 1])
      case Err(e) => Err(e)
      case Ok(st) => RowStep(st, rows[|rows| - 1])
  }

  lemma {:induction false} ProcessErrSticks(rows: seq<InputRow>, n: nat)
    requires n <= |rows|
    requires Process(rows[..n]).Err?
    ensures Process(rows) == Process(rows[..n])
    decreases |rows| - n
  {
    if n == |rows| {
      assert rows[..n] == rows;
    } else {
      assert rows[..n + 1][..n] == rows[..n];
      ProcessErrSticks(rows, n + 1);
    }
  }

  /** The label loop of one valid sentence. */
  method EmitRecords(proposalId: string, commentId: string, sentId: nat, sentText: string, labels: seq<string>)
    returns (records: seq<OutRecord>)
    ensures records == EmitLabels(proposalId, commentId, sentId, sentText, labels)
  {
    records := [];
    var i := 0;
    while i < |labels|
      invariant 0 <= i <= |labels|
      invariant records == EmitLabels(proposalId, commentId, sentId, sentText, labels[..i])
    {
      assert labels[..i + 1][..i] == labels[..i];
      var recordId := proposalId + "-" + commentId + "-" + NatToString(sentId) + "-" + NatToString(i);
      records := records + [OutRecord(recordId, sentText, labels[i])];
      i := i + 1;
    }
    assert labels[..i] == labels;
  }

  /** The dot loop of one row, emitting each valid sentence's records as it
      goes; reaching a valid sentence with `proposal_id` unbound raises. */
  method AnnotateRow(proposalId: Option<string>, commentId: string, text: string, spans: seq<Span>, dotMarks: seq<DocToken>)
    returns (r: Result<seq<OutRecord>>)
    ensures r == EmitAll(proposalId, commentId, Segment(text, spans, dotMarks).sentences)
  {
    var out: seq<OutRecord> := [];
    var st := SegState(0, 0, []);
    var d := 0;
    assert dotMarks[..0] == [];
    while d < |dotMarks|
      invariant 0 <= d <= |dotMarks|
      invariant Segment(text, spans, dotMarks[..d]) == st
      invariant proposalId.None? ==> st.sentences == [] && out == []
      invariant proposalId.Some? ==> out == EmitSentences(proposalId.value, commentId, st.sentences)
    {
      SegmentSnoc(text, spans, dotMarks, d);
      var valid, sentence, next := SentenceTurn(text, spans, st, dotMarks[d].end);
      if valid {
        if proposalId.None? {
          SegmentPrefix(text, spans, dotMarks, d + 1);
          return Err(UnboundName("proposal_id"));
        }
        var records := EmitRecords(proposalId.value, commentId, sentence.sentId, sentence.text, sentence.labels);
        EmitSentencesSnoc(proposalId.value, commentId, st.sentences, sentence);
        out := out + records;
      }
      st := next;
      d := d + 1;
    }
    assert dotMarks[..d] == dotMarks;
    if st.sentences == [] {
      return Ok([]);
    }
    return Ok(out);
  }

  /** One turn of the dot loop: the stripped sentence text, and whether it is
      long enough to count, with its labels and its number. */
  method SentenceTurn(text: string, spans: seq<Span>, st: SegState, ixEnd: nat)
    returns (valid: bool, sentence: Sentence, next: SegState)
    ensures next == Step(text, spans, st, ixEnd)
    ensures valid ==> next.sentences == st.sentences + [sentence] && sentence.sentId == st.sentId
    ensures !valid ==> next.sentences == st.sentences
  {
    var sentText := PyStrip(PySlice(text, st.ixStart, ixEnd));
    valid := |sentText| >= ValidSentSize;
    if valid {
      var labels := AnnotateSentence(spans, st.ixStart, ixEnd);
      sentence := Sentence(st.sentId, sentText, labels);
      next := SegState(ixEnd + 1, st.sentId + 1, st.sentences + [sentence]);
    } else {
      sentence := Sentence(st.sentId, sentText, []);
      next := SegState(ixEnd + 1, st.sentId, st.sentences);
    }
  }

  lemma SegmentSnoc(text: string, spans: seq<Span>, dots: seq<DocToken>, d: nat)
    requires d < |dots|
    ensures Segment(text, spans, dots[..d + 1]) == Step(text, spans, Segment(text, spans, dots[..d]), dots[d].end)
  {
    assert dots[..d + 1][..d] == dots[..d];
  }

  lemma EmitSentencesSnoc(proposalId: string, commentId: string, sentences: seq<Sentence>, s: Sentence)
    ensures EmitSentences(proposalId, commentId, sentences + [s])
      == EmitSentences(proposalId, commentId, sentences) + EmitLabels(proposalId, commentId, s.sentId, s.text, s.labels)
  {
    assert (sentences + [s])[..|sentences|] == sentences;
  }

  lemma ProcessSnoc(rows: seq<InputRow>, n: nat)
    requires n < |rows| && Process(rows[..n]).Ok?
    ensures Process(rows[..n + 1]) == RowStep(Process(rows[..n]).value, rows[n])
  {
    assert rows[..n + 1][..n] == rows[..n];
  }

  /** Python `pre_process_dataset` up to the data frame: the rows of the
      frame with columns sent_id, sent_text and sent_label. */
  method PreProcessDataset(inDataset: seq<InputRow>, language: string) returns (r: Result<seq<OutRecord>>)
    ensures Process(inDataset).Err? ==> r == Err(Process(inDataset).error)
    ensures Process(inDataset).Ok? ==> r == Ok(Process(inDataset).value.out)
  {
    var st := ProcState(None, "0", []);
    var n := 0;
    assert inDataset[..n] == [];
    while n < |inDataset|
      invariant 0 <= n <= |inDataset|
      invariant Process(inDataset[..n]) == Ok(st)
    {
      ProcessSnoc(inDataset, n);
      var next := ProcessRow(st, inDataset[n]);
      if next.Err? {
        ProcessErrSticks(inDataset, n + 1);
        return Err(next.error);
      }
      st := next.value;
      n := n + 1;
    }
    assert inDataset[..n] == inDataset;
    return Ok(st.out);
  }

  /** One turn of the row loop: `proposal_id` and `comment_id` from the row,
      then the row's records appended to the output. */
  method ProcessRow(st: ProcState, row: InputRow) returns (r: Result<ProcState>)
    ensures r == RowStep(st, row)
  {
    var proposalId := st.proposalId;
    var commentId := st.commentId;
    if row.proposalId.Some? {
      proposalId := row.proposalId;
    } else if row.commentId.Some? {
      commentId := row.commentId.value;
    }
    var dotMarks := DotMarks(row.text, row.tokens);
    assert (proposalId, commentId) == NextIds(row, st.proposalId, st.commentId);
    var records := AnnotateRow(proposalId, commentId, row.text, row.spans, dotMarks);
    if records.Err? {
      return Err(records.error);
    }
    return Ok(ProcState(proposalId, commentId, st.out + records.value));
  }

  /** A row step fails only by reading the unbound `proposal_id`, and never
      once one is bound. */
  lemma RowStepFailure(st: ProcState, row: InputRow)
    ensures RowStep(st, row).Err? ==> RowStep(st, row).error == UnboundName("proposal_id")
    ensures st.proposalId.Some? || row.proposalId.Some? ==>
      RowStep(st, row).Ok? && RowStep(st, row).value.proposalId.Some?
  {
  }

  /** The run fails only by reading the unbound `proposal_id`, and never when
      the first row supplies one. */
  lemma {:induction false} ProcessFailure(rows: seq<InputRow>)
    ensures Process(rows).Err? ==> Process(rows).error == UnboundName("proposal_id")
    ensures rows != [] && rows[0].proposalId.Some? ==> Process(rows).Ok? && Process(rows).value.proposalId.Some?
    decreases |rows|
  {
    if rows != [] {
      var init := rows[..|rows| - 1];
      ProcessFailure(init);
      if |init| > 0 {
        assert init[0] == rows[0];
      }
      if Process(init).Ok? {
        RowStepFailure(Process(init).value, rows[|rows| - 1]);
      }
    }
  }

  /** `comment_id` is set once to "0" and changes only on rows that supply it
      without a `proposal_id`: if no row does, it stays "0". */
  lemma {:induction false} CommentIdCarriesOver(rows: seq<InputRow>)
    requires Process(rows).Ok?
    requires forall i :: 0 <= i < |rows| ==> rows[i].proposalId.Some? || rows[i].commentId.None?
    ensures Process(rows).value.commentId == "0"
    decreases |rows|
  {
    if rows != [] {
      var init := rows[..|rows| - 1];
      assert forall i :: 0 <= i < |init| ==> init[i] == rows[i];
      CommentIdCarriesOver(init);
    }
  }

  /** Python `post_process_dataset`: always the empty list. */
  function PostProcessDataset(inDataset: seq<OutRecord>, language: string): (r: seq<OutRecord>)
    ensures r == []
  {
    []
  }
}
