/** The feature extractor's `Dataset`: the sentences of the proposals, each
    with the linker annotated for it, saved as the dataset file. The two
    databases are not part of this model: the proposals (`None` when the
    query failed) and the annotated documents are parameters, and so is the
    sentence splitter of the argument engine. */
module ExtractorDataset {
  import opened Wrappers
  import opened Text
  import opened Propositions
  import ExtractorIO

  /** A document of the argument collection: its "argumentID" and its linker. */
  datatype LinkerDoc = LinkerDoc(argumentID: string, linker: ArgumentLinker)

  /** proposal id -> sentence id -> linker. */
  type Annotations = map<int, map<int, ArgumentLinker>>

  /** The linker of a sentence without annotation. */
  const NoLinker := ArgumentLinker("-", "-", "-", "-")

  /** What the loop makes of an id: not two '-'-separated parts (skipped),
      two parts of which one is no number (NumberFormatException), or the
      two numbers. */
  datatype IdOutcome = Unused | Malformed | Numbered(sentID: int, argID: int)

  function ParseId(argumentID: string): IdOutcome {
    var tokens := JavaSplit(argumentID, '-');
    if |tokens| != 2 then Unused
    else
      match (JavaParseInt(tokens[0]), JavaParseInt(tokens[1]))
      case (Ok(sentID), Ok(argID)) => Numbered(sentID, argID)
      case _ => Malformed
  }

  /** Each document's outcome and linker. */
  function Outcomes(docs: seq<LinkerDoc>): (items: seq<(IdOutcome, ArgumentLinker)>)
    ensures |items| == |docs|
  {
    if docs == [] then []
    else
      var n := |docs| - 1;
      Outcomes(docs[..n]) + [(ParseId(docs[n].argumentID), docs[n].linker)]
  }

  lemma {:induction false} OutcomeAt(docs: seq<LinkerDoc>, i: nat)
    requires i < |docs|
    ensures Outcomes(docs)[i] == (ParseId(docs[i].argumentID), docs[i].linker)
    decreases |docs|
  {
    var n := |docs| - 1;
    var prev := Outcomes(docs[..n]);
    assert Outcomes(docs) == prev + [(ParseId(docs[n].argumentID), docs[n].linker)];
    if i < n {
      OutcomeAt(docs[..n], i);
      assert docs[..n][i] == docs[i];
      assert Outcomes(docs)[i] == prev[i];
    }
  }

  /** The annotated linker of a sentence, if any. */
  function Lookup(m: Annotations, proposalID: int, sentenceID: int): Option<ArgumentLinker> {
    if proposalID in m && sentenceID in m[proposalID] then Some(m[proposalID][sentenceID]) else None
  }

  /** `sentWithArgs.get(sentID).put(argID, linker)`, creating the inner map
      when it is missing. */
  function Put(m: Annotations, sentID: int, argID: int, linker: ArgumentLinker): (r: Annotations)
    ensures forall p, s :: Lookup(r, p, s) == if (p, s) == (sentID, argID) then Some(linker) else Lookup(m, p, s)
  {
    m[sentID := (if sentID in m then m[sentID] else map[])[argID := linker]]
  }

  /** The loop of `getSentencesWithArguments`: the map so far, and whether a
      NumberFormatException ended the loop. */
  function Collect(items: seq<(IdOutcome, ArgumentLinker)>): (Annotations, bool) {
    if items == [] then (map[], false)
    else
      var (m, stopped) := Collect(items[..|items| - 1]);
      var (outcome, linker) := items[|items| - 1];
      if stopped then (m, true) else Step(m, outcome, linker)
  }

  /** One document: the map after it, and whether it raised. */
  function Step(m: Annotations, outcome: IdOutcome, linker: ArgumentLinker): (Annotations, bool) {
    match outcome
    case Unused => (m, false)
    case Malformed => (m, true)
    case Numbered(sentID, argID) => (Put(m, sentID, argID, linker), false)
  }

  /** `getSentencesWithArguments()`: the map is returned also when the loop
      was cut short. */
  function SentencesWithArguments(docs: seq<LinkerDoc>): Annotations {
    Collect(Outcomes(docs)).0
  }

  method GetSentencesWithArguments(docs: seq<LinkerDoc>) returns (sentWithArgs: Annotations)
    ensures sentWithArgs == SentencesWithArguments(docs)
  {
    ghost var items := Outcomes(docs);
    sentWithArgs := map[];
    var i := 0;
    while i < |docs|
      invariant 0 <= i <= |docs|
      invariant Collect(items[..i]) == (sentWithArgs, false)
    {
      PrefixSnoc(items, i);
      OutcomeAt(docs, i);
      var updated, stopped := AddDoc(sentWithArgs, docs[i]);
      if stopped {
        CollectStopPersists(items[..i + 1], items[i + 1..]);
        PrefixSuffix(items, i + 1);
        return;
      }
      sentWithArgs := updated;
      i := i + 1;
    }
    PrefixSuffix(items, i);
  }

  /** The body of the document loop; a NumberFormatException leaves the map
      as it was. */
  method AddDoc(sentWithArgs: Annotations, doc: LinkerDoc) returns (updated: Annotations, stopped: bool)
    ensures (updated, stopped) == Step(sentWithArgs, ParseId(doc.argumentID), doc.linker)
  {
    updated, stopped := sentWithArgs, false;
    var tokens := JavaSplit(doc.argumentID, '-');
    var linker := doc.linker;
    if |tokens| == 2 {
      var sentID := JavaParseInt(tokens[0]);
      if sentID.Err? {
        return updated, true;
      }
      var argID := JavaParseInt(tokens[1]);
      if argID.Err? {
        return updated, true;
      }
      if sentID.value !in updated {
        updated := updated[sentID.value := map[]];
      }
      updated := updated[sentID.value := updated[sentID.value][argID.value := linker]];
      assert updated == Put(sentWithArgs, sentID.value, argID.value, linker);
    }
  }
  // ---------------------------------------------------------------------------
  // createDataset

  /** The annotated linker, or the "-" linker. */
  function LinkerFor(m: Annotations, proposalID: int, sentenceID: int): ArgumentLinker {
    match Lookup(m, proposalID, sentenceID)
    case Some(linker) => linker
    case None => NoLinker
  }

  /** The propositions of one proposal: its sentences numbered from 1. */
  function ProposalRows(proposalID: int, sentences: seq<string>, m: Annotations): (rows: seq<Proposition>)
    ensures |rows| == |sentences|
    ensures forall i {:trigger rows[i]} :: 0 <= i < |sentences| ==>
      rows[i] == Proposition(proposalID, i + 1, sentences[i], LinkerFor(m, proposalID, i + 1))
  {
    if sentences == [] then []
    else
      var k := |sentences| - 1;
      ProposalRows(proposalID, sentences[..k], m) + [Proposition(proposalID, k + 1, sentences[k], LinkerFor(m, proposalID, k + 1))]
  }

  /** The propositions of the proposals, in their order. */
  function DatasetRows(proposals: seq<(int, string)>, m: Annotations, sentencesOf: string -> seq<string>): seq<Proposition> {
    if proposals == [] then []
    else
      var k := |proposals| - 1;
      DatasetRows(proposals[..k], m, sentencesOf) + ProposalRows(proposals[k].0, sentencesOf(proposals[k].1), m)
  }

  /** The number of sentences of all proposals. */
  function SentenceCount(proposals: seq<(int, string)>, sentencesOf: string -> seq<string>): nat {
    if proposals == [] then 0
    else SentenceCount(proposals[..|proposals| - 1], sentencesOf) + |sentencesOf(proposals[|proposals| - 1].1)|
  }

  const SaveFailed := Failure("Exception - the file could not be created.")

  /** `createDataset()`: no proposals raise NullPointerException; a file that
      cannot be written raises after the dataset was built; otherwise the
      dataset is returned once it was saved. */
  method CreateDataset(proposals: Option<seq<(int, string)>>, docs: seq<LinkerDoc>,
                       sentencesOf: string -> seq<string>, canWrite: bool)
    returns (r: Result<seq<Proposition>>, file: Option<string>)
    ensures proposals.None? ==> r == Err(NullPointer) && file == None
    ensures proposals.Some? ==>
      var rows := DatasetRows(proposals.value, SentencesWithArguments(docs), sentencesOf);
      && file == (if canWrite then Some(ExtractorIO.CsvText(rows)) else None)
      && r == (if canWrite then Ok(rows) else Err(SaveFailed))
  {
    var sentWithArgs := GetSentencesWithArguments(docs);
    if proposals.None? {
      return Err(NullPointer), None;
    }
    var entries := proposals.value;
    var dataset: seq<Proposition> := [];
    var j := 0;
    while j < |entries|
      invariant 0 <= j <= |entries|
      invariant dataset == DatasetRows(entries[..j], sentWithArgs, sentencesOf)
    {
      PrefixSnoc(entries, j);
      var proposalID := entries[j].0;
      var sentences := sentencesOf(entries[j].1);
      ghost var before := dataset;
      var i := 0;
      while i < |sentences|
        invariant 0 <= i <= |sentences|
        invariant dataset == before + ProposalRows(proposalID, sentences[..i], sentWithArgs)
      {
        PrefixSnoc(sentences, i);
        var sentenceID := i + 1;
        var linker := NoLinker;
        if proposalID in sentWithArgs {
          if sentenceID in sentWithArgs[proposalID] {
            linker := sentWithArgs[proposalID][sentenceID];
          }
        }
        SeqAssoc(before, ProposalRows(proposalID, sentences[..i], sentWithArgs),
                 [Proposition(proposalID, sentenceID, sentences[i], linker)]);
        dataset := dataset + [Proposition(proposalID, sentenceID, sentences[i], linker)];
        i := i + 1;
      }
      assert sentences[..i] == sentences;
      j := j + 1;
    }
    assert entries[..j] == entries;
    var written, saved := ExtractorIO.SaveDatasetToCsvFile(dataset, canWrite);
    if !written {
      return Err(SaveFailed), saved;
    }
    return Ok(dataset), saved;
  }

  // ---------------------------------------------------------------------------
  // Properties

  /** The index of the first malformed id, or the number of ids: where both
      datasets' document loops stop. */
  function FirstMalformed(outcomes: seq<IdOutcome>): (k: nat)
    ensures k <= |outcomes|
    ensures forall i :: 0 <= i < k ==> !outcomes[i].Malformed?
    ensures k < |outcomes| ==> outcomes[k].Malformed?
  {
    if outcomes == [] then 0
    else
      var n := |outcomes| - 1;
      var k := FirstMalformed(outcomes[..n]);
      if k < n then k else if outcomes[n].Malformed? then n else n + 1
  }

  /** The id outcomes of the documents, without their linkers. */
  function IdsOf(items: seq<(IdOutcome, ArgumentLinker)>): (ids: seq<IdOutcome>)
    ensures |ids| == |items|
    ensures forall i :: 0 <= i < |items| ==> ids[i] == items[i].0
  {
    if items == [] then [] else IdsOf(items[..|items| - 1]) + [items[|items| - 1].0]
  }

  /** The index of the first document whose id raises, or the number of them. */
  function FirstRaise(items: seq<(IdOutcome, ArgumentLinker)>): (k: nat)
    ensures k <= |items|
    ensures forall i :: 0 <= i < k ==> !items[i].0.Malformed?
    ensures k < |items| ==> items[k].0.Malformed?
  {
    FirstMalformed(IdsOf(items))
  }

  /** One more document: the first raise stays, or is that document, or
      there is still none. */
  lemma FirstRaiseSnoc(items: seq<(IdOutcome, ArgumentLinker)>)
    requires items != []
    ensures var n := |items| - 1;
      var k := FirstRaise(items[..n]);
      FirstRaise(items) == if k < n then k else if items[n].0.Malformed? then n else n + 1
  {
    var n := |items| - 1;
    assert IdsOf(items)[..n] == IdsOf(items[..n]);
  }

  /** The linker of the last outcome naming (proposalID, sentenceID). */
  function LastFor(items: seq<(IdOutcome, ArgumentLinker)>, proposalID: int, sentenceID: int): (r: Option<ArgumentLinker>)
    ensures r.Some? ==> exists i :: 0 <= i < |items| && items[i] == (Numbered(proposalID, sentenceID), r.value)
  {
    if items == [] then None
    else
      var n := |items| - 1;
      if items[n].0 == Numbered(proposalID, sentenceID) then Some(items[n].1)
      else
        var r := LastFor(items[..n], proposalID, sentenceID);
        assert r.Some? ==> exists i :: 0 <= i < n && items[..n][i] == (Numbered(proposalID, sentenceID), r.value);
        r
  }

  /** Once the loop stopped, later documents change nothing. */
  lemma {:induction false} CollectStopPersists(items: seq<(IdOutcome, ArgumentLinker)>, more: seq<(IdOutcome, ArgumentLinker)>)
    requires Collect(items).1
    ensures Collect(items + more) == Collect(items)
    decreases |more|
  {
    if more == [] {
      assert items + more == items;
    } else {
      var n := |more| - 1;
      assert (items + more)[..|items + more| - 1] == items + more[..n];
      CollectStopPersists(items, more[..n]);
    }
  }

  /** The loop stops exactly when some id raises; the map then holds, for
      each (proposal, sentence), the linker of the last document before that
      id which names them: only two-part numeric ids are used, later ones
      overwrite earlier ones, and the rest are dropped. */
  lemma {:induction false} CollectIsLast(items: seq<(IdOutcome, ArgumentLinker)>, proposalID: int, sentenceID: int)
    ensures Collect(items).1 <==> FirstRaise(items) < |items|
    ensures Lookup(Collect(items).0, proposalID, sentenceID) == LastFor(items[..FirstRaise(items)], proposalID, sentenceID)
    decreases |items|
  {
    if items == [] {
      return;
    }
    var n := |items| - 1;
    var init := items[..n];
    CollectIsLast(init, proposalID, sentenceID);
    FirstRaiseSnoc(items);
    var k := FirstRaise(init);
    if k < n {
      assert items[..k] == init[..k];
    } else if items[n].0.Malformed? {
      assert items[..n] == init;
      assert init[..k] == init;
    } else {
      assert init[..k] == init;
      assert items[..|items|] == items;
      assert items[..|items|][..n] == init;
    }
  }

  /** The annotation of a sentence is the linker of the last document before
      the first malformed id whose id is "proposal-sentence". */
  lemma AnnotationIsLast(docs: seq<LinkerDoc>, proposalID: int, sentenceID: int)
    ensures var items := Outcomes(docs);
      Lookup(SentencesWithArguments(docs), proposalID, sentenceID) == LastFor(items[..FirstRaise(items)], proposalID, sentenceID)
  {
    CollectIsLast(Outcomes(docs), proposalID, sentenceID);
  }

  /** An id "p-s" of two non-negative 32-bit numbers is used as (p, s). */
  lemma NumberedId(p: nat, s: nat)
    requires p <= MaxInt32 && s <= MaxInt32
    ensures ParseId(IntToString(p) + "-" + IntToString(s)) == Numbered(p, s)
  {
    var a, b := NatToString(p), NatToString(s);
    DigitsHaveNo(a, '-');
    DigitsHaveNo(b, '-');
    assert b != "";
    assert Join([a, b], "-") == a + "-" + b by {
      assert [a, b][1..] == [b];
    }
    JavaSplitJoin([a, b], '-');
    ParseIntRoundTrip(p);
    ParseIntRoundTrip(s);
  }

  /** A negative first number adds a '-' of its own: the id has three parts
      and is skipped. */
  lemma NegativeIdUnused(p: int, s: nat)
    requires p < 0
    ensures ParseId(IntToString(p) + "-" + IntToString(s)) == Unused
  {
    var c, b := NatToString(-p), NatToString(s);
    DigitsHaveNo(c, '-');
    DigitsHaveNo(b, '-');
    assert b != "";
    var parts := ["", c, b];
    assert Join(parts, "-") == "-" + c + "-" + b by {
      assert parts[1..] == [c, b];
      assert [c, b][1..] == [b];
      assert Join([c, b], "-") == c + "-" + b;
      assert Join(parts, "-") == "" + "-" + Join([c, b], "-");
    }
    assert IntToString(p) == "-" + c;
    JavaSplitJoin(parts, '-');
  }

  /** Every proposition is one sentence, so the dataset has as many
      propositions as the proposals have sentences. */
  lemma {:induction false} DatasetSize(proposals: seq<(int, string)>, m: Annotations, sentencesOf: string -> seq<string>)
    ensures |DatasetRows(proposals, m, sentencesOf)| == SentenceCount(proposals, sentencesOf)
    decreases |proposals|
  {
    if proposals != [] {
      DatasetSize(proposals[..|proposals| - 1], m, sentencesOf);
    }
  }

  /** The propositions of one proposal stand in the dataset after those of
      the proposals before it: sentence i of it is numbered i + 1 and carries
      the linker last annotated for it, or the "-" linker. */
  lemma DatasetSentence(proposals: seq<(int, string)>, docs: seq<LinkerDoc>, sentencesOf: string -> seq<string>,
                        j: nat, i: nat)
    requires j < |proposals| && i < |sentencesOf(proposals[j].1)|
    ensures var rows := DatasetRows(proposals, SentencesWithArguments(docs), sentencesOf);
      var (proposalID, summary) := proposals[j];
      var at := SentenceCount(proposals[..j], sentencesOf) + i;
      var items := Outcomes(docs);
      && at < |rows|
      && rows[at].proposalID == proposalID && rows[at].sentenceID == i + 1
      && rows[at].text == sentencesOf(summary)[i]
      && rows[at].linker == match LastFor(items[..FirstRaise(items)], proposalID, i + 1)
                            case Some(linker) => linker
                            case None => NoLinker
  {
    var m := SentencesWithArguments(docs);
    RowAt(proposals, m, sentencesOf, j, i);
    AnnotationIsLast(docs, proposals[j].0, i + 1);
  }

  /** Sentence i of proposal j, numbered i + 1, follows the sentences of the
      proposals before it. */
  lemma RowAt(proposals: seq<(int, string)>, m: Annotations, sentencesOf: string -> seq<string>, j: nat, i: nat)
    requires j < |proposals| && i < |sentencesOf(proposals[j].1)|
    ensures var rows := DatasetRows(proposals, m, sentencesOf);
      var at := SentenceCount(proposals[..j], sentencesOf) + i;
      at < |rows| && rows[at] == Proposition(proposals[j].0, i + 1, sentencesOf(proposals[j].1)[i], LinkerFor(m, proposals[j].0, i + 1))
  {
    DatasetPrefix(proposals, m, sentencesOf, j + 1);
    PrefixSnoc(proposals, j);
    DatasetSize(proposals[..j], m, sentencesOf);
    var before := DatasetRows(proposals[..j], m, sentencesOf);
    var own := ProposalRows(proposals[j].0, sentencesOf(proposals[j].1), m);
    assert DatasetRows(proposals[..j + 1], m, sentencesOf) == before + own;
    assert (before + own)[|before| + i] == own[i];
  }

  /** The rows of a prefix of the proposals are a prefix of the rows. */
  lemma {:induction false} DatasetPrefix(proposals: seq<(int, string)>, m: Annotations,
                                         sentencesOf: string -> seq<string>, j: nat)
    requires j <= |proposals|
    ensures var prefix := DatasetRows(proposals[..j], m, sentencesOf);
      var rows := DatasetRows(proposals, m, sentencesOf);
      |prefix| <= |rows| && rows[..|prefix|] == prefix
    decreases |proposals|
  {
    if j < |proposals| {
      var n := |proposals| - 1;
      assert proposals[..n][..j] == proposals[..j];
      DatasetPrefix(proposals[..n], m, sentencesOf, j);
    } else {
      assert proposals[..j] == proposals;
    }
  }
}
