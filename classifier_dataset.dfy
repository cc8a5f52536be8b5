/** The argument classifier's `Dataset`: the argument numbers of each
    annotated sentence. The database is not part of this model: the
    "argumentID" of each document is a parameter. The ids are parsed as the
    feature extractor's `Dataset` parses them. */
module ClassifierDataset {
  import opened Text
  import opened ExtractorDataset

  /** sentence id -> its argument numbers, in document order. */
  type Arguments = map<int, seq<int>>

  /** The argument numbers of a sentence, none when it has no entry. */
  function ArgsOf(m: Arguments, sentID: int): seq<int> {
    if sentID in m then m[sentID] else []
  }

  /** `sentWithArgs.get(sentID).add(argID)`, creating the list when it is
      missing; a repeated pair is added again. */
  function Add(m: Arguments, sentID: int, argID: int): (r: Arguments)
    ensures forall s :: ArgsOf(r, s) == if s == sentID then ArgsOf(m, s) + [argID] else ArgsOf(m, s)
    ensures forall s :: s in r <==> s in m || s == sentID
  {
    m[sentID := ArgsOf(m, sentID) + [argID]]
  }

  function IdOutcomes(ids: seq<string>): (outcomes: seq<IdOutcome>)
    ensures |outcomes| == |ids|
  {
    if ids == [] then [] else IdOutcomes(ids[..|ids| - 1]) + [ParseId(ids[|ids| - 1])]
  }

  lemma {:induction false} IdOutcomeAt(ids: seq<string>, i: nat)
    requires i < |ids|
    ensures IdOutcomes(ids)[i] == ParseId(ids[i])
    decreases |ids|
  {
    if i < |ids| - 1 {
      IdOutcomeAt(ids[..|ids| - 1], i);
    }
  }

  /** One document: the map after it, and whether it raised. */
  function Step(m: Arguments, outcome: IdOutcome): (Arguments, bool) {
    match outcome
    case Unused => (m, false)
    case Malformed => (m, true)
    case Numbered(sentID, argID) => (Add(m, sentID, argID), false)
  }

  /** The document loop: the map so far, and whether a NumberFormatException
      ended it. */
  function Collect(outcomes: seq<IdOutcome>): (Arguments, bool) {
    if outcomes == [] then (map[], false)
    else
      var (m, stopped) := Collect(outcomes[..|outcomes| - 1]);
      if stopped then (m, true) else Step(m, outcomes[|outcomes| - 1])
  }

  /** `getSentencesWithArguments()`: the map is returned also when the loop
      was cut short. */
  function SentencesWithArguments(ids: seq<string>): Arguments {
    Collect(IdOutcomes(ids)).0
  }

  method GetSentencesWithArguments(ids: seq<string>) returns (sentWithArgs: Arguments)
    ensures sentWithArgs == SentencesWithArguments(ids)
  {
    ghost var outcomes := IdOutcomes(ids);
    sentWithArgs := map[];
    var i := 0;
    while i < |ids|
      invariant 0 <= i <= |ids|
      invariant Collect(outcomes[..i]) == (sentWithArgs, false)
    {
      PrefixSnoc(outcomes, i);
      IdOutcomeAt(ids, i);
      var updated, stopped := AddId(sentWithArgs, ids[i]);
      if stopped {
        CollectStopPersists(outcomes[..i + 1], outcomes[i + 1..]);
        PrefixSuffix(outcomes, i + 1);
        return;
      }
      sentWithArgs := updated;
      i := i + 1;
    }
    PrefixSuffix(outcomes, i);
  }

  /** The body of the document loop. */
  method AddId(sentWithArgs: Arguments, argumentID: string) returns (updated: Arguments, stopped: bool)
    ensures (updated, stopped) == Step(sentWithArgs, ParseId(argumentID))
  {
    updated, stopped := sentWithArgs, false;
    var tokens := JavaSplit(argumentID, '-');
    if |tokens| == 2 {
      var sentID := JavaParseInt(tokens[0]);
      if sentID.Err? {
        return updated, true;
      }
      var argID := JavaParseInt(tokens[1]);
      if argID.Err? {
        return updated, true;
      }
      if sentID.value !in updated {
        updated := updated[sentID.value := []];
      }
      updated := updated[sentID.value := updated[sentID.value] + [argID.value]];
      assert updated == Add(sentWithArgs, sentID.value, argID.value);
    }
  }

  /** `createDataset()`: the map is computed (and printed when verbose) and
      the result is always false. */
  method CreateDataset(ids: seq<string>) returns (result: bool)
    ensures !result
  {
    result := false;
    var sentWithArgs := GetSentencesWithArguments(ids);
  }

  // ---------------------------------------------------------------------------
  // Properties

  /** The argument numbers of the ids naming `sentID`, in order, repeats
      included. */
  function ArgsFor(outcomes: seq<IdOutcome>, sentID: int): seq<int> {
    if outcomes == [] then []
    else
      var n := |outcomes| - 1;
      ArgsFor(outcomes[..n], sentID)
        + match outcomes[n] case Numbered(s, a) => (if s == sentID then [a] else []) case _ => []
  }

  lemma {:induction false} CollectStopPersists(outcomes: seq<IdOutcome>, more: seq<IdOutcome>)
    requires Collect(outcomes).1
    ensures Collect(outcomes + more) == Collect(outcomes)
    decreases |more|
  {
    if more == [] {
      assert outcomes + more == outcomes;
    } else {
      var n := |more| - 1;
      assert (outcomes + more)[..|outcomes + more| - 1] == outcomes + more[..n];
      CollectStopPersists(outcomes, more[..n]);
    }
  }

  /** The loop stops exactly at the first malformed id; before it, every
      two-part numeric id "s-a" appends a to the list of s, in document order
      and with repeats, and a sentence has an entry exactly when such an id
      names it. */
  lemma {:induction false} CollectArgs(outcomes: seq<IdOutcome>, sentID: int)
    ensures Collect(outcomes).1 <==> FirstMalformed(outcomes) < |outcomes|
    ensures ArgsOf(Collect(outcomes).0, sentID) == ArgsFor(outcomes[..FirstMalformed(outcomes)], sentID)
    ensures sentID in Collect(outcomes).0 <==> ArgsFor(outcomes[..FirstMalformed(outcomes)], sentID) != []
    decreases |outcomes|
  {
    if outcomes == [] {
      return;
    }
    var n := |outcomes| - 1;
    var init := outcomes[..n];
    CollectArgs(init, sentID);
    var c := Collect(init);
    assert Collect(outcomes) == if c.1 then (c.0, true) else Step(c.0, outcomes[n]);
    var k := FirstMalformed(init);
    if k < n {
      assert outcomes[..k] == init[..k];
    } else if outcomes[n].Malformed? {
      assert outcomes[..n] == init;
      assert init[..k] == init;
    } else {
      assert init[..k] == init;
      assert outcomes[..|outcomes|] == outcomes;
      assert outcomes[..|outcomes|][..n] == init;
    }
  }

  /** The same, stated on the ids. */
  lemma SentenceArguments(ids: seq<string>, sentID: int)
    ensures var outcomes := IdOutcomes(ids);
      ArgsOf(SentencesWithArguments(ids), sentID) == ArgsFor(outcomes[..FirstMalformed(outcomes)], sentID)
  {
    CollectArgs(IdOutcomes(ids), sentID);
  }
}
