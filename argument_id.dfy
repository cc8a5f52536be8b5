/** The feature extractor's `ArgumentId`: an argument id of the form
    "proposal-comment-sequence" and its three numbers. */
module ArgumentIds {
  import opened Wrappers
  import opened Text

  /** The id string and its three numbers; the getters are these fields. */
  datatype ArgumentId = ArgumentId(argumentId: string, proposalId: int, commentId: int, sequenceNumber: int)

  /** The id of a string that does not have three '-'-separated parts. */
  function Unparsed(argId: string): ArgumentId {
    ArgumentId(argId, -1, -1, -1)
  }

  /** `new ArgumentId(argId)`: three parts are parsed in order with
      `Integer.parseInt`, the first that is not a number raising
      NumberFormatException; any other part count gives -1 for all three. */
  function Parse(argId: string): (r: Result<ArgumentId>)
    ensures r.Ok? ==> r.value.argumentId == argId
    ensures |JavaSplit(argId, '-')| != 3 ==> r == Ok(Unparsed(argId))
    ensures |JavaSplit(argId, '-')| == 3 ==>
      (r.Ok? <==> forall i :: 0 <= i < 3 ==> JavaParseInt(JavaSplit(argId, '-')[i]).Ok?)
    ensures r.Err? ==> r.error.NumberFormat?
  {
    var tokens := JavaSplit(argId, '-');
    if |tokens| == 3 then
      var proposalId := JavaParseInt(tokens[0]);
      var commentId := JavaParseInt(tokens[1]);
      var sequenceNumber := JavaParseInt(tokens[2]);
      if proposalId.Err? then Err(proposalId.error)
      else if commentId.Err? then Err(commentId.error)
      else if sequenceNumber.Err? then Err(sequenceNumber.error)
      else Ok(ArgumentId(argId, proposalId.value, commentId.value, sequenceNumber.value))
    else Ok(Unparsed(argId))
  }

  /** The id string of three non-negative numbers. */
  function Format(proposalId: nat, commentId: nat, sequenceNumber: nat): string {
    IntToString(proposalId) + "-" + IntToString(commentId) + "-" + IntToString(sequenceNumber)
  }

  /** A non-negative number is rendered without '-'. */
  lemma NoDash(n: nat)
    ensures '-' !in IntToString(n) && IntToString(n) != ""
  {
    DigitsHaveNo(NatToString(n), '-');
  }

  /** Parsing "a-b-c" for non-negative 32-bit a, b and c gives a, b and c. */
  lemma ParseFormat(proposalId: nat, commentId: nat, sequenceNumber: nat)
    requires proposalId <= MaxInt32 && commentId <= MaxInt32 && sequenceNumber <= MaxInt32
    ensures Parse(Format(proposalId, commentId, sequenceNumber))
      == Ok(ArgumentId(Format(proposalId, commentId, sequenceNumber), proposalId, commentId, sequenceNumber))
  {
    var a, b, c := IntToString(proposalId), IntToString(commentId), IntToString(sequenceNumber);
    NoDash(proposalId);
    NoDash(commentId);
    NoDash(sequenceNumber);
    var parts := [a, b, c];
    assert Join(parts, "-") == a + "-" + b + "-" + c by {
      assert parts[1..] == [b, c];
      assert Join([b, c], "-") == b + "-" + c;
    }
    JavaSplitJoin(parts, '-');
    ParseIntRoundTrip(proposalId);
    ParseIntRoundTrip(commentId);
    ParseIntRoundTrip(sequenceNumber);
  }

  /** A negative comment number adds a '-' of its own, so the id has four
      parts and gives -1 for every number instead of the parsed values. */
  lemma NegativeCommentUnparsed(proposalId: nat, commentId: int, sequenceNumber: nat)
    requires commentId < 0
    ensures var s := IntToString(proposalId) + "-" + IntToString(commentId) + "-" + IntToString(sequenceNumber);
      Parse(s) == Ok(Unparsed(s))
  {
    var a, b, c := IntToString(proposalId), NatToString(-commentId), IntToString(sequenceNumber);
    NoDash(proposalId);
    NoDash(-commentId);
    NoDash(sequenceNumber);
    var parts := [a, "", b, c];
    assert Join(parts, "-") == a + "-" + "" + "-" + b + "-" + c by {
      assert parts[1..] == ["", b, c];
      assert parts[1..][1..] == [b, c];
      assert Join([b, c], "-") == b + "-" + c;
    }
    assert IntToString(commentId) == "-" + b;
    assert a + "-" + "" + "-" + b + "-" + c == a + "-" + IntToString(commentId) + "-" + c;
    JavaSplitJoin(parts, '-');
  }
}
