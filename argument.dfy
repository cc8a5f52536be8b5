/** The feature extractor's `Argument`: a claim, a premise and the linker
    between them, found in one sentence. `StringUtils.isEmpty` and the
    linker's `equals` and `toString` are not part of this model and are
    parameters. */
module Arguments {
  import opened Wrappers
  import opened Text
  import opened ArgumentIds
  import opened Propositions

  datatype Argument = Argument(argumentId: ArgumentId, sentenceText: string, claim: string,
                               premise: string, linker: ArgumentLinker, isMajorClaim: bool)

  /** `completeArgument()`: a major claim is a claim without a premise in the
      proposal's own text, whose comment number is 0. */
  predicate CompleteArgument(id: ArgumentId, claim: string, premise: string, isEmpty: string -> bool) {
    id.commentId == 0 && !isEmpty(claim) && isEmpty(premise)
  }

  /** The regular constructor; the id is parsed first, so a malformed number
      raises before anything else is set. */
  function NewArgument(argId: string, sentenceText: string, claim: string, premise: string,
                       linker: ArgumentLinker, isEmpty: string -> bool): (r: Result<Argument>)
    ensures r.Ok? <==> Parse(argId).Ok?
    ensures r.Ok? ==> (r.value.claim == claim && r.value.premise == premise
      && r.value.sentenceText == sentenceText && r.value.linker == linker)
    ensures r.Ok? ==> (r.value.isMajorClaim <==>
      r.value.argumentId.commentId == 0 && !isEmpty(claim) && isEmpty(premise))
  {
    match Parse(argId)
    case Err(e) => Err(e)
    case Ok(id) => Ok(Argument(id, sentenceText, claim, premise, linker, CompleteArgument(id, claim, premise, isEmpty)))
  }

  /** `equals(arg)`: the same claim, premise and linker; the id and the
      sentence text play no part. */
  predicate Equals(a: Argument, b: Argument, linkerEquals: (ArgumentLinker, ArgumentLinker) -> bool) {
    a.claim == b.claim && a.premise == b.premise && linkerEquals(a.linker, b.linker)
  }

  /** `getId()`. */
  function GetId(a: Argument): string {
    a.argumentId.argumentId
  }

  /** `getProposalId()`. */
  function GetProposalId(a: Argument): int {
    a.argumentId.proposalId
  }

  /** `toString()`: "[id] - claim > premise [lnk: linker]". */
  function ToString(a: Argument, linkerText: ArgumentLinker -> string): (s: string)
    ensures StartsWith(s, "[" + GetId(a) + "] - ")
    ensures |s| == |GetId(a)| + |a.claim| + |a.premise| + |linkerText(a.linker)| + 16
    ensures s[|s| - 1] == ']'
  {
    var head := "[" + GetId(a) + "] - ";
    var s := head + a.claim + " > " + a.premise + " [lnk: " + linkerText(a.linker) + "]";
    assert s[..|head|] == head;
    s
  }

  // ---------------------------------------------------------------------------
  // Properties

  /** The rendering holds the id, the claim, the premise and the linker's
      text at fixed offsets between the format's literal pieces, so each of
      them can be cut back out of it. */
  lemma ToStringLayout(a: Argument, linkerText: ArgumentLinker -> string)
    ensures var s := ToString(a, linkerText);
      var h := |GetId(a)| + 5;
      var c := h + |a.claim|;
      var p := c + 3 + |a.premise|;
      var l := p + 7 + |linkerText(a.linker)|;
      && |s| == l + 1
      && s[..1] == "[" && s[1..h - 4] == GetId(a) && s[h - 4..h] == "] - "
      && s[h..c] == a.claim && s[c..c + 3] == " > " && s[c + 3..p] == a.premise
      && s[p..p + 7] == " [lnk: " && s[p + 7..l] == linkerText(a.linker) && s[l..] == "]"
  {
  }

  /** An argument keeps the id string it was built from, and its proposal
      number is the id's. */
  lemma GetIdOfNew(argId: string, sentenceText: string, claim: string, premise: string,
                   linker: ArgumentLinker, isEmpty: string -> bool)
    requires NewArgument(argId, sentenceText, claim, premise, linker, isEmpty).Ok?
    ensures var a := NewArgument(argId, sentenceText, claim, premise, linker, isEmpty).value;
      GetId(a) == argId && GetProposalId(a) == Parse(argId).value.proposalId
  {
  }

  /** An id without three parts (comment number -1) is never a major claim,
      whatever the claim and the premise are. */
  lemma MalformedNeverMajorClaim(argId: string, sentenceText: string, claim: string, premise: string,
                                 linker: ArgumentLinker, isEmpty: string -> bool)
    requires |JavaSplit(argId, '-')| != 3
    ensures NewArgument(argId, sentenceText, claim, premise, linker, isEmpty).Ok?
    ensures !NewArgument(argId, sentenceText, claim, premise, linker, isEmpty).value.isMajorClaim
    ensures GetProposalId(NewArgument(argId, sentenceText, claim, premise, linker, isEmpty).value) == -1
  {
  }

  /** For an id "p-c-s" of non-negative numbers, the argument is a major
      claim exactly when c is 0, the claim is not empty and the premise is. */
  lemma FormattedMajorClaim(p: nat, c: nat, q: nat, sentenceText: string, claim: string, premise: string,
                            linker: ArgumentLinker, isEmpty: string -> bool)
    requires p <= MaxInt32 && c <= MaxInt32 && q <= MaxInt32
    ensures NewArgument(Format(p, c, q), sentenceText, claim, premise, linker, isEmpty).Ok?
    ensures var a := NewArgument(Format(p, c, q), sentenceText, claim, premise, linker, isEmpty).value;
      GetProposalId(a) == p && (a.isMajorClaim <==> c == 0 && !isEmpty(claim) && isEmpty(premise))
  {
    ParseFormat(p, c, q);
  }

  /** `equals` does not look at the id or the sentence text. */
  lemma EqualsIgnoresIdAndText(a: Argument, b: Argument, id: ArgumentId, text: string,
                               linkerEquals: (ArgumentLinker, ArgumentLinker) -> bool)
    ensures Equals(a.(argumentId := id, sentenceText := text), b, linkerEquals) == Equals(a, b, linkerEquals)
    ensures Equals(a, b.(argumentId := id, sentenceText := text), linkerEquals) == Equals(a, b, linkerEquals)
  {
  }

  /** Two arguments with different claims or premises are never equal. */
  lemma EqualsNeedsSameText(a: Argument, b: Argument, linkerEquals: (ArgumentLinker, ArgumentLinker) -> bool)
    requires a.claim != b.claim || a.premise != b.premise
    ensures !Equals(a, b, linkerEquals)
  {
  }
}
