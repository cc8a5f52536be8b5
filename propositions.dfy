/** The records the feature extractor's dataset code passes around. */
module Propositions {
  /** An `ArgumentLinker` as the readers build it,
      `new ArgumentLinker(category, subCategory, relationType, linker)`. */
  datatype ArgumentLinker = ArgumentLinker(category: string, subCategory: string, relationType: string, linker: string)

  /** A `Proposition`: one sentence of a proposal and its linker. */
  datatype Proposition = Proposition(proposalID: int, sentenceID: int, text: string, linker: ArgumentLinker)
}
