/** The entry module of the argument classifier: its dataset builder is a
    stub. (Its label reader is `LabelFiles.ReadLabelFile` with
    `ThirdFromLast`.) */
module ClassifierMain {
  import opened PyDicts
  import opened FeatureBags

  /** Python `create_dataset(features, labels)`: ignores both inputs and
      returns an empty list. */
  function CreateDataset(features: Dict<string, FeatureRecord>, labels: Dict<string, map<string, string>>): (r: seq<seq<string>>)
    ensures r == []
  {
    []
  }
}
