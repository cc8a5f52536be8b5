# Argument mining pipeline: a Dafny model of its core

The system mines arguments (claims, premises and the linkers between them)
from citizen proposals and comments. Its core, modelled here, is:

- **DataProcessor** (Python): `pre_process_dataset`, which splits each
  annotated proposal or comment (its `text`, `tokens` and `spans`) into
  sentences and emits one `[record_id, sent_text, label]` row per label of
  each sentence; `post_process_dataset` is an empty stub. It also holds the
  category codec, which maps labels to numbers.
- **ArgumentClassifier** (Python): the label-file readers, the feature bags
  the classifier learns from, the label dictionaries and feature names of
  `ml/utility.py` (including the inverse codec, from numbers back to labels)
  and the guard that picks the one-hot keyword features. It also has a Java
  part: the dataset reader, the sentence/argument merge and the token-level
  text feature.
- **FeatureExtractor** (Java):
  - the `ArgumentEngine` phrase tree and its walk;
  - argument ids of the form "proposal-comment-sequence" and the `Argument` record;
  - the three token-level feature extractors, with their n-grams, linker
    counts and parse-tree depth;
  - `FeatureUtils` and `FunctionUtils`;
  - the dataset CSV writer and reader, the linker taxonomy filter, the JSON
    feature dump, and the dataset builder that pairs sentences with the
    annotated arguments.

Each source file becomes one Dafny module. Pure code becomes datatypes,
functions and lemmas. A Java class whose methods update its fields becomes a
Dafny `class` with the same fields. Each step method of such a class is proved
against a specification function: its `ensures` clauses have the new fields
equal that function of the old fields. Python exceptions and Java exceptions
are the `Err` side of a `Result`. Files, databases, the CoreNLP pipeline and
the scikit-learn / pandas calls are not modelled. They enter as parameters:
file content as a string, or as an `Option` when the file may be missing. An
NLP analysis is a record of tokens, entities and a phrase tree. A string
oracle is a record of functions.

Behaviour of the code a reader might not expect:

- `getTextField` puts a comma before a piece only when the text gathered so
  far is non-empty, so the leading empty pieces of a text that held commas
  are dropped (code/FeatureExtractor/src/es/uam/irg/io/IOManager.java:261-273).
- The extractor's `getSentencesWithArguments` names the two parts of an
  argument id `sentID` and `argID`, but `createDataset` looks them up as a
  proposal id and a sentence number
  (code/FeatureExtractor/src/es/uam/irg/io/Dataset.java:146-156 and 76-79).
- `new ArgumentId(...)` on an id with a negative number (for example
  "1--2-3") sees four parts, so it keeps the id and sets all three numbers to
  -1 (code/FeatureExtractor/src/es/uam/irg/nlp/am/arguments/ArgumentId.java:34-43).
- The dataset builder uses only two-part ids "p-s". A negative p (for example
  "-1-2") makes three parts, and that document is skipped
  (code/FeatureExtractor/src/es/uam/irg/io/Dataset.java:146-149).
- `read_labels_file` in `main.py` takes the linker, the category and the
  sub-category all from the same column, `data[n-3]`
  (code/ArgumentClassifier/src/main.py:42-44).

## Model

| member | source | states |
|---|---|---|
| CategoryCodec.ConvertCategToNum | code/DataProcessor/src/util/ml.py:27-35 | the dict lists the distinct lower-cased values in first-seen order, and each is mapped to its position (0..k-1) |
| CategoryCodec.AddCategory | code/DataProcessor/src/util/ml.py:31-33 | an unseen lower-cased value is appended with code `len(label_dict)`; a value already present leaves the dict as it was |
| CategoryCodec.CodecDict | code/DataProcessor/src/util/ml.py:27-35 | the codec as a value: a well-formed dict whose keys are the categories, each key mapped to its position, so no two keys share a code |
| CategoryCodec.CodecDictUnique | code/DataProcessor/src/util/ml.py:27-35 | any dict that lists the categories in order and maps each to its position is the codec's dict |
| CategoryCodec.DictSize | code/DataProcessor/src/util/ml.py:32-33 | the dict has as many entries as keys, which is what makes the numbering by `len(label_dict)` dense |
| CategoryCodec.CategoriesWellFormed | code/DataProcessor/src/util/ml.py:31-33 | every key is lower-case and no key is listed twice |
| CategoryCodec.CategoriesValues | code/DataProcessor/src/util/ml.py:30-33 | the keys are exactly the lower-cased input values |
| CategoryCodec.CategoriesCover | code/DataProcessor/src/util/ml.py:27-35 | every lower-cased input value has a code, and the number of codes equals the number of distinct lower-cased values |
| CategoryCodec.CategoriesFirstSeen | code/DataProcessor/src/util/ml.py:30-33 | a value first seen at position j gets a larger code than every value seen before j |
| CategoryCodec.CategoriesPrefix | code/DataProcessor/src/util/ml.py:30-33 | the keys after a prefix of the list are a prefix of the final keys: codes once given never change |
| CategoryCodec.CategoriesSnoc | code/DataProcessor/src/util/ml.py:31-33 | one more value adds its lower-cased form at the end exactly when it is new |
| CategoryCodec.SameCodeIffSameLowered | code/DataProcessor/src/util/ml.py:31 | two values get the same code if and only if they are equal after lower-casing (so the code map is injective on keys) |
| CategoryCodec.CodecIdempotent | code/DataProcessor/src/util/ml.py:27-35 | running the codec again on its own keys in insertion order gives the same keys, hence the same dict |
| CategoryCodec.CategoriesOfDistinctLower | code/DataProcessor/src/util/ml.py:30-33 | a list of distinct lower-case values is numbered in its own order |
| CategoryCodec.ConvertDictDictToList | code/DataProcessor/src/util/ml.py:17-24 | one value per outer entry, in the outer dict's order, the inner value for the key or "" when it is missing |
| MlUtility.BinaryCodes | code/ArgumentClassifier/src/ml/utility.py:32 | one code per label, in order: 0 exactly for "-", 1 for anything else |
| MlUtility.LookupAll | code/ArgumentClassifier/src/ml/utility.py:36 | succeeds exactly when every item has an entry, then gives each item's code in order; otherwise raises KeyError naming an item without an entry |
| MlUtility.InvertPairs | code/ArgumentClassifier/src/ml/utility.py:37 | the inverted dict is well formed (its keys are listed once) |
| MlUtility.BinaryDict | code/ArgumentClassifier/src/ml/utility.py:31 | the identification dict {0: "no", 1: "yes"} is a well-formed dict |
| MlUtility.GetLabelDict | code/ArgumentClassifier/src/ml/utility.py:25-39 | identification: the dict is {0: "no", 1: "yes"}, one code per label, 0 exactly for "-", every code a key of the dict; any other task type besides classification: an empty dict and the labels unchanged |
| MlUtility.InCodecIffLowerCase | code/ArgumentClassifier/src/ml/utility.py:35-36 | a raw label has a codec entry exactly when it is already lower-case |
| MlUtility.ClassificationKeyError | code/ArgumentClassifier/src/ml/utility.py:34-36 | the classification branch raises KeyError exactly when some label is not already lower-case, and then it names such a label |
| MlUtility.Range | code/ArgumentClassifier/src/ml/utility.py:37 | the codes 0..n-1 in order |
| MlUtility.InvertCodecKeys | code/ArgumentClassifier/src/ml/utility.py:37 | inverting the codec dict lists the codes 0..k-1 in order |
| MlUtility.InvertCodecValues | code/ArgumentClassifier/src/ml/utility.py:37 | inverting the codec dict maps each code back to its category |
| MlUtility.InvertStep | code/ArgumentClassifier/src/ml/utility.py:37 | adding the next category to an inverse over codes below it lists codes 0..n-1 and maps the new code to it |
| MlUtility.ClassificationUnfold | code/ArgumentClassifier/src/ml/utility.py:34-37 | with lower-case labels every label has an entry and the branch returns the inverted codec with the looked-up codes |
| MlUtility.ClassificationDict | code/ArgumentClassifier/src/ml/utility.py:34-37 | with lower-case labels the returned dict lists codes 0..k-1 and maps each code to the category that has it |
| MlUtility.ClassificationRoundTrip | code/ArgumentClassifier/src/ml/utility.py:34-37 | with lower-case labels, label i gets its first-seen code, and the returned dict maps that code back to the label |
| MlUtility.FeatureName | code/ArgumentClassifier/src/ml/utility.py:47 | the name starts with prefix + "_", has no space after it, and is as long as prefix, "_" and the value |
| MlUtility.ValueToFeatures | code/ArgumentClassifier/src/ml/utility.py:42-53 | a non-empty list gives one name per value in order; an empty list gives exactly [prefix + "_none"]; the length is max(1, number of values) |
| MlUtility.SentinelCollision | code/ArgumentClassifier/src/ml/utility.py:47-50 | the value "none" (in any case) gives the same name as the empty-list sentinel |
| LabelFiles.ParseLine | code/ArgumentClassifier/src/ml/engine.py:70-78 | a line without a comma raises IndexError; otherwise the key is field 0 + "-" + field 1 and the record has exactly the keys linker, category and sub_category (all three the third-from-last field in the entry module, main.py:41-45) |
| LabelFiles.ParseLineFailsIffNoComma | code/ArgumentClassifier/src/ml/engine.py:70-74 | a line parses exactly when it holds a comma |
| LabelFiles.ParseLineFields | code/ArgumentClassifier/src/ml/engine.py:70-78 | for a six-field row whose text has any number of commas, the key is the two ids joined by "-" and the record is the last three fields (the third from last for all three in the entry module) |
| LabelFiles.SplitLine | code/ArgumentClassifier/src/ml/engine.py:70 | a row split on "," gives the two ids, the pieces of the text and the three linker fields |
| LabelFiles.ParseLines | code/ArgumentClassifier/src/ml/engine.py:68-78 | the dict built line by line is well formed; a repeated key keeps its first position and takes the later record |
| LabelFiles.ParseLinesStep | code/ArgumentClassifier/src/ml/engine.py:69-78 | a read succeeds exactly when its earlier lines and its last line parse |
| LabelFiles.ReadLabelFile | code/ArgumentClassifier/src/ml/engine.py:62-80 | fewer than two lines give an empty dict; otherwise the header line is skipped and the result is the dict of the remaining lines (also ml_engine.py:38-56 and main.py:28-47) |
| LabelFiles.ReadDataLines | code/ArgumentClassifier/src/ml/engine.py:69-78 | the loop over the data lines stops at the first line that raises, with its error, and otherwise ends with the dict that the lines build in order |
| LabelFiles.ParseLinesAt | code/ArgumentClassifier/src/ml/engine.py:69-78 | one more line adds its error, or puts its record into the dict so far |
| LabelFiles.ParseLinesErrSticks | code/ArgumentClassifier/src/ml/engine.py:69-78 | once a line raises, the read fails with that error |
| LabelFiles.ParseLinesEachLine | code/ArgumentClassifier/src/ml/engine.py:69-78 | a successful read parsed every line |
| LabelFiles.ParseLinesPrefixOk | code/ArgumentClassifier/src/ml/engine.py:69-78 | every prefix of a successful read succeeds |
| LabelFiles.LastLineWins | code/ArgumentClassifier/src/ml/engine.py:78 | the last line with a given key decides that key's record |
| MlScript.FieldValues | code/DataProcessor/src/util/ml.py:17-24 | the requested field of every label record in dict order, "" where a record lacks it |
| MlScript.GetLabelDict | code/ArgumentClassifier/src/ml_engine.py:59-61 | the codec of the requested field over all label records |
| MlScript.LabelDictCoversAllRows | code/ArgumentClassifier/src/ml_engine.py:59-61 | every label record's lower-cased field has a code, whether or not a feature record carries its id |
| MlScript.RowLabelInFieldValues | code/ArgumentClassifier/src/ml_engine.py:60 | a labelled row's raw label is among the values the codec is built from |
| MlScript.SplitLabelsNeedLowerCase | code/ArgumentClassifier/src/ml_engine.py:144 | mapping the dataset's raw labels through the codec succeeds exactly when every labelled row's raw label is already lower-case |
| MlScript.RowLabelsInCodec | code/ArgumentClassifier/src/ml_engine.py:144 | each row's raw label is a codec key exactly when it is lower-case |
| ClassifierMain.CreateDataset | code/ArgumentClassifier/src/main.py:50-53 | ignores its inputs and always returns an empty list |
| FeatureBags.BagMembership | code/ArgumentClassifier/src/ml/engine.py:102-112 | a bag holds exactly the tokens of the groups that are switched on and non-empty, in the loop's group order |
| FeatureBags.BagSize | code/ArgumentClassifier/src/ml/engine.py:102-112 | the bag's length is the total size of the enabled groups |
| FeatureBags.LowerAll | code/ArgumentClassifier/src/ml/engine.py:115-116 | every token lower-cased, in order |
| FeatureBags.KeywordFeature | code/ArgumentClassifier/src/ml/engine.py:119-123 | "kw_none" with no keywords, else "kw_" and the first keyword with spaces replaced by "_", case kept |
| FeatureBags.LabelledKeys | code/ArgumentClassifier/src/ml/engine.py:96-99 | the feature ids that have a label, in feature order |
| FeatureBags.RowsOfSnoc | code/ArgumentClassifier/src/ml/engine.py:96-134 | one more feature id extends the rows by that record's turn |
| FeatureBags.CreateDataset | code/ArgumentClassifier/src/ml/engine.py:83-134 | the lists the loop accumulates before vectorisation, for the engine class and for the script (ml_engine.py:64-103) |
| FeatureBags.AddRow | code/ArgumentClassifier/src/ml/engine.py:97-134 | an unlabelled record is skipped; a labelled one appends its bag, keyword, stats and label; a label without the field raises KeyError |
| FeatureBags.RowsOfErrSticks | code/ArgumentClassifier/src/ml/engine.py:96-134 | once a record raises, the assembly fails with that error |
| FeatureBags.RowsOfFails | code/ArgumentClassifier/src/ml/engine.py:132 | the assembly fails exactly when some labelled record's label lacks the requested field, and then with KeyError on that field |
| FeatureBags.RowsOfContent | code/ArgumentClassifier/src/ml/engine.py:96-134 | one row per labelled record in feature order: row j is that record's bag and raw label; keyword and stats entries exist for every row exactly when switched on |
| FeatureBags.RowsOfLengths | code/ArgumentClassifier/src/ml/engine.py:117-132 | corpus and labels have one entry per labelled record; keywords and stats have one per record when switched on, none otherwise |
| FeatureBags.RowsOfBags | code/ArgumentClassifier/src/ml/engine.py:102-117 | row j of the corpus is the j-th labelled record's bag, and label j its raw label |
| FeatureBags.RowsOfExtras | code/ArgumentClassifier/src/ml/engine.py:119-130 | keyword entry j is the j-th labelled record's keyword feature and stats entry j its statistics |
| MlEngine.OneHotGuardAsWritten | code/ArgumentClassifier/src/ml/engine.py:145 | the guard as written, a non-empty list literal, is always true |
| MlEngine.OneHotGuard | code/ArgumentClassifier/src/ml/engine.py:119 | the intended guard holds exactly when keywords are switched on |
| MlEngine.OneHotGuardAsWrittenMisaligned | code/ArgumentClassifier/src/ml/engine.py:145-150 | with keywords off and a labelled record, the guard still encodes an empty keyword list beside a bag frame with rows |
| MlEngine.OneHotGuardAligned | code/ArgumentClassifier/src/ml/engine.py:119-150 | with the intended guard, the keyword list is encoded exactly when it has one entry per row |
| DataProcess.DotTokens | code/DataProcessor/src/data_process.py:38 | exactly the tokens whose text is ".", in document order |
| DataProcess.DotMarks | code/DataProcessor/src/data_process.py:38-40 | never empty: the "." tokens when there are some, else one synthetic mark ending at the end of the text |
| DataProcess.SpanLabelsSound | code/DataProcessor/src/data_process.py:55-59 | a sentence's labels are listed once each, never "LINKER", and are exactly the labels of the non-linker spans inside the sentence |
| DataProcess.SentenceLabelsSpam | code/DataProcessor/src/data_process.py:53-62 | a valid sentence always has a label, and has exactly ["SPAM"] when no non-linker span lies inside it |
| DataProcess.AnnotateSentence | code/DataProcessor/src/data_process.py:53-62 | the span loop yields the sentence's labels as specified |
| DataProcess.SegmentNumbering | code/DataProcessor/src/data_process.py:43-73 | sentence numbers run 0, 1, 2, ... over valid sentences only, each sentence is a stripped slice of at least 3 characters, and the next start is the last mark's end plus one |
| DataProcess.SegmentPrefix | code/DataProcessor/src/data_process.py:46-73 | the sentences of a prefix of the marks are a prefix of the sentences |
| DataProcess.StepExtends | code/DataProcessor/src/data_process.py:46-73 | a turn keeps the sentences found so far |
| DataProcess.RecordIdParts | code/DataProcessor/src/data_process.py:66 | a record id splits on "-" back into proposal id, comment id, sentence number and label number when the ids hold no "-" |
| DataProcess.EmitLabels | code/DataProcessor/src/data_process.py:65-67 | one record per label, in label order, numbered 0.. and carrying the sentence text |
| DataProcess.ProcessErrSticks | code/DataProcessor/src/data_process.py:26-73 | once a row raises, the run fails with that error |
| DataProcess.EmitRecords | code/DataProcessor/src/data_process.py:65-67 | the label loop emits the records just described |
| DataProcess.AnnotateRow | code/DataProcessor/src/data_process.py:43-73 | the dot loop emits the records of the row's valid sentences, or raises when proposal_id is unbound |
| DataProcess.SentenceTurn | code/DataProcessor/src/data_process.py:47-73 | a turn adds the stripped sentence with its number exactly when it is long enough, and keeps the sentences otherwise |
| DataProcess.SegmentSnoc | code/DataProcessor/src/data_process.py:46-73 | one more mark is one more turn |
| DataProcess.EmitSentencesSnoc | code/DataProcessor/src/data_process.py:65-67 | one more sentence appends its records |
| DataProcess.ProcessSnoc | code/DataProcessor/src/data_process.py:26-73 | one more row is one more turn of the row loop |
| DataProcess.PreProcessDataset | code/DataProcessor/src/data_process.py:14-77 | the rows of the sent_id/sent_text/sent_label frame, or the error the run raises |
| DataProcess.ProcessRow | code/DataProcessor/src/data_process.py:28-73 | a row's ids are taken (proposal_id first, else comment_id), then its records appended |
| DataProcess.RowStepFailure | code/DataProcessor/src/data_process.py:29-32 | a row fails only by reading an unbound proposal_id, and never once one is bound |
| DataProcess.ProcessFailure | code/DataProcessor/src/data_process.py:24-66 | a run fails only by the unbound proposal_id, and never when the first row supplies one |
| DataProcess.CommentIdCarriesOver | code/DataProcessor/src/data_process.py:24-32 | comment_id starts as "0" and stays "0" unless a row supplies it without a proposal id |
| DataProcess.PostProcessDataset | code/DataProcessor/src/data_process.py:80-84 | always the empty list |
| FeatureUtils.GetNGramWindow | code/FeatureExtractor/src/es/uam/irg/utils/FeatureUtils.java:79-93 | "" for no tokens or a window outside the array (the caught exception); otherwise the window's tokens joined by "-" and lower-cased |
| FeatureUtils.FirstMatch | code/FeatureExtractor/src/es/uam/irg/utils/FeatureUtils.java:35-43 | the entry found is at or after the start, and its text is not yet recorded |
| FeatureUtils.FirstMatchWins | code/FeatureExtractor/src/es/uam/irg/utils/FeatureUtils.java:35-43 | the first entry in lexicon order that equals its n-gram and is unrecorded wins; when there is none, no entry qualifies |
| FeatureUtils.UnrecordedShrinks | code/FeatureExtractor/src/es/uam/irg/utils/FeatureUtils.java:38-40 | each recorded linker removes one unrecorded lexicon text, which bounds the scan even for non-positive token counts |
| FeatureUtils.UsedLinkersStep | code/FeatureExtractor/src/es/uam/irg/utils/FeatureUtils.java:34-44 | at each position, a match records its text and moves the scan past its tokens; no match moves it one position |
| FeatureUtils.GetUsedLinkerList | code/FeatureExtractor/src/es/uam/irg/utils/FeatureUtils.java:30-47 | returns the scan of the tokens' n-grams from position 0 with nothing recorded |
| FeatureUtils.ScanLinkers | code/FeatureExtractor/src/es/uam/irg/utils/FeatureUtils.java:34-44 | the outer loop, including its `i += nTokens - 1` skip, computes the scan |
| FeatureUtils.MatchAt | code/FeatureExtractor/src/es/uam/irg/utils/FeatureUtils.java:35-43 | the inner loop breaks at the first matching unrecorded entry |
| FeatureUtils.UsedLinkersExtends | code/FeatureExtractor/src/es/uam/irg/utils/FeatureUtils.java:34-44 | the result extends what was recorded, so linkers come in the order of their match positions |
| FeatureUtils.UsedLinkersDistinct | code/FeatureExtractor/src/es/uam/irg/utils/FeatureUtils.java:38-39 | no linker is recorded twice and each recorded text is a lexicon entry |
| FeatureUtils.UsedLinkerListSound | code/FeatureExtractor/src/es/uam/irg/utils/FeatureUtils.java:30-47 | `getUsedLinkerList` returns no duplicate and only lexicon texts |
| FeatureUtils.RowCouplesSize | code/FeatureExtractor/src/es/uam/irg/utils/FeatureUtils.java:60-65 | position a pairs with at most j - a - 1 later positions |
| FeatureUtils.CouplesBeforeSize | code/FeatureExtractor/src/es/uam/irg/utils/FeatureUtils.java:59-66 | the couples found before position i number at most the pairs before i |
| FeatureUtils.RowCouplesMembers | code/FeatureExtractor/src/es/uam/irg/utils/FeatureUtils.java:60-61 | the couples of position a are exactly tokens[a] + "-" + tokens[b] for a < b < j |
| FeatureUtils.CouplesBeforeMembers | code/FeatureExtractor/src/es/uam/irg/utils/FeatureUtils.java:59-66 | the couples found before i are exactly the couples of first positions below i |
| FeatureUtils.PairsBeforeValue | code/FeatureExtractor/src/es/uam/irg/utils/FeatureUtils.java:59-60 | the number of pairs with first position below i is i(2n - i - 1)/2 |
| FeatureUtils.CouplesCount | code/FeatureExtractor/src/es/uam/irg/utils/FeatureUtils.java:59-66 | there are at most n(n-1)/2 couples |
| FeatureUtils.CouplesAll | code/FeatureExtractor/src/es/uam/irg/utils/FeatureUtils.java:59-61 | the loop over first positions up to n-2 finds every couple |
| FeatureUtils.GetWordCouples | code/FeatureExtractor/src/es/uam/irg/utils/FeatureUtils.java:55-70 | every couple exactly once (in unspecified order), whatever removeEquals says; at most n(n-1)/2 of them; none for fewer than two tokens |
| FeatureUtils.LastFirst | code/FeatureExtractor/src/es/uam/irg/utils/FeatureUtils.java:59 | the outer loop's bound, `size - 1`, clamped at 0 |
| FeatureUtils.CollectCouples | code/FeatureExtractor/src/es/uam/irg/utils/FeatureUtils.java:56-66 | the map's keys are the couples of every first position |
| FeatureUtils.CouplesListed | code/FeatureExtractor/src/es/uam/irg/utils/FeatureUtils.java:68 | a duplicate-free listing of the map's keys lists exactly the couples |
| FeatureUtils.AddCouples | code/FeatureExtractor/src/es/uam/irg/utils/FeatureUtils.java:60-65 | the inner loop adds the couples of position i to the keys |
| FunctionUtils.ArrayToString | code/FeatureExtractor/src/es/uam/irg/utils/FunctionUtils.java:32-46 | the builder loop gives "" for a null or empty array, else the items each followed by the delimiter with the last character deleted (raising when nothing was appended) |
| FunctionUtils.AppendedJoin | code/FeatureExtractor/src/es/uam/irg/utils/FunctionUtils.java:38-40 | appending item + delimiter for each item is the join followed by one more delimiter |
| FunctionUtils.ArrayToStringJoin | code/FeatureExtractor/src/es/uam/irg/utils/FunctionUtils.java:32-46 | with a non-empty delimiter the result is the join plus all but the last delimiter character: exactly the join for a one-character delimiter |
| FunctionUtils.ArrayToStringEmptyDelimiter | code/FeatureExtractor/src/es/uam/irg/utils/FunctionUtils.java:42 | with an empty delimiter the text loses its last character, and an array of empty strings raises StringIndexOutOfBounds |
| FunctionUtils.GetSubArray | code/FeatureExtractor/src/es/uam/irg/utils/FunctionUtils.java:85-93 | null exactly when the start is negative or the end past the length; IllegalArgument exactly when the start is past the end; else the window |
| FunctionUtils.SubArrayConcat | code/FeatureExtractor/src/es/uam/irg/utils/FunctionUtils.java:85-93 | adjacent windows concatenate to the covering window |
| FunctionUtils.ListToString | code/FeatureExtractor/src/es/uam/irg/utils/FunctionUtils.java:125-127 | every element wrapped in sep and separated by ",": exactly sep + sep for an empty list |
| FunctionUtils.CreateListFromText | code/FeatureExtractor/src/es/uam/irg/utils/FunctionUtils.java:53-56 | no element holds ",", "[" or "]"; the brackets are removed and the text split with Java's split |
| FunctionUtils.ListRoundTrip | code/FeatureExtractor/src/es/uam/irg/utils/FunctionUtils.java:53-56 | a bracketed list rendered with an empty quote reads back as the list, when its elements hold no ",", "[" or "]" and the last is non-empty |
| FunctionUtils.JoinFree | code/FeatureExtractor/src/es/uam/irg/utils/FunctionUtils.java:125-127 | a join of parts and a separator free of a character is free of it |
| FunctionUtils.ListFromSet | code/FeatureExtractor/src/es/uam/irg/utils/FunctionUtils.java:113-117 | every element of the set exactly once, in unspecified order |
| FunctionUtils.ListFromMapKeys | code/FeatureExtractor/src/es/uam/irg/utils/FunctionUtils.java:102-105 | every key of the map exactly once, in unspecified order |
| FunctionUtils.KeysOf | code/FeatureExtractor/src/es/uam/irg/utils/FunctionUtils.java:141 | the keys of the entries, in order |
| FunctionUtils.InsertSplits | code/FeatureExtractor/src/es/uam/irg/utils/FunctionUtils.java:140 | insertion puts the entry at one position and keeps the rest in order |
| FunctionUtils.InsertKeepsOrder | code/FeatureExtractor/src/es/uam/irg/utils/FunctionUtils.java:140 | inserting into a non-increasing list keeps it non-increasing and one longer |
| FunctionUtils.SortByValueSorted | code/FeatureExtractor/src/es/uam/irg/utils/FunctionUtils.java:138-140 | the sorted entries are in non-increasing value order and are a permutation of the entries |
| FunctionUtils.InsertMultiset | code/FeatureExtractor/src/es/uam/irg/utils/FunctionUtils.java:140 | insertion adds exactly one entry |
| FunctionUtils.SortByValueKeys | code/FeatureExtractor/src/es/uam/irg/utils/FunctionUtils.java:138-141 | with distinct keys, the sorted list has distinct keys and exactly the same entries |
| FunctionUtils.SameKeySameEntry | code/FeatureExtractor/src/es/uam/irg/utils/FunctionUtils.java:134 | in a map's entries two entries with one key are the same entry |
| FunctionUtils.MultisetTwice | code/FeatureExtractor/src/es/uam/irg/utils/FunctionUtils.java:134 | an entry at two positions occurs at least twice |
| FunctionUtils.CountAtMostOne | code/FeatureExtractor/src/es/uam/irg/utils/FunctionUtils.java:134 | with distinct keys, each entry occurs at most once |
| FunctionUtils.SortMapByValue | code/FeatureExtractor/src/es/uam/irg/utils/FunctionUtils.java:134-144 | the linked map lists the keys in sorted order, keeps every entry's value, and its values are non-increasing in key order |
| FunctionUtils.PutAll | code/FeatureExtractor/src/es/uam/irg/utils/FunctionUtils.java:141 | putting entries with distinct keys in order lists their keys in that order with their values |
| FunctionUtils.FreshKey | code/FeatureExtractor/src/es/uam/irg/utils/FunctionUtils.java:141 | with distinct keys, each put adds a new key |
| FunctionUtils.LinkedEntries | code/FeatureExtractor/src/es/uam/irg/utils/FunctionUtils.java:138-143 | the map filled from the sorted entries has every entry and non-increasing values in key order |
| Tokens.IsPunctuation | code/FeatureExtractor/src/es/uam/irg/nlp/am/feat/ArgumentFeature.java:168 | a token is punctuation when tagged PUNCT and not starting with "etc", or when its first character is one of the special marks; an empty word not tagged PUNCT raises StringIndexOutOfBounds, and only then |
| Tokens.Normalise | code/FeatureExtractor/src/es/uam/irg/nlp/am/feat/ArgumentFeature.java:173-180 | the first filter gives "$number$" for a number, else "$date$"/"$time$" for a date in the language's format or "HH:mm", else the word itself; a non-empty word stays non-empty |
| Tokens.RouteOf | code/FeatureExtractor/src/es/uam/irg/nlp/am/feat/ArgumentFeature.java:163-199 | a token raises exactly when the punctuation test raises, becomes a mark exactly when the test holds, and otherwise is kept only as a non-empty valid token with its own tag |
| Tokens.FirstRaiseAt | code/FeatureExtractor/src/es/uam/irg/nlp/am/feat/ArgumentFeature.java:163-200 | up to the first raising token, a token raises exactly when it is that first one, so the scan stops there |
| Tokens.RaisesIff | code/FeatureExtractor/src/es/uam/irg/nlp/am/feat/ArgumentFeature.java:168 | the token scan raises exactly when some token has an empty word and is not tagged PUNCT |
| Tokens.WordsAligned | code/FeatureExtractor/src/es/uam/irg/nlp/am/feat/ArgumentFeature.java:184-185 | the unigram and POS-unigram lists have equal length and each unigram comes with its own token's tag |
| Tokens.KeptNonEmpty | code/FeatureExtractor/src/es/uam/irg/nlp/am/feat/ArgumentFeature.java:183-186 | every kept unigram is a non-empty string |
| Tokens.WordsNonEmpty | code/FeatureExtractor/src/es/uam/irg/nlp/am/feat/ArgumentFeature.java:163-199 | the unigrams kept before the first raising token are all non-empty |
| Tokens.GroupsBounded | code/FeatureExtractor/src/es/uam/irg/nlp/am/feat/ArgumentFeature.java:189-197 | verbs, adverbs, auxiliaries and nouns together hold at most the unigrams, since each unigram joins at most one group; without a noun group there are no nouns |
| Tokens.WordsExist | code/FeatureExtractor/src/es/uam/irg/nlp/am/feat/ArgumentFeature.java:203 | there is a unigram exactly when some token is kept |
| Tokens.MarksAndWords | code/FeatureExtractor/src/es/uam/irg/nlp/am/feat/ArgumentFeature.java:168-199 | marks and unigrams come from different tokens, so together they number at most the tokens |
| Tokens.PlainPartition | code/FeatureExtractor/src/es/uam/irg/nlp/am/TextFeature.java:113-136 | in the older extractor every token is either punctuation or a unigram, and tagged adverbs, verbs and auxiliaries are at most the unigrams |
| Tokens.NonPunctExists | code/FeatureExtractor/src/es/uam/irg/nlp/am/TextFeature.java:139 | the older extractor has a unigram exactly when some token is not tagged PUNCT |
| Tokens.NonPunctNonEmpty | code/FeatureExtractor/src/es/uam/irg/nlp/am/TextFeature.java:121-123 | the older extractor's unigrams are non-empty when all token words are |
| NGrams.MarkedNGrams | code/FeatureExtractor/src/es/uam/irg/nlp/am/feat/ArgumentFeature.java:208-228 | the loop over the unigrams yields exactly the marked bigrams (one per step with "$init$" first, then the "$end$" bigram) and the marked trigrams (one per step after a non-empty previous word, then the end trigram) |
| NGrams.MarkedBigramScan | code/FeatureExtractor/src/es/uam/irg/nlp/am/feat/ArgumentFeature.java:231-239 | the POS-bigram loop yields exactly the marked bigrams of the tags |
| NGrams.MarkedBigramsShape | code/FeatureExtractor/src/es/uam/irg/nlp/am/feat/ArgumentFeature.java:213-227 | n non-empty words give n + 1 bigrams: "$init$-w0", each neighbouring pair, and "w(n-1)-$end$" |
| NGrams.StepTrigramsShape | code/FeatureExtractor/src/es/uam/irg/nlp/am/feat/ArgumentFeature.java:217-220 | with non-empty words every step after the first records exactly one trigram, in order |
| NGrams.MarkedTrigramsShape | code/FeatureExtractor/src/es/uam/irg/nlp/am/feat/ArgumentFeature.java:213-228 | n non-empty words give n trigrams: "$init$-w0-w1", each neighbouring triple, and "w(n-2)-w(n-1)-$end$"; a single word gives "-w0-$end$" |
| NGrams.PlainNGrams | code/FeatureExtractor/src/es/uam/irg/nlp/am/TextFeature.java:144-160 | the older loop yields exactly the bigrams and trigrams of the specification functions, skipping steps whose previous words are empty |
| NGrams.PlainBigramsShape | code/FeatureExtractor/src/es/uam/irg/nlp/am/TextFeature.java:149-154 | n non-empty words give the n - 1 neighbouring pairs, in order |
| NGrams.PlainTrigramsShape | code/FeatureExtractor/src/es/uam/irg/nlp/am/TextFeature.java:155-158 | n non-empty words give the n - 2 neighbouring triples, in order |
| NGrams.PlainShortInputs | code/FeatureExtractor/src/es/uam/irg/nlp/am/TextFeature.java:149-160 | fewer than two words give no bigram and fewer than three no trigram |
| TextFeatureBase.DateFormatOf | code/FeatureExtractor/src/es/uam/irg/nlp/am/feat/ArgumentFeature.java:272-279 | English gives "MM/dd/yyyy", any other language "dd/MM/yyyy" |
| TextFeatureBase.ListToString | code/FeatureExtractor/src/es/uam/irg/nlp/am/feat/TextFeature.java:83-90 | the rendering is always bracketed |
| TextFeatureBase.ListToStringEmpty | code/FeatureExtractor/src/es/uam/irg/nlp/am/feat/TextFeature.java:83-90 | an empty list renders as "[]" |
| TextFeatureBase.ListToStringCollision | code/FeatureExtractor/src/es/uam/irg/nlp/am/feat/TextFeature.java:86-88 | a list holding one empty string also renders as "[]", the same as the empty list |
| TextFeatureBase.ListToStringQuoted | code/FeatureExtractor/src/es/uam/irg/nlp/am/feat/TextFeature.java:83-90 | any other list renders as its elements in double quotes joined by "," inside brackets |
| TextFeatureBase.Zip | code/FeatureExtractor/src/es/uam/irg/nlp/am/feat/ArgumentFeature.java:139-142 | each record key is paired positionally with its rendered value, keeping the keys in order |
| TextFeatureBase.RecordStartsWithFirstKey | code/FeatureExtractor/src/es/uam/irg/nlp/am/feat/ArgumentFeature.java:135-139 | a rendered record starts with "{" and its first key in quotes |
| ArgumentEngine.Engine.constructor | code/FeatureExtractor/src/es/uam/irg/nlp/am/arguments/ArgumentEngine.java:36-39 | the engine keeps the language it was built for |
| ArgumentEngine.Engine.CurrentLanguage | code/FeatureExtractor/src/es/uam/irg/nlp/am/arguments/ArgumentEngine.java:55-57 | the current language is the one given at construction |
| ArgumentEngine.Walk | code/FeatureExtractor/src/es/uam/irg/nlp/am/arguments/ArgumentEngine.java:130-147 | the recursive walk returns the tree's text and appends exactly the tree's phrases, in post-order, to the list it was given |
| ArgumentEngine.GetPhraseList | code/FeatureExtractor/src/es/uam/irg/nlp/am/arguments/ArgumentEngine.java:64-70 | a null tree gives no phrases, any other tree the phrases of its walk from depth 0 |
| ArgumentEngine.TextIsSpacedLeaves | code/FeatureExtractor/src/es/uam/irg/nlp/am/arguments/ArgumentEngine.java:133-140 | a tree's text is its leaves, left to right, each followed by one space |
| ArgumentEngine.SpacedConcat | code/FeatureExtractor/src/es/uam/irg/nlp/am/arguments/ArgumentEngine.java:137-139 | concatenating the children's texts concatenates their spaced leaves |
| ArgumentEngine.LeafNoPhrase | code/FeatureExtractor/src/es/uam/irg/nlp/am/arguments/ArgumentEngine.java:133-134 | a leaf has the text "value " and records no phrase |
| ArgumentEngine.PhraseDepths | code/FeatureExtractor/src/es/uam/irg/nlp/am/arguments/ArgumentEngine.java:136-144 | every phrase of a tree walked at depth d lies at a depth between d and d plus the tree's height, exclusive |
| ArgumentEngine.PostOrder | code/FeatureExtractor/src/es/uam/irg/nlp/am/arguments/ArgumentEngine.java:136-144 | the only phrase at the walk's own depth is the root's, and it comes last |
| ArgumentEngine.MaxDepth | code/FeatureExtractor/src/es/uam/irg/nlp/am/feat/ArgumentFeature.java:247-251 | the deepest depth is at least the start, bounds every phrase's depth, and is the start or some phrase's depth |
| ArgumentEngine.DeepestPhrase | code/FeatureExtractor/src/es/uam/irg/nlp/am/feat/ArgumentFeature.java:247-251 | the loop that raises parseTreeDepth leaves it at the deepest phrase depth |
| ArgumentEngine.TreeDepthBound | code/FeatureExtractor/src/es/uam/irg/nlp/am/arguments/ArgumentEngine.java:64-70 | starting from 0, the deepest phrase depth of a tree is 0 or below the tree's height |
| ArgumentFeatures.GetDateFormat | code/FeatureExtractor/src/es/uam/irg/nlp/am/feat/ArgumentFeature.java:272-279 | a null engine gives "", English "MM/dd/yyyy" and any other language "dd/MM/yyyy"; the format is empty only for a null engine |
| ArgumentFeatures.ArgumentFeature.constructor | code/FeatureExtractor/src/es/uam/irg/nlp/am/feat/ArgumentFeature.java:77-113 | the new feature keeps its id, text, engine language and lexicon, takes the language's date format and the text's length, and starts with zero counters and empty lists |
| ArgumentFeatures.ArgumentFeature.Extraction | code/FeatureExtractor/src/es/uam/irg/nlp/am/feat/ArgumentFeature.java:121-127 | a text shorter than three characters gives false and changes nothing; a null engine raises a null-pointer error; otherwise the result and new fields are those of the feature extraction |
| ArgumentFeatures.ArgumentFeature.ExtractFeatures | code/FeatureExtractor/src/es/uam/irg/nlp/am/feat/ArgumentFeature.java:149-266 | the new fields and the outcome are those of the extraction function over the engine's tokens, entities and tree |
| ArgumentFeatures.ArgumentFeature.ScanTokens | code/FeatureExtractor/src/es/uam/irg/nlp/am/feat/ArgumentFeature.java:163-200 | the token loop stops at the first token that raises, reports whether one did, and leaves the fields as the routes of the tokens before it make them |
| ArgumentFeatures.ArgumentFeature.AddToken | code/FeatureExtractor/src/es/uam/irg/nlp/am/feat/ArgumentFeature.java:164-199 | one token goes to the punctuation marks, to the unigrams with its tag group, or nowhere, or raises, as its route says |
| ArgumentFeatures.ArgumentFeature.AddWord | code/FeatureExtractor/src/es/uam/irg/nlp/am/feat/ArgumentFeature.java:184-197 | a valid word adds its unigram, its tag, its length and its tag group |
| ArgumentFeatures.ArgumentFeature.AddToGroup | code/FeatureExtractor/src/es/uam/irg/nlp/am/feat/ArgumentFeature.java:189-197 | a verb longer than one character, an adverb, an auxiliary or a noun joins its own list, and nothing else changes |
| ArgumentFeatures.ArgumentFeature.Complete | code/FeatureExtractor/src/es/uam/irg/nlp/am/feat/ArgumentFeature.java:203-261 | the statements after the loop give exactly the second stage of the extraction function |
| ArgumentFeatures.ArgumentFeature.Average | code/FeatureExtractor/src/es/uam/irg/nlp/am/feat/ArgumentFeature.java:204-205 | the summed word length becomes the mean over the unigrams and the mark count becomes the number of marks |
| ArgumentFeatures.ArgumentFeature.AddNGrams | code/FeatureExtractor/src/es/uam/irg/nlp/am/feat/ArgumentFeature.java:207-239 | word bigrams and trigrams and POS bigrams become the marked n-grams of the unigrams and tags |
| ArgumentFeatures.ArgumentFeature.AddParse | code/FeatureExtractor/src/es/uam/irg/nlp/am/feat/ArgumentFeature.java:241-252 | entities come from the engine, the depth becomes the deepest phrase depth and the sub-clause count the number of phrases |
| ArgumentFeatures.ArgumentFeature.AddLinkers | code/FeatureExtractor/src/es/uam/irg/nlp/am/feat/ArgumentFeature.java:254-258 | word couples and key words come from the two FeatureUtils calls over the unigrams |
| ArgumentFeatures.ArgumentFeature.Fields | code/FeatureExtractor/src/es/uam/irg/nlp/am/feat/ArgumentFeature.java:134-143 | the record has the twenty-one keys of toString, in order, paired with the rendered values |
| ArgumentFeatures.ArgumentFeature.ToString | code/FeatureExtractor/src/es/uam/irg/nlp/am/feat/ArgumentFeature.java:134-143 | the rendering is a JSON-style record that starts with the id key |
| ArgumentFeatures.ScannedFields | code/FeatureExtractor/src/es/uam/irg/nlp/am/feat/ArgumentFeature.java:163-200 | the token loop appends the routes' marks, unigrams, tags, lengths and groups field by field, and leaves every other field alone |
| ArgumentFeatures.ExtractOutcome | code/FeatureExtractor/src/es/uam/irg/nlp/am/feat/ArgumentFeature.java:149-157 | no tokens give false with the fields untouched; otherwise the extraction raises StringIndexOutOfBounds exactly when some empty word is not tagged PUNCT |
| ArgumentFeatures.ExtractValidIff | code/FeatureExtractor/src/es/uam/irg/nlp/am/feat/ArgumentFeature.java:149-266 | from the initial fields, the extraction is valid exactly when no token raises and some token yields a valid unigram |
| ArgumentFeatures.ValidUnfold | code/FeatureExtractor/src/es/uam/irg/nlp/am/feat/ArgumentFeature.java:200-262 | a valid extraction is the second stage run over the scan of every token |
| ArgumentFeatures.CompletedFields | code/FeatureExtractor/src/es/uam/irg/nlp/am/feat/ArgumentFeature.java:203-261 | the second stage keeps what the loop gathered and sets the mean, the mark count, the n-grams, entities, parse counts, couples and key words |
| ArgumentFeatures.ValidLists | code/FeatureExtractor/src/es/uam/irg/nlp/am/feat/ArgumentFeature.java:163-200 | in a valid extraction the unigrams, tags, marks and tag groups hold the contributions of every token |
| ArgumentFeatures.ExtractRaisedKeepsPrefix | code/FeatureExtractor/src/es/uam/irg/nlp/am/feat/ArgumentFeature.java:163-200 | when a token raises, the fields hold what the tokens before it added, and no n-gram, key word or count of the second stage is set |
| ArgumentFeatures.ExtractValidShape | code/FeatureExtractor/src/es/uam/irg/nlp/am/feat/ArgumentFeature.java:203-228 | a valid extraction has n >= 1 unigrams and as many tags, n + 1 word bigrams from "$init$-w0" to "w(n-1)-$end$", n trigrams, n + 1 POS bigrams, the mean word length and as many marks as the counter says |
| ArgumentFeatures.CompletedShape | code/FeatureExtractor/src/es/uam/irg/nlp/am/feat/ArgumentFeature.java:203-239 | the second stage over the loop's results gives the counts and end bigrams above |
| ArgumentFeatures.ExtractValidCounts | code/FeatureExtractor/src/es/uam/irg/nlp/am/feat/ArgumentFeature.java:163-203 | in a valid extraction marks and unigrams together are at most the tokens, and the tag groups together at most the unigrams |
| ArgumentFeatures.ExtractValidUnigrams | code/FeatureExtractor/src/es/uam/irg/nlp/am/feat/ArgumentFeature.java:163-199 | in a valid extraction every unigram comes, with its tag, from one of the sentence's tokens |
| ArgumentFeatures.ExtractValidParse | code/FeatureExtractor/src/es/uam/irg/nlp/am/feat/ArgumentFeature.java:241-258 | in a valid extraction the sub-clause count is the number of phrases, the depth is 0 without a tree and at most its height with one, and entities, couples and key words come from the engine and FeatureUtils |
| DetectionFeatures.DetectionTextFeature.constructor | code/FeatureExtractor/src/es/uam/irg/nlp/am/feat/DetectionTextFeature.java:59-80 | the new feature keeps its id, text, engine language and lexicon, takes the language's date format and the text's length, and starts invalid with zero counters and empty lists |
| DetectionFeatures.DetectionTextFeature.GetId | code/FeatureExtractor/src/es/uam/irg/nlp/am/feat/TextFeature.java:58-60 | the id is the one given at construction |
| DetectionFeatures.DetectionTextFeature.Valid | code/FeatureExtractor/src/es/uam/irg/nlp/am/feat/TextFeature.java:66-68 | validity is the isValid field |
| DetectionFeatures.DetectionTextFeature.Extraction | code/FeatureExtractor/src/es/uam/irg/nlp/am/feat/TextFeature.java:46-52 | a text shorter than three characters is left untouched; otherwise the new fields and outcome are those of the extraction function |
| DetectionFeatures.DetectionTextFeature.ExtractFeatures | code/FeatureExtractor/src/es/uam/irg/nlp/am/feat/DetectionTextFeature.java:112-202 | the new fields and the outcome are those of the extraction function over the engine's tokens and tree |
| DetectionFeatures.DetectionTextFeature.ScanTokens | code/FeatureExtractor/src/es/uam/irg/nlp/am/feat/DetectionTextFeature.java:118-152 | the token loop stops at the first token that raises, reports whether one did, and leaves the fields as the routes of the tokens before it make them |
| DetectionFeatures.DetectionTextFeature.AddToken | code/FeatureExtractor/src/es/uam/irg/nlp/am/feat/DetectionTextFeature.java:119-151 | one token goes to the punctuation marks, to the unigrams with its tag group, or nowhere, or raises, as its route says |
| DetectionFeatures.DetectionTextFeature.AddWord | code/FeatureExtractor/src/es/uam/irg/nlp/am/feat/DetectionTextFeature.java:138-150 | a valid word adds its unigram, its length and its tag group |
| DetectionFeatures.DetectionTextFeature.AddToGroup | code/FeatureExtractor/src/es/uam/irg/nlp/am/feat/DetectionTextFeature.java:143-149 | a verb longer than one character, an adverb or an auxiliary joins its own list; there is no noun list here |
| DetectionFeatures.DetectionTextFeature.Complete | code/FeatureExtractor/src/es/uam/irg/nlp/am/feat/DetectionTextFeature.java:155-200 | the statements after the loop give exactly the second stage of the extraction function and set isValid |
| DetectionFeatures.DetectionTextFeature.Average | code/FeatureExtractor/src/es/uam/irg/nlp/am/feat/DetectionTextFeature.java:156-157 | the summed word length becomes the mean over the unigrams and the mark count becomes the number of marks |
| DetectionFeatures.DetectionTextFeature.AddNGrams | code/FeatureExtractor/src/es/uam/irg/nlp/am/feat/DetectionTextFeature.java:159-180 | bigrams and trigrams become the marked n-grams of the unigrams |
| DetectionFeatures.DetectionTextFeature.AddParse | code/FeatureExtractor/src/es/uam/irg/nlp/am/feat/DetectionTextFeature.java:182-190 | the depth becomes the deepest phrase depth and the sub-clause count the number of phrases |
| DetectionFeatures.DetectionTextFeature.AddLinkers | code/FeatureExtractor/src/es/uam/irg/nlp/am/feat/DetectionTextFeature.java:192-196 | word couples and key words come from the two FeatureUtils calls over the unigrams |
| DetectionFeatures.DetectionTextFeature.Fields | code/FeatureExtractor/src/es/uam/irg/nlp/am/feat/DetectionTextFeature.java:87-95 | the record has the fourteen keys of toString, in order, paired with the rendered values |
| DetectionFeatures.DetectionTextFeature.ToString | code/FeatureExtractor/src/es/uam/irg/nlp/am/feat/DetectionTextFeature.java:87-95 | the rendering is a JSON-style record that starts with the unigrams key |
| DetectionFeatures.ScannedFields | code/FeatureExtractor/src/es/uam/irg/nlp/am/feat/DetectionTextFeature.java:118-152 | the token loop appends the routes' marks, unigrams, lengths and groups field by field, and leaves every other field alone |
| DetectionFeatures.ExtractOutcome | code/FeatureExtractor/src/es/uam/irg/nlp/am/feat/DetectionTextFeature.java:112-202 | the extraction raises exactly when some empty word is not tagged PUNCT, and ends valid exactly when no token raises and some token yields a valid unigram |
| DetectionFeatures.ValidUnfold | code/FeatureExtractor/src/es/uam/irg/nlp/am/feat/DetectionTextFeature.java:152-200 | a valid extraction is the second stage run over the scan of every token |
| DetectionFeatures.CompletedFields | code/FeatureExtractor/src/es/uam/irg/nlp/am/feat/DetectionTextFeature.java:155-200 | the second stage keeps what the loop gathered, sets the mean, the mark count, the n-grams, the parse counts, couples, key words and validity |
| DetectionFeatures.ValidLists | code/FeatureExtractor/src/es/uam/irg/nlp/am/feat/DetectionTextFeature.java:118-157 | in a valid extraction the unigrams, marks and tag groups hold the contributions of every token, and the word length is their mean |
| DetectionFeatures.ExtractValidShape | code/FeatureExtractor/src/es/uam/irg/nlp/am/feat/DetectionTextFeature.java:155-180 | a valid extraction has n >= 1 unigrams, n + 1 bigrams from "$init$-w0" to "w(n-1)-$end$", n trigrams and as many marks as the counter says |
| DetectionFeatures.CompletedShape | code/FeatureExtractor/src/es/uam/irg/nlp/am/feat/DetectionTextFeature.java:155-180 | the second stage over the loop's results gives the counts and end bigrams above |
| DetectionFeatures.ExtractValidCounts | code/FeatureExtractor/src/es/uam/irg/nlp/am/feat/DetectionTextFeature.java:118-155 | in a valid extraction marks and unigrams together are at most the tokens, and the tag groups together at most the unigrams |
| DetectionFeatures.ExtractValidParse | code/FeatureExtractor/src/es/uam/irg/nlp/am/feat/DetectionTextFeature.java:182-190 | in a valid extraction the sub-clause count is the number of phrases, and the depth is 0 without a tree and at most its height with one |
| LegacyFeatures.TextFeature.constructor | code/FeatureExtractor/src/es/uam/irg/nlp/am/TextFeature.java:50-68 | the new feature keeps its text and length and starts invalid with zero counters and empty lists |
| LegacyFeatures.TextFeature.Valid | code/FeatureExtractor/src/es/uam/irg/nlp/am/TextFeature.java:85-87 | validity is the isValid field |
| LegacyFeatures.TextFeature.Extraction | code/FeatureExtractor/src/es/uam/irg/nlp/am/TextFeature.java:73-79 | a text shorter than three characters is left untouched; otherwise the new fields are those of the extraction function |
| LegacyFeatures.TextFeature.ExtractFeatures | code/FeatureExtractor/src/es/uam/irg/nlp/am/TextFeature.java:107-183 | the new fields are those of the extraction function over the engine's tokens and tree |
| LegacyFeatures.TextFeature.ScanTokens | code/FeatureExtractor/src/es/uam/irg/nlp/am/TextFeature.java:113-137 | the token loop leaves the fields as the tokens' steps make them |
| LegacyFeatures.TextFeature.AddToken | code/FeatureExtractor/src/es/uam/irg/nlp/am/TextFeature.java:114-136 | a PUNCT token goes to the marks, any other to the unigrams with its length and its adverb, verb or auxiliary list |
| LegacyFeatures.TextFeature.AddTagged | code/FeatureExtractor/src/es/uam/irg/nlp/am/TextFeature.java:126-134 | an adverb, a verb or an auxiliary joins its own list, and nothing else changes |
| LegacyFeatures.TextFeature.Complete | code/FeatureExtractor/src/es/uam/irg/nlp/am/TextFeature.java:139-181 | the statements after the loop give exactly the second stage of the extraction function and set isValid |
| LegacyFeatures.TextFeature.Average | code/FeatureExtractor/src/es/uam/irg/nlp/am/TextFeature.java:140-141 | the summed word length becomes the mean over the unigrams and the mark count becomes the number of marks |
| LegacyFeatures.TextFeature.AddNGrams | code/FeatureExtractor/src/es/uam/irg/nlp/am/TextFeature.java:143-162 | bigrams and trigrams become the plain n-grams of the unigrams |
| LegacyFeatures.TextFeature.AddParse | code/FeatureExtractor/src/es/uam/irg/nlp/am/TextFeature.java:167-175 | the depth becomes the deepest phrase depth and the sub-clause count the number of phrases |
| LegacyFeatures.TextFeature.Fields | code/FeatureExtractor/src/es/uam/irg/nlp/am/TextFeature.java:94-102 | the record has the fourteen keys of toString, in order, paired with the rendered values |
| LegacyFeatures.TextFeature.ToString | code/FeatureExtractor/src/es/uam/irg/nlp/am/TextFeature.java:94-102 | the rendering is a record with single-quoted keys that starts with the unigrams key |
| LegacyFeatures.Bracketed | code/FeatureExtractor/src/es/uam/irg/nlp/am/TextFeature.java:200-202 | this class's list rendering is always bracketed |
| LegacyFeatures.ScannedFields | code/FeatureExtractor/src/es/uam/irg/nlp/am/TextFeature.java:113-137 | the token loop appends the PUNCT words to the marks and the others to the unigrams, lengths and tag lists, and leaves every other field alone |
| LegacyFeatures.ScanInitial | code/FeatureExtractor/src/es/uam/irg/nlp/am/TextFeature.java:113-137 | from the initial fields the scan holds exactly the PUNCT words as marks, the other words as unigrams and the tagged words in their lists |
| LegacyFeatures.ExtractValidIff | code/FeatureExtractor/src/es/uam/irg/nlp/am/TextFeature.java:139-181 | from the initial fields the feature becomes valid exactly when some token is not tagged PUNCT; word couples and key words are never filled |
| LegacyFeatures.ExtractCounts | code/FeatureExtractor/src/es/uam/irg/nlp/am/TextFeature.java:113-137 | every token is a mark or a unigram, and adverbs, verbs and auxiliaries together are at most the unigrams |
| LegacyFeatures.ExtractValidShape | code/FeatureExtractor/src/es/uam/irg/nlp/am/TextFeature.java:139-162 | with non-empty words, a valid extraction of n unigrams has the n - 1 neighbouring pairs as bigrams, the max(0, n - 2) neighbouring triples as trigrams, and as many marks as the counter says |
| LegacyFeatures.CompletedShape | code/FeatureExtractor/src/es/uam/irg/nlp/am/TextFeature.java:139-162 | the second stage over the loop's results gives the n-grams above |
| LegacyFeatures.ExtractValidParse | code/FeatureExtractor/src/es/uam/irg/nlp/am/TextFeature.java:167-175 | in a valid extraction the sub-clause count is the number of phrases, and the depth is 0 without a tree and at most its height with one |
| ClassifierFeatures.TextFeature.constructor | code/ArgumentClassifier/src/es/uam/irg/ml/TextFeature.java:44-56 | the new feature keeps the document's text, tokens and text length and starts invalid with empty lists |
| ClassifierFeatures.TextFeature.Valid | code/ArgumentClassifier/src/es/uam/irg/ml/TextFeature.java:62-64 | validity is the isValid field |
| ClassifierFeatures.TextFeature.Process | code/ArgumentClassifier/src/es/uam/irg/ml/TextFeature.java:69-76 | a text shorter than three characters is left untouched; otherwise the features are extracted and the feature becomes valid |
| ClassifierFeatures.TextFeature.ExtractFeatures | code/ArgumentClassifier/src/es/uam/irg/ml/TextFeature.java:81-134 | the new fields are those of the extraction function over the document's tokens |
| ClassifierFeatures.TextFeature.AddToken | code/ArgumentClassifier/src/es/uam/irg/ml/TextFeature.java:86-107 | a token not tagged PUNCT becomes a unigram with its length; then an adverb, verb, auxiliary or PUNCT token joins its own list |
| ClassifierFeatures.TextFeature.AddTagged | code/ArgumentClassifier/src/es/uam/irg/ml/TextFeature.java:96-107 | an adverb, verb, auxiliary or PUNCT token joins its own list, and nothing else changes |
| ClassifierFeatures.TextFeature.Average | code/ArgumentClassifier/src/es/uam/irg/ml/TextFeature.java:111-112 | the summed word length becomes the mean over the unigrams and the mark count becomes the number of marks |
| ClassifierFeatures.TextFeature.AddNGrams | code/ArgumentClassifier/src/es/uam/irg/ml/TextFeature.java:114-131 | bigrams and trigrams become the plain n-grams of the unigrams |
| ClassifierFeatures.ScannedFields | code/ArgumentClassifier/src/es/uam/irg/ml/TextFeature.java:85-108 | the token loop appends the PUNCT words to the marks and the others to the unigrams, lengths and tag lists, and leaves every other field alone |
| ClassifierFeatures.ScanInitial | code/ArgumentClassifier/src/es/uam/irg/ml/TextFeature.java:85-108 | from the initial fields the scan holds exactly the PUNCT words as marks, the other words as unigrams and the tagged words in their lists |
| ClassifierFeatures.ProcessedValid | code/ArgumentClassifier/src/es/uam/irg/ml/TextFeature.java:69-76 | processing marks the feature valid exactly when the text has at least three characters, even when it has no unigram; a shorter text leaves the feature as constructed |
| ClassifierFeatures.ProcessedCounts | code/ArgumentClassifier/src/es/uam/irg/ml/TextFeature.java:85-112 | every token is a mark or a unigram, adverbs, verbs and auxiliaries together are at most the unigrams, the mark count matches when there is a unigram, and depth and sub-clause count stay 0 |
| ClassifierFeatures.ProcessedShape | code/ArgumentClassifier/src/es/uam/irg/ml/TextFeature.java:110-132 | with non-empty words, the n unigrams of a long enough text give the n - 1 neighbouring pairs as bigrams and the max(0, n - 2) neighbouring triples as trigrams |
| ArgumentIds.Parse | code/FeatureExtractor/src/es/uam/irg/nlp/am/arguments/ArgumentId.java:31-44 | the id keeps its string; without three '-'-separated parts all three numbers are -1; with three parts it succeeds exactly when each parses as a Java int, and otherwise raises NumberFormatException |
| ArgumentIds.NoDash | code/FeatureExtractor/src/es/uam/irg/nlp/am/arguments/ArgumentId.java:34 | a non-negative number is rendered as a non-empty string without '-' |
| ArgumentIds.ParseFormat | code/FeatureExtractor/src/es/uam/irg/nlp/am/arguments/ArgumentId.java:31-44 | parsing "a-b-c" for non-negative 32-bit a, b and c gives back a, b and c |
| ArgumentIds.NegativeCommentUnparsed | code/FeatureExtractor/src/es/uam/irg/nlp/am/arguments/ArgumentId.java:34-43 | a negative comment number adds a '-' of its own, so the id has four parts and all three numbers are -1 |
| Arguments.NewArgument | code/FeatureExtractor/src/es/uam/irg/nlp/am/arguments/Argument.java:46-54 | the constructor succeeds exactly when the id parses, keeps the sentence text, claim, premise and linker, and is a major claim exactly when the comment number is 0, the claim is not empty and the premise is |
| Arguments.ToString | code/FeatureExtractor/src/es/uam/irg/nlp/am/arguments/Argument.java:134-138 | the rendering starts with "[id] - ", ends with "]" and has the length of "[id] - claim > premise [lnk: linker]" |
| Arguments.ToStringLayout | code/FeatureExtractor/src/es/uam/irg/nlp/am/arguments/Argument.java:134-138 | the rendering is "[", the id, "] - ", the claim, " > ", the premise, " [lnk: ", the linker's text and "]", each at its own offset |
| Arguments.GetIdOfNew | code/FeatureExtractor/src/es/uam/irg/nlp/am/arguments/Argument.java:94-112 | an argument's id is the string it was built from and its proposal number is the parsed one |
| Arguments.MalformedNeverMajorClaim | code/FeatureExtractor/src/es/uam/irg/nlp/am/arguments/Argument.java:140-142 | an id without three parts gives an argument that is never a major claim and has proposal number -1 |
| Arguments.FormattedMajorClaim | code/FeatureExtractor/src/es/uam/irg/nlp/am/arguments/Argument.java:140-142 | for an id "p-c-s" of non-negative numbers the proposal number is p and the argument is a major claim exactly when c is 0, the claim is not empty and the premise is |
| Arguments.EqualsIgnoresIdAndText | code/FeatureExtractor/src/es/uam/irg/nlp/am/arguments/Argument.java:78-80 | equality does not look at the id or the sentence text |
| Arguments.EqualsNeedsSameText | code/FeatureExtractor/src/es/uam/irg/nlp/am/arguments/Argument.java:78-80 | arguments with different claims or premises are never equal |
| ExtractorIO.Unquoted | code/FeatureExtractor/src/es/uam/irg/io/IOManager.java:266-271 | the text loses one leading and then one trailing double quote; an empty text, or a lone quote, raises StringIndexOutOfBounds, and nothing else does |
| ExtractorIO.GetTextField | code/FeatureExtractor/src/es/uam/irg/io/IOManager.java:261-273 | the loop over the fields between the two ids and the last three, then the unquoting, give exactly the text-field function |
| ExtractorIO.GatheredSkipsLeadingEmpty | code/FeatureExtractor/src/es/uam/irg/io/IOManager.java:263-265 | a leading empty field leaves no comma behind |
| ExtractorIO.GatheredJoin | code/FeatureExtractor/src/es/uam/irg/io/IOManager.java:263-265 | from a non-empty first field on, the gathered text is the fields joined with ',' and is not empty |
| ExtractorIO.UnquotedQuoted | code/FeatureExtractor/src/es/uam/irg/io/IOManager.java:266-271 | a quoted text, as the writer emits it, loses exactly its two quotes |
| ExtractorIO.EmptyTextRaises | code/FeatureExtractor/src/es/uam/irg/io/IOManager.java:262-266 | a row whose text fields are all empty raises StringIndexOutOfBounds |
| ExtractorIO.RowOf | code/FeatureExtractor/src/es/uam/irg/io/IOManager.java:66-77 | a row of fewer than six fields is skipped; otherwise parsing raises or yields a proposition whose linker has the last three fields as linker, category and sub-category and an empty relation type |
| ExtractorIO.ReadRow | code/FeatureExtractor/src/es/uam/irg/io/IOManager.java:66-77 | the body of the row loop is the row function |
| ExtractorIO.ReadDatasetToCsvFile | code/FeatureExtractor/src/es/uam/irg/io/IOManager.java:46-90 | a missing file reads as no propositions; otherwise the header is dropped and the rows are read in file order, the first failing row ending the read |
| ExtractorIO.DatasetErrPersists | code/FeatureExtractor/src/es/uam/irg/io/IOManager.java:65-78 | once a row raises, later rows change nothing |
| ExtractorIO.DatasetSize | code/FeatureExtractor/src/es/uam/irg/io/IOManager.java:65-78 | a read that does not raise keeps one proposition per row of at least six fields |
| ExtractorIO.SaveDatasetToCsvFile | code/FeatureExtractor/src/es/uam/irg/io/IOManager.java:196-221 | when the file can be opened the result is true and the file holds the header and one line per proposition; otherwise the result is false and nothing is written |
| ExtractorIO.CsvTextStep | code/FeatureExtractor/src/es/uam/irg/io/IOManager.java:204-209 | one more proposition adds its line to the written text |
| ExtractorIO.RowSplit | code/FeatureExtractor/src/es/uam/irg/io/IOManager.java:206-207 | a written row splits into the two ids, the pieces of the quoted text and the three linker fields |
| ExtractorIO.RowRoundTrip | code/FeatureExtractor/src/es/uam/irg/io/IOManager.java:66-76 | a written row of a writable proposition reads back as that proposition with an empty relation type |
| ExtractorIO.HeaderNoBreak | code/FeatureExtractor/src/es/uam/irg/io/IOManager.java:203 | the header is a single line |
| ExtractorIO.RowTextNoBreak | code/FeatureExtractor/src/es/uam/irg/io/IOManager.java:206-207 | a written row of a writable proposition has no line break |
| ExtractorIO.WrittenLines | code/FeatureExtractor/src/es/uam/irg/io/IOManager.java:203-209 | the written file reads as the header and then one line per proposition, and its data rows are those lines |
| ExtractorIO.DatasetOfMapped | code/FeatureExtractor/src/es/uam/irg/io/IOManager.java:65-78 | rows that each read as one proposition read as all of them, in order |
| ExtractorIO.SaveReadRoundTrip | code/FeatureExtractor/src/es/uam/irg/io/IOManager.java:196-221 | saving writable propositions and reading the file back gives the same propositions, each with an empty relation type |
| ExtractorIO.TaxonomyRow | code/FeatureExtractor/src/es/uam/irg/io/IOManager.java:117-128 | a taxonomy row yields a linker exactly when it has six fields and its linker is none of "e", "ni", "o", "y"; the linker takes fields 2 to 5 as category, sub-category, relation type and linker |
| ExtractorIO.ReadLinkerTaxonomy | code/FeatureExtractor/src/es/uam/irg/io/IOManager.java:98-133 | a missing file gives no linkers; otherwise the header is dropped and the kept linkers are added in file order |
| ExtractorIO.SaveTextFeatures | code/FeatureExtractor/src/es/uam/irg/io/IOManager.java:229-254 | the JSON text is built first; when the file can be opened the result is true and the file holds that text, otherwise the result is false and nothing is written |
| ExtractorIO.ListedJoin | code/FeatureExtractor/src/es/uam/irg/io/IOManager.java:234-236 | the loop's entries, each followed by ",\n", are their ",\n"-join followed by one ",\n" |
| ExtractorIO.JsonText | code/FeatureExtractor/src/es/uam/irg/io/IOManager.java:233-237 | cutting the last two characters and closing with "\n}" gives the JSON text of the features |
| ExtractorIO.FeaturesJsonShape | code/FeatureExtractor/src/es/uam/irg/io/IOManager.java:233-237 | with features, the text opens with "{\n", closes with "\n}", and holds each feature's member in list order between ",\n" separators |
| ExtractorIO.NoFeaturesJson | code/FeatureExtractor/src/es/uam/irg/io/IOManager.java:233-237 | with no features the text is just "\n}", the opening brace being cut with the missing separator |
| ExtractorDataset.OutcomeAt | code/FeatureExtractor/src/es/uam/irg/io/Dataset.java:145-151 | each document's outcome is its id's parse, paired with its linker |
| ExtractorDataset.Put | code/FeatureExtractor/src/es/uam/irg/io/Dataset.java:153-156 | storing a linker sets exactly that (proposal, sentence) entry, creating the inner map when needed, and leaves every other entry unchanged |
| ExtractorDataset.GetSentencesWithArguments | code/FeatureExtractor/src/es/uam/irg/io/Dataset.java:136-165 | the document loop returns exactly the annotation map of its specification, also when a malformed id ends it early |
| ExtractorDataset.AddDoc | code/FeatureExtractor/src/es/uam/irg/io/Dataset.java:146-157 | one document is skipped when its id has no two parts, stops the loop when a part is no number, and otherwise stores its linker |
| ExtractorDataset.ProposalRows | code/FeatureExtractor/src/es/uam/irg/io/Dataset.java:72-82 | a proposal's sentence i becomes a proposition numbered i + 1 with the linker annotated for it, or the "-" linker |
| ExtractorDataset.CreateDataset | code/FeatureExtractor/src/es/uam/irg/io/Dataset.java:56-91 | a failed proposal query raises a null-pointer error; otherwise the dataset holds every sentence of every proposal in order, is saved, and is returned when the file could be written or raises "the file could not be created" |
| ExtractorDataset.FirstMalformed | code/FeatureExtractor/src/es/uam/irg/io/Dataset.java:149-151 | the index of the first malformed id, or the number of ids when there is none; the classifier's loop (ml/Dataset.java:84-86) stops at the same index |
| ExtractorDataset.FirstRaise | code/FeatureExtractor/src/es/uam/irg/io/Dataset.java:149-151 | the first malformed id among the documents, or the number of documents when there is none |
| ExtractorDataset.FirstRaiseSnoc | code/FeatureExtractor/src/es/uam/irg/io/Dataset.java:145-151 | one more document keeps an earlier raise, or raises there when its id is malformed, or leaves none |
| ExtractorDataset.LastFor | code/FeatureExtractor/src/es/uam/irg/io/Dataset.java:156 | a found linker comes from some document naming that proposal and sentence |
| ExtractorDataset.CollectStopPersists | code/FeatureExtractor/src/es/uam/irg/io/Dataset.java:145-162 | once a malformed id stopped the loop, later documents change nothing |
| ExtractorDataset.CollectIsLast | code/FeatureExtractor/src/es/uam/irg/io/Dataset.java:145-162 | the loop stops exactly when some id is malformed, and the map then holds, for each proposal and sentence, the linker of the last document before that id which names them |
| ExtractorDataset.AnnotationIsLast | code/FeatureExtractor/src/es/uam/irg/io/Dataset.java:136-165 | the annotation of a sentence is the linker of the last document before the first malformed id whose id names it |
| ExtractorDataset.NumberedId | code/FeatureExtractor/src/es/uam/irg/io/Dataset.java:146-151 | an id "p-s" of two non-negative 32-bit numbers is used as proposal p, sentence s |
| ExtractorDataset.NegativeIdUnused | code/FeatureExtractor/src/es/uam/irg/io/Dataset.java:146-149 | a negative first number adds a '-' of its own, so the id has three parts and is skipped |
| ExtractorDataset.DatasetSize | code/FeatureExtractor/src/es/uam/irg/io/Dataset.java:68-83 | the dataset has one proposition per sentence of the proposals |
| ExtractorDataset.DatasetSentence | code/FeatureExtractor/src/es/uam/irg/io/Dataset.java:68-83 | sentence i of proposal j stands after the sentences of the proposals before it, is numbered i + 1, keeps its text and carries the linker last annotated for it before any malformed id, or the "-" linker |
| ExtractorDataset.RowAt | code/FeatureExtractor/src/es/uam/irg/io/Dataset.java:68-83 | sentence i of proposal j stands after the sentences of the proposals before it, numbered i + 1, with its linker |
| ExtractorDataset.DatasetPrefix | code/FeatureExtractor/src/es/uam/irg/io/Dataset.java:68-83 | the rows of the first proposals are a prefix of the rows of all of them |
| ClassifierDataset.Add | code/ArgumentClassifier/src/es/uam/irg/ml/Dataset.java:88-91 | appending an argument number adds it at the end of its sentence's list, creating the list when needed, and leaves every other sentence unchanged |
| ClassifierDataset.IdOutcomes | code/ArgumentClassifier/src/es/uam/irg/ml/Dataset.java:80-86 | each document id has its own outcome |
| ClassifierDataset.IdOutcomeAt | code/ArgumentClassifier/src/es/uam/irg/ml/Dataset.java:81-86 | the outcome of document i is the parse of its id |
| ClassifierDataset.GetSentencesWithArguments | code/ArgumentClassifier/src/es/uam/irg/ml/Dataset.java:73-100 | the document loop returns exactly the map of its specification, also when a malformed id ends it early |
| ClassifierDataset.AddId | code/ArgumentClassifier/src/es/uam/irg/ml/Dataset.java:81-92 | one id is skipped when it has no two parts, stops the loop when a part is no number, and otherwise appends its argument number to its sentence |
| ClassifierDataset.CreateDataset | code/ArgumentClassifier/src/es/uam/irg/ml/Dataset.java:49-58 | creating the dataset always reports false |
| ClassifierDataset.CollectStopPersists | code/ArgumentClassifier/src/es/uam/irg/ml/Dataset.java:80-97 | once a malformed id stopped the loop, later ids change nothing |
| ClassifierDataset.CollectArgs | code/ArgumentClassifier/src/es/uam/irg/ml/Dataset.java:80-97 | the loop stops exactly when some id is malformed; a sentence's list is then the argument numbers of the ids before that one which name it, in order and with repeats, and a sentence has an entry exactly when that list is non-empty |
| ClassifierDataset.SentenceArguments | code/ArgumentClassifier/src/es/uam/irg/ml/Dataset.java:73-100 | the same, stated on the document ids |
| ClassifierIO.RowOf | code/ArgumentClassifier/src/es/uam/irg/io/IOManager.java:78-86 | a row without exactly four fields is skipped; with four it reads exactly when both ids parse as Java ints, taking the text and the label from the last two fields, and otherwise raises NumberFormatException |
| ClassifierIO.ReadRow | code/ArgumentClassifier/src/es/uam/irg/io/IOManager.java:78-86 | the body of the row loop is the row function |
| ClassifierIO.ReadDatasetFile | code/ArgumentClassifier/src/es/uam/irg/io/IOManager.java:60-99 | a missing file reads as no propositions; otherwise the first line is dropped and the rows are read in file order, the first failing row ending the read |
| ClassifierIO.DatasetErrPersists | code/ArgumentClassifier/src/es/uam/irg/io/IOManager.java:77-87 | once a row raises, later rows change nothing |
| ClassifierIO.SplitRow | code/ArgumentClassifier/src/es/uam/irg/io/IOManager.java:78 | a row of four fields with a free third one splits into the two ids, the pieces of the text and the label |
| ClassifierIO.SplitsInTwo | code/ArgumentClassifier/src/es/uam/irg/io/IOManager.java:78 | a string holding the separator splits into at least two fields |
| ClassifierIO.CommaTextDropsRow | code/ArgumentClassifier/src/es/uam/irg/io/IOManager.java:78-80 | a comma in the text adds a field, so the row is skipped |
| ClassifierIO.RowRoundTrip | code/ArgumentClassifier/src/es/uam/irg/io/IOManager.java:78-85 | the row of a proposition with 32-bit ids, a comma-free text and a non-empty comma-free label reads back as that proposition |
| ClassifierIO.RowTextNoBreak | code/ArgumentClassifier/src/es/uam/irg/io/IOManager.java:77 | such a row is one line |
| ClassifierIO.DatasetOfMapped | code/ArgumentClassifier/src/es/uam/irg/io/IOManager.java:77-87 | rows that each read as one proposition read as all of them, in order |
| ClassifierIO.FileOrder | code/ArgumentClassifier/src/es/uam/irg/io/IOManager.java:60-99 | a file of any one-line header and then one row per readable proposition reads as those propositions, in file order |
| Text.JavaParseInt | code/FeatureExtractor/src/es/uam/irg/nlp/am/arguments/ArgumentId.java:36-38 | Integer.parseInt accepts only an optional sign and ASCII decimal digits, and only values in the 32-bit range |
| Text.ParseIntRoundTrip | code/FeatureExtractor/src/es/uam/irg/io/IOManager.java:206-207 | the decimal rendering of a 32-bit integer parses back to that integer |
| Text.JavaSplitJoin | code/FeatureExtractor/src/es/uam/irg/nlp/am/arguments/ArgumentId.java:34 | splitting a join of separator-free parts, the last non-empty, gives the parts back |
| Lines.ReadTerminated | code/ArgumentClassifier/src/es/uam/irg/io/IOManager.java:76-77 | reading back break-free lines, each followed by '\n', line by line gives the lines themselves |
| Lines.DataRowsTerminated | code/FeatureExtractor/src/es/uam/irg/io/IOManager.java:64-65 | after a one-line header, the rows the readers loop over are the written rows |

## Left out

- Unicode case mapping: lower- and upper-casing cover ASCII and the Latin-1 capitals only.
- Text.JavaParseInt: only the ASCII digits 0-9 are accepted; Java's parseInt also accepts every other Unicode decimal digit (it reads each character with `Character.digit(c, 10)`), so an id such as "١-٢-٣" raises NumberFormat in the model where Java reads the numbers 1, 2 and 3. The same holds at every parseInt site built on it: ArgumentIds.Parse, ExtractorIO.RowOf, ExtractorDataset.ParseId, ClassifierIO.RowOf and ClassifierDataset.IdOutcomes.
- Java strings as UTF-16 code units: a string is a sequence of Dafny characters.
- Hash-map iteration order: the proposals, the linker maps and the feature maps that the Java code walks in `HashMap` order are taken as given sequences.
- scikit-learn, `CountVectorizer`, `OneHotEncoder`, pandas `DataFrame`, `calc_df_sparsity`, `model_optimizer` and `calculate_errors` (ml/utility.py:56): numerical library code that no property here is about.
- File, database and console I/O: the modules take file content, a writability flag and printed lines as parameters.
- Java `int` overflow in the feature counters: counts are unbounded naturals; ids are limited to the 32-bit range where `Integer.parseInt` is modelled.
- The `TaskType.IDENTIFICATION` value of `utility.py` is taken as the "identification" string that `engine.py` compares against; the two files disagree in the version at hand.
- `cul.convert_categ_to_num` and `cul.convert_dict_dict_to_list`, which `ml/utility.py`, `ml/engine.py` and `ml_engine.py` call on the classifier's `util_lib` module: that `util_lib.py` defines only file, JSON and YAML readers, so as written these calls raise AttributeError. The model takes them to mean the category codec of DataProcessor's `util/ml.py` (lines 17-35), which is modelled.
- `getSubArray` given a null array: the model's arrays are sequences and are never null.
- Stability of the sort in `sortByValue` on tied values: the model's insertion sort keeps ties in input order, but only the order and the permutation are proved.
- `StringUtils` and `ArgumentLinker` (`equals`, `isEquals`, `nTokens`, `toString`): these are foreign helpers and enter as the functions of an oracle record.
- The `FeatureUtils` overloads that the feature classes call do not match those in the file; the feature classes therefore take `wordCouples` and `usedLinkers` as function parameters.
- `getSentencePosition`: the position of a sentence in its document is an input.
- `ArgumentLinkerManager` and its verbose printing of the taxonomy: only the taxonomy filter (`readLinkerTaxonomy`) is modelled.
- An `IOException` from `readLine` in the middle of a read: reading a file succeeds or fails as a whole.
- The legacy `listToString` renders elements with `toString`; the model takes that rendering as a function parameter.
- A null `ArgumentEngine`: it is modelled as a missing language (`None`), from which the date format is "" and the extraction raises a null-pointer error; no other use of a null engine is modelled.
- The CoreNLP pipeline: its tokens, named entities and constituency tree are inputs.
- `getSentences` of a document: the sentence splitter is the `sentencesOf` parameter.
- The base class's `extraction` in feat/TextFeature.java:46-52 returns nothing, while ArgumentFeature.java:121-127 declares one of the same name that returns a boolean; Java does not accept that as an override, so the two files come from different versions. ArgumentFeatures.ArgumentFeature.Extraction follows the boolean version: it returns Ok(false) for a short text, a null-pointer error for a missing language, and otherwise the extraction's result. DetectionFeatures.DetectionTextFeature.Extraction follows the base version and returns nothing.
- The JSON constructor of `Argument` (Argument.java:61-71): parsing JSON is not part of this model.
- Missing keys in the annotation records: `pre_process_dataset` reads `row['text']`, `row['tokens']`, `row['spans']` and each token's `'text'` without a guard (data_process.py:33-38), so a record without one raises KeyError. The model's row and token records always hold these fields, so that KeyError is not modelled; only the unbound `proposal_id` error is.
- Database clients: documents arrive as parameters. A missing `argumentID` in an annotation, or a missing `linker` sub-document (Dataset.java:147 builds the linker before the id is tested), makes the source throw a `NullPointerException`; neither is modelled, since each modelled document always carries both.
- `Constants.LEXICON_FILEPATH` and the file lookup: the lexicon file of a language enters as an `Option` of its content.
- ExtractorIO.SaveTextFeatures: each feature enters as its id and its `toString` text, not as the feature object.
- A partial write when an `IOException` interrupts a writer: a write succeeds or fails as a whole.
- `getDataset` of both `Dataset` classes: it is the dataset reader applied to the configured path, and the reader is modelled.
- `ClassificationTextFeature` and the plain record-holder classes: they only carry fields.

## Findings

| source | as written | input that shows it | evidently intended | confidence | as-written member | corrected member |
|---|---|---|---|---|---|---|
| code/ArgumentClassifier/src/ml/engine.py:145 | `if ["key_words"]:` tests a one-element list literal, which is always true, so the keyword list is one-hot encoded whatever the setup says | a setup with `key_words` switched off and one labelled record | `if setup["key_words"]:`, so that the keyword list is encoded exactly when keywords are switched on | not executed | MlEngine.OneHotGuardAsWritten | MlEngine.OneHotGuard |
