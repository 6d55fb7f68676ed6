/** The result rendering of breast_cancer_classifer.py: the network's
    scores are reduced to the index of the best score, the index to a class
    label, and the label to a canned explanation; every failure becomes an
    error string instead of an exception. The network itself is not part of
    this model: its outcome for an image path is an input. */
module Classifier {
  import opened Wrappers
  import opened Text

  const NormalDescription: string :=
    "*Normal:* " + "Cells appear healthy and show no signs of cancer. "
    + "There is no indication of abnormal tissue structure or cellular activity. "
    + "No further investigation is typically required, but periodic screenings help ensure continued health."

  const BenignDescription: string :=
    "*Benign:* " + "Cells may appear abnormal but are *non-cancerous* and do not spread to other tissues. "
    + "These growths are usually slow-growing and not life-threatening. "
    + "Monitoring for changes in size or behavior is common, and removal may be considered if symptoms develop."

  const MalignantDescription: string :=
    "*Malignant:* " + "Cells are *cancerous*, showing uncontrolled growth, abnormal structure, "
    + "and potential to invade nearby tissues or spread to distant organs. "
    + "Further diagnostic evaluation and staging are important to determine the extent. "
    + "Management may involve treatment plans such as surgery, chemotherapy, or radiation depending on the progression."

  /** `class_descriptions`: class label to explanation. */
  const ClassDescriptions: map<string, string> :=
    map["normal" := NormalDescription, "benign" := BenignDescription, "malignant" := MalignantDescription]

  /** `class_labels`: index of the network's output to class label. */
  const ClassLabels: map<int, string> := map[0 := "benign", 1 := "malignant", 2 := "normal"]

  /** The start of every error string the classifier returns. */
  const ErrorPrefix: string := "\U{274C} Error processing the image: "

  /** The message Keras' `load_img` raises for a missing path. */
  const NoPathMessage: string := "path should be path-like or io.BytesIO, not <class 'NoneType'>"

  /** The message numpy's `argmax` raises for an empty array. */
  const EmptyArgmaxMessage: string := "attempt to get argmax of an empty sequence"

  /** `np.argmax` on the flattened scores: a position of a largest score,
      the first one when several are equally large. */
  function Argmax(scores: seq<real>): (k: nat)
    requires |scores| > 0
    ensures k < |scores|
    ensures forall j :: 0 <= j < |scores| ==> scores[j] <= scores[k]
    ensures forall j :: 0 <= j < k ==> scores[j] < scores[k]
  {
    if |scores| == 1 then 0
    else
      var k := Argmax(scores[..|scores| - 1]);
      if scores[k] < scores[|scores| - 1] then |scores| - 1 else k
  }

  /** Python's `str` of a non-negative integer, the text of a `KeyError`. */
  function Decimal(n: nat): (r: string)
    ensures |r| > 0
    ensures forall i :: 0 <= i < |r| ==> '0' <= r[i] <= '9'
    ensures r[0] == '0' <==> n == 0
    decreases n
  {
    if n < 10 then [(48 + n) as char] else Decimal(n / 10) + [(48 + n % 10) as char]
  }

  /** The number a string of decimal digits spells, most significant digit first. */
  function DigitsValue(s: string): (n: nat)
    requires forall i :: 0 <= i < |s| ==> '0' <= s[i] <= '9'
  {
    if |s| == 0 then 0 else 10 * DigitsValue(s[..|s| - 1]) + (s[|s| - 1] as int - 48)
  }

  /** `Decimal` spells its argument: read back as digits it gives `n`. */
  lemma {:induction false} DecimalValue(n: nat)
    ensures DigitsValue(Decimal(n)) == n
    decreases n
  {
    if n >= 10 {
      DecimalValue(n / 10);
      var r := Decimal(n);
      assert r[..|r| - 1] == Decimal(n / 10);
    }
  }

  /** The error string for an exception with message `message`: it starts
      with the error prefix and is none of the explanations. */
  function ErrorResult(message: string): (r: string)
    ensures StartsWith(r, ErrorPrefix)
    ensures r !in ClassDescriptions.Values
  {
    var r := ErrorPrefix + message;
    assert r[..|ErrorPrefix|] == ErrorPrefix;
    assert r[0] == '\U{274C}';
    DescriptionsAre();
    r
  }

  /** The explanation of the class at `index`: the lookups of the index
      and then of its label both succeed. */
  function Explanation(index: int): (r: string)
    requires index in ClassLabels
    ensures ClassLabels[index] in ClassDescriptions && r == ClassDescriptions[ClassLabels[index]]
    ensures r in ClassDescriptions.Values
  {
    LabelsHaveDescriptions();
    ClassDescriptions[ClassLabels[index]]
  }

  /** The scores select a class: there is a score, and the best one's index
      is a key of the label table. */
  predicate Selects(scores: seq<real>) {
    |scores| > 0 && Argmax(scores) in ClassLabels
  }

  /** The image was loaded and scored, and the scores select a class. */
  predicate Classifies(imagePath: Option<string>, prediction: Reply<seq<real>>) {
    imagePath.Some? && prediction.Returned? && Selects(prediction.value)
  }

  /** `breast_cancer_detection_model`: the explanation of the predicted
      class, or an error string when loading, scoring or a lookup fails.
      `prediction` is what loading and scoring the image at `imagePath` gives. */
  function BreastCancerDetectionModel(imagePath: Option<string>, prediction: Reply<seq<real>>): (r: string)
    ensures Classifies(imagePath, prediction) ==>
      var i := Argmax(prediction.value);
      i in ClassLabels && ClassLabels[i] in ClassDescriptions && r == ClassDescriptions[ClassLabels[i]]
    ensures !Classifies(imagePath, prediction) ==> StartsWith(r, ErrorPrefix)
    ensures r in ClassDescriptions.Values <==> Classifies(imagePath, prediction)
  {
    if imagePath.None? then ErrorResult(NoPathMessage)
    else match prediction
      case Raised(message) => ErrorResult(message)
      case Returned(scores) =>
        if |scores| == 0 then ErrorResult(EmptyArgmaxMessage)
        else
          var index := Argmax(scores);
          if index !in ClassLabels then ErrorResult(Decimal(index))
          else Explanation(index)
  }

  /** `class_labels` is defined exactly on 0, 1 and 2, and sends them to
      three different labels. */
  lemma LabelsTable()
    ensures ClassLabels.Keys == {0, 1, 2}
    ensures ClassLabels.Values == {"benign", "malignant", "normal"}
    ensures forall i, j :: i in ClassLabels && j in ClassLabels && ClassLabels[i] == ClassLabels[j] ==> i == j
  {
  }

  /** Every label has an explanation, so index to label to explanation
      never fails on 0, 1 and 2. */
  lemma LabelsHaveDescriptions()
    ensures forall i | i in ClassLabels :: ClassLabels[i] in ClassDescriptions
    ensures ClassDescriptions.Keys == ClassLabels.Values
  {
    assert ClassLabels[0] == "benign" && ClassLabels[1] == "malignant" && ClassLabels[2] == "normal";
  }

  /** The explanations are exactly the three canned texts, which start
      with an asterisk. */
  lemma DescriptionsAre()
    ensures ClassDescriptions.Values == {NormalDescription, BenignDescription, MalignantDescription}
    ensures forall d | d in ClassDescriptions.Values :: |d| > 0 && d[0] == '*'
  {
    assert ClassDescriptions["normal"] == NormalDescription;
    assert ClassDescriptions["benign"] == BenignDescription;
    assert ClassDescriptions["malignant"] == MalignantDescription;
    forall d | d in ClassDescriptions.Values
      ensures d == NormalDescription || d == BenignDescription || d == MalignantDescription
    {
      var key :| key in ClassDescriptions && ClassDescriptions[key] == d;
    }
  }

  /** The three explanations are pairwise different, so an explanation
      names its class: `class_descriptions` is injective. */
  lemma DescriptionsDistinct()
    ensures NormalDescription != BenignDescription
    ensures NormalDescription != MalignantDescription
    ensures BenignDescription != MalignantDescription
    ensures forall a, b :: a in ClassDescriptions && b in ClassDescriptions && ClassDescriptions[a] == ClassDescriptions[b] ==> a == b
  {
    assert NormalDescription[1] == 'N';
    assert BenignDescription[1] == 'B';
    assert MalignantDescription[1] == 'M';
  }

  /** The network outputs three scores, so the best index is 0, 1 or 2 and
      always has a label. */
  lemma ThreeScoresSelect(scores: seq<real>)
    requires |scores| == 3
    ensures Selects(scores) && Argmax(scores) < 3
  {
    LabelsTable();
  }

  /** A successful result determines the predicted class: two predictions
      that produce the same explanation have the same best index. */
  lemma ResultDeterminesClass(path1: Option<string>, prediction1: Reply<seq<real>>,
                              path2: Option<string>, prediction2: Reply<seq<real>>)
    requires Classifies(path1, prediction1) && Classifies(path2, prediction2)
    requires BreastCancerDetectionModel(path1, prediction1) == BreastCancerDetectionModel(path2, prediction2)
    ensures Argmax(prediction1.value) == Argmax(prediction2.value)
  {
    DescriptionsDistinct();
    LabelsTable();
  }
}
