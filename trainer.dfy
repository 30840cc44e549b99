/**
 * The trainer stage: split the stacked arrays into features and target, fit
 * a classifier, and accept it only when its test score reaches the expected
 * score and train and test scores are close enough.
 */
module ModelTrainer {
  import opened Common
  import opened Models

  datatype TrainerConfig = TrainerConfig(modelPath: string, expectedScore: real, overfittingThreshold: real)

  datatype TrainerArtifact = TrainerArtifact(modelPath: string, f1TrainScore: real, f1TestScore: real)

  /** Why the stage raises. */
  datatype TrainerError =
    | Underfitting(expected: real, actual: real)
    | Overfitting(diff: real, threshold: real)

  /** Fitting a classifier on features and labels yields its prediction function. */
  type Fit = (Matrix, Labels) -> (Matrix -> Labels)

  /** Every row has at least the target column. */
  predicate HasTarget(arr: Matrix)
  {
    forall i :: 0 <= i < |arr| ==> |arr[i]| >= 1
  }

  /** `arr[:, :-1]`: every row without its last element. */
  function Features(arr: Matrix): (x: Matrix)
    requires HasTarget(arr)
    ensures |x| == |arr|
    ensures forall i :: 0 <= i < |arr| ==> |x[i]| == |arr[i]| - 1 && x[i] + [arr[i][|arr[i]| - 1]] == arr[i]
  {
    seq(|arr|, i requires 0 <= i < |arr| => arr[i][..|arr[i]| - 1])
  }

  /** `arr[:, -1]`: the last element of every row. */
  function Target(arr: Matrix): (y: Labels)
    requires HasTarget(arr)
    ensures |y| == |arr|
    ensures forall i :: 0 <= i < |arr| ==> Features(arr)[i] + [y[i]] == arr[i]
  {
    seq(|arr|, i requires 0 <= i < |arr| => arr[i][|arr[i]| - 1])
  }

  /** `np.c_[x, y]`: every feature row with its label appended. */
  function Stack(x: Matrix, y: Labels): (arr: Matrix)
    requires |x| == |y|
    ensures HasTarget(arr)
  {
    seq(|x|, i requires 0 <= i < |x| => x[i] + [y[i]])
  }

  /** Splitting undoes stacking. */
  lemma SplitStack(x: Matrix, y: Labels)
    requires |x| == |y|
    ensures Features(Stack(x, y)) == x
    ensures Target(Stack(x, y)) == y
  {
    var arr := Stack(x, y);
    forall i | 0 <= i < |x| ensures Features(arr)[i] == x[i] {
      assert arr[i] == x[i] + [y[i]];
    }
  }

  /** Stacking undoes splitting: features and target rebuild every row. */
  lemma StackSplit(arr: Matrix)
    requires HasTarget(arr)
    ensures |Features(arr)| == |Target(arr)| == |arr|
    ensures Stack(Features(arr), Target(arr)) == arr
  {
    forall i | 0 <= i < |arr| ensures Stack(Features(arr), Target(arr))[i] == arr[i] {
      assert arr[i] == arr[i][..|arr[i]| - 1] + [arr[i][|arr[i]| - 1]];
    }
  }

  function Abs(d: real): real
  {
    if d < 0.0 then -d else d
  }

  /**
   * The acceptance rule: underfitting is checked first, so a model that fails
   * both checks is reported as underfitting; equality passes both checks.
   */
  function Gate(trainScore: real, testScore: real, config: TrainerConfig): (r: Result<TrainerArtifact, TrainerError>)
    ensures r.Err? && r.error.Underfitting? <==> testScore < config.expectedScore
    ensures r.Err? && r.error.Overfitting? <==>
      testScore >= config.expectedScore && Abs(testScore - trainScore) > config.overfittingThreshold
    ensures r.Ok? <==>
      testScore >= config.expectedScore && -config.overfittingThreshold <= testScore - trainScore <= config.overfittingThreshold
    ensures r.Ok? ==> r.value == TrainerArtifact(config.modelPath, trainScore, testScore)
  {
    if testScore < config.expectedScore then
      Err(Underfitting(config.expectedScore, testScore))
    else
      var diff := Abs(testScore - trainScore);
      if diff > config.overfittingThreshold then Err(Overfitting(diff, config.overfittingThreshold))
      else Ok(TrainerArtifact(config.modelPath, trainScore, testScore))
  }

  /**
   * The trainer stage: fit on the train split, score the fitted model on both
   * splits, and apply the gate. An `Ok` result is the only outcome in which
   * the model object gets saved.
   */
  function InitiateModelTrainer(trainArr: Matrix, testArr: Matrix, config: TrainerConfig, fit: Fit, f1: F1Score)
    : (r: Result<TrainerArtifact, TrainerError>)
    requires HasTarget(trainArr) && HasTarget(testArr)
    ensures var model := fit(Features(trainArr), Target(trainArr));
      var trainScore := f1(Target(trainArr), model(Features(trainArr)));
      var testScore := f1(Target(testArr), model(Features(testArr)));
      (r.Ok? <==> testScore >= config.expectedScore && Abs(testScore - trainScore) <= config.overfittingThreshold) &&
      (r.Ok? ==> r.value == TrainerArtifact(config.modelPath, trainScore, testScore)) &&
      (r.Err? ==> (r.error.Underfitting? <==> testScore < config.expectedScore))
  {
    var xTrain, yTrain := Features(trainArr), Target(trainArr);
    var xTest, yTest := Features(testArr), Target(testArr);
    var model := fit(xTrain, yTrain);
    var f1TrainScore := f1(yTrain, model(xTrain));
    var f1TestScore := f1(yTest, model(xTest));
    Gate(f1TrainScore, f1TestScore, config)
  }
}
