/**
 * The promotion gate: a freshly trained bundle is compared with the latest
 * bundle of the registry on the same test rows and accepted unless it scores
 * strictly lower. The registry lookup itself is not modelled: its answer
 * (the latest bundle, or none) is an input.
 */
module ModelEvaluation {
  import opened Common
  import opened Frames
  import opened Models

  datatype EvaluationArtifact = EvaluationArtifact(isModelAccepted: bool, improvedAccuracy: Option<real>)

  /** Why the stage raises: a column the bundles need is missing, or the new model scores lower. */
  datatype EvaluationError =
    | MissingTargetColumn
    | MissingFeatureColumns
    | NotBetter(previous: real, current: real)

  /** The decision once both F1 scores are known. */
  function Promote(previous: real, current: real): (r: Result<EvaluationArtifact, EvaluationError>)
    ensures r.Err? <==> current < previous
    ensures r.Err? ==> r.error == NotBetter(previous, current)
    ensures r.Ok? ==> r.value.isModelAccepted && r.value.improvedAccuracy == Some(current - previous)
    ensures r.Ok? ==> r.value.improvedAccuracy.value >= 0.0
  {
    if current < previous then Err(NotBetter(previous, current))
    else Ok(EvaluationArtifact(true, Some(current - previous)))
  }

  /**
   * The F1 scores of the previous and the current bundle on the test rows.
   * Both compare against the target column encoded by the PREVIOUS bundle's
   * encoder; each bundle predicts from the columns its own transformer names.
   */
  function Scores(previous: Bundle, current: Bundle, test: seq<Column>, targetColumn: string, f1: F1Score)
    : (r: Result<(real, real), EvaluationError>)
    ensures r.Err? <==> targetColumn !in Names(test) || Predict(previous, test).None? || Predict(current, test).None?
    ensures r.Err? ==> (r.error == MissingTargetColumn <==> targetColumn !in Names(test))
    ensures r.Err? ==> !r.error.NotBetter?
    ensures r.Ok? ==>
      var yTrue := previous.encode(Lookup(test, targetColumn).value.cells);
      r.value == (f1(yTrue, Predict(previous, test).value), f1(yTrue, Predict(current, test).value))
  {
    match Lookup(test, targetColumn)
    case None => Err(MissingTargetColumn)
    case Some(target) =>
      var yTrue := previous.encode(target.cells);
      match Predict(previous, test)
      case None => Err(MissingFeatureColumns)
      case Some(yPred) =>
        match Predict(current, test)
        case None => Err(MissingFeatureColumns)
        case Some(yPredCurrent) => Ok((f1(yTrue, yPred), f1(yTrue, yPredCurrent)))
  }

  /**
   * The evaluation stage. With no latest bundle the new one is accepted with
   * no improvement value; otherwise both are scored and the gate decides.
   * Every artifact returned says "accepted": rejection is the error.
   */
  function InitiateModelEvaluation(latest: Option<Bundle>, current: Bundle, test: seq<Column>,
                                   targetColumn: string, f1: F1Score)
    : (r: Result<EvaluationArtifact, EvaluationError>)
    ensures latest.None? ==> r == Ok(EvaluationArtifact(true, None))
    ensures r.Ok? ==> r.value.isModelAccepted
    ensures latest.Some? && r.Ok? ==> r.value.improvedAccuracy.Some? && r.value.improvedAccuracy.value >= 0.0
    ensures latest.Some? ==> match Scores(latest.value, current, test, targetColumn, f1)
      case Err(e) => r == Err(e)
      case Ok((previous, now)) =>
        (r.Err? <==> now < previous) &&
        (r.Ok? ==> r.value.improvedAccuracy == Some(now - previous))
  {
    match latest
    case None => Ok(EvaluationArtifact(true, None))
    case Some(previous) =>
      match Scores(previous, current, test, targetColumn, f1)
      case Err(e) => Err(e)
      case Ok((previousScore, currentScore)) => Promote(previousScore, currentScore)
  }

  /** A tie is accepted, with an improvement of zero. */
  lemma TieIsAccepted(previous: Bundle, current: Bundle, test: seq<Column>, targetColumn: string, f1: F1Score)
    requires Scores(previous, current, test, targetColumn, f1).Ok?
    requires Scores(previous, current, test, targetColumn, f1).value.0 == Scores(previous, current, test, targetColumn, f1).value.1
    ensures InitiateModelEvaluation(Some(previous), current, test, targetColumn, f1) == Ok(EvaluationArtifact(true, Some(0.0)))
  {
  }

  /** With an empty registry nothing is scored: the outcome depends on no other input. */
  lemma FirstRunIgnoresScores(current: Bundle, other: Bundle, test: seq<Column>, otherTest: seq<Column>,
                              targetColumn: string, f1: F1Score, otherF1: F1Score)
    ensures InitiateModelEvaluation(None, current, test, targetColumn, f1)
         == InitiateModelEvaluation(None, other, otherTest, targetColumn, otherF1)
  {
  }

  /** The new bundle's own target encoder plays no part: both scores use the previous encoder's labels. */
  lemma CurrentEncoderUnused(latest: Option<Bundle>, current: Bundle, encode: seq<Cell> -> Labels,
                             test: seq<Column>, targetColumn: string, f1: F1Score)
    ensures InitiateModelEvaluation(latest, current.(encode := encode), test, targetColumn, f1)
         == InitiateModelEvaluation(latest, current, test, targetColumn, f1)
  {
  }

  /**
   * Only the target column and the columns named by the two transformers are
   * read: two test frames that agree on those give the same outcome.
   */
  lemma OnlyNamedColumnsRead(previous: Bundle, current: Bundle, test: seq<Column>, other: seq<Column>,
                             targetColumn: string, f1: F1Score)
    requires Lookup(test, targetColumn) == Lookup(other, targetColumn)
    requires Select(test, previous.featureNames) == Select(other, previous.featureNames)
    requires Select(test, current.featureNames) == Select(other, current.featureNames)
    ensures InitiateModelEvaluation(Some(previous), current, test, targetColumn, f1)
         == InitiateModelEvaluation(Some(previous), current, other, targetColumn, f1)
  {
  }
}
