/**
 * The fitted objects of one model bundle, reduced to the functions the
 * pipeline calls on them. Fitting, transforming, predicting and encoding are
 * library code; here they are opaque functions carried by the bundle.
 */
module Models {
  import opened Common
  import opened Frames

  /** A numeric array, one row per sample. */
  type Matrix = seq<seq<real>>

  /** Encoded class labels, one per sample. */
  type Labels = seq<real>

  /** `f1_score(y_true, y_pred)`. */
  type F1Score = (Labels, Labels) -> real

  /**
   * A transformer (with the feature names it was fitted on), a classifier and
   * a target encoder, as saved together in one registry slot or produced by
   * one training run.
   */
  datatype Bundle = Bundle(
    featureNames: seq<string>,
    transform: seq<Column> -> Matrix,
    predict: Matrix -> Labels,
    encode: seq<Cell> -> Labels,
    decode: Labels -> seq<string>)

  /**
   * `model.predict(transformer.transform(df[transformer.feature_names_in_]))`:
   * the bundle sees only the columns named by its own transformer, or fails
   * (KeyError) when one of them is absent.
   */
  function Predict(b: Bundle, frame: seq<Column>): (r: Option<Labels>)
    ensures r.Some? <==> forall n :: n in b.featureNames ==> n in Names(frame)
    ensures r.Some? ==> exists cols :: Select(frame, b.featureNames) == Some(cols) && r.value == b.predict(b.transform(cols))
  {
    match Select(frame, b.featureNames)
    case None => None
    case Some(cols) => Some(b.predict(b.transform(cols)))
  }
}
