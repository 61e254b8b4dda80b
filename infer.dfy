/**
 * `predict_image` (backend/ml/infer.py): the demo switch, the fallback when the
 * model is unavailable, and the fallback when the predictor fails.  The
 * predictor itself is a parameter.
 */
module Infer {
  import opened Wrappers
  import Text

  /** The two fields `predict_image` returns: `{"class": ..., "confidence": ...}`. */
  datatype Prediction = Prediction(className: string, confidence: real)

  /** What the predictor hands back on success, including the per-class probabilities. */
  datatype RawPrediction = RawPrediction(className: string, confidence: real, allProbabilities: seq<(string, real)>)

  /** `predictor.predict_bytes(...)`: it raises, or returns a `(result, error)` pair. */
  datatype PredictorOutcome = Raised | Returned(result: Option<RawPrediction>, error: Option<string>)

  /** The values `random.choice` and `random.random` (behind `random.uniform`) produce. */
  datatype DemoDraw = DemoDraw(pick: nat, u: real)

  const DemoClasses: seq<string> := ["plastic", "sewage", "oil_spill"]
  const DemoLow: real := 0.91
  const DemoHigh: real := 0.99

  /** The value returned whenever no real classification is available. */
  const UnknownPrediction: Prediction := Prediction("unknown", 0.0)

  /** The ranges the `random` module guarantees. */
  predicate IsDraw(d: DemoDraw) {
    d.pick < |DemoClasses| && 0.0 <= d.u < 1.0
  }

  /** The `demo_mode` argument, or `ML_DEMO_MODE` (default "false") equal to "true" ignoring case. */
  predicate DemoModeOn(demoMode: bool, envValue: Option<string>) {
    demoMode || Text.Lower(envValue.GetOr("false")) == "true"
  }

  /** `if error:` holds for a present, non-empty error message. */
  predicate ErrorReported(error: Option<string>) {
    error.Some? && error.value != ""
  }

  /** `random.uniform(0.91, 0.99)` */
  function Uniform(u: real): real {
    DemoLow + (DemoHigh - DemoLow) * u
  }

  /**
   * The non-demo path once the model is loaded: any exception or reported error
   * gives the unknown value; otherwise class and confidence are copied.
   */
  function FromPredictor(outcome: PredictorOutcome): (p: Prediction)
    ensures outcome.Raised? ==> p == UnknownPrediction
    ensures outcome.Returned? && ErrorReported(outcome.error) ==> p == UnknownPrediction
    ensures outcome.Returned? && !ErrorReported(outcome.error) && outcome.result.Some? ==>
      p.className == outcome.result.value.className && p.confidence == outcome.result.value.confidence
  {
    match outcome
    case Raised => UnknownPrediction
    case Returned(result, error) =>
      if ErrorReported(error) then UnknownPrediction
      // `result["class"]` on a missing result raises, and that is caught too
      else if result.None? then UnknownPrediction
      else Prediction(result.value.className, result.value.confidence)
  }

  /** `predict_image(image_bytes, demo_mode)`; it never raises. */
  function PredictImage(
    imageBytes: seq<bv8>,
    demoMode: bool,
    envValue: Option<string>,
    mlAvailable: bool,
    predictor: seq<bv8> -> PredictorOutcome,
    draw: DemoDraw): (p: Prediction)
    requires IsDraw(draw)
    ensures DemoModeOn(demoMode, envValue) ==>
      p.className in DemoClasses && DemoLow <= p.confidence <= DemoHigh
    ensures !DemoModeOn(demoMode, envValue) && !mlAvailable ==> p == UnknownPrediction
    ensures !DemoModeOn(demoMode, envValue) && mlAvailable ==> p == FromPredictor(predictor(imageBytes))
  {
    if DemoModeOn(demoMode, envValue) then
      Prediction(DemoClasses[draw.pick], Uniform(draw.u))
    else if !mlAvailable then
      UnknownPrediction
    else
      FromPredictor(predictor(imageBytes))
  }

  /**
   * Demo mode wins over model availability: with the switch on, neither the
   * load status nor the predictor has any influence on the result.
   */
  lemma DemoModeIgnoresModel(
    imageBytes: seq<bv8>, demoMode: bool, envValue: Option<string>,
    available1: bool, predictor1: seq<bv8> -> PredictorOutcome,
    available2: bool, predictor2: seq<bv8> -> PredictorOutcome,
    draw: DemoDraw)
    requires IsDraw(draw) && DemoModeOn(demoMode, envValue)
    ensures PredictImage(imageBytes, demoMode, envValue, available1, predictor1, draw)
         == PredictImage(imageBytes, demoMode, envValue, available2, predictor2, draw)
  {
  }

  /** The environment switch ignores case: "TRUE" and "True" turn demo mode on. */
  lemma DemoSwitchIgnoresCase()
    ensures DemoModeOn(false, Some("TRUE")) && DemoModeOn(false, Some("True"))
    ensures !DemoModeOn(false, None) && !DemoModeOn(false, Some("yes"))
  {
    assert Text.Lower("TRUE") == "true";
    assert Text.Lower("True") == "true";
    assert Text.Lower("false") == "false";
    assert Text.Lower("yes")[0] == 'y';
  }

  /** Whatever the predictor answers, the result carries only class and confidence of that answer. */
  lemma SuccessPassesThrough(raw: RawPrediction)
    ensures FromPredictor(Returned(Some(raw), None)) == Prediction(raw.className, raw.confidence)
    ensures FromPredictor(Returned(Some(raw), Some(""))) == Prediction(raw.className, raw.confidence)
  {
  }
}
