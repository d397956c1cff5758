/** The decision logic of `OCREnsemble` in src/ocr/ensemble.py: the confidence heuristic for
    the primary engine, the threshold short-circuit, and picking or merging the fallback
    engine's result. Engine outputs are inputs; confidences are exact reals. */
module Ensemble {
  import opened Strings
  import EasyEngine

  /** `OCRResult` */
  datatype OcrResult = OcrResult(text: string, confidence: real, engine: string, detections: seq<EasyEngine.Detection>)

  /** What the primary engine's `extract` produced, or that it raised. */
  datatype EngineOutcome = Extracted(text: string) | EngineFailed

  /** `not c.isalnum() and not c.isspace()` */
  predicate IsSpecial(c: char) { !IsAlnum(c) && !IsSpace(c) }

  function SpecialCount(text: string): nat {
    if text == [] then 0 else SpecialCount(text[..|text| - 1]) + (if IsSpecial(text[|text| - 1]) then 1 else 0)
  }

  function Clamp01(x: real): real { if x < 0.0 then 0.0 else if x > 1.0 then 1.0 else x }

  /** The heuristic: 0.5, plus 0.1 past 100 characters and 0.1 more past 500, plus 0.1 for a
      digit and 0.05 for an upper-case letter, minus 0.2 when more than 30% of the characters
      are special, clamped to [0, 1]; the empty text scores 0. */
  function ConfidenceEstimate(text: string): real {
    if text == [] then 0.0
    else Clamp01(0.5 + (if |text| > 100 then 0.1 else 0.0) + (if |text| > 500 then 0.1 else 0.0)
      + (if AnyDigit(text) then 0.1 else 0.0) + (if AnyUpper(text) then 0.05 else 0.0)
      - (if 10 * SpecialCount(text) > 3 * |text| then 0.2 else 0.0))
  }

  /** `_estimate_confidence`; `special / len > 0.3` is `10 * special > 3 * len`. */
  method EstimateConfidence(text: string) returns (confidence: real)
    ensures confidence == ConfidenceEstimate(text)
  {
    if text == [] {
      return 0.0;
    }
    confidence := 0.5;
    if |text| > 100 {
      confidence := confidence + 0.1;
    }
    if |text| > 500 {
      confidence := confidence + 0.1;
    }
    if AnyDigit(text) {
      confidence := confidence + 0.1;
    }
    if AnyUpper(text) {
      confidence := confidence + 0.05;
    }
    var special := 0;
    var i := 0;
    while i < |text|
      invariant 0 <= i <= |text|
      invariant special == SpecialCount(text[..i])
    {
      assert text[..i + 1][..i] == text[..i];
      if IsSpecial(text[i]) {
        special := special + 1;
      }
      i := i + 1;
    }
    assert text[..i] == text;
    if 10 * special > 3 * |text| {
      confidence := confidence - 0.2;
    }
    confidence := Clamp01(confidence);
  }

  /** Every estimate is in [0, 1]; a non-empty text scores between 0.3 and 0.85. */
  lemma EstimateBounds(text: string)
    ensures 0.0 <= ConfidenceEstimate(text) <= 1.0
    ensures text == [] <==> ConfidenceEstimate(text) == 0.0
    ensures text != [] ==> 0.3 <= ConfidenceEstimate(text) <= 0.85
  {
  }

  /** A long text with a digit and an upper-case letter and little noise reaches 0.85. */
  lemma EstimateTop(text: string)
    requires |text| > 500 && AnyDigit(text) && AnyUpper(text) && 10 * SpecialCount(text) <= 3 * |text|
    ensures ConfidenceEstimate(text) == 0.85
  {
  }

  /** `_run_paddle`: a failure yields an empty result instead of raising. */
  function RunPaddle(outcome: EngineOutcome): (r: OcrResult)
    ensures r.engine == "paddleocr" && r.detections == []
    ensures outcome.EngineFailed? ==> r.text == "" && r.confidence == 0.0
    ensures outcome.Extracted? ==> r.text == outcome.text && r.confidence == ConfidenceEstimate(outcome.text)
  {
    match outcome
    case EngineFailed => OcrResult("", 0.0, "paddleocr", [])
    case Extracted(text) => OcrResult(text, ConfidenceEstimate(text), "paddleocr", [])
  }

  /** `_run_easyocr`: None when no fallback engine could be set up. */
  function RunEasyocr(engine: Option<EasyEngine.ReadOutcome>): Option<OcrResult> {
    match engine
    case None => None
    case Some(outcome) =>
      var triple := EasyEngine.ConfidenceExtraction(outcome);
      Some(OcrResult(triple.0, triple.1, "easyocr", triple.2))
  }

  /** `_merge_results`: the second text when it is more than 1.2 times as long as the first. */
  function MergeResults(result1: OcrResult, result2: OcrResult): OcrResult {
    var (primary, secondary) := if 5 * |result2.text| > 6 * |result1.text| then (result2, result1) else (result1, result2);
    OcrResult(primary.text, (result1.confidence + result2.confidence) / 2.0,
      "ensemble(" + primary.engine + "+" + secondary.engine + ")", primary.detections + secondary.detections)
  }

  /** The merged confidence lies between the two, every detection is kept, and the text is
      the second result's exactly when it is more than 1.2 times as long. */
  lemma MergeProperties(result1: OcrResult, result2: OcrResult)
    ensures var m := MergeResults(result1, result2);
      (result1.confidence <= result2.confidence ==> result1.confidence <= m.confidence <= result2.confidence)
      && (result2.confidence <= result1.confidence ==> result2.confidence <= m.confidence <= result1.confidence)
      && |m.detections| == |result1.detections| + |result2.detections|
      && (m.text == (if |result2.text| as real > |result1.text| as real * 1.2 then result2.text else result1.text))
      && multiset(m.detections) == multiset(result1.detections + result2.detections)
  {
  }

  /** The configuration of an ensemble. */
  datatype Config = Config(useEasyocr: bool, confidenceThreshold: real)

  const DefaultConfig := Config(true, 0.7)

  /** `extract_with_metadata` */
  function ExtractWithMetadata(config: Config, paddle: EngineOutcome, easy: Option<EasyEngine.ReadOutcome>): OcrResult {
    var paddleResult := RunPaddle(paddle);
    if paddleResult.confidence >= config.confidenceThreshold then paddleResult
    else if !config.useEasyocr then paddleResult
    else match RunEasyocr(easy)
      case None => paddleResult
      case Some(easyResult) =>
        if easyResult.confidence > paddleResult.confidence then easyResult
        else if -0.1 < easyResult.confidence - paddleResult.confidence < 0.1 then MergeResults(paddleResult, easyResult)
        else paddleResult
  }

  /** `extract` */
  function Extract(config: Config, paddle: EngineOutcome, easy: Option<EasyEngine.ReadOutcome>): string {
    ExtractWithMetadata(config, paddle, easy).text
  }

  /** A primary result at or above the threshold is returned whatever the fallback would do. */
  lemma ConfidentPrimaryWins(config: Config, paddle: EngineOutcome, easy: Option<EasyEngine.ReadOutcome>)
    requires RunPaddle(paddle).confidence >= config.confidenceThreshold
    ensures ExtractWithMetadata(config, paddle, easy) == RunPaddle(paddle)
  {
  }

  /** With the fallback disabled or unavailable the primary result is returned. */
  lemma NoFallbackKeepsPrimary(config: Config, paddle: EngineOutcome, easy: Option<EasyEngine.ReadOutcome>)
    requires !config.useEasyocr || easy.None?
    ensures ExtractWithMetadata(config, paddle, easy) == RunPaddle(paddle)
  {
  }

  /** The result is always one of the primary, the fallback, or their merge. */
  lemma OutcomeKinds(config: Config, paddle: EngineOutcome, easy: Option<EasyEngine.ReadOutcome>)
    ensures var r := ExtractWithMetadata(config, paddle, easy);
      r == RunPaddle(paddle)
      || (RunEasyocr(easy).Some? && r == RunEasyocr(easy).value && r.confidence > RunPaddle(paddle).confidence)
      || (RunEasyocr(easy).Some? && r == MergeResults(RunPaddle(paddle), RunEasyocr(easy).value))
  {
  }

  /** Below the threshold, a strictly more confident fallback is returned unchanged, and one
      within 0.1 below is merged. */
  lemma FallbackChoice(config: Config, paddle: EngineOutcome, easyOutcome: EasyEngine.ReadOutcome)
    requires config.useEasyocr && RunPaddle(paddle).confidence < config.confidenceThreshold
    ensures var p, e := RunPaddle(paddle), RunEasyocr(Some(easyOutcome)).value;
      var r := ExtractWithMetadata(config, paddle, Some(easyOutcome));
      (e.confidence > p.confidence ==> r == e)
      && (p.confidence - 0.1 < e.confidence <= p.confidence ==> r == MergeResults(p, e))
      && (e.confidence <= p.confidence - 0.1 ==> r == p)
  {
  }

  /** The ensemble's confidence never leaves [0, 1] when the fallback's mean does not. */
  lemma ResultConfidenceBounds(config: Config, paddle: EngineOutcome, easy: Option<EasyEngine.ReadOutcome>)
    requires RunEasyocr(easy).Some? ==> 0.0 <= RunEasyocr(easy).value.confidence <= 1.0
    ensures 0.0 <= ExtractWithMetadata(config, paddle, easy).confidence <= 1.0
  {
    if paddle.Extracted? {
      EstimateBounds(paddle.text);
    }
  }
}
