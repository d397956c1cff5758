/** `DocumentProcessor.process` of src/orchestration/processor.py: preprocess, OCR, classify,
    extract, validate, each stage fed the previous one's output, any exception turned into a
    failed result. Preprocessing, OCR, classification and extraction are parameters; the
    validator is the one modelled in `ValidationEngine`. */
module Processor {
  import opened Strings
  import opened Outcomes
  import opened Validators
  import ValidationEngine
  import ClassificationEngine

  type FieldMap = map<string, string>

  /** The result dictionary: `status` is "success" or "failed". The confidence is in tenths,
      as the classifier reports it; `validation` is None for `{}`. */
  datatype ProcessResult =
    | Success(documentType: string, confidence: int, extractedFields: FieldMap,
              validation: Option<ValidationEngine.ValidationResult>, rawText: string, classificationMethod: string)
    | Failed(error: string)

  /** The `method` strings of the classifier. */
  function MethodName(m: ClassificationEngine.Method): string {
    match m
    case RuleBased => "rule_based"
    case LlmGemini => "llm_gemini"
    case LlmFailed => "llm_failed"
    case UserProvided => "user_provided"
  }

  /** `process` */
  function Process<Img>(imagePath: string, preprocess: string -> Outcome<Img>, ocr: Img -> Outcome<string>,
                        classify: string -> Outcome<ClassificationEngine.Classification>,
                        extract: (string, string) -> Outcome<FieldMap>, today: Date): ProcessResult
  {
    match preprocess(imagePath)
    case Raised(e) => Failed(e)
    case Done(processedImage) =>
      match ocr(processedImage)
      case Raised(e) => Failed(e)
      case Done(text) =>
        match classify(text)
        case Raised(e) => Failed(e)
        case Done(classification) =>
          var docType := classification.docType;
          match (if docType != "unknown" then extract(text, docType) else Done(map[]))
          case Raised(e) => Failed(e)
          case Done(extractedData) =>
            var validationResult :=
              if extractedData != map[] then Some(ValidationEngine.Expected(extractedData, docType, today)) else None;
            Success(docType, classification.confidence, extractedData, validationResult, text,
                    MethodName(classification.via))
  }

  /** A success passes every stage the previous stage's output, and reports the OCR text and
      the classification it got. */
  lemma StagesFeedForward<Img>(imagePath: string, preprocess: string -> Outcome<Img>, ocr: Img -> Outcome<string>,
                               classify: string -> Outcome<ClassificationEngine.Classification>,
                               extract: (string, string) -> Outcome<FieldMap>, today: Date)
    requires Process(imagePath, preprocess, ocr, classify, extract, today).Success?
    ensures var r := Process(imagePath, preprocess, ocr, classify, extract, today);
      preprocess(imagePath).Done? && ocr(preprocess(imagePath).value) == Done(r.rawText)
      && classify(r.rawText).Done?
      && r.documentType == classify(r.rawText).value.docType
      && r.confidence == classify(r.rawText).value.confidence
      && r.classificationMethod == MethodName(classify(r.rawText).value.via)
      && (r.documentType != "unknown" ==> extract(r.rawText, r.documentType) == Done(r.extractedFields))
  {
  }

  /** An "unknown" document is neither extracted nor validated. */
  lemma UnknownSkipsExtraction<Img>(imagePath: string, preprocess: string -> Outcome<Img>, ocr: Img -> Outcome<string>,
                                    classify: string -> Outcome<ClassificationEngine.Classification>,
                                    extract: (string, string) -> Outcome<FieldMap>, today: Date)
    requires Process(imagePath, preprocess, ocr, classify, extract, today).Success?
    requires Process(imagePath, preprocess, ocr, classify, extract, today).documentType == "unknown"
    ensures Process(imagePath, preprocess, ocr, classify, extract, today).extractedFields == map[]
    ensures Process(imagePath, preprocess, ocr, classify, extract, today).validation.None?
  {
  }

  /** Validation runs exactly when some field was extracted, and is then the validator's result. */
  lemma ValidationOnlyWithFields<Img>(imagePath: string, preprocess: string -> Outcome<Img>, ocr: Img -> Outcome<string>,
                                      classify: string -> Outcome<ClassificationEngine.Classification>,
                                      extract: (string, string) -> Outcome<FieldMap>, today: Date)
    requires Process(imagePath, preprocess, ocr, classify, extract, today).Success?
    ensures var r := Process(imagePath, preprocess, ocr, classify, extract, today);
      (r.validation.None? <==> r.extractedFields == map[])
      && (r.validation.Some? ==> r.validation.value == ValidationEngine.Expected(r.extractedFields, r.documentType, today))
  {
  }

  /** The result fails exactly when a stage that ran raised, and then carries that message;
      the later stages never run. */
  lemma FailureIsFirstRaise<Img>(imagePath: string, preprocess: string -> Outcome<Img>, ocr: Img -> Outcome<string>,
                                 classify: string -> Outcome<ClassificationEngine.Classification>,
                                 extract: (string, string) -> Outcome<FieldMap>, today: Date)
    ensures var r := Process(imagePath, preprocess, ocr, classify, extract, today);
      (preprocess(imagePath).Raised? ==> r == Failed(preprocess(imagePath).error))
      && (preprocess(imagePath).Done? && ocr(preprocess(imagePath).value).Raised? ==>
            r == Failed(ocr(preprocess(imagePath).value).error))
      && (r.Failed? <==>
            preprocess(imagePath).Raised? || ocr(preprocess(imagePath).value).Raised?
            || classify(ocr(preprocess(imagePath).value).value).Raised?
            || (classify(ocr(preprocess(imagePath).value).value).value.docType != "unknown"
                && extract(ocr(preprocess(imagePath).value).value,
                           classify(ocr(preprocess(imagePath).value).value).value.docType).Raised?))
  {
  }
}
