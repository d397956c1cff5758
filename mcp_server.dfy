/** The decision logic of the MCP tools in src/mcp/server.py: the data-URI prefix strip, the
    unknown-type guards of field extraction and validation, strict mode, the content-based
    fraud score, and the gating of the full verification pipeline. Image decoding, temp
    files and the engines behind the tools are parameters. The fraud risk is in hundredths
    (0.15 is 15). */
module McpServer {
  import opened Strings
  import opened Outcomes
  import opened Validators
  import ValidationEngine
  import ClassificationEngine

  type FieldMap = map<string, string>

  // ---------------------------------------------------------------------------------------
  // Data URIs

  lemma {:induction false} SplitHasTwo(s: string, sep: char)
    requires sep in s
    ensures |Split(s, sep)| >= 2
    decreases |s|
  {
    if s[0] != sep {
      assert sep in s[1..];
      SplitHasTwo(s[1..], sep);
    }
  }

  /** `image_base64.split(",")[1]` when the input holds a comma. */
  function StripDataUri(s: string): string {
    if ',' in s then SplitHasTwo(s, ','); Split(s, ',')[1] else s
  }

  /** A data URL `header,payload` yields its payload: the text between the first comma and
      the next one, if any; input without a comma is kept whole. */
  lemma DataUriPayload(header: string, payload: string, rest: string)
    requires ',' !in header && ',' !in payload
    ensures StripDataUri(header + [','] + payload) == payload
    ensures StripDataUri(header + [','] + payload + [','] + rest) == payload
    ensures StripDataUri(payload) == payload
  {
    assert ',' in header + [','] + payload by { assert (header + [','] + payload)[|header|] == ','; }
    SplitFirst(header, ',', payload);
    SplitNoSeparator(payload, ',');
    assert header + [','] + payload + [','] + rest == header + [','] + (payload + [','] + rest);
    assert ',' in header + [','] + payload + [','] + rest by {
      assert (header + [','] + payload + [','] + rest)[|header|] == ',';
    }
    SplitFirst(header, ',', payload + [','] + rest);
    SplitFirst(payload, ',', rest);
    SplitNoSeparator(payload, ',');
  }

  // ---------------------------------------------------------------------------------------
  // Document types and the unknown-type guards

  datatype DocumentType = AadhaarCard | PanCard | VoterId | DrivingLicense | Passport | BirthCertificate | Unknown

  function TypeValue(t: DocumentType): string {
    match t
    case AadhaarCard => "aadhaar_card"
    case PanCard => "pan_card"
    case VoterId => "voter_id"
    case DrivingLicense => "driving_license"
    case Passport => "passport"
    case BirthCertificate => "birth_certificate"
    case Unknown => "unknown"
  }

  /** The `expected_fields` table of `docverify_extract_fields`; other types get `[]`. */
  function ExpectedFields(t: DocumentType): seq<string> {
    match t
    case AadhaarCard => ["name", "aadhaar_number", "dob", "gender", "address"]
    case PanCard => ["name", "pan_number", "father_name", "dob"]
    case VoterId => ["name", "voter_id_number", "age", "father_name"]
    case DrivingLicense => ["name", "dl_number", "dob", "valid_upto"]
    case Passport => ["name", "passport_number", "dob", "surname", "given_name"]
    case _ => []
  }

  datatype ExtractResponse =
    | ExtractError(error: string)
    | ExtractSuccess(documentType: string, extractedFields: FieldMap, fieldsFound: set<string>, expectedFields: seq<string>)

  /** `docverify_extract_fields`; the extractor is a parameter that may raise. */
  function ExtractFields(ocrText: string, t: DocumentType, extract: (string, string) -> Outcome<FieldMap>): (r: ExtractResponse)
    ensures t == Unknown ==>
      r == ExtractError("Cannot extract fields from unknown document type. Please classify first.")
    ensures t != Unknown ==> (r.ExtractError? <==> extract(ocrText, TypeValue(t)).Raised?)
    ensures r.ExtractSuccess? ==>
      r.documentType == TypeValue(t) && r.extractedFields == extract(ocrText, TypeValue(t)).value
      && r.fieldsFound == r.extractedFields.Keys && r.expectedFields == ExpectedFields(t)
  {
    if t == Unknown then ExtractError("Cannot extract fields from unknown document type. Please classify first.")
    else match extract(ocrText, TypeValue(t))
      case Raised(e) => ExtractError(e)
      case Done(fields) => ExtractSuccess(TypeValue(t), fields, fields.Keys, ExpectedFields(t))
  }

  /** Every expected field of an identity-bearing type names its identifier field, as the
      validator looks it up; a birth certificate has no expected fields. */
  lemma ExpectedFieldsCarryIdentifier(t: DocumentType)
    requires t != Unknown && t != BirthCertificate
    ensures ValidationEngine.IdentifierField(TypeValue(t)).Some?
    ensures ValidationEngine.IdentifierField(TypeValue(t)).value in ExpectedFields(t)
    ensures "name" in ExpectedFields(t)
  {
    assert ExpectedFields(t)[0] == "name";
    match t
    case AadhaarCard => assert ExpectedFields(t)[1] == "aadhaar_number";
    case PanCard => assert ExpectedFields(t)[1] == "pan_number";
    case VoterId => assert ExpectedFields(t)[1] == "voter_id_number";
    case DrivingLicense => assert ExpectedFields(t)[1] == "dl_number";
    case Passport => assert ExpectedFields(t)[1] == "passport_number";
  }

  // ---------------------------------------------------------------------------------------
  // Strict mode

  lemma {:induction false} NatToStringNonEmpty(n: nat)
    ensures |NatToString(n)| >= 1
    decreases n
  {
    if n >= 10 {
      NatToStringNonEmpty(n / 10);
    }
  }

  /** `str` on naturals is injective. */
  lemma {:induction false} NatToStringInjective(m: nat, n: nat)
    requires NatToString(m) == NatToString(n)
    ensures m == n
    decreases m
  {
    if m >= 10 && n >= 10 {
      var a, b := NatToString(m), NatToString(n);
      assert a[|a| - 1] == DigitChar(m % 10) && b[|b| - 1] == DigitChar(n % 10);
      assert a[..|a| - 1] == NatToString(m / 10) && b[..|b| - 1] == NatToString(n / 10);
      NatToStringInjective(m / 10, n / 10);
    } else if m >= 10 {
      NatToStringNonEmpty(m / 10);
    } else if n >= 10 {
      NatToStringNonEmpty(n / 10);
    }
  }

  function WarningKey(i: nat): string {
    "warning_" + NatToString(i)
  }

  lemma WarningKeyInjective(i: nat, j: nat)
    requires WarningKey(i) == WarningKey(j)
    ensures i == j
  {
    assert NatToString(i) == WarningKey(i)[8..] && NatToString(j) == WarningKey(j)[8..];
    NatToStringInjective(i, j);
  }

  /** `{f"warning_{i}": w for i, w in enumerate(warnings)}` */
  function WarningErrors(warnings: seq<string>): map<string, string> {
    if warnings == [] then map[]
    else WarningErrors(warnings[..|warnings| - 1])[WarningKey(|warnings| - 1) := warnings[|warnings| - 1]]
  }

  /** The warning map has one key per warning, and key `warning_i` holds warning `i`. */
  lemma {:induction false} WarningErrorsSpec(warnings: seq<string>)
    ensures forall k :: k in WarningErrors(warnings) <==> exists i :: 0 <= i < |warnings| && k == WarningKey(i)
    ensures forall i :: 0 <= i < |warnings| ==> WarningErrors(warnings)[WarningKey(i)] == warnings[i]
  {
    if warnings != [] {
      var n := |warnings| - 1;
      var init := warnings[..n];
      WarningErrorsSpec(init);
      forall i | 0 <= i < |warnings| ensures WarningErrors(warnings)[WarningKey(i)] == warnings[i] {
        if i < n {
          if WarningKey(i) == WarningKey(n) {
            WarningKeyInjective(i, n);
          }
          assert init[i] == warnings[i];
        }
      }
      forall k | k in WarningErrors(warnings) ensures exists i :: 0 <= i < |warnings| && k == WarningKey(i) {
        if k != WarningKey(n) {
          assert k in WarningErrors(init);
          var i :| 0 <= i < |init| && k == WarningKey(i);
        }
      }
    }
  }

  /** The strict-mode block of `docverify_validate_fields`. */
  function StrictConvert(r: ValidationEngine.ValidationResult, strict: bool): (c: ValidationEngine.ValidationResult)
    ensures c.warnings == r.warnings
    ensures c.isValid <==> r.isValid && !(strict && r.warnings != [])
    ensures forall k :: k in r.errors ==> k in c.errors
  {
    if strict && r.warnings != [] then
      ValidationEngine.ValidationResult(false, r.errors + WarningErrors(r.warnings), r.warnings)
    else r
  }

  /** With warnings present, strict mode adds `warning_i -> w_i` for every warning `w_i`,
      keeps every other error and forces invalidity; otherwise the result is unchanged. */
  lemma StrictModeSpec(r: ValidationEngine.ValidationResult, strict: bool)
    ensures !(strict && r.warnings != []) ==> StrictConvert(r, strict) == r
    ensures strict && r.warnings != [] ==>
      var c := StrictConvert(r, strict);
      !c.isValid
      && (forall i :: 0 <= i < |r.warnings| ==> WarningKey(i) in c.errors && c.errors[WarningKey(i)] == r.warnings[i])
      && (forall k :: k in c.errors <==> k in r.errors || exists i :: 0 <= i < |r.warnings| && k == WarningKey(i))
      && (forall k :: k in r.errors && (forall i :: 0 <= i < |r.warnings| ==> k != WarningKey(i)) ==>
            c.errors[k] == r.errors[k])
  {
    WarningErrorsSpec(r.warnings);
  }

  datatype ValidateResponse =
    | ValidateError(error: string)
    | ValidateSuccess(documentType: string, isValid: bool, errors: map<string, string>, warnings: seq<string>,
                      fieldsValidated: set<string>, strictMode: bool)

  /** `docverify_validate_fields` over the validator of `ValidationEngine`. */
  function ValidateFields(t: DocumentType, fields: FieldMap, strict: bool, today: Date): (r: ValidateResponse)
    ensures t == Unknown <==> r == ValidateError("Cannot validate unknown document type")
    ensures r.ValidateSuccess? ==>
      var c := StrictConvert(ValidationEngine.Expected(fields, TypeValue(t), today), strict);
      r.documentType == TypeValue(t) && r.isValid == c.isValid && r.errors == c.errors && r.warnings == c.warnings
      && r.fieldsValidated == fields.Keys && r.strictMode == strict
  {
    if t == Unknown then ValidateError("Cannot validate unknown document type")
    else
      var c := StrictConvert(ValidationEngine.Expected(fields, TypeValue(t), today), strict);
      ValidateSuccess(TypeValue(t), c.isValid, c.errors, c.warnings, fields.Keys, strict)
  }

  // ---------------------------------------------------------------------------------------
  // Fraud scoring

  /** `s.count(p)`: non-overlapping occurrences, scanning from the left. */
  function CountOccurrences(s: string, p: string): nat
    requires |p| > 0
    decreases |s|
  {
    if |s| < |p| then 0
    else if s[..|p|] == p then 1 + CountOccurrences(s[|p|..], p)
    else CountOccurrences(s[1..], p)
  }

  lemma {:induction false} CountPositiveIffContains(s: string, p: string)
    requires |p| > 0
    ensures CountOccurrences(s, p) > 0 <==> Contains(s, p)
    decreases |s|
  {
    if |s| < |p| {
      if |s| > 0 {
        CountPositiveIffContains(s[1..], p);
      }
    } else if s[..|p|] != p {
      CountPositiveIffContains(s[1..], p);
    }
  }

  /** `ocr_text.count(ocr_text[:50]) > 1 if len(ocr_text) > 50 else False` */
  predicate DuplicateText(text: string) {
    |text| > 50 && CountOccurrences(text, text[..50]) > 1
  }

  /** The duplicate check fires exactly when the first fifty characters occur again,
      starting at position 50 or later. */
  lemma DuplicateIsRepeat(text: string)
    ensures DuplicateText(text) <==> |text| > 50 && Contains(text[50..], text[..50])
  {
    if |text| > 50 {
      assert text[..50][..50] == text[..50];
      CountPositiveIffContains(text[50..], text[..50]);
    }
  }

  /** `suspicious_patterns` */
  function SuspiciousPatterns(text: string): seq<(string, bool)> {
    [("duplicate_text", DuplicateText(text)), ("very_short_text", |text| < 50), ("no_numbers", !AnyDigit(text))]
  }

  datatype Severity = Medium | Info

  datatype Finding = Finding(kind: string, severity: Severity, description: string)

  function MediumFinding(name: string): Finding {
    Finding(name, Medium, "Suspicious pattern detected: " + name)
  }

  const VisualFinding := Finding("visual_analysis", Info, "Visual tamper detection not yet implemented")
  const DuplicateCheckFinding :=
    Finding("duplicate_check", Info, "Embedding-based duplicate detection requires database integration")

  /** One medium finding per detected pattern, in order. */
  function ContentFindings(patterns: seq<(string, bool)>): seq<Finding> {
    if patterns == [] then []
    else
      var last := patterns[|patterns| - 1];
      ContentFindings(patterns[..|patterns| - 1]) + (if last.1 then [MediumFinding(last.0)] else [])
  }

  /** The three content checks, spelled out. */
  lemma FindingsPerCheck(text: string)
    ensures ContentFindings(SuspiciousPatterns(text)) ==
      (if DuplicateText(text) then [MediumFinding("duplicate_text")] else [])
      + (if |text| < 50 then [MediumFinding("very_short_text")] else [])
      + (if !AnyDigit(text) then [MediumFinding("no_numbers")] else [])
  {
    var ps := SuspiciousPatterns(text);
    assert ps[..2][..1] == ps[..1] && ps[..1][..0] == [];
    assert ContentFindings(ps[..1]) == if ps[0].1 then [MediumFinding(ps[0].0)] else [];
    assert ContentFindings(ps[..2]) == ContentFindings(ps[..1]) + if ps[1].1 then [MediumFinding(ps[1].0)] else [];
    assert ContentFindings(ps) == ContentFindings(ps[..2]) + if ps[2].1 then [MediumFinding(ps[2].0)] else [];
  }

  function RiskLevel(risk: int): string {
    if risk > 60 then "high" else if risk > 30 then "medium" else "low"
  }

  /** The successful response of `docverify_check_fraud`; `riskScore` is the reported
      `min(risk, 1.0)` in hundredths. */
  datatype FraudReport = FraudReport(riskLevel: string, riskScore: int, findings: seq<Finding>,
                                     duplicates: bool, tampering: bool)

  /** What `docverify_check_fraud` computes: 0.15 per content finding, then the two
      placeholder findings. `ocrText` and `imageGiven` stand for the truthiness of the two
      optional arguments. */
  function FraudAssessment(ocrText: Option<string>, imageGiven: bool, checkDuplicates: bool, checkTampering: bool): FraudReport {
    var content := if ocrText.Some? && ocrText.value != "" then ContentFindings(SuspiciousPatterns(ocrText.value)) else [];
    var risk := 15 * |content|;
    FraudReport(RiskLevel(risk), if risk < 100 then risk else 100,
      content + (if imageGiven && checkTampering then [VisualFinding] else [])
        + (if checkDuplicates then [DuplicateCheckFinding] else []),
      checkDuplicates, checkTampering)
  }

  /** `docverify_check_fraud` */
  method CheckFraud(ocrText: Option<string>, imageGiven: bool, checkDuplicates: bool, checkTampering: bool)
    returns (report: FraudReport)
    ensures report == FraudAssessment(ocrText, imageGiven, checkDuplicates, checkTampering)
  {
    var findings: seq<Finding> := [];
    var risk := 0;
    if ocrText.Some? && ocrText.value != "" {
      var patterns := SuspiciousPatterns(ocrText.value);
      for i := 0 to |patterns|
        invariant findings == ContentFindings(patterns[..i])
        invariant risk == 15 * |findings|
      {
        assert patterns[..i + 1][..i] == patterns[..i];
        if patterns[i].1 {
          findings := findings + [MediumFinding(patterns[i].0)];
          risk := risk + 15;
        }
      }
      assert patterns[..|patterns|] == patterns;
    }
    if imageGiven && checkTampering {
      findings := findings + [VisualFinding];
    }
    if checkDuplicates {
      findings := findings + [DuplicateCheckFinding];
    }
    var level := "low";
    if risk > 30 {
      level := "medium";
    }
    if risk > 60 {
      level := "high";
    }
    report := FraudReport(level, if risk < 100 then risk else 100, findings, checkDuplicates, checkTampering);
  }

  /** Short text and duplicated text never both fire; text of exactly 50 characters fires
      neither. */
  lemma ShortAndDuplicateExclusive(text: string)
    ensures !(DuplicateText(text) && |text| < 50)
    ensures |text| == 50 ==> !DuplicateText(text) && !(|text| < 50)
  {
  }

  /** At most two content findings, so the risk stays at or below 0.3 and the level is
      always "low": the "medium" and "high" branches are unreachable. */
  lemma RiskAlwaysLow(ocrText: Option<string>, imageGiven: bool, checkDuplicates: bool, checkTampering: bool)
    ensures FraudAssessment(ocrText, imageGiven, checkDuplicates, checkTampering).riskScore <= 30
    ensures FraudAssessment(ocrText, imageGiven, checkDuplicates, checkTampering).riskLevel == "low"
  {
    if ocrText.Some? && ocrText.value != "" {
      FindingsPerCheck(ocrText.value);
    }
  }

  /** The score counts 0.15 per detected content check and nothing else: the placeholder
      findings depend only on their flags, and without text the risk is 0. */
  lemma ScoreFromContentOnly(ocrText: Option<string>, imageGiven: bool, checkDuplicates: bool, checkTampering: bool,
                             imageGiven': bool, checkDuplicates': bool, checkTampering': bool)
    ensures var a, b := FraudAssessment(ocrText, imageGiven, checkDuplicates, checkTampering),
                        FraudAssessment(ocrText, imageGiven', checkDuplicates', checkTampering');
      a.riskScore == b.riskScore && a.riskLevel == b.riskLevel
    ensures ocrText.Some? && ocrText.value != "" ==>
      var t := ocrText.value;
      FraudAssessment(ocrText, imageGiven, checkDuplicates, checkTampering).riskScore ==
        15 * ((if DuplicateText(t) then 1 else 0) + (if |t| < 50 then 1 else 0) + (if !AnyDigit(t) then 1 else 0))
    ensures (ocrText.None? || ocrText.value == "") ==>
      var a := FraudAssessment(ocrText, imageGiven, checkDuplicates, checkTampering);
      a.riskScore == 0 && forall i :: 0 <= i < |a.findings| ==> a.findings[i].severity == Info
  {
    if ocrText.Some? && ocrText.value != "" {
      FindingsPerCheck(ocrText.value);
    }
  }

  // ---------------------------------------------------------------------------------------
  // Full verification

  const PipelineSteps: seq<string> := ["image_saved", "preprocessing_complete", "ocr_complete",
    "classification_complete", "extraction_complete", "validation_complete", "fraud_check_complete"]

  datatype Verification =
    | Verified(steps: seq<string>, rawText: string, documentType: string,
               classification: ClassificationEngine.Classification, extractedFields: FieldMap,
               validation: ValidationEngine.ValidationResult, fraudCheck: Option<FraudReport>,
               overallConfidence: int, isVerified: bool)
    | VerificationFailed(error: string, steps: seq<string>)

  /** The classification step: a known type hint is taken as given with confidence 1.0. */
  function Classified(text: string, hint: Option<DocumentType>,
                      classify: string -> Outcome<ClassificationEngine.Classification>): Outcome<ClassificationEngine.Classification>
  {
    if hint.Some? && hint.value != Unknown then
      Done(ClassificationEngine.Classification(TypeValue(hint.value), 10, ClassificationEngine.UserProvided))
    else classify(text)
  }

  /** The validation step: `{False, {}, []}` when nothing was extracted. */
  function ValidationStep(fields: FieldMap, docType: string, today: Date): ValidationEngine.ValidationResult {
    if fields != map[] then ValidationEngine.Expected(fields, docType, today)
    else ValidationEngine.ValidationResult(false, map[], [])
  }

  /** `docverify_full_verification`. `saved` is the outcome of decoding and saving the image
      (its temp path); every later stage that can raise is a parameter. */
  function FullVerification<Img>(imageBase64: string, saved: Outcome<string>, preprocess: string -> Outcome<Img>,
                                 ocr: Img -> Outcome<string>, hint: Option<DocumentType>,
                                 classify: string -> Outcome<ClassificationEngine.Classification>,
                                 extract: (string, string) -> Outcome<FieldMap>, runFraudCheck: bool, today: Date): Verification
  {
    match saved
    case Raised(e) => VerificationFailed(e, [])
    case Done(tempPath) =>
      match preprocess(tempPath)
      case Raised(e) => VerificationFailed(e, PipelineSteps[..1])
      case Done(image) =>
        match ocr(image)
        case Raised(e) => VerificationFailed(e, PipelineSteps[..2])
        case Done(text) =>
          match Classified(text, hint, classify)
          case Raised(e) => VerificationFailed(e, PipelineSteps[..3])
          case Done(classification) =>
            var docType := classification.docType;
            match (if docType != "unknown" then extract(text, docType) else Done(map[]))
            case Raised(e) => VerificationFailed(e, PipelineSteps[..4])
            case Done(fields) =>
              var validation := ValidationStep(fields, docType, today);
              var fraud := if runFraudCheck then Some(FraudAssessment(Some(text), imageBase64 != "", true, true)) else None;
              Verified(PipelineSteps[..if runFraudCheck then 7 else 6], text, docType, classification, fields,
                       validation, fraud, classification.confidence, validation.isValid)
  }

  /** The steps reported, on success or failure, are always a prefix of the pipeline; a
      success has run all six main steps and the fraud step exactly when asked to. */
  lemma StepsArePrefix<Img>(imageBase64: string, saved: Outcome<string>, preprocess: string -> Outcome<Img>,
                            ocr: Img -> Outcome<string>, hint: Option<DocumentType>,
                            classify: string -> Outcome<ClassificationEngine.Classification>,
                            extract: (string, string) -> Outcome<FieldMap>, runFraudCheck: bool, today: Date)
    ensures var r := FullVerification(imageBase64, saved, preprocess, ocr, hint, classify, extract, runFraudCheck, today);
      |r.steps| <= |PipelineSteps| && r.steps == PipelineSteps[..|r.steps|]
      && (r.Verified? ==> |r.steps| == (if runFraudCheck then 7 else 6) && (r.fraudCheck.Some? <==> runFraudCheck))
      && (r.VerificationFailed? ==> |r.steps| <= 4)
  {
  }

  /** A known type hint is used as the classification, confidence 1.0, and the classifier is
      never consulted: any two classifiers give the same result. */
  lemma HintBypassesClassifier<Img>(imageBase64: string, saved: Outcome<string>, preprocess: string -> Outcome<Img>,
                                    ocr: Img -> Outcome<string>, t: DocumentType,
                                    classify: string -> Outcome<ClassificationEngine.Classification>,
                                    classify': string -> Outcome<ClassificationEngine.Classification>,
                                    extract: (string, string) -> Outcome<FieldMap>, runFraudCheck: bool, today: Date)
    requires t != Unknown
    ensures FullVerification(imageBase64, saved, preprocess, ocr, Some(t), classify, extract, runFraudCheck, today)
         == FullVerification(imageBase64, saved, preprocess, ocr, Some(t), classify', extract, runFraudCheck, today)
    ensures var r := FullVerification(imageBase64, saved, preprocess, ocr, Some(t), classify, extract, runFraudCheck, today);
      r.Verified? ==>
        r.classification == ClassificationEngine.Classification(TypeValue(t), 10, ClassificationEngine.UserProvided)
        && r.documentType == TypeValue(t) && r.overallConfidence == 10
  {
  }

  /** `is_verified` is the validation verdict; nothing extracted (an unknown type included)
      means the default `{False, {}, []}` and so never verified. */
  lemma VerifiedMeansValid<Img>(imageBase64: string, saved: Outcome<string>, preprocess: string -> Outcome<Img>,
                                ocr: Img -> Outcome<string>, hint: Option<DocumentType>,
                                classify: string -> Outcome<ClassificationEngine.Classification>,
                                extract: (string, string) -> Outcome<FieldMap>, runFraudCheck: bool, today: Date)
    ensures var r := FullVerification(imageBase64, saved, preprocess, ocr, hint, classify, extract, runFraudCheck, today);
      r.Verified? ==>
        r.isVerified == r.validation.isValid
        && r.overallConfidence == r.classification.confidence
        && (r.documentType == "unknown" ==> r.extractedFields == map[])
        && (r.extractedFields == map[] ==> r.validation == ValidationEngine.ValidationResult(false, map[], []) && !r.isVerified)
        && (r.extractedFields != map[] ==> r.validation == ValidationEngine.Expected(r.extractedFields, r.documentType, today))
        && (r.fraudCheck.Some? ==> r.fraudCheck.value.riskLevel == "low")
  {
    var r := FullVerification(imageBase64, saved, preprocess, ocr, hint, classify, extract, runFraudCheck, today);
    if r.Verified? && r.fraudCheck.Some? {
      RiskAlwaysLow(Some(r.rawText), imageBase64 != "", true, true);
    }
  }

  /** A stage that raises ends the pipeline with its message and the steps completed so far. */
  lemma FailureKeepsStepsSoFar<Img>(imageBase64: string, saved: Outcome<string>, preprocess: string -> Outcome<Img>,
                                    ocr: Img -> Outcome<string>, hint: Option<DocumentType>,
                                    classify: string -> Outcome<ClassificationEngine.Classification>,
                                    extract: (string, string) -> Outcome<FieldMap>, runFraudCheck: bool, today: Date)
    ensures var r := FullVerification(imageBase64, saved, preprocess, ocr, hint, classify, extract, runFraudCheck, today);
      (saved.Raised? ==> r == VerificationFailed(saved.error, []))
      && (saved.Done? && preprocess(saved.value).Raised? ==>
            r == VerificationFailed(preprocess(saved.value).error, ["image_saved"]))
      && (saved.Done? && preprocess(saved.value).Done? && ocr(preprocess(saved.value).value).Raised? ==>
            r == VerificationFailed(ocr(preprocess(saved.value).value).error, ["image_saved", "preprocessing_complete"]))
  {
  }
}
