/** `ValidationEngine.validate` of src/validation/engine.py: per-type identifier check plus
    the common date-of-birth check, assembled into `{is_valid, errors, warnings}`. */
module ValidationEngine {
  import opened Strings
  import opened Validators

  datatype ValidationResult = ValidationResult(isValid: bool, errors: map<string, string>, warnings: seq<string>)

  /** The identifier field each document type checks; other types check none. */
  function IdentifierField(docType: string): Option<string> {
    if docType == "aadhaar_card" then Some("aadhaar_number")
    else if docType == "pan_card" then Some("pan_number")
    else if docType == "voter_id" then Some("voter_id_number")
    else if docType == "driving_license" then Some("dl_number")
    else if docType == "passport" then Some("passport_number")
    else None
  }

  /** The validator each document type applies to its identifier. */
  function IdentifierValid(docType: string, value: string): bool {
    if docType == "aadhaar_card" then ValidateAadhaar(value)
    else if docType == "pan_card" then ValidatePan(value)
    else if docType == "voter_id" then ValidateVoterId(value)
    else if docType == "driving_license" then ValidateDrivingLicense(value)
    else ValidatePassport(value)
  }

  function FailureMessage(docType: string): string {
    if docType == "aadhaar_card" then "Invalid Checksum (Verhoeff)"
    else if docType == "voter_id" then "Invalid Format (expected: ABC1234567)"
    else if docType == "passport" then "Invalid Format (expected: A1234567)"
    else "Invalid Format"
  }

  const DobWarningPrefix := "Invalid DOB format or logical error: "

  /** The errors the identifier rule produces: at most one, under the identifier's name. */
  function ErrorsOf(data: map<string, string>, docType: string): map<string, string> {
    match IdentifierField(docType)
    case None => map[]
    case Some(f) =>
      if f in data then
        (if IdentifierValid(docType, data[f]) then map[] else map[f := FailureMessage(docType)])
      else if docType == "aadhaar_card" then map[f := "Missing Field"]
      else map[]
  }

  /** The warnings the date-of-birth rule produces. */
  function WarningsOf(data: map<string, string>, today: Date): seq<string> {
    if "dob" in data && !ValidateDateFormat(data["dob"], today) then [DobWarningPrefix + data["dob"]] else []
  }

  /** The result `validate` promises: valid exactly when there are no errors. */
  function Expected(data: map<string, string>, docType: string, today: Date): ValidationResult {
    var errors := ErrorsOf(data, docType);
    ValidationResult(errors == map[], errors, WarningsOf(data, today))
  }

  lemma SingletonNotEmpty(k: string, v: string)
    ensures map[k := v] != map[]
  {
    assert k in map[k := v];
  }

  /** `validate`, with `today` standing for the clock read by the date rule. */
  method Validate(data: map<string, string>, docType: string, today: Date) returns (r: ValidationResult)
    ensures r == Expected(data, docType, today)
    ensures r.isValid <==> r.errors == map[]
  {
    var errors: map<string, string> := map[];
    var warnings: seq<string> := [];
    var isValid := true;
    if docType == "aadhaar_card" {
      if "aadhaar_number" in data {
        if !ValidateAadhaar(data["aadhaar_number"]) {
          errors := errors["aadhaar_number" := "Invalid Checksum (Verhoeff)"];
          isValid := false;
        }
      } else {
        errors := errors["aadhaar_number" := "Missing Field"];
        isValid := false;
      }
    } else if docType == "pan_card" {
      if "pan_number" in data {
        if !ValidatePan(data["pan_number"]) {
          errors := errors["pan_number" := "Invalid Format"];
          isValid := false;
        }
      }
    } else if docType == "voter_id" {
      if "voter_id_number" in data {
        if !ValidateVoterId(data["voter_id_number"]) {
          errors := errors["voter_id_number" := "Invalid Format (expected: ABC1234567)"];
          isValid := false;
        }
      }
    } else if docType == "driving_license" {
      if "dl_number" in data {
        if !ValidateDrivingLicense(data["dl_number"]) {
          errors := errors["dl_number" := "Invalid Format"];
          isValid := false;
        }
      }
    } else if docType == "passport" {
      if "passport_number" in data {
        if !ValidatePassport(data["passport_number"]) {
          errors := errors["passport_number" := "Invalid Format (expected: A1234567)"];
          isValid := false;
        }
      }
    }
    if "dob" in data {
      if !ValidateDateFormat(data["dob"], today) {
        warnings := warnings + [DobWarningPrefix + data["dob"]];
      }
    }
    forall k: string, v: string ensures map[k := v] != map[] {
      SingletonNotEmpty(k, v);
    }
    r := ValidationResult(isValid, errors, warnings);
  }

  /** At most one error, keyed by the type's identifier field. */
  lemma ErrorsKeyedByIdentifier(data: map<string, string>, docType: string, today: Date)
    ensures |Expected(data, docType, today).errors| <= 1
    ensures forall k :: k in Expected(data, docType, today).errors ==>
      IdentifierField(docType) == Some(k)
  {
  }

  /** Only an Aadhaar card may be invalid for want of its identifier. */
  lemma MissingIdentifier(data: map<string, string>, docType: string, today: Date)
    requires IdentifierField(docType).Some? && IdentifierField(docType).value !in data
    ensures docType == "aadhaar_card" ==>
      Expected(data, docType, today).errors == map["aadhaar_number" := "Missing Field"]
    ensures docType != "aadhaar_card" ==> Expected(data, docType, today).isValid
  {
  }

  /** A present identifier is an error exactly when its validator rejects it, and then
      with the type's message. */
  lemma PresentIdentifier(data: map<string, string>, docType: string, today: Date)
    requires IdentifierField(docType).Some? && IdentifierField(docType).value in data
    ensures var f := IdentifierField(docType).value;
      Expected(data, docType, today).isValid <==> IdentifierValid(docType, data[f])
    ensures var f := IdentifierField(docType).value;
      !IdentifierValid(docType, data[f]) ==>
        Expected(data, docType, today).errors == map[f := FailureMessage(docType)]
  {
    SingletonNotEmpty(IdentifierField(docType).value, FailureMessage(docType));
  }

  /** Types without a rule, such as `birth_certificate` or `unknown`, are always valid. */
  lemma UncheckedTypesValid(data: map<string, string>, docType: string, today: Date)
    requires IdentifierField(docType).None?
    ensures Expected(data, docType, today).isValid && Expected(data, docType, today).errors == map[]
  {
  }

  /** The date of birth only ever adds one warning, and never affects validity. */
  lemma DobOnlyWarns(data: map<string, string>, docType: string, today: Date, dob: string)
    ensures Expected(data["dob" := dob], docType, today).isValid == Expected(data - {"dob"}, docType, today).isValid
    ensures Expected(data["dob" := dob], docType, today).warnings ==
      (if ValidateDateFormat(dob, today) then [] else [DobWarningPrefix + dob])
    ensures Expected(data - {"dob"}, docType, today).warnings == []
  {
    assert IdentifierField(docType).Some? ==> IdentifierField(docType).value != "dob";
  }

  /** Fields other than the identifier and `dob` never affect the result. */
  lemma OnlyRelevantFieldsMatter(data: map<string, string>, data': map<string, string>, docType: string, today: Date)
    requires forall k :: (k == "dob" || IdentifierField(docType) == Some(k)) ==>
      (k in data <==> k in data') && (k in data ==> data[k] == data'[k])
    ensures Expected(data, docType, today) == Expected(data', docType, today)
  {
    match IdentifierField(docType)
    case None =>
    case Some(f) =>
      assert f in data <==> f in data';
  }
}
