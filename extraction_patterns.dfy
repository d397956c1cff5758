/** The per-type field patterns of src/extraction/patterns.py. A table keeps the dictionary's
    insertion order as a sequence of (field, regex) pairs; the regex text is handed to a
    search oracle. The two fixed-width captures the validators consume, the Aadhaar number
    and the date, are also described by explicit window predicates. */
module ExtractionPatterns {
  import opened Strings
  import opened Validators

  type PatternTable = seq<(string, string)>

  const DatePattern := @"\b(\d{2}[-/.]\d{2}[-/.]\d{4})\b"
  const GenderPattern := "\\b(MALE|FEMALE|TRANSGENDER|\U{092A}\U{0941}\U{0930}\U{0941}\U{0937}|\U{092E}\U{0939}\U{093F}\U{0932}\U{093E})\\b"

  const AadhaarTable: PatternTable := [
    ("aadhaar_number", @"\b(\d{4}\s\d{4}\s\d{4}|\d{12})\b"),
    ("dob", DatePattern),
    ("gender", GenderPattern)
  ]

  const PanTable: PatternTable := [
    ("pan_number", @"\b([A-Z]{5}\d{4}[A-Z])\b"),
    ("dob", DatePattern),
    ("name", @"\b([A-Z\s]+)\b")
  ]

  const VoterIdTable: PatternTable := [
    ("voter_id_number", @"\b([A-Z]{3}\d{7})\b"),
    ("age", @"\bAge\s*[:=\-]?\s*(\d{2})\b")
  ]

  const DrivingLicenseTable: PatternTable := [
    ("dl_number", @"\b([A-Z]{2}[-\d\s/]+)\b"),
    ("valid_upto", @"(?:Valid till|Valid Upto)\s*[:=\-]?\s*(\d{2}[-/.]\d{2}[-/.]\d{4})")
  ]

  const PassportTable: PatternTable := [
    ("passport_number", @"\b([A-Z]\d{7})\b"),
    ("dob", DatePattern),
    ("surname", @"Surname\s*[:=\-]?\s*([A-Z\s]+)"),
    ("given_name", @"Given Name\s*[:=\-]?\s*([A-Z\s]+)")
  ]

  const BirthCertificateTable: PatternTable := [
    ("registration_number", @"(?:Registration|Birth)\s*No\.?\s*[:=\-]?\s*(\d+)"),
    ("child_name", @"(?:Name of Child|Child\'s Name)\s*[:=\-]?\s*([A-Za-z\s]+)"),
    ("dob", DatePattern),
    ("place_of_birth", @"(?:Place of Birth)\s*[:=\-]?\s*([A-Za-z\s,]+)"),
    ("father_name", @"(?:Father\'s Name|Name of Father)\s*[:=\-]?\s*([A-Za-z\s]+)"),
    ("mother_name", @"(?:Mother\'s Name|Name of Mother)\s*[:=\-]?\s*([A-Za-z\s]+)")
  ]

  /** The six type codes that have a table. */
  const PatternTypes: seq<string> :=
    ["aadhaar_card", "pan_card", "voter_id", "driving_license", "passport", "birth_certificate"]

  /** `get_patterns`: the type's table, `{}` for any other string. */
  function GetPatterns(docType: string): PatternTable {
    if docType == "aadhaar_card" then AadhaarTable
    else if docType == "pan_card" then PanTable
    else if docType == "voter_id" then VoterIdTable
    else if docType == "driving_license" then DrivingLicenseTable
    else if docType == "passport" then PassportTable
    else if docType == "birth_certificate" then BirthCertificateTable
    else []
  }

  function Fields(t: PatternTable): seq<string> {
    seq(|t|, i requires 0 <= i < |t| => t[i].0)
  }

  /** A dictionary literal: no field appears twice. */
  predicate DistinctFields(t: PatternTable) {
    forall i, j :: 0 <= i < j < |t| ==> t[i].0 != t[j].0
  }

  /** Exactly the six type codes have patterns, "unknown" among the rest has none, and every
      table is a proper dictionary. */
  lemma PatternsByType(docType: string)
    ensures GetPatterns(docType) != [] <==> docType in PatternTypes
    ensures DistinctFields(GetPatterns(docType))
    ensures GetPatterns("unknown") == []
  {
  }

  /** The date-of-birth field of the Aadhaar, PAN, passport and birth-certificate tables is
      the common date pattern. */
  lemma DobUsesDatePattern()
    ensures AadhaarTable[1] == ("dob", DatePattern) && PanTable[1] == ("dob", DatePattern)
    ensures PassportTable[1] == ("dob", DatePattern) && BirthCertificateTable[2] == ("dob", DatePattern)
  {
  }

  // ---------------------------------------------------------------------------
  // The fixed-width captures.

  predicate DateSeparator(c: char) { c == '-' || c == '/' || c == '.' }

  /** A capture of `\d{2}[-/.]\d{2}[-/.]\d{4}`. */
  predicate DateCapture(s: string) {
    |s| == 10 && AllDigits(s[..2]) && DateSeparator(s[2]) && AllDigits(s[3..5])
    && DateSeparator(s[5]) && AllDigits(s[6..])
  }

  /** Every separator the date pattern admits is one `validate_date_format` normalises, so a
      captured date is judged as its `dd/mm/yyyy` form. */
  lemma DateCaptureNormalised(s: string, today: Date)
    requires DateCapture(s)
    ensures ValidateDateFormat(s, today) == ValidateDateFormat(s[..2] + "/" + s[3..5] + "/" + s[6..], today)
  {
    assert s == s[..2] + [s[2]] + s[3..5] + [s[5]] + s[6..];
    SeparatorsNormalised(s[..2], s[2], s[3..5], s[5], s[6..], today);
  }

  /** A capture of `\d{4}\s\d{4}\s\d{4}|\d{12}`; `\s` is any whitespace. */
  predicate AadhaarCapture(s: string) {
    (|s| == 12 && AllDigits(s))
    || (|s| == 14 && AllDigits(s[..4]) && IsSpace(s[4]) && AllDigits(s[5..9]) && IsSpace(s[9]) && AllDigits(s[10..]))
  }

  /** A grouped capture is accepted only when both separators are plain spaces: a tab or a
      newline between the groups is captured and then rejected. */
  lemma AadhaarCaptureSeparators(s: string)
    requires AadhaarCapture(s) && |s| == 14
    ensures ValidateAadhaar(s) ==> s[4] == ' ' && s[9] == ' '
    ensures s[4] == ' ' && s[9] == ' ' ==> ValidateAadhaar(s) == VerhoeffAccepts(s[..4] + s[5..9] + s[10..])
  {
    if s[4] != ' ' {
      AadhaarRejectsOtherSeparators(s, 4);
    } else if s[9] != ' ' {
      AadhaarRejectsOtherSeparators(s, 9);
    } else {
      var a, b, c := s[..4], s[5..9], s[10..];
      assert s == (a + " " + b) + " " + c;
      AadhaarIgnoresSpace(a + " " + b, c);
      assert a + " " + b + c == a + " " + (b + c);
      AadhaarIgnoresSpace(a, b + c);
      var n := a + (b + c);
      assert n == a + b + c;
      assert AllDigits(n) && |n| == 12;
      RemoveCharAbsent(n, ' ');
    }
  }

  /** An ungrouped capture is accepted exactly when its checksum holds. */
  lemma AadhaarCaptureRaw(s: string)
    requires AadhaarCapture(s) && |s| == 12
    ensures ValidateAadhaar(s) == VerhoeffAccepts(s)
  {
    RemoveCharAbsent(s, ' ');
  }
}
