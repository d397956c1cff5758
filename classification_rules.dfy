/** The document templates of src/classification/rules.py. Every template regex is
    fixed-width, so it is written as a sequence of character classes matched against a
    window of the text. */
module ClassificationRules {
  import opened Strings

  /** One position of a fixed-width pattern: `\d`, `\s`, `[A-Z]`, `[0-9]` or a literal. */
  datatype CharClass = AnyDigit | AnySpace | AnyUpper | Exactly(c: char)

  type Pattern = seq<CharClass>

  predicate ClassMatches(cc: CharClass, c: char) {
    match cc
    case AnyDigit => IsDigit(c)
    case AnySpace => IsSpace(c)
    case AnyUpper => IsUpper(c)
    case Exactly(x) => c == x
  }

  /** The pattern matches the window of the text starting at `k`. */
  predicate MatchesAt(p: Pattern, text: string, k: int) {
    0 <= k && k + |p| <= |text| && forall j :: 0 <= j < |p| ==> ClassMatches(p[j], text[k + j])
  }

  /** `re.search(p, text)` for a fixed-width pattern: some window matches. */
  predicate Search(p: Pattern, text: string) {
    exists k :: 0 <= k <= |text| - |p| && MatchesAt(p, text, k)
  }

  function Repeat(cc: CharClass, n: nat): (p: Pattern)
    ensures |p| == n && forall j :: 0 <= j < n ==> p[j] == cc
  {
    seq(n, j => cc)
  }

  /** `\d{4}\s\d{4}\s\d{4}` */
  const AadhaarSpaced: Pattern := Repeat(AnyDigit, 4) + [AnySpace] + Repeat(AnyDigit, 4) + [AnySpace] + Repeat(AnyDigit, 4)
  /** `\d{12}` */
  const AadhaarRaw: Pattern := Repeat(AnyDigit, 12)
  /** `[A-Z]{5}[0-9]{4}[A-Z]{1}` */
  const PanShape: Pattern := Repeat(AnyUpper, 5) + Repeat(AnyDigit, 4) + [AnyUpper]
  /** `[A-Z]{3}[0-9]{7}` */
  const EpicShape: Pattern := Repeat(AnyUpper, 3) + Repeat(AnyDigit, 7)
  /** `[A-Z]{2}[0-9]{2}\s\d{11}` */
  const DlNewShape: Pattern := Repeat(AnyUpper, 2) + Repeat(AnyDigit, 2) + [AnySpace] + Repeat(AnyDigit, 11)
  /** `[A-Z]{2}-\d{13}` */
  const DlHyphenShape: Pattern := Repeat(AnyUpper, 2) + [Exactly('-')] + Repeat(AnyDigit, 13)

  datatype DocumentTemplate = DocumentTemplate(name: string, keywords: seq<string>, regexPatterns: seq<Pattern>, minKeywords: int)

  /** The dataclass default. */
  const DefaultMinKeywords := 2

  /** `DOCUMENT_TEMPLATES`, in insertion order. */
  const DocumentTemplates: seq<(string, DocumentTemplate)> := [
    ("aadhaar_card", DocumentTemplate("Aadhaar Card",
      ["government of india", "mera aadhaar", "unique identification", "father", "dob", "male", "female", "yob"],
      [AadhaarSpaced, AadhaarRaw], DefaultMinKeywords)),
    ("pan_card", DocumentTemplate("PAN Card",
      ["income tax department", "govt of india", "permanent account number", "signature", "date of birth"],
      [PanShape], DefaultMinKeywords)),
    ("voter_id", DocumentTemplate("Voter ID",
      ["election commission of india", "identity card", "elector's name", "sex", "father's name"],
      [EpicShape], DefaultMinKeywords)),
    ("driving_license", DocumentTemplate("Driving License",
      ["driving licence", "union of india", "transport department", "valid till", "authorization to drive"],
      [DlNewShape, DlHyphenShape], DefaultMinKeywords))
  ]

  /** `DOCUMENT_TEMPLATES.keys()` */
  function TemplateKeys(): (ks: seq<string>)
    ensures |ks| == |DocumentTemplates|
    ensures forall i :: 0 <= i < |ks| ==> ks[i] == DocumentTemplates[i].0
  {
    seq(|DocumentTemplates|, i requires 0 <= i < |DocumentTemplates| => DocumentTemplates[i].0)
  }

  /** Four templates, in this order, each with the default keyword minimum. */
  lemma TemplateTable()
    ensures TemplateKeys() == ["aadhaar_card", "pan_card", "voter_id", "driving_license"]
    ensures forall i :: 0 <= i < |DocumentTemplates| ==> DocumentTemplates[i].1.minKeywords == 2
  {
  }

  /** No key repeats, so a key names one template. */
  lemma KeysDistinct()
    ensures forall i, j :: 0 <= i < j < |DocumentTemplates| ==> DocumentTemplates[i].0 != DocumentTemplates[j].0
  {
  }

  predicate NoUpper(w: string) {
    forall j :: 0 <= j < |w| ==> !IsUpper(w[j])
  }

  lemma LowerOfNoUpper(w: string)
    requires NoUpper(w)
    ensures Lower(w) == w
  {
  }

  lemma KeywordsNoUpper0()
    ensures forall w | w in DocumentTemplates[0].1.keywords :: NoUpper(w)
  {
    assert NoUpper("government of india");
    assert NoUpper("mera aadhaar");
    assert NoUpper("unique identification");
    assert NoUpper("father");
    assert NoUpper("dob");
    assert NoUpper("male");
    assert NoUpper("female");
    assert NoUpper("yob");
  }

  lemma KeywordsNoUpper1()
    ensures forall w | w in DocumentTemplates[1].1.keywords :: NoUpper(w)
  {
    assert NoUpper("income tax department");
    assert NoUpper("govt of india");
    assert NoUpper("permanent account number");
    assert NoUpper("signature");
    assert NoUpper("date of birth");
  }

  lemma KeywordsNoUpper2()
    ensures forall w | w in DocumentTemplates[2].1.keywords :: NoUpper(w)
  {
    assert NoUpper("election commission of india");
    assert NoUpper("identity card");
    assert NoUpper("elector's name");
    assert NoUpper("sex");
    assert NoUpper("father's name");
  }

  lemma KeywordsNoUpper3()
    ensures forall w | w in DocumentTemplates[3].1.keywords :: NoUpper(w)
  {
    assert NoUpper("driving licence");
    assert NoUpper("union of india");
    assert NoUpper("transport department");
    assert NoUpper("valid till");
    assert NoUpper("authorization to drive");
  }

  /** Every keyword is already lower-case, so it can occur in lower-cased text. */
  lemma KeywordsLowerCase()
    ensures forall i, k :: 0 <= i < |DocumentTemplates| && 0 <= k < |DocumentTemplates[i].1.keywords| ==>
      Lower(DocumentTemplates[i].1.keywords[k]) == DocumentTemplates[i].1.keywords[k]
  {
    KeywordsNoUpper0();
    KeywordsNoUpper1();
    KeywordsNoUpper2();
    KeywordsNoUpper3();
    forall i, k | 0 <= i < |DocumentTemplates| && 0 <= k < |DocumentTemplates[i].1.keywords|
      ensures Lower(DocumentTemplates[i].1.keywords[k]) == DocumentTemplates[i].1.keywords[k]
    {
      var ws := DocumentTemplates[i].1.keywords;
      assert ws[k] in ws;
      LowerOfNoUpper(ws[k]);
    }
  }

  /** Within one template no keyword repeats, so the count is of distinct keywords. */
  lemma KeywordsDistinct()
    ensures forall i, a, b :: 0 <= i < |DocumentTemplates| && 0 <= a < b < |DocumentTemplates[i].1.keywords| ==>
      DocumentTemplates[i].1.keywords[a] != DocumentTemplates[i].1.keywords[b]
  {
  }

  /** A match needs a window as wide as the pattern; the widths are 14, 12, 10, 10, 16 and 16. */
  lemma PatternWidths(p: Pattern, text: string)
    ensures Search(p, text) ==> |p| <= |text|
    ensures |AadhaarSpaced| == 14 && |AadhaarRaw| == 12 && |PanShape| == 10
    ensures |EpicShape| == 10 && |DlNewShape| == 16 && |DlHyphenShape| == 16
  {
  }
}
