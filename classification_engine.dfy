/** `DocumentClassifier` of src/classification/engine.py: rule-based scoring over the
    templates, the 0.6 gate, and the parsing of a language-model label.
    Scores and confidences are in integer tenths: a keyword is worth 2, a regex 5. */
module ClassificationEngine {
  import opened Strings
  import opened ClassificationRules

  datatype Method = RuleBased | LlmGemini | LlmFailed | UserProvided

  /** `{"type", "confidence", "method"}`, the confidence in tenths; `via` is the method. */
  datatype Classification = Classification(docType: string, confidence: int, via: Method)

  /** The answer of the language model to the classification prompt. */
  datatype LlmReply = Replied(content: string) | Raised

  /** `self.llm`: absent when no key is configured. */
  datatype Llm = NotConfigured | Configured(reply: LlmReply)

  function Min(a: int, b: int): int { if a <= b then a else b }

  /** `sum(1 for k in keywords if k in text_lower)`: no keyword present gives 0, every keyword
      present gives the full count; for distinct keywords it is the number of distinct keywords
      present (`KeywordCountDistinct`). */
  function KeywordCount(keywords: seq<string>, textLower: string): (n: nat)
    ensures n <= |keywords|
    ensures n == 0 <==> forall i :: 0 <= i < |keywords| ==> !Contains(textLower, keywords[i])
    ensures n == |keywords| <==> forall i :: 0 <= i < |keywords| ==> Contains(textLower, keywords[i])
  {
    if keywords == [] then 0
    else
      assert forall i :: 1 <= i < |keywords| ==> keywords[1..][i - 1] == keywords[i];
      (if Contains(textLower, keywords[0]) then 1 else 0) + KeywordCount(keywords[1..], textLower)
  }

  /** The number of patterns that match somewhere in the text. */
  function RegexCount(patterns: seq<Pattern>, text: string): (n: nat)
    ensures n <= |patterns|
  {
    if patterns == [] then 0
    else RegexCount(patterns[..|patterns| - 1], text) + (if Search(patterns[|patterns| - 1], text) then 1 else 0)
  }

  /** The keyword part of a score: nothing below the template's minimum. */
  function KeywordScore(t: DocumentTemplate, textLower: string): nat {
    var m := KeywordCount(t.keywords, textLower);
    if m >= t.minKeywords then 2 * m else 0
  }

  function Score(t: DocumentTemplate, text: string): nat {
    KeywordScore(t, Lower(text)) + 5 * RegexCount(t.regexPatterns, text)
  }

  function TemplateScore(i: nat, text: string): nat
    requires i < |DocumentTemplates|
  {
    Score(DocumentTemplates[i].1, text)
  }

  /** Template `i` has the largest score, strictly larger than every earlier one, and is positive. */
  predicate FirstBest(text: string, i: int) {
    0 <= i < |DocumentTemplates| && TemplateScore(i, text) > 0
    && (forall j :: 0 <= j < |DocumentTemplates| ==> TemplateScore(j, text) <= TemplateScore(i, text))
    && (forall j :: 0 <= j < i ==> TemplateScore(j, text) < TemplateScore(i, text))
  }

  lemma FirstBestUnique(text: string, a: int, b: int)
    requires FirstBest(text, a) && FirstBest(text, b)
    ensures a == b
  {
  }

  /** What `classify_by_rules` promises: the first best template, its score capped at 1.0. */
  ghost function RuleClassification(text: string): Classification {
    if exists i :: FirstBest(text, i) then
      var i :| FirstBest(text, i);
      Classification(DocumentTemplates[i].0, Min(TemplateScore(i, text), 10), RuleBased)
    else
      Classification("unknown", 0, RuleBased)
  }

  /** `classify_by_rules` */
  method ClassifyByRules(text: string) returns (r: Classification)
    ensures r == RuleClassification(text)
  {
    var textLower := Lower(text);
    var bestMatch := "";
    var maxScore := 0;
    ghost var best := -1;
    var i := 0;
    while i < |DocumentTemplates|
      invariant 0 <= i <= |DocumentTemplates|
      invariant -1 <= best < i
      invariant best == -1 ==> maxScore == 0
      invariant best >= 0 ==> bestMatch == DocumentTemplates[best].0 && maxScore == TemplateScore(best, text) > 0
      invariant best >= 0 ==> forall j :: 0 <= j < best ==> TemplateScore(j, text) < maxScore
      invariant forall j :: 0 <= j < i ==> TemplateScore(j, text) <= maxScore
    {
      var (docType, template) := DocumentTemplates[i];
      var score := 0;
      var matches := KeywordCount(template.keywords, textLower);
      if matches >= template.minKeywords {
        score := score + matches * 2;
      }
      var k := 0;
      while k < |template.regexPatterns|
        invariant 0 <= k <= |template.regexPatterns|
        invariant score == KeywordScore(template, textLower) + 5 * RegexCount(template.regexPatterns[..k], text)
      {
        assert template.regexPatterns[..k + 1][..k] == template.regexPatterns[..k];
        if Search(template.regexPatterns[k], text) {
          score := score + 5;
        }
        k := k + 1;
      }
      assert template.regexPatterns[..k] == template.regexPatterns;
      if score > maxScore {
        maxScore := score;
        bestMatch := docType;
        best := i;
      }
      i := i + 1;
    }
    var confidence := Min(maxScore, 10);
    if confidence > 0 {
      r := Classification(bestMatch, confidence, RuleBased);
      assert FirstBest(text, best);
      forall j | FirstBest(text, j) ensures j == best {
        FirstBestUnique(text, j, best);
      }
    } else {
      r := Classification("unknown", 0, RuleBased);
    }
  }

  /** The labels accepted from the model: the template keys, then "unknown". */
  function ValidTypes(): seq<string> {
    TemplateKeys() + ["unknown"]
  }

  /** The first label that occurs in the answer, or "unknown". */
  function FirstLabel(answer: string, labels: seq<string>): string {
    if labels == [] then "unknown"
    else if Contains(answer, labels[0]) then labels[0]
    else FirstLabel(answer, labels[1..])
  }

  /** Label `i` occurs in the answer and no earlier label does. */
  predicate FirstHit(answer: string, labels: seq<string>, i: int) {
    0 <= i < |labels| && Contains(answer, labels[i])
    && forall j :: 0 <= j < i ==> !Contains(answer, labels[j])
  }

  /** The first label found wins: every earlier label is absent from the answer. */
  lemma FirstLabelIsFirst(answer: string, labels: seq<string>)
    ensures FirstLabel(answer, labels) == "unknown" ||
      exists i :: FirstHit(answer, labels, i) && labels[i] == FirstLabel(answer, labels)
  {
    if FirstLabel(answer, labels) != "unknown" {
      var i := FirstLabelIndex(answer, labels);
    }
  }

  lemma {:induction false} FirstLabelIndex(answer: string, labels: seq<string>) returns (i: int)
    requires FirstLabel(answer, labels) != "unknown"
    ensures FirstHit(answer, labels, i) && labels[i] == FirstLabel(answer, labels)
  {
    if Contains(answer, labels[0]) {
      i := 0;
    } else {
      var k := FirstLabelIndex(answer, labels[1..]);
      i := k + 1;
      assert labels[i] == labels[1..][k];
      forall j | 0 <= j < i ensures !Contains(answer, labels[j]) {
        if j > 0 {
          assert labels[j] == labels[1..][j - 1];
        }
      }
    }
  }

  /** The result is one of the labels or "unknown". */
  lemma {:induction false} FirstLabelInLabels(answer: string, labels: seq<string>)
    ensures FirstLabel(answer, labels) in labels + ["unknown"]
  {
    if labels != [] && !Contains(answer, labels[0]) {
      FirstLabelInLabels(answer, labels[1..]);
      assert labels[1..] + ["unknown"] <= labels[1..] + ["unknown"];
      assert forall x :: x in labels[1..] ==> x in labels;
    }
  }

  /** The first label found, by a scan that stops at the first hit. */
  method FindLabel(answer: string, labels: seq<string>) returns (found: string)
    ensures found == FirstLabel(answer, labels)
  {
    found := "unknown";
    var i := 0;
    while i < |labels|
      invariant 0 <= i <= |labels|
      invariant FirstLabel(answer, labels) == FirstLabel(answer, labels[i..])
    {
      assert labels[i..][1..] == labels[i + 1..];
      if Contains(answer, labels[i]) {
        found := labels[i];
        return;
      }
      i := i + 1;
    }
  }

  /** The label search of `classify_by_llm`: strip, lower-case, take the first label found. */
  method ParseLabel(content: string) returns (cleanedType: string)
    ensures cleanedType == FirstLabel(Lower(Strip(content)), ValidTypes())
  {
    var docType := Lower(Strip(content));
    cleanedType := FindLabel(docType, ValidTypes());
  }

  /** What `classify_by_llm` returns for a reply: 0.9 for a real label, "llm_failed" on an exception. */
  function LlmClassification(reply: LlmReply): Classification {
    match reply
    case Raised => Classification("unknown", 0, LlmFailed)
    case Replied(content) =>
      var t := FirstLabel(Lower(Strip(content)), ValidTypes());
      Classification(t, if t != "unknown" then 9 else 0, LlmGemini)
  }

  method ClassifyByLlm(reply: LlmReply) returns (r: Classification)
    ensures r == LlmClassification(reply)
  {
    match reply
    case Raised =>
      r := Classification("unknown", 0, LlmFailed);
    case Replied(content) =>
      var cleanedType := ParseLabel(content);
      r := Classification(cleanedType, if cleanedType != "unknown" then 9 else 0, LlmGemini);
  }

  /** `classify`: the rule result when it clears the gate or no model is configured;
      otherwise the model's answer. `> 0.6` holds for three keywords (0.6000000000000001
      in floating point), so in tenths the gate is `>= 6`. */
  ghost function ClassificationOf(text: string, llm: Llm): Classification {
    var rule := RuleClassification(text);
    if rule.confidence >= 6 then rule
    else match llm
      case NotConfigured => rule
      case Configured(reply) => LlmClassification(reply)
  }

  method Classify(text: string, llm: Llm) returns (r: Classification)
    ensures r == ClassificationOf(text, llm)
  {
    var ruleResult := ClassifyByRules(text);
    if ruleResult.confidence >= 6 {
      return ruleResult;
    }
    if llm.Configured? {
      r := ClassifyByLlm(llm.reply);
      return;
    }
    r := ruleResult;
  }

  /** The rule result is "unknown" with confidence 0 exactly when every score is 0; otherwise
      it names a template and its confidence is the capped score. */
  lemma RuleOutcome(text: string)
    ensures var r := RuleClassification(text);
      r.via == RuleBased && 0 <= r.confidence <= 10
      && (r.docType == "unknown" <==> forall j :: 0 <= j < |DocumentTemplates| ==> TemplateScore(j, text) == 0)
      && (r.docType == "unknown" <==> r.confidence == 0)
      && (r.docType != "unknown" ==> r.docType in TemplateKeys())
  {
    if exists j :: 0 <= j < |DocumentTemplates| && TemplateScore(j, text) > 0 {
      var b := BestExists(text);
      forall i | FirstBest(text, i) ensures i == b {
        FirstBestUnique(text, i, b);
      }
      TemplateTable();
      assert TemplateKeys()[b] == DocumentTemplates[b].0;
    }
  }

  /** Some template is first best when some score is positive. */
  lemma BestExists(text: string) returns (b: int)
    requires exists j :: 0 <= j < |DocumentTemplates| && TemplateScore(j, text) > 0
    ensures FirstBest(text, b)
  {
    b := 0;
    var i := 1;
    while i < |DocumentTemplates|
      invariant 1 <= i <= |DocumentTemplates| && 0 <= b < i
      invariant forall j :: 0 <= j < i ==> TemplateScore(j, text) <= TemplateScore(b, text)
      invariant forall j :: 0 <= j < b ==> TemplateScore(j, text) < TemplateScore(b, text)
    {
      if TemplateScore(i, text) > TemplateScore(b, text) {
        b := i;
      }
      i := i + 1;
    }
    var j :| 0 <= j < |DocumentTemplates| && TemplateScore(j, text) > 0;
    assert TemplateScore(j, text) <= TemplateScore(b, text);
  }

  /** A rule result that clears the gate is returned whatever the model would say. */
  lemma GateShortCircuits(text: string, llm: Llm)
    requires RuleClassification(text).confidence >= 6
    ensures ClassificationOf(text, llm) == RuleClassification(text)
  {
  }

  /** The model is consulted only below the gate and only when configured. */
  lemma ModelOnlyBelowGate(text: string, llm: Llm)
    requires ClassificationOf(text, llm) != RuleClassification(text)
    ensures llm.Configured? && RuleClassification(text).confidence < 6
    ensures ClassificationOf(text, llm) == LlmClassification(llm.reply)
  {
  }

  /** The accepted labels, spelled out. */
  lemma ValidTypesValue()
    ensures ValidTypes() == ["aadhaar_card", "pan_card", "voter_id", "driving_license", "unknown"]
  {
    TemplateTable();
  }

  /** A label the model's answer can produce is one of the accepted labels. */
  lemma LabelIsValid(x: string)
    requires x in ValidTypes() + ["unknown"]
    ensures x in ValidTypes() && x != "passport" && x != "birth_certificate"
  {
    ValidTypesValue();
  }

  /** The rule result names a template or "unknown". */
  lemma RuleTypeIsValid(text: string)
    ensures RuleClassification(text).docType in ValidTypes()
  {
    RuleOutcome(text);
    var t := RuleClassification(text).docType;
    ValidTypesValue();
    assert t in TemplateKeys() || t == "unknown";
  }

  /** The type is always a template key or "unknown": never `passport` or `birth_certificate`. */
  lemma OutputTypes(text: string, llm: Llm)
    ensures ClassificationOf(text, llm).docType in ValidTypes()
    ensures ClassificationOf(text, llm).docType != "passport"
    ensures ClassificationOf(text, llm).docType != "birth_certificate"
  {
    var t := ClassificationOf(text, llm).docType;
    if t == RuleClassification(text).docType {
      RuleTypeIsValid(text);
      LabelIsValid(t);
    } else {
      ModelOnlyBelowGate(text, llm);
      match llm.reply
      case Raised =>
      case Replied(content) =>
        FirstLabelInLabels(Lower(Strip(content)), ValidTypes());
        LabelIsValid(t);
    }
  }

  /** The model's label carries 0.9 exactly when it is not "unknown". */
  lemma ModelConfidence(content: string)
    ensures LlmClassification(Replied(content)).confidence == 9 <==> LlmClassification(Replied(content)).docType != "unknown"
    ensures LlmClassification(Replied(content)).docType != "unknown" ==>
      Contains(Lower(Strip(content)), LlmClassification(Replied(content)).docType)
  {
    FirstLabelIsFirst(Lower(Strip(content)), ValidTypes());
  }

  /** The distinct keywords present in the text. */
  function PresentKeywords(keywords: seq<string>, textLower: string): set<string> {
    set k | k in keywords && Contains(textLower, k)
  }

  lemma PresentKeywordsSplit(keywords: seq<string>, textLower: string)
    requires keywords != []
    ensures PresentKeywords(keywords, textLower) ==
      (if Contains(textLower, keywords[0]) then {keywords[0]} else {}) + PresentKeywords(keywords[1..], textLower)
  {
    assert forall k :: k in keywords <==> k == keywords[0] || k in keywords[1..];
  }

  /** The keyword count is the number of distinct keywords present, not of occurrences. */
  lemma {:induction false} KeywordCountDistinct(keywords: seq<string>, textLower: string)
    requires forall a, b :: 0 <= a < b < |keywords| ==> keywords[a] != keywords[b]
    ensures KeywordCount(keywords, textLower) == |PresentKeywords(keywords, textLower)|
  {
    if keywords != [] {
      KeywordCountDistinct(keywords[1..], textLower);
      PresentKeywordsSplit(keywords, textLower);
      assert keywords[0] !in PresentKeywords(keywords[1..], textLower) by {
        forall b | 1 <= b < |keywords| ensures keywords[b] != keywords[0] {}
        assert keywords[0] !in keywords[1..];
      }
    }
  }

  /** Three keywords and no regex give 0.6, which clears the gate. */
  lemma ThreeKeywordsClearGate(text: string, llm: Llm, i: nat)
    requires i < |DocumentTemplates| && FirstBest(text, i)
    requires KeywordCount(DocumentTemplates[i].1.keywords, Lower(text)) == 3
    requires RegexCount(DocumentTemplates[i].1.regexPatterns, text) == 0
    ensures ClassificationOf(text, llm) == Classification(DocumentTemplates[i].0, 6, RuleBased)
  {
    TemplateTable();
    forall j | FirstBest(text, j) ensures j == i {
      FirstBestUnique(text, i, j);
    }
  }
}
