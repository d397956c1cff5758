# DocVerify AI, modelled in Dafny

DocVerify AI verifies Indian identity documents: an uploaded document image goes through
preprocessing, OCR, classification, field extraction and validation.
- Classification covers Aadhaar, PAN, voter ID (EPIC) and driving licence.
- Extracted identifiers are checked by format and, for Aadhaar, by the Verhoeff check
  digit.
- The system also keeps a small agent runtime, an in-memory document store, and MCP tools
  that add a toy fraud score and a strict mode.

This project models the decision logic of that pipeline and proves what it promises. The
engines behind it (the OCR readers, the language model, the regex engine, JSON parsing,
image decoding, the clock) are parameters of the model.

Files, one module per source file:

| file | module | source |
|---|---|---|
| strings.dfy | `Strings` | Python string operations used throughout (ASCII) |
| outcomes.dfy | `Outcomes` | "returns a value or raises" |
| validators.dfy | `Validators` | src/validation/validators.py |
| validation_engine.dfy | `ValidationEngine` | src/validation/engine.py |
| generate_samples.dfy | `GenerateSamples` | scripts/generate_samples.py |
| generate_valid_sample.dfy | `GenerateValidSample` | scripts/generate_valid_sample.py |
| classification_rules.dfy | `ClassificationRules` | src/classification/rules.py |
| classification_engine.dfy | `ClassificationEngine` | src/classification/engine.py |
| extraction_patterns.dfy | `ExtractionPatterns` | src/extraction/patterns.py |
| extraction.dfy | `Extraction` | src/extraction/engine.py |
| easy_engine.dfy | `EasyEngine` | src/ocr/easy_engine.py |
| ensemble.dfy | `Ensemble` | src/ocr/ensemble.py |
| processor.dfy | `Processor` | src/orchestration/processor.py |
| base_agent.dfy | `Agents` | src/orchestration/agents/base_agent.py |
| agent_manager.dfy | `AgentManagement` | src/orchestration/agent_manager.py |
| validation_agent.dfy | `ValidationAgents` | src/orchestration/agents/validation_agent.py |
| storage.dfy | `Storage` | src/api/storage.py |
| mcp_server.dfy | `McpServer` | src/mcp/server.py |

Representation choices:
- **Classifier scores** are integer tenths: a keyword is worth 2 and a regex 5. Python
  computes three keywords as `3 * 0.2 == 0.6000000000000001`, which passes `> 0.6`, so in
  tenths the gate is `>= 6`.
- **OCR ensemble** confidences and coordinates are exact reals. The 0.7 threshold on the
  primary's confidence is decided the same way in floats. The two comparisons between the
  fallback's and the primary's confidence are not always (see Ensemble.ExtractWithMetadata
  under "## Left out").
- **Fraud risk** is in hundredths: one finding adds 15.
- **Character predicates** (`isdigit`, `isupper`, `isalnum`, `isspace`) and `upper()` /
  `lower()` are their ASCII versions.
- **Verhoeff theory.** The validator's recurrence is a fold over the reversed digits. The
  `D` table is shown equal to a closed-form dihedral product, which gives associativity and
  cancellation. From these follow:
  - the check-digit round trip;
  - the uniqueness of the check digit;
  - the detection of every single substitution and of every adjacent transposition.
- **Mutable state** takes the source's form: methods with `modifies` over classes.
  - `BaseAgent`, `AgentManager`, `ValidationAgent` and the store are classes.
  - Each loop of the source is a `while` or `for` loop with its invariants, proved against a
    specification function.

## Model

| member | source | states |
|---|---|---|
| Validators.DigitsOf | src/validation/validators.py:37 | `list(map(int, num))`: one digit per character, its value |
| Validators.Reverse | src/validation/validators.py:37 | `reversed`: same length, element `i` is element `n-1-i` |
| Validators.VerhoeffValidate | src/validation/validators.py:33-40 | the loop returns false for the empty string and any non-digit, and otherwise accepts exactly when the recurrence `c := d[c][p[i % 8][digit]]` over the reversed digits, from 0, ends at 0 (`VerhoeffAccepts`) |
| Validators.RowIsDihedral | src/validation/validators.py:8-19 | every row of the `d` table is the dihedral group D5's product, in closed form |
| Validators.DihedralAssociative | src/validation/validators.py:8-19 | the closed-form dihedral product is associative |
| Validators.Associative | src/validation/validators.py:8-19 | the `d` table is associative |
| Validators.LeftCancel | src/validation/validators.py:8-19 | `d[a][b] == d[a][c]` implies `b == c` |
| Validators.RightCancel | src/validation/validators.py:8-19 | `d[b][a] == d[c][a]` implies `b == c` |
| Validators.InverseTable | src/validation/validators.py:30 | `inv[c]` is a two-sided inverse of `c` under `d` |
| Validators.PermutationRow | src/validation/validators.py:20-29 | every row of `p` is injective, hence a permutation of the digits |
| Validators.PowerRow | src/validation/validators.py:20-29 | row `j+1` of `p` is row 1 applied to row `j` |
| Validators.RunFrom | src/validation/validators.py:36-39 | starting the recurrence from `x` multiplies its outcome from 0 by `x` on the left |
| Validators.RunAppend | src/validation/validators.py:36-39 | the recurrence over `a + b` continues from the state after `a`, at position `|a|` |
| Validators.RunSubstitution | src/validation/validators.py:36-40 | changing one digit of an accepted digit sequence makes it rejected |
| Validators.DigitsUpdate | src/validation/validators.py:37 | replacing character `k` replaces reversed digit `n-1-k` by its value |
| Validators.SubstitutionDetected | src/validation/validators.py:33-40 | every single-digit substitution of an accepted number is rejected |
| Validators.CoreTransposition | src/validation/validators.py:8-29 | `d[u][p[1][v]] != d[v][p[1][u]]` for distinct digits |
| Validators.TranspositionRow | src/validation/validators.py:8-29 | at every position, two adjacent distinct digits combine differently from their swap |
| Validators.RunPair | src/validation/validators.py:36-39 | the recurrence over two leading digits and a tail, written with table entries |
| Validators.PairSwapDiffers | src/validation/validators.py:8-29 | from any state and with any tail, a pair of distinct digits and its swap differ |
| Validators.RunAroundPair | src/validation/validators.py:36-39 | the recurrence over `a`, a pair, then `b`, written with table entries |
| Validators.RunTransposition | src/validation/validators.py:36-40 | swapping two adjacent distinct digits of an accepted sequence makes it rejected |
| Validators.DigitsSwap | src/validation/validators.py:37 | swapping characters `k` and `k+1` swaps the matching reversed digits |
| Validators.TranspositionDetected | src/validation/validators.py:33-40 | every adjacent transposition of distinct digits in an accepted number is rejected |
| Validators.ValidateAadhaar | src/validation/validators.py:42-47 | accepted exactly when the text holds only digits and spaces, and its space-free form has twelve characters and passes Verhoeff |
| Validators.AadhaarIgnoresSpace | src/validation/validators.py:44 | a space anywhere does not change the verdict |
| Validators.SpaceRemoved | src/validation/validators.py:44 | `replace(' ', '')` removes an inserted space |
| Validators.AadhaarSeesClean | src/validation/validators.py:44-47 | the verdict depends only on the space-free form |
| Validators.AadhaarRejectsOtherSeparators | src/validation/validators.py:44-46 | any other non-digit (tab, newline, hyphen) causes rejection |
| Validators.ValidatePan | src/validation/validators.py:49-51 | accepted exactly when the text is ten characters, or eleven ending in a newline (Python `$`), and the first ten are five capitals, four digits and one capital |
| Validators.PanIsCaseSensitive | src/validation/validators.py:49-51 | no case folding: an accepted PAN is rejected once lower-cased |
| Validators.PanScenarios | src/validation/validators.py:49-51 | "ABCDE1234F" is accepted and "ABCDE1234" is rejected |
| Validators.ValidateVoterId | src/validation/validators.py:65-68 | accepted exactly when the text is ten characters, or eleven ending in a newline, and the first ten, upper-cased, are three letters and seven digits |
| Validators.ValidateDrivingLicense | src/validation/validators.py:71-77 | accepted exactly when the text, without spaces and hyphens, upper-cased and without one final newline, is two letters then 11 to 15 letters or digits; the cleaned length is then 13..18 |
| Validators.ValidatePassport | src/validation/validators.py:80-83 | accepted exactly when the text is eight characters, or nine ending in a newline, and the first eight, upper-cased, are one letter and seven digits |
| Validators.CaseInsensitiveValidators | src/validation/validators.py:65-68 | voter ID and passport verdicts are the same for the lower-cased input |
| Validators.AnchoredFormsAccepted | src/validation/validators.py:49-83 | every PAN, EPIC or passport string of the pattern's shape is accepted, with or without one final newline |
| Validators.DrivingLicenseAccepted | src/validation/validators.py:71-77 | every licence number already in cleaned form of the pattern's shape is accepted, with or without one final newline |
| Validators.ParseDay | src/validation/validators.py:57 | a `%d` field parses to 1..31 |
| Validators.ParseMonth | src/validation/validators.py:57 | a `%m` field parses to 1..12 |
| Validators.ParseYear | src/validation/validators.py:57 | a `%Y` field, exactly four digits, parses to 0..9999 |
| Validators.ValidateDateFormat | src/validation/validators.py:53-62 | acceptance means that, after mapping '.' and '-' to '/', the text parses as day/month/year to a real calendar date no later than today and not before 1900 |
| Validators.SplitNoSeparator | src/validation/validators.py:56-57 | a string without the separator splits into itself |
| Validators.SplitFirst | src/validation/validators.py:56-57 | splitting stops at the first separator |
| Validators.DmyPieces | src/validation/validators.py:57 | `dd/mm/yyyy` with digit pieces parses to the three fields' values |
| Validators.SeparatorsNormalised | src/validation/validators.py:56 | each of '-', '/', '.' as separator gives the same verdict as '/' |
| Validators.NumericDate | src/validation/validators.py:53-62 | a `dd/mm/yyyy` date is accepted exactly when it is a real date, not in the future, and not before 1900 |
| Validators.NoThirtyFirstOfFebruary | src/validation/validators.py:57 | "31/02/2020" is rejected |
| Validators.PastDateAccepted | src/validation/validators.py:53-60 | "15/05/1990" is accepted whenever today is not earlier |
| Validators.YearBound | src/validation/validators.py:58 | the lower bound is the year 1900 itself: 1 January 1900 is accepted, 31 December 1899 rejected |
| Validators.FutureDateRejected | src/validation/validators.py:58 | a date after today is rejected |
| ValidationEngine.Expected | src/validation/engine.py:15-66 | the result `validate` computes; stated by `ErrorsKeyedByIdentifier`, `MissingIdentifier`, `PresentIdentifier`, `UncheckedTypesValid`, `DobOnlyWarns` and `OnlyRelevantFieldsMatter` |
| ValidationEngine.Validate | src/validation/engine.py:15-66 | the per-type rule plus the date-of-birth rule, and `is_valid` exactly when `errors` is empty |
| ValidationEngine.ErrorsKeyedByIdentifier | src/validation/engine.py:23-55 | at most one error, keyed by the type's identifier field |
| ValidationEngine.MissingIdentifier | src/validation/engine.py:29-55 | a missing identifier is the error "Missing Field" for Aadhaar; for any other type it is no error |
| ValidationEngine.PresentIdentifier | src/validation/engine.py:24-55 | a present identifier is an error exactly when its validator rejects it, with the type's message |
| ValidationEngine.UncheckedTypesValid | src/validation/engine.py:22-55 | types without a rule are always valid, with no errors |
| ValidationEngine.DobOnlyWarns | src/validation/engine.py:57-60 | an invalid `dob` adds exactly one warning and never changes `is_valid` |
| ValidationEngine.OnlyRelevantFieldsMatter | src/validation/engine.py:15-66 | fields other than the identifier and `dob` never affect the result |
| GenerateSamples.TablesAgree | scripts/generate_samples.py:13-26 | the script's `D`, `P` and `INV` tables are the validator's |
| GenerateSamples.Checksum | scripts/generate_samples.py:28-32 | the check digit; stated by `ChecksumCompletes` (it completes a valid number) and `ChecksumUnique` (no other digit does) |
| GenerateSamples.VerhoeffChecksum | scripts/generate_samples.py:28-32 | the loop computes `INV` of the recurrence over the reversed digits shifted one position (`Checksum`) |
| GenerateSamples.ChecksumCompletes | scripts/generate_samples.py:28-32 | round trip: a digit string followed by its check digit passes the validator |
| GenerateSamples.ChecksumUnique | scripts/generate_samples.py:28-32 | any other final digit is rejected |
| GenerateSamples.FormatTwelve | scripts/generate_samples.py:131 | the 4-4-4 format of a twelve-character number |
| GenerateSamples.FormatGroups | scripts/generate_samples.py:131 | the 4-4-4 grouping; stated by `FormatTwelve`, `FormatGroupsTransparent` and `FormatGroupsValid` |
| GenerateSamples.FormatGroupsTransparent | scripts/generate_samples.py:131 | grouping a twelve-character number in fours does not change its Aadhaar verdict |
| GenerateSamples.FormatGroupsValid | scripts/generate_samples.py:131 | grouping a valid twelve-digit number keeps it valid |
| GenerateSamples.AadhaarNumber | scripts/generate_samples.py:128-131 | the card number is the prefix and its check digit in groups of four, and for an eleven-digit prefix it passes `validate_aadhaar` |
| GenerateSamples.SampleAadhaarValid | scripts/generate_samples.py:128-131 | the sample Aadhaar number passes its validator |
| GenerateSamples.SamplePrefixReversed | scripts/generate_samples.py:30 | the reversed digits of the sample prefix |
| GenerateSamples.SamplePrefixRun | scripts/generate_samples.py:30-31 | the recurrence over the reversed sample prefix ends at 0 |
| GenerateSamples.SampleNumberFormatted | scripts/generate_samples.py:131 | "498123657010" is printed as "4981 2365 7010" |
| GenerateSamples.SampleAadhaarNumber | scripts/generate_samples.py:128-131 | the check digit of "49812365701" is 0, so the card shows "4981 2365 7010" |
| GenerateSamples.SampleIdentifiersValid | scripts/generate_samples.py:181 | the sample PAN "ABCPK1234Z", EPIC "ABC1234567" and passport "M1234567" pass their validators (lines 181, 239, 386) |
| GenerateSamples.LicenceWithHyphen | scripts/generate_samples.py:306 | a licence number with one hyphen and no spaces is judged without the hyphen |
| GenerateSamples.SampleLicenceValid | scripts/generate_samples.py:306 | the sample licence "DL-0420110012345" passes its validator |
| GenerateSamples.SampleLicenceBody | scripts/generate_samples.py:306 | "DL0420110012345" has the licence shape |
| GenerateValidSample.TablesAgree | scripts/generate_valid_sample.py:45-67 | the local `d`, `p` and `inv` tables are the validator's |
| GenerateValidSample.Calc | scripts/generate_valid_sample.py:69-74 | `calc` computes the same check digit as `verhoeff_checksum`, for every digit string |
| GenerateValidSample.CreateValidAadhaar | scripts/generate_valid_sample.py:76-80 | the printed number is "9999 8888 7779" and passes `validate_aadhaar`, as the comment at line 24 claims |
| GenerateValidSample.PrefixReversed | scripts/generate_valid_sample.py:71 | the reversed digits of "99998888777" |
| GenerateValidSample.PrefixRun | scripts/generate_valid_sample.py:72-73 | the shifted recurrence over them ends at 9 |
| GenerateValidSample.PrefixChecksum | scripts/generate_valid_sample.py:77-78 | the check digit of "99998888777" is 9 |
| GenerateValidSample.NumberFormatted | scripts/generate_valid_sample.py:79-80 | "999988887779" is printed as "9999 8888 7779" |
| GenerateValidSample.PlaceholderReversed | scripts/generate_valid_sample.py:31 | the reversed digits of "123456789012" |
| GenerateValidSample.PlaceholderRun | scripts/generate_valid_sample.py:31 | the validator's recurrence over them ends at 2, not 0 |
| GenerateValidSample.PlaceholderFormatted | scripts/generate_valid_sample.py:31 | "123456789012" in groups of four is "1234 5678 9012" |
| GenerateValidSample.PlaceholderFails | scripts/generate_valid_sample.py:31 | `validate_aadhaar("1234 5678 9012")` is false, as the comment says |
| ClassificationRules.Repeat | src/classification/rules.py:20-52 | `x{n}` in a fixed-width pattern: `n` copies of the class |
| ClassificationRules.TemplateKeys | src/classification/rules.py:12-55 | the template keys in insertion order |
| ClassificationRules.TemplateTable | src/classification/rules.py:9-55 | exactly four templates, `aadhaar_card`, `pan_card`, `voter_id`, `driving_license` in that order, each with `min_keywords == 2` |
| ClassificationRules.KeysDistinct | src/classification/rules.py:12-55 | no template key repeats |
| ClassificationRules.KeywordsNoUpper0 | src/classification/rules.py:15-18 | the Aadhaar keywords hold no capital |
| ClassificationRules.KeywordsNoUpper1 | src/classification/rules.py:26-29 | the PAN keywords hold no capital |
| ClassificationRules.KeywordsNoUpper2 | src/classification/rules.py:36-39 | the voter ID keywords hold no capital |
| ClassificationRules.KeywordsNoUpper3 | src/classification/rules.py:46-49 | the driving licence keywords hold no capital |
| ClassificationRules.KeywordsLowerCase | src/classification/rules.py:15-49 | every keyword is its own lower-case form, so it can occur in lower-cased text |
| ClassificationRules.KeywordsDistinct | src/classification/rules.py:15-49 | within a template no keyword repeats |
| ClassificationRules.PatternWidths | src/classification/rules.py:20-52 | every template regex is fixed-width (14, 12, 10, 10, 16, 16) and can only match a text at least that long |
| ClassificationEngine.KeywordCount | src/classification/engine.py:64 | the count is at most the number of keywords, 0 exactly when no keyword occurs, and full exactly when every keyword occurs |
| ClassificationEngine.RegexCount | src/classification/engine.py:69-71 | the regex count never exceeds the number of patterns |
| ClassificationEngine.FirstBestUnique | src/classification/engine.py:72-75 | the first template with the strictly largest score is unique |
| ClassificationEngine.RuleClassification | src/classification/engine.py:56-83 | the rule result; stated by `RuleOutcome`, `BestExists` and `RuleTypeIsValid` |
| ClassificationEngine.ClassifyByRules | src/classification/engine.py:56-83 | the loop returns the first best template with its score capped at 1.0, or `unknown` / 0.0 when every score is 0 |
| ClassificationEngine.RuleOutcome | src/classification/engine.py:77-83 | the result is `unknown` exactly when every score is 0, exactly when its confidence is 0, and otherwise a template key with confidence at most 1.0 |
| ClassificationEngine.BestExists | src/classification/engine.py:72-75 | some positive score means a first best template exists |
| ClassificationEngine.KeywordCountDistinct | src/classification/engine.py:64 | the keyword count is the number of distinct keywords present, not of occurrences |
| ClassificationEngine.PresentKeywordsSplit | src/classification/engine.py:64 | the present keywords are those of the head and of the tail |
| ClassificationEngine.ThreeKeywordsClearGate | src/classification/engine.py:45-66 | three keywords and no regex give confidence 0.6, which clears the gate |
| ClassificationEngine.FirstLabelIsFirst | src/classification/engine.py:107-111 | the label found is `unknown` or a label that occurs in the answer with no earlier label occurring |
| ClassificationEngine.FirstLabelIndex | src/classification/engine.py:107-111 | where the found label sits, and that no earlier label occurs |
| ClassificationEngine.FirstLabelInLabels | src/classification/engine.py:107-111 | the found label is one of the labels or `unknown` |
| ClassificationEngine.FindLabel | src/classification/engine.py:107-111 | the loop with `break` returns the first label found |
| ClassificationEngine.ParseLabel | src/classification/engine.py:103-111 | the reply is stripped and lower-cased, then the first template key, then `unknown`, found as a substring wins |
| ClassificationEngine.LlmClassification | src/classification/engine.py:85-121 | the model's classification; stated by `ModelConfidence` and `ParseLabel` |
| ClassificationEngine.ClassifyByLlm | src/classification/engine.py:85-121 | a reply gives its label with confidence 0.9 exactly when the label is not `unknown`, method `llm_gemini`; an exception gives `unknown`, 0.0, `llm_failed` |
| ClassificationEngine.ModelConfidence | src/classification/engine.py:113-117 | the model's confidence is 0.9 exactly when its label is not `unknown`, and that label occurs in the cleaned reply |
| ClassificationEngine.ClassificationOf | src/classification/engine.py:39-54 | the classifier's answer; stated by `GateShortCircuits`, `ModelOnlyBelowGate` and `OutputTypes` |
| ClassificationEngine.Classify | src/classification/engine.py:39-54 | the rule result when it clears the gate or no model is configured, the model's answer otherwise |
| ClassificationEngine.GateShortCircuits | src/classification/engine.py:44-47 | a rule result above the gate is returned whatever the model would say |
| ClassificationEngine.ModelOnlyBelowGate | src/classification/engine.py:49-54 | the model's answer is used only below the gate and only when a model is configured |
| ClassificationEngine.ValidTypesValue | src/classification/engine.py:106 | the accepted labels are the four template keys and then `unknown` |
| ClassificationEngine.LabelIsValid | src/classification/engine.py:106 | an accepted label is never `passport` or `birth_certificate` |
| ClassificationEngine.RuleTypeIsValid | src/classification/engine.py:80-83 | the rule result's type is a template key or `unknown` |
| ClassificationEngine.OutputTypes | src/classification/engine.py:39-121 | the classifier's type is always a template key or `unknown`, never `passport` or `birth_certificate` |
| ExtractionPatterns.PatternsByType | src/extraction/patterns.py:52-62 | exactly the six type codes have a table, `unknown` gets `{}`, and no table repeats a field |
| ExtractionPatterns.DobUsesDatePattern | src/extraction/patterns.py:9-46 | the `dob` field of the Aadhaar, PAN, passport and birth-certificate tables is the common date pattern |
| ExtractionPatterns.DateCaptureNormalised | src/extraction/patterns.py:9 | every separator the date pattern admits is one the date validator normalises |
| ExtractionPatterns.AadhaarCaptureSeparators | src/extraction/patterns.py:13 | a grouped Aadhaar capture is accepted only with plain spaces, and then exactly when its digits pass Verhoeff |
| ExtractionPatterns.AadhaarCaptureRaw | src/extraction/patterns.py:13 | an ungrouped capture is accepted exactly when its checksum holds |
| Extraction.RegexFieldsSpec | src/extraction/engine.py:56-68 | a field is extracted exactly when its pattern matches, and holds the stripped capture |
| Extraction.RegexFieldsLast | src/extraction/engine.py:61-66 | one more table row adds its field exactly when its pattern matches |
| Extraction.RegexFieldsLastKeys | src/extraction/engine.py:61-66 | the same, for the key set |
| Extraction.RegexFieldsHas | src/extraction/engine.py:61-66 | a field whose pattern matches is extracted |
| Extraction.RegexFieldsOnly | src/extraction/engine.py:61-66 | an extracted field has a row whose pattern matches |
| Extraction.RegexFieldsAt | src/extraction/engine.py:61-66 | a matching row's field holds its stripped capture |
| Extraction.SearchTable | src/extraction/engine.py:59-68 | the loop builds the regex result |
| Extraction.ExtractByRegex | src/extraction/engine.py:56-68 | `extract_by_regex` is the regex result over the type's table |
| Extraction.CheckMissingFields | src/extraction/engine.py:98-111 | the missing critical fields; stated by `AbsentSpec`, `CriticalFieldsHavePatterns` and `NothingCriticalElsewhere` |
| Extraction.AbsentSpec | src/extraction/engine.py:110 | a field is reported missing exactly when it is required and absent |
| Extraction.CriticalFieldsHavePatterns | src/extraction/engine.py:102-107 | every critical field has a pattern in its type's table |
| Extraction.NothingCriticalElsewhere | src/extraction/engine.py:102-110 | passport, birth certificate and other types have no critical field |
| Extraction.LlmData | src/extraction/engine.py:70-96 | `extract_by_llm`: the parsed reply, `{}` when the call or the parse raises; its cases are stated by `NonObjectRaises` and `ModelFailureKeepsRegex` |
| Extraction.AddPairs | src/extraction/engine.py:52 | `dict.update` with a sequence of pairs: the keys are the old keys and the pairs' keys, a key no pair names keeps its value, and the last pair wins |
| Extraction.Update | src/extraction/engine.py:52 | `dict.update` on a parsed reply; its outcomes are stated by `MergeOverwrites` and `NonObjectRaises` |
| Extraction.ExtractOf | src/extraction/engine.py:38-54 | what `extract` returns; stated by `RegexSuffices`, `MergeOverwrites`, `NonObjectRaises`, `ModelFailureKeepsRegex` and `NoModelWithoutCriticalFields` |
| Extraction.Extract | src/extraction/engine.py:38-54 | the regex result, updated by the model's reply when a critical field is missing and a model is configured; the update, outside every `try`, raises for a reply that is neither an object nor pairs |
| Extraction.RegexSuffices | src/extraction/engine.py:43-54 | without a model, or with every critical field found, the result is the regex result |
| Extraction.MergeOverwrites | src/extraction/engine.py:49-52 | an object reply's keys overwrite, whatever they are; all other regex keys are kept |
| Extraction.ModelFailureKeepsRegex | src/extraction/engine.py:94-96 | a failing model call, or a reply that does not parse, leaves the regex result |
| Extraction.NonObjectRaises | src/extraction/engine.py:52 | once the model is consulted, `extract` raises exactly when the reply parses to neither an object nor a sequence of pairs; pairs are merged in order |
| Extraction.NoModelWithoutCriticalFields | src/extraction/engine.py:49 | the model is never consulted for passport, birth certificate or other types |
| Extraction.NotContainsShort | src/extraction/engine.py:90 | a string shorter than a pattern does not contain it |
| Extraction.RemoveFenceHead | src/extraction/engine.py:90 | removing fences keeps a first character that is not a backtick |
| Extraction.RemoveFenceComplete | src/extraction/engine.py:90 | after removing every "```" none remains |
| Extraction.ContainsInSlice | src/extraction/engine.py:90 | an occurrence in a slice is an occurrence in the string |
| Extraction.StripFences | src/extraction/engine.py:90 | the fence strip; `StripFencesComplete` states that no fence survives |
| Extraction.StripFencesComplete | src/extraction/engine.py:90 | after the fence strip and the trim the content holds no "```" |
| EasyEngine.Minimum | src/ocr/easy_engine.py:127-128 | `min` of a non-empty list is an element and at most every element |
| EasyEngine.Maximum | src/ocr/easy_engine.py:129-130 | `max` of a non-empty list is an element and at least every element |
| EasyEngine.CollectStep | src/ocr/easy_engine.py:118-134 | one more result adds its detection and its confidence |
| EasyEngine.CollectDetections | src/ocr/easy_engine.py:115-134 | the loop builds one detection per result and the confidence total, or stops where `min` would raise on an empty polygon |
| EasyEngine.TextsOfDetections | src/ocr/easy_engine.py:140 | the detection texts are the result texts |
| EasyEngine.ConfidenceExtraction | src/ocr/easy_engine.py:90-146 | what `extract_with_confidence` returns; stated by `DetectionsFollowResults`, `AverageWithinBounds`, `TextsOfDetections` and `EmptyOrFailed` |
| EasyEngine.ExtractWithConfidence | src/ocr/easy_engine.py:90-146 | `("", 0.0, [])` for no results or on an exception, otherwise the joined text, the mean confidence and the detections |
| EasyEngine.ExtractText | src/ocr/easy_engine.py:56-88 | what `extract` returns; `SameText` and `EmptyOrFailed` relate it to `extract_with_confidence` |
| EasyEngine.SameText | src/ocr/easy_engine.py:80-81 | `extract_with_confidence` builds the same text as `extract` |
| EasyEngine.DetectionsFollowResults | src/ocr/easy_engine.py:118-133 | one detection per result, in order, with its text and confidence |
| EasyEngine.BoxContainsPolygon | src/ocr/easy_engine.py:120-131 | the box starts at the polygon's minima, contains every point, and has no negative side |
| EasyEngine.TotalBounds | src/ocr/easy_engine.py:134 | `n` confidences in `[lo, hi]` total between `n*lo` and `n*hi` |
| EasyEngine.AverageWithinBounds | src/ocr/easy_engine.py:137 | the mean of confidences in `[lo, hi]` is in `[lo, hi]` |
| EasyEngine.QuotientBounds | src/ocr/easy_engine.py:137 | the bounds of the total carry over to the quotient |
| EasyEngine.ScaleStrict | src/ocr/easy_engine.py:137 | scaling by a positive count keeps a strict order |
| EasyEngine.EmptyOrFailed | src/ocr/easy_engine.py:86-88 | no results, an exception or an empty polygon give `("", 0.0, [])`; a failing `extract` gives `""` |
| Ensemble.EstimateConfidence | src/ocr/ensemble.py:173-202 | the loop computes the heuristic: 0.5, +0.1 past 100 characters, +0.1 past 500, +0.1 for a digit, +0.05 for a capital, -0.2 above 30% special characters, clamped; 0 for the empty text |
| Ensemble.EstimateBounds | src/ocr/ensemble.py:178-202 | every estimate is in [0, 1], 0 exactly for the empty text, and in [0.3, 0.85] otherwise |
| Ensemble.EstimateTop | src/ocr/ensemble.py:181-202 | long text with a digit, a capital and little noise reaches 0.85 |
| Ensemble.RunPaddle | src/ocr/ensemble.py:133-151 | an engine failure gives `("", 0.0, "paddleocr", [])` instead of raising; otherwise the text with its estimate |
| Ensemble.MergeResults | src/ocr/ensemble.py:204-226 | `_merge_results`; stated by `MergeProperties` |
| Ensemble.RunEasyocr | src/ocr/ensemble.py:153-171 | `_run_easyocr`: None without a fallback engine, otherwise the engine's result tagged `easyocr`; used by `OutcomeKinds` and `FallbackChoice` |
| Ensemble.MergeProperties | src/ocr/ensemble.py:204-226 | the merged confidence lies between the two, every detection is kept, and the text is the second exactly when it is more than 1.2 times as long |
| Ensemble.ExtractWithMetadata | src/ocr/ensemble.py:88-131 | the ensemble's choice; stated by `ConfidentPrimaryWins`, `NoFallbackKeepsPrimary`, `OutcomeKinds`, `FallbackChoice` and `ResultConfidenceBounds` |
| Ensemble.Extract | src/ocr/ensemble.py:75-86 | the text of `extract_with_metadata`'s result |
| Ensemble.ConfidentPrimaryWins | src/ocr/ensemble.py:99-107 | a primary result at or above the threshold is returned whatever the fallback would do |
| Ensemble.NoFallbackKeepsPrimary | src/ocr/ensemble.py:110-131 | with the fallback disabled or unavailable the primary result is returned |
| Ensemble.OutcomeKinds | src/ocr/ensemble.py:88-131 | the result is the primary, a strictly more confident fallback, or their merge |
| Ensemble.FallbackChoice | src/ocr/ensemble.py:113-131 | below the threshold a more confident fallback is returned, one within 0.1 below is merged, and otherwise the primary is kept |
| Ensemble.ResultConfidenceBounds | src/ocr/ensemble.py:88-131 | the result's confidence stays in [0, 1] whenever the fallback's mean confidence does |
| Processor.Process | src/orchestration/processor.py:33-80 | the pipeline; stated by `StagesFeedForward`, `UnknownSkipsExtraction`, `ValidationOnlyWithFields` and `FailureIsFirstRaise` |
| Processor.StagesFeedForward | src/orchestration/processor.py:42-73 | on success every stage was fed the previous stage's output, and the result reports the OCR text and the classification |
| Processor.UnknownSkipsExtraction | src/orchestration/processor.py:54-62 | an `unknown` document is neither extracted nor validated |
| Processor.ValidationOnlyWithFields | src/orchestration/processor.py:59-62 | validation runs exactly when fields were extracted, and is the validator's result |
| Processor.FailureIsFirstRaise | src/orchestration/processor.py:75-80 | the result is `failed` exactly when a stage that ran raised, and carries the first such message |
| Agents.StatusValuesDistinct | src/orchestration/agents/base_agent.py:9-14 | the five status strings are distinct |
| Agents.ErrorStateMessage | src/orchestration/agents/base_agent.py:49 | the message of the RuntimeError in the ERROR state |
| Agents.BaseAgent.constructor | src/orchestration/agents/base_agent.py:22-25 | a new agent is IDLE with an empty context, and a generated id when none is given |
| Agents.BaseAgent.Initialize | src/orchestration/agents/base_agent.py:28-42 | IDLE and True when the implementation returns; ERROR and a re-raise when it raises, from any state |
| Agents.BaseAgent.Process | src/orchestration/agents/base_agent.py:44-61 | in ERROR it raises without running the implementation; otherwise it ends IDLE with the result or ERROR with the exception |
| Agents.BaseAgent.Shutdown | src/orchestration/agents/base_agent.py:63-69 | SHUTDOWN once the implementation returns; unchanged if it raises |
| Agents.BaseAgent.GetStatus | src/orchestration/agents/base_agent.py:71-77 | the report carries the id, the type, the status and the context size |
| Agents.RestingPreserved | src/orchestration/agents/base_agent.py:28-69 | between calls an agent is never INITIALIZING or PROCESSING |
| Agents.ErrorIsSticky | src/orchestration/agents/base_agent.py:28-61 | ERROR survives `process`; `initialize` recovers; a shut-down agent still processes |
| Agents.LifecycleAgrees | src/orchestration/agents/base_agent.py:28-69 | the methods follow the status transition relation |
| AgentManagement.AgentManager.constructor | src/orchestration/agent_manager.py:13-16 | both tables start empty |
| AgentManagement.AgentManager.RegisterAgentType | src/orchestration/agent_manager.py:18-21 | the entry is set or overwritten and nothing else changes |
| AgentManagement.AgentManager.SpawnAgent | src/orchestration/agent_manager.py:23-39 | an unknown type raises ValueError and a failing `initialize` re-raises, both leaving the tables alone; otherwise a new idle agent is added under its id |
| AgentManagement.AgentManager.GetAgent | src/orchestration/agent_manager.py:41-42 | None exactly for an id that is not active |
| AgentManagement.AgentManager.TerminateAgent | src/orchestration/agent_manager.py:44-49 | shuts the agent down and removes exactly its id; an unknown id is a no-op; a raising shutdown keeps it |
| AgentManagement.AgentManager.ShutdownAll | src/orchestration/agent_manager.py:51-55 | the table keeps only original entries; every id that left it was shut down and its stop succeeded; it ends empty exactly when no stop raises, and otherwise the exception of an agent still in the table is passed on |
| AgentManagement.AgentManager.ListActiveAgents | src/orchestration/agent_manager.py:57-61 | one status report per active id, exactly the active ids |
| ValidationAgents.FieldsOf | src/orchestration/agents/validation_agent.py:18 | `input_data.get("fields", {})` |
| ValidationAgents.ValidationAgent.constructor | src/orchestration/agents/validation_agent.py:4 | strict mode starts off |
| ValidationAgents.ValidationAgent.InitializeImpl | src/orchestration/agents/validation_agent.py:9-11 | `strict_mode` is the `strict` entry, False by default |
| ValidationAgents.ValidationAgent.ProcessImpl | src/orchestration/agents/validation_agent.py:13-36 | one verdict per field, exactly the input's keys; "Too short" exactly when the rule fails; `is_valid` exactly when no field failed; `strict_mode` plays no part |
| ValidationAgents.NoFieldsIsValid | src/orchestration/agents/validation_agent.py:18 | missing or empty `fields` is exactly the input with no field verdicts, and it is valid; an invalid result needs a failing field of the input |
| ValidationAgents.RuleScope | src/orchestration/agents/validation_agent.py:27-29 | a field fails exactly when "number" occurs in its key and its value is shorter than five characters |
| Storage.RemoveKeyMember | src/api/storage.py:104-106 | dropping a key leaves exactly the other keys |
| Storage.RemoveKeyDistinct | src/api/storage.py:104-106 | dropping a key keeps the others distinct |
| Storage.RemoveKeyAbsent | src/api/storage.py:104-107 | dropping an absent key changes nothing |
| Storage.RemoveKeyAt | src/api/storage.py:104-106 | a key that occurs once is cut out of its place, the others keeping their order |
| Storage.ValuesInOrder | src/api/storage.py:89 | `list(_docs_memory.values())`: the stored values in insertion order |
| Storage.MemoryStore.constructor | src/api/storage.py:13-14 | both tables start empty |
| Storage.MemoryStore.SaveDocument | src/api/storage.py:37-60 | stored under and returning its `document_id`; a known id keeps its position |
| Storage.MemoryStore.GetDocument | src/api/storage.py:63-75 | the stored document, None exactly for an unknown id |
| Storage.MemoryStore.ListDocuments | src/api/storage.py:78-90 | the `[offset:offset+limit]` window of the documents in insertion order, empty when offset is past the end |
| Storage.MemoryStore.DeleteDocument | src/api/storage.py:93-107 | True and the entry gone exactly when the id was stored; otherwise False and nothing changes |
| Storage.MemoryStore.UpdateDocument | src/api/storage.py:110-122 | the updates merged into the stored document, winning; an unknown id changes nothing |
| Storage.MemoryStore.SaveVerification | src/api/storage.py:127-156 | stored under and returning its `verification_id` |
| Storage.MemoryStore.GetVerification | src/api/storage.py:159-171 | the stored verification, None exactly for an unknown id |
| Storage.MemoryStore.GetStats | src/api/storage.py:174-192 | the two table sizes, the number with status "success", and the success rate, 0 when there are none |
| Storage.StatsBounds | src/api/storage.py:185-191 | the success count never exceeds the total, the rate is in [0, 1], and it is 1 exactly when every verification succeeded |
| McpServer.SplitHasTwo | src/mcp/server.py:104-105 | a string holding a comma splits into at least two pieces |
| McpServer.StripDataUri | src/mcp/server.py:104-105 | the payload of a data URL; stated by `DataUriPayload` |
| McpServer.DataUriPayload | src/mcp/server.py:104-105 | with a comma, `split(",")[1]` keeps the text between the first comma and the next; input without a comma is kept (also lines 115-116) |
| McpServer.ExtractFields | src/mcp/server.py:239-267 | `unknown` is an error without calling the extractor; otherwise an error exactly when the extractor raises, and the fields with their keys and the expected fields |
| McpServer.ExpectedFieldsCarryIdentifier | src/mcp/server.py:250-256 | every expected-field list names `name` and the identifier field the validator checks |
| McpServer.NatToStringNonEmpty | src/mcp/server.py:304 | `str(i)` is non-empty |
| McpServer.NatToStringInjective | src/mcp/server.py:304 | `str` on naturals is injective |
| McpServer.WarningKeyInjective | src/mcp/server.py:304 | distinct warning indexes give distinct `warning_i` keys |
| McpServer.WarningErrorsSpec | src/mcp/server.py:303-305 | one key per warning, `warning_i` holding warning `i` |
| McpServer.StrictConvert | src/mcp/server.py:301-306 | the warnings are kept, old errors kept, and the result valid exactly when it was and strict mode did not fire |
| McpServer.StrictModeSpec | src/mcp/server.py:301-306 | with warnings, strict mode adds `warning_i -> w_i`, keeps the other errors and forces invalidity; otherwise nothing changes |
| McpServer.ValidateFields | src/mcp/server.py:291-319 | `unknown` is an error without calling the validator; otherwise the validator's result after strict mode, with the field names and the flag |
| McpServer.CountPositiveIffContains | src/mcp/server.py:355 | `str.count` is positive exactly when the pattern occurs |
| McpServer.DuplicateIsRepeat | src/mcp/server.py:355 | the duplicate check fires exactly when the first fifty characters occur again from position 50 on |
| McpServer.FindingsPerCheck | src/mcp/server.py:354-367 | one medium finding per detected check, in order |
| McpServer.FraudAssessment | src/mcp/server.py:347-401 | the fraud report; stated by `FindingsPerCheck`, `RiskAlwaysLow`, `ScoreFromContentOnly` and `ShortAndDuplicateExclusive` |
| McpServer.CheckFraud | src/mcp/server.py:347-404 | 0.15 and a medium finding per detected content check, then the placeholder findings, the level and the capped score |
| McpServer.ShortAndDuplicateExclusive | src/mcp/server.py:355-356 | short and duplicated text never both fire; text of exactly 50 characters fires neither |
| McpServer.RiskAlwaysLow | src/mcp/server.py:385-395 | the risk never exceeds 0.3, so the level is always "low" and the other two branches are unreachable |
| McpServer.ScoreFromContentOnly | src/mcp/server.py:352-383 | the score is 0.15 per content check and nothing else; the placeholder findings follow their flags; without text the risk is 0 |
| McpServer.FullVerification | src/mcp/server.py:516-612 | the full pipeline; stated by `StepsArePrefix`, `HintBypassesClassifier`, `VerifiedMeansValid` and `FailureKeepsStepsSoFar` |
| McpServer.StepsArePrefix | src/mcp/server.py:538-612 | the reported steps are always a prefix of the pipeline; a success ran six steps plus the fraud step exactly when asked |
| McpServer.HintBypassesClassifier | src/mcp/server.py:561-567 | a known type hint is the classification, confidence 1.0, and the classifier is never consulted |
| McpServer.VerifiedMeansValid | src/mcp/server.py:574-602 | `is_verified` is the validation verdict; no extracted fields gives validation `{False, {}, []}`; the fraud level is "low" |
| McpServer.FailureKeepsStepsSoFar | src/mcp/server.py:611-612 | a stage that raises ends the pipeline with its message and the steps completed so far |
| Strings.UpperOfLower | src/validation/validators.py:68 | upper-casing a lower-cased string is upper-casing the string |
| Strings.RemoveChar | src/validation/validators.py:44 | `replace(c, '')` leaves no `c` and removes nothing else |
| Strings.RemoveCharAppend | src/validation/validators.py:44 | removal distributes over concatenation |
| Strings.RemoveCharOnce | src/validation/validators.py:74 | removing the only hyphen joins the two sides |
| Strings.ContainsAt | src/classification/engine.py:64 | an occurrence at an index makes `in` true |
| Strings.ContainsWitness | src/classification/engine.py:64 | `in` true yields an index of an occurrence |
| Strings.Split | src/validation/validators.py:57 | the pieces of `split` |
| Strings.Slice | src/api/storage.py:90 | Python slicing with clamped bounds |

## Left out

- Regular expressions in general are not modelled. The field patterns of the extraction
  tables are handed to a search oracle that returns the capture or nothing. That group 1
  takes part in every match is therefore assumed of the oracle, not proved. The anchored
  validator patterns and the template regexes are fixed-width and are modelled exactly, as
  ASCII window predicates.
- Unicode: `isdigit`, `isupper`, `isalnum`, `isspace`, `upper()`, `lower()` and `strip()`
  are ASCII-only here. For example, Python's `isdigit` accepts '²', after which `int()`
  raises inside the Verhoeff loop.
- Floating point:
  - classifier scores are tenths;
  - ensemble and EasyOCR confidences are exact reals;
  - the fraud risk is in hundredths.
  The classifier's 0.6 gate, the ensemble's 0.7 threshold and the fraud risk's 0.3 and
  0.6 bands agree with the float results (the 0.6 gate as explained above). The ensemble's
  fallback comparisons can differ; see the next line.
- Ensemble.ExtractWithMetadata: confidences are exact reals, so at the boundaries of
  `easy > paddle` (src/ocr/ensemble.py:115) and `abs(easy - paddle) < 0.1` (line 124) the
  float source can take another branch. For example, take a paddle text "ab1", whose
  estimate is 0.6, and a fallback confidence of 0.5. Python computes
  `abs(0.5 - 0.6) == 0.09999999999999998` and merges, while the model keeps the primary.
  `FallbackChoice` and `ResultConfidenceBounds` are stated over exact reals.
- The clock: `datetime.now()` is the parameter `today`.
- `strptime` accepts only the `%d/%m/%Y` grammar; locale and time parts are not modelled.
- Validators.ValidateDateFormat follows the code, not the docstring. The docstring at
  src/validation/validators.py:54 promises "not >120 years old", but line 58 checks only for
  a future date and a year before 1900. `YearBound` states the rule the code applies.
- The language model: the prompt, the transport and `json.loads` are parameters.
  - The classification reply is a string or an exception.
  - The extraction reply goes through a parse oracle. It yields an object, a sequence of
    pairs, or another value that `dict.update` refuses.
  - JSON values inside objects and pairs are strings only.
  - Extraction.Extract raises with one fixed message. Python's TypeError and ValueError
    texts, which vary with the value, are not modelled.
- The OCR engines themselves (`readtext`, the Paddle engine) are inputs. The lazy
  `_get_reader` / `_get_easy_engine` set-up and its language mapping are reduced to "a
  fallback engine exists or not". An exception inside `_run_easyocr` is folded into
  EasyEngine's failure outcome.
- Ensemble.Extract and Ensemble.ExtractWithMetadata are functions over the engines'
  outcomes; the object holding `use_easyocr` and the threshold is a `Config` value.
- Processor.Process: the classification dictionary always has `confidence` and `method`, so
  the defaults 0.0 and "unknown" of src/orchestration/processor.py:67,71 never apply. The
  processor's constructor only builds engines and is not modelled.
- The classification scenarios of the test script (a PAN text scoring 1.0, an Aadhaar text
  scoring 0.9) are not stated as lemmas. They would need the keyword search over long
  literal sentences. The general lemmas (`RuleOutcome`, `ThreeKeywordsClearGate`,
  `KeywordCountDistinct`) cover the scoring they exercise.
- Storage: the database branches, `_get_repos` and the audit log are left out. A stored
  record is a map from field names to strings. `None` as a `document_id` is a key like any
  other. Stored dictionaries are values, so the aliasing between a caller's dict and the
  stored one, which `update_document` mutates in place, is not captured.
- ValidationAgents.ValidationAgent.ProcessImpl: field values are strings. The source takes
  `Dict[str, Any]` and calls `len()` on each value. A list counted by its elements, or an
  int whose `len()` raises TypeError and puts the agent in ERROR, is not modelled.
- Agents are represented by their status, id, type name and context. The subclasses'
  `_initialize_impl`, `_process_impl` and `_shutdown_impl` are outcomes passed in. A
  generated UUID is a parameter. `async` is treated as sequential calls.
- AgentManagement.AgentManager.ShutdownAll terminates agents in an unspecified order. The
  source terminates them in insertion order and stops at the first raise, so that order
  decides which agents are shut down and removed before the raise and which exception is
  passed on. The model promises only that the agents removed were shut down and that the
  exception comes from an agent still in the table.
- MCP server: outside the core are
  - the tools `docverify_ocr_extract`, `docverify_classify_document` and
    `docverify_detect_stamps`;
  - the two resources;
  - base64 decoding (section 4 of RFC 4648), PIL decoding and temporary files.
  Decoding and saving is the outcome `saved`, and the temp-file clean-up is not modelled.
  The generic `except Exception` of each tool is covered only for the engine calls that
  are parameters.
- Image preprocessing, the other agents, the HTTP API, the UI, configuration, and the
  drawing code of the sample scripts are not part of this model.
