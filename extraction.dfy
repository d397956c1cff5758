/** `ExtractionEngine` of src/extraction/engine.py: regex extraction over the type's table,
    the critical-field check, and the language-model fallback merged into the regex result.
    The regex engine and `json.loads` are parameters. */
module Extraction {
  import opened Strings
  import opened ExtractionPatterns
  import opened Outcomes

  type FieldMap = map<string, string>

  /** `re.search(pattern, text)` reduced to what `extract_by_regex` reads: the captured text
      of the first match, or None when nothing matches. */
  type Searcher = (string, string) -> Option<string>

  /** A parsed reply, by how `dict.update` treats it: an object is merged key by key; an
      array whose every element is a pair of strings (a two-element array, or a two-character
      string), the empty array and the empty string among them, is merged pair by pair; any
      other value (null, a number, a boolean, a non-empty string, an array holding something
      that is not a pair) makes `update` raise TypeError or ValueError. */
  datatype Json = JObject(fields: FieldMap) | JPairs(pairs: seq<(string, string)>) | JOther

  /** `json.loads`: the parsed value, or None when it raises. */
  type JsonParser = string -> Option<Json>

  /** The message `extract` propagates when `dict.update` refuses the reply. */
  const UpdateRefused := "dictionary update refused a non-mapping value"

  datatype LlmReply = Replied(content: string) | Raised

  /** `self.llm`: absent when not configured. */
  datatype Llm = NoLlm | Configured(reply: LlmReply)

  /** The fields found by the patterns of the table, each value stripped. */
  function RegexFields(table: PatternTable, text: string, search: Searcher): FieldMap {
    if table == [] then map[]
    else
      var rest := RegexFields(table[..|table| - 1], text, search);
      var (field, pattern) := table[|table| - 1];
      match search(pattern, text)
      case None => rest
      case Some(v) => rest[field := Strip(v)]
  }

  /** A field is extracted exactly when its pattern matches, and then holds the stripped capture. */
  lemma RegexFieldsSpec(table: PatternTable, text: string, search: Searcher)
    requires DistinctFields(table)
    ensures forall f :: f in RegexFields(table, text, search) <==>
      exists i :: 0 <= i < |table| && table[i].0 == f && search(table[i].1, text).Some?
    ensures forall i :: 0 <= i < |table| && search(table[i].1, text).Some? ==>
      RegexFields(table, text, search)[table[i].0] == Strip(search(table[i].1, text).value)
  {
    forall f ensures f in RegexFields(table, text, search) <==>
      exists i :: 0 <= i < |table| && table[i].0 == f && search(table[i].1, text).Some?
    {
      if f in RegexFields(table, text, search) {
        var i := RegexFieldsOnly(table, text, search, f);
        assert MatchesAt(table, text, search, f, i);
      }
      if exists i :: MatchesAt(table, text, search, f, i) {
        var i :| MatchesAt(table, text, search, f, i);
        RegexFieldsHas(table, text, search, f, i);
      }
    }
    forall i | 0 <= i < |table| && search(table[i].1, text).Some?
      ensures RegexFields(table, text, search)[table[i].0] == Strip(search(table[i].1, text).value)
    {
      RegexFieldsAt(table, text, search, i);
    }
  }

  lemma RegexFieldsLast(table: PatternTable, text: string, search: Searcher)
    requires table != []
    ensures var n := |table| - 1;
      RegexFields(table, text, search) ==
        if search(table[n].1, text).None? then RegexFields(table[..n], text, search)
        else RegexFields(table[..n], text, search)[table[n].0 := Strip(search(table[n].1, text).value)]
  {
  }

  lemma RegexFieldsLastKeys(table: PatternTable, text: string, search: Searcher)
    requires table != []
    ensures var n := |table| - 1;
      RegexFields(table, text, search).Keys == RegexFields(table[..n], text, search).Keys
        + (if search(table[n].1, text).Some? then {table[n].0} else {})
  {
    RegexFieldsLast(table, text, search);
  }

  /** The pattern of row `i` of the table matches. */
  predicate MatchesAt(table: PatternTable, text: string, search: Searcher, f: string, i: int) {
    0 <= i < |table| && table[i].0 == f && search(table[i].1, text).Some?
  }

  /** A field whose pattern matches is extracted... */
  lemma {:induction false} RegexFieldsHas(table: PatternTable, text: string, search: Searcher, f: string, i: int)
    requires MatchesAt(table, text, search, f, i)
    ensures f in RegexFields(table, text, search)
  {
    var n := |table| - 1;
    RegexFieldsLastKeys(table, text, search);
    var init := table[..n];
    if i < n {
      assert init[i] == table[i];
      RegexFieldsHas(init, text, search, f, i);
      assert f in RegexFields(init, text, search).Keys;
    } else {
      assert i == n;
    }
  }

  /** ...and an extracted field has a pattern that matches. */
  lemma {:induction false} RegexFieldsOnly(table: PatternTable, text: string, search: Searcher, f: string) returns (i: int)
    requires f in RegexFields(table, text, search)
    ensures MatchesAt(table, text, search, f, i)
  {
    var n := |table| - 1;
    RegexFieldsLast(table, text, search);
    if MatchesAt(table, text, search, f, n) {
      i := n;
    } else {
      var init := table[..n];
      i := RegexFieldsOnly(init, text, search, f);
      assert init[i] == table[i];
    }
  }

  lemma {:induction false} RegexFieldsAt(table: PatternTable, text: string, search: Searcher, i: int)
    requires DistinctFields(table) && 0 <= i < |table| && search(table[i].1, text).Some?
    ensures table[i].0 in RegexFields(table, text, search)
    ensures RegexFields(table, text, search)[table[i].0] == Strip(search(table[i].1, text).value)
  {
    var n := |table| - 1;
    RegexFieldsLast(table, text, search);
    if i < n {
      var init := table[..n];
      assert init[i] == table[i];
      assert DistinctFields(init);
      RegexFieldsAt(init, text, search, i);
      assert table[n].0 != table[i].0;
    }
  }

  /** The loop of `extract_by_regex` over one table. */
  method SearchTable(table: PatternTable, text: string, search: Searcher) returns (results: FieldMap)
    ensures results == RegexFields(table, text, search)
  {
    results := map[];
    var i := 0;
    while i < |table|
      invariant 0 <= i <= |table|
      invariant results == RegexFields(table[..i], text, search)
    {
      assert table[..i + 1][..i] == table[..i];
      var (field, pattern) := table[i];
      var m := search(pattern, text);
      if m.Some? {
        results := results[field := Strip(m.value)];
      }
      i := i + 1;
    }
    assert table[..i] == table;
  }

  /** `extract_by_regex` */
  method ExtractByRegex(text: string, docType: string, search: Searcher) returns (results: FieldMap)
    ensures results == RegexFields(GetPatterns(docType), text, search)
  {
    var patterns := GetPatterns(docType);
    results := SearchTable(patterns, text, search);
  }

  /** The critical fields of `_check_missing_fields`; other types have none. */
  function CriticalFields(docType: string): seq<string> {
    if docType == "aadhaar_card" then ["aadhaar_number"]
    else if docType == "pan_card" then ["pan_number"]
    else if docType == "driving_license" then ["dl_number"]
    else if docType == "voter_id" then ["voter_id_number"]
    else []
  }

  /** The required fields absent from the data, in their order. */
  function Absent(required: seq<string>, data: FieldMap): seq<string> {
    if required == [] then []
    else (if required[0] in data then [] else [required[0]]) + Absent(required[1..], data)
  }

  /** A field is reported missing exactly when it is required and absent. */
  lemma {:induction false} AbsentSpec(required: seq<string>, data: FieldMap)
    ensures forall f :: f in Absent(required, data) <==> f in required && f !in data
    ensures |Absent(required, data)| <= |required|
  {
    if required != [] {
      AbsentSpec(required[1..], data);
      assert forall f :: f in required <==> f == required[0] || f in required[1..];
    }
  }

  function CheckMissingFields(data: FieldMap, docType: string): seq<string> {
    Absent(CriticalFields(docType), data)
  }

  /** Every critical field has a pattern in its type's table. */
  lemma CriticalFieldsHavePatterns(docType: string)
    ensures forall f :: f in CriticalFields(docType) ==> f in Fields(GetPatterns(docType))
  {
    assert Fields(AadhaarTable)[0] == "aadhaar_number";
    assert Fields(PanTable)[0] == "pan_number";
    assert Fields(DrivingLicenseTable)[0] == "dl_number";
    assert Fields(VoterIdTable)[0] == "voter_id_number";
  }

  /** Passport, birth certificate and every unlisted type have no critical field. */
  lemma NothingCriticalElsewhere(data: FieldMap, docType: string)
    requires docType !in ["aadhaar_card", "pan_card", "driving_license", "voter_id"]
    ensures CheckMissingFields(data, docType) == []
  {
  }

  /** The fence strip of `extract_by_llm`. */
  function StripFences(content: string): string {
    Strip(ReplaceAll(ReplaceAll(content, "```json", ""), "```", ""))
  }

  /** What `extract_by_llm` returns: the parsed reply, or `{}` on any exception. */
  function LlmData(reply: LlmReply, parse: JsonParser): Json {
    match reply
    case Raised => JObject(map[])
    case Replied(content) =>
      match parse(StripFences(content))
      case None => JObject(map[])
      case Some(v) => v
  }

  /** `d.update(pairs)` for a sequence of pairs: each pair in turn, so a later pair wins. */
  function AddPairs(d: FieldMap, pairs: seq<(string, string)>): (r: FieldMap)
    ensures r.Keys == d.Keys + set i | 0 <= i < |pairs| :: pairs[i].0
    ensures forall k :: k in d && (forall i :: 0 <= i < |pairs| ==> pairs[i].0 != k) ==> r[k] == d[k]
    ensures pairs != [] ==> r[pairs[|pairs| - 1].0] == pairs[|pairs| - 1].1
  {
    if pairs == [] then d
    else
      var front := pairs[..|pairs| - 1];
      var (k, v) := pairs[|pairs| - 1];
      assert (set i | 0 <= i < |pairs| :: pairs[i].0) == (set i | 0 <= i < |front| :: front[i].0) + {k} by {
        assert forall i :: 0 <= i < |front| ==> front[i] == pairs[i];
      }
      AddPairs(d, front)[k := v]
  }

  /** `d.update(v)`: the merged dictionary, or the exception `update` raises. */
  function Update(d: FieldMap, v: Json): Outcome<FieldMap> {
    match v
    case JObject(m) => Done(d + m)
    case JPairs(pairs) => Done(AddPairs(d, pairs))
    case JOther => Outcomes.Raised(UpdateRefused)
  }

  /** What `extract` returns: the regex result, updated by the model's answer when a critical
      field is missing and a model is configured; the update, outside every `try`, can raise. */
  function ExtractOf(text: string, docType: string, search: Searcher, llm: Llm, parse: JsonParser): Outcome<FieldMap> {
    var regex := RegexFields(GetPatterns(docType), text, search);
    if CheckMissingFields(regex, docType) != [] && llm.Configured? then Update(regex, LlmData(llm.reply, parse))
    else Done(regex)
  }

  /** `extract` */
  method Extract(text: string, docType: string, search: Searcher, llm: Llm, parse: JsonParser)
    returns (r: Outcome<FieldMap>)
    ensures r == ExtractOf(text, docType, search, llm, parse)
  {
    var extractedData := ExtractByRegex(text, docType, search);
    var missingCriticalFields := CheckMissingFields(extractedData, docType);
    if missingCriticalFields != [] && llm.Configured? {
      var llmData := LlmData(llm.reply, parse);
      r := Update(extractedData, llmData);
    } else {
      r := Done(extractedData);
    }
  }

  /** Without a model, or with every critical field found, the result is the regex result. */
  lemma RegexSuffices(text: string, docType: string, search: Searcher, llm: Llm, parse: JsonParser)
    requires llm.NoLlm? || forall f :: f in CriticalFields(docType) ==> f in RegexFields(GetPatterns(docType), text, search)
    ensures ExtractOf(text, docType, search, llm, parse) == Done(RegexFields(GetPatterns(docType), text, search))
  {
    AbsentSpec(CriticalFields(docType), RegexFields(GetPatterns(docType), text, search));
    if CheckMissingFields(RegexFields(GetPatterns(docType), text, search), docType) != [] {
      var f := CheckMissingFields(RegexFields(GetPatterns(docType), text, search), docType)[0];
      assert f in CheckMissingFields(RegexFields(GetPatterns(docType), text, search), docType);
    }
  }

  /** An object reply overwrites, any key included; every other regex field is kept. */
  lemma MergeOverwrites(text: string, docType: string, search: Searcher, reply: LlmReply, parse: JsonParser)
    requires CheckMissingFields(RegexFields(GetPatterns(docType), text, search), docType) != []
    ensures var regex := RegexFields(GetPatterns(docType), text, search);
      var llmData := LlmData(reply, parse);
      var r := ExtractOf(text, docType, search, Configured(reply), parse);
      llmData.JObject? ==>
        r.Done?
        && (forall k :: k in r.value <==> k in regex || k in llmData.fields)
        && (forall k :: k in llmData.fields ==> r.value[k] == llmData.fields[k])
        && (forall k :: k in regex && k !in llmData.fields ==> r.value[k] == regex[k])
  {
  }

  /** Once the model is consulted, `extract` raises exactly when the reply parses to a value
      that is neither an object nor a sequence of pairs. */
  lemma NonObjectRaises(text: string, docType: string, search: Searcher, reply: LlmReply, parse: JsonParser)
    requires CheckMissingFields(RegexFields(GetPatterns(docType), text, search), docType) != []
    ensures ExtractOf(text, docType, search, Configured(reply), parse).Raised? <==> LlmData(reply, parse).JOther?
    ensures ExtractOf(text, docType, search, Configured(reply), parse).Raised? ==>
      ExtractOf(text, docType, search, Configured(reply), parse).error == UpdateRefused
    ensures LlmData(reply, parse).JPairs? ==>
      ExtractOf(text, docType, search, Configured(reply), parse)
        == Done(AddPairs(RegexFields(GetPatterns(docType), text, search), LlmData(reply, parse).pairs))
  {
  }

  /** A failed model call, or a reply that does not parse, leaves the regex result. */
  lemma ModelFailureKeepsRegex(text: string, docType: string, search: Searcher, reply: LlmReply, parse: JsonParser)
    requires reply.Raised? || parse(StripFences(reply.content)).None?
    ensures ExtractOf(text, docType, search, Configured(reply), parse) == Done(RegexFields(GetPatterns(docType), text, search))
  {
    var regex := RegexFields(GetPatterns(docType), text, search);
    assert regex + map[] == regex;
  }

  /** The model is never consulted for a passport, a birth certificate or an unlisted type. */
  lemma NoModelWithoutCriticalFields(text: string, docType: string, search: Searcher, llm: Llm, parse: JsonParser)
    requires docType !in ["aadhaar_card", "pan_card", "driving_license", "voter_id"]
    ensures ExtractOf(text, docType, search, llm, parse) == Done(RegexFields(GetPatterns(docType), text, search))
  {
    NothingCriticalElsewhere(RegexFields(GetPatterns(docType), text, search), docType);
  }

  // ---------------------------------------------------------------------------
  // No fence survives the strip.

  const Fence := "```"

  lemma NotContainsShort(s: string, p: string)
    requires |s| < |p|
    ensures !Contains(s, p)
  {
    if Contains(s, p) {
      var k := ContainsWitness(s, p);
    }
  }

  /** A text that does not start with a backtick keeps its first character. */
  lemma RemoveFenceHead(s: string)
    requires s != [] && s[0] != '`'
    ensures ReplaceAll(s, Fence, "") != [] && ReplaceAll(s, Fence, "")[0] == s[0]
  {
  }

  lemma {:induction false} RemoveFenceComplete(s: string)
    ensures !Contains(ReplaceAll(s, Fence, ""), Fence)
    decreases |s|
  {
    var r := ReplaceAll(s, Fence, "");
    if |s| < 3 {
      NotContainsShort(r, Fence);
    } else if s[..3] == Fence {
      assert r == ReplaceAll(s[3..], Fence, "");
      RemoveFenceComplete(s[3..]);
    } else {
      var t := ReplaceAll(s[1..], Fence, "");
      assert r == [s[0]] + t;
      RemoveFenceComplete(s[1..]);
      if Contains(r, Fence) {
        var k := ContainsWitness(r, Fence);
        if k > 0 {
          assert t[k - 1..k - 1 + 3] == r[k..k + 3];
          ContainsAt(t, Fence, k - 1);
        }
      }
    }
  }

  lemma ContainsInSlice(s: string, i: nat, j: nat, p: string)
    requires i <= j <= |s| && Contains(s[i..j], p)
    ensures Contains(s, p)
  {
    var k := ContainsWitness(s[i..j], p);
    assert forall m | k <= m < k + |p| :: s[i..j][m] == s[i + m];
    assert s[i..j][k..k + |p|] == s[i + k..i + k + |p|];
    ContainsAt(s, p, i + k);
  }

  /** After the strip the content holds no code fence. */
  lemma StripFencesComplete(content: string)
    ensures !Contains(StripFences(content), Fence)
  {
    var x := ReplaceAll(ReplaceAll(content, "```json", ""), Fence, "");
    RemoveFenceComplete(ReplaceAll(content, "```json", ""));
    var y := TrimStart(x);
    var z := TrimEnd(y);
    if Contains(z, Fence) {
      ContainsInSlice(y, 0, |z|, Fence);
      assert y == x[|x| - |y|..|x|];
      ContainsInSlice(x, |x| - |y|, |x|, Fence);
    }
  }
}
