/** `ValidationAgent` of src/orchestration/agents/validation_agent.py: the mock field rule
    its `_process_impl` applies. The lifecycle around it is `Agents.BaseAgent`. */
module ValidationAgents {
  import opened Strings

  /** `{"valid": True}` or `{"valid": False, "reason": "Too short"}` */
  datatype FieldVerdict = Accepted | TooShort

  /** The rule: a key mentioning "number" needs a value of at least five characters. */
  predicate Fails(key: string, value: string) {
    Contains(key, "number") && |value| < 5
  }

  function VerdictOf(key: string, value: string): FieldVerdict {
    if Fails(key, value) then TooShort else Accepted
  }

  /** `input_data.get("fields", {})` */
  function FieldsOf(fields: Option<map<string, string>>): map<string, string> {
    match fields
    case None => map[]
    case Some(m) => m
  }

  class ValidationAgent {
    var strictMode: bool

    constructor()
      ensures !strictMode
    {
      strictMode := false;
    }

    /** `_initialize_impl`: `config.get("strict", False)` */
    method InitializeImpl(config: map<string, bool>)
      modifies this
      ensures strictMode == (if "strict" in config then config["strict"] else false)
    {
      strictMode := if "strict" in config then config["strict"] else false;
    }

    /** `_process_impl`: one verdict per field, and `is_valid` exactly when none failed. The
        agent's state, `strictMode` included, plays no part. */
    method ProcessImpl(input: Option<map<string, string>>) returns (results: map<string, FieldVerdict>, isValid: bool)
      ensures results.Keys == FieldsOf(input).Keys
      ensures forall key :: key in results ==>
        (results[key] == TooShort <==> Fails(key, FieldsOf(input)[key]))
      ensures isValid <==> AllFieldsPass(FieldsOf(input))
    {
      var fields := FieldsOf(input);
      results := map[];
      isValid := true;
      var remaining := fields.Keys;
      while remaining != {}
        invariant remaining <= fields.Keys
        invariant results.Keys == fields.Keys - remaining
        invariant forall key :: key in results ==> results[key] == VerdictOf(key, fields[key])
        invariant isValid <==> forall key :: key in results ==> !Fails(key, fields[key])
        decreases remaining
      {
        var key :| key in remaining;
        if Fails(key, fields[key]) {
          results := results[key := TooShort];
          isValid := false;
        } else {
          results := results[key := Accepted];
        }
        remaining := remaining - {key};
      }
    }
  }

  /** No field fails the rule; `_process_impl` reports `is_valid` exactly then. */
  predicate AllFieldsPass(fields: map<string, string>) {
    forall key :: key in fields ==> !Fails(key, fields[key])
  }

  /** Missing or empty `fields` is the only input with no verdicts at all, and it validates:
      every key the rule could fail on is absent. */
  lemma NoFieldsIsValid(input: Option<map<string, string>>)
    ensures FieldsOf(input).Keys == {} <==> input.None? || input.value == map[]
    ensures input.None? || input.value == map[] ==> AllFieldsPass(FieldsOf(input))
    ensures !AllFieldsPass(FieldsOf(input)) ==> input.Some? && exists key :: key in input.value && Fails(key, input.value[key])
  {
    if input.Some? && input.value != map[] {
      var key :| key in input.value;
      assert key in FieldsOf(input).Keys;
    }
  }

  /** "number" occurs in `key` at position `k`. */
  predicate NumberAt(key: string, k: int) {
    0 <= k && k + 6 <= |key| && key[k..k + 6] == "number"
  }

  /** A field fails exactly when "number" occurs somewhere in its key and its value is
      shorter than five characters. */
  lemma RuleScope(key: string, value: string)
    ensures VerdictOf(key, value) == TooShort <==>
      (exists k :: NumberAt(key, k)) && |value| < 5
  {
    if Contains(key, "number") {
      var k := ContainsWitness(key, "number");
      assert NumberAt(key, k);
    }
    if exists k :: NumberAt(key, k) {
      var k :| NumberAt(key, k);
      ContainsAt(key, "number", k);
    }
  }
}
