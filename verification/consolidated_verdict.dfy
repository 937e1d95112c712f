/**
 * The verdict rule of the consolidated decision tests
 * (tests/mpe/examples/test_consolidated_yml.py, `run_and_validate_policy_test`).
 * The decision engine's standard output arrives already decoded: `None`
 * stands for text that `json.loads` rejects.
 */
module ConsolidatedVerdict {
  import opened Wrappers
  import opened Json
  import opened MpeRunner

  /** The response fields the rule reads. */
  const DecisionKey: string := "decision"
  const ReferencesKey: string := "references"

  /** Two of the failure messages. */
  const NotJson: string := "Output is not valid JSON"
  const DenyReferencesFound: string := "Expected allow, but deny references found"

  /** Pass, an explicit test failure with its message, or a Python exception raised by malformed output. */
  datatype Verdict = Pass | Fail(message: string) | Crash

  /** `dict.get(key)` rendered for `normalize_decision`: None for a missing key or JSON null. */
  function DecisionText(fields: map<string, Value>, str: Value -> string): Option<string>
  {
    if DecisionKey in fields && !fields[DecisionKey].Null? then Some(str(fields[DecisionKey])) else None
  }

  /**
   * The references the comprehension iterates over, or None when iterating
   * them raises (a non-iterable value, or an element without `.get`).
   * A missing field defaults to the empty list.
   */
  function References(response: map<string, Value>): (r: Option<seq<map<string, Value>>>)
    ensures ReferencesKey !in response ==> r == Some([])
    ensures r.Some? && ReferencesKey in response && response[ReferencesKey].Arr? ==>
      |r.value| == |response[ReferencesKey].items|
  {
    if ReferencesKey !in response then Some([])
    else match response[ReferencesKey]
      case Arr(items) =>
        if forall i :: 0 <= i < |items| ==> items[i].Obj? then
          Some(seq(|items|, i requires 0 <= i < |items| => items[i].fields))
        else None
      case Obj(m) => if m == map[] then Some([]) else None
      case Str(s) => if s == "" then Some([]) else None
      case _ => None
  }

  /** The reference's own decision normalises to DENY. */
  predicate IsDenyRef(x: map<string, Value>, str: Value -> string)
  {
    NormalizeDecision(DecisionText(x, str)) == Deny
  }

  /** The references whose own decision normalises to DENY, in order. */
  function DenyRefs(refs: seq<map<string, Value>>, str: Value -> string): seq<map<string, Value>>
  {
    if refs == [] then []
    else (if IsDenyRef(refs[0], str) then [refs[0]] else []) + DenyRefs(refs[1..], str)
  }

  /** The DENY references are exactly the references that are DENY. */
  lemma {:induction false} DenyRefsMeaning(refs: seq<map<string, Value>>, str: Value -> string)
    ensures forall x :: x in DenyRefs(refs, str) <==> x in refs && IsDenyRef(x, str)
  {
    if refs != [] {
      var rest := DenyRefs(refs[1..], str);
      DenyRefsMeaning(refs[1..], str);
      assert refs == [refs[0]] + refs[1..];
      if IsDenyRef(refs[0], str) {
        assert DenyRefs(refs, str) == [refs[0]] + rest;
      } else {
        assert DenyRefs(refs, str) == rest;
      }
    }
  }

  /** `run_and_validate_policy_test` after the engine has run; `str` is Python's `str()` of a JSON value. */
  function Validate(output: Option<Value>, expectedAllow: bool, str: Value -> string): Verdict
  {
    match output
    case None => Fail(NotJson)
    case Some(Obj(response)) =>
      var decision := NormalizeDecision(DecisionText(response, str));
      (match References(response)
       case None => Crash
       case Some(refs) =>
         if expectedAllow && DenyRefs(refs, str) != [] then Fail(DenyReferencesFound)
         else if expectedAllow then
           (if decision == Grant then Pass else Fail("Expected allow (GRANT), got: " + decision))
         else
           (if decision != Grant then Pass else Fail("Expected deny, but got allow")))
    case Some(_) => Crash
  }

  /** Output that is not JSON fails the test, whatever was expected. */
  lemma NotJsonFails(expectedAllow: bool, str: Value -> string)
    ensures Validate(None, expectedAllow, str) == Fail(NotJson)
  {
  }

  /**
   * Expecting allow, a DENY reference fails the test even when the top-level
   * decision is GRANT.
   */
  lemma DenyReferenceFailsAllow(response: map<string, Value>, str: Value -> string, k: nat)
    requires References(response).Some? && k < |References(response).value|
    requires IsDenyRef(References(response).value[k], str)
    ensures Validate(Some(Obj(response)), true, str) == Fail(DenyReferencesFound)
  {
    var refs := References(response).value;
    DenyRefsMeaning(refs, str);
    assert refs[k] in DenyRefs(refs, str);
  }

  /**
   * Expecting allow, the test passes exactly when the output is a JSON object
   * with well-formed references, none of them DENY, and a top-level decision
   * that normalises to GRANT.
   */
  lemma AllowPassesIff(output: Option<Value>, str: Value -> string)
    ensures Validate(output, true, str) == Pass <==>
      (output.Some? && output.value.Obj? && References(output.value.fields).Some? &&
       (forall x :: x in References(output.value.fields).value ==> !IsDenyRef(x, str)) &&
       NormalizeDecision(DecisionText(output.value.fields, str)) == Grant)
  {
    if output.Some? && output.value.Obj? && References(output.value.fields).Some? {
      var response := output.value.fields;
      var refs := References(response).value;
      var decision := NormalizeDecision(DecisionText(response, str));
      DenyRefsMeaning(refs, str);
      var denied := DenyRefs(refs, str);
      assert Validate(output, true, str) ==
             if denied != [] then Fail(DenyReferencesFound)
             else if decision == Grant then Pass
             else Fail("Expected allow (GRANT), got: " + decision);
      if denied != [] {
        assert denied[0] in denied;
      } else {
        assert forall x :: x in refs ==> !IsDenyRef(x, str);
      }
    }
  }

  /**
   * Expecting deny, the test passes exactly when the output is a JSON object
   * with iterable references and a top-level decision other than GRANT.
   * DENY references are irrelevant.
   */
  lemma DenyPassesIff(output: Option<Value>, str: Value -> string)
    ensures Validate(output, false, str) == Pass <==>
      (output.Some? && output.value.Obj? && References(output.value.fields).Some? &&
       NormalizeDecision(DecisionText(output.value.fields, str)) != Grant)
  {
  }

  /** A response without a references field behaves as one with an empty list. */
  lemma MissingReferencesAreEmpty(response: map<string, Value>, expectedAllow: bool, str: Value -> string)
    requires ReferencesKey !in response
    ensures Validate(Some(Obj(response)), expectedAllow, str)
         == Validate(Some(Obj(response[ReferencesKey := Arr([])])), expectedAllow, str)
  {
    var response' := response[ReferencesKey := Arr([])];
    assert DecisionText(response', str) == DecisionText(response, str);
    assert References(response') == Some([]);
  }
}
