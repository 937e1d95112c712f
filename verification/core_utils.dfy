/**
 * Helpers of the decision path (internal/core/utils.go): the non-negative
 * duration conversion, the unsafe-builtins set read from configuration, and
 * the construction of a bundle reference. The configured string is a
 * parameter; reading it from the configuration store is not modelled.
 */
module CoreUtils {
  import opened Wrappers
  import opened Text
  import opened Events

  const MaxInt64: int := 0x7FFF_FFFF_FFFF_FFFF
  const MinInt64: int := -0x8000_0000_0000_0000

  /** `safeNanos`: a negative duration becomes 0; any other is kept, so the result always fits in a uint64. */
  function SafeNanos(nanos: int): (r: nat)
    requires MinInt64 <= nanos <= MaxInt64
    ensures r <= MaxInt64
    ensures nanos >= 0 ==> r == nanos
    ensures nanos < 0 ==> r == 0
  {
    if nanos < 0 then 0 else nanos
  }

  /** The set `getUnsafeBuiltins` builds: every comma-separated part of the configured string. */
  function BuiltinSet(configured: string): (r: set<string>)
    ensures forall f :: f in r ==> ',' !in f
  {
    var parts := Split(configured, ',');
    set i | 0 <= i < |parts| :: parts[i]
  }

  /** `getUnsafeBuiltins`: the set of comma-separated parts of the configured string. */
  method UnsafeBuiltins(configured: string) returns (m: set<string>)
    ensures m == BuiltinSet(configured)
  {
    var builtins := Split(configured, ',');
    m := {};
    for i := 0 to |builtins|
      invariant m == set k | 0 <= k < i :: builtins[k]
    {
      m := m + {builtins[i]};
    }
  }

  /** Every part of the configured string, joined back with commas, is the string itself, and each part is in the set. */
  lemma BuiltinSetCovers(configured: string)
    ensures Join(Split(configured, ','), ",") == configured
    ensures forall i :: 0 <= i < |Split(configured, ',')| ==> Split(configured, ',')[i] in BuiltinSet(configured)
  {
    JoinSplit(configured, ',');
  }

  /** A string without commas configures exactly itself; in particular the empty setting gives the set holding "". */
  lemma SingleBuiltin(configured: string)
    requires ',' !in configured
    ensures BuiltinSet(configured) == {configured}
  {
    assert IndexOf(configured, ',').None?;
    var parts := Split(configured, ',');
    assert parts == [configured];
    assert (set i | 0 <= i < |parts| :: parts[i]) == {configured} by {
      assert parts[0] == configured;
    }
  }

  /**
   * `buildBundleReference`: exactly one policy reference, carrying the policy's
   * MRN and fingerprint when there is a policy; an error makes the bundle a
   * DENY with the error's reason code and reason, otherwise the bundle has the
   * given decision and the plain policy-outcome reason code.
   */
  function BuildBundleReference(perr: Option<PolicyError>, policy: Option<CompiledPolicy>, phase: Phase,
                                id: string, result: Decision, duration: nat): (r: BundleReference)
    ensures |r.policies| == 1
    ensures r.id == id && r.phase == phase && r.duration == duration
    ensures policy.Some? ==> r.policies[0] == PolicyReferenceEvent(policy.value.mrn, policy.value.fingerprint)
    ensures policy.None? ==> r.policies[0] == PolicyReferenceEvent("", [])
    ensures perr.Some? ==> r.decision == Deny && r.reasonCode == perr.value.reasonCode && r.reason == perr.value.reason
    ensures perr.None? ==> r.decision == result && r.reasonCode == PolicyOutcome && r.reason == ""
  {
    var event := if policy.Some? then PolicyReferenceEvent(policy.value.mrn, policy.value.fingerprint)
                 else PolicyReferenceEvent("", []);
    var br := BundleReference(id, [event], phase, duration, Unspecified, PolicyOutcome, "");
    if perr.Some? then br.(decision := Deny, reasonCode := perr.value.reasonCode, reason := perr.value.reason)
    else br.(decision := result)
  }

  /** An error trumps the supplied decision: the bundle does not depend on it. */
  lemma ErrorTrumpsDecision(perr: PolicyError, policy: Option<CompiledPolicy>, phase: Phase, id: string,
                            a: Decision, b: Decision, duration: nat)
    ensures BuildBundleReference(Some(perr), policy, phase, id, a, duration) ==
            BuildBundleReference(Some(perr), policy, phase, id, b, duration)
  {
  }

  /** A GRANT bundle comes only from a GRANT result without error. */
  lemma GrantBundleNeedsNoError(perr: Option<PolicyError>, policy: Option<CompiledPolicy>, phase: Phase, id: string,
                                result: Decision, duration: nat)
    ensures BuildBundleReference(perr, policy, phase, id, result, duration).decision == Grant <==>
            perr.None? && result == Grant
  {
  }
}
