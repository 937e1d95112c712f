/**
 * The decision combination of `Authorize` (internal/core/policyengine.go):
 * the phase bundles are appended to the access record in phase order, a
 * phase-1 GRANT or DENY is final, and otherwise the request is granted only
 * when the resource resolved and phases 2, 3 and 4 all passed. The audit
 * override reason is derived from the phase-1 result.
 *
 * Building the PORC, resolving the resource and running the phases are
 * outside this model: their results are inputs. The protobuf enum name
 * tables for bypass reasons are the parameters `denyReasonName` and
 * `grantReasonName` ("" for an unnamed value).
 */
module Engine {
  import opened Wrappers
  import opened Events
  import opened CoreUtils

  /** The phase-1 result recorded when the decision did not come from phase 1 (`math.MaxInt`). */
  const AuditNotPhase1: int := MaxInt64

  /** Go's `int32(x)` on a 64-bit integer: the low 32 bits, read as signed. */
  function Int32Of(x: int): (r: int)
    ensures -0x8000_0000 <= r < 0x8000_0000
    ensures (r - x) % 0x1_0000_0000 == 0
    ensures -0x8000_0000 <= x < 0x8000_0000 ==> r == x
  {
    (x + 0x8000_0000) % 0x1_0000_0000 - 0x8000_0000
  }

  /** The fields of `events.AccessRecord` the decision path writes. */
  class AccessRecord {
    var references: seq<BundleReference>
    var decision: Decision
    var systemOverride: bool
    var overrideReason: Option<OverrideReason>

    constructor ()
      ensures references == [] && decision == Unspecified && !systemOverride && overrideReason.None?
    {
      references := [];
      decision := Unspecified;
      systemOverride := false;
      overrideReason := None;
    }

    /**
     * `setOverrideReason`: a decision not made by phase 1 is no override and
     * has no audit reason. Otherwise it is a system override: a negative
     * result names a deny reason, any other a grant reason, falling back to
     * NOT_DENIED or NOT_GRANTED when the code has no name.
     */
    method SetOverrideReason(result: int, denyReasonName: int -> string, grantReasonName: int -> string)
      returns (auditReason: string)
      requires MinInt64 <= result <= MaxInt64
      modifies this
      ensures references == old(references) && decision == old(decision)
      ensures result == AuditNotPhase1 ==> !systemOverride && auditReason == "" && overrideReason == old(overrideReason)
      ensures result != AuditNotPhase1 ==> systemOverride
      ensures result < 0 ==>
        var code := Int32Of(-result);
        if denyReasonName(code) != "" then
          overrideReason == Some(DenyReason(Coded(code))) && auditReason == denyReasonName(code)
        else
          overrideReason == Some(DenyReason(NotDenied)) && auditReason == ""
      ensures 0 <= result < AuditNotPhase1 ==>
        var code := Int32Of(result);
        if grantReasonName(code) != "" then
          overrideReason == Some(GrantReason(Coded(code))) && auditReason == grantReasonName(code)
        else
          overrideReason == Some(GrantReason(NotGranted)) && auditReason == ""
    {
      auditReason := "";
      if result == AuditNotPhase1 {
        systemOverride := false;
        return;
      }
      systemOverride := true;
      if result < 0 {
        var code := Int32Of(-result);
        var r: BypassReason;
        if denyReasonName(code) != "" {
          r := Coded(code);
          auditReason := denyReasonName(code);
        } else {
          r := NotDenied;
        }
        overrideReason := Some(DenyReason(r));
      } else {
        var code := Int32Of(result);
        var r: BypassReason;
        if grantReasonName(code) != "" {
          r := Coded(code);
          auditReason := grantReasonName(code);
        } else {
          r := NotGranted;
        }
        overrideReason := Some(GrantReason(r));
      }
    }

    /** `appendReferences`: the bundles of the given phases, in the order given. */
    method AppendReferences(phases: seq<seq<BundleReference>>)
      modifies this
      ensures references == old(references) + Concat(phases)
      ensures decision == old(decision) && systemOverride == old(systemOverride) && overrideReason == old(overrideReason)
    {
      for i := 0 to |phases|
        invariant references == old(references) + Concat(phases[..i])
        invariant decision == old(decision) && systemOverride == old(systemOverride) && overrideReason == old(overrideReason)
      {
        ConcatAppend(phases[..i], phases[i]);
        assert phases[..i + 1] == phases[..i] + [phases[i]];
        references := references + phases[i];
      }
      assert phases[..|phases|] == phases;
    }
  }

  /** All the bundles of the phases, in order. */
  function Concat(phases: seq<seq<BundleReference>>): (r: seq<BundleReference>)
  {
    if phases == [] then [] else phases[0] + Concat(phases[1..])
  }

  lemma {:induction false} ConcatAppend(phases: seq<seq<BundleReference>>, last: seq<BundleReference>)
    ensures Concat(phases + [last]) == Concat(phases) + last
  {
    if phases == [] {
      assert [] + [last] == [last];
    } else {
      assert (phases + [last])[1..] == phases[1..] + [last];
      ConcatAppend(phases[1..], last);
    }
  }

  /** The four phases' bundles, concatenated. */
  lemma Concat4(b1: seq<BundleReference>, b2: seq<BundleReference>, b3: seq<BundleReference>, b4: seq<BundleReference>)
    ensures Concat([b1, b2, b3, b4]) == b1 + b2 + b3 + b4
  {
    assert [b4][1..] == [];
    assert Concat([b4]) == b4;
    assert [b3, b4][1..] == [b4];
    assert Concat([b3, b4]) == b3 + b4;
    assert [b2, b3, b4][1..] == [b3, b4];
    assert Concat([b2, b3, b4]) == b2 + (b3 + b4);
    assert [b1, b2, b3, b4][1..] == [b2, b3, b4];
    assert Concat([b1, b2, b3, b4]) == b1 + (b2 + (b3 + b4));
  }

  /** The audit summary `Authorize` hands to `auditDecision`. */
  datatype AuditDecision = AuditDecision(phase1Result: int, reason: string)

  /** What the four phases and the resource resolution produced. */
  datatype PhaseResults = PhaseResults(
    phase1: Decision, phase1Result: int, bundles1: seq<BundleReference>,
    phase2: bool, bundles2: seq<BundleReference>,
    phase3: bool, bundles3: seq<BundleReference>,
    phase4: bool, bundles4: seq<BundleReference>)

  /** The final decision: phase 1's when it decided, else the AND of the resolved resource and phases 2 to 4. */
  function FinalDecision(p: PhaseResults, resourceResolved: bool): (allowed: bool)
    ensures p.phase1 == Grant ==> allowed
    ensures p.phase1 == Deny ==> !allowed
    ensures p.phase1 == Unspecified ==> (allowed <==> resourceResolved && p.phase2 && p.phase3 && p.phase4)
  {
    match p.phase1
    case Grant => true
    case Deny => false
    case Unspecified => resourceResolved && p.phase2 && p.phase3 && p.phase4
  }

  /**
   * The evaluation part of `Authorize`, after the phases ran: the record's
   * decision and references, and the audit summary. `resErr` is the error of
   * the resource resolution, if any.
   */
  method Decide(ar: AccessRecord, p: PhaseResults, resErr: Option<PolicyError>, resMrn: string,
                includeAllBundles: bool)
    returns (allowed: bool, audit: AuditDecision)
    modifies ar
    ensures allowed == FinalDecision(p, resErr.None?)
    ensures ar.decision == (if allowed then Grant else Deny)
    ensures ar.systemOverride == old(ar.systemOverride) && ar.overrideReason == old(ar.overrideReason)
    ensures p.phase1 == Grant ==> audit == AuditDecision(p.phase1Result, "authorized in phase1")
    ensures p.phase1 == Deny ==> audit == AuditDecision(p.phase1Result, "denied in phase1")
    ensures p.phase1 == Unspecified ==> audit.phase1Result == AuditNotPhase1
    ensures p.phase1 == Unspecified && resErr.Some? ==> audit.reason == "error getting resource"
    ensures p.phase1 == Unspecified && resErr.None? ==> audit.reason == ""
    // The references, always in phase order.
    ensures includeAllBundles ==>
      ar.references == old(ar.references) + p.bundles1 + p.bundles2 + p.bundles3 + p.bundles4 +
                       (if p.phase1 == Unspecified && resErr.Some?
                        then [BuildBundleReference(resErr, None, ResourcePhase, resMrn, Deny, 0)] else [])
    ensures !includeAllBundles ==>
      ar.references == old(ar.references) + p.bundles1 +
                       (if p.phase1 != Unspecified then []
                        else if resErr.Some? then [BuildBundleReference(resErr, None, ResourcePhase, resMrn, Deny, 0)]
                        else p.bundles2 + (if !p.phase2 then [] else p.bundles3 + (if !p.phase3 then [] else p.bundles4)))
  {
    if includeAllBundles {
      ar.AppendReferences([p.bundles1, p.bundles2, p.bundles3, p.bundles4]);
      Concat4(p.bundles1, p.bundles2, p.bundles3, p.bundles4);
    } else {
      AppendOne(ar, p.bundles1);
    }

    ar.decision := p.phase1;
    match p.phase1 {
      case Grant =>
        return true, AuditDecision(p.phase1Result, "authorized in phase1");
      case Deny =>
        return false, AuditDecision(p.phase1Result, "denied in phase1");
      case Unspecified =>
    }

    audit := AuditDecision(AuditNotPhase1, "");
    ar.decision := Deny;

    if resErr.Some? {
      audit := audit.(reason := "error getting resource");
      ar.references := ar.references + [BuildBundleReference(resErr, None, ResourcePhase, resMrn, Deny, 0)];
      return false, audit;
    }

    allowed := PostPhase1(ar, p, includeAllBundles);
  }

  /**
   * The early return of `Authorize` when the PORC cannot be marshalled to
   * JSON, before any phase runs: one resource bundle carrying the
   * marshaller's error as an INVALPARAM_ERROR, a DENY, and the audit reason
   * "failed to marshal PORC". The marshaller's error text is the parameter.
   */
  method MarshalFailed(ar: AccessRecord, resMrn: string, marshalError: string)
    returns (allowed: bool, audit: AuditDecision)
    modifies ar
    ensures !allowed && ar.decision == Deny
    ensures ar.references ==
      old(ar.references) + [BuildBundleReference(Some(PolicyError(InvalParamError, marshalError)), None, ResourcePhase, resMrn, Deny, 0)]
    ensures var b := ar.references[|ar.references| - 1];
      b.decision == Deny && b.reasonCode == InvalParamError && b.reason == marshalError && b.id == resMrn
    ensures ar.systemOverride == old(ar.systemOverride) && ar.overrideReason == old(ar.overrideReason)
    ensures audit == AuditDecision(AuditNotPhase1, "failed to marshal PORC")
  {
    var perr := PolicyError(InvalParamError, marshalError);
    ar.references := ar.references + [BuildBundleReference(Some(perr), None, ResourcePhase, resMrn, Deny, 0)];
    ar.decision := Deny;
    return false, AuditDecision(AuditNotPhase1, "failed to marshal PORC");
  }

  /** The chain after phase 1 when the resource resolved: phases 2, 3 and 4 must each pass, in turn. */
  method PostPhase1(ar: AccessRecord, p: PhaseResults, includeAllBundles: bool) returns (allowed: bool)
    modifies ar
    requires ar.decision == Deny
    ensures allowed <==> p.phase2 && p.phase3 && p.phase4
    ensures ar.decision == (if allowed then Grant else Deny)
    ensures ar.systemOverride == old(ar.systemOverride) && ar.overrideReason == old(ar.overrideReason)
    ensures includeAllBundles ==> ar.references == old(ar.references)
    ensures !includeAllBundles ==>
      ar.references == old(ar.references) +
                       p.bundles2 + (if !p.phase2 then [] else p.bundles3 + (if !p.phase3 then [] else p.bundles4))
  {
    if !includeAllBundles {
      AppendOne(ar, p.bundles2);
    }
    if !p.phase2 {
      return false;
    }
    if !includeAllBundles {
      AppendOne(ar, p.bundles3);
    }
    if !p.phase3 {
      return false;
    }
    if !includeAllBundles {
      AppendOne(ar, p.bundles4);
    }
    if !p.phase4 {
      return false;
    }
    ar.decision := Grant;
    return true;
  }

  /** `appendReferences` with a single phase. */
  method AppendOne(ar: AccessRecord, bundles: seq<BundleReference>)
    modifies ar
    ensures ar.references == old(ar.references) + bundles
    ensures ar.decision == old(ar.decision) && ar.systemOverride == old(ar.systemOverride) &&
            ar.overrideReason == old(ar.overrideReason)
  {
    ar.AppendReferences([bundles]);
    assert Concat([bundles]) == bundles by {
      assert [bundles][1..] == [];
    }
  }

  /** A phase-1 GRANT or DENY is final: nothing the other phases produced changes the outcome. */
  lemma Phase1IsFinal(p: PhaseResults, q: PhaseResults, resolvedP: bool, resolvedQ: bool)
    requires p.phase1 != Unspecified && q.phase1 == p.phase1
    ensures FinalDecision(p, resolvedP) == FinalDecision(q, resolvedQ)
  {
  }
}
