/**
 * The access-record vocabulary of the decision path: decisions, phases,
 * reason codes, policy errors, the compiled policy handed to a phase, and the
 * bundle reference each evaluation leaves in the audit record.
 */
module Events {
  import opened Wrappers
  import opened PolicyDomain

  /** `AccessRecord_Decision`. */
  datatype Decision = Unspecified | Grant | Deny

  /** `AccessRecord_BundleReference_Phase`. */
  datatype Phase = System | Identity | ResourcePhase | Scope

  /** `AccessRecord_BundleReference_ReasonCode`; `PolicyOutcome` is the value of a bundle without error. */
  datatype ReasonCode = PolicyOutcome | UnknownError | NotFoundError | CompilationError | InvalParamError | NetworkError

  /** The enum value name a reason code prints as. */
  function CodeName(c: ReasonCode): string
  {
    match c
    case PolicyOutcome => "POLICY_OUTCOME"
    case UnknownError => "UNKNOWN_ERROR"
    case NotFoundError => "NOTFOUND_ERROR"
    case CompilationError => "COMPILATION_ERROR"
    case InvalParamError => "INVALPARAM_ERROR"
    case NetworkError => "NETWORK_ERROR"
  }

  /** `common.PolicyError`. */
  datatype PolicyError = PolicyError(reasonCode: ReasonCode, reason: string)
  {
    /** `PolicyError.Error`: the reason followed by the code's name. */
    function Text(): string
    {
      reason + "(code-" + CodeName(reasonCode) + ")"
    }
  }

  /** `model.Policy`: a compiled policy with its identity. */
  datatype CompiledPolicy = CompiledPolicy(mrn: string, fingerprint: seq<Byte>, ast: Ast)

  /** `AccessRecord_PolicyReference`: empty when no policy was involved. */
  datatype PolicyReferenceEvent = PolicyReferenceEvent(mrn: string, fingerprint: seq<Byte>)

  /** `AccessRecord_BundleReference`. */
  datatype BundleReference = BundleReference(
    id: string,
    policies: seq<PolicyReferenceEvent>,
    phase: Phase,
    duration: nat,
    decision: Decision,
    reasonCode: ReasonCode,
    reason: string)

  /** A bypass reason of a phase-1 override: a named enum value, or the fallback for an unnamed one. */
  datatype BypassReason = Coded(code: int) | NotDenied | NotGranted

  /** `AccessRecord.OverrideReason`. */
  datatype OverrideReason = DenyReason(deny: BypassReason) | GrantReason(grant: BypassReason)
}
