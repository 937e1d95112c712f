/**
 * The evaluation phases of an authorization (internal/core/phase.go,
 * phase1.go, phase2.go, phase4.go). Each phase is an object that appends the
 * bundle references of its evaluations to its own list and records its
 * duration.
 *
 * The backend lookups (`GetOperation`, `GetGroup`, `GetRole`, `GetScope`) and
 * policy evaluation are parameters; elapsed times are parameters too. The
 * goroutines that evaluate roles and scopes concurrently each write their own
 * slot, so they are modelled as one sequential pass. Phase 3 is not part of
 * this model; its result is an input of the final decision.
 */
module Phases {
  import opened Wrappers
  import opened Json
  import opened Collections
  import opened Events
  import opened CoreUtils

  const Mroles := "mroles"
  const Mgroups := "mgroups"
  const Scopes := "scopes"

  /** The scope that grants phase 4 outright. */
  const ApiScope := "mrn:iam:scope:api"

  /** A principal claim as Go sees a JSON array: its items, or nothing when absent or not an array. */
  function ItemsOf(principal: map<string, Value>, key: string): seq<Value>
  {
    if key in principal && principal[key].Arr? then principal[key].items else []
  }

  /** `x.(string)` with the ok result ignored: a non-string becomes "". */
  function AsString(v: Value): string
  {
    if v.Str? then v.s else ""
  }

  /** `toStringSlice`: the string items of an array, in order; anything else gives none. */
  function StringsOf(v: Value): (r: seq<string>)
    ensures v.Arr? && (forall i :: 0 <= i < |v.items| ==> v.items[i].Str?) ==> |r| == |v.items|
    ensures !v.Arr? ==> r == []
  {
    if v.Arr? then StringItems(v.items) else []
  }

  function StringItems(items: seq<Value>): (r: seq<string>)
    ensures |r| <= |items|
    ensures (forall i :: 0 <= i < |items| ==> items[i].Str?) ==> |r| == |items|
    ensures forall s :: s in r <==> Str(s) in items
    ensures (forall i :: 0 <= i < |items| ==> items[i].Str?) ==> forall i :: 0 <= i < |r| ==> r[i] == items[i].s
  {
    if items == [] then []
    else (if items[0].Str? then [items[0].s] else []) + StringItems(items[1..])
  }

  /** The string items of two runs put together are those of each, in order. */
  lemma {:induction false} StringItemsAppend(a: seq<Value>, b: seq<Value>)
    ensures StringItems(a + b) == StringItems(a) + StringItems(b)
  {
    if a == [] {
      assert a + b == b;
    } else {
      assert (a + b)[1..] == a[1..] + b;
      StringItemsAppend(a[1..], b);
    }
  }

  /** A durable phase record: the bundles appended so far and the phase's duration. */
  class PhaseRecord {
    var bundles: seq<BundleReference>
    var duration: nat

    constructor ()
      ensures bundles == [] && duration == 0
    {
      bundles := [];
      duration := 0;
    }
  }

  // ---------------------------------------------------------------------
  // Phase 1

  /**
   * Phase 1, the operation phase, with its tri-state integer result
   * (`phase1.result`): below zero denies, above zero grants, zero defers to
   * the other phases.
   */
  class Phase1 {
    const phase: PhaseRecord
    var result: int

    constructor ()
      ensures fresh(phase) && phase.bundles == [] && result == 0
    {
      phase := new PhaseRecord();
      result := 0;
    }

    /**
     * `phase1.exec`: `operation` is what `GetOperation` gave (its policy may be
     * missing). Exactly one SYSTEM bundle is appended, for the operation.
     */
    method Exec(operation: Result<Option<CompiledPolicy>, PolicyError>,
                evalInt: CompiledPolicy -> (int, Option<PolicyError>),
                op: string, evalElapsed: int, phaseElapsed: int)
      returns (decision: Decision)
      requires MinInt64 <= evalElapsed <= MaxInt64 && MinInt64 <= phaseElapsed <= MaxInt64
      modifies this, phase
      ensures phase.duration == SafeNanos(phaseElapsed)
      ensures |phase.bundles| == |old(phase.bundles)| + 1 && phase.bundles[..|old(phase.bundles)|] == old(phase.bundles)
      ensures var b := phase.bundles[|phase.bundles| - 1];
        b.phase == System && b.id == op && |b.policies| == 1 &&
        (operation.Err? ==> b == BuildBundleReference(Some(operation.error), None, System, op, Deny, 0)) &&
        (operation.Ok? && operation.value.None? ==> b == BuildBundleReference(None, None, System, op, Deny, 0)) &&
        (operation.Ok? && operation.value.Some? ==>
           b.policies[0] == PolicyReferenceEvent(operation.value.value.mrn, operation.value.value.fingerprint) &&
           b.duration == SafeNanos(evalElapsed) &&
           (b.decision == Grant <==> evalInt(operation.value.value).1.None? && result >= 0))
      ensures operation.Err? || operation.value.None? ==> result == -1 && decision == Deny
      ensures operation.Ok? && operation.value.Some? ==>
        var (value, err) := evalInt(operation.value.value);
        result == value &&
        (decision == Grant <==> err.None? && value > 0) &&
        (decision == Unspecified <==> err.None? && value == 0) &&
        (decision == Deny <==> err.Some? || value < 0)
    {
      decision := Unspecified;
      var bundleResult := Deny;
      var perr: Option<PolicyError> := None;
      var policy: Option<CompiledPolicy> := None;
      var evalDuration := 0;
      if operation.Err? || operation.value.None? {
        perr := if operation.Err? then Some(operation.error) else None;
        result := -1;
        decision := Deny;
      } else {
        policy := operation.value;
        var outcome := evalInt(policy.value);
        result, perr := outcome.0, outcome.1;
        evalDuration := SafeNanos(evalElapsed);
        if perr.Some? {
          decision := Deny;
        } else if result > 0 {
          decision := Grant;
          bundleResult := Grant;
        } else if result < 0 {
          decision := Deny;
        } else {
          bundleResult := Grant;
        }
      }
      phase.bundles := phase.bundles + [BuildBundleReference(perr, policy, System, op, bundleResult, evalDuration)];
      phase.duration := SafeNanos(phaseElapsed);
    }
  }

  // ---------------------------------------------------------------------
  // Phase 2

  /** The roles of the principal's groups whose fetch succeeded. */
  function GroupRoles(groups: seq<Value>, getGroup: string -> Result<seq<string>, PolicyError>): set<string>
  {
    set i, r | 0 <= i < |groups| && getGroup(AsString(groups[i])).Ok? && r in getGroup(AsString(groups[i])).value :: r
  }

  /** The role set of phase 2: the principal's roles and the roles of its groups. */
  function RoleSet(principal: map<string, Value>, getGroup: string -> Result<seq<string>, PolicyError>): set<string>
  {
    (set i | 0 <= i < |ItemsOf(principal, Mroles)| :: AsString(ItemsOf(principal, Mroles)[i])) +
    GroupRoles(ItemsOf(principal, Mgroups), getGroup)
  }

  /** The DENY bundles of the groups whose fetch failed, in the principal's order. */
  function GroupFailures(groups: seq<Value>, getGroup: string -> Result<seq<string>, PolicyError>): (r: seq<BundleReference>)
    ensures |r| <= |groups|
    ensures forall b :: b in r ==> b.phase == Identity && b.decision == Deny
  {
    if groups == [] then []
    else
      var g := AsString(groups[0]);
      (if getGroup(g).Err? then [BuildBundleReference(Some(getGroup(g).error), None, Identity, g, Deny, 0)] else []) +
      GroupFailures(groups[1..], getGroup)
  }

  /** What evaluating one role or scope gave: its decision, its error and its policy. */
  datatype Outcome = Outcome(granted: bool, err: Option<PolicyError>, policy: Option<CompiledPolicy>)

  /** Fetch then evaluate; a failed fetch is a refusal carrying the fetch error. */
  function Evaluate(mrn: string, fetch: string -> Result<CompiledPolicy, PolicyError>,
                    evalBool: CompiledPolicy -> (bool, Option<PolicyError>)): (o: Outcome)
    ensures o.granted ==> fetch(mrn).Ok?
  {
    match fetch(mrn)
    case Err(e) => Outcome(false, Some(e), None)
    case Ok(p) => Outcome(evalBool(p).0, evalBool(p).1, Some(p))
  }

  /** The bundle one evaluation leaves: GRANT when granted (unless it carries an error), DENY otherwise. */
  function OutcomeBundle(o: Outcome, phase: Phase, id: string, duration: nat): BundleReference
  {
    BuildBundleReference(o.err, o.policy, phase, id, if o.granted then Grant else Deny, duration)
  }

  class Phase2 {
    const phase: PhaseRecord

    constructor ()
      ensures fresh(phase) && phase.bundles == []
    {
      phase := new PhaseRecord();
    }

    /**
     * `phase2.exec`: the role set is the union of the principal's roles and the
     * roles of the groups that could be fetched; a group that could not be
     * fetched leaves a DENY bundle. Every distinct role is evaluated once and
     * leaves one bundle, and the phase passes when any role grants.
     */
    method Exec(principal: map<string, Value>, getGroup: string -> Result<seq<string>, PolicyError>,
                getRole: string -> Result<CompiledPolicy, PolicyError>,
                evalBool: CompiledPolicy -> (bool, Option<PolicyError>))
      returns (result: bool)
      modifies phase
      ensures result <==> exists r :: r in RoleSet(principal, getGroup) && Evaluate(r, getRole, evalBool).granted
      ensures exists order ::
        && IsOrderOf(order, RoleSet(principal, getGroup))
        && phase.bundles == old(phase.bundles) + GroupFailures(ItemsOf(principal, Mgroups), getGroup) +
             seq(|order|, i requires 0 <= i < |order| => OutcomeBundle(Evaluate(order[i], getRole, evalBool), Identity, order[i], 0))
      ensures phase.duration == old(phase.duration)
    {
      var roleMap := set i | 0 <= i < |ItemsOf(principal, Mroles)| :: AsString(ItemsOf(principal, Mroles)[i]);
      var groupRoles, failed := CollectGroups(ItemsOf(principal, Mgroups), getGroup);
      phase.bundles := phase.bundles + failed;
      roleMap := roleMap + groupRoles;
      var rs := Enumerate(roleMap);
      var added := EvaluateAll(rs, getRole, evalBool, Identity, _ => 0);
      result := added.0;
      phase.bundles := phase.bundles + added.1;
    }
  }

  /** The group loop of `phase2.exec`: a DENY bundle per failed fetch, and the other groups' roles. */
  method CollectGroups(groups: seq<Value>, getGroup: string -> Result<seq<string>, PolicyError>)
    returns (roles: set<string>, failed: seq<BundleReference>)
    ensures roles == GroupRoles(groups, getGroup)
    ensures failed == GroupFailures(groups, getGroup)
  {
    roles := {};
    failed := [];
    for i := 0 to |groups|
      invariant roles == GroupRoles(groups[..i], getGroup)
      invariant failed == GroupFailures(groups[..i], getGroup)
    {
      GroupFailuresAppend(groups[..i], groups[i], getGroup);
      GroupRolesAppend(groups[..i], groups[i], getGroup);
      assert groups[..i + 1] == groups[..i] + [groups[i]];
      var groupMrn := AsString(groups[i]);
      var group := getGroup(groupMrn);
      if group.Err? {
        failed := failed + [BuildBundleReference(Some(group.error), None, Identity, groupMrn, Deny, 0)];
      } else {
        roles := roles + set r | r in group.value;
      }
    }
    assert groups[..|groups|] == groups;
  }

  lemma GroupRolesAppend(groups: seq<Value>, g: Value, getGroup: string -> Result<seq<string>, PolicyError>)
    ensures GroupRoles(groups + [g], getGroup) ==
            GroupRoles(groups, getGroup) + (if getGroup(AsString(g)).Ok? then set r | r in getGroup(AsString(g)).value else {})
  {
    var all := groups + [g];
    forall r | r in GroupRoles(all, getGroup)
      ensures r in GroupRoles(groups, getGroup) || (getGroup(AsString(g)).Ok? && r in getGroup(AsString(g)).value)
    {
      var i :| 0 <= i < |all| && getGroup(AsString(all[i])).Ok? && r in getGroup(AsString(all[i])).value;
      if i < |groups| {
        assert all[i] == groups[i];
      }
    }
    forall r | r in GroupRoles(groups, getGroup)
      ensures r in GroupRoles(all, getGroup)
    {
      var i :| 0 <= i < |groups| && getGroup(AsString(groups[i])).Ok? && r in getGroup(AsString(groups[i])).value;
      assert all[i] == groups[i];
    }
    if getGroup(AsString(g)).Ok? {
      forall r | r in getGroup(AsString(g)).value
        ensures r in GroupRoles(all, getGroup)
      {
        assert all[|groups|] == g;
      }
    }
  }

  lemma {:induction false} GroupFailuresAppend(groups: seq<Value>, g: Value, getGroup: string -> Result<seq<string>, PolicyError>)
    ensures GroupFailures(groups + [g], getGroup) == GroupFailures(groups, getGroup) + GroupFailures([g], getGroup)
  {
    if groups == [] {
      assert groups + [g] == [g];
    } else {
      assert (groups + [g])[1..] == groups[1..] + [g];
      GroupFailuresAppend(groups[1..], g, getGroup);
    }
  }

  /**
   * The evaluation and result loops of phases 2 and 4: every item evaluated
   * once, one bundle per item in order, and the OR of the decisions.
   */
  method EvaluateAll(items: seq<string>, fetch: string -> Result<CompiledPolicy, PolicyError>,
                     evalBool: CompiledPolicy -> (bool, Option<PolicyError>), phase: Phase, elapsed: string -> int)
    returns (r: (bool, seq<BundleReference>))
    requires forall s :: MinInt64 <= elapsed(s) <= MaxInt64
    ensures r.0 <==> exists i :: 0 <= i < |items| && Evaluate(items[i], fetch, evalBool).granted
    ensures r.1 == seq(|items|, i requires 0 <= i < |items| =>
                       OutcomeBundle(Evaluate(items[i], fetch, evalBool), phase, items[i], EvalDuration(items[i], fetch, elapsed)))
  {
    var decs, errs, policies, durations := EvaluateSlots(items, fetch, evalBool, elapsed);
    var result := false;
    var bundles: seq<BundleReference> := [];
    for i := 0 to |items|
      invariant result <==> exists k :: 0 <= k < i && Evaluate(items[k], fetch, evalBool).granted
      invariant bundles == seq(i, k requires 0 <= k < i =>
                               OutcomeBundle(Evaluate(items[k], fetch, evalBool), phase, items[k], EvalDuration(items[k], fetch, elapsed)))
    {
      var desc := Deny;
      if decs[i] {
        result := true;
        desc := Grant;
      }
      bundles := bundles + [BuildBundleReference(errs[i], policies[i], phase, items[i], desc, durations[i])];
    }
    return (result, bundles);
  }

  /** The evaluation loop of phases 2 and 4: slot `i` holds what fetching and evaluating item `i` gave. */
  method EvaluateSlots(items: seq<string>, fetch: string -> Result<CompiledPolicy, PolicyError>,
                       evalBool: CompiledPolicy -> (bool, Option<PolicyError>), elapsed: string -> int)
    returns (decs: array<bool>, errs: array<Option<PolicyError>>, policies: array<Option<CompiledPolicy>>, durations: array<nat>)
    requires forall s :: MinInt64 <= elapsed(s) <= MaxInt64
    ensures decs.Length == errs.Length == policies.Length == durations.Length == |items|
    ensures forall k :: 0 <= k < |items| ==>
      Outcome(decs[k], errs[k], policies[k]) == Evaluate(items[k], fetch, evalBool) &&
      durations[k] == EvalDuration(items[k], fetch, elapsed)
  {
    var n := |items|;
    decs := new bool[n];
    errs := new Option<PolicyError>[n](_ => None);
    policies := new Option<CompiledPolicy>[n](_ => None);
    durations := new nat[n](_ => 0);
    for i := 0 to n
      invariant forall k :: 0 <= k < i ==>
        Outcome(decs[k], errs[k], policies[k]) == Evaluate(items[k], fetch, evalBool) &&
        durations[k] == EvalDuration(items[k], fetch, elapsed)
    {
      var found := fetch(items[i]);
      if found.Err? {
        decs[i], errs[i], policies[i], durations[i] := false, Some(found.error), None, 0;
      } else {
        var outcome := evalBool(found.value);
        decs[i], errs[i], policies[i] := outcome.0, outcome.1, Some(found.value);
        durations[i] := SafeNanos(elapsed(items[i]));
      }
    }
  }

  /** The evaluation time recorded for an item: none when its fetch failed. */
  function EvalDuration(item: string, fetch: string -> Result<CompiledPolicy, PolicyError>, elapsed: string -> int): nat
    requires MinInt64 <= elapsed(item) <= MaxInt64
  {
    if fetch(item).Err? then 0 else SafeNanos(elapsed(item))
  }

  // ---------------------------------------------------------------------
  // Phase 4

  class Phase4 {
    const phase: PhaseRecord

    constructor ()
      ensures fresh(phase) && phase.bundles == [] && phase.duration == 0
    {
      phase := new PhaseRecord();
    }

    /**
     * `phase4.exec`: the API scope, or no scope at all, passes at once and adds
     * no bundle; otherwise every scope is evaluated and leaves one SCOPE bundle
     * in order, and the phase passes when any scope grants. The durations
     * come from `elapsed`, keyed by the scope's name, so a scope listed twice
     * is given the same duration both times, where the code times each
     * goroutine on its own clock.
     */
    method Exec(principal: map<string, Value>, getScope: string -> Result<CompiledPolicy, PolicyError>,
                evalBool: CompiledPolicy -> (bool, Option<PolicyError>), elapsed: string -> int, phaseElapsed: int)
      returns (result: bool)
      requires forall s :: MinInt64 <= elapsed(s) <= MaxInt64
      requires MinInt64 <= phaseElapsed <= MaxInt64
      modifies phase
      ensures phase.duration == SafeNanos(phaseElapsed)
      ensures var scopes := if Scopes in principal then StringsOf(principal[Scopes]) else [];
        (ApiScope in scopes || scopes == [] ==> result && phase.bundles == old(phase.bundles)) &&
        (ApiScope !in scopes && scopes != [] ==>
           (result <==> exists i :: 0 <= i < |scopes| && Evaluate(scopes[i], getScope, evalBool).granted) &&
           phase.bundles == old(phase.bundles) +
             seq(|scopes|, i requires 0 <= i < |scopes| =>
                 OutcomeBundle(Evaluate(scopes[i], getScope, evalBool), Scope, scopes[i], EvalDuration(scopes[i], getScope, elapsed))))
    {
      var given := if Scopes in principal then StringsOf(principal[Scopes]) else [];
      var scs: seq<string> := [];
      for i := 0 to |given|
        invariant scs == given[..i]
        invariant ApiScope !in scs
      {
        if given[i] == ApiScope {
          phase.duration := SafeNanos(phaseElapsed);
          return true;
        }
        scs := scs + [given[i]];
      }
      assert scs == given;
      if |scs| == 0 {
        phase.duration := SafeNanos(phaseElapsed);
        return true;
      }
      var added := EvaluateAll(scs, getScope, evalBool, Scope, elapsed);
      result := added.0;
      phase.bundles := phase.bundles + added.1;
      phase.duration := SafeNanos(phaseElapsed);
    }
  }

  /** Phase 2 leaves one bundle per failed group and one per distinct role. */
  lemma Phase2BundleCount(principal: map<string, Value>, getGroup: string -> Result<seq<string>, PolicyError>,
                          order: seq<string>)
    requires IsOrderOf(order, RoleSet(principal, getGroup))
    ensures |order| == |RoleSet(principal, getGroup)|
  {
    OrderSize(order, RoleSet(principal, getGroup));
  }
}
