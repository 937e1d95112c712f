/**
 * Whole-registry validation (pkg/policydomain/validation/validator.go): every
 * reference of every domain is checked, library dependencies are searched for
 * cycles depth first, and the Rego of every domain is checked; all failures
 * are accumulated in one `Errors` collection.
 */
module Validator {
  import opened Wrappers
  import opened Text
  import opened PolicyDomain
  import opened Reference
  import opened Collections
  import Dependency
  import opened ValidationErrors

  /** One reference held by an entity: who holds it, in which field, and what it must name. */
  datatype Check = Check(entity: string, entityID: string, field: string, reference: string, expectedType: string)

  /** The reference-validation failure of a check, if any. */
  function Failure(domainName: string, c: Check, domains: Domains, matches: (string, string) -> bool): Option<string>
  {
    ValidateReference(c.reference, domainName, c.expectedType, domains, matches)
  }

  /** The error `AddReferenceError` records for a failed check. */
  function ErrorFor(domainName: string, c: Check, message: string): Error
  {
    Error(domainName, "reference", c.entity, c.entityID, c.field, message)
  }

  /** The errors recorded, in order, when the checks are validated one after another. */
  function ErrorsOf(domainName: string, cs: seq<Check>, domains: Domains, matches: (string, string) -> bool): (r: seq<Error>)
    ensures |r| <= |cs|
  {
    if cs == [] then []
    else
      var c := cs[|cs| - 1];
      ErrorsOf(domainName, cs[..|cs| - 1], domains, matches) +
      (match Failure(domainName, c, domains, matches)
       case None => []
       case Some(m) => [ErrorFor(domainName, c, m)])
  }

  /** The errors for the failing checks among `cs`, whatever order they are validated in. */
  ghost function Failed(domainName: string, cs: set<Check>, domains: Domains, matches: (string, string) -> bool): set<Error>
  {
    set c | c in cs && Failure(domainName, c, domains, matches).Some? ::
      ErrorFor(domainName, c, Failure(domainName, c, domains, matches).value)
  }

  /** Validating a list of checks records exactly the errors of its failing checks. */
  lemma {:induction false} ErrorsOfFailed(domainName: string, cs: seq<Check>, domains: Domains,
                                          matches: (string, string) -> bool)
    ensures (set e | e in ErrorsOf(domainName, cs, domains, matches)) ==
            Failed(domainName, (set c | c in cs), domains, matches)
    decreases |cs|
  {
    if cs != [] {
      var init := cs[..|cs| - 1];
      var c := cs[|cs| - 1];
      ErrorsOfFailed(domainName, init, domains, matches);
      var tail := match Failure(domainName, c, domains, matches)
                  case None => []
                  case Some(m) => [ErrorFor(domainName, c, m)];
      var before := ErrorsOf(domainName, init, domains, matches);
      assert ErrorsOf(domainName, cs, domains, matches) == before + tail;
      ElementsAppend(before, tail);
      ElementsSnoc(cs, init, c);
      FailedUnion(domainName, (set x | x in init), {c}, domains, matches);
      FailedOne(domainName, c, domains, matches);
      assert (set e | e in tail) == Failed(domainName, {c}, domains, matches) by {
        if Failure(domainName, c, domains, matches).Some? {
          assert tail == [ErrorFor(domainName, c, Failure(domainName, c, domains, matches).value)];
        }
      }
      calc {
        (set e | e in ErrorsOf(domainName, cs, domains, matches));
        (set e | e in before) + (set e | e in tail);
        Failed(domainName, (set x | x in init), domains, matches) + Failed(domainName, {c}, domains, matches);
        Failed(domainName, (set x | x in init) + {c}, domains, matches);
        Failed(domainName, (set x | x in cs), domains, matches);
      }
    }
  }

  /** The elements of a concatenation are those of its parts. */
  lemma ElementsAppend<T>(a: seq<T>, b: seq<T>)
    ensures (set x | x in a + b) == (set x | x in a) + (set x | x in b)
  {
  }

  /** The elements of a non-empty sequence are those of its prefix and its last one. */
  lemma ElementsSnoc<T>(s: seq<T>, init: seq<T>, last: T)
    requires s != [] && init == s[..|s| - 1] && last == s[|s| - 1]
    ensures (set x | x in s) == (set x | x in init) + {last}
  {
    assert s == init + [last];
  }

  /** The errors of one check: its error if it fails, none otherwise. */
  lemma FailedOne(domainName: string, c: Check, domains: Domains, matches: (string, string) -> bool)
    ensures Failure(domainName, c, domains, matches).None? ==> Failed(domainName, {c}, domains, matches) == {}
    ensures Failure(domainName, c, domains, matches).Some? ==>
      Failed(domainName, {c}, domains, matches) == {ErrorFor(domainName, c, Failure(domainName, c, domains, matches).value)}
  {
  }

  lemma FailedUnion(domainName: string, a: set<Check>, b: set<Check>, domains: Domains,
                    matches: (string, string) -> bool)
    ensures Failed(domainName, a + b, domains, matches) ==
            Failed(domainName, a, domains, matches) + Failed(domainName, b, domains, matches)
  {
  }

  /** No error is recorded exactly when every reference validates. */
  lemma FailedEmptyIff(domainName: string, cs: set<Check>, domains: Domains, matches: (string, string) -> bool)
    ensures Failed(domainName, cs, domains, matches) == {} <==>
            forall c :: c in cs ==> ValidateReference(c.reference, domainName, c.expectedType, domains, matches).None?
  {
    if c :| c in cs && Failure(domainName, c, domains, matches).Some? {
      assert ErrorFor(domainName, c, Failure(domainName, c, domains, matches).value) in Failed(domainName, cs, domains, matches);
    }
  }

  /** Every recorded error is a reference error of the domain whose message is the validation failure. */
  lemma FailedAreReferenceErrors(domainName: string, cs: set<Check>, domains: Domains,
                                 matches: (string, string) -> bool, e: Error)
    requires e in Failed(domainName, cs, domains, matches)
    ensures e.errorType == "reference" && e.domain == domainName
    ensures exists c :: c in cs && c.entity == e.entity && c.entityID == e.entityID && c.field == e.field &&
                        ValidateReference(c.reference, domainName, c.expectedType, domains, matches) == Some(e.message)
  {
    var c :| c in cs && Failure(domainName, c, domains, matches).Some? &&
             e == ErrorFor(domainName, c, Failure(domainName, c, domains, matches).value);
  }

  /** The dependency checks of one library or policy: each must name a library. */
  function DependencyChecks(entity: string, id: string, deps: seq<string>): (r: seq<Check>)
    ensures |r| == |deps|
    ensures forall i :: 0 <= i < |deps| ==> r[i] == Check(entity, id, "dependencies", deps[i], "library")
  {
    if deps == [] then []
    else DependencyChecks(entity, id, deps[..|deps| - 1]) + [Check(entity, id, "dependencies", deps[|deps| - 1], "library")]
  }

  /** The role checks of one group, the field naming the role's position. */
  function RoleChecks(id: string, roles: seq<string>): (r: seq<Check>)
    ensures |r| == |roles|
    ensures forall i :: 0 <= i < |roles| ==>
      r[i] == Check("group", id, "roles[" + NatToString(i) + "]", roles[i], "role")
  {
    if roles == [] then []
    else
      var n := |roles| - 1;
      RoleChecks(id, roles[..n]) + [Check("group", id, "roles[" + NatToString(n) + "]", roles[n], "role")]
  }

  /** The operation checks, in slice order, each operation named by its position. */
  function OperationChecks(ops: seq<Operation>): (r: seq<Check>)
    ensures |r| == |ops|
    ensures forall i :: 0 <= i < |ops| ==>
      r[i] == Check("operation", "operation[" + NatToString(i) + "]", "policy", ops[i].policy, "policy")
  {
    if ops == [] then []
    else
      var n := |ops| - 1;
      OperationChecks(ops[..n]) + [Check("operation", "operation[" + NatToString(n) + "]", "policy", ops[n].policy, "policy")]
  }

  function PolicyEntityChecks(entity: string, m: map<string, Policy>): map<string, seq<Check>>
  {
    map k | k in m :: DependencyChecks(entity, k, m[k].dependencies)
  }

  function ReferenceChecks(entity: string, m: map<string, PolicyReference>): map<string, seq<Check>>
  {
    map k | k in m :: [Check(entity, k, "policy", m[k].policy, "policy")]
  }

  function GroupChecks(m: map<string, Group>): map<string, seq<Check>>
  {
    map k | k in m :: RoleChecks(k, m[k].roles)
  }

  /** The checks held by the entities named in `ids`. */
  ghost function Flat(keyed: map<string, seq<Check>>, ids: set<string>): set<Check>
  {
    set k, c | k in keyed && k in ids && c in keyed[k] :: c
  }

  /** Every reference a domain holds, by entity kind as `validateDomainReferences` visits them. */
  ghost function DomainChecks(model: Domain): set<Check>
  {
    var libs := PolicyEntityChecks("library", model.libraries);
    var pols := PolicyEntityChecks("policy", model.policies);
    var roles := ReferenceChecks("role", model.roles);
    var groups := GroupChecks(model.groups);
    var rgs := ReferenceChecks("resource-group", model.resourceGroups);
    var scopes := ReferenceChecks("scope", model.scopes);
    Flat(libs, libs.Keys) + Flat(pols, pols.Keys) + Flat(roles, roles.Keys) + Flat(groups, groups.Keys) +
    Flat(rgs, rgs.Keys) + Flat(scopes, scopes.Keys) + (set c | c in OperationChecks(model.operations))
  }

  /** `after` is `before` with more elements appended. */
  predicate Extends<T(==)>(before: seq<T>, after: seq<T>)
  {
    |before| <= |after| && after[..|before|] == before
  }

  /** The errors appended since `before`, each as often as it was appended. */
  ghost function NewErrors(before: seq<Error>, after: seq<Error>): multiset<Error>
    requires Extends(before, after)
  {
    multiset(after[|before|..])
  }

  lemma ExtendsTrans(a: seq<Error>, b: seq<Error>, c: seq<Error>)
    requires Extends(a, b) && Extends(b, c)
    ensures Extends(a, c)
    ensures NewErrors(a, c) == NewErrors(a, b) + NewErrors(b, c)
  {
    assert c[..|b|][..|a|] == c[..|a|];
    assert c[|a|..] == b[|a|..] + c[|b|..];
  }

  /** Validates checks in order, adding a reference error for each failure. */
  method CheckAll(domainName: string, cs: seq<Check>, domains: Domains, matches: (string, string) -> bool,
                  errors: Errors)
    modifies errors
    ensures errors.errors == old(errors.errors) + ErrorsOf(domainName, cs, domains, matches)
  {
    var i := 0;
    while i < |cs|
      invariant 0 <= i <= |cs|
      invariant errors.errors == old(errors.errors) + ErrorsOf(domainName, cs[..i], domains, matches)
    {
      ErrorsOfStep(domainName, cs, i, domains, matches);
      var c := cs[i];
      var err := ValidateReference(c.reference, domainName, c.expectedType, domains, matches);
      if err.Some? {
        ghost var prev := errors.errors;
        errors.AddReferenceError(domainName, c.entity, c.entityID, c.field, err.value);
        ErrorsAssoc(old(errors.errors), ErrorsOf(domainName, cs[..i], domains, matches), [ErrorFor(domainName, c, err.value)]);
      }
      i := i + 1;
    }
    assert cs[..i] == cs;
  }

  /** The errors after one more check. */
  lemma ErrorsOfStep(domainName: string, cs: seq<Check>, i: nat, domains: Domains, matches: (string, string) -> bool)
    requires i < |cs|
    ensures Failure(domainName, cs[i], domains, matches).None? ==>
      ErrorsOf(domainName, cs[..i + 1], domains, matches) == ErrorsOf(domainName, cs[..i], domains, matches)
    ensures Failure(domainName, cs[i], domains, matches).Some? ==>
      ErrorsOf(domainName, cs[..i + 1], domains, matches) ==
      ErrorsOf(domainName, cs[..i], domains, matches) + [ErrorFor(domainName, cs[i], Failure(domainName, cs[i], domains, matches).value)]
  {
    assert cs[..i + 1][..i] == cs[..i];
    assert cs[..i + 1][i] == cs[i];
  }

  lemma ErrorsAssoc(a: seq<Error>, b: seq<Error>, c: seq<Error>)
    ensures a + b + c == a + (b + c)
  {
  }

  /**
   * The sum of the multisets stored under `names`. The order the names are
   * taken in does not matter (`SumOverRemove`), which is what makes it the
   * meaning of a loop over a Go map.
   */
  ghost function SumOver<T>(parts: map<string, multiset<T>>, names: set<string>): multiset<T>
    requires names <= parts.Keys
    decreases names
  {
    if names == {} then multiset{}
    else
      var d :| d in names;
      SumOver(parts, names - {d}) + parts[d]
  }

  /** Any name can be taken out of the sum first. */
  lemma {:induction false} SumOverRemove<T>(parts: map<string, multiset<T>>, names: set<string>, d: string)
    requires names <= parts.Keys && d in names
    ensures SumOver(parts, names) == SumOver(parts, names - {d}) + parts[d]
    decreases names
  {
    var c :| c in names && SumOver(parts, names) == SumOver(parts, names - {c}) + parts[c];
    if c != d {
      SumOverRemove(parts, names - {c}, d);
      SumOverRemove(parts, names - {d}, c);
      assert names - {c} - {d} == names - {d} - {c};
    }
  }

  /** Adding a name adds its multiset. */
  lemma SumOverAdd<T>(parts: map<string, multiset<T>>, names: set<string>, d: string)
    requires names <= parts.Keys && d in parts && d !in names
    ensures SumOver(parts, names + {d}) == SumOver(parts, names) + parts[d]
  {
    SumOverRemove(parts, names + {d}, d);
    assert names + {d} - {d} == names;
  }

  /** One more name taken from the pending ones adds its multiset to the sum over the visited ones. */
  lemma SumOverVisit<T>(parts: map<string, multiset<T>>, all: set<string>, pending: set<string>, d: string)
    requires all <= parts.Keys && pending <= all && d in pending
    ensures SumOver(parts, all - (pending - {d})) == SumOver(parts, all - pending) + parts[d]
  {
    VisitOne(all, pending, d);
    SumOverAdd(parts, all - pending, d);
  }

  /** An element is in the sum exactly when it is in the multiset of one of the names. */
  lemma {:induction false} SumOverMember<T>(parts: map<string, multiset<T>>, names: set<string>, x: T)
    requires names <= parts.Keys
    ensures x in SumOver(parts, names) <==> exists d :: d in names && x in parts[d]
    decreases names
  {
    if names != {} {
      var c :| c in names;
      SumOverRemove(parts, names, c);
      SumOverMember(parts, names - {c}, x);
      if x in parts[c] {
        assert c in names && x in parts[c];
      }
    }
  }

  /** The errors each entity of one kind records, by entity id. */
  ghost function KeyedFailures(domainName: string, keyed: map<string, seq<Check>>, domains: Domains,
                               matches: (string, string) -> bool): map<string, multiset<Error>>
  {
    map k | k in keyed :: multiset(ErrorsOf(domainName, keyed[k], domains, matches))
  }

  /** The errors one entity-kind loop records, whatever order the entities are visited in. */
  ghost function KeyedErrors(domainName: string, keyed: map<string, seq<Check>>, domains: Domains,
                             matches: (string, string) -> bool): multiset<Error>
  {
    SumOver(KeyedFailures(domainName, keyed, domains, matches), keyed.Keys)
  }

  /** An error is recorded for a list of checks exactly when one of them fails with it. */
  lemma ErrorsOfMember(domainName: string, cs: seq<Check>, domains: Domains, matches: (string, string) -> bool, e: Error)
    ensures e in ErrorsOf(domainName, cs, domains, matches) <==>
      exists c :: c in cs && Failure(domainName, c, domains, matches).Some? &&
                  e == ErrorFor(domainName, c, Failure(domainName, c, domains, matches).value)
  {
    ErrorsOfFailed(domainName, cs, domains, matches);
    assert e in ErrorsOf(domainName, cs, domains, matches) <==> e in Failed(domainName, (set c | c in cs), domains, matches);
  }

  /** The errors of one entity kind are the failures of the checks its entities hold. */
  lemma KeyedErrorsMeaning(domainName: string, keyed: map<string, seq<Check>>, domains: Domains,
                           matches: (string, string) -> bool, e: Error)
    ensures e in KeyedErrors(domainName, keyed, domains, matches) <==>
            e in Failed(domainName, Flat(keyed, keyed.Keys), domains, matches)
  {
    var parts := KeyedFailures(domainName, keyed, domains, matches);
    SumOverMember(parts, keyed.Keys, e);
    if e in KeyedErrors(domainName, keyed, domains, matches) {
      var k :| k in keyed.Keys && e in parts[k];
      KeyedErrorFailed(domainName, keyed, k, domains, matches, e);
    }
    if e in Failed(domainName, Flat(keyed, keyed.Keys), domains, matches) {
      var c :| c in Flat(keyed, keyed.Keys) && Failure(domainName, c, domains, matches).Some? &&
               e == ErrorFor(domainName, c, Failure(domainName, c, domains, matches).value);
      var k :| k in keyed && c in keyed[k];
      ErrorsOfMember(domainName, keyed[k], domains, matches, e);
      assert e in parts[k];
    }
  }

  /** An error recorded for one entity is the failure of one of the checks it holds. */
  lemma KeyedErrorFailed(domainName: string, keyed: map<string, seq<Check>>, k: string, domains: Domains,
                         matches: (string, string) -> bool, e: Error)
    requires k in keyed && e in ErrorsOf(domainName, keyed[k], domains, matches)
    ensures e in Failed(domainName, Flat(keyed, keyed.Keys), domains, matches)
  {
    ErrorsOfMember(domainName, keyed[k], domains, matches, e);
    var c :| c in keyed[k] && Failure(domainName, c, domains, matches).Some? &&
             e == ErrorFor(domainName, c, Failure(domainName, c, domains, matches).value);
    assert c in Flat(keyed, keyed.Keys);
  }

  /** One entity-kind loop: visits the entities in map order, validating each one's references. */
  method CheckKeyed(domainName: string, keyed: map<string, seq<Check>>, domains: Domains,
                    matches: (string, string) -> bool, errors: Errors)
    modifies errors
    ensures Extends(old(errors.errors), errors.errors)
    ensures NewErrors(old(errors.errors), errors.errors) == KeyedErrors(domainName, keyed, domains, matches)
  {
    ghost var start := errors.errors;
    ghost var parts := KeyedFailures(domainName, keyed, domains, matches);
    assert keyed.Keys <= parts.Keys;
    var pending := keyed.Keys;
    while pending != {}
      invariant pending <= keyed.Keys
      invariant Extends(start, errors.errors)
      invariant NewErrors(start, errors.errors) == SumOver(parts, keyed.Keys - pending)
      decreases pending
    {
      var k :| k in pending;
      ghost var before := errors.errors;
      CheckAll(domainName, keyed[k], domains, matches, errors);
      assert errors.errors[|before|..] == ErrorsOf(domainName, keyed[k], domains, matches);
      assert NewErrors(before, errors.errors) == parts[k];
      ExtendsTrans(start, before, errors.errors);
      SumOverVisit(parts, keyed.Keys, pending, k);
      pending := pending - {k};
    }
    assert keyed.Keys - pending == keyed.Keys;
  }

  /** The errors `validateDomainReferences` records for one domain, kind by kind. */
  ghost function DomainErrors(domainName: string, model: Domain, domains: Domains,
                              matches: (string, string) -> bool): multiset<Error>
  {
    KeyedErrors(domainName, PolicyEntityChecks("library", model.libraries), domains, matches) +
    KeyedErrors(domainName, PolicyEntityChecks("policy", model.policies), domains, matches) +
    KeyedErrors(domainName, ReferenceChecks("role", model.roles), domains, matches) +
    KeyedErrors(domainName, GroupChecks(model.groups), domains, matches) +
    KeyedErrors(domainName, ReferenceChecks("resource-group", model.resourceGroups), domains, matches) +
    KeyedErrors(domainName, ReferenceChecks("scope", model.scopes), domains, matches) +
    multiset(ErrorsOf(domainName, OperationChecks(model.operations), domains, matches))
  }

  /** A domain's errors are exactly the failures of the references it holds. */
  lemma DomainErrorsMeaning(domainName: string, model: Domain, domains: Domains,
                            matches: (string, string) -> bool, e: Error)
    ensures e in DomainErrors(domainName, model, domains, matches) <==>
            e in Failed(domainName, DomainChecks(model), domains, matches)
  {
    var libs := PolicyEntityChecks("library", model.libraries);
    var pols := PolicyEntityChecks("policy", model.policies);
    var roles := ReferenceChecks("role", model.roles);
    var groups := GroupChecks(model.groups);
    var rgs := ReferenceChecks("resource-group", model.resourceGroups);
    var scopes := ReferenceChecks("scope", model.scopes);
    var ops := OperationChecks(model.operations);
    KeyedErrorsMeaning(domainName, libs, domains, matches, e);
    KeyedErrorsMeaning(domainName, pols, domains, matches, e);
    KeyedErrorsMeaning(domainName, roles, domains, matches, e);
    KeyedErrorsMeaning(domainName, groups, domains, matches, e);
    KeyedErrorsMeaning(domainName, rgs, domains, matches, e);
    KeyedErrorsMeaning(domainName, scopes, domains, matches, e);
    ErrorsOfFailed(domainName, ops, domains, matches);
    assert e in ErrorsOf(domainName, ops, domains, matches) <==>
           e in Failed(domainName, (set x | x in ops), domains, matches);
    DomainChecksFailed(domainName, model, domains, matches);
  }

  /** The failures of a domain's references, kind by kind. */
  lemma DomainChecksFailed(domainName: string, model: Domain, domains: Domains, matches: (string, string) -> bool)
    ensures
      var libs := PolicyEntityChecks("library", model.libraries);
      var pols := PolicyEntityChecks("policy", model.policies);
      var roles := ReferenceChecks("role", model.roles);
      var groups := GroupChecks(model.groups);
      var rgs := ReferenceChecks("resource-group", model.resourceGroups);
      var scopes := ReferenceChecks("scope", model.scopes);
      Failed(domainName, DomainChecks(model), domains, matches) ==
        Failed(domainName, Flat(libs, libs.Keys), domains, matches) +
        Failed(domainName, Flat(pols, pols.Keys), domains, matches) +
        Failed(domainName, Flat(roles, roles.Keys), domains, matches) +
        Failed(domainName, Flat(groups, groups.Keys), domains, matches) +
        Failed(domainName, Flat(rgs, rgs.Keys), domains, matches) +
        Failed(domainName, Flat(scopes, scopes.Keys), domains, matches) +
        Failed(domainName, (set x | x in OperationChecks(model.operations)), domains, matches)
  {
    var libs := PolicyEntityChecks("library", model.libraries);
    var pols := PolicyEntityChecks("policy", model.policies);
    var roles := ReferenceChecks("role", model.roles);
    var groups := GroupChecks(model.groups);
    var rgs := ReferenceChecks("resource-group", model.resourceGroups);
    var scopes := ReferenceChecks("scope", model.scopes);
    var a := Flat(libs, libs.Keys);
    var b := Flat(pols, pols.Keys);
    var c := Flat(roles, roles.Keys);
    var d := Flat(groups, groups.Keys);
    var f := Flat(rgs, rgs.Keys);
    var g := Flat(scopes, scopes.Keys);
    var h := set x | x in OperationChecks(model.operations);
    FailedUnion(domainName, a, b, domains, matches);
    FailedUnion(domainName, a + b, c, domains, matches);
    FailedUnion(domainName, a + b + c, d, domains, matches);
    FailedUnion(domainName, a + b + c + d, f, domains, matches);
    FailedUnion(domainName, a + b + c + d + f, g, domains, matches);
    FailedUnion(domainName, a + b + c + d + f + g, h, domains, matches);
    assert DomainChecks(model) == a + b + c + d + f + g + h;
  }

  /** `validateDomainReferences`: the seven entity kinds in turn. */
  method ValidateDomainReferences(domainName: string, model: Domain, domains: Domains,
                                  matches: (string, string) -> bool, errors: Errors)
    modifies errors
    ensures Extends(old(errors.errors), errors.errors)
    ensures NewErrors(old(errors.errors), errors.errors) == DomainErrors(domainName, model, domains, matches)
  {
    var libs := PolicyEntityChecks("library", model.libraries);
    var pols := PolicyEntityChecks("policy", model.policies);
    var roles := ReferenceChecks("role", model.roles);
    var groups := GroupChecks(model.groups);
    var rgs := ReferenceChecks("resource-group", model.resourceGroups);
    var scopes := ReferenceChecks("scope", model.scopes);
    var ops := OperationChecks(model.operations);
    ghost var e0 := errors.errors;
    CheckKeyed(domainName, libs, domains, matches, errors);
    ghost var e1 := errors.errors;
    CheckKeyed(domainName, pols, domains, matches, errors);
    ghost var e2 := errors.errors;
    CheckKeyed(domainName, roles, domains, matches, errors);
    ghost var e3 := errors.errors;
    CheckKeyed(domainName, groups, domains, matches, errors);
    ghost var e4 := errors.errors;
    CheckKeyed(domainName, rgs, domains, matches, errors);
    ghost var e5 := errors.errors;
    CheckKeyed(domainName, scopes, domains, matches, errors);
    ghost var e6 := errors.errors;
    CheckAll(domainName, ops, domains, matches, errors);
    assert errors.errors[|e6|..] == ErrorsOf(domainName, ops, domains, matches);
    ghost var e7 := errors.errors;
    ExtendsTrans(e0, e1, e2);
    ExtendsTrans(e0, e2, e3);
    ExtendsTrans(e0, e3, e4);
    ExtendsTrans(e0, e4, e5);
    ExtendsTrans(e0, e5, e6);
    ExtendsTrans(e0, e6, e7);
  }

  /** Each domain's reference errors. */
  ghost function ReferenceFailures(domains: Domains, matches: (string, string) -> bool): map<string, multiset<Error>>
  {
    map d | d in domains :: DomainErrors(d, domains[d], domains, matches)
  }

  /** The reference errors of every domain, each as often as it is recorded. */
  ghost function AllReferenceErrors(domains: Domains, matches: (string, string) -> bool): multiset<Error>
  {
    SumOver(ReferenceFailures(domains, matches), domains.Keys)
  }

  /** An error is among the reference errors exactly when it is the failure of some domain's reference. */
  lemma AllReferenceErrorsMeaning(domains: Domains, matches: (string, string) -> bool, e: Error)
    ensures e in AllReferenceErrors(domains, matches) <==>
            exists d :: d in domains && e in Failed(d, DomainChecks(domains[d]), domains, matches)
  {
    SumOverMember(ReferenceFailures(domains, matches), domains.Keys, e);
    forall d | d in domains
      ensures e in ReferenceFailures(domains, matches)[d] <==> e in Failed(d, DomainChecks(domains[d]), domains, matches)
    {
      DomainErrorsMeaning(d, domains[d], domains, matches, e);
    }
  }

  /** No reference error anywhere exactly when every reference of every domain validates. */
  lemma NoReferenceErrorsIff(domains: Domains, matches: (string, string) -> bool)
    ensures AllReferenceErrors(domains, matches) == multiset{} <==>
      forall d, c :: d in domains && c in DomainChecks(domains[d]) ==>
        ValidateReference(c.reference, d, c.expectedType, domains, matches).None?
  {
    if d, c :| d in domains && c in DomainChecks(domains[d]) && Failure(d, c, domains, matches).Some? {
      var e := ErrorFor(d, c, Failure(d, c, domains, matches).value);
      assert e in Failed(d, DomainChecks(domains[d]), domains, matches);
      AllReferenceErrorsMeaning(domains, matches, e);
    }
    if AllReferenceErrors(domains, matches) != multiset{} {
      var e :| e in AllReferenceErrors(domains, matches);
      AllReferenceErrorsMeaning(domains, matches, e);
      var d :| d in domains && e in Failed(d, DomainChecks(domains[d]), domains, matches);
      FailedAreReferenceErrors(d, DomainChecks(domains[d]), domains, matches, e);
    }
  }

  /** `validateAllReferences`: every domain, in map order. */
  method ValidateAllReferences(domains: Domains, matches: (string, string) -> bool, errors: Errors)
    modifies errors
    ensures Extends(old(errors.errors), errors.errors)
    ensures NewErrors(old(errors.errors), errors.errors) == AllReferenceErrors(domains, matches)
  {
    ghost var start := errors.errors;
    ghost var parts := ReferenceFailures(domains, matches);
    assert domains.Keys <= parts.Keys;
    var pending := domains.Keys;
    while pending != {}
      invariant pending <= domains.Keys
      invariant Extends(start, errors.errors)
      invariant NewErrors(start, errors.errors) == SumOver(parts, domains.Keys - pending)
      decreases pending
    {
      var d :| d in pending;
      ghost var before := errors.errors;
      ValidateDomainReferences(d, domains[d], domains, matches, errors);
      assert NewErrors(before, errors.errors) == parts[d];
      ExtendsTrans(start, before, errors.errors);
      SumOverVisit(parts, domains.Keys, pending, d);
      pending := pending - {d};
    }
    assert domains.Keys - pending == domains.Keys;
  }

  /** A Rego compilation failure, as `RegoValidator.ValidateDomainRego` reports it. */
  datatype RegoFailure = RegoFailure(entity: string, entityID: string, message: string)

  /** The error `AddRegoError` records for one failure. */
  function RegoError(domainName: string, f: RegoFailure): (e: Error)
    ensures e.errorType == "rego" && e.field == "rego" && e.domain == domainName && e.message == f.message
  {
    Error(domainName, "rego", f.entity, f.entityID, "rego", f.message)
  }

  /** The rego errors of one domain, one per failure, in order. */
  function RegoErrorList(domainName: string, failures: seq<RegoFailure>): (r: seq<Error>)
    ensures |r| == |failures|
    ensures forall i :: 0 <= i < |failures| ==> r[i] == RegoError(domainName, failures[i])
  {
    seq(|failures|, i requires 0 <= i < |failures| => RegoError(domainName, failures[i]))
  }

  /** The rego errors of one domain, one per failure. */
  ghost function RegoErrors(domainName: string, failures: seq<RegoFailure>): multiset<Error>
  {
    multiset(RegoErrorList(domainName, failures))
  }

  /** Each domain's rego errors. */
  ghost function RegoFailures(domains: Domains, regoFailures: Domain -> seq<RegoFailure>): map<string, multiset<Error>>
  {
    map d | d in domains :: RegoErrors(d, regoFailures(domains[d]))
  }

  /** The rego errors of every domain, one per failure. */
  ghost function AllRegoErrors(domains: Domains, regoFailures: Domain -> seq<RegoFailure>): multiset<Error>
  {
    SumOver(RegoFailures(domains, regoFailures), domains.Keys)
  }

  /** `ValidateDomainRego` for one domain: one rego error per failure, in order. */
  method AddRegoFailures(domainName: string, failures: seq<RegoFailure>, errors: Errors)
    modifies errors
    ensures errors.errors == old(errors.errors) + RegoErrorList(domainName, failures)
  {
    var i := 0;
    while i < |failures|
      invariant 0 <= i <= |failures|
      invariant errors.errors == old(errors.errors) + RegoErrorList(domainName, failures)[..i]
    {
      assert RegoErrorList(domainName, failures)[..i + 1] ==
             RegoErrorList(domainName, failures)[..i] + [RegoError(domainName, failures[i])];
      errors.AddRegoError(domainName, failures[i].entity, failures[i].entityID, failures[i].message);
      i := i + 1;
    }
    assert RegoErrorList(domainName, failures)[..i] == RegoErrorList(domainName, failures);
  }

  /** The rego failures appended by `AddRegoFailures`, seen as new errors. */
  lemma AddedRego(before: seq<Error>, domainName: string, failures: seq<RegoFailure>)
    ensures Extends(before, before + RegoErrorList(domainName, failures))
    ensures NewErrors(before, before + RegoErrorList(domainName, failures)) == RegoErrors(domainName, failures)
  {
    assert (before + RegoErrorList(domainName, failures))[|before|..] == RegoErrorList(domainName, failures);
  }

  /** `validateAllRegoCompilation`: every domain, in map order. */
  method ValidateAllRego(domains: Domains, regoFailures: Domain -> seq<RegoFailure>, errors: Errors)
    modifies errors
    ensures Extends(old(errors.errors), errors.errors)
    ensures NewErrors(old(errors.errors), errors.errors) == AllRegoErrors(domains, regoFailures)
  {
    ghost var start := errors.errors;
    ghost var parts := RegoFailures(domains, regoFailures);
    assert domains.Keys <= parts.Keys;
    var pending := domains.Keys;
    while pending != {}
      invariant pending <= domains.Keys
      invariant Extends(start, errors.errors)
      invariant NewErrors(start, errors.errors) == SumOver(parts, domains.Keys - pending)
      decreases pending
    {
      var d :| d in pending;
      ghost var before := errors.errors;
      var failures := regoFailures(domains[d]);
      AddRegoFailures(d, failures, errors);
      AddedRego(before, d, failures);
      assert NewErrors(before, errors.errors) == parts[d];
      ExtendsTrans(start, before, errors.errors);
      SumOverVisit(parts, domains.Keys, pending, d);
      pending := pending - {d};
    }
    assert domains.Keys - pending == domains.Keys;
  }

  /** A library as the DFS names it: its domain and id. */
  datatype LibraryNode = LibraryNode(domain: string, id: string)

  /** `qname`: the name the DFS keeps a library's state under. */
  function Key(n: LibraryNode): string
  {
    n.domain + "/" + n.id
  }

  function KeysOf(ns: seq<LibraryNode>): (r: seq<string>)
    ensures |r| == |ns| && forall i :: 0 <= i < |ns| ==> r[i] == Key(ns[i])
  {
    seq(|ns|, i requires 0 <= i < |ns| => Key(ns[i]))
  }

  /** The node names a library that exists. */
  predicate IsLibrary(domains: Domains, n: LibraryNode)
  {
    n.domain in domains && n.id in domains[n.domain].libraries
  }

  function DepsOf(domains: Domains, n: LibraryNode): seq<string>
    requires IsLibrary(domains, n)
  {
    domains[n.domain].libraries[n.id].dependencies
  }

  /** `to` is the library one of `from`'s dependencies resolves to. */
  ghost predicate IsEdge(domains: Domains, from: LibraryNode, to: LibraryNode)
  {
    IsLibrary(domains, from) &&
    exists j :: 0 <= j < |DepsOf(domains, from)| &&
      ResolveDependencyNode(domains, DepsOf(domains, from)[j], from.domain) == Ok(to)
  }

  /** Each library of `w` depends on the next one. */
  ghost predicate IsWalk(domains: Domains, w: seq<LibraryNode>)
  {
    forall i :: 0 <= i < |w| - 1 ==> IsEdge(domains, w[i], w[i + 1])
  }

  /** A walk of at least one step that comes back to the name it started from. */
  ghost predicate IsClosedWalk(domains: Domains, w: seq<LibraryNode>)
  {
    |w| >= 2 && IsWalk(domains, w) && Key(w[0]) == Key(w[|w| - 1])
  }

  /** The message names the libraries of a closed walk, in order. */
  ghost predicate ReportsCycle(domains: Domains, message: string)
  {
    exists w :: IsClosedWalk(domains, w) && message == "circular dependency detected: " + Join(KeysOf(w), " → ")
  }

  /** The message is the resolution failure of a dependency of some library. */
  ghost predicate ReportsUnresolved(domains: Domains, message: string)
  {
    exists n, j :: IsLibrary(domains, n) && 0 <= j < |DepsOf(domains, n)| &&
      ResolveDependencyNode(domains, DepsOf(domains, n)[j], n.domain) == Err(message)
  }

  /** What the cycle search can fail with. */
  ghost predicate CycleSearchError(domains: Domains, message: string)
  {
    ReportsCycle(domains, message) || ReportsUnresolved(domains, message)
  }

  /** Every dependency of the library resolves to a library whose name is in `done`. */
  ghost predicate DepsAmong(domains: Domains, n: LibraryNode, done: seq<string>)
  {
    IsLibrary(domains, n) &&
    forall j :: 0 <= j < |DepsOf(domains, n)| ==>
      var r := ResolveDependencyNode(domains, DepsOf(domains, n)[j], n.domain);
      r.Ok? && Key(r.value) in done
  }

  /** Each library of `order` comes after everything it depends on. */
  ghost predicate DependencyOrder(domains: Domains, order: seq<LibraryNode>)
  {
    forall i :: 0 <= i < |order| ==> DepsAmong(domains, order[i], KeysOf(order[..i]))
  }

  /** A dependency order that names every library. */
  ghost predicate OrdersAllLibraries(domains: Domains, order: seq<LibraryNode>)
  {
    DependencyOrder(domains, order) &&
    forall n :: IsLibrary(domains, n) ==> Key(n) in KeysOf(order)
  }

  /** No two libraries share a name. */
  ghost predicate DistinctKeys(domains: Domains)
  {
    forall n1, n2 :: IsLibrary(domains, n1) && IsLibrary(domains, n2) && Key(n1) == Key(n2) ==> n1 == n2
  }

  /** A library whose dependencies are all done extends a dependency order. */
  lemma OrderExtend(domains: Domains, order: seq<LibraryNode>, n: LibraryNode)
    requires DependencyOrder(domains, order) && DepsAmong(domains, n, KeysOf(order))
    ensures DependencyOrder(domains, order + [n])
  {
    var order' := order + [n];
    forall i | 0 <= i < |order'|
      ensures DepsAmong(domains, order'[i], KeysOf(order'[..i]))
    {
      if i < |order| {
        assert order'[..i] == order[..i];
      } else {
        assert order'[..i] == order;
      }
    }
  }

  /** A walk extended by an edge from its last library is a walk. */
  lemma WalkExtend(domains: Domains, w: seq<LibraryNode>, n: LibraryNode)
    requires IsWalk(domains, w) && |w| > 0 && IsEdge(domains, w[|w| - 1], n)
    ensures IsWalk(domains, w + [n])
  {
    var w' := w + [n];
    forall i | 0 <= i < |w'| - 1
      ensures IsEdge(domains, w'[i], w'[i + 1])
    {
      if i < |w| - 1 {
        assert w'[i] == w[i] && w'[i + 1] == w[i + 1];
      }
    }
  }

  /**
   * Meeting a library already on the stack closes a cycle: the part of the
   * stack from its first occurrence, closed by the library, is a closed walk,
   * and `buildCycleError` names exactly that walk.
   */
  lemma CycleFromWalk(domains: Domains, walk: seq<LibraryNode>, cur: LibraryNode)
    requires IsWalk(domains, walk + [cur]) && Key(cur) in KeysOf(walk)
    ensures ReportsCycle(domains, Dependency.CycleMessage(Key(cur), KeysOf(walk)))
  {
    var stack := KeysOf(walk);
    var start := FirstIndex(stack, Key(cur));
    var full := walk + [cur];
    var w := full[start..];
    assert w == walk[start..] + [cur];
    forall i | 0 <= i < |w| - 1
      ensures IsEdge(domains, w[i], w[i + 1])
    {
      assert w[i] == full[start + i] && w[i + 1] == full[start + i + 1];
    }
    assert KeysOf(w) == Dependency.CyclePath(Key(cur), stack);
    assert IsClosedWalk(domains, w);
  }

  /** Along an edge, the first position of the name in a complete dependency order goes down. */
  lemma EdgeDescends(domains: Domains, order: seq<LibraryNode>, from: LibraryNode, to: LibraryNode)
    requires OrdersAllLibraries(domains, order) && DistinctKeys(domains)
    requires IsEdge(domains, from, to)
    ensures Key(from) in KeysOf(order) && Key(to) in KeysOf(order)
    ensures FirstIndex(KeysOf(order), Key(to)) < FirstIndex(KeysOf(order), Key(from))
  {
    var keys := KeysOf(order);
    var i := FirstIndex(keys, Key(from));
    assert DepsAmong(domains, order[i], KeysOf(order[..i]));
    assert order[i] == from;
    var j :| 0 <= j < |DepsOf(domains, from)| &&
             ResolveDependencyNode(domains, DepsOf(domains, from)[j], from.domain) == Ok(to);
    assert KeysOf(order[..i]) == keys[..i];
    assert Key(to) in keys[..i];
  }

  /** A sequence that goes down at every step ends below where it started. */
  lemma {:induction false} Descends(r: seq<int>, k: nat)
    requires forall i :: 0 <= i < |r| - 1 ==> r[i + 1] < r[i]
    requires 1 <= k < |r|
    ensures r[k] < r[0]
    decreases k
  {
    if k > 1 {
      Descends(r, k - 1);
    }
  }

  /** Both names are in `keys`, the second first occurring before the first. */
  ghost predicate RankDrops(keys: seq<string>, from: LibraryNode, to: LibraryNode)
  {
    Key(from) in keys && Key(to) in keys && FirstIndex(keys, Key(to)) < FirstIndex(keys, Key(from))
  }

  /**
   * With a complete dependency order, a walk of at least one step never
   * comes back to the name it started from.
   */
  lemma WalkNeverReturns(domains: Domains, order: seq<LibraryNode>, w: seq<LibraryNode>)
    requires OrdersAllLibraries(domains, order) && DistinctKeys(domains)
    requires IsWalk(domains, w) && |w| >= 2
    ensures Key(w[0]) != Key(w[|w| - 1])
  {
    var keys := KeysOf(order);
    forall i | 0 <= i < |w| - 1
      ensures RankDrops(keys, w[i], w[i + 1])
    {
      EdgeDescends(domains, order, w[i], w[i + 1]);
    }
    var ranks := seq(|w|, i requires 0 <= i < |w| => if Key(w[i]) in keys then FirstIndex(keys, Key(w[i])) else 0);
    forall i | 0 <= i < |ranks| - 1
      ensures ranks[i + 1] < ranks[i]
    {
      assert RankDrops(keys, w[i], w[i + 1]);
    }
    Descends(ranks, |w| - 1);
  }

  /** When every library can be put in a dependency order, there is no cycle. */
  lemma OrderedMeansAcyclic(domains: Domains, order: seq<LibraryNode>, w: seq<LibraryNode>)
    requires OrdersAllLibraries(domains, order) && DistinctKeys(domains)
    ensures !IsClosedWalk(domains, w)
  {
    if |w| >= 2 && IsWalk(domains, w) {
      WalkNeverReturns(domains, order, w);
    }
  }

  /** Domain names without "/" give every library its own name. */
  lemma SlashFreeDomainsDistinct(domains: Domains)
    requires forall d :: d in domains ==> '/' !in d
    ensures DistinctKeys(domains)
  {
    forall n1, n2 | IsLibrary(domains, n1) && IsLibrary(domains, n2) && Key(n1) == Key(n2)
      ensures n1 == n2
    {
      KeyInjective(n1, n2);
    }
  }

  /** The first "/" of a name is the one after a domain without "/". */
  lemma SlashAfterDomain(d: string, id: string)
    requires '/' !in d
    ensures FirstIndex(d + "/" + id, '/') == |d|
  {
    var k := d + "/" + id;
    assert k[..|d|] == d;
    assert k[|d|] == '/';
    assert k[..|d| + 1] == d + "/";
  }

  lemma KeyInjective(n1: LibraryNode, n2: LibraryNode)
    requires '/' !in n1.domain && '/' !in n2.domain && Key(n1) == Key(n2)
    ensures n1 == n2
  {
    var k := Key(n1);
    var a, b := n1.domain, n2.domain;
    SlashAfterDomain(a, n1.id);
    SlashAfterDomain(b, n2.id);
    assert a == k[..|a|] == b;
    assert n1.id == k[|a| + 1..] == n2.id;
  }

  /** `getLibrary`: the library, or which lookup failed. */
  function GetLibrary(domains: Domains, domainName: string, libID: string): (r: Result<Policy, string>)
    ensures r.Ok? <==> domainName in domains && libID in domains[domainName].libraries
    ensures r.Ok? ==> r.value == domains[domainName].libraries[libID]
    ensures domainName !in domains ==> r == Err("domain '" + domainName + "' not found")
  {
    if domainName !in domains then Err("domain '" + domainName + "' not found")
    else if libID !in domains[domainName].libraries then
      Err("library '" + libID + "' not found in domain '" + domainName + "'")
    else Ok(domains[domainName].libraries[libID])
  }

  /** `validateDependencyExists`: fails exactly when `getLibrary` would, with the same message. */
  function ValidateDependencyExists(domains: Domains, targetDomain: string, depID: string): (err: Option<string>)
    ensures err.None? <==> GetLibrary(domains, targetDomain, depID).Ok?
    ensures err.Some? ==> err.value == GetLibrary(domains, targetDomain, depID).error
  {
    if targetDomain !in domains then Some("domain '" + targetDomain + "' not found")
    else if depID !in domains[targetDomain].libraries then
      Some("library '" + depID + "' not found in domain '" + targetDomain + "'")
    else None
  }

  /** A well-formed reference naming an existing library. */
  predicate ResolvesToLibrary(domains: Domains, parsed: Result<(string, string), string>)
  {
    parsed.Ok? && GetLibrary(domains, parsed.value.0, parsed.value.1).Ok?
  }

  /** `resolveDependencyNode`: parse the reference, then require the library to exist. */
  function ResolveDependencyNode(domains: Domains, dependency: string, sourceDomain: string): (r: Result<LibraryNode, string>)
    ensures r.Ok? <==> ResolvesToLibrary(domains, ParseReference(dependency, sourceDomain))
    ensures r.Ok? ==> ParseReference(dependency, sourceDomain) == Ok((r.value.domain, r.value.id))
    ensures r.Ok? ==> IsLibrary(domains, r.value)
  {
    match ParseReference(dependency, sourceDomain)
    case Err(e) => Err(e)
    case Ok((targetDomain, depID)) =>
      match ValidateDependencyExists(domains, targetDomain, depID)
      case Some(e) => Err(e)
      case None => Ok(LibraryNode(targetDomain, depID))
  }

  /** `buildCycleError`: the stack from the first occurrence of the key, closed by the key. */
  method BuildCycleError(key: string, stack: seq<string>) returns (message: string)
    ensures message == Dependency.CycleMessage(key, stack)
  {
    var start := 0;
    var i := 0;
    while i < |stack|
      invariant 0 <= i <= |stack|
      invariant key !in stack[..i]
    {
      if stack[i] == key {
        start := i;
        break;
      }
      i := i + 1;
    }
    assert i == |stack| ==> stack[..i] == stack;
    var cycle := stack[start..] + [key];
    return "circular dependency detected: " + Join(cycle, " → ");
  }

  /**
   * The state of `detectLibraryCycles`: `state` maps a library's name to 1
   * while it is on the DFS stack and to 2 once it is finished; absent means
   * unvisited. `expanded` records, in order, the libraries whose dependencies
   * were explored, and `order` the libraries in the order they were finished.
   */
  class CycleDetector {
    const domains: Domains
    /** Every library name of `domains`. */
    ghost const universe: set<string>
    var state: map<string, int>
    ghost var expanded: seq<string>
    ghost var order: seq<LibraryNode>

    constructor (domains: Domains)
      ensures this.domains == domains && universe == Dependency.Universe(domains)
      ensures state == map[] && expanded == [] && order == []
      ensures Valid() && Covers()
    {
      this.domains := domains;
      universe := Dependency.Universe(domains);
      state := map[];
      expanded := [];
      order := [];
    }

    /** Go's zero value for a missing key. */
    function StateOf(key: string): int
      reads this
    {
      if key in state then state[key] else 0
    }

    /** The libraries currently on the DFS stack. */
    ghost function Visiting(): set<string>
      reads this
    {
      set k | k in state && state[k] == 1
    }

    /**
     * Only the states 1 and 2 are stored; each library is expanded at most
     * once; the finished libraries are those of `order`, which lists each
     * after everything it depends on.
     */
    ghost predicate Valid()
      reads this
    {
      (forall k :: k in state ==> state[k] == 1 || state[k] == 2) &&
      NoDuplicates(expanded) &&
      (forall k :: k in expanded ==> k in state && k in universe) &&
      (forall k :: k in state && state[k] == 2 ==> k in expanded) &&
      (forall k :: k in state && state[k] == 2 <==> k in KeysOf(order)) &&
      DependencyOrder(domains, order)
    }

    /** Every library of `domains` is counted in `universe`. */
    ghost predicate Covers()
    {
      forall d, id :: d in domains && id in domains[d].libraries ==> d + "/" + id in universe
    }

    /** The libraries already finished. */
    ghost function Finished(): set<string>
      reads this
    {
      set k | k in state && state[k] == 2
    }

    /**
     * The recursive `dfs` closure. Reaching a library on the stack reports the
     * cycle; reaching a finished one does nothing; an unvisited one is expanded.
     * `walk` is the chain of libraries whose names make up the stack.
     */
    method Dfs(cur: LibraryNode, stack: seq<string>, ghost walk: seq<LibraryNode>) returns (err: Option<string>)
      requires Covers()
      requires Valid()
      requires IsLibrary(domains, cur)
      requires Visiting() == set k | k in stack
      requires KeysOf(walk) == stack && IsWalk(domains, walk + [cur])
      modifies this
      ensures Valid()
      ensures old(state).Keys <= state.Keys && old(Finished()) <= Finished()
      ensures Extends(old(expanded), expanded)
      ensures old(StateOf(Key(cur))) == 1 ==>
        Key(cur) in stack && err == Some(Dependency.CycleMessage(Key(cur), stack)) && state == old(state)
      ensures old(StateOf(Key(cur))) == 2 ==> err.None? && state == old(state) && expanded == old(expanded)
      ensures err.None? ==> Key(cur) in Finished() && Visiting() == old(Visiting())
      ensures err.Some? ==> CycleSearchError(domains, err.value)
      decreases |universe - state.Keys|, 1
    {
      var key := cur.domain + "/" + cur.id;
      if StateOf(key) == 1 {
        assert key in Visiting();
        var message := BuildCycleError(key, stack);
        CycleFromWalk(domains, walk, cur);
        return Some(message);
      }
      if StateOf(key) == 2 {
        return None;
      }
      err := Expand(cur, key, stack, walk);
    }

    /** `state[key] = 1`: the library goes on the stack. */
    method MarkVisiting(key: string)
      requires Valid() && key !in state
      modifies this
      ensures state == old(state)[key := 1] && expanded == old(expanded) && order == old(order)
      ensures Valid()
      ensures Visiting() == old(Visiting()) + {key} && Finished() == old(Finished())
      ensures key !in expanded
    {
      state := state[key := 1];
    }

    /** The library's dependencies are about to be explored. */
    method RecordExpansion(key: string)
      requires Valid() && key in state && key in universe && key !in expanded
      modifies this
      ensures state == old(state) && expanded == old(expanded) + [key] && order == old(order)
      ensures Valid()
    {
      expanded := expanded + [key];
    }

    /** `state[key] = 2`: the library leaves the stack, finished, after everything it depends on. */
    method MarkFinished(cur: LibraryNode, key: string)
      requires Valid() && key == Key(cur) && key in state && state[key] == 1 && key in expanded
      requires DepsAmong(domains, cur, KeysOf(order))
      modifies this
      ensures state == old(state)[key := 2] && expanded == old(expanded) && order == old(order) + [cur]
      ensures Valid()
      ensures Visiting() == old(Visiting()) - {key} && Finished() == old(Finished()) + {key}
    {
      OrderExtend(domains, order, cur);
      assert KeysOf(order + [cur]) == KeysOf(order) + [key];
      state := state[key := 2];
      order := order + [cur];
    }

    /**
     * The body of `dfs` for an unvisited library: mark it visiting and push
     * it, visit its dependencies, then mark it finished. The `getLibrary`
     * lookup cannot fail here, since every node reached is a library (the
     * starting ones are, and `resolveDependencyNode` checks the rest), so the
     * library is read directly.
     */
    method Expand(cur: LibraryNode, key: string, stack: seq<string>, ghost walk: seq<LibraryNode>)
      returns (err: Option<string>)
      requires key == Key(cur) && key !in state
      requires Covers()
      requires Valid()
      requires IsLibrary(domains, cur)
      requires Visiting() == set k | k in stack
      requires KeysOf(walk) == stack && IsWalk(domains, walk + [cur])
      modifies this
      ensures Valid()
      ensures old(state).Keys + {key} <= state.Keys && old(Finished()) <= Finished()
      ensures Extends(old(expanded), expanded)
      ensures err.None? ==> key in Finished() && Visiting() == old(Visiting())
      ensures err.Some? ==> CycleSearchError(domains, err.value)
      decreases |universe - state.Keys|, 0
    {
      ghost var visiting0 := Visiting();
      assert key !in visiting0;
      MarkVisiting(key);
      var path := stack + [key];
      ghost var pathWalk := walk + [cur];
      assert KeysOf(pathWalk) == path;
      assert Visiting() == set k | k in path;

      var library := domains[cur.domain].libraries[cur.id];
      assert key in universe;
      RecordExpansion(key);
      ProperSubsetSmaller(universe - state.Keys, universe - old(state).Keys, key);
      ghost var before := expanded;
      ghost var visiting1 := Visiting();
      err := VisitDependencies(cur, library.dependencies, key, path, pathWalk);
      GrowsTrans(old(expanded), before, expanded);
      if err.Some? {
        return;
      }
      assert key in Visiting();
      FinishedDeps(domains, cur, Finished(), order);
      MarkFinished(cur, key);
      assert Visiting() == visiting1 - {key};
      assert visiting1 - {key} == visiting0;
    }

    /**
     * The dependency loop of `dfs`: resolve each dependency and visit it,
     * stopping at the first error. Without one, every dependency resolved
     * to a finished library.
     */
    method VisitDependencies(cur: LibraryNode, deps: seq<string>, key: string, path: seq<string>,
                             ghost pathWalk: seq<LibraryNode>)
      returns (err: Option<string>)
      requires Covers()
      requires Valid()
      requires IsLibrary(domains, cur) && deps == DepsOf(domains, cur)
      requires key in path && key in expanded
      requires Visiting() == set k | k in path
      requires KeysOf(pathWalk) == path && IsWalk(domains, pathWalk)
      requires |pathWalk| > 0 && pathWalk[|pathWalk| - 1] == cur
      modifies this
      ensures Valid()
      ensures old(state).Keys <= state.Keys && old(Finished()) <= Finished()
      ensures Extends(old(expanded), expanded) && key in expanded
      ensures err.None? ==> Visiting() == old(Visiting())
      ensures err.None? ==> ResolvedAmong(domains, deps, cur.domain, Finished())
      ensures err.Some? ==> CycleSearchError(domains, err.value)
      decreases |universe - state.Keys|, 2
    {
      var i := 0;
      while i < |deps|
        invariant 0 <= i <= |deps|
        invariant Valid()
        invariant old(state).Keys <= state.Keys && old(Finished()) <= Finished()
        invariant Extends(old(expanded), expanded) && key in expanded
        invariant Visiting() == old(Visiting())
        invariant ResolvedAmong(domains, deps[..i], cur.domain, Finished())
      {
        var node := ResolveDependencyNode(domains, deps[i], cur.domain);
        if node.Err? {
          Unresolved(domains, cur, i);
          return Some(node.error);
        }
        Edge(domains, cur, i);
        WalkExtend(domains, pathWalk, node.value);
        SubsetNotLarger(universe - state.Keys, universe - old(state).Keys);
        ghost var before := expanded;
        ghost var done := Finished();
        var e := Dfs(node.value, path, pathWalk);
        GrowsTrans(old(expanded), before, expanded);
        if e.Some? {
          return e;
        }
        ResolvedStep(domains, deps, i, cur.domain, done, Finished());
        i := i + 1;
      }
      assert deps[..i] == deps;
      return None;
    }
  }

  /** Every one of the dependencies resolves to a library whose name is in `done`. */
  ghost predicate ResolvedAmong(domains: Domains, deps: seq<string>, source: string, done: set<string>)
  {
    forall j :: 0 <= j < |deps| ==>
      var r := ResolveDependencyNode(domains, deps[j], source);
      r.Ok? && Key(r.value) in done
  }

  /** One more resolved dependency, with the names done only growing. */
  lemma ResolvedStep(domains: Domains, deps: seq<string>, i: nat, source: string, done: set<string>, done': set<string>)
    requires i < |deps| && done <= done'
    requires ResolvedAmong(domains, deps[..i], source, done)
    requires var r := ResolveDependencyNode(domains, deps[i], source); r.Ok? && Key(r.value) in done'
    ensures ResolvedAmong(domains, deps[..i + 1], source, done')
  {
    var next := deps[..i + 1];
    forall j | 0 <= j < |next|
      ensures var r := ResolveDependencyNode(domains, next[j], source); r.Ok? && Key(r.value) in done'
    {
      if j < i {
        assert next[j] == deps[..i][j];
      }
    }
  }

  /** A dependency that does not resolve is reported as such. */
  lemma Unresolved(domains: Domains, n: LibraryNode, j: nat)
    requires IsLibrary(domains, n) && j < |DepsOf(domains, n)|
    requires ResolveDependencyNode(domains, DepsOf(domains, n)[j], n.domain).Err?
    ensures ReportsUnresolved(domains, ResolveDependencyNode(domains, DepsOf(domains, n)[j], n.domain).error)
  {
  }

  /** A dependency that resolves is an edge. */
  lemma Edge(domains: Domains, n: LibraryNode, j: nat)
    requires IsLibrary(domains, n) && j < |DepsOf(domains, n)|
    requires ResolveDependencyNode(domains, DepsOf(domains, n)[j], n.domain).Ok?
    ensures IsEdge(domains, n, ResolveDependencyNode(domains, DepsOf(domains, n)[j], n.domain).value)
  {
  }

  /** Dependencies resolved among the finished libraries are resolved among those of the order. */
  lemma FinishedDeps(domains: Domains, n: LibraryNode, done: set<string>, order: seq<LibraryNode>)
    requires IsLibrary(domains, n) && ResolvedAmong(domains, DepsOf(domains, n), n.domain, done)
    requires forall k :: k in done ==> k in KeysOf(order)
    ensures DepsAmong(domains, n, KeysOf(order))
  {
  }

  /** The DFS started from each of the given libraries of one domain, stopping at the first error. */
  method VisitLibraries(detector: CycleDetector, d: string, ids: set<string>) returns (err: Option<string>)
    requires detector.Valid() && detector.Covers() && detector.Visiting() == {}
    requires d in detector.domains && ids <= detector.domains[d].libraries.Keys
    modifies detector
    ensures detector.Valid() && (err.None? ==> detector.Visiting() == {})
    ensures old(detector.Finished()) <= detector.Finished()
    ensures |old(detector.expanded)| <= |detector.expanded|
    ensures detector.expanded[..|old(detector.expanded)|] == old(detector.expanded)
    ensures err.None? ==> forall id :: id in ids ==> d + "/" + id in detector.Finished()
    ensures err.Some? ==> CycleSearchError(detector.domains, err.value)
  {
    var pending := ids;
    while pending != {}
      invariant pending <= ids
      invariant detector.Valid() && detector.Visiting() == {}
      invariant old(detector.Finished()) <= detector.Finished()
      invariant |old(detector.expanded)| <= |detector.expanded|
      invariant detector.expanded[..|old(detector.expanded)|] == old(detector.expanded)
      invariant forall id :: id in ids && id !in pending ==> d + "/" + id in detector.Finished()
      decreases pending
    {
      var id :| id in pending;
      ghost var before := detector.expanded;
      assert KeysOf([]) == [];
      var e := detector.Dfs(LibraryNode(d, id), [], []);
      GrowsTrans(old(detector.expanded), before, detector.expanded);
      if e.Some? {
        return e;
      }
      pending := pending - {id};
    }
    return None;
  }

  /**
   * `detectLibraryCycles`: a DFS from every library of every domain, in map
   * order, stopping at the first error. An error is a cycle met along
   * dependencies or a dependency that does not resolve. When none is found,
   * the libraries finished, in order, form a dependency order of all of
   * them, and none was expanded twice.
   */
  method DetectLibraryCycles(domains: Domains)
    returns (err: Option<string>, ghost expanded: seq<string>, ghost order: seq<LibraryNode>)
    ensures NoDuplicates(expanded)
    ensures forall k :: k in expanded ==> k in Dependency.Universe(domains)
    ensures err.None? ==> forall k :: k in Dependency.Universe(domains) ==> k in expanded
    ensures err.None? ==> OrdersAllLibraries(domains, order)
    ensures err.Some? ==> CycleSearchError(domains, err.value)
  {
    var detector := new CycleDetector(domains);
    var pending := domains.Keys;
    while pending != {}
      invariant pending <= domains.Keys
      invariant detector.domains == domains && detector.universe == Dependency.Universe(domains)
      invariant detector.Valid() && detector.Covers() && detector.Visiting() == {}
      invariant forall d, id :: d in domains && d !in pending && id in domains[d].libraries ==>
        d + "/" + id in detector.Finished()
      decreases pending
    {
      var d :| d in pending;
      var e := VisitLibraries(detector, d, domains[d].libraries.Keys);
      if e.Some? {
        return e, detector.expanded, detector.order;
      }
      pending := pending - {d};
    }
    expanded := detector.expanded;
    order := detector.order;
    forall k | k in Dependency.Universe(domains)
      ensures k in expanded
    {
      var d, id :| d in domains && id in domains[d].libraries && k == d + "/" + id;
      assert k in detector.Finished();
    }
    forall n | IsLibrary(domains, n)
      ensures Key(n) in KeysOf(order)
    {
      assert Key(n) in detector.Finished();
    }
    return None, expanded, order;
  }

  /** The cycle error `validateAllLibraryCycles` adds for a detected cycle. */
  function CycleErrors(cycle: Option<string>): (r: multiset<Error>)
    ensures |r| <= 1 && (|r| == 0 <==> cycle.None?)
    ensures forall e :: e in r ==> e.errorType == "cycle" && Render(e) == e.message && Some(e.message) == cycle
  {
    if cycle.Some? then multiset{Error("", "cycle", "", "", "", cycle.value)} else multiset{}
  }

  /** Every reference error has type "reference". */
  lemma ReferenceErrorsTyped(domains: Domains, matches: (string, string) -> bool)
    ensures forall e :: e in AllReferenceErrors(domains, matches) ==> e.errorType == "reference"
  {
    forall e | e in AllReferenceErrors(domains, matches)
      ensures e.errorType == "reference"
    {
      AllReferenceErrorsMeaning(domains, matches, e);
      var d :| d in domains && e in Failed(d, DomainChecks(domains[d]), domains, matches);
      FailedAreReferenceErrors(d, DomainChecks(domains[d]), domains, matches, e);
    }
  }

  /** Every rego error has type "rego" and field "rego". */
  lemma RegoErrorsTyped(domains: Domains, regoFailures: Domain -> seq<RegoFailure>)
    ensures forall e :: e in AllRegoErrors(domains, regoFailures) ==> e.errorType == "rego" && e.field == "rego"
  {
    forall e | e in AllRegoErrors(domains, regoFailures)
      ensures e.errorType == "rego" && e.field == "rego"
    {
      SumOverMember(RegoFailures(domains, regoFailures), domains.Keys, e);
      var d :| d in domains && e in RegoFailures(domains, regoFailures)[d];
      var list := RegoErrorList(d, regoFailures(domains[d]));
      assert e in list;
      var i :| 0 <= i < |list| && list[i] == e;
    }
  }

  /** When only a middle append of at most one error can hold a "cycle" error, the result holds at most one. */
  lemma AtMostOneCycle(e1: seq<Error>, e2: seq<Error>, e3: seq<Error>)
    requires Extends(e1, e2) && Extends(e2, e3) && |e2| <= |e1| + 1
    requires forall e :: e in e1 ==> e.errorType != "cycle"
    requires forall e :: e in e3[|e2|..] ==> e.errorType != "cycle"
    ensures |Members(e3, ByType, "cycle")| <= 1
  {
    var tail := e3[|e2|..];
    MembersNone(e1, ByType, "cycle");
    MembersNone(tail, ByType, "cycle");
    assert e3 == e1 + e2[|e1|..] + tail;
    MembersAppend(e1, e2[|e1|..], ByType, "cycle");
    MembersAppend(e1 + e2[|e1|..], tail, ByType, "cycle");
  }

  /**
   * References, then library cycles, then Rego, into an empty collection.
   * `cycle` is what the cycle search returned.
   */
  method CollectAll(domains: Domains, matches: (string, string) -> bool, regoFailures: Domain -> seq<RegoFailure>,
                    errors: Errors)
    returns (ghost cycle: Option<string>)
    requires errors.errors == []
    modifies errors
    ensures multiset(errors.errors) ==
      AllReferenceErrors(domains, matches) + CycleErrors(cycle) + AllRegoErrors(domains, regoFailures)
    ensures |Members(errors.errors, ByType, "cycle")| <= 1
    ensures cycle.Some? ==> CycleSearchError(domains, cycle.value)
    ensures cycle.None? ==> exists order :: OrdersAllLibraries(domains, order)
  {
    ValidateAllReferences(domains, matches, errors);
    ghost var e1 := errors.errors;
    var detected, _, order := DetectLibraryCycles(domains);
    cycle := detected;
    if detected.Some? {
      errors.AddCycleError(detected.value);
    }
    ghost var e2 := errors.errors;
    CycleAppended(e1, e2, cycle);
    ValidateAllRego(domains, regoFailures, errors);
    ReferenceErrorsTyped(domains, matches);
    RegoErrorsTyped(domains, regoFailures);
    Collected(e1, e2, errors.errors, AllReferenceErrors(domains, matches), CycleErrors(cycle),
              AllRegoErrors(domains, regoFailures));
  }

  /** The cycle step appends the cycle error, if there is one, and nothing else. */
  lemma CycleAppended(e1: seq<Error>, e2: seq<Error>, cycle: Option<string>)
    requires cycle.Some? ==> e2 == e1 + [Error("", "cycle", "", "", "", cycle.value)]
    requires cycle.None? ==> e2 == e1
    ensures Extends(e1, e2) && |e2| <= |e1| + 1 && NewErrors(e1, e2) == CycleErrors(cycle)
  {
    assert e2[..|e1|] == e1;
    if cycle.Some? {
      assert e2[|e1|..] == [Error("", "cycle", "", "", "", cycle.value)];
    } else {
      assert e2[|e1|..] == [];
    }
  }

  /** The three phases together: references, then at most one cycle error, then Rego errors. */
  lemma Collected(e1: seq<Error>, e2: seq<Error>, e3: seq<Error>,
                  refs: multiset<Error>, cyc: multiset<Error>, rego: multiset<Error>)
    requires Extends([], e1) && NewErrors([], e1) == refs
    requires Extends(e1, e2) && |e2| <= |e1| + 1 && NewErrors(e1, e2) == cyc
    requires Extends(e2, e3) && NewErrors(e2, e3) == rego
    requires forall e :: e in refs ==> e.errorType == "reference"
    requires forall e :: e in rego ==> e.errorType == "rego"
    ensures multiset(e3) == refs + cyc + rego
    ensures |Members(e3, ByType, "cycle")| <= 1
  {
    ExtendsTrans([], e1, e2);
    ExtendsTrans([], e2, e3);
    assert e3[0..] == e3;
    assert e1[0..] == e1;
    assert forall e :: e in e1 ==> e in refs;
    assert forall e :: e in e3[|e2|..] ==> e in rego;
    AtMostOneCycle(e1, e2, e3);
  }

  /**
   * `ValidateAll`: references, then library cycles, then Rego, all into one
   * collection, each error as often as it was recorded; no collection is
   * returned exactly when nothing was recorded. `cycle` is the result of the
   * cycle search: a cycle along dependencies or an unresolvable dependency,
   * and without one the libraries have a dependency order.
   */
  method ValidateAll(domains: Domains, matches: (string, string) -> bool, regoFailures: Domain -> seq<RegoFailure>)
    returns (r: Option<Errors>, ghost cycle: Option<string>)
    ensures r.None? <==>
      AllReferenceErrors(domains, matches) == multiset{} && cycle.None? &&
      AllRegoErrors(domains, regoFailures) == multiset{}
    ensures r.Some? ==> r.value.HasErrors()
    ensures r.Some? ==>
      multiset(r.value.errors) ==
        AllReferenceErrors(domains, matches) + CycleErrors(cycle) + AllRegoErrors(domains, regoFailures)
    ensures r.Some? ==> (r.value.Count() ==
      |AllReferenceErrors(domains, matches)| + |CycleErrors(cycle)| + |AllRegoErrors(domains, regoFailures)|)
    ensures r.Some? ==> |Members(r.value.errors, ByType, "cycle")| <= 1
    ensures cycle.Some? ==> CycleSearchError(domains, cycle.value)
    ensures cycle.None? ==> exists order :: OrdersAllLibraries(domains, order)
  {
    var errors := new Errors();
    cycle := CollectAll(domains, matches, regoFailures, errors);
    if errors.HasErrors() {
      return Some(errors), cycle;
    }
    return None, cycle;
  }

  /**
   * `ValidateDomain`: an unknown domain is an error of its own; otherwise the
   * domain's reference errors and then its Rego errors are collected, and no
   * collection is returned exactly when there are none.
   */
  method ValidateDomain(domains: Domains, domainName: string, matches: (string, string) -> bool,
                        regoFailures: Domain -> seq<RegoFailure>)
    returns (r: Result<Option<Errors>, string>)
    ensures r.Err? <==> domainName !in domains
    ensures r.Err? ==> r.error == "domain '" + domainName + "' not found"
    ensures r.Ok? ==> (r.value.None? <==>
      DomainErrors(domainName, domains[domainName], domains, matches) == multiset{} &&
      RegoErrors(domainName, regoFailures(domains[domainName])) == multiset{})
    ensures r.Ok? && r.value.Some? ==>
      multiset(r.value.value.errors) ==
        DomainErrors(domainName, domains[domainName], domains, matches) +
        RegoErrors(domainName, regoFailures(domains[domainName]))
  {
    if domainName !in domains {
      return Err("domain '" + domainName + "' not found");
    }
    var model := domains[domainName];
    var errors := new Errors();
    assert errors.errors[0..] == [];
    ValidateDomainReferences(domainName, model, domains, matches, errors);
    ghost var e1 := errors.errors;
    AddRegoFailures(domainName, regoFailures(model), errors);
    AddedRego(e1, domainName, regoFailures(model));
    ExtendsTrans([], e1, errors.errors);
    assert errors.errors[0..] == errors.errors;
    if errors.HasErrors() {
      return Ok(Some(errors));
    }
    return Ok(None);
  }
}
