/**
 * The policy-domain registry (pkg/policydomain/registry/registry.go): the
 * domains are loaded in path order, stored by name so that the earliest path
 * with a name is the one kept, validated as a whole, and later compiled in
 * place, skipping whatever already holds a compiled Ast.
 *
 * Loading a path is the parameter `load`; compiling a policy with its
 * dependencies (`compilePolicyWithDeps`) and a mapper are the parameters
 * `compilePolicy` and `compileMapper`. Validation is the validator's own
 * `ValidateAll`, with its reference matching and Rego compilation failures as
 * parameters.
 */
module Registry {
  import opened Wrappers
  import opened PolicyDomain
  import opened Collections
  import opened ValidationErrors
  import Validator

  // ---------------------------------------------------------------------
  // reverse

  /** The elements of `s` in the opposite order. */
  function Reversed<T>(s: seq<T>): (r: seq<T>)
    ensures |r| == |s|
    ensures forall k :: 0 <= k < |s| ==> r[k] == s[|s| - 1 - k]
  {
    if s == [] then [] else Reversed(s[1..]) + [s[0]]
  }

  /** Reversing twice gives back the original order. */
  lemma ReversedInvolution<T>(s: seq<T>)
    ensures Reversed(Reversed(s)) == s
  {
  }

  /** Reversal is a permutation. */
  lemma {:induction false} ReversedPermutation<T>(s: seq<T>)
    ensures multiset(Reversed(s)) == multiset(s)
  {
    if s != [] {
      ReversedPermutation(s[1..]);
      assert s == [s[0]] + s[1..];
    }
  }

  /** `reverse`: swaps from both ends towards the middle. */
  method Reverse<T>(a: array<T>)
    modifies a
    ensures a[..] == Reversed(old(a[..]))
  {
    var i, j := 0, a.Length - 1;
    while i < j
      invariant 0 <= i <= j + 1 <= a.Length
      invariant i + j == a.Length - 1
      invariant forall k :: 0 <= k < i ==> a[k] == old(a[a.Length - 1 - k]) && a[a.Length - 1 - k] == old(a[k])
      invariant forall k :: i <= k <= j ==> a[k] == old(a[k])
    {
      a[i], a[j] := a[j], a[i];
      i := i + 1;
      j := j - 1;
    }
  }

  // ---------------------------------------------------------------------
  // Domain precedence

  function DomainName(d: Domain): string
  {
    d.name
  }

  function Same(d: Domain): Domain
  {
    d
  }

  /** The domain map `NewRegistry` builds from the loaded list: each domain of the reversed list stored by name. */
  function DomainMapOf(loaded: seq<Domain>): Domains
  {
    Keyed(Reversed(loaded), DomainName, Same)
  }

  /** Every loaded name is in the map, and a name's entry is the domain of the earliest path with that name. */
  lemma EarliestPathWins(loaded: seq<Domain>, i: nat)
    requires i < |loaded|
    requires forall j :: 0 <= j < i ==> loaded[j].name != loaded[i].name
    ensures loaded[i].name in DomainMapOf(loaded) && DomainMapOf(loaded)[loaded[i].name] == loaded[i]
  {
    var rev := Reversed(loaded);
    var k := |loaded| - 1 - i;
    assert rev[k] == loaded[i];
    forall j | k < j < |rev|
      ensures DomainName(rev[j]) != DomainName(rev[k])
    {
      assert rev[j] == loaded[|loaded| - 1 - j];
    }
    KeyedLastWins(rev, DomainName, Same, k);
  }

  /** The map holds exactly the loaded names. */
  lemma DomainMapNames(loaded: seq<Domain>)
    ensures DomainMapOf(loaded).Keys == set i | 0 <= i < |loaded| :: loaded[i].name
  {
    var rev := Reversed(loaded);
    KeyedKeys(rev, DomainName, Same);
    forall x | x in DomainMapOf(loaded).Keys
      ensures x in set i | 0 <= i < |loaded| :: loaded[i].name
    {
      var k :| 0 <= k < |rev| && DomainName(rev[k]) == x;
      assert loaded[|loaded| - 1 - k].name == x;
    }
    forall i | 0 <= i < |loaded|
      ensures loaded[i].name in DomainMapOf(loaded).Keys
    {
      assert rev[|loaded| - 1 - i] == loaded[i];
    }
  }

  /** Path `i` is the first one that fails to load. */
  predicate FirstLoadFailure(paths: seq<string>, load: string -> Result<Domain, string>, i: int)
  {
    0 <= i < |paths| && load(paths[i]).Err? && forall k :: 0 <= k < i ==> load(paths[k]).Ok?
  }

  /** The loading loop of `NewRegistry`: the domains in path order, stopping at the first failure. */
  method LoadAll(paths: seq<string>, load: string -> Result<Domain, string>) returns (r: Result<seq<Domain>, string>)
    ensures r.Ok? <==> forall i :: 0 <= i < |paths| ==> load(paths[i]).Ok?
    ensures r.Ok? ==> |r.value| == |paths| && forall i :: 0 <= i < |paths| ==> r.value[i] == load(paths[i]).value
    ensures r.Err? ==> exists i :: FirstLoadFailure(paths, load, i) && load(paths[i]) == Err(r.error)
  {
    var list: seq<Domain> := [];
    var i := 0;
    while i < |paths|
      invariant 0 <= i <= |paths|
      invariant |list| == i && forall k :: 0 <= k < i ==> load(paths[k]).Ok? && list[k] == load(paths[k]).value
    {
      var instance := load(paths[i]);
      if instance.Err? {
        return Err(instance.error);
      }
      list := list + [instance.value];
      i := i + 1;
    }
    return Ok(list);
  }

  /** The map-filling loop of `NewRegistry` over the reversed list. */
  method BuildDomainMap(loaded: seq<Domain>) returns (domains: Domains)
    ensures domains == DomainMapOf(loaded)
  {
    var list := new Domain[|loaded|](k requires 0 <= k < |loaded| => loaded[k]);
    assert list[..] == loaded;
    Reverse(list);
    domains := map[];
    var i := 0;
    while i < list.Length
      invariant 0 <= i <= list.Length
      invariant domains == Keyed(list[..i], DomainName, Same)
    {
      assert list[..i + 1][..i] == list[..i];
      domains := domains[list[i].name := list[i]];
      i := i + 1;
    }
    assert list[..i] == Reversed(loaded);
  }

  /** Why `NewRegistry` returned no registry. */
  datatype Failure = LoadFailed(message: string) | ValidationFailed(errors: Errors)

  /** Every path loads. */
  predicate AllLoaded(paths: seq<string>, load: string -> Result<Domain, string>)
  {
    forall i :: 0 <= i < |paths| ==> load(paths[i]).Ok?
  }

  /** The domains of the loaded paths, by name. */
  function LoadedDomains(paths: seq<string>, load: string -> Result<Domain, string>): Domains
    requires AllLoaded(paths, load)
  {
    DomainMapOf(seq(|paths|, i requires 0 <= i < |paths| => load(paths[i]).value))
  }

  /**
   * The domains pass validation: no reference fails, no Rego fails, and the
   * libraries have a dependency order (so the cycle search found nothing).
   */
  ghost predicate Validated(domains: Domains, matches: (string, string) -> bool,
                            regoFailures: Domain -> seq<Validator.RegoFailure>)
  {
    Validator.AllReferenceErrors(domains, matches) == multiset{} &&
    Validator.AllRegoErrors(domains, regoFailures) == multiset{} &&
    exists order :: Validator.OrdersAllLibraries(domains, order)
  }

  /**
   * The errors are the reference errors, the cycle search's error if it
   * reported one, and the Rego errors, each as often as it is recorded.
   */
  ghost predicate ReportsValidationErrors(domains: Domains, matches: (string, string) -> bool,
                                   regoFailures: Domain -> seq<Validator.RegoFailure>, errors: seq<Error>)
  {
    exists cycle: Option<string> ::
      (cycle.Some? ==> Validator.CycleSearchError(domains, cycle.value)) &&
      multiset(errors) == Validator.AllReferenceErrors(domains, matches) + Validator.CycleErrors(cycle) +
                          Validator.AllRegoErrors(domains, regoFailures)
  }

  class Registry {
    var domains: Domains

    constructor (domains: Domains)
      ensures this.domains == domains
    {
      this.domains := domains;
    }

    /**
     * `NewRegistry`: any load failure or validation failure gives no
     * registry; otherwise the registry holds the domains by name, the earliest
     * path winning on a shared name.
     */
    static method NewRegistry(paths: seq<string>, load: string -> Result<Domain, string>,
                              matches: (string, string) -> bool,
                              regoFailures: Domain -> seq<Validator.RegoFailure>)
      returns (r: Result<Registry, Failure>)
      ensures (exists i :: 0 <= i < |paths| && load(paths[i]).Err?) ==> r.Err? && r.error.LoadFailed?
      ensures r.Err? && r.error.LoadFailed? ==>
        exists i :: FirstLoadFailure(paths, load, i) && load(paths[i]) == Err(r.error.message)
      ensures r.Ok? ==> forall i :: 0 <= i < |paths| ==> load(paths[i]).Ok?
      ensures r.Ok? ==> r.value.domains == DomainMapOf(seq(|paths|, i requires 0 <= i < |paths| => load(paths[i]).value))
      ensures r.Err? && r.error.ValidationFailed? ==> r.error.errors.HasErrors()
      ensures r.Ok? ==> AllLoaded(paths, load) && Validated(r.value.domains, matches, regoFailures)
      ensures AllLoaded(paths, load) ==> r.Ok? || r.error.ValidationFailed?
      ensures (AllLoaded(paths, load) &&
               (Validator.AllReferenceErrors(LoadedDomains(paths, load), matches) != multiset{} ||
                Validator.AllRegoErrors(LoadedDomains(paths, load), regoFailures) != multiset{})) ==>
        r.Err? && r.error.ValidationFailed?
      ensures r.Err? && r.error.ValidationFailed? ==>
        AllLoaded(paths, load) &&
        ReportsValidationErrors(LoadedDomains(paths, load), matches, regoFailures, r.error.errors.errors)
    {
      var loaded := LoadAll(paths, load);
      if loaded.Err? {
        return Err(LoadFailed(loaded.error));
      }
      assert loaded.value == seq(|paths|, i requires 0 <= i < |paths| => load(paths[i]).value);
      var domains := BuildDomainMap(loaded.value);
      var errors, cycle := Validator.ValidateAll(domains, matches, regoFailures);
      if errors.Some? {
        assert ReportsValidationErrors(domains, matches, regoFailures, errors.value.errors);
        return Err(ValidationFailed(errors.value));
      }
      var registry := new Registry(domains);
      return Ok(registry);
    }

    /**
     * `CompileAllPolicies`: every domain in map order, its libraries, then its
     * policies, then its mappers; the first failure is reported with the
     * domain's name. What was compiled before the failure stays compiled.
     */
    method CompileAllPolicies(compilePolicy: (string, Policy) -> Result<(Ast, seq<Byte>), string>,
                              compileMapper: Mapper -> Result<Ast, string>)
      returns (err: Option<string>)
      modifies this
      ensures domains.Keys == old(domains.Keys)
      ensures forall d :: d in domains ==> CompiledFrom(old(domains[d]), domains[d], compilePolicy, compileMapper)
      ensures err.None? ==> forall d :: d in domains ==> FullyCompiled(domains[d])
      ensures err.Some? ==> exists d, m :: d in old(domains) && CompileFailure(old(domains[d]), compilePolicy, compileMapper, m) &&
                                           err.value == "domain " + d + ": " + m
    {
      var pending := domains.Keys;
      while pending != {}
        invariant pending <= domains.Keys
        invariant domains.Keys == old(domains.Keys)
        invariant forall d :: d in pending ==> domains[d] == old(domains[d])
        invariant forall d :: d in domains ==> CompiledFrom(old(domains[d]), domains[d], compilePolicy, compileMapper)
        invariant forall d :: d in domains && d !in pending ==> FullyCompiled(domains[d])
        decreases pending
      {
        var name :| name in pending;
        var compiled, e := CompileDomain(domains[name], compilePolicy, compileMapper);
        CompiledFromTrans(old(domains[name]), domains[name], compiled, compilePolicy, compileMapper);
        ghost var before := domains;
        domains := domains[name := compiled];
        forall d | d in domains
          ensures CompiledFrom(old(domains[d]), domains[d], compilePolicy, compileMapper)
          ensures d !in pending - {name} && e.None? ==> FullyCompiled(domains[d])
        {
          if d != name {
            assert domains[d] == before[d];
          }
        }
        if e.Some? {
          assert CompileFailure(old(domains[name]), compilePolicy, compileMapper, e.value);
          return Some("domain " + name + ": " + e.value);
        }
        pending := pending - {name};
      }
      return None;
    }
  }

  /** One domain of `CompileAllPolicies`: its libraries, then its policies, then its mappers. */
  method CompileDomain(domain: Domain,
                       compilePolicy: (string, Policy) -> Result<(Ast, seq<Byte>), string>,
                       compileMapper: Mapper -> Result<Ast, string>)
    returns (r: Domain, err: Option<string>)
    ensures CompiledFrom(domain, r, compilePolicy, compileMapper)
    ensures err.None? ==> FullyCompiled(r)
    ensures err.Some? ==> CompileFailure(domain, compilePolicy, compileMapper, err.value)
  {
    var libraries, e1 := CompilePolicies(domain.name, "policy library", domain.libraries, compilePolicy);
    r := domain.(libraries := libraries);
    if e1.Some? {
      return r, e1;
    }
    var policies, e2 := CompilePolicies(domain.name, "policy", domain.policies, compilePolicy);
    r := r.(policies := policies);
    if e2.Some? {
      return r, e2;
    }
    var mappers, e3 := CompileMappers(domain.mappers, compileMapper);
    r := r.(mappers := mappers);
    return r, e3;
  }

  /** `message` is the failure `compilePoliciesInDomain` reports for an uncompiled entry of `policies` named `kind`. */
  ghost predicate PolicyFailure(domainName: string, kind: string, policies: map<string, Policy>,
                                compilePolicy: (string, Policy) -> Result<(Ast, seq<Byte>), string>, message: string)
  {
    exists k :: k in policies && policies[k].ast.None? && compilePolicy(domainName, policies[k]).Err? &&
                message == kind + " " + k + ": " + compilePolicy(domainName, policies[k]).error
  }

  /** `message` is the failure `compileMappersInDomain` reports for an uncompiled mapper. */
  ghost predicate MapperFailure(mappers: seq<Mapper>, compileMapper: Mapper -> Result<Ast, string>, message: string)
  {
    exists i :: 0 <= i < |mappers| && mappers[i].ast.None? && compileMapper(mappers[i]).Err? &&
                message == "mapper " + mappers[i].idSpec.id + ": compilation failed: " + compileMapper(mappers[i]).error
  }

  /** `message` is the failure of one of a domain's uncompiled libraries, policies or mappers. */
  ghost predicate CompileFailure(domain: Domain, compilePolicy: (string, Policy) -> Result<(Ast, seq<Byte>), string>,
                                 compileMapper: Mapper -> Result<Ast, string>, message: string)
  {
    PolicyFailure(domain.name, "policy library", domain.libraries, compilePolicy, message) ||
    PolicyFailure(domain.name, "policy", domain.policies, compilePolicy, message) ||
    MapperFailure(domain.mappers, compileMapper, message)
  }

  /** A policy after compilation: its Ast and the fingerprint over it and its dependencies. */
  function WithAst(p: Policy, compiled: (Ast, seq<Byte>)): Policy
  {
    p.(ast := Some(compiled.0), idSpec := p.idSpec.(fingerprint := compiled.1))
  }

  /** `after` is `before`, or `before` compiled; an entry that already held an Ast is unchanged. */
  predicate PolicyCompiledFrom(domainName: string, before: Policy, after: Policy,
                               compilePolicy: (string, Policy) -> Result<(Ast, seq<Byte>), string>)
  {
    after == before ||
    (before.ast.None? && compilePolicy(domainName, before).Ok? && after == WithAst(before, compilePolicy(domainName, before).value))
  }

  predicate PoliciesCompiledFrom(domainName: string, before: map<string, Policy>, after: map<string, Policy>,
                                 compilePolicy: (string, Policy) -> Result<(Ast, seq<Byte>), string>)
  {
    after.Keys == before.Keys &&
    forall k :: k in before ==> PolicyCompiledFrom(domainName, before[k], after[k], compilePolicy)
  }

  predicate MapperCompiledFrom(before: Mapper, after: Mapper, compileMapper: Mapper -> Result<Ast, string>)
  {
    after == before ||
    (before.ast.None? && compileMapper(before).Ok? && after == before.(ast := Some(compileMapper(before).value)))
  }

  predicate MappersCompiledFrom(before: seq<Mapper>, after: seq<Mapper>, compileMapper: Mapper -> Result<Ast, string>)
  {
    |after| == |before| && forall i :: 0 <= i < |before| ==> MapperCompiledFrom(before[i], after[i], compileMapper)
  }

  /** Compilation changes nothing in a domain but the Asts (and fingerprints) of what lacked one. */
  predicate CompiledFrom(before: Domain, after: Domain,
                         compilePolicy: (string, Policy) -> Result<(Ast, seq<Byte>), string>,
                         compileMapper: Mapper -> Result<Ast, string>)
  {
    after == before.(libraries := after.libraries, policies := after.policies, mappers := after.mappers) &&
    PoliciesCompiledFrom(before.name, before.libraries, after.libraries, compilePolicy) &&
    PoliciesCompiledFrom(before.name, before.policies, after.policies, compilePolicy) &&
    MappersCompiledFrom(before.mappers, after.mappers, compileMapper)
  }

  /** Compiling what is already compiled changes nothing, so two rounds of compilation are one. */
  lemma CompiledFromTrans(a: Domain, b: Domain, c: Domain,
                          compilePolicy: (string, Policy) -> Result<(Ast, seq<Byte>), string>,
                          compileMapper: Mapper -> Result<Ast, string>)
    requires CompiledFrom(a, b, compilePolicy, compileMapper)
    requires CompiledFrom(b, c, compilePolicy, compileMapper)
    ensures CompiledFrom(a, c, compilePolicy, compileMapper)
  {
    forall k | k in a.libraries
      ensures PolicyCompiledFrom(a.name, a.libraries[k], c.libraries[k], compilePolicy)
    {
      assert PolicyCompiledFrom(b.name, b.libraries[k], c.libraries[k], compilePolicy);
    }
    forall k | k in a.policies
      ensures PolicyCompiledFrom(a.name, a.policies[k], c.policies[k], compilePolicy)
    {
      assert PolicyCompiledFrom(b.name, b.policies[k], c.policies[k], compilePolicy);
    }
    forall i | 0 <= i < |a.mappers|
      ensures MapperCompiledFrom(a.mappers[i], c.mappers[i], compileMapper)
    {
      assert MapperCompiledFrom(b.mappers[i], c.mappers[i], compileMapper);
    }
  }

  predicate FullyCompiled(d: Domain)
  {
    (forall k :: k in d.libraries ==> d.libraries[k].ast.Some?) &&
    (forall k :: k in d.policies ==> d.policies[k].ast.Some?) &&
    (forall i :: 0 <= i < |d.mappers| ==> d.mappers[i].ast.Some?)
  }

  /** `compilePoliciesInDomain` for one map: entries holding an Ast are skipped; the first failure stops. */
  method CompilePolicies(domainName: string, kind: string, policies: map<string, Policy>,
                         compilePolicy: (string, Policy) -> Result<(Ast, seq<Byte>), string>)
    returns (r: map<string, Policy>, err: Option<string>)
    ensures PoliciesCompiledFrom(domainName, policies, r, compilePolicy)
    ensures err.None? ==> forall k :: k in r ==> r[k].ast.Some?
    ensures err.Some? ==> PolicyFailure(domainName, kind, policies, compilePolicy, err.value)
  {
    r := policies;
    var pending := policies.Keys;
    while pending != {}
      invariant pending <= policies.Keys
      invariant PoliciesCompiledFrom(domainName, policies, r, compilePolicy)
      invariant forall k :: k in r && k !in pending ==> r[k].ast.Some?
      decreases pending
    {
      var mrn :| mrn in pending;
      var policy := r[mrn];
      if policy.ast.None? {
        assert policy == policies[mrn];
        var compiled := compilePolicy(domainName, policy);
        if compiled.Err? {
          return r, Some(kind + " " + mrn + ": " + compiled.error);
        }
        r := r[mrn := WithAst(policy, compiled.value)];
      }
      pending := pending - {mrn};
    }
    return r, None;
  }

  /** `compileMappersInDomain`: mappers holding an Ast are skipped; the first failure stops. */
  method CompileMappers(mappers: seq<Mapper>, compileMapper: Mapper -> Result<Ast, string>)
    returns (r: seq<Mapper>, err: Option<string>)
    ensures MappersCompiledFrom(mappers, r, compileMapper)
    ensures err.None? ==> forall i :: 0 <= i < |r| ==> r[i].ast.Some?
    ensures err.Some? ==> MapperFailure(mappers, compileMapper, err.value)
  {
    r := mappers;
    var i := 0;
    while i < |r|
      invariant 0 <= i <= |r|
      invariant MappersCompiledFrom(mappers, r, compileMapper)
      invariant forall k :: 0 <= k < i ==> r[k].ast.Some?
      invariant forall k :: i <= k < |r| ==> r[k] == mappers[k]
    {
      if r[i].ast.None? {
        var compiled := compileMapper(r[i]);
        if compiled.Err? {
          return r, Some("mapper " + r[i].idSpec.id + ": compilation failed: " + compiled.error);
        }
        r := r[i := r[i].(ast := Some(compiled.value))];
      }
      i := i + 1;
    }
    return r, None;
  }
}
