/**
 * The local backend's lookups (pkg/core/backend/local/core.go) over the
 * registry's domain map. Go map iteration picks keys in an unspecified order,
 * so each loop over the domains picks its next key with `:|` and the
 * contracts hold for every order.
 *
 * Selector matching is the parameter `matches(pattern, mrn)`; decoding an
 * annotation's JSON text is the parameter `unmarshal`.
 */
module LocalBackend {
  import opened Wrappers
  import opened Json
  import opened PolicyDomain
  import opened CoreModel
  import opened Events

  /** `model.Resource` as the backend returns it. */
  datatype ResourceModel = ResourceModel(id: string, group: string, annotations: Option<RichAnnotations>)

  /** `model.Mapper`: the compiled mapper and the domain it came from. */
  datatype MapperModel = MapperModel(domain: string, ast: Ast)

  // ---------------------------------------------------------------------
  // toRichAnnotations

  /** The message of an annotation whose value does not decode. */
  function BadAnnotation(key: string, err: string): PolicyError
  {
    PolicyError(InvalParamError, "bad annotation '" + key + "' (err-" + err + ")")
  }

  /** Every value decodes. */
  predicate AllDecode(input: map<string, Annotation>, unmarshal: Value -> Result<Value, string>)
  {
    forall k :: k in input ==> unmarshal(input[k].value).Ok?
  }

  /** The decoded entries, each keeping its merge strategy. */
  function Decoded(input: map<string, Annotation>, unmarshal: Value -> Result<Value, string>): (r: RichAnnotations)
    requires AllDecode(input, unmarshal)
    ensures r.Keys == input.Keys
  {
    map k | k in input :: AnnotationEntry(unmarshal(input[k].value).value, input[k].mergeStrategy)
  }

  /**
   * `toRichAnnotations`: nil stays nil; otherwise every key is kept with its
   * decoded value and its merge strategy, and a value that does not decode
   * fails the whole conversion with an INVALPARAM error naming its key.
   */
  method ToRichAnnotations(input: Option<map<string, Annotation>>, unmarshal: Value -> Result<Value, string>)
    returns (r: Result<Option<RichAnnotations>, PolicyError>)
    ensures input.None? ==> r == Ok(None)
    ensures input.Some? ==> (r.Ok? <==> AllDecode(input.value, unmarshal))
    ensures input.Some? && r.Ok? ==> r.value == Some(Decoded(input.value, unmarshal))
    ensures r.Err? ==>
      input.Some? &&
      exists k :: k in input.value && unmarshal(input.value[k].value).Err? &&
                  r.error == BadAnnotation(k, unmarshal(input.value[k].value).error)
  {
    if input.None? {
      return Ok(None);
    }
    var annotations := input.value;
    var output: RichAnnotations := map[];
    var pending := annotations.Keys;
    while pending != {}
      invariant pending <= annotations.Keys
      invariant output.Keys == annotations.Keys - pending
      invariant forall k :: k in output ==> unmarshal(annotations[k].value).Ok? &&
                                            output[k] == AnnotationEntry(unmarshal(annotations[k].value).value, annotations[k].mergeStrategy)
      decreases pending
    {
      var k :| k in pending;
      var x := unmarshal(annotations[k].value);
      if x.Err? {
        return Err(BadAnnotation(k, x.error));
      }
      output := output[k := AnnotationEntry(x.value, annotations[k].mergeStrategy)];
      pending := pending - {k};
    }
    assert output == Decoded(annotations, unmarshal);
    return Ok(Some(output));
  }

  // ---------------------------------------------------------------------
  // getPolicy

  /** Some domain holds a policy with this MRN. */
  predicate HoldsPolicy(domains: Domains, mrn: string)
  {
    exists d :: d in domains && mrn in domains[d].policies
  }

  /** The compiled form of a stored policy. */
  function CompiledOf(p: Policy): CompiledPolicy
    requires p.ast.Some?
  {
    CompiledPolicy(p.idSpec.id, p.idSpec.fingerprint, p.ast.value)
  }

  /**
   * `getPolicy`: the policy stored under the MRN in the first domain that has
   * one; NOTFOUND when no domain has it, COMPILATION_ERROR when the policy
   * found has no compiled Ast.
   */
  method GetPolicy(domains: Domains, mrn: string) returns (r: Result<CompiledPolicy, PolicyError>)
    ensures r.Ok? ==>
      exists d :: d in domains && mrn in domains[d].policies && domains[d].policies[mrn].ast.Some? &&
                  r.value == CompiledOf(domains[d].policies[mrn])
    ensures !HoldsPolicy(domains, mrn) <==> r == Err(PolicyError(NotFoundError, "policy not found"))
    ensures r.Err? && r.error.reasonCode == CompilationError ==>
      exists d :: d in domains && mrn in domains[d].policies && domains[d].policies[mrn].ast.None?
    ensures r.Err? ==> r.error.reasonCode in {NotFoundError, CompilationError}
    ensures (forall d :: d in domains && mrn in domains[d].policies ==> domains[d].policies[mrn].ast.Some?) ==>
      (r.Ok? <==> HoldsPolicy(domains, mrn))
  {
    var pending := domains.Keys;
    while pending != {}
      invariant pending <= domains.Keys
      invariant forall d :: d in domains && d !in pending ==> mrn !in domains[d].policies
      decreases pending
    {
      var d :| d in pending;
      if mrn in domains[d].policies {
        var policy := domains[d].policies[mrn];
        if policy.ast.None? {
          return Err(PolicyError(CompilationError, "policy " + mrn + " has no compiled AST"));
        }
        return Ok(CompiledOf(policy));
      }
      pending := pending - {d};
    }
    return Err(PolicyError(NotFoundError, "policy not found"));
  }

  // ---------------------------------------------------------------------
  // GetResource

  /** Resource `r` has a selector matching `mrn`. */
  predicate Selects(r: Resource, mrn: string, matches: (string, string) -> bool)
  {
    exists j :: 0 <= j < |r.selectors| && matches(r.selectors[j], mrn)
  }

  /** Some resource of some domain has a selector matching `mrn`. */
  predicate AnySelects(domains: Domains, mrn: string, matches: (string, string) -> bool)
  {
    exists d, i :: d in domains && 0 <= i < |domains[d].resources| && Selects(domains[d].resources[i], mrn, matches)
  }

  /** The first resource of `resources` with a selector matching `mrn`. */
  method FirstSelecting(resources: seq<Resource>, mrn: string, matches: (string, string) -> bool)
    returns (found: Option<nat>)
    ensures found.None? <==> forall i :: 0 <= i < |resources| ==> !Selects(resources[i], mrn, matches)
    ensures found.Some? ==> found.value < |resources| && Selects(resources[found.value], mrn, matches) &&
                            forall i :: 0 <= i < found.value ==> !Selects(resources[i], mrn, matches)
  {
    for i := 0 to |resources|
      invariant forall k :: 0 <= k < i ==> !Selects(resources[k], mrn, matches)
    {
      var selectors := resources[i].selectors;
      for j := 0 to |selectors|
        invariant forall k :: 0 <= k < j ==> !matches(selectors[k], mrn)
      {
        if matches(selectors[j], mrn) {
          return Some(i);
        }
      }
    }
    return None;
  }

  /** The default resource group `GetResource` takes from one domain: the first default in map order, if any. */
  method DefaultIn(groups: map<string, PolicyReference>) returns (found: Option<string>)
    ensures found.None? <==> forall k :: k in groups ==> !groups[k].isDefault
    ensures found.Some? ==> found.value in groups && groups[found.value].isDefault
  {
    var pending := groups.Keys;
    while pending != {}
      invariant pending <= groups.Keys
      invariant forall k :: k in groups && k !in pending ==> !groups[k].isDefault
      decreases pending
    {
      var k :| k in pending;
      if groups[k].isDefault {
        return Some(k);
      }
      pending := pending - {k};
    }
    return None;
  }

  /** A domain offers a default resource group under a non-empty MRN. */
  predicate HasNamedDefault(d: Domain)
  {
    exists k :: k in d.resourceGroups && k != "" && d.resourceGroups[k].isDefault
  }

  /** A default resource group filed under the empty MRN. */
  predicate HasUnnamedDefault(d: Domain)
  {
    "" in d.resourceGroups && d.resourceGroups[""].isDefault
  }

  /**
   * The outcome for a matched resource: its group and decoded annotations
   * when every annotation decodes, otherwise an UNKNOWN error carrying the
   * decoding error of an annotation that does not.
   */
  ghost predicate MatchedResult(resource: Resource, mrn: string, unmarshal: Value -> Result<Value, string>,
                                r: Result<ResourceModel, PolicyError>)
  {
    (r.Ok? <==> AllDecode(resource.annotations, unmarshal)) &&
    (r.Ok? ==> r.value == ResourceModel(mrn, resource.group, Some(Decoded(resource.annotations, unmarshal)))) &&
    (r.Err? ==> exists k :: k in resource.annotations && unmarshal(resource.annotations[k].value).Err? &&
                            r.error == PolicyError(UnknownError, BadAnnotation(k, unmarshal(resource.annotations[k].value).error).Text()))
  }

  /**
   * `GetResource`: the group of the first resource whose selector matches,
   * with the requested MRN as its ID; failing that, the first default resource
   * group found; NOTFOUND when there is none.
   *
   * A default group filed under the empty MRN reads as "none found", so it is
   * skipped; and since only the first default of each domain is looked at, it
   * can hide a named default of the same domain.
   */
  method GetResource(domains: Domains, mrn: string, matches: (string, string) -> bool,
                     unmarshal: Value -> Result<Value, string>)
    returns (r: Result<ResourceModel, PolicyError>)
    ensures r.Ok? ==> r.value.id == mrn
    ensures AnySelects(domains, mrn, matches) ==>
      (r.Ok? ==> exists d, i :: d in domains && 0 <= i < |domains[d].resources| &&
                                Selects(domains[d].resources[i], mrn, matches) &&
                                r.value.group == domains[d].resources[i].group) &&
      (r.Err? ==> r.error.reasonCode == UnknownError)
    ensures !AnySelects(domains, mrn, matches) ==>
      (r.Ok? ==> r.value.annotations.None? &&
                 exists d :: d in domains && r.value.group in domains[d].resourceGroups &&
                             r.value.group != "" && domains[d].resourceGroups[r.value.group].isDefault) &&
      (r.Err? ==> r.error == PolicyError(NotFoundError, "no matching resource and no default resource group found") &&
                  forall d :: d in domains && HasNamedDefault(domains[d]) ==> HasUnnamedDefault(domains[d]))
    ensures (forall d :: d in domains ==> !HasNamedDefault(domains[d])) ==>
      !AnySelects(domains, mrn, matches) ==> r.Err?
    // The matched resource: the first selecting one of some domain, whose
    // annotations are the result's, and whose failure to decode is the only error.
    ensures AnySelects(domains, mrn, matches) ==>
      exists d, i :: d in domains && 0 <= i < |domains[d].resources| &&
        Selects(domains[d].resources[i], mrn, matches) &&
        (forall j :: 0 <= j < i ==> !Selects(domains[d].resources[j], mrn, matches)) &&
        MatchedResult(domains[d].resources[i], mrn, unmarshal, r)
  {
    var pending := domains.Keys;
    while pending != {}
      invariant pending <= domains.Keys
      invariant forall d, i :: d in domains && d !in pending && 0 <= i < |domains[d].resources| ==>
                                 !Selects(domains[d].resources[i], mrn, matches)
      decreases pending
    {
      var d :| d in pending;
      var found := FirstSelecting(domains[d].resources, mrn, matches);
      if found.Some? {
        var resource := domains[d].resources[found.value];
        var rich := ToRichAnnotations(Some(resource.annotations), unmarshal);
        if rich.Err? {
          return Err(PolicyError(UnknownError, rich.error.Text()));
        }
        return Ok(ResourceModel(mrn, resource.group, rich.value));
      }
      pending := pending - {d};
    }

    var defaultResourceGroup := "";
    pending := domains.Keys;
    while pending != {}
      invariant pending <= domains.Keys
      invariant forall d :: d in domains && d !in pending && HasNamedDefault(domains[d]) ==> HasUnnamedDefault(domains[d])
      decreases pending
    {
      var d :| d in pending;
      var found := DefaultIn(domains[d].resourceGroups);
      if found.Some? {
        defaultResourceGroup := found.value;
        if defaultResourceGroup != "" {
          return Ok(ResourceModel(mrn, defaultResourceGroup, None));
        }
      }
      pending := pending - {d};
    }
    return Err(PolicyError(NotFoundError, "no matching resource and no default resource group found"));
  }

  // ---------------------------------------------------------------------
  // GetMapper

  /** `exportMapper`: a mapper without a compiled Ast is a COMPILATION_ERROR. */
  function ExportMapper(domainName: string, mapper: Mapper): (r: Result<MapperModel, PolicyError>)
    ensures r.Ok? <==> mapper.ast.Some?
    ensures r.Ok? ==> r.value == MapperModel(domainName, mapper.ast.value)
    ensures r.Err? ==> r.error.reasonCode == CompilationError
  {
    if mapper.ast.None? then
      Err(PolicyError(CompilationError, "mapper " + mapper.idSpec.id + " has no compiled AST"))
    else
      Ok(MapperModel(domainName, mapper.ast.value))
  }

  /** No domain among `ks` has a mapper. */
  predicate NoMappersIn(domains: Domains, ks: set<string>)
  {
    forall d :: d in ks && d in domains ==> |domains[d].mappers| == 0
  }

  /** Domain `d` holds the only mapper of the domains among `ks`. */
  predicate SoleMapperAmong(domains: Domains, ks: set<string>, d: string)
  {
    d in ks && d in domains && |domains[d].mappers| == 1 &&
    forall e :: e in ks && e in domains && e != d ==> |domains[e].mappers| == 0
  }

  /** The domains among `ks` hold at least two mappers together. */
  predicate SeveralMappersIn(domains: Domains, ks: set<string>)
  {
    (exists d :: d in ks && d in domains && |domains[d].mappers| >= 2) ||
    (exists d, e :: d in ks && d in domains && e in ks && e in domains && d != e &&
                    |domains[d].mappers| >= 1 && |domains[e].mappers| >= 1)
  }

  predicate NoMappers(domains: Domains)
  {
    NoMappersIn(domains, domains.Keys)
  }

  predicate SoleMapperIn(domains: Domains, d: string)
  {
    SoleMapperAmong(domains, domains.Keys, d)
  }

  predicate SeveralMappers(domains: Domains)
  {
    SeveralMappersIn(domains, domains.Keys)
  }

  /**
   * The counting loop of `GetMapper` without a domain name: the total number
   * of mappers, and the domain whose first mapper is kept (the first domain
   * in map order that has one).
   */
  method ScanMappers(domains: Domains) returns (found: Option<string>, mapperCount: nat)
    ensures found.None? <==> NoMappers(domains)
    ensures found.None? <==> mapperCount == 0
    ensures found.Some? ==> found.value in domains && |domains[found.value].mappers| > 0
    ensures mapperCount == 1 ==> found.Some? && SoleMapperIn(domains, found.value)
    ensures mapperCount >= 2 <==> SeveralMappers(domains)
  {
    found := None;
    mapperCount := 0;
    var pending := domains.Keys;
    while pending != {}
      invariant pending <= domains.Keys
      invariant found.None? <==> NoMappersIn(domains, domains.Keys - pending)
      invariant found.None? <==> mapperCount == 0
      invariant found.Some? ==> found.value in domains.Keys - pending && |domains[found.value].mappers| > 0
      invariant mapperCount == 1 ==> SoleMapperAmong(domains, domains.Keys - pending, found.value)
      invariant mapperCount >= 2 <==> SeveralMappersIn(domains, domains.Keys - pending)
      decreases pending
    {
      var d :| d in pending;
      ghost var visited := domains.Keys - pending;
      assert domains.Keys - (pending - {d}) == visited + {d};
      var n := |domains[d].mappers|;
      if n > 0 {
        mapperCount := mapperCount + n;
        if found.None? {
          found := Some(d);
        }
      }
      pending := pending - {d};
    }
  }

  /**
   * `GetMapper`: with a domain name, that domain's single mapper (NOTFOUND for
   * a missing domain or no mapper, UNKNOWN for more than one); without one,
   * the single mapper across all domains (NOTFOUND when there is none,
   * UNKNOWN when there are several).
   */
  method GetMapper(domains: Domains, domainName: string) returns (r: Result<MapperModel, PolicyError>)
    ensures domainName != "" && domainName !in domains ==>
      r == Err(PolicyError(NotFoundError, "domain '" + domainName + "' not found"))
    ensures domainName != "" && domainName in domains && |domains[domainName].mappers| == 0 ==>
      r == Err(PolicyError(NotFoundError, "no mappers found in domain '" + domainName + "'"))
    ensures domainName != "" && domainName in domains && |domains[domainName].mappers| > 1 ==>
      r == Err(PolicyError(UnknownError, "multiple mappers found in domain '" + domainName + "', this is not supported"))
    ensures domainName != "" && domainName in domains && |domains[domainName].mappers| == 1 ==>
      r == ExportMapper(domainName, domains[domainName].mappers[0])
    ensures domainName == "" && NoMappers(domains) ==>
      r == Err(PolicyError(NotFoundError, "no mappers found in any domain"))
    ensures domainName == "" && SeveralMappers(domains) ==>
      r == Err(PolicyError(UnknownError, "multiple mappers found across domains, please specify a domain name using --name/-n"))
    ensures domainName == "" ==>
      forall d :: d in domains && |domains[d].mappers| == 1 && SoleMapperIn(domains, d) ==>
        r == ExportMapper(d, domains[d].mappers[0])
  {
    if domainName != "" {
      if domainName !in domains {
        return Err(PolicyError(NotFoundError, "domain '" + domainName + "' not found"));
      }
      var domainModel := domains[domainName];
      if |domainModel.mappers| == 0 {
        return Err(PolicyError(NotFoundError, "no mappers found in domain '" + domainName + "'"));
      }
      if |domainModel.mappers| > 1 {
        return Err(PolicyError(UnknownError, "multiple mappers found in domain '" + domainName + "', this is not supported"));
      }
      return ExportMapper(domainName, domainModel.mappers[0]);
    }

    var foundDomain, mapperCount := ScanMappers(domains);
    if foundDomain.None? {
      return Err(PolicyError(NotFoundError, "no mappers found in any domain"));
    }
    if mapperCount > 1 {
      return Err(PolicyError(UnknownError, "multiple mappers found across domains, please specify a domain name using --name/-n"));
    }
    return ExportMapper(foundDomain.value, domains[foundDomain.value].mappers[0]);
  }
}
