/**
 * The v1alpha4 policy-domain parser (pkg/policydomain/parsers/v1alpha4/parse.go):
 * the decoded YAML document is exported into the in-memory domain. Maps are
 * keyed by Mrn (or annotation name) and the last definition with a key wins;
 * selectors are anchored and compiled, and the first selector that does not
 * compile fails the whole load.
 *
 * Reading the file and decoding the YAML are I/O: `Load` receives their
 * outcome. SHA-256 is the parameter `hash`; compiling a regular expression is
 * the parameter `compileError`, which gives the compiler's message for a
 * pattern it rejects.
 */
module ParseV1alpha4 {
  import opened Wrappers
  import opened Json
  import opened Text
  import opened PolicyDomain
  import opened Collections

  datatype PolicyDefinition = PolicyDefinition(mrn: string, name: string, description: string, rego: string,
                                               dependencies: seq<string>)

  datatype AnnotationDef = AnnotationDef(name: string, value: string, merge: string)

  datatype ReferenceDef = ReferenceDef(mrn: string, name: string, description: string, isDefault: bool,
                                       policy: string, annotations: seq<AnnotationDef>)

  datatype GroupDef = GroupDef(mrn: string, name: string, description: string, roles: seq<string>,
                               annotations: seq<AnnotationDef>)

  datatype OperationDef = OperationDef(name: string, selector: seq<string>, policy: string)

  datatype MapperDef = MapperDef(name: string, selector: seq<string>, rego: string)

  datatype ResourceDef = ResourceDef(name: string, description: string, selector: seq<string>, group: string,
                                     annotations: seq<AnnotationDef>)

  /** The decoded v1alpha4 document (its metadata name and its spec). */
  datatype Document = Document(
    name: string,
    defaultMerge: string,
    libraries: seq<PolicyDefinition>,
    policies: seq<PolicyDefinition>,
    roles: seq<ReferenceDef>,
    groups: seq<GroupDef>,
    resourceGroups: seq<ReferenceDef>,
    scopes: seq<ReferenceDef>,
    operations: seq<OperationDef>,
    mappers: seq<MapperDef>,
    resources: seq<ResourceDef>)

  // ---------------------------------------------------------------------
  // Anchoring

  /** `anchorPattern`: adds "^" unless the pattern starts with it and "$" unless it ends with it. */
  function AnchorPattern(pattern: string): string
  {
    var withStart := if HasPrefix(pattern, "^") then pattern else "^" + pattern;
    if HasSuffix(pattern, "$") then withStart else withStart + "$"
  }

  /** An anchored pattern starts with "^" and ends with "$"; a pattern that already does is kept as it is. */
  lemma AnchorMeaning(pattern: string)
    ensures HasPrefix(AnchorPattern(pattern), "^") && HasSuffix(AnchorPattern(pattern), "$")
    ensures HasPrefix(pattern, "^") && HasSuffix(pattern, "$") ==> AnchorPattern(pattern) == pattern
  {
    var r := AnchorPattern(pattern);
    StartsWithChar(pattern, '^');
    EndsWithChar(pattern, '$');
    StartsWithChar(r, '^');
    EndsWithChar(r, '$');
    var withStart := if HasPrefix(pattern, "^") then pattern else "^" + pattern;
    assert |withStart| > 0 && withStart[0] == '^';
    assert HasSuffix(pattern, "$") ==> withStart[|withStart| - 1] == '$';
    assert r == if HasSuffix(pattern, "$") then withStart else withStart + "$";
    assert r[0] == withStart[0];
    assert r[|r| - 1] == '$';
  }

  /** Anchoring an anchored pattern changes nothing, so nothing is ever anchored twice. */
  lemma AnchorIdempotent(pattern: string)
    ensures AnchorPattern(AnchorPattern(pattern)) == AnchorPattern(pattern)
  {
    AnchorMeaning(pattern);
    AnchorMeaning(AnchorPattern(pattern));
  }

  /** Anchoring only adds the missing anchors around the pattern. */
  lemma AnchorAddsOnlyAnchors(pattern: string)
    ensures exists pre, post ::
      AnchorPattern(pattern) == pre + pattern + post && (pre == "" || pre == "^") && (post == "" || post == "$")
  {
    var pre := if HasPrefix(pattern, "^") then "" else "^";
    var post := if HasSuffix(pattern, "$") then "" else "$";
    assert AnchorPattern(pattern) == pre + pattern + post;
  }

  // ---------------------------------------------------------------------
  // Keyed exports: the last definition with a key wins

  /** The loop of `exportDefinitions`, `exportReferences`, `exportGroups` and the annotation loops. */
  method ExportKeyed<T, V>(items: seq<T>, key: T -> string, convert: T -> V) returns (m: map<string, V>)
    ensures m == Keyed(items, key, convert)
  {
    m := map[];
    var i := 0;
    while i < |items|
      invariant 0 <= i <= |items|
      invariant m == Keyed(items[..i], key, convert)
    {
      assert items[..i + 1][..i] == items[..i];
      m := m[key(items[i]) := convert(items[i])];
      i := i + 1;
    }
    assert items[..i] == items;
  }

  function ExportAnnotation(a: AnnotationDef): Annotation
  {
    Annotation(Str(a.value), a.merge)
  }

  function AnnotationName(a: AnnotationDef): string
  {
    a.name
  }

  /** An annotation is stored under its name with its text as value and its Merge as strategy. */
  lemma AnnotationKeptByName(anns: seq<AnnotationDef>, i: nat)
    requires i < |anns|
    requires forall j :: i < j < |anns| ==> anns[j].name != anns[i].name
    ensures anns[i].name in Keyed(anns, AnnotationName, ExportAnnotation)
    ensures Keyed(anns, AnnotationName, ExportAnnotation)[anns[i].name] ==
      Annotation(Str(anns[i].value), anns[i].merge)
  {
    KeyedLastWins(anns, AnnotationName, ExportAnnotation, i);
  }

  /** `exportDefinition`: the fingerprint is the hash of the Rego text; there is no compiled Ast yet. */
  function ExportDefinition(def: PolicyDefinition, hash: string -> seq<Byte>): Policy
  {
    Policy(IDSpec(def.mrn, hash(def.rego)), def.dependencies, def.rego, None)
  }

  function DefinitionMrn(def: PolicyDefinition): string
  {
    def.mrn
  }

  method ExportDefinitions(defs: seq<PolicyDefinition>, hash: string -> seq<Byte>) returns (m: map<string, Policy>)
    ensures m == Keyed(defs, DefinitionMrn, d => ExportDefinition(d, hash))
  {
    m := ExportKeyed(defs, DefinitionMrn, d => ExportDefinition(d, hash));
  }

  /** `exportReference`: the annotations keyed by name, no fingerprint. */
  method ExportReference(def: ReferenceDef) returns (r: PolicyReference)
    ensures r == ReferenceOf(def)
  {
    var annotations := ExportKeyed(def.annotations, AnnotationName, ExportAnnotation);
    r := PolicyReference(IDSpec(def.mrn, []), def.policy, def.isDefault, annotations);
  }

  function ReferenceOf(def: ReferenceDef): PolicyReference
  {
    PolicyReference(IDSpec(def.mrn, []), def.policy, def.isDefault,
                    Keyed(def.annotations, AnnotationName, ExportAnnotation))
  }

  function ReferenceMrn(def: ReferenceDef): string
  {
    def.mrn
  }

  method ExportReferences(defs: seq<ReferenceDef>) returns (m: map<string, PolicyReference>)
    ensures m == Keyed(defs, ReferenceMrn, ReferenceOf)
  {
    m := ExportKeyed(defs, ReferenceMrn, ReferenceOf);
  }

  function GroupOf(def: GroupDef): Group
  {
    Group(IDSpec(def.mrn, []), def.roles, Keyed(def.annotations, AnnotationName, ExportAnnotation))
  }

  /** `exportGroup`: the roles as given, the annotations keyed by name. */
  method ExportGroup(def: GroupDef) returns (g: Group)
    ensures g == GroupOf(def)
  {
    var annotations := ExportKeyed(def.annotations, AnnotationName, ExportAnnotation);
    g := Group(IDSpec(def.mrn, []), def.roles, annotations);
  }

  function GroupMrn(def: GroupDef): string
  {
    def.mrn
  }

  method ExportGroups(defs: seq<GroupDef>) returns (m: map<string, Group>)
    ensures m == Keyed(defs, GroupMrn, GroupOf)
  {
    m := ExportKeyed(defs, GroupMrn, GroupOf);
  }

  /** Two definitions with the same Mrn: the later one is the one exported. */
  lemma LaterDefinitionWins(defs: seq<PolicyDefinition>, hash: string -> seq<Byte>, i: nat)
    requires i < |defs|
    requires forall j :: i < j < |defs| ==> defs[j].mrn != defs[i].mrn
    ensures defs[i].mrn in Keyed(defs, DefinitionMrn, d => ExportDefinition(d, hash))
    ensures Keyed(defs, DefinitionMrn, d => ExportDefinition(d, hash))[defs[i].mrn] == ExportDefinition(defs[i], hash)
  {
    KeyedLastWins(defs, DefinitionMrn, d => ExportDefinition(d, hash), i);
  }

  // ---------------------------------------------------------------------
  // Exports that stop at the first failure

  /** Each item exported in turn; the first failure is the result. */
  function ExportAll<T, V>(items: seq<T>, convert: T -> Result<V, string>): Result<seq<V>, string>
    decreases |items|
  {
    if items == [] then Ok([])
    else
      var init := ExportAll(items[..|items| - 1], convert);
      if init.Err? then init
      else
        var last := convert(items[|items| - 1]);
        if last.Err? then Err(last.error) else Ok(init.value + [last.value])
  }

  /** The export succeeds exactly when every item does, and then holds every item's export in order. */
  lemma {:induction false} ExportAllOk<T, V>(items: seq<T>, convert: T -> Result<V, string>)
    ensures ExportAll(items, convert).Ok? <==> forall i :: 0 <= i < |items| ==> convert(items[i]).Ok?
    ensures ExportAll(items, convert).Ok? ==>
      |ExportAll(items, convert).value| == |items| &&
      forall i :: 0 <= i < |items| ==> ExportAll(items, convert).value[i] == convert(items[i]).value
    decreases |items|
  {
    if items != [] {
      var init := items[..|items| - 1];
      ExportAllOk(init, convert);
      assert forall i :: 0 <= i < |init| ==> init[i] == items[i];
      if ExportAll(init, convert).Err? {
        var i :| 0 <= i < |init| && convert(init[i]).Err?;
        assert convert(items[i]).Err?;
      }
    }
  }

  /** A failed export reports the failure of the first item that fails. */
  lemma {:induction false} ExportAllFirstError<T, V>(items: seq<T>, convert: T -> Result<V, string>)
    requires ExportAll(items, convert).Err?
    ensures exists i ::
      && 0 <= i < |items|
      && convert(items[i]) == Err(ExportAll(items, convert).error)
      && forall j :: 0 <= j < i ==> convert(items[j]).Ok?
    decreases |items|
  {
    var init := items[..|items| - 1];
    assert forall i :: 0 <= i < |init| ==> init[i] == items[i];
    if ExportAll(init, convert).Err? {
      ExportAllFirstError(init, convert);
    } else {
      ExportAllOk(init, convert);
      assert convert(items[|items| - 1]) == Err(ExportAll(items, convert).error);
    }
  }

  /** A failure in a prefix is the failure of the whole. */
  lemma {:induction false} ExportAllErrPersists<T, V>(items: seq<T>, n: nat, convert: T -> Result<V, string>)
    requires n <= |items| && ExportAll(items[..n], convert).Err?
    ensures ExportAll(items, convert) == ExportAll(items[..n], convert)
    decreases |items|
  {
    if n < |items| {
      var init := items[..|items| - 1];
      assert init[..n] == items[..n];
      ExportAllErrPersists(init, n, convert);
    } else {
      assert items[..n] == items;
    }
  }

  /** The export loops of `exportOperation*`, `exportMapper*` and `exportResource*`: stop at the first error. */
  method ExportEach<T, V>(items: seq<T>, convert: T -> Result<V, string>) returns (r: Result<seq<V>, string>)
    ensures r == ExportAll(items, convert)
  {
    var out: seq<V> := [];
    var i := 0;
    while i < |items|
      invariant 0 <= i <= |items|
      invariant ExportAll(items[..i], convert) == Ok(out)
    {
      assert items[..i + 1][..i] == items[..i];
      var v := convert(items[i]);
      if v.Err? {
        assert ExportAll(items[..i + 1], convert) == Err(v.error);
        ExportAllErrPersists(items, i + 1, convert);
        return Err(v.error);
      }
      out := out + [v.value];
      i := i + 1;
    }
    assert items[..i] == items;
    return Ok(out);
  }

  /** One selector: anchored, then compiled. */
  function CompileSelector(pattern: string, compileError: string -> Option<string>): Result<string, string>
  {
    var anchored := AnchorPattern(pattern);
    if compileError(anchored).Some? then Err(compileError(anchored).value) else Ok(anchored)
  }

  function OperationOf(def: OperationDef, compileError: string -> Option<string>): Result<Operation, string>
  {
    var selectors := ExportAll(def.selector, p => CompileSelector(p, compileError));
    if selectors.Err? then Err(selectors.error)
    else Ok(Operation(IDSpec(def.name, []), selectors.value, def.policy))
  }

  /** `exportOperation`: the operation is keyed by its name; a selector that does not compile is its error. */
  method ExportOperation(def: OperationDef, compileError: string -> Option<string>) returns (r: Result<Operation, string>)
    ensures r == OperationOf(def, compileError)
  {
    var selectors := ExportEach(def.selector, p => CompileSelector(p, compileError));
    if selectors.Err? {
      return Err(selectors.error);
    }
    return Ok(Operation(IDSpec(def.name, []), selectors.value, def.policy));
  }

  method ExportOperations(defs: seq<OperationDef>, compileError: string -> Option<string>)
    returns (r: Result<seq<Operation>, string>)
    ensures r == ExportAll(defs, d => OperationOf(d, compileError))
  {
    r := ExportEach(defs, d => OperationOf(d, compileError));
  }

  function MapperOf(def: MapperDef, hash: string -> seq<Byte>, compileError: string -> Option<string>)
    : Result<Mapper, string>
  {
    var selectors := ExportAll(def.selector, p => CompileSelector(p, compileError));
    if selectors.Err? then Err(selectors.error)
    else Ok(Mapper(IDSpec(def.name, hash(def.rego)), selectors.value, def.rego, None))
  }

  /** `exportMapper`: selectors as for operations; the fingerprint is the hash of the Rego text. */
  method ExportMapper(def: MapperDef, hash: string -> seq<Byte>, compileError: string -> Option<string>)
    returns (r: Result<Mapper, string>)
    ensures r == MapperOf(def, hash, compileError)
  {
    var selectors := ExportEach(def.selector, p => CompileSelector(p, compileError));
    if selectors.Err? {
      return Err(selectors.error);
    }
    return Ok(Mapper(IDSpec(def.name, hash(def.rego)), selectors.value, def.rego, None));
  }

  method ExportMappers(defs: seq<MapperDef>, hash: string -> seq<Byte>, compileError: string -> Option<string>)
    returns (r: Result<seq<Mapper>, string>)
    ensures r == ExportAll(defs, d => MapperOf(d, hash, compileError))
  {
    r := ExportEach(defs, d => MapperOf(d, hash, compileError));
  }

  function ResourceOf(def: ResourceDef, compileError: string -> Option<string>): Result<Resource, string>
  {
    var selectors := ExportAll(def.selector, p => CompileSelector(p, compileError));
    if selectors.Err? then Err(selectors.error)
    else Ok(Resource(IDSpec(def.name, []), selectors.value, def.group,
                     Keyed(def.annotations, AnnotationName, ExportAnnotation)))
  }

  /** `exportResource`: selectors as for operations, then the annotations keyed by name. */
  method ExportResource(def: ResourceDef, compileError: string -> Option<string>) returns (r: Result<Resource, string>)
    ensures r == ResourceOf(def, compileError)
  {
    var selectors := ExportEach(def.selector, p => CompileSelector(p, compileError));
    if selectors.Err? {
      return Err(selectors.error);
    }
    var annotations := ExportKeyed(def.annotations, AnnotationName, ExportAnnotation);
    return Ok(Resource(IDSpec(def.name, []), selectors.value, def.group, annotations));
  }

  method ExportResources(defs: seq<ResourceDef>, compileError: string -> Option<string>)
    returns (r: Result<seq<Resource>, string>)
    ensures r == ExportAll(defs, d => ResourceOf(d, compileError))
  {
    r := ExportEach(defs, d => ResourceOf(d, compileError));
  }

  /** The selectors of an operation compile exactly when each anchored pattern does; they are stored anchored. */
  lemma OperationSelectors(def: OperationDef, compileError: string -> Option<string>)
    ensures OperationOf(def, compileError).Ok? <==>
      forall i :: 0 <= i < |def.selector| ==> compileError(AnchorPattern(def.selector[i])).None?
    ensures OperationOf(def, compileError).Ok? ==>
      var sel := OperationOf(def, compileError).value.selectors;
      |sel| == |def.selector| && forall i :: 0 <= i < |sel| ==> sel[i] == AnchorPattern(def.selector[i])
  {
    ExportAllOk(def.selector, p => CompileSelector(p, compileError));
  }

  /** One selector that does not compile, in any operation, fails the whole export. */
  lemma BadSelectorFailsOperations(defs: seq<OperationDef>, compileError: string -> Option<string>, i: nat, k: nat)
    requires i < |defs| && k < |defs[i].selector|
    requires compileError(AnchorPattern(defs[i].selector[k])).Some?
    ensures ExportAll(defs, d => OperationOf(d, compileError)).Err?
  {
    OperationSelectors(defs[i], compileError);
    ExportAllOk(defs, d => OperationOf(d, compileError));
  }

  // ---------------------------------------------------------------------
  // Load

  function DomainOf(doc: Document, hash: string -> seq<Byte>, operations: seq<Operation>, mappers: seq<Mapper>,
                    resources: seq<Resource>): Domain
  {
    Domain(doc.name, doc.defaultMerge,
           Keyed(doc.libraries, DefinitionMrn, d => ExportDefinition(d, hash)),
           Keyed(doc.policies, DefinitionMrn, d => ExportDefinition(d, hash)),
           Keyed(doc.roles, ReferenceMrn, ReferenceOf),
           Keyed(doc.groups, GroupMrn, GroupOf),
           Keyed(doc.resourceGroups, ReferenceMrn, ReferenceOf),
           Keyed(doc.scopes, ReferenceMrn, ReferenceOf),
           operations, mappers, resources)
  }

  /**
   * `Load`: a read or decode failure is returned as is; then operations,
   * mappers and resources are exported in that order, the first failure
   * being the result; otherwise the keyed maps are assembled.
   */
  method Load(decoded: Result<Document, string>, hash: string -> seq<Byte>, compileError: string -> Option<string>)
    returns (r: Result<Domain, string>)
    ensures decoded.Err? ==> r == Err(decoded.error)
    ensures decoded.Ok? ==>
      var doc := decoded.value;
      var ops := ExportAll(doc.operations, d => OperationOf(d, compileError));
      var mappers := ExportAll(doc.mappers, d => MapperOf(d, hash, compileError));
      var resources := ExportAll(doc.resources, d => ResourceOf(d, compileError));
      r == (if ops.Err? then Err(ops.error)
            else if mappers.Err? then Err(mappers.error)
            else if resources.Err? then Err(resources.error)
            else Ok(DomainOf(doc, hash, ops.value, mappers.value, resources.value)))
  {
    if decoded.Err? {
      return Err(decoded.error);
    }
    var doc := decoded.value;
    var operations := ExportOperations(doc.operations, compileError);
    if operations.Err? {
      return Err(operations.error);
    }
    var mappers := ExportMappers(doc.mappers, hash, compileError);
    if mappers.Err? {
      return Err(mappers.error);
    }
    var resources := ExportResources(doc.resources, compileError);
    if resources.Err? {
      return Err(resources.error);
    }
    var libraries := ExportDefinitions(doc.libraries, hash);
    var policies := ExportDefinitions(doc.policies, hash);
    var roles := ExportReferences(doc.roles);
    var groups := ExportGroups(doc.groups);
    var resourceGroups := ExportReferences(doc.resourceGroups);
    var scopes := ExportReferences(doc.scopes);
    return Ok(Domain(doc.name, doc.defaultMerge, libraries, policies, roles, groups, resourceGroups, scopes,
                     operations.value, mappers.value, resources.value));
  }

  /** A loaded domain holds every policy Mrn of the document, and every stored selector is anchored. */
  lemma LoadedDomainFacts(doc: Document, hash: string -> seq<Byte>, compileError: string -> Option<string>)
    requires ExportAll(doc.operations, d => OperationOf(d, compileError)).Ok?
    ensures var ops := ExportAll(doc.operations, d => OperationOf(d, compileError)).value;
      forall i, k :: 0 <= i < |ops| && 0 <= k < |ops[i].selectors| ==>
        HasPrefix(ops[i].selectors[k], "^") && HasSuffix(ops[i].selectors[k], "$")
    ensures Keyed(doc.policies, DefinitionMrn, d => ExportDefinition(d, hash)).Keys ==
      set i | 0 <= i < |doc.policies| :: doc.policies[i].mrn
  {
    ExportAllOk(doc.operations, d => OperationOf(d, compileError));
    var ops := ExportAll(doc.operations, d => OperationOf(d, compileError)).value;
    forall i | 0 <= i < |ops|
      ensures forall k :: 0 <= k < |ops[i].selectors| ==>
        HasPrefix(ops[i].selectors[k], "^") && HasSuffix(ops[i].selectors[k], "$")
    {
      OperationSelectors(doc.operations[i], compileError);
      forall k | 0 <= k < |ops[i].selectors|
        ensures HasPrefix(ops[i].selectors[k], "^") && HasSuffix(ops[i].selectors[k], "$")
      {
        AnchorMeaning(doc.operations[i].selector[k]);
      }
    }
    KeyedKeys(doc.policies, DefinitionMrn, d => ExportDefinition(d, hash));
  }
}
