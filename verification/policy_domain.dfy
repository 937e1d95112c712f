/**
 * The in-memory form of a policy domain (pkg/policydomain/model.go), shared
 * by the parser, the validator, the registry and the local backend.
 * Compiled regular expressions are kept as their pattern text; matching is a
 * parameter `matches(pattern, input)` wherever the code matches. Compiled
 * Rego is an opaque handle.
 */
module PolicyDomain {
  import opened Wrappers
  import opened Json

  type Byte = x: int | 0 <= x < 256

  /** An opaque compiled Rego module. */
  datatype Ast = Ast(handle: nat)

  datatype IDSpec = IDSpec(id: string, fingerprint: seq<Byte>)

  datatype Annotation = Annotation(value: Value, mergeStrategy: string)

  datatype Policy = Policy(idSpec: IDSpec, dependencies: seq<string>, rego: string, ast: Option<Ast>)

  datatype PolicyReference = PolicyReference(idSpec: IDSpec, policy: string, isDefault: bool,
                                             annotations: map<string, Annotation>)

  datatype Group = Group(idSpec: IDSpec, roles: seq<string>, annotations: map<string, Annotation>)

  datatype Operation = Operation(idSpec: IDSpec, selectors: seq<string>, policy: string)

  datatype Mapper = Mapper(idSpec: IDSpec, selectors: seq<string>, rego: string, ast: Option<Ast>)

  datatype Resource = Resource(idSpec: IDSpec, selectors: seq<string>, group: string,
                               annotations: map<string, Annotation>)

  /** `IntermediateModel`: one domain after parsing. */
  datatype Domain = Domain(
    name: string,
    defaultMergeStrategy: string,
    libraries: map<string, Policy>,
    policies: map<string, Policy>,
    roles: map<string, PolicyReference>,
    groups: map<string, Group>,
    resourceGroups: map<string, PolicyReference>,
    scopes: map<string, PolicyReference>,
    operations: seq<Operation>,
    mappers: seq<Mapper>,
    resources: seq<Resource>)

  /** All domains by name (`DomainMap`). */
  type Domains = map<string, Domain>
}
