/**
 * Parsing, qualification and resolution of cross-domain references
 * (pkg/policydomain/validation/reference.go). A reference is either
 * `domain/id` or a bare `id` relative to the referring domain.
 */
module Reference {
  import opened Wrappers
  import opened Text
  import opened PolicyDomain
  import opened Collections

  /** `ParseReference`: the target domain and object id, or why the reference is malformed. */
  function ParseReference(reference: string, sourceDomain: string): (r: Result<(string, string), string>)
    ensures reference == "" ==> r == Err("empty reference")
    ensures reference != "" && '/' !in reference ==> r == Ok((sourceDomain, reference))
    ensures r.Ok? && '/' in reference ==>
      r.value.0 + "/" + r.value.1 == reference && r.value.0 != "" && r.value.1 != "" && '/' !in r.value.0
    ensures r.Err? && reference != "" ==>
      '/' in reference && r.error == "invalid qualified reference format '" + reference + "', expected 'domain/id'"
  {
    if reference == "" then Err("empty reference")
    else match IndexOf(reference, '/')
      case None => Ok((sourceDomain, reference))
      case Some(i) =>
        var domain := reference[..i];
        var id := reference[i + 1..];
        assert reference == domain + "/" + id;
        if domain == "" || id == "" then
          Err("invalid qualified reference format '" + reference + "', expected 'domain/id'")
        else Ok((domain, id))
  }

  /**
   * A qualified reference is malformed exactly when it starts with "/" or its
   * first "/" is its last character.
   */
  lemma ParseRejects(reference: string, sourceDomain: string)
    requires '/' in reference
    ensures ParseReference(reference, sourceDomain).Err? <==>
      reference[0] == '/' || IndexOf(reference, '/').value == |reference| - 1
  {
  }

  /** `QualifyReference`: a reference with a "/" is kept, a bare id is prefixed with the source domain. */
  function QualifyReference(reference: string, sourceDomain: string): (r: string)
    ensures '/' in r
    ensures '/' in reference ==> r == reference
  {
    if '/' in reference then reference
    else
      var r := sourceDomain + "/" + reference;
      assert r[|sourceDomain|] == '/';
      r
  }

  /** Qualifying twice, in any domain, is qualifying once. */
  lemma QualifyIdempotent(reference: string, d1: string, d2: string)
    ensures QualifyReference(QualifyReference(reference, d1), d2) == QualifyReference(reference, d1)
  {
  }

  /** The qualified form of a well-formed reference joins the parsed domain and id. */
  lemma QualifyMatchesParse(reference: string, sourceDomain: string)
    requires ParseReference(reference, sourceDomain).Ok?
    ensures QualifyReference(reference, sourceDomain) ==
      ParseReference(reference, sourceDomain).value.0 + "/" + ParseReference(reference, sourceDomain).value.1
  {
  }

  /** `matchesAnyOperation`: some selector of some operation matches the id. */
  predicate MatchesAnyOperation(objectID: string, model: Domain, matches: (string, string) -> bool)
  {
    exists i, j :: 0 <= i < |model.operations| && 0 <= j < |model.operations[i].selectors| &&
      matches(model.operations[i].selectors[j], objectID)
  }

  /** The object kinds a reference can name. */
  const ObjectTypes: set<string> := {"policy", "library", "role", "group", "resource-group", "scope", "operation"}

  /** `objectExistsInDomain`: looked up in the map of its kind; unknown kinds never exist. */
  predicate ObjectExists(objectID: string, objectType: string, model: Domain, matches: (string, string) -> bool)
  {
    if objectType == "policy" then objectID in model.policies
    else if objectType == "library" then objectID in model.libraries
    else if objectType == "role" then objectID in model.roles
    else if objectType == "group" then objectID in model.groups
    else if objectType == "resource-group" then objectID in model.resourceGroups
    else if objectType == "scope" then objectID in model.scopes
    else if objectType == "operation" then MatchesAnyOperation(objectID, model, matches)
    else false
  }

  /** An object of an unknown kind never exists. */
  lemma UnknownTypeNeverExists(objectID: string, objectType: string, model: Domain, matches: (string, string) -> bool)
    requires objectType !in ObjectTypes
    ensures !ObjectExists(objectID, objectType, model, matches)
  {
  }

  /** `ValidateReference`: None when the reference is empty or names an existing object of the type. */
  function ValidateReference(reference: string, sourceDomain: string, expectedType: string,
                             domains: Domains, matches: (string, string) -> bool): (err: Option<string>)
    ensures reference == "" ==> err.None?
    ensures err.None? && reference != "" ==>
      var p := ParseReference(reference, sourceDomain);
      p.Ok? && p.value.0 in domains && ObjectExists(p.value.1, expectedType, domains[p.value.0], matches)
  {
    if reference == "" then None
    else match ParseReference(reference, sourceDomain)
      case Err(e) => Some(e)
      case Ok((targetDomain, objectID)) =>
        if targetDomain !in domains then
          Some("domain '" + sourceDomain + "' contains undefined references to domain '" + targetDomain + "'")
        else if !ObjectExists(objectID, expectedType, domains[targetDomain], matches) then
          Some(expectedType + " reference '" + objectID + "' not found in domain '" + targetDomain + "'")
        else None
  }

  /** A successfully resolved reference: the target domain, its model and the object id. */
  datatype Resolved = Resolved(domain: string, model: Domain, objectID: string)

  /** `ResolveReference`. */
  function ResolveReference(reference: string, sourceDomain: string, expectedType: string,
                            domains: Domains, matches: (string, string) -> bool): (r: Result<Resolved, string>)
    ensures r.Ok? ==> r.value.domain in domains && r.value.model == domains[r.value.domain]
    ensures r.Ok? ==> ObjectExists(r.value.objectID, expectedType, r.value.model, matches)
    ensures r.Ok? ==> QualifyReference(reference, sourceDomain) == r.value.domain + "/" + r.value.objectID
  {
    match ParseReference(reference, sourceDomain)
    case Err(e) => Err(e)
    case Ok((targetDomain, objectID)) =>
      if targetDomain !in domains then Err("domain '" + targetDomain + "' not found")
      else if !ObjectExists(objectID, expectedType, domains[targetDomain], matches) then
        Err(expectedType + " reference '" + objectID + "' not found in domain '" + targetDomain + "'")
      else Ok(Resolved(targetDomain, domains[targetDomain], objectID))
  }

  /** For a non-empty reference, validation and resolution agree on success. */
  lemma ValidateAgreesWithResolve(reference: string, sourceDomain: string, expectedType: string,
                                  domains: Domains, matches: (string, string) -> bool)
    requires reference != ""
    ensures ValidateReference(reference, sourceDomain, expectedType, domains, matches).None? <==>
            ResolveReference(reference, sourceDomain, expectedType, domains, matches).Ok?
  {
  }

  /** The domains holding the object. */
  function Holders(objectID: string, objectType: string, domains: Domains, matches: (string, string) -> bool): set<string>
  {
    set d | d in domains && ObjectExists(objectID, objectType, domains[d], matches)
  }

  /** Go's `%v` rendering of a string slice. */
  function ListText(items: seq<string>): string
  {
    "[" + Join(items, " ") + "]"
  }

  function NotFoundMessage(objectType: string, objectID: string): string
  {
    objectType + " '" + objectID + "' not found in any domain"
  }

  function AmbiguousMessage(objectType: string, objectID: string, found: seq<string>): string
  {
    "ambiguous " + objectType + " '" + objectID + "' found in multiple domains: " + ListText(found)
  }

  /**
   * `FindObjectAcrossDomains`: visits every domain (in map order), collecting
   * those holding the object; succeeds only when exactly one does.
   */
  method FindObjectAcrossDomains(objectID: string, objectType: string, domains: Domains, matches: (string, string) -> bool)
    returns (r: Result<(string, Domain), string>)
    ensures r.Ok? <==> |Holders(objectID, objectType, domains, matches)| == 1
    ensures r.Ok? ==> Holders(objectID, objectType, domains, matches) == {r.value.0} && r.value.1 == domains[r.value.0]
    ensures |Holders(objectID, objectType, domains, matches)| == 0 ==> r == Err(NotFoundMessage(objectType, objectID))
    ensures |Holders(objectID, objectType, domains, matches)| > 1 ==>
      exists order :: IsOrderOf(order, Holders(objectID, objectType, domains, matches)) &&
        r == Err(AmbiguousMessage(objectType, objectID, order))
  {
    ghost var holders := Holders(objectID, objectType, domains, matches);
    var found: seq<string> := [];
    var pending := domains.Keys;
    while pending != {}
      invariant pending <= domains.Keys
      invariant NoDuplicates(found)
      invariant (set x | x in found) == holders - pending
      decreases pending
    {
      var name :| name in pending;
      if ObjectExists(objectID, objectType, domains[name], matches) {
        AppendNew(found, name);
        found := found + [name];
      }
      pending := pending - {name};
    }
    assert IsOrderOf(found, holders);
    OrderSize(found, holders);
    if |found| == 0 {
      return Err(NotFoundMessage(objectType, objectID));
    }
    if |found| > 1 {
      return Err(AmbiguousMessage(objectType, objectID, found));
    }
    SingleOrder(found, holders);
    return Ok((found[0], domains[found[0]]));
  }
}
