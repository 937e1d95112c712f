/**
 * Transitive resolution of library dependencies with cycle detection
 * (pkg/policydomain/validation/dependency.go). The `visited` map, shared by
 * every level of the recursion and restored on the way back, is an object.
 */
module Dependency {
  import opened Wrappers
  import opened Text
  import opened PolicyDomain
  import opened Reference
  import opened Collections

  /** The Go `map[string]bool` of references on the current resolution path. */
  class Visited {
    var members: set<string>

    constructor ()
      ensures members == {}
    {
      members := {};
    }
  }

  /** Every qualified library name of the domains. */
  ghost function Universe(domains: Domains): set<string>
  {
    set d, id | d in domains && id in domains[d].libraries :: d + "/" + id
  }

  /** `findCycleStart`: the first position of `q` on the path, or -1. */
  function FindCycleStart(q: string, path: seq<string>): (i: int)
    ensures -1 <= i < |path|
    ensures i >= 0 ==> path[i] == q && q !in path[..i]
    ensures i == -1 ==> q !in path
  {
    if q in path then FirstIndex(path, q) else -1
  }

  /** The path reported for a cycle closed by `q`. */
  function CyclePath(q: string, path: seq<string>): seq<string>
  {
    var start := FindCycleStart(q, path);
    if start >= 0 then path[start..] + [q] else path + [q]
  }

  function CycleMessage(q: string, path: seq<string>): string
  {
    "circular dependency detected: " + Join(CyclePath(q, path), " → ")
  }

  /** `checkForCycle`: an error exactly when `q` is already on the path being resolved. */
  function CheckForCycle(q: string, visited: set<string>, path: seq<string>): (err: Option<string>)
    ensures err.None? <==> q !in visited
  {
    if q !in visited then None else Some(CycleMessage(q, path))
  }

  /** A cycle closed by a reference on the path starts and ends with that reference. */
  lemma CyclePathCloses(q: string, path: seq<string>)
    requires q in path
    ensures |CyclePath(q, path)| >= 2
    ensures CyclePath(q, path)[0] == q && CyclePath(q, path)[|CyclePath(q, path)| - 1] == q
    ensures forall x :: x in CyclePath(q, path) ==> x in path
  {
  }

  /** `qualifyDependency` applied to each transitive dependency, in order. */
  function QualifyAll(deps: seq<string>, targetDomain: string): (r: seq<string>)
    ensures |r| == |deps|
    ensures forall j :: 0 <= j < |deps| ==> r[j] == QualifyReference(deps[j], targetDomain) && '/' in r[j]
  {
    seq(|deps|, j requires 0 <= j < |deps| => QualifyReference(deps[j], targetDomain))
  }

  /** The qualification loop of `resolveSingleDependency`: appends each dependency, qualified. */
  method AppendQualified(prefix: seq<string>, deps: seq<string>, targetDomain: string) returns (result: seq<string>)
    ensures result == prefix + QualifyAll(deps, targetDomain)
  {
    result := prefix;
    var i := 0;
    while i < |deps|
      invariant 0 <= i <= |deps|
      invariant result == prefix + QualifyAll(deps[..i], targetDomain)
    {
      assert QualifyAll(deps[..i + 1], targetDomain) ==
             QualifyAll(deps[..i], targetDomain) + [QualifyReference(deps[i], targetDomain)];
      result := result + [QualifyReference(deps[i], targetDomain)];
      i := i + 1;
    }
    assert deps[..i] == deps;
  }

  /** `removeDuplicates`: the `seen` map is the set of values already kept. */
  method RemoveDuplicates(s: seq<string>) returns (r: seq<string>)
    ensures r == FirstOccurrences(s)
    ensures NoDuplicates(r)
    ensures forall x :: x in r <==> x in s
  {
    var seen: set<string> := {};
    r := [];
    var i := 0;
    while i < |s|
      invariant 0 <= i <= |s|
      invariant r == FirstOccurrences(s[..i])
      invariant seen == set x | x in r
    {
      assert s[..i + 1][..i] == s[..i];
      if s[i] !in seen {
        seen := seen + {s[i]};
        r := r + [s[i]];
      }
      i := i + 1;
    }
    assert s[..|s|] == s;
    FirstOccurrencesFacts(s);
  }

  /** The library a reference written in `context` resolves to, with its domain. */
  ghost predicate ResolvesToLibrary(dep: string, context: string, domains: Domains, matches: (string, string) -> bool)
  {
    ResolveReference(dep, context, "library", domains, matches).Ok?
  }

  /** The dependencies of the library `dep` resolves to. */
  ghost function LibraryDependencies(dep: string, context: string, domains: Domains,
                                     matches: (string, string) -> bool): seq<string>
    requires ResolvesToLibrary(dep, context, domains, matches)
  {
    var rr := ResolveReference(dep, context, "library", domains, matches).value;
    rr.model.libraries[rr.objectID].dependencies
  }

  /**
   * `x` is reached from the reference `dep`, written in the domain `context`,
   * in at most `n` resolution steps: it is `dep` itself or, when `dep`
   * resolves to a library, an entry reached from one of that library's
   * dependencies (written in the library's domain), qualified with the
   * library's domain.
   */
  ghost predicate Reaches(x: string, dep: string, context: string, domains: Domains,
                          matches: (string, string) -> bool, n: nat)
    decreases n
  {
    x == dep ||
    (n > 0 && ResolvesToLibrary(dep, context, domains, matches) &&
     var rr := ResolveReference(dep, context, "library", domains, matches).value;
     var deps := LibraryDependencies(dep, context, domains, matches);
     exists k, y :: 0 <= k < |deps| && Reaches(y, deps[k], rr.model.name, domains, matches, n - 1) &&
                    x == QualifyReference(y, rr.domain))
  }

  /** Everything the references `inputs` (written in `context`) reach is in `s`. */
  ghost predicate CoversClosure(s: seq<string>, inputs: seq<string>, context: string, domains: Domains,
                                matches: (string, string) -> bool)
  {
    forall j, x, n: nat :: 0 <= j < |inputs| && Reaches(x, inputs[j], context, domains, matches, n) ==> x in s
  }

  /** Everything in `s` is reached from one of the references `inputs` (written in `context`). */
  ghost predicate WithinClosure(s: seq<string>, inputs: seq<string>, context: string, domains: Domains,
                                matches: (string, string) -> bool)
  {
    forall x :: x in s ==> exists j, n: nat :: 0 <= j < |inputs| && Reaches(x, inputs[j], context, domains, matches, n)
  }

  /**
   * Resolution of `dep`, written in `context`, succeeds with the references
   * of `path` being resolved: its qualified name is not on the path (else
   * `checkForCycle` reports a cycle), it resolves to a library, and every
   * dependency of that library succeeds with the name added to the path.
   * A reference leaves the path again once resolved, so one reached along
   * two branches is not a cycle.
   */
  ghost predicate ResolvesFrom(dep: string, context: string, path: seq<string>, domains: Domains,
                               matches: (string, string) -> bool)
    decreases Universe(domains) - (set x | x in path)
  {
    var q := QualifyReference(dep, context);
    q !in path && ResolvesToLibrary(dep, context, domains, matches) &&
    var rr := ResolveReference(dep, context, "library", domains, matches).value;
    var deps := rr.model.libraries[rr.objectID].dependencies;
    assert q in Universe(domains) by {
      assert q == rr.domain + "/" + rr.objectID;
    }
    assert (set x | x in path + [q]) == (set x | x in path) + {q};
    forall k :: 0 <= k < |deps| ==> ResolvesFrom(deps[k], rr.model.name, path + [q], domains, matches)
  }

  /** Every reference of `input` resolves from `path`. */
  ghost predicate AllResolveFrom(input: seq<string>, context: string, path: seq<string>, domains: Domains,
                                 matches: (string, string) -> bool)
  {
    forall k :: 0 <= k < |input| ==> ResolvesFrom(input[k], context, path, domains, matches)
  }

  /**
   * `dep` resolves, and along every dependency edge from it the rank of the
   * qualified name drops: a rank that witnesses that no cycle is reachable.
   */
  ghost predicate RankedFrom(dep: string, context: string, domains: Domains, matches: (string, string) -> bool,
                             rank: string -> nat)
    decreases rank(QualifyReference(dep, context))
  {
    ResolvesToLibrary(dep, context, domains, matches) &&
    var rr := ResolveReference(dep, context, "library", domains, matches).value;
    var deps := rr.model.libraries[rr.objectID].dependencies;
    forall k :: 0 <= k < |deps| ==>
      rank(QualifyReference(deps[k], rr.model.name)) < rank(QualifyReference(dep, context)) &&
      RankedFrom(deps[k], rr.model.name, domains, matches, rank)
  }

  /**
   * With no cycle reachable, resolution succeeds from any path of
   * references ranked above `dep`, in particular from the empty path.
   */
  lemma {:induction false} AcyclicResolves(dep: string, context: string, path: seq<string>, domains: Domains,
                                           matches: (string, string) -> bool, rank: string -> nat)
    requires RankedFrom(dep, context, domains, matches, rank)
    requires forall p :: p in path ==> rank(p) > rank(QualifyReference(dep, context))
    ensures ResolvesFrom(dep, context, path, domains, matches)
    decreases rank(QualifyReference(dep, context))
  {
    var q := QualifyReference(dep, context);
    var rr := ResolveReference(dep, context, "library", domains, matches).value;
    var deps := rr.model.libraries[rr.objectID].dependencies;
    forall k | 0 <= k < |deps|
      ensures ResolvesFrom(deps[k], rr.model.name, path + [q], domains, matches)
    {
      AcyclicResolves(deps[k], rr.model.name, path + [q], domains, matches, rank);
    }
  }

  /** One library `id` of the domain "d" with the given dependencies. */
  function Lib(id: string, deps: seq<string>): Policy
  {
    Policy(IDSpec(id, []), deps, "", None)
  }

  /**
   * One step of resolution for a reference without '/' to a library of its
   * own domain: it resolves from `path` exactly when its qualified name is
   * not on the path and each of its dependencies resolves with the name
   * added.
   */
  lemma LocalStep(id: string, context: string, path: seq<string>, domains: Domains,
                  matches: (string, string) -> bool)
    requires id != [] && '/' !in id && context in domains && id in domains[context].libraries
    requires domains[context].name == context
    ensures var deps := domains[context].libraries[id].dependencies;
      ResolvesFrom(id, context, path, domains, matches) <==>
        context + "/" + id !in path &&
        forall k :: 0 <= k < |deps| ==> ResolvesFrom(deps[k], context, path + [context + "/" + id], domains, matches)
  {
    assert ResolveReference(id, context, "library", domains, matches) == Ok(Resolved(context, domains[context], id));
  }

  /** A diamond: A depends on B and C, which both depend on D. */
  function Diamond(): Domains
  {
    map["d" := Domain("d", "", map["A" := Lib("A", ["B", "C"]), "B" := Lib("B", ["D"]),
                                  "C" := Lib("C", ["D"]), "D" := Lib("D", [])],
                      map[], map[], map[], map[], map[], [], [], [])]
  }

  /** D, with no dependencies, resolves from any path that does not hold it. */
  lemma DiamondLeaf(path: seq<string>, matches: (string, string) -> bool)
    requires "d/D" !in path
    ensures ResolvesFrom("D", "d", path, Diamond(), matches)
  {
    LocalStep("D", "d", path, Diamond(), matches);
    assert "d" + "/" + "D" == "d/D";
  }

  /** B and C each resolve below A, D being off the path. */
  lemma DiamondMiddle(id: string, matches: (string, string) -> bool)
    requires id == "B" || id == "C"
    ensures ResolvesFrom(id, "d", ["d/A"], Diamond(), matches)
  {
    var q := "d" + "/" + id;
    assert q == "d/B" || q == "d/C";
    DiamondLeaf(["d/A", q], matches);
    LocalStep(id, "d", ["d/A"], Diamond(), matches);
    assert Diamond()["d"].libraries[id].dependencies == ["D"];
  }

  /**
   * The library D, reached from A through both B and C, is not taken for a
   * cycle: resolving A from the empty path succeeds.
   */
  lemma DiamondResolves(matches: (string, string) -> bool)
    ensures AllResolveFrom(["A"], "d", [], Diamond(), matches)
  {
    DiamondMiddle("B", matches);
    DiamondMiddle("C", matches);
    LocalStep("A", "d", [], Diamond(), matches);
    assert "d" + "/" + "A" == "d/A";
    assert [] + ["d/A"] == ["d/A"];
    assert ResolvesFrom("A", "d", [], Diamond(), matches);
  }

  /** A loop: A depends on B, which depends on A. */
  function Loop(): Domains
  {
    map["d" := Domain("d", "", map["A" := Lib("A", ["B"]), "B" := Lib("B", ["A"])],
                      map[], map[], map[], map[], map[], [], [], [])]
  }

  /** Resolving A in the loop fails: B's dependency meets A on the path. */
  lemma LoopFails(matches: (string, string) -> bool)
    ensures !AllResolveFrom(["A"], "d", [], Loop(), matches)
  {
    var ds := Loop();
    assert "d" + "/" + "A" == "d/A" && "d" + "/" + "B" == "d/B";
    assert '/' !in "A" && '/' !in "B";
    LocalStep("A", "d", ["d/A", "d/B"], ds, matches);
    assert !ResolvesFrom("A", "d", ["d/A", "d/B"], ds, matches);
    LocalStep("B", "d", ["d/A"], ds, matches);
    assert ["d/A"] + ["d/B"] == ["d/A", "d/B"];
    assert ds["d"].libraries["B"].dependencies[0] == "A";
    assert !ResolvesFrom("B", "d", ["d/A"], ds, matches);
    LocalStep("A", "d", [], ds, matches);
    assert [] + ["d/A"] == ["d/A"];
    assert ds["d"].libraries["A"].dependencies[0] == "B";
    assert !ResolvesFrom("A", "d", [], ds, matches);
  }

  /**
   * `ResolveDependencies`: resolves each dependency of `model` and, through
   * the libraries, their transitive dependencies. On success the result is
   * exactly the entries reached from the input dependencies, each once.
   */
  method ResolveDependencies(model: Domain, dependencies: seq<string>, domains: Domains,
                             matches: (string, string) -> bool)
    returns (r: Result<seq<string>, string>)
    ensures r.Ok? ==> forall d :: d in dependencies ==> d in r.value
    ensures r.Ok? ==> NoDuplicates(r.value)
    ensures r.Ok? ==> CoversClosure(r.value, dependencies, model.name, domains, matches)
    ensures r.Ok? ==> WithinClosure(r.value, dependencies, model.name, domains, matches)
    ensures r.Ok? <==> AllResolveFrom(dependencies, model.name, [], domains, matches)
  {
    var visited := new Visited();
    r := ResolveAll(model, dependencies, visited, [], domains, matches);
  }

  /** `resolveDependenciesWithCycleDetection`. */
  method ResolveAll(model: Domain, input: seq<string>, visited: Visited, path: seq<string>,
                    domains: Domains, matches: (string, string) -> bool)
    returns (r: Result<seq<string>, string>)
    requires visited.members == set x | x in path
    modifies visited
    ensures r.Ok? ==> visited.members == old(visited.members)
    ensures r.Ok? ==> forall d :: d in input ==> d in r.value
    ensures r.Ok? ==> NoDuplicates(r.value)
    ensures r.Ok? ==> CoversClosure(r.value, input, model.name, domains, matches)
    ensures r.Ok? ==> WithinClosure(r.value, input, model.name, domains, matches)
    ensures r.Ok? <==> AllResolveFrom(input, model.name, path, domains, matches)
    decreases |Universe(domains) - visited.members|, 1
  {
    var result: seq<string> := [];
    var i := 0;
    while i < |input|
      invariant 0 <= i <= |input|
      invariant visited.members == old(visited.members)
      invariant CoversClosure(result, input[..i], model.name, domains, matches)
      invariant WithinClosure(result, input[..i], model.name, domains, matches)
      invariant forall k :: 0 <= k < i ==> ResolvesFrom(input[k], model.name, path, domains, matches)
    {
      var resolved := ResolveSingle(model, input[i], visited, path, domains, matches);
      if resolved.Err? {
        return Err(resolved.error);
      }
      ClosureAppend(result, input[..i], resolved.value, input[i], model.name, domains, matches);
      assert input[..i + 1] == input[..i] + [input[i]];
      result := result + resolved.value;
      i := i + 1;
    }
    assert input[..i] == input;
    var unique := RemoveDuplicates(result);
    ClosureSameElements(result, unique, input, model.name, domains, matches);
    forall d | d in input
      ensures d in unique
    {
      var j :| 0 <= j < |input| && input[j] == d;
      assert Reaches(d, input[j], model.name, domains, matches, 0);
    }
    return Ok(unique);
  }

  /** The closures of two lists of references, side by side, are the closure of the joined list. */
  lemma ClosureAppend(a: seq<string>, inputs: seq<string>, b: seq<string>, d: string, context: string,
                      domains: Domains, matches: (string, string) -> bool)
    requires CoversClosure(a, inputs, context, domains, matches) && WithinClosure(a, inputs, context, domains, matches)
    requires CoversClosure(b, [d], context, domains, matches) && WithinClosure(b, [d], context, domains, matches)
    ensures CoversClosure(a + b, inputs + [d], context, domains, matches)
    ensures WithinClosure(a + b, inputs + [d], context, domains, matches)
  {
    var ins := inputs + [d];
    forall j, x, n: nat | 0 <= j < |ins| && Reaches(x, ins[j], context, domains, matches, n)
      ensures x in a + b
    {
      if j < |inputs| {
        assert ins[j] == inputs[j];
      } else {
        assert ins[j] == [d][0];
      }
    }
    forall x | x in a + b
      ensures exists j, n: nat :: 0 <= j < |ins| && Reaches(x, ins[j], context, domains, matches, n)
    {
      if x in a {
        var j, n: nat :| 0 <= j < |inputs| && Reaches(x, inputs[j], context, domains, matches, n);
        assert ins[j] == inputs[j];
      } else {
        var j, n: nat :| 0 <= j < 1 && Reaches(x, [d][j], context, domains, matches, n);
        assert ins[|inputs|] == d;
      }
    }
  }

  /** The closure statements depend only on the elements of the list. */
  lemma ClosureSameElements(a: seq<string>, b: seq<string>, inputs: seq<string>, context: string,
                            domains: Domains, matches: (string, string) -> bool)
    requires forall x :: x in a <==> x in b
    requires CoversClosure(a, inputs, context, domains, matches) && WithinClosure(a, inputs, context, domains, matches)
    ensures CoversClosure(b, inputs, context, domains, matches) && WithinClosure(b, inputs, context, domains, matches)
  {
  }

  /**
   * `resolveSingleDependency`: a reference already on the path is a cycle;
   * otherwise the reference is resolved to a library, whose own dependencies
   * are resolved with the reference on the path and then qualified with the
   * library's domain. On success the result starts with the reference, holds
   * each of the library's dependencies qualified with its domain, and is
   * exactly what the reference reaches; the path's visited set is restored.
   */
  method ResolveSingle(model: Domain, dependency: string, visited: Visited, path: seq<string>,
                       domains: Domains, matches: (string, string) -> bool)
    returns (r: Result<seq<string>, string>)
    requires visited.members == set x | x in path
    modifies visited
    ensures QualifyReference(dependency, model.name) in old(visited.members) ==>
      r == Err(CycleMessage(QualifyReference(dependency, model.name), path))
    ensures ResolveReference(dependency, model.name, "library", domains, matches).Err? ==> r.Err?
    ensures r.Ok? ==> visited.members == old(visited.members)
    ensures r.Ok? ==> ResolvesToLibrary(dependency, model.name, domains, matches)
    ensures r.Ok? ==> |r.value| >= 1 && r.value[0] == dependency
    ensures r.Ok? ==> forall j :: 1 <= j < |r.value| ==> '/' in r.value[j]
    ensures r.Ok? ==>
      var deps := LibraryDependencies(dependency, model.name, domains, matches);
      var target := ResolveReference(dependency, model.name, "library", domains, matches).value.domain;
      forall k :: 0 <= k < |deps| ==> QualifyReference(deps[k], target) in r.value
    ensures r.Ok? ==> CoversClosure(r.value, [dependency], model.name, domains, matches)
    ensures r.Ok? ==> WithinClosure(r.value, [dependency], model.name, domains, matches)
    ensures r.Ok? <==> ResolvesFrom(dependency, model.name, path, domains, matches)
    decreases |Universe(domains) - visited.members|, 0
  {
    var result := [dependency];
    var qualified := QualifyReference(dependency, model.name);
    var cycle := CheckForCycle(qualified, visited.members, path);
    if cycle.Some? {
      return Err(cycle.value);
    }
    visited.members := visited.members + {qualified};
    var newPath := path + [qualified];
    assert visited.members == set x | x in newPath;

    var resolvedRef := ResolveReference(dependency, model.name, "library", domains, matches);
    if resolvedRef.Err? {
      return Err("failed to resolve dependency '" + dependency + "': " + resolvedRef.error);
    }
    var Resolved(targetDomain, targetModel, depID) := resolvedRef.value;
    // The library exists: resolution checked it, so `getLibrary` cannot fail here.
    var library := targetModel.libraries[depID];

    ghost var u := Universe(domains);
    assert qualified in u by {
      assert qualified == targetDomain + "/" + depID;
    }
    ProperSubsetSmaller(u - visited.members, u - old(visited.members), qualified);

    var transitive := ResolveAll(targetModel, library.dependencies, visited, newPath, domains, matches);
    if transitive.Err? {
      return Err(transitive.error);
    }
    result := AppendQualified(result, transitive.value, targetDomain);
    assert result[1..] == QualifyAll(transitive.value, targetDomain);
    visited.members := visited.members - {qualified};
    assert LibraryDependencies(dependency, model.name, domains, matches) == library.dependencies;
    ClosureOfSingle(dependency, model.name, domains, matches, transitive.value, result);
    return Ok(result);
  }

  /** What one reference's result is assembled from: the closure of its library's dependencies. */
  ghost predicate AssembledFrom(dependency: string, context: string, domains: Domains, matches: (string, string) -> bool,
                                transitive: seq<string>, result: seq<string>)
  {
    ResolvesToLibrary(dependency, context, domains, matches) &&
    var rr := ResolveReference(dependency, context, "library", domains, matches).value;
    var deps := LibraryDependencies(dependency, context, domains, matches);
    (forall d :: d in deps ==> d in transitive) &&
    CoversClosure(transitive, deps, rr.model.name, domains, matches) &&
    WithinClosure(transitive, deps, rr.model.name, domains, matches) &&
    result == [dependency] + QualifyAll(transitive, rr.domain)
  }

  /**
   * The result of one reference, assembled from the closure of its library's
   * dependencies, holds those dependencies qualified and is the reference's
   * own closure.
   */
  lemma ClosureOfSingle(dependency: string, context: string, domains: Domains, matches: (string, string) -> bool,
                        transitive: seq<string>, result: seq<string>)
    requires AssembledFrom(dependency, context, domains, matches, transitive, result)
    ensures
      var deps := LibraryDependencies(dependency, context, domains, matches);
      var target := ResolveReference(dependency, context, "library", domains, matches).value.domain;
      forall k :: 0 <= k < |deps| ==> QualifyReference(deps[k], target) in result
    ensures CoversClosure(result, [dependency], context, domains, matches)
    ensures WithinClosure(result, [dependency], context, domains, matches)
  {
    var rr := ResolveReference(dependency, context, "library", domains, matches).value;
    forall y | y in transitive
      ensures QualifyReference(y, rr.domain) in result
    {
      var j :| 0 <= j < |transitive| && transitive[j] == y;
      assert result[1 + j] == QualifyAll(transitive, rr.domain)[j];
    }
    SingleCovers(dependency, context, domains, matches, transitive, result);
    SingleWithin(dependency, context, domains, matches, transitive, result);
  }

  lemma SingleCovers(dependency: string, context: string, domains: Domains, matches: (string, string) -> bool,
                     transitive: seq<string>, result: seq<string>)
    requires AssembledFrom(dependency, context, domains, matches, transitive, result)
    requires forall y :: y in transitive ==>
      QualifyReference(y, ResolveReference(dependency, context, "library", domains, matches).value.domain) in result
    ensures CoversClosure(result, [dependency], context, domains, matches)
  {
    var rr := ResolveReference(dependency, context, "library", domains, matches).value;
    var deps := LibraryDependencies(dependency, context, domains, matches);
    forall j, x, n: nat | 0 <= j < 1 && Reaches(x, [dependency][j], context, domains, matches, n)
      ensures x in result
    {
      if x != dependency {
        var k, y :| 0 <= k < |deps| && Reaches(y, deps[k], rr.model.name, domains, matches, n - 1) &&
                    x == QualifyReference(y, rr.domain);
        assert y in transitive;
      } else {
        assert result[0] == x;
      }
    }
  }

  lemma SingleWithin(dependency: string, context: string, domains: Domains, matches: (string, string) -> bool,
                     transitive: seq<string>, result: seq<string>)
    requires AssembledFrom(dependency, context, domains, matches, transitive, result)
    ensures WithinClosure(result, [dependency], context, domains, matches)
  {
    var rr := ResolveReference(dependency, context, "library", domains, matches).value;
    var deps := LibraryDependencies(dependency, context, domains, matches);
    forall x | x in result
      ensures exists j, n: nat :: 0 <= j < 1 && Reaches(x, [dependency][j], context, domains, matches, n)
    {
      if x == dependency {
        assert Reaches(x, [dependency][0], context, domains, matches, 0);
      } else {
        var i :| 0 <= i < |result| && result[i] == x;
        assert i >= 1;
        var y := transitive[i - 1];
        assert x == QualifyReference(y, rr.domain) && y in transitive;
        var k, m: nat :| 0 <= k < |deps| && Reaches(y, deps[k], rr.model.name, domains, matches, m);
        assert Reaches(x, [dependency][0], context, domains, matches, m + 1);
      }
    }
  }
}
