/**
 * The validation error collection (pkg/policydomain/validation/errors.go):
 * single errors with their context, a collection that only ever grows, its
 * rendering, and its grouping by domain and by type.
 */
module ValidationErrors {
  import opened Wrappers
  import opened Text

  /** One validation error. The wrapped `Cause` is never set by this package and is not modelled. */
  datatype Error = Error(domain: string, errorType: string, entity: string, entityID: string,
                         field: string, message: string)

  /** Some part of the context is set, so the rendering carries an "in ...: " prefix. */
  predicate HasContext(e: Error)
  {
    e.domain != "" || (e.entity != "" && e.entityID != "") || e.field != ""
  }

  /** The context parts in their fixed order: domain, entity, field. */
  function ContextParts(e: Error): (parts: seq<string>)
    ensures |parts| > 0 <==> HasContext(e)
    ensures e.domain != "" ==> parts[0] == "domain '" + e.domain + "'"
  {
    (if e.domain != "" then ["domain '" + e.domain + "'"] else []) +
    (if e.entity != "" && e.entityID != "" then [e.entity + " '" + e.entityID + "'"] else []) +
    (if e.field != "" then ["field '" + e.field + "'"] else [])
  }

  /** `Error.Error`: the optional context prefix followed by the message. */
  function Render(e: Error): (r: string)
    ensures HasSuffix(r, e.message)
    ensures r == e.message <==> !HasContext(e)
    ensures HasContext(e) ==> HasPrefix(r, "in ")
    ensures e.domain != "" ==> HasPrefix(r, "in domain '" + e.domain + "'")
  {
    var parts := ContextParts(e);
    var context := if |parts| > 0 then "in " + Join(parts, " ") + ": " else "";
    context + e.message
  }

  /** One numbered line of the multi-error rendering. */
  function Line(n: nat, e: Error): string
  {
    var typeInfo := if e.errorType != "" then "[" + e.errorType + "] " else "";
    "  " + NatToString(n) + ". " + typeInfo + Render(e) + "\n"
  }

  /** The numbered lines for `errs`, numbered from 1. */
  function Lines(errs: seq<Error>): string
  {
    if errs == [] then "" else Lines(errs[..|errs| - 1]) + Line(|errs|, errs[|errs| - 1])
  }

  /** The lines after one more error. */
  lemma LinesStep(errs: seq<Error>, i: nat)
    requires i < |errs|
    ensures Lines(errs[..i + 1]) == Lines(errs[..i]) + Line(i + 1, errs[i])
  {
    assert errs[..i + 1][..i] == errs[..i];
  }

  /** Appending the next numbered line to a builder holding the first `i`. */
  lemma NumberedStep(errs: seq<Error>, i: nat, sb: string)
    requires i < |errs| && sb == Header(|errs|) + Lines(errs[..i])
    ensures sb + Line(i + 1, errs[i]) == Header(|errs|) + Lines(errs[..i + 1])
  {
    LinesStep(errs, i);
    ConcatAssoc(Header(|errs|), Lines(errs[..i]), Line(i + 1, errs[i]));
  }

  lemma ConcatAssoc(a: string, b: string, c: string)
    ensures (a + b) + c == a + (b + c)
  {
  }

  /** The builder loop of `Errors.Error`: the header, then one numbered line per error. */
  method NumberedLines(errs: seq<Error>) returns (sb: string)
    ensures sb == Header(|errs|) + Lines(errs)
  {
    sb := Header(|errs|);
    for i := 0 to |errs|
      invariant sb == Header(|errs|) + Lines(errs[..i])
    {
      NumberedStep(errs, i, sb);
      sb := sb + Line(i + 1, errs[i]);
    }
    assert errs[..|errs|] == errs;
  }

  function Header(count: nat): string
  {
    "validation failed with " + NatToString(count) + " errors:\n"
  }

  /** `Errors.Error` of a collection holding `errs`. */
  function Rendered(errs: seq<Error>): string
  {
    if |errs| == 0 then "no validation errors"
    else if |errs| == 1 then Render(errs[0])
    else Header(|errs|) + Lines(errs)
  }

  /** The three shapes of the collection's rendering. */
  lemma RenderedCases(errs: seq<Error>)
    ensures |errs| == 0 ==> Rendered(errs) == "no validation errors"
    ensures |errs| == 1 ==> Rendered(errs) == Render(errs[0])
    ensures |errs| > 1 ==> HasPrefix(Rendered(errs), "validation failed with " + NatToString(|errs|) + " errors:\n")
  {
  }

  /** Each error's line, numbered from 1 and in collection order, follows the lines of the errors before it. */
  lemma {:induction false} LinesInOrder(errs: seq<Error>, i: nat)
    requires i < |errs|
    ensures HasPrefix(Lines(errs), Lines(errs[..i]) + Line(i + 1, errs[i]))
    decreases |errs|
  {
    if i < |errs| - 1 {
      var init := errs[..|errs| - 1];
      LinesInOrder(init, i);
      assert init[..i] == errs[..i];
    } else {
      assert errs[..|errs| - 1] == errs[..i];
    }
  }

  /** Which field `ErrorsByDomain` and `ErrorsByType` group on. */
  datatype Grouping = ByDomain | ByType

  function KeyOf(e: Error, g: Grouping): string
  {
    match g
    case ByDomain => e.domain
    case ByType => e.errorType
  }

  /** An empty key is grouped under "unknown". */
  function GroupKey(k: string): (r: string)
    ensures r != ""
  {
    if k == "" then "unknown" else k
  }

  /** The errors of `errs` whose group is `k`, in order. */
  function Members(errs: seq<Error>, g: Grouping, k: string): (r: seq<Error>)
    ensures |r| <= |errs|
    ensures forall e :: e in r ==> e in errs && GroupKey(KeyOf(e, g)) == k
  {
    if errs == [] then []
    else
      var e := errs[|errs| - 1];
      Members(errs[..|errs| - 1], g, k) + (if GroupKey(KeyOf(e, g)) == k then [e] else [])
  }

  /** Grouping two runs of errors one after the other. */
  lemma {:induction false} MembersAppend(a: seq<Error>, b: seq<Error>, g: Grouping, k: string)
    ensures Members(a + b, g, k) == Members(a, g, k) + Members(b, g, k)
    decreases |b|
  {
    if b != [] {
      var b0 := b[..|b| - 1];
      assert (a + b)[..|a + b| - 1] == a + b0;
      MembersAppend(a, b0, g, k);
    } else {
      assert a + b == a;
    }
  }

  /** A run with no error of key `k` contributes nothing to group `k`. */
  lemma {:induction false} MembersNone(a: seq<Error>, g: Grouping, k: string)
    requires forall e :: e in a ==> GroupKey(KeyOf(e, g)) != k
    ensures Members(a, g, k) == []
    decreases |a|
  {
    if a != [] {
      assert forall e :: e in a[..|a| - 1] ==> e in a;
      MembersNone(a[..|a| - 1], g, k);
    }
  }

  /** The grouping, built as the Go loop builds it: append each error to its group. */
  function GroupBy(errs: seq<Error>, g: Grouping): (r: map<string, seq<Error>>)
    ensures "" !in r
  {
    if errs == [] then map[]
    else
      var m := GroupBy(errs[..|errs| - 1], g);
      var e := errs[|errs| - 1];
      var k := GroupKey(KeyOf(e, g));
      m[k := (if k in m then m[k] else []) + [e]]
  }

  /** Each group is exactly the errors with that key, in their original order; no group is empty. */
  lemma {:induction false} GroupIsMembers(errs: seq<Error>, g: Grouping, k: string)
    ensures k in GroupBy(errs, g) <==> Members(errs, g, k) != []
    ensures k in GroupBy(errs, g) ==> GroupBy(errs, g)[k] == Members(errs, g, k)
    decreases |errs|
  {
    if errs != [] {
      GroupIsMembers(errs[..|errs| - 1], g, k);
    }
  }

  /** An error whose key is empty is found in the "unknown" group. */
  lemma UnknownCollectsEmptyKeys(errs: seq<Error>, g: Grouping, i: nat)
    requires i < |errs| && KeyOf(errs[i], g) == ""
    ensures "unknown" in GroupBy(errs, g) && errs[i] in GroupBy(errs, g)["unknown"]
  {
    MemberAt(errs, g, i);
    GroupIsMembers(errs, g, "unknown");
  }

  lemma {:induction false} MemberAt(errs: seq<Error>, g: Grouping, i: nat)
    requires i < |errs|
    ensures errs[i] in Members(errs, g, GroupKey(KeyOf(errs[i], g)))
    decreases |errs|
  {
    if i < |errs| - 1 {
      MemberAt(errs[..|errs| - 1], g, i);
    }
  }

  /** The total size of all groups. */
  ghost function TotalSize(m: map<string, seq<Error>>): nat
    decreases |m.Keys|
  {
    if m == map[] then 0
    else
      var k :| k in m;
      |m[k]| + TotalSize(m - {k})
  }

  /** `TotalSize` does not depend on which key is taken first. */
  lemma {:induction false} TotalSizeRemove(m: map<string, seq<Error>>, k: string)
    requires k in m
    ensures TotalSize(m) == |m[k]| + TotalSize(m - {k})
    decreases |m.Keys|
  {
    var j :| j in m && TotalSize(m) == |m[j]| + TotalSize(m - {j});
    if j != k {
      assert (m - {j}).Keys == m.Keys - {j};
      assert (m - {k}).Keys == m.Keys - {k};
      TotalSizeRemove(m - {j}, k);
      TotalSizeRemove(m - {k}, j);
      assert m - {j} - {k} == m - {k} - {j};
    }
  }

  /** The groups partition the errors: their sizes add up to the number of errors. */
  lemma {:induction false} GroupsPartition(errs: seq<Error>, g: Grouping)
    ensures TotalSize(GroupBy(errs, g)) == |errs|
    decreases |errs|
  {
    if errs != [] {
      var init := errs[..|errs| - 1];
      var m := GroupBy(init, g);
      var e := errs[|errs| - 1];
      var k := GroupKey(KeyOf(e, g));
      var v := (if k in m then m[k] else []) + [e];
      GroupsPartition(init, g);
      TotalSizeRemove(m[k := v], k);
      assert m[k := v] - {k} == m - {k};
      if k in m {
        TotalSizeRemove(m, k);
      } else {
        assert m - {k} == m;
      }
    }
  }

  /** `Errors`: the collection every validator appends to. */
  class Errors {
    var errors: seq<Error>

    /** `NewValidationErrors`. */
    constructor ()
      ensures errors == []
    {
      errors := [];
    }

    /** `Add`: appends one error; `Count` grows by exactly one. */
    method Add(err: Error)
      modifies this
      ensures errors == old(errors) + [err]
      ensures Count() == old(Count()) + 1
    {
      errors := errors + [err];
    }

    /** `AddError`. */
    method AddError(errorType: string, domain: string, entityType: string, entityID: string,
                    field: string, message: string)
      modifies this
      ensures errors == old(errors) + [Error(domain, errorType, entityType, entityID, field, message)]
    {
      Add(Error(domain, errorType, entityType, entityID, field, message));
    }

    /** `AddReferenceError`: type "reference". */
    method AddReferenceError(domain: string, entityType: string, entityID: string, field: string, message: string)
      modifies this
      ensures errors == old(errors) + [Error(domain, "reference", entityType, entityID, field, message)]
    {
      AddError("reference", domain, entityType, entityID, field, message);
    }

    /** `AddCycleError`: type "cycle" and no context at all, so it renders as its bare message. */
    method AddCycleError(message: string)
      modifies this
      ensures errors == old(errors) + [Error("", "cycle", "", "", "", message)]
      ensures Render(errors[|errors| - 1]) == message
    {
      AddError("cycle", "", "", "", "", message);
    }

    /** `AddRegoError`: type "rego", field "rego". */
    method AddRegoError(domain: string, entityType: string, entityID: string, message: string)
      modifies this
      ensures errors == old(errors) + [Error(domain, "rego", entityType, entityID, "rego", message)]
    {
      AddError("rego", domain, entityType, entityID, "rego", message);
    }

    /** `Count`. */
    function Count(): (n: nat)
      reads this
      ensures n == |errors|
    {
      |errors|
    }

    /** `HasErrors`: some error was added. */
    predicate HasErrors()
      reads this
      ensures HasErrors() <==> Count() > 0
    {
      errors != []
    }

    /** `Errors.Error`: writes the header and one numbered line per error into a builder. */
    method Message() returns (s: string)
      ensures s == Rendered(errors)
    {
      if |errors| == 0 {
        return "no validation errors";
      }
      if |errors| == 1 {
        return Render(errors[0]);
      }
      s := NumberedLines(errors);
    }

    /** `ErrorsByDomain` and `ErrorsByType`: one pass appending each error to its group. */
    method GroupErrors(g: Grouping) returns (m: map<string, seq<Error>>)
      ensures m == GroupBy(errors, g)
      ensures TotalSize(m) == Count()
      ensures forall k :: k in m ==> m[k] == Members(errors, g, k)
    {
      m := map[];
      var i := 0;
      while i < |errors|
        invariant 0 <= i <= |errors|
        invariant m == GroupBy(errors[..i], g)
      {
        assert errors[..i + 1][..i] == errors[..i];
        var k := KeyOf(errors[i], g);
        if k == "" {
          k := "unknown";
        }
        m := m[k := (if k in m then m[k] else []) + [errors[i]]];
        i := i + 1;
      }
      assert errors[..i] == errors;
      GroupsPartition(errors, g);
      forall k | k in m
        ensures m[k] == Members(errors, g, k)
      {
        GroupIsMembers(errors, g, k);
      }
    }

    /** `ErrorsByDomain`. */
    method ErrorsByDomain() returns (m: map<string, seq<Error>>)
      ensures m == GroupBy(errors, ByDomain)
      ensures TotalSize(m) == Count()
    {
      m := GroupErrors(ByDomain);
    }

    /** `ErrorsByType`. */
    method ErrorsByType() returns (m: map<string, seq<Error>>)
      ensures m == GroupBy(errors, ByType)
      ensures TotalSize(m) == Count()
    {
      m := GroupErrors(ByType);
    }

    /** `First`: nil for an empty collection, otherwise the earliest error added. */
    function First(): (r: Option<Error>)
      reads this
      ensures r.None? <==> !HasErrors()
      ensures r.Some? ==> r.value == errors[0]
    {
      if |errors| == 0 then None else Some(errors[0])
    }

    /** `ToSlice`: copies the errors, keeping length and order. */
    method ToSlice() returns (r: seq<Error>)
      ensures |r| == Count()
      ensures forall i :: 0 <= i < |r| ==> r[i] == errors[i]
    {
      r := [];
      var i := 0;
      while i < |errors|
        invariant 0 <= i <= |errors|
        invariant r == errors[..i]
      {
        r := r + [errors[i]];
        i := i + 1;
      }
    }
  }
}
