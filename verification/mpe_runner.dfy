/**
 * The test harness's decision normalisation and binary choice
 * (tests/utils/mpe_runner.py).
 */
module MpeRunner {
  import opened Wrappers
  import opened Text

  /** The two verdict tokens. */
  const Grant: string := "GRANT"
  const Deny: string := "DENY"

  /** The alias table: allow-like tokens become GRANT, deny-like tokens DENY. */
  function Alias(t: string): string
  {
    if t == "ALLOW" || t == "PERMIT" then "GRANT"
    else if t == "DENY" || t == "REJECT" then "DENY"
    else t
  }

  /**
   * `normalize_decision`: `value` is `str(value)` of the Python object, or
   * None when the object itself is None.
   */
  function NormalizeDecision(value: Option<string>): string
  {
    match value
    case None => ""
    case Some(s) => Alias(Upper(PyStrip(s)))
  }

  /**
   * None normalises to the empty text; otherwise the result is GRANT exactly
   * for the allow-like tokens and DENY exactly for the deny-like ones, once
   * trimmed and upper-cased.
   */
  lemma NormalizeMeaning(value: Option<string>)
    ensures value.None? ==> NormalizeDecision(value) == ""
    ensures value.Some? ==>
      (NormalizeDecision(value) == "GRANT" <==> Upper(PyStrip(value.value)) in {"ALLOW", "PERMIT", "GRANT"})
    ensures value.Some? ==>
      (NormalizeDecision(value) == "DENY" <==> Upper(PyStrip(value.value)) in {"DENY", "REJECT"})
  {
    if value.Some? {
      AliasMeaning(Upper(PyStrip(value.value)));
    }
  }

  /** The alias table sends exactly its allow-like tokens to GRANT and its deny-like tokens to DENY. */
  lemma AliasMeaning(t: string)
    ensures Alias(t) == "GRANT" <==> t in {"ALLOW", "PERMIT", "GRANT"}
    ensures Alias(t) == "DENY" <==> t in {"DENY", "REJECT"}
    ensures Alias(t) == "" <==> t == ""
    ensures Alias(Alias(t)) == Alias(t)
  {
  }

  /** A token outside the alias table comes back trimmed and upper-cased, not coerced. */
  lemma UnknownTokenPassesThrough(s: string)
    requires Upper(PyStrip(s)) !in {"ALLOW", "PERMIT", "GRANT", "DENY", "REJECT"}
    ensures NormalizeDecision(Some(s)) == Upper(PyStrip(s))
    ensures NormalizeDecision(Some(s)) != "GRANT" && NormalizeDecision(Some(s)) != "DENY"
  {
    var t := Upper(PyStrip(s));
    assert Alias(t) == t;
  }

  /** The empty result means None or blank text, and is neither GRANT nor DENY. */
  lemma EmptyMeansNoneOrBlank(value: Option<string>)
    ensures NormalizeDecision(value) == "" <==>
      (value.None? || forall i :: 0 <= i < |value.value| ==> PyIsSpace(value.value[i]))
  {
    if value.Some? {
      var s := value.value;
      var p := PyStrip(s);
      var t := Upper(p);
      AliasMeaning(t);
      assert |t| == |p|;
      assert t == [] <==> p == [];
      TrimEmptyIff(s, PyIsSpace);
    }
  }

  /**
   * Case and surrounding whitespace are ignored: padding a token with
   * whitespace or changing the case of its letters gives the same result.
   */
  lemma IgnoresCaseAndPadding(s: string, t: string, pre: string, post: string)
    requires Upper(t) == Upper(s)
    requires forall i :: 0 <= i < |pre| ==> PyIsSpace(pre[i])
    requires forall i :: 0 <= i < |post| ==> PyIsSpace(post[i])
    ensures NormalizeDecision(Some(pre + t + post)) == NormalizeDecision(Some(s))
  {
    StripPadding(pre, t, post, PyIsSpace);
    StripUpperCommute(t);
    StripUpperCommute(s);
  }

  lemma VerdictTokenFixed(a: string)
    requires a == "GRANT" || a == "DENY"
    ensures Upper(PyStrip(a)) == a
  {
    TrimNoEdges(a, PyIsSpace);
    UpperNoLower(a);
  }

  lemma AliasFixed(t: string)
    requires PyStrip(t) == t && Upper(t) == t
    ensures Upper(PyStrip(Alias(t))) == Alias(t)
  {
    var a := Alias(t);
    if a != t {
      VerdictTokenFixed(a);
    }
  }

  /** Normalising a normalised token changes nothing. */
  lemma NormalizeIdempotent(value: Option<string>)
    ensures NormalizeDecision(Some(NormalizeDecision(value))) == NormalizeDecision(value)
  {
    if value.Some? {
      var p := PyStrip(value.value);
      var t := Upper(p);
      StripUpperCommute(p);
      TrimBothIdempotent(value.value, PyIsSpace);
      assert PyStrip(p) == p;
      assert PyStrip(t) == t;
      UpperIdempotent(p);
      assert Upper(t) == t;
      AliasFixed(t);
      AliasMeaning(t);
      var a := Alias(t);
      assert NormalizeDecision(value) == a;
      assert NormalizeDecision(Some(a)) == Alias(Upper(PyStrip(a))) == Alias(a);
    }
  }

  /** `_resolve_mpe_binary`: the locally built binary when the path exists (as a file or a directory), else "mpe" from PATH. */
  function ResolveMpeBinary(projectRoot: string, pathExists: string -> bool): (r: string)
    ensures pathExists(projectRoot + "/target/mpe") ==> r == projectRoot + "/target/mpe"
    ensures !pathExists(projectRoot + "/target/mpe") ==> r == "mpe"
  {
    var local := projectRoot + "/target/mpe";
    if pathExists(local) then local else "mpe"
  }
}
