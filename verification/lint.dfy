/**
 * Two pieces of `mpe lint` (cmd/mpe/subcommands/lint/core.go): splitting a
 * dependency reference into its domain and library, and counting the
 * errors in the output of `opa check`.
 *
 * Running `opa check` and printing the messages are outside this model;
 * `filepath.Join` is the parameter `join`.
 */
module Lint {
  import opened Wrappers
  import opened Text

  /**
   * `parseDependencyReference`: a reference with a '/' names a library of
   * another domain, split at the first '/'; any other names a library of
   * the current domain.
   */
  function ParseDependencyReference(ref: string, currentDomain: string): (r: (string, string))
    ensures '/' in ref ==> r.0 + "/" + r.1 == ref && '/' !in r.0
    ensures '/' !in ref ==> r == (currentDomain, ref)
  {
    match IndexOf(ref, '/')
    case None => (currentDomain, ref)
    case Some(i) =>
      assert ref == ref[..i] + "/" + ref[i + 1..];
      (ref[..i], ref[i + 1..])
  }

  /** A cross-domain reference written from its parts reads back as those parts. */
  lemma CrossDomainRoundTrip(domain: string, library: string, currentDomain: string)
    requires '/' !in domain
    ensures ParseDependencyReference(domain + "/" + library, currentDomain) == (domain, library)
  {
    var ref := domain + "/" + library;
    assert ref[|domain|] == '/' && ref[..|domain|] == domain;
    var r := ParseDependencyReference(ref, currentDomain);
    assert r.0 == ref[..|r.0|];
    assert r.1 == ref[|r.0| + 1..];
  }

  /** `strings.SplitN(info, ":", 3)` has three parts exactly when `info` holds at least two ':'. */
  predicate HasThreeParts(info: string)
  {
    |Split(info, ':')| >= 3
  }

  /** The line names the temporary file `name`, whose entity description has three parts. */
  predicate MapsTo(line: string, name: string, info: string, tmpDir: string, join: (string, string) -> string)
  {
    Contains(line, join(tmpDir, name)) && HasThreeParts(info)
  }

  /** Some temporary file of the map can be blamed for the line. */
  predicate Mapped(line: string, fileToEntity: map<string, string>, tmpDir: string, join: (string, string) -> string)
  {
    exists name :: name in fileToEntity && MapsTo(line, name, fileToEntity[name], tmpDir, join)
  }

  /** A non-blank line counts as an error when it can be blamed on a file, or else mentions the temporary directory. */
  predicate Counts(line: string, fileToEntity: map<string, string>, tmpDir: string, join: (string, string) -> string)
  {
    var t := TrimSpace(line);
    t != "" && (Mapped(t, fileToEntity, tmpDir, join) || Contains(t, tmpDir))
  }

  /** Whether each line counts, line by line. */
  function Verdicts(lines: seq<string>, fileToEntity: map<string, string>, tmpDir: string, join: (string, string) -> string)
    : (r: seq<bool>)
    ensures |r| == |lines| && forall i :: 0 <= i < |lines| ==> r[i] == Counts(lines[i], fileToEntity, tmpDir, join)
  {
    seq(|lines|, i requires 0 <= i < |lines| => Counts(lines[i], fileToEntity, tmpDir, join))
  }

  /** The number of true verdicts. */
  function Tally(verdicts: seq<bool>): (n: nat)
    ensures n <= |verdicts|
  {
    if verdicts == [] then 0 else Tally(verdicts[..|verdicts| - 1]) + (if verdicts[|verdicts| - 1] then 1 else 0)
  }

  /** The number of lines that count as errors. */
  function ErrorCount(lines: seq<string>, fileToEntity: map<string, string>, tmpDir: string, join: (string, string) -> string): nat
  {
    Tally(Verdicts(lines, fileToEntity, tmpDir, join))
  }

  /** The count after one more line. */
  lemma ErrorCountStep(lines: seq<string>, i: nat, fileToEntity: map<string, string>, tmpDir: string,
                       join: (string, string) -> string)
    requires i < |lines|
    ensures ErrorCount(lines[..i + 1], fileToEntity, tmpDir, join) ==
            ErrorCount(lines[..i], fileToEntity, tmpDir, join) + (if Counts(lines[i], fileToEntity, tmpDir, join) then 1 else 0)
  {
    var v := Verdicts(lines[..i + 1], fileToEntity, tmpDir, join);
    assert v[..|v| - 1] == Verdicts(lines[..i], fileToEntity, tmpDir, join);
  }

  /**
   * Each line adds at most one error: the count is zero exactly when no
   * line counts, and the number of lines exactly when every line counts.
   */
  lemma ErrorCountExtremes(lines: seq<string>, fileToEntity: map<string, string>, tmpDir: string,
                           join: (string, string) -> string)
    ensures ErrorCount(lines, fileToEntity, tmpDir, join) <= |lines|
    ensures ErrorCount(lines, fileToEntity, tmpDir, join) == 0 <==>
            forall i :: 0 <= i < |lines| ==> !Counts(lines[i], fileToEntity, tmpDir, join)
    ensures ErrorCount(lines, fileToEntity, tmpDir, join) == |lines| <==>
            forall i :: 0 <= i < |lines| ==> Counts(lines[i], fileToEntity, tmpDir, join)
  {
    var v := Verdicts(lines, fileToEntity, tmpDir, join);
    TallyExtremes(v);
    assert ErrorCount(lines, fileToEntity, tmpDir, join) == Tally(v);
    assert forall i :: 0 <= i < |lines| ==> (v[i] <==> Counts(lines[i], fileToEntity, tmpDir, join));
  }

  lemma {:induction false} TallyExtremes(verdicts: seq<bool>)
    ensures Tally(verdicts) == 0 <==> forall i :: 0 <= i < |verdicts| ==> !verdicts[i]
    ensures Tally(verdicts) == |verdicts| <==> forall i :: 0 <= i < |verdicts| ==> verdicts[i]
  {
    if verdicts != [] {
      var prefix := verdicts[..|verdicts| - 1];
      TallyExtremes(prefix);
      assert forall i :: 0 <= i < |prefix| ==> prefix[i] == verdicts[i];
    }
  }

  /** Counting is additive over the lines of an output. */
  lemma ErrorCountAppend(a: seq<string>, b: seq<string>, fileToEntity: map<string, string>, tmpDir: string,
                         join: (string, string) -> string)
    ensures ErrorCount(a + b, fileToEntity, tmpDir, join) ==
            ErrorCount(a, fileToEntity, tmpDir, join) + ErrorCount(b, fileToEntity, tmpDir, join)
  {
    var va, vb := Verdicts(a, fileToEntity, tmpDir, join), Verdicts(b, fileToEntity, tmpDir, join);
    var vab := Verdicts(a + b, fileToEntity, tmpDir, join);
    forall i | 0 <= i < |vab|
      ensures vab[i] == (va + vb)[i]
    {
      if i < |a| {
        assert (a + b)[i] == a[i];
      } else {
        assert (a + b)[i] == b[i - |a|];
      }
    }
    assert vab == va + vb;
    TallyAppend(va, vb);
  }

  lemma {:induction false} TallyAppend(a: seq<bool>, b: seq<bool>)
    ensures Tally(a + b) == Tally(a) + Tally(b)
    decreases |b|
  {
    if b == [] {
      assert a + b == a;
    } else {
      var s := a + b;
      assert s[..|s| - 1] == a + b[..|b| - 1];
      assert s[|s| - 1] == b[|b| - 1];
      TallyAppend(a, b[..|b| - 1]);
    }
  }

  /**
   * `parseOpaCheckOutput`: each non-blank line of the output adds one error
   * when it names a temporary file of the map, or else mentions the
   * temporary directory.
   */
  method ParseOpaCheckOutput(output: string, fileToEntity: map<string, string>, tmpDir: string,
                             join: (string, string) -> string)
    returns (errorCount: nat)
    ensures errorCount == ErrorCount(Split(output, '\n'), fileToEntity, tmpDir, join)
  {
    errorCount := 0;
    var lines := Split(output, '\n');
    for i := 0 to |lines|
      invariant errorCount == ErrorCount(lines[..i], fileToEntity, tmpDir, join)
    {
      ErrorCountStep(lines, i, fileToEntity, tmpDir, join);
      var line := TrimSpace(lines[i]);
      if line == "" {
        continue;
      }
      var foundError := FindEntity(line, fileToEntity, tmpDir, join);
      if foundError {
        errorCount := errorCount + 1;
      } else if Contains(line, tmpDir) {
        errorCount := errorCount + 1;
      }
    }
    assert lines[..|lines|] == lines;
  }

  /**
   * The search over the map, in Go's unspecified order, for a temporary
   * file the line names; it stops at the first one found.
   */
  method FindEntity(line: string, fileToEntity: map<string, string>, tmpDir: string, join: (string, string) -> string)
    returns (found: bool)
    ensures found <==> Mapped(line, fileToEntity, tmpDir, join)
  {
    found := false;
    var pending := fileToEntity.Keys;
    while pending != {} && !found
      invariant pending <= fileToEntity.Keys
      invariant found ==> Mapped(line, fileToEntity, tmpDir, join)
      invariant !found ==> forall name :: name in fileToEntity && name !in pending ==>
                             !MapsTo(line, name, fileToEntity[name], tmpDir, join)
      decreases pending
    {
      var name :| name in pending;
      var fullPath := join(tmpDir, name);
      if Contains(line, fullPath) {
        var parts := Split(fileToEntity[name], ':');
        if |parts| >= 3 {
          found := true;
        }
      }
      pending := pending - {name};
    }
  }
}
