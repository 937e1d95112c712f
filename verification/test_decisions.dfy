/**
 * The `mpe test decisions` subcommand (cmd/mpe/subcommands/test/decisions.go):
 * selecting the test cases named by `--test` patterns, and running the
 * selected cases against the policy engine, counting passes and failures.
 *
 * Reading the suite file, building the engine, marshalling a PORC to JSON and
 * `Authorize` itself are outside this model: their outcomes are the inputs
 * `suite`, `engineErr`, `marshal` and `authorize`. `filepath.Match` is the
 * parameter `glob`, whose `Err` stands for a malformed pattern.
 */
module TestDecisions {
  import opened Wrappers
  import opened Json
  import opened Text

  /** `TestCase`: a named PORC and whether it is expected to be allowed. */
  datatype TestCase = TestCase(name: string, description: string, porc: map<string, Value>, allow: bool)

  /** A pattern admits a name when the glob matches it, or, for a malformed glob, when the two are equal. */
  predicate Admits(pattern: string, name: string, glob: (string, string) -> Result<bool, string>)
  {
    match glob(pattern, name)
    case Ok(matched) => matched
    case Err(_) => pattern == name
  }

  /** Some pattern admits the test's name. */
  predicate Selected(tc: TestCase, patterns: seq<string>, glob: (string, string) -> Result<bool, string>)
  {
    exists j :: 0 <= j < |patterns| && Admits(patterns[j], tc.name, glob)
  }

  /** The tests some pattern admits, in their order in the suite, each occurrence once. */
  function Kept(tests: seq<TestCase>, patterns: seq<string>, glob: (string, string) -> Result<bool, string>)
    : (r: seq<TestCase>)
    ensures |r| <= |tests|
  {
    if tests == [] then [] else KeptOne(tests[0], patterns, glob) + Kept(tests[1..], patterns, glob)
  }

  /** The test itself when some pattern admits it, or nothing. */
  function KeptOne(t: TestCase, patterns: seq<string>, glob: (string, string) -> Result<bool, string>): seq<TestCase>
  {
    if Selected(t, patterns, glob) then [t] else []
  }

  /** A test is kept exactly when it is in the suite and some pattern admits it. */
  lemma {:induction false} KeptMembers(tests: seq<TestCase>, patterns: seq<string>,
                                       glob: (string, string) -> Result<bool, string>, t: TestCase)
    ensures t in Kept(tests, patterns, glob) <==> t in tests && Selected(t, patterns, glob)
  {
    if tests != [] {
      KeptMembers(tests[1..], patterns, glob, t);
      assert t in tests <==> t == tests[0] || t in tests[1..];
    }
  }

  /** No test is kept more often than the suite holds it. */
  lemma {:induction false} KeptOccurrences(tests: seq<TestCase>, patterns: seq<string>,
                                           glob: (string, string) -> Result<bool, string>)
    ensures multiset(Kept(tests, patterns, glob)) <= multiset(tests)
  {
    if tests != [] {
      var t := tests[0];
      KeptOccurrences(tests[1..], patterns, glob);
      assert tests == [t] + tests[1..];
      assert multiset(tests) == multiset([t]) + multiset(tests[1..]);
      assert multiset(Kept(tests, patterns, glob)) ==
             multiset(KeptOne(t, patterns, glob)) + multiset(Kept(tests[1..], patterns, glob));
      assert multiset(KeptOne(t, patterns, glob)) <= multiset([t]);
    }
  }

  /** Selection is compositional, so the kept tests keep the order the suite gives them. */
  lemma {:induction false} KeptAppend(a: seq<TestCase>, b: seq<TestCase>, patterns: seq<string>,
                                      glob: (string, string) -> Result<bool, string>)
    ensures Kept(a + b, patterns, glob) == Kept(a, patterns, glob) + Kept(b, patterns, glob)
  {
    if a == [] {
      assert a + b == b;
    } else {
      var head := KeptOne(a[0], patterns, glob);
      assert (a + b)[0] == a[0];
      assert (a + b)[1..] == a[1..] + b;
      KeptAppend(a[1..], b, patterns, glob);
      calc {
        Kept(a + b, patterns, glob);
        head + Kept(a[1..] + b, patterns, glob);
        head + (Kept(a[1..], patterns, glob) + Kept(b, patterns, glob));
        (head + Kept(a[1..], patterns, glob)) + Kept(b, patterns, glob);
      }
    }
  }

  /** When every test is admitted, nothing is dropped. */
  lemma {:induction false} KeptAll(tests: seq<TestCase>, patterns: seq<string>,
                                   glob: (string, string) -> Result<bool, string>)
    requires forall i :: 0 <= i < |tests| ==> Selected(tests[i], patterns, glob)
    ensures Kept(tests, patterns, glob) == tests
  {
    if tests != [] {
      KeptAll(tests[1..], patterns, glob);
    }
  }

  /** The tests `filterTests` hands back: all of them without patterns, else the admitted ones. */
  function Selection(tests: seq<TestCase>, patterns: seq<string>, glob: (string, string) -> Result<bool, string>)
    : seq<TestCase>
  {
    if patterns == [] then tests else Kept(tests, patterns, glob)
  }

  /**
   * `filterTests`: with no patterns every test; otherwise each test once, in
   * order, when the first pattern that admits it is found.
   */
  method FilterTests(tests: seq<TestCase>, patterns: seq<string>, glob: (string, string) -> Result<bool, string>)
    returns (filtered: seq<TestCase>)
    ensures patterns == [] ==> filtered == tests
    ensures patterns != [] ==> filtered == Kept(tests, patterns, glob)
  {
    if patterns == [] {
      return tests;
    }
    filtered := [];
    for i := 0 to |tests|
      invariant filtered == Kept(tests[..i], patterns, glob)
    {
      var tc := tests[i];
      KeptStep(tests, i, patterns, glob);
      var added := Admitted(tc, patterns, glob);
      if added {
        filtered := filtered + [tc];
      }
    }
    assert tests[..|tests|] == tests;
  }

  /** The kept tests after one more test. */
  lemma KeptStep(tests: seq<TestCase>, i: nat, patterns: seq<string>, glob: (string, string) -> Result<bool, string>)
    requires i < |tests|
    ensures Kept(tests[..i + 1], patterns, glob) == Kept(tests[..i], patterns, glob) + KeptOne(tests[i], patterns, glob)
  {
    KeptAppend(tests[..i], [tests[i]], patterns, glob);
    assert tests[..i + 1] == tests[..i] + [tests[i]];
    assert [tests[i]][1..] == [];
    assert Kept([tests[i]], patterns, glob) == KeptOne(tests[i], patterns, glob) + [];
  }

  /**
   * The inner loop over the patterns: the test is added as soon as one
   * admits it, a pattern that is not a valid glob admitting only the
   * name it spells.
   */
  method Admitted(tc: TestCase, patterns: seq<string>, glob: (string, string) -> Result<bool, string>)
    returns (added: bool)
    ensures added == Selected(tc, patterns, glob)
  {
    added := false;
    var j := 0;
    while j < |patterns| && !added
      invariant 0 <= j <= |patterns|
      invariant !added ==> forall k :: 0 <= k < j ==> !Admits(patterns[k], tc.name, glob)
      invariant added ==> Selected(tc, patterns, glob)
    {
      var matched := glob(patterns[j], tc.name);
      if matched.Err? {
        if patterns[j] == tc.name {
          added := true;
        }
      } else if matched.value {
        added := true;
      }
      j := j + 1;
    }
  }

  /** A test passes when its PORC marshals, `Authorize` succeeds, and the decision is the expected one. */
  predicate Passes(tc: TestCase, marshal: map<string, Value> -> Result<string, string>,
                   authorize: string -> Result<bool, string>)
  {
    marshal(tc.porc).Ok? && authorize(marshal(tc.porc).value).Ok? &&
    authorize(marshal(tc.porc).value).value == tc.allow
  }

  /** The number of passing tests. */
  function CountPassing(tests: seq<TestCase>, marshal: map<string, Value> -> Result<string, string>,
                        authorize: string -> Result<bool, string>): (n: nat)
    ensures n <= |tests|
    ensures n == |tests| <==> forall i :: 0 <= i < |tests| ==> Passes(tests[i], marshal, authorize)
  {
    if tests == [] then 0
    else (if Passes(tests[0], marshal, authorize) then 1 else 0) + CountPassing(tests[1..], marshal, authorize)
  }

  lemma {:induction false} CountPassingAppend(a: seq<TestCase>, b: seq<TestCase>,
                                              marshal: map<string, Value> -> Result<string, string>,
                                              authorize: string -> Result<bool, string>)
    ensures CountPassing(a + b, marshal, authorize) == CountPassing(a, marshal, authorize) + CountPassing(b, marshal, authorize)
  {
    if a == [] {
      assert a + b == b;
    } else {
      assert (a + b)[0] == a[0];
      assert (a + b)[1..] == a[1..] + b;
      CountPassingAppend(a[1..], b, marshal, authorize);
    }
  }

  /** `%t`. */
  function BoolText(b: bool): string
  {
    if b then "true" else "false"
  }

  /** The line printed for one test. */
  function TestLine(tc: TestCase, marshal: map<string, Value> -> Result<string, string>,
                    authorize: string -> Result<bool, string>): string
  {
    match marshal(tc.porc)
    case Err(e) => tc.name + ": ERROR (failed to marshal PORC: " + e + ")"
    case Ok(porc) =>
      match authorize(porc)
      case Err(e) => tc.name + ": ERROR (" + e + ")"
      case Ok(allowed) =>
        if allowed == tc.allow then tc.name + ": PASS"
        else tc.name + ": FAIL (expected allow=" + BoolText(tc.allow) + ", got allow=" + BoolText(allowed) + ")"
  }

  /** Only a passing test prints PASS. */
  lemma PassLine(tc: TestCase, marshal: map<string, Value> -> Result<string, string>,
                 authorize: string -> Result<bool, string>)
    ensures TestLine(tc, marshal, authorize) == tc.name + ": PASS" <==> Passes(tc, marshal, authorize)
  {
    var line := TestLine(tc, marshal, authorize);
    var pass := tc.name + ": PASS";
    if !Passes(tc, marshal, authorize) {
      assert line[|tc.name| + 2] != pass[|tc.name| + 2];
    }
  }

  /** The counts and output of a completed run; a nonzero exit code is `cli.Exit("", 1)`. */
  datatype Summary = Summary(passed: nat, failed: nat, output: seq<string>, exitCode: nat)

  /** The summary line after the blank line: `%d/%d tests passed`. */
  function SummaryLine(passed: nat, total: nat): string
  {
    NatToString(passed) + "/" + NatToString(total) + " tests passed"
  }

  /**
   * `ExecuteDecisions`: a load failure, an empty suite, a selection that
   * matches nothing and an engine failure are errors; otherwise every
   * selected test runs, and each counts as passed or failed.
   */
  method ExecuteDecisions(suite: Result<seq<TestCase>, string>, patterns: seq<string>,
                          glob: (string, string) -> Result<bool, string>, engineErr: Option<string>,
                          marshal: map<string, Value> -> Result<string, string>,
                          authorize: string -> Result<bool, string>)
    returns (r: Result<Summary, string>)
    ensures suite.Err? ==> r == Err("failed to load test suite: " + suite.error)
    ensures suite.Ok? && suite.value == [] ==> r == Err("no tests found in test suite")
    ensures suite.Ok? && suite.value != [] && Selection(suite.value, patterns, glob) == [] ==>
              r == Err("no tests match the specified patterns")
    ensures suite.Ok? && Selection(suite.value, patterns, glob) != [] && engineErr.Some? ==> r == Err(engineErr.value)
    ensures r.Ok? <==> suite.Ok? && Selection(suite.value, patterns, glob) != [] && engineErr.None?
    ensures r.Ok? ==>
      var run := Selection(suite.value, patterns, glob);
      && r.value.passed == CountPassing(run, marshal, authorize)
      && r.value.passed + r.value.failed == |run|
      && (r.value.exitCode == 0 <==> forall i :: 0 <= i < |run| ==> Passes(run[i], marshal, authorize))
      && r.value.exitCode == (if r.value.failed > 0 then 1 else 0)
      && r.value.output == seq(|run|, i requires 0 <= i < |run| => TestLine(run[i], marshal, authorize)) +
                           ["", SummaryLine(r.value.passed, |run|)]
  {
    if suite.Err? {
      return Err("failed to load test suite: " + suite.error);
    }
    if suite.value == [] {
      return Err("no tests found in test suite");
    }
    var testsToRun := FilterTests(suite.value, patterns, glob);
    if testsToRun == [] {
      return Err("no tests match the specified patterns");
    }
    if engineErr.Some? {
      return Err(engineErr.value);
    }

    var summary := RunTests(testsToRun, marshal, authorize);
    r := Ok(summary);
  }

  /** The counting loop of `ExecuteDecisions` over the selected tests. */
  method RunTests(testsToRun: seq<TestCase>, marshal: map<string, Value> -> Result<string, string>,
                  authorize: string -> Result<bool, string>)
    returns (s: Summary)
    ensures s.passed == CountPassing(testsToRun, marshal, authorize)
    ensures s.passed + s.failed == |testsToRun|
    ensures s.exitCode == (if s.failed > 0 then 1 else 0)
    ensures s.output == seq(|testsToRun|, i requires 0 <= i < |testsToRun| => TestLine(testsToRun[i], marshal, authorize)) +
                        ["", SummaryLine(s.passed, |testsToRun|)]
  {
    var passed: nat := 0;
    var failed: nat := 0;
    var output: seq<string> := [];
    for i := 0 to |testsToRun|
      invariant passed == CountPassing(testsToRun[..i], marshal, authorize)
      invariant passed + failed == i
      invariant output == seq(i, k requires 0 <= k < i => TestLine(testsToRun[k], marshal, authorize))
    {
      RunStep(testsToRun, i, marshal, authorize);
      var ok, line := RunOne(testsToRun[i], marshal, authorize);
      output := output + [line];
      if ok {
        passed := passed + 1;
      } else {
        failed := failed + 1;
      }
    }
    assert testsToRun[..|testsToRun|] == testsToRun;
    var total := passed + failed;
    output := output + ["", SummaryLine(passed, total)];
    return Summary(passed, failed, output, if failed > 0 then 1 else 0);
  }

  /** The count and the lines after one more test. */
  lemma RunStep(tests: seq<TestCase>, i: nat, marshal: map<string, Value> -> Result<string, string>,
                authorize: string -> Result<bool, string>)
    requires i < |tests|
    ensures CountPassing(tests[..i + 1], marshal, authorize) ==
            CountPassing(tests[..i], marshal, authorize) + (if Passes(tests[i], marshal, authorize) then 1 else 0)
    ensures seq(i + 1, k requires 0 <= k < i + 1 => TestLine(tests[k], marshal, authorize)) ==
            seq(i, k requires 0 <= k < i => TestLine(tests[k], marshal, authorize)) + [TestLine(tests[i], marshal, authorize)]
  {
    CountPassingAppend(tests[..i], [tests[i]], marshal, authorize);
    assert tests[..i + 1] == tests[..i] + [tests[i]];
    assert [tests[i]][1..] == [];
  }

  /** One test: its PORC marshalled, the decision asked for and compared with the expected one. */
  method RunOne(tc: TestCase, marshal: map<string, Value> -> Result<string, string>,
                authorize: string -> Result<bool, string>)
    returns (ok: bool, line: string)
    ensures ok == Passes(tc, marshal, authorize)
    ensures line == TestLine(tc, marshal, authorize)
  {
    line := TestLine(tc, marshal, authorize);
    var porc := marshal(tc.porc);
    if porc.Err? {
      return false, line;
    }
    var allowed := authorize(porc.value);
    if allowed.Err? {
      return false, line;
    }
    ok := allowed.value == tc.allow;
  }
}
