/**
 * The expected-error check for a broken policy bundle
 * (tests/mpe/examples/test_broken_alpha_yml.py): the decision run must fail,
 * and its combined output must mention every expected fragment.
 */
module BrokenAlphaCheck {
  import opened Wrappers
  import opened Text

  type Byte = x: int | 0 <= x < 256

  /** A captured stream: absent, text, or raw bytes. */
  datatype Captured = NotCaptured | Text(text: string) | Bytes(bytes: seq<Byte>)

  /** How the engine run ended. */
  datatype RunOutcome = Succeeded | Failed(stdout: Captured, stderr: Captured)

  datatype Verdict = Pass | Fail(message: string)

  /** The fragments the broken bundle must produce. */
  const ExpectedErrors: seq<string> := ["validation failed", "undefined references", "not found", "cycle"]

  /** Bytes are decoded (`decode` is UTF-8 decoding); a missing stream is "". */
  function AsText(c: Captured, decode: seq<Byte> -> string): (r: string)
    ensures c.NotCaptured? ==> r == ""
    ensures c.Text? ==> r == c.text
  {
    match c
    case NotCaptured => ""
    case Text(t) => t
    case Bytes(b) => decode(b)
  }

  /**
   * The diagnostic text: standard output, a newline, then standard error;
   * neither stream is lost and the two are kept apart.
   */
  function Combined(stdout: Captured, stderr: Captured, decode: seq<Byte> -> string): (r: string)
    ensures HasPrefix(r, AsText(stdout, decode)) && HasSuffix(r, AsText(stderr, decode))
    ensures |r| == |AsText(stdout, decode)| + 1 + |AsText(stderr, decode)|
    ensures r[|AsText(stdout, decode)|] == '\n'
    ensures Contains(r, "\n")
  {
    var out, err := AsText(stdout, decode), AsText(stderr, decode);
    var r := out + "\n" + err;
    assert r[..|out|] == out;
    assert r[|r| - |err|..] == err;
    assert OccursAt(r, "\n", |out|);
    r
  }

  /** A fragment is found when its lower-cased form occurs in the lower-cased text. */
  predicate Mentions(text: string, fragment: string)
  {
    Contains(Lower(text), Lower(fragment))
  }

  /**
   * The assertion loop: None when every fragment is mentioned, otherwise
   * the first fragment that is not.
   */
  method FirstMissing(text: string, fragments: seq<string>) returns (missing: Option<nat>)
    ensures missing.None? <==> forall i :: 0 <= i < |fragments| ==> Mentions(text, fragments[i])
    ensures missing.Some? ==> missing.value < |fragments| && !Mentions(text, fragments[missing.value])
    ensures missing.Some? ==> forall i :: 0 <= i < missing.value ==> Mentions(text, fragments[i])
  {
    var lowered := Lower(text);
    var i := 0;
    while i < |fragments|
      invariant 0 <= i <= |fragments|
      invariant forall j :: 0 <= j < i ==> Mentions(text, fragments[j])
    {
      if !Contains(lowered, Lower(fragments[i])) {
        return Some(i);
      }
      i := i + 1;
    }
    return None;
  }

  /** `message` names fragment `i`, which is missing while all before it are present. */
  predicate ReportsFirstMissing(message: string, text: string, i: nat)
    requires i < |ExpectedErrors|
  {
    message == "Expected error '" + ExpectedErrors[i] + "' not found in MPE output" &&
    !Mentions(text, ExpectedErrors[i]) &&
    forall j :: 0 <= j < i ==> Mentions(text, ExpectedErrors[j])
  }

  /** The whole test after the engine has run. */
  method Check(outcome: RunOutcome, decode: seq<Byte> -> string) returns (v: Verdict)
    ensures outcome.Succeeded? ==> v == Fail("Expected MPE to fail due to broken YAML, but it succeeded.")
    ensures outcome.Failed? ==>
      (v == Pass <==> forall i :: 0 <= i < |ExpectedErrors| ==>
         Mentions(Combined(outcome.stdout, outcome.stderr, decode), ExpectedErrors[i]))
    ensures outcome.Failed? && v.Fail? ==>
      exists i :: 0 <= i < |ExpectedErrors| && ReportsFirstMissing(v.message, Combined(outcome.stdout, outcome.stderr, decode), i)
  {
    match outcome
    case Succeeded =>
      v := Fail("Expected MPE to fail due to broken YAML, but it succeeded.");
    case Failed(out, err) =>
      var combined := Combined(out, err, decode);
      var missing := FirstMissing(combined, ExpectedErrors);
      match missing
      case None => v := Pass;
      case Some(i) =>
        v := Fail("Expected error '" + ExpectedErrors[i] + "' not found in MPE output");
        assert ReportsFirstMissing(v.message, combined, i);
  }
}
