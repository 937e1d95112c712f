/**
 * The Kubernetes Downward API files of pkg/core/config/k8s.go: one
 * `key="value"` pair per line, read into a map of pod labels or
 * annotations.
 *
 * Opening and scanning the file are outside this model: the file is given
 * as its opening outcome and its whole text, split into lines at '\n'
 * (the trailing '\r' `bufio.ScanLines` drops is white space, which the
 * trimming removes anyway), and `scanErr` is the scanner's error, if any.
 */
module K8s {
  import opened Wrappers
  import opened Text

  /** How opening the file went. */
  datatype Opened = Missing | OpenFailed(err: string) | Contents(text: string)

  /** Go's `strings.Cut(s, "=")`: the text before and after the first '=', if there is one. */
  function CutAtEquals(s: string): (r: Option<(string, string)>)
    ensures r.None? <==> '=' !in s
    ensures r.Some? ==> s == r.value.0 + "=" + r.value.1 && '=' !in r.value.0
  {
    match IndexOf(s, '=')
    case None => None
    case Some(i) =>
      assert s == s[..i] + "=" + s[i + 1..];
      Some((s[..i], s[i + 1..]))
  }

  /** The value with every surrounding double quote removed (`strings.Trim(value, "\"")`). */
  function Unquote(v: string): string
  {
    TrimChar(v, '"')
  }

  /** The pair a line holds, if any: blank lines and lines without '=' hold none. */
  function ParseLine(line: string): (r: Option<(string, string)>)
    ensures r.None? <==> '=' !in TrimSpace(line)
  {
    var t := TrimSpace(line);
    if t == "" then None
    else match CutAtEquals(t)
      case None => None
      case Some(pair) => Some((pair.0, Unquote(pair.1)))
  }

  /** The pair each line holds, line by line. */
  function ParseLines(lines: seq<string>): (r: seq<Option<(string, string)>>)
    ensures |r| == |lines| && forall i :: 0 <= i < |lines| ==> r[i] == ParseLine(lines[i])
  {
    seq(|lines|, i requires 0 <= i < |lines| => ParseLine(lines[i]))
  }

  /** The map built from the pairs, in order: a later pair overwrites an earlier key. */
  function PairsOf(parsed: seq<Option<(string, string)>>): (m: map<string, string>)
  {
    if parsed == [] then map[]
    else
      var m := PairsOf(parsed[..|parsed| - 1]);
      match parsed[|parsed| - 1]
      case None => m
      case Some(pair) => m[pair.0 := pair.1]
  }

  /** The map the scanning loop builds from the lines. */
  function Pairs(lines: seq<string>): map<string, string>
  {
    PairsOf(ParseLines(lines))
  }

  /** The map after one more line. */
  lemma PairsStep(lines: seq<string>, i: nat)
    requires i < |lines|
    ensures ParseLine(lines[i]).None? ==> Pairs(lines[..i + 1]) == Pairs(lines[..i])
    ensures ParseLine(lines[i]).Some? ==>
            Pairs(lines[..i + 1]) == Pairs(lines[..i])[ParseLine(lines[i]).value.0 := ParseLine(lines[i]).value.1]
  {
    var p := ParseLines(lines[..i + 1]);
    assert p[..|p| - 1] == ParseLines(lines[..i]);
  }

  /**
   * `parseDownwardAPIFile`: a missing file is no map and no error; any
   * other failure to open or to scan is the error; otherwise the pairs.
   */
  method ParseDownwardApiFile(file: Opened, scanErr: Option<string>) returns (r: Result<Option<map<string, string>>, string>)
    ensures file == Missing ==> r == Ok(None)
    ensures file.OpenFailed? ==> r == Err(file.err)
    ensures file.Contents? && scanErr.Some? ==> r == Err(scanErr.value)
    ensures file.Contents? && scanErr.None? ==> r == Ok(Some(Pairs(Split(file.text, '\n'))))
  {
    match file {
      case Missing => return Ok(None);
      case OpenFailed(err) => return Err(err);
      case Contents(text) =>
        var lines := Split(text, '\n');
        var result: map<string, string> := map[];
        for i := 0 to |lines|
          invariant result == Pairs(lines[..i])
        {
          PairsStep(lines, i);
          var line := TrimSpace(lines[i]);
          if line == "" {
            continue;
          }
          var cut := CutAtEquals(line);
          if cut.None? {
            continue;
          }
          var (key, value) := cut.value;
          value := Unquote(value);
          result := result[key := value];
        }
        assert lines[..|lines|] == lines;
        if scanErr.Some? {
          return Err(scanErr.value);
        }
        return Ok(Some(result));
    }
  }

  /**
   * A key is in the map exactly when some line holds it, and its value is
   * the one of the last such line.
   */
  lemma PairsMeaning(lines: seq<string>, key: string)
    ensures key in Pairs(lines) <==> exists i :: 0 <= i < |lines| && ParseLine(lines[i]).Some? && ParseLine(lines[i]).value.0 == key
    ensures key in Pairs(lines) ==>
      exists i :: 0 <= i < |lines| && ParseLine(lines[i]) == Some((key, Pairs(lines)[key])) &&
                  forall j :: i < j < |lines| && ParseLine(lines[j]).Some? ==> ParseLine(lines[j]).value.0 != key
  {
    PairsOfMeaning(ParseLines(lines), key);
  }

  lemma {:induction false} PairsOfMeaning(parsed: seq<Option<(string, string)>>, key: string)
    ensures key in PairsOf(parsed) <==> exists i :: 0 <= i < |parsed| && parsed[i].Some? && parsed[i].value.0 == key
    ensures key in PairsOf(parsed) ==>
      exists i :: 0 <= i < |parsed| && parsed[i] == Some((key, PairsOf(parsed)[key])) &&
                  forall j :: i < j < |parsed| && parsed[j].Some? ==> parsed[j].value.0 != key
  {
    if parsed != [] {
      var n := |parsed| - 1;
      var prefix := parsed[..n];
      var last := parsed[n];
      PairsOfMeaning(prefix, key);
      if last.Some? && last.value.0 == key {
        assert PairsOf(parsed) == PairsOf(prefix)[key := last.value.1];
        assert parsed[n] == Some((key, PairsOf(parsed)[key]));
      } else {
        assert key in PairsOf(parsed) <==> key in PairsOf(prefix);
        if key in PairsOf(prefix) {
          assert PairsOf(parsed)[key] == PairsOf(prefix)[key];
          var i :| 0 <= i < |prefix| && prefix[i] == Some((key, PairsOf(prefix)[key])) &&
                   forall j :: i < j < |prefix| && prefix[j].Some? ==> prefix[j].value.0 != key;
          assert parsed[i] == prefix[i];
          forall j | i < j < |parsed| && parsed[j].Some?
            ensures parsed[j].value.0 != key
          {
            if j < n {
              assert parsed[j] == prefix[j];
            }
          }
        } else {
          forall i | 0 <= i < |parsed| && parsed[i].Some?
            ensures parsed[i].value.0 != key
          {
            if i < n {
              assert parsed[i] == prefix[i];
            }
          }
        }
      }
    }
  }

  /** A line without '=' after trimming, a blank line among them, changes nothing wherever it stands. */
  lemma LineWithoutPairIgnored(a: seq<string>, line: string, b: seq<string>)
    requires '=' !in TrimSpace(line)
    ensures Pairs(a + [line] + b) == Pairs(a + b)
  {
    assert ParseLine(line) == None;
    ParseLinesAppend(a, [line]);
    ParseLinesAppend(a + [line], b);
    ParseLinesAppend(a, b);
    assert ParseLines([line]) == [None];
    NoPairIgnored(ParseLines(a), ParseLines(b));
  }

  lemma ParseLinesAppend(a: seq<string>, b: seq<string>)
    ensures ParseLines(a + b) == ParseLines(a) + ParseLines(b)
  {
    var l, r := ParseLines(a + b), ParseLines(a) + ParseLines(b);
    assert |l| == |r|;
    forall i | 0 <= i < |l|
      ensures l[i] == r[i]
    {
      if i < |a| {
        assert (a + b)[i] == a[i];
      } else {
        assert (a + b)[i] == b[i - |a|];
      }
    }
  }

  lemma {:induction false} NoPairIgnored(a: seq<Option<(string, string)>>, b: seq<Option<(string, string)>>)
    ensures PairsOf(a + [None] + b) == PairsOf(a + b)
    decreases |b|
  {
    if b == [] {
      var s := a + [None];
      assert s[..|s| - 1] == a;
      assert a + [None] + b == s && a + b == a;
    } else {
      var s := a + [None] + b;
      var t := a + b;
      var init := b[..|b| - 1];
      assert s[..|s| - 1] == a + [None] + init;
      assert t[..|t| - 1] == a + init;
      assert s[|s| - 1] == t[|t| - 1];
      NoPairIgnored(a, init);
    }
  }

  /** The line a labels file holds for a key and a value. */
  function FormatLine(key: string, value: string): string
  {
    key + "=\"" + value + "\""
  }

  /**
   * Reading back a formatted line gives the key and value, provided the key
   * has no '=' and no leading white space, and the value no surrounding quote.
   */
  lemma FormatParseRoundTrip(key: string, value: string)
    requires '=' !in key && (key == [] || !GoIsSpace(key[0]))
    requires value == [] || (value[0] != '"' && value[|value| - 1] != '"')
    ensures ParseLine(FormatLine(key, value)) == Some((key, value))
  {
    var line := FormatLine(key, value);
    var quoted := "\"" + value + "\"";
    assert line == key + "=" + quoted;
    assert line[|line| - 1] == '"';
    assert line[0] == (if key == [] then '=' else key[0]);
    TrimNoEdges(line, GoIsSpace);
    CutAtFirstEquals(key, quoted);
    UnquoteQuoted(value);
    assert ParseLine(line) == Some((key, Unquote(quoted)));
  }

  /** The first '=' of a line is the one right after a key free of '='. */
  lemma CutAtFirstEquals(key: string, rest: string)
    requires '=' !in key
    ensures CutAtEquals(key + "=" + rest) == Some((key, rest))
  {
    var line := key + "=" + rest;
    var cut := CutAtEquals(line);
    assert line[|key|] == '=' && line[..|key|] == key;
    var k := cut.value.0;
    assert cut.value.1 == line[|k| + 1..] == rest;
  }

  /** Removing the surrounding quotes of a quoted value free of edge quotes gives the value back. */
  lemma UnquoteQuoted(value: string)
    requires value == [] || (value[0] != '"' && value[|value| - 1] != '"')
    ensures Unquote("\"" + value + "\"") == value
  {
    StripPadding("\"", value, "\"", x => x == '"');
    TrimNoEdges(value, x => x == '"');
  }
}
