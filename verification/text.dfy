/**
 * String operations of the Go standard library (`strings`, `path/filepath`,
 * `fmt`) and of Python's `str`, restricted to what the modelled code uses.
 * Strings are sequences of code points.
 */
module Text {
  import opened Wrappers

  /** Go's `unicode.IsSpace`, the cut set of `strings.TrimSpace` (code points). */
  predicate GoIsSpace(c: char)
  {
    var n := c as int;
    (9 <= n <= 13) || n == 32 || n == 0x85 || n == 0xA0 || n == 0x1680
    || (0x2000 <= n <= 0x200A) || n == 0x2028 || n == 0x2029 || n == 0x202F
    || n == 0x205F || n == 0x3000
  }

  /** Python's `str.isspace`, the cut set of `str.strip()`: Go's set plus the separators U+001C..U+001F. */
  predicate PyIsSpace(c: char)
  {
    GoIsSpace(c) || (0x1C <= c as int <= 0x1F)
  }

  /** Drops the leading characters that satisfy `cut`. */
  function TrimLeft(s: string, cut: char -> bool): (r: string)
    ensures |r| <= |s| && r == s[|s| - |r|..]
    ensures r == [] || !cut(r[0])
    ensures forall i :: 0 <= i < |s| - |r| ==> cut(s[i])
  {
    if s == [] || !cut(s[0]) then s else TrimLeft(s[1..], cut)
  }

  /** Drops the trailing characters that satisfy `cut`. */
  function TrimRight(s: string, cut: char -> bool): (r: string)
    ensures |r| <= |s| && r == s[..|r|]
    ensures r == [] || !cut(r[|r| - 1])
    ensures forall i :: |r| <= i < |s| ==> cut(s[i])
  {
    if s == [] || !cut(s[|s| - 1]) then s else TrimRight(s[..|s| - 1], cut)
  }

  /** Go's `strings.TrimSpace`. */
  function TrimSpace(s: string): string
  {
    TrimRight(TrimLeft(s, GoIsSpace), GoIsSpace)
  }

  /** Python's `str.strip()` with no argument. */
  function PyStrip(s: string): string
  {
    TrimRight(TrimLeft(s, PyIsSpace), PyIsSpace)
  }

  /** Go's `strings.Trim(s, cutset)` for a one-character cut set. */
  function TrimChar(s: string, c: char): string
  {
    TrimRight(TrimLeft(s, x => x == c), x => x == c)
  }

  predicate IsLowerAscii(c: char) { 'a' <= c <= 'z' }
  predicate IsUpperAscii(c: char) { 'A' <= c <= 'Z' }

  function UpperChar(c: char): char
  {
    if IsLowerAscii(c) then (c as int - 32) as char else c
  }

  function LowerChar(c: char): char
  {
    if IsUpperAscii(c) then (c as int + 32) as char else c
  }

  /** Upper-casing restricted to ASCII letters. */
  function Upper(s: string): (r: string)
    ensures |r| == |s| && forall i :: 0 <= i < |s| ==> r[i] == UpperChar(s[i])
  {
    if s == [] then [] else [UpperChar(s[0])] + Upper(s[1..])
  }

  /** Lower-casing restricted to ASCII letters. */
  function Lower(s: string): (r: string)
    ensures |r| == |s| && forall i :: 0 <= i < |s| ==> r[i] == LowerChar(s[i])
  {
    if s == [] then [] else [LowerChar(s[0])] + Lower(s[1..])
  }

  predicate HasPrefix(s: string, p: string)
  {
    |p| <= |s| && s[..|p|] == p
  }

  predicate HasSuffix(s: string, p: string)
  {
    |p| <= |s| && s[|s| - |p|..] == p
  }

  /** A one-character prefix is the first character. */
  lemma StartsWithChar(s: string, c: char)
    ensures HasPrefix(s, [c]) <==> |s| > 0 && s[0] == c
  {
    if |s| > 0 {
      assert s[..1] == [s[0]];
    }
  }

  /** A one-character suffix is the last character. */
  lemma EndsWithChar(s: string, c: char)
    ensures HasSuffix(s, [c]) <==> |s| > 0 && s[|s| - 1] == c
  {
    if |s| > 0 {
      assert s[|s| - 1..] == [s[|s| - 1]];
    }
  }

  /** `sub` occurs in `s` at position `i`. */
  predicate OccursAt(s: string, sub: string, i: int)
  {
    0 <= i && i + |sub| <= |s| && s[i..i + |sub|] == sub
  }

  /** Go's `strings.Contains` and Python's `in` on strings. */
  function Contains(s: string, sub: string): (r: bool)
    ensures r <==> exists i :: OccursAt(s, sub, i)
  {
    if HasPrefix(s, sub) then
      assert OccursAt(s, sub, 0);
      true
    else if s == [] then
      assert forall i :: !OccursAt(s, sub, i);
      false
    else
      var r := Contains(s[1..], sub);
      assert forall i :: OccursAt(s[1..], sub, i) ==> OccursAt(s, sub, i + 1) by {
        forall i | OccursAt(s[1..], sub, i) ensures OccursAt(s, sub, i + 1) {
          assert s[i + 1..i + 1 + |sub|] == s[1..][i..i + |sub|];
        }
      }
      assert forall i :: OccursAt(s, sub, i) && i > 0 ==> OccursAt(s[1..], sub, i - 1) by {
        forall i | OccursAt(s, sub, i) && i > 0 ensures OccursAt(s[1..], sub, i - 1) {
          assert s[1..][i - 1..i - 1 + |sub|] == s[i..i + |sub|];
        }
      }
      r
  }

  /** Index of the first occurrence of `c`. */
  function IndexOf(s: string, c: char): (r: Option<nat>)
    ensures r.None? ==> c !in s
    ensures r.Some? ==> r.value < |s| && s[r.value] == c && c !in s[..r.value]
  {
    if s == [] then None
    else if s[0] == c then Some(0)
    else match IndexOf(s[1..], c)
      case None => None
      case Some(i) => assert s[..i + 1] == [s[0]] + s[1..][..i]; Some(i + 1)
  }

  /** Index of the last occurrence of `c`. */
  function LastIndexOf(s: string, c: char): (r: Option<nat>)
    ensures r.None? ==> c !in s
    ensures r.Some? ==> r.value < |s| && s[r.value] == c && c !in s[r.value + 1..]
  {
    if s == [] then None
    else if s[|s| - 1] == c then Some(|s| - 1)
    else match LastIndexOf(s[..|s| - 1], c)
      case None => None
      case Some(i) => assert s[i + 1..] == s[..|s| - 1][i + 1..] + [s[|s| - 1]]; Some(i)
  }

  /** Go's `strings.Split(s, string(c))`: never empty, parts free of `c`. */
  function Split(s: string, c: char): (r: seq<string>)
    ensures |r| >= 1
    ensures forall i :: 0 <= i < |r| ==> c !in r[i]
    decreases |s|
  {
    match IndexOf(s, c)
    case None => [s]
    case Some(i) => [s[..i]] + Split(s[i + 1..], c)
  }

  /** Go's `strings.Join(parts, sep)`. */
  function Join(parts: seq<string>, sep: string): string
  {
    if parts == [] then "" else if |parts| == 1 then parts[0] else parts[0] + sep + Join(parts[1..], sep)
  }

  lemma {:induction false} JoinSplit(s: string, c: char)
    ensures Join(Split(s, c), [c]) == s
    decreases |s|
  {
    match IndexOf(s, c)
    case None =>
    case Some(i) =>
      var rest := Split(s[i + 1..], c);
      var parts := [s[..i]] + rest;
      assert Split(s, c) == parts;
      assert parts[1..] == rest;
      assert Join(parts, [c]) == s[..i] + [c] + Join(rest, [c]);
      JoinSplit(s[i + 1..], c);
      assert s == s[..i] + [c] + s[i + 1..];
  }

  /** Go's `strings.ReplaceAll(s, string(a), string(b))`. */
  function ReplaceChar(s: string, a: char, b: char): (r: string)
    ensures |r| == |s|
    ensures forall i :: 0 <= i < |s| ==> r[i] == (if s[i] == a then b else s[i])
  {
    if s == [] then [] else [if s[0] == a then b else s[0]] + ReplaceChar(s[1..], a, b)
  }

  /** Go's `strings.ReplaceAll(s, string(a), "")`. */
  function RemoveChar(s: string, a: char): (r: string)
    ensures a !in r
    ensures forall x :: x in r ==> x in s
  {
    if s == [] then [] else (if s[0] == a then [] else [s[0]]) + RemoveChar(s[1..], a)
  }

  function DigitChar(d: nat): char
    requires d < 10
  {
    ('0' as int + d) as char
  }

  /** Decimal rendering of a natural number, as `fmt` prints `%d`. */
  function NatToString(n: nat): (r: string)
    ensures |r| >= 1
    ensures forall i :: 0 <= i < |r| ==> '0' <= r[i] <= '9'
  {
    if n < 10 then [DigitChar(n)] else NatToString(n / 10) + [DigitChar(n % 10)]
  }

  /** Go's `strconv.Quote`-free `'%s'` rendering used in messages. */
  function Quoted(s: string): string
  {
    "'" + s + "'"
  }

  // ---- Facts about trimming and case mapping ----

  lemma {:induction false} TrimLeftIdempotent(s: string, cut: char -> bool)
    ensures TrimLeft(TrimLeft(s, cut), cut) == TrimLeft(s, cut)
  {
  }

  lemma {:induction false} TrimRightOfTrimLeft(s: string, cut: char -> bool)
    ensures TrimLeft(TrimRight(TrimLeft(s, cut), cut), cut) == TrimRight(TrimLeft(s, cut), cut)
  {
    var l := TrimLeft(s, cut);
    var r := TrimRight(l, cut);
    if r != [] {
      assert r[0] == l[0];
    }
  }

  /** Trimming twice is trimming once. */
  lemma TrimBothIdempotent(s: string, cut: char -> bool)
    ensures TrimRight(TrimLeft(TrimRight(TrimLeft(s, cut), cut), cut), cut) == TrimRight(TrimLeft(s, cut), cut)
  {
    TrimRightOfTrimLeft(s, cut);
  }

  /** Trimming a string padded with cut characters removes the padding. */
  lemma {:induction false} TrimLeftPadding(pre: string, t: string, cut: char -> bool)
    requires forall i :: 0 <= i < |pre| ==> cut(pre[i])
    ensures TrimLeft(pre + t, cut) == TrimLeft(t, cut)
  {
    if pre != [] {
      assert (pre + t)[0] == pre[0];
      assert (pre + t)[1..] == pre[1..] + t;
      TrimLeftPadding(pre[1..], t, cut);
    } else {
      assert pre + t == t;
    }
  }

  lemma {:induction false} TrimRightPadding(t: string, post: string, cut: char -> bool)
    requires forall i :: 0 <= i < |post| ==> cut(post[i])
    ensures TrimRight(t + post, cut) == TrimRight(t, cut)
  {
    if post != [] {
      assert (t + post)[|t + post| - 1] == post[|post| - 1];
      assert (t + post)[..|t + post| - 1] == t + post[..|post| - 1];
      TrimRightPadding(t, post[..|post| - 1], cut);
    } else {
      assert t + post == t;
    }
  }

  lemma {:induction false} TrimLeftSuffix(t: string, post: string, cut: char -> bool)
    requires exists i :: 0 <= i < |t| && !cut(t[i])
    ensures TrimLeft(t + post, cut) == TrimLeft(t, cut) + post
  {
    var k :| 0 <= k < |t| && !cut(t[k]);
    if cut(t[0]) {
      assert t[1..][k - 1] == t[k];
      assert (t + post)[1..] == t[1..] + post;
      TrimLeftSuffix(t[1..], post, cut);
    } else {
      assert (t + post)[0] == t[0];
    }
  }

  /** Padding with cut characters on both sides does not change the trimmed text. */
  lemma StripPadding(pre: string, t: string, post: string, cut: char -> bool)
    requires forall i :: 0 <= i < |pre| ==> cut(pre[i])
    requires forall i :: 0 <= i < |post| ==> cut(post[i])
    ensures TrimRight(TrimLeft(pre + t + post, cut), cut) == TrimRight(TrimLeft(t, cut), cut)
  {
    assert pre + t + post == pre + (t + post);
    TrimLeftPadding(pre, t + post, cut);
    assert TrimLeft(pre + t + post, cut) == TrimLeft(t + post, cut);
    if exists i :: 0 <= i < |t| && !cut(t[i]) {
      TrimLeftSuffix(t, post, cut);
      var left := TrimLeft(t, cut);
      assert TrimLeft(t + post, cut) == left + post;
      TrimRightPadding(left, post, cut);
    } else {
      var s := t + post;
      forall i | 0 <= i < |s|
        ensures cut(s[i])
      {
        if i < |t| {
          assert s[i] == t[i];
        } else {
          assert s[i] == post[i - |t|];
        }
      }
      AllCutTrimsToEmpty(s, cut);
      AllCutTrimsToEmpty(t, cut);
    }
  }

  lemma {:induction false} AllCutTrimsToEmpty(s: string, cut: char -> bool)
    requires forall i :: 0 <= i < |s| ==> cut(s[i])
    ensures TrimLeft(s, cut) == []
  {
    if s != [] {
      AllCutTrimsToEmpty(s[1..], cut);
    }
  }

  /** A trimmed string is empty exactly when every character is cut. */
  lemma TrimEmptyIff(s: string, cut: char -> bool)
    ensures TrimRight(TrimLeft(s, cut), cut) == [] <==> forall i :: 0 <= i < |s| ==> cut(s[i])
  {
    if forall i :: 0 <= i < |s| ==> cut(s[i]) {
      AllCutTrimsToEmpty(s, cut);
    }
  }

  /** ASCII upper-casing never turns a space into a non-space or back. */
  lemma UpperCharKeepsSpace(c: char)
    ensures PyIsSpace(UpperChar(c)) == PyIsSpace(c)
    ensures GoIsSpace(UpperChar(c)) == GoIsSpace(c)
  {
  }

  lemma {:induction false} TrimLeftUpper(s: string)
    ensures TrimLeft(Upper(s), PyIsSpace) == Upper(TrimLeft(s, PyIsSpace))
  {
    if s != [] {
      UpperCharKeepsSpace(s[0]);
      assert Upper(s)[1..] == Upper(s[1..]);
      TrimLeftUpper(s[1..]);
    }
  }

  lemma {:induction false} TrimRightUpper(s: string)
    ensures TrimRight(Upper(s), PyIsSpace) == Upper(TrimRight(s, PyIsSpace))
  {
    if s != [] {
      UpperCharKeepsSpace(s[|s| - 1]);
      assert Upper(s)[..|s| - 1] == Upper(s[..|s| - 1]);
      TrimRightUpper(s[..|s| - 1]);
    }
  }

  /** Stripping and ASCII upper-casing commute. */
  lemma StripUpperCommute(s: string)
    ensures PyStrip(Upper(s)) == Upper(PyStrip(s))
  {
    TrimLeftUpper(s);
    TrimRightUpper(TrimLeft(s, PyIsSpace));
  }

  lemma UpperIdempotent(s: string)
    ensures Upper(Upper(s)) == Upper(s)
  {
  }

  lemma UpperOfLower(s: string)
    ensures Upper(Lower(s)) == Upper(s)
  {
  }

  /** A string with no cut character at either end is its own trimming. */
  lemma TrimNoEdges(s: string, cut: char -> bool)
    requires s == [] || (!cut(s[0]) && !cut(s[|s| - 1]))
    ensures TrimRight(TrimLeft(s, cut), cut) == s
  {
  }

  /** A string without lower-case ASCII letters is its own upper-casing. */
  lemma UpperNoLower(s: string)
    requires forall i :: 0 <= i < |s| ==> !IsLowerAscii(s[i])
    ensures Upper(s) == s
  {
  }
}
