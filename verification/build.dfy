/**
 * The `mpe build` subcommand (cmd/mpe/subcommands/build/core.go): turning a
 * PolicyDomainReference YAML file into a PolicyDomain file by inlining every
 * `rego_filename` as a literal `rego` block and renaming the top-level kind.
 *
 * A YAML document is the node tree `yaml.v3` parses; the rewrite, which the
 * source does on node pointers, returns the rewritten tree. Parsing and
 * printing YAML, and reading and writing files, are the parameters `parse`,
 * `marshal`, `readFile`, `readRego` and `writeFile`.
 */
module Build {
  import opened Wrappers
  import opened Text

  /** `yaml.Kind`; `NoKind` is the zero node an empty document parses to. */
  datatype Kind = NoKind | DocumentNode | SequenceNode | MappingNode | ScalarNode | AliasNode

  /** `yaml.LiteralStyle`, the style bit of a `|` block scalar. */
  const LiteralStyle: nat := 8

  /** The key of inline Rego, and the key naming a file that holds it. */
  const RegoKey: string := "rego"
  const RegoFilenameKey: string := "rego_filename"

  /** The error for a mapping holding both keys. */
  const BothKeysError: string := "cannot specify both 'rego' and 'rego_filename' in the same block"

  /** The fields of `yaml.Node` the rewrite reads or writes. */
  datatype YamlNode = YamlNode(kind: Kind, style: nat, value: string, content: seq<YamlNode>)

  /** A scalar node holding `key`. */
  predicate IsKey(n: YamlNode, key: string)
  {
    n.kind == ScalarNode && n.value == key
  }

  // ---------------------------------------------------------------------------
  // Output file names
  // ---------------------------------------------------------------------------

  /** Go's `filepath.Ext` with `/` as separator: the suffix from the last dot of the last path element. */
  function Ext(path: string): (r: string)
    ensures HasSuffix(path, r)
    ensures r != [] ==> r[0] == '.' && '/' !in r && '.' !in r[1..]
    ensures r == [] ==> forall k :: 0 <= k < |path| && path[k] == '.' ==> '/' in path[k..]
  {
    if path == [] then []
    else
      var last := path[|path| - 1];
      var init := path[..|path| - 1];
      if last == '/' then []
      else if last == '.' then ['.']
      else
        var e := Ext(init);
        if e == [] then
          assert forall k :: 0 <= k < |init| && path[k] == '.' ==> '/' in path[k..] by {
            forall k | 0 <= k < |init| && path[k] == '.' ensures '/' in path[k..] {
              assert init[k] == '.';
              var j :| j in init[k..] && j == '/';
              assert init[k..] <= path[k..];
            }
          }
          []
        else
          assert path == init + [last];
          e + [last]
  }

  /** `generateOutputFilename`: the input without its extension, then "-built", then the extension. */
  function OutputFilename(inputFile: string): (r: string)
    ensures r == inputFile[..|inputFile| - |Ext(inputFile)|] + "-built" + Ext(inputFile)
  {
    var ext := Ext(inputFile);
    inputFile[..|inputFile| - |ext|] + "-built" + ext
  }

  /** The built file keeps the input's extension, and never overwrites the input. */
  lemma OutputKeepsExtension(inputFile: string)
    ensures Ext(OutputFilename(inputFile)) == Ext(inputFile)
    ensures OutputFilename(inputFile) != inputFile
  {
    var ext := Ext(inputFile);
    var stem := inputFile[..|inputFile| - |ext|];
    var out := OutputFilename(inputFile);
    assert |out| == |inputFile| + 6;
    if ext != [] {
      ExtOfSuffix(stem + "-built", ext);
    } else {
      assert out == stem + "-built";
      ExtNoDot(stem, "-built");
    }
  }

  /** A suffix starting with the only dot, and without separator, is the extension. */
  lemma {:induction false} ExtOfSuffix(stem: string, ext: string)
    requires ext != [] && ext[0] == '.' && '/' !in ext && '.' !in ext[1..]
    ensures Ext(stem + ext) == ext
    decreases |ext|
  {
    var p := stem + ext;
    if |ext| == 1 {
      assert p[|p| - 1] == '.';
    } else {
      var init := ext[..|ext| - 1];
      assert p[..|p| - 1] == stem + init;
      assert ext[|ext| - 1] in ext[1..];
      assert init[1..] <= ext[1..];
      forall c | c in init ensures c != '/' { assert c in ext; }
      ExtOfSuffix(stem, init);
    }
  }

  /** Appending text without dots or separators to a path without extension gives no extension. */
  lemma {:induction false} ExtNoDot(stem: string, tail: string)
    requires Ext(stem) == []
    requires '.' !in tail && '/' !in tail
    ensures Ext(stem + tail) == []
    decreases |tail|
  {
    if tail != [] {
      var init := tail[..|tail| - 1];
      assert (stem + tail)[..|stem + tail| - 1] == stem + init;
      assert tail[|tail| - 1] in tail;
      forall c | c in init ensures c != '.' && c != '/' { assert c in tail; }
      ExtNoDot(stem, init);
    } else {
      assert stem + tail == stem;
    }
  }

  // ---------------------------------------------------------------------------
  // The rego_filename rewrite
  // ---------------------------------------------------------------------------

  /** A result with `acc` put in front of its value. */
  function Prepend(acc: seq<YamlNode>, r: Result<seq<YamlNode>, string>): Result<seq<YamlNode>, string>
  {
    match r
    case Ok(s) => Ok(acc + s)
    case Err(e) => Err(e)
  }

  /** Prepending in two steps is prepending the concatenation. */
  lemma PrependTwice(a: seq<YamlNode>, b: seq<YamlNode>, r: Result<seq<YamlNode>, string>)
    ensures Prepend(a, Prepend(b, r)) == Prepend(a + b, r)
    ensures Prepend([], r) == r
  {
    if r.Ok? {
      assert a + (b + r.value) == (a + b) + r.value;
      assert [] + r.value == r.value;
    }
  }

  /**
   * `processYAMLNode`: documents and sequences process their children in
   * order and stop at the first error; mappings are `processMappingNode`;
   * every other node is left as it is. The kind and the number of children
   * never change.
   */
  function ProcessNode(n: YamlNode, readRego: string -> Result<string, string>): (r: Result<YamlNode, string>)
    ensures r.Ok? ==> r.value.kind == n.kind && |r.value.content| == |n.content|
    ensures n.kind !in {DocumentNode, SequenceNode, MappingNode} ==> r == Ok(n)
    decreases n, |n.content| + 2
  {
    match n.kind
    case DocumentNode | SequenceNode =>
      (match ProcessFrom(n, 0, readRego)
       case Ok(c) => Ok(n.(content := c))
       case Err(e) => Err(e))
    case MappingNode => ProcessMapping(n, readRego)
    case _ => Ok(n)
  }

  /** The children of `parent` from index `i` on, processed in order up to the first error. */
  function ProcessFrom(parent: YamlNode, i: nat, readRego: string -> Result<string, string>)
    : (r: Result<seq<YamlNode>, string>)
    requires i <= |parent.content|
    ensures r.Ok? ==> |r.value| == |parent.content| - i
    decreases parent, |parent.content| - i
  {
    if i == |parent.content| then Ok([])
    else
      match ProcessNode(parent.content[i], readRego)
      case Err(e) => Err(e)
      case Ok(x) =>
        match ProcessFrom(parent, i + 1, readRego)
        case Err(e) => Err(e)
        case Ok(rest) => Ok([x] + rest)
  }

  /** The pairs of a mapping from index `i` on: keys kept, values processed in order up to the first error. */
  function ProcessValues(parent: YamlNode, i: nat, readRego: string -> Result<string, string>)
    : (r: Result<seq<YamlNode>, string>)
    requires i <= |parent.content| && (|parent.content| - i) % 2 == 0
    ensures r.Ok? ==> |r.value| == |parent.content| - i
    ensures r.Ok? ==> forall k :: 0 <= k < |r.value| && k % 2 == 0 ==> r.value[k] == parent.content[i + k]
    decreases parent, |parent.content| - i
  {
    if i == |parent.content| then Ok([])
    else
      match ProcessNode(parent.content[i + 1], readRego)
      case Err(e) => Err(e)
      case Ok(v) =>
        match ProcessValues(parent, i + 2, readRego)
        case Err(e) => Err(e)
        case Ok(rest) => Ok([parent.content[i], v] + rest)
  }

  /** The index of the last key `key` among the pairs before `end`. */
  function LastKeyBelow(c: seq<YamlNode>, key: string, end: nat): (r: Option<nat>)
    requires end <= |c| && end % 2 == 0
    ensures r.Some? ==> r.value < end && r.value % 2 == 0 && IsKey(c[r.value], key)
    ensures r.Some? ==> forall k :: r.value < k < end && k % 2 == 0 ==> !IsKey(c[k], key)
    ensures r.None? ==> forall k :: 0 <= k < end && k % 2 == 0 ==> !IsKey(c[k], key)
    decreases end
  {
    if end == 0 then None
    else if IsKey(c[end - 2], key) then Some(end - 2)
    else LastKeyBelow(c, key, end - 2)
  }

  /** The value of the last `rego_filename` pair before `end` whose value is a scalar, or "". */
  function FilenameBelow(c: seq<YamlNode>, end: nat): string
    requires end <= |c| && end % 2 == 0
    decreases end
  {
    if end == 0 then ""
    else if IsKey(c[end - 2], RegoFilenameKey) && c[end - 1].kind == ScalarNode then c[end - 1].value
    else FilenameBelow(c, end - 2)
  }

  /** The inlined Rego: the file's text with exactly one trailing newline, or "" when it has nothing else. */
  function RegoText(text: string): (r: string)
    ensures r == [] <==> forall k :: 0 <= k < |text| ==> text[k] == '\n'
    ensures r != [] ==> r[|r| - 1] == '\n' && (|r| == 1 || r[|r| - 2] != '\n')
    ensures r != [] ==> HasPrefix(text, r[..|r| - 1])
  {
    var trimmed := TrimRight(text, c => c == '\n');
    if trimmed != [] then
      assert trimmed[|trimmed| - 1] == text[|trimmed| - 1];
      trimmed + "\n"
    else []
  }

  /** The pair at `idx` rewritten: key "rego", value `rego` (the inlined text) in literal style. */
  function Rewrite(c: seq<YamlNode>, idx: nat, rego: string): (r: seq<YamlNode>)
    requires idx + 1 < |c|
  {
    c[idx := c[idx].(value := RegoKey)][idx + 1 := c[idx + 1].(value := rego, style := LiteralStyle)]
  }

  /**
   * `processMappingNode` as a function of the mapping: an odd number of
   * children, an error below, both `rego` and `rego_filename`, an empty file
   * name, or an unreadable file are errors; a `rego_filename` pair becomes a
   * literal `rego` pair.
   */
  function ProcessMapping(n: YamlNode, readRego: string -> Result<string, string>): (r: Result<YamlNode, string>)
    ensures r.Ok? ==> r.value.kind == n.kind && |r.value.content| == |n.content|
    decreases n, |n.content| + 1
  {
    var c := n.content;
    if |c| % 2 != 0 then Err("invalid YAML mapping node")
    else
      match ProcessValues(n, 0, readRego)
      case Err(e) => Err(e)
      case Ok(processed) =>
        var filenameAt := LastKeyBelow(c, RegoFilenameKey, |c|);
        if LastKeyBelow(c, RegoKey, |c|).Some? && filenameAt.Some? then
          Err(BothKeysError)
        else if filenameAt.None? then Ok(n.(content := processed))
        else
          var filename := FilenameBelow(c, |c|);
          if filename == "" then Err("rego_filename cannot be empty")
          else
            match readRego(filename)
            case Err(e) => Err("failed to read rego file '" + filename + "': " + e)
            case Ok(text) => Ok(n.(content := Rewrite(processed, filenameAt.value, RegoText(text))))
  }

  /** `processYAMLNode`. */
  method ProcessYamlNode(n: YamlNode, readRego: string -> Result<string, string>) returns (r: Result<YamlNode, string>)
    ensures r == ProcessNode(n, readRego)
    decreases n, |n.content| + 2
  {
    if n.kind == DocumentNode || n.kind == SequenceNode {
      var content: seq<YamlNode> := [];
      PrependTwice([], [], ProcessFrom(n, 0, readRego));
      for i := 0 to |n.content|
        invariant ProcessFrom(n, 0, readRego) == Prepend(content, ProcessFrom(n, i, readRego))
      {
        var child := ProcessYamlNode(n.content[i], readRego);
        if child.Err? {
          return Err(child.error);
        }
        assert ProcessFrom(n, i, readRego) == Prepend([child.value], ProcessFrom(n, i + 1, readRego));
        PrependTwice(content, [child.value], ProcessFrom(n, i + 1, readRego));
        content := content + [child.value];
      }
      assert content + [] == content;
      return Ok(n.(content := content));
    }
    if n.kind == MappingNode {
      r := ProcessMappingNode(n, readRego);
      return;
    }
    return Ok(n);
  }

  /** `processMappingNode`: one pass over the pairs, noting the keys and processing each value. */
  method ProcessMappingNode(n: YamlNode, readRego: string -> Result<string, string>) returns (r: Result<YamlNode, string>)
    requires n.kind == MappingNode
    ensures r == ProcessMapping(n, readRego)
    decreases n, |n.content| + 1
  {
    var c := n.content;
    if |c| % 2 != 0 {
      return Err("invalid YAML mapping node");
    }
    var processed, hasRego, hasRegoFilename, regoFilenameIndex, regoFilenameValue := ScanPairs(n, readRego);
    if processed.Err? {
      return Err(processed.error);
    }
    if hasRego && hasRegoFilename {
      return Err(BothKeysError);
    }
    if !hasRegoFilename {
      return Ok(n.(content := processed.value));
    }
    if regoFilenameValue == "" {
      return Err("rego_filename cannot be empty");
    }
    var regoContent := readRego(regoFilenameValue);
    if regoContent.Err? {
      return Err("failed to read rego file '" + regoFilenameValue + "': " + regoContent.error);
    }
    return Ok(n.(content := Rewrite(processed.value, regoFilenameIndex, RegoText(regoContent.value))));
  }

  /** What the scan has noted about the keys of the pairs before `i`. */
  predicate Seen(c: seq<YamlNode>, i: nat, hasRego: bool, hasRegoFilename: bool, regoFilenameIndex: nat,
                 regoFilenameValue: string)
    requires i <= |c| && i % 2 == 0
  {
    && hasRego == LastKeyBelow(c, RegoKey, i).Some?
    && hasRegoFilename == LastKeyBelow(c, RegoFilenameKey, i).Some?
    && (hasRegoFilename ==> regoFilenameIndex == LastKeyBelow(c, RegoFilenameKey, i).value)
    && regoFilenameValue == FilenameBelow(c, i)
  }

  /** The key checks of one pair of `processMappingNode`'s loop. */
  method NoteKey(c: seq<YamlNode>, i: nat, hasRego: bool, hasRegoFilename: bool, regoFilenameIndex: nat,
                 regoFilenameValue: string)
    returns (hasRego': bool, hasRegoFilename': bool, regoFilenameIndex': nat, regoFilenameValue': string)
    requires i + 2 <= |c| && i % 2 == 0
    requires Seen(c, i, hasRego, hasRegoFilename, regoFilenameIndex, regoFilenameValue)
    ensures Seen(c, i + 2, hasRego', hasRegoFilename', regoFilenameIndex', regoFilenameValue')
  {
    KeysStep(c, i);
    hasRego', hasRegoFilename', regoFilenameIndex', regoFilenameValue' :=
      hasRego, hasRegoFilename, regoFilenameIndex, regoFilenameValue;
    var keyNode := c[i];
    var valueNode := c[i + 1];
    if keyNode.kind == ScalarNode {
      if keyNode.value == RegoKey {
        hasRego' := true;
      } else if keyNode.value == RegoFilenameKey {
        hasRegoFilename' := true;
        regoFilenameIndex' := i;
        if valueNode.kind == ScalarNode {
          regoFilenameValue' := valueNode.value;
        }
      }
    }
  }

  /**
   * The loop of `processMappingNode`: the pairs in order, noting the `rego`
   * and `rego_filename` keys and processing each value, up to the first error.
   */
  method ScanPairs(n: YamlNode, readRego: string -> Result<string, string>)
    returns (processed: Result<seq<YamlNode>, string>, hasRego: bool, hasRegoFilename: bool,
             regoFilenameIndex: nat, regoFilenameValue: string)
    requires n.kind == MappingNode && |n.content| % 2 == 0
    ensures processed == ProcessValues(n, 0, readRego)
    ensures processed.Ok? ==>
      && hasRego == LastKeyBelow(n.content, RegoKey, |n.content|).Some?
      && hasRegoFilename == LastKeyBelow(n.content, RegoFilenameKey, |n.content|).Some?
      && (hasRegoFilename ==> regoFilenameIndex == LastKeyBelow(n.content, RegoFilenameKey, |n.content|).value)
      && regoFilenameValue == FilenameBelow(n.content, |n.content|)
    decreases n, |n.content|
  {
    var c := n.content;
    hasRego := false;
    hasRegoFilename := false;
    regoFilenameIndex := 0;
    regoFilenameValue := "";
    var done: seq<YamlNode> := [];
    PrependTwice([], [], ProcessValues(n, 0, readRego));
    var i := 0;
    while i < |c|
      invariant 0 <= i <= |c| && i % 2 == 0 && (|c| - i) % 2 == 0
      invariant Seen(c, i, hasRego, hasRegoFilename, regoFilenameIndex, regoFilenameValue)
      invariant ProcessValues(n, 0, readRego) == Prepend(done, ProcessValues(n, i, readRego))
    {
      ValuesStep(n, i, readRego);
      hasRego, hasRegoFilename, regoFilenameIndex, regoFilenameValue :=
        NoteKey(c, i, hasRego, hasRegoFilename, regoFilenameIndex, regoFilenameValue);
      var keyNode := c[i];
      var child := ProcessYamlNode(c[i + 1], readRego);
      if child.Err? {
        processed := Err(child.error);
        return;
      }
      PrependTwice(done, [keyNode, child.value], ProcessValues(n, i + 2, readRego));
      done := done + [keyNode, child.value];
      i := i + 2;
    }
    assert done + [] == done;
    processed := Ok(done);
  }

  /** The keys seen after one more pair. */
  lemma KeysStep(c: seq<YamlNode>, i: nat)
    requires i + 2 <= |c| && i % 2 == 0
    ensures LastKeyBelow(c, RegoKey, i + 2) == if IsKey(c[i], RegoKey) then Some(i) else LastKeyBelow(c, RegoKey, i)
    ensures LastKeyBelow(c, RegoFilenameKey, i + 2) ==
            if IsKey(c[i], RegoFilenameKey) then Some(i) else LastKeyBelow(c, RegoFilenameKey, i)
    ensures FilenameBelow(c, i + 2) ==
            if IsKey(c[i], RegoFilenameKey) && c[i + 1].kind == ScalarNode then c[i + 1].value else FilenameBelow(c, i)
  {
  }

  /** The processed pairs from `i` on: the first value's error, or its pair before the rest. */
  lemma ValuesStep(n: YamlNode, i: nat, readRego: string -> Result<string, string>)
    requires i + 2 <= |n.content| && (|n.content| - i) % 2 == 0
    ensures (|n.content| - (i + 2)) % 2 == 0
    ensures ProcessNode(n.content[i + 1], readRego).Err? ==>
      ProcessValues(n, i, readRego) == Err(ProcessNode(n.content[i + 1], readRego).error)
    ensures ProcessNode(n.content[i + 1], readRego).Ok? ==>
      ProcessValues(n, i, readRego) ==
        Prepend([n.content[i], ProcessNode(n.content[i + 1], readRego).value], ProcessValues(n, i + 2, readRego))
  {
  }

  /** A mapping holding both a `rego` and a `rego_filename` key is rejected once its values processed. */
  lemma BothRegoKeysRejected(n: YamlNode, readRego: string -> Result<string, string>, i: nat, j: nat)
    requires n.kind == MappingNode && |n.content| % 2 == 0
    requires ProcessValues(n, 0, readRego).Ok?
    requires i < |n.content| && i % 2 == 0 && IsKey(n.content[i], RegoKey)
    requires j < |n.content| && j % 2 == 0 && IsKey(n.content[j], RegoFilenameKey)
    ensures ProcessNode(n, readRego) == Err(BothKeysError)
  {
    assert LastKeyBelow(n.content, RegoKey, |n.content|).Some?;
    assert LastKeyBelow(n.content, RegoFilenameKey, |n.content|).Some?;
  }

  /** A rewritten mapping: its `rego_filename` key reads "rego" and its value is the literal inlined text. */
  lemma RewrittenPair(n: YamlNode, readRego: string -> Result<string, string>)
    requires n.kind == MappingNode && |n.content| % 2 == 0
    requires ProcessNode(n, readRego).Ok?
    requires LastKeyBelow(n.content, RegoFilenameKey, |n.content|).Some?
    ensures var idx := LastKeyBelow(n.content, RegoFilenameKey, |n.content|).value;
            var filename := FilenameBelow(n.content, |n.content|);
            var out := ProcessNode(n, readRego).value.content;
            && filename != ""
            && readRego(filename).Ok?
            && IsKey(out[idx], RegoKey)
            && out[idx + 1].style == LiteralStyle
            && out[idx + 1].value == RegoText(readRego(filename).value)
  {
  }

  /** With a single `rego_filename` key, no pair of the rewritten mapping is keyed `rego_filename` any more. */
  lemma NoFilenameLeft(n: YamlNode, readRego: string -> Result<string, string>)
    requires n.kind == MappingNode && |n.content| % 2 == 0
    requires ProcessNode(n, readRego).Ok?
    requires forall i, j :: 0 <= i < j < |n.content| && i % 2 == 0 && j % 2 == 0 ==>
               !(IsKey(n.content[i], RegoFilenameKey) && IsKey(n.content[j], RegoFilenameKey))
    ensures var out := ProcessNode(n, readRego).value.content;
            forall k :: 0 <= k < |out| && k % 2 == 0 ==> !IsKey(out[k], RegoFilenameKey)
  {
    MappingOutput(n, readRego);
    var c := n.content;
    RewriteLeavesNoFilename(c, ProcessValues(n, 0, readRego).value, LastKeyBelow(c, RegoFilenameKey, |c|),
                            ProcessNode(n, readRego).value.content);
  }

  /** A processed mapping holds the processed pairs, with the last `rego_filename` pair rewritten if there is one. */
  lemma MappingOutput(n: YamlNode, readRego: string -> Result<string, string>)
    requires n.kind == MappingNode && |n.content| % 2 == 0
    requires ProcessNode(n, readRego).Ok?
    ensures ProcessValues(n, 0, readRego).Ok?
    ensures var processed := ProcessValues(n, 0, readRego).value;
            var at := LastKeyBelow(n.content, RegoFilenameKey, |n.content|);
            var out := ProcessNode(n, readRego).value.content;
            && (at.None? ==> out == processed)
            && (at.Some? ==> exists rego :: out == Rewrite(processed, at.value, rego))
  {
    var c := n.content;
    var processed := ProcessValues(n, 0, readRego).value;
    var at := LastKeyBelow(c, RegoFilenameKey, |c|);
    assert ProcessNode(n, readRego) == ProcessMapping(n, readRego);
    if at.Some? {
      var text := readRego(FilenameBelow(c, |c|)).value;
      assert ProcessNode(n, readRego).value.content == Rewrite(processed, at.value, RegoText(text));
    }
  }

  /** Rewriting the only `rego_filename` key leaves no key of that name among the pairs. */
  lemma RewriteLeavesNoFilename(c: seq<YamlNode>, processed: seq<YamlNode>, at: Option<nat>, out: seq<YamlNode>)
    requires |c| % 2 == 0 && |processed| == |c|
    requires forall k :: 0 <= k < |c| && k % 2 == 0 ==> processed[k] == c[k]
    requires forall i, j :: 0 <= i < j < |c| && i % 2 == 0 && j % 2 == 0 ==>
               !(IsKey(c[i], RegoFilenameKey) && IsKey(c[j], RegoFilenameKey))
    requires at.Some? ==> at.value < |c| && at.value % 2 == 0 && IsKey(c[at.value], RegoFilenameKey)
    requires at.None? ==> out == processed && forall k :: 0 <= k < |c| && k % 2 == 0 ==> !IsKey(c[k], RegoFilenameKey)
    requires at.Some? ==> exists rego :: out == Rewrite(processed, at.value, rego)
    ensures forall k :: 0 <= k < |out| && k % 2 == 0 ==> !IsKey(out[k], RegoFilenameKey)
  {
    if at.Some? {
      var rego :| out == Rewrite(processed, at.value, rego);
      forall k | 0 <= k < |out| && k % 2 == 0 ensures !IsKey(out[k], RegoFilenameKey) {
        if k == at.value {
          assert out[k].value == RegoKey;
        } else {
          assert out[k] == c[k];
        }
      }
    }
  }


  // ---------------------------------------------------------------------------
  // The top-level kind
  // ---------------------------------------------------------------------------

  /** The message of the runtime panic an out-of-range index raises. */
  const IndexOutOfRange: string := "runtime error: index out of range"

  /** The node `ensurePolicyDomainKind` scans: a document's first child, or a mapping itself. */
  function ScannedRoot(node: YamlNode): Option<YamlNode>
  {
    if node.kind == DocumentNode && |node.content| > 0 then Some(node.content[0])
    else if node.kind == MappingNode then Some(node)
    else None
  }

  /** The tree with its scanned node replaced. */
  function WithRoot(node: YamlNode, root: YamlNode): YamlNode
  {
    if node.kind == DocumentNode && |node.content| > 0 then node.(content := node.content[0 := root])
    else root
  }

  /** Walking `c` in steps of two from 0 reaches an index `i` with no partner at `i + 1` before any "kind" key. */
  predicate PairsRunOut(c: seq<YamlNode>)
  {
    |c| % 2 == 1 && forall k :: 0 <= k < |c| - 1 && k % 2 == 0 ==> !IsKey(c[k], "kind")
  }

  /** The first pair keyed "kind". */
  function FirstKindPair(c: seq<YamlNode>, from: nat): (r: Option<nat>)
    requires from % 2 == 0
    ensures r.Some? ==> from <= r.value && r.value + 1 < |c| && r.value % 2 == 0 && IsKey(c[r.value], "kind")
    ensures r.Some? ==> forall k :: from <= k < r.value && k % 2 == 0 ==> !IsKey(c[k], "kind")
    ensures r.None? ==> forall k :: from <= k < |c| - 1 && k % 2 == 0 ==> !IsKey(c[k], "kind")
    decreases |c| - from
  {
    if from + 1 >= |c| then None
    else if IsKey(c[from], "kind") then Some(from)
    else FirstKindPair(c, from + 2)
  }

  /** The pairs with the value of the first "kind" pair set to "PolicyDomain" when it is a scalar. */
  function SetKind(c: seq<YamlNode>): (r: seq<YamlNode>)
    ensures |r| == |c|
    ensures forall k :: 0 <= k < |c| && (FirstKindPair(c, 0).None? || k != FirstKindPair(c, 0).value + 1) ==>
              r[k] == c[k]
    ensures FirstKindPair(c, 0).Some? && c[FirstKindPair(c, 0).value + 1].kind == ScalarNode ==>
              r[FirstKindPair(c, 0).value + 1] == c[FirstKindPair(c, 0).value + 1].(value := "PolicyDomain")
  {
    match FirstKindPair(c, 0)
    case None => c
    case Some(k) => if c[k + 1].kind == ScalarNode then c[k + 1 := c[k + 1].(value := "PolicyDomain")] else c
  }

  /**
   * `ensurePolicyDomainKind` as written: the scanned node is taken as a
   * mapping whatever its kind, so a scan that finds no "kind" key in an odd
   * number of children reads past the end and panics.
   */
  method EnsurePolicyDomainKindAsWritten(node: YamlNode) returns (r: Result<YamlNode, string>)
    ensures r.Err? <==> ScannedRoot(node).Some? && PairsRunOut(ScannedRoot(node).value.content)
    ensures r.Err? ==> r.error == IndexOutOfRange
    ensures r.Ok? ==> r.value == (match ScannedRoot(node)
                                  case None => node
                                  case Some(root) => WithRoot(node, root.(content := SetKind(root.content))))
  {
    var rootMapping: YamlNode;
    if node.kind == DocumentNode && |node.content| > 0 {
      rootMapping := node.content[0];
    } else if node.kind == MappingNode {
      rootMapping := node;
    } else {
      return Ok(node);
    }
    var c := rootMapping.content;
    var i := 0;
    while i < |c|
      invariant i % 2 == 0 && 0 <= i <= |c|
      invariant forall k :: 0 <= k < i && k % 2 == 0 ==> !IsKey(c[k], "kind")
      invariant FirstKindPair(c, 0) == FirstKindPair(c, i)
    {
      if i + 1 >= |c| {
        return Err(IndexOutOfRange);
      }
      var keyNode := c[i];
      var valueNode := c[i + 1];
      if IsKey(keyNode, "kind") {
        if valueNode.kind == ScalarNode {
          return Ok(WithRoot(node, rootMapping.(content := c[i + 1 := valueNode.(value := "PolicyDomain")])));
        }
        return Ok(WithRoot(node, rootMapping.(content := c)));
      }
      i := i + 2;
    }
    assert FirstKindPair(c, i).None?;
    return Ok(WithRoot(node, rootMapping.(content := c)));
  }

  /** A document whose top level is a one-item sequence makes the scan as written panic. */
  lemma SequenceRootPanics()
    ensures var node := YamlNode(DocumentNode, 0, "", [YamlNode(SequenceNode, 0, "", [YamlNode(ScalarNode, 0, "x", [])])]);
            ScannedRoot(node).Some? && PairsRunOut(ScannedRoot(node).value.content)
  {
  }

  /** The node the rename applies to: a document's first child or a mapping itself, and only when it is a mapping. */
  function KindTarget(node: YamlNode): Option<YamlNode>
  {
    match ScannedRoot(node)
    case Some(root) => if root.kind == MappingNode then Some(root) else None
    case None => None
  }

  /** The tree with the first top-level "kind" renamed; everything else unchanged. */
  function WithPolicyDomainKind(node: YamlNode): YamlNode
  {
    match KindTarget(node)
    case None => node
    case Some(root) => WithRoot(node, root.(content := SetKind(root.content)))
  }

  /**
   * `ensurePolicyDomainKind` as evidently intended: only a mapping is
   * scanned, and only whole pairs are read, so it never fails.
   */
  method EnsurePolicyDomainKind(node: YamlNode) returns (r: YamlNode)
    ensures r == WithPolicyDomainKind(node)
    ensures KindTarget(node).None? ==> r == node
    ensures r.kind == node.kind && |r.content| == |node.content|
  {
    var target := KindTarget(node);
    if target.None? {
      return node;
    }
    var rootMapping := target.value;
    var c := rootMapping.content;
    var i := 0;
    while i + 1 < |c|
      invariant i % 2 == 0
      invariant FirstKindPair(c, 0) == FirstKindPair(c, i)
    {
      if IsKey(c[i], "kind") {
        if c[i + 1].kind == ScalarNode {
          return WithRoot(node, rootMapping.(content := c[i + 1 := c[i + 1].(value := "PolicyDomain")]));
        }
        return WithRoot(node, rootMapping.(content := c));
      }
      i := i + 2;
    }
    return WithRoot(node, rootMapping.(content := c));
  }

  /** Wherever the scan as written does not panic and scans a mapping, the two agree. */
  lemma IntendedAgreesOnMappings(node: YamlNode)
    requires ScannedRoot(node).Some? && ScannedRoot(node).value.kind == MappingNode
    ensures WithPolicyDomainKind(node) ==
            WithRoot(node, ScannedRoot(node).value.(content := SetKind(ScannedRoot(node).value.content)))
  {
  }

  /** A processed tree never makes the scan as written panic on a mapping: mappings have an even number of children. */
  lemma ProcessedMappingIsEven(n: YamlNode, readRego: string -> Result<string, string>)
    requires n.kind == MappingNode && ProcessNode(n, readRego).Ok?
    ensures |n.content| % 2 == 0 && |ProcessNode(n, readRego).value.content| % 2 == 0
  {
  }

  // ---------------------------------------------------------------------------
  // Building files
  // ---------------------------------------------------------------------------

  /** `Result`: the outcome of building one file. */
  datatype BuildResult = BuildResult(inputFile: string, outputFile: string, success: bool, error: Option<string>)

  /** The file system and YAML library calls `File` makes. */
  datatype BuildIo = BuildIo(
    readFile: string -> Result<string, string>,
    parse: string -> Result<YamlNode, string>,
    readRego: string -> Result<string, string>,
    marshal: YamlNode -> Result<string, string>,
    writeFile: (string, string) -> Option<string>)

  /** The text `File` writes for an input text, or the error that stops it before writing. */
  function BuiltText(input: string, io: BuildIo): (r: Result<string, string>)
  {
    match io.parse(input)
    case Err(e) => Err("failed to parse YAML: " + e)
    case Ok(root) =>
      match ProcessNode(root, io.readRego)
      case Err(e) => Err(e)
      case Ok(processed) =>
        match io.marshal(WithPolicyDomainKind(processed))
        case Err(e) => Err("failed to marshal output YAML: " + e)
        case Ok(out) => Ok(out)
  }

  /**
   * `File`: the output defaults to the generated name; the build succeeds
   * exactly when reading, parsing, rewriting, printing and writing all
   * succeed, and then the written text is the rewritten document.
   */
  function File(inputFile: string, outputFile: string, io: BuildIo): (r: BuildResult)
    ensures r.inputFile == inputFile
    ensures r.outputFile == (if outputFile == "" then OutputFilename(inputFile) else outputFile)
    ensures r.success <==> r.error.None?
    ensures r.success <==>
      && io.readFile(inputFile).Ok?
      && BuiltText(io.readFile(inputFile).value, io).Ok?
      && io.writeFile(r.outputFile, BuiltText(io.readFile(inputFile).value, io).value).None?
    ensures io.readFile(inputFile).Err? ==> r.error == Some("failed to read input file: " + io.readFile(inputFile).error)
  {
    var out := if outputFile == "" then OutputFilename(inputFile) else outputFile;
    match io.readFile(inputFile)
    case Err(e) => BuildResult(inputFile, out, false, Some("failed to read input file: " + e))
    case Ok(input) =>
      match BuiltText(input, io)
      case Err(e) => BuildResult(inputFile, out, false, Some(e))
      case Ok(text) =>
        match io.writeFile(out, text)
        case Some(e) => BuildResult(inputFile, out, false, Some("failed to write output file: " + e))
        case None => BuildResult(inputFile, out, true, None)
  }

  const NoFilesMessage: string := "no files specified, use --file/-f to specify PolicyDomainReference YAML files to build"
  const OutputWithManyMessage: string := "cannot specify --output when building multiple files"
  const BuildFailedMessage: string := "build failed for one or more files"

  /**
   * `Execute`: no file, or several files with one output path, are errors;
   * otherwise every file is built in order, and the command fails exactly
   * when some build failed.
   */
  method Execute(files: seq<string>, outputFile: string, io: BuildIo)
    returns (results: seq<BuildResult>, err: Option<string>)
    ensures files == [] ==>
      results == [] && err == Some(NoFilesMessage)
    ensures |files| > 1 && outputFile != "" ==>
      results == [] && err == Some(OutputWithManyMessage)
    ensures files != [] && (|files| == 1 || outputFile == "") ==>
      && |results| == |files|
      && (forall i :: 0 <= i < |files| ==> results[i] == File(files[i], outputFile, io))
      && (err.Some? <==> exists i :: 0 <= i < |results| && !results[i].success)
      && (err.Some? ==> err.value == BuildFailedMessage)
  {
    if |files| == 0 {
      return [], Some(NoFilesMessage);
    }
    if |files| > 1 && outputFile != "" {
      return [], Some(OutputWithManyMessage);
    }
    var hasErrors;
    results, hasErrors := BuildAll(files, outputFile, io);
    err := if hasErrors then Some(BuildFailedMessage) else None;
  }

  /** The build loop of `Execute`: every file in order, noting whether some build failed. */
  method BuildAll(files: seq<string>, outputFile: string, io: BuildIo)
    returns (results: seq<BuildResult>, hasErrors: bool)
    ensures |results| == |files|
    ensures forall i :: 0 <= i < |files| ==> results[i] == File(files[i], outputFile, io)
    ensures hasErrors <==> exists i :: 0 <= i < |results| && !results[i].success
  {
    results := [];
    hasErrors := false;
    for i := 0 to |files|
      invariant |results| == i
      invariant forall k :: 0 <= k < i ==> results[k] == File(files[k], outputFile, io)
      invariant hasErrors <==> exists k :: 0 <= k < i && !results[k].success
    {
      var result := File(files[i], outputFile, io);
      results := results + [result];
      if !result.success {
        hasErrors := true;
      }
    }
  }
}
