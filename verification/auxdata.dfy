/**
 * Auxiliary data (pkg/core/auxdata/auxdata.go): the files of a directory,
 * typically a mounted ConfigMap, loaded into a map from file name to
 * content, and merged into a mapper's input under the key "auxdata".
 *
 * Reading the directory and its files is outside this model: `readDir`
 * gives the entries of a directory in the order `os.ReadDir` lists them,
 * and `readFile(dir, name)` the content of the file `name` in `dir`.
 */
module AuxData {
  import opened Wrappers
  import opened Text
  import opened Json

  /** The key under which auxdata is merged into the input. */
  const AuxDataKey := "auxdata"

  /**
   * `MergeAuxData`: with no auxdata the input is returned as it is; an
   * object input gains (or has replaced) the key "auxdata"; any other input,
   * including nil, is returned unchanged.
   */
  function MergeAuxData(input: Value, auxdata: map<string, Value>): (r: Value)
    ensures |auxdata| == 0 ==> r == input
    ensures !input.Obj? ==> r == input
    ensures input.Obj? && |auxdata| != 0 ==>
      r.Obj? && r.fields.Keys == input.fields.Keys + {AuxDataKey} && r.fields[AuxDataKey] == Obj(auxdata) &&
      forall k :: k in input.fields && k != AuxDataKey ==> r.fields[k] == input.fields[k]
  {
    if |auxdata| == 0 then input
    else match input
      case Obj(fields) => Obj(fields[AuxDataKey := Obj(auxdata)])
      case _ => input
  }

  /** Merging the same auxdata twice is merging it once. */
  lemma MergeIdempotent(input: Value, auxdata: map<string, Value>)
    ensures MergeAuxData(MergeAuxData(input, auxdata), auxdata) == MergeAuxData(input, auxdata)
  {
    if |auxdata| != 0 && input.Obj? {
      var once := MergeAuxData(input, auxdata);
      assert once.fields[AuxDataKey := Obj(auxdata)] == once.fields;
    }
  }

  /** Merging new auxdata replaces what an earlier merge put there. */
  lemma MergeReplaces(input: Value, first: map<string, Value>, second: map<string, Value>)
    requires |second| != 0
    ensures MergeAuxData(MergeAuxData(input, first), second) == MergeAuxData(input, second)
  {
    if |first| != 0 && input.Obj? {
      assert input.fields[AuxDataKey := Obj(first)][AuxDataKey := Obj(second)] ==
             input.fields[AuxDataKey := Obj(second)];
    }
  }

  /** One entry of a directory listing. */
  datatype DirEntry = DirEntry(name: string, isDir: bool)

  /** Directories and hidden files (such as a ConfigMap's metadata) are not loaded. */
  predicate Skipped(e: DirEntry)
  {
    e.isDir || HasPrefix(e.name, ".")
  }

  /** The error for a file that could not be read. */
  function FileError(name: string, err: string): string
  {
    "failed to read auxdata file " + name + ": " + err
  }

  /**
   * The map the loop of `LoadAuxData` builds from the entries, in order,
   * or the error of the first loaded file that could not be read.
   */
  function Loaded(dir: string, entries: seq<DirEntry>, readFile: (string, string) -> Result<string, string>)
    : (r: Result<map<string, Value>, string>)
  {
    if entries == [] then Ok(map[])
    else
      var e := entries[|entries| - 1];
      match Loaded(dir, entries[..|entries| - 1], readFile)
      case Err(msg) => Err(msg)
      case Ok(m) =>
        if Skipped(e) then Ok(m)
        else match readFile(dir, e.name)
          case Err(err) => Err(FileError(e.name, err))
          case Ok(data) => Ok(m[e.name := Str(data)])
  }

  /**
   * What is loaded: exactly the entries that are neither directories nor
   * hidden, each with the content of its file; the load fails exactly when
   * one of those files cannot be read, with that file's error.
   */
  lemma {:induction false} LoadedMeaning(dir: string, entries: seq<DirEntry>, readFile: (string, string) -> Result<string, string>)
    ensures Loaded(dir, entries, readFile).Ok? <==>
            forall i :: 0 <= i < |entries| && !Skipped(entries[i]) ==> readFile(dir, entries[i].name).Ok?
    ensures Loaded(dir, entries, readFile).Ok? ==>
      var m := Loaded(dir, entries, readFile).value;
      (forall name :: name in m <==> exists i :: 0 <= i < |entries| && entries[i].name == name && !Skipped(entries[i])) &&
      (forall name :: name in m ==> !HasPrefix(name, ".") && m[name] == Str(readFile(dir, name).value))
    ensures Loaded(dir, entries, readFile).Err? ==>
      exists i :: 0 <= i < |entries| && !Skipped(entries[i]) && readFile(dir, entries[i].name).Err? &&
                  Loaded(dir, entries, readFile).error == FileError(entries[i].name, readFile(dir, entries[i].name).error)
  {
    if entries != [] {
      var prefix := entries[..|entries| - 1];
      var e := entries[|entries| - 1];
      LoadedMeaning(dir, prefix, readFile);
      assert forall i :: 0 <= i < |prefix| ==> prefix[i] == entries[i];
      if Loaded(dir, prefix, readFile).Ok? && !Skipped(e) && readFile(dir, e.name).Ok? {
        var m := Loaded(dir, entries, readFile).value;
        assert e.name in m && entries[|entries| - 1].name == e.name;
      }
    }
  }

  /**
   * `LoadAuxData`: nothing is configured for an empty path; a directory that
   * cannot be read is an error; otherwise each entry is loaded in turn and
   * the first file that cannot be read is the error.
   */
  method LoadAuxData(path: string, readDir: string -> Result<seq<DirEntry>, string>,
                     readFile: (string, string) -> Result<string, string>)
    returns (r: Result<Option<map<string, Value>>, string>)
    ensures path == "" ==> r == Ok(None)
    ensures path != "" && readDir(path).Err? ==>
      r == Err("failed to read auxdata directory " + path + ": " + readDir(path).error)
    ensures path != "" && readDir(path).Ok? ==>
      match Loaded(path, readDir(path).value, readFile)
      case Ok(m) => r == Ok(Some(m))
      case Err(msg) => r == Err(msg)
  {
    if path == "" {
      return Ok(None);
    }
    var listing := readDir(path);
    if listing.Err? {
      return Err("failed to read auxdata directory " + path + ": " + listing.error);
    }
    var entries := listing.value;
    var result: map<string, Value> := map[];
    for i := 0 to |entries|
      invariant Loaded(path, entries[..i], readFile) == Ok(result)
    {
      var entry := entries[i];
      assert entries[..i + 1][..i] == entries[..i];
      if entry.isDir {
        continue;
      }
      var name := entry.name;
      if HasPrefix(name, ".") {
        continue;
      }
      var data := readFile(path, name);
      if data.Err? {
        assert entries[..i + 1] == entries[..i] + [entry];
        LoadedStopsAtError(path, entries, i + 1, readFile);
        return Err(FileError(name, data.error));
      }
      result := result[name := Str(data.value)];
    }
    assert entries[..|entries|] == entries;
    r := Ok(Some(result));
  }

  /** Once a file cannot be read, the load has failed with that file's error whatever follows. */
  lemma {:induction false} LoadedStopsAtError(dir: string, entries: seq<DirEntry>, i: nat,
                                               readFile: (string, string) -> Result<string, string>)
    requires i <= |entries| && Loaded(dir, entries[..i], readFile).Err?
    ensures Loaded(dir, entries, readFile) == Loaded(dir, entries[..i], readFile)
    decreases |entries| - i
  {
    if i < |entries| {
      assert entries[..i + 1][..i] == entries[..i];
      LoadedStopsAtError(dir, entries, i + 1, readFile);
    } else {
      assert entries[..i] == entries;
    }
  }
}
