/**
 * Regal linting in `mpe lint` (cmd/mpe/subcommands/lint/regal.go): the
 * non-blank Rego of every library, policy and mapper of the loaded domain
 * files is collected under a synthetic file name, together with a
 * description of the entity it came from, and handed to the linter.
 *
 * Loading a domain file is the parameter `load`; running Regal on the
 * collected files is the parameter `lint`, which returns the number of
 * violations it reports (or 1 when Regal itself fails).
 */
module Regal {
  import opened Wrappers
  import opened Text

  /** A character of an entity ID as it appears in a synthetic name. */
  function SafeChar(c: char): char
  {
    if c == ':' || c == '/' then '_' else c
  }

  /** The ':' and '/' of an entity ID replaced by '_'. */
  function SafeId(id: string): string
  {
    if id == [] then [] else [SafeChar(id[0])] + SafeId(id[1..])
  }

  /** `SafeId` is the two `strings.ReplaceAll` calls of `syntheticFileName`, and keeps every other character in place. */
  lemma {:induction false} SafeIdMeaning(id: string)
    ensures SafeId(id) == ReplaceChar(ReplaceChar(id, ':', '_'), '/', '_')
    ensures |SafeId(id)| == |id| && ':' !in SafeId(id) && '/' !in SafeId(id)
    ensures forall i :: 0 <= i < |id| ==> SafeId(id)[i] == SafeChar(id[i])
  {
    if id != [] {
      SafeIdMeaning(id[1..]);
      var r := ReplaceChar(ReplaceChar(id, ':', '_'), '/', '_');
      assert r == [SafeChar(id[0])] + r[1..];
    }
  }

  const Underscore := "_"
  const RegoExtension := ".rego"

  /** `syntheticFileName`: `<sourceFile>_<entityType>_<safe id>.rego`. */
  function SyntheticFileName(sourceFile: string, entityType: string, entityId: string): string
  {
    sourceFile + Underscore + entityType + Underscore + SafeId(entityId) + RegoExtension
  }

  /** A synthetic name starts with the source file and the type, ends in ".rego", and holds the safe ID in between. */
  lemma SyntheticFileNameShape(sourceFile: string, entityType: string, entityId: string)
    ensures var r := SyntheticFileName(sourceFile, entityType, entityId);
            HasPrefix(r, sourceFile + "_" + entityType + "_") && HasSuffix(r, ".rego") &&
            r[|sourceFile| + |entityType| + 2..|r| - 5] == SafeId(entityId)
  {
    var r := SyntheticFileName(sourceFile, entityType, entityId);
    var p := sourceFile + "_" + entityType + "_";
    assert r == p + SafeId(entityId) + ".rego";
    assert r[..|p|] == p;
    assert r[|p|..|r| - 5] == SafeId(entityId);
  }

  /** IDs free of ':' and '/' keep their name apart: within one file and type, the name determines the ID. */
  lemma CleanIdsKeepNamesApart(sourceFile: string, entityType: string, id1: string, id2: string)
    requires ':' !in id1 && '/' !in id1 && ':' !in id2 && '/' !in id2
    requires SyntheticFileName(sourceFile, entityType, id1) == SyntheticFileName(sourceFile, entityType, id2)
    ensures id1 == id2
  {
    SyntheticFileNameShape(sourceFile, entityType, id1);
    SyntheticFileNameShape(sourceFile, entityType, id2);
    SafeIdMeaning(id1);
    SafeIdMeaning(id2);
    assert forall i :: 0 <= i < |id1| ==> id1[i] == SafeId(id1)[i];
    assert forall i :: 0 <= i < |id2| ==> id2[i] == SafeId(id2)[i];
  }

  /** IDs that differ only in ':' against '/' share a name: "a:b" and "a/b" both become "<file>_<type>_a_b.rego". */
  lemma SeparatorsCollide(sourceFile: string, entityType: string, pre: string, post: string)
    ensures SyntheticFileName(sourceFile, entityType, pre + ":" + post) ==
            SyntheticFileName(sourceFile, entityType, pre + "/" + post)
  {
    var x, y := pre + ":" + post, pre + "/" + post;
    SafeIdMeaning(x);
    SafeIdMeaning(y);
    forall i | 0 <= i < |x|
      ensures SafeId(x)[i] == SafeId(y)[i]
    {
      if i < |pre| {
        assert x[i] == pre[i] == y[i];
      } else if i > |pre| {
        assert x[i] == post[i - |pre| - 1] == y[i];
      } else {
        assert x[i] == ':' && y[i] == '/';
      }
    }
    assert SafeId(x) == SafeId(y);
  }


  /** A mapper of a domain file: its ID may be empty. */
  datatype Mapper = Mapper(id: string, rego: string)

  /** The parts of a loaded domain file that carry Rego. */
  datatype Domain = Domain(libraries: map<string, string>, policies: map<string, string>, mappers: seq<Mapper>)

  /** One piece of Rego: the file it is in, its kind ("library", "policy" or "mapper"), its ID and its code. */
  datatype Entity = Entity(file: string, kind: string, id: string, rego: string)

  /** The ID a mapper is reported under: its own, or `mapper[i]` for the i-th mapper without one. */
  function MapperId(m: Mapper, i: nat): (id: string)
    ensures m.id != "" ==> id == m.id
    ensures m.id == "" ==> id == "mapper[" + NatToString(i) + "]"
  {
    if m.id == "" then "mapper[" + NatToString(i) + "]" else m.id
  }

  function NameOf(e: Entity): string
  {
    SyntheticFileName(e.file, e.kind, e.id)
  }

  /** The description `<file>:<kind>:<id>` recorded for an entity. */
  function InfoOf(e: Entity): string
  {
    e.file + ":" + e.kind + ":" + e.id
  }

  /** Rego that is empty or white space only is not linted. */
  predicate Blank(rego: string)
  {
    TrimSpace(rego) == ""
  }

  /** The entities of the given IDs of a map of libraries or policies. */
  function KeyedEntities(file: string, kind: string, byId: map<string, string>, ids: set<string>): set<Entity>
  {
    set id | id in ids && id in byId :: Entity(file, kind, id, byId[id])
  }

  /** The entities of the first `n` mappers. */
  function MapperEntities(file: string, mappers: seq<Mapper>, n: nat): set<Entity>
  {
    set i | 0 <= i < n && i < |mappers| :: Entity(file, "mapper", MapperId(mappers[i], i), mappers[i].rego)
  }

  /** The entities of a domain file. */
  function EntitiesOf(file: string, d: Domain): set<Entity>
  {
    KeyedEntities(file, "library", d.libraries, d.libraries.Keys) + KeyedEntities(file, "policy", d.policies, d.policies.Keys) +
    MapperEntities(file, d.mappers, |d.mappers|)
  }

  /** Every piece of Rego of the files that load, blank or not. */
  function AllEntities(files: seq<string>, load: string -> Result<Domain, string>): set<Entity>
  {
    if files == [] then {}
    else
      var f := files[|files| - 1];
      AllEntities(files[..|files| - 1], load) +
      (match load(f)
       case Err(_) => {}
       case Ok(d) => EntitiesOf(f, d))
  }

  /**
   * The two maps agree with the pool: they have the same names, and every
   * name holds the code and the description of one entity of the pool with
   * non-blank Rego that bears it.
   */
  ghost predicate Sound(regoFiles: map<string, string>, fileToEntity: map<string, string>, pool: set<Entity>)
  {
    regoFiles.Keys == fileToEntity.Keys &&
    forall name :: name in regoFiles ==> Backed(name, regoFiles[name], fileToEntity[name], pool)
  }

  /** Some entity of the pool with non-blank Rego has this name, this Rego and this description. */
  ghost predicate Backed(name: string, rego: string, info: string, pool: set<Entity>)
  {
    exists e :: e in pool && !Blank(e.rego) && NameOf(e) == name && rego == e.rego && info == InfoOf(e)
  }

  /** Every entity of `done` with non-blank Rego has its name in the map. */
  ghost predicate Covers(regoFiles: map<string, string>, done: set<Entity>)
  {
    forall e :: e in done && !Blank(e.rego) ==> NameOf(e) in regoFiles
  }

  /** What the collection loop of `performRegalLinting` produces. */
  ghost predicate IsCollection(files: seq<string>, load: string -> Result<Domain, string>,
                               regoFiles: map<string, string>, fileToEntity: map<string, string>)
  {
    Sound(regoFiles, fileToEntity, AllEntities(files, load)) && Covers(regoFiles, AllEntities(files, load))
  }

  /** Recording an entity of the pool keeps the maps sound and covers it. */
  lemma AddEntity(regoFiles: map<string, string>, fileToEntity: map<string, string>, pool: set<Entity>, e: Entity)
    requires Sound(regoFiles, fileToEntity, pool) && e in pool && !Blank(e.rego)
    ensures Sound(regoFiles[NameOf(e) := e.rego], fileToEntity[NameOf(e) := InfoOf(e)], pool)
  {
    var rf, em := regoFiles[NameOf(e) := e.rego], fileToEntity[NameOf(e) := InfoOf(e)];
    forall name | name in rf
      ensures Backed(name, rf[name], em[name], pool)
    {
      if name == NameOf(e) {
        assert rf[name] == e.rego && em[name] == InfoOf(e);
      } else {
        assert rf[name] == regoFiles[name] && em[name] == fileToEntity[name];
      }
    }
  }

  /** A larger pool keeps the maps sound. */
  lemma SoundInLargerPool(regoFiles: map<string, string>, fileToEntity: map<string, string>, pool: set<Entity>, larger: set<Entity>)
    requires Sound(regoFiles, fileToEntity, pool) && pool <= larger
    ensures Sound(regoFiles, fileToEntity, larger)
  {
    forall name | name in regoFiles
      ensures Backed(name, regoFiles[name], fileToEntity[name], larger)
    {
      assert Backed(name, regoFiles[name], fileToEntity[name], pool);
      var e :| e in pool && !Blank(e.rego) && NameOf(e) == name &&
               regoFiles[name] == e.rego && fileToEntity[name] == InfoOf(e);
      assert e in larger;
    }
  }

  /** Records one non-blank entity under its synthetic name, with its description. */
  method Record(e: Entity, ghost pool: set<Entity>, regoFiles0: map<string, string>, fileToEntity0: map<string, string>)
    returns (regoFiles: map<string, string>, fileToEntity: map<string, string>)
    requires Sound(regoFiles0, fileToEntity0, pool) && e in pool && !Blank(e.rego)
    ensures Sound(regoFiles, fileToEntity, pool)
    ensures regoFiles.Keys == regoFiles0.Keys + {NameOf(e)}
  {
    AddEntity(regoFiles0, fileToEntity0, pool, e);
    var syntheticName := SyntheticFileName(e.file, e.kind, e.id);
    regoFiles := regoFiles0[syntheticName := e.rego];
    fileToEntity := fileToEntity0[syntheticName := e.file + ":" + e.kind + ":" + e.id];
  }

  /** Coverage survives new keys and extends to an entity whose name is recorded, or whose Rego is blank. */
  lemma CoverOneMore(regoFiles0: map<string, string>, regoFiles: map<string, string>, done: set<Entity>, e: Entity)
    requires Covers(regoFiles0, done) && regoFiles0.Keys <= regoFiles.Keys
    requires !Blank(e.rego) ==> NameOf(e) in regoFiles
    ensures Covers(regoFiles, done + {e})
  {
  }

  /** Coverage of a set is coverage of each of its subsets. */
  lemma CoverSubset(regoFiles: map<string, string>, done: set<Entity>, part: set<Entity>)
    requires Covers(regoFiles, done) && part <= done
    ensures Covers(regoFiles, part)
  {
  }

  /**
   * The entities of a map of libraries or policies, visited in Go's
   * unspecified order; the non-blank ones are recorded.
   */
  method CollectKeyed(file: string, kind: string, byId: map<string, string>, ghost pool: set<Entity>,
                      regoFiles0: map<string, string>, fileToEntity0: map<string, string>)
    returns (regoFiles: map<string, string>, fileToEntity: map<string, string>)
    requires Sound(regoFiles0, fileToEntity0, pool)
    requires KeyedEntities(file, kind, byId, byId.Keys) <= pool
    ensures Sound(regoFiles, fileToEntity, pool)
    ensures regoFiles0.Keys <= regoFiles.Keys
    ensures Covers(regoFiles, KeyedEntities(file, kind, byId, byId.Keys))
  {
    regoFiles, fileToEntity := regoFiles0, fileToEntity0;
    var pending := byId.Keys;
    ghost var visited: set<string> := {};
    while pending != {}
      invariant visited + pending == byId.Keys
      invariant Sound(regoFiles, fileToEntity, pool) && regoFiles0.Keys <= regoFiles.Keys
      invariant Covers(regoFiles, KeyedEntities(file, kind, byId, visited))
      decreases pending
    {
      var id :| id in pending;
      regoFiles, fileToEntity := RecordKeyed(file, kind, byId, id, pool, visited, regoFiles, fileToEntity);
      visited := visited + {id};
      pending := pending - {id};
    }
  }

  /** One entity of a map of libraries or policies, recorded when its Rego is not blank. */
  method RecordKeyed(file: string, kind: string, byId: map<string, string>, id: string, ghost pool: set<Entity>,
                     ghost visited: set<string>, regoFiles0: map<string, string>, fileToEntity0: map<string, string>)
    returns (regoFiles: map<string, string>, fileToEntity: map<string, string>)
    requires id in byId && KeyedEntities(file, kind, byId, byId.Keys) <= pool
    requires Sound(regoFiles0, fileToEntity0, pool) && Covers(regoFiles0, KeyedEntities(file, kind, byId, visited))
    ensures Sound(regoFiles, fileToEntity, pool) && regoFiles0.Keys <= regoFiles.Keys
    ensures Covers(regoFiles, KeyedEntities(file, kind, byId, visited + {id}))
  {
    regoFiles, fileToEntity := regoFiles0, fileToEntity0;
    var rego := byId[id];
    if !Blank(rego) {
      regoFiles, fileToEntity := Record(Entity(file, kind, id, rego), pool, regoFiles, fileToEntity);
    }
    KeyedOneMore(file, kind, byId, visited, id);
    CoverOneMore(regoFiles0, regoFiles, KeyedEntities(file, kind, byId, visited), Entity(file, kind, id, rego));
  }

  lemma KeyedOneMore(file: string, kind: string, byId: map<string, string>, ids: set<string>, id: string)
    requires id in byId
    ensures KeyedEntities(file, kind, byId, ids + {id}) == KeyedEntities(file, kind, byId, ids) + {Entity(file, kind, id, byId[id])}
  {
  }

  /** The mappers of a domain file, in order; the non-blank ones are recorded. */
  method CollectMappers(file: string, mappers: seq<Mapper>, ghost pool: set<Entity>,
                        regoFiles0: map<string, string>, fileToEntity0: map<string, string>)
    returns (regoFiles: map<string, string>, fileToEntity: map<string, string>)
    requires Sound(regoFiles0, fileToEntity0, pool)
    requires MapperEntities(file, mappers, |mappers|) <= pool
    ensures Sound(regoFiles, fileToEntity, pool)
    ensures regoFiles0.Keys <= regoFiles.Keys
    ensures Covers(regoFiles, MapperEntities(file, mappers, |mappers|))
  {
    regoFiles, fileToEntity := regoFiles0, fileToEntity0;
    for i := 0 to |mappers|
      invariant Sound(regoFiles, fileToEntity, pool)
      invariant regoFiles0.Keys <= regoFiles.Keys
      invariant Covers(regoFiles, MapperEntities(file, mappers, i))
    {
      var mapper := mappers[i];
      ghost var before := regoFiles;
      ghost var e := Entity(file, "mapper", MapperId(mapper, i), mapper.rego);
      if !Blank(mapper.rego) {
        var mapperId := mapper.id;
        if mapperId == "" {
          mapperId := "mapper[" + NatToString(i) + "]";
        }
        assert mapperId == e.id;
        regoFiles, fileToEntity := Record(Entity(file, "mapper", mapperId, mapper.rego), pool, regoFiles, fileToEntity);
      }
      MapperOneMore(file, mappers, i);
      CoverOneMore(before, regoFiles, MapperEntities(file, mappers, i), e);
    }
  }

  lemma MapperOneMore(file: string, mappers: seq<Mapper>, i: nat)
    requires i < |mappers|
    ensures MapperEntities(file, mappers, i + 1) ==
            MapperEntities(file, mappers, i) + {Entity(file, "mapper", MapperId(mappers[i], i), mappers[i].rego)}
  {
  }

  /** The collection loop over the files: files that do not load are skipped. */
  method CollectRego(files: seq<string>, load: string -> Result<Domain, string>)
    returns (regoFiles: map<string, string>, fileToEntity: map<string, string>)
    ensures IsCollection(files, load, regoFiles, fileToEntity)
  {
    regoFiles, fileToEntity := map[], map[];
    for k := 0 to |files|
      invariant Sound(regoFiles, fileToEntity, AllEntities(files[..k], load))
      invariant Covers(regoFiles, AllEntities(files[..k], load))
    {
      var file := files[k];
      ghost var before := AllEntities(files[..k], load);
      ghost var pool := AllEntities(files[..k + 1], load);
      assert files[..k + 1][..k] == files[..k];
      SoundInLargerPool(regoFiles, fileToEntity, before, pool);
      var domain := load(file);
      if domain.Err? {
        continue;
      }
      var d := domain.value;
      ghost var keys0 := regoFiles.Keys;
      regoFiles, fileToEntity := CollectKeyed(file, "library", d.libraries, pool, regoFiles, fileToEntity);
      ghost var keys1 := regoFiles.Keys;
      regoFiles, fileToEntity := CollectKeyed(file, "policy", d.policies, pool, regoFiles, fileToEntity);
      ghost var keys2 := regoFiles.Keys;
      regoFiles, fileToEntity := CollectMappers(file, d.mappers, pool, regoFiles, fileToEntity);
      assert pool == before + EntitiesOf(file, d);
    }
    assert files[..|files|] == files;
  }

  /**
   * `performRegalLinting`: with no non-blank Rego anywhere the result is 0
   * and the linter is not run; otherwise it is the linter's result on the
   * collected files. The two maps are the ones it builds.
   */
  method PerformRegalLinting(files: seq<string>, load: string -> Result<Domain, string>,
                             lint: (map<string, string>, map<string, string>) -> int)
    returns (violations: int, ghost regoFiles: map<string, string>, ghost fileToEntity: map<string, string>)
    ensures IsCollection(files, load, regoFiles, fileToEntity)
    ensures violations == (if regoFiles == map[] then 0 else lint(regoFiles, fileToEntity))
  {
    var rf, em := CollectRego(files, load);
    regoFiles, fileToEntity := rf, em;
    if |rf| == 0 {
      violations := 0;
      return;
    }
    violations := lint(rf, em);
  }

  /** The maps are empty exactly when every piece of Rego is blank. */
  lemma NothingCollected(files: seq<string>, load: string -> Result<Domain, string>,
                         regoFiles: map<string, string>, fileToEntity: map<string, string>)
    requires IsCollection(files, load, regoFiles, fileToEntity)
    ensures regoFiles == map[] <==> forall e :: e in AllEntities(files, load) ==> Blank(e.rego)
  {
    if regoFiles != map[] {
      var name :| name in regoFiles;
      var e :| e in AllEntities(files, load) && !Blank(e.rego) && NameOf(e) == name &&
               regoFiles[name] == e.rego && fileToEntity[name] == InfoOf(e);
    }
  }
}
