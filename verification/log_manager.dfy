/**
 * The logger registry (internal/logging/logmanager.go): one logger per module
 * name, a default level for new loggers, and the `mod:level;...` setting that
 * updates them.
 *
 * A logger is reduced to its module name and level; the zap logger behind it
 * (internal/logging/logger.go) is not part of this model. The registry is the
 * process-wide singleton of the source, here an object the caller holds; the
 * mutex and the `sync.Once` initialisation are not modelled.
 */
module LogManager {
  import opened Wrappers
  import opened Text

  /** The `zapcore.Level` values the parser produces, lowest first. */
  datatype Level = Debug | Info | Warn | Error | Panic | Fatal

  /** `parseLevel`: the level a name denotes, ignoring ASCII case; any other name is Info, never an error. */
  function ParseLevel(levelStr: string): (l: Level)
    ensures Lower(levelStr) == "trace" ==> l == Debug
    ensures Lower(levelStr) !in {"panic", "fatal", "error", "warn", "warning", "info", "debug", "trace"} ==> l == Info
  {
    var s := Lower(levelStr);
    if s == "panic" then Panic
    else if s == "fatal" then Fatal
    else if s == "error" then Error
    else if s == "warn" || s == "warning" then Warn
    else if s == "info" then Info
    else if s == "debug" || s == "trace" then Debug
    else Info
  }

  /** The canonical name of each level. */
  function LevelName(l: Level): string
  {
    match l
    case Debug => "debug"
    case Info => "info"
    case Warn => "warn"
    case Error => "error"
    case Panic => "panic"
    case Fatal => "fatal"
  }

  /** Every level is reachable: parsing its name, in any ASCII case, gives it back. */
  lemma ParseLevelName(l: Level, spelled: string)
    requires Lower(spelled) == LevelName(l)
    ensures ParseLevel(spelled) == l
  {
  }

  lemma LowerChars(s: string)
    ensures forall i :: 0 <= i < |Lower(s)| ==> !IsUpperAscii(Lower(s)[i])
  {
  }

  /** Parsing ignores ASCII case: a name and its upper-cased form denote the same level. */
  lemma ParseLevelIgnoresCase(levelStr: string)
    ensures ParseLevel(Upper(levelStr)) == ParseLevel(levelStr)
  {
    assert Lower(Upper(levelStr)) == Lower(levelStr);
  }

  /** The setting with every space, tab and newline removed. */
  function StripWhitespace(s: string): (r: string)
    ensures ' ' !in r && '\t' !in r && '\n' !in r
    ensures forall c :: c in r ==> c in s
  {
    RemoveChar(RemoveChar(RemoveChar(s, ' '), '\t'), '\n')
  }

  /** One `module:level` entry of the setting; the module "." stands for the default. */
  datatype Entry = Entry(moduleName: string, level: Level)

  /** The entries of the `;`-separated parts that have exactly one `:`, in order. */
  function EntriesOf(parts: seq<string>): (r: seq<Entry>)
    ensures |r| <= |parts|
  {
    if parts == [] then [] else EntryOf(parts[0]) + EntriesOf(parts[1..])
  }

  /** The entry one part holds: none unless it splits into exactly two pieces at `:`. */
  function EntryOf(part: string): seq<Entry>
  {
    var pieces := Split(part, ':');
    if |pieces| == 2 then [Entry(pieces[0], ParseLevel(pieces[1]))] else []
  }

  lemma {:induction false} EntriesOfAppend(a: seq<string>, b: seq<string>)
    ensures EntriesOf(a + b) == EntriesOf(a) + EntriesOf(b)
  {
    if a == [] {
      assert a + b == b;
    } else {
      assert (a + b)[0] == a[0];
      assert (a + b)[1..] == a[1..] + b;
      EntriesOfAppend(a[1..], b);
      calc {
        EntriesOf(a + b);
        EntryOf(a[0]) + EntriesOf(a[1..] + b);
        EntryOf(a[0]) + (EntriesOf(a[1..]) + EntriesOf(b));
        (EntryOf(a[0]) + EntriesOf(a[1..])) + EntriesOf(b);
      }
    }
  }

  /** The entries of one more part. */
  lemma EntriesStep(logs: seq<string>, i: nat)
    requires i < |logs|
    ensures var pieces := Split(logs[i], ':');
            |pieces| != 2 ==> EntriesOf(logs[..i + 1]) == EntriesOf(logs[..i])
    ensures var pieces := Split(logs[i], ':');
            |pieces| == 2 ==> EntriesOf(logs[..i + 1]) == EntriesOf(logs[..i]) + [Entry(pieces[0], ParseLevel(pieces[1]))]
  {
    EntriesOfAppend(logs[..i], [logs[i]]);
    assert logs[..i + 1] == logs[..i] + [logs[i]];
    assert [logs[i]][1..] == [];
    assert EntriesOf(logs[..i]) + [] == EntriesOf(logs[..i]);
  }

  /** A part that does not split into exactly two pieces at `:` contributes nothing. */
  lemma MalformedPartIgnored(a: seq<string>, bad: string, b: seq<string>)
    requires |Split(bad, ':')| != 2
    ensures EntriesOf(a + [bad] + b) == EntriesOf(a + b)
  {
    assert EntryOf(bad) == [];
    assert [bad][1..] == [];
    assert EntriesOf([bad]) == EntryOf(bad) + EntriesOf([]) == [];
    EntriesOfAppend(a, [bad]);
    assert EntriesOf(a + [bad]) == EntriesOf(a);
    EntriesOfAppend(a + [bad], b);
    EntriesOfAppend(a, b);
  }

  /** The entries a setting holds. */
  function Entries(logstr: string): seq<Entry>
  {
    EntriesOf(Split(StripWhitespace(logstr), ';'))
  }

  /** Whitespace never matters: a setting and its stripped form hold the same entries. */
  lemma EntriesIgnoreWhitespace(logstr: string)
    ensures Entries(StripWhitespace(logstr)) == Entries(logstr)
  {
    var s := StripWhitespace(logstr);
    NoCharRemoved(s, ' ');
    NoCharRemoved(RemoveChar(s, ' '), '\t');
    NoCharRemoved(RemoveChar(RemoveChar(s, ' '), '\t'), '\n');
  }

  lemma {:induction false} NoCharRemoved(s: string, c: char)
    requires c !in s
    ensures RemoveChar(s, c) == s
  {
    if s != [] {
      assert s[0] in s;
      assert forall x :: x in s[1..] ==> x in s;
      NoCharRemoved(s[1..], c);
    }
  }

  /** The level of each explicitly named module: its last entry wins; "." is not a module. */
  function ExplicitLevels(entries: seq<Entry>): (m: map<string, Level>)
    ensures "." !in m
  {
    if entries == [] then map[]
    else
      var prefix := entries[..|entries| - 1];
      var e := entries[|entries| - 1];
      var m := ExplicitLevels(prefix);
      if e.moduleName == "." then m else m[e.moduleName := e.level]
  }

  /** The level of the last "." entry, if any. */
  function DefaultLevel(entries: seq<Entry>): (d: Option<Level>)
  {
    if entries == [] then None
    else
      var prefix := entries[..|entries| - 1];
      var e := entries[|entries| - 1];
      if e.moduleName == "." then Some(e.level) else DefaultLevel(prefix)
  }

  /** The explicit levels and the default after one more entry. */
  lemma LevelsStep(entries: seq<Entry>, e: Entry)
    ensures ExplicitLevels(entries + [e]) ==
            (if e.moduleName == "." then ExplicitLevels(entries) else ExplicitLevels(entries)[e.moduleName := e.level])
    ensures DefaultLevel(entries + [e]) == (if e.moduleName == "." then Some(e.level) else DefaultLevel(entries))
  {
    var s := entries + [e];
    assert s[..|s| - 1] == entries;
  }

  /** A module is named explicitly exactly when some entry other than "." names it, and then its last entry wins. */
  lemma {:induction false} ExplicitLevelsMeaning(entries: seq<Entry>, mod: string)
    ensures mod in ExplicitLevels(entries) <==>
            mod != "." && exists i :: 0 <= i < |entries| && entries[i].moduleName == mod
    ensures mod in ExplicitLevels(entries) ==>
            exists i :: 0 <= i < |entries| && entries[i] == Entry(mod, ExplicitLevels(entries)[mod]) &&
                        forall k :: i < k < |entries| ==> entries[k].moduleName != mod
  {
    if entries != [] && mod != "." {
      var n := |entries| - 1;
      var prefix := entries[..n];
      var e := entries[n];
      ExplicitLevelsMeaning(prefix, mod);
      if e.moduleName == mod {
        assert ExplicitLevels(entries) == ExplicitLevels(prefix)[mod := e.level];
        assert entries[n] == Entry(mod, ExplicitLevels(entries)[mod]);
      } else {
        assert mod in ExplicitLevels(entries) <==> mod in ExplicitLevels(prefix);
        if mod in ExplicitLevels(prefix) {
          assert ExplicitLevels(entries)[mod] == ExplicitLevels(prefix)[mod];
          var i :| 0 <= i < |prefix| && prefix[i] == Entry(mod, ExplicitLevels(prefix)[mod]) &&
                   forall k :: i < k < |prefix| ==> prefix[k].moduleName != mod;
          assert entries[i] == prefix[i];
          forall k | i < k < |entries|
            ensures entries[k].moduleName != mod
          {
            if k < n {
              assert entries[k] == prefix[k];
            }
          }
        } else {
          forall i | 0 <= i < |entries|
            ensures entries[i].moduleName != mod
          {
            if i < n {
              assert entries[i] == prefix[i];
            }
          }
        }
      }
    }
  }

  /** There is a default exactly when some entry is ".", and then it is the last such entry's level. */
  lemma {:induction false} DefaultLevelMeaning(entries: seq<Entry>)
    ensures DefaultLevel(entries).Some? <==> exists i :: 0 <= i < |entries| && entries[i].moduleName == "."
    ensures DefaultLevel(entries).Some? ==>
            exists i :: 0 <= i < |entries| && entries[i] == Entry(".", DefaultLevel(entries).value) &&
                        forall k :: i < k < |entries| ==> entries[k].moduleName != "."
  {
    if entries != [] {
      var n := |entries| - 1;
      var prefix := entries[..n];
      var e := entries[n];
      DefaultLevelMeaning(prefix);
      if e.moduleName == "." {
        assert DefaultLevel(entries) == Some(e.level);
        assert entries[n] == Entry(".", e.level);
      } else {
        assert DefaultLevel(entries) == DefaultLevel(prefix);
        if DefaultLevel(prefix).Some? {
          var i :| 0 <= i < |prefix| && prefix[i] == Entry(".", DefaultLevel(prefix).value) &&
                   forall k :: i < k < |prefix| ==> prefix[k].moduleName != ".";
          assert entries[i] == prefix[i];
          forall k | i < k < |entries|
            ensures entries[k].moduleName != "."
          {
            if k < n {
              assert entries[k] == prefix[k];
            }
          }
        } else {
          forall i | 0 <= i < |entries|
            ensures entries[i].moduleName != "."
          {
            if i < n {
              assert entries[i] == prefix[i];
            }
          }
        }
      }
    }
  }

  /**
   * The level a module has after a setting: its explicit level if the
   * setting names it, else the setting's default if there is one, else the
   * level it had.
   */
  function LevelAfter(mod: string, levels: map<string, Level>, entries: seq<Entry>): Level
    requires mod in levels || mod in ExplicitLevels(entries)
  {
    var explicit := ExplicitLevels(entries);
    if mod in explicit then explicit[mod]
    else match DefaultLevel(entries)
      case Some(d) => d
      case None => levels[mod]
  }

  /** Where "." appears does not matter: the default never overrides an explicit entry. */
  lemma DefaultPositionIrrelevant(a: seq<Entry>, b: seq<Entry>, dot: Level, mod: string, levels: map<string, Level>)
    requires forall i :: 0 <= i < |b| ==> b[i].moduleName != "."
    requires mod in levels || mod in ExplicitLevels(a + b)
    ensures ExplicitLevels(a + [Entry(".", dot)] + b) == ExplicitLevels(a + b)
    ensures LevelAfter(mod, levels, a + [Entry(".", dot)] + b) == LevelAfter(mod, levels, a + b + [Entry(".", dot)])
  {
    ExplicitSkipsDot(a, dot, b);
    var last := a + b + [Entry(".", dot)];
    assert last[..|last| - 1] == a + b;
    DefaultSkipsTail(a + [Entry(".", dot)], b);
    var withDot := a + [Entry(".", dot)];
    assert withDot[..|withDot| - 1] == a;
  }

  lemma {:induction false} ExplicitSkipsDot(a: seq<Entry>, dot: Level, b: seq<Entry>)
    ensures ExplicitLevels(a + [Entry(".", dot)] + b) == ExplicitLevels(a + b)
    decreases |b|
  {
    if b == [] {
      var s := a + [Entry(".", dot)];
      assert s[..|s| - 1] == a;
      assert a + b == a;
      assert a + [Entry(".", dot)] + b == s;
    } else {
      var s := a + [Entry(".", dot)] + b;
      var t := a + b;
      var init := b[..|b| - 1];
      assert s[..|s| - 1] == a + [Entry(".", dot)] + init;
      assert t[..|t| - 1] == a + init;
      assert s[|s| - 1] == t[|t| - 1];
      ExplicitSkipsDot(a, dot, init);
    }
  }

  lemma {:induction false} DefaultSkipsTail(a: seq<Entry>, b: seq<Entry>)
    requires forall i :: 0 <= i < |b| ==> b[i].moduleName != "."
    ensures DefaultLevel(a + b) == DefaultLevel(a)
    decreases |b|
  {
    if b == [] {
      assert a + b == a;
    } else {
      var s := a + b;
      assert s[..|s| - 1] == a + b[..|b| - 1];
      DefaultSkipsTail(a, b[..|b| - 1]);
    }
  }

  /** Updating the right operand of a map union is updating the union. */
  lemma UnionUpdate(a: map<string, Level>, b: map<string, Level>, k: string, v: Level)
    ensures a + b[k := v] == (a + b)[k := v]
  {
  }

  /**
   * `LogManager`: the level of each module's logger, and the level new
   * loggers start at. A logger is never replaced once created, so it is
   * identified by its module.
   */
  class Manager {
    var loggers: map<string, Level>
    var defLevel: Level

    /** `initManager`: no loggers, default level Info. */
    constructor ()
      ensures loggers == map[] && defLevel == Info
    {
      loggers := map[];
      defLevel := Info;
    }

    /** `GetLogger`: the level of the module's logger, which is created at the default level when there is none. */
    method GetLogger(moduleName: string) returns (level: Level)
      modifies this
      ensures defLevel == old(defLevel)
      ensures moduleName in old(loggers) ==> loggers == old(loggers) && level == old(loggers[moduleName])
      ensures moduleName !in old(loggers) ==> loggers == old(loggers)[moduleName := old(defLevel)] && level == old(defLevel)
    {
      if moduleName in loggers {
        return loggers[moduleName];
      }
      loggers := loggers[moduleName := defLevel];
      level := defLevel;
    }

    /**
     * `UpdateLogLevels`: every module an entry names gets its last level,
     * its logger created if need be; a "." entry sets the default level and
     * the level of every other existing logger.
     */
    method UpdateLogLevels(logstr: string)
      modifies this
      ensures loggers.Keys == old(loggers).Keys + ExplicitLevels(Entries(logstr)).Keys
      ensures forall mod :: mod in loggers ==> loggers[mod] == LevelAfter(mod, old(loggers), Entries(logstr))
      ensures defLevel == (match DefaultLevel(Entries(logstr))
                           case Some(d) => d
                           case None => old(defLevel))
    {
      var logs := Split(StripWhitespace(logstr), ';');
      var explicitModules, hasDefault, defaultLevel := ApplyExplicit(logs);
      if hasDefault {
        defLevel := defaultLevel;
        ApplyDefault(explicitModules, defaultLevel);
      }
    }

    /** The first pass: each well-formed entry, in order, sets its module's level or notes the default. */
    method ApplyExplicit(logs: seq<string>) returns (explicitModules: set<string>, hasDefault: bool, defaultLevel: Level)
      modifies this
      ensures defLevel == old(defLevel)
      ensures explicitModules == ExplicitLevels(EntriesOf(logs)).Keys
      ensures loggers == old(loggers) + ExplicitLevels(EntriesOf(logs))
      ensures hasDefault <==> DefaultLevel(EntriesOf(logs)).Some?
      ensures hasDefault ==> defaultLevel == DefaultLevel(EntriesOf(logs)).value
    {
      explicitModules := {};
      hasDefault := false;
      defaultLevel := Info;
      ghost var seen: seq<Entry> := [];
      for i := 0 to |logs|
        invariant seen == EntriesOf(logs[..i])
        invariant defLevel == old(defLevel)
        invariant explicitModules == ExplicitLevels(seen).Keys
        invariant loggers == old(loggers) + ExplicitLevels(seen)
        invariant hasDefault <==> DefaultLevel(seen).Some?
        invariant hasDefault ==> defaultLevel == DefaultLevel(seen).value
      {
        EntriesStep(logs, i);
        var parts := Split(logs[i], ':');
        if |parts| != 2 {
          continue;
        }
        var entry := Entry(parts[0], ParseLevel(parts[1]));
        explicitModules, hasDefault, defaultLevel :=
          ApplyEntry(old(loggers), seen, entry, explicitModules, hasDefault, defaultLevel);
        seen := seen + [entry];
      }
      assert logs[..|logs|] == logs;
    }

    /** One entry of the first pass: a module's level is set, or the default noted. */
    method ApplyEntry(ghost base: map<string, Level>, ghost seen: seq<Entry>, entry: Entry,
                      explicitModules0: set<string>, hasDefault0: bool, defaultLevel0: Level)
      returns (explicitModules: set<string>, hasDefault: bool, defaultLevel: Level)
      modifies this
      requires explicitModules0 == ExplicitLevels(seen).Keys && loggers == base + ExplicitLevels(seen)
      requires hasDefault0 <==> DefaultLevel(seen).Some?
      requires hasDefault0 ==> defaultLevel0 == DefaultLevel(seen).value
      ensures defLevel == old(defLevel)
      ensures explicitModules == ExplicitLevels(seen + [entry]).Keys && loggers == base + ExplicitLevels(seen + [entry])
      ensures hasDefault <==> DefaultLevel(seen + [entry]).Some?
      ensures hasDefault ==> defaultLevel == DefaultLevel(seen + [entry]).value
    {
      LevelsStep(seen, entry);
      explicitModules, hasDefault, defaultLevel := explicitModules0, hasDefault0, defaultLevel0;
      if entry.moduleName == "." {
        defaultLevel := entry.level;
        hasDefault := true;
      } else {
        explicitModules := explicitModules + {entry.moduleName};
        UnionUpdate(base, ExplicitLevels(seen), entry.moduleName, entry.level);
        loggers := loggers[entry.moduleName := entry.level];
      }
    }

    /** The second pass: every logger not named explicitly takes the default level. */
    method ApplyDefault(explicitModules: set<string>, level: Level)
      modifies this
      ensures defLevel == old(defLevel) && loggers.Keys == old(loggers).Keys
      ensures forall mod :: mod in loggers ==> loggers[mod] == (if mod in explicitModules then old(loggers[mod]) else level)
    {
      var pending := loggers.Keys;
      while pending != {}
        invariant defLevel == old(defLevel) && loggers.Keys == old(loggers).Keys
        invariant pending <= loggers.Keys
        invariant forall mod :: mod in loggers ==>
                    loggers[mod] == (if mod in pending || mod in explicitModules then old(loggers[mod]) else level)
        decreases pending
      {
        var mod :| mod in pending;
        if mod !in explicitModules {
          loggers := loggers[mod := level];
        }
        pending := pending - {mod};
      }
    }
  }
}
