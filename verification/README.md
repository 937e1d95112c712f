# A verified model of the Manetu policy engine's core

This project models, in Dafny, the decision-making and policy-domain handling
core of the Manetu policy engine (`mpe`). It covers:

- **Decision phases.** Phase 1 maps the operation policy's result to GRANT,
  DENY or no decision. Phase 2 ORs the policies of the principal's roles,
  including roles reached through groups. Phase 4 ORs the scope policies,
  with a short cut for the API scope.
- **`Authorize`.** Combines the phases into the final decision, assigns
  override reasons and appends the phase bundles to the access record.
- **Annotations.** The five merge strategies (replace, append, prepend,
  deep, union) and strategy precedence. Conversions between rich and plain
  annotations.
- **Policy-domain references.** Parsing, qualifying, validating and
  resolving references, plus lookup across domains. Transitive dependency
  resolution with cycle detection. The depth-first library-cycle detector.
- **Validation errors.** The collection that accumulates them, their
  rendering, and their grouping by domain and by type.
- **The v1alpha4 parser.** Selector anchoring and the export maps.
- **The registry.** Domain precedence, `reverse`, and the rule that
  compilation skips what is already compiled.
- **The local backend.** Mapper, resource and policy lookups.
- **The `mpe` subcommands.** Test-name filtering and pass/fail counting
  for `mpe test decisions`. The `rego_filename` rewrite and the output file
  name for `mpe build`. Dependency-reference parsing and `opa check` output
  classification for `mpe lint`. Synthetic file names for Regal.
- **Configuration.** The log-level setting, the Downward-API label file and
  the auxiliary-data directory.
- **The Python test harness.** Decision-token normalisation and the two
  verdict rules of the example tests.

There is one module per source file. `Wrappers`, `Text`, `Collections`,
`Json`, `PolicyDomain` and `Events` hold the shared definitions: option and
result types, Go and Python string functions, map-order reasoning, JSON
values, the domain model and the access-record types.

The modelling follows the form of the code:
- State that the code updates in place becomes a class with `modifies`
  clauses: the validation error collection, the DFS state, the phases, the
  access record, the log manager and the registry.
- Loops become methods with invariants, each proved against a specification
  function.
- Pure code becomes functions and lemmas.

Go's map iteration order is unspecified. Every loop over a map picks its
next key arbitrarily, and its contract holds for every order.

Some things are parameters of the operations that use them:
- What the Open Policy Agent, regular expressions, SHA-256, YAML and JSON
  decoding, the file system and subprocesses compute.
- The backend lookups the phases make.

Where a comment in the code disagrees with the code, the model follows the
code:
- `NewRegistry` is documented as letting later domains take precedence.
  Because it reverses the list before inserting, the earliest path's domain
  is the one kept (`Registry.EarliestPathWins`).
- The broken-alpha test's combined diagnostic text is standard output, a
  newline, then standard error, in that order.

## Model

| member | source | states |
|---|---|---|
| `MpeRunner.NormalizeMeaning` | tests/utils/mpe_runner.py:30-40 | None normalises to ""; otherwise the result is "GRANT" exactly when the trimmed, upper-cased token is ALLOW, PERMIT or GRANT, and "DENY" exactly when it is DENY or REJECT |
| `MpeRunner.AliasMeaning` | tests/utils/mpe_runner.py:34-40 | the alias table sends exactly its allow-like keys to GRANT and its deny-like keys to DENY, keeps "" as "", and applying it twice is applying it once |
| `MpeRunner.UnknownTokenPassesThrough` | tests/utils/mpe_runner.py:40 | a token outside the alias table comes back as its trimmed upper-case form, which is neither GRANT nor DENY |
| `MpeRunner.EmptyMeansNoneOrBlank` | tests/utils/mpe_runner.py:31-33 | the result is "" exactly for None or for text made only of Python whitespace |
| `MpeRunner.IgnoresCaseAndPadding` | tests/utils/mpe_runner.py:33 | surrounding whitespace and letter case never change the result |
| `MpeRunner.NormalizeIdempotent` | tests/utils/mpe_runner.py:33-40 | normalising a normalised decision gives it back unchanged |
| `MpeRunner.ResolveMpeBinary` | tests/utils/mpe_runner.py:9-16 | the binary is `<root>/target/mpe` when that path exists, as a file or a directory, and "mpe" otherwise |
| `ConsolidatedVerdict.References` | tests/mpe/examples/test_consolidated_yml.py:40 | a missing references field reads as the empty list; a list of objects keeps its length |
| `ConsolidatedVerdict.DenyRefsMeaning` | tests/mpe/examples/test_consolidated_yml.py:42 | the comprehension keeps exactly the references whose own decision normalises to DENY |
| `ConsolidatedVerdict.NotJsonFails` | tests/mpe/examples/test_consolidated_yml.py:34-37 | output that is not JSON fails with "Output is not valid JSON", whatever was expected |
| `ConsolidatedVerdict.DenyReferenceFailsAllow` | tests/mpe/examples/test_consolidated_yml.py:42-45 | expecting allow, one DENY reference fails the test, even when the top-level decision is GRANT |
| `ConsolidatedVerdict.AllowPassesIff` | tests/mpe/examples/test_consolidated_yml.py:34-48 | expecting allow, the test passes exactly when the output is a JSON object with iterable references, none of them DENY, and a decision that normalises to GRANT |
| `ConsolidatedVerdict.DenyPassesIff` | tests/mpe/examples/test_consolidated_yml.py:34-50 | expecting deny, the test passes exactly when the output is a JSON object with iterable references and a decision other than GRANT; DENY references do not matter |
| `ConsolidatedVerdict.MissingReferencesAreEmpty` | tests/mpe/examples/test_consolidated_yml.py:40 | a response without references is judged as one with an empty list |
| `BrokenAlphaCheck.AsText` | tests/mpe/examples/test_broken_alpha_yml.py:62-63 | a missing stream reads as "", a text stream as itself; bytes are decoded first |
| `BrokenAlphaCheck.Combined` | tests/mpe/examples/test_broken_alpha_yml.py:64 | the combined text starts with standard output and ends with standard error, with one newline between them |
| `BrokenAlphaCheck.FirstMissing` | tests/mpe/examples/test_broken_alpha_yml.py:67-69 | nothing is missing exactly when every fragment occurs, ignoring case; otherwise the first fragment that does not occur is reported, and all before it do occur |
| `BrokenAlphaCheck.Check` | tests/mpe/examples/test_broken_alpha_yml.py:57-69 | a run that succeeds fails the test; a failed run passes exactly when every expected fragment occurs in the combined text, ignoring case, and a failure message names the first missing fragment |
| `Annotations.DetermineStrategy` | internal/core/annotations.go:158-168 | the strategy is higher's when set, else lower's when set, else the default |
| `Annotations.SameTypeIsSameShape` | internal/core/annotations.go:197-215 | `sameType` holds exactly when both values are arrays, both objects, or both scalars |
| `Annotations.ToComparableKey` | internal/core/annotations.go:339-356 | a key is a string key exactly for strings, the null key exactly for null, and a JSON key exactly for arrays and objects |
| `Annotations.ComparableKeyInjective` | internal/core/annotations.go:339-356 | two values share a comparable key exactly when they are equal |
| `Annotations.MergeDeepValues` | internal/core/annotations.go:217-248 | computes the deep merge: arrays higher first, objects merged key by key (recursing on keys both hold with the same shape), scalars higher |
| `Annotations.MergeAppendValues` | internal/core/annotations.go:250-274 | computes the append merge: arrays higher first, objects shallow with higher winning, scalars higher |
| `Annotations.MergePrependValues` | internal/core/annotations.go:276-300 | computes the prepend merge: arrays lower first, objects shallow with lower winning, scalars lower |
| `Annotations.CopyInto` | internal/core/annotations.go:233-235 | a copy loop yields every key of both maps, the source's value winning |
| `Annotations.MergeUnionValues` | internal/core/annotations.go:302-337 | computes the union merge: arrays de-duplicated by comparable key with higher's first, objects as a deep merge, scalars higher |
| `Annotations.MergeValues` | internal/core/annotations.go:170-195 | higher on a type mismatch, otherwise the named strategy, an unknown name meaning deep |
| `Annotations.MergeRichAnnotations` | internal/core/annotations.go:123-156 | two nil maps give an empty map; otherwise lower's entries are copied and higher's merged in |
| `Annotations.MergeHigher` | internal/core/annotations.go:139-153 | every key of either side is present; a shared key gets the merged value with higher's strategy, any other key its only entry |
| `Annotations.NilNilMergesToEmpty` | internal/core/annotations.go:124-126 | merging two nil maps gives an empty, non-nil map |
| `Annotations.MergeKeepsAllKeys` | internal/core/annotations.go:134-154 | the result's keys are exactly the keys of lower and of higher |
| `Annotations.SharedKeyMerge` | internal/core/annotations.go:141-148 | on a shared key the result keeps higher's strategy and merges with higher's strategy, else lower's, else the default, which is deep when none is given |
| `Annotations.UnsharedKeyCopied` | internal/core/annotations.go:135-137 | a key only one side holds keeps that side's entry unchanged |
| `Annotations.MismatchHigherWins` | internal/core/annotations.go:172-175 | when the shapes differ the higher value wins, whatever the strategy |
| `Annotations.ArrayOrder` | internal/core/annotations.go:223-228 | deep and append give higher's elements then lower's; prepend gives lower's then higher's; replace gives higher's |
| `Annotations.UnknownStrategyIsDeep` | internal/core/annotations.go:190-193 | a strategy name that is not replace, append, prepend or union behaves as deep |
| `Annotations.PrependLowerWins` | internal/core/annotations.go:286-298 | prepend keeps lower's scalar and lower's value on every key lower holds |
| `Annotations.AppendHigherWins` | internal/core/annotations.go:260-269 | append keeps higher's value on every key higher holds, without merging inside it |
| `Annotations.DeepMergeObjects` | internal/core/annotations.go:230-243 | deep merge of objects keeps every key of both and recurses exactly on keys both hold with the same shape |
| `Annotations.DedupDistinctKeys` | internal/core/annotations.go:307-326 | no two elements the `seen` loops keep share a comparable key |
| `Annotations.DedupKeepsAll` | internal/core/annotations.go:307-326 | every element of the input is among those kept |
| `Annotations.DedupPrefix` | internal/core/annotations.go:310-326 | the elements kept from higher come first, in order, before anything kept from lower |
| `Annotations.UnionArrays` | internal/core/annotations.go:303-329 | the union of arrays holds no two elements with the same comparable key, starts with higher's de-duplicated elements and loses nothing from either input |
| `Annotations.MergeBelowKeys` | internal/core/annotations.go:395-399 | merging a sequence of sets below the result never loses a key and adds exactly the keys of the non-nil sets |
| `Annotations.MergeEachBelow` | internal/core/annotations.go:395-399 | one merge loop merges each non-nil set, in order, below the result so far |
| `Annotations.GroupRoles` | internal/core/annotations.go:416-420 | the marked roles are exactly the roles of the groups that were fetched |
| `Annotations.GetAnnotations` | internal/core/annotations.go:384-458 | the result is never nil and is the passed annotations with the scopes, then the groups, then the roles (given and from groups, in some enumeration order) merged below |
| `Annotations.ResolvedKeys` | internal/core/annotations.go:384-458 | whatever order the role set is enumerated in, the result has exactly the keys of the passed annotations and of every scope, group and role set fetched |
| `CoreModel.ToAnnotations` | pkg/core/model/core.go:84-94 | nil stays nil; otherwise the plain map has the same keys, each holding its entry's value |
| `CoreModel.FromAnnotations` | pkg/core/model/core.go:96-107 | nil stays nil; otherwise every key keeps its value with an empty (default) strategy |
| `CoreModel.ValuesOfWithoutStrategies` | pkg/core/model/core.go:84-107 | converting plain annotations to rich ones and back gives them back |
| `CoreModel.WithoutStrategiesOfValues` | pkg/core/model/core.go:84-107 | converting rich annotations to plain and back gives them back exactly when no entry names a strategy |
| `CoreModel.RichAnnotationsRef.UnmarshalJSON` | pkg/core/model/core.go:115-132 | a decoding error leaves the target unchanged; null sets it to nil; an object sets it to its values with default strategies; any other document is an error |
| `AuxData.MergeAuxData` | pkg/core/auxdata/auxdata.go:64-75 | with no auxdata, or an input that is not an object, the input is unchanged; otherwise the object gains exactly the key "auxdata" holding the auxdata and keeps every other key |
| `AuxData.MergeIdempotent` | pkg/core/auxdata/auxdata.go:69-71 | merging the same auxdata twice is merging it once |
| `AuxData.MergeReplaces` | pkg/core/auxdata/auxdata.go:69-71 | a second merge of non-empty auxdata replaces what the first put there |
| `AuxData.LoadedMeaning` | pkg/core/auxdata/auxdata.go:37-57 | the load succeeds exactly when every non-hidden file can be read; it then maps exactly those file names to their contents; a failure carries the error of an unreadable file |
| `AuxData.LoadedStopsAtError` | pkg/core/auxdata/auxdata.go:49-52 | once a file cannot be read, the later entries do not change the outcome |
| `AuxData.LoadAuxData` | pkg/core/auxdata/auxdata.go:27-58 | an empty path is no auxdata and no error; an unreadable directory is the wrapped error; otherwise the outcome of loading the listed entries in order |
| `K8s.CutAtEquals` | pkg/core/config/k8s.go:56-59 | there is a cut exactly when the line has '='; the parts rebuild the line around its first '=' |
| `K8s.ParseLine` | pkg/core/config/k8s.go:52-62 | a line holds no pair exactly when its trimmed text has no '=' |
| `K8s.ParseDownwardApiFile` | pkg/core/config/k8s.go:39-68 | a missing file is no map and no error; a failure to open or to scan is the error; otherwise the map the lines build in order |
| `K8s.PairsMeaning` | pkg/core/config/k8s.go:51-63 | a key is in the map exactly when some line holds it, and its value is that of the last such line |
| `K8s.LineWithoutPairIgnored` | pkg/core/config/k8s.go:53-59 | a blank line or a line without '=' changes nothing wherever it stands |
| `K8s.FormatParseRoundTrip` | pkg/core/config/k8s.go:52-62 | a `key="value"` line reads back as that key and value, for a key without '=' or leading white space and a value without edge quotes |
| `K8s.CutAtFirstEquals` | pkg/core/config/k8s.go:56 | the cut of `key=rest` with '=' absent from key is key and rest |
| `K8s.UnquoteQuoted` | pkg/core/config/k8s.go:61 | stripping the quotes around a value without edge quotes gives the value |
| `Lint.ParseDependencyReference` | cmd/mpe/subcommands/lint/core.go:376-384 | a reference with '/' splits at its first '/' into a domain free of '/' and the rest; any other names the current domain |
| `Lint.CrossDomainRoundTrip` | cmd/mpe/subcommands/lint/core.go:376-384 | writing domain/library with a domain free of '/' reads back as the two parts |
| `Lint.ErrorCountExtremes` | cmd/mpe/subcommands/lint/core.go:431-473 | the count is at most the number of lines, zero exactly when no line counts, and the number of lines exactly when every line counts |
| `Lint.ErrorCountAppend` | cmd/mpe/subcommands/lint/core.go:433-470 | the count of two outputs put together is the sum of their counts |
| `Lint.ParseOpaCheckOutput` | cmd/mpe/subcommands/lint/core.go:431-473 | counts the non-blank lines that name a mapped temporary file with a three-part description, or else mention the temporary directory |
| `Lint.FindEntity` | cmd/mpe/subcommands/lint/core.go:442-462 | whatever the map's order, the search finds an entity exactly when some temporary file of the map is named by the line and has a three-part description |
| `LogManager.ParseLevel` | internal/logging/logmanager.go:74-92 | "trace" is Debug, and any name outside the known ones is Info rather than an error |
| `LogManager.ParseLevelName` | internal/logging/logmanager.go:75-91 | every level is reached by its name written in any ASCII case |
| `LogManager.ParseLevelIgnoresCase` | internal/logging/logmanager.go:76 | a name and its upper-cased form denote the same level |
| `LogManager.StripWhitespace` | internal/logging/logmanager.go:102-106 | the result holds no space, tab or newline and no character the setting lacks |
| `LogManager.EntriesOfAppend` | internal/logging/logmanager.go:116-123 | the entries of two runs of parts put together are the entries of each, in order |
| `LogManager.MalformedPartIgnored` | internal/logging/logmanager.go:120-123 | a part that does not split into exactly two pieces at ':' contributes nothing wherever it stands |
| `LogManager.EntriesIgnoreWhitespace` | internal/logging/logmanager.go:102-116 | a setting and its stripped form hold the same entries |
| `LogManager.ExplicitLevels` | internal/logging/logmanager.go:133-147 | "." is never an explicitly named module |
| `LogManager.ExplicitLevelsMeaning` | internal/logging/logmanager.go:119-148 | a module is named explicitly exactly when some entry other than "." names it, and its level is that of the last such entry |
| `LogManager.DefaultLevelMeaning` | internal/logging/logmanager.go:133-136 | there is a default exactly when some entry is ".", and it is the level of the last "." entry |
| `LogManager.DefaultPositionIrrelevant` | internal/logging/logmanager.go:150-159 | moving the last "." entry anywhere among the module entries changes no logger's level |
| `LogManager.ExplicitSkipsDot` | internal/logging/logmanager.go:133-136 | a "." entry never changes the explicit levels |
| `LogManager.DefaultSkipsTail` | internal/logging/logmanager.go:133-136 | entries after the last "." entry do not change the default |
| `LogManager.Manager.constructor` | internal/logging/logmanager.go:67-72 | the manager starts with no loggers and default level Info |
| `LogManager.Manager.GetLogger` | internal/logging/logmanager.go:37-65 | an existing logger's level is returned unchanged; otherwise a logger is created at the default level and nothing else changes |
| `LogManager.Manager.UpdateLogLevels` | internal/logging/logmanager.go:94-162 | the loggers become the old ones plus the explicitly named modules; each takes its last explicit level, else the setting's default, else keeps its level; the default level becomes the setting's default when there is one |
| `LogManager.Manager.ApplyExplicit` | internal/logging/logmanager.go:118-148 | the first pass sets exactly the explicit modules' levels, creating their loggers, and notes the default |
| `LogManager.Manager.ApplyEntry` | internal/logging/logmanager.go:125-147 | one entry either sets its module's level or notes the default, keeping the first pass's invariant |
| `LogManager.Manager.ApplyDefault` | internal/logging/logmanager.go:153-158 | every logger not named explicitly takes the default level; the explicit ones and the set of loggers are unchanged |
| `Regal.SafeIdMeaning` | cmd/mpe/subcommands/lint/regal.go:73-74 | the safe ID has the ID's length, no ':' and no '/', and keeps every other character in place |
| `Regal.SyntheticFileNameShape` | cmd/mpe/subcommands/lint/regal.go:71-76 | a synthetic name is the source file, '_', the type, '_', the safe ID and ".rego" |
| `Regal.CleanIdsKeepNamesApart` | cmd/mpe/subcommands/lint/regal.go:72-76 | within one file and type, IDs free of ':' and '/' with the same synthetic name are equal |
| `Regal.SeparatorsCollide` | cmd/mpe/subcommands/lint/regal.go:73-75 | IDs that differ only in ':' against '/' get the same synthetic name |
| `Regal.MapperId` | cmd/mpe/subcommands/lint/regal.go:52-55 | a mapper is reported under its own ID, or `mapper[i]` when it has none |
| `Regal.AddEntity` | cmd/mpe/subcommands/lint/regal.go:36-38 | recording a non-blank entity under its synthetic name keeps every recorded name backed by an entity with that Rego and description |
| `Regal.Record` | cmd/mpe/subcommands/lint/regal.go:36-38 | recording adds exactly the entity's synthetic name and keeps the maps sound |
| `Regal.CollectKeyed` | cmd/mpe/subcommands/lint/regal.go:34-48 | in any visiting order, every non-blank library or policy of the map gets its name, and the maps stay sound |
| `Regal.RecordKeyed` | cmd/mpe/subcommands/lint/regal.go:35-39 | one library or policy is recorded when its Rego is not blank, extending the coverage to it |
| `Regal.CollectMappers` | cmd/mpe/subcommands/lint/regal.go:50-60 | every non-blank mapper, in order, gets its name, and the maps stay sound |
| `Regal.CollectRego` | cmd/mpe/subcommands/lint/regal.go:28-61 | files that fail to load are skipped; the maps have the same names, each backed by a non-blank entity, and cover every non-blank entity of the files that load |
| `Regal.PerformRegalLinting` | cmd/mpe/subcommands/lint/regal.go:22-69 | the result is 0 when nothing was collected and otherwise the linter's result on the collected maps |
| `Regal.NothingCollected` | cmd/mpe/subcommands/lint/regal.go:63-66 | nothing is collected exactly when every piece of Rego of the loaded files is blank |
| `Build.Ext` | cmd/mpe/subcommands/build/core.go:140 | the extension is a suffix of the path: empty when no dot follows the last '/', else a dot followed by no dot and no '/' |
| `Build.OutputFilename` | cmd/mpe/subcommands/build/core.go:139-143 | the input without its extension, then "-built", then the extension |
| `Build.OutputKeepsExtension` | cmd/mpe/subcommands/build/core.go:139-143 | the built file name keeps the input's extension and is never the input's name |
| `Build.ExtOfSuffix` | cmd/mpe/subcommands/build/core.go:140 | a suffix that starts with the only dot and has no '/' is the extension |
| `Build.ExtNoDot` | cmd/mpe/subcommands/build/core.go:140 | appending text without dots or '/' to a path without extension gives no extension |
| `Build.ProcessNode` | cmd/mpe/subcommands/build/core.go:163-191 | processing keeps a node's kind and number of children, and leaves every node that is not a document, sequence or mapping as it is |
| `Build.ProcessFrom` | cmd/mpe/subcommands/build/core.go:168-188 | processing the children from an index on yields one node per child |
| `Build.ProcessValues` | cmd/mpe/subcommands/build/core.go:203-223 | processing the pairs keeps every key node and yields one node per child |
| `Build.LastKeyBelow` | cmd/mpe/subcommands/build/core.go:207-217 | the index found is the last key of that name before the bound, and none is found exactly when no key has that name |
| `Build.RegoText` | cmd/mpe/subcommands/build/core.go:244-249 | the inlined text is empty exactly when the file holds only newlines, and otherwise is a prefix of the file ending in exactly one newline |
| `Build.ProcessMapping` | cmd/mpe/subcommands/build/core.go:193-254 | a processed mapping keeps its kind and number of children |
| `Build.ProcessYamlNode` | cmd/mpe/subcommands/build/core.go:163-191 | the recursive walk computes the processing of the tree |
| `Build.ProcessMappingNode` | cmd/mpe/subcommands/build/core.go:193-254 | the pass over the pairs computes the processing of the mapping: odd length, an error below, both keys, an empty file name or an unreadable file are errors, and the `rego_filename` pair becomes a literal `rego` pair |
| `Build.NoteKey` | cmd/mpe/subcommands/build/core.go:207-218 | noting one pair's key keeps the record of the last `rego` and `rego_filename` keys and the file name |
| `Build.ScanPairs` | cmd/mpe/subcommands/build/core.go:203-223 | the loop yields the processed pairs and, on success, whether `rego` and `rego_filename` appear, where the last `rego_filename` is, and its scalar value |
| `Build.BothRegoKeysRejected` | cmd/mpe/subcommands/build/core.go:225-227 | a mapping with both a `rego` and a `rego_filename` key is rejected once its values process |
| `Build.RewrittenPair` | cmd/mpe/subcommands/build/core.go:239-250 | the last `rego_filename` key now reads "rego" and its value is the literal inlined text of the named file |
| `Build.NoFilenameLeft` | cmd/mpe/subcommands/build/core.go:229-251 | with a single `rego_filename` key, no key of the rewritten mapping is `rego_filename` |
| `Build.MappingOutput` | cmd/mpe/subcommands/build/core.go:193-254 | a processed mapping holds the processed pairs, with the last `rego_filename` pair rewritten when there is one |
| `Build.FirstKindPair` | cmd/mpe/subcommands/build/core.go:291-301 | the pair found is the first whole pair keyed "kind", and none is found exactly when no whole pair is |
| `Build.SetKind` | cmd/mpe/subcommands/build/core.go:295-299 | only the value of the first "kind" pair may change, and it becomes "PolicyDomain" when it is a scalar |
| `Build.EnsurePolicyDomainKindAsWritten` | cmd/mpe/subcommands/build/core.go:281-304 | the scan as written fails exactly when it reaches an index without a partner before any "kind" key, and otherwise renames the first "kind" |
| `Build.SequenceRootPanics` | cmd/mpe/subcommands/build/core.go:283-293 | a document whose top level is a one-item sequence makes the scan as written read past the end |
| `Build.EnsurePolicyDomainKind` | cmd/mpe/subcommands/build/core.go:281-304 | only a mapping is scanned, only whole pairs are read, and the first "kind" is renamed; nothing else changes |
| `Build.IntendedAgreesOnMappings` | cmd/mpe/subcommands/build/core.go:281-304 | on a tree whose scanned node is a mapping with an even number of children, the corrected scan and the one as written agree |
| `Build.ProcessedMappingIsEven` | cmd/mpe/subcommands/build/core.go:194-196 | a mapping that processes has an even number of children, before and after |
| `Build.File` | cmd/mpe/subcommands/build/core.go:90-137 | the output defaults to the generated name; the build succeeds exactly when reading, parsing, rewriting, printing and writing all succeed, with each step's error otherwise |
| `Build.Execute` | cmd/mpe/subcommands/build/core.go:26-60 | no file, or one output for several files, is an error; otherwise every file is built and the command fails exactly when some build failed |
| `Build.BuildAll` | cmd/mpe/subcommands/build/core.go:43-50 | one result per file, in order, and the error flag is set exactly when some build failed |
| `CoreUtils.SafeNanos` | internal/core/utils.go:19-21 | a negative duration gives 0 and any other its own value, so the result always fits |
| `CoreUtils.BuiltinSet` | internal/core/utils.go:24-28 | no name in the set holds a comma |
| `CoreUtils.UnsafeBuiltins` | internal/core/utils.go:23-31 | the loop builds the set of comma-separated parts of the configured string |
| `CoreUtils.BuiltinSetCovers` | internal/core/utils.go:24-28 | the parts joined with commas give the configured string back, and each part is in the set |
| `CoreUtils.SingleBuiltin` | internal/core/utils.go:24-28 | a string without commas configures exactly itself, so an empty setting gives the set holding "" |
| `CoreUtils.BuildBundleReference` | internal/core/utils.go:33-60 | one policy reference, empty without a policy; an error gives DENY with the error's code and reason, otherwise the supplied decision with no reason |
| `CoreUtils.ErrorTrumpsDecision` | internal/core/utils.go:51-54 | with an error the bundle does not depend on the supplied decision |
| `CoreUtils.GrantBundleNeedsNoError` | internal/core/utils.go:51-57 | a bundle is GRANT exactly when there is no error and the supplied decision is GRANT |
| `Dependency.Visited.constructor` | pkg/policydomain/validation/dependency.go:26 | the visited set starts empty |
| `Dependency.FindCycleStart` | pkg/policydomain/validation/dependency.go:111-119 | the index of the first occurrence on the path, or -1 exactly when the reference is not on it |
| `Dependency.CheckForCycle` | pkg/policydomain/validation/dependency.go:93-109 | an error exactly when the reference is already visited |
| `Dependency.CyclePathCloses` | pkg/policydomain/validation/dependency.go:99-106 | a reported cycle has at least two entries, starts and ends with the reference, and holds only references of the path |
| `Dependency.QualifyAll` | pkg/policydomain/validation/dependency.go:131-137 | each dependency, in order, is qualified with the target domain and holds a '/' |
| `Dependency.AppendQualified` | pkg/policydomain/validation/dependency.go:81-85 | the loop appends every transitive dependency, qualified, in order |
| `Dependency.RemoveDuplicates` | pkg/policydomain/validation/dependency.go:139-150 | the first occurrence of each value, in order: nothing twice and nothing lost or added |
| `Dependency.ResolveDependencies` | pkg/policydomain/validation/dependency.go:24-29 | on success every input is in the result, nothing appears twice, and the result is exactly the transitive closure of the inputs: every entry reached by resolving a reference to a library and following its dependencies, qualified with that library's domain, and nothing else; it succeeds exactly when every input resolves from the empty path (`ResolvesFrom`: no reference met again on its own chain, every reference reached resolving to a library) |
| `Dependency.ResolveAll` | pkg/policydomain/validation/dependency.go:31-44 | on success the visited set is restored, every input is in the result, nothing appears twice, and the result is exactly the transitive closure of the inputs; it succeeds exactly when every input resolves from the current path, so the first failing input decides the error |
| `Dependency.ResolveSingle` | pkg/policydomain/validation/dependency.go:46-91 | a reference already on the path is the cycle error; an unresolvable one is an error; on success the reference resolves to a library, the result starts with the reference, holds each of the library's dependencies qualified with the library's domain, is exactly the reference's transitive closure, and the visited set is restored; it succeeds exactly when the reference resolves from the path, so a cycle on its own chain and an unresolvable reference are the only causes of failure |
| `Dependency.ClosureAppend` | pkg/policydomain/validation/dependency.go:35-41 | the closures of two lists of references, side by side, are the closure of the joined list |
| `Dependency.LocalStep` | pkg/policydomain/validation/dependency.go:52-79 | a reference without '/' to a library of its own domain resolves from a path exactly when its qualified name is off the path and each of its library's dependencies resolves with that name added |
| `Dependency.AcyclicResolves` | pkg/policydomain/validation/dependency.go:55-88 | when every reference reached resolves to a library and a rank drops along every dependency, resolution succeeds from any path ranked above the reference: an acyclic dependency graph never reports a cycle |
| `Dependency.DiamondResolves` | pkg/policydomain/validation/dependency.go:60-88 | A depending on B and C, both depending on D, resolves: D is reached twice but leaves the path after each resolution, so it is no cycle |
| `Dependency.LoopFails` | pkg/policydomain/validation/dependency.go:54-57 | A depending on B, which depends on A, fails: A is met again on its own chain |
| `Dependency.ClosureOfSingle` | pkg/policydomain/validation/dependency.go:73-84 | a reference's result, assembled from the closure of its library's dependencies qualified with the library's domain, holds those dependencies qualified and is the reference's own closure |
| `LocalBackend.Decoded` | pkg/core/backend/local/core.go:115-129 | the decoded annotations have exactly the input's keys |
| `LocalBackend.ToRichAnnotations` | pkg/core/backend/local/core.go:111-131 | nil stays nil; otherwise the conversion succeeds exactly when every value decodes, keeping each key with its decoded value and strategy; a failure names a key whose value does not decode |
| `LocalBackend.GetPolicy` | pkg/core/backend/local/core.go:151-174 | a found policy is the compiled one stored under the MRN in some domain; NOTFOUND exactly when no domain holds the MRN; COMPILATION_ERROR only for a policy without Ast |
| `LocalBackend.FirstSelecting` | pkg/core/backend/local/core.go:185-200 | the index found is the first resource with a selector matching the MRN, and none is found exactly when no resource has one |
| `LocalBackend.DefaultIn` | pkg/core/backend/local/core.go:207-212 | a group is found exactly when the domain has a default group, and the one found is a default |
| `LocalBackend.GetResource` | pkg/core/backend/local/core.go:176-226 | the ID is always the requested MRN; a matching resource gives its group; otherwise a named default group, with no annotations; NOTFOUND only when no domain offers a named default that its first default does not hide; a match is the first selecting resource of some domain, and the result is its group with its decoded annotations when every annotation decodes, else an UNKNOWN error carrying the decoding error of an annotation that does not |
| `LocalBackend.ExportMapper` | pkg/core/backend/local/core.go:377-389 | a mapper exports exactly when it has an Ast, with its domain; otherwise COMPILATION_ERROR |
| `LocalBackend.ScanMappers` | pkg/core/backend/local/core.go:412-425 | in any map order the count is zero exactly when no domain has a mapper, at least two exactly when the domains hold several, and a single mapper is found in its own domain |
| `LocalBackend.GetMapper` | pkg/core/backend/local/core.go:391-436 | with a domain name: NOTFOUND for a missing domain or no mapper, UNKNOWN for several, else its mapper; without: NOTFOUND for none, UNKNOWN for several across domains, else the only mapper |
| `Engine.Int32Of` | internal/core/policyengine.go:110-112 | Go's `int32` conversion: a value in the 32-bit range congruent to the input, the input itself when it fits |
| `Engine.AccessRecord.constructor` | internal/core/policyengine.go:215-443 | a fresh record has no references, no decision and no override |
| `Engine.AccessRecord.SetOverrideReason` | internal/core/policyengine.go:89-134 | a decision not from phase 1 is no override and gives no reason; otherwise an override whose deny (negative result) or grant reason is the named code, or NOT_DENIED / NOT_GRANTED with no reason when unnamed |
| `Engine.AccessRecord.AppendReferences` | internal/core/policyengine.go:159-163 | the record gains the phases' bundles in the order given, and nothing else changes |
| `Engine.ConcatAppend` | internal/core/policyengine.go:160-162 | the bundles of one more phase come after those of the earlier phases |
| `Engine.Concat4` | internal/core/policyengine.go:376 | the four phases' bundles, concatenated in phase order |
| `Engine.FinalDecision` | internal/core/policyengine.go:381-442 | a phase-1 GRANT allows and a phase-1 DENY denies; otherwise the request is allowed exactly when the resource resolved and phases 2, 3 and 4 all passed |
| `Engine.Decide` | internal/core/policyengine.go:374-443 | the decision is the final decision and is recorded; the audit reason is "authorized in phase1" or "denied in phase1" when phase 1 decides, "error getting resource" on a resource error, and empty when the later phases decide; the references are the phase bundles in phase order, all of them or only those of the phases reached, plus a DENY bundle for a resource error |
| `Engine.MarshalFailed` | internal/core/policyengine.go:305-318 | a PORC that cannot be marshalled denies, appends one resource bundle that is a DENY carrying the marshaller's error as an INVALPARAM_ERROR, and audits "failed to marshal PORC" as not decided by phase 1 |
| `Engine.PostPhase1` | internal/core/policyengine.go:416-442 | after phase 1, phases 2, 3 and 4 must each pass in turn, the bundles of each phase reached being appended |
| `Engine.AppendOne` | internal/core/policyengine.go:159-163 | one phase's bundles are appended and nothing else changes |
| `Engine.Phase1IsFinal` | internal/core/policyengine.go:384-398 | with a phase-1 GRANT or DENY, nothing the other phases or the resource produced changes the outcome |
| `Phases.StringsOf` | internal/core/phase4.go:37 | an array of strings gives all its items; anything that is not an array gives none |
| `Phases.StringItems` | internal/core/phase4.go:37 | exactly the string items are kept, all of them in order when every item is a string |
| `Phases.StringItemsAppend` | internal/core/phase4.go:37 | the string items of two runs put together are those of the first run followed by those of the second, so the order of the items is kept |
| `Phases.PhaseRecord.constructor` | internal/core/phase.go:16-19 | a phase starts with no bundles and no duration |
| `Phases.Phase1.constructor` | internal/core/phase1.go:49-100 | phase 1 starts with no bundles and result 0 |
| `Phases.Phase1.Exec` | internal/core/phase1.go:42-100 | exactly one SYSTEM bundle is appended; no operation policy, or a failed lookup, is result -1 and DENY; otherwise a positive result grants, zero defers, and a negative result or an evaluation error denies, the bundle being GRANT exactly for a non-negative result without error |
| `Phases.GroupFailures` | internal/core/phase2.go:52-55 | one IDENTITY DENY bundle per group whose fetch failed, and no more |
| `Phases.Evaluate` | internal/core/phase2.go:83-91 | a role or scope grants only when its policy could be fetched |
| `Phases.Phase2.constructor` | internal/core/phase2.go:28-120 | phase 2 starts with no bundles |
| `Phases.Phase2.Exec` | internal/core/phase2.go:28-120 | the phase passes exactly when some role of the principal or of a fetched group grants; the bundles are the failed groups' DENY bundles, then one per distinct role in some order |
| `Phases.CollectGroups` | internal/core/phase2.go:47-61 | the group loop gathers the roles of the fetched groups and a DENY bundle per failed group, in order |
| `Phases.GroupRolesAppend` | internal/core/phase2.go:57-59 | one more group adds exactly its roles when its fetch succeeded |
| `Phases.GroupFailuresAppend` | internal/core/phase2.go:53-55 | the failure bundles of one more group come after the earlier ones |
| `Phases.EvaluateAll` | internal/core/phase2.go:106-119 | every item evaluated once, one bundle per item in order, and the result is true exactly when some item grants |
| `Phases.EvaluateSlots` | internal/core/phase4.go:57-85 | slot i holds the decision, error, policy and duration of fetching and evaluating item i |
| `Phases.Phase4.constructor` | internal/core/phase4.go:29-109 | phase 4 starts with no bundles and no duration |
| `Phases.Phase4.Exec` | internal/core/phase4.go:29-109 | the API scope or no scope passes with no bundle; otherwise the phase passes exactly when some scope grants, with one SCOPE bundle per scope in order |
| `Phases.Phase2BundleCount` | internal/core/phase2.go:66-117 | phase 2 evaluates each distinct role exactly once |
| `ParseV1alpha4.AnchorMeaning` | pkg/policydomain/parsers/v1alpha4/parse.go:156-168 | an anchored pattern starts with "^" and ends with "$", and a pattern that already does is unchanged |
| `ParseV1alpha4.AnchorIdempotent` | pkg/policydomain/parsers/v1alpha4/parse.go:156-168 | anchoring twice is anchoring once |
| `ParseV1alpha4.AnchorAddsOnlyAnchors` | pkg/policydomain/parsers/v1alpha4/parse.go:160-166 | the anchored pattern is the pattern with at most a "^" before and a "$" after |
| `ParseV1alpha4.ExportKeyed` | pkg/policydomain/parsers/v1alpha4/parse.go:94-101 | the export loop stores each item under its key, a later item overwriting an earlier one |
| `ParseV1alpha4.AnnotationKeptByName` | pkg/policydomain/parsers/v1alpha4/parse.go:105-110 | the last annotation with a name is stored under it with its value and merge strategy |
| `ParseV1alpha4.ExportDefinitions` | pkg/policydomain/parsers/v1alpha4/parse.go:82-101 | policies are keyed by Mrn, each fingerprinted by the hash of its Rego |
| `ParseV1alpha4.ExportReference` | pkg/policydomain/parsers/v1alpha4/parse.go:103-119 | a reference keeps its Mrn, policy and default flag, with its annotations keyed by name |
| `ParseV1alpha4.ExportReferences` | pkg/policydomain/parsers/v1alpha4/parse.go:121-128 | references are keyed by Mrn, the last one winning |
| `ParseV1alpha4.ExportGroup` | pkg/policydomain/parsers/v1alpha4/parse.go:130-145 | a group keeps its Mrn and roles, with its annotations keyed by name |
| `ParseV1alpha4.ExportGroups` | pkg/policydomain/parsers/v1alpha4/parse.go:147-154 | groups are keyed by Mrn, the last one winning |
| `ParseV1alpha4.LaterDefinitionWins` | pkg/policydomain/parsers/v1alpha4/parse.go:96-98 | of two definitions with one Mrn the later is exported |
| `ParseV1alpha4.ExportAllOk` | pkg/policydomain/parsers/v1alpha4/parse.go:190-201 | a list export succeeds exactly when every item does, and then holds each item's export in order |
| `ParseV1alpha4.ExportAllFirstError` | pkg/policydomain/parsers/v1alpha4/parse.go:190-201 | a failed list export reports the error of the first item that fails |
| `ParseV1alpha4.ExportAllErrPersists` | pkg/policydomain/parsers/v1alpha4/parse.go:190-201 | a failure among the first items is the failure of the whole list |
| `ParseV1alpha4.ExportEach` | pkg/policydomain/parsers/v1alpha4/parse.go:190-201 | the loop stops at the first failing item and otherwise collects every export in order |
| `ParseV1alpha4.ExportOperation` | pkg/policydomain/parsers/v1alpha4/parse.go:170-188 | every selector is anchored then compiled, the first that does not compile being the error |
| `ParseV1alpha4.ExportOperations` | pkg/policydomain/parsers/v1alpha4/parse.go:190-201 | the operations exported in order, up to the first failure |
| `ParseV1alpha4.ExportMapper` | pkg/policydomain/parsers/v1alpha4/parse.go:203-225 | selectors as for operations; the fingerprint is the hash of the Rego |
| `ParseV1alpha4.ExportMappers` | pkg/policydomain/parsers/v1alpha4/parse.go:227-238 | the mappers exported in order, up to the first failure |
| `ParseV1alpha4.ExportResource` | pkg/policydomain/parsers/v1alpha4/parse.go:240-267 | selectors as for operations, then the annotations keyed by name |
| `ParseV1alpha4.ExportResources` | pkg/policydomain/parsers/v1alpha4/parse.go:269-280 | the resources exported in order, up to the first failure |
| `ParseV1alpha4.OperationSelectors` | pkg/policydomain/parsers/v1alpha4/parse.go:170-188 | an operation exports exactly when each anchored selector compiles, and its selectors are then the anchored patterns in order |
| `ParseV1alpha4.BadSelectorFailsOperations` | pkg/policydomain/parsers/v1alpha4/parse.go:173-177 | one selector that does not compile, in any operation, fails the whole export |
| `ParseV1alpha4.Load` | pkg/policydomain/parsers/v1alpha4/parse.go:301-351 | a read or decode failure is the error; then operations, mappers and resources fail in that order; otherwise the domain with every keyed map assembled |
| `ParseV1alpha4.LoadedDomainFacts` | pkg/policydomain/parsers/v1alpha4/parse.go:321-342 | every stored selector is anchored, and the policies are keyed by exactly the document's policy Mrns |
| `Reference.ParseReference` | pkg/policydomain/validation/reference.go:24-42 | an empty reference is an error; a bare id names the source domain; a qualified one splits at its first '/' into a non-empty domain free of '/' and a non-empty id, and is malformed otherwise |
| `Reference.ParseRejects` | pkg/policydomain/validation/reference.go:33-36 | a reference with '/' is rejected exactly when it starts with '/' or its first '/' ends it |
| `Reference.QualifyReference` | pkg/policydomain/validation/reference.go:44-50 | the result always holds '/', and a reference that holds one is kept as it is |
| `Reference.QualifyIdempotent` | pkg/policydomain/validation/reference.go:44-50 | qualifying twice, in any domains, is qualifying once |
| `Reference.QualifyMatchesParse` | pkg/policydomain/validation/reference.go:26-50 | a well-formed reference qualifies to its parsed domain and id joined by '/' |
| `Reference.UnknownTypeNeverExists` | pkg/policydomain/validation/reference.go:125-126 | an object of a kind outside the seven known ones never exists |
| `Reference.ValidateReference` | pkg/policydomain/validation/reference.go:52-75 | an empty reference is valid; a non-empty one is valid only when it parses, its domain exists and holds an object of the type |
| `Reference.ResolveReference` | pkg/policydomain/validation/reference.go:77-94 | a resolved reference names an existing domain, its model and an object of the type there, and qualifies to that domain and id |
| `Reference.ValidateAgreesWithResolve` | pkg/policydomain/validation/reference.go:53-94 | for a non-empty reference, validation succeeds exactly when resolution does |
| `Reference.FindObjectAcrossDomains` | pkg/policydomain/validation/reference.go:130-152 | in any map order, success exactly when one domain holds the object, returning it and its model; not found for none; ambiguous, listing every holder, for several |
| `Registry.Reversed` | pkg/policydomain/registry/registry.go:57-64 | the reversal has the same length and element k is the k-th from the end |
| `Registry.ReversedInvolution` | pkg/policydomain/registry/registry.go:57-64 | reversing twice gives the original order back |
| `Registry.ReversedPermutation` | pkg/policydomain/registry/registry.go:57-64 | reversal keeps exactly the same elements |
| `Registry.Reverse` | pkg/policydomain/registry/registry.go:57-64 | swapping from both ends in place leaves the array reversed |
| `Registry.EarliestPathWins` | pkg/policydomain/registry/registry.go:123-126 | a name's entry is the domain of the earliest path with that name |
| `Registry.DomainMapNames` | pkg/policydomain/registry/registry.go:123-126 | the map holds exactly the loaded names |
| `Registry.LoadAll` | pkg/policydomain/registry/registry.go:114-121 | loading succeeds exactly when every path loads, giving the domains in path order; a failure is the error of the first path that fails to load |
| `Registry.BuildDomainMap` | pkg/policydomain/registry/registry.go:123-126 | the loop over the reversed list builds the map of the loaded domains by name |
| `Registry.Registry.constructor` | pkg/policydomain/registry/registry.go:134-137 | the registry holds the given domain map |
| `Registry.Registry.NewRegistry` | pkg/policydomain/registry/registry.go:99-143 | a path that fails to load fails the registry with the error of the first path that fails; once every path loads, the only failure is a validation failure; a registry holds the map of every loaded domain by name, earliest path first, with no reference error, no Rego error and a dependency order of its libraries; a failing reference or Rego check fails the registry; a validation failure carries exactly the reference errors, the cycle search's error if any and the Rego errors |
| `Registry.Registry.CompileAllPolicies` | pkg/policydomain/registry/registry.go:145-162 | the domain names are unchanged; each domain changes only by compiling what lacked an Ast; with no error every policy, library and mapper holds one; an error is "domain <name>: " followed by the compile failure of an uncompiled library, policy or mapper of that domain |
| `Registry.CompileDomain` | pkg/policydomain/registry/registry.go:150-160 | a domain's libraries, then policies, then mappers are compiled, only the Asts changing; an error is the compile failure of one of its uncompiled libraries, policies or mappers, named by kind and id |
| `Registry.CompiledFromTrans` | pkg/policydomain/registry/registry.go:168-170 | two rounds of compilation are one: what was compiled is skipped |
| `Registry.CompilePolicies` | pkg/policydomain/registry/registry.go:164-193 | in any map order, entries holding an Ast are skipped and the others compiled; with no error every entry holds an Ast; a failure names the entry |
| `Registry.CompileMappers` | pkg/policydomain/registry/registry.go:245-265 | mappers holding an Ast are skipped and the others compiled in order; with no error every mapper holds one; a failure names the mapper |
| `TestDecisions.Kept` | cmd/mpe/subcommands/test/decisions.go:137-152 | no more tests are kept than the suite holds |
| `TestDecisions.KeptMembers` | cmd/mpe/subcommands/test/decisions.go:138-151 | a test is kept exactly when it is in the suite and some pattern admits it, by glob or, for a malformed glob, by equality |
| `TestDecisions.KeptOccurrences` | cmd/mpe/subcommands/test/decisions.go:144-149 | the inner loop stops at the first admitting pattern, so no test is kept more often than the suite holds it |
| `TestDecisions.KeptAppend` | cmd/mpe/subcommands/test/decisions.go:138-152 | selection distributes over concatenation, so the kept tests keep the suite's order |
| `TestDecisions.KeptAll` | cmd/mpe/subcommands/test/decisions.go:138-152 | when every test is admitted, the selection is the whole suite |
| `TestDecisions.FilterTests` | cmd/mpe/subcommands/test/decisions.go:132-155 | with no patterns every test, otherwise exactly the admitted tests in order |
| `TestDecisions.KeptStep` | cmd/mpe/subcommands/test/decisions.go:138-152 | the selection after one more test gains that test exactly when it is admitted |
| `TestDecisions.Admitted` | cmd/mpe/subcommands/test/decisions.go:139-151 | the pattern loop adds the test exactly when some pattern admits its name |
| `TestDecisions.CountPassing` | cmd/mpe/subcommands/test/decisions.go:92-99 | the passes never outnumber the tests, and equal them exactly when every test marshals, is decided and gets the expected decision |
| `TestDecisions.CountPassingAppend` | cmd/mpe/subcommands/test/decisions.go:75-100 | passes over two runs add up |
| `TestDecisions.PassLine` | cmd/mpe/subcommands/test/decisions.go:77-99 | a test's line reads PASS exactly when the test passes |
| `TestDecisions.ExecuteDecisions` | cmd/mpe/subcommands/test/decisions.go:39-112 | load failure, empty suite, empty selection and engine failure are the errors, in that order; otherwise passes and failures add up to the selected tests, the passes are the passing tests, one line per test plus the summary is printed, and the exit code is 1 exactly when some test did not pass |
| `TestDecisions.RunTests` | cmd/mpe/subcommands/test/decisions.go:72-104 | the loop counts the passing tests, the others as failures, prints one line per test in order and then the summary |
| `TestDecisions.RunStep` | cmd/mpe/subcommands/test/decisions.go:75-100 | the count and the lines after one more test |
| `TestDecisions.RunOne` | cmd/mpe/subcommands/test/decisions.go:77-99 | one test passes exactly when its PORC marshals, Authorize succeeds and the decision is the expected one |
| `ValidationErrors.ContextParts` | pkg/policydomain/validation/errors.go:25-37 | there is a context part exactly when the domain, the entity with its id, or the field is set, the domain coming first |
| `ValidationErrors.Render` | pkg/policydomain/validation/errors.go:24-45 | the rendering ends with the message, is the bare message exactly when there is no context, and otherwise starts "in ", with the domain first when it is set |
| `ValidationErrors.LinesStep` | pkg/policydomain/validation/errors.go:114-121 | the numbered lines after one more error gain that error's line, numbered one past the earlier ones |
| `ValidationErrors.NumberedStep` | pkg/policydomain/validation/errors.go:114-121 | the builder holding the header and the first i lines, plus line i+1, holds the header and i+1 lines |
| `ValidationErrors.NumberedLines` | pkg/policydomain/validation/errors.go:111-123 | the builder ends up holding the header and then one numbered line per error in order |
| `ValidationErrors.RenderedCases` | pkg/policydomain/validation/errors.go:102-123 | an empty collection renders "no validation errors", a single error renders as itself, several start with the header counting them |
| `ValidationErrors.LinesInOrder` | pkg/policydomain/validation/errors.go:114-121 | each error's line, numbered from 1, follows the lines of the errors before it |
| `ValidationErrors.GroupKey` | pkg/policydomain/validation/errors.go:132-134 | no group key is empty: an empty domain or type is grouped as "unknown" |
| `ValidationErrors.Members` | pkg/policydomain/validation/errors.go:130-136 | a group holds only errors of the collection whose key is the group's |
| `ValidationErrors.MembersAppend` | pkg/policydomain/validation/errors.go:130-136 | grouping two runs of errors concatenates their groups |
| `ValidationErrors.MembersNone` | pkg/policydomain/validation/errors.go:130-136 | a run with no error of a key contributes nothing to its group |
| `ValidationErrors.GroupBy` | pkg/policydomain/validation/errors.go:127-154 | the empty key is never a group |
| `ValidationErrors.GroupIsMembers` | pkg/policydomain/validation/errors.go:127-154 | a key is a group exactly when some error has it, and the group is exactly those errors in collection order |
| `ValidationErrors.UnknownCollectsEmptyKeys` | pkg/policydomain/validation/errors.go:132-134 | an error with an empty key lies in the "unknown" group |
| `ValidationErrors.MemberAt` | pkg/policydomain/validation/errors.go:130-136 | every error lies in the group of its own key |
| `ValidationErrors.TotalSizeRemove` | pkg/policydomain/validation/errors.go:127-154 | the total size of the groups does not depend on the order they are counted in |
| `ValidationErrors.GroupsPartition` | pkg/policydomain/validation/errors.go:127-154 | the group sizes add up to the number of errors |
| `ValidationErrors.Errors.constructor` | pkg/policydomain/validation/errors.go:53-57 | a new collection is empty |
| `ValidationErrors.Errors.Add` | pkg/policydomain/validation/errors.go:60-62 | the error is appended and the count grows by one |
| `ValidationErrors.Errors.AddError` | pkg/policydomain/validation/errors.go:65-74 | appends an error holding exactly the given fields |
| `ValidationErrors.Errors.AddReferenceError` | pkg/policydomain/validation/errors.go:77-79 | appends an error of type "reference" with the given context |
| `ValidationErrors.Errors.AddCycleError` | pkg/policydomain/validation/errors.go:82-84 | appends an error of type "cycle" without context, which renders as its bare message |
| `ValidationErrors.Errors.AddRegoError` | pkg/policydomain/validation/errors.go:87-89 | appends an error of type "rego" on the field "rego" |
| `ValidationErrors.Errors.Count` | pkg/policydomain/validation/errors.go:97-99 | the number of errors added |
| `ValidationErrors.Errors.HasErrors` | pkg/policydomain/validation/errors.go:92-94 | true exactly when the count is positive |
| `ValidationErrors.Errors.Message` | pkg/policydomain/validation/errors.go:102-124 | the collection's rendering in its three shapes |
| `ValidationErrors.Errors.GroupErrors` | pkg/policydomain/validation/errors.go:127-154 | the loop builds the grouping, each group being the errors of its key in order, the sizes adding up to the count |
| `ValidationErrors.Errors.ErrorsByDomain` | pkg/policydomain/validation/errors.go:127-139 | the errors grouped by domain, sizes adding up to the count |
| `ValidationErrors.Errors.ErrorsByType` | pkg/policydomain/validation/errors.go:142-154 | the errors grouped by type, sizes adding up to the count |
| `ValidationErrors.Errors.First` | pkg/policydomain/validation/errors.go:182-187 | nothing exactly when no error was added, otherwise the earliest one |
| `ValidationErrors.Errors.ToSlice` | pkg/policydomain/validation/errors.go:190-196 | a copy of the errors of the same length and order |
| `Validator.ErrorsOf` | pkg/policydomain/validation/validator.go:148-151 | validating a list of references records at most one error per reference |
| `Validator.ErrorsOfFailed` | pkg/policydomain/validation/validator.go:145-217 | validating a list of references records exactly the errors of the references that fail, each carrying the failure's message |
| `Validator.FailedOne` | pkg/policydomain/validation/validator.go:149-150 | a reference that validates records nothing, one that fails records its own reference error |
| `Validator.FailedEmptyIff` | pkg/policydomain/validation/validator.go:145-217 | no error is recorded for a domain exactly when every one of its references validates |
| `Validator.FailedAreReferenceErrors` | pkg/policydomain/validation/validator.go:150 | every recorded error has type "reference", the domain's name, and the entity, id, field and message of a failing reference |
| `Validator.DependencyChecks` | pkg/policydomain/validation/validator.go:145-166 | each dependency of a library or policy, in order, must name a library, in the field "dependencies" |
| `Validator.RoleChecks` | pkg/policydomain/validation/validator.go:179-188 | the i-th role of a group must name a role, in the field "roles[i]" |
| `Validator.OperationChecks` | pkg/policydomain/validation/validator.go:211-218 | the i-th operation, named "operation[i]", must name a policy in the field "policy" |
| `Validator.CheckAll` | pkg/policydomain/validation/validator.go:148-151 | the references are validated in order, appending exactly their errors |
| `Validator.ErrorsOfStep` | pkg/policydomain/validation/validator.go:148-151 | the errors after one more reference gain that reference's error exactly when it fails |
| `Validator.CheckKeyed` | pkg/policydomain/validation/validator.go:145-208 | one entity-kind loop, in any map order, only appends, and appends exactly the errors of the failing references of that kind, each as often as it fails |
| `Validator.ValidateDomainReferences` | pkg/policydomain/validation/validator.go:133-142 | the seven entity kinds in turn only append, and append exactly the errors of the domain's failing references, counted with repetition |
| `Validator.NoReferenceErrorsIff` | pkg/policydomain/validation/validator.go:110-115 | no reference error in any domain exactly when every reference of every domain validates |
| `Validator.ValidateAllReferences` | pkg/policydomain/validation/validator.go:110-115 | in any map order, only appends, and appends exactly every domain's reference errors, counted with repetition |
| `Validator.SumOverRemove` | pkg/policydomain/validation/validator.go:110-115 | a loop over a map sums the same errors whichever key it takes first |
| `Validator.SumOverMember` | pkg/policydomain/validation/validator.go:110-115 | an error is in the sum over a map's keys exactly when it is among the errors of one of the keys |
| `Validator.ErrorsOfMember` | pkg/policydomain/validation/validator.go:148-151 | an error is recorded for a list of references exactly when one of them fails with it |
| `Validator.KeyedErrorsMeaning` | pkg/policydomain/validation/validator.go:145-208 | an error of one entity kind's loop is exactly a failure of a reference held by an entity of that kind |
| `Validator.DomainErrorsMeaning` | pkg/policydomain/validation/validator.go:133-142 | an error of a domain is exactly a failure of a reference the domain holds |
| `Validator.AllReferenceErrorsMeaning` | pkg/policydomain/validation/validator.go:110-115 | an error is among all reference errors exactly when it is the failure of some domain's reference |
| `Validator.RegoError` | pkg/policydomain/validation/errors.go:87-89 | a Rego failure becomes an error of type and field "rego" in its domain with its message |
| `Validator.RegoErrorList` | pkg/policydomain/validation/validator.go:128 | one error per Rego failure, in order |
| `Validator.AddRegoFailures` | pkg/policydomain/validation/validator.go:128 | appends the domain's Rego errors in order and nothing else |
| `Validator.AddedRego` | pkg/policydomain/validation/validator.go:128 | the appended Rego errors are exactly the domain's Rego errors, one per failure |
| `Validator.ValidateAllRego` | pkg/policydomain/validation/validator.go:125-130 | in any map order, only appends, and appends exactly every domain's Rego errors, one per failure |
| `Validator.GetLibrary` | pkg/policydomain/validation/validator.go:298-311 | the library exactly when its domain exists and holds it; a missing domain is reported before a missing library |
| `Validator.ValidateDependencyExists` | pkg/policydomain/validation/validator.go:329-341 | fails exactly when the library lookup fails, with the same message |
| `Validator.ResolveDependencyNode` | pkg/policydomain/validation/validator.go:314-326 | succeeds exactly when the dependency parses to an existing library, and then names that library |
| `Validator.KeysOf` | pkg/policydomain/validation/validator.go:231 | each library is named by its domain, "/" and its id, in order |
| `Validator.OrderExtend` | pkg/policydomain/validation/validator.go:263-264 | finishing a library whose dependencies are all finished keeps the finished libraries in dependency order |
| `Validator.WalkExtend` | pkg/policydomain/validation/validator.go:252-258 | following a dependency from the end of a walk gives a walk |
| `Validator.CycleFromWalk` | pkg/policydomain/validation/validator.go:233-236 | meeting a library already on the stack closes a walk along dependency edges, and the cycle message names exactly that closed walk |
| `Validator.EdgeDescends` | pkg/policydomain/validation/validator.go:252-264 | in a dependency order of all libraries, a library's dependency comes strictly earlier |
| `Validator.Descends` | pkg/policydomain/validation/validator.go:252-264 | positions that go down at every step of a walk end below where they started |
| `Validator.WalkNeverReturns` | pkg/policydomain/validation/validator.go:221-280 | when the libraries have a dependency order and distinct names, a walk of at least one step never returns to its first library |
| `Validator.OrderedMeansAcyclic` | pkg/policydomain/validation/validator.go:221-280 | when the libraries have a dependency order and distinct names, there is no cycle along dependencies, so a search that reports nothing means there is none |
| `Validator.SlashFreeDomainsDistinct` | pkg/policydomain/validation/validator.go:231 | when no domain name holds "/", no two libraries share a name |
| `Validator.KeyInjective` | pkg/policydomain/validation/validator.go:231 | two libraries of domains without "/" with the same name are the same library |
| `Validator.SlashAfterDomain` | pkg/policydomain/validation/validator.go:231 | the first "/" of a library's name follows its domain, when the domain holds none |
| `Validator.ResolvedStep` | pkg/policydomain/validation/validator.go:252-261 | one more dependency resolved to a finished library extends the resolved prefix |
| `Validator.FinishedDeps` | pkg/policydomain/validation/validator.go:252-264 | dependencies resolved to finished libraries are resolved to libraries of the finish order |
| `Validator.BuildCycleError` | pkg/policydomain/validation/validator.go:283-295 | the search loop finds the first occurrence of the key, so the message is the stack from there closed by the key |
| `Validator.CycleDetector.constructor` | pkg/policydomain/validation/validator.go:226 | the DFS starts with no library visited and none finished |
| `Validator.CycleDetector.Dfs` | pkg/policydomain/validation/validator.go:230-266 | reaching a library on the stack reports that cycle and changes nothing, and the message names a closed walk along dependency edges; a finished one changes nothing; otherwise, without error, the library ends finished and the stack is as before; any error is a cycle along dependencies or an unresolvable dependency; states only grow, no library is expanded twice, and the finished libraries stay in dependency order |
| `Validator.CycleDetector.MarkVisiting` | pkg/policydomain/validation/validator.go:242 | the library goes on the stack |
| `Validator.CycleDetector.RecordExpansion` | pkg/policydomain/validation/validator.go:246-252 | the library's dependencies are explored once |
| `Validator.CycleDetector.MarkFinished` | pkg/policydomain/validation/validator.go:264 | the library leaves the stack and is finished, after every library it depends on |
| `Validator.CycleDetector.Expand` | pkg/policydomain/validation/validator.go:241-265 | an unvisited library is expanded; without error it ends finished, after all its dependencies, and the stack is as before; any error is a cycle along dependencies or an unresolvable dependency |
| `Validator.CycleDetector.VisitDependencies` | pkg/policydomain/validation/validator.go:252-261 | each dependency is resolved and visited, stopping at the first error; without error every dependency resolved to a finished library and the stack is as before; an error is an unresolvable dependency or a cycle found below |
| `Validator.VisitLibraries` | pkg/policydomain/validation/validator.go:271-276 | without error every library of the domain is finished; an error is a cycle along dependencies or an unresolvable dependency |
| `Validator.DetectLibraryCycles` | pkg/policydomain/validation/validator.go:221-280 | no library is expanded twice; without error every library was expanded and the finished libraries form a dependency order of all of them; an error names a closed walk along dependency edges or is a dependency's resolution failure |
| `Validator.CycleErrors` | pkg/policydomain/validation/validator.go:118-122 | one cycle error exactly when the search reported one, of type "cycle", carrying the search's message and rendering as it |
| `Validator.ReferenceErrorsTyped` | pkg/policydomain/validation/validator.go:150-215 | every reference error has type "reference" |
| `Validator.RegoErrorsTyped` | pkg/policydomain/validation/validator.go:128 | every Rego error has type and field "rego" |
| `Validator.AtMostOneCycle` | pkg/policydomain/validation/validator.go:39-45 | when only the middle step can add a cycle error, and at most one, the collection holds at most one |
| `Validator.CollectAll` | pkg/policydomain/validation/validator.go:36-45 | the collection holds exactly the reference errors, the cycle search's error if any and the Rego errors, counted with repetition, with at most one cycle error; the search's error is a cycle along dependencies or an unresolvable dependency, and without one the libraries have a dependency order |
| `Validator.CycleAppended` | pkg/policydomain/validation/validator.go:118-122 | the cycle step appends the cycle error, if any, and nothing else |
| `Validator.Collected` | pkg/policydomain/validation/validator.go:36-45 | three phases appended in turn hold exactly the sum of their errors, with at most one cycle error |
| `Validator.ValidateAll` | pkg/policydomain/validation/validator.go:35-52 | no error exactly when no reference fails, the cycle search reports nothing and no Rego fails; otherwise the collection holds exactly those errors counted with repetition, its count is their number, and it holds at most one cycle error; a reported cycle is a closed walk along dependency edges, and with none the libraries have a dependency order |
| `Validator.ValidateDomain` | pkg/policydomain/validation/validator.go:90-107 | an unknown domain is an error; otherwise no error exactly when the domain has no failing reference and no Rego failure, and otherwise exactly those errors, counted with repetition |
| `Text.Split` | internal/logging/logmanager.go:116 | `strings.Split` on one character: never empty, and no part holds the separator |
| `Text.JoinSplit` | internal/logging/logmanager.go:116 | joining the parts with the separator gives the text back |

## Left out

- The Open Policy Agent is not part of this model. Compiling and evaluating Rego are parameters (`compilePolicy`, `compileMapper`, `regoFailures` and the policy results the phases receive).
- Regular expressions, `filepath.Match` and `filepath.Join` are parameters (`matches`, `glob`, `join`), and so are SHA-256 fingerprints.
- YAML and JSON decoding are not modelled: documents arrive decoded, as `Json.Value` trees or YAML node trees.
  - When `json.Marshal` fails on a PORC is not modelled: `Engine.MarshalFailed` models what `Authorize` does then, and takes the marshaller's error text as a parameter.
- File and directory reads, the `bufio` scanner and subprocess runs are inputs.
  - The scanner's 64 KiB line limit appears only as the scanner error `scanErr`.
- The backend lookups are parameters of the phases: fetching policies, roles, groups and scopes, and `resolveResource`.
  - The annotation fetchers' goroutines (`fetchAnnotations`) are not modelled; `GetAnnotations` receives the fetched annotation sets.
- The phases' goroutine fan-out and the logger mutex are modelled sequentially. Each goroutine writes its own slot.
- A nil map or slice and an empty one are the same value in the model. Reading, ranging over and measuring either gives the same result in Go. Nil is kept where it is an explicit `Option` (`ToAnnotations`, `FromAnnotations`, `UnmarshalJSON`, `toRichAnnotations`). Writing into a nil map panics in Go; `AuxData.MergeAuxData` below is where that matters.
- `RichAnnotations.MarshalJSON` is `ToAnnotations` followed by JSON encoding; only the conversion is modelled.
- Phase 3 is not part of this model: `Authorize` receives its outcome.
- `Phases.StringsOf`: `toStringSlice` is not part of this model; it is taken to keep the string items of an array.
- The deny and grant reason tables of `setOverrideReason` are parameters.
- `compilePolicyWithDeps` is a parameter.
- `Annotations.ToComparableKey` gives a tagged datatype key, not the text `toComparableKey` builds. Only its injectivity is used (`Annotations.ComparableKeyInjective`).
- `IsPolicyDomainReference` is not modelled.
- In `pkg/core/backend/local/core.go`, `GetResourceGroup`, `GetRole`, `GetScope`, `GetGroup`, `GetOperation` and `policyRefExport` are not part of this model.
- The zap logger internals are not part of this model. A logger is its level in the manager's map.
- `LogManager.ParseLevel`: `Text.Lower` folds ASCII letters only, where Go's `strings.ToLower` folds all of Unicode.
- `MpeRunner.NormalizeMeaning`: `Text.Upper` folds ASCII letters only, where Python's `str.upper()` folds all of Unicode and can change a string's length ("ß" becomes "SS"). Tokens whose meaning depends on non-ASCII case are outside the contract.
- `MpeRunner.UnknownTokenPassesThrough`: the upper-case form returned is the ASCII-only one, for the same reason.
- `BrokenAlphaCheck.FirstMissing`: "ignoring case" compares ASCII-lower-cased texts, where Python's `str.lower()` folds all of Unicode.
- `BrokenAlphaCheck.Check`: the same ASCII-only case folding decides whether a fragment occurs.
- `Build.File`: it uses the corrected `Build.EnsurePolicyDomainKind` (see Findings), not the code as written. A document whose top level is a sequence with one item, such as `- x`, builds, where the code as written panics reading past the end. A sequence such as `- kind` followed by `- foo` is left alone, where the code as written renames `foo` to PolicyDomain.
- `Build.File`: `readRegoFile`'s path resolution is the parameter `readRego`. A YAML mapping with a repeated `rego_filename` key is handled as the code handles it (the last one wins); whether the YAML decoder accepts one is not modelled.
- `TestDecisions.ExecuteDecisions`: the lines printed are the `output` field of the result, not writes to standard output. `--trace` and the access-log writer are not modelled.
- `Lint.ParseOpaCheckOutput`: running `opa check` and printing its messages are not modelled.
- `Regal.PerformRegalLinting`: `runRegalLint` is the parameter `lint` and `writeRegoToTempFile` is not modelled. When two entities get the same synthetic name, the contract does not say which one the file map keeps.
- `AuxData.MergeAuxData`: an input that is a nil `map[string]interface{}` passes the type assertion, and the write at `pkg/core/auxdata/auxdata.go:70` then panics. The model has no nil map, so it treats that input as an empty object and adds the key.
- `AuxData.MergeAuxData`: the Go code writes "auxdata" into the caller's map in place. The model returns the updated value, so the aliasing is not captured.
- `ValidationErrors.Errors.Summary` is not modelled. It prints per-domain and per-type counts in map order, and those counts are what `ErrorsByDomain` and `ErrorsByType` give.
- `DomainValidator.ValidateWithSummary` and `GetAllValidationErrors` are not modelled. They wrap `ValidateAll`.
- `Validator.ValidateAll`: the contract gives the errors collected as a multiset, so each error's number of occurrences, but not their order within one phase, which follows map iteration.
- `Validator.ValidateAll`: whether the cycle search reports anything can depend on map order (which library is searched first decides which cycle is met first), so the contract says what a reported error is and what its absence means rather than fixing which error is reported.
- `Validator.OrderedMeansAcyclic`: library names are `domain + "/" + id`, so two libraries can share a name when a domain name holds "/". The search then treats them as one, and absence of cycles is proved only for distinct names (`Validator.SlashFreeDomainsDistinct` gives them when no domain name holds "/").
- `Validator.CycleDetector.Expand`: `getLibrary` cannot fail there, since every library the search reaches exists, so its error return is not modelled.
- `Phases.Phase2.Exec` builds its bundles with a zero duration. In `internal/core/phase2.go` the calls to `buildBundleReference` pass no duration, one argument fewer than its signature has.
- `Engine.Decide` and `Engine.MarshalFailed` build the resource bundle with a zero duration. The calls at `internal/core/policyengine.go:311` and `internal/core/policyengine.go:411` also pass no duration, one argument fewer than the signature in `internal/core/utils.go:33` has.

## Findings

| source | as written | input that shows it | evidently intended | confidence | as-written member | corrected member |
|---|---|---|---|---|---|---|
| cmd/mpe/subcommands/build/core.go:281-304 | the scan for the top-level "kind" steps through the children two at a time and reads `Content[i+1]` without checking that it exists, and it scans any node kind | a document whose top level is a sequence with one item, or a scanned node with an odd number of children and no "kind" key, makes it index past the end | scan only a mapping, and only whole key/value pairs | not executed | `Build.EnsurePolicyDomainKindAsWritten`, `Build.SequenceRootPanics` | `Build.EnsurePolicyDomainKind` |
