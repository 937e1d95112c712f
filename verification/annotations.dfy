/**
 * Annotation merging across the identity hierarchy (internal/core/annotations.go).
 * Each Go helper that fills a fresh map or slice in a loop is a method proved
 * against a declarative specification function; the properties the merge
 * promises are lemmas about those functions.
 */
module Annotations {
  import opened Wrappers
  import opened Json
  import opened CoreModel
  import opened Collections

  // ---------------------------------------------------------------------
  // Strategy choice and type compatibility

  /** `determineStrategy`: the higher entry's strategy, else the lower's, else the default. */
  function DetermineStrategy(lower: string, higher: string, default: string): (s: string)
    ensures higher != "" ==> s == higher
    ensures higher == "" && lower != "" ==> s == lower
    ensures higher == "" && lower == "" ==> s == default
  {
    if higher != "" then higher else if lower != "" then lower else default
  }

  /** The three shapes `sameType` distinguishes. */
  datatype Shape = ArrayShape | ObjectShape | ScalarShape

  function ShapeOf(v: Value): Shape
  {
    match v
    case Arr(_) => ArrayShape
    case Obj(_) => ObjectShape
    case _ => ScalarShape
  }

  /** `sameType`: both arrays, both objects, or both scalars (null counts as a scalar). */
  predicate SameType(a: Value, b: Value)
  {
    match a
    case Arr(_) => b.Arr?
    case Obj(_) => b.Obj?
    case _ => !b.Arr? && !b.Obj?
  }

  /** `sameType` is an equivalence: it compares shapes. */
  lemma SameTypeIsSameShape(a: Value, b: Value)
    ensures SameType(a, b) <==> ShapeOf(a) == ShapeOf(b)
  {
  }

  // ---------------------------------------------------------------------
  // Comparable keys for union de-duplication

  /**
   * `toComparableKey`: strings, numbers and booleans are tagged with their
   * kind, null has its own key, arrays and objects are keyed by their whole
   * JSON encoding. The tags keep the kinds apart.
   */
  datatype ComparableKey = StrKey(s: string) | NumKey(n: real) | BoolKey(b: bool) | NullKey | JsonKey(doc: Value)

  function ToComparableKey(v: Value): (k: ComparableKey)
    ensures v.Str? <==> k.StrKey?
    ensures v.Null? <==> k.NullKey?
    ensures (v.Arr? || v.Obj?) <==> k.JsonKey?
  {
    match v
    case Str(s) => StrKey(s)
    case Num(n) => NumKey(n)
    case Bool(b) => BoolKey(b)
    case Null => NullKey
    case _ => JsonKey(v)
  }

  /** Two values share a key only when they are equal. */
  lemma ComparableKeyInjective(a: Value, b: Value)
    ensures ToComparableKey(a) == ToComparableKey(b) <==> a == b
  {
  }

  function KeysOf(xs: seq<Value>): set<ComparableKey>
  {
    set x | x in xs :: ToComparableKey(x)
  }

  /** Keeps the first element of each comparable key, in order. */
  function Dedup(xs: seq<Value>): seq<Value>
    decreases |xs|
  {
    if xs == [] then []
    else
      var d := Dedup(xs[..|xs| - 1]);
      var x := xs[|xs| - 1];
      if ToComparableKey(x) in KeysOf(d) then d else d + [x]
  }

  // ---------------------------------------------------------------------
  // Specifications of the merge helpers

  /** What `mergeDeep` computes: arrays higher first, objects merged key by key, scalars higher. */
  function DeepMerged(l: Value, h: Value): Value
    requires SameType(l, h)
    decreases h
  {
    match h
    case Arr(hs) => Arr(hs + l.items)
    case Obj(hm) =>
      Obj(map k | k in l.fields.Keys + hm.Keys ::
        if k !in hm then l.fields[k]
        else if k in l.fields && SameType(l.fields[k], hm[k]) then DeepMerged(l.fields[k], hm[k])
        else hm[k])
    case _ => h
  }

  /** What `mergeAppend` computes: arrays higher first, objects shallow with higher winning, scalars higher. */
  function AppendMerged(l: Value, h: Value): Value
    requires SameType(l, h)
  {
    match h
    case Arr(hs) => Arr(hs + l.items)
    case Obj(hm) => Obj(map k | k in l.fields.Keys + hm.Keys :: if k in hm then hm[k] else l.fields[k])
    case _ => h
  }

  /** What `mergePrepend` computes: arrays lower first, objects shallow with lower winning, scalars lower. */
  function PrependMerged(l: Value, h: Value): Value
    requires SameType(l, h)
  {
    match h
    case Arr(hs) => Arr(l.items + hs)
    case Obj(hm) => Obj(map k | k in l.fields.Keys + hm.Keys :: if k in l.fields then l.fields[k] else hm[k])
    case _ => l
  }

  /** What `mergeUnion` computes: arrays de-duplicated higher first, objects as a deep merge, scalars higher. */
  function UnionMerged(l: Value, h: Value): Value
    requires SameType(l, h)
  {
    match h
    case Arr(hs) => Arr(Dedup(hs + l.items))
    case Obj(_) => DeepMerged(l, h)
    case _ => h
  }

  /** What `mergeValues` computes: higher on a type mismatch, else the named strategy; anything unknown is deep. */
  function ValueMerged(l: Value, h: Value, strategy: string): Value
  {
    if !SameType(l, h) then h
    else if strategy == MergeReplace then h
    else if strategy == MergeAppend then AppendMerged(l, h)
    else if strategy == MergePrepend then PrependMerged(l, h)
    else if strategy == MergeUnion then UnionMerged(l, h)
    else DeepMerged(l, h)
  }

  /** The entry a shared key receives: the merged value, keeping higher's strategy. */
  function SharedEntry(le: AnnotationEntry, he: AnnotationEntry, default: string): AnnotationEntry
  {
    AnnotationEntry(ValueMerged(le.value, he.value, DetermineStrategy(le.mergeStrategy, he.mergeStrategy, default)),
                    he.mergeStrategy)
  }

  function OrEmpty(a: Option<RichAnnotations>): RichAnnotations
  {
    if a.Some? then a.value else map[]
  }

  /** What `mergeRichAnnotations` computes; the result is never nil. */
  function RichMerged(lower: Option<RichAnnotations>, higher: Option<RichAnnotations>, default: string): RichAnnotations
  {
    if lower.None? && higher.None? then map[]
    else
      var d := if default == "" then DefaultMergeStrategy else default;
      MergedEntries(OrEmpty(lower), OrEmpty(higher), d)
  }

  /** Every key of either map; a shared key takes the merge of both entries, any other its only entry. */
  function MergedEntries(lm: RichAnnotations, hm: RichAnnotations, d: string): RichAnnotations
  {
    map k | k in lm.Keys + hm.Keys ::
      if k !in hm then lm[k]
      else if k in lm then SharedEntry(lm[k], hm[k], d)
      else hm[k]
  }

  // ---------------------------------------------------------------------
  // The Go helpers, proved against their specifications

  /** `mergeDeep`; like the Go code it assumes the caller checked `sameType`. */
  method MergeDeepValues(l: Value, h: Value) returns (r: Value)
    requires SameType(l, h)
    ensures r == DeepMerged(l, h)
    decreases h
  {
    match h {
      case Arr(hs) =>
        r := Arr(hs + l.items);
      case Obj(hm) =>
        var lm := l.fields;
        var result: map<string, Value> := map[];
        var pending := lm.Keys;
        while pending != {}
          invariant pending <= lm.Keys
          invariant result.Keys == lm.Keys - pending
          invariant forall k :: k in result ==> result[k] == lm[k]
          decreases pending
        {
          var k :| k in pending;
          result := result[k := lm[k]];
          pending := pending - {k};
        }
        pending := hm.Keys;
        while pending != {}
          invariant pending <= hm.Keys
          invariant result.Keys == lm.Keys + (hm.Keys - pending)
          invariant forall k :: k in result && k !in hm.Keys - pending ==> result[k] == lm[k]
          invariant forall k :: k in hm.Keys - pending ==>
            result[k] == (if k in lm && SameType(lm[k], hm[k]) then DeepMerged(lm[k], hm[k]) else hm[k])
          decreases pending
        {
          var k :| k in pending;
          if k in result && SameType(result[k], hm[k]) {
            var merged := MergeDeepValues(result[k], hm[k]);
            result := result[k := merged];
          } else {
            result := result[k := hm[k]];
          }
          pending := pending - {k};
        }
        r := Obj(result);
      case _ =>
        r := h;
    }
  }

  /** `mergeAppend`. */
  method MergeAppendValues(l: Value, h: Value) returns (r: Value)
    requires SameType(l, h)
    ensures r == AppendMerged(l, h)
  {
    match h {
      case Arr(hs) =>
        r := Arr(hs + l.items);
      case Obj(hm) =>
        var result := CopyInto(map[], l.fields);
        result := CopyInto(result, hm);
        r := Obj(result);
      case _ =>
        r := h;
    }
  }

  /** `mergePrepend`. */
  method MergePrependValues(l: Value, h: Value) returns (r: Value)
    requires SameType(l, h)
    ensures r == PrependMerged(l, h)
  {
    match h {
      case Arr(hs) =>
        r := Arr(l.items + hs);
      case Obj(hm) =>
        var result := CopyInto(map[], hm);
        result := CopyInto(result, l.fields);
        r := Obj(result);
      case _ =>
        r := l;
    }
  }

  /** One `for k, v := range src { dst[k] = v }` loop: src's entries win. */
  method CopyInto(dst: map<string, Value>, src: map<string, Value>) returns (r: map<string, Value>)
    ensures r.Keys == dst.Keys + src.Keys
    ensures forall k :: k in r ==> r[k] == if k in src then src[k] else dst[k]
  {
    r := dst;
    var pending := src.Keys;
    while pending != {}
      invariant pending <= src.Keys
      invariant r.Keys == dst.Keys + (src.Keys - pending)
      invariant forall k :: k in r ==> r[k] == if k in src.Keys - pending then src[k] else dst[k]
      decreases pending
    {
      var k :| k in pending;
      r := r[k := src[k]];
      pending := pending - {k};
    }
  }

  /** `mergeUnion`: the `seen` map is the set of keys already emitted. */
  method MergeUnionValues(l: Value, h: Value) returns (r: Value)
    requires SameType(l, h)
    ensures r == UnionMerged(l, h)
  {
    match h {
      case Arr(hs) =>
        var all := hs + l.items;
        var seen: set<ComparableKey> := {};
        var result: seq<Value> := [];
        var i := 0;
        while i < |all|
          invariant 0 <= i <= |all|
          invariant result == Dedup(all[..i])
          invariant seen == KeysOf(result)
        {
          var key := ToComparableKey(all[i]);
          assert all[..i + 1][..i] == all[..i];
          if key !in seen {
            seen := seen + {key};
            result := result + [all[i]];
          }
          i := i + 1;
        }
        assert all[..|all|] == all;
        r := Arr(result);
      case Obj(_) =>
        r := MergeDeepValues(l, h);
      case _ =>
        r := h;
    }
  }

  /** `mergeValues`. */
  method MergeValues(l: Value, h: Value, strategy: string) returns (r: Value)
    ensures r == ValueMerged(l, h, strategy)
  {
    if !SameType(l, h) {
      return h;
    }
    if strategy == MergeReplace {
      r := h;
    } else if strategy == MergeAppend {
      r := MergeAppendValues(l, h);
    } else if strategy == MergePrepend {
      r := MergePrependValues(l, h);
    } else if strategy == MergeUnion {
      r := MergeUnionValues(l, h);
    } else {
      r := MergeDeepValues(l, h);
    }
  }

  /** `mergeRichAnnotations`: lower's entries are copied, then higher's are merged in. */
  method MergeRichAnnotations(lower: Option<RichAnnotations>, higher: Option<RichAnnotations>, defaultStrategy: string)
    returns (r: RichAnnotations)
    ensures r == RichMerged(lower, higher, defaultStrategy)
  {
    if lower.None? && higher.None? {
      return map[];
    }
    var d := if defaultStrategy == "" then DefaultMergeStrategy else defaultStrategy;
    var lm := OrEmpty(lower);
    var hm := OrEmpty(higher);
    var result := CopyMap(lm);
    r := MergeHigher(result, hm, d);
  }

  /** The second loop of `mergeRichAnnotations`: higher's entries, merged into a copy of lower's. */
  method MergeHigher(lm: RichAnnotations, hm: RichAnnotations, d: string) returns (result: RichAnnotations)
    ensures result == MergedEntries(lm, hm, d)
  {
    result := lm;
    var pending := hm.Keys;
    while pending != {}
      invariant pending <= hm.Keys
      invariant result.Keys == lm.Keys + (hm.Keys - pending)
      invariant forall k :: k in result && k !in hm.Keys - pending ==> result[k] == lm[k]
      invariant forall k :: k in hm.Keys - pending ==>
        result[k] == (if k in lm then SharedEntry(lm[k], hm[k], d) else hm[k])
      decreases pending
    {
      var k :| k in pending;
      if k in result {
        var le := result[k];
        var he := hm[k];
        var strategy := DetermineStrategy(le.mergeStrategy, he.mergeStrategy, d);
        var merged := MergeValues(le.value, he.value, strategy);
        result := result[k := AnnotationEntry(merged, he.mergeStrategy)];
      } else {
        result := result[k := hm[k]];
      }
      pending := pending - {k};
    }
    assert hm.Keys - pending == hm.Keys;
  }

  // ---------------------------------------------------------------------
  // Properties of the merge

  /** Merging two nil maps gives an empty, non-nil map. */
  lemma NilNilMergesToEmpty(default: string)
    ensures RichMerged(None, None, default) == map[]
  {
  }

  /** Every key of either side appears in the result, and no other key. */
  lemma MergeKeepsAllKeys(lower: Option<RichAnnotations>, higher: Option<RichAnnotations>, default: string)
    ensures RichMerged(lower, higher, default).Keys == OrEmpty(lower).Keys + OrEmpty(higher).Keys
  {
  }

  /**
   * On a key both sides hold, the result keeps higher's strategy and merges
   * the values with higher's strategy, else lower's, else the default
   * (the default being "deep" when none is given).
   */
  lemma SharedKeyMerge(lower: RichAnnotations, higher: RichAnnotations, default: string, k: string)
    requires k in lower && k in higher
    ensures RichMerged(Some(lower), Some(higher), default)[k].mergeStrategy == higher[k].mergeStrategy
    ensures higher[k].mergeStrategy != "" ==>
      RichMerged(Some(lower), Some(higher), default)[k].value == ValueMerged(lower[k].value, higher[k].value, higher[k].mergeStrategy)
    ensures higher[k].mergeStrategy == "" && lower[k].mergeStrategy != "" ==>
      RichMerged(Some(lower), Some(higher), default)[k].value == ValueMerged(lower[k].value, higher[k].value, lower[k].mergeStrategy)
    ensures (higher[k].mergeStrategy == "" && lower[k].mergeStrategy == "" && default == "" &&
             SameType(lower[k].value, higher[k].value)) ==>
      RichMerged(Some(lower), Some(higher), default)[k].value == DeepMerged(lower[k].value, higher[k].value)
  {
  }

  /** An entry only one side holds is copied unchanged. */
  lemma UnsharedKeyCopied(lower: Option<RichAnnotations>, higher: Option<RichAnnotations>, default: string, k: string)
    requires k in OrEmpty(lower).Keys + OrEmpty(higher).Keys
    requires !(k in OrEmpty(lower) && k in OrEmpty(higher))
    ensures RichMerged(lower, higher, default)[k] == if k in OrEmpty(higher) then OrEmpty(higher)[k] else OrEmpty(lower)[k]
  {
  }

  /** On a type mismatch the higher value wins, whatever the strategy. */
  lemma MismatchHigherWins(l: Value, h: Value, strategy: string)
    requires ShapeOf(l) != ShapeOf(h)
    ensures ValueMerged(l, h, strategy) == h
  {
  }

  /** Deep and append put higher's elements first; prepend puts lower's first. */
  lemma ArrayOrder(ls: seq<Value>, hs: seq<Value>)
    ensures ValueMerged(Arr(ls), Arr(hs), MergeDeep) == Arr(hs + ls)
    ensures ValueMerged(Arr(ls), Arr(hs), MergeAppend) == Arr(hs + ls)
    ensures ValueMerged(Arr(ls), Arr(hs), MergePrepend) == Arr(ls + hs)
    ensures ValueMerged(Arr(ls), Arr(hs), MergeReplace) == Arr(hs)
  {
  }

  /** An unknown strategy name behaves as deep. */
  lemma UnknownStrategyIsDeep(l: Value, h: Value, strategy: string)
    requires strategy !in {MergeReplace, MergeAppend, MergePrepend, MergeUnion}
    ensures ValueMerged(l, h, strategy) == ValueMerged(l, h, MergeDeep)
  {
  }

  /** Prepend lets lower win on scalars and on colliding object keys. */
  lemma PrependLowerWins(l: Value, h: Value)
    requires SameType(l, h) && !l.Arr?
    ensures !l.Obj? ==> ValueMerged(l, h, MergePrepend) == l
    ensures l.Obj? ==> forall k :: k in l.fields ==> ValueMerged(l, h, MergePrepend).fields[k] == l.fields[k]
  {
  }

  /** Append lets higher win on colliding object keys, without merging inside them. */
  lemma AppendHigherWins(l: Value, h: Value)
    requires l.Obj? && h.Obj?
    ensures forall k :: k in h.fields ==> ValueMerged(l, h, MergeAppend).fields[k] == h.fields[k]
  {
  }

  /** Deep merge of objects keeps every key and recurses on keys both hold with the same shape. */
  lemma DeepMergeObjects(l: Value, h: Value, k: string)
    requires l.Obj? && h.Obj?
    ensures var r := ValueMerged(l, h, MergeDeep);
      r.Obj? && r.fields.Keys == l.fields.Keys + h.fields.Keys &&
      (k in l.fields && k in h.fields && SameType(l.fields[k], h.fields[k]) ==>
         r.fields[k] == DeepMerged(l.fields[k], h.fields[k])) &&
      (k in h.fields && !(k in l.fields && SameType(l.fields[k], h.fields[k])) ==> r.fields[k] == h.fields[k])
  {
  }

  lemma {:induction false} DedupSubset(xs: seq<Value>)
    ensures forall x :: x in Dedup(xs) ==> x in xs
    decreases |xs|
  {
    if xs != [] {
      DedupSubset(xs[..|xs| - 1]);
    }
  }

  /** No two elements of a de-duplicated sequence share a comparable key. */
  lemma {:induction false} DedupDistinctKeys(xs: seq<Value>)
    ensures forall i, j :: 0 <= i < j < |Dedup(xs)| ==> ToComparableKey(Dedup(xs)[i]) != ToComparableKey(Dedup(xs)[j])
    decreases |xs|
  {
    if xs != [] {
      var d := Dedup(xs[..|xs| - 1]);
      DedupDistinctKeys(xs[..|xs| - 1]);
      var x := xs[|xs| - 1];
      if ToComparableKey(x) !in KeysOf(d) {
        forall i | 0 <= i < |d| ensures ToComparableKey(d[i]) != ToComparableKey(x) {
          assert d[i] in d;
        }
      }
    }
  }

  /** Nothing is lost: every element of the input occurs in the de-duplicated sequence. */
  lemma {:induction false} DedupKeepsAll(xs: seq<Value>)
    ensures forall x :: x in xs ==> x in Dedup(xs)
    decreases |xs|
  {
    if xs != [] {
      var init := xs[..|xs| - 1];
      DedupKeepsAll(init);
      var d := Dedup(init);
      var x := xs[|xs| - 1];
      assert xs == init + [x];
      if ToComparableKey(x) in KeysOf(d) {
        var y :| y in d && ToComparableKey(y) == ToComparableKey(x);
        ComparableKeyInjective(x, y);
      }
    }
  }

  /** De-duplicating a concatenation starts with the de-duplicated first part. */
  lemma {:induction false} DedupPrefix(hs: seq<Value>, ls: seq<Value>)
    ensures |Dedup(hs)| <= |Dedup(hs + ls)| && Dedup(hs + ls)[..|Dedup(hs)|] == Dedup(hs)
    decreases |ls|
  {
    if ls == [] {
      assert hs + ls == hs;
    } else {
      var init := ls[..|ls| - 1];
      assert (hs + ls)[..|hs + ls| - 1] == hs + init;
      DedupPrefix(hs, init);
    }
  }

  /**
   * Union of arrays: no two elements share a comparable key, higher's
   * (de-duplicated) elements come first, and every element of either input
   * is present.
   */
  lemma UnionArrays(ls: seq<Value>, hs: seq<Value>)
    ensures var r := ValueMerged(Arr(ls), Arr(hs), MergeUnion).items;
      (forall i, j :: 0 <= i < j < |r| ==> ToComparableKey(r[i]) != ToComparableKey(r[j])) &&
      |Dedup(hs)| <= |r| && r[..|Dedup(hs)|] == Dedup(hs) &&
      (forall x :: x in hs || x in ls ==> x in r) &&
      (forall x :: x in r ==> x in hs || x in ls)
  {
    DedupDistinctKeys(hs + ls);
    DedupPrefix(hs, ls);
    DedupKeepsAll(hs + ls);
    DedupSubset(hs + ls);
  }

  // ---------------------------------------------------------------------
  // Resolution along the identity hierarchy

  /** Merges each non-nil annotation set in turn below the accumulated result. */
  function MergeBelow(result: RichAnnotations, below: seq<Option<RichAnnotations>>): RichAnnotations
    decreases |below|
  {
    if below == [] then result
    else
      var acc := MergeBelow(result, below[..|below| - 1]);
      var next := below[|below| - 1];
      if next.Some? then RichMerged(next, Some(acc), DefaultMergeStrategy) else acc
  }

  function KeysBelow(below: seq<Option<RichAnnotations>>): set<string>
    decreases |below|
  {
    if below == [] then {} else KeysBelow(below[..|below| - 1]) + OrEmpty(below[|below| - 1]).Keys
  }

  /** Merging below never loses a key and adds exactly the keys of the merged sets. */
  lemma {:induction false} MergeBelowKeys(result: RichAnnotations, below: seq<Option<RichAnnotations>>)
    ensures MergeBelow(result, below).Keys == result.Keys + KeysBelow(below)
    decreases |below|
  {
    if below != [] {
      MergeBelowKeys(result, below[..|below| - 1]);
      var acc := MergeBelow(result, below[..|below| - 1]);
      MergeKeepsAllKeys(below[|below| - 1], Some(acc), DefaultMergeStrategy);
    }
  }

  /** A group as the backend returns it: its roles and its annotations. */
  datatype GroupInfo = GroupInfo(roles: seq<string>, annotations: Option<RichAnnotations>)

  function RolesOfGroups(groups: seq<string>, fetch: string -> Option<GroupInfo>): set<string>
  {
    set i, r | 0 <= i < |groups| && fetch(groups[i]).Some? && r in fetch(groups[i]).value.roles :: r
  }

  function FetchedSets(scopes: seq<string>, fetch: string -> Option<RichAnnotations>): (r: seq<Option<RichAnnotations>>)
    ensures |r| == |scopes|
  {
    seq(|scopes|, i requires 0 <= i < |scopes| => fetch(scopes[i]))
  }

  function GroupSets(groups: seq<string>, fetch: string -> Option<GroupInfo>): (r: seq<Option<RichAnnotations>>)
    ensures |r| == |groups|
  {
    seq(|groups|, i requires 0 <= i < |groups| => if fetch(groups[i]).Some? then fetch(groups[i]).value.annotations else None)
  }

  /** The passed (plain) annotations as the starting point; nil starts from an empty map. */
  function Base(annots: Option<Annotations>): RichAnnotations
  {
    if annots.Some? then WithoutStrategies(annots.value) else map[]
  }

  /** The resolved rich annotations for one enumeration `order` of the role set. */
  function Resolved(annots: Option<Annotations>, scopes: seq<string>, groups: seq<string>, order: seq<string>,
                    scopeFetch: string -> Option<RichAnnotations>,
                    groupFetch: string -> Option<GroupInfo>,
                    roleFetch: string -> Option<RichAnnotations>): RichAnnotations
  {
    MergeBelow(MergeBelow(MergeBelow(Base(annots), FetchedSets(scopes, scopeFetch)), GroupSets(groups, groupFetch)),
               FetchedSets(order, roleFetch))
  }

  /** The roles whose annotations are merged: those given and those of the groups fetched. */
  function AllRoles(groups: seq<string>, roles: seq<string>, groupFetch: string -> Option<GroupInfo>): set<string>
  {
    RolesOfGroups(groups, groupFetch) + (set x | x in roles)
  }

  /** `plain` is what resolution gives when the role set is enumerated as `order`. */
  predicate ResolvedInOrder(plain: Annotations, order: seq<string>,
                            annots: Option<Annotations>, scopes: seq<string>, groups: seq<string>, roles: seq<string>,
                            scopeFetch: string -> Option<RichAnnotations>,
                            groupFetch: string -> Option<GroupInfo>,
                            roleFetch: string -> Option<RichAnnotations>)
  {
    IsOrderOf(order, AllRoles(groups, roles, groupFetch)) &&
    plain == ValuesOf(Resolved(annots, scopes, groups, order, scopeFetch, groupFetch, roleFetch))
  }

  /** One merge loop of `GetAnnotations`: each fetched, non-nil set in turn, below the result so far. */
  method MergeEachBelow(result: RichAnnotations, sets: seq<Option<RichAnnotations>>) returns (r: RichAnnotations)
    ensures r == MergeBelow(result, sets)
  {
    r := result;
    var i := 0;
    while i < |sets|
      invariant 0 <= i <= |sets|
      invariant r == MergeBelow(result, sets[..i])
    {
      assert sets[..i + 1][..i] == sets[..i];
      if sets[i].Some? {
        r := MergeRichAnnotations(sets[i], Some(r), DefaultMergeStrategy);
      }
      i := i + 1;
    }
    assert sets[..i] == sets;
  }

  /** The role-marking loop of `GetAnnotations`: the roles of every group fetched. */
  method GroupRoles(groups: seq<string>, groupFetch: string -> Option<GroupInfo>) returns (roleSet: set<string>)
    ensures roleSet == RolesOfGroups(groups, groupFetch)
  {
    roleSet := {};
    var i := 0;
    while i < |groups|
      invariant 0 <= i <= |groups|
      invariant roleSet == set j, x | 0 <= j < i && groupFetch(groups[j]).Some? && x in groupFetch(groups[j]).value.roles :: x
    {
      var info := groupFetch(groups[i]);
      if info.Some? {
        roleSet := roleSet + set x | x in info.value.roles;
      }
      i := i + 1;
    }
  }

  /**
   * `GetAnnotations`: the passed annotations, then the scopes, then the groups,
   * then the roles (those given and those of the groups, as a set enumerated
   * in the order the map iteration chooses) are merged, each below what has
   * been merged so far. A failed fetch contributes nothing; the result is
   * never nil.
   */
  method GetAnnotations(annots: Option<Annotations>, scopes: seq<string>, groups: seq<string>, roles: seq<string>,
                        scopeFetch: string -> Option<RichAnnotations>,
                        groupFetch: string -> Option<GroupInfo>,
                        roleFetch: string -> Option<RichAnnotations>)
    returns (r: Option<Annotations>)
    ensures r.Some?
    ensures exists order :: ResolvedInOrder(r.value, order, annots, scopes, groups, roles, scopeFetch, groupFetch, roleFetch)
  {
    var rich := FromAnnotations(annots);
    var result: RichAnnotations := if rich.Some? then rich.value else map[];
    assert result == Base(annots);

    result := MergeEachBelow(result, FetchedSets(scopes, scopeFetch));
    var roleSet := GroupRoles(groups, groupFetch);
    result := MergeEachBelow(result, GroupSets(groups, groupFetch));
    roleSet := roleSet + set x | x in roles;
    var order := Enumerate(roleSet);
    result := MergeEachBelow(result, FetchedSets(order, roleFetch));
    r := ToAnnotations(Some(result));
    assert ResolvedInOrder(r.value, order, annots, scopes, groups, roles, scopeFetch, groupFetch, roleFetch);
  }

  function KeysOfSets(sets: seq<Option<RichAnnotations>>): set<string>
  {
    set i, k | 0 <= i < |sets| && sets[i].Some? && k in sets[i].value :: k
  }

  lemma {:induction false} KeysBelowAll(sets: seq<Option<RichAnnotations>>)
    ensures KeysBelow(sets) == KeysOfSets(sets)
    decreases |sets|
  {
    if sets != [] {
      var init := sets[..|sets| - 1];
      KeysBelowAll(init);
      assert forall i :: 0 <= i < |init| ==> init[i] == sets[i];
    }
  }

  /**
   * Whatever order the role set is enumerated in, the resolved annotations
   * have exactly the keys of the passed annotations, of the scopes, of the
   * groups and of the roles that were fetched.
   */
  lemma ResolvedKeys(annots: Option<Annotations>, scopes: seq<string>, groups: seq<string>, roles: seq<string>,
                     order: seq<string>,
                     scopeFetch: string -> Option<RichAnnotations>,
                     groupFetch: string -> Option<GroupInfo>,
                     roleFetch: string -> Option<RichAnnotations>)
    requires IsOrderOf(order, AllRoles(groups, roles, groupFetch))
    ensures Resolved(annots, scopes, groups, order, scopeFetch, groupFetch, roleFetch).Keys ==
      Base(annots).Keys + KeysOfSets(FetchedSets(scopes, scopeFetch)) + KeysOfSets(GroupSets(groups, groupFetch)) +
      (set x, k | x in AllRoles(groups, roles, groupFetch) && roleFetch(x).Some? && k in roleFetch(x).value :: k)
  {
    var s1 := MergeBelow(Base(annots), FetchedSets(scopes, scopeFetch));
    var s2 := MergeBelow(s1, GroupSets(groups, groupFetch));
    MergeBelowKeys(Base(annots), FetchedSets(scopes, scopeFetch));
    MergeBelowKeys(s1, GroupSets(groups, groupFetch));
    MergeBelowKeys(s2, FetchedSets(order, roleFetch));
    KeysBelowAll(FetchedSets(scopes, scopeFetch));
    KeysBelowAll(GroupSets(groups, groupFetch));
    KeysBelowAll(FetchedSets(order, roleFetch));
    var rs := FetchedSets(order, roleFetch);
    var all := AllRoles(groups, roles, groupFetch);
    assert KeysOfSets(rs) == set x, k | x in all && roleFetch(x).Some? && k in roleFetch(x).value :: k by {
      forall k | k in KeysOfSets(rs)
        ensures k in set x, k | x in all && roleFetch(x).Some? && k in roleFetch(x).value :: k
      {
        var i :| 0 <= i < |rs| && rs[i].Some? && k in rs[i].value;
        assert order[i] in order;
      }
      forall k | k in set x, k | x in all && roleFetch(x).Some? && k in roleFetch(x).value :: k
        ensures k in KeysOfSets(rs)
      {
        var x :| x in all && roleFetch(x).Some? && k in roleFetch(x).value;
        assert x in set y | y in order;
        var i :| 0 <= i < |order| && order[i] == x;
        assert rs[i] == roleFetch(x);
      }
    }
  }
}
