/**
 * Annotation values and their merge strategies (pkg/core/model/core.go).
 * A Go map that may be nil is an `Option` of a map: `None` is nil.
 */
module CoreModel {
  import opened Wrappers
  import opened Json

  const MergeReplace := "replace"
  const MergeAppend := "append"
  const MergePrepend := "prepend"
  const MergeDeep := "deep"
  const MergeUnion := "union"

  /** The strategy used when an entry names none. */
  const DefaultMergeStrategy := MergeDeep

  /** A parsed annotation value with the strategy used to merge it ("" means unspecified). */
  datatype AnnotationEntry = AnnotationEntry(value: Value, mergeStrategy: string)

  type Annotations = map<string, Value>
  type RichAnnotations = map<string, AnnotationEntry>

  /** The plain values of rich annotations. */
  function ValuesOf(r: RichAnnotations): (a: Annotations)
    ensures a.Keys == r.Keys
  {
    map k | k in r :: r[k].value
  }

  /** Rich annotations carrying no strategy. */
  function WithoutStrategies(a: Annotations): (r: RichAnnotations)
    ensures r.Keys == a.Keys
  {
    map k | k in a :: AnnotationEntry(a[k], "")
  }

  /** `RichAnnotations.ToAnnotations`: keeps keys and values, drops strategies; nil stays nil. */
  method ToAnnotations(r: Option<RichAnnotations>) returns (a: Option<Annotations>)
    ensures r.None? <==> a.None?
    ensures r.Some? ==> a.value.Keys == r.value.Keys
    ensures r.Some? ==> forall k :: k in r.value ==> a.value[k] == r.value[k].value
    ensures r.Some? ==> a.value == ValuesOf(r.value)
  {
    if r.None? {
      return None;
    }
    var entries := r.value;
    var result: Annotations := map[];
    var pending := entries.Keys;
    while pending != {}
      invariant pending <= entries.Keys
      invariant result.Keys == entries.Keys - pending
      invariant forall k :: k in result ==> result[k] == entries[k].value
      decreases pending
    {
      var k :| k in pending;
      result := result[k := entries[k].value];
      pending := pending - {k};
    }
    return Some(result);
  }

  /** `FromAnnotations`: keeps keys and values with an empty strategy; nil stays nil. */
  method FromAnnotations(a: Option<Annotations>) returns (r: Option<RichAnnotations>)
    ensures a.None? <==> r.None?
    ensures a.Some? ==> r.value.Keys == a.value.Keys
    ensures a.Some? ==> forall k :: k in a.value ==> r.value[k] == AnnotationEntry(a.value[k], "")
    ensures a.Some? ==> r.value == WithoutStrategies(a.value)
  {
    if a.None? {
      return None;
    }
    var values := a.value;
    var result: RichAnnotations := map[];
    var pending := values.Keys;
    while pending != {}
      invariant pending <= values.Keys
      invariant result.Keys == values.Keys - pending
      invariant forall k :: k in result ==> result[k] == AnnotationEntry(values[k], "")
      decreases pending
    {
      var k :| k in pending;
      result := result[k := AnnotationEntry(values[k], "")];
      pending := pending - {k};
    }
    return Some(result);
  }

  /** Dropping strategies after adding empty ones gives back the plain annotations. */
  lemma ValuesOfWithoutStrategies(a: Annotations)
    ensures ValuesOf(WithoutStrategies(a)) == a
  {
  }

  /** The other way round only strategies are lost: the result carries none. */
  lemma WithoutStrategiesOfValues(r: RichAnnotations)
    ensures WithoutStrategies(ValuesOf(r)) == r <==> forall k :: k in r ==> r[k].mergeStrategy == ""
  {
    if forall k :: k in r ==> r[k].mergeStrategy == "" {
      assert forall k :: k in r ==> WithoutStrategies(ValuesOf(r))[k] == r[k];
    } else {
      var k :| k in r && r[k].mergeStrategy != "";
      assert WithoutStrategies(ValuesOf(r))[k] != r[k];
    }
  }

  /** The Go type name `json.Unmarshal` uses when a document is not an object. */
  function KindName(v: Value): string
  {
    match v
    case Null => "null"
    case Bool(_) => "bool"
    case Num(_) => "number"
    case Str(_) => "string"
    case Arr(_) => "array"
    case Obj(_) => "object"
  }

  /** A `*RichAnnotations` target: the annotations the pointer designates. */
  class RichAnnotationsRef {
    var annotations: Option<RichAnnotations>

    constructor (init: Option<RichAnnotations>)
      ensures annotations == init
    {
      annotations := init;
    }

    /**
     * `UnmarshalJSON`: `decoded` is the document as the JSON decoder reads it,
     * or its syntax error. A decoding failure leaves the target untouched; a
     * null document sets it to nil; an object sets it to the object's values
     * with empty strategies.
     */
    method UnmarshalJSON(decoded: Result<Value, string>) returns (err: Option<string>)
      modifies this
      ensures decoded.Err? ==> err == Some(decoded.error) && annotations == old(annotations)
      ensures decoded.Ok? && decoded.value.Null? ==> err.None? && annotations.None?
      ensures decoded.Ok? && decoded.value.Obj? ==>
        err.None? && annotations == Some(WithoutStrategies(decoded.value.fields))
      ensures decoded.Ok? && !decoded.value.Null? && !decoded.value.Obj? ==>
        err.Some? && annotations == old(annotations)
    {
      match decoded
      case Err(e) =>
        return Some(e);
      case Ok(Null) =>
        annotations := None;
        return None;
      case Ok(Obj(fields)) =>
        var rich := FromAnnotations(Some(fields));
        annotations := rich;
        return None;
      case Ok(other) =>
        return Some("json: cannot unmarshal " + KindName(other) + " into Go value of type model.Annotations");
    }
  }
}
