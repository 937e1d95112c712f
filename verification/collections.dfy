/** Sequence and map facts shared by several modules. */
module Collections {

  /** `order` lists the elements of `s`, each exactly once (one iteration order of a Go map or set). */
  predicate IsOrderOf<T(==)>(order: seq<T>, s: set<T>)
  {
    (forall i, j :: 0 <= i < j < |order| ==> order[i] != order[j]) && (set x | x in order) == s
  }

  predicate NoDuplicates<T(==)>(s: seq<T>)
  {
    forall i, j :: 0 <= i < j < |s| ==> s[i] != s[j]
  }

  /** Moving one element from the pending set of a map iteration to the visited ones. */
  lemma VisitOne<T>(all: set<T>, pending: set<T>, x: T)
    requires pending <= all && x in pending
    ensures all - (pending - {x}) == (all - pending) + {x}
  {
  }

  /** Appending a new element keeps a sequence free of duplicates and adds it to the elements. */
  lemma AppendNew<T>(s: seq<T>, x: T)
    requires NoDuplicates(s) && x !in s
    ensures NoDuplicates(s + [x])
    ensures (set y | y in s + [x]) == (set y | y in s) + {x}
  {
  }

  /** Ranging over a Go map or set: the keys in some order, each exactly once. */
  method Enumerate<T>(s: set<T>) returns (order: seq<T>)
    ensures IsOrderOf(order, s)
  {
    order := [];
    var pending := s;
    while pending != {}
      invariant pending <= s
      invariant NoDuplicates(order)
      invariant (set x | x in order) == s - pending
      decreases pending
    {
      var x :| x in pending;
      AppendNew(order, x);
      order := order + [x];
      pending := pending - {x};
    }
  }

  /** Copying a Go map entry by entry, in map order, gives an equal map. */
  method CopyMap<K, V>(m: map<K, V>) returns (r: map<K, V>)
    ensures r == m
  {
    r := map[];
    var pending := m.Keys;
    while pending != {}
      invariant pending <= m.Keys
      invariant r.Keys == m.Keys - pending
      invariant forall k :: k in r ==> r[k] == m[k]
      decreases pending
    {
      var k :| k in pending;
      r := r[k := m[k]];
      pending := pending - {k};
    }
  }

  /** A one-element enumeration enumerates a singleton. */
  lemma SingleOrder<T>(order: seq<T>, s: set<T>)
    requires IsOrderOf(order, s) && |order| == 1
    ensures s == {order[0]}
  {
    assert order == [order[0]];
  }

  /** An enumeration of a set has one entry per element. */
  lemma {:induction false} OrderSize<T>(order: seq<T>, s: set<T>)
    requires IsOrderOf(order, s)
    ensures |order| == |s|
  {
    if order != [] {
      var rest := set x | x in order[1..];
      assert IsOrderOf(order[1..], rest);
      assert s == rest + {order[0]} by {
        assert order == [order[0]] + order[1..];
      }
      assert order[0] !in rest by {
        forall j | 0 <= j < |order[1..]|
          ensures order[1..][j] != order[0]
        {
          assert order[1..][j] == order[j + 1];
        }
      }
      OrderSize(order[1..], rest);
    }
  }

  /** Prefix extension is transitive. */
  lemma GrowsTrans<T>(a: seq<T>, b: seq<T>, c: seq<T>)
    requires |a| <= |b| && b[..|a|] == a && |b| <= |c| && c[..|b|] == b
    ensures |a| <= |c| && c[..|a|] == a
  {
    assert c[..|b|][..|a|] == c[..|a|];
  }

  /** A subset is no larger. */
  lemma {:induction false} SubsetNotLarger<T>(a: set<T>, b: set<T>)
    requires a <= b
    ensures |a| <= |b|
    decreases |b|
  {
    if b != {} {
      var x :| x in b;
      SubsetNotLarger(a - {x}, b - {x});
    }
  }

  /** A subset missing an element of the superset is smaller. */
  lemma ProperSubsetSmaller<T>(a: set<T>, b: set<T>, x: T)
    requires a <= b && x in b && x !in a
    ensures |a| < |b|
  {
    SubsetNotLarger(a, b - {x});
  }

  /** The elements of `s`, each at its first occurrence, in order. */
  function FirstOccurrences<T(==)>(s: seq<T>): (r: seq<T>)
    ensures forall x :: x in r ==> x in s
    decreases |s|
  {
    if s == [] then []
    else
      var d := FirstOccurrences(s[..|s| - 1]);
      if s[|s| - 1] in d then d else d + [s[|s| - 1]]
  }

  /** Index of the first occurrence of `x` in `s`. */
  function FirstIndex<T(==)>(s: seq<T>, x: T): (i: nat)
    requires x in s
    ensures i < |s| && s[i] == x && x !in s[..i]
  {
    if s[0] == x then 0 else FirstIndex(s[1..], x) + 1
  }

  /** De-duplication keeps exactly the elements of the input, each once. */
  lemma {:induction false} FirstOccurrencesFacts<T>(s: seq<T>)
    ensures NoDuplicates(FirstOccurrences(s))
    ensures forall x :: x in FirstOccurrences(s) <==> x in s
    decreases |s|
  {
    if s != [] {
      var init := s[..|s| - 1];
      FirstOccurrencesFacts(init);
      assert s == init + [s[|s| - 1]];
    }
  }

  /**
   * The de-duplicated sequence lists elements in the order of their first
   * occurrences in the input.
   */
  lemma {:induction false} FirstOccurrencesOrder<T>(s: seq<T>)
    ensures forall i, j :: 0 <= i < j < |FirstOccurrences(s)| ==>
      FirstIndex(s, FirstOccurrences(s)[i]) < FirstIndex(s, FirstOccurrences(s)[j])
    decreases |s|
  {
    FirstOccurrencesFacts(s);
    if s != [] {
      var init := s[..|s| - 1];
      var d := FirstOccurrences(init);
      FirstOccurrencesOrder(init);
      FirstOccurrencesFacts(init);
      assert s == init + [s[|s| - 1]];
      forall x | x in init ensures FirstIndex(s, x) == FirstIndex(init, x) {
        FirstIndexPrefix(init, [s[|s| - 1]], x);
      }
      if s[|s| - 1] !in d {
        var x := s[|s| - 1];
        assert x !in init;
        assert FirstIndex(s, x) == |s| - 1;
        forall i | 0 <= i < |d| ensures FirstIndex(s, d[i]) < |s| - 1 {
          assert d[i] in d;
          FirstIndexPrefix(init, [x], d[i]);
        }
      }
    }
  }

  lemma {:induction false} FirstIndexPrefix<T>(a: seq<T>, b: seq<T>, x: T)
    requires x in a
    ensures FirstIndex(a + b, x) == FirstIndex(a, x)
  {
    if a[0] != x {
      assert (a + b)[1..] == a[1..] + b;
      FirstIndexPrefix(a[1..], b, x);
    }
  }

  /** The map built by storing each item in turn under its key (so the last item with a key wins). */
  function Keyed<T, V>(items: seq<T>, key: T -> string, convert: T -> V): map<string, V>
    decreases |items|
  {
    if items == [] then map[]
    else
      var last := items[|items| - 1];
      Keyed(items[..|items| - 1], key, convert)[key(last) := convert(last)]
  }

  /** The keyed map has exactly the keys of the items. */
  lemma {:induction false} KeyedKeys<T, V>(items: seq<T>, key: T -> string, convert: T -> V)
    ensures Keyed(items, key, convert).Keys == set i | 0 <= i < |items| :: key(items[i])
    decreases |items|
  {
    if items != [] {
      var init := items[..|items| - 1];
      KeyedKeys(init, key, convert);
      assert forall i :: 0 <= i < |init| ==> init[i] == items[i];
    }
  }

  /** Under each key is the conversion of the last item with that key. */
  lemma {:induction false} KeyedLastWins<T, V>(items: seq<T>, key: T -> string, convert: T -> V, i: nat)
    requires i < |items|
    requires forall j :: i < j < |items| ==> key(items[j]) != key(items[i])
    ensures key(items[i]) in Keyed(items, key, convert)
    ensures Keyed(items, key, convert)[key(items[i])] == convert(items[i])
    decreases |items|
  {
    if i < |items| - 1 {
      KeyedLastWins(items[..|items| - 1], key, convert, i);
    }
  }
}
