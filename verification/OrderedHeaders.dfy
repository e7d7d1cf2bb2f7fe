/** The ordered-header object and the header list it must agree with
    (ordered_headers.go, request_metadata.go). */
module OrderedHeaders {
  import opened Base
  import opened Headers
  import opened Sorting

  datatype Entry = Entry(key: Text, values: seq<Text>)

  type Ordered = seq<Entry>

  // ------------------------------------------------- meaning of the two lists

  /** The values a header list holds for a name, in list order. */
  function ValuesOf(occs: seq<Occurrence>, name: Text): seq<Text> {
    if occs == [] then []
    else (if EqualFold(occs[0].name, name) then [occs[0].value.raw] else []) + ValuesOf(occs[1..], name)
  }

  /** The same with their disclosure tags. */
  function Tagged(occs: seq<Occurrence>, name: Text): seq<Value> {
    if occs == [] then []
    else TaggedOne(occs[0], name) + Tagged(occs[1..], name)
  }

  function Privates(values: seq<Text>): seq<Value> {
    seq(|values|, i requires 0 <= i < |values| => Private(values[i]))
  }

  /** The values an ordered object holds for a name, over all matching entries. */
  function OrderedValues(o: Ordered, name: Text): seq<Text> {
    if o == [] then []
    else (if EqualFold(o[0].key, name) then o[0].values else []) + OrderedValues(o[1..], name)
  }

  predicate FoldUnique(o: Ordered) {
    forall i, j :: 0 <= i < j < |o| ==> !EqualFold(o[i].key, o[j].key)
  }

  function Keys(o: Ordered): seq<Text> {
    seq(|o|, i requires 0 <= i < |o| => o[i].key)
  }

  function FoldSet(names: seq<Text>): set<Text> {
    set i | 0 <= i < |names| :: Fold(names[i])
  }

  /** The stable filter that every header deletion amounts to. */
  function Without(occs: seq<Occurrence>, folds: set<Text>): seq<Occurrence> {
    if occs == [] then []
    else (if Fold(occs[0].name) in folds then [] else [occs[0]]) + Without(occs[1..], folds)
  }

  function Occurrences(key: Text, values: seq<Text>): seq<Occurrence> {
    seq(|values|, i requires 0 <= i < |values| => Named(Canonical(key), Private(values[i])))
  }

  lemma {:induction false} ValuesOfConcat(a: seq<Occurrence>, b: seq<Occurrence>, name: Text)
    ensures ValuesOf(a + b, name) == ValuesOf(a, name) + ValuesOf(b, name)
  {
    if a == [] {
      assert a + b == b;
    } else {
      assert (a + b)[1..] == a[1..] + b;
      ValuesOfConcat(a[1..], b, name);
    }
  }

  lemma {:induction false} OrderedValuesConcat(a: Ordered, b: Ordered, name: Text)
    ensures OrderedValues(a + b, name) == OrderedValues(a, name) + OrderedValues(b, name)
  {
    if a == [] {
      assert a + b == b;
    } else {
      assert (a + b)[1..] == a[1..] + b;
      OrderedValuesConcat(a[1..], b, name);
    }
  }

  lemma {:induction false} ValuesOfWithout(occs: seq<Occurrence>, folds: set<Text>, name: Text)
    ensures ValuesOf(Without(occs, folds), name) == if Fold(name) in folds then [] else ValuesOf(occs, name)
  {
    if occs == [] {
    } else {
      ValuesOfWithout(occs[1..], folds, name);
      var head := if Fold(occs[0].name) in folds then [] else [occs[0]];
      ValuesOfConcat(head, Without(occs[1..], folds), name);
    }
  }

  lemma {:induction false} WithoutConcat(a: seq<Occurrence>, b: seq<Occurrence>, folds: set<Text>)
    ensures Without(a + b, folds) == Without(a, folds) + Without(b, folds)
  {
    if a == [] {
      assert a + b == b;
    } else {
      assert (a + b)[1..] == a[1..] + b;
      WithoutConcat(a[1..], b, folds);
    }
  }

  lemma {:induction false} ValuesOfOccurrences(key: Text, values: seq<Text>, name: Text)
    ensures ValuesOf(Occurrences(key, values), name) == if EqualFold(key, name) then values else []
    decreases |values|
  {
    CanonicalKeepsFold(key);
    if values == [] {
    } else {
      assert Occurrences(key, values)[1..] == Occurrences(key, values[1..]);
      ValuesOfOccurrences(key, values[1..], name);
    }
  }

  lemma {:induction false} TaggedConcat(a: seq<Occurrence>, b: seq<Occurrence>, name: Text)
    ensures Tagged(a + b, name) == Tagged(a, name) + Tagged(b, name)
  {
    if a == [] {
      assert a + b == b;
    } else {
      assert a + b == [a[0]] + (a[1..] + b);
      TaggedHead(a[0], a[1..] + b, name);
      TaggedConcat(a[1..], b, name);
      ConcatAssociates(TaggedOne(a[0], name), Tagged(a[1..], name), Tagged(b, name));
    }
  }

  function TaggedOne(o: Occurrence, name: Text): seq<Value> {
    if EqualFold(o.name, name) then [o.value] else []
  }

  lemma TaggedHead(o: Occurrence, rest: seq<Occurrence>, name: Text)
    ensures Tagged([o] + rest, name) == TaggedOne(o, name) + Tagged(rest, name)
  {
    assert ([o] + rest)[0] == o && ([o] + rest)[1..] == rest;
  }

  lemma {:induction false} TaggedWithout(occs: seq<Occurrence>, folds: set<Text>, name: Text)
    ensures Tagged(Without(occs, folds), name) == if Fold(name) in folds then [] else Tagged(occs, name)
  {
    if occs == [] {
    } else {
      TaggedWithout(occs[1..], folds, name);
      var head := if Fold(occs[0].name) in folds then [] else [occs[0]];
      TaggedConcat(head, Without(occs[1..], folds), name);
    }
  }

  lemma {:induction false} TaggedOccurrences(key: Text, values: seq<Text>, name: Text)
    ensures Tagged(Occurrences(key, values), name) == if EqualFold(key, name) then Privates(values) else []
    decreases |values|
  {
    CanonicalKeepsFold(key);
    if values == [] {
    } else {
      assert Occurrences(key, values)[1..] == Occurrences(key, values[1..]);
      assert Privates(values) == [Private(values[0])] + Privates(values[1..]);
      TaggedOccurrences(key, values[1..], name);
    }
  }

  /** Values and tagged values are read at the same places. */
  lemma {:induction false} TaggedRaw(occs: seq<Occurrence>, name: Text)
    ensures |Tagged(occs, name)| == |ValuesOf(occs, name)|
    ensures forall i :: 0 <= i < |Tagged(occs, name)| ==> Tagged(occs, name)[i].raw == ValuesOf(occs, name)[i]
  {
    if occs == [] {
    } else {
      TaggedRaw(occs[1..], name);
    }
  }

  // --------------------------------------------------- exact-key operations

  /** Position of the exact key, or the length when it is absent. */
  function IndexOfKey(o: Ordered, key: Text): (i: nat)
    ensures i <= |o| && (i < |o| ==> o[i].key == key)
    ensures forall j :: 0 <= j < i ==> o[j].key != key
  {
    if o == [] then 0 else if o[0].key == key then 0 else 1 + IndexOfKey(o[1..], key)
  }

  /** Position of the first key equal up to case, or the length. */
  function IndexOfFold(o: Ordered, key: Text): (i: nat)
    ensures i <= |o| && (i < |o| ==> EqualFold(o[i].key, key))
    ensures forall j :: 0 <= j < i ==> !EqualFold(o[j].key, key)
  {
    if o == [] then 0 else if EqualFold(o[0].key, key) then 0 else 1 + IndexOfFold(o[1..], key)
  }

  function SetEntry(o: Ordered, key: Text, values: seq<Text>): Ordered {
    var i := IndexOfKey(o, key);
    if i < |o| then o[i := Entry(key, values)] else o + [Entry(key, values)]
  }

  function DeleteEntry(o: Ordered, key: Text): Ordered {
    var i := IndexOfKey(o, key);
    if i < |o| then o[..i] + o[i + 1..] else o
  }

  /** orderedHeaderKey: the exact key wins over a key equal up to case. */
  function StoredKey(o: Ordered, key: Text): Option<Text> {
    if IndexOfKey(o, key) < |o| then Some(key)
    else
      var i := IndexOfFold(o, key);
      if i < |o| then Some(o[i].key) else None
  }

  predicate HasName(o: Option<Ordered>, key: Text) {
    o.Some? && StoredKey(o.value, key).Some?
  }

  // ------------------------------------------------- case-insensitive edits

  function SetValues(o: Ordered, key: Text, values: seq<Text>): Ordered {
    var stored := StoredKey(o, key);
    SetEntry(o, if stored.Some? then stored.value else key, values)
  }

  function AddValue(o: Ordered, key: Text, value: Text): Ordered {
    var stored := StoredKey(o, key);
    var k := if stored.Some? then stored.value else key;
    var i := IndexOfKey(o, k);
    SetEntry(o, k, if i < |o| then o[i].values + [value] else [value])
  }

  function DeleteName(o: Ordered, key: Text): Ordered {
    var stored := StoredKey(o, key);
    if stored.Some? then DeleteEntry(o, stored.value) else o
  }

  /** In a case-unique object a name is found at one position or nowhere. */
  lemma StoredKeyPosition(o: Ordered, key: Text)
    requires FoldUnique(o)
    ensures StoredKey(o, key).Some? <==> IndexOfFold(o, key) < |o|
    ensures StoredKey(o, key).Some? ==>
              && EqualFold(StoredKey(o, key).value, key)
              && IndexOfKey(o, StoredKey(o, key).value) == IndexOfFold(o, key)
    ensures StoredKey(o, key).None? ==> IndexOfKey(o, key) == |o|
  {
    var stored := StoredKey(o, key);
    if stored.Some? {
      var i, j := IndexOfKey(o, stored.value), IndexOfFold(o, key);
      assert i < |o| && EqualFold(o[i].key, key);
      assert j < |o|;
      assert i == j;
    } else {
      assert forall j :: 0 <= j < |o| ==> !EqualFold(o[j].key, key);
    }
  }

  lemma {:induction false} OrderedValuesAt(o: Ordered, name: Text)
    requires FoldUnique(o)
    ensures OrderedValues(o, name) ==
            var i := IndexOfFold(o, name); if i < |o| then o[i].values else []
  {
    if o == [] {
    } else {
      assert forall i, j :: 0 <= i < j < |o[1..]| ==> !EqualFold(o[1..][i].key, o[1..][j].key) by {
        forall i, j | 0 <= i < j < |o[1..]|
          ensures !EqualFold(o[1..][i].key, o[1..][j].key)
        {
          assert o[1..][i] == o[i + 1] && o[1..][j] == o[j + 1];
        }
      }
      OrderedValuesAt(o[1..], name);
    }
  }

  lemma {:induction false} NoMatchNoValues(o: Ordered, name: Text)
    requires forall j :: 0 <= j < |o| ==> !EqualFold(o[j].key, name)
    ensures OrderedValues(o, name) == []
  {
    if o == [] {
    } else {
      NoMatchNoValues(o[1..], name);
    }
  }

  lemma ReplaceKeepsUnique(o: Ordered, i: nat, e: Entry)
    requires FoldUnique(o) && i < |o| && EqualFold(o[i].key, e.key)
    ensures FoldUnique(o[i := e])
  {
    var r := o[i := e];
    forall j, k | 0 <= j < k < |r|
      ensures !EqualFold(r[j].key, r[k].key)
    {
      assert !EqualFold(o[j].key, o[k].key);
    }
  }

  /** The values around one position of an ordered object. */
  lemma OrderedValuesAround(o: Ordered, i: nat, name: Text)
    requires i < |o|
    ensures OrderedValues(o, name) ==
            OrderedValues(o[..i], name) + ((if EqualFold(o[i].key, name) then o[i].values else []) + OrderedValues(o[i + 1..], name))
  {
    assert o == o[..i] + o[i..] && o[i..][1..] == o[i + 1..];
    OrderedValuesConcat(o[..i], o[i..], name);
  }

  /** In a case-unique object only position i holds the name of entry i. */
  lemma NoOtherMatch(o: Ordered, i: nat, name: Text)
    requires FoldUnique(o) && i < |o| && EqualFold(o[i].key, name)
    ensures OrderedValues(o[..i], name) == [] && OrderedValues(o[i + 1..], name) == []
  {
    var a, b := o[..i], o[i + 1..];
    forall j | 0 <= j < |a|
      ensures !EqualFold(a[j].key, name)
    {
      assert !EqualFold(o[j].key, o[i].key);
    }
    forall j | 0 <= j < |b|
      ensures !EqualFold(b[j].key, name)
    {
      assert !EqualFold(o[i].key, o[i + 1 + j].key);
    }
    NoMatchNoValues(a, name);
    NoMatchNoValues(b, name);
  }

  /** Replacing the entry at one position, keeping its key up to case. */
  lemma ReplaceAt(o: Ordered, i: nat, e: Entry, name: Text)
    requires FoldUnique(o) && i < |o| && EqualFold(o[i].key, e.key)
    ensures FoldUnique(o[i := e])
    ensures OrderedValues(o[i := e], name) == if EqualFold(e.key, name) then e.values else OrderedValues(o, name)
  {
    ReplaceKeepsUnique(o, i, e);
    var r := o[i := e];
    assert r[..i] == o[..i] && r[i + 1..] == o[i + 1..];
    OrderedValuesAround(r, i, name);
    if EqualFold(e.key, name) {
      NoOtherMatch(o, i, name);
    } else {
      OrderedValuesAround(o, i, name);
    }
  }

  lemma AppendNew(o: Ordered, e: Entry, name: Text)
    requires FoldUnique(o) && IndexOfFold(o, e.key) == |o|
    ensures FoldUnique(o + [e])
    ensures OrderedValues(o + [e], name) == if EqualFold(e.key, name) then e.values else OrderedValues(o, name)
  {
    OrderedValuesConcat(o, [e], name);
    if EqualFold(e.key, name) {
      NoMatchNoValues(o, name);
    }
  }

  lemma RemoveKeepsUnique(o: Ordered, i: nat)
    requires FoldUnique(o) && i < |o|
    ensures FoldUnique(o[..i] + o[i + 1..])
  {
    var r := o[..i] + o[i + 1..];
    forall j, k | 0 <= j < k < |r|
      ensures !EqualFold(r[j].key, r[k].key)
    {
      var j', k' := if j < i then j else j + 1, if k < i then k else k + 1;
      assert r[j] == o[j'] && r[k] == o[k'] && !EqualFold(o[j'].key, o[k'].key);
    }
  }

  lemma RemoveOther(o: Ordered, i: nat, name: Text)
    requires i < |o| && !EqualFold(o[i].key, name)
    ensures OrderedValues(o[..i] + o[i + 1..], name) == OrderedValues(o, name)
  {
    var a, b := o[..i], o[i + 1..];
    OrderedValuesConcat(a, b, name);
    OrderedValuesAround(o, i, name);
    assert [] + OrderedValues(b, name) == OrderedValues(b, name);
  }

  lemma RemoveMatch(o: Ordered, i: nat, name: Text)
    requires FoldUnique(o) && i < |o| && EqualFold(o[i].key, name)
    ensures OrderedValues(o[..i] + o[i + 1..], name) == []
  {
    OrderedValuesConcat(o[..i], o[i + 1..], name);
    NoOtherMatch(o, i, name);
  }

  lemma RemoveAt(o: Ordered, i: nat, name: Text)
    requires FoldUnique(o) && i < |o|
    ensures FoldUnique(o[..i] + o[i + 1..])
    ensures OrderedValues(o[..i] + o[i + 1..], name) == if EqualFold(o[i].key, name) then [] else OrderedValues(o, name)
  {
    RemoveKeepsUnique(o, i);
    if EqualFold(o[i].key, name) {
      RemoveMatch(o, i, name);
    } else {
      RemoveOther(o, i, name);
    }
  }

  lemma SetValuesKeys(o: Ordered, key: Text, values: seq<Text>)
    requires FoldUnique(o)
    ensures Keys(SetValues(o, key, values)) ==
            if IndexOfFold(o, key) < |o| then Keys(o) else Keys(o) + [key]
  {
    StoredKeyPosition(o, key);
  }

  /** Setting a name replaces its values in place, or appends it, and touches
      no other name. */
  lemma SetValuesMeaning(o: Ordered, key: Text, values: seq<Text>, name: Text)
    requires FoldUnique(o)
    ensures FoldUnique(SetValues(o, key, values))
    ensures OrderedValues(SetValues(o, key, values), name) ==
            if EqualFold(key, name) then values else OrderedValues(o, name)
    ensures Keys(SetValues(o, key, values)) ==
            if IndexOfFold(o, key) < |o| then Keys(o) else Keys(o) + [key]
  {
    SetValuesKeys(o, key, values);
    StoredKeyPosition(o, key);
    var stored := StoredKey(o, key);
    if stored.Some? {
      ReplaceAt(o, IndexOfFold(o, key), Entry(stored.value, values), name);
    } else {
      AppendNew(o, Entry(key, values), name);
    }
  }

  lemma AddValueMeaning(o: Ordered, key: Text, value: Text, name: Text)
    requires FoldUnique(o)
    ensures FoldUnique(AddValue(o, key, value))
    ensures OrderedValues(AddValue(o, key, value), name) ==
            OrderedValues(o, name) + if EqualFold(key, name) then [value] else []
    ensures Keys(AddValue(o, key, value)) ==
            if IndexOfFold(o, key) < |o| then Keys(o) else Keys(o) + [key]
  {
    StoredKeyPosition(o, key);
    OrderedValuesAt(o, name);
    var i := IndexOfFold(o, key);
    if i < |o| {
      assert AddValue(o, key, value) == SetValues(o, key, o[i].values + [value]);
      SetValuesMeaning(o, key, o[i].values + [value], name);
      if EqualFold(key, name) {
        OrderedValuesAt(o, key);
        assert IndexOfFold(o, name) == i by { SameIndex(o, key, name); }
      }
    } else {
      assert AddValue(o, key, value) == SetValues(o, key, [value]);
      SetValuesMeaning(o, key, [value], name);
      if EqualFold(key, name) {
        NoMatchNoValues(o, name);
      }
    }
  }

  lemma {:induction false} SameIndex(o: Ordered, a: Text, b: Text)
    requires EqualFold(a, b)
    ensures IndexOfFold(o, a) == IndexOfFold(o, b)
  {
    if o == [] {
    } else {
      SameIndex(o[1..], a, b);
    }
  }

  lemma DeleteNameMeaning(o: Ordered, key: Text, name: Text)
    requires FoldUnique(o)
    ensures FoldUnique(DeleteName(o, key))
    ensures OrderedValues(DeleteName(o, key), name) ==
            if EqualFold(key, name) then [] else OrderedValues(o, name)
  {
    StoredKeyPosition(o, key);
    var i := IndexOfFold(o, key);
    if i < |o| {
      RemoveAt(o, i, name);
    } else if EqualFold(key, name) {
      NoMatchNoValues(o, name);
    }
  }

  // ------------------------------------------------------------------ clone

  /** The clone loop: entries equal up to case are folded into the first one. */
  function CloneInto(acc: Ordered, rest: Ordered): Ordered
    decreases |rest|
  {
    if rest == [] then acc else
    var e := rest[0];
    var stored := StoredKey(acc, e.key);
    var next :=
      if stored.Some? then
        var i := IndexOfKey(acc, stored.value);
        SetEntry(acc, stored.value, (if i < |acc| then acc[i].values else []) + e.values)
      else SetEntry(acc, e.key, e.values);
    CloneInto(next, rest[1..])
  }

  function Clone(o: Ordered): Ordered {
    CloneInto([], o)
  }

  /** One entry of the clone loop. */
  function CloneEntry(acc: Ordered, e: Entry): Ordered {
    var i := IndexOfFold(acc, e.key);
    SetValues(acc, e.key, (if i < |acc| then acc[i].values else []) + e.values)
  }

  lemma CloneEntryMeaning(acc: Ordered, e: Entry, name: Text)
    requires FoldUnique(acc)
    ensures FoldUnique(CloneEntry(acc, e))
    ensures OrderedValues(CloneEntry(acc, e), name) ==
            OrderedValues(acc, name) + if EqualFold(e.key, name) then e.values else []
  {
    var i := IndexOfFold(acc, e.key);
    SetValuesMeaning(acc, e.key, (if i < |acc| then acc[i].values else []) + e.values, name);
    if EqualFold(e.key, name) {
      OrderedValuesAt(acc, name);
      SameIndex(acc, e.key, name);
    }
  }

  lemma CloneIntoStep(acc: Ordered, rest: Ordered)
    requires FoldUnique(acc) && rest != []
    ensures CloneInto(acc, rest) == CloneInto(CloneEntry(acc, rest[0]), rest[1..])
  {
    StoredKeyPosition(acc, rest[0].key);
    assert [] + rest[0].values == rest[0].values;
  }

  lemma {:induction false} CloneIntoMeaning(acc: Ordered, rest: Ordered, name: Text)
    requires FoldUnique(acc)
    ensures FoldUnique(CloneInto(acc, rest))
    ensures OrderedValues(CloneInto(acc, rest), name) == OrderedValues(acc, name) + OrderedValues(rest, name)
    decreases |rest|
  {
    if rest == [] {
    } else {
      var e := rest[0];
      CloneIntoStep(acc, rest);
      CloneEntryMeaning(acc, e, name);
      CloneIntoMeaning(CloneEntry(acc, e), rest[1..], name);
      ConcatAssociates(OrderedValues(acc, name), if EqualFold(e.key, name) then e.values else [], OrderedValues(rest[1..], name));
    }
  }

  /** Cloning keeps every name's values, in order, and makes names unique. */
  lemma CloneMeaning(o: Ordered, name: Text)
    ensures FoldUnique(Clone(o))
    ensures OrderedValues(Clone(o), name) == OrderedValues(o, name)
  {
    CloneIntoMeaning([], o, name);
  }

  /** A case-unique object is cloned exactly, order included. */
  lemma {:induction false} CloneExact(acc: Ordered, rest: Ordered)
    requires FoldUnique(acc + rest)
    ensures CloneInto(acc, rest) == acc + rest
    decreases |rest|
  {
    if rest == [] {
    } else {
      var e := rest[0];
      assert (acc + rest)[|acc|] == e;
      assert forall j :: 0 <= j < |acc| ==> (acc + rest)[j] == acc[j];
      assert StoredKey(acc, e.key).None?;
      assert IndexOfKey(acc, e.key) == |acc|;
      assert (acc + [e]) + rest[1..] == acc + rest;
      CloneExact(acc + [e], rest[1..]);
    }
  }

  /** cloneOrderedHeaders. */
  method CloneOrdered(o: Ordered) returns (clone: Ordered)
    ensures FoldUnique(clone)
    ensures forall name :: OrderedValues(clone, name) == OrderedValues(o, name)
    ensures FoldUnique(o) ==> clone == o
    ensures clone == Clone(o)
  {
    clone := [];
    for n := 0 to |o|
      invariant CloneInto(clone, o[n..]) == Clone(o)
    {
      var e := o[n];
      assert o[n..][1..] == o[n + 1..];
      var stored := StoredKey(clone, e.key);
      if stored.Some? {
        var i := IndexOfKey(clone, stored.value);
        clone := SetEntry(clone, stored.value, (if i < |clone| then clone[i].values else []) + e.values);
      } else {
        clone := SetEntry(clone, e.key, e.values);
      }
    }
    forall name
      ensures FoldUnique(clone) && OrderedValues(clone, name) == OrderedValues(o, name)
    {
      CloneMeaning(o, name);
    }
    CloneMeaning(o, []);
    if FoldUnique(o) {
      assert [] + o == o;
      CloneExact([], o);
    }
  }
}
