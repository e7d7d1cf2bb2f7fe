/** Names in byte order, and the stable sort of named items by name. */
module Sorting {
  import opened Base

  datatype Named<+V> = Named(name: Text, value: V)

  /** strings.Compare(a, b) <= 0. */
  predicate Leq(a: Text, b: Text) {
    a == [] || (b != [] && (a[0] < b[0] || (a[0] == b[0] && Leq(a[1..], b[1..]))))
  }

  lemma {:induction false} LeqTotal(a: Text, b: Text)
    ensures Leq(a, b) || Leq(b, a)
  {
    if a != [] && b != [] && a[0] == b[0] {
      LeqTotal(a[1..], b[1..]);
    }
  }

  lemma {:induction false} LeqAntisymmetric(a: Text, b: Text)
    requires Leq(a, b) && Leq(b, a)
    ensures a == b
  {
    if a != [] && b != [] {
      LeqAntisymmetric(a[1..], b[1..]);
      assert a == [a[0]] + a[1..] && b == [b[0]] + b[1..];
    }
  }

  lemma {:induction false} LeqTransitive(a: Text, b: Text, c: Text)
    requires Leq(a, b) && Leq(b, c)
    ensures Leq(a, c)
  {
    if a != [] && a[0] == b[0] && b[0] == c[0] {
      LeqTransitive(a[1..], b[1..], c[1..]);
    }
  }

  lemma {:induction false} LeqReflexive(a: Text)
    ensures Leq(a, a)
  {
    if a == [] {
    } else {
      LeqReflexive(a[1..]);
    }
  }

  // ------------------------------------------------------------ sorted names

  ghost predicate SortedNames(s: seq<Text>) {
    forall i, j :: 0 <= i < j < |s| ==> Leq(s[i], s[j]) && s[i] != s[j]
  }

  predicate IsLeast(names: set<Text>, m: Text) {
    m in names && forall n :: n in names ==> Leq(m, n)
  }

  lemma {:induction false} LeastExists(names: set<Text>)
    requires names != {}
    ensures exists m :: IsLeast(names, m)
    decreases names
  {
    var n :| n in names;
    if names == {n} {
      LeqReflexive(n);
      assert IsLeast(names, n);
    } else {
      var rest := names - {n};
      LeastExists(rest);
      var m :| IsLeast(rest, m);
      LeqReflexive(n);
      LeqTotal(n, m);
      if Leq(n, m) {
        forall k | k in names
          ensures Leq(n, k)
        {
          if k != n { LeqTransitive(n, m, k); }
        }
        assert IsLeast(names, n);
      } else {
        assert IsLeast(names, m);
      }
    }
  }

  lemma LeastUnique(names: set<Text>, a: Text, b: Text)
    requires IsLeast(names, a) && IsLeast(names, b)
    ensures a == b
  {
    LeqAntisymmetric(a, b);
  }

  function Least(names: set<Text>): (m: Text)
    requires names != {}
    ensures IsLeast(names, m)
  {
    LeastExists(names);
    assert forall a, b :: IsLeast(names, a) && IsLeast(names, b) ==> a == b by {
      forall a, b | IsLeast(names, a) && IsLeast(names, b) ensures a == b { LeastUnique(names, a, b); }
    }
    var m :| IsLeast(names, m);
    m
  }

  /** slices.Sorted(maps.Keys(m)). */
  function SortedKeys(names: set<Text>): seq<Text>
    decreases |names|
  {
    if names == {} then [] else [Least(names)] + SortedKeys(names - {Least(names)})
  }

  lemma {:induction false} SortedKeysMeaning(names: set<Text>)
    ensures SortedNames(SortedKeys(names))
    ensures forall n :: n in SortedKeys(names) <==> n in names
    decreases |names|
  {
    if names == {} {
    } else {
      var m := Least(names);
      SortedKeysMeaning(names - {m});
      var rest := SortedKeys(names - {m});
      forall i | 0 <= i < |rest|
        ensures Leq(m, rest[i]) && m != rest[i]
      {
        assert rest[i] in rest;
      }
      ConsSorted(m, rest);
      assert forall n :: n in [m] + rest <==> n == m || n in rest;
    }
  }

  lemma ConsSorted(m: Text, rest: seq<Text>)
    requires SortedNames(rest) && forall i :: 0 <= i < |rest| ==> Leq(m, rest[i]) && m != rest[i]
    ensures SortedNames([m] + rest)
  {
  }

  // ------------------------------------------------------------- stable sort

  /** The values under one name, in order. */
  function ValuesFor<V>(s: seq<Named<V>>, name: Text): seq<V> {
    if s == [] then [] else (if s[0].name == name then [s[0].value] else []) + ValuesFor(s[1..], name)
  }

  predicate SortedByName<V>(s: seq<Named<V>>) {
    |s| <= 1 || (Leq(s[0].name, s[1].name) && SortedByName(s[1..]))
  }

  function Insert<V>(p: Named<V>, s: seq<Named<V>>): seq<Named<V>> {
    if s == [] || Leq(p.name, s[0].name) then [p] + s else [s[0]] + Insert(p, s[1..])
  }

  /** slices.SortStableFunc by name. */
  function Sort<V>(s: seq<Named<V>>): seq<Named<V>> {
    if s == [] then [] else Insert(s[0], Sort(s[1..]))
  }

  lemma {:induction false} InsertSorted<V>(p: Named<V>, s: seq<Named<V>>)
    requires SortedByName(s)
    ensures SortedByName(Insert(p, s))
  {
    if s == [] || Leq(p.name, s[0].name) {
      assert ([p] + s)[1..] == s;
    } else {
      LeqTotal(p.name, s[0].name);
      InsertSorted(p, s[1..]);
      assert ([s[0]] + Insert(p, s[1..]))[1..] == Insert(p, s[1..]);
    }
  }

  lemma {:induction false} InsertValues<V>(p: Named<V>, s: seq<Named<V>>, name: Text)
    ensures ValuesFor(Insert(p, s), name) == (if p.name == name then [p.value] else []) + ValuesFor(s, name)
  {
    if s == [] || Leq(p.name, s[0].name) {
      assert ([p] + s)[1..] == s;
    } else {
      var tail := Insert(p, s[1..]);
      assert ValuesFor([s[0]] + tail, name) == (if s[0].name == name then [s[0].value] else []) + ValuesFor(tail, name) by {
        assert ([s[0]] + tail)[1..] == tail;
      }
      InsertValues(p, s[1..], name);
      LeqReflexive(p.name);
      if p.name == name {
        assert s[0].name != name;
      }
    }
  }

  /** The sort orders the names and is stable: no name's values are reordered. */
  lemma {:induction false} SortMeaning<V>(s: seq<Named<V>>, name: Text)
    ensures SortedByName(Sort(s))
    ensures ValuesFor(Sort(s), name) == ValuesFor(s, name)
  {
    if s == [] {
    } else {
      SortMeaning(s[1..], name);
      InsertSorted(s[0], Sort(s[1..]));
      InsertValues(s[0], Sort(s[1..]), name);
    }
  }

  lemma {:induction false} ValuesForConcat<V>(a: seq<Named<V>>, b: seq<Named<V>>, name: Text)
    ensures ValuesFor(a + b, name) == ValuesFor(a, name) + ValuesFor(b, name)
  {
    if a == [] {
      assert a + b == b;
    } else {
      assert (a + b)[1..] == a[1..] + b;
      ValuesForConcat(a[1..], b, name);
      ConcatAssociates(if a[0].name == name then [a[0].value] else [], ValuesFor(a[1..], name), ValuesFor(b, name));
    }
  }

  lemma {:induction false} HeadIsLeast<V>(s: seq<Named<V>>, i: nat)
    requires SortedByName(s) && i < |s|
    ensures Leq(s[0].name, s[i].name)
  {
    if i == 0 {
      LeqReflexive(s[0].name);
    } else {
      HeadIsLeast(s[1..], i - 1);
      LeqTransitive(s[0].name, s[1].name, s[i].name);
    }
  }

  lemma {:induction false} AbsentIffNoValues<V>(s: seq<Named<V>>, name: Text)
    ensures ValuesFor(s, name) != [] <==> exists i :: 0 <= i < |s| && s[i].name == name
  {
    if s == [] {
    } else {
      AbsentIffNoValues(s[1..], name);
      if ValuesFor(s[1..], name) != [] {
        var i :| 0 <= i < |s[1..]| && s[1..][i].name == name;
        assert s[i + 1].name == name;
      }
      if i :| 0 <= i < |s| && s[i].name == name {
        if i > 0 { assert s[1..][i - 1].name == name; }
      }
    }
  }

  /** A list sorted by name is determined by the values under each name. */
  lemma {:induction false} SortedDetermined<V>(a: seq<Named<V>>, b: seq<Named<V>>)
    requires SortedByName(a) && SortedByName(b)
    requires forall name :: ValuesFor(a, name) == ValuesFor(b, name)
    ensures a == b
  {
    if a == [] {
      if b != [] {
        AbsentIffNoValues(b, b[0].name);
        AbsentIffNoValues(a, b[0].name);
      }
    } else {
      AbsentIffNoValues(a, a[0].name);
      AbsentIffNoValues(b, a[0].name);
      assert b != [];
      SameHead(a, b);
      forall name
        ensures ValuesFor(a[1..], name) == ValuesFor(b[1..], name)
      {
        var head := if a[0].name == name then [a[0].value] else [];
        assert ValuesFor(a, name) == head + ValuesFor(a[1..], name);
        assert ValuesFor(b, name) == (if b[0].name == name then [b[0].value] else []) + ValuesFor(b[1..], name);
        assert ValuesFor(a[1..], name) == ValuesFor(a, name)[|head|..];
        assert ValuesFor(b[1..], name) == ValuesFor(b, name)[|head|..];
      }
      SortedDetermined(a[1..], b[1..]);
      assert a == [a[0]] + a[1..] && b == [b[0]] + b[1..];
    }
  }

  lemma SameHead<V>(a: seq<Named<V>>, b: seq<Named<V>>)
    requires SortedByName(a) && SortedByName(b) && a != [] && b != []
    requires forall name :: ValuesFor(a, name) == ValuesFor(b, name)
    ensures a[0] == b[0]
  {
    AbsentIffNoValues(a, a[0].name);
    AbsentIffNoValues(b, a[0].name);
    AbsentIffNoValues(b, b[0].name);
    AbsentIffNoValues(a, b[0].name);
    assert a[0].name == a[0].name && b[0].name == b[0].name;
    var i :| 0 <= i < |b| && b[i].name == a[0].name;
    var j :| 0 <= j < |a| && a[j].name == b[0].name;
    HeadIsLeast(b, i);
    HeadIsLeast(a, j);
    LeqAntisymmetric(a[0].name, b[0].name);
    assert ValuesFor(a, a[0].name)[0] == a[0].value;
    assert ValuesFor(b, b[0].name)[0] == b[0].value;
  }
}
