/** Merging cookie layers: a later layer's cookies replace the earlier ones of
    the same name, and a layer keeps all its repeats (request_plan.go). */
module Cookies {
  import opened Base
  import opened Sorting
  import opened Headers

  type Layer = seq<Occurrence>

  function NamesOf(layer: Layer): set<Text> {
    set i | 0 <= i < |layer| :: layer[i].name
  }

  function AllNames(layers: seq<Layer>): set<Text> {
    if layers == [] then {} else NamesOf(layers[0]) + AllNames(layers[1..])
  }

  /** The occurrences whose names are not taken, in order. */
  function Drop(layer: Layer, taken: set<Text>): Layer {
    if layer == [] then []
    else (if layer[0].name in taken then [] else [layer[0]]) + Drop(layer[1..], taken)
  }

  /** The specification: an occurrence is kept exactly when no later layer has
      its name, and the order of the concatenated layers is kept. */
  function Merged(layers: seq<Layer>): Layer {
    if layers == [] then [] else Drop(layers[0], AllNames(layers[1..])) + Merged(layers[1..])
  }

  // --------------------------------------------------- the two-pass algorithm

  /** The last layer that has a name. */
  ghost predicate IsLast(layers: seq<Layer>, n: nat, last: map<Text, nat>)
    requires n <= |layers|
  {
    && (forall name :: name in last ==> last[name] < n && name in NamesOf(layers[last[name]]))
    && (forall i, name :: 0 <= i < n && name in NamesOf(layers[i]) ==> name in last && i <= last[name])
  }

  /** The first pass over one layer. */
  method Record(layers: seq<Layer>, n: nat, last: map<Text, nat>) returns (next: map<Text, nat>)
    requires n < |layers| && IsLast(layers, n, last)
    ensures IsLast(layers, n + 1, next)
  {
    next := last;
    var layer := layers[n];
    for j := 0 to |layer|
      invariant forall name :: name in next ==>
                  (next[name] == n && name in NamesOf(layer)) || (name in last && next[name] == last[name])
      invariant forall name :: name in last ==> name in next
      invariant forall i :: 0 <= i < j ==> layer[i].name in next && next[layer[i].name] == n
    {
      next := next[layer[j].name := n];
    }
  }

  /** The second pass over one layer keeps what the map says it wins. */
  method Select(layers: seq<Layer>, i: nat, last: map<Text, nat>) returns (kept: Layer)
    requires i < |layers| && IsLast(layers, |layers|, last)
    ensures kept == Drop(layers[i], AllNames(layers[i + 1..]))
  {
    kept := [];
    var layer := layers[i];
    ghost var taken := AllNames(layers[i + 1..]);
    for j := 0 to |layer|
      invariant kept == Drop(layer[..j], taken)
    {
      assert layer[..j + 1] == layer[..j] + [layer[j]];
      DropConcat(layer[..j], [layer[j]], taken);
      assert [layer[j]][1..] == [];
      WinsIffNotTaken(layers, i, j, last);
      if last[layer[j].name] == i {
        kept := kept + [layer[j]];
      }
    }
    assert layer[..|layer|] == layer;
  }

  /** mergeCookieOccurrences. */
  method Merge(layers: seq<Layer>) returns (result: Layer)
    ensures result == Merged(layers)
  {
    var last: map<Text, nat> := map[];
    for n := 0 to |layers|
      invariant IsLast(layers, n, last)
    {
      last := Record(layers, n, last);
    }
    result := [];
    for i := 0 to |layers|
      invariant result + Merged(layers[i..]) == Merged(layers)
    {
      var kept := Select(layers, i, last);
      assert layers[i..][1..] == layers[i + 1..];
      ConcatAssociates(result, kept, Merged(layers[i + 1..]));
      result := result + kept;
    }
    assert layers[|layers|..] == [];
  }

  lemma {:induction false} InAllNames(layers: seq<Layer>, name: Text)
    ensures name in AllNames(layers) <==> exists i :: 0 <= i < |layers| && name in NamesOf(layers[i])
  {
    if layers == [] {
    } else {
      InAllNames(layers[1..], name);
      if name in AllNames(layers[1..]) {
        var i :| 0 <= i < |layers[1..]| && name in NamesOf(layers[1..][i]);
        assert name in NamesOf(layers[i + 1]);
      }
      if i :| 0 <= i < |layers| && name in NamesOf(layers[i]) {
        if i > 0 { assert name in NamesOf(layers[1..][i - 1]); }
      }
    }
  }

  lemma WinsIffNotTaken(layers: seq<Layer>, i: nat, j: nat, last: map<Text, nat>)
    requires i < |layers| && j < |layers[i]| && IsLast(layers, |layers|, last)
    ensures layers[i][j].name in last
    ensures last[layers[i][j].name] == i <==> layers[i][j].name !in AllNames(layers[i + 1..])
  {
    var name := layers[i][j].name;
    assert name in NamesOf(layers[i]);
    InAllNames(layers[i + 1..], name);
    if last[name] > i {
      assert layers[i + 1..][last[name] - i - 1] == layers[last[name]];
    }
    if name in AllNames(layers[i + 1..]) {
      var k :| 0 <= k < |layers[i + 1..]| && name in NamesOf(layers[i + 1..][k]);
      assert layers[i + 1..][k] == layers[i + 1 + k];
    }
  }

  // ------------------------------------------------------------- consequences

  lemma {:induction false} DropConcat(a: Layer, b: Layer, taken: set<Text>)
    ensures Drop(a + b, taken) == Drop(a, taken) + Drop(b, taken)
  {
    if a == [] {
      assert a + b == b;
    } else {
      assert (a + b)[1..] == a[1..] + b;
      DropConcat(a[1..], b, taken);
      ConcatAssociates(if a[0].name in taken then [] else [a[0]], Drop(a[1..], taken), Drop(b, taken));
    }
  }

  lemma {:induction false} DropTwice(a: Layer, s: set<Text>, t: set<Text>)
    ensures Drop(Drop(a, s), t) == Drop(a, s + t)
  {
    if a == [] {
    } else {
      DropTwice(a[1..], s, t);
      var head := if a[0].name in s then [] else [a[0]];
      DropConcat(head, Drop(a[1..], s), t);
      assert [a[0]][1..] == [];
    }
  }

  lemma {:induction false} DropNames(a: Layer, taken: set<Text>, name: Text)
    ensures name in NamesOf(Drop(a, taken)) <==> name in NamesOf(a) && name !in taken
    ensures ValuesFor(Drop(a, taken), name) == if name in taken then [] else ValuesFor(a, name)
  {
    if a == [] {
    } else {
      DropNames(a[1..], taken, name);
      var head := if a[0].name in taken then [] else [a[0]];
      ConcatNames(head, Drop(a[1..], taken));
      ConcatNames([a[0]], a[1..]);
      assert a == [a[0]] + a[1..];
      ValuesForConcat(head, Drop(a[1..], taken), name);
      assert [a[0]][1..] == [];
    }
  }

  lemma ConcatNames(a: Layer, b: Layer)
    ensures NamesOf(a + b) == NamesOf(a) + NamesOf(b)
  {
    assert forall i :: 0 <= i < |a| ==> (a + b)[i] == a[i];
    assert forall i :: 0 <= i < |b| ==> (a + b)[|a| + i] == b[i];
  }

  /** Merging loses no name and invents none. */
  lemma {:induction false} MergedNames(layers: seq<Layer>)
    ensures NamesOf(Merged(layers)) == AllNames(layers)
  {
    if layers == [] {
    } else {
      MergedNames(layers[1..]);
      var head := Drop(layers[0], AllNames(layers[1..]));
      ConcatNames(head, Merged(layers[1..]));
      forall name
        ensures name in NamesOf(head) <==> name in NamesOf(layers[0]) && name !in AllNames(layers[1..])
      {
        DropNames(layers[0], AllNames(layers[1..]), name);
      }
    }
  }

  lemma {:induction false} AllNamesConcat(xs: seq<Layer>, ys: seq<Layer>)
    ensures AllNames(xs + ys) == AllNames(xs) + AllNames(ys)
  {
    if xs == [] {
      assert xs + ys == ys;
    } else {
      assert (xs + ys)[1..] == xs[1..] + ys;
      AllNamesConcat(xs[1..], ys);
    }
  }

  lemma {:induction false} MergedConcat(xs: seq<Layer>, ys: seq<Layer>)
    ensures Merged(xs + ys) == Drop(Merged(xs), AllNames(ys)) + Merged(ys)
  {
    if xs == [] {
      assert xs + ys == ys;
    } else {
      assert (xs + ys)[1..] == xs[1..] + ys;
      MergedConcat(xs[1..], ys);
      AllNamesConcat(xs[1..], ys);
      var head := Drop(xs[0], AllNames(xs[1..]));
      DropTwice(xs[0], AllNames(xs[1..]), AllNames(ys));
      DropConcat(head, Merged(xs[1..]), AllNames(ys));
      ConcatAssociates(Drop(head, AllNames(ys)), Drop(Merged(xs[1..]), AllNames(ys)), Merged(ys));
    }
  }

  lemma MergedSingle(layer: Layer)
    ensures Merged([layer]) == Drop(layer, {}) && AllNames([layer]) == NamesOf(layer)
  {
    assert [layer][1..] == [];
    assert Drop(layer, {}) + [] == Drop(layer, {});
  }

  lemma {:induction false} DropNone(layer: Layer)
    ensures Drop(layer, {}) == layer
  {
    if layer == [] {
    } else {
      DropNone(layer[1..]);
    }
  }

  /** Layers can be merged in stages from either side: merging is associative. */
  lemma MergeAssociates(xs: seq<Layer>, ys: seq<Layer>)
    ensures Merged([Merged(xs)] + ys) == Merged(xs + ys) == Merged(xs + [Merged(ys)])
  {
    MergedConcat(xs, ys);
    MergedConcat([Merged(xs)], ys);
    MergedConcat(xs, [Merged(ys)]);
    MergedSingle(Merged(xs));
    MergedSingle(Merged(ys));
    DropNone(Merged(xs));
    DropNone(Merged(ys));
    MergedNames(ys);
  }

  /** A name's merged values are all of its winning layer's, in order. */
  lemma {:induction false} WinningLayer(layers: seq<Layer>, i: nat, name: Text)
    requires i < |layers| && name in NamesOf(layers[i])
    requires forall j :: i < j < |layers| ==> name !in NamesOf(layers[j])
    ensures ValuesFor(Merged(layers), name) == ValuesFor(layers[i], name)
  {
    var rest := layers[1..];
    DropNames(layers[0], AllNames(rest), name);
    ValuesForConcat(Drop(layers[0], AllNames(rest)), Merged(rest), name);
    InAllNames(rest, name);
    if i == 0 {
      MergedNames(rest);
      AbsentIffNoValues(Merged(rest), name);
    } else {
      assert rest[i - 1] == layers[i];
      WinningLayer(rest, i - 1, name);
    }
  }
}
