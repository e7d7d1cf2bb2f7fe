/** Ordered-header intent: how the client's and the request's ordered objects
    are merged, and how the result is kept in step with the semantic header
    (mergeOrderedHeaders, syncOrderedHeaderValues). */
module OrderedPlan {
  import opened Base
  import opened Headers
  import opened OrderedHeaders
  import opened HeaderPlan

  // ------------------------------------------------------------------- merge

  /** The entries that do not carry a name, in their order. */
  function Drop(o: Ordered, key: Text): Ordered {
    if o == [] then []
    else (if EqualFold(o[0].key, key) then [] else [o[0]]) + Drop(o[1..], key)
  }

  /** The base entries that the override does not name, in their order. */
  function Unnamed(base: Ordered, over: Ordered): Ordered
    decreases |over|
  {
    if over == [] then base else Drop(Unnamed(base, over[..|over| - 1]), over[|over| - 1].key)
  }

  lemma {:induction false} DropConcat(a: Ordered, b: Ordered, key: Text)
    ensures Drop(a + b, key) == Drop(a, key) + Drop(b, key)
  {
    if a == [] {
      assert a + b == b;
    } else {
      assert (a + b)[1..] == a[1..] + b;
      DropConcat(a[1..], b, key);
      ConcatAssociates(if EqualFold(a[0].key, key) then [] else [a[0]], Drop(a[1..], key), Drop(b, key));
    }
  }

  lemma {:induction false} DropNothing(o: Ordered, key: Text)
    requires forall i :: 0 <= i < |o| ==> !EqualFold(o[i].key, key)
    ensures Drop(o, key) == o
  {
    if o == [] {
    } else {
      DropNothing(o[1..], key);
    }
  }

  /** What survives a drop: exactly the entries with another name. */
  lemma {:induction false} DropMembers(o: Ordered, key: Text, e: Entry)
    ensures e in Drop(o, key) <==> e in o && !EqualFold(e.key, key)
  {
    if o == [] {
    } else {
      DropMembers(o[1..], key, e);
      assert o == [o[0]] + o[1..];
    }
  }

  lemma {:induction false} DropUnique(o: Ordered, key: Text)
    requires FoldUnique(o)
    ensures FoldUnique(Drop(o, key))
  {
    if o == [] {
    } else {
      DropUnique(o[1..], key);
      var rest := Drop(o[1..], key);
      forall i | 0 <= i < |rest|
        ensures !EqualFold(o[0].key, rest[i].key)
      {
        DropMembers(o[1..], key, rest[i]);
        var j :| 0 <= j < |o[1..]| && o[1..][j] == rest[i];
        assert o[j + 1] == rest[i];
      }
    }
  }

  lemma {:induction false} DropAt(o: Ordered, i: nat, key: Text)
    requires i < |o| && EqualFold(o[i].key, key)
    requires forall j :: 0 <= j < |o| && j != i ==> !EqualFold(o[j].key, key)
    ensures Drop(o, key) == o[..i] + o[i + 1..]
  {
    if i == 0 {
      DropNothing(o[1..], key);
    } else {
      var rest := o[1..];
      DropAt(rest, i - 1, key);
      assert rest[i..] == o[i + 1..] && o[..i] == [o[0]] + rest[..i - 1];
      ConcatAssociates([o[0]], rest[..i - 1], rest[i..]);
    }
  }

  /** Deleting a name from a case-unique object drops its only entry. */
  lemma DeleteDrops(o: Ordered, key: Text)
    requires FoldUnique(o)
    ensures DeleteName(o, key) == Drop(o, key)
  {
    StoredKeyPosition(o, key);
    var i := IndexOfFold(o, key);
    if i < |o| {
      forall j | 0 <= j < |o| && j != i
        ensures !EqualFold(o[j].key, key)
      {
        assert if i < j then !EqualFold(o[i].key, o[j].key) else !EqualFold(o[j].key, o[i].key);
      }
      DropAt(o, i, key);
    } else {
      DropNothing(o, key);
    }
  }

  predicate Names(o: Ordered, key: Text) {
    exists i :: 0 <= i < |o| && EqualFold(o[i].key, key)
  }

  lemma NamesSnoc(o: Ordered, last: Entry, key: Text)
    ensures Names(o + [last], key) <==> Names(o, key) || EqualFold(last.key, key)
  {
    var all := o + [last];
    if Names(o, key) {
      var i :| 0 <= i < |o| && EqualFold(o[i].key, key);
      assert all[i] == o[i];
    }
    assert all[|o|] == last;
  }

  lemma UnnamedSnoc(base: Ordered, over: Ordered, last: Entry)
    ensures Unnamed(base, over + [last]) == Drop(Unnamed(base, over), last.key)
  {
    assert (over + [last])[..|over|] == over;
  }

  lemma {:induction false} UnnamedUnique(base: Ordered, over: Ordered)
    requires FoldUnique(base)
    ensures FoldUnique(Unnamed(base, over))
    decreases |over|
  {
    if over == [] {
    } else {
      UnnamedUnique(base, over[..|over| - 1]);
      DropUnique(Unnamed(base, over[..|over| - 1]), over[|over| - 1].key);
    }
  }

  /** What the merge keeps of the base: exactly the entries not named. */
  lemma {:induction false} UnnamedMeaning(base: Ordered, over: Ordered, e: Entry)
    ensures e in Unnamed(base, over) <==> e in base && !Names(over, e.key)
    decreases |over|
  {
    if over == [] {
    } else {
      var front, last := over[..|over| - 1], over[|over| - 1];
      assert front + [last] == over;
      UnnamedSnoc(base, front, last);
      NamesSnoc(front, last, e.key);
      UnnamedMeaning(base, front, e);
      DropMembers(Unnamed(base, front), last.key, e);
    }
  }

  lemma MergedUnique(base: Ordered, over: Ordered)
    requires FoldUnique(base) && FoldUnique(over)
    ensures FoldUnique(Unnamed(base, over) + over)
  {
    var kept := Unnamed(base, over);
    UnnamedUnique(base, over);
    forall i, j | 0 <= i < |kept| && 0 <= j < |over|
      ensures !EqualFold(kept[i].key, over[j].key)
    {
      UnnamedMeaning(base, over, kept[i]);
    }
  }

  /** mergeOrderedHeaders on two present objects: the client entries the request
      does not name stay in order, and the request's entries follow in theirs. */
  method MergeOrdered(base: Ordered, over: Ordered) returns (merged: Ordered)
    requires FoldUnique(base) && FoldUnique(over)
    ensures merged == Unnamed(base, over) + over
    ensures FoldUnique(merged)
  {
    merged := base;
    for n := 0 to |over|
      invariant merged == Unnamed(base, over[..n]) + over[..n]
    {
      PrefixUnique(over, n);
      MergeStep(base, over, n);
      merged := DeleteName(merged, over[n].key);
      merged := SetEntry(merged, over[n].key, over[n].values);
    }
    assert over[..|over|] == over;
    MergedUnique(base, over);
  }

  lemma AppendAbsent(o: Ordered, e: Entry)
    requires forall i :: 0 <= i < |o| ==> o[i].key != e.key
    ensures SetEntry(o, e.key, e.values) == o + [e]
  {
  }

  /** One override entry: its name leaves the kept base entries and it goes last. */
  lemma MergeEntry(kept: Ordered, done: Ordered, e: Entry)
    requires FoldUnique(kept + done)
    requires forall i :: 0 <= i < |done| ==> !EqualFold(done[i].key, e.key)
    ensures SetEntry(DeleteName(kept + done, e.key), e.key, e.values) == Drop(kept, e.key) + (done + [e])
  {
    DeleteDrops(kept + done, e.key);
    DropConcat(kept, done, e.key);
    DropNothing(done, e.key);
    var rest := Drop(kept, e.key) + done;
    forall i | 0 <= i < |rest|
      ensures rest[i].key != e.key
    {
      DropMembers(kept + done, e.key, rest[i]);
    }
    AppendAbsent(rest, e);
    ConcatAssociates(Drop(kept, e.key), done, [e]);
  }

  lemma PrefixUnique(o: Ordered, n: nat)
    requires FoldUnique(o) && n <= |o|
    ensures FoldUnique(o[..n])
  {
  }

  lemma MergeStep(base: Ordered, over: Ordered, n: nat)
    requires n < |over| && FoldUnique(base) && FoldUnique(over[..n])
    requires forall i :: 0 <= i < n ==> !EqualFold(over[i].key, over[n].key)
    ensures
      var e := over[n];
      SetEntry(DeleteName(Unnamed(base, over[..n]) + over[..n], e.key), e.key, e.values) ==
      Unnamed(base, over[..n + 1]) + over[..n + 1]
  {
    assert over[..n] + [over[n]] == over[..n + 1];
    MergedUnique(base, over[..n]);
    MergeEntry(Unnamed(base, over[..n]), over[..n], over[n]);
    UnnamedSnoc(base, over[..n], over[n]);
  }

  // -------------------------------------------------------------------- sync

  predicate KeyUnique(o: Ordered) {
    forall i, j :: 0 <= i < j < |o| ==> o[i].key != o[j].key
  }

  /** One entry after it was brought in step with the semantic header. */
  function SyncedEntry(e: Entry, semantic: HeaderMap): Ordered {
    if IsPseudo(e.key) then [e]
    else if HeaderValues(semantic, e.key) == [] then []
    else [Entry(e.key, HeaderValues(semantic, e.key))]
  }

  function Synced(o: Ordered, semantic: HeaderMap): Ordered {
    if o == [] then [] else Synced(o[..|o| - 1], semantic) + SyncedEntry(o[|o| - 1], semantic)
  }

  /** Editing the entry at the boundary between the done and the pending part. */
  lemma EditAt(done: Ordered, e: Entry, rest: Ordered, values: seq<Text>)
    requires forall i :: 0 <= i < |done| ==> done[i].key != e.key
    ensures DeleteEntry(done + ([e] + rest), e.key) == done + rest
    ensures SetEntry(done + ([e] + rest), e.key, values) == (done + [Entry(e.key, values)]) + rest
  {
    var all := done + ([e] + rest);
    assert all[|done|] == e;
    assert forall i :: 0 <= i < |done| ==> all[i] == done[i];
    assert IndexOfKey(all, e.key) == |done|;
  }

  lemma {:induction false} SyncedKeys(o: Ordered, semantic: HeaderMap, key: Text)
    requires forall i :: 0 <= i < |o| ==> o[i].key != key
    ensures forall i :: 0 <= i < |Synced(o, semantic)| ==> Synced(o, semantic)[i].key != key
  {
    if o == [] {
    } else {
      SyncedKeys(o[..|o| - 1], semantic, key);
    }
  }

  lemma SyncStep(o: Ordered, n: nat, semantic: HeaderMap)
    requires KeyUnique(o) && n < |o|
    ensures
      var e, all := o[n], Synced(o[..n], semantic) + o[n..];
      Synced(o[..n + 1], semantic) + o[n + 1..] ==
        if IsPseudo(e.key) then all
        else if HeaderValues(semantic, e.key) == [] then DeleteEntry(all, e.key)
        else SetEntry(all, e.key, HeaderValues(semantic, e.key))
  {
    var e, done := o[n], Synced(o[..n], semantic);
    assert o[n..] == [e] + o[n + 1..];
    assert o[..n + 1][..n] == o[..n];
    SyncedKeys(o[..n], semantic, e.key);
    var values := HeaderValues(semantic, e.key);
    EditAt(done, e, o[n + 1..], values);
    if IsPseudo(e.key) {
      ConcatAssociates(done, [e], o[n + 1..]);
    } else if values == [] {
      assert done + [] == done;
    } else {
      assert Synced(o[..n + 1], semantic) == done + [Entry(e.key, values)];
    }
  }

  /** syncOrderedHeaderValues: the loop edits the object it is iterating over. */
  method SyncOrdered(o: Ordered, semantic: HeaderMap) returns (r: Ordered)
    requires KeyUnique(o)
    ensures r == Synced(o, semantic)
  {
    r := o;
    for n := 0 to |o|
      invariant r == Synced(o[..n], semantic) + o[n..]
    {
      SyncStep(o, n, semantic);
      var key := o[n].key;
      if !IsPseudo(key) {
        var values := HeaderValues(semantic, key);
        if values == [] {
          r := DeleteEntry(r, key);
        } else {
          r := SetEntry(r, key, values);
        }
      }
    }
    assert o[..|o|] == o;
  }

  /** After a sync, every surviving non-pseudo entry carries exactly the values
      of the semantic header, and no entry with values was lost. */
  lemma {:induction false} SyncedAgrees(o: Ordered, semantic: HeaderMap)
    ensures forall i :: 0 <= i < |Synced(o, semantic)| ==>
              var e := Synced(o, semantic)[i];
              IsPseudo(e.key) || (e.values == HeaderValues(semantic, e.key) != [])
    ensures forall j :: 0 <= j < |o| && (IsPseudo(o[j].key) || HeaderValues(semantic, o[j].key) != []) ==>
              exists i :: 0 <= i < |Synced(o, semantic)| && Synced(o, semantic)[i].key == o[j].key
  {
    if o == [] {
    } else {
      var front := o[..|o| - 1];
      SyncedAgrees(front, semantic);
      var done, last := Synced(front, semantic), SyncedEntry(o[|o| - 1], semantic);
      forall j | 0 <= j < |o| && (IsPseudo(o[j].key) || HeaderValues(semantic, o[j].key) != [])
        ensures exists i :: 0 <= i < |Synced(o, semantic)| && Synced(o, semantic)[i].key == o[j].key
      {
        if j < |front| {
          assert front[j] == o[j];
          var i :| 0 <= i < |done| && done[i].key == front[j].key;
          assert Synced(o, semantic)[i] == done[i];
        } else {
          assert Synced(o, semantic)[|done|] == last[0];
        }
      }
    }
  }
}
