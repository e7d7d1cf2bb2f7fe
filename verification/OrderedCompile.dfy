/** The ordered-header intent of a compiled plan: the merged client and request
    objects, without client entries that plain request headers replace, brought
    in step with the plan's headers (compileRequestPlanSnapshot). */
module OrderedCompile {
  import opened Base
  import opened Headers
  import opened OrderedHeaders
  import opened HeaderPlan
  import opened OrderedPlan
  import Builder
  import D = DeliveredHeaders

  /** mergeOrderedHeaders, absent objects included. */
  function MergedOption(client: Option<Ordered>, request: Option<Ordered>): Option<Ordered> {
    if request.None? then client
    else if client.None? then request
    else Some(Unnamed(client.value, request.value) + request.value)
  }

  ghost predicate UniqueOption(o: Option<Ordered>) {
    o.Some? ==> FoldUnique(o.value)
  }

  method MergeOption(client: Option<Ordered>, request: Option<Ordered>) returns (merged: Option<Ordered>)
    requires UniqueOption(client) && UniqueOption(request)
    ensures merged == MergedOption(client, request) && UniqueOption(merged)
  {
    merged := None;
    if client.Some? {
      var clone := CloneOrdered(client.value);
      merged := Some(clone);
    }
    if request.None? {
      return;
    }
    if merged.None? {
      var clone := CloneOrdered(request.value);
      return Some(clone);
    }
    var both := MergeOrdered(merged.value, request.value);
    merged := Some(both);
  }

  /** Dropping the request's plain names, those it orders itself excepted. */
  function Prune(o: Ordered, names: seq<Text>, request: Option<Ordered>): Ordered
    decreases |names|
  {
    if names == [] then o
    else Prune(if HasName(request, names[0]) then o else Drop(o, names[0]), names[1..], request)
  }

  lemma {:induction false} PruneUnique(o: Ordered, names: seq<Text>, request: Option<Ordered>)
    requires FoldUnique(o)
    ensures FoldUnique(Prune(o, names, request))
    decreases |names|
  {
    if names == [] {
    } else {
      DropUnique(o, names[0]);
      PruneUnique(if HasName(request, names[0]) then o else Drop(o, names[0]), names[1..], request);
    }
  }

  // ------------------------------------------------------ names of the parts

  lemma NamesConcat(a: Ordered, b: Ordered, name: Text)
    ensures Names(a + b, name) <==> Names(a, name) || Names(b, name)
  {
    if Names(a, name) {
      var i :| 0 <= i < |a| && EqualFold(a[i].key, name);
      assert (a + b)[i] == a[i];
    }
    if Names(b, name) {
      var i :| 0 <= i < |b| && EqualFold(b[i].key, name);
      assert (a + b)[|a| + i] == b[i];
    }
  }

  lemma NamesIffHas(o: Ordered, name: Text)
    ensures Names(o, name) <==> HasName(Some(o), name)
  {
    StoredIffMatch(o, name);
  }

  lemma DropNames(o: Ordered, key: Text, name: Text)
    ensures Names(Drop(o, key), name) <==> Names(o, name) && !EqualFold(key, name)
  {
    var left := Drop(o, key);
    if Names(left, name) {
      var i :| 0 <= i < |left| && EqualFold(left[i].key, name);
      DropMembers(o, key, left[i]);
      var j :| 0 <= j < |o| && o[j] == left[i];
    }
    if Names(o, name) && !EqualFold(key, name) {
      var i :| 0 <= i < |o| && EqualFold(o[i].key, name);
      DropMembers(o, key, o[i]);
      var j :| 0 <= j < |left| && left[j] == o[i];
    }
  }

  lemma {:induction false} UnnamedNames(base: Ordered, over: Ordered, name: Text)
    ensures Names(Unnamed(base, over), name) <==> Names(base, name) && !Names(over, name)
    decreases |over|
  {
    if over == [] {
    } else {
      var front, last := over[..|over| - 1], over[|over| - 1];
      UnnamedNames(base, front, name);
      DropNames(Unnamed(base, front), last.key, name);
      NamesSnoc(front, last, name);
      assert front + [last] == over;
    }
  }

  lemma {:induction false} PruneNames(o: Ordered, names: seq<Text>, request: Option<Ordered>, name: Text)
    ensures Names(Prune(o, names, request), name) <==>
            Names(o, name) && (HasName(request, name) || Fold(name) !in FoldSet(names))
    decreases |names|
  {
    if names == [] {
    } else {
      var k := names[0];
      DropNames(o, k, name);
      PruneNames(if HasName(request, k) then o else Drop(o, k), names[1..], request, name);
      PruneHead(names, request, name);
    }
  }

  lemma PruneHead(names: seq<Text>, request: Option<Ordered>, name: Text)
    requires names != []
    ensures Fold(name) in FoldSet(names) <==> EqualFold(names[0], name) || Fold(name) in FoldSet(names[1..])
    ensures EqualFold(names[0], name) ==> (HasName(request, names[0]) <==> HasName(request, name))
  {
    Builder.FoldSetSplit(names);
    if EqualFold(names[0], name) {
      HasNameByFold(request, names[0], name);
    }
  }

  /** The request's own entries survive, last and in their order. */
  lemma {:induction false} PruneKeepsRequest(kept: Ordered, names: seq<Text>, request: Ordered)
    ensures Prune(kept + request, names, Some(request)) == Prune(kept, names, Some(request)) + request
    decreases |names|
  {
    if names == [] {
    } else {
      var k := names[0];
      if HasName(Some(request), k) {
        PruneKeepsRequest(kept, names[1..], request);
      } else {
        NamesIffHas(request, k);
        DropConcat(kept, request, k);
        DropNothing(request, k);
        PruneKeepsRequest(Drop(kept, k), names[1..], request);
      }
    }
  }

  // ------------------------------------------------------------- the compiler

  /** compileOrderedHeaders followed by the sync with the plan's headers; `names`
      is an iteration order of the distinct request header names. */
  method CompileOrdered(p: D.Plan, names: seq<Text>) returns (r: Option<Ordered>)
    requires D.ValidPlan(p) && FoldSet(names) == NameFolds(p.request.headers)
    ensures r.Some? ==> FoldUnique(r.value)
    ensures forall name :: IsToken(name) ==>
              (if r.Some? then OrderedValues(r.value, name) else []) ==
              if Listed(p, name) then ValuesOf(D.PlanHeaders(p), name) else []
  {
    var pruned := Compile(p, names);
    r := pruned;
    if pruned.Some? {
      var semantic := CollectHeader(D.PlanHeaders(p));
      var synced := SyncOrdered(pruned.value, semantic);
      r := Some(synced);
      SyncedUnique(pruned.value, semantic);
      forall name | IsToken(name)
        ensures OrderedValues(synced, name) == if Listed(p, name) then ValuesOf(D.PlanHeaders(p), name) else []
      {
        SyncedValues(pruned.value, semantic, name);
        CollectMeaning(map[], D.PlanHeaders(p), name);
      }
    }
  }

  /** A name keeps a place in the ordered intent when the request orders it, or
      when the client does and no plain request header replaces it. */
  predicate Listed(p: D.Plan, name: Text) {
    || HasName(p.request.ordered, name)
    || (HasName(p.client.ordered, name) && Fold(name) !in NameFolds(p.request.headers))
  }

  /** compileOrderedHeaders. */
  method Compile(p: D.Plan, names: seq<Text>) returns (ordered: Option<Ordered>)
    requires D.ValidPlan(p) && FoldSet(names) == NameFolds(p.request.headers)
    ensures ordered.Some? ==> FoldUnique(ordered.value)
    ensures forall name :: (ordered.Some? && Names(ordered.value, name)) <==> Listed(p, name)
    ensures ordered.Some? && p.request.ordered.Some? ==>
              ordered.value == Prune(if p.client.ordered.Some? then Unnamed(p.client.ordered.value, p.request.ordered.value) else [],
                                     names, p.request.ordered) + p.request.ordered.value
  {
    ordered := MergeOption(p.client.ordered, p.request.ordered);
    ghost var merged := ordered;
    if ordered.Some? && |p.request.headers| > 0 {
      var o := ordered.value;
      for i := 0 to |names|
        invariant FoldUnique(o)
        invariant Prune(o, names[i..], p.request.ordered) == Prune(merged.value, names, p.request.ordered)
      {
        assert names[i..][1..] == names[i + 1..];
        DropUnique(o, names[i]);
        if !HasName(p.request.ordered, names[i]) {
          DeleteDrops(o, names[i]);
          o := DeleteName(o, names[i]);
        }
      }
      ordered := if o == [] then None else Some(o);
    }
    NoFolds(names);
    CompiledMeaning(p, names, merged, ordered);
  }

  lemma NoFolds(names: seq<Text>)
    ensures FoldSet(names) == {} <==> names == []
  {
    if names != [] {
      assert Fold(names[0]) in FoldSet(names);
    }
  }

  lemma CompiledMeaning(p: D.Plan, names: seq<Text>, merged: Option<Ordered>, ordered: Option<Ordered>)
    requires FoldSet(names) == NameFolds(p.request.headers)
    requires merged == MergedOption(p.client.ordered, p.request.ordered)
    requires merged.None? ==> ordered.None?
    requires merged.Some? && ordered.Some? ==> ordered.value == Prune(merged.value, names, p.request.ordered)
    requires merged.Some? && ordered.None? ==> Prune(merged.value, names, p.request.ordered) == []
    ensures forall name :: (ordered.Some? && Names(ordered.value, name)) <==> Listed(p, name)
    ensures ordered.Some? && p.request.ordered.Some? ==>
              ordered.value == Prune(if p.client.ordered.Some? then Unnamed(p.client.ordered.value, p.request.ordered.value) else [],
                                     names, p.request.ordered) + p.request.ordered.value
  {
    forall name
      ensures (ordered.Some? && Names(ordered.value, name)) <==> Listed(p, name)
    {
      MergedNames(p, merged, name);
      if merged.Some? {
        PruneNames(merged.value, names, p.request.ordered, name);
      }
    }
    if ordered.Some? && p.request.ordered.Some? {
      var kept := if p.client.ordered.Some? then Unnamed(p.client.ordered.value, p.request.ordered.value) else [];
      assert merged.value == kept + p.request.ordered.value;
      PruneKeepsRequest(kept, names, p.request.ordered.value);
    }
  }

  lemma MergedNames(p: D.Plan, merged: Option<Ordered>, name: Text)
    requires merged == MergedOption(p.client.ordered, p.request.ordered)
    ensures (merged.Some? && Names(merged.value, name)) <==>
            HasName(p.request.ordered, name) || HasName(p.client.ordered, name)
  {
    var c, r := p.client.ordered, p.request.ordered;
    if c.Some? { NamesIffHas(c.value, name); }
    if r.Some? { NamesIffHas(r.value, name); }
    if c.Some? && r.Some? {
      UnnamedNames(c.value, r.value, name);
      NamesConcat(Unnamed(c.value, r.value), r.value, name);
    }
  }

  // ------------------------------------------------------- meaning of the sync

  lemma {:induction false} SyncedFolds(o: Ordered, semantic: HeaderMap, name: Text)
    requires !Names(o, name)
    ensures !Names(Synced(o, semantic), name)
  {
    if o == [] {
    } else {
      var front, last := o[..|o| - 1], o[|o| - 1];
      assert o == front + [last];
      NamesSnoc(front, last, name);
      SyncedFolds(front, semantic, name);
      NamesConcat(Synced(front, semantic), SyncedEntry(last, semantic), name);
    }
  }

  lemma {:induction false} SyncedUnique(o: Ordered, semantic: HeaderMap)
    requires FoldUnique(o)
    ensures FoldUnique(Synced(o, semantic))
  {
    if o == [] {
    } else {
      var front, last := o[..|o| - 1], o[|o| - 1];
      SyncedUnique(front, semantic);
      LastIsNew(o);
      SyncedFolds(front, semantic, last.key);
    }
  }

  lemma LastIsNew(o: Ordered)
    requires FoldUnique(o) && o != []
    ensures FoldUnique(o[..|o| - 1]) && !Names(o[..|o| - 1], o[|o| - 1].key)
  {
  }

  lemma SyncedEntryValues(e: Entry, semantic: HeaderMap, name: Text)
    requires IsToken(name)
    ensures OrderedValues(SyncedEntry(e, semantic), name) == if EqualFold(e.key, name) then HeaderValues(semantic, name) else []
  {
    var s := SyncedEntry(e, semantic);
    assert s != [] ==> s[1..] == [];
    if EqualFold(e.key, name) {
      TokenIsNotPseudo(e.key, name);
      CanonicalEqualsIffFold(name, e.key);
    }
  }

  /** A synced object holds, for every name it lists, the semantic values. */
  lemma {:induction false} SyncedValues(o: Ordered, semantic: HeaderMap, name: Text)
    requires FoldUnique(o) && IsToken(name)
    ensures OrderedValues(Synced(o, semantic), name) == if Names(o, name) then HeaderValues(semantic, name) else []
  {
    if o == [] {
    } else {
      var front, last := o[..|o| - 1], o[|o| - 1];
      assert o == front + [last];
      LastIsNew(o);
      NamesSnoc(front, last, name);
      SyncedValues(front, semantic, name);
      SyncedEntryValues(last, semantic, name);
      OrderedValuesConcat(Synced(front, semantic), SyncedEntry(last, semantic), name);
      OneSide([], HeaderValues(semantic, name), Names(front, name));
      if EqualFold(last.key, name) {
        assert !Names(front, name) by { SameNames(front, last.key, name); }
      }
    }
  }

  lemma SameNames(o: Ordered, a: Text, b: Text)
    requires EqualFold(a, b)
    ensures Names(o, a) <==> Names(o, b)
  {
  }

  // ------------------------------------------------- the metadata of a delivery

  lemma NamesByKeys(o: Ordered, name: Text)
    ensures Names(o, name) <==> Fold(name) in FoldSet(Keys(o))
  {
    if Names(o, name) {
      var i :| 0 <= i < |o| && EqualFold(o[i].key, name);
      assert Keys(o)[i] == o[i].key;
    }
  }

  lemma SetValuesNames(o: Ordered, key: Text, values: seq<Text>, name: Text)
    requires FoldUnique(o)
    ensures Names(SetValues(o, key, values), name) <==> Names(o, name) || EqualFold(key, name)
  {
    SetValuesKeys(o, key, values);
    NamesByKeys(SetValues(o, key, values), name);
    NamesByKeys(o, name);
    if IndexOfFold(o, key) < |o| {
      assert EqualFold(key, name) ==> Names(o, name);
    } else {
      FoldSetSnoc(Keys(o), key);
    }
  }

  lemma FoldSetSnoc(keys: seq<Text>, key: Text)
    ensures FoldSet(keys + [key]) == FoldSet(keys) + {Fold(key)}
  {
    var all := keys + [key];
    forall f | f in FoldSet(keys)
      ensures f in FoldSet(all)
    {
      var i :| 0 <= i < |keys| && f == Fold(keys[i]);
      assert all[i] == keys[i];
    }
    assert all[|keys|] == key;
  }

  /** A name has a place in the delivered metadata when the plan gives it one; a
      generated Content-Type has one exactly when the request orders headers. */
  predicate Placed(plan: Option<Ordered>, requestOrders: bool, generatedType: Text, name: Text) {
    if generatedType != [] && EqualFold(CONTENT_TYPE, name) then requestOrders
    else plan.Some? && Names(plan.value, name)
  }

  /** The ordered part of applyPlanAuthAndHeaders. `generatedType` is empty when
      no Content-Type is generated, and `sent` is the header being delivered. The
      metadata carries the values on the wire for exactly the placed names. */
  method DeliverOrdered(plan: Option<Ordered>, requestOrders: bool, generatedType: Text, sent: HeaderMap)
    returns (r: Option<Ordered>)
    requires UniqueOption(plan)
    ensures UniqueOption(r)
    ensures forall name :: IsToken(name) ==>
              (if r.Some? then OrderedValues(r.value, name) else []) ==
              if Placed(plan, requestOrders, generatedType, name) then HeaderValues(sent, name) else []
  {
    var placed := PlaceGenerated(plan, requestOrders, generatedType);
    if placed.Some? && placed.value == [] {
      placed := None;
    }
    r := placed;
    if placed.Some? {
      var synced := SyncOrdered(placed.value, sent);
      r := Some(synced);
      SyncedUnique(placed.value, sent);
      forall name | IsToken(name)
        ensures OrderedValues(synced, name) ==
                if Placed(plan, requestOrders, generatedType, name) then HeaderValues(sent, name) else []
      {
        SyncedValues(placed.value, sent, name);
      }
    }
  }

  method PlaceGenerated(plan: Option<Ordered>, requestOrders: bool, generatedType: Text) returns (r: Option<Ordered>)
    requires UniqueOption(plan)
    ensures UniqueOption(r)
    ensures forall name :: (r.Some? && Names(r.value, name)) <==> Placed(plan, requestOrders, generatedType, name)
  {
    r := plan;
    if generatedType == [] {
      return;
    }
    var key, o := CONTENT_TYPE, if plan.Some? then plan.value else [];
    if requestOrders {
      r := Some(SetValues(o, key, [generatedType]));
      SetValuesMeaning(o, key, [generatedType], key);
      forall name
        ensures Names(r.value, name) <==> Placed(plan, requestOrders, generatedType, name)
      {
        SetValuesNames(o, key, [generatedType], name);
      }
    } else if plan.Some? {
      r := Some(DeleteName(o, key));
      DeleteNameMeaning(o, key, key);
      DeleteDrops(o, key);
      forall name
        ensures Names(r.value, name) <==> Placed(plan, requestOrders, generatedType, name)
      {
        DropNames(o, key, name);
      }
    }
  }
}
