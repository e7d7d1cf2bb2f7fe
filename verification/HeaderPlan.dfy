/** Two computations of one meaning: the header list a plan compiles from the
    client and request layers, and the `http.Header` that delivery builds by
    overlaying the same layers (request_plan.go, ordered_headers.go, request.go). */
module HeaderPlan {
  import opened Base
  import opened Headers
  import opened Sorting
  import opened OrderedHeaders
  import Builder

  type HeaderMap = map<Text, seq<Text>>

  /** http.Header.Values. */
  function HeaderValues(m: HeaderMap, name: Text): seq<Text> {
    if Canonical(name) in m then m[Canonical(name)] else []
  }

  /** http.Header.Add. */
  function HeaderAdd(m: HeaderMap, name: Text, value: Text): HeaderMap {
    m[Canonical(name) := HeaderValues(m, name) + [value]]
  }

  function HeaderSet(m: HeaderMap, name: Text, value: Text): HeaderMap {
    m[Canonical(name) := [value]]
  }

  /** deleteHeaderValues: Del, then every key equal up to case. */
  function HeaderDelete(m: HeaderMap, name: Text): HeaderMap {
    map k | k in m && k != Canonical(name) && !EqualFold(k, name) :: m[k]
  }

  predicate CanonicalKeys(m: HeaderMap) {
    forall k :: k in m ==> Canonical(k) == k
  }

  lemma CanonicalIdempotent(name: Text)
    ensures Canonical(Canonical(name)) == Canonical(name)
  {
    CanonicalKeepsFold(name);
    if IsToken(name) {
      FoldDeterminesCanonical(name, Canonical(name));
    }
  }

  lemma HeaderAddMeaning(m: HeaderMap, key: Text, value: Text, name: Text)
    requires IsToken(name)
    ensures HeaderValues(HeaderAdd(m, key, value), name) ==
            HeaderValues(m, name) + if EqualFold(key, name) then [value] else []
  {
    CanonicalEqualsIffFold(name, key);
  }

  lemma HeaderSetMeaning(m: HeaderMap, key: Text, value: Text, name: Text)
    requires IsToken(name)
    ensures HeaderValues(HeaderSet(m, key, value), name) ==
            if EqualFold(key, name) then [value] else HeaderValues(m, name)
  {
    CanonicalEqualsIffFold(name, key);
  }

  lemma HeaderDeleteMeaning(m: HeaderMap, key: Text, name: Text)
    requires IsToken(name)
    ensures HeaderValues(HeaderDelete(m, key), name) == if EqualFold(key, name) then [] else HeaderValues(m, name)
  {
    CanonicalKeepsFold(name);
    CanonicalKeepsFold(key);
  }

  // --------------------------------------------------- the plan's header list

  function NameFolds(occs: seq<Occurrence>): set<Text> {
    set i | 0 <= i < |occs| :: Fold(occs[i].name)
  }

  /** mergePlanHeaderOccurrences: request names override client names. */
  method MergeOccurrences(client: seq<Occurrence>, request: seq<Occurrence>) returns (merged: seq<Occurrence>)
    ensures merged == Without(client, NameFolds(request)) + request
  {
    var names: set<Text> := {};
    for i := 0 to |request|
      invariant names == set j | 0 <= j < i :: Fold(request[j].name)
    {
      names := names + {Fold(request[i].name)};
    }
    var kept: seq<Occurrence> := client;
    if |names| > 0 {
      kept := [];
      for i := 0 to |client|
        invariant kept == Without(client[..i], names)
      {
        assert client[..i + 1] == client[..i] + [client[i]];
        WithoutConcat(client[..i], [client[i]], names);
        assert [client[i]][1..] == [];
        if Fold(client[i].name) !in names {
          kept := kept + [client[i]];
        }
      }
      assert client[..|client|] == client;
    } else {
      WithoutNone(client);
      assert names == {};
    }
    merged := kept + request;
  }

  lemma {:induction false} WithoutNone(occs: seq<Occurrence>)
    ensures Without(occs, {}) == occs
  {
    if occs == [] {
    } else {
      WithoutNone(occs[1..]);
    }
  }

  lemma {:induction false} ValuesPresent(occs: seq<Occurrence>, name: Text)
    ensures ValuesOf(occs, name) != [] <==> Fold(name) in NameFolds(occs)
  {
    if occs == [] {
    } else {
      ValuesPresent(occs[1..], name);
      forall f | f in NameFolds(occs)
        ensures f == Fold(occs[0].name) || f in NameFolds(occs[1..])
      {
        var i :| 0 <= i < |occs| && f == Fold(occs[i].name);
        if i > 0 { assert occs[1..][i - 1] == occs[i]; }
      }
    }
  }

  /** The plan's effective values of a name: the request layer, else the client. */
  lemma MergedValues(client: seq<Occurrence>, request: seq<Occurrence>, name: Text)
    ensures ValuesOf(Without(client, NameFolds(request)) + request, name) ==
            if ValuesOf(request, name) != [] then ValuesOf(request, name) else ValuesOf(client, name)
  {
    ValuesOfConcat(Without(client, NameFolds(request)), request, name);
    ValuesOfWithout(client, NameFolds(request), name);
    ValuesPresent(request, name);
  }

  /** The same with the disclosure tags. */
  lemma MergedTags(client: seq<Occurrence>, request: seq<Occurrence>, name: Text)
    ensures Tagged(Without(client, NameFolds(request)) + request, name) ==
            if Tagged(request, name) != [] then Tagged(request, name) else Tagged(client, name)
  {
    TaggedConcat(Without(client, NameFolds(request)), request, name);
    TaggedWithout(client, NameFolds(request), name);
    ValuesPresent(request, name);
    TaggedRaw(request, name);
  }

  /** isCredentialRequestHeader. */
  predicate Credential(name: Text) {
    EqualFold(name, AUTHORIZATION) || EqualFold(name, PROXY_AUTHORIZATION)
  }

  function Sealed(o: Occurrence): Occurrence {
    if Credential(o.name) then Named(o.name, Private(o.value.raw)) else o
  }

  function Seal(occs: seq<Occurrence>): seq<Occurrence> {
    seq(|occs|, i requires 0 <= i < |occs| => Sealed(occs[i]))
  }

  /** The plan's headers: the merged ones, with every credential private. */
  function Planned(client: seq<Occurrence>, request: seq<Occurrence>): seq<Occurrence> {
    Seal(Without(client, NameFolds(request)) + request)
  }

  /** The loop over the merged headers that takes the tags off credentials. */
  method SealCredentials(headers: seq<Occurrence>) returns (sealed: seq<Occurrence>)
    ensures sealed == Seal(headers)
  {
    sealed := headers;
    for i := 0 to |headers|
      invariant |sealed| == |headers|
      invariant forall k :: 0 <= k < i ==> sealed[k] == Sealed(headers[k])
      invariant forall k :: i <= k < |headers| ==> sealed[k] == headers[k]
    {
      if EqualFold(headers[i].name, AUTHORIZATION) || EqualFold(headers[i].name, PROXY_AUTHORIZATION) {
        sealed := sealed[i := Named(headers[i].name, Private(headers[i].value.raw))];
      }
    }
  }

  lemma {:induction false} SealMeaning(occs: seq<Occurrence>, name: Text)
    ensures ValuesOf(Seal(occs), name) == ValuesOf(occs, name)
    ensures Tagged(Seal(occs), name) == if Credential(name) then Privates(ValuesOf(occs, name)) else Tagged(occs, name)
  {
    if occs == [] {
    } else {
      assert Seal(occs)[0] == Sealed(occs[0]) && Seal(occs)[1..] == Seal(occs[1..]);
      SealMeaning(occs[1..], name);
      PrivatesCons(if EqualFold(occs[0].name, name) then [occs[0].value.raw] else [], ValuesOf(occs[1..], name));
    }
  }

  lemma PrivatesCons(a: seq<Text>, b: seq<Text>)
    requires |a| <= 1
    ensures Privates(a + b) == (if a == [] then [] else [Private(a[0])]) + Privates(b)
  {
  }

  /** What the plan holds under a name: the request's values, else the client's, with
      their tags unless the name is that of a credential. */
  lemma PlannedMeaning(client: seq<Occurrence>, request: seq<Occurrence>, name: Text)
    ensures
      var source := if ValuesOf(request, name) != [] then request else client;
      && ValuesOf(Planned(client, request), name) == ValuesOf(source, name)
      && Tagged(Planned(client, request), name) ==
         if Credential(name) then Privates(ValuesOf(source, name)) else Tagged(source, name)
  {
    MergedValues(client, request, name);
    MergedTags(client, request, name);
    TaggedRaw(request, name);
    SealMeaning(Without(client, NameFolds(request)) + request, name);
  }

  // -------------------------------------------- the header that delivery sends

  /** requestOccurrencesHeaderValues, continued from a header built so far. */
  function Collect(m: HeaderMap, occs: seq<Occurrence>): HeaderMap
    decreases |occs|
  {
    if occs == [] then m else Collect(HeaderAdd(m, occs[0].name, occs[0].value.raw), occs[1..])
  }

  lemma {:induction false} CollectMeaning(m: HeaderMap, occs: seq<Occurrence>, name: Text)
    requires IsToken(name)
    ensures HeaderValues(Collect(m, occs), name) == HeaderValues(m, name) + ValuesOf(occs, name)
    decreases |occs|
  {
    if occs == [] {
    } else {
      HeaderAddMeaning(m, occs[0].name, occs[0].value.raw, name);
      CollectMeaning(HeaderAdd(m, occs[0].name, occs[0].value.raw), occs[1..], name);
      var head := if EqualFold(occs[0].name, name) then [occs[0].value.raw] else [];
      ConcatAssociates(HeaderValues(m, name), head, ValuesOf(occs[1..], name));
    }
  }

  lemma {:induction false} CollectKeys(m: HeaderMap, occs: seq<Occurrence>)
    requires CanonicalKeys(m)
    ensures CanonicalKeys(Collect(m, occs))
    decreases |occs|
  {
    if occs == [] {
    } else {
      CanonicalIdempotent(occs[0].name);
      CollectKeys(HeaderAdd(m, occs[0].name, occs[0].value.raw), occs[1..]);
    }
  }

  method CollectHeader(occs: seq<Occurrence>) returns (m: HeaderMap)
    ensures m == Collect(map[], occs)
  {
    m := map[];
    for i := 0 to |occs|
      invariant Collect(m, occs[i..]) == Collect(map[], occs)
    {
      assert occs[i..][1..] == occs[i + 1..];
      m := HeaderAdd(m, occs[i].name, occs[i].value.raw);
    }
  }

  lemma StoredIffMatch(o: Ordered, name: Text)
    ensures StoredKey(o, name).Some? <==> IndexOfFold(o, name) < |o|
  {
  }

  lemma HasNameByFold(o: Option<Ordered>, a: Text, b: Text)
    requires EqualFold(a, b)
    ensures HasName(o, a) <==> HasName(o, b)
  {
    if o.Some? {
      StoredIffMatch(o.value, a);
      StoredIffMatch(o.value, b);
      SameIndex(o.value, a, b);
    }
  }

  lemma TokenIsNotPseudo(key: Text, name: Text)
    requires IsToken(name) && EqualFold(key, name)
    ensures !IsPseudo(key)
  {
    FoldKeepsToken(name, key);
  }

  function AddAll(m: HeaderMap, key: Text, values: seq<Text>): HeaderMap
    decreases |values|
  {
    if values == [] then m else AddAll(HeaderAdd(m, key, values[0]), key, values[1..])
  }

  lemma {:induction false} AddAllMeaning(m: HeaderMap, key: Text, values: seq<Text>, name: Text)
    requires IsToken(name)
    ensures HeaderValues(AddAll(m, key, values), name) ==
            HeaderValues(m, name) + if EqualFold(key, name) then values else []
    decreases |values|
  {
    if values == [] {
    } else {
      HeaderAddMeaning(m, key, values[0], name);
      AddAllMeaning(HeaderAdd(m, key, values[0]), key, values[1..], name);
      assert values == [values[0]] + values[1..];
      ConcatAssociates(HeaderValues(m, name), [values[0]], values[1..]);
    }
  }

  /** addOrderedHeaders: pseudo headers are skipped. */
  function AddOrdered(m: HeaderMap, o: Ordered): HeaderMap
    decreases |o|
  {
    if o == [] then m
    else AddOrdered(if IsPseudo(o[0].key) then m else AddAll(m, o[0].key, o[0].values), o[1..])
  }

  /** What one ordered entry adds to a field name: pseudo headers never match one. */
  lemma AddEntryMeaning(m: HeaderMap, e: Entry, name: Text)
    requires IsToken(name)
    ensures HeaderValues(if IsPseudo(e.key) then m else AddAll(m, e.key, e.values), name) ==
            HeaderValues(m, name) + if EqualFold(e.key, name) then e.values else []
  {
    AddAllMeaning(m, e.key, e.values, name);
    if EqualFold(e.key, name) {
      TokenIsNotPseudo(e.key, name);
    }
  }

  lemma {:induction false} AddOrderedMeaning(m: HeaderMap, o: Ordered, name: Text)
    requires IsToken(name)
    ensures HeaderValues(AddOrdered(m, o), name) == HeaderValues(m, name) + OrderedValues(o, name)
    decreases |o|
  {
    if o == [] {
    } else {
      var next := if IsPseudo(o[0].key) then m else AddAll(m, o[0].key, o[0].values);
      AddEntryMeaning(m, o[0], name);
      AddOrderedMeaning(next, o[1..], name);
      var head := if EqualFold(o[0].key, name) then o[0].values else [];
      ConcatAssociates(HeaderValues(m, name), head, OrderedValues(o[1..], name));
    }
  }

  /** One iteration order of a Go map. */
  ghost predicate IterationOrder(order: seq<Text>, keys: set<Text>) {
    && (forall i :: 0 <= i < |order| ==> order[i] in keys)
    && (forall k :: k in keys ==> k in order)
    && (forall i, j :: 0 <= i < j < |order| ==> order[i] != order[j])
  }

  /** The second loop of addHeaderValues: names the ordered object lacks. */
  function AddUnordered(m: HeaderMap, src: HeaderMap, ordered: Option<Ordered>, order: seq<Text>): HeaderMap
    requires forall i :: 0 <= i < |order| ==> order[i] in src
    decreases |order|
  {
    if order == [] then m
    else AddUnordered(if HasName(ordered, order[0]) then m else AddAll(m, order[0], src[order[0]]),
                      src, ordered, order[1..])
  }

  /** A key of a collected header names a header exactly when it is its canonical form. */
  lemma KeyNamesHeader(src: HeaderMap, k: Text, name: Text)
    requires IsToken(name) && CanonicalKeys(src) && k in src
    ensures EqualFold(k, name) <==> k == Canonical(name)
  {
    CanonicalEqualsIffFold(name, k);
  }

  /** One step of that loop adds to a name exactly when its key is the name's
      canonical form and the ordered object lacks the name. */
  lemma UnorderedStep(m: HeaderMap, src: HeaderMap, ordered: Option<Ordered>, k: Text, name: Text)
    requires IsToken(name) && CanonicalKeys(src) && k in src
    ensures HeaderValues(if HasName(ordered, k) then m else AddAll(m, k, src[k]), name) ==
            if k == Canonical(name) && !HasName(ordered, name) then HeaderValues(m, name) + src[k]
            else HeaderValues(m, name)
  {
    AddAllMeaning(m, k, src[k], name);
    KeyNamesHeader(src, k, name);
    if EqualFold(k, name) {
      HasNameByFold(ordered, k, name);
    }
  }

  lemma {:induction false} AddUnorderedSkips(m: HeaderMap, src: HeaderMap, ordered: Option<Ordered>, order: seq<Text>, name: Text)
    requires IsToken(name) && CanonicalKeys(src)
    requires forall i :: 0 <= i < |order| ==> order[i] in src
    requires Canonical(name) !in order || HasName(ordered, name)
    ensures HeaderValues(AddUnordered(m, src, ordered, order), name) == HeaderValues(m, name)
    decreases |order|
  {
    if order == [] {
    } else {
      var k := order[0];
      var next := if HasName(ordered, k) then m else AddAll(m, k, src[k]);
      UnorderedStep(m, src, ordered, k, name);
      AddUnorderedSkips(next, src, ordered, order[1..], name);
    }
  }

  lemma {:induction false} AddUnorderedAdds(m: HeaderMap, src: HeaderMap, ordered: Option<Ordered>, order: seq<Text>, name: Text)
    requires IsToken(name) && CanonicalKeys(src)
    requires forall i :: 0 <= i < |order| ==> order[i] in src
    requires forall i, j :: 0 <= i < j < |order| ==> order[i] != order[j]
    requires Canonical(name) in order && !HasName(ordered, name)
    ensures HeaderValues(AddUnordered(m, src, ordered, order), name) == HeaderValues(m, name) + HeaderValues(src, name)
    decreases |order|
  {
    var k := order[0];
    var next := if HasName(ordered, k) then m else AddAll(m, k, src[k]);
    UnorderedStep(m, src, ordered, k, name);
    if k == Canonical(name) {
      AddUnorderedSkips(next, src, ordered, order[1..], name);
    } else {
      AddUnorderedAdds(next, src, ordered, order[1..], name);
    }
  }

  /** The values one layer contributes: its ordered entry when it has one. */
  function LayerValues(src: HeaderMap, ordered: Option<Ordered>, name: Text): seq<Text> {
    if HasName(ordered, name) then OrderedValues(ordered.value, name) else HeaderValues(src, name)
  }

  function AddLayer(m: HeaderMap, src: HeaderMap, ordered: Option<Ordered>, order: seq<Text>): HeaderMap
    requires forall i :: 0 <= i < |order| ==> order[i] in src
  {
    AddUnordered(if ordered.Some? then AddOrdered(m, ordered.value) else m, src, ordered, order)
  }

  /** The ordered part of a layer, for any field name. */
  lemma OrderedPartMeaning(m: HeaderMap, ordered: Option<Ordered>, name: Text)
    requires IsToken(name)
    ensures HeaderValues(if ordered.Some? then AddOrdered(m, ordered.value) else m, name) ==
            HeaderValues(m, name) + if HasName(ordered, name) then OrderedValues(ordered.value, name) else []
  {
    if ordered.Some? {
      AddOrderedMeaning(m, ordered.value, name);
      if !HasName(ordered, name) {
        StoredIffMatch(ordered.value, name);
        NoMatchNoValues(ordered.value, name);
      }
    }
  }

  lemma UnorderedPartMeaning(m: HeaderMap, src: HeaderMap, ordered: Option<Ordered>, order: seq<Text>, name: Text)
    requires IsToken(name) && CanonicalKeys(src) && IterationOrder(order, src.Keys)
    ensures HeaderValues(AddUnordered(m, src, ordered, order), name) ==
            HeaderValues(m, name) + if HasName(ordered, name) then [] else HeaderValues(src, name)
  {
    if HasName(ordered, name) || Canonical(name) !in src {
      AddUnorderedSkips(m, src, ordered, order, name);
    } else {
      assert Canonical(name) in src.Keys;
      AddUnorderedAdds(m, src, ordered, order, name);
    }
  }

  lemma AddLayerMeaning(m: HeaderMap, src: HeaderMap, ordered: Option<Ordered>, order: seq<Text>, name: Text)
    requires IsToken(name) && CanonicalKeys(src) && IterationOrder(order, src.Keys)
    ensures HeaderValues(AddLayer(m, src, ordered, order), name) ==
            HeaderValues(m, name) + LayerValues(src, ordered, name)
  {
    var first := if ordered.Some? then AddOrdered(m, ordered.value) else m;
    OrderedPartMeaning(m, ordered, name);
    UnorderedPartMeaning(first, src, ordered, order, name);
    OneSide(HeaderValues(m, name), LayerValues(src, ordered, name), HasName(ordered, name));
  }

  /** addHeaderValues. */
  method AddHeaderValues(dst: HeaderMap, src: HeaderMap, ordered: Option<Ordered>, order: seq<Text>) returns (m: HeaderMap)
    requires forall i :: 0 <= i < |order| ==> order[i] in src
    ensures m == AddLayer(dst, src, ordered, order)
  {
    m := dst;
    if ordered.Some? {
      var o := ordered.value;
      for i := 0 to |o|
        invariant AddOrdered(m, o[i..]) == AddOrdered(dst, o)
      {
        assert o[i..][1..] == o[i + 1..];
        if !IsPseudo(o[i].key) {
          m := AddEach(m, o[i].key, o[i].values);
        }
      }
    }
    ghost var first := m;
    for i := 0 to |order|
      invariant AddUnordered(m, src, ordered, order[i..]) == AddUnordered(first, src, ordered, order)
    {
      assert order[i..][1..] == order[i + 1..];
      if !HasName(ordered, order[i]) {
        m := AddEach(m, order[i], src[order[i]]);
      }
    }
  }

  method AddEach(dst: HeaderMap, key: Text, values: seq<Text>) returns (m: HeaderMap)
    ensures m == AddAll(dst, key, values)
  {
    m := dst;
    for i := 0 to |values|
      invariant AddAll(m, key, values[i..]) == AddAll(dst, key, values)
    {
      assert values[i..][1..] == values[i + 1..];
      m := HeaderAdd(m, key, values[i]);
    }
  }

  // ----------------------------------------------------------------- overlay

  function DeleteEach(m: HeaderMap, names: seq<Text>): HeaderMap
    decreases |names|
  {
    if names == [] then m else DeleteEach(HeaderDelete(m, names[0]), names[1..])
  }

  lemma {:induction false} DeleteEachMeaning(m: HeaderMap, names: seq<Text>, name: Text)
    requires IsToken(name)
    ensures HeaderValues(DeleteEach(m, names), name) ==
            if Fold(name) in FoldSet(names) then [] else HeaderValues(m, name)
    decreases |names|
  {
    if names == [] {
    } else {
      HeaderDeleteMeaning(m, names[0], name);
      DeleteEachMeaning(HeaderDelete(m, names[0]), names[1..], name);
      Builder.FoldSetSplit(names);
    }
  }

  function OrderedKeys(ordered: Option<Ordered>): seq<Text> {
    if ordered.Some? then Keys(ordered.value) else []
  }

  function Overlay(m: HeaderMap, src: HeaderMap, ordered: Option<Ordered>, order: seq<Text>): HeaderMap
    requires forall i :: 0 <= i < |order| ==> order[i] in src
  {
    AddLayer(DeleteEach(DeleteEach(m, order), OrderedKeys(ordered)), src, ordered, order)
  }

  method DeleteAll(dst: HeaderMap, names: seq<Text>) returns (m: HeaderMap)
    ensures m == DeleteEach(dst, names)
  {
    m := dst;
    for i := 0 to |names|
      invariant DeleteEach(m, names[i..]) == DeleteEach(dst, names)
    {
      assert names[i..][1..] == names[i + 1..];
      m := HeaderDelete(m, names[i]);
    }
  }

  /** overlayHeaderValues. */
  method OverlayHeaderValues(dst: HeaderMap, src: HeaderMap, ordered: Option<Ordered>, order: seq<Text>) returns (m: HeaderMap)
    requires forall i :: 0 <= i < |order| ==> order[i] in src
    ensures m == Overlay(dst, src, ordered, order)
  {
    m := DeleteAll(dst, order);
    m := DeleteAll(m, OrderedKeys(ordered));
    m := AddHeaderValues(m, src, ordered, order);
  }

  lemma OrderedKeysFold(ordered: Option<Ordered>, name: Text)
    ensures Fold(name) in FoldSet(OrderedKeys(ordered)) <==> HasName(ordered, name)
  {
    if ordered.Some? {
      var o := ordered.value;
      StoredIffMatch(o, name);
      var i := IndexOfFold(o, name);
      if i < |o| {
        assert Keys(o)[i] == o[i].key;
      }
    }
  }

  lemma SourceKeysFold(src: HeaderMap, order: seq<Text>, name: Text)
    requires IsToken(name) && CanonicalKeys(src) && IterationOrder(order, src.Keys)
    ensures Fold(name) in FoldSet(order) <==> Canonical(name) in src
  {
    CanonicalKeepsFold(name);
    if Canonical(name) in src {
      var i :| 0 <= i < |order| && order[i] == Canonical(name);
      assert Fold(order[i]) in FoldSet(order);
    }
    if Fold(name) in FoldSet(order) {
      var i :| 0 <= i < |order| && Fold(order[i]) == Fold(name);
      CanonicalEqualsIffFold(name, order[i]);
      assert order[i] in src.Keys;
    }
  }

  lemma ClearedMeaning(m: HeaderMap, src: HeaderMap, ordered: Option<Ordered>, order: seq<Text>, name: Text)
    requires IsToken(name) && CanonicalKeys(src) && IterationOrder(order, src.Keys)
    ensures HeaderValues(DeleteEach(DeleteEach(m, order), OrderedKeys(ordered)), name) ==
            if Canonical(name) in src || HasName(ordered, name) then [] else HeaderValues(m, name)
  {
    DeleteEachMeaning(m, order, name);
    DeleteEachMeaning(DeleteEach(m, order), OrderedKeys(ordered), name);
    OrderedKeysFold(ordered, name);
    SourceKeysFold(src, order, name);
  }

  /** Overlaying replaces exactly the names that the layer holds. */
  lemma OverlayMeaning(m: HeaderMap, src: HeaderMap, ordered: Option<Ordered>, order: seq<Text>, name: Text)
    requires IsToken(name) && CanonicalKeys(src) && IterationOrder(order, src.Keys)
    ensures HeaderValues(Overlay(m, src, ordered, order), name) ==
            if Canonical(name) in src || HasName(ordered, name) then LayerValues(src, ordered, name)
            else HeaderValues(m, name)
  {
    ClearedMeaning(m, src, ordered, order, name);
    AddLayerMeaning(DeleteEach(DeleteEach(m, order), OrderedKeys(ordered)), src, ordered, order, name);
  }
}
