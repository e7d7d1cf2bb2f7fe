/** Two computations of the request query: the tagged occurrences a plan
    compiles, and the raw query of the URL that delivery uses
    (request_plan.go, request.go). */
module QueryPlan {
  import opened Base
  import opened Headers
  import opened Sorting
  import opened Escaping

  /** A parsed request target: whether it is absolute, and its raw query. The
      base URL, when configured, is represented by its raw query. */
  datatype Target = Target(absolute: bool, rawQuery: Text)

  datatype QueryError = MalformedQuery

  function Tag(values: seq<Text>): seq<Value> {
    if values == [] then [] else [Private(values[0])] + Tag(values[1..])
  }

  function Raw(values: seq<Value>): seq<Text> {
    if values == [] then [] else [values[0].raw] + Raw(values[1..])
  }

  function Privates(ps: seq<Pair>): seq<Occurrence> {
    if ps == [] then [] else [Named(ps[0].name, Private(ps[0].value))] + Privates(ps[1..])
  }

  function RawPairs(occs: seq<Occurrence>): seq<Pair> {
    if occs == [] then [] else [Named(occs[0].name, occs[0].value.raw)] + RawPairs(occs[1..])
  }

  /** appendPrivateQueryValues: sorted names, all values private. */
  function PrivateLayer(m: Values): seq<Occurrence> {
    Privates(Flatten(m, SortedKeys(m.Keys)))
  }

  // --------------------------------------------------------------- the plan

  /** compileQueryOccurrences. */
  function Compile(base: Option<Text>, target: Target, builder: seq<Occurrence>)
    : Result<seq<Occurrence>, QueryError>
  {
    var parsed := ParseQuery(target.rawQuery);
    if !parsed.ok && (!target.absolute || builder != []) then Failure(MalformedQuery)
    else
      var request := if parsed.ok then Group(map[], parsed.pairs) else map[];
      var layers :=
        if target.absolute || base.None? then PrivateLayer(request)
        else PrivateLayer(Query(base.value)) + PrivateLayer(request);
      Success(Sort(layers + builder))
  }

  // ------------------------------------------------------------ the delivery

  function Merge(m: Values, more: Values): Values {
    map k | k in m.Keys + more.Keys :: Get(m, k) + Get(more, k)
  }

  /** addQueryValues: an empty addition leaves the raw query as it is. */
  function AddQuery(raw: Text, more: Values): Text {
    if more == map[] then raw else Encode(Merge(Query(raw), more))
  }

  /** resolveRequestURL, as far as the query goes. */
  function Resolve(base: Option<Text>, target: Target, builder: Values): Result<Text, QueryError> {
    var parsed := ParseQuery(target.rawQuery);
    if target.absolute || base.None? then
      if builder != map[] && !parsed.ok then Failure(MalformedQuery)
      else Success(AddQuery(target.rawQuery, builder))
    else if !parsed.ok then Failure(MalformedQuery)
    else Success(AddQuery(AddQuery(base.value, Group(map[], parsed.pairs)), builder))
  }

  function Restrict(m: Values, keys: set<Text>): Values {
    map k | k in m && k in keys :: m[k]
  }

  lemma MergeGet(m: Values, more: Values, done: set<Text>, key: Text)
    ensures Get(Merge(m, Restrict(more, done)), key) == Get(m, key) + if key in done then Get(more, key) else []
  {
  }

  lemma MergeStep(m: Values, more: Values, done: set<Text>, key: Text)
    requires key in more && key !in done
    ensures
      var query := Merge(m, Restrict(more, done));
      Merge(m, Restrict(more, done + {key})) == query[key := Get(query, key) + more[key]]
  {
    var query, next := Merge(m, Restrict(more, done)), Merge(m, Restrict(more, done + {key}));
    var stepped := query[key := Get(query, key) + more[key]];
    assert next.Keys == stepped.Keys;
    forall k | k in next
      ensures next[k] == stepped[k]
    {
      if k == key {
        MergeGet(m, more, done, key);
        MergeGet(m, more, done + {key}, key);
        assert Get(m, key) + [] == Get(m, key);
      }
    }
  }

  lemma MergeNothing(m: Values, more: Values)
    ensures Merge(m, Restrict(more, {})) == m
  {
    assert Restrict(more, {}) == map[];
    assert Merge(m, map[]).Keys == m.Keys;
    assert forall k :: k in m ==> m[k] + [] == m[k];
  }

  /** The addQueryValues loop, for any iteration order of the added values. */
  method MergeValues(m: Values, more: Values) returns (query: Values)
    ensures query == Merge(m, more)
  {
    query := m;
    MergeNothing(m, more);
    ghost var done: set<Text> := {};
    var pending := more.Keys;
    while pending != {}
      invariant done + pending == more.Keys && done !! pending
      invariant query == Merge(m, Restrict(more, done))
      decreases |pending|
    {
      var key :| key in pending;
      MergeStep(m, more, done, key);
      query := query[key := Get(query, key) + more[key]];
      pending, done := pending - {key}, done + {key};
    }
    assert Restrict(more, done) == more;
  }

  method AddQueryValues(raw: Text, more: Values) returns (result: Text)
    ensures result == AddQuery(raw, more)
  {
    if more == map[] {
      return raw;
    }
    var query := MergeValues(Query(raw), more);
    result := Encode(query);
  }

  // --------------------------------------------------------------- agreement

  lemma {:induction false} PrivatesValues(ps: seq<Pair>, name: Text)
    ensures ValuesFor(Privates(ps), name) == Tag(ValuesFor(ps, name))
  {
    if ps == [] {
    } else {
      PrivatesValues(ps[1..], name);
      assert Privates(ps)[1..] == Privates(ps[1..]);
      var rest := ValuesFor(ps[1..], name);
      assert ([ps[0].value] + rest)[1..] == rest && [] + rest == rest;
    }
  }

  lemma PrivateLayerValues(m: Values, name: Text)
    ensures ValuesFor(PrivateLayer(m), name) == Tag(Get(m, name))
  {
    PrivatesValues(Flatten(m, SortedKeys(m.Keys)), name);
    EncodedValues(m, name);
  }

  /** The values a layer contributes to a name under the code's rules. */
  function BaseLayer(base: Option<Text>, target: Target, name: Text): seq<Text> {
    if target.absolute || base.None? then [] else Get(Query(base.value), name)
  }

  function PathLayer(target: Target, name: Text): seq<Text> {
    if ParseQuery(target.rawQuery).ok then Get(Query(target.rawQuery), name) else []
  }

  /** The compiled occurrences: names sorted, and under each name the private
      base values, the private path values, then the builder's with their tags. */
  lemma CompiledLayers(base: Option<Text>, target: Target, builder: seq<Occurrence>, name: Text)
    requires Compile(base, target, builder).Success?
    ensures
      var occs := Compile(base, target, builder).value;
      && SortedByName(occs)
      && ValuesFor(occs, name) ==
           Tag(BaseLayer(base, target, name)) + Tag(PathLayer(target, name)) + ValuesFor(builder, name)
  {
    var parsed := ParseQuery(target.rawQuery);
    var request := if parsed.ok then Group(map[], parsed.pairs) else map[];
    PrivateLayerValues(request, name);
    assert Get(request, name) == PathLayer(target, name);
    var pathLayer := PrivateLayer(request);
    if target.absolute || base.None? {
      SortMeaning(pathLayer + builder, name);
      ValuesForConcat(pathLayer, builder, name);
      assert [] + Tag(PathLayer(target, name)) == Tag(PathLayer(target, name));
    } else {
      var baseLayer := PrivateLayer(Query(base.value));
      SortMeaning(baseLayer + pathLayer + builder, name);
      ValuesForConcat(baseLayer + pathLayer, builder, name);
      ValuesForConcat(baseLayer, pathLayer, name);
      PrivateLayerValues(Query(base.value), name);
    }
  }

  lemma AddQueryMeaning(raw: Text, more: Values, name: Text)
    ensures Get(Query(AddQuery(raw, more)), name) == Get(Query(raw), name) + Get(more, name)
  {
    if more != map[] {
      QueryEncode(Merge(Query(raw), more), name);
    }
  }

  /** The resolved URL's parsed query: base, then path, then builder values. */
  lemma ResolvedLayers(base: Option<Text>, target: Target, builder: Values, name: Text)
    requires Resolve(base, target, builder).Success?
    ensures Get(Query(Resolve(base, target, builder).value), name) ==
            BaseLayer(base, target, name) + Get(Query(target.rawQuery), name) + Get(builder, name)
  {
    var request := Query(target.rawQuery);
    if target.absolute || base.None? {
      AddQueryMeaning(target.rawQuery, builder, name);
      assert [] + Get(request, name) == Get(request, name);
    } else {
      AddQueryMeaning(base.value, request, name);
      AddQueryMeaning(AddQuery(base.value, request), builder, name);
    }
  }

  lemma {:induction false} RawTag(values: seq<Text>)
    ensures Raw(Tag(values)) == values
  {
    if values == [] {
    } else {
      RawTag(values[1..]);
    }
  }

  lemma {:induction false} RawConcat(a: seq<Value>, b: seq<Value>)
    ensures Raw(a + b) == Raw(a) + Raw(b)
  {
    if a == [] {
      assert a + b == b;
    } else {
      assert (a + b)[1..] == a[1..] + b;
      RawConcat(a[1..], b);
    }
  }

  lemma {:induction false} RawPairsValues(occs: seq<Occurrence>, name: Text)
    ensures ValuesFor(RawPairs(occs), name) == Raw(ValuesFor(occs, name))
  {
    if occs == [] {
    } else {
      RawPairsValues(occs[1..], name);
      assert RawPairs(occs)[1..] == RawPairs(occs[1..]);
      RawConcat(if occs[0].name == name then [occs[0].value] else [], ValuesFor(occs[1..], name));
    }
  }

  /** The plan's raw values of a name, layer by layer. */
  lemma PlanRaw(base: Option<Text>, target: Target, builder: seq<Occurrence>, name: Text)
    requires Compile(base, target, builder).Success?
    ensures Raw(ValuesFor(Compile(base, target, builder).value, name)) ==
            BaseLayer(base, target, name) + PathLayer(target, name) + Raw(ValuesFor(builder, name))
  {
    CompiledLayers(base, target, builder, name);
    var b, p := BaseLayer(base, target, name), PathLayer(target, name);
    RawConcat(Tag(b) + Tag(p), ValuesFor(builder, name));
    RawConcat(Tag(b), Tag(p));
    RawTag(b);
    RawTag(p);
  }

  lemma UrlRaw(base: Option<Text>, target: Target, builder: seq<Occurrence>, name: Text)
    requires Resolve(base, target, Group(map[], RawPairs(builder))).Success?
    ensures Get(Query(Resolve(base, target, Group(map[], RawPairs(builder))).value), name) ==
            BaseLayer(base, target, name) + Get(Query(target.rawQuery), name) + Raw(ValuesFor(builder, name))
  {
    ResolvedLayers(base, target, Group(map[], RawPairs(builder)), name);
    GroupMeaning(map[], RawPairs(builder), name);
    RawPairsValues(builder, name);
  }

  /** The two exits fail together, except that the plan also refuses a malformed
      relative query that delivery would leave as it is. */
  lemma ExitsAgree(base: Option<Text>, target: Target, builder: seq<Occurrence>)
    ensures Compile(base, target, builder).Success? <==>
            && Resolve(base, target, Group(map[], RawPairs(builder))).Success?
            && (ParseQuery(target.rawQuery).ok || target.absolute)
  {
    if builder != [] {
      GroupMeaning(map[], RawPairs(builder), builder[0].name);
      assert Get(Group(map[], RawPairs(builder)), builder[0].name) != [];
    }
  }

  /** For every name, the plan's values are the final URL's parsed values, in
      order, exactly when the path query parses or holds nothing under it. */
  lemma PlanEqualsUrl(base: Option<Text>, target: Target, builder: seq<Occurrence>, name: Text)
    requires Compile(base, target, builder).Success?
    ensures Resolve(base, target, Group(map[], RawPairs(builder))).Success?
    ensures Raw(ValuesFor(Compile(base, target, builder).value, name)) ==
            Get(Query(Resolve(base, target, Group(map[], RawPairs(builder))).value), name)
            <==> ParseQuery(target.rawQuery).ok || Get(Query(target.rawQuery), name) == []
  {
    ExitsAgree(base, target, builder);
    PlanRaw(base, target, builder, name);
    UrlRaw(base, target, builder, name);
    LengthsDecide(BaseLayer(base, target, name), PathLayer(target, name),
                  Get(Query(target.rawQuery), name), Raw(ValuesFor(builder, name)));
  }

  lemma LengthsDecide(b: seq<Text>, p: seq<Text>, whole: seq<Text>, q: seq<Text>)
    requires p == whole || p == []
    ensures b + p + q == b + whole + q <==> p == whole
  {
    if b + p + q == b + whole + q {
      assert |b + p + q| == |b| + |p| + |q| && |b + whole + q| == |b| + |whole| + |q|;
    }
  }

  /** A query whose last piece is a stray percent sign: it does not parse, and its
      first piece is a pair. */
  lemma MalformedTail(first: Pair)
    ensures
      var raw := EncodePair(first) + (['&'] + ['%']);
      !ParseQuery(raw).ok && ParseQuery(raw).pairs == [first]
  {
    PieceRoundTrip(first);
    ParseFirst(EncodePair(first), ['%']);
    StrayPercent(['%']);
    assert [first] + [] == [first];
  }

  lemma StrayPercent(q: Text)
    requires q == ['%']
    ensures ParseQuery(q) == Parsed([], false)
  {
    assert IndexOf(q, '&') == 1 && q[..1] == q && IndexOf(q, '=') == 1;
    assert Unescape(q) == None;
    assert ParseQuery([]) == Parsed([], true);
  }

  /** An absolute target with such a query and no builder values, as in
      "http://h/?a=1&%": the plan compiles, and shows nothing of the pair that the
      URL still has. */
  lemma MalformedQueryDiffers(first: Pair) returns (target: Target)
    ensures target.absolute && Compile(None, target, []).Success?
    ensures ValuesFor(Compile(None, target, []).value, first.name) == []
    ensures
      var url := Resolve(None, target, Group(map[], RawPairs([])));
      url.Success? && Get(Query(url.value), first.name) == [first.value]
  {
    MalformedTail(first);
    target := Target(true, EncodePair(first) + (['&'] + ['%']));
    assert RawPairs([]) == [];
    CompiledLayers(None, target, [], first.name);
    GroupMeaning(map[], [first], first.name);
    assert [first][1..] == [];
  }
}
