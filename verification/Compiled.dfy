/** What a compiled plan holds, part by part, and when a request compiles at all. */
module Compiled {
  import opened Base
  import opened Headers
  import opened Sorting
  import opened OrderedHeaders
  import opened PathTemplate
  import opened UrlTrace
  import opened Masking
  import opened Legibility
  import opened TargetTrace
  import opened TargetExact
  import opened Prepared
  import opened Noninterference
  import E = Escaping
  import H = HeaderPlan
  import Q = QueryPlan

  /** The request's own URL decides when it is absolute or there is no base. */
  predicate Own(r: Request, shape: Shape) {
    shape != Missing && (shape.scheme != [] || r.base.None?)
  }

  /** Scheme, authority and path of the URL, and whether a private base path is in it. */
  predicate Located(r: Request, url: Resolver, text: Text, p: Plan) {
    var shape := ShapeOf(text);
    && shape != Missing
    && var own := if shape.rootless then [] else url.path(shape, PathText(text));
    if Own(r, shape) then
      p.scheme == url.scheme(shape.scheme) && p.host == url.host(shape.authority) && p.escapedPath == own && !p.basePathPrivate
    else
      var base := r.base.value;
      && p.scheme == base.scheme && p.host == base.host && p.escapedPath == url.join(base.path, own)
      && (p.basePathPrivate <==> base.path != "" && base.path != "/")
  }

  /** One trace for each path parameter, sorted by name: its value, and how often its
      placeholder is in each part of the template. */
  ghost predicate Traced(src: Source, params: seq<PathParam>) {
    exists names: seq<Text> :: TracedAs(src, params, names)
  }

  ghost predicate TracedAs(src: Source, params: seq<PathParam>, names: seq<Text>) {
    && SortedNames(names) && (forall k :: k in names <==> k in src.params) && |names| == |params|
    && forall i :: 0 <= i < |names| ==> names[i] in src.params && TraceIs(src, names[i], params[i])
  }

  predicate TraceIs(src: Source, name: Text, param: PathParam)
    requires name in src.params
  {
    var parts, w := Split(src.template.raw), ['{'] + name + ['}'];
    && param.value == src.params[name]
    && param.counts.inScheme == Count(parts.scheme, w) && param.counts.inAuthority == Count(parts.authority, w)
    && param.counts.inPath == Count(parts.path, w) && param.counts.inQueryName == SumNames(Pieces(parts.query), w)
  }

  /** The query under a name: private base values, private path values, and the
      builder's with their tags. */
  ghost predicate Queried(r: Request, target: Q.Target, query: seq<Occurrence>) {
    SortedByName(query) && forall n :: Layered(r, target, ValuesFor(query, n), n)
  }

  /** The headers under a name: the request's with their tags, else the client's;
      credentials are private whatever their tags. */
  predicate MergedUnder(r: Request, values: seq<Value>, n: Text) {
    var source := if ValuesOf(r.requestHeaders, n) != [] then r.requestHeaders else r.clientHeaders;
    values ==
    if EqualFold(n, "Authorization") || EqualFold(n, "Proxy-Authorization") then Privates(ValuesOf(source, n)) else Tagged(source, n)
  }

  ghost predicate Merged(r: Request, headers: seq<Occurrence>) {
    forall n :: MergedUnder(r, Tagged(headers, n), n)
  }

  /** A request does not compile exactly when its URL is not accepted, or its query
      does not parse and is needed. */
  ghost predicate Uncompilable(r: Request, url: Resolver, text: Text) {
    || !Accepted(text) || !url.accepts(ShapeOf(text))
    || (ShapeOf(text) != Missing && !E.ParseQuery(QueryText(text)).ok && (ShapeOf(text).scheme == [] || r.query != []))
  }

  lemma TracesRight(src: Source)
    ensures TracedAs(src, TraceOf(src), SortedKeys(src.params.Keys))
  {
    var names := SortedKeys(src.params.Keys);
    SortedKeysMeaning(src.params.Keys);
    ListedOrder(src.params);
    forall i | 0 <= i < |names|
      ensures names[i] in src.params && TraceIs(src, names[i], TraceOf(src)[i])
    {
      assert names[i] in names;
      assert Placeholder(names[i]) == ['{'] + names[i] + ['}'];
    }
  }

  lemma PathValues(raw: Text, n: Text)
    ensures E.Get(E.Query(raw), n) == ValuesFor(E.ParseQuery(raw).pairs, n)
  {
    E.GroupMeaning(map[], E.ParseQuery(raw).pairs, n);
    assert E.Get(map[], n) == [];
  }

  lemma {:induction false} TagsArePrivate(values: seq<Text>)
    ensures Q.Tag(values) == Privates(values)
  {
    if values == [] {
    } else {
      TagsArePrivate(values[1..]);
      assert Privates(values) == [Private(values[0])] + Privates(values[1..]);
    }
  }

  /** The three layers under one name. */
  predicate Layered(r: Request, target: Q.Target, values: seq<Value>, n: Text) {
    var base := if target.absolute || r.base.None? then None else Some(r.base.value.rawQuery);
    values ==
    Privates(if base.Some? then E.Get(E.Query(base.value), n) else []) +
    Privates(if E.ParseQuery(target.rawQuery).ok then ValuesFor(E.ParseQuery(target.rawQuery).pairs, n) else []) + ValuesFor(r.query, n)
  }

  lemma LayersRight(r: Request, target: Q.Target, n: Text)
    requires Q.Compile(BaseQuery(r.base), target, r.query).Success?
    ensures Layered(r, target, ValuesFor(Q.Compile(BaseQuery(r.base), target, r.query).value, n), n)
  {
    Q.CompiledLayers(BaseQuery(r.base), target, r.query, n);
    PathValues(target.rawQuery, n);
    TagsArePrivate(Q.BaseLayer(BaseQuery(r.base), target, n));
    TagsArePrivate(Q.PathLayer(target, n));
    var base := if target.absolute || r.base.None? then None else Some(r.base.value.rawQuery);
    assert Q.BaseLayer(BaseQuery(r.base), target, n) == if base.Some? then E.Get(E.Query(base.value), n) else [];
  }

  lemma QueryRight(r: Request, target: Q.Target)
    requires Q.Compile(BaseQuery(r.base), target, r.query).Success?
    ensures Queried(r, target, Q.Compile(BaseQuery(r.base), target, r.query).value)
  {
    Q.CompiledLayers(BaseQuery(r.base), target, r.query, []);
    forall n
      ensures Layered(r, target, ValuesFor(Q.Compile(BaseQuery(r.base), target, r.query).value, n), n)
    {
      LayersRight(r, target, n);
    }
  }

  lemma HeadersRight(r: Request)
    ensures Merged(r, Effective(r.clientHeaders, r.requestHeaders))
  {
    forall n
      ensures MergedUnder(r, Tagged(Effective(r.clientHeaders, r.requestHeaders), n), n)
    {
      H.PlannedMeaning(r.clientHeaders, r.requestHeaders, n);
    }
  }

  /** The first value of the request's own Content-Type, if it has one. */
  predicate TypedBy(r: Request, localType: Text) {
    var own := ValuesOf(r.requestHeaders, "Content-Type");
    if own == [] then localType == [] else localType == own[0]
  }

  /** What is taken over from the request as it is. */
  predicate TakenOver(r: Request, p: Plan) {
    && p.verb == r.verb && p.path == r.source.template && p.auths == r.auths && p.ordered == r.ordered
    && p.cookies == r.cookies && p.body == r.body && TypedBy(r, p.localType)
  }

  ghost predicate Compiles(r: Request, url: Resolver, text: Text, p: Plan) {
    && ShapeOf(text) != Missing && Located(r, url, text, p) && Traced(r.source, p.params)
    && Merged(r, p.headers) && TakenOver(r, p)
    && Queried(r, Q.Target(ShapeOf(text).scheme != [], QueryText(text)), p.query)
  }

  lemma PlanRight(r: Request, url: Resolver, text: Text, query: seq<Occurrence>)
    requires ShapeOf(text) != Missing && Queried(r, Q.Target(ShapeOf(text).scheme != [], QueryText(text)), query)
    ensures Compiles(r, url, text, PlanOf(r, url, ShapeOf(text), text, query))
  {
    TracesRight(r.source);
    HeadersRight(r);
  }

  /** Compilation: exactly which requests have a plan, and everything in it, for
      every resolver and iteration order of the path parameters. */
  lemma CompileMeaning(r: Request, order: seq<Text>, url: Resolver)
    requires forall i :: 0 <= i < |order| ==> order[i] in r.source.params
    ensures
      var text, p := Resolved(r.source, order), Compile(r, order, url);
      && (p.None? <==> Uncompilable(r, url, text))
      && (p.Some? ==> Compiles(r, url, text, p.value))
  {
    var text := Resolved(r.source, order);
    var target := Q.Target(ShapeOf(text) != Missing && ShapeOf(text).scheme != [], QueryText(text));
    if Compile(r, order, url).Some? {
      QueryRight(r, target);
      PlanRight(r, url, text, Q.Compile(BaseQuery(r.base), target, r.query).value);
    }
  }
}
