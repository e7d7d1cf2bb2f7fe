/** Noninterference of Prepare over whole requests: from a template with tagged
    parameters to the preparation or the error, for every context. */
module Noninterference {
  import opened Base
  import opened Headers
  import opened Sorting
  import opened Checkpoints
  import opened OrderedHeaders
  import opened PathTemplate
  import opened Masking
  import opened Percent
  import opened Legibility
  import opened QueryNames
  import opened TargetTrace
  import opened TraceGuard
  import opened TargetExact
  import opened Prepared
  import opened Disclosure
  import D = DeliveredHeaders
  import H = HeaderPlan
  import E = Escaping
  import Q = QueryPlan
  import Body

  // ---------------------------------------------------------- the compiled plan

  /** A parsed base URL. */
  datatype BaseUrl = BaseUrl(scheme: Text, host: Text, path: Text, rawQuery: Text)

  /** The part of net/url that is not modelled, as arbitrary functions: which
      schemes and hosts are accepted, lower-cased schemes, hosts, escaped paths,
      and the join with a base path. */
  datatype Resolver = Resolver(
    accepts: Shape -> bool, scheme: Text -> Text, host: Text -> Text, path: (Shape, Text) -> Text,
    join: (Text, Text) -> Text)

  /** A request with its client's defaults. Cookies are the compiled ones, names
      included, whether they come from cookie calls or from Cookie headers. */
  datatype Request = Request(
    verb: Text, retained: Option<nat>, source: Source, base: Option<BaseUrl>,
    query: seq<Occurrence>, clientHeaders: seq<Occurrence>, requestHeaders: seq<Occurrence>,
    auths: seq<AuthShape>, ordered: Option<Ordered>, cookies: seq<Occurrence>, body: Body.Plan)

  /** A base path other than the root is private. */
  predicate BasePrivate(base: Option<BaseUrl>) {
    base.Some? && base.value.path != [] && base.value.path != "/"
  }

  function BaseQuery(base: Option<BaseUrl>): Option<Text> {
    if base.Some? then Some(base.value.rawQuery) else None
  }

  /** The request's own Content-Type. */
  function LocalType(r: Request): Text {
    D.LocalContentType(D.Layer(r.requestHeaders, None))
  }

  /** mergePlanHeaderOccurrences, and the loop that makes credentials private. */
  function Effective(client: seq<Occurrence>, request: seq<Occurrence>): seq<Occurrence> {
    H.Planned(client, request)
  }

  /** The traces of the given names. */
  function Traces(src: Source, names: seq<Text>): seq<PathParam>
    requires forall i :: 0 <= i < |names| ==> names[i] in src.params
  {
    seq(|names|, i requires 0 <= i < |names| => PathParam(src.params[names[i]], Trace(src.template.raw, names[i])))
  }

  function TraceOf(src: Source): seq<PathParam> {
    ListedOrder(src.params);
    Traces(src, SortedKeys(src.params.Keys))
  }

  /** The path of the request URL itself; an opaque URL has none. */
  function OwnPath(url: Resolver, shape: Shape, text: Text): Text
    requires shape != Missing
  {
    if shape.rootless then [] else url.path(shape, PathText(text))
  }

  /** compileRequestPlanSnapshot: nothing when the URL or its query is refused. */
  function Compile(r: Request, order: seq<Text>, url: Resolver): Option<Plan>
    requires forall i :: 0 <= i < |order| ==> order[i] in r.source.params
  {
    var text := Resolved(r.source, order);
    CompileText(r, url, Accepted(text), ShapeOf(text), text, QueryText(text))
  }

  function CompileText(r: Request, url: Resolver, accepted: bool, shape: Shape, text: Text, rawQuery: Text): Option<Plan> {
    if !accepted || shape == Missing || !url.accepts(shape) then None
    else
      var query := Q.Compile(BaseQuery(r.base), Q.Target(shape.scheme != [], rawQuery), r.query);
      if query.Failure? then None else Some(PlanOf(r, url, shape, text, query.value))
  }

  function PlanOf(r: Request, url: Resolver, shape: Shape, text: Text, query: seq<Occurrence>): Plan
    requires shape != Missing
  {
    var own := shape.scheme != [] || r.base.None?;
    Plan(
      r.verb,
      if own then url.scheme(shape.scheme) else r.base.value.scheme,
      if own then url.host(shape.authority) else r.base.value.host,
      if own then OwnPath(url, shape, text) else url.join(r.base.value.path, OwnPath(url, shape, text)),
      r.source.template, !own && BasePrivate(r.base), TraceOf(r.source),
      query, Effective(r.clientHeaders, r.requestHeaders), r.auths, r.ordered, r.cookies, r.body, LocalType(r))
  }

  // ------------------------------------------------------------ low equivalence

  function Best(s: Masked): Text {
    Fill(s, Always(DIGITS))
  }

  /** The same target up to private values. A private template may differ too, as
      long as its counts, its shape, whether it is accepted, and its query names
      are the same. */
  ghost predicate LowSource(a: Source, b: Source) {
    && SameButSecrets(a.params, b.params)
    && a.template.public == b.template.public
    && (a.template.public ==> a.template.raw == b.template.raw)
    && (forall k :: k in a.params ==> Trace(a.template.raw, k) == Trace(b.template.raw, k))
    && (Settle(Mask(a)).Some? && Settle(Mask(b)).Some? ==> Settle(Mask(a)).value.shape == Settle(Mask(b)).value.shape)
    && Accepted(Best(Mask(a))) == Accepted(Best(Mask(b)))
    && SeenAlike(Best(QueryOf(Mask(a))), Best(QueryOf(Mask(b))))
  }

  /** For one template all that is the same anyway. */
  lemma SameTemplateIsLow(a: Source, b: Source)
    requires SameButSecrets(a.params, b.params) && a.template == b.template
    ensures LowSource(a, b)
  {
    SameExpansion(TemplateGaps(a), a.params, b.params);
    assert Mask(a) == Mask(b);
  }

  /** The same base URL up to a private path and the values of its query. */
  predicate LowBase(a: Option<BaseUrl>, b: Option<BaseUrl>) {
    && a.Some? == b.Some?
    && (a.Some? ==>
          && a.value.scheme == b.value.scheme && a.value.host == b.value.host
          && BasePrivate(a) == BasePrivate(b)
          && (!BasePrivate(a) ==> a.value.path == b.value.path)
          && EraseAll(Q.PrivateLayer(E.Query(a.value.rawQuery))) == EraseAll(Q.PrivateLayer(E.Query(b.value.rawQuery))))
  }

  predicate LowHeaders(a: Request, b: Request) {
    && EraseHeaders(a.clientHeaders) == EraseHeaders(b.clientHeaders)
    && EraseHeaders(a.requestHeaders) == EraseHeaders(b.requestHeaders)
    && a.ordered.Some? == b.ordered.Some?
    && (a.ordered.Some? ==> EraseOrdered(a.ordered.value) == EraseOrdered(b.ordered.value))
  }

  /** Two requests that differ only in private content. Names are not content:
      those of cookies are the same, also of cookies in a private Cookie header. */
  ghost predicate LowEquivalent(a: Request, b: Request) {
    && a.verb == b.verb && a.retained == b.retained && LowSource(a.source, b.source) && LowBase(a.base, b.base)
    && EraseAll(a.query) == EraseAll(b.query) && LowHeaders(a, b)
    && a.auths == b.auths
    && EraseAll(a.cookies) == EraseAll(b.cookies) && EraseBody(a.body) == EraseBody(b.body)
  }

  /** No private parameter can change whether and how the URL parses, nor, unless
      its value brings an ampersand, the names of its query. */
  predicate Guarded(src: Source) {
    Regular(src) && ParseSettled(Mask(src)) && QuerySettled(QueryOf(Mask(src)))
  }

  predicate Typed(body: Body.Plan) {
    body.kind == Body.JSON || body.kind == Body.XML || body.kind == Body.YAML
  }

  /** A typed body has a Content-Type of the request's own in both or in neither. */
  predicate TypesAlike(a: Request, b: Request) {
    Typed(a.body) ==> (LocalType(a) == [] <==> LocalType(b) == [])
  }

  // --------------------------------------------------------------------- query

  lemma {:induction false} InsertErased(p: Occurrence, s: seq<Occurrence>)
    ensures EraseAll(Insert(p, s)) == Insert(EraseOccurrence(p), EraseAll(s))
  {
    if s == [] || Leq(p.name, s[0].name) {
    } else {
      assert EraseAll(s)[1..] == EraseAll(s[1..]);
      InsertErased(p, s[1..]);
    }
  }

  lemma {:induction false} SortErased(s: seq<Occurrence>)
    ensures EraseAll(Sort(s)) == Sort(EraseAll(s))
  {
    if s == [] {
    } else {
      assert EraseAll(s)[1..] == EraseAll(s[1..]);
      SortErased(s[1..]);
      InsertErased(s[0], Sort(s[1..]));
    }
  }

  lemma EraseConcat(a: seq<Occurrence>, b: seq<Occurrence>)
    ensures EraseAll(a + b) == EraseAll(a) + EraseAll(b)
  {
  }

  /** Grouped values of which the names and multiplicities are the same. */
  predicate SameCounts(m: E.Values, n: E.Values) {
    m.Keys == n.Keys && forall k :: k in m ==> |m[k]| == |n[k]|
  }

  lemma {:induction false} PairsErased(name: Text, x: seq<Text>, y: seq<Text>)
    requires |x| == |y|
    ensures EraseAll(Q.Privates(E.PairsOf(name, x))) == EraseAll(Q.Privates(E.PairsOf(name, y)))
    decreases |x|
  {
    if x == [] {
    } else {
      PairsErased(name, x[1..], y[1..]);
      ErasedCons(name, x[0], E.PairsOf(name, x[1..]));
      ErasedCons(name, y[0], E.PairsOf(name, y[1..]));
    }
  }

  lemma ErasedCons(name: Text, value: Text, rest: seq<E.Pair>)
    ensures EraseAll(Q.Privates([Named(name, value)] + rest)) == [Named(name, Private([]))] + EraseAll(Q.Privates(rest))
  {
    assert ([Named(name, value)] + rest)[1..] == rest;
    EraseConcat([Named(name, Private(value))], Q.Privates(rest));
  }

  lemma {:induction false} PrivatesConcat(a: seq<E.Pair>, b: seq<E.Pair>)
    ensures Q.Privates(a + b) == Q.Privates(a) + Q.Privates(b)
  {
    if a == [] {
      assert a + b == b;
    } else {
      assert (a + b)[1..] == a[1..] + b;
      PrivatesConcat(a[1..], b);
      ConcatAssociates([Named(a[0].name, Private(a[0].value))], Q.Privates(a[1..]), Q.Privates(b));
    }
  }

  lemma {:induction false} FlattenErased(m: E.Values, n: E.Values, keys: seq<Text>)
    requires SameCounts(m, n)
    ensures EraseAll(Q.Privates(E.Flatten(m, keys))) == EraseAll(Q.Privates(E.Flatten(n, keys)))
  {
    if keys == [] {
    } else {
      var k := keys[0];
      FlattenErased(m, n, keys[1..]);
      assert |E.Get(m, k)| == |E.Get(n, k)|;
      PairsErased(k, E.Get(m, k), E.Get(n, k));
      PrivatesConcat(E.PairsOf(k, E.Get(m, k)), E.Flatten(m, keys[1..]));
      PrivatesConcat(E.PairsOf(k, E.Get(n, k)), E.Flatten(n, keys[1..]));
      EraseConcat(Q.Privates(E.PairsOf(k, E.Get(m, k))), Q.Privates(E.Flatten(m, keys[1..])));
      EraseConcat(Q.Privates(E.PairsOf(k, E.Get(n, k))), Q.Privates(E.Flatten(n, keys[1..])));
    }
  }

  lemma GroupsAlike(p: seq<E.Pair>, q: seq<E.Pair>)
    requires SameNames(p, q)
    ensures SameCounts(E.Group(map[], p), E.Group(map[], q))
  {
    var m, n := E.Group(map[], p), E.Group(map[], q);
    forall k
      ensures |E.Get(m, k)| == |E.Get(n, k)| && (k in m <==> E.Get(m, k) != []) && (k in n <==> E.Get(n, k) != [])
    {
      E.GroupMeaning(map[], p, k);
      E.GroupMeaning(map[], q, k);
    }
    forall k
      ensures k in m <==> k in n
    {
      assert |E.Get(m, k)| == |E.Get(n, k)|;
    }
  }

  /** The private layer of a request query, by what of it is seen. */
  function PathPart(rawQuery: Text): seq<Occurrence> {
    var parsed := E.ParseQuery(rawQuery);
    Q.PrivateLayer(if parsed.ok then E.Group(map[], parsed.pairs) else map[])
  }

  lemma PathPartsAlike(x: Text, y: Text)
    requires SeenAlike(x, y)
    ensures EraseAll(PathPart(x)) == EraseAll(PathPart(y))
  {
    var p, q := E.ParseQuery(x), E.ParseQuery(y);
    if p.ok {
      GroupsAlike(p.pairs, q.pairs);
      var m, n := E.Group(map[], p.pairs), E.Group(map[], q.pairs);
      FlattenErased(m, n, SortedKeys(m.Keys));
    }
  }

  /** The occurrences before sorting: the private layers and the builder's. */
  function Layers(base: Option<Text>, absolute: bool, rawQuery: Text): seq<Occurrence> {
    if absolute || base.None? then PathPart(rawQuery)
    else Q.PrivateLayer(E.Query(base.value)) + PathPart(rawQuery)
  }

  lemma LayersAlike(a: Option<BaseUrl>, b: Option<BaseUrl>, absolute: bool, x: Text, y: Text)
    requires LowBase(a, b) && SeenAlike(x, y)
    ensures EraseAll(Layers(BaseQuery(a), absolute, x)) == EraseAll(Layers(BaseQuery(b), absolute, y))
  {
    PathPartsAlike(x, y);
    if !(absolute || a.None?) {
      EraseConcat(Q.PrivateLayer(E.Query(a.value.rawQuery)), PathPart(x));
      EraseConcat(Q.PrivateLayer(E.Query(b.value.rawQuery)), PathPart(y));
    }
  }

  lemma QueryAlike(a: Request, b: Request, absolute: bool, x: Text, y: Text)
    requires LowBase(a.base, b.base) && EraseAll(a.query) == EraseAll(b.query) && SeenAlike(x, y)
    ensures
      var p := Q.Compile(BaseQuery(a.base), Q.Target(absolute, x), a.query);
      var q := Q.Compile(BaseQuery(b.base), Q.Target(absolute, y), b.query);
      p.Success? == q.Success? && (p.Success? ==> EraseAll(p.value) == EraseAll(q.value))
  {
    LayersAlike(a.base, b.base, absolute, x, y);
    var la, lb := Layers(BaseQuery(a.base), absolute, x), Layers(BaseQuery(b.base), absolute, y);
    assert |EraseAll(a.query)| == |a.query| && |EraseAll(b.query)| == |b.query|;
    EraseConcat(la, a.query);
    EraseConcat(lb, b.query);
    SortErased(la + a.query);
    SortErased(lb + b.query);
  }

  // ------------------------------------------------------------------- headers

  lemma {:induction false} WithoutErased(occs: seq<Occurrence>, folds: set<Text>)
    ensures EraseHeaders(Without(occs, folds)) == Without(EraseHeaders(occs), folds)
  {
    if occs == [] {
    } else {
      WithoutErased(occs[1..], folds);
      assert EraseHeaders(occs)[1..] == EraseHeaders(occs[1..]);
      var head := if Fold(occs[0].name) in folds then [] else [occs[0]];
      HeadersConcat(head, Without(occs[1..], folds));
    }
  }

  lemma HeadersConcat(a: seq<Occurrence>, b: seq<Occurrence>)
    ensures EraseHeaders(a + b) == EraseHeaders(a) + EraseHeaders(b)
  {
  }

  lemma FoldsErased(occs: seq<Occurrence>)
    ensures H.NameFolds(EraseHeaders(occs)) == H.NameFolds(occs)
  {
    assert forall i :: 0 <= i < |occs| ==> EraseHeaders(occs)[i].name == occs[i].name;
  }

  lemma EffectiveAlike(a: Request, b: Request)
    requires LowHeaders(a, b)
    ensures EraseHeaders(Effective(a.clientHeaders, a.requestHeaders)) == EraseHeaders(Effective(b.clientHeaders, b.requestHeaders))
  {
    FoldsErased(a.requestHeaders);
    FoldsErased(b.requestHeaders);
    var folds := H.NameFolds(a.requestHeaders);
    WithoutErased(a.clientHeaders, folds);
    WithoutErased(b.clientHeaders, folds);
    HeadersConcat(Without(a.clientHeaders, folds), a.requestHeaders);
    HeadersConcat(Without(b.clientHeaders, folds), b.requestHeaders);
    SealErased(Without(a.clientHeaders, folds) + a.requestHeaders);
    SealErased(Without(b.clientHeaders, folds) + b.requestHeaders);
  }

  lemma SealErased(occs: seq<Occurrence>)
    ensures EraseHeaders(H.Seal(occs)) == H.Seal(EraseHeaders(occs))
  {
    forall i | 0 <= i < |occs|
      ensures EraseHeader(H.Sealed(occs[i])) == H.Sealed(EraseHeader(occs[i]))
    {
      SealedErased(occs[i]);
    }
  }

  lemma SealedErased(o: Occurrence)
    ensures EraseHeader(H.Sealed(o)) == H.Sealed(EraseHeader(o))
  {
  }

  // -------------------------------------------------------------------- target

  lemma SelfRun(src: Source, order: seq<Text>)
    requires Lists(order, Raws(src.params))
    ensures RunOf(src, src, order)
  {
  }

  /** Guarded targets parse alike and show the same query names. */
  lemma TextsAlike(a: Source, b: Source, one: seq<Text>, two: seq<Text>)
    requires LowSource(a, b) && Guarded(a) && Guarded(b) && NoAmpersand(a) && NoAmpersand(b)
    requires Lists(one, Raws(a.params)) && Lists(two, Raws(b.params))
    ensures ParsedAlike(Resolved(a, one), Resolved(b, two)) && ShapeOf(Resolved(a, one)) == Settle(Mask(a)).value.shape
    ensures SeenAlike(QueryText(Resolved(a, one)), QueryText(Resolved(b, two)))
  {
    SelfRun(a, one);
    SelfRun(b, two);
    SettledParses(a, a, one);
    SettledParses(b, b, two);
    SettledNames(a, a, one);
    SettledNames(b, b, two);
    SeenThrough(QueryText(Resolved(a, one)), Best(QueryOf(Mask(a))), Best(QueryOf(Mask(b))), QueryText(Resolved(b, two)));
  }

  lemma SeenThrough(x: Text, u: Text, v: Text, y: Text)
    requires SeenAlike(x, u) && SeenAlike(u, v) && SeenAlike(y, v)
    ensures SeenAlike(x, y)
  {
  }

  lemma TracesAlike(a: Source, b: Source)
    requires LowSource(a, b)
    ensures EraseParams(TraceOf(a)) == EraseParams(TraceOf(b))
  {
    ListedOrder(a.params);
    ListedTracesAlike(a, b, SortedKeys(a.params.Keys));
  }

  lemma ListedTracesAlike(a: Source, b: Source, names: seq<Text>)
    requires LowSource(a, b) && forall i :: 0 <= i < |names| ==> names[i] in a.params && names[i] in b.params
    ensures EraseParams(Traces(a, names)) == EraseParams(Traces(b, names))
  {
    var x, y := Traces(a, names), Traces(b, names);
    forall i | 0 <= i < |names|
      ensures EraseParams(x)[i] == EraseParams(y)[i]
    {
      TraceAlike(a, b, names[i]);
    }
  }

  lemma TraceAlike(a: Source, b: Source, k: Text)
    requires LowSource(a, b) && k in a.params
    ensures k in b.params && EraseValue(a.params[k]) == EraseValue(b.params[k])
    ensures Trace(a.template.raw, k) == Trace(b.template.raw, k)
  {
  }

  lemma TracedAt(src: Source, k: Text) returns (i: nat)
    requires k in src.params
    ensures i < |TraceOf(src)| && TraceOf(src)[i] == PathParam(src.params[k], Trace(src.template.raw, k))
  {
    var names := SortedKeys(src.params.Keys);
    SortedKeysMeaning(src.params.Keys);
    i :| 0 <= i < |names| && names[i] == k;
  }

  lemma CountsArePublic(src: Source)
    requires FirstExposed(TraceOf(src)) == |TraceOf(src)|
    ensures StructurePublic(src)
    ensures FirstBlocked(TraceOf(src)) == |TraceOf(src)| ==> PathCountsPublic(src)
  {
    forall k | k in src.params && !src.params[k].public
      ensures Trace(src.template.raw, k).inScheme == 0 && Trace(src.template.raw, k).inAuthority == 0
      ensures FirstBlocked(TraceOf(src)) == |TraceOf(src)| ==> Trace(src.template.raw, k).inPath == 0
    {
      var i := TracedAt(src, k);
      assert !Exposed(TraceOf(src)[i]);
      if FirstBlocked(TraceOf(src)) == |TraceOf(src)| {
        NotBlocked(TraceOf(src), i);
      }
    }
  }

  lemma {:induction false} NotBlocked(params: seq<PathParam>, i: nat)
    requires FirstBlocked(params) == |params| && i < |params|
    ensures params[i].counts.inPath == 0 || params[i].value.public
  {
    if i == 0 {
    } else {
      NotBlocked(params[1..], i - 1);
    }
  }

  /** A path that may be shown: nothing private is counted in it or around it. */
  predicate Showable(src: Source) {
    src.template.public && FirstExposed(TraceOf(src)) == FirstBlocked(TraceOf(src)) == |TraceOf(src)|
  }

  /** A public template with nothing private counted in its path or structure
      resolves to the same path. */
  lemma PathsAlike(a: Source, b: Source, one: seq<Text>, two: seq<Text>)
    requires LowSource(a, b) && Guarded(a) && Showable(a) && HasPath(Mask(a))
    requires Lists(one, Raws(a.params)) && Lists(two, Raws(b.params))
    ensures PathText(Resolved(a, one)) == PathText(Resolved(b, two))
  {
    CountsArePublic(a);
    CountedPathIsFree(a);
    assert RunOf(a, b, two);
    SelfRun(a, one);
    FreePath(a, a, one);
    FreePath(a, b, two);
  }

  // -------------------------------------------------------------------- plans

  lemma PlansErased(a: Request, b: Request, url: Resolver, shape: Shape, x: Text, y: Text, p: seq<Occurrence>, q: seq<Occurrence>)
    requires LowEquivalent(a, b) && shape != Missing && EraseAll(p) == EraseAll(q)
    ensures Erase(PlanOf(a, url, shape, x, p)) == Erase(PlanOf(b, url, shape, y, q))
  {
    TracesAlike(a.source, b.source);
    EffectiveAlike(a, b);
  }

  lemma TargetsAlike(p: Plan, q: Plan)
    requires Erase(p) == Erase(q) && (PathPublic(p) ==> p.escapedPath == q.escapedPath)
    ensures TargetOutcome(p) == TargetOutcome(q)
  {
    TargetErased(p);
    TargetErased(q);
    assert p.scheme == Erase(p).scheme && q.scheme == Erase(q).scheme;
  }

  predicate ShownAlike(a: Request, url: Resolver, shape: Shape, x: Text, y: Text) {
    shape != Missing && Showable(a.source) ==> OwnPath(url, shape, x) == OwnPath(url, shape, y)
  }

  /** Two plans that differ in private content only, and show the same target. */
  predicate PlansMatch(p: Plan, q: Plan) {
    Erase(p) == Erase(q) && (EligibleOutcome(p).result.Success? ==> TargetOutcome(p) == TargetOutcome(q))
  }

  lemma PlansOfMatch(a: Request, b: Request, url: Resolver, shape: Shape, x: Text, y: Text, p: seq<Occurrence>, q: seq<Occurrence>)
    requires LowEquivalent(a, b) && shape != Missing && EraseAll(p) == EraseAll(q) && ShownAlike(a, url, shape, x, y)
    ensures PlansMatch(PlanOf(a, url, shape, x, p), PlanOf(b, url, shape, y, q))
  {
    var m, n := PlanOf(a, url, shape, x, p), PlanOf(b, url, shape, y, q);
    PlansErased(a, b, url, shape, x, y, p, q);
    if EligibleOutcome(m).result.Success? {
      TargetsAlike(m, n);
    }
  }

  /** What two compiled requests have in common. */
  predicate CompiledMatch(a: Request, b: Request, p: Option<Plan>, q: Option<Plan>) {
    && p.Some? == q.Some?
    && (p.Some? ==>
          && PlansMatch(p.value, q.value) && p.value.body == a.body && q.value.body == b.body
          && p.value.localType == LocalType(a) && q.value.localType == LocalType(b))
  }

  lemma TextsCompileAlike(a: Request, b: Request, url: Resolver, accepted: bool, shape: Shape,
                          x: Text, y: Text, xQuery: Text, yQuery: Text)
    requires LowEquivalent(a, b) && ShownAlike(a, url, shape, x, y) && SeenAlike(xQuery, yQuery)
    ensures CompiledMatch(a, b, CompileText(a, url, accepted, shape, x, xQuery), CompileText(b, url, accepted, shape, y, yQuery))
  {
    if accepted && shape != Missing && url.accepts(shape) {
      QueryAlike(a, b, shape.scheme != [], xQuery, yQuery);
      CompileTextIs(a, url, shape, x, xQuery);
      CompileTextIs(b, url, shape, y, yQuery);
      var p, q := QueryOfText(a, shape, xQuery), QueryOfText(b, shape, yQuery);
      if p.Success? {
        SomePlansMatch(a, b, url, shape, x, y, p.value, q.value);
      }
    }
  }

  function QueryOfText(r: Request, shape: Shape, rawQuery: Text): Result<seq<Occurrence>, Q.QueryError>
    requires shape != Missing
  {
    Q.Compile(BaseQuery(r.base), Q.Target(shape.scheme != [], rawQuery), r.query)
  }

  lemma CompileTextIs(r: Request, url: Resolver, shape: Shape, text: Text, rawQuery: Text)
    requires shape != Missing && url.accepts(shape)
    ensures
      var query := QueryOfText(r, shape, rawQuery);
      CompileText(r, url, true, shape, text, rawQuery) ==
      if query.Success? then Some(PlanOf(r, url, shape, text, query.value)) else None
  {
  }

  lemma SomePlansMatch(a: Request, b: Request, url: Resolver, shape: Shape, x: Text, y: Text, p: seq<Occurrence>, q: seq<Occurrence>)
    requires LowEquivalent(a, b) && shape != Missing && EraseAll(p) == EraseAll(q) && ShownAlike(a, url, shape, x, y)
    ensures CompiledMatch(a, b, Some(PlanOf(a, url, shape, x, p)), Some(PlanOf(b, url, shape, y, q)))
  {
    PlansOfMatch(a, b, url, shape, x, y, p, q);
  }

  /** Two runs to compare: guarded requests that differ in private content only,
      each with an iteration order of its parameters. */
  ghost predicate Runs(a: Request, b: Request, one: seq<Text>, two: seq<Text>) {
    && LowEquivalent(a, b)
    && Guarded(a.source) && Guarded(b.source) && NoAmpersand(a.source) && NoAmpersand(b.source)
    && Lists(one, Raws(a.source.params)) && Lists(two, Raws(b.source.params))
  }

  lemma CompiledAlike(a: Request, b: Request, one: seq<Text>, two: seq<Text>, url: Resolver)
    requires Runs(a, b, one, two)
    ensures CompiledMatch(a, b, Compile(a, one, url), Compile(b, two, url))
  {
    var x, y := Resolved(a.source, one), Resolved(b.source, two);
    TextsAlike(a.source, b.source, one, two);
    if HasPath(Mask(a.source)) && Showable(a.source) {
      PathsAlike(a.source, b.source, one, two);
    }
    TextsCompileAlike(a, b, url, Accepted(x), ShapeOf(x), x, y, QueryText(x), QueryText(y));
  }

  // -------------------------------------------------------------- the theorem

  lemma ShapesAlike(p: Plan, q: Plan)
    requires EraseBody(p.body) == EraseBody(q.body) && (Typed(p.body) ==> (p.localType == [] <==> q.localType == []))
    ensures ShapeResult(p) == ShapeResult(q)
  {
    SamePartCount(p.body, q.body);
  }

  lemma CallsAlike(retained: Option<nat>, p: Option<Plan>, q: Option<Plan>, budget: int, validFile: Body.FilePart -> bool)
    requires p.Some? == q.Some?
    requires p.Some? ==>
               && PlansMatch(p.value, q.value) && BodiesAlike(p.value.body, q.value.body, validFile)
               && ShapeResult(p.value) == ShapeResult(q.value)
    ensures CallOutcome(retained, p, budget, validFile) == CallOutcome(retained, q, budget, validFile)
  {
    if p.Some? {
      PlansAlike(p.value, q.value, budget, validFile);
    }
  }

  /** Prepare on a request, in one iteration order of its parameters. */
  function Call(r: Request, order: seq<Text>, url: Resolver, budget: int, validFile: Body.FilePart -> bool, script: Script)
    : Result<Preparation, PrepError>
    requires forall i :: 0 <= i < |order| ==> order[i] in r.source.params
  {
    Run(script, 0, CallOutcome(r.retained, Compile(r, order, url), budget, validFile))
  }

  /** Noninterference: for every resolver, budget and context, and whatever the
      iteration orders, two guarded requests that differ only in private content
      are prepared alike, or fail alike. A typed body must have its own
      Content-Type in both or in neither, and a multipart body, whose settings and
      file metadata are validated, the same fault or none. */
  lemma NonInterference(a: Request, b: Request, one: seq<Text>, two: seq<Text>, url: Resolver,
                        budget: int, validFile: Body.FilePart -> bool, script: Script)
    requires Runs(a, b, one, two) && TypesAlike(a, b) && BodiesAlike(a.body, b.body, validFile)
    ensures Call(a, one, url, budget, validFile, script) == Call(b, two, url, budget, validFile, script)
  {
    var p, q := Compile(a, one, url), Compile(b, two, url);
    CompiledAlike(a, b, one, two, url);
    if p.Some? {
      ShapesAlike(p.value, q.value);
    }
    CallsAlike(a.retained, p, q, budget, validFile);
  }

  /** A call that succeeds passed the shape check, and its projection succeeded. */
  lemma SucceededCall(retained: Option<nat>, p: Option<Plan>, budget: int, validFile: Body.FilePart -> bool)
    requires CallOutcome(retained, p, budget, validFile).result.Success?
    ensures p.Some? && ShapeResult(p.value).Success? && PrepareOutcome(p.value, budget, validFile).result.Success?
  {
  }

  lemma SuccessesMatch(retained: Option<nat>, p: Option<Plan>, q: Option<Plan>, budget: int, validFile: Body.FilePart -> bool)
    requires p.Some? && q.Some? ==> PlansMatch(p.value, q.value) && EraseBody(p.value.body) == EraseBody(q.value.body)
    requires CallOutcome(retained, p, budget, validFile).result.Success?
    requires CallOutcome(retained, q, budget, validFile).result.Success?
    ensures CallOutcome(retained, p, budget, validFile) == CallOutcome(retained, q, budget, validFile)
  {
    SucceededCall(retained, p, budget, validFile);
    SucceededCall(retained, q, budget, validFile);
    SuccessesAlike(p.value, q.value, budget, validFile);
    CallsAlike(retained, p, q, budget, validFile);
  }

  /** In particular whenever both preparations succeed. */
  lemma NonInterferenceOfSuccess(a: Request, b: Request, one: seq<Text>, two: seq<Text>, url: Resolver,
                                 budget: int, validFile: Body.FilePart -> bool, script: Script)
    requires Runs(a, b, one, two)
    requires Call(a, one, url, budget, validFile, script).Success?
    requires Call(b, two, url, budget, validFile, script).Success?
    ensures Call(a, one, url, budget, validFile, script) == Call(b, two, url, budget, validFile, script)
  {
    CompiledAlike(a, b, one, two, url);
    SuccessesMatch(a.retained, Compile(a, one, url), Compile(b, two, url), budget, validFile);
  }

  // ------------------------------------------------- the Content-Type is needed

  /** The other steps of Prepare never report a missing Content-Type. */
  lemma OnlyShapeUntyped(p: Plan, budget: int, validFile: Body.FilePart -> bool)
    ensures AuthResult(p.auths) != Failure(UnsupportedContentType)
    ensures EligibleOutcome(p).result != Failure(UnsupportedContentType)
    ensures PrepareOutcome(p, budget, validFile).result != Failure(UnsupportedContentType)
  {
    NoAuthUntyped(p.auths);
    assert BodyOutcome(p.body, budget, validFile).result != Failure(UnsupportedContentType);
    assert BodyTail(p, budget, validFile).result != Failure(UnsupportedContentType);
  }

  lemma {:induction false} NoAuthUntyped(auths: seq<AuthShape>)
    ensures AuthResult(auths) != Failure(UnsupportedContentType)
  {
    if auths == [] {
    } else {
      NoAuthUntyped(auths[1..]);
    }
  }

  /** A context that never fails. */
  function Calm(): Script {
    (n: nat) => None
  }

  lemma {:induction false} CalmPasses(t: nat, n: nat)
    ensures FirstError(Calm(), t, n) == None
    decreases n
  {
    if n == 0 {
    } else {
      CalmPasses(t + 1, n - 1);
    }
  }

  /** In such a context a compiled typed request is refused for its Content-Type
      exactly when it has none of its own. */
  lemma UntypedIsReported(r: Request, order: seq<Text>, url: Resolver, validFile: Body.FilePart -> bool)
    requires forall i :: 0 <= i < |order| ==> order[i] in r.source.params
    requires r.retained.None? && Typed(r.body) && Compile(r, order, url).Some?
    requires Compile(r, order, url).value.body == r.body && Compile(r, order, url).value.localType == LocalType(r)
    ensures Call(r, order, url, 0, validFile, Calm()) == Failure(UnsupportedContentType) <==> LocalType(r) == []
  {
    var p := Compile(r, order, url).value;
    UntypedPlan(p, validFile);
    CalmPasses(0, CallOutcome(None, Some(p), 0, validFile).checks);
  }

  lemma UntypedPlan(p: Plan, validFile: Body.FilePart -> bool)
    requires Typed(p.body)
    ensures CallOutcome(None, Some(p), 0, validFile).result == Failure(UnsupportedContentType) <==> p.localType == []
  {
    OnlyShapeUntyped(p, 0, validFile);
  }

  /** For requests that compile, the condition on the Content-Type is exact. */
  lemma TypesExactly(a: Request, b: Request, one: seq<Text>, two: seq<Text>, url: Resolver, validFile: Body.FilePart -> bool)
    requires Runs(a, b, one, two) && BodiesAlike(a.body, b.body, validFile)
    requires a.retained.None? && Compile(a, one, url).Some?
    ensures TypesAlike(a, b) <==>
            forall budget, script ::
              Call(a, one, url, budget, validFile, script) == Call(b, two, url, budget, validFile, script)
  {
    if TypesAlike(a, b) {
      forall budget, script
        ensures Call(a, one, url, budget, validFile, script) == Call(b, two, url, budget, validFile, script)
      {
        NonInterference(a, b, one, two, url, budget, validFile, script);
      }
    } else {
      CompiledAlike(a, b, one, two, url);
      SamePartCount(a.body, b.body);
      UntypedIsReported(a, one, url, validFile);
      UntypedIsReported(b, two, url, validFile);
      assert Call(a, one, url, 0, validFile, Calm()) != Call(b, two, url, 0, validFile, Calm());
    }
  }
}
