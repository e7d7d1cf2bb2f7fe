/** applyPlanAuthAndHeaders, and its agreement with the compiled plan. */
module DeliveredHeaders {
  import opened Base
  import opened Headers
  import opened Sorting
  import opened OrderedHeaders
  import opened HeaderPlan
  import Body
  import Builder

  /** The header state of one side, as the client and the builder keep it. */
  datatype Layer = Layer(headers: seq<Occurrence>, ordered: Option<Ordered>)

  /** The header part of a compiled plan. An auth method is the credential it
      sets, if any; `cookieLine` is the Cookie value built from the merged
      cookies, if any. */
  datatype Plan = Plan(
    client: Layer, request: Layer,
    clientAuth: Option<Text>, requestAuth: Option<Text>, cookieLine: Option<Text>,
    body: Body.Plan)

  ghost predicate ValidPlan(p: Plan) {
    && Builder.Coupled(p.client.headers, p.client.ordered)
    && Builder.Coupled(p.request.headers, p.request.ordered)
  }

  /** The plan's effective header list, as compiled. */
  function PlanHeaders(p: Plan): seq<Occurrence> {
    Planned(p.client.headers, p.request.headers)
  }

  function SetIf(m: HeaderMap, name: Text, value: Option<Text>): HeaderMap {
    if value.Some? then HeaderSet(m, name, value.value) else m
  }

  /** The `http.Header` of the request being delivered. */
  class Request {
    var header: HeaderMap

    constructor ()
      ensures header == map[]
    {
      header := map[];
    }

    /** applyPlanAuthAndHeaders; the two orders are the iteration orders of the
        client and request header maps. */
    method ApplyPlan(p: Plan, generatedContentType: Text, clientOrder: seq<Text>, requestOrder: seq<Text>)
      requires IterationOrder(clientOrder, Collect(map[], p.client.headers).Keys)
      requires IterationOrder(requestOrder, Collect(map[], p.request.headers).Keys)
      requires header == map[]
      modifies this
      ensures header == Delivered(p, generatedContentType, clientOrder, requestOrder)
    {
      ApplyLayers(p, clientOrder, requestOrder);
      if p.body.generated && generatedContentType != [] {
        header := HeaderDelete(header, CONTENT_TYPE);
        header := HeaderSet(header, CONTENT_TYPE, generatedContentType);
      }
      header := HeaderDelete(header, COOKIE);
      header := SetIf(header, COOKIE, p.cookieLine);
      header := SetIf(header, AUTHORIZATION, p.requestAuth);
    }

    method ApplyLayers(p: Plan, clientOrder: seq<Text>, requestOrder: seq<Text>)
      requires IterationOrder(clientOrder, Collect(map[], p.client.headers).Keys)
      requires IterationOrder(requestOrder, Collect(map[], p.request.headers).Keys)
      requires header == map[]
      modifies this
      ensures header == Layered(p, clientOrder, requestOrder)
    {
      var clientHeaders := CollectHeader(p.client.headers);
      header := AddHeaderValues(header, clientHeaders, p.client.ordered, clientOrder);
      header := SetIf(header, AUTHORIZATION, p.clientAuth);
      var requestHeaders := CollectHeader(p.request.headers);
      header := OverlayHeaderValues(header, requestHeaders, p.request.ordered, requestOrder);
    }
  }

  function Layered(p: Plan, clientOrder: seq<Text>, requestOrder: seq<Text>): HeaderMap
    requires forall i :: 0 <= i < |clientOrder| ==> clientOrder[i] in Collect(map[], p.client.headers)
    requires forall i :: 0 <= i < |requestOrder| ==> requestOrder[i] in Collect(map[], p.request.headers)
  {
    var base := AddLayer(map[], Collect(map[], p.client.headers), p.client.ordered, clientOrder);
    Overlay(SetIf(base, AUTHORIZATION, p.clientAuth), Collect(map[], p.request.headers), p.request.ordered, requestOrder)
  }

  function Delivered(p: Plan, contentType: Text, clientOrder: seq<Text>, requestOrder: seq<Text>): HeaderMap
    requires forall i :: 0 <= i < |clientOrder| ==> clientOrder[i] in Collect(map[], p.client.headers)
    requires forall i :: 0 <= i < |requestOrder| ==> requestOrder[i] in Collect(map[], p.request.headers)
  {
    var layered := Layered(p, clientOrder, requestOrder);
    var typed :=
      if p.body.generated && contentType != [] then HeaderSet(HeaderDelete(layered, CONTENT_TYPE), CONTENT_TYPE, contentType)
      else layered;
    SetIf(SetIf(HeaderDelete(typed, COOKIE), COOKIE, p.cookieLine), AUTHORIZATION, p.requestAuth)
  }

  // ------------------------------------------------- meaning of the delivery

  lemma {:induction false} CollectPresent(m: HeaderMap, occs: seq<Occurrence>, name: Text)
    requires IsToken(name)
    ensures Canonical(name) in Collect(m, occs) <==> Canonical(name) in m || ValuesOf(occs, name) != []
    decreases |occs|
  {
    if occs == [] {
    } else {
      CanonicalEqualsIffFold(name, occs[0].name);
      CollectPresent(HeaderAdd(m, occs[0].name, occs[0].value.raw), occs[1..], name);
    }
  }

  /** A coupled layer contributes exactly the values of its header list. */
  lemma LayerMeaning(l: Layer, name: Text)
    requires IsToken(name) && Builder.Coupled(l.headers, l.ordered)
    ensures LayerValues(Collect(map[], l.headers), l.ordered, name) == ValuesOf(l.headers, name)
  {
    CollectMeaning(map[], l.headers, name);
    TokenIsNotPseudo(name, name);
  }

  lemma SetIfMeaning(m: HeaderMap, key: Text, value: Option<Text>, name: Text)
    requires IsToken(name)
    ensures HeaderValues(SetIf(m, key, value), name) ==
            if value.Some? && EqualFold(key, name) then [value.value] else HeaderValues(m, name)
  {
    if value.Some? {
      HeaderSetMeaning(m, key, value.value, name);
    }
  }

  function LayeredValues(p: Plan, name: Text): seq<Text> {
    if ValuesOf(p.request.headers, name) != [] || HasName(p.request.ordered, name) then ValuesOf(p.request.headers, name)
    else if p.clientAuth.Some? && EqualFold(AUTHORIZATION, name) then [p.clientAuth.value]
    else ValuesOf(p.client.headers, name)
  }

  lemma LayeredMeaning(p: Plan, clientOrder: seq<Text>, requestOrder: seq<Text>, name: Text)
    requires ValidPlan(p) && IsToken(name)
    requires IterationOrder(clientOrder, Collect(map[], p.client.headers).Keys)
    requires IterationOrder(requestOrder, Collect(map[], p.request.headers).Keys)
    ensures HeaderValues(Layered(p, clientOrder, requestOrder), name) == LayeredValues(p, name)
  {
    var clientHeaders, requestHeaders := Collect(map[], p.client.headers), Collect(map[], p.request.headers);
    CollectKeys(map[], p.client.headers);
    CollectKeys(map[], p.request.headers);
    var base := AddLayer(map[], clientHeaders, p.client.ordered, clientOrder);
    AddLayerMeaning(map[], clientHeaders, p.client.ordered, clientOrder, name);
    LayerMeaning(p.client, name);
    LayerMeaning(p.request, name);
    SetIfMeaning(base, AUTHORIZATION, p.clientAuth, name);
    OverlayMeaning(SetIf(base, AUTHORIZATION, p.clientAuth), requestHeaders, p.request.ordered, requestOrder, name);
    CollectPresent(map[], p.request.headers, name);
  }

  /** What delivery sends for every field name, whatever the iteration orders:
      request auth, then the request layer, then client auth, then the client
      layer, with Content-Type and Cookie replaced when they are generated. */
  lemma DeliveredMeaning(p: Plan, contentType: Text, clientOrder: seq<Text>, requestOrder: seq<Text>, name: Text)
    requires ValidPlan(p) && IsToken(name)
    requires IterationOrder(clientOrder, Collect(map[], p.client.headers).Keys)
    requires IterationOrder(requestOrder, Collect(map[], p.request.headers).Keys)
    ensures HeaderValues(Delivered(p, contentType, clientOrder, requestOrder), name) ==
            if p.requestAuth.Some? && EqualFold(AUTHORIZATION, name) then [p.requestAuth.value]
            else if EqualFold(COOKIE, name) then (if p.cookieLine.Some? then [p.cookieLine.value] else [])
            else if p.body.generated && contentType != [] && EqualFold(CONTENT_TYPE, name) then [contentType]
            else LayeredValues(p, name)
  {
    var layered := Layered(p, clientOrder, requestOrder);
    LayeredMeaning(p, clientOrder, requestOrder, name);
    var typed :=
      if p.body.generated && contentType != [] then HeaderSet(HeaderDelete(layered, CONTENT_TYPE), CONTENT_TYPE, contentType)
      else layered;
    if p.body.generated && contentType != [] {
      HeaderDeleteMeaning(layered, CONTENT_TYPE, name);
      HeaderSetMeaning(HeaderDelete(layered, CONTENT_TYPE), CONTENT_TYPE, contentType, name);
    }
    HeaderDeleteMeaning(typed, COOKIE, name);
    SetIfMeaning(HeaderDelete(typed, COOKIE), COOKIE, p.cookieLine, name);
    SetIfMeaning(SetIf(HeaderDelete(typed, COOKIE), COOKIE, p.cookieLine), AUTHORIZATION, p.requestAuth, name);
    SpecialNamesDiffer(name);
  }

  lemma SpecialNamesDiffer(name: Text)
    ensures !(EqualFold(COOKIE, name) && EqualFold(CONTENT_TYPE, name))
    ensures !(EqualFold(COOKIE, name) && EqualFold(AUTHORIZATION, name))
    ensures !(EqualFold(CONTENT_TYPE, name) && EqualFold(AUTHORIZATION, name))
  {
    assert |Fold(COOKIE)| == 6 && |Fold(CONTENT_TYPE)| == 12 && |Fold(AUTHORIZATION)| == 13;
  }

  // ------------------------------------------------ compile equals delivery

  /** The plan shows a client value that an empty ordered request entry removes. */
  predicate Shadowed(p: Plan, name: Text) {
    && HasName(p.request.ordered, name)
    && ValuesOf(p.request.headers, name) == []
    && ValuesOf(p.client.headers, name) != []
  }

  predicate Special(p: Plan, contentType: Text, name: Text) {
    || EqualFold(AUTHORIZATION, name)
    || EqualFold(COOKIE, name)
    || (p.body.generated && contentType != [] && EqualFold(CONTENT_TYPE, name))
  }

  /** The compiled header list and the delivered header agree on a name exactly
      when no empty ordered request entry shadows client values of that name. */
  lemma PlanEqualsDelivery(p: Plan, contentType: Text, clientOrder: seq<Text>, requestOrder: seq<Text>, name: Text)
    requires ValidPlan(p) && IsToken(name) && !Special(p, contentType, name)
    requires IterationOrder(clientOrder, Collect(map[], p.client.headers).Keys)
    requires IterationOrder(requestOrder, Collect(map[], p.request.headers).Keys)
    ensures ValuesOf(PlanHeaders(p), name) ==
            HeaderValues(Delivered(p, contentType, clientOrder, requestOrder), name)
            <==> !Shadowed(p, name)
  {
    PlannedMeaning(p.client.headers, p.request.headers, name);
    DeliveredMeaning(p, contentType, clientOrder, requestOrder, name);
  }

  /** Authorization: client header < client auth < request header < request auth. */
  lemma AuthorizationPrecedence(p: Plan, contentType: Text, clientOrder: seq<Text>, requestOrder: seq<Text>)
    requires ValidPlan(p)
    requires IterationOrder(clientOrder, Collect(map[], p.client.headers).Keys)
    requires IterationOrder(requestOrder, Collect(map[], p.request.headers).Keys)
    ensures
      var sent := HeaderValues(Delivered(p, contentType, clientOrder, requestOrder), AUTHORIZATION);
      if p.requestAuth.Some? then sent == [p.requestAuth.value]
      else if ValuesOf(p.request.headers, AUTHORIZATION) != [] then sent == ValuesOf(p.request.headers, AUTHORIZATION)
      else if HasName(p.request.ordered, AUTHORIZATION) then sent == []
      else if p.clientAuth.Some? then sent == [p.clientAuth.value]
      else sent == ValuesOf(p.client.headers, AUTHORIZATION)
  {
    SpecialNamesDiffer(AUTHORIZATION);
    DeliveredMeaning(p, contentType, clientOrder, requestOrder, AUTHORIZATION);
  }

  /** Ordering "X" with no values leaves the header list empty. */
  lemma OrderedWithoutValues()
    ensures
      var o := [Entry("X", [])];
      var s := Builder.Step(Builder.INITIAL, Builder.SetOrdered(Some(o)));
      s.ordered == Some(o) && s.headers == []
  {
    var o := [Entry("X", [])];
    assert Clone(o) == o by { assert [] + o == o; CloneExact([], o); }
    assert Builder.Flatten(o) == [] by { assert o[1..] == []; }
  }

  /** A reachable builder for which plan and delivery differ: it orders "X" with
      no values while the client sends it. */
  lemma EmptyOrderedEntryShadows(clientOrder: seq<Text>, requestOrder: seq<Text>) returns (p: Plan)
    ensures ValidPlan(p) && Shadowed(p, "X") && ValuesOf(PlanHeaders(p), "X") == ["1"]
    ensures IterationOrder(clientOrder, Collect(map[], p.client.headers).Keys)
            && IterationOrder(requestOrder, Collect(map[], p.request.headers).Keys) ==>
              HeaderValues(Delivered(p, [], clientOrder, requestOrder), "X") == []
    ensures
      var s := Builder.Step(Builder.INITIAL, Builder.SetOrdered(Some([Entry("X", [])])));
      p.request == Layer(s.headers, s.ordered) && p.body == s.body
  {
    var o := [Entry("X", [])];
    var op := Builder.SetOrdered(Some(o));
    var s := Builder.Step(Builder.INITIAL, op);
    Builder.StepKeepsInv(Builder.INITIAL, op);
    OrderedWithoutValues();
    var x := Named("X", Private("1"));
    p := Plan(Layer([x], None), Layer(s.headers, s.ordered), None, None, None, s.body);
    assert [x][1..] == [] && ValuesOf([x], "X") == ["1"];
    assert |Fold("X")| == 1 && |Fold(COOKIE)| == 6 && |Fold(AUTHORIZATION)| == 13;
    ShadowedValues(p, "X", clientOrder, requestOrder);
  }

  /** What a shadowed name has in the plan and on the wire. */
  lemma ShadowedValues(p: Plan, name: Text, clientOrder: seq<Text>, requestOrder: seq<Text>)
    requires ValidPlan(p) && IsToken(name) && Shadowed(p, name)
    requires !EqualFold(AUTHORIZATION, name) && !EqualFold(COOKIE, name)
    ensures ValuesOf(PlanHeaders(p), name) == ValuesOf(p.client.headers, name)
    ensures IterationOrder(clientOrder, Collect(map[], p.client.headers).Keys)
            && IterationOrder(requestOrder, Collect(map[], p.request.headers).Keys) ==>
              HeaderValues(Delivered(p, [], clientOrder, requestOrder), name) == []
  {
    PlannedMeaning(p.client.headers, p.request.headers, name);
    if IterationOrder(clientOrder, Collect(map[], p.client.headers).Keys)
       && IterationOrder(requestOrder, Collect(map[], p.request.headers).Keys) {
      DeliveredMeaning(p, [], clientOrder, requestOrder, name);
    }
  }

  // ----------------------------------------------------- generated media type

  /** The Content-Type that body materialization returns for a non-multipart body. */
  function LocalContentType(request: Layer): Text {
    var values := ValuesOf(request.headers, CONTENT_TYPE);
    if values == [] then [] else values[0]
  }

  lemma OwnedTypeIsSent(s: Builder.State, p: Plan, clientOrder: seq<Text>, requestOrder: seq<Text>)
    requires ValidPlan(p) && Builder.OwnsContentType(s)
    requires p.request == Layer(s.headers, s.ordered) && p.body == s.body
    requires IterationOrder(clientOrder, Collect(map[], p.client.headers).Keys)
    requires IterationOrder(requestOrder, Collect(map[], p.request.headers).Keys)
    requires p.body.kind != Body.MultipartForm && p.body.generated
    ensures HeaderValues(Delivered(p, LocalContentType(p.request), clientOrder, requestOrder), CONTENT_TYPE) ==
            [p.body.contentType]
  {
    assert LocalContentType(p.request) == p.body.contentType;
    SpecialNamesDiffer(CONTENT_TYPE);
    DeliveredMeaning(p, p.body.contentType, clientOrder, requestOrder, CONTENT_TYPE);
  }

  /** For every reachable builder and every client, a generated media type of a
      non-multipart body is exactly what delivery sends, and it is the one that
      Prepare shows whenever Prepare shows one. */
  lemma GeneratedTypeIsSent(ops: seq<Builder.Op>, s: Builder.State, p: Plan, clientOrder: seq<Text>, requestOrder: seq<Text>)
    requires forall i :: 0 <= i < |ops| ==> Builder.ValidOp(ops[i])
    requires s == Builder.Run(Builder.INITIAL, ops)
    requires p.request == Layer(s.headers, s.ordered) && p.body == s.body
    requires Builder.Coupled(p.client.headers, p.client.ordered)
    requires IterationOrder(clientOrder, Collect(map[], p.client.headers).Keys)
    requires IterationOrder(requestOrder, Collect(map[], p.request.headers).Keys)
    requires p.body.kind != Body.MultipartForm && p.body.generated
    ensures HeaderValues(Delivered(p, LocalContentType(p.request), clientOrder, requestOrder), CONTENT_TYPE) ==
            [p.body.contentType]
    ensures p.body.kind != Body.Reader ==> p.body.contentType == Body.ShownMediaType(p.body)
    ensures p.body.kind == Body.Reader ==> Body.ShownMediaType(p.body) == []
  {
    Builder.ReachableFromNew(ops);
    OwnedTypeIsSent(s, p, clientOrder, requestOrder);
    OwnedTypeIsShown(s);
  }

  lemma OwnedTypeIsShown(s: Builder.State)
    requires Builder.OwnsContentType(s) && s.body.generated && s.body.kind != Body.MultipartForm
    ensures Body.ShownMediaType(s.body) == if s.body.kind == Body.Reader then [] else s.body.contentType
  {
  }
}
