/** What Prepare shows is what delivery sends, across the components: the body
    bytes and the generated Content-Type. */
module Agreement {
  import opened Base
  import opened Headers
  import opened Sorting
  import opened OrderedHeaders
  import Body
  import Builder
  import P = Prepared
  import D = DeliveredHeaders
  import S = Disclosed
  import Effects = BuilderEffects
  import H = HeaderPlan
  import M = Materialize
  import Retry

  /** Bytes that Prepare retains are the bytes delivery offers. */
  lemma PreparedBytesAreSent(plan: Body.Plan, contentType: Text, env: M.Env, budget: int, validFile: Body.FilePart -> bool)
    requires P.BodyOutcome(plan, budget, validFile).result.Success?
    requires P.BodyOutcome(plan, budget, validFile).result.value.data.Present?
    ensures M.Build(plan, contentType, env).Success?
    ensures Retry.Content(M.Build(plan, contentType, env).value.body) ==
            P.BodyOutcome(plan, budget, validFile).result.value.data.value
  {
    match plan.kind
    case Form =>
      assert forall i :: 0 <= i < |plan.form| ==> plan.form[i].value.public;
      P.FastPathRefinesEncode(plan.form, budget);
    case _ =>
  }

  /** A row of a name that shows content shows all values the plan has under it. */
  lemma PlainRowShows(p: P.Plan, prep: P.Preparation, i: nat, key: Text, values: seq<Value>)
    requires S.HeadersShown(p, prep.headers) && i < |prep.headers| && EqualFold(prep.headers[i].name, key)
    requires !S.Secret(key) && !EqualFold(key, CONTENT_TYPE)
    requires Tagged(p.headers, prep.headers[i].name) == values != []
    ensures S.ShowsEach(values, prep.headers[i].values)
  {
    assert S.HeaderShown(p, prep.headers[i]);
  }

  /** From the builder to the preparation: a header that a reachable builder sets is
      shown with its content exactly when it was tagged public, whatever the client's
      defaults; credentials, cookies and the Content-Type are the exceptions. */
  lemma SetHeaderIsDisclosed(s: Builder.State, key: Text, value: Value, d: D.Plan, p: P.Plan, prep: P.Preparation, i: nat)
    requires Builder.Inv(s) && d.request.headers == Builder.Step(s, Builder.SetHeader(key, value)).headers
    requires p.headers == D.PlanHeaders(d) && S.HeadersShown(p, prep.headers)
    requires i < |prep.headers| && EqualFold(prep.headers[i].name, key)
    requires !S.Secret(key) && !EqualFold(key, CONTENT_TYPE)
    ensures prep.headers[i].values == [if value.public then P.Present(value.raw) else P.Redacted]
  {
    Effects.SetHeaderEffect(s, key, value, prep.headers[i].name);
    H.PlannedMeaning(d.client.headers, d.request.headers, prep.headers[i].name);
    TaggedRaw(d.request.headers, prep.headers[i].name);
    PlainRowShows(p, prep, i, key, [value]);
  }

  /** The same for a header of several values that calls to AddHeader built up. */
  lemma AddHeaderIsDisclosed(s: Builder.State, key: Text, value: Value, d: D.Plan, p: P.Plan, prep: P.Preparation, i: nat)
    requires Builder.Inv(s) && d.request.headers == Builder.Step(s, Builder.AddHeader(key, value)).headers
    requires p.headers == D.PlanHeaders(d) && S.HeadersShown(p, prep.headers)
    requires i < |prep.headers| && EqualFold(prep.headers[i].name, key)
    requires !S.Secret(key) && !EqualFold(key, CONTENT_TYPE)
    ensures S.ShowsEach(Tagged(s.headers, prep.headers[i].name) + [value], prep.headers[i].values)
  {
    Effects.AddHeaderEffect(s, key, value, prep.headers[i].name);
    H.PlannedMeaning(d.client.headers, d.request.headers, prep.headers[i].name);
    TaggedRaw(d.request.headers, prep.headers[i].name);
    PlainRowShows(p, prep, i, key, Tagged(s.headers, prep.headers[i].name) + [value]);
  }

  /** In every state that keeps the invariant Prepare names the media type that the
      body choice installed as Content-Type; a multipart form has its own, and a
      reader none. */
  lemma ShownTypeIsInstalled(s: Builder.State)
    requires Builder.Inv(s)
    ensures Body.ShownMediaType(s.body) ==
            if !s.body.generated || s.body.kind == Body.Reader then []
            else if s.body.kind == Body.MultipartForm then "multipart/form-data"
            else s.body.contentType
  {
    OwnedType(s);
  }

  lemma OwnedType(s: Builder.State)
    requires Builder.OwnsContentType(s)
    ensures s.body.generated && s.body.kind != Body.Reader && s.body.kind != Body.MultipartForm ==>
              Body.MediaType(s.body.kind) == s.body.contentType
  {
  }

  lemma {:induction false} FoldedGroup(headers: seq<Occurrence>, name: Text)
    ensures |ValuesFor(P.Folded(headers), Fold(name))| == |ValuesOf(headers, name)|
    ensures forall i :: 0 <= i < |ValuesFor(P.Folded(headers), Fold(name))| ==>
              EqualFold(ValuesFor(P.Folded(headers), Fold(name))[i].name, name)
  {
    if headers == [] {
    } else {
      assert P.Folded(headers)[1..] == P.Folded(headers[1..]);
      FoldedGroup(headers[1..], name);
    }
  }

  lemma ContentTypeIsShown(name: Text)
    requires EqualFold(name, CONTENT_TYPE)
    ensures !P.Withheld(name)
  {
    assert |Fold(CONTENT_TYPE)| == 12 && |Fold(AUTHORIZATION)| == 13;
    assert |Fold(PROXY_AUTHORIZATION)| == 19 && |Fold(COOKIE)| == 6;
  }

  /** The row of a name with one value shows the generated media type. */
  lemma OneTypeRow(p: P.Plan)
    requires |ValuesOf(p.headers, CONTENT_TYPE)| == 1 && Body.ShownMediaType(p.body) != []
    ensures P.HeaderRow(p, Fold(CONTENT_TYPE)).values == [P.Present(Body.ShownMediaType(p.body))]
  {
    FoldedGroup(p.headers, CONTENT_TYPE);
    var occs := ValuesFor(P.Folded(p.headers), Fold(CONTENT_TYPE));
    ContentTypeIsShown(occs[0].name);
  }

  /** A reachable builder that owns its Content-Type leaves one such value in the plan. */
  lemma OneTypePlanned(s: Builder.State, d: D.Plan)
    requires Builder.OwnsContentType(s) && d.request.headers == s.headers
    requires s.body.kind != Body.MultipartForm && s.body.generated
    ensures ValuesOf(D.PlanHeaders(d), CONTENT_TYPE) == [s.body.contentType]
  {
    H.PlannedMeaning(d.client.headers, d.request.headers, CONTENT_TYPE);
  }

  /** In every reachable builder state with a generated, non-multipart media
      type, Prepare shows exactly the one Content-Type that delivery sends. */
  lemma ShownTypeIsSent(ops: seq<Builder.Op>, s: Builder.State, d: D.Plan, p: P.Plan,
                        clientOrder: seq<Text>, requestOrder: seq<Text>)
    requires forall i :: 0 <= i < |ops| ==> Builder.ValidOp(ops[i])
    requires s == Builder.Run(Builder.INITIAL, ops)
    requires d.request == D.Layer(s.headers, s.ordered) && d.body == s.body
    requires Builder.Coupled(d.client.headers, d.client.ordered)
    requires H.IterationOrder(clientOrder, H.Collect(map[], d.client.headers).Keys)
    requires H.IterationOrder(requestOrder, H.Collect(map[], d.request.headers).Keys)
    requires p.headers == D.PlanHeaders(d) && p.body == s.body
    requires s.body.kind != Body.MultipartForm && Body.ShownMediaType(s.body) != []
    ensures
      var sent := H.HeaderValues(D.Delivered(d, D.LocalContentType(d.request), clientOrder, requestOrder), CONTENT_TYPE);
      && |sent| == 1
      && P.HeaderRow(p, Fold(CONTENT_TYPE)).values == [P.Present(sent[0])]
  {
    Builder.ReachableFromNew(ops);
    D.GeneratedTypeIsSent(ops, s, d, clientOrder, requestOrder);
    OneTypePlanned(s, d);
    OneTypeRow(p);
  }
}
