/** Noninterference of Prepare: its result, and the error it reports under any
    context, depend on nothing that is tagged private. */
module Disclosure {
  import opened Base
  import opened Headers
  import opened Sorting
  import opened OrderedHeaders
  import opened Prepared
  import Body

  // ------------------------------------------------ forgetting private content

  function EraseValue(v: Value): Value {
    if v.public then v else Private([])
  }

  function EraseValues(values: seq<Value>): seq<Value> {
    seq(|values|, i requires 0 <= i < |values| => EraseValue(values[i]))
  }

  function EraseOccurrence(o: Occurrence): Occurrence {
    Named(o.name, EraseValue(o.value))
  }

  function EraseAll(occs: seq<Occurrence>): seq<Occurrence> {
    seq(|occs|, i requires 0 <= i < |occs| => EraseOccurrence(occs[i]))
  }

  function EraseParams(params: seq<PathParam>): seq<PathParam> {
    seq(|params|, i requires 0 <= i < |params| => PathParam(EraseValue(params[i].value), params[i].counts))
  }

  function Blank(n: nat): seq<Text> {
    seq(n, i => [])
  }

  function EraseOrdered(o: Ordered): Ordered {
    seq(|o|, i requires 0 <= i < |o| => Entry(o[i].key, Blank(|o[i].values|)))
  }

  /** A multipart body without field values, file metadata and settings. */
  function EraseMultipart(m: Body.Multipart): Body.Multipart {
    Body.Multipart(
      map k | k in m.fields :: Blank(|m.fields[k]|),
      seq(|m.parts|, i requires 0 <= i < |m.parts| => m.parts[i].(filename := [], contentType := [])),
      [], None)
  }

  /** A form with one private field keeps only its tags: no name and no value
      of it reaches the projection. An all-public form is kept. */
  function EraseForm(form: seq<Occurrence>): seq<Occurrence> {
    if FirstPrivate(form) == |form| then form
    else seq(|form|, i requires 0 <= i < |form| => Named([], Value([], form[i].value.public)))
  }

  /** Headers whose values are withheld whatever their tag. */
  predicate NeverShown(name: Text) {
    Withheld(name) || EqualFold(name, CONTENT_TYPE)
  }

  function EraseHeader(o: Occurrence): Occurrence {
    if NeverShown(o.name) then Named(o.name, Value([], o.value.public)) else EraseOccurrence(o)
  }

  function EraseHeaders(occs: seq<Occurrence>): seq<Occurrence> {
    seq(|occs|, i requires 0 <= i < |occs| => EraseHeader(occs[i]))
  }

  function EraseBody(body: Body.Plan): Body.Plan {
    Body.Plan(
      body.kind, EraseValue(body.content), EraseForm(body.form),
      if body.multipart.Some? then Some(EraseMultipart(body.multipart.value)) else None,
      [], body.generated, None, body.nilReader)
  }

  /** The public part of a plan: names, tags, multiplicities, counts and public
      content, without the resolved path. */
  function Erase(p: Plan): Plan {
    Plan(
      p.verb, p.scheme, p.host, [],
      EraseValue(p.path), p.basePathPrivate, EraseParams(p.params),
      EraseAll(p.query), EraseHeaders(p.headers), p.auths,
      if p.ordered.Some? then Some(EraseOrdered(p.ordered.value)) else None,
      EraseAll(p.cookies), EraseBody(p.body), [])
  }

  // ------------------------------------------------------- rows and groups

  lemma SameSnoc<T>(a: seq<T>, b: seq<T>, x: T, y: T)
    requires a == b && x == y
    ensures a + [x] == b + [y]
  {
  }

  lemma ViewsErased(values: seq<Value>)
    ensures Views(EraseValues(values)) == Views(values)
  {
  }

  lemma {:induction false} ValuesForErased(s: seq<Occurrence>, name: Text)
    ensures ValuesFor(EraseAll(s), name) == EraseValues(ValuesFor(s, name))
  {
    if s == [] {
    } else {
      assert EraseAll(s)[1..] == EraseAll(s[1..]);
      ValuesForErased(s[1..], name);
    }
  }

  lemma NamesErased(s: seq<Occurrence>)
    ensures NameSet(EraseAll(s)) == NameSet(s)
  {
    assert forall i :: 0 <= i < |s| ==> EraseAll(s)[i].name == s[i].name;
  }

  lemma {:induction false} RowChecksEqual<V>(a: seq<Named<V>>, b: seq<Named<V>>, names: seq<Text>, n: nat)
    requires n <= |names|
    requires forall name :: |ValuesFor(a, name)| == |ValuesFor(b, name)|
    ensures RowChecks(a, names, n) == RowChecks(b, names, n)
  {
    if n == 0 {
    } else {
      RowChecksEqual(a, b, names, n - 1);
    }
  }

  lemma {:induction false} QueryRowsErased(s: seq<Occurrence>, names: seq<Text>, n: nat)
    requires n <= |names|
    ensures QueryRows(EraseAll(s), names, n) == QueryRows(s, names, n)
  {
    if n == 0 {
    } else {
      QueryRowsErased(s, names, n - 1);
      var name := names[n - 1];
      ValuesForErased(s, name);
      ViewsErased(ValuesFor(s, name));
      SameSnoc(QueryRows(EraseAll(s), names, n - 1), QueryRows(s, names, n - 1),
               Row(name, Views(ValuesFor(EraseAll(s), name))), Row(name, Views(ValuesFor(s, name))));
    }
  }

  lemma QueryErased(s: seq<Occurrence>)
    ensures QueryOutcome(EraseAll(s)) == QueryOutcome(s)
  {
    NamesErased(s);
    var names := SortedKeys(NameSet(s));
    forall name
      ensures |ValuesFor(EraseAll(s), name)| == |ValuesFor(s, name)|
    {
      ValuesForErased(s, name);
    }
    RowChecksEqual(EraseAll(s), s, names, |names|);
    QueryRowsErased(s, names, |names|);
  }

  lemma {:induction false} FoldedErased(headers: seq<Occurrence>, key: Text)
    ensures ValuesFor(Folded(EraseHeaders(headers)), key) == EraseHeaders(ValuesFor(Folded(headers), key))
    ensures forall i :: 0 <= i < |ValuesFor(Folded(headers), key)| ==> Fold(ValuesFor(Folded(headers), key)[i].name) == key
  {
    if headers == [] {
    } else {
      assert EraseHeaders(headers)[1..] == EraseHeaders(headers[1..]);
      assert Folded(EraseHeaders(headers))[1..] == Folded(EraseHeaders(headers[1..]));
      assert Folded(headers)[1..] == Folded(headers[1..]);
      FoldedErased(headers[1..], key);
    }
  }

  lemma HeaderKeysErased(p: Plan)
    ensures HeaderKeys(Erase(p)) == HeaderKeys(p)
  {
    var e := EraseHeaders(p.headers);
    assert forall i :: 0 <= i < |p.headers| ==> Folded(e)[i].name == Folded(p.headers)[i].name;
    assert NameSet(Folded(e)) == NameSet(Folded(p.headers));
  }

  lemma HeaderRowErased(p: Plan, key: Text)
    ensures HeaderRow(Erase(p), key) == HeaderRow(p, key)
    ensures |ValuesFor(Folded(EraseHeaders(p.headers)), key)| == |ValuesFor(Folded(p.headers), key)|
  {
    var occs := ValuesFor(Folded(p.headers), key);
    FoldedErased(p.headers, key);
    if occs != [] {
      HeaderViewsErased(occs[0].name, occs, Body.ShownMediaType(p.body));
    }
  }

  lemma HeaderViewsErased(name: Text, occs: seq<Occurrence>, mediaType: Text)
    requires forall i :: 0 <= i < |occs| ==> EqualFold(occs[i].name, name)
    ensures HeaderViews(name, EraseHeaders(occs), mediaType) == HeaderViews(name, occs, mediaType)
  {
    forall i | 0 <= i < |occs|
      ensures HeaderView(name, EraseHeaders(occs), i, mediaType) == HeaderView(name, occs, i, mediaType)
    {
      assert EraseHeaders(occs)[i] == EraseHeader(occs[i]);
    }
  }

  ghost predicate RowsAgree(p: Plan, q: Plan) {
    forall key :: HeaderRow(p, key) == HeaderRow(q, key)
  }

  predicate SameRows(p: Plan, q: Plan, keys: seq<Text>, n: nat)
    requires n <= |keys|
  {
    HeaderRows(p, keys, n) == HeaderRows(q, keys, n)
  }

  lemma HeaderRowsStep(p: Plan, q: Plan, keys: seq<Text>, n: nat)
    requires 0 < n <= |keys| && SameRows(p, q, keys, n - 1) && RowsAgree(p, q)
    ensures SameRows(p, q, keys, n)
  {
    SameSnoc(HeaderRows(p, keys, n - 1), HeaderRows(q, keys, n - 1), HeaderRow(p, keys[n - 1]), HeaderRow(q, keys[n - 1]));
  }

  lemma {:induction false} HeaderRowsAlike(p: Plan, q: Plan, keys: seq<Text>, n: nat)
    requires n <= |keys| && RowsAgree(p, q)
    ensures SameRows(p, q, keys, n)
  {
    if n == 0 {
    } else {
      HeaderRowsAlike(p, q, keys, n - 1);
      HeaderRowsStep(p, q, keys, n);
    }
  }

  lemma ErasedRowsAgree(p: Plan)
    ensures RowsAgree(Erase(p), p)
  {
    forall key
      ensures HeaderRow(Erase(p), key) == HeaderRow(p, key)
    {
      HeaderRowErased(p, key);
    }
  }

  lemma HeadersErased(p: Plan)
    ensures HeadersOutcome(Erase(p)) == HeadersOutcome(p)
  {
    HeaderKeysErased(p);
    var keys := SortedKeys(HeaderKeys(p));
    forall key
      ensures |ValuesFor(Folded(EraseHeaders(p.headers)), key)| == |ValuesFor(Folded(p.headers), key)|
    {
      HeaderRowErased(p, key);
    }
    RowChecksEqual(Folded(EraseHeaders(p.headers)), Folded(p.headers), keys, |keys|);
    ErasedRowsAgree(p);
    HeaderRowsAlike(Erase(p), p, keys, |keys|);
  }

  lemma {:induction false} EntryChecksErased(o: Ordered, n: nat)
    requires n <= |o|
    ensures EntryChecks(EraseOrdered(o), n) == EntryChecks(o, n)
  {
    if n == 0 {
    } else {
      EntryChecksErased(o, n - 1);
    }
  }

  lemma OrderedRowErased(p: Plan, o: Ordered, i: nat)
    requires i < |o|
    ensures OrderedRow(Erase(p), EraseOrdered(o)[i]) == OrderedRow(p, o[i])
  {
    HeaderKeysErased(p);
    HeaderRowErased(p, Fold(o[i].key));
  }

  lemma {:induction false} OrderedRowsAlike(p: Plan, q: Plan, a: Ordered, b: Ordered, n: nat)
    requires n <= |a| == |b|
    requires forall i :: 0 <= i < |a| ==> OrderedRow(p, a[i]) == OrderedRow(q, b[i])
    ensures OrderedRows(p, a, n) == OrderedRows(q, b, n)
  {
    if n == 0 {
    } else {
      OrderedRowsAlike(p, q, a, b, n - 1);
    }
  }

  lemma OrderedErased(p: Plan)
    ensures OrderedOutcome(Erase(p)) == OrderedOutcome(p)
  {
    if p.ordered.Some? {
      var o := p.ordered.value;
      EntryChecksErased(o, |o|);
      forall i | 0 <= i < |o|
        ensures OrderedRow(Erase(p), EraseOrdered(o)[i]) == OrderedRow(p, o[i])
      {
        OrderedRowErased(p, o, i);
      }
      OrderedRowsAlike(Erase(p), p, EraseOrdered(o), o, |o|);
    }
  }

  // ---------------------------------------------------------------- the rest

  lemma {:induction false} BlockedErased(params: seq<PathParam>)
    ensures FirstBlocked(EraseParams(params)) == FirstBlocked(params)
  {
    if params == [] {
    } else {
      assert EraseParams(params)[1..] == EraseParams(params[1..]);
      BlockedErased(params[1..]);
    }
  }

  lemma {:induction false} ExposedErased(params: seq<PathParam>)
    ensures FirstExposed(EraseParams(params)) == FirstExposed(params)
  {
    if params == [] {
    } else {
      assert EraseParams(params)[1..] == EraseParams(params[1..]);
      ExposedErased(params[1..]);
    }
  }

  /** Whether the path is shown, and the checks on the way, depend on tags and
      counts only. */
  lemma TargetErased(p: Plan)
    ensures PathPublic(Erase(p)) == PathPublic(p)
    ensures TargetOutcome(Erase(p)).checks == TargetOutcome(p).checks
    ensures EligibleOutcome(Erase(p)) == EligibleOutcome(p)
  {
    BlockedErased(p.params);
    ExposedErased(p.params);
    assert |EraseParams(p.params)| == |p.params|;
  }

  lemma {:induction false} CookieRowsErased(cookies: seq<Occurrence>)
    ensures CookieRows(EraseAll(cookies)) == CookieRows(cookies)
  {
    if cookies == [] {
    } else {
      var front := cookies[..|cookies| - 1];
      assert EraseAll(cookies)[..|cookies| - 1] == EraseAll(front);
      CookieRowsErased(front);
    }
  }

  lemma {:induction false} PrivateByTags(a: seq<Occurrence>, b: seq<Occurrence>)
    requires |a| == |b| && forall i :: 0 <= i < |a| ==> a[i].value.public == b[i].value.public
    ensures FirstPrivate(a) == FirstPrivate(b)
  {
    if a == [] {
    } else {
      PrivateByTags(a[1..], b[1..]);
    }
  }

  lemma FormErased(form: seq<Occurrence>, budget: int)
    ensures FormOutcome(EraseForm(form), budget) == FormOutcome(form, budget)
  {
    PrivateByTags(form, EraseForm(form));
  }

  /** A body other than multipart projects alike without its private content. */
  lemma BodyErased(body: Body.Plan, budget: int, validFile: Body.FilePart -> bool)
    requires body.kind != Body.MultipartForm
    ensures BodyOutcome(EraseBody(body), budget, validFile) == BodyOutcome(body, budget, validFile)
  {
    FormErased(body.form, budget);
  }

  lemma {:induction false} FieldsErased(m: Body.Multipart, keys: seq<Text>, n: nat)
    requires n <= |keys| && forall i :: 0 <= i < |keys| ==> keys[i] in m.fields
    ensures FieldRows(EraseMultipart(m).fields, keys, n) == FieldRows(m.fields, keys, n)
    ensures FieldChecks(EraseMultipart(m).fields, keys, n) == FieldChecks(m.fields, keys, n)
  {
    if n == 0 {
    } else {
      FieldsErased(m, keys, n - 1);
    }
  }

  /** A successful manifest, and the checks on its way, are structural. */
  lemma ManifestErased(m: Body.Multipart)
    ensures ManifestKeys(EraseMultipart(m)) == ManifestKeys(m)
    ensures ManifestOf(EraseMultipart(m)) == ManifestOf(m)
    ensures FieldChecks(EraseMultipart(m).fields, ManifestKeys(m), |ManifestKeys(m)|) ==
            FieldChecks(m.fields, ManifestKeys(m), |ManifestKeys(m)|)
    ensures |EraseMultipart(m).parts| == |m.parts|
  {
    var e := EraseMultipart(m);
    assert e.fields.Keys == m.fields.Keys;
    var keys := ManifestKeys(m);
    FieldsErased(m, keys, |keys|);
    assert FieldNames(e.parts) == FieldNames(m.parts);
  }

  /** Validation finds the same fault, or none, in two multipart bodies. */
  predicate ValidatedAlike(a: Body.Multipart, b: Body.Multipart, validFile: Body.FilePart -> bool) {
    ValidSettings(a) == ValidSettings(b) && FirstBadPart(a.parts, validFile) == FirstBadPart(b.parts, validFile)
  }

  lemma ManifestAlike(a: Body.Multipart, b: Body.Multipart, validFile: Body.FilePart -> bool)
    requires EraseMultipart(a) == EraseMultipart(b) && ValidatedAlike(a, b, validFile)
    ensures ManifestOutcome(a, validFile) == ManifestOutcome(b, validFile)
  {
    ManifestErased(a);
    ManifestErased(b);
  }

  lemma MultipartAlike(a: Body.Plan, b: Body.Plan, budget: int, validFile: Body.FilePart -> bool)
    requires a.kind == Body.MultipartForm && EraseBody(a) == EraseBody(b)
    requires a.multipart.Some? ==> ValidatedAlike(a.multipart.value, b.multipart.value, validFile)
    ensures BodyOutcome(a, budget, validFile) == BodyOutcome(b, budget, validFile)
  {
    if a.multipart.Some? {
      ManifestAlike(a.multipart.value, b.multipart.value, validFile);
    }
  }

  // -------------------------------------------------------------- whole plans

  /** Two bodies with the same public part, in which validation finds the same
      fault or none. */
  predicate BodiesAlike(a: Body.Plan, b: Body.Plan, validFile: Body.FilePart -> bool) {
    && EraseBody(a) == EraseBody(b)
    && (a.kind == Body.MultipartForm && a.multipart.Some? && b.multipart.Some? ==>
          ValidatedAlike(a.multipart.value, b.multipart.value, validFile))
  }

  lemma BodyAlike(a: Body.Plan, b: Body.Plan, budget: int, validFile: Body.FilePart -> bool)
    requires BodiesAlike(a, b, validFile)
    ensures BodyOutcome(a, budget, validFile) == BodyOutcome(b, budget, validFile)
  {
    if a.kind == Body.MultipartForm {
      SamePartCount(a, b);
      MultipartAlike(a, b, budget, validFile);
    } else {
      BodyErased(a, budget, validFile);
      BodyErased(b, budget, validFile);
    }
  }

  lemma PartsAlike(p: Plan, q: Plan)
    requires Erase(p) == Erase(q)
    ensures QueryOutcome(p.query) == QueryOutcome(q.query)
    ensures HeadersOutcome(p) == HeadersOutcome(q)
    ensures OrderedOutcome(p) == OrderedOutcome(q)
    ensures CookiesOutcome(p.cookies) == CookiesOutcome(q.cookies)
    ensures EligibleOutcome(p) == EligibleOutcome(q)
  {
    TargetErased(p); TargetErased(q);
    QueryErased(p.query); QueryErased(q.query);
    HeadersErased(p); HeadersErased(q);
    OrderedErased(p); OrderedErased(q);
    CookieRowsErased(p.cookies); CookieRowsErased(q.cookies);
    assert |EraseAll(p.cookies)| == |p.cookies| && |EraseAll(q.cookies)| == |q.cookies|;
  }

  /** The projection depends on the plan through its parts only. */
  lemma WholeAlike(p: Plan, q: Plan, budget: int, validFile: Body.FilePart -> bool)
    requires p.verb == q.verb && TargetOutcome(p) == TargetOutcome(q) && QueryOutcome(p.query) == QueryOutcome(q.query)
    requires HeadersOutcome(p) == HeadersOutcome(q) && OrderedOutcome(p) == OrderedOutcome(q)
    requires CookiesOutcome(p.cookies) == CookiesOutcome(q.cookies)
    requires BodyOutcome(p.body, budget, validFile) == BodyOutcome(q.body, budget, validFile)
    ensures PrepareOutcome(p, budget, validFile) == PrepareOutcome(q, budget, validFile)
  {
    assert BodyTail(p, budget, validFile) == BodyTail(q, budget, validFile);
    assert OrderedTail(p, budget, validFile) == OrderedTail(q, budget, validFile);
    assert QueryTail(p, budget, validFile) == QueryTail(q, budget, validFile);
    assert Projected(p, budget, validFile) == Projected(q, budget, validFile);
  }

  /** Plans with the same public part that agree on the shown target, if they
      are eligible at all, are prepared alike. */
  lemma PlansAlike(p: Plan, q: Plan, budget: int, validFile: Body.FilePart -> bool)
    requires Erase(p) == Erase(q) && BodiesAlike(p.body, q.body, validFile)
    requires EligibleOutcome(p).result.Success? ==> TargetOutcome(p) == TargetOutcome(q)
    ensures EligibleOutcome(p) == EligibleOutcome(q)
    ensures EligibleOutcome(p).result.Success? ==> PrepareOutcome(p, budget, validFile) == PrepareOutcome(q, budget, validFile)
  {
    PartsAlike(p, q);
    BodyAlike(p.body, q.body, budget, validFile);
    if EligibleOutcome(p).result.Success? {
      WholeAlike(p, q, budget, validFile);
    }
  }

  lemma SamePartCount(a: Body.Plan, b: Body.Plan)
    requires EraseBody(a) == EraseBody(b)
    ensures a.kind == b.kind && a.multipart.Some? == b.multipart.Some?
    ensures a.multipart.Some? ==> |a.multipart.value.parts| == |b.multipart.value.parts|
  {
    if a.multipart.Some? {
      assert |EraseMultipart(a.multipart.value).parts| == |a.multipart.value.parts|;
    }
  }

  /** A projection that succeeds found nothing wrong with its multipart body. */
  lemma SuccessValidated(p: Plan, budget: int, validFile: Body.FilePart -> bool)
    requires PrepareOutcome(p, budget, validFile).result.Success? && p.body.kind == Body.MultipartForm
    ensures p.body.multipart.Some?
    ensures
      var m := p.body.multipart.value;
      ValidSettings(m) && FirstBadPart(m.parts, validFile) == |m.parts|
  {
    assert BodyTail(p, budget, validFile).result.Success?;
    assert BodyOutcome(p.body, budget, validFile).result.Success?;
  }

  lemma SuccessesAlike(p: Plan, q: Plan, budget: int, validFile: Body.FilePart -> bool)
    requires EraseBody(p.body) == EraseBody(q.body)
    requires PrepareOutcome(p, budget, validFile).result.Success? && PrepareOutcome(q, budget, validFile).result.Success?
    ensures BodiesAlike(p.body, q.body, validFile)
  {
    SamePartCount(p.body, q.body);
    if p.body.kind == Body.MultipartForm {
      SuccessValidated(p, budget, validFile);
      SuccessValidated(q, budget, validFile);
    }
  }
}
