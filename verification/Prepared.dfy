/** What Prepare discloses: the view of a plan that its disclosure tags permit,
    with the checkpoints passed on the way (request_preparation.go). */
module Prepared {
  import opened Base
  import opened Headers
  import opened Sorting
  import opened Checkpoints
  import opened OrderedHeaders
  import opened FormBudget
  import opened TraceGuard
  import Body

  datatype PreparedString = Redacted | Present(value: Text)

  /** One named set of policy-filtered values: a query name, header or field. */
  datatype Row = Row(name: Text, values: seq<PreparedString>)

  datatype Target = Target(scheme: Text, authority: Text, path: PreparedString)

  datatype Manifest = Manifest(fields: seq<Row>, files: seq<Text>)

  datatype PreparedBody = PreparedBody(kind: Body.Kind, mediaType: Text, data: PreparedString, manifest: Option<Manifest>)

  datatype Preparation = Preparation(
    verb: Text, target: Target, query: seq<Row>, headers: seq<Row>, ordered: seq<Row>, cookies: seq<Row>,
    body: PreparedBody)

  /** One traced path parameter: its value and where its placeholders are. */
  datatype PathParam = PathParam(value: Value, counts: Counts)

  /** What builtInAuthShape makes of an auth method. */
  datatype AuthShape = BuiltIn | Malformed | Custom

  /** The compiled plan, as far as Prepare reads it. `localType` is the request's
      own Content-Type, client defaults aside. */
  datatype Plan = Plan(
    verb: Text, scheme: Text, host: Text, escapedPath: Text,
    path: Value, basePathPrivate: bool, params: seq<PathParam>,
    query: seq<Occurrence>, headers: seq<Occurrence>, auths: seq<AuthShape>, ordered: Option<Ordered>,
    cookies: seq<Occurrence>, body: Body.Plan, localType: Text)

  function View(v: Value): PreparedString {
    if v.public then Present(v.raw) else Redacted
  }

  function Views(values: seq<Value>): seq<PreparedString> {
    seq(|values|, i requires 0 <= i < |values| => View(values[i]))
  }

  // ------------------------------------------------------------------ target

  /** The first private parameter substituted into the path, or the length. */
  function FirstBlocked(params: seq<PathParam>): (i: nat)
    ensures i <= |params|
  {
    if params == [] || (params[0].counts.inPath > 0 && !params[0].value.public) then 0 else 1 + FirstBlocked(params[1..])
  }

  predicate PathPublic(p: Plan) {
    p.path.public && !p.basePathPrivate && FirstBlocked(p.params) == |p.params|
  }

  function TargetOutcome(p: Plan): Outcome<Target> {
    Outcome(Ticks(Min(FirstBlocked(p.params) + 1, |p.params|)),
            Success(Target(p.scheme, p.host, if PathPublic(p) then Present(p.escapedPath) else Redacted)))
  }

  // ------------------------------------------------------------- eligibility

  /** A private value in a place that Prepare always shows. */
  predicate Exposed(param: PathParam) {
    !param.value.public && (param.counts.inScheme > 0 || param.counts.inAuthority > 0 || param.counts.inQueryName > 0)
  }

  function FirstExposed(params: seq<PathParam>): (i: nat)
    ensures i <= |params|
    ensures i < |params| ==> Exposed(params[i])
    ensures forall j :: 0 <= j < i ==> !Exposed(params[j])
  {
    if params == [] || Exposed(params[0]) then 0 else 1 + FirstExposed(params[1..])
  }

  function AuthResult(auths: seq<AuthShape>): Result<(), PrepError> {
    if auths == [] then Success(())
    else match auths[0]
      case BuiltIn => AuthResult(auths[1..])
      case Malformed => Failure(InvalidConfig)
      case Custom => Failure(NotPreparable)
  }

  /** validatePreparationEligibility. */
  function EligibleOutcome(p: Plan): Outcome<()> {
    var i := FirstExposed(p.params);
    Outcome(Ticks(Min(i + 1, |p.params|)), if i < |p.params| then Failure(NotPreparable) else AuthResult(p.auths))
  }

  // ------------------------------------------------------- names and groups

  function NameSet<V>(s: seq<Named<V>>): set<Text> {
    set i | 0 <= i < |s| :: s[i].name
  }

  /** Checks of the row loop for its first n names: one every 64 names, and one
      every 64 values of each. */
  function RowChecks<V>(s: seq<Named<V>>, names: seq<Text>, n: nat): nat
    requires n <= |names|
  {
    if n == 0 then 0 else RowChecks(s, names, n - 1) + Due(n - 1) + Ticks(|ValuesFor(s, names[n - 1])|)
  }

  /** The rows of the first n names. */
  function QueryRows(s: seq<Occurrence>, names: seq<Text>, n: nat): seq<Row>
    requires n <= |names|
  {
    if n == 0 then [] else QueryRows(s, names, n - 1) + [Row(names[n - 1], Views(ValuesFor(s, names[n - 1])))]
  }

  function QueryOutcome(s: seq<Occurrence>): Outcome<seq<Row>> {
    var names := SortedKeys(NameSet(s));
    Outcome(Ticks(|s|) + 2 + RowChecks(s, names, |names|), Success(QueryRows(s, names, |names|)))
  }

  // ----------------------------------------------------------------- headers

  /** Header occurrences under their folded names. */
  function Folded(headers: seq<Occurrence>): seq<Named<Occurrence>> {
    seq(|headers|, i requires 0 <= i < |headers| => Named(Fold(headers[i].name), headers[i]))
  }

  function HeaderKeys(p: Plan): set<Text> {
    NameSet(Folded(p.headers)) + if p.auths != [] then {Fold(AUTHORIZATION)} else {}
  }

  predicate Withheld(name: Text) {
    EqualFold(name, AUTHORIZATION) || EqualFold(name, PROXY_AUTHORIZATION) || EqualFold(name, COOKIE)
  }

  function HeaderView(name: Text, occs: seq<Occurrence>, i: nat, mediaType: Text): PreparedString
    requires i < |occs|
  {
    if Withheld(name) then Redacted
    else if EqualFold(name, CONTENT_TYPE) then (if i == 0 && mediaType != [] then Present(mediaType) else Redacted)
    else View(occs[i].value)
  }

  function HeaderViews(name: Text, occs: seq<Occurrence>, mediaType: Text): seq<PreparedString> {
    if occs == [] then [Redacted]
    else seq(|occs|, i requires 0 <= i < |occs| => HeaderView(name, occs, i, mediaType))
  }

  function HeaderRow(p: Plan, key: Text): Row {
    var occs := ValuesFor(Folded(p.headers), key);
    var name := if occs == [] then AUTHORIZATION else occs[0].name;
    Row(name, HeaderViews(name, occs, Body.ShownMediaType(p.body)))
  }

  function HeaderRows(p: Plan, keys: seq<Text>, n: nat): seq<Row>
    requires n <= |keys|
  {
    if n == 0 then [] else HeaderRows(p, keys, n - 1) + [HeaderRow(p, keys[n - 1])]
  }

  function HeadersOutcome(p: Plan): Outcome<seq<Row>> {
    var keys := SortedKeys(HeaderKeys(p));
    Outcome(Ticks(|p.headers|) + 2 + RowChecks(Folded(p.headers), keys, |keys|), Success(HeaderRows(p, keys, |keys|)))
  }

  function Positions(shown: seq<PreparedString>, n: nat): seq<PreparedString> {
    if n == 0 then [] else Positions(shown, n - 1) + [if n - 1 < |shown| then shown[n - 1] else Redacted]
  }

  /** An ordered entry shows the semantic header's views, position by position. */
  function OrderedRow(p: Plan, e: Entry): Row {
    var key := Fold(e.key);
    var shown := if key in HeaderKeys(p) then HeaderRow(p, key).values else [];
    Row(e.key, Positions(shown, |e.values|))
  }

  function OrderedRows(p: Plan, entries: Ordered, n: nat): seq<Row>
    requires n <= |entries|
  {
    if n == 0 then [] else OrderedRows(p, entries, n - 1) + [OrderedRow(p, entries[n - 1])]
  }

  function EntryChecks(entries: Ordered, n: nat): nat
    requires n <= |entries|
  {
    if n == 0 then 0 else EntryChecks(entries, n - 1) + Due(n - 1) + Ticks(|entries[n - 1].values|)
  }

  function OrderedOutcome(p: Plan): Outcome<seq<Row>> {
    if p.ordered.None? then Outcome(0, Success([]))
    else
      var entries := p.ordered.value;
      Outcome(2 + EntryChecks(entries, |entries|), Success(OrderedRows(p, entries, |entries|)))
  }

  // ----------------------------------------------------------------- cookies

  /** http.Cookie.Valid for a cookie with only a name. */
  predicate ValidCookieName(name: Text) {
    name != [] && IsToken(name)
  }

  function CookieRows(cookies: seq<Occurrence>): seq<Row> {
    if cookies == [] then []
    else
      var last := cookies[|cookies| - 1];
      CookieRows(cookies[..|cookies| - 1]) +
      if ValidCookieName(last.name) then [Row(last.name, [View(last.value)])] else []
  }

  function CookiesOutcome(cookies: seq<Occurrence>): Outcome<seq<Row>> {
    Outcome(Ticks(|cookies|), Success(CookieRows(cookies)))
  }

  // -------------------------------------------------------------------- body

  /** retainPreparedBytes. */
  function RetainOutcome(data: Text, budget: int): Outcome<PreparedString> {
    if |data| > budget then Outcome(1, Failure(BodyTooLarge)) else Outcome(2, Success(Present(data)))
  }

  function FirstPrivate(form: seq<Occurrence>): (i: nat)
    ensures i <= |form|
    ensures i < |form| ==> !form[i].value.public
    ensures forall j :: 0 <= j < i ==> form[j].value.public
  {
    if form == [] || !form[0].value.public then 0 else 1 + FirstPrivate(form[1..])
  }

  /** The first occurrence at which the running total exceeds the budget. */
  function FirstExceeding(form: seq<Occurrence>, budget: int, from: nat): (i: nat)
    requires from <= |form|
    ensures from <= i <= |form|
    ensures i < |form| ==> LowerBound(form, i + 1) > budget
    ensures forall j :: from < j <= i ==> LowerBound(form, j) <= budget
    decreases |form| - from
  {
    if from == |form| || LowerBound(form, from + 1) > budget then from else FirstExceeding(form, budget, from + 1)
  }

  function FormOutcome(form: seq<Occurrence>, budget: int): Outcome<PreparedString> {
    var n := |form|;
    var k := FirstPrivate(form);
    if form == [] then Outcome(0, Success(Redacted))
    else if k < n then Outcome(Ticks(k + 1), Success(Redacted))
    else
      var j := FirstExceeding(form, budget, 0);
      if j < n then Outcome(Ticks(n) + 1 + Ticks(j + 1) + 1, Failure(BodyTooLarge))
      else
        var r := RetainOutcome(FormBytes(form), budget);
        Outcome(Ticks(n) + 1 + Ticks(n) + r.checks, r.result)
  }

  predicate BoundaryByte(c: Byte) {
    || 'A' <= c <= 'Z' || 'a' <= c <= 'z' || '0' <= c <= '9'
    || c in ['\'', '(', ')', '+', '_', ',', '-', '.', '/', ':', '=', '?']
  }

  /** validMultipartBoundary: up to 70 bytes, no trailing space. */
  predicate ValidBoundary(b: Text) {
    && 1 <= |b| <= 70
    && forall i :: 0 <= i < |b| ==> BoundaryByte(b[i]) || (b[i] == ' ' && i < |b| - 1)
  }

  predicate ValidPart(part: Body.FilePart, validFile: Body.FilePart -> bool) {
    part.field != [] && part.hasBody && validFile(part)
  }

  function FirstBadPart(parts: seq<Body.FilePart>, validFile: Body.FilePart -> bool): (i: nat)
    ensures i <= |parts|
    ensures i < |parts| ==> !ValidPart(parts[i], validFile)
    ensures forall j :: 0 <= j < i ==> ValidPart(parts[j], validFile)
  {
    if parts == [] || !ValidPart(parts[0], validFile) then 0 else 1 + FirstBadPart(parts[1..], validFile)
  }

  function AllRedacted(n: nat): seq<PreparedString> {
    seq(n, i => Redacted)
  }

  function FieldRows(fields: map<Text, seq<Text>>, keys: seq<Text>, n: nat): seq<Row>
    requires n <= |keys| && forall i :: 0 <= i < |keys| ==> keys[i] in fields
  {
    if n == 0 then [] else FieldRows(fields, keys, n - 1) + [Row(keys[n - 1], AllRedacted(|fields[keys[n - 1]]|))]
  }

  function FieldChecks(fields: map<Text, seq<Text>>, keys: seq<Text>, n: nat): nat
    requires n <= |keys| && forall i :: 0 <= i < |keys| ==> keys[i] in fields
  {
    if n == 0 then 0
    else FieldChecks(fields, keys, n - 1) + 1 + Ticks(|fields[keys[n - 1]]|) + if n % 64 == 0 then 1 else 0
  }

  function FieldNames(parts: seq<Body.FilePart>): seq<Text> {
    seq(|parts|, i requires 0 <= i < |parts| => parts[i].field)
  }

  function ManifestKeys(m: Body.Multipart): (keys: seq<Text>)
    ensures forall i :: 0 <= i < |keys| ==> keys[i] in m.fields
  {
    SortedKeysMeaning(m.fields.Keys);
    var keys := SortedKeys(m.fields.Keys);
    assert forall i :: 0 <= i < |keys| ==> keys[i] in keys;
    keys
  }

  function ManifestOf(m: Body.Multipart): Manifest {
    Manifest(FieldRows(m.fields, ManifestKeys(m), |ManifestKeys(m)|), FieldNames(m.parts))
  }

  predicate ValidSettings(m: Body.Multipart) {
    !(m.replayLimit.Some? && m.replayLimit.value < 0) && (m.boundary == [] || ValidBoundary(m.boundary))
  }

  /** prepareMultipartManifest. */
  function ManifestOutcome(m: Body.Multipart, validFile: Body.FilePart -> bool): Outcome<Manifest> {
    var keys := ManifestKeys(m);
    var fields := FieldChecks(m.fields, keys, |keys|);
    var k := FirstBadPart(m.parts, validFile);
    if !ValidSettings(m) then Outcome(1, Failure(InvalidConfig))
    else if k < |m.parts| then Outcome(2 + fields + k + 1, Failure(InvalidConfig))
    else Outcome(2 + fields + |m.parts| + 1, Success(ManifestOf(m)))
  }

  function WithData(base: PreparedBody, o: Outcome<PreparedString>): Outcome<PreparedBody> {
    Outcome(o.checks, if o.result.Failure? then Failure(o.result.error) else Success(base.(data := o.result.value)))
  }

  /** projectPreparedBody. */
  function BodyOutcome(body: Body.Plan, budget: int, validFile: Body.FilePart -> bool): Outcome<PreparedBody> {
    var base := PreparedBody(body.kind, Body.ShownMediaType(body), Redacted, None);
    match body.kind
    case PlainText => if body.content.public then WithData(base, RetainOutcome(body.content.raw, budget)) else Outcome(0, Success(base))
    case RawBytes => if body.content.public then WithData(base, RetainOutcome(body.content.raw, budget)) else Outcome(0, Success(base))
    case Form => WithData(base, FormOutcome(body.form, budget))
    case MultipartForm =>
      if body.multipart.None? then Outcome(0, Failure(InvalidConfig))
      else
        var m := ManifestOutcome(body.multipart.value, validFile);
        Outcome(m.checks, if m.result.Failure? then Failure(m.result.error) else Success(base.(manifest := Some(m.result.value))))
    case _ => Outcome(0, Success(base))
  }

  // ------------------------------------------------------------- the whole

  const ONE_CHECK: Outcome<()> := Outcome(1, Success(()))

  function BodyTail(p: Plan, budget: int, validFile: Body.FilePart -> bool): Outcome<(PreparedBody, ())> {
    Sequence(BodyOutcome(p.body, budget, validFile), ONE_CHECK)
  }

  function CookiesTail(p: Plan, budget: int, validFile: Body.FilePart -> bool): Outcome<(seq<Row>, (PreparedBody, ()))> {
    Sequence(CookiesOutcome(p.cookies), BodyTail(p, budget, validFile))
  }

  function OrderedTail(p: Plan, budget: int, validFile: Body.FilePart -> bool)
    : Outcome<(seq<Row>, (seq<Row>, (PreparedBody, ())))>
  {
    Sequence(OrderedOutcome(p), CookiesTail(p, budget, validFile))
  }

  function HeadersTail(p: Plan, budget: int, validFile: Body.FilePart -> bool)
    : Outcome<(seq<Row>, (seq<Row>, (seq<Row>, (PreparedBody, ()))))>
  {
    Sequence(HeadersOutcome(p), OrderedTail(p, budget, validFile))
  }

  function QueryTail(p: Plan, budget: int, validFile: Body.FilePart -> bool)
    : Outcome<(seq<Row>, (seq<Row>, (seq<Row>, (seq<Row>, (PreparedBody, ())))))>
  {
    Sequence(QueryOutcome(p.query), HeadersTail(p, budget, validFile))
  }

  function TargetTail(p: Plan, budget: int, validFile: Body.FilePart -> bool)
    : Outcome<(Target, (seq<Row>, (seq<Row>, (seq<Row>, (seq<Row>, (PreparedBody, ()))))))>
  {
    Sequence(TargetOutcome(p), QueryTail(p, budget, validFile))
  }

  /** projectRequestPreparation: the projectors in order, between two checks. */
  function Projected(p: Plan, budget: int, validFile: Body.FilePart -> bool)
    : Outcome<((), (Target, (seq<Row>, (seq<Row>, (seq<Row>, (seq<Row>, (PreparedBody, ())))))))>
  {
    Sequence(ONE_CHECK, TargetTail(p, budget, validFile))
  }

  function PrepareOutcome(p: Plan, budget: int, validFile: Body.FilePart -> bool): Outcome<Preparation> {
    var o := Projected(p, budget, validFile);
    Outcome(o.checks,
            if o.result.Failure? then Failure(o.result.error)
            else
              var (_, (target, (query, (headers, (ordered, (cookies, (body, _))))))) := o.result.value;
              Success(Preparation(p.verb, target, query, headers, ordered, cookies, body)))
  }

  // --------------------------------------------------------------- the call

  /** validatePreparationBodyShape. */
  function ShapeResult(p: Plan): Result<(), PrepError> {
    match p.body.kind
    case JSON => TypedResult(p.localType)
    case XML => TypedResult(p.localType)
    case YAML => TypedResult(p.localType)
    case Reader => if p.body.nilReader then Failure(InvalidConfig) else Success(())
    case MultipartForm => if p.body.multipart.None? then Failure(InvalidConfig) else Success(())
    case _ => Success(())
  }

  function TypedResult(localType: Text): Result<(), PrepError> {
    if localType == [] then Failure(UnsupportedContentType) else Success(())
  }

  /** Prepare after its first check: the budget, whether the request compiles, the
      shape of the body, eligibility, and the projection. */
  function CheckedOutcome(compiled: Option<Plan>, budget: int, validFile: Body.FilePart -> bool): Outcome<Preparation> {
    if budget < 0 then Outcome(0, Failure(InvalidBudget))
    else if compiled.None? then Outcome(0, Failure(CreationFailed))
    else
      Then(Outcome(0, ShapeResult(compiled.value)),
           Then(EligibleOutcome(compiled.value), PrepareOutcome(compiled.value, budget, validFile)))
  }

  /** Prepare: an error the builder retained, the first check, and the rest. */
  function CallOutcome(retained: Option<nat>, compiled: Option<Plan>, budget: int, validFile: Body.FilePart -> bool)
    : Outcome<Preparation>
  {
    if retained.Some? then Outcome(0, Failure(Retained(retained.value)))
    else Then(ONE_CHECK, CheckedOutcome(compiled, budget, validFile))
  }

  // ----------------------------------------------------- the form's fast path

  /** For an all-public form the early exit changes nothing: the result is that
      of encoding first and comparing the length with the budget. */
  lemma FastPathRefinesEncode(form: seq<Occurrence>, budget: int)
    requires form != [] && forall i :: 0 <= i < |form| ==> form[i].value.public
    ensures FormOutcome(form, budget).result ==
            if |FormBytes(form)| > budget then Failure(BodyTooLarge) else Success(Present(FormBytes(form)))
  {
    var j := FirstExceeding(form, budget, 0);
    if j < |form| {
      LowerBoundHolds(form, j + 1);
    }
  }
}
