/** What a caller reads off a preparation: which content is shown, which is
    withheld and under which names, from the plan's occurrences alone. */
module Disclosed {
  import opened Base
  import opened Headers
  import opened Sorting
  import opened Checkpoints
  import opened OrderedHeaders
  import opened Prepared
  import opened Escaping
  import opened FormBudget
  import QueryPlan
  import Body

  /** A value as a preparation may show it: public content, and nothing else. */
  predicate Shows(v: Value, s: PreparedString) {
    if v.public then s == Present(v.raw) else s == Redacted
  }

  /** One entry per value, in order. */
  predicate ShowsEach(values: seq<Value>, shown: seq<PreparedString>) {
    |shown| == |values| && forall i :: 0 <= i < |values| ==> Shows(values[i], shown[i])
  }

  predicate AllHidden(shown: seq<PreparedString>) {
    forall i :: 0 <= i < |shown| ==> shown[i] == Redacted
  }

  function RowNames(rows: seq<Row>): seq<Text> {
    seq(|rows|, i requires 0 <= i < |rows| => rows[i].name)
  }

  // ------------------------------------------------------------------- query

  /** One row for each name that occurs, sorted, with the name's values in order. */
  ghost predicate QueryShown(query: seq<Occurrence>, rows: seq<Row>) {
    && SortedNames(RowNames(rows))
    && (forall n :: n in RowNames(rows) <==> exists i :: 0 <= i < |query| && query[i].name == n)
    && forall i :: 0 <= i < |rows| ==> ShowsEach(ValuesFor(query, rows[i].name), rows[i].values)
  }

  lemma ViewShows(v: Value)
    ensures Shows(v, View(v))
  {
  }

  lemma ViewsShow(values: seq<Value>)
    ensures ShowsEach(values, Views(values))
  {
    forall i | 0 <= i < |values|
      ensures Shows(values[i], Views(values)[i])
    {
      ViewShows(values[i]);
    }
  }

  lemma {:induction false} QueryRowsShow(s: seq<Occurrence>, names: seq<Text>, n: nat)
    requires n <= |names|
    ensures RowNames(QueryRows(s, names, n)) == names[..n]
    ensures forall i :: 0 <= i < n ==> ShowsEach(ValuesFor(s, names[i]), QueryRows(s, names, n)[i].values)
  {
    if n == 0 {
    } else {
      QueryRowsShow(s, names, n - 1);
      ViewsShow(ValuesFor(s, names[n - 1]));
      assert names[..n] == names[..n - 1] + [names[n - 1]];
    }
  }

  lemma NameSetMeaning<V>(s: seq<Named<V>>, n: Text)
    ensures n in NameSet(s) <==> exists i :: 0 <= i < |s| && s[i].name == n
  {
  }

  lemma QueryIsShown(s: seq<Occurrence>)
    ensures QueryShown(s, QueryOutcome(s).result.value)
  {
    var names := SortedKeys(NameSet(s));
    var rows := QueryRows(s, names, |names|);
    SortedKeysMeaning(NameSet(s));
    QueryRowsShow(s, names, |names|);
    assert names[..|names|] == names;
    forall n
      ensures n in RowNames(rows) <==> exists i :: 0 <= i < |s| && s[i].name == n
    {
      NameSetMeaning(s, n);
    }
    forall i | 0 <= i < |rows|
      ensures rows[i].name == names[i]
    {
      assert RowNames(rows)[i] == names[i];
    }
  }

  // ----------------------------------------------------------------- headers

  /** Credentials and cookies are never shown in headers. */
  predicate Secret(name: Text) {
    EqualFold(name, "Authorization") || EqualFold(name, "Proxy-Authorization") || EqualFold(name, "Cookie")
  }

  /** The entries of one header row. A Content-Type is shown only as the media type
      the library generated, in place of its first value. */
  predicate HeaderShown(p: Plan, row: Row) {
    var values := Tagged(p.headers, row.name);
    if values == [] then row.values == [Redacted]
    else if Secret(row.name) then |row.values| == |values| && AllHidden(row.values)
    else if EqualFold(row.name, "Content-Type") then
      && |row.values| == |values| && AllHidden(row.values[1..])
      && row.values[0] == if Body.ShownMediaType(p.body) == [] then Redacted else Present(Body.ShownMediaType(p.body))
    else ShowsEach(values, row.values)
  }

  predicate FirstUnder(headers: seq<Occurrence>, name: Text, i: int) {
    && 0 <= i < |headers| && EqualFold(headers[i].name, name)
    && forall j :: 0 <= j < i ==> !EqualFold(headers[j].name, name)
  }

  /** The name as it was first written; an auth method alone adds its own. */
  ghost predicate HeaderSpelled(p: Plan, row: Row) {
    || (Tagged(p.headers, row.name) == [] && p.auths != [] && row.name == "Authorization")
    || exists i :: FirstUnder(p.headers, row.name, i) && row.name == p.headers[i].name
  }

  function FoldedNames(rows: seq<Row>): seq<Text> {
    seq(|rows|, i requires 0 <= i < |rows| => Fold(rows[i].name))
  }

  /** One row for each name up to case, sorted by folded name. */
  ghost predicate HeadersShown(p: Plan, rows: seq<Row>) {
    && SortedNames(FoldedNames(rows))
    && (forall f :: f in FoldedNames(rows) <==>
          (exists i :: 0 <= i < |p.headers| && Fold(p.headers[i].name) == f) || (p.auths != [] && f == Fold("Authorization")))
    && forall i :: 0 <= i < |rows| ==> HeaderSpelled(p, rows[i]) && HeaderShown(p, rows[i])
  }

  /** The group of a folded name holds the name's values, from its first writing on. */
  lemma {:induction false} GroupTags(headers: seq<Occurrence>, name: Text)
    ensures
      var group, values := ValuesFor(Folded(headers), Fold(name)), Tagged(headers, name);
      && |group| == |values|
      && (forall i :: 0 <= i < |group| ==> group[i].value == values[i] && EqualFold(group[i].name, name))
      && (group != [] ==> exists i :: FirstUnder(headers, name, i) && headers[i] == group[0])
  {
    if headers == [] {
    } else {
      var rest := headers[1..];
      assert Folded(headers)[1..] == Folded(rest);
      GroupTags(rest, name);
      if EqualFold(headers[0].name, name) {
        assert FirstUnder(headers, name, 0);
      } else if ValuesFor(Folded(rest), Fold(name)) != [] {
        var i :| FirstUnder(rest, name, i) && rest[i] == ValuesFor(Folded(rest), Fold(name))[0];
        FirstLater(headers, name, i);
      }
    }
  }

  lemma FirstLater(headers: seq<Occurrence>, name: Text, i: int)
    requires headers != [] && !EqualFold(headers[0].name, name) && FirstUnder(headers[1..], name, i)
    ensures FirstUnder(headers, name, i + 1) && headers[i + 1] == headers[1..][i]
  {
    assert forall j :: 0 < j <= i ==> headers[j] == headers[1..][j - 1];
  }

  lemma FoldedNamesMeaning(p: Plan, f: Text)
    ensures f in HeaderKeys(p) <==>
            (exists i :: 0 <= i < |p.headers| && Fold(p.headers[i].name) == f) || (p.auths != [] && f == Fold("Authorization"))
  {
    var folded := Folded(p.headers);
    NameSetMeaning(folded, f);
    assert forall i :: 0 <= i < |folded| ==> folded[i].name == Fold(p.headers[i].name);
    if i :| 0 <= i < |p.headers| && Fold(p.headers[i].name) == f {
      assert folded[i].name == f;
    }
  }

  /** A row's name folds to its key. */
  lemma RowKey(p: Plan, key: Text)
    requires key in HeaderKeys(p)
    ensures Fold(HeaderRow(p, key).name) == key
  {
    AbsentIffNoValues(Folded(p.headers), key);
    if i :| 0 <= i < |p.headers| && Folded(p.headers)[i].name == key {
      GroupTags(p.headers, p.headers[i].name);
    }
  }

  lemma RowIsSpelled(p: Plan, key: Text)
    requires key in HeaderKeys(p)
    ensures HeaderSpelled(p, HeaderRow(p, key))
  {
    var row := HeaderRow(p, key);
    RowKey(p, key);
    GroupTags(p.headers, row.name);
    FoldedNamesMeaning(p, key);
    AbsentIffNoValues(Folded(p.headers), key);
  }

  lemma RowIsShown(p: Plan, key: Text)
    requires key in HeaderKeys(p)
    ensures HeaderShown(p, HeaderRow(p, key))
  {
    var row := HeaderRow(p, key);
    var group := ValuesFor(Folded(p.headers), key);
    RowKey(p, key);
    GroupTags(p.headers, row.name);
    forall i | 0 <= i < |group|
      ensures Shows(group[i].value, View(group[i].value))
    {
      ViewShows(group[i].value);
    }
  }

  ghost predicate RowsAt(rows: seq<Row>, p: Plan, keys: seq<Text>, n: nat)
    requires n <= |keys|
  {
    |rows| == n && forall i :: 0 <= i < n ==> rows[i] == HeaderRow(p, keys[i])
  }

  lemma RowsGrow(rows: seq<Row>, p: Plan, keys: seq<Text>, n: nat)
    requires n < |keys| && RowsAt(rows, p, keys, n)
    ensures RowsAt(rows + [HeaderRow(p, keys[n])], p, keys, n + 1)
  {
    LastRow(rows, HeaderRow(p, keys[n]));
  }

  lemma {:induction false} HeaderRowsAt(p: Plan, keys: seq<Text>, n: nat)
    requires n <= |keys|
    ensures RowsAt(HeaderRows(p, keys, n), p, keys, n)
  {
    if n == 0 {
    } else {
      HeaderRowsAt(p, keys, n - 1);
      RowsGrow(HeaderRows(p, keys, n - 1), p, keys, n - 1);
    }
  }

  lemma LastRow(front: seq<Row>, last: Row)
    ensures |front + [last]| == |front| + 1 && (front + [last])[|front|] == last
    ensures forall i :: 0 <= i < |front| ==> (front + [last])[i] == front[i]
  {
  }

  lemma HeadersAreShown(p: Plan)
    ensures HeadersShown(p, HeadersOutcome(p).result.value)
  {
    var keys := SortedKeys(HeaderKeys(p));
    var rows := HeaderRows(p, keys, |keys|);
    SortedKeysMeaning(HeaderKeys(p));
    HeaderRowsAt(p, keys, |keys|);
    forall i | 0 <= i < |rows|
      ensures FoldedNames(rows)[i] == keys[i] && HeaderSpelled(p, rows[i]) && HeaderShown(p, rows[i])
    {
      assert keys[i] in keys;
      RowKey(p, keys[i]);
      RowIsSpelled(p, keys[i]);
      RowIsShown(p, keys[i]);
    }
    assert FoldedNames(rows) == keys;
    forall f
      ensures f in FoldedNames(rows) <==>
              (exists i :: 0 <= i < |p.headers| && Fold(p.headers[i].name) == f) || (p.auths != [] && f == Fold("Authorization"))
    {
      FoldedNamesMeaning(p, f);
    }
  }

  // ----------------------------------------------------------------- ordered

  /** A position of an ordered entry shows what the header rows show there, and
      nothing where they have no such position. */
  ghost predicate PositionShown(headers: seq<Row>, key: Text, j: nat, s: PreparedString) {
    && (forall h :: 0 <= h < |headers| && EqualFold(headers[h].name, key) && j < |headers[h].values| ==> s == headers[h].values[j])
    && ((forall h :: 0 <= h < |headers| && EqualFold(headers[h].name, key) ==> |headers[h].values| <= j) ==> s == Redacted)
  }

  ghost predicate EntryShown(headers: seq<Row>, e: Entry, row: Row) {
    && row.name == e.key && |row.values| == |e.values|
    && forall j :: 0 <= j < |row.values| ==> PositionShown(headers, e.key, j, row.values[j])
  }

  /** The ordered entries in their order; nothing without ordered intent. */
  ghost predicate OrderedShown(ordered: Option<Ordered>, headers: seq<Row>, rows: seq<Row>) {
    if ordered.None? then rows == []
    else
      && |rows| == |ordered.value|
      && forall i :: 0 <= i < |rows| ==> EntryShown(headers, ordered.value[i], rows[i])
  }

  lemma {:induction false} PositionsAt(shown: seq<PreparedString>, n: nat)
    ensures |Positions(shown, n)| == n
    ensures forall j :: 0 <= j < n ==> Positions(shown, n)[j] == if j < |shown| then shown[j] else Redacted
  {
    if n == 0 {
    } else {
      PositionsAt(shown, n - 1);
    }
  }

  ghost predicate EntriesAt(rows: seq<Row>, p: Plan, entries: Ordered, n: nat)
    requires n <= |entries|
  {
    |rows| == n && forall i :: 0 <= i < n ==> rows[i] == OrderedRow(p, entries[i])
  }

  lemma EntriesGrow(rows: seq<Row>, p: Plan, entries: Ordered, n: nat)
    requires n < |entries| && EntriesAt(rows, p, entries, n)
    ensures EntriesAt(rows + [OrderedRow(p, entries[n])], p, entries, n + 1)
  {
    LastRow(rows, OrderedRow(p, entries[n]));
  }

  lemma {:induction false} OrderedRowsAt(p: Plan, entries: Ordered, n: nat)
    requires n <= |entries|
    ensures EntriesAt(OrderedRows(p, entries, n), p, entries, n)
  {
    if n == 0 {
    } else {
      OrderedRowsAt(p, entries, n - 1);
      EntriesGrow(OrderedRows(p, entries, n - 1), p, entries, n - 1);
    }
  }

  /** The header row of a key, found among all rows. */
  lemma RowOf(p: Plan, rows: seq<Row>, key: Text)
    requires rows == HeadersOutcome(p).result.value
    ensures forall h :: 0 <= h < |rows| && Fold(rows[h].name) == key ==> key in HeaderKeys(p) && rows[h] == HeaderRow(p, key)
    ensures key in HeaderKeys(p) ==> exists h :: 0 <= h < |rows| && Fold(rows[h].name) == key
  {
    var keys := SortedKeys(HeaderKeys(p));
    SortedKeysMeaning(HeaderKeys(p));
    HeaderRowsAt(p, keys, |keys|);
    forall h | 0 <= h < |rows|
      ensures Fold(rows[h].name) == keys[h] && keys[h] in HeaderKeys(p)
    {
      assert keys[h] in keys;
      RowKey(p, keys[h]);
    }
    if key in HeaderKeys(p) {
      var h :| 0 <= h < |keys| && keys[h] == key;
      assert Fold(rows[h].name) == key;
    }
  }

  lemma EntryIsShown(p: Plan, rows: seq<Row>, e: Entry)
    requires rows == HeadersOutcome(p).result.value
    ensures EntryShown(rows, e, OrderedRow(p, e))
  {
    var key, row := Fold(e.key), OrderedRow(p, e);
    var shown := if key in HeaderKeys(p) then HeaderRow(p, key).values else [];
    PositionsAt(shown, |e.values|);
    RowOf(p, rows, key);
    forall j | 0 <= j < |row.values|
      ensures PositionShown(rows, e.key, j, row.values[j])
    {
      PositionMeans(rows, e.key, shown, j, row.values[j]);
    }
  }

  lemma PositionMeans(headers: seq<Row>, key: Text, shown: seq<PreparedString>, j: nat, s: PreparedString)
    requires s == if j < |shown| then shown[j] else Redacted
    requires forall h :: 0 <= h < |headers| && EqualFold(headers[h].name, key) ==> headers[h].values == shown
    requires shown != [] ==> exists h :: 0 <= h < |headers| && EqualFold(headers[h].name, key)
    ensures PositionShown(headers, key, j, s)
  {
  }

  lemma OrderedIsShown(p: Plan)
    ensures OrderedShown(p.ordered, HeadersOutcome(p).result.value, OrderedOutcome(p).result.value)
  {
    if p.ordered.Some? {
      var entries := p.ordered.value;
      OrderedRowsAt(p, entries, |entries|);
      forall i | 0 <= i < |entries|
        ensures EntryShown(HeadersOutcome(p).result.value, entries[i], OrderedRow(p, entries[i]))
      {
        EntryIsShown(p, HeadersOutcome(p).result.value, entries[i]);
      }
    }
  }

  // ----------------------------------------------------------------- cookies

  /** The cookies whose names are tokens. */
  function Sendable(cookies: seq<Occurrence>): seq<Occurrence> {
    if cookies == [] then []
    else (if cookies[0].name != [] && IsToken(cookies[0].name) then [cookies[0]] else []) + Sendable(cookies[1..])
  }

  ghost predicate CookiesShown(cookies: seq<Occurrence>, rows: seq<Row>) {
    && |rows| == |cookies|
    && forall i :: 0 <= i < |rows| ==> rows[i].name == cookies[i].name && ShowsEach([cookies[i].value], rows[i].values)
  }

  lemma {:induction false} SendableSnoc(front: seq<Occurrence>, last: Occurrence)
    ensures Sendable(front + [last]) == Sendable(front) + if last.name != [] && IsToken(last.name) then [last] else []
  {
    if front == [] {
      assert front + [last] == [last] && [last][1..] == [];
    } else {
      assert (front + [last])[1..] == front[1..] + [last] && (front + [last])[0] == front[0];
      SendableSnoc(front[1..], last);
      ConcatAssociates(if front[0].name != [] && IsToken(front[0].name) then [front[0]] else [], Sendable(front[1..]),
                       if last.name != [] && IsToken(last.name) then [last] else []);
    }
  }

  lemma {:induction false} CookiesAreShown(cookies: seq<Occurrence>)
    ensures CookiesShown(Sendable(cookies), CookieRows(cookies))
    decreases |cookies|
  {
    if cookies == [] {
    } else {
      var front, last := cookies[..|cookies| - 1], cookies[|cookies| - 1];
      assert cookies == front + [last];
      CookiesAreShown(front);
      SendableSnoc(front, last);
      CookieAdded(Sendable(front), CookieRows(front), last);
    }
  }

  lemma CookieAdded(cookies: seq<Occurrence>, rows: seq<Row>, last: Occurrence)
    requires CookiesShown(cookies, rows)
    ensures CookiesShown(cookies + [last], rows + [Row(last.name, [View(last.value)])])
  {
    ViewShows(last.value);
  }

  // -------------------------------------------------------- target and body

  /** The path is shown unless the template, the base path or a private parameter
      that is in it forbids it. */
  ghost predicate TargetShown(p: Plan, target: Target) {
    && target.scheme == p.scheme && target.authority == p.host
    && target.path ==
       if && p.path.public && !p.basePathPrivate
          && forall i :: 0 <= i < |p.params| && p.params[i].counts.inPath > 0 ==> p.params[i].value.public
       then Present(p.escapedPath) else Redacted
  }

  lemma {:induction false} BlockedExactly(params: seq<PathParam>)
    ensures FirstBlocked(params) == |params| <==>
            forall i :: 0 <= i < |params| && params[i].counts.inPath > 0 ==> params[i].value.public
  {
    if params == [] {
    } else {
      BlockedExactly(params[1..]);
      assert forall i :: 0 < i < |params| ==> params[i] == params[1..][i - 1];
    }
  }

  predicate AllPublic(form: seq<Occurrence>) {
    form != [] && forall i :: 0 <= i < |form| ==> form[i].value.public
  }

  /** The bytes of a body that are shown if they fit: public text or bytes, or a
      form of public fields, encoded. */
  function Disclosable(body: Body.Plan): Option<Text> {
    if body.kind == Body.PlainText || body.kind == Body.RawBytes then
      if body.content.public then Some(body.content.raw) else None
    else if body.kind == Body.Form && AllPublic(body.form) then Some(JoinPairs(Sort(Fields(body.form))))
    else None
  }

  /** Field names and the number of their values; the names of file fields. */
  ghost predicate ManifestShown(m: Body.Multipart, shown: Manifest) {
    && SortedNames(RowNames(shown.fields))
    && (forall n :: n in RowNames(shown.fields) <==> n in m.fields)
    && (forall i :: 0 <= i < |shown.fields| ==>
          var row := shown.fields[i];
          row.name in m.fields && |row.values| == |m.fields[row.name]| && AllHidden(row.values))
    && |shown.files| == |m.parts| && forall i :: 0 <= i < |m.parts| ==> shown.files[i] == m.parts[i].field
  }

  ghost predicate BodyShown(body: Body.Plan, shown: PreparedBody) {
    && shown.kind == body.kind && shown.mediaType == Body.ShownMediaType(body)
    && shown.data == (if Disclosable(body).Some? then Present(Disclosable(body).value) else Redacted)
    && (shown.manifest.Some? <==> body.kind == Body.MultipartForm)
    && (body.kind == Body.MultipartForm ==> body.multipart.Some? && ManifestShown(body.multipart.value, shown.manifest.value))
  }

  predicate GoodPart(part: Body.FilePart, validFile: Body.FilePart -> bool) {
    part.field != [] && part.hasBody && validFile(part)
  }

  /** Why a body cannot be shown: its bytes do not fit the budget, or its multipart
      settings or parts are invalid. */
  function BodyFault(body: Body.Plan, budget: int, validFile: Body.FilePart -> bool): Option<PrepError> {
    if Disclosable(body).Some? then
      if |Disclosable(body).value| > budget then Some(BodyTooLarge) else None
    else if body.kind == Body.MultipartForm then
      if body.multipart.Some? && GoodMultipart(body.multipart.value, validFile) then None else Some(InvalidConfig)
    else None
  }

  lemma {:induction false} FieldRowsAt(fields: map<Text, seq<Text>>, keys: seq<Text>, n: nat)
    requires n <= |keys| && forall i :: 0 <= i < |keys| ==> keys[i] in fields
    ensures |FieldRows(fields, keys, n)| == n
    ensures forall i :: 0 <= i < n ==> FieldRows(fields, keys, n)[i] == Row(keys[i], AllRedacted(|fields[keys[i]]|))
  {
    if n == 0 {
    } else {
      FieldRowsAt(fields, keys, n - 1);
    }
  }

  lemma ManifestIsShown(m: Body.Multipart)
    ensures ManifestShown(m, ManifestOf(m))
  {
    var keys := ManifestKeys(m);
    var rows := FieldRows(m.fields, keys, |keys|);
    SortedKeysMeaning(m.fields.Keys);
    FieldRowsAt(m.fields, keys, |keys|);
    assert RowNames(rows) == keys;
    forall i | 0 <= i < |rows|
      ensures rows[i].name in m.fields && |rows[i].values| == |m.fields[rows[i].name]| && AllHidden(rows[i].values)
    {
      assert rows[i] == Row(keys[i], AllRedacted(|m.fields[keys[i]]|));
    }
  }

  lemma FormIsShown(form: seq<Occurrence>, budget: int)
    ensures
      var r := FormOutcome(form, budget).result;
      var bytes := JoinPairs(Sort(Fields(form)));
      r == if !AllPublic(form) then Success(Redacted)
           else if |bytes| > budget then Failure(BodyTooLarge) else Success(Present(bytes))
  {
    EncodeIsSortedJoin(QueryPlan.RawPairs(form));
    FieldsAreRaw(form);
    if AllPublic(form) {
      FastPathRefinesEncode(form, budget);
    }
  }

  /** The body projection: exactly when it fails and how, and what it shows. */
  lemma BodyIsShown(body: Body.Plan, budget: int, validFile: Body.FilePart -> bool)
    ensures
      var r := BodyOutcome(body, budget, validFile).result;
      if BodyFault(body, budget, validFile).Some? then r == Failure(BodyFault(body, budget, validFile).value)
      else r.Success? && BodyShown(body, r.value)
  {
    match body.kind
    case Form => FormIsShown(body.form, budget);
    case MultipartForm =>
      if body.multipart.Some? {
        ManifestDecides(body.multipart.value, validFile);
      }
    case _ =>
  }

  predicate GoodMultipart(m: Body.Multipart, validFile: Body.FilePart -> bool) {
    && (m.replayLimit.Some? ==> m.replayLimit.value >= 0)
    && (m.boundary == [] || ValidBoundary(m.boundary))
    && forall i :: 0 <= i < |m.parts| ==> GoodPart(m.parts[i], validFile)
  }

  lemma ManifestDecides(m: Body.Multipart, validFile: Body.FilePart -> bool)
    ensures
      var r := ManifestOutcome(m, validFile).result;
      if GoodMultipart(m, validFile) then r.Success? && ManifestShown(m, r.value) else r == Failure(InvalidConfig)
  {
    ManifestIsShown(m);
    assert forall i :: 0 <= i < |m.parts| ==> (GoodPart(m.parts[i], validFile) <==> ValidPart(m.parts[i], validFile));
  }

  // ---------------------------------------------------------- the preparation

  /** Everything a preparation shows of a plan. */
  ghost predicate Discloses(p: Plan, prep: Preparation) {
    && prep.verb == p.verb && TargetShown(p, prep.target) && QueryShown(p.query, prep.query)
    && HeadersShown(p, prep.headers) && OrderedShown(p.ordered, prep.headers, prep.ordered)
    && CookiesShown(Sendable(p.cookies), prep.cookies) && BodyShown(p.body, prep.body)
  }

  /** The projection fails exactly for a faulty body, and otherwise discloses what
      the plan permits, no less and no more. */
  lemma ProjectionDiscloses(p: Plan, budget: int, validFile: Body.FilePart -> bool)
    ensures
      var r := PrepareOutcome(p, budget, validFile).result;
      if BodyFault(p.body, budget, validFile).Some? then r == Failure(BodyFault(p.body, budget, validFile).value)
      else r.Success? && Discloses(p, r.value)
  {
    BlockedExactly(p.params);
    QueryIsShown(p.query);
    HeadersAreShown(p);
    OrderedIsShown(p);
    CookiesAreShown(p.cookies);
    BodyIsShown(p.body, budget, validFile);
    Assembled(p, budget, validFile);
  }

  /** The parts of a preparation are those of the projectors. */
  lemma Assembled(p: Plan, budget: int, validFile: Body.FilePart -> bool)
    ensures
      var r, body := PrepareOutcome(p, budget, validFile).result, BodyOutcome(p.body, budget, validFile).result;
      if body.Failure? then r == Failure(body.error)
      else
        && r.Success? && r.value.verb == p.verb && r.value.target == TargetOutcome(p).result.value
        && r.value.query == QueryOutcome(p.query).result.value && r.value.headers == HeadersOutcome(p).result.value
        && r.value.ordered == OrderedOutcome(p).result.value && r.value.cookies == CookieRows(p.cookies)
        && r.value.body == body.value
  {
  }

  // ------------------------------------------------------------------- polling

  lemma TicksCover(n: nat)
    ensures n <= 64 * Ticks(n) < n + 64
  {
  }

  /** The context is polled before every 64th occurrence of queries, headers and
      cookies, so a projection that passed few polls processed few occurrences. */
  lemma PolledOften(p: Plan, budget: int, validFile: Body.FilePart -> bool)
    ensures
      var o := PrepareOutcome(p, budget, validFile);
      |p.query| + |p.headers| + |p.cookies| <= 64 * o.checks
  {
    TicksCover(|p.query|);
    TicksCover(|p.headers|);
    TicksCover(|p.cookies|);
    ChecksAdd(p, budget, validFile);
  }

  lemma ChecksAdd(p: Plan, budget: int, validFile: Body.FilePart -> bool)
    ensures PrepareOutcome(p, budget, validFile).checks >=
            QueryOutcome(p.query).checks + HeadersOutcome(p).checks + CookiesOutcome(p.cookies).checks
  {
  }

  // ------------------------------------------------------------ the whole call

  predicate Unshowable(param: PathParam) {
    && !param.value.public
    && (param.counts.inScheme > 0 || param.counts.inAuthority > 0 || param.counts.inQueryName > 0)
  }

  /** Why Prepare refuses a request, first reason first; none when it shows it. */
  function Fault(retained: Option<nat>, compiled: Option<Plan>, budget: int, validFile: Body.FilePart -> bool): Option<PrepError> {
    if retained.Some? then Some(Retained(retained.value))
    else if budget < 0 then Some(InvalidBudget)
    else if compiled.None? then Some(CreationFailed)
    else PlanFault(compiled.value, budget, validFile)
  }

  function PlanFault(p: Plan, budget: int, validFile: Body.FilePart -> bool): Option<PrepError> {
    FirstFault(ShapeFault(p), FirstFault(EligibleFault(p), BodyFault(p.body, budget, validFile)))
  }

  function FirstFault(a: Option<PrepError>, b: Option<PrepError>): Option<PrepError> {
    if a.Some? then a else b
  }

  /** A typed body needs a Content-Type of the request's own, and a reader and a
      multipart form must be there. */
  function ShapeFault(p: Plan): Option<PrepError> {
    if p.body.kind in {Body.JSON, Body.XML, Body.YAML} && p.localType == [] then Some(UnsupportedContentType)
    else if p.body.kind == Body.Reader && p.body.nilReader then Some(InvalidConfig)
    else if p.body.kind == Body.MultipartForm && p.body.multipart.None? then Some(InvalidConfig)
    else None
  }

  /** No private parameter may be where it is always shown. */
  function EligibleFault(p: Plan): Option<PrepError> {
    if exists i :: 0 <= i < |p.params| && Unshowable(p.params[i]) then Some(NotPreparable) else AuthFault(p.auths)
  }

  predicate FirstOther(auths: seq<AuthShape>, i: int) {
    0 <= i < |auths| && auths[i] != BuiltIn && forall j :: 0 <= j < i ==> auths[j] == BuiltIn
  }

  /** Only sound built-in auth methods can be prepared; the first other decides. */
  function AuthFault(auths: seq<AuthShape>): Option<PrepError> {
    if exists i :: 0 <= i < |auths| && FirstOther(auths, i) then
      Some(if exists i :: 0 <= i < |auths| && FirstOther(auths, i) && auths[i] == Malformed then InvalidConfig else NotPreparable)
    else None
  }

  lemma {:induction false} AuthsDecide(auths: seq<AuthShape>)
    ensures AuthResult(auths) == Refused(AuthFault(auths))
  {
    if auths == [] {
    } else {
      AuthsDecide(auths[1..]);
      assert forall i :: 0 < i < |auths| ==> auths[i] == auths[1..][i - 1];
      if auths[0] == BuiltIn {
        forall i | 0 < i <= |auths|
          ensures FirstOther(auths, i) <==> FirstOther(auths[1..], i - 1)
        {
          OtherLater(auths, i);
        }
        assert AuthFault(auths) == AuthFault(auths[1..]) by { SameFault(auths); }
      } else {
        assert FirstOther(auths, 0);
      }
    }
  }

  lemma OtherLater(auths: seq<AuthShape>, i: int)
    requires auths != [] && auths[0] == BuiltIn && i > 0
    ensures FirstOther(auths, i) <==> FirstOther(auths[1..], i - 1)
  {
    assert forall j :: 0 < j < |auths| ==> auths[j] == auths[1..][j - 1];
    if FirstOther(auths, i) {
      assert forall j :: 0 <= j < i - 1 ==> auths[1..][j] == auths[j + 1];
    }
  }

  lemma SameFault(auths: seq<AuthShape>)
    requires auths != [] && auths[0] == BuiltIn
    ensures AuthFault(auths) == AuthFault(auths[1..])
  {
    forall i | 0 < i < |auths|
      ensures FirstOther(auths, i) <==> FirstOther(auths[1..], i - 1)
      ensures auths[i] == auths[1..][i - 1]
    {
      OtherLater(auths, i);
    }
    if i :| 0 <= i < |auths[1..]| && FirstOther(auths[1..], i) {
      assert FirstOther(auths, i + 1);
    }
  }

  lemma UnshowableIsExposed(p: Plan)
    ensures FirstExposed(p.params) < |p.params| <==> exists i :: 0 <= i < |p.params| && Unshowable(p.params[i])
  {
    assert forall i :: 0 <= i < |p.params| ==> (Unshowable(p.params[i]) <==> Exposed(p.params[i]));
  }

  /** Prepare as a whole: it refuses a request exactly for these reasons, and
      otherwise discloses what its plan permits. */
  lemma CallDiscloses(retained: Option<nat>, compiled: Option<Plan>, budget: int, validFile: Body.FilePart -> bool)
    ensures
      var r, fault := CallOutcome(retained, compiled, budget, validFile).result, Fault(retained, compiled, budget, validFile);
      if compiled.Some? then Decides(compiled.value, fault, r) else fault.Some? && r == Failure(fault.value)
  {
    if compiled.Some? {
      PlanDecides(compiled.value, budget, validFile);
    }
  }

  ghost predicate Decides(p: Plan, fault: Option<PrepError>, r: Result<Preparation, PrepError>) {
    if fault.Some? then r == Failure(fault.value) else r.Success? && Discloses(p, r.value)
  }

  function Refused(fault: Option<PrepError>): Result<(), PrepError> {
    if fault.Some? then Failure(fault.value) else Success(())
  }

  lemma ThenDecides(p: Plan, a: Outcome<()>, fault: Option<PrepError>, b: Outcome<Preparation>, later: Option<PrepError>)
    requires a.result == Refused(fault) && Decides(p, later, b.result)
    ensures Decides(p, FirstFault(fault, later), Then(a, b).result)
  {
  }

  lemma PlanDecides(p: Plan, budget: int, validFile: Body.FilePart -> bool)
    ensures
      var o := Then(Outcome(0, ShapeResult(p)), Then(EligibleOutcome(p), PrepareOutcome(p, budget, validFile)));
      Decides(p, PlanFault(p, budget, validFile), o.result)
  {
    var prepared := PrepareOutcome(p, budget, validFile);
    ProjectionDiscloses(p, budget, validFile);
    EligibilityDecides(p);
    ThenDecides(p, EligibleOutcome(p), EligibleFault(p), prepared, BodyFault(p.body, budget, validFile));
    ShapeDecides(p);
    ThenDecides(p, Outcome(0, ShapeResult(p)), ShapeFault(p), Then(EligibleOutcome(p), prepared),
                FirstFault(EligibleFault(p), BodyFault(p.body, budget, validFile)));
  }

  lemma ShapeDecides(p: Plan)
    ensures ShapeResult(p) == Refused(ShapeFault(p))
  {
  }

  lemma EligibilityDecides(p: Plan)
    ensures EligibleOutcome(p).result == Refused(EligibleFault(p))
  {
    UnshowableIsExposed(p);
    AuthsDecide(p.auths);
  }
}
