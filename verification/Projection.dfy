/** The projectors as the program runs them: loops that poll the context, fill
    maps and stop at the first error, each proved to follow its outcome. */
module Projection {
  import opened Base
  import opened Headers
  import opened Sorting
  import opened Checkpoints
  import opened OrderedHeaders
  import opened Prepared
  import Body

  // --------------------------------------------------------------- grouping

  ghost predicate Grouped<V>(m: map<Text, seq<V>>, s: seq<Named<V>>) {
    m.Keys == NameSet(s) && forall k :: k in m ==> m[k] == ValuesFor(s, k)
  }

  lemma GroupStep<V>(m: map<Text, seq<V>>, s: seq<Named<V>>, i: nat)
    requires i < |s| && Grouped(m, s[..i])
    ensures
      var before := if s[i].name in m then m[s[i].name] else [];
      Grouped(m[s[i].name := before + [s[i].value]], s[..i + 1])
  {
    var x := s[i];
    assert s[..i + 1] == s[..i] + [x];
    assert NameSet(s[..i + 1]) == NameSet(s[..i]) + {x.name} by {
      assert forall j :: 0 <= j < i ==> s[..i + 1][j] == s[..i][j];
      assert s[..i + 1][i] == x;
    }
    forall k
      ensures ValuesFor(s[..i + 1], k) == ValuesFor(s[..i], k) + if x.name == k then [x.value] else []
    {
      ValuesForConcat(s[..i], [x], k);
      assert [x][1..] == [];
    }
    if x.name !in m {
      AbsentIffNoValues(s[..i], x.name);
    }
  }

  method GroupByName<V>(script: Script, s: seq<Named<V>>, t: nat, ghost t0: nat, ghost total: nat)
    returns (e: Option<PrepError>, m: map<Text, seq<V>>, t': nat)
    requires Within(script, t0, total, t, Ticks(|s|))
    ensures Stepped(script, t0, total, t, Ticks(|s|), e, t')
    ensures e.None? ==> Grouped(m, s)
  {
    e, m, t' := None, map[], t;
    for i := 0 to |s|
      invariant e == None && Clear(script, t0, t') && t' == t + Ticks(i)
      invariant Grouped(m, s[..i])
    {
      TickStep(i);
      TickMonotone(i + 1, |s|);
      e, t' := CheckDue(script, i, t', t0, total);
      if e.Some? { return; }
      GroupStep(m, s, i);
      m := m[s[i].name := (if s[i].name in m then m[s[i].name] else []) + [s[i].value]];
    }
    assert s[..|s|] == s;
  }

  // ------------------------------------------------------------------- query

  method ProjectValues(script: Script, values: seq<Value>, t: nat, ghost t0: nat, ghost total: nat)
    returns (e: Option<PrepError>, views: seq<PreparedString>, t': nat)
    requires Within(script, t0, total, t, Ticks(|values|))
    ensures Stepped(script, t0, total, t, Ticks(|values|), e, t')
    ensures e.None? ==> views == Views(values)
  {
    e, views, t' := None, [], t;
    for i := 0 to |values|
      invariant e == None && Clear(script, t0, t') && t' == t + Ticks(i)
      invariant views == Views(values)[..i]
    {
      TickStep(i);
      TickMonotone(i + 1, |values|);
      e, t' := CheckDue(script, i, t', t0, total);
      if e.Some? { return; }
      views := views + [View(values[i])];
    }
  }

  lemma {:induction false} RowChecksMonotone<V>(s: seq<Named<V>>, names: seq<Text>, i: nat, j: nat)
    requires i <= j <= |names|
    ensures RowChecks(s, names, i) <= RowChecks(s, names, j)
  {
    if i >= j {
    } else {
      RowChecksMonotone(s, names, i, j - 1);
    }
  }

  lemma RowStep<V>(s: seq<Named<V>>, names: seq<Text>, i: nat)
    requires i < |names|
    ensures RowChecks(s, names, i) + Due(i) + Ticks(|ValuesFor(s, names[i])|) ==
            RowChecks(s, names, i + 1) <= RowChecks(s, names, |names|)
  {
    RowChecksMonotone(s, names, i + 1, |names|);
  }

  /** One iteration of the row loop. */
  method ProjectQueryRow(script: Script, i: nat, name: Text, values: seq<Value>, t: nat, ghost t0: nat, ghost total: nat)
    returns (e: Option<PrepError>, row: Row, t': nat)
    requires Within(script, t0, total, t, Due(i) + Ticks(|values|))
    ensures Stepped(script, t0, total, t, Due(i) + Ticks(|values|), e, t')
    ensures e.None? ==> row == Row(name, Views(values))
  {
    row := Row(name, []);
    e, t' := CheckDue(script, i, t, t0, total);
    if e.Some? { return; }
    var views;
    e, views, t' := ProjectValues(script, values, t', t0, total);
    row := Row(name, views);
  }

  method ProjectQueryRows(script: Script, s: seq<Occurrence>, grouped: map<Text, seq<Value>>, names: seq<Text>,
                          t: nat, ghost t0: nat, ghost total: nat)
    returns (e: Option<PrepError>, rows: seq<Row>, t': nat)
    requires forall i :: 0 <= i < |names| ==> names[i] in grouped && grouped[names[i]] == ValuesFor(s, names[i])
    requires Within(script, t0, total, t, RowChecks(s, names, |names|))
    ensures Stepped(script, t0, total, t, RowChecks(s, names, |names|), e, t')
    ensures e.None? ==> rows == QueryRows(s, names, |names|)
  {
    e, rows, t' := None, [], t;
    for i := 0 to |names|
      invariant e == None && Clear(script, t0, t') && t' == t + RowChecks(s, names, i)
      invariant rows == QueryRows(s, names, i)
    {
      RowStep(s, names, i);
      var row;
      e, row, t' := ProjectQueryRow(script, i, names[i], grouped[names[i]], t', t0, total);
      if e.Some? { return; }
      rows := rows + [row];
    }
  }

  /** The checks around the sort, and the row loop over the sorted names. */
  method ProjectQueryGroups(script: Script, s: seq<Occurrence>, grouped: map<Text, seq<Value>>, t: nat, ghost t0: nat, ghost total: nat)
    returns (e: Option<PrepError>, rows: seq<Row>, t': nat)
    requires Grouped(grouped, s)
    requires
      var names := SortedKeys(grouped.Keys);
      Within(script, t0, total, t, 2 + RowChecks(s, names, |names|))
    ensures
      var names := SortedKeys(grouped.Keys);
      && Stepped(script, t0, total, t, 2 + RowChecks(s, names, |names|), e, t')
      && (e.None? ==> rows == QueryRows(s, names, |names|))
  {
    rows := [];
    e, t' := Check(script, t, t0, total);
    if e.Some? { return; }
    var names := SortedKeys(grouped.Keys);
    SortedKeysMeaning(grouped.Keys);
    e, t' := Check(script, t', t0, total);
    if e.Some? { return; }
    e, rows, t' := ProjectQueryRows(script, s, grouped, names, t', t0, total);
  }

  /** projectPreparedQuery. */
  method ProjectQuery(script: Script, s: seq<Occurrence>, t: nat) returns (r: Result<seq<Row>, PrepError>, t': nat)
    ensures Follows(script, t, QueryOutcome(s), r, t')
  {
    ghost var o := QueryOutcome(s);
    var e, grouped;
    e, grouped, t' := GroupByName(script, s, t, t, o.checks);
    if e.Some? {
      Failed(script, t, o, e.value, t');
      return Failure(e.value), t';
    }
    var rows;
    e, rows, t' := ProjectQueryGroups(script, s, grouped, t', t, o.checks);
    if e.Some? {
      Failed(script, t, o, e.value, t');
      return Failure(e.value), t';
    }
    Finished(script, t, o, t');
    r := Success(rows);
  }

  // ----------------------------------------------------------------- headers

  /** projectPreparedHeaderValues. */
  method ProjectHeaderValues(script: Script, name: Text, occs: seq<Occurrence>, mediaType: Text, t: nat, ghost t0: nat, ghost total: nat)
    returns (e: Option<PrepError>, views: seq<PreparedString>, t': nat)
    requires Within(script, t0, total, t, Ticks(|occs|))
    ensures Stepped(script, t0, total, t, Ticks(|occs|), e, t')
    ensures e.None? ==> views == HeaderViews(name, occs, mediaType)
  {
    e, views, t' := None, [], t;
    if occs == [] {
      return None, [Redacted], t;
    }
    for i := 0 to |occs|
      invariant e == None && Clear(script, t0, t') && t' == t + Ticks(i)
      invariant views == HeaderViews(name, occs, mediaType)[..i]
    {
      TickStep(i);
      TickMonotone(i + 1, |occs|);
      e, t' := CheckDue(script, i, t', t0, total);
      if e.Some? { return; }
      views := views + [HeaderView(name, occs, i, mediaType)];
    }
  }

  /** The groups of a plan's headers, the auth group included. */
  ghost predicate HeaderGroups(p: Plan, groups: map<Text, seq<Occurrence>>) {
    groups.Keys == HeaderKeys(p) && forall k :: k in groups ==> groups[k] == ValuesFor(Folded(p.headers), k)
  }

  method ProjectHeaderRow(script: Script, i: nat, p: Plan, key: Text, occs: seq<Occurrence>, t: nat, ghost t0: nat, ghost total: nat)
    returns (e: Option<PrepError>, row: Row, t': nat)
    requires occs == ValuesFor(Folded(p.headers), key)
    requires Within(script, t0, total, t, Due(i) + Ticks(|occs|))
    ensures Stepped(script, t0, total, t, Due(i) + Ticks(|occs|), e, t')
    ensures e.None? ==> row == HeaderRow(p, key)
  {
    var name := if occs == [] then AUTHORIZATION else occs[0].name;
    row := Row(name, []);
    e, t' := CheckDue(script, i, t, t0, total);
    if e.Some? { return; }
    var views;
    e, views, t' := ProjectHeaderValues(script, name, occs, Body.ShownMediaType(p.body), t', t0, total);
    row := Row(name, views);
  }

  /** The lookup table after the first n keys. */
  function Lookup(p: Plan, keys: seq<Text>, n: nat): map<Text, Row>
    requires n <= |keys|
  {
    if n == 0 then map[] else Lookup(p, keys, n - 1)[keys[n - 1] := HeaderRow(p, keys[n - 1])]
  }

  ghost predicate IsLookup(p: Plan, lookup: map<Text, Row>) {
    lookup.Keys == HeaderKeys(p) && forall k :: k in lookup ==> lookup[k] == HeaderRow(p, k)
  }

  lemma {:induction false} LookupMeaning(p: Plan, keys: seq<Text>, n: nat)
    requires n <= |keys|
    ensures forall k :: k in Lookup(p, keys, n) <==> k in keys[..n]
    ensures forall k :: k in Lookup(p, keys, n) ==> Lookup(p, keys, n)[k] == HeaderRow(p, k)
  {
    if n == 0 {
    } else {
      LookupMeaning(p, keys, n - 1);
      assert keys[..n] == keys[..n - 1] + [keys[n - 1]];
    }
  }

  lemma LookupComplete(p: Plan)
    ensures
      var keys := SortedKeys(HeaderKeys(p));
      IsLookup(p, Lookup(p, keys, |keys|))
  {
    var keys := SortedKeys(HeaderKeys(p));
    SortedKeysMeaning(HeaderKeys(p));
    LookupMeaning(p, keys, |keys|);
    assert keys[..|keys|] == keys;
  }

  /** The rows and the lookup table of the first n keys. */
  predicate RowsSoFar(p: Plan, keys: seq<Text>, n: nat, rows: seq<Row>, lookup: map<Text, Row>)
    requires n <= |keys|
  {
    rows == HeaderRows(p, keys, n) && lookup == Lookup(p, keys, n)
  }

  lemma RowAdded(p: Plan, keys: seq<Text>, n: nat, rows: seq<Row>, lookup: map<Text, Row>)
    requires n < |keys| && RowsSoFar(p, keys, n, rows, lookup)
    ensures
      var row := HeaderRow(p, keys[n]);
      RowsSoFar(p, keys, n + 1, rows + [row], lookup[keys[n] := row])
  {
  }

  method ProjectHeaderRows(script: Script, p: Plan, groups: map<Text, seq<Occurrence>>, keys: seq<Text>,
                           t: nat, ghost t0: nat, ghost total: nat)
    returns (e: Option<PrepError>, rows: seq<Row>, lookup: map<Text, Row>, t': nat)
    requires forall i :: 0 <= i < |keys| ==> keys[i] in groups && groups[keys[i]] == ValuesFor(Folded(p.headers), keys[i])
    requires Within(script, t0, total, t, RowChecks(Folded(p.headers), keys, |keys|))
    ensures Stepped(script, t0, total, t, RowChecks(Folded(p.headers), keys, |keys|), e, t')
    ensures e.None? ==> RowsSoFar(p, keys, |keys|, rows, lookup)
  {
    e, rows, lookup, t' := None, [], map[], t;
    for i := 0 to |keys|
      invariant e == None && Clear(script, t0, t') && t' == t + RowChecks(Folded(p.headers), keys, i)
      invariant RowsSoFar(p, keys, i, rows, lookup)
    {
      RowAdded(p, keys, i, rows, lookup);
      RowStep(Folded(p.headers), keys, i);
      var row;
      e, row, t' := ProjectHeaderRow(script, i, p, keys[i], groups[keys[i]], t', t0, total);
      if e.Some? { return; }
      rows, lookup := rows + [row], lookup[keys[i] := row];
    }
  }

  lemma AuthGroup(p: Plan, groups: map<Text, seq<Occurrence>>)
    requires Grouped(groups, Folded(p.headers))
    ensures
      var key := Fold(AUTHORIZATION);
      HeaderGroups(p, if p.auths != [] && key !in groups then groups[key := []] else groups)
  {
    AbsentIffNoValues(Folded(p.headers), Fold(AUTHORIZATION));
  }

  /** projectPreparedHeaders. */
  method ProjectHeaders(script: Script, p: Plan, t: nat)
    returns (r: Result<seq<Row>, PrepError>, lookup: map<Text, Row>, t': nat)
    ensures Follows(script, t, HeadersOutcome(p), r, t')
    ensures r.Success? ==> IsLookup(p, lookup)
  {
    ghost var o := HeadersOutcome(p);
    lookup := map[];
    var e, groups;
    assert |Folded(p.headers)| == |p.headers|;
    e, groups, t' := GroupByName(script, Folded(p.headers), t, t, o.checks);
    if e.Some? {
      Failed(script, t, o, e.value, t');
      return Failure(e.value), lookup, t';
    }
    AuthGroup(p, groups);
    if p.auths != [] && Fold(AUTHORIZATION) !in groups {
      groups := groups[Fold(AUTHORIZATION) := []];
    }
    var rows;
    e, rows, lookup, t' := ProjectGroups(script, p, groups, t', t, o.checks);
    if e.Some? {
      Failed(script, t, o, e.value, t');
      return Failure(e.value), lookup, t';
    }
    LookupComplete(p);
    Finished(script, t, o, t');
    r := Success(rows);
  }

  /** The checks around the sort, and the row loop over the sorted keys. */
  method ProjectGroups(script: Script, p: Plan, groups: map<Text, seq<Occurrence>>, t: nat, ghost t0: nat, ghost total: nat)
    returns (e: Option<PrepError>, rows: seq<Row>, lookup: map<Text, Row>, t': nat)
    requires HeaderGroups(p, groups)
    requires
      var keys := SortedKeys(groups.Keys);
      Within(script, t0, total, t, 2 + RowChecks(Folded(p.headers), keys, |keys|))
    ensures
      var keys := SortedKeys(groups.Keys);
      && Stepped(script, t0, total, t, 2 + RowChecks(Folded(p.headers), keys, |keys|), e, t')
      && (e.None? ==> rows == HeaderRows(p, keys, |keys|) && lookup == Lookup(p, keys, |keys|))
  {
    rows, lookup := [], map[];
    e, t' := Check(script, t, t0, total);
    if e.Some? { return; }
    var keys := SortedKeys(groups.Keys);
    SortedKeysMeaning(groups.Keys);
    e, t' := Check(script, t', t0, total);
    if e.Some? { return; }
    e, rows, lookup, t' := ProjectHeaderRows(script, p, groups, keys, t', t0, total);
  }

  // -------------------------------------------------- ordered headers, cookies

  method ProjectPositions(script: Script, shown: seq<PreparedString>, n: nat, t: nat, ghost t0: nat, ghost total: nat)
    returns (e: Option<PrepError>, views: seq<PreparedString>, t': nat)
    requires Within(script, t0, total, t, Ticks(n))
    ensures Stepped(script, t0, total, t, Ticks(n), e, t')
    ensures e.None? ==> views == Positions(shown, n)
  {
    e, views, t' := None, [], t;
    for j := 0 to n
      invariant e == None && Clear(script, t0, t') && t' == t + Ticks(j)
      invariant views == Positions(shown, j)
    {
      TickStep(j);
      TickMonotone(j + 1, n);
      e, t' := CheckDue(script, j, t', t0, total);
      if e.Some? { return; }
      views := views + [if j < |shown| then shown[j] else Redacted];
    }
  }

  method ProjectEntry(script: Script, i: nat, ghost p: Plan, entry: Entry, lookup: map<Text, Row>, t: nat, ghost t0: nat, ghost total: nat)
    returns (e: Option<PrepError>, row: Row, t': nat)
    requires IsLookup(p, lookup)
    requires Within(script, t0, total, t, Due(i) + Ticks(|entry.values|))
    ensures Stepped(script, t0, total, t, Due(i) + Ticks(|entry.values|), e, t')
    ensures e.None? ==> row == OrderedRow(p, entry)
  {
    row := Row(entry.key, []);
    e, t' := CheckDue(script, i, t, t0, total);
    if e.Some? { return; }
    var key := Fold(entry.key);
    var shown := if key in lookup then lookup[key].values else [];
    var views;
    e, views, t' := ProjectPositions(script, shown, |entry.values|, t', t0, total);
    row := Row(entry.key, views);
  }

  lemma {:induction false} EntryChecksMonotone(entries: Ordered, i: nat, j: nat)
    requires i <= j <= |entries|
    ensures EntryChecks(entries, i) <= EntryChecks(entries, j)
  {
    if i >= j {
    } else {
      EntryChecksMonotone(entries, i, j - 1);
    }
  }

  /** projectPreparedOrderedHeaders. */
  method ProjectOrdered(script: Script, p: Plan, lookup: map<Text, Row>, t: nat)
    returns (r: Result<seq<Row>, PrepError>, t': nat)
    requires IsLookup(p, lookup)
    ensures Follows(script, t, OrderedOutcome(p), r, t')
  {
    if p.ordered.None? {
      return Success([]), t;
    }
    ghost var total := OrderedOutcome(p).checks;
    var entries := p.ordered.value;
    var e;
    e, t' := Check(script, t, t, total);
    if e.Some? { return Failure(e.value), t'; }
    e, t' := Check(script, t', t, total);
    if e.Some? { return Failure(e.value), t'; }
    var rows: seq<Row> := [];
    for i := 0 to |entries|
      invariant e == None && Clear(script, t, t') && t' == t + 2 + EntryChecks(entries, i)
      invariant rows == OrderedRows(p, entries, i)
    {
      EntryChecksMonotone(entries, i + 1, |entries|);
      var row;
      e, row, t' := ProjectEntry(script, i, p, entries[i], lookup, t', t, total);
      if e.Some? { return Failure(e.value), t'; }
      rows := rows + [row];
    }
    r := Success(rows);
  }

  /** projectPreparedCookies. */
  method ProjectCookies(script: Script, cookies: seq<Occurrence>, t: nat)
    returns (r: Result<seq<Row>, PrepError>, t': nat)
    ensures Follows(script, t, CookiesOutcome(cookies), r, t')
  {
    ghost var total := Ticks(|cookies|);
    var rows: seq<Row> := [];
    t' := t;
    for i := 0 to |cookies|
      invariant Clear(script, t, t') && t' == t + Ticks(i)
      invariant rows == CookieRows(cookies[..i])
    {
      TickStep(i);
      TickMonotone(i + 1, |cookies|);
      assert cookies[..i + 1][..i] == cookies[..i];
      var e;
      e, t' := CheckDue(script, i, t', t, total);
      if e.Some? { return Failure(e.value), t'; }
      if ValidCookieName(cookies[i].name) {
        rows := rows + [Row(cookies[i].name, [View(cookies[i].value)])];
      }
    }
    assert cookies[..|cookies|] == cookies;
    r := Success(rows);
  }

  // ------------------------------------------------------------------ target

  lemma {:induction false} BlockedAt(params: seq<PathParam>, i: nat)
    requires i <= |params|
    requires forall j :: 0 <= j < i ==> params[j].counts.inPath == 0 || params[j].value.public
    ensures FirstBlocked(params) >= i
    ensures i < |params| && params[i].counts.inPath > 0 && !params[i].value.public ==> FirstBlocked(params) == i
  {
    if i == 0 {
    } else {
      BlockedAt(params[1..], i - 1);
    }
  }

  /** projectPreparedTarget. */
  method ProjectTarget(script: Script, p: Plan, t: nat) returns (r: Result<Target, PrepError>, t': nat)
    ensures Follows(script, t, TargetOutcome(p), r, t')
  {
    ghost var total := TargetOutcome(p).checks;
    var pathPublic := p.path.public && !p.basePathPrivate;
    t' := t;
    var i := 0;
    var blocked := false;
    while i < |p.params| && !blocked
      invariant 0 <= i <= |p.params| && Clear(script, t, t')
      invariant !blocked ==> t' == t + Ticks(i)
      invariant !blocked ==> forall j :: 0 <= j < i ==> p.params[j].counts.inPath == 0 || p.params[j].value.public
      invariant blocked ==> i > 0 && FirstBlocked(p.params) == i - 1 && t' == t + Ticks(i)
    {
      BlockedAt(p.params, i);
      TickStep(i);
      TickMonotone(i + 1, Min(FirstBlocked(p.params) + 1, |p.params|));
      var e;
      e, t' := CheckDue(script, i, t', t, total);
      if e.Some? { return Failure(e.value), t'; }
      blocked := p.params[i].counts.inPath > 0 && !p.params[i].value.public;
      i := i + 1;
    }
    if !blocked {
      BlockedAt(p.params, i);
    }
    pathPublic := pathPublic && !blocked;
    r := Success(Target(p.scheme, p.host, if pathPublic then Present(p.escapedPath) else Redacted));
  }

  // ------------------------------------------------------------- eligibility

  lemma {:induction false} ExposedAt(params: seq<PathParam>, i: nat)
    requires i <= |params| && forall j :: 0 <= j < i ==> !Exposed(params[j])
    ensures FirstExposed(params) >= i
    ensures i < |params| && Exposed(params[i]) ==> FirstExposed(params) == i
  {
    if i == 0 {
    } else {
      ExposedAt(params[1..], i - 1);
    }
  }

  method CheckAuths(auths: seq<AuthShape>) returns (r: Result<(), PrepError>)
    ensures r == AuthResult(auths)
  {
    for i := 0 to |auths|
      invariant AuthResult(auths[i..]) == AuthResult(auths)
    {
      assert auths[i..][1..] == auths[i + 1..];
      if auths[i] == Malformed { return Failure(InvalidConfig); }
      if auths[i] == Custom { return Failure(NotPreparable); }
    }
    return Success(());
  }

  /** validatePreparationEligibility. */
  method CheckEligible(script: Script, p: Plan, t: nat) returns (r: Result<(), PrepError>, t': nat)
    ensures Follows(script, t, EligibleOutcome(p), r, t')
  {
    ghost var o := EligibleOutcome(p);
    t' := t;
    for i := 0 to |p.params|
      invariant Clear(script, t, t') && t' == t + Ticks(i)
      invariant forall j :: 0 <= j < i ==> !Exposed(p.params[j])
    {
      ExposedAt(p.params, i);
      TickStep(i);
      TickMonotone(i + 1, Min(FirstExposed(p.params) + 1, |p.params|));
      var e;
      e, t' := CheckDue(script, i, t', t, o.checks);
      if e.Some? {
        Failed(script, t, o, e.value, t');
        return Failure(e.value), t';
      }
      if Exposed(p.params[i]) {
        Finished(script, t, o, t');
        return Failure(NotPreparable), t';
      }
    }
    ExposedAt(p.params, |p.params|);
    r := CheckAuths(p.auths);
    Finished(script, t, o, t');
  }
}
