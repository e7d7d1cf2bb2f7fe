/** The body projector, as loops over the form and the multipart fields and parts
    (request_preparation.go). */
module BodyProjection {
  import opened Base
  import opened Headers
  import opened Checkpoints
  import opened FormBudget
  import opened Prepared
  import Body

  // -------------------------------------------------------------------- form

  /** retainPreparedBytes. */
  method RetainBytes(script: Script, data: Text, budget: int64, t: nat)
    returns (r: Result<PreparedString, PrepError>, t': nat)
    ensures Follows(script, t, RetainOutcome(data, budget as int), r, t')
  {
    ghost var o := RetainOutcome(data, budget as int);
    var e;
    e, t' := Check(script, t, t, o.checks);
    if e.Some? { return Failure(e.value), t'; }
    if |data| > budget as int {
      return Failure(BodyTooLarge), t';
    }
    e, t' := Check(script, t', t, o.checks);
    if e.Some? { return Failure(e.value), t'; }
    r := Success(Present(data));
  }

  function ScanChecks(form: seq<Occurrence>): nat {
    Ticks(Min(FirstPrivate(form) + 1, |form|))
  }

  /** preparedFormAllPublic. */
  method AllPublic(script: Script, form: seq<Occurrence>, t: nat, ghost t0: nat, ghost total: nat)
    returns (e: Option<PrepError>, all: bool, t': nat)
    requires Within(script, t0, total, t, ScanChecks(form))
    ensures Stepped(script, t0, total, t, ScanChecks(form), e, t')
    ensures e.None? ==> (all <==> form != [] && FirstPrivate(form) == |form|)
  {
    e, all, t' := None, false, t;
    ghost var k := FirstPrivate(form);
    for i := 0 to |form|
      invariant e == None && Clear(script, t0, t') && t' == t + Ticks(i)
      invariant i <= k
    {
      TickStep(i);
      TickMonotone(i + 1, Min(k + 1, |form|));
      e, t' := CheckDue(script, i, t', t0, total);
      if e.Some? { return; }
      if !form[i].value.public {
        return;
      }
    }
    all := form != [];
  }

  /** Go strings have lengths that fit an int. */
  predicate Representable(form: seq<Occurrence>) {
    forall i :: 0 <= i < |form| ==> |form[i].name| <= MAX_INT64 && |form[i].value.raw| <= MAX_INT64
  }

  function SumChecks(form: seq<Occurrence>, budget: int): nat {
    Ticks(Min(FirstExceeding(form, budget, 0) + 1, |form|))
  }

  /** The running total of the form loop, stopped once it exceeds the budget. */
  method ExceedsBudget(script: Script, form: seq<Occurrence>, budget: int64, t: nat, ghost t0: nat, ghost total: nat)
    returns (e: Option<PrepError>, exceeds: bool, t': nat)
    requires 0 <= budget && Representable(form)
    requires Within(script, t0, total, t, SumChecks(form, budget as int))
    ensures Stepped(script, t0, total, t, SumChecks(form, budget as int), e, t')
    ensures e.None? ==> (exceeds <==> FirstExceeding(form, budget as int, 0) < |form|)
  {
    e, exceeds, t' := None, false, t;
    var sum: int64 := 0;
    ghost var j := FirstExceeding(form, budget as int, 0);
    for i := 0 to |form|
      invariant e == None && !exceeds && Clear(script, t0, t') && t' == t + Ticks(i)
      invariant i <= j && 0 <= sum <= budget && sum as int == LowerBound(form, i)
    {
      TickStep(i);
      TickMonotone(i + 1, Min(j + 1, |form|));
      e, t' := CheckDue(script, i, t', t0, total);
      if e.Some? { return; }
      sum, exceeds := AddOccurrence(sum, i == 0, form[i], budget);
      assert LowerBound(form, i + 1) == LowerBound(form, i) + (if i > 0 then 1 else 0) + RawLength(form[i]);
      if exceeds {
        return;
      }
    }
  }

  /** The form case of projectPreparedBody. */
  method ProjectForm(script: Script, form: seq<Occurrence>, budget: int64, t: nat)
    returns (r: Result<PreparedString, PrepError>, t': nat)
    requires 0 <= budget && Representable(form)
    ensures Follows(script, t, FormOutcome(form, budget as int), r, t')
  {
    ghost var o := FormOutcome(form, budget as int);
    var e, all, exceeds;
    e, all, t' := AllPublic(script, form, t, t, o.checks);
    if e.Some? { Failed(script, t, o, e.value, t'); return Failure(e.value), t'; }
    if !all {
      Finished(script, t, o, t');
      return Success(Redacted), t';
    }
    e, t' := Check(script, t', t, o.checks);
    if e.Some? { Failed(script, t, o, e.value, t'); return Failure(e.value), t'; }
    e, exceeds, t' := ExceedsBudget(script, form, budget, t', t, o.checks);
    if e.Some? { Failed(script, t, o, e.value, t'); return Failure(e.value), t'; }
    if exceeds {
      e, t' := Check(script, t', t, o.checks);
      if e.Some? { Failed(script, t, o, e.value, t'); return Failure(e.value), t'; }
      Finished(script, t, o, t');
      return Failure(BodyTooLarge), t';
    }
    ghost var t1 := t';
    r, t' := RetainBytes(script, FormBytes(form), budget, t');
    Continues(script, t, t1, RetainOutcome(FormBytes(form), budget as int), r, t');
  }

  // --------------------------------------------------------------- multipart

  lemma {:induction false} FieldChecksMonotone(fields: map<Text, seq<Text>>, keys: seq<Text>, i: nat, j: nat)
    requires i <= j <= |keys| && forall k :: 0 <= k < |keys| ==> keys[k] in fields
    ensures FieldChecks(fields, keys, i) <= FieldChecks(fields, keys, j)
  {
    if i >= j {
    } else {
      FieldChecksMonotone(fields, keys, i, j - 1);
    }
  }

  method RedactAll(script: Script, n: nat, t: nat, ghost t0: nat, ghost total: nat)
    returns (e: Option<PrepError>, views: seq<PreparedString>, t': nat)
    requires Within(script, t0, total, t, Ticks(n))
    ensures Stepped(script, t0, total, t, Ticks(n), e, t')
    ensures e.None? ==> views == AllRedacted(n)
  {
    e, views, t' := None, [], t;
    for j := 0 to n
      invariant e == None && Clear(script, t0, t') && t' == t + Ticks(j)
      invariant views == AllRedacted(j)
    {
      TickStep(j);
      TickMonotone(j + 1, n);
      e, t' := CheckDue(script, j, t', t0, total);
      if e.Some? { return; }
      views := views + [Redacted];
    }
  }

  /** One field of the manifest. */
  method ProjectField(script: Script, i: nat, count: nat, t: nat, ghost t0: nat, ghost total: nat)
    returns (e: Option<PrepError>, views: seq<PreparedString>, t': nat)
    requires Within(script, t0, total, t, 1 + Ticks(count) + if (i + 1) % 64 == 0 then 1 else 0)
    ensures Stepped(script, t0, total, t, 1 + Ticks(count) + (if (i + 1) % 64 == 0 then 1 else 0), e, t')
    ensures e.None? ==> views == AllRedacted(count)
  {
    views := [];
    e, t' := Check(script, t, t0, total);
    if e.Some? { return; }
    e, views, t' := RedactAll(script, count, t', t0, total);
    if e.Some? { return; }
    if i % 64 == 63 {
      e, t' := Check(script, t', t0, total);
    }
  }

  method ProjectFields(script: Script, fields: map<Text, seq<Text>>, keys: seq<Text>, t: nat, ghost t0: nat, ghost total: nat)
    returns (e: Option<PrepError>, rows: seq<Row>, t': nat)
    requires forall i :: 0 <= i < |keys| ==> keys[i] in fields
    requires Within(script, t0, total, t, FieldChecks(fields, keys, |keys|))
    ensures Stepped(script, t0, total, t, FieldChecks(fields, keys, |keys|), e, t')
    ensures e.None? ==> rows == FieldRows(fields, keys, |keys|)
  {
    e, rows, t' := None, [], t;
    for i := 0 to |keys|
      invariant e == None && Clear(script, t0, t') && t' == t + FieldChecks(fields, keys, i)
      invariant rows == FieldRows(fields, keys, i)
    {
      FieldChecksMonotone(fields, keys, i + 1, |keys|);
      var views;
      e, views, t' := ProjectField(script, i, |fields[keys[i]]|, t', t0, total);
      if e.Some? { return; }
      rows := rows + [Row(keys[i], views)];
    }
  }

  function PartChecks(parts: seq<Body.FilePart>, validFile: Body.FilePart -> bool): nat {
    Min(FirstBadPart(parts, validFile) + 1, |parts|)
  }

  method ProjectParts(script: Script, parts: seq<Body.FilePart>, validFile: Body.FilePart -> bool, t: nat, ghost t0: nat, ghost total: nat)
    returns (e: Option<PrepError>, valid: bool, names: seq<Text>, t': nat)
    requires Within(script, t0, total, t, PartChecks(parts, validFile))
    ensures Stepped(script, t0, total, t, PartChecks(parts, validFile), e, t')
    ensures e.None? ==> (valid <==> FirstBadPart(parts, validFile) == |parts|)
    ensures e.None? && valid ==> names == FieldNames(parts)
  {
    e, valid, names, t' := None, true, [], t;
    ghost var k := FirstBadPart(parts, validFile);
    for i := 0 to |parts|
      invariant e == None && valid && Clear(script, t0, t') && t' == t + i
      invariant i <= k && names == FieldNames(parts)[..i]
    {
      e, t' := Check(script, t', t0, total);
      if e.Some? { return; }
      if parts[i].field == [] || !parts[i].hasBody || !validFile(parts[i]) {
        valid := false;
        return;
      }
      names := names + [parts[i].field];
    }
  }

  /** prepareMultipartManifest. */
  method ProjectManifest(script: Script, m: Body.Multipart, validFile: Body.FilePart -> bool, t: nat)
    returns (r: Result<Manifest, PrepError>, t': nat)
    ensures Follows(script, t, ManifestOutcome(m, validFile), r, t')
  {
    ghost var o := ManifestOutcome(m, validFile);
    var e;
    e, t' := Check(script, t, t, o.checks);
    if e.Some? { Failed(script, t, o, e.value, t'); return Failure(e.value), t'; }
    if (m.replayLimit.Some? && m.replayLimit.value < 0) || (m.boundary != [] && !ValidBoundary(m.boundary)) {
      Finished(script, t, o, t');
      return Failure(InvalidConfig), t';
    }
    var keys := ManifestKeys(m);
    e, t' := Check(script, t', t, o.checks);
    if e.Some? { Failed(script, t, o, e.value, t'); return Failure(e.value), t'; }
    var rows, valid, names;
    e, rows, t' := ProjectFields(script, m.fields, keys, t', t, o.checks);
    if e.Some? { Failed(script, t, o, e.value, t'); return Failure(e.value), t'; }
    e, valid, names, t' := ProjectParts(script, m.parts, validFile, t', t, o.checks);
    if e.Some? { Failed(script, t, o, e.value, t'); return Failure(e.value), t'; }
    if !valid {
      Finished(script, t, o, t');
      return Failure(InvalidConfig), t';
    }
    e, t' := Check(script, t', t, o.checks);
    if e.Some? { Failed(script, t, o, e.value, t'); return Failure(e.value), t'; }
    Finished(script, t, o, t');
    r := Success(Manifest(rows, names));
  }

  // -------------------------------------------------------------------- body

  /** projectPreparedBody. */
  method ProjectBody(script: Script, body: Body.Plan, budget: int64, validFile: Body.FilePart -> bool, t: nat)
    returns (r: Result<PreparedBody, PrepError>, t': nat)
    requires 0 <= budget && Representable(body.form)
    ensures Follows(script, t, BodyOutcome(body, budget as int, validFile), r, t')
  {
    var base := PreparedBody(body.kind, Body.ShownMediaType(body), Redacted, None);
    if (body.kind == Body.PlainText || body.kind == Body.RawBytes) && body.content.public {
      var data;
      data, t' := RetainBytes(script, body.content.raw, budget, t);
      r := if data.Failure? then Failure(data.error) else Success(base.(data := data.value));
    } else if body.kind == Body.Form {
      var data;
      data, t' := ProjectForm(script, body.form, budget, t);
      r := if data.Failure? then Failure(data.error) else Success(base.(data := data.value));
    } else if body.kind == Body.MultipartForm {
      if body.multipart.None? {
        return Failure(InvalidConfig), t;
      }
      var manifest;
      manifest, t' := ProjectManifest(script, body.multipart.value, validFile, t);
      r := if manifest.Failure? then Failure(manifest.error) else Success(base.(manifest := Some(manifest.value)));
    } else {
      r, t' := Success(base), t;
    }
  }
}
