/** projectRequestPreparation as a whole: the projectors run one after another
    and the first error ends the call. */
module PreparationCall {
  import opened Base
  import opened Checkpoints
  import opened Prepared
  import opened BodyProjection
  import opened Disclosed
  import P = Projection
  import Body

  /** Two computations in a row follow their sequence. */
  lemma InSequence<A, B>(script: Script, t: nat, a: Outcome<A>, ra: Result<A, PrepError>, t1: nat,
                         b: Outcome<B>, rb: Result<B, PrepError>, t2: nat)
    requires Follows(script, t, a, ra, t1)
    requires ra.Success? ==> Follows(script, t1, b, rb, t2)
    ensures
      var r := if ra.Failure? then Failure(ra.error) else if rb.Failure? then Failure(rb.error) else Success((ra.value, rb.value));
      Follows(script, t, Sequence(a, b), r, t2)
  {
    RunSequence(script, t, a, b);
  }

  method CheckOnce(script: Script, t: nat) returns (r: Result<(), PrepError>, t': nat)
    ensures Follows(script, t, ONE_CHECK, r, t')
  {
    var e;
    e, t' := Check(script, t, t, 1);
    r := if e.Some? then Failure(e.value) else Success(());
  }

  function Join<A, B>(a: A, rb: Result<B, PrepError>): Result<(A, B), PrepError> {
    if rb.Failure? then Failure(rb.error) else Success((a, rb.value))
  }

  method FromBody(script: Script, p: Plan, budget: int64, validFile: Body.FilePart -> bool, t: nat)
    returns (r: Result<(PreparedBody, ()), PrepError>, t': nat)
    requires 0 <= budget && Representable(p.body.form)
    ensures Follows(script, t, BodyTail(p, budget as int, validFile), r, t')
  {
    var a, b, t1;
    ghost var o := BodyOutcome(p.body, budget as int, validFile);
    a, t1 := ProjectBody(script, p.body, budget, validFile, t);
    if a.Failure? {
      InSequence(script, t, o, a, t1, ONE_CHECK, Success(()), t1);
      return Failure(a.error), t1;
    }
    b, t' := CheckOnce(script, t1);
    InSequence(script, t, o, a, t1, ONE_CHECK, b, t');
    r := Join(a.value, b);
  }

  method FromCookies(script: Script, p: Plan, budget: int64, validFile: Body.FilePart -> bool, t: nat)
    returns (r: Result<(seq<Row>, (PreparedBody, ())), PrepError>, t': nat)
    requires 0 <= budget && Representable(p.body.form)
    ensures Follows(script, t, CookiesTail(p, budget as int, validFile), r, t')
  {
    var a, b, t1;
    ghost var o, tail := CookiesOutcome(p.cookies), BodyTail(p, budget as int, validFile);
    a, t1 := P.ProjectCookies(script, p.cookies, t);
    if a.Failure? {
      InSequence(script, t, o, a, t1, tail, tail.result, t1);
      return Failure(a.error), t1;
    }
    b, t' := FromBody(script, p, budget, validFile, t1);
    InSequence(script, t, o, a, t1, tail, b, t');
    r := Join(a.value, b);
  }

  method FromOrdered(script: Script, p: Plan, lookup: map<Text, Row>, budget: int64, validFile: Body.FilePart -> bool, t: nat)
    returns (r: Result<(seq<Row>, (seq<Row>, (PreparedBody, ()))), PrepError>, t': nat)
    requires 0 <= budget && Representable(p.body.form) && P.IsLookup(p, lookup)
    ensures Follows(script, t, OrderedTail(p, budget as int, validFile), r, t')
  {
    var a, b, t1;
    ghost var o, tail := OrderedOutcome(p), CookiesTail(p, budget as int, validFile);
    a, t1 := P.ProjectOrdered(script, p, lookup, t);
    if a.Failure? {
      InSequence(script, t, o, a, t1, tail, tail.result, t1);
      return Failure(a.error), t1;
    }
    b, t' := FromCookies(script, p, budget, validFile, t1);
    InSequence(script, t, o, a, t1, tail, b, t');
    r := Join(a.value, b);
  }

  method FromHeaders(script: Script, p: Plan, budget: int64, validFile: Body.FilePart -> bool, t: nat)
    returns (r: Result<(seq<Row>, (seq<Row>, (seq<Row>, (PreparedBody, ())))), PrepError>, t': nat)
    requires 0 <= budget && Representable(p.body.form)
    ensures Follows(script, t, HeadersTail(p, budget as int, validFile), r, t')
  {
    var a, lookup, b, t1;
    ghost var o, tail := HeadersOutcome(p), OrderedTail(p, budget as int, validFile);
    a, lookup, t1 := P.ProjectHeaders(script, p, t);
    if a.Failure? {
      InSequence(script, t, o, a, t1, tail, tail.result, t1);
      return Failure(a.error), t1;
    }
    b, t' := FromOrdered(script, p, lookup, budget, validFile, t1);
    InSequence(script, t, o, a, t1, tail, b, t');
    r := Join(a.value, b);
  }

  method FromQuery(script: Script, p: Plan, budget: int64, validFile: Body.FilePart -> bool, t: nat)
    returns (r: Result<(seq<Row>, (seq<Row>, (seq<Row>, (seq<Row>, (PreparedBody, ()))))), PrepError>, t': nat)
    requires 0 <= budget && Representable(p.body.form)
    ensures Follows(script, t, QueryTail(p, budget as int, validFile), r, t')
  {
    var a, b, t1;
    ghost var o, tail := QueryOutcome(p.query), HeadersTail(p, budget as int, validFile);
    a, t1 := P.ProjectQuery(script, p.query, t);
    if a.Failure? {
      InSequence(script, t, o, a, t1, tail, tail.result, t1);
      return Failure(a.error), t1;
    }
    b, t' := FromHeaders(script, p, budget, validFile, t1);
    InSequence(script, t, o, a, t1, tail, b, t');
    r := Join(a.value, b);
  }

  method FromTarget(script: Script, p: Plan, budget: int64, validFile: Body.FilePart -> bool, t: nat)
    returns (r: Result<(Target, (seq<Row>, (seq<Row>, (seq<Row>, (seq<Row>, (PreparedBody, ())))))), PrepError>, t': nat)
    requires 0 <= budget && Representable(p.body.form)
    ensures Follows(script, t, TargetTail(p, budget as int, validFile), r, t')
  {
    var a, b, t1;
    ghost var o, tail := TargetOutcome(p), QueryTail(p, budget as int, validFile);
    a, t1 := P.ProjectTarget(script, p, t);
    if a.Failure? {
      InSequence(script, t, o, a, t1, tail, tail.result, t1);
      return Failure(a.error), t1;
    }
    b, t' := FromQuery(script, p, budget, validFile, t1);
    InSequence(script, t, o, a, t1, tail, b, t');
    r := Join(a.value, b);
  }

  /** projectRequestPreparation: for every plan, budget and context the call
      returns what the plan's outcome says. */
  method Project(script: Script, p: Plan, budget: int64, validFile: Body.FilePart -> bool, t: nat)
    returns (r: Result<Preparation, PrepError>, t': nat)
    requires 0 <= budget && Representable(p.body.form)
    ensures Follows(script, t, PrepareOutcome(p, budget as int, validFile), r, t')
    ensures r.Success? ==> Discloses(p, r.value)
  {
    ProjectionDiscloses(p, budget as int, validFile);
    ghost var tail := TargetTail(p, budget as int, validFile);
    var a, t1 := CheckOnce(script, t);
    if a.Failure? {
      InSequence(script, t, ONE_CHECK, a, t1, tail, tail.result, t1);
      return Failure(a.error), t1;
    }
    var b;
    b, t' := FromTarget(script, p, budget, validFile, t1);
    InSequence(script, t, ONE_CHECK, a, t1, tail, b, t');
    if b.Failure? {
      return Failure(b.error), t';
    }
    var (target, (query, (headers, (ordered, (cookies, (body, _)))))) := b.value;
    r := Success(Preparation(p.verb, target, query, headers, ordered, cookies, body));
  }

  /** A computation behind another one that guards it. */
  lemma InOrder<A, B>(script: Script, t: nat, a: Outcome<A>, ra: Result<A, PrepError>, t1: nat,
                      b: Outcome<B>, rb: Result<B, PrepError>, t2: nat)
    requires Follows(script, t, a, ra, t1)
    requires ra.Success? ==> Follows(script, t1, b, rb, t2)
    ensures Follows(script, t, Then(a, b), if ra.Failure? then Failure(ra.error) else rb, t2)
  {
    FirstErrorSplit(script, t, a.checks, b.checks);
  }

  /** validatePreparationBodyShape. */
  method CheckShape(p: Plan) returns (r: Result<(), PrepError>)
    ensures r == ShapeResult(p)
  {
    var kind := p.body.kind;
    if kind == Body.JSON || kind == Body.XML || kind == Body.YAML {
      return if p.localType == [] then Failure(UnsupportedContentType) else Success(());
    }
    if kind == Body.Reader && p.body.nilReader {
      return Failure(InvalidConfig);
    }
    if kind == Body.MultipartForm && p.body.multipart.None? {
      return Failure(InvalidConfig);
    }
    r := Success(());
  }

  method PrepareChecked(script: Script, compiled: Option<Plan>, budget: int64, validFile: Body.FilePart -> bool, t: nat)
    returns (r: Result<Preparation, PrepError>, t': nat)
    requires compiled.Some? ==> Representable(compiled.value.body.form)
    ensures Follows(script, t, CheckedOutcome(compiled, budget as int, validFile), r, t')
  {
    if budget < 0 {
      return Failure(InvalidBudget), t;
    }
    if compiled.None? {
      return Failure(CreationFailed), t;
    }
    var p := compiled.value;
    var shape := CheckShape(p);
    ghost var o := Then(EligibleOutcome(p), PrepareOutcome(p, budget as int, validFile));
    if shape.Failure? {
      InOrder(script, t, Outcome(0, ShapeResult(p)), shape, t, o, Failure(shape.error), t);
      return Failure(shape.error), t;
    }
    r, t' := PrepareEligible(script, p, budget, validFile, t);
    InOrder(script, t, Outcome(0, ShapeResult(p)), shape, t, o, r, t');
  }

  method PrepareEligible(script: Script, p: Plan, budget: int64, validFile: Body.FilePart -> bool, t: nat)
    returns (r: Result<Preparation, PrepError>, t': nat)
    requires 0 <= budget && Representable(p.body.form)
    ensures Follows(script, t, Then(EligibleOutcome(p), PrepareOutcome(p, budget as int, validFile)), r, t')
  {
    var e, t1 := P.CheckEligible(script, p, t);
    ghost var o := PrepareOutcome(p, budget as int, validFile);
    if e.Failure? {
      InOrder(script, t, EligibleOutcome(p), e, t1, o, Failure(e.error), t1);
      return Failure(e.error), t1;
    }
    r, t' := Project(script, p, budget, validFile, t1);
    InOrder(script, t, EligibleOutcome(p), e, t1, o, r, t');
  }

  /** Prepare: for every builder error, compiled plan, budget and context. */
  method Prepare(script: Script, retained: Option<nat>, compiled: Option<Plan>, budget: int64,
                 validFile: Body.FilePart -> bool)
    returns (r: Result<Preparation, PrepError>)
    requires compiled.Some? ==> Representable(compiled.value.body.form)
    ensures r == Run(script, 0, CallOutcome(retained, compiled, budget as int, validFile))
    ensures r.Success? ==> compiled.Some? && Discloses(compiled.value, r.value)
    ensures r.Failure? && !r.error.Context? ==> Some(r.error) == Fault(retained, compiled, budget as int, validFile)
  {
    CallDiscloses(retained, compiled, budget as int, validFile);
    if retained.Some? {
      return Failure(Retained(retained.value));
    }
    var a, t := CheckOnce(script, 0);
    ghost var o := CheckedOutcome(compiled, budget as int, validFile);
    if a.Failure? {
      InOrder(script, 0, ONE_CHECK, a, t, o, Failure(a.error), t);
      return Failure(a.error);
    }
    var t';
    r, t' := PrepareChecked(script, compiled, budget, validFile, t);
    InOrder(script, 0, ONE_CHECK, a, t, o, r, t');
  }
}
