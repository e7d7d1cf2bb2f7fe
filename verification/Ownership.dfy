/** Who closes the request body when middleware may replace, wrap or close it,
    call the next handler any number of times, or not at all (delivery.go). */
module Ownership {
  /** What req.Body may refer to. A wrapper closes what it wraps. */
  datatype BodyRef = NilBody | NoBody | Original | Foreign | Wrapper(inner: BodyRef)

  /** The request's current body, the close-once state of the original one, the
      number of times its underlying reader was closed, and every Close call. */
  datatype State = State(current: BodyRef, fired: bool, closes: nat, attempts: nat, calls: seq<BodyRef>)

  /** Close through the sync.OnceValue wrapper. */
  function Release(s: State, body: BodyRef): State {
    match body
    case Original => if s.fired then s else s.(fired := true, closes := s.closes + 1)
    case Wrapper(inner) => Release(s, inner)
    case _ => s
  }

  function Close(s: State, body: BodyRef): State {
    Release(s.(calls := s.calls + [body]), body)
  }

  /** One run of a handler. A terminal run reports its transport calls and what
      the transport closed; a middleware run is whatever it did, in order. */
  datatype Run = Terminal(attempts: nat, closed: seq<BodyRef>) | Middleware(name: nat, steps: seq<Step>)

  datatype Step = Assign(body: BodyRef) | CloseRef(body: BodyRef) | Call(next: Run)

  function CloseAll(s: State, bodies: seq<BodyRef>): State
    decreases |bodies|
  {
    if bodies == [] then s else CloseAll(Close(s, bodies[0]), bodies[1..])
  }

  function Exec(s: State, r: Run): State
    decreases r
  {
    match r
    case Terminal(attempts, closed) => CloseAll(s.(attempts := s.attempts + attempts), closed)
    case Middleware(_, steps) => ExecSteps(s, steps)
  }

  function ExecSteps(s: State, steps: seq<Step>): State
    decreases steps
  {
    if steps == [] then s else ExecSteps(ExecStep(s, steps[0]), steps[1..])
  }

  function ExecStep(s: State, step: Step): State
    decreases step, 1
  {
    match step
    case Assign(body) => s.(current := body)
    case CloseRef(body) => Close(s, body)
    case Call(next) => Exec(s, next)
  }

  /** The handlers from the outermost inwards. */
  datatype Handler = Final | Wrapped(middleware: nat, next: Handler)

  function Chain(h: Handler): seq<nat> {
    match h
    case Final => []
    case Wrapped(m, next) => [m] + Chain(next)
  }

  /** The runs a chain of handlers can have: every layer calls only its own next
      handler, and the terminal handler sits behind all of them. */
  predicate RunsOf(r: Run, names: seq<nat>)
    decreases r
  {
    match r
    case Terminal(_, _) => names == []
    case Middleware(name, steps) =>
      names != [] && name == names[0] &&
      forall i :: 0 <= i < |steps| && steps[i].Call? ==> RunsOf(steps[i].next, names[1..])
  }

  /** The composition loops of `do`: request middleware innermost, then client. */
  method Compose(client: seq<nat>, request: seq<nat>) returns (h: Handler)
    ensures Chain(h) == client + request
  {
    h := Final;
    var i := |request|;
    while i > 0
      invariant 0 <= i <= |request|
      invariant Chain(h) == request[i..]
    {
      i := i - 1;
      assert request[i..] == [request[i]] + request[i + 1..];
      h := Wrapped(request[i], h);
    }
    i := |client|;
    while i > 0
      invariant 0 <= i <= |client|
      invariant Chain(h) == client[i..] + request
    {
      i := i - 1;
      assert client[i..] + request == [client[i]] + (client[i + 1..] + request);
      h := Wrapped(client[i], h);
    }
  }

  predicate Counted(s: State) {
    s.closes == if s.fired then 1 else 0
  }

  /** Closing the body or a wrapper of it. */
  predicate Reaches(body: BodyRef) {
    body.Original? || (body.Wrapper? && Reaches(body.inner))
  }

  lemma {:induction false} ReleaseCounted(s: State, body: BodyRef)
    requires Counted(s)
    ensures Counted(Release(s, body))
    ensures Release(s, body) == s.(fired := s.fired || Reaches(body), closes := Release(s, body).closes)
  {
    match body
    case Wrapper(inner) => ReleaseCounted(s, inner);
    case _ =>
  }

  /** A Close call releases the original body exactly when it reaches it. */
  lemma CloseCounted(s: State, body: BodyRef)
    requires Counted(s)
    ensures Counted(Close(s, body))
    ensures
      var t := Close(s, body);
      && t.attempts == s.attempts && t.current == s.current && t.calls == s.calls + [body]
      && (t.fired <==> s.fired || Reaches(body))
  {
    ReleaseCounted(s.(calls := s.calls + [body]), body);
  }

  predicate AnyReaches(bodies: seq<BodyRef>) {
    exists i :: 0 <= i < |bodies| && Reaches(bodies[i])
  }

  lemma AnyReachesConcat(a: seq<BodyRef>, b: seq<BodyRef>)
    ensures AnyReaches(a + b) <==> AnyReaches(a) || AnyReaches(b)
  {
    assert forall i :: 0 <= i < |a| ==> (a + b)[i] == a[i];
    assert forall i :: 0 <= i < |b| ==> (a + b)[|a| + i] == b[i];
  }

  lemma {:induction false} CloseAllCounted(s: State, bodies: seq<BodyRef>)
    requires Counted(s)
    ensures CloseAll(s, bodies).fired <==> s.fired || AnyReaches(bodies)
    ensures Counted(CloseAll(s, bodies)) && CloseAll(s, bodies).attempts == s.attempts
    ensures CloseAll(s, bodies).current == s.current && CloseAll(s, bodies).calls == s.calls + bodies
    decreases |bodies|
  {
    if bodies == [] {
    } else {
      CloseCounted(s, bodies[0]);
      CloseAllCounted(Close(s, bodies[0]), bodies[1..]);
      AnyReachesConcat([bodies[0]], bodies[1..]);
      assert [bodies[0]] + bodies[1..] == bodies;
    }
  }

  /** Whatever middleware does, the original body is closed at most once. */
  lemma {:induction false} ExecCounted(s: State, r: Run)
    requires Counted(s)
    ensures Counted(Exec(s, r))
    decreases r
  {
    match r
    case Terminal(attempts, closed) => CloseAllCounted(s.(attempts := s.attempts + attempts), closed);
    case Middleware(_, steps) => ExecStepsCounted(s, steps);
  }

  lemma {:induction false} ExecStepsCounted(s: State, steps: seq<Step>)
    requires Counted(s)
    ensures Counted(ExecSteps(s, steps))
    decreases steps
  {
    if steps == [] {
    } else {
      ExecStepCounted(s, steps[0]);
      ExecStepsCounted(ExecStep(s, steps[0]), steps[1..]);
    }
  }

  lemma {:induction false} ExecStepCounted(s: State, step: Step)
    requires Counted(s)
    ensures Counted(ExecStep(s, step))
    decreases step, 1
  {
    match step
    case CloseRef(body) => CloseCounted(s, body);
    case Call(next) => ExecCounted(s, next);
    case Assign(_) =>
  }

  const START: State := State(Original, false, 0, 0, [])

  /** `do` for any run of the composed chain on a request with a body: without a
      transport call the body is closed exactly once, with one `do` itself adds
      no close, and it is never closed twice. */
  method Do(client: seq<nat>, request: seq<nat>, run: Run) returns (s: State)
    requires RunsOf(run, client + request)
    ensures s.attempts == Exec(START, run).attempts
    ensures s.attempts == 0 ==> s.closes == 1
    ensures s.attempts > 0 ==> s == Exec(START, run) && (s.closes == 1 <==> AnyReaches(Calls(run)))
    ensures s.closes <= 1
    ensures
      var left, calls := Left(run, Original), Calls(run);
      s.calls == calls + if Dispatched(run) == 0 then (if left == NilBody then [] else [left]) + [Original] else []
  {
    var h := Compose(client, request);
    assert RunsOf(run, Chain(h));
    s := Exec(START, run);
    ExecCounted(START, run);
    ExecMeaning(START, run);
    if s.attempts == 0 {
      if s.current != NilBody {
        CloseCounted(s, s.current);
        s := Close(s, s.current);
      }
      CloseCounted(s, Original);
      s := Close(s, Original);
    }
  }

  // ------------------------------------------------------------- what a run did

  /** The transport calls of a run. */
  function Dispatched(r: Run): nat
    decreases r
  {
    match r
    case Terminal(attempts, _) => attempts
    case Middleware(_, steps) => DispatchedIn(steps)
  }

  function DispatchedIn(steps: seq<Step>): nat
    decreases steps
  {
    if steps == [] then 0 else DispatchedBy(steps[0]) + DispatchedIn(steps[1..])
  }

  function DispatchedBy(step: Step): nat
    decreases step, 1
  {
    if step.Call? then Dispatched(step.next) else 0
  }

  /** The Close calls of a run, in order. */
  function Calls(r: Run): seq<BodyRef>
    decreases r
  {
    match r
    case Terminal(_, closed) => closed
    case Middleware(_, steps) => CallsIn(steps)
  }

  function CallsIn(steps: seq<Step>): seq<BodyRef>
    decreases steps
  {
    if steps == [] then [] else CallsBy(steps[0]) + CallsIn(steps[1..])
  }

  function CallsBy(step: Step): seq<BodyRef>
    decreases step, 1
  {
    match step
    case Assign(_) => []
    case CloseRef(body) => [body]
    case Call(next) => Calls(next)
  }

  /** The body that a run leaves in the request. */
  function Left(r: Run, before: BodyRef): BodyRef
    decreases r
  {
    match r
    case Terminal(_, _) => before
    case Middleware(_, steps) => LeftIn(steps, before)
  }

  function LeftIn(steps: seq<Step>, before: BodyRef): BodyRef
    decreases steps
  {
    if steps == [] then before else LeftIn(steps[1..], LeftBy(steps[0], before))
  }

  function LeftBy(step: Step, before: BodyRef): BodyRef
    decreases step, 1
  {
    match step
    case Assign(body) => body
    case CloseRef(_) => before
    case Call(next) => Left(next, before)
  }

  /** Running a handler: its transport calls and Close calls are added up in order,
      and the body it assigned last stays. */
  lemma {:induction false} ExecMeaning(s: State, r: Run)
    requires Counted(s)
    ensures
      var t := Exec(s, r);
      && t.attempts == s.attempts + Dispatched(r) && t.calls == s.calls + Calls(r)
      && t.current == Left(r, s.current) && Counted(t)
      && (t.fired <==> s.fired || AnyReaches(Calls(r)))
    decreases r
  {
    match r
    case Terminal(attempts, closed) => CloseAllCounted(s.(attempts := s.attempts + attempts), closed);
    case Middleware(_, steps) => ExecStepsMeaning(s, steps);
  }

  lemma {:induction false} ExecStepsMeaning(s: State, steps: seq<Step>)
    requires Counted(s)
    ensures
      var t := ExecSteps(s, steps);
      && t.attempts == s.attempts + DispatchedIn(steps) && t.calls == s.calls + CallsIn(steps)
      && t.current == LeftIn(steps, s.current) && Counted(t)
      && (t.fired <==> s.fired || AnyReaches(CallsIn(steps)))
    decreases steps
  {
    if steps == [] {
    } else {
      ExecStepMeaning(s, steps[0]);
      ExecStepsMeaning(ExecStep(s, steps[0]), steps[1..]);
      AnyReachesConcat(CallsBy(steps[0]), CallsIn(steps[1..]));
    }
  }

  lemma {:induction false} ExecStepMeaning(s: State, step: Step)
    requires Counted(s)
    ensures
      var t := ExecStep(s, step);
      && t.attempts == s.attempts + DispatchedBy(step) && t.calls == s.calls + CallsBy(step)
      && t.current == LeftBy(step, s.current) && Counted(t)
      && (t.fired <==> s.fired || AnyReaches(CallsBy(step)))
    decreases step, 1
  {
    match step
    case CloseRef(body) =>
      CloseCounted(s, body);
      assert CallsBy(step)[0] == body;
    case Call(next) => ExecMeaning(s, next);
    case Assign(_) =>
  }

  /** A terminal run lies behind every handler of the chain: a run that reached
      the transport entered all of them. */
  function Depth(r: Run): nat
    decreases r
  {
    match r
    case Terminal(_, _) => 0
    case Middleware(_, steps) => 1 + DepthSteps(steps)
  }

  function DepthSteps(steps: seq<Step>): nat
    decreases steps
  {
    if steps == [] then 0
    else
      var d := DepthStep(steps[0]);
      var rest := DepthSteps(steps[1..]);
      if d > rest then d else rest
  }

  function DepthStep(step: Step): nat
    decreases step, 1
  {
    if step.Call? then Depth(step.next) else 0
  }

  lemma {:induction false} AttemptsNeedWholeChain(s: State, r: Run, names: seq<nat>)
    requires Counted(s) && RunsOf(r, names)
    ensures Exec(s, r).attempts > s.attempts ==> Depth(r) >= |names|
    decreases r
  {
    match r
    case Terminal(_, _) =>
    case Middleware(_, steps) =>
      StepsNeedWholeChain(s, steps, names[1..]);
  }

  lemma {:induction false} StepsNeedWholeChain(s: State, steps: seq<Step>, names: seq<nat>)
    requires Counted(s)
    requires forall i :: 0 <= i < |steps| && steps[i].Call? ==> RunsOf(steps[i].next, names)
    ensures ExecSteps(s, steps).attempts > s.attempts ==> DepthSteps(steps) >= |names|
    decreases steps
  {
    if steps == [] {
    } else {
      var t := ExecStep(s, steps[0]);
      ExecStepCounted(s, steps[0]);
      match steps[0] {
        case Call(next) => CallNeedsWholeChain(s, steps[0], names);
        case CloseRef(body) => CloseCounted(s, body);
        case Assign(_) =>
      }
      StepsNeedWholeChain(t, steps[1..], names);
    }
  }

  lemma {:induction false} CallNeedsWholeChain(s: State, step: Step, names: seq<nat>)
    requires Counted(s) && step.Call? && RunsOf(step.next, names)
    ensures Exec(s, step.next).attempts > s.attempts ==> Depth(step.next) >= |names|
    decreases step, 1
  {
    AttemptsNeedWholeChain(s, step.next, names);
  }
}
