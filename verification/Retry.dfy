/** The retry loop of delivery, against an arbitrary transport, and what it owes
    to every response it receives (delivery.go, retry.go). */
module Retry {
  import opened Base

  const DRAIN_LIMIT: nat := 65536

  // ------------------------------------------------------------- environment

  /** The request body a terminal handler is given. `replay` is GetBody: what it
      yields before each attempt, or nothing when it fails. */
  datatype ReqBody =
    | Empty
    | OneShot(content: Text)
    | Replayable(content: Text, replay: nat -> Option<Text>)

  /** A response body: the bytes it holds, whether reading them ends in an error
      rather than at EOF, whether the end is reported together with the last
      bytes, and whether closing fails. */
  datatype RespBody = RespBody(available: nat, readFails: bool, eager: bool, closeFails: bool)

  /** Draining meets the read error only if it is seen within the limit. */
  predicate DrainFails(body: RespBody) {
    body.readFails && (body.available < DRAIN_LIMIT || (body.available == DRAIN_LIMIT && body.eager))
  }

  /** Everything the outside world decides about one attempt: what Do returns,
      what ShouldRetry answers, and whether the backoff wait completes. */
  datatype Reply = Reply(resp: Option<RespBody>, failed: bool, retry: bool, waited: bool)

  datatype Failure =
    | Transport(attempts: seq<nat>)
    | NotReplayable(cause: Option<nat>)
    | ResetFailed
    | CleanupFailed
    | Canceled

  /** What a handler returns. A response returned by a failed Do keeps its
      metadata, but its body was replaced by NoBody and is not live. */
  datatype Returned = Returned(resp: Option<nat>, live: bool, err: Option<Failure>)

  /** What happens on the wire, in order. Responses are named by their attempt. */
  datatype Event =
    | Sent(offered: Text)
    | Got(id: nat)
    | Drained(id: nat, bytes: nat)
    | Closed(id: nat)

  // ----------------------------------------------------------------- monitor

  /** What an observer knows: nothing is open, one response is open, or a rule
      was broken. `next` bounds the identities that can still appear. */
  datatype Watch =
    | Idle(next: nat)
    | Holding(id: nat, drained: bool, next: nat)
    | Violated

  /** The ownership rules: a response appears once, only one is open at a time,
      it is drained at most once and by at most the limit, and closed once. */
  function Observe(w: Watch, e: Event): Watch {
    match (w, e)
    case (Violated, _) => Violated
    case (_, Sent(_)) => w
    case (Idle(next), Got(id)) => if next <= id then Holding(id, false, id + 1) else Violated
    case (Holding(id, false, next), Drained(d, n)) => if d == id && n <= DRAIN_LIMIT then Holding(id, true, next) else Violated
    case (Holding(id, _, next), Closed(d)) => if d == id then Idle(next) else Violated
    case _ => Violated
  }

  function Watching(w: Watch, trace: seq<Event>): Watch
    decreases |trace|
  {
    if trace == [] then w else Observe(Watching(w, trace[..|trace| - 1]), trace[|trace| - 1])
  }

  function CountGot(trace: seq<Event>, id: nat): nat {
    if trace == [] then 0 else CountGot(trace[..|trace| - 1], id) + if trace[|trace| - 1] == Got(id) then 1 else 0
  }

  function CountClosed(trace: seq<Event>, id: nat): nat {
    if trace == [] then 0 else CountClosed(trace[..|trace| - 1], id) + if trace[|trace| - 1] == Closed(id) then 1 else 0
  }

  function BytesDrained(trace: seq<Event>, id: nat): nat {
    if trace == [] then 0
    else
      var last := trace[|trace| - 1];
      BytesDrained(trace[..|trace| - 1], id) + if last.Drained? && last.id == id then last.bytes else 0
  }

  /** The number of response bodies open at the end of a trace. */
  function OpenBodies(trace: seq<Event>): int {
    if trace == [] then 0
    else
      OpenBodies(trace[..|trace| - 1]) +
      (match trace[|trace| - 1] case Got(_) => 1 case Closed(_) => -1 case _ => 0)
  }

  /** A trace without violation conserves responses: each one was received once,
      drained within the limit, and closed exactly once unless it is the one
      still held; at no time was more than one open. */
  lemma {:induction false} Conserved(first: nat, trace: seq<Event>, id: nat)
    requires Watching(Idle(first), trace) != Violated
    ensures
      var w := Watching(Idle(first), trace);
      && CountGot(trace, id) <= 1
      && CountClosed(trace, id) == CountGot(trace, id) - (if w.Holding? && w.id == id then 1 else 0)
      && BytesDrained(trace, id) <= DRAIN_LIMIT
      && OpenBodies(trace) == (if w.Holding? then 1 else 0)
      && (w.next <= id ==> CountGot(trace, id) == 0 && BytesDrained(trace, id) == 0)
      && (w.Holding? ==> w.id < w.next && (!w.drained && w.id == id ==> BytesDrained(trace, id) == 0))
  {
    if trace == [] {
    } else {
      Conserved(first, trace[..|trace| - 1], id);
    }
  }

  lemma {:induction false} PrefixUnviolated(first: nat, trace: seq<Event>, k: nat)
    requires Watching(Idle(first), trace) != Violated && k <= |trace|
    ensures Watching(Idle(first), trace[..k]) != Violated
    decreases |trace|
  {
    if k < |trace| {
      PrefixUnviolated(first, trace[..|trace| - 1], k);
      assert trace[..|trace| - 1][..k] == trace[..k];
    } else {
      assert trace[..k] == trace;
    }
  }

  /** At every moment of an accepted run at most one response body is open. */
  lemma AtMostOneOpen(first: nat, trace: seq<Event>, k: nat)
    requires Watching(Idle(first), trace) != Violated && k <= |trace|
    ensures 0 <= OpenBodies(trace[..k]) <= 1
  {
    PrefixUnviolated(first, trace, k);
    Conserved(first, trace[..k], 0);
  }

  // ---------------------------------------------------------------- the loop

  predicate AllOffered(trace: seq<Event>, content: Text) {
    forall i :: 0 <= i < |trace| && trace[i].Sent? ==> trace[i].offered == content
  }

  /** GetBody returns the bytes of the first attempt every time. */
  ghost predicate Faithful(body: ReqBody) {
    body.Replayable? ==> forall n :: body.replay(n) == Some(body.content)
  }

  function Content(body: ReqBody): Text {
    if body.Empty? then [] else body.content
  }

  /** The number of iterations of `range retry.Max + 1` in 64-bit arithmetic. */
  function Iterations(max: int64): int {
    if max as int == MAX_INT64 then -0x8000_0000_0000_0000 else max as int + 1
  }

  /** The observer's state when a handler returns: exactly the live response it
      returns is still open, untouched. */
  predicate Settled(w: Watch, r: Returned) {
    if r.resp.Some? && r.live then w.Holding? && w.id == r.resp.value && !w.drained else w.Idle?
  }

  function CountSent(trace: seq<Event>): nat {
    if trace == [] then 0 else CountSent(trace[..|trace| - 1]) + if trace[|trace| - 1].Sent? then 1 else 0
  }

  /** resetRequestBody before a later attempt; none when GetBody fails. */
  function Reoffer(body: ReqBody, attempt: nat): Option<Text> {
    if body.Replayable? then body.replay(attempt) else Some(Content(body))
  }

  // ------------------------------------------------------- what a run must be

  /** An attempt after which the loop owns an open response. */
  predicate Live(reply: Reply) {
    reply.resp.Some? && !reply.failed
  }

  predicate CleanupFails(reply: Reply) {
    Live(reply) && (DrainFails(reply.resp.value) || reply.resp.value.closeFails)
  }

  /** What follows an attempt: the handler returns its result, it gives up for
      another reason, or there is another attempt. */
  datatype Decision = Finish | Abort(cause: Failure) | Again

  /** The decision up to the end of the backoff wait. */
  function Verdict(max: int, body: ReqBody, reply: Reply, id: nat, k: nat): Decision {
    if !reply.retry || k == max then Finish
    else if body.OneShot? then Abort(NotReplayable(if reply.failed then Some(id) else None))
    else if CleanupFails(reply) then Abort(CleanupFailed)
    else if !reply.waited then Abort(Canceled)
    else Again
  }

  /** The decision after attempt k, the reset of the request body included. */
  function Decide(max: int, body: ReqBody, transport: nat -> Reply, first: nat, k: nat): Decision {
    var v := Verdict(max, body, transport(first + k), first + k, k);
    if v.Again? && Reoffer(body, k + 1).None? then Abort(ResetFailed) else v
  }

  /** The first n attempts are all followed by another one. */
  predicate Continued(max: int, body: ReqBody, transport: nat -> Reply, first: nat, n: nat) {
    n == 0 || (Continued(max, body, transport, first, n - 1) && Decide(max, body, transport, first, n - 1) == Again)
  }

  /** A call makes n attempts when the n-th is the first not to go on. */
  predicate Attempts(max: int, body: ReqBody, transport: nat -> Reply, first: nat, n: nat) {
    && 0 < n <= max + 1
    && Continued(max, body, transport, first, n - 1)
    && Decide(max, body, transport, first, n - 1) != Again
  }

  lemma {:induction false} ContinuedAt(max: int, body: ReqBody, transport: nat -> Reply, first: nat, n: nat, k: nat)
    requires Continued(max, body, transport, first, n) && k < n
    ensures Decide(max, body, transport, first, k) == Again
  {
    if k >= n - 1 {
    } else {
      ContinuedAt(max, body, transport, first, n - 1, k);
    }
  }

  /** The number of attempts is determined. */
  lemma AttemptsUnique(max: int, body: ReqBody, transport: nat -> Reply, first: nat, n: nat, m: nat)
    requires Attempts(max, body, transport, first, n) && Attempts(max, body, transport, first, m)
    ensures n == m
  {
    if n < m {
      ContinuedAt(max, body, transport, first, m - 1, n - 1);
    } else if m < n {
      ContinuedAt(max, body, transport, first, n - 1, m - 1);
    }
  }

  function Offer(body: ReqBody, k: nat): Text {
    if k == 0 then Content(body)
    else
      var again := Reoffer(body, k);
      if again.Some? then again.value else []
  }

  /** The wire events of attempt k. */
  function Exchange(body: ReqBody, reply: Reply, id: nat, k: nat): seq<Event> {
    [Sent(Offer(body, k))] + if Live(reply) then [Got(id)] else []
  }

  /** How the loop gets rid of a response before it goes on. */
  function Retire(reply: Reply, id: nat): seq<Event> {
    if Live(reply) then [Drained(id, Min(reply.resp.value.available, DRAIN_LIMIT)), Closed(id)] else []
  }

  /** A past followed by attempt k, its response still held. */
  function WithExchange(past: seq<Event>, body: ReqBody, reply: Reply, id: nat, k: nat): seq<Event> {
    past + Exchange(body, reply, id, k)
  }

  /** A past followed by attempt k, its response retired. */
  function WithAttempt(past: seq<Event>, body: ReqBody, reply: Reply, id: nat, k: nat): seq<Event> {
    WithExchange(past, body, reply, id, k) + Retire(reply, id)
  }

  /** The events of n attempts whose responses were all retired. */
  function History(body: ReqBody, transport: nat -> Reply, first: nat, n: nat): seq<Event> {
    if n == 0 then []
    else WithAttempt(History(body, transport, first, n - 1), body, transport(first + n - 1), first + n - 1, n - 1)
  }

  /** Whether the last response is retired although no attempt follows. */
  predicate Retires(d: Decision) {
    d.Again? || (d.Abort? && !d.cause.NotReplayable?)
  }

  /** All events of a call with n attempts. */
  function Events(max: int, body: ReqBody, transport: nat -> Reply, first: nat, n: nat): seq<Event>
    requires n > 0
  {
    if Retires(Decide(max, body, transport, first, n - 1)) then History(body, transport, first, n)
    else WithExchange(History(body, transport, first, n - 1), body, transport(first + n - 1), first + n - 1, n - 1)
  }

  /** The attempts that failed among the first n. */
  function FailedAttempts(transport: nat -> Reply, first: nat, n: nat): seq<nat> {
    if n == 0 then []
    else FailedAttempts(transport, first, n - 1) + if transport(first + n - 1).failed then [first + n - 1] else []
  }

  /** What a call with n attempts returns. */
  function Returns(max: int, body: ReqBody, transport: nat -> Reply, first: nat, n: nat): Returned
    requires n > 0
  {
    var d, reply, id := Decide(max, body, transport, first, n - 1), transport(first + n - 1), first + n - 1;
    if Retires(d) then Returned(None, false, if d.Abort? then Some(d.cause) else None)
    else
      Returned(if reply.resp.Some? then Some(id) else None, Live(reply),
               if d.Abort? then Some(d.cause)
               else if reply.failed then Some(Transport(FailedAttempts(transport, first, n))) else None)
  }

  /** The specification of one call: its attempts, wire events and result. */
  predicate Specified(max: int, body: ReqBody, transport: nat -> Reply, first: nat, n: nat, trace: seq<Event>, r: Returned) {
    && Attempts(max, body, transport, first, n)
    && trace == Events(max, body, transport, first, n)
    && r == Returns(max, body, transport, first, n)
  }

  // ----------------------------------------------- what a caller is promised

  /** An attempt leaves nothing behind: its response, if it owns one, is read
      without an error as far as it is read, and closed without one. */
  predicate Released(reply: Reply) {
    reply.resp.Some? && !reply.failed ==>
      var b := reply.resp.value;
      !b.closeFails && (b.readFails ==> b.available > 65536 || (b.available == 65536 && !b.eager))
  }

  /** A retry is wanted, and nothing stands in its way. */
  predicate CanRetry(body: ReqBody, reply: Reply, next: nat) {
    && reply.retry && reply.waited && Released(reply)
    && !body.OneShot? && (body.Replayable? ==> body.replay(next).Some?)
  }

  /** The caller gets the attempt's response, live unless it came with an error. */
  predicate HandsOver(reply: Reply, id: nat, r: Returned) {
    && (r.resp.Some? <==> reply.resp.Some?) && (r.resp.Some? ==> r.resp.value == id)
    && (r.live <==> reply.resp.Some? && !reply.failed)
  }

  /** All attempts that failed, in order. */
  ghost predicate FailuresOf(errs: seq<nat>, transport: nat -> Reply, first: nat, n: nat) {
    && (forall i, j :: 0 <= i < j < |errs| ==> errs[i] < errs[j])
    && forall id :: id in errs <==> first <= id < first + n && transport(id).failed
  }

  /** The last attempt ends the call: its answer is final or the last allowed, the
      body cannot be sent again, or a step towards the next attempt failed. */
  ghost predicate Ends(max: int, body: ReqBody, transport: nat -> Reply, first: nat, n: nat, r: Returned)
    requires n > 0
  {
    var last, id := transport(first + n - 1), first + n - 1;
    if !last.retry || n == max + 1 then
      && HandsOver(last, id, r) && (r.err.Some? <==> last.failed)
      && (last.failed ==> r.err.value.Transport? && FailuresOf(r.err.value.attempts, transport, first, n))
    else if body.OneShot? then
      HandsOver(last, id, r) && r.err == Some(NotReplayable(if last.failed then Some(id) else None))
    else
      r == Returned(None, false, Some(if !Released(last) then CleanupFailed else if !last.waited then Canceled else ResetFailed))
  }

  /** Attempt k is followed by another one. */
  predicate GoesOn(max: int, body: ReqBody, transport: nat -> Reply, first: nat, k: nat) {
    k < max && CanRetry(body, transport(first + k), k + 1)
  }

  /** The promise of one call: an attempt is followed by another one exactly when
      more are allowed and it can be retried, and the last one ends the call. */
  ghost predicate Promised(max: int, body: ReqBody, transport: nat -> Reply, first: nat, n: nat, r: Returned) {
    && 0 < n <= max + 1
    && (forall k :: 0 <= k < n ==> (k + 1 < n <==> GoesOn(max, body, transport, first, k)))
    && Ends(max, body, transport, first, n, r)
  }

  lemma {:induction false} FailuresListed(transport: nat -> Reply, first: nat, n: nat)
    ensures FailuresOf(FailedAttempts(transport, first, n), transport, first, n)
  {
    if n == 0 {
    } else {
      var before, last := FailedAttempts(transport, first, n - 1), first + n - 1;
      FailuresListed(transport, first, n - 1);
      FailureAdded(before, transport, first, n - 1, last, FailedAttempts(transport, first, n));
    }
  }

  lemma FailureAdded(before: seq<nat>, transport: nat -> Reply, first: nat, n: nat, last: nat, errs: seq<nat>)
    requires FailuresOf(before, transport, first, n) && last == first + n
    requires errs == before + if transport(last).failed then [last] else []
    ensures FailuresOf(errs, transport, first, n + 1)
  {
    forall i | 0 <= i < |before|
      ensures before[i] < last
    {
      assert before[i] in before;
    }
    forall id
      ensures id in errs <==> first <= id < first + n + 1 && transport(id).failed
    {
      assert id in errs <==> id in before || (id == last && transport(last).failed);
    }
  }

  lemma DecideRetries(max: int, body: ReqBody, transport: nat -> Reply, first: nat, k: nat)
    requires k <= max
    ensures Decide(max, body, transport, first, k) == Again <==> GoesOn(max, body, transport, first, k)
  {
  }

  /** Every run keeps the promise. */
  lemma RunPromised(max: int, body: ReqBody, transport: nat -> Reply, first: nat, n: nat)
    requires Attempts(max, body, transport, first, n)
    ensures Promised(max, body, transport, first, n, Returns(max, body, transport, first, n))
  {
    forall k | 0 <= k < n
      ensures k + 1 < n <==> GoesOn(max, body, transport, first, k)
    {
      if k + 1 < n {
        ContinuedAt(max, body, transport, first, n - 1, k);
      }
      DecideRetries(max, body, transport, first, k);
    }
    RunEnds(max, body, transport, first, n);
  }

  lemma RunEnds(max: int, body: ReqBody, transport: nat -> Reply, first: nat, n: nat)
    requires 0 < n <= max + 1 && Decide(max, body, transport, first, n - 1) != Again
    ensures Ends(max, body, transport, first, n, Returns(max, body, transport, first, n))
  {
    FailuresListed(transport, first, n);
  }

  lemma EmptyOrMember(errs: seq<nat>)
    ensures errs == [] || exists id :: id in errs
  {
    if errs != [] {
      assert errs[0] in errs;
    }
  }

  lemma {:induction false} FailuresDetermined(errs: seq<nat>, transport: nat -> Reply, first: nat, n: nat)
    requires FailuresOf(errs, transport, first, n)
    ensures errs == FailedAttempts(transport, first, n)
    decreases n
  {
    if n == 0 {
      EmptyOrMember(errs);
    } else {
      var last := first + n - 1;
      var before := FailuresBefore(errs, transport, first, n - 1, last);
      FailuresDetermined(before, transport, first, n - 1);
    }
  }

  lemma LastIsLast(errs: seq<nat>, last: nat)
    requires last in errs && forall i, j :: 0 <= i < j < |errs| ==> errs[i] < errs[j]
    requires forall id :: id in errs ==> id <= last
    ensures errs[|errs| - 1] == last && errs == errs[..|errs| - 1] + [last]
  {
    var i :| 0 <= i < |errs| && errs[i] == last;
    assert errs[|errs| - 1] in errs;
  }

  lemma FailuresBefore(errs: seq<nat>, transport: nat -> Reply, first: nat, n: nat, last: nat) returns (before: seq<nat>)
    requires FailuresOf(errs, transport, first, n + 1) && last == first + n
    ensures FailuresOf(before, transport, first, n) && errs == before + if transport(last).failed then [last] else []
  {
    if transport(last).failed {
      LastIsLast(errs, last);
      before := errs[..|errs| - 1];
      forall id
        ensures id in before <==> first <= id < first + n && transport(id).failed
      {
        assert id in errs <==> id in before || id == last;
        assert id in before ==> id != last;
      }
    } else {
      before := errs;
    }
  }

  lemma FailuresUnique(transport: nat -> Reply, first: nat, n: nat, r: Returned)
    ensures r.err.Some? && r.err.value.Transport? && FailuresOf(r.err.value.attempts, transport, first, n) ==>
              r.err == Some(Transport(FailedAttempts(transport, first, n)))
  {
    if r.err.Some? && r.err.value.Transport? && FailuresOf(r.err.value.attempts, transport, first, n) {
      FailuresDetermined(r.err.value.attempts, transport, first, n);
    }
  }

  /** The promise determines the call: nothing else keeps it. */
  lemma PromiseDecides(max: int, body: ReqBody, transport: nat -> Reply, first: nat, n: nat, r: Returned, m: nat, q: Returned)
    requires Promised(max, body, transport, first, n, r) && Promised(max, body, transport, first, m, q)
    ensures n == m && r == q
  {
    var k := Min(n, m) - 1;
    assert k + 1 < n <==> GoesOn(max, body, transport, first, k);
    assert k + 1 < m <==> GoesOn(max, body, transport, first, k);
    assert n == m;
    FailuresUnique(transport, first, n, r);
    FailuresUnique(transport, first, n, q);
  }

  lemma ResetFailure(max: int, body: ReqBody, transport: nat -> Reply, first: nat, n: nat)
    requires 0 < n <= max && Ready(max, body, transport, first, n) && Reoffer(body, n).None?
    ensures Specified(max, body, transport, first, n, History(body, transport, first, n),
                      Returned(None, false, Some(ResetFailed)))
  {
    assert Decide(max, body, transport, first, n - 1) == Abort(ResetFailed);
  }

  /** The terminal handler: the attempts, wire events and result of one call are
      exactly the specified ones. `first` is the number of attempts already
      made, which names this call's responses. */
  method Terminal(max: int64, body: ReqBody, transport: nat -> Reply, first: nat)
    returns (r: Returned, attempts: nat, trace: seq<Event>)
    requires 0 <= max
    ensures attempts == 0 <==> max as int == MAX_INT64
    ensures attempts == 0 ==> trace == [] && r == Returned(None, false, None)
    ensures attempts > 0 ==> Specified(max as int, body, transport, first, attempts, trace, r)
    ensures attempts > 0 ==> Promised(max as int, body, transport, first, attempts, r)
  {
    r, attempts, trace := Loop(max, body, transport, first);
    if attempts > 0 {
      RunPromised(max as int, body, transport, first, attempts);
    }
  }

  method Loop(max: int64, body: ReqBody, transport: nat -> Reply, first: nat)
    returns (r: Returned, attempts: nat, trace: seq<Event>)
    requires 0 <= max
    ensures attempts == 0 <==> max as int == MAX_INT64
    ensures attempts == 0 ==> trace == [] && r == Returned(None, false, None)
    ensures attempts > 0 ==> Specified(max as int, body, transport, first, attempts, trace, r)
  {
    trace, attempts := [], 0;
    var errs: seq<nat> := [];
    r := Returned(None, false, None);
    var limit := max as int;
    var n := Iterations(max);
    var offered := Content(body);
    while attempts < n
      invariant attempts <= limit && (attempts > 0 ==> n == limit + 1)
      invariant attempts == 0 ==> r == Returned(None, false, None)
      invariant Ready(limit, body, transport, first, attempts)
      invariant trace == History(body, transport, first, attempts)
      invariant errs == FailedAttempts(transport, first, attempts)
      invariant attempts == 0 ==> offered == Content(body)
      decreases n - attempts
    {
      var attempt := attempts;
      if attempt > 0 {
        var again := Reoffer(body, attempt);
        if again.None? {
          ResetFailure(limit, body, transport, first, attempt);
          return Returned(None, false, Some(ResetFailed)), attempts, trace;
        }
        offered := again.value;
      }
      assert Continued(limit, body, transport, first, attempt);
      attempts := attempts + 1;
      var decision;
      decision, errs, r, trace := Attempt(limit, body, transport, first, attempt, offered, errs, trace);
      if !decision.Again? {
        return;
      }
    }
  }

  /** What holds before attempt k is started: the earlier ones went on, as far as
      the end of the last wait. */
  predicate Ready(max: int, body: ReqBody, transport: nat -> Reply, first: nat, k: nat) {
    k == 0 ||
    (&& Continued(max, body, transport, first, k - 1)
     && Verdict(max, body, transport(first + k - 1), first + k - 1, k - 1) == Again)
  }

  /** The last attempt: its events, and what is returned with them. */
  lemma LastAttempt(max: int, body: ReqBody, transport: nat -> Reply, first: nat, k: nat, past: seq<Event>)
    requires k <= max && Continued(max, body, transport, first, k) && past == History(body, transport, first, k)
    requires Verdict(max, body, transport(first + k), first + k, k) != Again
    ensures
      var d, reply, id := Verdict(max, body, transport(first + k), first + k, k), transport(first + k), first + k;
      var failed := FailedAttempts(transport, first, k + 1);
      if Retires(d) then
        Specified(max, body, transport, first, k + 1, WithAttempt(past, body, reply, id, k),
                  Returned(None, false, Some(d.cause)))
      else
        Specified(max, body, transport, first, k + 1, WithExchange(past, body, reply, id, k),
                  Returned(if reply.resp.Some? then Some(id) else None, Live(reply),
                           if d.Abort? then Some(d.cause) else if reply.failed then Some(Transport(failed)) else None))
  {
  }

  lemma OneMoreFailure(transport: nat -> Reply, first: nat, k: nat, before: seq<nat>, errs: seq<nat>)
    requires before == FailedAttempts(transport, first, k)
    requires errs == if transport(first + k).failed then before + [first + k] else before
    ensures errs == FailedAttempts(transport, first, k + 1)
  {
  }

  /** The body of the loop after the request body was reset. */
  method Attempt(max: int, body: ReqBody, transport: nat -> Reply, first: nat, k: nat, offered: Text,
                 before: seq<nat>, past: seq<Event>)
    returns (decision: Decision, errs: seq<nat>, r: Returned, trace: seq<Event>)
    requires k <= max && offered == Offer(body, k) && past == History(body, transport, first, k)
    requires Continued(max, body, transport, first, k) && before == FailedAttempts(transport, first, k)
    ensures decision == Verdict(max, body, transport(first + k), first + k, k)
    ensures decision.Again? ==> trace == History(body, transport, first, k + 1)
    ensures decision.Again? ==> errs == FailedAttempts(transport, first, k + 1)
    ensures !decision.Again? ==> Specified(max, body, transport, first, k + 1, trace, r)
  {
    var reply, id := transport(first + k), first + k;
    if Verdict(max, body, reply, id, k) != Again {
      LastAttempt(max, body, transport, first, k, past);
    }
    r := Returned(if reply.resp.Some? then Some(id) else None, reply.resp.Some? && !reply.failed, None);
    trace := past + Dispatch(body, reply, id, k, offered);
    assert trace == WithExchange(past, body, reply, id, k);
    errs := if reply.failed then before + [id] else before;
    OneMoreFailure(transport, first, k, before, errs);
    if !reply.retry || k == max {
      r := r.(err := if reply.failed then Some(Transport(errs)) else None);
      return Finish, errs, r, trace;
    }
    if body.OneShot? {
      var cause := NotReplayable(if reply.failed then Some(id) else None);
      return Abort(cause), errs, r.(err := Some(cause)), trace;
    }
    var ok := true;
    if r.live {
      var body := reply.resp.value;
      trace := trace + [Drained(id, Min(body.available, DRAIN_LIMIT)), Closed(id)];
      ok := !DrainFails(body) && !body.closeFails;
    }
    assert trace == WithAttempt(past, body, reply, id, k);
    if !ok {
      return Abort(CleanupFailed), errs, Returned(None, false, Some(CleanupFailed)), trace;
    }
    if !reply.waited {
      return Abort(Canceled), errs, Returned(None, false, Some(Canceled)), trace;
    }
    decision := Again;
  }

  /** One client.Do: a response that comes with an error is already closed. */
  function Dispatch(body: ReqBody, reply: Reply, id: nat, k: nat, offered: Text): (events: seq<Event>)
    ensures offered == Offer(body, k) ==> events == Exchange(body, reply, id, k)
  {
    [Sent(offered)] + if reply.resp.None? || reply.failed then [] else [Got(id)]
  }

  // ------------------------------------------------- what every run satisfies

  lemma {:induction false} WatchingConcat(w: Watch, a: seq<Event>, b: seq<Event>)
    ensures Watching(w, a + b) == Watching(Watching(w, a), b)
    decreases |b|
  {
    if b == [] {
      assert a + b == a;
    } else {
      var front := b[..|b| - 1];
      assert (a + b)[..|a + b| - 1] == a + front;
      WatchingConcat(w, a, front);
    }
  }

  lemma {:induction false} CountSentConcat(a: seq<Event>, b: seq<Event>)
    ensures CountSent(a + b) == CountSent(a) + CountSent(b)
    decreases |b|
  {
    if b == [] {
      assert a + b == a;
    } else {
      var front := b[..|b| - 1];
      assert (a + b)[..|a + b| - 1] == a + front;
      CountSentConcat(a, front);
    }
  }

  lemma WatchingOne(w: Watch, e: Event)
    ensures Watching(w, [e]) == Observe(w, e)
    ensures CountSent([e]) == if e.Sent? then 1 else 0
  {
    assert [e][..0] == [];
  }

  lemma WatchingTwo(w: Watch, d: Event, e: Event)
    ensures Watching(w, [d, e]) == Observe(Observe(w, d), e)
    ensures CountSent([d, e]) == (if d.Sent? then 1 else 0) + (if e.Sent? then 1 else 0)
  {
    WatchingOne(w, d);
    assert [d, e][..1] == [d];
  }

  /** The observer over one attempt: it then holds exactly a live response. */
  lemma ExchangeWatched(next: nat, body: ReqBody, reply: Reply, id: nat, k: nat)
    requires next <= id
    ensures
      var events := Exchange(body, reply, id, k);
      && Watching(Idle(next), events) == (if Live(reply) then Holding(id, false, id + 1) else Idle(next))
      && CountSent(events) == 1
  {
    var sent := Sent(Offer(body, k));
    WatchingOne(Idle(next), sent);
    WatchingTwo(Idle(next), sent, Got(id));
    assert [sent] + [Got(id)] == [sent, Got(id)] && [sent] + [] == [sent];
  }

  lemma RetireWatched(next: nat, reply: Reply, id: nat)
    requires next <= id
    ensures
      var held, events := if Live(reply) then Holding(id, false, id + 1) else Idle(next), Retire(reply, id);
      && Watching(held, events) == Idle(if Live(reply) then id + 1 else next)
      && CountSent(events) == 0
  {
    if Live(reply) {
      WatchingTwo(Holding(id, false, id + 1), Drained(id, Min(reply.resp.value.available, DRAIN_LIMIT)), Closed(id));
    }
  }

  /** Nothing is open after k attempts. */
  predicate Quiet(first: nat, trace: seq<Event>, k: nat) {
    Watching(Idle(first), trace).Idle? && Watching(Idle(first), trace).next <= first + k && CountSent(trace) == k
  }

  /** After any quiet past, an attempt leaves open exactly its live response. */
  lemma AttemptHeld(first: nat, past: seq<Event>, body: ReqBody, reply: Reply, k: nat, trace: seq<Event>)
    requires Quiet(first, past, k) && trace == WithExchange(past, body, reply, first + k, k)
    ensures Watching(Idle(first), trace) ==
            if Live(reply) then Holding(first + k, false, first + k + 1) else Watching(Idle(first), past)
    ensures CountSent(trace) == k + 1
  {
    var exchange := Exchange(body, reply, first + k, k);
    ExchangeWatched(Watching(Idle(first), past).next, body, reply, first + k, k);
    WatchingConcat(Idle(first), past, exchange);
    CountSentConcat(past, exchange);
  }

  lemma AttemptRetired(first: nat, past: seq<Event>, body: ReqBody, reply: Reply, k: nat, trace: seq<Event>)
    requires Quiet(first, past, k) && trace == WithAttempt(past, body, reply, first + k, k)
    ensures Quiet(first, trace, k + 1)
  {
    var held := WithExchange(past, body, reply, first + k, k);
    AttemptHeld(first, past, body, reply, k, held);
    RetireWatched(Watching(Idle(first), past).next, reply, first + k);
    WatchingConcat(Idle(first), held, Retire(reply, first + k));
    CountSentConcat(held, Retire(reply, first + k));
  }

  lemma {:induction false} HistoryWatched(body: ReqBody, transport: nat -> Reply, first: nat, n: nat)
    ensures Quiet(first, History(body, transport, first, n), n)
  {
    if n == 0 {
    } else {
      HistoryWatched(body, transport, first, n - 1);
      AttemptRetired(first, History(body, transport, first, n - 1), body, transport(first + n - 1), n - 1,
                     History(body, transport, first, n));
    }
  }

  /** Ownership of every run: no rule is broken, and at the end exactly the live
      response that is returned is open, undrained. */
  lemma RunSettled(max: int, body: ReqBody, transport: nat -> Reply, first: nat, n: nat)
    requires n > 0
    ensures
      var trace := Events(max, body, transport, first, n);
      && Settled(Watching(Idle(first), trace), Returns(max, body, transport, first, n))
      && CountSent(trace) == n
  {
    HistoryWatched(body, transport, first, n);
    HistoryWatched(body, transport, first, n - 1);
    if !Retires(Decide(max, body, transport, first, n - 1)) {
      AttemptHeld(first, History(body, transport, first, n - 1), body, transport(first + n - 1), n - 1,
                  Events(max, body, transport, first, n));
    }
  }

  lemma AllOfferedConcat(a: seq<Event>, b: seq<Event>, content: Text)
    requires AllOffered(a, content) && AllOffered(b, content)
    ensures AllOffered(a + b, content)
  {
  }

  lemma AttemptOffers(past: seq<Event>, body: ReqBody, reply: Reply, id: nat, k: nat)
    requires Faithful(body) && AllOffered(past, Content(body))
    ensures AllOffered(WithExchange(past, body, reply, id, k), Content(body))
    ensures AllOffered(WithAttempt(past, body, reply, id, k), Content(body))
  {
    AllOfferedConcat(past, Exchange(body, reply, id, k), Content(body));
    AllOfferedConcat(WithExchange(past, body, reply, id, k), Retire(reply, id), Content(body));
  }

  lemma {:induction false} HistoryOffers(body: ReqBody, transport: nat -> Reply, first: nat, n: nat)
    requires Faithful(body)
    ensures AllOffered(History(body, transport, first, n), Content(body))
  {
    if n == 0 {
    } else {
      HistoryOffers(body, transport, first, n - 1);
      AttemptOffers(History(body, transport, first, n - 1), body, transport(first + n - 1), first + n - 1, n - 1);
    }
  }

  /** Replay: a one-shot body gets one attempt, and every attempt with a faithful
      GetBody is offered the bytes of the first. */
  lemma RunReplays(max: int, body: ReqBody, transport: nat -> Reply, first: nat, n: nat)
    requires Attempts(max, body, transport, first, n)
    ensures body.OneShot? ==> n == 1
    ensures Faithful(body) ==> AllOffered(Events(max, body, transport, first, n), Content(body))
  {
    if n > 1 {
      ContinuedAt(max, body, transport, first, n - 1, 0);
    }
    if Faithful(body) {
      HistoryOffers(body, transport, first, n);
      HistoryOffers(body, transport, first, n - 1);
      AttemptOffers(History(body, transport, first, n - 1), body, transport(first + n - 1), first + n - 1, n - 1);
    }
  }

  // ------------------------------------------------------ bytes and requests

  /** The bytes offered, request by request. */
  function Offers(trace: seq<Event>): seq<Text> {
    if trace == [] then []
    else
      var last := trace[|trace| - 1];
      Offers(trace[..|trace| - 1]) + if last.Sent? then [last.offered] else []
  }

  lemma {:induction false} OffersConcat(a: seq<Event>, b: seq<Event>)
    ensures Offers(a + b) == Offers(a) + Offers(b)
    decreases |b|
  {
    if b == [] {
      assert a + b == a;
    } else {
      var front := b[..|b| - 1];
      assert (a + b)[..|a + b| - 1] == a + front;
      OffersConcat(a, front);
    }
  }

  /** A run is a quiet past and its last attempt, retired or not. */
  lemma EventsAre(max: int, body: ReqBody, transport: nat -> Reply, first: nat, n: nat)
    requires n > 0
    ensures
      var past, last, events := History(body, transport, first, n - 1), first + n - 1, Events(max, body, transport, first, n);
      if Retires(Decide(max, body, transport, first, n - 1)) then
        events == WithAttempt(past, body, transport(last), last, n - 1)
      else
        events == WithExchange(past, body, transport(last), last, n - 1)
  {
  }

  lemma AttemptOffer(past: seq<Event>, body: ReqBody, reply: Reply, id: nat, k: nat)
    ensures Offers(WithExchange(past, body, reply, id, k)) == Offers(past) + [Offer(body, k)]
    ensures Offers(WithAttempt(past, body, reply, id, k)) == Offers(past) + [Offer(body, k)]
  {
    var sent := Sent(Offer(body, k));
    OneOffer(sent, if Live(reply) then [Got(id)] else []);
    OffersConcat(past, Exchange(body, reply, id, k));
    NoOffers(Retire(reply, id));
    OffersConcat(WithExchange(past, body, reply, id, k), Retire(reply, id));
  }

  lemma OneOffer(sent: Event, rest: seq<Event>)
    requires sent.Sent? && forall i :: 0 <= i < |rest| ==> !rest[i].Sent?
    ensures Offers([sent] + rest) == [sent.offered]
  {
    OffersConcat([sent], rest);
    NoOffers(rest);
    assert [sent][..0] == [];
  }

  lemma {:induction false} NoOffers(events: seq<Event>)
    requires forall i :: 0 <= i < |events| ==> !events[i].Sent?
    ensures Offers(events) == []
  {
    if events == [] {
    } else {
      NoOffers(events[..|events| - 1]);
    }
  }

  /** What the first n attempts offer: the body first, and then what GetBody gives. */
  ghost predicate OffersRight(body: ReqBody, offers: seq<Text>, n: nat) {
    && |offers| == n
    && (n > 0 ==> offers[0] == Content(body))
    && forall k :: 0 < k < n ==> offers[k] == Offer(body, k)
  }

  lemma OffersGrow(body: ReqBody, offers: seq<Text>, n: nat)
    requires OffersRight(body, offers, n)
    ensures OffersRight(body, offers + [Offer(body, n)], n + 1)
  {
  }

  lemma {:induction false} HistoryOffered(body: ReqBody, transport: nat -> Reply, first: nat, n: nat)
    ensures OffersRight(body, Offers(History(body, transport, first, n)), n)
  {
    if n == 0 {
    } else {
      HistoryOffered(body, transport, first, n - 1);
      NextOffered(body, transport, first, n, History(body, transport, first, n - 1));
    }
  }

  lemma NextOffered(body: ReqBody, transport: nat -> Reply, first: nat, n: nat, past: seq<Event>)
    requires n > 0 && OffersRight(body, Offers(past), n - 1)
    ensures OffersRight(body, Offers(WithAttempt(past, body, transport(first + n - 1), first + n - 1, n - 1)), n)
    ensures OffersRight(body, Offers(WithExchange(past, body, transport(first + n - 1), first + n - 1, n - 1)), n)
  {
    AttemptOffer(past, body, transport(first + n - 1), first + n - 1, n - 1);
    OffersGrow(body, Offers(past), n - 1);
  }

  /** Each attempt is one request: the first offers the body, and a later one
      exactly what GetBody gave for it. */
  lemma RunOffers(max: int, body: ReqBody, transport: nat -> Reply, first: nat, n: nat)
    requires Attempts(max, body, transport, first, n)
    ensures
      var offers := Offers(Events(max, body, transport, first, n));
      && |offers| == n
      && offers[0] == Content(body)
      && forall k :: 0 < k < n ==> if body.Replayable? then body.replay(k) == Some(offers[k]) else offers[k] == []
  {
    EventsOffered(max, body, transport, first, n);
    forall k | 0 < k < n
      ensures if body.Replayable? then body.replay(k) == Some(Offer(body, k)) else Offer(body, k) == []
    {
      LaterOffer(max, body, transport, first, n, k);
    }
  }

  lemma EventsOffered(max: int, body: ReqBody, transport: nat -> Reply, first: nat, n: nat)
    requires n > 0
    ensures OffersRight(body, Offers(Events(max, body, transport, first, n)), n)
  {
    HistoryOffered(body, transport, first, n - 1);
    NextOffered(body, transport, first, n, History(body, transport, first, n - 1));
    EventsAre(max, body, transport, first, n);
  }

  lemma LaterOffer(max: int, body: ReqBody, transport: nat -> Reply, first: nat, n: nat, k: nat)
    requires Attempts(max, body, transport, first, n) && 0 < k < n
    ensures if body.Replayable? then body.replay(k) == Some(Offer(body, k)) else Offer(body, k) == []
  {
    ContinuedAt(max, body, transport, first, n - 1, k - 1);
    assert Decide(max, body, transport, first, k - 1) == Again;
  }

  lemma {:induction false} DrainedConcat(a: seq<Event>, b: seq<Event>, id: nat)
    ensures BytesDrained(a + b, id) == BytesDrained(a, id) + BytesDrained(b, id)
    decreases |b|
  {
    if b == [] {
      assert a + b == a;
    } else {
      var front := b[..|b| - 1];
      assert (a + b)[..|a + b| - 1] == a + front;
      DrainedConcat(a, front, id);
    }
  }

  lemma {:induction false} NothingDrained(events: seq<Event>, id: nat)
    requires forall i :: 0 <= i < |events| ==> !(events[i].Drained? && events[i].id == id)
    ensures BytesDrained(events, id) == 0
  {
    if events == [] {
    } else {
      NothingDrained(events[..|events| - 1], id);
    }
  }

  lemma AttemptDrained(past: seq<Event>, body: ReqBody, reply: Reply, id: nat, k: nat, who: nat)
    ensures BytesDrained(WithExchange(past, body, reply, id, k), who) == BytesDrained(past, who)
    ensures BytesDrained(WithAttempt(past, body, reply, id, k), who) ==
            BytesDrained(past, who) + if Live(reply) && who == id then Min(reply.resp.value.available, 65536) else 0
  {
    NothingDrained(Exchange(body, reply, id, k), who);
    DrainedConcat(past, Exchange(body, reply, id, k), who);
    DrainedConcat(WithExchange(past, body, reply, id, k), Retire(reply, id), who);
    RetireDrains(reply, id, who);
  }

  lemma RetireDrains(reply: Reply, id: nat, who: nat)
    ensures BytesDrained(Retire(reply, id), who) ==
            if Live(reply) && who == id then Min(reply.resp.value.available, 65536) else 0
  {
    if Live(reply) {
      var drained, closed := Drained(id, Min(reply.resp.value.available, DRAIN_LIMIT)), Closed(id);
      assert [drained, closed][..1] == [drained] && [drained][..0] == [];
      assert BytesDrained([drained], who) == if who == id then drained.bytes else 0;
    }
  }

  /** The live responses of the first n attempts are drained as far as the limit. */
  predicate DrainsRight(events: seq<Event>, transport: nat -> Reply, first: nat, n: nat, id: nat) {
    BytesDrained(events, id) ==
    if first <= id < first + n && Live(transport(id)) then Min(transport(id).resp.value.available, 65536) else 0
  }

  lemma NextDrained(body: ReqBody, transport: nat -> Reply, first: nat, n: nat, past: seq<Event>, id: nat)
    requires n > 0 && DrainsRight(past, transport, first, n - 1, id)
    ensures
      var last := first + n - 1;
      && DrainsRight(WithAttempt(past, body, transport(last), last, n - 1), transport, first, n, id)
      && DrainsRight(WithExchange(past, body, transport(last), last, n - 1), transport, first, n - 1, id)
  {
    var last := first + n - 1;
    AttemptDrained(past, body, transport(last), last, n - 1, id);
    DrainCounts(WithAttempt(past, body, transport(last), last, n - 1), BytesDrained(past, id), transport, first, n, id);
  }

  lemma DrainCounts(events: seq<Event>, before: nat, transport: nat -> Reply, first: nat, n: nat, id: nat)
    requires n > 0
    requires before == if first <= id < first + n - 1 && Live(transport(id)) then Min(transport(id).resp.value.available, 65536) else 0
    requires
      var last := first + n - 1;
      BytesDrained(events, id) ==
      before + if Live(transport(last)) && id == last then Min(transport(last).resp.value.available, 65536) else 0
    ensures DrainsRight(events, transport, first, n, id)
  {
  }

  lemma {:induction false} HistoryDrained(body: ReqBody, transport: nat -> Reply, first: nat, n: nat, id: nat)
    ensures DrainsRight(History(body, transport, first, n), transport, first, n, id)
  {
    if n == 0 {
    } else {
      HistoryDrained(body, transport, first, n - 1, id);
      NextDrained(body, transport, first, n, History(body, transport, first, n - 1), id);
    }
  }

  /** Only the response that is returned live stays undrained. */
  lemma RunDrained(max: int, body: ReqBody, transport: nat -> Reply, first: nat, n: nat, id: nat)
    requires n > 0
    ensures
      var r, events := Returns(max, body, transport, first, n), Events(max, body, transport, first, n);
      DrainsRight(events, transport, first, if r.live then n - 1 else n, id)
  {
    HistoryDrained(body, transport, first, n - 1, id);
    NextDrained(body, transport, first, n, History(body, transport, first, n - 1), id);
    EventsAre(max, body, transport, first, n);
    ReturnsLive(max, body, transport, first, n);
    if !Live(transport(first + n - 1)) {
      NotLiveNotDrained(Events(max, body, transport, first, n), transport, first, n, id);
    }
  }

  lemma ReturnsLive(max: int, body: ReqBody, transport: nat -> Reply, first: nat, n: nat)
    requires n > 0
    ensures
      var r, last := Returns(max, body, transport, first, n), first + n - 1;
      && (r.live <==> !Retires(Decide(max, body, transport, first, n - 1)) && Live(transport(last)))
      && (r.live ==> r.resp == Some(last))
  {
  }

  lemma NotLiveNotDrained(events: seq<Event>, transport: nat -> Reply, first: nat, n: nat, id: nat)
    requires n > 0 && !Live(transport(first + n - 1))
    ensures DrainsRight(events, transport, first, n - 1, id) <==> DrainsRight(events, transport, first, n, id)
  {
  }

  /** Every response the transport delivers without an error appears in the run;
      with RunSettled and Conserved, it is returned or closed exactly once. */
  lemma {:induction false} LiveResponsesAppear(max: int, body: ReqBody, transport: nat -> Reply, first: nat, n: nat, k: nat)
    requires n > 0 && k < n
    ensures Live(transport(first + k)) <==> Got(first + k) in Events(max, body, transport, first, n)
  {
    HistoryGot(body, transport, first, n, first + k);
    HistoryGot(body, transport, first, n - 1, first + k);
  }

  lemma {:induction false} GotCounted(trace: seq<Event>, id: nat)
    ensures CountGot(trace, id) > 0 <==> Got(id) in trace
  {
    if trace == [] {
    } else {
      var front := trace[..|trace| - 1];
      GotCounted(front, id);
      assert trace == front + [trace[|trace| - 1]];
    }
  }

  /** Conservation: in every run, each response that an attempt delivers without
      an error is received once, drained by at most the limit, and closed exactly
      once, unless it is the live one that is returned, which is not closed. */
  lemma ResponsesConserved(max: int, body: ReqBody, transport: nat -> Reply, first: nat, n: nat, k: nat)
    requires Attempts(max, body, transport, first, n) && k < n && Live(transport(first + k))
    ensures
      var trace, r, id := Events(max, body, transport, first, n), Returns(max, body, transport, first, n), first + k;
      && CountGot(trace, id) == 1
      && BytesDrained(trace, id) ==
         (if r.live && r.resp == Some(id) then 0 else Min(transport(id).resp.value.available, 65536))
      && CountClosed(trace, id) == if r.live && r.resp == Some(id) then 0 else 1
  {
    RunDrained(max, body, transport, first, n, first + k);
    var trace := Events(max, body, transport, first, n);
    RunSettled(max, body, transport, first, n);
    LiveResponsesAppear(max, body, transport, first, n, k);
    GotCounted(trace, first + k);
    Conserved(first, trace, first + k);
  }

  lemma {:induction false} HistoryGot(body: ReqBody, transport: nat -> Reply, first: nat, n: nat, id: nat)
    ensures Got(id) in History(body, transport, first, n) <==> first <= id < first + n && Live(transport(id))
  {
    if n == 0 {
    } else {
      HistoryGot(body, transport, first, n - 1, id);
    }
  }
}
