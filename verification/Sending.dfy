/** The two delivery exits and what they own: Send buffers and closes, SendStream
    hands the open body to its caller (delivery.go, stream_response.go). */
module Sending {
  import opened Base
  import opened Retry
  import B = Buffering

  datatype Act = CancelContext | CloseBody

  /** StreamResponse: the first Close cancels the context and then closes the
      body; later calls do nothing and report the same result. */
  class StreamResponse {
    const body: B.BodyReader
    const hasCancel: bool
    var closed: bool
    var closeOk: bool
    var acts: seq<Act>

    ghost predicate Valid()
      reads this
    {
      && acts == (if closed then Obligations() else [])
      && (closed ==> closeOk == !body.closeFails)
    }

    ghost function Obligations(): seq<Act> {
      (if hasCancel then [CancelContext] else []) + [CloseBody]
    }

    constructor (body: B.BodyReader, hasCancel: bool)
      ensures Valid() && !closed && this.body == body && this.hasCancel == hasCancel
    {
      this.body, this.hasCancel, closed, closeOk, acts := body, hasCancel, false, true, [];
    }

    method Close() returns (ok: bool)
      requires Valid()
      modifies this, body`closes
      ensures Valid() && closed && ok == !body.closeFails
      ensures body.closes == old(body.closes) + if old(closed) then 0 else 1
    {
      if !closed {
        closed := true;
        if hasCancel {
          acts := acts + [CancelContext];
        }
        closeOk := body.Close();
        acts := acts + [CloseBody];
      }
      ok := closeOk;
    }

    /** However often the caller closes, the context is cancelled and then the
        body closed, once. */
    method CloseRepeatedly(times: nat)
      requires Valid() && !closed && times > 0
      modifies this, body`closes
      ensures Valid() && acts == Obligations() && body.closes == old(body.closes) + 1
    {
      for i := 0 to times
        invariant Valid() && (i > 0 ==> closed) && (i == 0 ==> !closed)
        invariant body.closes == old(body.closes) + if i == 0 then 0 else 1
      {
        var _ := Close();
      }
    }
  }

  datatype SendError = Delivery(cause: Failure) | ResponseNil | Unbuffered(result: B.Buffered)

  /** Send once middleware and terminal handler have returned: whatever they hand
      over, its body is closed exactly once, in the branch that does it. */
  method FinishSend(err: Option<Failure>, resp: B.BodyReader?, contentLength: int, limit: nat)
    returns (r: Result<Text, SendError>)
    modifies resp
    ensures resp != null ==> resp.closes == old(resp.closes) + 1
    ensures err.Some? ==> r == Failure(Delivery(err.value))
    ensures err.None? && resp == null ==> r == Failure(ResponseNil)
    ensures err.None? && resp != null ==>
              && (r.Success? <==> B.Bufferable(old(B.Abstract(resp)), contentLength, limit))
              && (r.Success? ==> r.value == old(resp.rest))
              && (r.Failure? ==> r.error.Unbuffered?)
    ensures limit > 0 && resp != null ==> resp.consumed <= old(resp.consumed) + limit + 1
  {
    if err.Some? {
      if resp != null {
        var _ := resp.Close();
      }
      return Failure(Delivery(err.value));
    }
    if resp == null {
      return Failure(ResponseNil);
    }
    var b := B.BufferBody(resp, contentLength, limit);
    r := if b.Complete? then Success(b.data) else Failure(Unbuffered(b));
  }

  /** SendStream from the same point: on an error the body is closed before the
      response is returned; otherwise it is untouched and the caller's to close. */
  method FinishStream(err: Option<Failure>, resp: B.BodyReader?, hasCancel: bool)
    returns (s: StreamResponse?, failure: Option<SendError>, canceled: bool)
    modifies if resp == null then {} else {resp}
    ensures failure == (if err.Some? then Some(Delivery(err.value)) else if resp == null then Some(ResponseNil) else None)
    ensures (s == null <==> resp == null) && (s != null ==> fresh(s) && s.Valid() && s.body == resp && s.hasCancel == hasCancel)
    ensures resp != null ==> s.closed == failure.Some? && resp.closes == old(resp.closes) + (if failure.Some? then 1 else 0)
    ensures resp != null && failure.None? ==> resp.rest == old(resp.rest) && resp.consumed == old(resp.consumed)
    ensures canceled == (failure.Some? && hasCancel)
  {
    if resp == null {
      return null, Some(if err.Some? then Delivery(err.value) else ResponseNil), hasCancel;
    }
    s := new StreamResponse(resp, hasCancel);
    failure, canceled := None, false;
    if err.Some? {
      var _ := s.Close();
      failure, canceled := Some(Delivery(err.value)), CancelContext in s.acts;
    }
  }

  // --------------------------------------------------------- the whole delivery

  /** What the terminal handler hands over after n attempts. */
  function Handed(max: int64, body: ReqBody, transport: nat -> Reply, n: nat): Returned {
    if n == 0 then Returned(None, false, None) else Returns(max as int, body, transport, 0, n)
  }

  function Wire(max: int64, body: ReqBody, transport: nat -> Reply, n: nat): seq<Event> {
    if n == 0 then [] else Events(max as int, body, transport, 0, n)
  }

  predicate Delivered(max: int64, body: ReqBody, transport: nat -> Reply, n: nat) {
    if n == 0 then max as int == MAX_INT64 else Attempts(max as int, body, transport, 0, n)
  }

  /** No rule was broken, and exactly what is handed over is open. */
  predicate OpenExactly(trace: seq<Event>, h: Returned) {
    Settled(Watching(Idle(0), trace), h)
  }

  /** No rule was broken, and every response is closed. */
  predicate NothingOpen(trace: seq<Event>) {
    Watching(Idle(0), trace).Idle?
  }

  /** What the streams behind the responses are. */
  datatype Stream = Stream(text: Text, schedule: seq<nat>, contentLength: int)

  /** The transport's replies describe the streams. */
  ghost predicate Streams(transport: nat -> Reply, streams: nat -> Stream) {
    forall k :: transport(k).resp.Some? ==> transport(k).resp.value.available == |streams(k).text|
  }

  /** The terminal handler behind middleware that passes its result on. A response
      that came with an error has no body left, which reads as an empty one. */
  method Deliver(max: int64, body: ReqBody, transport: nat -> Reply, streams: nat -> Stream)
    returns (h: Returned, resp: B.BodyReader?, attempts: nat, trace: seq<Event>)
    requires 0 <= max && Streams(transport, streams)
    ensures Delivered(max, body, transport, attempts)
    ensures h == Handed(max, body, transport, attempts) && trace == Wire(max, body, transport, attempts)
    ensures attempts > 0 ==> Promised(max as int, body, transport, 0, attempts, h)
    ensures OpenExactly(trace, h)
    ensures h.resp.Some? ==> attempts > 0 && h.resp.value == attempts - 1
    ensures h.resp.Some? && h.err.None? ==> h.live
    ensures h.live ==> h.resp.Some? && Live(transport(attempts - 1))
    ensures (resp == null <==> h.resp.None?) && (resp != null ==> fresh(resp) && resp.closes == 0 && resp.consumed == 0)
    ensures h.live ==>
              B.Abstract(resp) == transport(attempts - 1).resp.value && resp.rest == streams(attempts - 1).text
  {
    h, attempts, trace := Terminal(max, body, transport, 0);
    if attempts > 0 {
      RunSettled(max as int, body, transport, 0, attempts);
    }
    resp := null;
    if h.resp.Some? {
      if h.live {
        var reply, s := transport(h.resp.value).resp.value, streams(h.resp.value);
        resp := new B.BodyReader(s.text, s.schedule, reply.readFails, reply.eager, reply.closeFails);
      } else {
        resp := new B.BodyReader([], [], false, true, false);
      }
    }
  }

  /** The closes of a handed-over body, as the observer sees them. */
  function CloseEvents(h: Returned, closes: nat): seq<Event> {
    if h.live && h.resp.Some? then seq(closes, i => Closed(h.resp.value)) else []
  }

  lemma ClosedOnce(trace: seq<Event>, h: Returned)
    requires OpenExactly(trace, h)
    ensures NothingOpen(trace + CloseEvents(h, 1))
  {
    if h.live && h.resp.Some? {
      var e := Closed(h.resp.value);
      assert CloseEvents(h, 1) == [e] && (trace + [e])[..|trace|] == trace;
    } else {
      assert trace + [] == trace;
    }
  }

  /** Send: it succeeds exactly when the last attempt is handed over without an
      error and its stream ends cleanly within the limit, and then returns the
      whole stream; on every path nothing is left open and the context is
      released once. */
  method Send(max: int64, body: ReqBody, transport: nat -> Reply, streams: nat -> Stream, limit: nat, hasCancel: bool)
    returns (r: Result<Text, SendError>, attempts: nat, trace: seq<Event>, cancels: nat)
    requires 0 <= max && Streams(transport, streams)
    ensures Delivered(max, body, transport, attempts)
    ensures
      var h := Handed(max, body, transport, attempts);
      && (r.Success? <==>
            && h.err.None? && h.resp.Some?
            && B.Bufferable(transport(attempts - 1).resp.value, streams(attempts - 1).contentLength, limit))
      && (r.Success? ==> r.value == streams(attempts - 1).text)
      && (h.err.Some? ==> r == Failure(Delivery(h.err.value)))
      && (h.err.None? && h.resp.None? ==> r == Failure(ResponseNil))
      && trace == Wire(max, body, transport, attempts) + CloseEvents(h, 1)
      && (attempts > 0 ==> Promised(max as int, body, transport, 0, attempts, h))
    ensures NothingOpen(trace)
    ensures cancels == if hasCancel then 1 else 0
  {
    var h, resp;
    h, resp, attempts, trace := Deliver(max, body, transport, streams);
    ClosedOnce(trace, h);
    cancels := 0;
    r := FinishSend(h.err, resp, if h.live then streams(attempts - 1).contentLength else 0, limit);
    trace := trace + CloseEvents(h, if resp == null then 0 else resp.closes);
    if hasCancel {
      cancels := cancels + 1;
    }
  }

  /** SendStream. On an error nothing is left open and the context is released,
      even when a response is returned with it; on success the caller holds the
      one open body, unread, together with the cancel obligation. */
  method SendStream(max: int64, body: ReqBody, transport: nat -> Reply, streams: nat -> Stream, hasCancel: bool)
    returns (s: StreamResponse?, err: Option<SendError>, attempts: nat, trace: seq<Event>, canceled: bool)
    requires 0 <= max && Streams(transport, streams)
    ensures Delivered(max, body, transport, attempts)
    ensures
      var h := Handed(max, body, transport, attempts);
      && (err.None? <==> h.err.None? && h.resp.Some?)
      && (h.err.Some? ==> err == Some(Delivery(h.err.value)))
      && (s != null <==> h.resp.Some?)
      && (attempts > 0 ==> Promised(max as int, body, transport, 0, attempts, h))
    ensures err.Some? ==> NothingOpen(trace) && canceled == hasCancel
    ensures err.Some? && s != null ==> s.closed && s.Valid()
    ensures err.None? ==>
              && s != null && fresh(s) && s.Valid() && !s.closed && s.hasCancel == hasCancel && !canceled
              && s.body.rest == streams(attempts - 1).text && s.body.consumed == 0 && s.body.closes == 0
              && OpenExactly(trace, Returned(Some(attempts - 1), true, None))
  {
    var h, resp;
    h, resp, attempts, trace := Deliver(max, body, transport, streams);
    ClosedOnce(trace, h);
    s, err, canceled := FinishStream(h.err, resp, hasCancel);
    if h.resp.None? {
      assert CloseEvents(h, 1) == [] && trace + [] == trace;
    }
    ghost var before := trace;
    trace := trace + CloseEvents(h, if resp == null then 0 else resp.closes);
    if err.None? {
      assert CloseEvents(h, 0) == [] && trace == before;
    }
  }
}
