/** Reading response bodies: bounded buffering, draining and line iteration
    (response.go, delivery.go). */
module Buffering {
  import opened Base
  import Retry

  datatype End = More | Eof | Broken

  /** A response body as io.ReadCloser sees it. `schedule` bounds the next reads,
      so every chunking of the stream, empty reads included, is covered. */
  class BodyReader {
    var rest: Text
    var schedule: seq<nat>
    var consumed: nat
    var closes: nat
    const fails: bool
    const eager: bool
    const closeFails: bool

    constructor (stream: Text, schedule: seq<nat>, fails: bool, eager: bool, closeFails: bool)
      ensures rest == stream && this.schedule == schedule && consumed == 0 && closes == 0
      ensures this.fails == fails && this.eager == eager && this.closeFails == closeFails
    {
      rest, this.schedule, consumed, closes := stream, schedule, 0, 0;
      this.fails, this.eager, this.closeFails := fails, eager, closeFails;
    }

    method Read(max: nat) returns (chunk: Text, end: End)
      requires max > 0
      modifies this
      ensures old(rest) == chunk + rest && |chunk| <= max
      ensures consumed == old(consumed) + |chunk| && closes == old(closes)
      ensures end == More || end == if fails then Broken else Eof
      ensures end != More ==> rest == [] && (eager || chunk == [])
      ensures (eager && rest == []) || old(rest) == [] ==> end != More
      ensures end == More ==> |schedule| + |rest| < old(|schedule| + |rest|)
      ensures |schedule| <= old(|schedule|)
    {
      var n := Min(max, |rest|);
      if schedule != [] {
        n := Min(n, schedule[0]);
        schedule := schedule[1..];
      }
      var started := rest == [];
      chunk, rest := rest[..n], rest[n..];
      consumed := consumed + n;
      end := if started || (eager && rest == []) then (if fails then Broken else Eof) else More;
    }

    method Close() returns (ok: bool)
      modifies this`closes
      ensures closes == old(closes) + 1 && ok == !closeFails
    {
      closes := closes + 1;
      ok := !closeFails;
    }
  }

  /** Reading through io.LimitReader until it reports the end: exactly the first
      `limit` bytes, and a read error only if it shows within them. */
  method ReadLimited(body: BodyReader, limit: nat) returns (data: Text, broken: bool)
    requires limit > 0
    modifies body
    ensures body.closes == old(body.closes)
    ensures old(body.rest) == data + body.rest && |data| == Min(limit, old(|body.rest|))
    ensures body.consumed == old(body.consumed) + |data|
    ensures |data| < limit ==> body.rest == []
    ensures broken <==> body.fails && (|data| < limit || (old(|body.rest|) == limit && body.eager))
  {
    data, broken := [], false;
    var end := More;
    while |data| < limit && end == More
      invariant body.closes == old(body.closes)
      invariant old(body.rest) == data + body.rest && |data| <= limit
      invariant body.consumed == old(body.consumed) + |data|
      invariant end != More ==> body.rest == [] && (end == Broken <==> body.fails)
      invariant end != More && |data| == limit ==> body.eager
      invariant body.eager && |data| > 0 && body.rest == [] ==> end != More
      decreases end == More, |body.schedule| + |body.rest|
    {
      var chunk;
      chunk, end := body.Read(limit - |data|);
      data := data + chunk;
    }
    broken := end == Broken;
  }

  /** Reading until the stream reports its end. */
  method ReadToEnd(body: BodyReader) returns (data: Text, broken: bool)
    modifies body
    ensures body.closes == old(body.closes)
    ensures data == old(body.rest) && body.rest == []
    ensures broken == body.fails
  {
    data := [];
    var end := More;
    while end == More
      invariant body.closes == old(body.closes)
      invariant old(body.rest) == data + body.rest
      invariant end != More ==> body.rest == [] && (end == Broken <==> body.fails)
      decreases end == More, |body.schedule| + |body.rest|
    {
      var chunk;
      chunk, end := body.Read(512);
      data := data + chunk;
    }
    broken := end == Broken;
  }

  datatype Buffered =
    | Complete(data: Text)
    | TooLarge(limit: nat, observed: int)
    | ReadFailed

  function Abstract(body: BodyReader): Retry.RespBody
    reads body
  {
    Retry.RespBody(|body.rest|, body.fails, body.eager, body.closeFails)
  }

  /** The body ends cleanly and fits the limit, as far as its header says, too. */
  predicate Bufferable(body: Retry.RespBody, contentLength: int, limit: nat) {
    !(0 < limit < contentLength) && !body.readFails && (limit == 0 || body.available <= limit)
  }

  /** bufferBody. A limit of zero is no limit. Success is exactly: the stream
      ends cleanly and fits; the body is closed once on every path. */
  method BufferBody(body: BodyReader, contentLength: int, limit: nat) returns (r: Buffered)
    modifies body
    ensures body.closes == old(body.closes) + 1
    ensures limit > 0 ==> body.consumed <= old(body.consumed) + limit + 1
    ensures r.Complete? <==>
              !(0 < limit < contentLength) && !body.fails && (limit == 0 || old(|body.rest|) <= limit)
    ensures r.Complete? ==> r.data == old(body.rest)
    ensures r.TooLarge? <==> 0 < limit < contentLength || 0 < limit < old(|body.rest|)
    ensures r.TooLarge? ==>
              r.limit == limit < r.observed && r.observed == if limit < contentLength then contentLength else limit + 1
    ensures 0 < limit < contentLength ==> body.consumed == old(body.consumed)
  {
    r := BufferOpen(body, contentLength, limit);
    var _ := body.Close();
  }

  method BufferOpen(body: BodyReader, contentLength: int, limit: nat) returns (r: Buffered)
    modifies body
    ensures body.closes == old(body.closes)
    ensures limit > 0 ==> body.consumed <= old(body.consumed) + limit + 1
    ensures r.Complete? <==>
              !(0 < limit < contentLength) && !body.fails && (limit == 0 || old(|body.rest|) <= limit)
    ensures r.Complete? ==> r.data == old(body.rest)
    ensures r.TooLarge? <==> 0 < limit < contentLength || 0 < limit < old(|body.rest|)
    ensures r.TooLarge? ==>
              r.limit == limit < r.observed && r.observed == if limit < contentLength then contentLength else limit + 1
    ensures 0 < limit < contentLength ==> body.consumed == old(body.consumed)
  {
    if limit > 0 && contentLength > limit {
      return TooLarge(limit, contentLength);
    }
    if limit == 0 {
      var data, broken := ReadToEnd(body);
      return if broken then ReadFailed else Complete(data);
    }
    var data, broken := ReadLimited(body, limit);
    if broken {
      return ReadFailed;
    }
    if |data| == limit {
      var probe, probeBroken := ReadLimited(body, 1);
      if |probe| > 0 {
        return TooLarge(limit, |data| + |probe|);
      }
      if probeBroken {
        return ReadFailed;
      }
    }
    return Complete(data);
  }

  /** drainAndCloseBody on the reader, meeting what the retry loop relies on. */
  method DrainAndClose(body: BodyReader) returns (ok: bool)
    modifies body
    ensures body.closes == old(body.closes) + 1
    ensures body.consumed == old(body.consumed) + Min(old(|body.rest|), Retry.DRAIN_LIMIT)
    ensures ok <==> !Retry.DrainFails(old(Abstract(body))) && !body.closeFails
  {
    var data, broken := ReadLimited(body, Retry.DRAIN_LIMIT);
    var closed := body.Close();
    ok := !broken && closed;
  }
}
