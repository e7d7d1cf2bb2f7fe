/** Turning a selected body into the reader that delivery sends, and into the
    GetBody that replays it (body.go). */
module Materialize {
  import opened Base
  import opened Sorting
  import opened Escaping
  import opened QueryPlan
  import opened FormBudget
  import Body
  import Retry

  /** The reader behind a Reader body, as the type switch sees it. */
  datatype Source =
    | Buffer(bytes: Text)
    | Sized(content: Text, offset: int, size: int, readable: Text, readAtFails: bool)
    | Stream(bytes: Text)

  datatype BuildError = UnsupportedContentType | EncodeFailed | ReadIncomplete | ReadFailed | InvalidBody

  /** What the environment contributes: the codec's bytes, the reader, and the
      multipart writer's output. */
  datatype Env = Env(encoded: Option<Text>, source: Source, multipart: Option<Text>, generatedType: Text)

  datatype Built = Built(body: Retry.ReqBody, length: int, contentType: Text)

  /** replayableRequestBody: an owned copy, offered afresh on every attempt. */
  function Replayable(data: Text, contentType: Text): Built {
    Built(if data == [] then Retry.Empty else Retry.Replayable(data, n => Some(data)), |data|, contentType)
  }

  /** readSizedReaderAt: everything from the current offset to the end. */
  function ReadSized(s: Source): Result<Text, BuildError>
    requires s.Sized?
  {
    if s.offset < 0 || s.offset > s.size then Failure(ReadIncomplete)
    else if s.readAtFails then Failure(ReadFailed)
    else
      var end := Min(s.size, |s.content|);
      if end - s.offset != s.size - s.offset then Failure(ReadIncomplete) else Success(s.content[s.offset..s.size])
  }

  /** readerDeliveryBody. */
  function FromReader(s: Source, contentType: Text): Result<Built, BuildError> {
    match s
    case Stream(bytes) => Success(Built(Retry.OneShot(bytes), 0, contentType))
    case Buffer(bytes) => Success(Replayable(bytes, contentType))
    case Sized(_, _, _, readable, _) =>
      var data := ReadSized(s);
      if data.Failure? then Failure(data.error)
      else Success(Built(Retry.Replayable(readable, n => Some(data.value)), |data.value|, contentType))
  }

  /** buildDeliveryBody, given the request-local Content-Type. */
  function Build(plan: Body.Plan, contentType: Text, env: Env): Result<Built, BuildError> {
    match plan.kind
    case Nothing => Success(Built(Retry.Empty, 0, []))
    case PlainText => Success(Replayable(plan.content.raw, contentType))
    case RawBytes => Success(Replayable(plan.content.raw, contentType))
    case Form => Success(Replayable(FormBytes(plan.form), contentType))
    case Reader =>
      if plan.nilReader then Failure(InvalidBody)
      else if plan.readerLength.Some? then
        if plan.readerLength.value == 0 then Success(Built(Retry.Empty, 0, contentType))
        else
          var bytes := match env.source
            case Buffer(b) => b
            case Sized(_, _, _, r, _) => r
            case Stream(b) => b;
          Success(Built(Retry.OneShot(bytes), plan.readerLength.value, contentType))
      else FromReader(env.source, contentType)
    case MultipartForm =>
      if plan.multipart.None? || env.multipart.None? then Failure(InvalidBody)
      else
        var generated := if plan.generated then env.generatedType else [];
        if plan.multipart.value.replayLimit.None? then Success(Built(Retry.OneShot(env.multipart.value), 0, generated))
        else Success(Replayable(env.multipart.value, generated))
    case _ =>
      if contentType == [] then Failure(UnsupportedContentType)
      else if env.encoded.None? then Failure(EncodeFailed)
      else Success(Replayable(env.encoded.value, contentType))
  }

  /** A sized source whose Read agrees with ReadAt from its current offset. */
  predicate Agrees(s: Source) {
    s.Sized? && 0 <= s.offset <= s.size <= |s.content| ==> s.readable == s.content[s.offset..s.size]
  }

  /** A body that replays exactly what it sends first, and announces its length. */
  ghost predicate FaithfulBody(b: Built) {
    && Retry.Faithful(b.body)
    && (b.body.Replayable? ==> b.length == |b.body.content|)
  }

  lemma ReaderIsFaithful(s: Source, contentType: Text)
    requires FromReader(s, contentType).Success? && Agrees(s)
    ensures FaithfulBody(FromReader(s, contentType).value)
  {
    match s
    case Stream(_) =>
    case Buffer(bytes) => assert FaithfulBody(Replayable(bytes, contentType));
    case Sized(_, _, _, readable, _) => assert ReadSized(s).value == readable;
  }

  /** Every body the library builds is faithful. */
  lemma BuiltBodyIsFaithful(plan: Body.Plan, contentType: Text, env: Env)
    requires Build(plan, contentType, env).Success? && Agrees(env.source)
    ensures FaithfulBody(Build(plan, contentType, env).value)
  {
    var r := Build(plan, contentType, env);
    if plan.kind == Body.Reader {
      if plan.readerLength.None? {
        ReaderIsFaithful(env.source, contentType);
      }
    } else {
      forall data: Text, ct: Text
        ensures FaithfulBody(Replayable(data, ct))
      {
      }
    }
  }

  // ------------------------------------------------------- what is announced

  predicate IsTyped(kind: Body.Kind) {
    kind == Body.JSON || kind == Body.XML || kind == Body.YAML
  }

  /** The bytes of a body: the codec's, the raw content whatever its tag, every form
      field escaped and sorted by name, what the reader holds, or what the
      multipart writer produced. */
  ghost predicate Carries(plan: Body.Plan, env: Env, bytes: Text) {
    match plan.kind
    case Nothing => bytes == []
    case PlainText => bytes == plan.content.raw
    case RawBytes => bytes == plan.content.raw
    case Form => bytes == JoinPairs(Sort(Fields(plan.form)))
    case Reader =>
      if plan.readerLength == Some(0) then bytes == []
      else
        (match env.source
         case Buffer(held) => bytes == held
         case Sized(_, _, _, readable, _) => bytes == readable
         case Stream(held) => bytes == held)
    case MultipartForm => env.multipart == Some(bytes)
    case _ => env.encoded == Some(bytes)
  }

  /** The sized source cannot be read as a whole. */
  predicate Unreadable(s: Source) {
    s.Sized? && (s.readAtFails || s.offset < 0 || s.offset > s.size || s.size > |s.content|)
  }

  /** Why a body cannot be built; none when it can. */
  function Refusal(plan: Body.Plan, contentType: Text, env: Env): Option<BuildError> {
    var snapshot := plan.kind == Body.Reader && plan.readerLength.None?;
    if IsTyped(plan.kind) && contentType == [] then Some(UnsupportedContentType)
    else if IsTyped(plan.kind) && env.encoded.None? then Some(EncodeFailed)
    else if plan.kind == Body.Reader && plan.nilReader then Some(InvalidBody)
    else if plan.kind == Body.MultipartForm && (plan.multipart.None? || env.multipart.None?) then Some(InvalidBody)
    else if snapshot && Unreadable(env.source) then
      Some(if 0 <= env.source.offset <= env.source.size && env.source.readAtFails then ReadFailed else ReadIncomplete)
    else None
  }

  /** A body that is consumed by its first attempt: a stream, a reader with a given
      length, or a multipart form without a replay limit. */
  predicate SentOnce(plan: Body.Plan, env: Env) {
    || (plan.kind == Body.Reader && plan.readerLength.None? && env.source.Stream?)
    || (plan.kind == Body.Reader && plan.readerLength.Some? && plan.readerLength.value > 0)
    || (plan.kind == Body.MultipartForm && plan.multipart.Some? && plan.multipart.value.replayLimit.None?)
  }

  /** The length and type announced with the bytes. A body that is sent once has
      the given length or none; any other has the length of its bytes. */
  predicate Announces(plan: Body.Plan, contentType: Text, env: Env, bytes: Text, b: Built) {
    && b.length == (if !SentOnce(plan, env) then |bytes|
                    else if plan.kind == Body.Reader && plan.readerLength.Some? then plan.readerLength.value
                    else 0)
    && b.contentType == (if plan.kind == Body.Nothing then []
                         else if plan.kind == Body.MultipartForm then (if plan.generated then env.generatedType else [])
                         else contentType)
  }

  lemma ReaderCarries(s: Source, contentType: Text)
    requires Agrees(s)
    ensures FromReader(s, contentType).Success? <==> !Unreadable(s)
    ensures
      var r := FromReader(s, contentType);
      && (r.Failure? ==>
            r.error == if 0 <= s.offset <= s.size && s.readAtFails then ReadFailed else ReadIncomplete)
      && (r.Success? ==>
            && (r.value.body.OneShot? <==> s.Stream?) && r.value.contentType == contentType
            && (match s
                case Buffer(held) => Retry.Content(r.value.body) == held && r.value.length == |held|
                case Sized(_, _, _, readable, _) => Retry.Content(r.value.body) == readable && r.value.length == |readable|
                case Stream(held) => Retry.Content(r.value.body) == held && r.value.length == 0))
  {
  }

  lemma ReplayableCarries(data: Text, contentType: Text)
    ensures
      var b := Replayable(data, contentType);
      Retry.Content(b.body) == data && b.length == |data| && b.contentType == contentType && !b.body.OneShot?
  {
  }

  /** What delivery builds: which plans are refused and why, and for any other the
      bytes, the length, the type, and whether they can be sent again. */
  lemma BuildMeaning(plan: Body.Plan, contentType: Text, env: Env)
    requires Agrees(env.source)
    ensures
      var r := Build(plan, contentType, env);
      && (r.Failure? <==> Refusal(plan, contentType, env).Some?)
      && (r.Failure? ==> Some(r.error) == Refusal(plan, contentType, env))
      && (r.Success? ==>
            var bytes := Retry.Content(r.value.body);
            && Carries(plan, env, bytes) && Announces(plan, contentType, env, bytes, r.value)
            && (r.value.body.OneShot? <==> SentOnce(plan, env)))
  {
    match plan.kind
    case Nothing =>
    case PlainText => ReplayableCarries(plan.content.raw, contentType);
    case RawBytes => ReplayableCarries(plan.content.raw, contentType);
    case Form =>
      EncodeIsSortedJoin(RawPairs(plan.form));
      FieldsAreRaw(plan.form);
      ReplayableCarries(FormBytes(plan.form), contentType);
    case Reader =>
      if plan.readerLength.None? {
        ReaderCarries(env.source, contentType);
      }
    case MultipartForm =>
      if env.multipart.Some? {
        ReplayableCarries(env.multipart.value, if plan.generated then env.generatedType else []);
      }
    case _ =>
      if env.encoded.Some? {
        ReplayableCarries(env.encoded.value, contentType);
      }
  }

  /** The retry loop over a built body: every attempt is offered the same bytes,
      those of the plan, at most Max + 1 attempts are made, and a body that can be
      sent once gets exactly one. */
  method Deliver(plan: Body.Plan, contentType: Text, env: Env, max: int64, transport: nat -> Retry.Reply)
    returns (attempts: nat, trace: seq<Retry.Event>, built: Result<Built, BuildError>)
    requires 0 <= max && max as int < MAX_INT64 && Agrees(env.source)
    ensures built == Build(plan, contentType, env)
    ensures built.Failure? <==> Refusal(plan, contentType, env).Some?
    ensures built.Failure? ==> attempts == 0 && trace == [] && Some(built.error) == Refusal(plan, contentType, env)
    ensures built.Success? ==>
              && 1 <= attempts == Retry.CountSent(trace) <= max as int + 1
              && (SentOnce(plan, env) ==> attempts == 1)
              && var bytes := Retry.Content(built.value.body);
              && Carries(plan, env, bytes) && Retry.AllOffered(trace, bytes)
              && Announces(plan, contentType, env, bytes, built.value)
  {
    attempts, trace := 0, [];
    BuildMeaning(plan, contentType, env);
    built := Build(plan, contentType, env);
    if built.Success? {
      BuiltBodyIsFaithful(plan, contentType, env);
      var r;
      r, attempts, trace := Retry.Terminal(max, built.value.body, transport, 0);
      Retry.RunSettled(max as int, built.value.body, transport, 0, attempts);
      Retry.RunReplays(max as int, built.value.body, transport, 0, attempts);
    }
  }
}
