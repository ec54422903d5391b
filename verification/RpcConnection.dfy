/** One connection from end to end: bytes off the wire to the decoder, its frames to the dispatcher, and
    what the dispatcher answers at once through the loop's channel to the wire. */
module RpcConnection {
  import opened Util
  import opened MsgPack
  import MsgPackEncoding
  import Loop = FramingLoop
  import Rpc = RpcServer

  /** What a frame is to the dispatcher; `fate` and `drawn` are as for `RpcServer.Dispatch`. */
  datatype Incoming =
    | Request(id: Option<Rpc.Id>, name: string, fate: Rpc.Fate, drawn: seq<Rpc.Id>)
    | Response

  /** `incoming` may tell apart equal frames by their number on the connection. */
  datatype Dispatcher = Dispatcher(
    methods: map<string, Rpc.Kind>, incoming: (nat, Value) -> Incoming, serialize: Rpc.Msg -> seq<byte>)

  /** What the loop does about frame number `at`. */
  function OutcomeOf(d: Dispatcher, at: nat, f: Frame): Loop.Outcome {
    match d.incoming(at, f.obj)
    case Response => Loop.Now(None)
    case Request(id, name, fate, drawn) =>
      match Rpc.Dispatch(d.methods, id, name, fate, drawn)
      case Now(reply) => Loop.Now(if reply.Some? then Some(d.serialize(reply.value)) else None)
      case Later(_) => Loop.Later
      case Stream(dto, _) =>
        Loop.Outcome.Stream(if dto.Some? then Some(d.serialize(Rpc.Started(dto.value.req, dto.value.streams))) else None)
  }

  function Outcomes(d: Dispatcher, frames: seq<Frame>, at: nat): seq<Loop.Outcome>
    decreases frames
  {
    if frames == [] then [] else [OutcomeOf(d, at, frames[0])] + Outcomes(d, frames[1..], at + 1)
  }

  /** What is owed on the channel before the next frame is looked at: the reply of a synchronous or
      unknown method, or the start notice of a duplex one whose parameters are good. */
  function Answer(d: Dispatcher, at: nat, f: Frame): seq<Rpc.Msg> {
    match d.incoming(at, f.obj)
    case Response => []
    case Request(id, name, fate, drawn) =>
      if name !in d.methods || d.methods[name].Sync? then
        var owed := Rpc.Owed(d.methods, id, name, fate);
        if owed.Some? then [owed.value] else []
      else if d.methods[name].Duplex? && !fate.BadParams? then
        [Rpc.Started(if id.Some? then id.value else 0, drawn)]
      else []
  }

  function Answers(d: Dispatcher, frames: seq<Frame>, at: nat): seq<Rpc.Msg>
    decreases frames
  {
    if frames == [] then [] else Answer(d, at, frames[0]) + Answers(d, frames[1..], at + 1)
  }

  function Serialized(d: Dispatcher, ms: seq<Rpc.Msg>): seq<Loop.Outgoing> {
    if ms == [] then [] else [Loop.Outgoing(true, d.serialize(ms[0]))] + Serialized(d, ms[1..])
  }

  lemma {:induction false} SerializedConcat(d: Dispatcher, a: seq<Rpc.Msg>, b: seq<Rpc.Msg>)
    ensures Serialized(d, a + b) == Serialized(d, a) + Serialized(d, b)
    ensures |Serialized(d, a)| == |a|
    decreases a
  {
    if a == [] {
      assert a + b == b;
    } else {
      assert (a + b)[1..] == a[1..] + b;
      SerializedConcat(d, a[1..], b);
    }
  }

  lemma {:induction false} AnswersConcat(d: Dispatcher, a: seq<Frame>, b: seq<Frame>, at: nat)
    ensures Answers(d, a + b, at) == Answers(d, a, at) + Answers(d, b, at + |a|)
    decreases a
  {
    if a == [] {
      assert a + b == b;
    } else {
      assert (a + b)[1..] == a[1..] + b;
      AnswersConcat(d, a[1..], b, at + 1);
      ConcatAssoc(Answer(d, at, a[0]), Answers(d, a[1..], at + 1), Answers(d, b, at + |a|));
    }
  }

  lemma AwaitedIsAnswer(d: Dispatcher, at: nat, f: Frame)
    ensures Loop.Awaited(OutcomeOf(d, at, f)) == Serialized(d, Answer(d, at, f))
  {
    assert forall m: Rpc.Msg :: [m][1..] == [];
  }

  /** The sends the loop makes for some frames are exactly their answers, serialized, in order. */
  lemma {:induction false} SendsAreAnswers(d: Dispatcher, frames: seq<Frame>, at: nat)
    ensures Loop.SendsOf(Outcomes(d, frames, at)) == Serialized(d, Answers(d, frames, at))
    decreases frames
  {
    if frames != [] {
      var rest := Outcomes(d, frames[1..], at + 1);
      assert ([OutcomeOf(d, at, frames[0])] + rest)[1..] == rest;
      AwaitedIsAnswer(d, at, frames[0]);
      SendsAreAnswers(d, frames[1..], at + 1);
      SerializedConcat(d, Answer(d, at, frames[0]), Answers(d, frames[1..], at + 1));
    }
  }

  // ----- the whole way -----

  datatype Result = Served | DecodeError | Blocked

  /** The frames complete after the first `k` reads. */
  function FramesAfter(chunks: seq<seq<byte>>, k: nat, target: Target): seq<Frame>
    requires k <= |chunks|
  {
    Greedy(Flat(chunks[..k]), target).frames
  }

  /** How many sends read number `k` asks for. */
  function Asked(d: Dispatcher, chunks: seq<seq<byte>>, k: nat, target: Target): int
    requires k < |chunks|
  {
    |Answers(d, FramesAfter(chunks, k + 1, target), 0)| - |Answers(d, FramesAfter(chunks, k, target), 0)|
  }

  /** After `used` reads: the frames `got` and leftover `src`, and `sent` put on the channel so far. */
  ghost predicate Upto(
    d: Dispatcher, target: Target, chunks: seq<seq<byte>>, used: nat, b: Batch, sent: seq<Loop.Outgoing>)
  {
    && used <= |chunks| && Greedy(Flat(chunks[..used]), target) == b
    && sent == Serialized(d, Answers(d, b.frames, 0))
    && AllFit(d, target, chunks, used)
  }

  /** None of the first `used` reads asks for more sends than the channel holds. */
  ghost predicate AllFit(d: Dispatcher, target: Target, chunks: seq<seq<byte>>, used: nat)
    requires used <= |chunks|
  {
    forall k :: 0 <= k < used ==> Asked(d, chunks, k, target) <= 8
  }

  lemma NothingYet(d: Dispatcher, target: Target, chunks: seq<seq<byte>>)
    ensures Upto(d, target, chunks, 0, Batch([], [], false), Loop.FromQueue([]) + [])
  {
    assert Flat(chunks[..0]) == [] && Greedy([], target) == Batch([], [], false);
  }

  /** One read more: `b` is what decoding the leftover and the chunk gives. */
  lemma ReadOn(
    d: Dispatcher, target: Target, chunks: seq<seq<byte>>, k: nat, a: Batch, sent: seq<Loop.Outgoing>, b: Batch)
    requires k < |chunks| && Upto(d, target, chunks, k, a, sent) && !a.failed
    requires Greedy(a.rest + chunks[k], target) == b
    ensures var sends := Loop.SendsOf(Outcomes(d, b.frames, |a.frames|));
            && |sends| == Asked(d, chunks, k, target)
            && (|sends| <= 8 ==> Upto(d, target, chunks, k + 1, Prepend(a.frames, b), sent + sends))
            && (|sends| > 8 ==> Overfills(d, target, chunks, k) && SomeOverfills(d, target, chunks))
  {
    NextChunk(chunks, k, target);
    MoreAnswers(d, a.frames, b.frames);
    assert Greedy(Flat(chunks[..k + 1]), target) == Prepend(a.frames, b);
    if Asked(d, chunks, k, target) > 8 { assert Overfills(d, target, chunks, k); }
  }

  lemma MoreAnswers(d: Dispatcher, got: seq<Frame>, more: seq<Frame>)
    ensures var sends := Loop.SendsOf(Outcomes(d, more, |got|));
            && |sends| == |Answers(d, got + more, 0)| - |Answers(d, got, 0)|
            && Serialized(d, Answers(d, got + more, 0)) == Serialized(d, Answers(d, got, 0)) + sends
  {
    AnswersConcat(d, got, more, 0);
    SendsAreAnswers(d, more, |got|);
    SerializedConcat(d, Answers(d, more, |got|), []);
    SerializedConcat(d, Answers(d, got, 0), Answers(d, more, |got|));
  }

  /** A read that asks for more sends than the channel holds. */
  ghost predicate Overfills(d: Dispatcher, target: Target, chunks: seq<seq<byte>>, k: nat) {
    k < |chunks| && Asked(d, chunks, k, target) > 8
  }

  ghost predicate SomeOverfills(d: Dispatcher, target: Target, chunks: seq<seq<byte>>) {
    exists k: nat :: Overfills(d, target, chunks, k)
  }

  /** After a decoding error nothing more is asked for. */
  lemma ErrorsAskNothing(d: Dispatcher, target: Target, chunks: seq<seq<byte>>, used: nat, k: nat)
    requires used <= k < |chunks| && Greedy(Flat(chunks[..used]), target).failed
    ensures Asked(d, chunks, k, target) == 0
  {
    ErrorStays(chunks, used, k, target);
    ErrorStays(chunks, used, k + 1, target);
  }

  lemma ErrorStays(chunks: seq<seq<byte>>, used: nat, k: nat, target: Target)
    requires used <= k <= |chunks| && Greedy(Flat(chunks[..used]), target).failed
    ensures FramesAfter(chunks, k, target) == FramesAfter(chunks, used, target)
  {
    assert chunks[..k][..used] == chunks[..used];
    LastChunk(chunks[..k], used, target);
  }

  lemma AtTheEnd(
    d: Dispatcher, target: Target, chunks: seq<seq<byte>>, used: nat, b: Batch, sent: seq<Loop.Outgoing>)
    requires Upto(d, target, chunks, used, b, sent) && (used == |chunks| || b.failed)
    ensures !SomeOverfills(d, target, chunks)
    ensures b.failed == Greedy(Flat(chunks), target).failed
    ensures sent == Serialized(d, Answers(d, Greedy(Flat(chunks), target).frames, 0))
  {
    LastChunk(chunks, used, target);
    forall k: nat | used <= k < |chunks| ensures Asked(d, chunks, k, target) == 0 {
      ErrorsAskNothing(d, target, chunks, used, k);
    }
  }

  /** The read branch, then the channel branch until nothing is queued; an error ends the loop first. */
  method OneRead(d: Dispatcher, codec: MsgPackCodec, loop: Loop.Connection, chunk: seq<byte>, at: nat)
    returns (frames: seq<Frame>, failed: bool, done: bool)
    requires loop.queue == []
    modifies codec, loop
    ensures Greedy(old(codec.src) + chunk, codec.target) == Batch(frames, codec.src, failed)
    ensures var sends := Loop.SendsOf(Outcomes(d, frames, at));
            && (done <==> |sends| <= 8)
            && (done ==> Loop.FromQueue(loop.written) + loop.queue == old(Loop.FromQueue(loop.written)) + sends)
    ensures done && !failed ==> loop.queue == []
  {
    frames, failed := codec.HandleRead(chunk);
    ghost var sends := Loop.SendsOf(Outcomes(d, frames, at));
    done := loop.HandleRead(Outcomes(d, frames, at));
    ConcatNil(sends);
    if done && !failed {
      ghost var sent := Loop.FromQueue(loop.written) + sends;
      loop.WriteQueued();
      ConcatNil(sent);
    }
  }

  /** The loop fed by `chunks`, with the channel emptied between reads and no spawned task sending. For
      every way of cutting the stream, the wire carries exactly the answers to its frames, in order, each
      once: all of them if the stream decodes; if it does not, those of the frames before the error, the
      last ones still queued. The loop blocks for good exactly if some read asks for more than eight sends,
      at the first such read. */
  method Serve(d: Dispatcher, target: Target, chunks: seq<seq<byte>>)
    returns (result: Result, wire: seq<Loop.Written>, queued: seq<Loop.Outgoing>, used: nat)
    ensures used <= |chunks| && (result.Served? ==> used == |chunks|)
    ensures !result.Blocked? ==> AllFit(d, target, chunks, used)
    ensures result.Blocked? ==>
              used > 0 && AllFit(d, target, chunks, used - 1) && Overfills(d, target, chunks, used - 1)
    ensures result.Blocked? <==> SomeOverfills(d, target, chunks)
    ensures result.DecodeError? <==> !result.Blocked? && Greedy(Flat(chunks), target).failed
    ensures !result.Blocked? ==>
              Loop.FromQueue(wire) + queued == Serialized(d, Answers(d, Greedy(Flat(chunks), target).frames, 0))
    ensures result.Served? ==> queued == []
  {
    var codec := new MsgPackCodec(target);
    var loop := new Loop.Connection();
    var got: seq<Frame> := [];
    used, result := 0, Served;
    NothingYet(d, target, chunks);
    while used < |chunks| && result.Served?
      invariant used <= |chunks| && !result.Blocked? && fresh(codec) && fresh(loop) && codec.target == target
      invariant Upto(d, target, chunks, used, Batch(got, codec.src, result.DecodeError?),
                     Loop.FromQueue(loop.written) + loop.queue)
      invariant result.Served? ==> loop.queue == []
    {
      ghost var a, sent := Batch(got, codec.src, false), Loop.FromQueue(loop.written) + loop.queue;
      assert sent == Loop.FromQueue(loop.written);
      var frames, failed, done := OneRead(d, codec, loop, chunks[used], |got|);
      ReadOn(d, target, chunks, used, a, sent, Batch(frames, codec.src, failed));
      used := used + 1;
      if !done {
        return Blocked, loop.written, loop.queue, used;
      }
      got := got + frames;
      if failed {
        result := DecodeError;
      }
    }
    AtTheEnd(d, target, chunks, used, Batch(got, codec.src, result.DecodeError?),
             Loop.FromQueue(loop.written) + loop.queue);
    wire, queued := loop.written, loop.queue;
  }

  /** What is answered at once: requests for unknown methods and for synchronous ones, if they have an
      id, and duplex ones whose parameters are good, by their start notice. */
  lemma AnsweredAtOnce(d: Dispatcher, at: nat, f: Frame, id: Option<Rpc.Id>, name: string, fate: Rpc.Fate,
    drawn: seq<Rpc.Id>)
    requires d.incoming(at, f.obj) == Request(id, name, fate, drawn)
    ensures name !in d.methods ==> Answer(d, at, f) == if id.Some? then [Rpc.ErrorReply(id.value, -1)] else []
    ensures name in d.methods && d.methods[name].Async? ==> Answer(d, at, f) == []
    ensures name in d.methods && d.methods[name].Sync? ==>
              Answer(d, at, f) == match id
                case None => []
                case Some(i) => [match fate
                                 case BadParams => Rpc.ErrorReply(i, 0)
                                 case Fails => Rpc.ErrorReply(i, -1)
                                 case Succeeds => Rpc.SuccessReply(i)]
    ensures name in d.methods && d.methods[name].Duplex? ==>
              Answer(d, at, f) == if fate.BadParams? then [] else [Rpc.Started(if id.Some? then id.value else 0, drawn)]
  {
  }

  /** All of the frames are requests with ids for methods nobody registered. */
  ghost predicate AllUnknown(d: Dispatcher, frames: seq<Frame>, at: nat) {
    forall k :: 0 <= k < |frames| ==> UnknownRequest(d, at + k, frames[k])
  }

  ghost predicate UnknownRequest(d: Dispatcher, at: nat, f: Frame) {
    var e := d.incoming(at, f.obj);
    e.Request? && e.id.Some? && e.name !in d.methods
  }

  lemma {:induction false} UnknownAnswered(d: Dispatcher, frames: seq<Frame>, at: nat)
    requires AllUnknown(d, frames, at)
    ensures |Answers(d, frames, at)| == |frames|
    decreases frames
  {
    if frames != [] {
      assert UnknownRequest(d, at + 0, frames[0]);
      forall k | 0 <= k < |frames[1..]| ensures UnknownRequest(d, at + 1 + k, frames[1..][k]) {
        assert UnknownRequest(d, at + (k + 1), frames[k + 1]);
      }
      UnknownAnswered(d, frames[1..], at + 1);
    }
  }

  /** One read full of such requests is served if they are at most eight, and blocks the loop if nine. */
  lemma NineBlock(d: Dispatcher, target: Target, chunk: seq<byte>)
    requires AllUnknown(d, Greedy(chunk, target).frames, 0)
    ensures SomeOverfills(d, target, [chunk]) <==> |Greedy(chunk, target).frames| >= 9
  {
    var chunks := [chunk];
    assert chunks[..0] == [] && chunks[..1] == chunks;
    FlatSnoc([], chunk);
    ConcatNil(chunk);
    assert Flat(chunks) == chunk && Greedy([], target) == Batch([], [], false);
    UnknownAnswered(d, Greedy(chunk, target).frames, 0);
    assert Asked(d, chunks, 0, target) == |Greedy(chunk, target).frames|;
    if |Greedy(chunk, target).frames| >= 9 { assert Overfills(d, target, chunks, 0); }
  }

  /** So for a peer that sends the messages `vs`, however the bytes arrive, the frames are theirs and
      what goes back is the answers to `vs`. */
  lemma AnswersToMessages(d: Dispatcher, vs: seq<Value>, target: Target)
    requires forall v :: v in vs ==>
      MsgPackEncoding.Encodable(v) && MsgPackEncoding.Depth(v) <= target.depth && target.accepts(v)
    ensures !Greedy(MsgPackEncoding.EncodeAll(vs), target).failed
    ensures Answers(d, Greedy(MsgPackEncoding.EncodeAll(vs), target).frames, 0) ==
            Answers(d, MsgPackEncoding.Framed(vs), 0)
  {
    MsgPackEncoding.StreamRoundTrip(vs, target);
  }
}
