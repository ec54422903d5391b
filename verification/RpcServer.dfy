/** The answering side of the RPC protocol: dispatch of requests to registered methods, the replies
    they owe, and the outgoing half of duplex streams (`register_stream` and its pump tasks). All
    tasks append to one outgoing channel; sends are assumed to succeed. */
module RpcServer {
  import opened Util

  type Id = nat

  datatype Kind = Sync | Async | Duplex(streams: nat)

  /** How handling the body ends: parameters do not deserialize, the callback fails, or it succeeds. */
  datatype Fate = BadParams | Fails | Succeeds

  datatype Msg =
    | SuccessReply(id: Id)
    | ErrorReply(id: Id, code: int)
    | Started(req: Id, streams: seq<Id>)
    | Data(stream: Id, segment: seq<byte>)
    | Ended(stream: Id)

  datatype Dto = Dto(req: Id, streams: seq<Id>)

  datatype Dispatched =
    | Now(reply: Option<Msg>)
    | Later(reply: Option<Msg>)
    | Stream(dto: Option<Dto>, reply: Option<Msg>)

  const PARSE_ERROR := 0
  const CALL_ERROR := -1

  /** What the closures built by `register_sync`, `register_async` and `register_duplex` answer. */
  function Reply(id: Option<Id>, fate: Fate): Option<Msg> {
    match id
    case None => None
    case Some(i) =>
      match fate
      case BadParams => Some(ErrorReply(i, PARSE_ERROR))
      case Fails => Some(ErrorReply(i, CALL_ERROR))
      case Succeeds => Some(SuccessReply(i))
  }

  /** The method branch of `dispatch_with_partial`; `drawn` are the ids drawn for new streams. */
  function Dispatch(methods: map<string, Kind>, id: Option<Id>, name: string, fate: Fate, drawn: seq<Id>): Dispatched {
    if name !in methods then Now(if id.Some? then Some(ErrorReply(id.value, CALL_ERROR)) else None)
    else match methods[name]
      case Sync => Now(Reply(id, fate))
      case Async => Later(Reply(id, fate))
      case Duplex(n) =>
        if fate.BadParams? then Stream(None, Reply(id, fate))
        else Stream(Some(Dto(if id.Some? then id.value else 0, drawn)), Reply(id, fate))
  }

  /** The reply a request is owed. */
  function Owed(methods: map<string, Kind>, id: Option<Id>, name: string, fate: Fate): Option<Msg> {
    if id.None? then None
    else if name !in methods || fate.Fails? then Some(ErrorReply(id.value, CALL_ERROR))
    else if fate.BadParams? then Some(ErrorReply(id.value, PARSE_ERROR))
    else Some(SuccessReply(id.value))
  }

  datatype Phase = Reading | Holding(chunk: seq<byte>) | AtEof | Finished

  /** The task copying one stream out: all bytes read so far, and what it is about to do. */
  datatype Pump = Pump(read: seq<byte>, phase: Phase)

  /** `busy`: the dispatcher is suspended in `register_stream`, on its start notice.
      `owed` records the reply owed by each request so far. */
  datatype State = State(
    out: seq<Msg>, futures: seq<Option<Msg>>, busy: Option<(Dto, Option<Msg>)>, pumps: map<Id, Pump>,
    owed: seq<Option<Msg>>)

  const Init := State([], [], None, map[], [])

  const READ_SIZE := 4096

  datatype Event =
    | Request(id: Option<Id>, name: string, fate: Fate, drawn: seq<Id>)
    | Notice                              // the start notice is sent, its pumps and future are spawned
    | Resolve(k: nat)                     // the k-th future completes and its reply, if any, is sent
    | Read(stream: Id, chunk: seq<byte>)
    | SendData(stream: Id)
    | Eof(stream: Id)
    | SendEnd(stream: Id)

  ghost predicate Enabled(s: State, e: Event, methods: map<string, Kind>) {
    match e
    case Request(_, name, _, drawn) =>
      s.busy == None
      && (forall x :: x in drawn ==> x !in s.pumps)     // ids come from a counter
      && (name in methods && methods[name].Duplex? ==> |drawn| == methods[name].streams)
    case Notice => s.busy.Some?
    case Resolve(k) => k < |s.futures|
    case Read(x, chunk) => x in s.pumps && s.pumps[x].phase.Reading? && 0 < |chunk| <= READ_SIZE
    case SendData(x) => x in s.pumps && s.pumps[x].phase.Holding?
    case Eof(x) => x in s.pumps && s.pumps[x].phase.Reading?
    case SendEnd(x) => x in s.pumps && s.pumps[x].phase.AtEof?
  }

  function Emit(out: seq<Msg>, m: Option<Msg>): seq<Msg> {
    if m.None? then out else out + [m.value]
  }

  ghost function Next(s: State, e: Event, methods: map<string, Kind>): State
    requires Enabled(s, e, methods)
  {
    match e
    case Request(id, name, fate, drawn) =>
      var s1 := s.(owed := s.owed + [Owed(methods, id, name, fate)]);
      (match Dispatch(methods, id, name, fate, drawn)
       case Now(reply) => s1.(out := Emit(s.out, reply))
       case Later(reply) => s1.(futures := s.futures + [reply])
       case Stream(None, reply) => s1.(futures := s.futures + [reply])
       case Stream(Some(dto), reply) => s1.(busy := Some((dto, reply))))
    case Notice =>
      var (dto, reply) := s.busy.value;
      s.(out := s.out + [Started(dto.req, dto.streams)], busy := None,
         pumps := s.pumps + map x | x in dto.streams :: Pump([], Reading),
         futures := s.futures + [reply])
    case Resolve(k) => s.(out := Emit(s.out, s.futures[k]), futures := s.futures[..k] + s.futures[k + 1..])
    case Read(x, chunk) => s.(pumps := s.pumps[x := Pump(s.pumps[x].read + chunk, Holding(chunk))])
    case SendData(x) =>
      s.(out := s.out + [Data(x, s.pumps[x].phase.chunk)], pumps := s.pumps[x := s.pumps[x].(phase := Reading)])
    case Eof(x) => s.(pumps := s.pumps[x := s.pumps[x].(phase := AtEof)])
    case SendEnd(x) => s.(out := s.out + [Ended(x)], pumps := s.pumps[x := s.pumps[x].(phase := Finished)])
  }

  ghost predicate Run(s: State, trace: seq<Event>, s': State, methods: map<string, Kind>)
    decreases trace
  {
    if trace == [] then s == s'
    else Enabled(s, trace[0], methods) && Run(Next(s, trace[0], methods), trace[1..], s', methods)
  }

  // ----- replies -----

  predicate IsReply(m: Msg) { m.SuccessReply? || m.ErrorReply? }

  /** The copy of reply `m` the suspended dispatcher still holds, if any. */
  ghost function InHand(s: State, m: Msg): nat {
    if s.busy.Some? && s.busy.value.1 == Some(m) then 1 else 0
  }

  /** Every owed copy of `m` has been sent, or is with a future, or with the suspended dispatcher. */
  ghost predicate Accounted(s: State, m: Msg) {
    Count(s.owed, Some(m)) == Count(s.out, m) + Count(s.futures, Some(m)) + InHand(s, m)
  }

  lemma EmitCount(out: seq<Msg>, r: Option<Msg>, m: Msg)
    ensures Count(Emit(out, r), m) == Count(out, m) + (if r == Some(m) then 1 else 0)
  {
    if r.Some? { CountSnoc(out, r.value, m); }
  }

  lemma StepAccounted(s: State, e: Event, methods: map<string, Kind>, m: Msg)
    requires IsReply(m) && Accounted(s, m) && Enabled(s, e, methods)
    ensures Accounted(Next(s, e, methods), m)
  {
    match e
    case Request(id, name, fate, drawn) =>
      var owed := Owed(methods, id, name, fate);
      assert Dispatch(methods, id, name, fate, drawn).reply == owed;
      CountSnoc(s.owed, owed, Some(m));
      CountSnoc(s.futures, owed, Some(m));
      EmitCount(s.out, owed, m);
    case Notice =>
      CountSnoc(s.out, Started(s.busy.value.0.req, s.busy.value.0.streams), m);
      CountSnoc(s.futures, s.busy.value.1, Some(m));
    case Resolve(k) =>
      CountWithout(s.futures, k, Some(m));
      EmitCount(s.out, s.futures[k], m);
    case SendData(x) => CountSnoc(s.out, Data(x, s.pumps[x].phase.chunk), m);
    case SendEnd(x) => CountSnoc(s.out, Ended(x), m);
    case _ =>
  }

  /** How many requests in a trace are owed exactly the reply `m`. */
  ghost function OwedBy(trace: seq<Event>, methods: map<string, Kind>, m: Msg): nat {
    if trace == [] then 0
    else (if trace[0].Request? && Owed(methods, trace[0].id, trace[0].name, trace[0].fate) == Some(m) then 1 else 0)
         + OwedBy(trace[1..], methods, m)
  }

  lemma {:induction false} RunAccounted(
    s: State, trace: seq<Event>, s': State, methods: map<string, Kind>, m: Msg)
    requires IsReply(m) && Accounted(s, m) && Run(s, trace, s', methods)
    ensures Accounted(s', m) && Count(s'.owed, Some(m)) == Count(s.owed, Some(m)) + OwedBy(trace, methods, m)
    decreases trace
  {
    if trace != [] {
      var e := trace[0];
      StepAccounted(s, e, methods, m);
      if e.Request? { CountSnoc(s.owed, Owed(methods, e.id, e.name, e.fate), Some(m)); }
      RunAccounted(Next(s, e, methods), trace[1..], s', methods, m);
    }
  }

  /** Reply discipline over every run: no reply is sent more often than it is owed, and once no future
      is pending each request with an id has had exactly one reply, of the right kind; a request
      without an id is owed none. */
  lemma ReplyDiscipline(trace: seq<Event>, s: State, methods: map<string, Kind>, m: Msg)
    requires Run(Init, trace, s, methods) && IsReply(m)
    ensures Count(s.out, m) <= OwedBy(trace, methods, m)
    ensures s.futures == [] && s.busy == None ==> Count(s.out, m) == OwedBy(trace, methods, m)
  {
    RunAccounted(Init, trace, s, methods, m);
  }

  /** Which reply a request is owed: none without an id; code -1 for an unknown method or a failed one,
      code 0 for parameters that do not parse. */
  lemma OwedMeaning(methods: map<string, Kind>, i: Id, name: string, fate: Fate)
    ensures Owed(methods, None, name, fate) == None
    ensures Owed(methods, Some(i), name, fate) ==
            Some(if name !in methods then ErrorReply(i, -1)
                 else match fate
                      case BadParams => ErrorReply(i, 0)
                      case Fails => ErrorReply(i, -1)
                      case Succeeds => SuccessReply(i))
  {
  }

  /** What waits for a start notice waits until it is sent. */
  lemma {:induction false} BusyStays(s: State, trace: seq<Event>, s': State, methods: map<string, Kind>)
    requires s.busy.Some? && Run(s, trace, s', methods) && Notice !in trace
    ensures s'.busy == s.busy
    decreases trace
  {
    if trace != [] {
      assert trace[0] in trace;
      BusyStays(Next(s, trace[0], methods), trace[1..], s', methods);
    }
  }

  /** A duplex request with good parameters is told of its streams first: until a start notice is sent, the
      reply owed to it alone has not been sent, whatever else happens, and no future can send it. */
  lemma NoticeComesFirst(
    before: seq<Event>, s0: State, e: Event, after: seq<Event>, s: State, methods: map<string, Kind>, m: Msg)
    requires Run(Init, before, s0, methods) && Enabled(s0, e, methods) && Run(Next(s0, e, methods), after, s, methods)
    requires e.Request? && e.name in methods && methods[e.name].Duplex? && !e.fate.BadParams? && Notice !in after
    requires Owed(methods, e.id, e.name, e.fate) == Some(m) && OwedBy(before + ([e] + after), methods, m) == 1
    ensures Count(s.out, m) == 0 && Count(s.futures, Some(m)) == 0
  {
    assert ([e] + after)[0] == e && ([e] + after)[1..] == after;
    RunOn(Init, before, s0, [e] + after, s, methods);
    RunAccounted(Init, before + ([e] + after), s, methods, m);
    assert Next(s0, e, methods).busy.Some? && Next(s0, e, methods).busy.value.1 == Some(m);
    BusyStays(Next(s0, e, methods), after, s, methods);
  }

  lemma {:induction false} RunOn(s: State, a: seq<Event>, s': State, b: seq<Event>, s'': State, methods: map<string, Kind>)
    requires Run(s, a, s', methods) && Run(s', b, s'', methods)
    ensures Run(s, a + b, s'', methods)
    decreases a
  {
    if a == [] {
      assert a + b == b;
    } else {
      assert (a + b)[0] == a[0] && (a + b)[1..] == a[1..] + b;
      RunOn(Next(s, a[0], methods), a[1..], s', b, s'', methods);
    }
  }

  /** How many replies in `out` answer id `i`, of whatever kind. */
  ghost function RepliesTo(out: seq<Msg>, i: Id): nat {
    if out == [] then 0 else (if IsReply(out[0]) && out[0].id == i then 1 else 0) + RepliesTo(out[1..], i)
  }

  ghost function Requests(trace: seq<Event>, i: Id): nat {
    if trace == [] then 0
    else (if trace[0].Request? && trace[0].id == Some(i) then 1 else 0) + Requests(trace[1..], i)
  }

  lemma {:induction false} CountOfMember(out: seq<Msg>, m: Msg)
    ensures m in out ==> Count(out, m) > 0
  {
    if out != [] { CountOfMember(out[1..], m); }
  }

  lemma {:induction false} ThreeKinds(out: seq<Msg>, i: Id)
    requires forall c :: ErrorReply(i, c) in out ==> c == PARSE_ERROR || c == CALL_ERROR
    ensures RepliesTo(out, i) ==
            Count(out, SuccessReply(i)) + Count(out, ErrorReply(i, PARSE_ERROR)) + Count(out, ErrorReply(i, CALL_ERROR))
  {
    if out != [] {
      assert out[0] in out && forall m :: m in out[1..] ==> m in out;
      ThreeKinds(out[1..], i);
    }
  }

  lemma {:induction false} OwedOnePerRequest(trace: seq<Event>, methods: map<string, Kind>, i: Id)
    ensures OwedBy(trace, methods, SuccessReply(i)) + OwedBy(trace, methods, ErrorReply(i, PARSE_ERROR))
            + OwedBy(trace, methods, ErrorReply(i, CALL_ERROR)) == Requests(trace, i)
  {
    if trace != [] { OwedOnePerRequest(trace[1..], methods, i); }
  }

  lemma {:induction false} OtherCodesUnowed(trace: seq<Event>, methods: map<string, Kind>, i: Id, c: int)
    requires c != PARSE_ERROR && c != CALL_ERROR
    ensures OwedBy(trace, methods, ErrorReply(i, c)) == 0
  {
    if trace != [] { OtherCodesUnowed(trace[1..], methods, i, c); }
  }

  /** By id: over every run an id gets no more replies, of any kind, than there were requests with it,
      and exactly as many once nothing is pending; so a request with a unique id gets exactly one. */
  lemma OneReplyEach(trace: seq<Event>, s: State, methods: map<string, Kind>, i: Id)
    requires Run(Init, trace, s, methods)
    ensures RepliesTo(s.out, i) <= Requests(trace, i)
    ensures s.futures == [] && s.busy == None ==> RepliesTo(s.out, i) == Requests(trace, i)
  {
    forall c | ErrorReply(i, c) in s.out ensures c == PARSE_ERROR || c == CALL_ERROR {
      ReplyDiscipline(trace, s, methods, ErrorReply(i, c));
      CountOfMember(s.out, ErrorReply(i, c));
      if c != PARSE_ERROR && c != CALL_ERROR { OtherCodesUnowed(trace, methods, i, c); }
    }
    ThreeKinds(s.out, i);
    OwedOnePerRequest(trace, methods, i);
    ReplyDiscipline(trace, s, methods, SuccessReply(i));
    ReplyDiscipline(trace, s, methods, ErrorReply(i, PARSE_ERROR));
    ReplyDiscipline(trace, s, methods, ErrorReply(i, CALL_ERROR));
  }

  // ----- streams -----

  /** What the messages so far tell the receiver about one stream. */
  datatype Seen = Nothing | Open(bytes: seq<byte>) | Closed(bytes: seq<byte>) | OutOfOrder

  ghost function Advance(v: Seen, m: Msg, x: Id): Seen {
    match m
    case Started(_, ss) => if x !in ss then v else if v.Nothing? then Open([]) else OutOfOrder
    case Data(y, seg) => if x != y then v else if v.Open? then Open(v.bytes + seg) else OutOfOrder
    case Ended(y) => if x != y then v else if v.Open? then Closed(v.bytes) else OutOfOrder
    case _ => v
  }

  ghost function Scan(out: seq<Msg>, x: Id): Seen {
    if out == [] then Nothing else Advance(Scan(out[..|out| - 1], x), out[|out| - 1], x)
  }

  lemma ScanSnoc(out: seq<Msg>, m: Msg, x: Id)
    ensures Scan(out + [m], x) == Advance(Scan(out, x), m, x)
  {
    assert (out + [m])[..|out|] == out;
  }

  ghost predicate PumpInv(s: State, x: Id) {
    if x !in s.pumps then Scan(s.out, x) == Nothing
    else
      var Pump(read, phase) := s.pumps[x];
      match phase
      case Reading => Scan(s.out, x) == Open(read)
      case Holding(chunk) => Scan(s.out, x).Open? && Scan(s.out, x).bytes + chunk == read
      case AtEof => Scan(s.out, x) == Open(read)
      case Finished => Scan(s.out, x) == Closed(read)
  }

  ghost predicate StreamInv(s: State) {
    (forall x :: PumpInv(s, x))
    && (s.busy.Some? ==> forall x :: x in s.busy.value.0.streams ==> x !in s.pumps)
    && (forall k :: 0 <= k < |s.futures| ==> s.futures[k].Some? ==> IsReply(s.futures[k].value))
    && (s.busy.Some? && s.busy.value.1.Some? ==> IsReply(s.busy.value.1.value))
  }

  lemma ReplyUnseen(out: seq<Msg>, r: Option<Msg>, x: Id)
    requires r.Some? ==> IsReply(r.value)
    ensures Scan(Emit(out, r), x) == Scan(out, x)
  {
    if r.Some? { ScanSnoc(out, r.value, x); }
  }

  lemma RequestPumpInv(s: State, e: Event, methods: map<string, Kind>, x: Id)
    requires PumpInv(s, x) && Enabled(s, e, methods) && e.Request?
    ensures PumpInv(Next(s, e, methods), x)
  {
    var reply := Owed(methods, e.id, e.name, e.fate);
    assert Dispatch(methods, e.id, e.name, e.fate, e.drawn).reply == reply;
    ReplyUnseen(s.out, reply, x);
    assert Next(s, e, methods).pumps == s.pumps;
    assert Next(s, e, methods).out in {s.out, Emit(s.out, reply)};
  }

  lemma NoticePumpInv(s: State, methods: map<string, Kind>, x: Id)
    requires PumpInv(s, x) && s.busy.Some? && forall y :: y in s.busy.value.0.streams ==> y !in s.pumps
    ensures PumpInv(Next(s, Notice, methods), x)
  {
    ScanSnoc(s.out, Started(s.busy.value.0.req, s.busy.value.0.streams), x);
  }

  lemma PumpStepPumpInv(s: State, e: Event, methods: map<string, Kind>, x: Id)
    requires PumpInv(s, x) && Enabled(s, e, methods) && !(e.Request? || e.Notice? || e.Resolve?)
    requires PumpInv(s, e.stream)
    ensures PumpInv(Next(s, e, methods), x)
  {
    match e
    case SendData(y) => ScanSnoc(s.out, Data(y, s.pumps[y].phase.chunk), x);
    case SendEnd(y) => ScanSnoc(s.out, Ended(y), x);
    case _ =>
  }

  lemma StepPumpInv(s: State, e: Event, methods: map<string, Kind>, x: Id)
    requires StreamInv(s) && Enabled(s, e, methods)
    ensures PumpInv(Next(s, e, methods), x)
  {
    assert PumpInv(s, x);
    match e
    case Request(_, _, _, _) => RequestPumpInv(s, e, methods, x);
    case Notice => NoticePumpInv(s, methods, x);
    case Resolve(k) => ReplyUnseen(s.out, s.futures[k], x);
    case _ => PumpStepPumpInv(s, e, methods, x);
  }

  lemma {:induction false} RunStreamInv(s: State, trace: seq<Event>, s': State, methods: map<string, Kind>)
    requires StreamInv(s) && Run(s, trace, s', methods)
    ensures StreamInv(s')
    decreases trace
  {
    if trace != [] {
      forall x ensures PumpInv(Next(s, trace[0], methods), x) { StepPumpInv(s, trace[0], methods, x); }
      RunStreamInv(Next(s, trace[0], methods), trace[1..], s', methods);
    }
  }

  /** The messages about stream `x`, in order. */
  ghost function About(out: seq<Msg>, x: Id): seq<Msg> {
    if out == [] then []
    else
      var rest := About(out[..|out| - 1], x);
      if Concerns(out[|out| - 1], x) then rest + [out[|out| - 1]] else rest
  }

  predicate Concerns(m: Msg, x: Id) {
    (m.Started? && x in m.streams) || (m.Data? && m.stream == x) || (m.Ended? && m.stream == x)
  }

  ghost function Segments(ms: seq<Msg>): seq<seq<byte>>
    requires forall m :: m in ms ==> m.Data?
  {
    seq(|ms|, i requires 0 <= i < |ms| => ms[i].segment)
  }

  /** `ms` is a start notice followed by data messages carrying `bytes`. */
  ghost predicate StartThenData(ms: seq<Msg>, bytes: seq<byte>) {
    |ms| > 0 && ms[0].Started? && (forall m :: m in ms[1..] ==> m.Data?) && Flat(Segments(ms[1..])) == bytes
  }

  /** What one reading of the messages says agrees with the list of them. */
  ghost predicate Agrees(v: Seen, ms: seq<Msg>, x: Id) {
    match v
    case Nothing => ms == []
    case Open(bytes) => StartThenData(ms, bytes)
    case Closed(bytes) => |ms| >= 2 && ms[|ms| - 1] == Ended(x) && StartThenData(ms[..|ms| - 1], bytes)
    case OutOfOrder => true
  }

  lemma StartAgrees(m: Msg, x: Id)
    requires m.Started?
    ensures StartThenData([m], [])
  {
    assert [m][1..] == [];
  }

  lemma DataAgrees(ms: seq<Msg>, bytes: seq<byte>, m: Msg)
    requires StartThenData(ms, bytes) && m.Data?
    ensures StartThenData(ms + [m], bytes + m.segment)
  {
    var data := ms[1..];
    assert (ms + [m])[1..] == data + [m];
    assert Segments(data + [m]) == Segments(data) + [m.segment];
    FlatSnoc(Segments(data), m.segment);
  }

  lemma EndAgrees(ms: seq<Msg>, bytes: seq<byte>, x: Id)
    requires StartThenData(ms, bytes)
    ensures Agrees(Closed(bytes), ms + [Ended(x)], x)
  {
    assert (ms + [Ended(x)])[..|ms|] == ms;
  }

  lemma AdvanceAgrees(v: Seen, ms: seq<Msg>, m: Msg, x: Id)
    requires Agrees(v, ms, x)
    ensures Agrees(Advance(v, m, x), if Concerns(m, x) then ms + [m] else ms, x)
  {
    if Concerns(m, x) {
      match m
      case Started(_, _) => if v.Nothing? { StartAgrees(m, x); }
      case Data(_, _) => if v.Open? { DataAgrees(ms, v.bytes, m); }
      case Ended(_) => if v.Open? { EndAgrees(ms, v.bytes, x); }
    }
  }

  lemma {:induction false} ScanMeaning(out: seq<Msg>, x: Id)
    ensures Agrees(Scan(out, x), About(out, x), x)
  {
    if out != [] {
      var prev, m := out[..|out| - 1], out[|out| - 1];
      ScanMeaning(prev, x);
      AdvanceAgrees(Scan(prev, x), About(prev, x), m, x);
    }
  }

  /** Stream discipline over every run: messages about a stream are its start notice, then data whose
      segments concatenate to the bytes read so far (less a chunk in hand), then one end notice, last. */
  lemma StreamDiscipline(trace: seq<Event>, s: State, methods: map<string, Kind>, x: Id)
    requires Run(Init, trace, s, methods)
    ensures x !in s.pumps ==> About(s.out, x) == []
    ensures x in s.pumps ==>
      var ms, pump := About(s.out, x), s.pumps[x];
      match pump.phase
      case Holding(chunk) => |chunk| <= |pump.read| && pump.read == pump.read[..|pump.read| - |chunk|] + chunk
        && StartThenData(ms, pump.read[..|pump.read| - |chunk|])
      case Finished => |ms| >= 2 && ms[|ms| - 1] == Ended(x) && StartThenData(ms[..|ms| - 1], pump.read)
      case _ => StartThenData(ms, pump.read)
  {
    RunStreamInv(Init, trace, s, methods);
    assert PumpInv(s, x);
    ScanMeaning(s.out, x);
    if x in s.pumps && s.pumps[x].phase.Holding? {
      var b := Scan(s.out, x).bytes;
      assert (b + s.pumps[x].phase.chunk)[..|b|] == b;
    }
  }

  /** What a stream's task holds and has sent are chunks as it reads them, of 1 to 4096 bytes. */
  ghost predicate SmallChunks(s: State) {
    && (forall x :: x in s.pumps && s.pumps[x].phase.Holding? ==> 0 < |s.pumps[x].phase.chunk| <= 4096)
    && forall m :: m in s.out && m.Data? ==> 0 < |m.segment| <= 4096
  }

  lemma EmitSmall(s: State, r: Option<Msg>)
    requires SmallChunks(s) && (r.Some? ==> IsReply(r.value))
    ensures forall m :: m in Emit(s.out, r) && m.Data? ==> 0 < |m.segment| <= 4096
  {
  }

  lemma StepKeepsChunksSmall(s: State, e: Event, methods: map<string, Kind>)
    requires SmallChunks(s) && StreamInv(s) && Enabled(s, e, methods)
    ensures SmallChunks(Next(s, e, methods))
  {
    match e
    case Request(id, name, fate, drawn) =>
      var reply := Owed(methods, id, name, fate);
      assert Dispatch(methods, id, name, fate, drawn).reply == reply;
      EmitSmall(s, reply);
    case Resolve(k) => EmitSmall(s, s.futures[k]);
    case _ =>
  }

  /** Over every run no data message is empty or longer than 4096 bytes. */
  lemma {:induction false} SegmentsAreSmall(s: State, trace: seq<Event>, s': State, methods: map<string, Kind>)
    requires SmallChunks(s) && StreamInv(s) && Run(s, trace, s', methods)
    ensures SmallChunks(s')
    decreases trace
  {
    if trace != [] {
      StepKeepsChunksSmall(s, trace[0], methods);
      forall x ensures PumpInv(Next(s, trace[0], methods), x) { StepPumpInv(s, trace[0], methods, x); }
      SegmentsAreSmall(Next(s, trace[0], methods), trace[1..], s', methods);
    }
  }

  /** The body of one pump task run to its end: `chunks` is what successive chunks return, an empty
      read being end of stream. */
  method PumpStream(x: Id, req: Id, chunks: seq<seq<byte>>) returns (out: seq<Msg>, used: nat)
    ensures used <= |chunks| && (forall i :: 0 <= i < used ==> chunks[i] != [])
    ensures used < |chunks| ==> chunks[used] == []
    ensures |out| > 0 && out[|out| - 1] == Ended(x)
    ensures StartThenData([Started(req, [x])] + out[..|out| - 1], Flat(chunks[..used]))
  {
    out, used := [], 0;
    while used < |chunks| && chunks[used] != []
      invariant used <= |chunks| && |out| == used
      invariant forall i :: 0 <= i < used ==> chunks[i] != [] && out[i] == Data(x, chunks[i])
    {
      out := out + [Data(x, chunks[used])];
      used := used + 1;
    }
    assert ([Started(req, [x])] + out)[1..] == out;
    assert Segments(out) == chunks[..used];
    out := out + [Ended(x)];
    assert out[..|out| - 1] == out[..used];
  }
}
