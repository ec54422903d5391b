/** The select loop that serves one RPC connection. It is the only consumer of its own bounded
    channel, and it also sends on that channel while it handles a read. */
module FramingLoop {
  import opened Util

  const CAPACITY := 8

  /** A message on the channel; `direct` ones are sent by the loop itself while it handles a read. */
  datatype Outgoing = Outgoing(direct: bool, bytes: seq<byte>)

  /** What dispatching one frame asks of the loop. */
  datatype Outcome =
    | Now(reply: Option<seq<byte>>)                        // sent at once, awaited
    | Later                                                // a spawned task will send
    | Stream(notice: Option<seq<byte>>)                    // start notice sent at once, awaited

  function Awaited(d: Outcome): seq<Outgoing> {
    match d
    case Now(Some(bytes)) => [Outgoing(true, bytes)]
    case Stream(Some(bytes)) => [Outgoing(true, bytes)]
    case _ => []
  }

  /** The sends a read makes, in frame order. */
  function SendsOf(frames: seq<Outcome>): seq<Outgoing> {
    if frames == [] then [] else Awaited(frames[0]) + SendsOf(frames[1..])
  }

  datatype Written = FromChannel(msg: Outgoing) | FromCaller(bytes: seq<byte>)

  /** `sends`: what the read in hand still has to send; the loop selects again when it is empty.
      `asked` records every send reads have asked for. */
  datatype State = State(queue: seq<Outgoing>, sends: seq<Outgoing>, written: seq<Written>, asked: seq<Outgoing>,
    pushed: seq<Outgoing>)

  const Init := State([], [], [], [], [])

  datatype Event =
    | Read(frames: seq<Outcome>)
    | Push                              // the awaited send gets its slot
    | SpawnedSend(bytes: seq<byte>)     // a spawned task's send gets its slot
    | Receive                           // the loop writes one message from the channel
    | CallerMessage(bytes: seq<byte>)   // the loop writes one message from the caller side

  predicate Idle(s: State) { s.sends == [] }

  predicate Enabled(s: State, e: Event) {
    match e
    case Read(_) => Idle(s)
    case Push => !Idle(s) && |s.queue| < CAPACITY
    case SpawnedSend(_) => |s.queue| < CAPACITY
    case Receive => Idle(s) && s.queue != []
    case CallerMessage(_) => Idle(s)
  }

  function Next(s: State, e: Event): State
    requires Enabled(s, e)
  {
    match e
    case Read(frames) => s.(sends := SendsOf(frames), asked := s.asked + SendsOf(frames))
    case Push => s.(queue := s.queue + [s.sends[0]], sends := s.sends[1..], pushed := s.pushed + [s.sends[0]])
    case SpawnedSend(bytes) =>
      s.(queue := s.queue + [Outgoing(false, bytes)], pushed := s.pushed + [Outgoing(false, bytes)])
    case Receive => s.(queue := s.queue[1..], written := s.written + [FromChannel(s.queue[0])])
    case CallerMessage(bytes) => s.(written := s.written + [FromCaller(bytes)])
  }

  ghost predicate Run(s: State, trace: seq<Event>, s': State)
    decreases trace
  {
    if trace == [] then s == s'
    else Enabled(s, trace[0]) && Run(Next(s, trace[0]), trace[1..], s')
  }

  // ----- order -----

  ghost function FromQueue(w: seq<Written>): seq<Outgoing> {
    if w == [] then []
    else FromQueue(w[..|w| - 1]) + (if w[|w| - 1].FromChannel? then [w[|w| - 1].msg] else [])
  }

  ghost function Direct(ms: seq<Outgoing>): seq<Outgoing> {
    if ms == [] then []
    else Direct(ms[..|ms| - 1]) + (if ms[|ms| - 1].direct then [ms[|ms| - 1]] else [])
  }

  ghost predicate AllDirect(ms: seq<Outgoing>) {
    forall m :: m in ms ==> m.direct
  }

  ghost predicate InOrder(s: State) {
    && |s.queue| <= CAPACITY
    && FromQueue(s.written) + s.queue == s.pushed
    && Direct(s.pushed) + s.sends == s.asked
    && AllDirect(s.sends)
  }

  lemma {:induction false} SendsAreDirect(frames: seq<Outcome>)
    ensures AllDirect(SendsOf(frames))
  {
    if frames != [] { SendsAreDirect(frames[1..]); }
  }

  lemma FromQueueSnoc(w: seq<Written>, x: Written)
    ensures FromQueue(w + [x]) == FromQueue(w) + (if x.FromChannel? then [x.msg] else [])
  {
    assert (w + [x])[..|w|] == w;
  }

  lemma DirectSnoc(ms: seq<Outgoing>, m: Outgoing)
    ensures Direct(ms + [m]) == Direct(ms) + (if m.direct then [m] else [])
  {
    assert (ms + [m])[..|ms|] == ms;
  }

  lemma ReadInOrder(s: State, frames: seq<Outcome>)
    requires InOrder(s) && Enabled(s, Read(frames))
    ensures InOrder(Next(s, Read(frames)))
  {
    SendsAreDirect(frames);
    assert s.sends == [] && Direct(s.pushed) + s.sends == Direct(s.pushed);
  }

  lemma PushInOrder(s: State)
    requires InOrder(s) && Enabled(s, Push)
    ensures InOrder(Next(s, Push))
  {
    var m := s.sends[0];
    assert m in s.sends && s.sends == [m] + s.sends[1..];
    DirectSnoc(s.pushed, m);
    assert Direct(s.pushed) + s.sends == (Direct(s.pushed) + [m]) + s.sends[1..];
    assert FromQueue(s.written) + (s.queue + [m]) == (FromQueue(s.written) + s.queue) + [m];
    assert forall x :: x in s.sends[1..] ==> x in s.sends;
  }

  lemma SpawnedInOrder(s: State, bytes: seq<byte>)
    requires InOrder(s) && Enabled(s, SpawnedSend(bytes))
    ensures InOrder(Next(s, SpawnedSend(bytes)))
  {
    var m := Outgoing(false, bytes);
    DirectSnoc(s.pushed, m);
    assert FromQueue(s.written) + (s.queue + [m]) == (FromQueue(s.written) + s.queue) + [m];
  }

  lemma ReceiveInOrder(s: State)
    requires InOrder(s) && Enabled(s, Receive)
    ensures InOrder(Next(s, Receive))
  {
    var m := s.queue[0];
    FromQueueSnoc(s.written, FromChannel(m));
    assert s.queue == [m] + s.queue[1..];
    assert FromQueue(s.written) + s.queue == (FromQueue(s.written) + [m]) + s.queue[1..];
  }

  lemma StepInOrder(s: State, e: Event)
    requires InOrder(s) && Enabled(s, e)
    ensures InOrder(Next(s, e))
  {
    match e
    case Read(frames) => ReadInOrder(s, frames);
    case Push => PushInOrder(s);
    case SpawnedSend(bytes) => SpawnedInOrder(s, bytes);
    case Receive => ReceiveInOrder(s);
    case CallerMessage(bytes) => FromQueueSnoc(s.written, FromCaller(bytes));
  }

  /** Over every run the channel is written out first in, first out, and the replies and notices of
      reads go onto it in the order the reads asked for them. */
  lemma {:induction false} RunInOrder(s: State, trace: seq<Event>, s': State)
    requires InOrder(s) && Run(s, trace, s')
    ensures InOrder(s')
    decreases trace
  {
    if trace != [] {
      StepInOrder(s, trace[0]);
      RunInOrder(Next(s, trace[0]), trace[1..], s');
    }
  }

  /** Once the loop is idle with nothing queued, every reply and notice asked for has been written,
      each once and in the order of the frames, whatever else was written in between. */
  lemma RepliesWrittenInOrder(trace: seq<Event>, s': State)
    requires Run(Init, trace, s') && Idle(s') && s'.queue == []
    ensures Direct(FromQueue(s'.written)) == s'.asked
  {
    RunInOrder(Init, trace, s');
    assert FromQueue(s'.written) + s'.queue == FromQueue(s'.written);
    assert Direct(s'.pushed) + s'.sends == Direct(s'.pushed);
  }

  // ----- progress -----

  ghost predicate Deadlocked(s: State) {
    forall e :: !Enabled(s, e)
  }

  /** The loop deadlocks exactly when it has something to send and its own channel is full. */
  lemma DeadlockedWhenFull(s: State)
    requires |s.queue| <= CAPACITY
    ensures Deadlocked(s) <==> !Idle(s) && |s.queue| == 8
  {
    assert Enabled(s, Push) || Enabled(s, CallerMessage([])) || (!Idle(s) && |s.queue| == CAPACITY);
  }

  ghost function Spawns(trace: seq<Event>): nat {
    if trace == [] then 0 else (if trace[0].SpawnedSend? then 1 else 0) + Spawns(trace[1..])
  }

  /** Steps that handle one read: nothing is taken off the channel until they are over. */
  ghost predicate Handling(trace: seq<Event>) {
    forall e :: e in trace ==> e.Push? || e.SpawnedSend?
  }

  lemma {:induction false} HandlingFills(s: State, trace: seq<Event>, s': State)
    requires |s.queue| <= CAPACITY && Run(s, trace, s') && Handling(trace)
    ensures |s'.queue| <= CAPACITY
    ensures |s'.queue| + |s'.sends| == |s.queue| + |s.sends| + Spawns(trace)
    decreases trace
  {
    if trace != [] {
      assert trace[0] in trace;
      HandlingFills(Next(s, trace[0]), trace[1..], s');
    }
  }

  /** Progress: handle a read up to the point where no awaited send can go on. Counting the sends of
      spawned tasks that got in between, it is over exactly when everything fits in the free slots of
      the channel, and deadlocked otherwise. With no such sends the read completes if and only if its
      own sends number at most eight minus what is queued. No run leaves the deadlock. */
  lemma ReadCompletesIffItFits(s: State, frames: seq<Outcome>, trace: seq<Event>, s': State)
    requires Idle(s) && |s.queue| <= CAPACITY && Run(Next(s, Read(frames)), trace, s') && Handling(trace)
    requires !Enabled(s', Push)
    ensures Idle(s') <==> |SendsOf(frames)| + Spawns(trace) <= 8 - |s.queue|
    ensures Idle(s') <==> !Deadlocked(s')
    ensures !Idle(s') ==> forall more, s'' :: Run(s', more, s'') ==> s'' == s'
  {
    HandlingFills(Next(s, Read(frames)), trace, s');
    DeadlockedWhenFull(s');
  }

  // ----- the loop itself -----

  lemma SendsStep(queue: seq<Outgoing>, frames: seq<Outcome>)
    requires frames != []
    ensures queue + SendsOf(frames) == (queue + Awaited(frames[0])) + SendsOf(frames[1..])
    ensures Awaited(frames[0]) == [] || |Awaited(frames[0])| == 1
  {
    ConcatAssoc(queue, Awaited(frames[0]), SendsOf(frames[1..]));
  }

  class Connection {
    var queue: seq<Outgoing>
    var written: seq<Written>

    constructor ()
      ensures queue == [] && written == []
    {
      queue, written := [], [];
    }

    /** An awaited send that nothing else can make room for. */
    method Send(m: Outgoing) returns (sent: bool)
      modifies this`queue
      ensures sent <==> old(|queue|) < CAPACITY
      ensures queue == if sent then old(queue) + [m] else old(queue)
    {
      sent := |queue| < CAPACITY;
      if sent {
        queue := queue + [m];
      }
    }

    /** The read branch with no spawned task sending meanwhile; `done` is false if an awaited send
        finds the channel full, and then it never returns. */
    method HandleRead(frames: seq<Outcome>) returns (done: bool)
      requires |queue| <= CAPACITY
      modifies this`queue
      ensures done <==> |SendsOf(frames)| <= 8 - old(|queue|)
      ensures done ==> queue == old(queue) + SendsOf(frames)
      ensures !done ==> |queue| == 8 && queue <= old(queue) + SendsOf(frames)
    {
      ghost var goal := queue + SendsOf(frames);
      var i := 0;
      done := true;
      while i < |frames|
        invariant 0 <= i <= |frames| && |queue| <= CAPACITY && |queue| >= old(|queue|)
        invariant queue + SendsOf(frames[i..]) == goal
      {
        SendsStep(queue, frames[i..]);
        assert frames[i..][1..] == frames[i + 1..];
        var sends := Awaited(frames[i]);
        if sends != [] {
          done := Send(sends[0]);
          if !done {
            return;
          }
        }
        i := i + 1;
      }
    }

    /** The channel branch, taken until nothing is queued. */
    method WriteQueued()
      modifies this
      ensures queue == [] && FromQueue(written) == old(FromQueue(written) + queue)
    {
      while queue != []
        invariant FromQueue(written) + queue == old(FromQueue(written) + queue)
        decreases |queue|
      {
        FromQueueSnoc(written, FromChannel(queue[0]));
        written := written + [FromChannel(queue[0])];
        queue := queue[1..];
      }
    }
  }
}
