/** The incoming side of the RPC stream multiplexer: a mutex-guarded map of stream
    records, the write loops it spawns, and deferred shutdown.

    One atomic step is one critical section, one item written, or one shutdown. */
module RpcStreams {
  import opened Util

  type Id = nat
  type Half = nat      // identity of a `WriteHalf`; it is moved, never copied
  type TaskId = nat
  type Item = seq<byte>

  datatype Rec = Rec(write: Option<Half>, q: seq<Item>, ended: bool)

  /** A spawned task that owns a write half: a running `write_loop`, or one about to shut it down. */
  datatype Task = Loop(w: Half, id: Id, items: seq<Item>) | Closing(w: Half)

  /** What the far end of a write half has seen. `broken`: writes fail from now on. */
  datatype Pipe = Pipe(sent: seq<byte>, broken: bool, shut: nat)

  datatype Place = InRecord(id: Id) | InTask(t: TaskId)

  /** History: writes accepted for a half, the half an id was last inserted with, the id a half was
      inserted under, where a half is. */
  datatype History = History(
    accepted: map<Half, seq<Item>>, halfOf: map<Id, Half>, idOf: map<Half, Id>, place: map<Half, Place>)

  datatype State = State(
    records: map<Id, Rec>, tasks: map<TaskId, Task>, next: TaskId, pipes: map<Half, Pipe>, hist: History)

  datatype Event =
    | Insert(id: Id, w: Half)
    | Write(id: Id, buf: Item)
    | Remove(id: Id)
    | Turn(t: TaskId)               // critical section of `write_loop`
    | Send(t: TaskId)               // one item written in full
    | Fail(t: TaskId, k: nat)       // a write fails after k bytes: the rest of the batch is dropped
    | Shut(t: TaskId)               // `shutdown` outside the lock

  const Init := State(map[], map[], 0, map[], History(map[], map[], map[], map[]))

  ghost predicate Enabled(s: State, e: Event) {
    match e
    case Insert(_, w) => w !in s.pipes
    case Write(_, _) => true
    case Remove(_) => true
    case Turn(t) => t in s.tasks && s.tasks[t].Loop? && s.tasks[t].items == []
    case Send(t) => t in s.tasks && s.tasks[t].Loop? && s.tasks[t].items != [] && s.tasks[t].w in s.pipes
                    && (s.pipes[s.tasks[t].w].broken ==> s.tasks[t].items[0] == [])
    case Fail(t, k) => t in s.tasks && s.tasks[t].Loop? && s.tasks[t].items != [] && s.tasks[t].w in s.pipes
                       && k < |s.tasks[t].items[0]| && (s.pipes[s.tasks[t].w].broken ==> k == 0)
    case Shut(t) => t in s.tasks && s.tasks[t].Closing? && s.tasks[t].w in s.pipes
  }

  /** What `insert` relies on: the id has no record. It may have had one that is gone by now. */
  ghost predicate UnusedId(s: State, e: Event) {
    e.Insert? ==> e.id !in s.records
  }

  ghost function Spawned(s: State, task: Task): State {
    s.(tasks := s.tasks[s.next := task], next := s.next + 1,
       hist := s.hist.(place := s.hist.place[task.w := InTask(s.next)]))
  }

  ghost function AfterInsert(s: State, id: Id, w: Half): State {
    s.(records := s.records[id := Rec(Some(w), [], false)],
       pipes := s.pipes[w := Pipe([], false, 0)],
       hist := History(s.hist.accepted[w := []], s.hist.halfOf[id := w], s.hist.idOf[w := id],
                       s.hist.place[w := InRecord(id)]))
  }

  /** One more write accepted for the half last inserted under `id`. */
  ghost function Logged(hist: History, id: Id, buf: Item): History {
    if id !in hist.halfOf then hist
    else
      var h := hist.halfOf[id];
      hist.(accepted := hist.accepted[h := (if h in hist.accepted then hist.accepted[h] else []) + [buf]])
  }

  ghost function AfterWrite(s: State, id: Id, buf: Item): State {
    if id !in s.records then s
    else
      var rec := s.records[id];
      var s1 := s.(records := s.records[id := Rec(None, rec.q + [buf], rec.ended)], hist := Logged(s.hist, id, buf));
      match rec.write
      case None => s1
      case Some(w) => Spawned(s1, Loop(w, id, []))
  }

  ghost function AfterRemove(s: State, id: Id): State {
    if id !in s.records then s
    else match s.records[id].write
      case Some(w) => Spawned(s.(records := s.records - {id}), Closing(w))
      case None => s.(records := s.records[id := s.records[id].(ended := true)])
  }

  ghost function AfterTurn(s: State, t: TaskId): State
    requires Enabled(s, Turn(t))
  {
    var Loop(w, id, items) := s.tasks[t];
    if id !in s.records then s.(tasks := s.tasks[t := Closing(w)])
    else
      var rec := s.records[id];
      if rec.q == [] && rec.ended then
        s.(records := s.records - {id}, tasks := s.tasks[t := Closing(w)])
      else if rec.q == [] then
        s.(records := s.records[id := rec.(write := Some(w))], tasks := s.tasks - {t},
           hist := s.hist.(place := s.hist.place[w := InRecord(id)]))
      else
        s.(records := s.records[id := rec.(q := items)], tasks := s.tasks[t := Loop(w, id, rec.q)])
  }

  ghost function Next(s: State, e: Event): State
    requires Enabled(s, e)
  {
    match e
    case Insert(id, w) => AfterInsert(s, id, w)
    case Write(id, buf) => AfterWrite(s, id, buf)
    case Remove(id) => AfterRemove(s, id)
    case Turn(t) => AfterTurn(s, t)
    case Send(t) =>
      var Loop(w, id, items) := s.tasks[t];
      s.(tasks := s.tasks[t := Loop(w, id, items[1..])],
         pipes := s.pipes[w := s.pipes[w].(sent := s.pipes[w].sent + items[0])])
    case Fail(t, k) =>
      var Loop(w, id, items) := s.tasks[t];
      s.(tasks := s.tasks[t := Loop(w, id, [])],
         pipes := s.pipes[w := s.pipes[w].(sent := s.pipes[w].sent + items[0][..k], broken := true)])
    case Shut(t) =>
      var w := s.tasks[t].w;
      s.(tasks := s.tasks - {t}, pipes := s.pipes[w := s.pipes[w].(shut := s.pipes[w].shut + 1)],
         hist := s.hist.(place := s.hist.place - {w}))
  }

  // ----- the invariant -----

  ghost predicate Holds(s: State, w: Half, p: Place) {
    match p
    case InRecord(id) => id in s.records && s.records[id].write == Some(w)
    case InTask(t) => t in s.tasks && s.tasks[t].w == w
  }

  /** The far end has seen `sent` so far, `pending` is still to come, `all` was accepted. */
  ghost predicate Delivers(p: Pipe, pending: seq<Item>, all: seq<Item>) {
    if p.broken then p.sent <= Flat(all) else p.sent + Flat(pending) == Flat(all)
  }

  /** Half `w` is the one its id's record stands for: in the record or with the loop that serves it. */
  ghost predicate Attached(s: State, w: Half) {
    w in s.hist.idOf && w in s.hist.place
    && match s.hist.place[w]
       case InRecord(id) => id == s.hist.idOf[w]
       case InTask(t) => t in s.tasks && s.tasks[t].Loop? && s.tasks[t].id == s.hist.idOf[w]
  }

  ghost predicate HalfInv(s: State, w: Half)
    requires w in s.pipes
  {
    && w in s.hist.idOf && w in s.hist.accepted
    && var id, p, all := s.hist.idOf[w], s.pipes[w], s.hist.accepted[w];
    && (Attached(s, w) ==> id in s.records && id in s.hist.halfOf && s.hist.halfOf[id] == w)
    && if w !in s.hist.place then
         p.shut == 1 && Delivers(p, [], all)
       else
         p.shut == 0
         && Holds(s, w, s.hist.place[w])
         && match s.hist.place[w]
            case InRecord(i) =>
              i == id && s.records[id].q == [] && !s.records[id].ended && Delivers(p, [], all)
            case InTask(t) =>
              match s.tasks[t]
              case Loop(_, i, items) =>
                i == id && s.records[id].write == None && Delivers(p, items + s.records[id].q, all)
              case Closing(_) => Delivers(p, [], all)
  }

  /** `place` names exactly where each live half is. */
  ghost predicate Located(s: State) {
    && (forall w, p :: Holds(s, w, p) ==> w in s.pipes && w in s.hist.place && s.hist.place[w] == p)
    && (forall w :: w in s.hist.place ==> w in s.pipes)
    && (forall t :: t in s.tasks ==> t < s.next)
  }

  ghost predicate Identified(s: State) {
    forall id :: id in s.records ==> Served(s, id)
  }

  ghost predicate Served(s: State, id: Id) {
    && id in s.hist.halfOf && s.hist.halfOf[id] in s.pipes
    && Attached(s, s.hist.halfOf[id]) && s.hist.idOf[s.hist.halfOf[id]] == id
  }

  ghost predicate AllHalves(s: State) {
    forall w :: w in s.pipes ==> HalfInv(s, w)
  }

  ghost predicate Inv(s: State) {
    Located(s) && Identified(s) && AllHalves(s)
  }

  // ----- every step keeps it -----

  /** The half a step is about, if any. */
  ghost predicate Touches(s: State, e: Event, w: Half) {
    match e
    case Insert(_, v) => v == w
    case Write(id, _) => id in s.records && id in s.hist.halfOf && s.hist.halfOf[id] == w
    case Remove(id) => id in s.records && id in s.hist.halfOf && s.hist.halfOf[id] == w
    case _ => e.t in s.tasks && s.tasks[e.t].w == w
  }

  /** Everything `HalfInv` looks at for `w` is the same in both states. */
  ghost predicate SameSlice(s: State, s': State, w: Half)
    requires w in s.pipes && HalfInv(s, w)
  {
    var id := s.hist.idOf[w];
    && w in s'.pipes && s'.pipes[w] == s.pipes[w]
    && w in s'.hist.idOf && s'.hist.idOf[w] == id
    && w in s'.hist.accepted && s'.hist.accepted[w] == s.hist.accepted[w]
    && (w in s.hist.place <==> w in s'.hist.place)
    && (w in s.hist.place ==> s'.hist.place[w] == s.hist.place[w])
    && (w in s.hist.place && s.hist.place[w].InTask? ==>
        s.hist.place[w].t in s'.tasks && s'.tasks[s.hist.place[w].t] == s.tasks[s.hist.place[w].t])
    && (Attached(s, w) ==>
        && id in s'.records && s'.records[id] == s.records[id]
        && id in s'.hist.halfOf && s'.hist.halfOf[id] == w)
  }

  lemma FrameKept(s: State, s': State, w: Half)
    requires w in s.pipes && HalfInv(s, w) && SameSlice(s, s', w)
    ensures HalfInv(s', w)
  {
  }

  lemma MapStepSlice(s: State, e: Event, w: Half)
    requires Inv(s) && Enabled(s, e) && UnusedId(s, e) && w in s.pipes && !Touches(s, e, w)
    requires e.Insert? || e.Write? || e.Remove?
    ensures HalfInv(s, w) && SameSlice(s, Next(s, e), w)
  {
    assert HalfInv(s, w);
    match e
    case Insert(_, _) =>
    case Write(id, buf) => WriteSlice(s, id, buf, w);
    case Remove(id) => RemoveSlice(s, id, w);
  }

  lemma WriteSlice(s: State, id: Id, buf: Item, w: Half)
    requires Inv(s) && w in s.pipes && HalfInv(s, w)
    requires id in s.records ==> !(id in s.hist.halfOf && s.hist.halfOf[id] == w)
    ensures SameSlice(s, AfterWrite(s, id, buf), w)
  {
    UntouchedStands(s, id, w);
  }

  lemma RemoveSlice(s: State, id: Id, w: Half)
    requires Inv(s) && w in s.pipes && HalfInv(s, w)
    requires id in s.records ==> !(id in s.hist.halfOf && s.hist.halfOf[id] == w)
    ensures SameSlice(s, AfterRemove(s, id), w)
  {
    UntouchedStands(s, id, w);
  }

  /** The record of another half's id is not where `w` is. */
  lemma UntouchedStands(s: State, id: Id, w: Half)
    requires Inv(s) && w in s.pipes && HalfInv(s, w)
    requires id in s.records ==> !(id in s.hist.halfOf && s.hist.halfOf[id] == w)
    ensures id in s.records && Attached(s, w) ==> id != s.hist.idOf[w]
    ensures id in s.records && s.records[id].write.Some? ==>
              var h := s.records[id].write.value;
              h != w && h in s.hist.place && s.hist.place[h] == InRecord(id)
  {
    if id in s.records && s.records[id].write.Some? {
      assert Holds(s, s.records[id].write.value, InRecord(id));
      assert Served(s, id);
    }
  }

  lemma TaskStepSlice(s: State, e: Event, w: Half)
    requires Inv(s) && Enabled(s, e) && w in s.pipes && !Touches(s, e, w)
    requires e.Turn? || e.Send? || e.Fail? || e.Shut?
    ensures HalfInv(s, w) && SameSlice(s, Next(s, e), w)
  {
    assert HalfInv(s, w);
    assert Holds(s, s.tasks[e.t].w, InTask(e.t));
    assert HalfInv(s, s.tasks[e.t].w);
  }

  lemma OthersSlice(s: State, e: Event, w: Half)
    requires Inv(s) && Enabled(s, e) && UnusedId(s, e) && w in s.pipes && !Touches(s, e, w)
    ensures HalfInv(s, w) && SameSlice(s, Next(s, e), w)
  {
    if e.Insert? || e.Write? || e.Remove? {
      MapStepSlice(s, e, w);
    } else {
      TaskStepSlice(s, e, w);
    }
  }

  lemma OthersKept(s: State, e: Event, w: Half)
    requires Inv(s) && Enabled(s, e) && UnusedId(s, e) && w in s.pipes && !Touches(s, e, w)
    ensures w in Next(s, e).pipes && HalfInv(Next(s, e), w)
  {
    OthersSlice(s, e, w);
    FrameKept(s, Next(s, e), w);
  }

  lemma InsertedKept(s: State, id: Id, w: Half)
    requires Inv(s) && w !in s.pipes && id !in s.records
    ensures HalfInv(AfterInsert(s, id, w), w)
  {
  }

  lemma WrittenKept(s: State, id: Id, buf: Item)
    requires Inv(s) && id in s.records
    ensures Served(s, id) && HalfInv(AfterWrite(s, id, buf), s.hist.halfOf[id])
  {
    assert Served(s, id);
    var h := s.hist.halfOf[id];
    assert HalfInv(s, h);
    var q := s.records[id].q;
    var items := match s.hist.place[h] case InRecord(_) => [] case InTask(t) => s.tasks[t].items;
    DeliversOneMore(s.pipes[h], items + q, s.hist.accepted[h], buf);
    assert (items + q) + [buf] == items + (q + [buf]);
  }

  lemma DeliversOneMore(p: Pipe, pending: seq<Item>, all: seq<Item>, buf: Item)
    requires Delivers(p, pending, all)
    ensures Delivers(p, pending + [buf], all + [buf])
  {
    FlatSnoc(all, buf);
    FlatSnoc(pending, buf);
  }

  lemma RemovedKept(s: State, id: Id)
    requires Inv(s) && id in s.records
    ensures Served(s, id) && HalfInv(AfterRemove(s, id), s.hist.halfOf[id])
  {
    assert Served(s, id);
    assert HalfInv(s, s.hist.halfOf[id]);
  }

  lemma TurnedKept(s: State, t: TaskId)
    requires Inv(s) && Enabled(s, Turn(t))
    ensures s.tasks[t].w in s.pipes && HalfInv(AfterTurn(s, t), s.tasks[t].w)
  {
    var Loop(w, id, items) := s.tasks[t];
    assert Holds(s, w, InTask(t));
    assert HalfInv(s, w);
    var q := s.records[id].q;
    assert [] + q == q == q + [];
  }

  lemma DeliversSent(p: Pipe, items: seq<Item>, q: seq<Item>, all: seq<Item>, k: nat)
    requires items != [] && k <= |items[0]| && Delivers(p, items + q, all) && (p.broken ==> k == 0)
    ensures p.sent + items[0][..k] <= Flat(all)
    ensures k == |items[0]| ==> Delivers(p.(sent := p.sent + items[0]), items[1..] + q, all)
  {
    var rest := items[1..] + q;
    assert items + q == [items[0]] + rest;
    assert Flat([items[0]] + rest) == items[0] + Flat(rest);
    if p.broken {
      assert p.sent + items[0][..k] == p.sent;
    } else {
      assert p.sent + Flat(items + q) == (p.sent + items[0]) + Flat(rest);
      assert p.sent + items[0][..k] + (items[0][k..] + Flat(rest)) == p.sent + Flat(items + q);
    }
  }

  lemma SentKept(s: State, t: TaskId)
    requires Inv(s) && Enabled(s, Send(t))
    ensures HalfInv(Next(s, Send(t)), s.tasks[t].w)
  {
    var Loop(w, id, items) := s.tasks[t];
    assert Holds(s, w, InTask(t));
    assert HalfInv(s, w);
    DeliversSent(s.pipes[w], items, s.records[id].q, s.hist.accepted[w], |items[0]|);
  }

  lemma FailedKept(s: State, t: TaskId, k: nat)
    requires Inv(s) && Enabled(s, Fail(t, k))
    ensures HalfInv(Next(s, Fail(t, k)), s.tasks[t].w)
  {
    var Loop(w, id, items) := s.tasks[t];
    assert Holds(s, w, InTask(t));
    assert HalfInv(s, w);
    DeliversSent(s.pipes[w], items, s.records[id].q, s.hist.accepted[w], k);
  }

  lemma ShutKept(s: State, t: TaskId)
    requires Inv(s) && Enabled(s, Shut(t))
    ensures HalfInv(Next(s, Shut(t)), s.tasks[t].w)
  {
    assert Holds(s, s.tasks[t].w, InTask(t));
    assert HalfInv(s, s.tasks[t].w);
  }

  lemma StepKeepsHalves(s: State, e: Event)
    requires Inv(s) && Enabled(s, e) && UnusedId(s, e)
    ensures AllHalves(Next(s, e))
  {
    var s' := Next(s, e);
    forall w | w in s'.pipes ensures HalfInv(s', w) {
      if Touches(s, e, w) {
        match e
        case Insert(id, _) => InsertedKept(s, id, w);
        case Write(id, buf) => WrittenKept(s, id, buf);
        case Remove(id) => RemovedKept(s, id);
        case Turn(t) => TurnedKept(s, t);
        case Shut(t) => ShutKept(s, t);
        case Send(t) => SentKept(s, t);
        case Fail(t, k) => FailedKept(s, t, k);
      } else {
        OthersKept(s, e, w);
      }
    }
  }

  lemma InsertPlace(s: State, id: Id, v: Half, w: Half, p: Place)
    requires Inv(s) && v !in s.pipes && id !in s.records
    requires Holds(AfterInsert(s, id, v), w, p)
    ensures var s' := AfterInsert(s, id, v); w in s'.pipes && w in s'.hist.place && s'.hist.place[w] == p
  {
    if p != InRecord(id) { assert Holds(s, w, p); }
  }

  lemma WritePlace(s: State, id: Id, buf: Item, w: Half, p: Place)
    requires Inv(s) && Holds(AfterWrite(s, id, buf), w, p)
    ensures var s' := AfterWrite(s, id, buf); w in s'.pipes && w in s'.hist.place && s'.hist.place[w] == p
  {
    if id in s.records && s.records[id].write.Some? {
      assert Holds(s, s.records[id].write.value, InRecord(id));
    }
    if p != InTask(s.next) { assert Holds(s, w, p); }
  }

  lemma RemovePlace(s: State, id: Id, w: Half, p: Place)
    requires Inv(s) && Holds(AfterRemove(s, id), w, p)
    ensures var s' := AfterRemove(s, id); w in s'.pipes && w in s'.hist.place && s'.hist.place[w] == p
  {
    if id in s.records && s.records[id].write.Some? {
      assert Holds(s, s.records[id].write.value, InRecord(id));
    }
    if p != InTask(s.next) { assert Holds(s, w, p); }
  }

  lemma TaskStepPlace(s: State, e: Event, w: Half, p: Place)
    requires Inv(s) && Enabled(s, e) && Holds(Next(s, e), w, p)
    requires e.Turn? || e.Send? || e.Fail? || e.Shut?
    ensures w in Next(s, e).pipes && w in Next(s, e).hist.place && Next(s, e).hist.place[w] == p
  {
    assert Holds(s, s.tasks[e.t].w, InTask(e.t));
    if e.Turn? {
      TurnPlace(s, e.t, w, p);
    } else {
      assert Holds(s, w, p);
    }
  }

  lemma TurnPlace(s: State, t: TaskId, w: Half, p: Place)
    requires Inv(s) && Enabled(s, Turn(t)) && Holds(AfterTurn(s, t), w, p)
    ensures w in AfterTurn(s, t).pipes && w in AfterTurn(s, t).hist.place && AfterTurn(s, t).hist.place[w] == p
  {
    assert Holds(s, s.tasks[t].w, InTask(t));
    match p
    case InTask(u) => assert Holds(s, w, p);
    case InRecord(id) =>
      if id != s.tasks[t].id {
        assert Holds(s, w, p);
      } else {
        assert HalfInv(s, s.tasks[t].w);
      }
  }

  lemma StepPlace(s: State, e: Event, w: Half, p: Place)
    requires Inv(s) && Enabled(s, e) && UnusedId(s, e) && Holds(Next(s, e), w, p)
    ensures w in Next(s, e).pipes && w in Next(s, e).hist.place && Next(s, e).hist.place[w] == p
  {
    match e
    case Insert(id, v) => InsertPlace(s, id, v, w, p);
    case Write(id, buf) => WritePlace(s, id, buf, w, p);
    case Remove(id) => RemovePlace(s, id, w, p);
    case _ => TaskStepPlace(s, e, w, p);
  }

  lemma StepKeepsPlaces(s: State, e: Event)
    requires Inv(s) && Enabled(s, e) && UnusedId(s, e)
    ensures Located(Next(s, e))
  {
    var s' := Next(s, e);
    forall w, p | Holds(s', w, p) ensures w in s'.pipes && w in s'.hist.place && s'.hist.place[w] == p {
      StepPlace(s, e, w, p);
    }
    PlacedHaveHalves(s, e);
    TasksAreNumbered(s, e);
  }

  lemma PlacedHaveHalves(s: State, e: Event)
    requires Inv(s) && Enabled(s, e)
    ensures forall w :: w in Next(s, e).hist.place ==> w in Next(s, e).pipes
  {
    if e.Turn? {
      assert Holds(s, s.tasks[e.t].w, InTask(e.t));
    }
    if (e.Write? || e.Remove?) && e.id in s.records && s.records[e.id].write.Some? {
      assert Holds(s, s.records[e.id].write.value, InRecord(e.id));
    }
  }

  lemma TasksAreNumbered(s: State, e: Event)
    requires Inv(s) && Enabled(s, e)
    ensures forall t :: t in Next(s, e).tasks ==> t < Next(s, e).next
  {
    TasksStayNumbered(s, e);
  }

  lemma TasksStayNumbered(s: State, e: Event)
    requires Enabled(s, e) && forall t :: t in s.tasks ==> t < s.next
    ensures forall t :: t in Next(s, e).tasks ==> t < Next(s, e).next
  {
  }

  lemma StepKeepsIds(s: State, e: Event)
    requires Inv(s) && Enabled(s, e) && UnusedId(s, e)
    ensures Identified(Next(s, e))
  {
    forall id | id in Next(s, e).records ensures Served(Next(s, e), id) {
      match e
      case Insert(i, v) => if id != i { StillServed(s, e, id); }
      case Write(i, _) => if id == i { ServedAfterWrite(s, id, e.buf); } else { StillServed(s, e, id); }
      case Remove(i) => if id == i { ServedAfterRemove(s, id); } else { StillServed(s, e, id); }
      case _ => if s.tasks[e.t].Loop? && s.tasks[e.t].id == id { ServedAfterStep(s, e, id); } else { StillServed(s, e, id); }
    }
  }

  lemma StillServed(s: State, e: Event, id: Id)
    requires Inv(s) && Enabled(s, e) && UnusedId(s, e) && id in Next(s, e).records
    requires e.Insert? || e.Write? || e.Remove? ==> e.id != id
    requires e.Turn? || e.Send? || e.Fail? || e.Shut? ==> !(s.tasks[e.t].Loop? && s.tasks[e.t].id == id)
    ensures Served(Next(s, e), id)
  {
    assert id in s.records && Served(s, id);
    var h := s.hist.halfOf[id];
    assert HalfInv(s, h);
    assert !Touches(s, e, h) by { NotTouched(s, e, id); }
    OthersSlice(s, e, h);
  }

  /** A step about another id, record or loop is not about the half of `id`. */
  lemma NotTouched(s: State, e: Event, id: Id)
    requires Inv(s) && Enabled(s, e) && id in s.records
    requires e.Insert? || e.Write? || e.Remove? ==> e.id != id
    requires e.Turn? || e.Send? || e.Fail? || e.Shut? ==> !(s.tasks[e.t].Loop? && s.tasks[e.t].id == id)
    ensures id in s.hist.halfOf && !Touches(s, e, s.hist.halfOf[id])
  {
    assert Served(s, id);
    match e
    case Insert(_, _) =>
    case Write(i, _) => assert i in s.records ==> Served(s, i);
    case Remove(i) => assert i in s.records ==> Served(s, i);
    case _ => assert Holds(s, s.tasks[e.t].w, InTask(e.t));
  }

  lemma ServedAfterWrite(s: State, id: Id, buf: Item)
    requires Inv(s) && id in s.records
    ensures Served(AfterWrite(s, id, buf), id)
  {
    assert Served(s, id);
    assert HalfInv(s, s.hist.halfOf[id]);
    if s.records[id].write.Some? { assert Holds(s, s.records[id].write.value, InRecord(id)); }
  }

  lemma ServedAfterRemove(s: State, id: Id)
    requires Inv(s) && id in AfterRemove(s, id).records
    ensures Served(AfterRemove(s, id), id)
  {
    assert Served(s, id);
    assert HalfInv(s, s.hist.halfOf[id]);
  }

  lemma ServedAfterStep(s: State, e: Event, id: Id)
    requires Inv(s) && Enabled(s, e) && (e.Turn? || e.Send? || e.Fail?)
    requires s.tasks[e.t].Loop? && s.tasks[e.t].id == id && id in Next(s, e).records
    ensures Served(Next(s, e), id)
  {
    LoopServes(s, e.t);
    assert Served(s, id);
  }

  lemma StepKeepsInv(s: State, e: Event)
    requires Inv(s) && Enabled(s, e) && UnusedId(s, e)
    ensures Inv(Next(s, e))
  {
    StepKeepsHalves(s, e);
    StepKeepsPlaces(s, e);
    StepKeepsIds(s, e);
  }

  // ----- whole runs -----

  ghost predicate Run(s: State, trace: seq<Event>, s': State)
    decreases trace
  {
    if trace == [] then s == s'
    else Enabled(s, trace[0]) && UnusedId(s, trace[0]) && Run(Next(s, trace[0]), trace[1..], s')
  }

  lemma {:induction false} RunKeepsInv(s: State, trace: seq<Event>, s': State)
    requires Inv(s) && Run(s, trace, s')
    ensures Inv(s')
    decreases trace
  {
    if trace != [] {
      StepKeepsInv(s, trace[0]);
      RunKeepsInv(Next(s, trace[0]), trace[1..], s');
    }
  }

  /** Ownership: a half is in at most one record or task; it is in none exactly when it was shut
      down, which happens once. */
  lemma OneOwner(trace: seq<Event>, s: State, w: Half)
    requires Run(Init, trace, s) && w in s.pipes
    ensures forall p, p' :: Holds(s, w, p) && Holds(s, w, p') ==> p == p'
    ensures s.pipes[w].shut <= 1
    ensures s.pipes[w].shut == 1 <==> forall p :: !Holds(s, w, p)
  {
    RunKeepsInv(Init, trace, s);
    assert HalfInv(s, w);
  }

  /** A record holding its half has nothing queued and no end pending; one without it is served by
      exactly one running loop, so no loop ever finds its record missing. */
  lemma RecordsAndLoops(trace: seq<Event>, s: State)
    requires Run(Init, trace, s)
    ensures forall id :: id in s.records && s.records[id].write.Some? ==>
              s.records[id].q == [] && !s.records[id].ended
    ensures forall id :: id in s.records && s.records[id].write.None? ==>
              exists t :: t in s.tasks && s.tasks[t].Loop? && s.tasks[t].id == id
    ensures forall t :: t in s.tasks && s.tasks[t].Loop? ==>
              s.tasks[t].id in s.records && s.records[s.tasks[t].id].write.None?
    ensures forall t, t' :: t in s.tasks && t' in s.tasks && s.tasks[t].Loop? && s.tasks[t'].Loop? ==>
              s.tasks[t].id == s.tasks[t'].id ==> t == t'
  {
    RunKeepsInv(Init, trace, s);
    forall id | id in s.records
      ensures s.records[id].write.Some? ==> s.records[id].q == [] && !s.records[id].ended
      ensures s.records[id].write.None? ==> exists t :: t in s.tasks && s.tasks[t].Loop? && s.tasks[t].id == id
    {
      RecordServed(s, id);
    }
    forall t | t in s.tasks && s.tasks[t].Loop?
      ensures s.tasks[t].id in s.records && s.records[s.tasks[t].id].write.None?
      ensures s.tasks[t].id in s.hist.halfOf && s.hist.place[s.hist.halfOf[s.tasks[t].id]] == InTask(t)
    {
      LoopServes(s, t);
    }
  }

  lemma RecordServed(s: State, id: Id)
    requires Inv(s) && id in s.records
    ensures Served(s, id)
    ensures s.records[id].write.Some? ==> s.records[id].q == [] && !s.records[id].ended
    ensures s.records[id].write.None? ==>
              var w := s.hist.halfOf[id];
              w in s.hist.place && s.hist.place[w].InTask? && s.hist.place[w].t in s.tasks
              && s.tasks[s.hist.place[w].t].Loop? && s.tasks[s.hist.place[w].t].id == id
  {
    assert Served(s, id);
    assert HalfInv(s, s.hist.halfOf[id]);
    if s.records[id].write.Some? {
      assert Holds(s, s.records[id].write.value, InRecord(id));
      assert HalfInv(s, s.records[id].write.value);
    }
  }

  lemma LoopServes(s: State, t: TaskId)
    requires Inv(s) && t in s.tasks && s.tasks[t].Loop?
    ensures s.tasks[t].id in s.records && s.records[s.tasks[t].id].write.None?
    ensures s.tasks[t].id in s.hist.halfOf && s.hist.halfOf[s.tasks[t].id] == s.tasks[t].w
    ensures s.tasks[t].w in s.hist.place && s.hist.place[s.tasks[t].w] == InTask(t)
  {
    assert Holds(s, s.tasks[t].w, InTask(t));
    assert HalfInv(s, s.tasks[t].w);
  }

  /** The batch a running loop has taken and not yet written. */
  ghost function InFlight(s: State, w: Half): seq<Item> {
    if w in s.hist.place && s.hist.place[w].InTask? && s.hist.place[w].t in s.tasks
       && s.tasks[s.hist.place[w].t].Loop?
    then s.tasks[s.hist.place[w].t].items else []
  }

  /** The writes waiting in the record that `w` is the half of. */
  ghost function Queued(s: State, w: Half): seq<Item> {
    if Attached(s, w) && s.hist.idOf[w] in s.records then s.records[s.hist.idOf[w]].q else []
  }

  lemma PendingDelivery(s: State, w: Half)
    requires Inv(s) && w in s.pipes
    ensures w in s.hist.accepted && Delivers(s.pipes[w], InFlight(s, w) + Queued(s, w), s.hist.accepted[w])
  {
    assert HalfInv(s, w);
    ConcatNil(Queued(s, w));
  }

  lemma {:induction false} DeliversSplit(p: Pipe, items: seq<Item>, q: seq<Item>, all: seq<Item>)
    requires Delivers(p, items + q, all)
    ensures !p.broken ==> p.sent + Flat(items) + Flat(q) == Flat(all)
    ensures p.sent <= Flat(all)
  {
    FlatConcat(items, q);
    ConcatAssoc(p.sent, Flat(items), Flat(q));
  }

  /** Nothing accepted is lost, repeated or reordered. */
  lemma Delivery(trace: seq<Event>, s: State, w: Half)
    requires Run(Init, trace, s) && w in s.pipes
    ensures w in s.hist.accepted
    ensures var p, all := s.pipes[w], Flat(s.hist.accepted[w]);
      && (!p.broken ==> p.sent + Flat(InFlight(s, w)) + Flat(Queued(s, w)) == all)
      && (!p.broken && p.shut > 0 ==> p.sent == all)
      && p.sent <= all
  {
    RunKeepsInv(Init, trace, s);
    PendingDelivery(s, w);
    ShutMeansDelivered(s, w);
    DeliversSplit(s.pipes[w], InFlight(s, w), Queued(s, w), s.hist.accepted[w]);
  }

  /** What counts as accepted: every write to an id that has a record, also one marked ended, adds its
      buffer for the half last inserted under the id, and to the queue of the record. */
  lemma WritesAreAccepted(trace: seq<Event>, s: State, id: Id, buf: Item)
    requires Run(Init, trace, s) && id in s.records
    ensures id in s.hist.halfOf && s.hist.halfOf[id] in s.hist.accepted
    ensures var s', w := Next(s, Write(id, buf)), s.hist.halfOf[id];
      && s'.hist.accepted == s.hist.accepted[w := s.hist.accepted[w] + [buf]]
      && id in s'.records && s'.records[id].q == s.records[id].q + [buf] && s'.records[id].ended == s.records[id].ended
  {
    RunKeepsInv(Init, trace, s);
    WriteIsAccepted(s, id, buf);
  }

  lemma WriteIsAccepted(s: State, id: Id, buf: Item)
    requires Inv(s) && id in s.records
    ensures id in s.hist.halfOf && s.hist.halfOf[id] in s.hist.accepted
    ensures var s', w := Next(s, Write(id, buf)), s.hist.halfOf[id];
      && s'.hist.accepted == s.hist.accepted[w := s.hist.accepted[w] + [buf]]
      && id in s'.records && s'.records[id].q == s.records[id].q + [buf] && s'.records[id].ended == s.records[id].ended
  {
    RecordServed(s, id);
    assert HalfInv(s, s.hist.halfOf[id]);
  }

  /** Nothing else is accepted: not a write to an id without a record, and no other step. */
  lemma NothingElseIsAccepted(s: State, e: Event)
    requires Enabled(s, e)
    ensures e.Write? && e.id !in s.records ==> Next(s, e) == s
    ensures e.Insert? ==> Next(s, e).hist.accepted == s.hist.accepted[e.w := []]
    ensures !e.Write? && !e.Insert? ==> Next(s, e).hist.accepted == s.hist.accepted
  {
  }

  /** What a trace alone says was offered to stream `id`: the writes up to its first `Remove`. */
  ghost function Offered(trace: seq<Event>, id: Id): seq<Item> {
    if trace == [] || trace[0] == Remove(id) then []
    else OfferedBy(trace[0], id) + Offered(trace[1..], id)
  }

  ghost function OfferedBy(e: Event, id: Id): seq<Item> {
    if e.Write? && e.id == id then [e.buf] else []
  }

  /** The record of `id` is open and `w` is its half. */
  ghost predicate Open(s: State, id: Id, w: Half) {
    id in s.records && !s.records[id].ended && id in s.hist.halfOf && s.hist.halfOf[id] == w
  }

  lemma AcceptedGrows(s: State, e: Event, w: Half)
    requires Enabled(s, e) && w in s.pipes && w in s.hist.accepted
    ensures w in Next(s, e).pipes && w in Next(s, e).hist.accepted
    ensures s.hist.accepted[w] <= Next(s, e).hist.accepted[w]
  {
  }

  lemma OpenStep(s: State, e: Event, id: Id, w: Half)
    requires Inv(s) && Enabled(s, e) && UnusedId(s, e) && w in s.hist.accepted && Open(s, id, w) && e != Remove(id)
    ensures Open(Next(s, e), id, w) && w in Next(s, e).hist.accepted
    ensures Next(s, e).hist.accepted[w] == s.hist.accepted[w] + OfferedBy(e, id)
  {
    match e
    case Insert(i, v) => OpenInsert(s, i, v, id, w);
    case Write(i, buf) => OpenWrite(s, i, buf, id, w);
    case Remove(i) => OpenRemove(s, i, id, w);
    case Turn(t) => OpenTurn(s, t, id, w);
    case _ => assert s.hist.accepted[w] + [] == s.hist.accepted[w];
  }

  lemma OpenInsert(s: State, i: Id, v: Half, id: Id, w: Half)
    requires Inv(s) && w in s.hist.accepted && Open(s, id, w) && i !in s.records && v !in s.pipes
    ensures Open(AfterInsert(s, i, v), id, w)
    ensures w in AfterInsert(s, i, v).hist.accepted
    ensures AfterInsert(s, i, v).hist.accepted[w] == s.hist.accepted[w] + []
  {
    assert Served(s, id);
  }

  lemma OpenRemove(s: State, i: Id, id: Id, w: Half)
    requires w in s.hist.accepted && Open(s, id, w) && i != id
    ensures Open(AfterRemove(s, i), id, w)
    ensures AfterRemove(s, i).hist.accepted == s.hist.accepted && s.hist.accepted[w] == s.hist.accepted[w] + []
  {
  }

  lemma OpenTurn(s: State, t: TaskId, id: Id, w: Half)
    requires Enabled(s, Turn(t)) && w in s.hist.accepted && Open(s, id, w)
    ensures Open(AfterTurn(s, t), id, w)
    ensures AfterTurn(s, t).hist.accepted == s.hist.accepted && s.hist.accepted[w] == s.hist.accepted[w] + []
  {
  }

  lemma OpenWrite(s: State, i: Id, buf: Item, id: Id, w: Half)
    requires Inv(s) && w in s.hist.accepted && Open(s, id, w)
    ensures var s' := AfterWrite(s, i, buf);
      Open(s', id, w) && w in s'.hist.accepted && s'.hist.accepted[w] == s.hist.accepted[w] + OfferedBy(Write(i, buf), id)
  {
    assert Served(s, id);
    assert s.hist.accepted[w] + [] == s.hist.accepted[w];
    if i in s.records { assert Served(s, i); }
  }

  lemma {:induction false} GrowsOverRun(s: State, trace: seq<Event>, s': State, w: Half)
    requires Run(s, trace, s') && w in s.pipes && w in s.hist.accepted
    ensures w in s'.pipes && w in s'.hist.accepted && s.hist.accepted[w] <= s'.hist.accepted[w]
    decreases trace
  {
    if trace != [] {
      AcceptedGrows(s, trace[0], w);
      GrowsOverRun(Next(s, trace[0]), trace[1..], s', w);
    }
  }

  lemma {:induction false} OpenRun(s: State, trace: seq<Event>, s': State, id: Id, w: Half)
    requires Inv(s) && Run(s, trace, s') && w in s.pipes && w in s.hist.accepted && Open(s, id, w)
    ensures w in s'.hist.accepted && s.hist.accepted[w] + Offered(trace, id) <= s'.hist.accepted[w]
    ensures Remove(id) !in trace ==> Open(s', id, w)
    decreases trace
  {
    if trace == [] {
      assert s.hist.accepted[w] + [] == s.hist.accepted[w];
    } else if trace[0] == Remove(id) {
      assert s.hist.accepted[w] + [] == s.hist.accepted[w];
      GrowsOverRun(s, trace, s', w);
    } else {
      var s1 := Next(s, trace[0]);
      OpenStep(s, trace[0], id, w);
      AcceptedGrows(s, trace[0], w);
      StepKeepsInv(s, trace[0]);
      OpenRun(s1, trace[1..], s', id, w);
      ConcatAssoc(s.hist.accepted[w], OfferedBy(trace[0], id), Offered(trace[1..], id));
    }
  }

  /** End to end, in terms of the trace alone: once a stream inserted after `before` has been shut down
      with no write failure, the far end has seen every buffer offered before the first `Remove`, in
      order, first; and a stream nobody removes is never shut down. */
  lemma OfferedArrives(before: seq<Event>, s0: State, id: Id, w: Half, after: seq<Event>, s: State)
    requires Run(Init, before, s0) && Enabled(s0, Insert(id, w)) && UnusedId(s0, Insert(id, w))
    requires Run(Next(s0, Insert(id, w)), after, s)
    ensures w in s.pipes
    ensures s.pipes[w].shut > 0 && !s.pipes[w].broken ==> Flat(Offered(after, id)) <= s.pipes[w].sent
    ensures Remove(id) !in after ==> s.pipes[w].shut == 0
  {
    var s1 := Next(s0, Insert(id, w));
    InvOverInsert(before, s0, id, w, after, s);
    GrowsOverRun(s1, after, s, w);
    OpenRun(s1, after, s, id, w);
    ShutMeansDelivered(s, w);
    if Remove(id) !in after { OpenIsNotShut(s, id, w); }
    PrefixFlat(Offered(after, id), s.hist.accepted[w]);
  }

  lemma PrefixFlat(a: seq<Item>, b: seq<Item>)
    ensures [] + a <= b ==> Flat(a) <= Flat(b)
  {
    if [] + a <= b {
      assert b == a + b[|a|..];
      FlatConcat(a, b[|a|..]);
    }
  }

  lemma InvOverInsert(before: seq<Event>, s0: State, id: Id, w: Half, after: seq<Event>, s: State)
    requires Run(Init, before, s0) && Enabled(s0, Insert(id, w)) && UnusedId(s0, Insert(id, w))
    requires Run(Next(s0, Insert(id, w)), after, s)
    ensures Inv(Next(s0, Insert(id, w))) && Inv(s)
  {
    RunKeepsInv(Init, before, s0);
    StepKeepsInv(s0, Insert(id, w));
    RunKeepsInv(Next(s0, Insert(id, w)), after, s);
  }

  lemma OpenIsNotShut(s: State, id: Id, w: Half)
    requires Inv(s) && Open(s, id, w)
    ensures w in s.pipes && s.pipes[w].shut == 0
  {
    assert Served(s, id);
    assert HalfInv(s, w);
  }

  lemma ShutMeansDelivered(s: State, w: Half)
    requires Inv(s) && w in s.pipes
    ensures w in s.hist.accepted
    ensures var p := s.pipes[w];
      && (p.shut > 0 ==> !Attached(s, w))
      && (p.shut > 0 && !p.broken ==> p.sent == Flat(s.hist.accepted[w]))
  {
    assert HalfInv(s, w);
  }

  // ----- the deferred close happens -----

  /** No way back: half `w` is not a record's any more, or the record is marked `ended`. */
  ghost predicate Ending(s: State, w: Half) {
    Attached(s, w) ==> s.hist.idOf[w] in s.records && s.records[s.hist.idOf[w]].ended
  }

  /** Steps left for the task that owns half `w`. */
  ghost function Measure(s: State, w: Half): nat {
    if w !in s.hist.place then 0
    else match s.hist.place[w]
      case InRecord(_) => 0
      case InTask(t) =>
        if t in s.tasks && s.tasks[t].Loop? then 2 + |s.tasks[t].items| + 2 * |Queued(s, w)| else 1
  }

  /** Event `e` is a step of the task that owns half `w`. */
  ghost predicate Serves(s: State, e: Event, w: Half) {
    (e.Turn? || e.Send? || e.Fail? || e.Shut?) && e.t in s.tasks && s.tasks[e.t].w == w
  }

  /** Event `e` is one more write for half `w`. */
  ghost predicate LateWrite(s: State, e: Event, w: Half) {
    e.Write? && Attached(s, w) && e.id == s.hist.idOf[w]
  }

  lemma ServingStep(s: State, e: Event, w: Half)
    requires Inv(s) && Enabled(s, e) && w in s.pipes && Ending(s, w) && Serves(s, e, w)
    ensures w in Next(s, e).pipes && Ending(Next(s, e), w) && Measure(Next(s, e), w) < Measure(s, w)
  {
    assert Holds(s, w, InTask(e.t));
    assert HalfInv(s, w);
  }

  lemma SliceMeasure(s: State, s': State, w: Half)
    requires w in s.pipes && HalfInv(s, w) && SameSlice(s, s', w) && Ending(s, w)
    ensures Ending(s', w) && Measure(s', w) == Measure(s, w)
  {
  }

  lemma LateMapStep(s: State, e: Event, w: Half)
    requires Inv(s) && w in s.pipes && Ending(s, w) && (e.Write? || e.Remove?) && Touches(s, e, w)
    ensures w in Next(s, e).pipes && Ending(Next(s, e), w)
    ensures Measure(Next(s, e), w) <= Measure(s, w) + (if LateWrite(s, e, w) then 2 else 0)
  {
    RecordServed(s, e.id);
    assert HalfInv(s, w);
  }

  lemma OtherStep(s: State, e: Event, w: Half)
    requires Inv(s) && Enabled(s, e) && UnusedId(s, e) && w in s.pipes && Ending(s, w) && !Serves(s, e, w)
    ensures w in Next(s, e).pipes && Ending(Next(s, e), w)
    ensures Measure(Next(s, e), w) <= Measure(s, w) + (if LateWrite(s, e, w) then 2 else 0)
  {
    if Touches(s, e, w) {
      LateMapStep(s, e, w);
    } else {
      OthersSlice(s, e, w);
      SliceMeasure(s, Next(s, e), w);
    }
  }

  ghost function ServingSteps(s: State, trace: seq<Event>, w: Half): nat
    decreases trace
  {
    if trace == [] || !Enabled(s, trace[0]) then 0
    else (if Serves(s, trace[0], w) then 1 else 0) + ServingSteps(Next(s, trace[0]), trace[1..], w)
  }

  ghost function LateWrites(s: State, trace: seq<Event>, w: Half): nat
    decreases trace
  {
    if trace == [] || !Enabled(s, trace[0]) then 0
    else (if LateWrite(s, trace[0], w) then 1 else 0) + LateWrites(Next(s, trace[0]), trace[1..], w)
  }

  lemma {:induction false} EndingRun(s: State, trace: seq<Event>, s': State, w: Half)
    requires Inv(s) && Run(s, trace, s') && w in s.pipes && Ending(s, w)
    ensures Inv(s') && w in s'.pipes && Ending(s', w)
    ensures ServingSteps(s, trace, w) + Measure(s', w) <= Measure(s, w) + 2 * LateWrites(s, trace, w)
    decreases trace
  {
    if trace != [] {
      if Serves(s, trace[0], w) { ServingStep(s, trace[0], w); } else { OtherStep(s, trace[0], w); }
      StepKeepsInv(s, trace[0]);
      EndingRun(Next(s, trace[0]), trace[1..], s', w);
    }
  }

  lemma NotDoneCanStep(s: State, w: Half) returns (e: Event)
    requires w in s.pipes && HalfInv(s, w) && Ending(s, w)
    ensures s.pipes[w].shut == 1 || (Enabled(s, e) && Serves(s, e, w))
  {
    e := Remove(0);
    if w in s.hist.place && s.hist.place[w].InTask? {
      var t := s.hist.place[w].t;
      if s.tasks[t].Closing? {
        e := Shut(t);
      } else if s.tasks[t].items == [] {
        e := Turn(t);
      } else if s.pipes[w].broken && s.tasks[t].items[0] != [] {
        e := Fail(t, 0);
      } else {
        e := Send(t);
      }
    }
  }

  /** Deferred close: from a reachable state in which the record of `w` is marked `ended`, the owning
      task takes at most `Measure` steps plus two per late write, whatever else runs; and when it has
      no step left the half was shut down once, with everything accepted delivered. */
  lemma EndedStreamCloses(past: seq<Event>, s: State, trace: seq<Event>, s': State, w: Half)
    requires Run(Init, past, s) && Run(s, trace, s') && w in s.pipes && Ending(s, w)
    ensures ServingSteps(s, trace, w) <= Measure(s, w) + 2 * LateWrites(s, trace, w)
    ensures (forall e :: Enabled(s', e) ==> !Serves(s', e, w)) ==> ClosedInFull(s', w)
  {
    RunKeepsInv(Init, past, s);
    EndingCloses(s, trace, s', w);
  }

  /** The same from the call that closes it: after `Remove` of a stream, whatever follows and however
      much was in flight or queued, the stream is closed once its owner has no step left. */
  lemma RemovedStreamCloses(past: seq<Event>, s: State, trace: seq<Event>, s': State, id: Id)
    requires Run(Init, past, s) && id in s.records && Run(Next(s, Remove(id)), trace, s')
    ensures id in s.hist.halfOf
    ensures var s1, w := Next(s, Remove(id)), s.hist.halfOf[id];
      && ServingSteps(s1, trace, w) <= Measure(s1, w) + 2 * LateWrites(s1, trace, w)
      && ((forall e :: Enabled(s', e) ==> !Serves(s', e, w)) ==> ClosedInFull(s', w))
  {
    RunKeepsInv(Init, past, s);
    StepKeepsInv(s, Remove(id));
    RemoveEnds(s, id);
    EndingCloses(Next(s, Remove(id)), trace, s', s.hist.halfOf[id]);
  }

  lemma RemoveEnds(s: State, id: Id)
    requires Inv(s) && id in s.records
    ensures id in s.hist.halfOf && s.hist.halfOf[id] in Next(s, Remove(id)).pipes
    ensures Ending(Next(s, Remove(id)), s.hist.halfOf[id])
  {
    RecordServed(s, id);
    assert HalfInv(s, s.hist.halfOf[id]);
  }

  /** Nobody has the half, and it was shut down once with everything accepted delivered. */
  ghost predicate ClosedInFull(s: State, w: Half) {
    && w in s.pipes && w in s.hist.accepted && (forall p :: !Holds(s, w, p))
    && s.pipes[w].shut == 1 && (!s.pipes[w].broken ==> s.pipes[w].sent == Flat(s.hist.accepted[w]))
  }

  lemma EndingCloses(s: State, trace: seq<Event>, s': State, w: Half)
    requires Inv(s) && Run(s, trace, s') && w in s.pipes && Ending(s, w)
    ensures ServingSteps(s, trace, w) <= Measure(s, w) + 2 * LateWrites(s, trace, w)
    ensures (forall e :: Enabled(s', e) ==> !Serves(s', e, w)) ==> ClosedInFull(s', w)
  {
    EndingRun(s, trace, s', w);
    ShutMeansDelivered(s', w);
    assert HalfInv(s', w);
    var e := NotDoneCanStep(s', w);
  }

  // ----- when an insert loses a half -----

  /** Nobody has the half any more and nobody shut it down: its far end waits for ever. */
  ghost predicate Lost(s: State, w: Half) {
    w in s.pipes && s.pipes[w].shut == 0 && forall p :: !Holds(s, w, p)
  }

  /** An insert is safe exactly when its id has no record: then no half is ever lost, however the run
      goes on with such inserts, and otherwise there is a way to go on that loses one. An id whose
      earlier stream is closed, or is only waiting for its shutdown, may be used again. */
  lemma InsertIsSafeIffUnused(past: seq<Event>, s: State, id: Id, w: Half)
    requires Run(Init, past, s) && w !in s.pipes
    ensures id !in s.records <==> NeverLoses(Next(s, Insert(id, w)))
  {
    RunKeepsInv(Init, past, s);
    if id in s.records {
      var trace, s', h := InsertCanLose(s, id, w);
    } else {
      StepKeepsInv(s, Insert(id, w));
      NoneLost(Next(s, Insert(id, w)));
    }
  }

  /** No run from here, with inserts under unused ids, loses any half. */
  ghost predicate NeverLoses(s: State) {
    forall trace, s', h :: Run(s, trace, s') ==> !Lost(s', h)
  }

  lemma NoneLost(s: State)
    requires Inv(s)
    ensures NeverLoses(s)
  {
    forall trace, s', h | Run(s, trace, s') ensures !Lost(s', h) {
      RunKeepsInv(s, trace, s');
      if h in s'.pipes {
        assert HalfInv(s', h);
        assert h in s'.hist.place ==> Holds(s', h, s'.hist.place[h]);
      }
    }
  }

  lemma InsertCanLose(s: State, id: Id, w: Half) returns (trace: seq<Event>, s': State, h: Half)
    requires Inv(s) && id in s.records && w !in s.pipes
    ensures Run(Next(s, Insert(id, w)), trace, s') && Lost(s', h)
  {
    RecordServed(s, id);
    var s1 := Next(s, Insert(id, w));
    match s.records[id].write
    case Some(v) =>
      trace, s', h := [], s1, v;
      OverwrittenIsLost(s, id, w, v);
    case None =>
      h := w;
      var t := s.hist.place[s.hist.halfOf[id]].t;
      InsertDooms(s, id, w, t);
      trace, s' := DoomedIsLost(s1, t, id, w);
  }

  /** The half in the record is dropped at once. */
  lemma OverwrittenIsLost(s: State, id: Id, w: Half, v: Half)
    requires Inv(s) && id in s.records && s.records[id].write == Some(v) && w !in s.pipes
    ensures Lost(AfterInsert(s, id, w), v)
  {
    assert Holds(s, v, InRecord(id));
    assert HalfInv(s, v);
    forall p ensures !Holds(AfterInsert(s, id, w), v, p) {
      if p != InRecord(id) { assert !Holds(s, v, p); }
    }
  }

  /** A loop for `id` still runs with another half, and half `w` is only in the record. */
  ghost predicate Doomed(s: State, t: TaskId, id: Id, w: Half) {
    && t in s.tasks && s.tasks[t].Loop? && s.tasks[t].id == id && s.tasks[t].w != w && s.tasks[t].w in s.pipes
    && id in s.records && s.records[id] == Rec(Some(w), [], false)
    && w in s.pipes && s.pipes[w].shut == 0
    && forall p :: Holds(s, w, p) ==> p == InRecord(id)
  }

  lemma InsertDooms(s: State, id: Id, w: Half, t: TaskId)
    requires Inv(s) && id in s.records && w !in s.pipes
    requires t in s.tasks && s.tasks[t].Loop? && s.tasks[t].id == id
    ensures Doomed(AfterInsert(s, id, w), t, id, w)
  {
    assert Holds(s, s.tasks[t].w, InTask(t));
    forall p | Holds(AfterInsert(s, id, w), w, p) ensures p == InRecord(id) {
      assert !Holds(s, w, p);
    }
  }

  /** The loop finishes its batch, finds the queue of the new record empty, and puts its own half there. */
  lemma {:induction false} DoomedIsLost(s: State, t: TaskId, id: Id, w: Half) returns (trace: seq<Event>, s': State)
    requires Doomed(s, t, id, w)
    ensures Run(s, trace, s') && Lost(s', w)
    decreases if t in s.tasks && s.tasks[t].Loop? then |s.tasks[t].items| else 0
  {
    var e;
    if s.tasks[t].items == [] {
      e := Turn(t);
      DoomedTurn(s, t, id, w);
      trace, s' := [], Next(s, e);
    } else {
      e := if s.pipes[s.tasks[t].w].broken && s.tasks[t].items[0] != [] then Fail(t, 0) else Send(t);
      DoomedItem(s, e, t, id, w);
      trace, s' := DoomedIsLost(Next(s, e), t, id, w);
    }
    trace := [e] + trace;
    assert trace[1..] == trace[1..] && ([e] + trace[1..])[1..] == trace[1..];
  }

  lemma DoomedTurn(s: State, t: TaskId, id: Id, w: Half)
    requires Doomed(s, t, id, w) && s.tasks[t].items == []
    ensures Lost(Next(s, Turn(t)), w)
  {
    forall p ensures !Holds(Next(s, Turn(t)), w, p) {
      if p != InRecord(id) { assert !Holds(s, w, p); }
    }
  }

  lemma DoomedItem(s: State, e: Event, t: TaskId, id: Id, w: Half)
    requires Doomed(s, t, id, w) && Enabled(s, e) && (e == Send(t) || e == Fail(t, 0))
    ensures Doomed(Next(s, e), t, id, w) && |Next(s, e).tasks[t].items| < |s.tasks[t].items|
  {
    forall p | Holds(Next(s, e), w, p) ensures p == InRecord(id) {
      assert Holds(s, w, p);
    }
  }

  /** Where task `t` stands when it alone has moved since `s0`. */
  ghost predicate LoopProgress(s0: State, s: State, t: TaskId, id: Id, w: Half)
    requires id in s0.records && w in s0.pipes
  {
    && Inv(s)
    && w in s.pipes && w in s.hist.idOf && s.hist.idOf[w] == id && id in s.hist.halfOf && s.hist.halfOf[id] == w
    && s.hist.accepted == s0.hist.accepted
    && var ended := s0.records[id].ended;
    if t !in s.tasks then !ended && id in s.records && s.records[id] == Rec(Some(w), [], false)
    else
      && s.tasks[t].w == w
      && match s.tasks[t]
         case Loop(_, i, _) => i == id && id in s.records && s.records[id].ended == ended && s.records[id].write == None
         case Closing(_) => ended && id !in s.records
  }

  lemma LoopStep(s0: State, s: State, e: Event, t: TaskId, id: Id, w: Half)
    requires id in s0.records && w in s0.pipes && LoopProgress(s0, s, t, id, w)
    requires t in s.tasks && s.tasks[t].Loop? && Enabled(s, e)
    requires (e.Turn? || e.Send? || e.Fail?) && e.t == t
    ensures LoopProgress(s0, Next(s, e), t, id, w)
  {
    StepKeepsInv(s, e);
  }

  /** What task `t` has still to write: the rest of its batch, then the queue. */
  ghost function Rest(s: State, t: TaskId, id: Id): seq<byte> {
    (if t in s.tasks && s.tasks[t].Loop? then Flat(s.tasks[t].items) else []) +
    (if id in s.records then Flat(s.records[id].q) else [])
  }

  /** Pipe `p0`, which had `todo` to come and would take `room0` bytes, has become `p`, with `rest` to come
      and `room` to go. A failed write leaves what fitted; a broken pipe takes nothing. */
  ghost predicate Pumped(p0: Pipe, todo: seq<byte>, room0: nat, p: Pipe, rest: seq<byte>, room: nat) {
    if p0.broken then p.broken && p.sent == p0.sent
    else if p.broken then room0 < |todo| && p.sent == p0.sent + todo[..room0]
    else |p.sent| + room == |p0.sent| + room0 && p.sent + rest == p0.sent + todo
  }

  lemma PumpItem(p0: Pipe, todo: seq<byte>, room0: nat, p: Pipe, item: Item, rest: seq<byte>, room: nat)
    requires Pumped(p0, todo, room0, p, item + rest, room)
    ensures !p.broken && |item| <= room ==>
              Pumped(p0, todo, room0, p.(sent := p.sent + item), rest, room - |item|)
    ensures !p.broken && room < |item| ==>
              Pumped(p0, todo, room0, p.(sent := p.sent + item[..room], broken := true), [], 0)
  {
    if !p.broken {
      ConcatAssoc(p.sent, item, rest);
      if room < |item| {
        assert p.sent + item[..room] == (p0.sent + todo)[..|p.sent| + room];
        assert p0.sent + todo[..room0] == (p0.sent + todo)[..|p0.sent| + room0];
      }
    }
  }

  /** How the run has come to `s`: the half is served by `t` alone, and its pipe has taken what it could. */
  ghost predicate Pumping(s0: State, s: State, t: TaskId, id: Id, w: Half, room0: nat, room: nat)
    requires id in s0.records && w in s0.pipes
  {
    LoopProgress(s0, s, t, id, w) && Pumped(s0.pipes[w], Rest(s0, t, id), room0, s.pipes[w], Rest(s, t, id), room)
  }

  lemma PumpTurn(s0: State, s: State, t: TaskId, id: Id, w: Half, room0: nat, room: nat)
    requires id in s0.records && w in s0.pipes && Pumping(s0, s, t, id, w, room0, room)
    requires t in s.tasks && s.tasks[t].Loop? && Enabled(s, Turn(t))
    ensures Pumping(s0, Next(s, Turn(t)), t, id, w, room0, room)
  {
    LoopStep(s0, s, Turn(t), t, id, w);
    var q := s.records[id].q;
    assert [] + Flat(q) == Flat(q) == Flat(q) + [];
  }

  /** Writing one item to a pipe that takes `room` more bytes. */
  ghost function Writing(t: TaskId, item: Item, room: nat): Event {
    if room < |item| then Fail(t, room) else Send(t)
  }

  function Room(p: Pipe, room: nat): nat { if p.broken then 0 else room }

  lemma PumpNext(s0: State, s: State, t: TaskId, id: Id, w: Half, room0: nat, room: nat)
    requires id in s0.records && w in s0.pipes && Pumping(s0, s, t, id, w, room0, room)
    requires t in s.tasks && s.tasks[t].Loop? && s.tasks[t].items != []
    ensures var item, takes := s.tasks[t].items[0], Room(s.pipes[w], room);
      var e := Writing(t, item, takes);
      Enabled(s, e) && Pumping(s0, Next(s, e), t, id, w, room0, if e.Fail? then 0 else takes - |item|)
  {
    var items, q := s.tasks[t].items, Flat(s.records[id].q);
    var takes := Room(s.pipes[w], room);
    LoopStep(s0, s, Writing(t, items[0], takes), t, id, w);
    ConcatAssoc(items[0], Flat(items[1..]), q);
    PumpItem(s0.pipes[w], Rest(s0, t, id), room0, s.pipes[w], items[0], Flat(items[1..]) + q, room);
    if s.pipes[w].broken {
      assert s.pipes[w].sent + items[0][..0] == s.pipes[w].sent;
      if items[0] == [] { assert s.pipes[w].sent + items[0] == s.pipes[w].sent; }
    }
  }

  // ----- the code itself, against the steps above -----

  lemma LoopStart(s: State, t: TaskId)
    requires Inv(s) && t in s.tasks && s.tasks[t].Loop?
    ensures s.tasks[t].id in s.records && s.tasks[t].w in s.pipes
    ensures LoopProgress(s, s, t, s.tasks[t].id, s.tasks[t].w)
  {
    LoopServes(s, t);
  }

  lemma IdleAgain(s0: State, s: State, t: TaskId, id: Id, w: Half)
    requires id in s0.records && w in s0.pipes && LoopProgress(s0, s, t, id, w) && t !in s.tasks
    ensures var p := s.pipes[w];
      p.shut == 0 && (!p.broken ==> w in s.hist.accepted && p.sent == Flat(s.hist.accepted[w]))
  {
    assert Holds(s, w, InRecord(id));
    assert HalfInv(s, w);
  }

  lemma FinalStep(s0: State, s: State, t: TaskId, id: Id, w: Half)
    requires id in s0.records && w in s0.pipes && LoopProgress(s0, s, t, id, w)
    requires t in s.tasks && s.tasks[t].Closing?
    ensures Enabled(s, Shut(t)) && Inv(Next(s, Shut(t)))
    ensures var p := Next(s, Shut(t)).pipes[w];
      p.shut == 1 && (!p.broken ==> w in s.hist.accepted && p.sent == Flat(s.hist.accepted[w]))
  {
    assert Holds(s, w, InTask(t));
    assert HalfInv(s, w);
    StepKeepsInv(s, Shut(t));
    ShutMeansDelivered(Next(s, Shut(t)), w);
  }

  /** `Streams` with the tasks it has spawned. */
  class Streams {
    var records: map<Id, Rec>
    var tasks: map<TaskId, Task>
    var next: TaskId
    var pipes: map<Half, Pipe>
    ghost var hist: History

    ghost function View(): State reads this {
      State(records, tasks, next, pipes, hist)
    }

    constructor ()
      ensures View() == Init && Inv(View())
    {
      records, tasks, next, pipes := map[], map[], 0, map[];
      hist := Init.hist;
    }

    method Spawn(task: Task)
      modifies this
      ensures View() == Spawned(old(View()), task)
    {
      hist := hist.(place := hist.place[task.w := InTask(next)]);
      tasks := tasks[next := task];
      next := next + 1;
    }

    method Insert(id: Id, w: Half)
      requires w !in pipes
      modifies this
      ensures View() == Next(old(View()), Event.Insert(id, w))
      ensures records == old(records)[id := Rec(Some(w), [], false)] && pipes == old(pipes)[w := Pipe([], false, 0)]
    {
      hist := AfterInsert(View(), id, w).hist;
      pipes := pipes[w := Pipe([], false, 0)];
      records := records[id := Rec(Some(w), [], false)];
    }

    method Write(id: Id, buf: Item)
      modifies this
      ensures View() == Next(old(View()), Event.Write(id, buf))
      ensures if old(id !in records) then records == old(records) && tasks == old(tasks)
              else
                var rec := old(records[id]);
                && records == old(records)[id := Rec(None, rec.q + [buf], rec.ended)]
                && tasks == if rec.write.None? then old(tasks) else old(tasks)[old(next) := Loop(rec.write.value, id, [])]
    {
      if id in records {
        var rec := records[id];
        hist := Logged(hist, id, buf);
        records := records[id := rec.(q := rec.q + [buf])];
        if rec.write.Some? {
          records := records[id := records[id].(write := None)];
          Spawn(Loop(rec.write.value, id, []));
        }
      }
    }

    method Remove(id: Id)
      modifies this
      ensures View() == Next(old(View()), Event.Remove(id))
      ensures if old(id !in records) then records == old(records) && tasks == old(tasks)
              else if old(records[id].write.Some?) then
                records == old(records) - {id} && tasks == old(tasks)[old(next) := Closing(old(records[id].write.value))]
              else records == old(records)[id := old(records[id]).(ended := true)] && tasks == old(tasks)
    {
      if id in records {
        var rec := records[id];
        if rec.write.Some? {
          records := records - {id};
          Spawn(Closing(rec.write.value));
        } else {
          records := records[id := rec.(ended := true)];
        }
      }
    }

    /** The critical section of `write_loop`. */
    method TurnLoop(t: TaskId)
      requires Enabled(View(), Turn(t))
      modifies this
      ensures View() == Next(old(View()), Turn(t))
      ensures var Loop(w, id, items) := old(tasks[t]);
        if old(id !in records) then tasks == old(tasks)[t := Closing(w)] && records == old(records)
        else if old(records[id].q != []) then
          tasks == old(tasks)[t := Loop(w, id, old(records[id].q))] && records[id] == old(records[id]).(q := items)
        else if old(records[id].ended) then tasks == old(tasks)[t := Closing(w)] && records == old(records) - {id}
        else tasks == old(tasks) - {t} && records == old(records)[id := old(records[id]).(write := Some(w))]
    {
      var Loop(w, id, items) := tasks[t];
      if id !in records {
        tasks := tasks[t := Closing(w)];
      } else if records[id].q == [] {
        if records[id].ended {
          records := records - {id};
          tasks := tasks[t := Closing(w)];
        } else {
          records := records[id := records[id].(write := Some(w))];
          tasks := tasks - {t};
          hist := hist.(place := hist.place[w := InRecord(id)]);
        }
      } else {
        var swapped := records[id].q;
        records := records[id := records[id].(q := items)];
        tasks := tasks[t := Loop(w, id, swapped)];
      }
    }

    /** One pass of the drain loop. The pipe takes `room` more bytes, or none if it is broken; if that is
        less than the item, the write fails and the rest of the batch is dropped. */
    method WriteItem(t: TaskId, room: nat) returns (left: nat)
      requires t in tasks && tasks[t].Loop? && tasks[t].items != [] && tasks[t].w in pipes
      modifies this
      ensures var item, takes := old(tasks[t].items[0]), Room(old(pipes[tasks[t].w]), room);
        && Enabled(old(View()), Writing(t, item, takes)) && View() == Next(old(View()), Writing(t, item, takes))
        && left == if takes < |item| then 0 else takes - |item|
      ensures var Loop(w, id, items) := old(tasks[t]);
        var fits := |items[0]| <= (if old(pipes[w].broken) then 0 else room);
        && tasks == old(tasks)[t := Loop(w, id, if fits then items[1..] else [])]
        && records == old(records) && (fits ==> pipes[w].broken == old(pipes[w].broken)) && (!fits ==> pipes[w].broken)
    {
      var Loop(w, id, items) := tasks[t];
      var item, takes := items[0], Room(pipes[w], room);
      if takes < |item| {
        pipes := pipes[w := pipes[w].(sent := pipes[w].sent + item[..takes], broken := true)];
        tasks := tasks[t := Loop(w, id, [])];
        left := 0;
      } else {
        pipes := pipes[w := pipes[w].(sent := pipes[w].sent + item)];
        tasks := tasks[t := Loop(w, id, items[1..])];
        left := takes - |item|;
      }
    }

    method Shutdown(t: TaskId)
      requires Enabled(View(), Shut(t))
      modifies this
      ensures View() == Next(old(View()), Shut(t))
    {
      var w := tasks[t].w;
      pipes := pipes[w := pipes[w].(shut := pipes[w].shut + 1)];
      tasks := tasks - {t};
      hist := hist.(place := hist.place - {w});
    }

    /** The drain loop over one batch. */
    method Drain(t: TaskId, room: nat, ghost s0: State, ghost id: Id, ghost w: Half, ghost room0: nat)
      returns (left: nat)
      requires id in s0.records && w in s0.pipes && Pumping(s0, View(), t, id, w, room0, room)
      requires t in tasks && tasks[t].Loop?
      modifies this
      ensures Pumping(s0, View(), t, id, w, room0, left)
      ensures records == old(records) && t in tasks && tasks[t].Loop? && tasks[t].items == []
    {
      left := room;
      while tasks[t].items != []
        invariant Pumping(s0, View(), t, id, w, room0, left)
        invariant records == old(records) && t in tasks && tasks[t].Loop?
        decreases |tasks[t].items|
      {
        PumpNext(s0, View(), t, id, w, room0, left);
        left := WriteItem(t, left);
      }
    }

    /** One pass of the outer loop. */
    method Round(t: TaskId, room: nat, ghost s0: State, ghost id: Id, ghost w: Half, ghost room0: nat)
      returns (left: nat)
      requires id in s0.records && w in s0.pipes && Pumping(s0, View(), t, id, w, room0, room)
      requires t in tasks && tasks[t].Loop? && tasks[t].items == [] && id in records
      modifies this
      ensures Pumping(s0, View(), t, id, w, room0, left)
      ensures t in tasks && tasks[t].Loop? ==>
        tasks[t].items == [] && id in records && |records[id].q| < old(|records[id].q|)
    {
      PumpTurn(s0, View(), t, id, w, room0, room);
      TurnLoop(t);
      left := room;
      if t in tasks && tasks[t].Loop? {
        left := Drain(t, room, s0, id, w, room0);
      }
    }

    /** The outer loop of `write_loop`, up to its `break` or `return`. */
    method Rounds(t: TaskId, room: nat, ghost s0: State, ghost id: Id, ghost w: Half, ghost room0: nat)
      returns (left: nat)
      requires id in s0.records && w in s0.pipes && Pumping(s0, View(), t, id, w, room0, room)
      requires t in tasks && tasks[t].Loop? && id in records
      modifies this
      ensures Pumping(s0, View(), t, id, w, room0, left) && (t in tasks ==> tasks[t].Closing?)
    {
      left := Drain(t, room, s0, id, w, room0);
      while t in tasks && tasks[t].Loop?
        invariant Pumping(s0, View(), t, id, w, room0, left)
        invariant t in tasks && tasks[t].Loop? ==> tasks[t].items == [] && id in records
        decreases if t in tasks && tasks[t].Loop? then 1 + |records[id].q| else 0
      {
        left := Round(t, left, s0, id, w, room0);
      }
    }

    /** `write_loop` with nobody else running, on a pipe that takes `room` more bytes before writes fail. It
        ends; of what it had to write, the first `room` bytes have been sent; and the half is back in its
        record or, if the end was pending, shut down. */
    method WriteLoop(t: TaskId, room: nat)
      requires Inv(View()) && t in tasks && tasks[t].Loop?
      modifies this
      ensures Inv(View()) && t !in tasks && hist.accepted == old(hist.accepted)
      ensures var id, w := old(tasks[t].id), old(tasks[t].w);
        && old(id in records && w in pipes) && w in pipes
        && (if old(records[id].ended) then id !in records && pipes[w].shut == 1
            else id in records && records[id] == Rec(Some(w), [], false) && pipes[w].shut == 0)
        && (!pipes[w].broken ==> w in hist.accepted && pipes[w].sent == Flat(hist.accepted[w]))
        && var p, todo := old(pipes[w]), old(Rest(View(), t, id));
           && (pipes[w].broken <==> p.broken || room < |todo|)
           && pipes[w].sent == p.sent + (if Room(p, room) < |todo| then todo[..Room(p, room)] else todo)
    {
      ghost var s0 := View();
      ghost var id, w := tasks[t].id, tasks[t].w;
      LoopStart(s0, t);
      var _ := Rounds(t, room, s0, id, w, room);
      ghost var s := View();
      assert Rest(s, t, id) == [];
      if t in tasks {
        FinalStep(s0, s, t, id, w);
        Shutdown(t);
      } else {
        IdleAgain(s0, s, t, id, w);
      }
    }
  }
}
