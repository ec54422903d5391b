/** Call/response correlation: `RpcCaller.call` sends its request, then registers its callback;
    `dispatch_with_partial` removes and runs the callback named by a response. */
module RpcCalls {
  import opened Util

  type Id = nat
  type Call = nat    // one invocation of `call`, with its own callback and receiver

  datatype Outcome = Success(body: seq<byte>) | Failure(code: int)

  datatype Event =
    | Sent(id: Id)                                  // the request is on the wire, nothing registered yet
    | Registered(id: Id, call: Call)                // the callback goes into the map
    | Response(to: Option<Id>, outcome: Outcome)    // a message without a method arrives

  /** `completed` logs callbacks run, in order. `poisoned`: a thread panicked holding the map's lock,
      so every later `lock().unwrap()` panics too. */
  datatype State = State(calls: map<Id, Call>, completed: seq<(Call, Outcome)>, poisoned: bool)

  const Init := State(map[], [], false)

  function Step(s: State, e: Event): State {
    if s.poisoned then s
    else match e
      case Sent(_) => s
      case Registered(id, call) => s.(calls := s.calls[id := call])
      case Response(None, _) => s.(poisoned := true)    // `id.unwrap()` panics under the lock
      case Response(Some(id), o) =>
        if id in s.calls then s.(calls := s.calls - {id}, completed := s.completed + [(s.calls[id], o)]) else s
  }

  /** The state after the first `n` events. */
  function After(trace: seq<Event>, n: nat): State
    requires n <= |trace|
  {
    if n == 0 then Init else Step(After(trace, n - 1), trace[n - 1])
  }

  ghost predicate Concerns(e: Event, id: Id) {
    (e.Registered? && e.id == id) || (e.Response? && e.to == Some(id))
  }

  ghost predicate IdlessResponseBefore(trace: seq<Event>, n: nat)
    requires n <= |trace|
  {
    exists k :: 0 <= k < n && trace[k].Response? && trace[k].to == None
  }

  /** Event `i` registered `call` under `id`, and nothing before event `n` has used that id since. */
  ghost predicate Outstanding(trace: seq<Event>, n: nat, i: nat, id: Id, call: Call)
    requires n <= |trace|
  {
    i < n && trace[i] == Registered(id, call) && forall k :: i < k < n ==> !Concerns(trace[k], id)
  }

  /** Event `j` is the first response to the id that event `i` registered `call` under. */
  ghost predicate FirstResponse(trace: seq<Event>, j: nat, i: nat, id: Id, call: Call, o: Outcome) {
    j < |trace| && trace[j] == Response(Some(id), o)
    && Outstanding(trace, j, i, id, call) && !IdlessResponseBefore(trace, j)
  }

  ghost predicate FirstResponseAt(trace: seq<Event>, j: nat, call: Call, o: Outcome) {
    exists i: nat, id: Id :: FirstResponse(trace, j, i, id, call, o)
  }

  ghost predicate Waits(trace: seq<Event>, n: nat, id: Id, call: Call)
    requires n <= |trace|
  {
    exists i: nat :: Outstanding(trace, n, i, id, call)
  }

  ghost predicate Holds(s: State, id: Id, call: Call) {
    id in s.calls && s.calls[id] == call
  }

  lemma WaitsStep(trace: seq<Event>, n: nat, id: Id, call: Call)
    requires 0 < n <= |trace|
    ensures Waits(trace, n, id, call) <==>
      if Concerns(trace[n - 1], id) then trace[n - 1] == Registered(id, call) else Waits(trace, n - 1, id, call)
  {
    if trace[n - 1] == Registered(id, call) {
      assert Outstanding(trace, n, n - 1, id, call);
    }
    if Waits(trace, n - 1, id, call) && !Concerns(trace[n - 1], id) {
      var i: nat :| Outstanding(trace, n - 1, i, id, call);
      assert Outstanding(trace, n, i, id, call);
    }
    if Waits(trace, n, id, call) {
      var i: nat :| Outstanding(trace, n, i, id, call);
      assert i < n - 1 ==> Outstanding(trace, n - 1, i, id, call);
    }
  }

  /** The map holds exactly the outstanding calls, and the lock is poisoned exactly after an id-less response. */
  lemma {:induction false} MapIsOutstanding(trace: seq<Event>, n: nat)
    requires n <= |trace|
    ensures After(trace, n).poisoned <==> IdlessResponseBefore(trace, n)
    ensures !After(trace, n).poisoned ==>
      forall id, call :: Holds(After(trace, n), id, call) <==> Waits(trace, n, id, call)
  {
    if n > 0 {
      MapIsOutstanding(trace, n - 1);
      if !After(trace, n).poisoned {
        forall id, call ensures Holds(After(trace, n), id, call) <==> Waits(trace, n, id, call) {
          WaitsStep(trace, n, id, call);
        }
      }
    }
  }

  /** Exactly which calls complete, and with what: those whose id gets a response while they are
      outstanding, each with the first one; over all runs, with no assumption on ids. */
  lemma {:induction false} CompletedExactly(trace: seq<Event>, n: nat, call: Call, o: Outcome)
    requires n <= |trace|
    ensures (call, o) in After(trace, n).completed
            <==> exists j: nat :: j < n && FirstResponseAt(trace, j, call, o)
  {
    if n > 0 {
      CompletedExactly(trace, n - 1, call, o);
      MapIsOutstanding(trace, n - 1);
      var s, e := After(trace, n - 1), trace[n - 1];
      if (call, o) in After(trace, n).completed && (call, o) !in s.completed {
        assert e.Response? && e.to.Some? && Holds(s, e.to.value, call);
        var i: nat :| Outstanding(trace, n - 1, i, e.to.value, call);
        assert FirstResponse(trace, n - 1, i, e.to.value, call, o);
        assert FirstResponseAt(trace, n - 1, call, o);
      }
      if FirstResponseAt(trace, n - 1, call, o) {
        var i: nat, id: Id :| FirstResponse(trace, n - 1, i, id, call, o);
        assert Waits(trace, n - 1, id, call);
        assert Holds(s, id, call);
        assert After(trace, n).completed == s.completed + [(call, o)];
      }
    }
  }

  /** Each `call` registers its own callback once. */
  ghost predicate OwnCallbacks(trace: seq<Event>) {
    forall i, j :: 0 <= i < j < |trace| && trace[i].Registered? && trace[j].Registered? ==>
      trace[i].call != trace[j].call
  }

  ghost predicate CompletedOnce(s: State) {
    forall a, b :: 0 <= a < b < |s.completed| ==> s.completed[a].0 != s.completed[b].0
  }

  /** While a call is outstanding nothing has answered it. */
  lemma Unanswered(trace: seq<Event>, n: nat, i: nat, id: Id, call: Call, j: nat, o: Outcome)
    requires n <= |trace| && OwnCallbacks(trace) && Outstanding(trace, n, i, id, call) && j < n
    ensures !FirstResponseAt(trace, j, call, o)
  {
    forall i': nat, id': Id ensures !FirstResponse(trace, j, i', id', call, o) {
      if i' < j && trace[i'] == Registered(id', call) {
        assert i' == i && id' == id;
        assert j > i ==> !Concerns(trace[j], id);
      }
    }
  }

  lemma NotAgain(trace: seq<Event>, n: nat, id: Id, call: Call, o: Outcome)
    requires n <= |trace| && OwnCallbacks(trace)
    requires !After(trace, n).poisoned && Holds(After(trace, n), id, call)
    ensures (call, o) !in After(trace, n).completed
  {
    MapIsOutstanding(trace, n);
    assert Waits(trace, n, id, call);
    var i: nat :| Outstanding(trace, n, i, id, call);
    CompletedExactly(trace, n, call, o);
    forall j: nat | j < n ensures !FirstResponseAt(trace, j, call, o) { Unanswered(trace, n, i, id, call, j, o); }
  }

  /** No call is completed twice. */
  lemma {:induction false} AtMostOnce(trace: seq<Event>, n: nat)
    requires n <= |trace| && OwnCallbacks(trace)
    ensures CompletedOnce(After(trace, n))
  {
    if n > 0 {
      AtMostOnce(trace, n - 1);
      var s, e := After(trace, n - 1), trace[n - 1];
      if After(trace, n).completed != s.completed {
        var call := s.calls[e.to.value];
        forall a | 0 <= a < |s.completed| ensures s.completed[a].0 != call {
          NotAgain(trace, n - 1, e.to.value, call, s.completed[a].1);
          assert s.completed[a] in s.completed;
        }
      }
    }
  }

  /** A call whose id no other call uses while it waits is completed by the first response that
      follows its registration, unless an id-less response came first. */
  lemma FirstResponseCompletes(trace: seq<Event>, i: nat, j: nat, id: Id, call: Call, o: Outcome)
    requires i < j < |trace| && trace[i] == Registered(id, call) && trace[j] == Response(Some(id), o)
    requires forall k :: i < k < j ==> !(trace[k].Response? && trace[k].to == Some(id))
    requires forall k :: i < k < j && trace[k].Registered? ==> trace[k].id != id
    ensures (call, o) in After(trace, |trace|).completed || IdlessResponseBefore(trace, j)
  {
    if !IdlessResponseBefore(trace, j) {
      assert FirstResponse(trace, j, i, id, call, o);
      assert FirstResponseAt(trace, j, call, o);
      CompletedExactly(trace, |trace|, call, o);
    }
  }

  /** `call` sends before it registers: a response that arrives in between is dropped, and the call
      then waits for a second one. */
  lemma ResponseInTheGapIsLost(id: Id, call: Call, o: Outcome)
    ensures var trace := [Sent(id), Response(Some(id), o), Registered(id, call)];
      After(trace, 3).completed == [] && After(trace, 3).calls == map[id := call]
  {
    var trace := [Sent(id), Response(Some(id), o), Registered(id, call)];
    assert After(trace, 1) == Init;
    assert After(trace, 2) == Init;
  }

  const ID_SPACE := 0x1_0000_0000

  /** The id handed out by the n-th call of `next_message_id`; the counter wraps. */
  function MessageId(n: nat): Id {
    n % ID_SPACE
  }

  lemma IdsDiffer(m: nat, n: nat)
    requires m < n < m + ID_SPACE
    ensures MessageId(m) != MessageId(n)
  {
  }

  /** Calls with ids off the wrapping counter: one that is answered before the counter comes round again
      is completed by the first response after its registration. `draw(k)` is which draw gave the call
      registered by event `k` its id; registrations need not come in the order of the draws. */
  lemma CompletesBeforeWrap(trace: seq<Event>, draw: nat -> nat, i: nat, j: nat, call: Call, o: Outcome)
    requires i < j < |trace| && trace[i] == Registered(MessageId(draw(i)), call)
    requires trace[j] == Response(Some(MessageId(draw(i))), o)
    requires forall k :: i < k < j ==> !(trace[k].Response? && trace[k].to == Some(MessageId(draw(i))))
    requires forall k :: i < k < j && trace[k].Registered? ==>
               trace[k].id == MessageId(draw(k)) && draw(k) != draw(i)
               && draw(i) < draw(k) + ID_SPACE && draw(k) < draw(i) + ID_SPACE
    ensures (call, o) in After(trace, |trace|).completed || IdlessResponseBefore(trace, j)
  {
    forall k | i < k < j && trace[k].Registered? ensures trace[k].id != MessageId(draw(i)) {
      if draw(i) < draw(k) { IdsDiffer(draw(i), draw(k)); } else { IdsDiffer(draw(k), draw(i)); }
    }
    FirstResponseCompletes(trace, i, j, MessageId(draw(i)), call, o);
  }

  /** The shared state of callers and dispatcher. */
  class RpcCaller {
    var drawn: nat
    var calls: map<Id, Call>
    var completed: seq<(Call, Outcome)>
    var poisoned: bool
    var outbox: seq<Id>

    function View(): State reads this {
      State(calls, completed, poisoned)
    }

    constructor ()
      ensures View() == Init && drawn == 0 && outbox == []
    {
      drawn, calls, completed, poisoned, outbox := 0, map[], [], false, [];
    }

    /** First half of `call`: draw an id and enqueue the request. Nothing is enqueued on a closed channel. */
    method SendRequest(open: bool) returns (id: Id)
      modifies this`drawn, this`outbox
      ensures id == MessageId(old(drawn)) == old(drawn) % 0x1_0000_0000 && drawn == old(drawn) + 1
      ensures outbox == if open then old(outbox) + [id] else old(outbox)
    {
      id := drawn % ID_SPACE;
      drawn := drawn + 1;
      if open {
        outbox := outbox + [id];
      }
    }

    /** Second half of `call`. */
    method RegisterCallback(id: Id, call: Call)
      modifies this`calls
      ensures View() == Step(old(View()), Registered(id, call))
    {
      if !poisoned {
        calls := calls[id := call];
      }
    }

    /** The response branches of `dispatch_with_partial`. */
    method HandleResponse(to: Option<Id>, outcome: Outcome)
      modifies this`calls, this`completed, this`poisoned
      ensures View() == Step(old(View()), Response(to, outcome))
    {
      if !poisoned {
        if to == None {
          poisoned := true;
        } else if to.value in calls {
          var call := calls[to.value];
          calls := calls - {to.value};
          completed := completed + [(call, outcome)];
        }
      }
    }
  }
}
