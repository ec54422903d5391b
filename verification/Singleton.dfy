/** Processes competing for one lock file: the one that gets the lock records a socket in the file and
    listens on it, the others read the record and connect. */
module Singleton {
  import opened Util

  const MAX_CLIENT_ATTEMPTS := 10
  const MAX_TRIES := 5

  /** Reads of the record, and tries to connect for each, that a client makes at most. */
  const READS := MAX_CLIENT_ATTEMPTS + 1
  const TRIES_PER_READ := MAX_TRIES + 1

  datatype Matter = Matter(socket: nat, pid: nat)

  /** The lock file: a record some process finished writing, or anything else, which may still happen
      to decode as a record. */
  datatype Content = Whole(m: Matter) | Torn(seen: Option<Matter>)

  function Decoded(c: Content): Option<Matter> {
    match c
    case Whole(m) => Some(m)
    case Torn(seen) => seen
  }

  datatype Phase =
    | Idle
    | Acquired(socket: nat)            // has the lock; the record is being written
    | Recorded(socket: nat)            // the record is written
    | Listening(socket: nat)           // a singleton
    | Closing                          // the listener is gone, the lock is not yet released
    | Reading(attempt: nat, made: nat)
    | Trying(record: Matter, whole: bool, attempt: nat, round: nat, made: nat)
    | Connected(server: nat, made: nat)
    | GaveUp(made: nat)

  predicate Owning(ph: Phase) {
    ph.Acquired? || ph.Recorded? || ph.Listening? || ph.Closing?
  }

  /** `made` in a phase counts the tries to connect so far; `owner` says who chose each socket name. */
  datatype State = State(
    holder: Option<nat>, file: Content, phases: map<nat, Phase>, listeners: map<nat, nat>, owner: map<nat, nat>)

  function PhaseOf(s: State, p: nat): Phase {
    if p in s.phases then s.phases[p] else Idle
  }

  function Start(leftover: Option<Matter>): State {
    State(None, Torn(leftover), map[], map[], map[])
  }

  datatype Event =
    | Acquire(p: nat, socket: nat)          // the lock is free; `socket` is a fresh name
    | BecomeClient(p: nat)                  // the lock is taken, or the process never asks for it
    | Tear(p: nat, seen: Option<Matter>)    // part of the record reaches the file
    | Record(p: nat)                        // all of it has
    | Listen(p: nat)
    | ListenFails(p: nat)
    | Close(p: nat)                         // the server is dropped: first its listener,
    | Release(p: nat)                       // then its lock
    | Crash(p: nat)
    | ReadRecord(p: nat)
    | TryConnect(p: nat)
    | SeeExit(p: nat)                       // the recorded process is found to have exited

  predicate Enabled(s: State, e: Event) {
    var ph := PhaseOf(s, e.p);
    match e
    case Acquire(p, socket) => ph.Idle? && s.holder.None? && socket !in s.owner
    case BecomeClient(p) => ph.Idle?
    case Tear(p, seen) => ph.Acquired?
    case Record(p) => ph.Acquired?
    case Listen(p) => ph.Recorded?
    case ListenFails(p) => ph.Recorded?
    case Close(p) => ph.Listening?
    case Release(p) => ph.Closing?
    case Crash(p) => !ph.Idle?
    case ReadRecord(p) => ph.Reading?
    case TryConnect(p) => ph.Trying?
    case SeeExit(p) => ph.Trying?
  }

  /** Another round of reading, if any is left. */
  function AfterFailure(attempt: nat, made: nat): Phase {
    if attempt == MAX_CLIENT_ATTEMPTS then GaveUp(made) else Reading(attempt + 1, made)
  }

  function Tried(s: State, ph: Phase): Phase
    requires ph.Trying?
  {
    if ph.record.socket in s.listeners then Connected(s.listeners[ph.record.socket], ph.made + 1)
    else if ph.round == MAX_TRIES then AfterFailure(ph.attempt, ph.made + 1)
    else Trying(ph.record, ph.whole, ph.attempt, ph.round + 1, ph.made + 1)
  }

  function HasRead(s: State, ph: Phase): Phase
    requires ph.Reading?
  {
    match Decoded(s.file)
    case Some(m) => Trying(m, s.file.Whole?, ph.attempt, 0, ph.made)
    case None => AfterFailure(ph.attempt, ph.made)
  }

  function Moved(s: State, p: nat, ph: Phase): State {
    s.(phases := s.phases[p := ph])
  }

  function Next(s: State, e: Event): State
    requires Enabled(s, e)
  {
    var ph := PhaseOf(s, e.p);
    match e
    case Acquire(p, socket) => Moved(s, p, Acquired(socket)).(holder := Some(p), owner := s.owner[socket := p])
    case BecomeClient(p) => Moved(s, p, Reading(0, 0))
    case Tear(p, seen) => s.(file := Torn(seen))
    case Record(p) => Moved(s, p, Recorded(ph.socket)).(file := Whole(Matter(ph.socket, p)))
    case Listen(p) => Moved(s, p, Listening(ph.socket)).(listeners := s.listeners[ph.socket := p])
    case ListenFails(p) => Moved(s, p, Closing)
    case Close(p) => Moved(s, p, Closing).(listeners := s.listeners - {ph.socket})
    case Release(p) => Moved(s, p, Idle).(holder := None)
    case Crash(p) => Crashed(s, p)
    case ReadRecord(p) => Moved(s, p, HasRead(s, ph))
    case TryConnect(p) => Moved(s, p, Tried(s, ph))
    case SeeExit(p) => Moved(s, p, GaveUp(ph.made))
  }

  /** The operating system takes back whatever the process had. */
  function Crashed(s: State, p: nat): State {
    var ph := PhaseOf(s, p);
    Moved(s, p, Idle).(
      holder := if Owning(ph) then None else s.holder,
      listeners := if ph.Listening? then s.listeners - {ph.socket} else s.listeners)
  }

  ghost predicate Run(s: State, trace: seq<Event>, s': State)
    decreases trace
  {
    if trace == [] then s == s'
    else Enabled(s, trace[0]) && Run(Next(s, trace[0]), trace[1..], s')
  }

  // ----- invariant -----

  ghost predicate Honest(s: State, m: Matter) {
    m.socket in s.owner && s.owner[m.socket] == m.pid
  }

  /** What a phase of `p` promises about the rest of the state. */
  ghost predicate PhaseOk(s: State, p: nat) {
    match PhaseOf(s, p)
    case Idle => s.holder != Some(p)
    case Acquired(k) => s.holder == Some(p) && Honest(s, Matter(k, p))
    case Recorded(k) => s.holder == Some(p) && Honest(s, Matter(k, p)) && s.file == Whole(Matter(k, p))
    case Listening(k) =>
      && s.holder == Some(p) && Honest(s, Matter(k, p)) && s.file == Whole(Matter(k, p))
      && k in s.listeners && s.listeners[k] == p
    case Closing => s.holder == Some(p)
    case Reading(attempt, made) =>
      s.holder != Some(p) && attempt <= MAX_CLIENT_ATTEMPTS && made <= attempt * TRIES_PER_READ
    case Trying(record, whole, attempt, round, made) =>
      && s.holder != Some(p) && attempt <= MAX_CLIENT_ATTEMPTS && round <= MAX_TRIES
      && made <= attempt * TRIES_PER_READ + round
      && (whole ==> Honest(s, record))
    case Connected(_, made) => s.holder != Some(p) && made <= READS * TRIES_PER_READ
    case GaveUp(made) => s.holder != Some(p) && made <= READS * TRIES_PER_READ
  }

  ghost predicate ListenerOk(s: State, k: nat) {
    k in s.listeners ==> PhaseOf(s, s.listeners[k]) == Listening(k)
  }

  ghost predicate Inv(s: State) {
    && (forall p: nat :: PhaseOk(s, p))
    && (forall k: nat :: ListenerOk(s, k))
    && (s.file.Whole? ==> Honest(s, s.file.m))
  }

  lemma PhaseKept(s: State, e: Event, p: nat)
    requires Inv(s) && Enabled(s, e)
    ensures PhaseOk(Next(s, e), p)
  {
    assert PhaseOk(s, p) && PhaseOk(s, e.p);
  }

  lemma ListenerKept(s: State, e: Event, k: nat)
    requires Inv(s) && Enabled(s, e)
    ensures ListenerOk(Next(s, e), k)
  {
    assert ListenerOk(s, k) && PhaseOk(s, e.p);
  }

  lemma StepKeepsInv(s: State, e: Event)
    requires Inv(s) && Enabled(s, e)
    ensures Inv(Next(s, e))
  {
    forall p: nat ensures PhaseOk(Next(s, e), p) { PhaseKept(s, e, p); }
    forall k: nat ensures ListenerOk(Next(s, e), k) { ListenerKept(s, e, k); }
    assert PhaseOk(s, e.p);
  }

  lemma {:induction false} RunKeepsInv(s: State, trace: seq<Event>, s': State)
    requires Inv(s) && Run(s, trace, s')
    ensures Inv(s')
    decreases trace
  {
    if trace != [] {
      StepKeepsInv(s, trace[0]);
      RunKeepsInv(Next(s, trace[0]), trace[1..], s');
    }
  }

  // ----- safety -----

  /** Over every run there is at most one listening singleton, it holds the lock, and the file names
      exactly its socket and process. */
  lemma OneSingleton(leftover: Option<Matter>, trace: seq<Event>, s: State, p: nat, q: nat)
    requires Run(Start(leftover), trace, s)
    requires PhaseOf(s, p).Listening?
    ensures s.holder == Some(p) && Decoded(s.file) == Some(Matter(PhaseOf(s, p).socket, p))
    ensures Owning(PhaseOf(s, q)) ==> q == p
  {
    RunKeepsInv(Start(leftover), trace, s);
    assert PhaseOk(s, p) && PhaseOk(s, q);
  }

  /** Over every run a client that gets a connection is at that moment connected to the process that
      holds the lock and listens, however stale the record it read; and if the record had been written
      out whole, to the very process it names. */
  lemma ClientsReachTheHolder(leftover: Option<Matter>, trace: seq<Event>, s: State, p: nat)
    requires Run(Start(leftover), trace, s)
    requires PhaseOf(s, p).Trying? && Next(s, TryConnect(p)).phases[p].Connected?
    ensures var server := Next(s, TryConnect(p)).phases[p].server;
            && s.holder == Some(server)
            && PhaseOf(s, server) == Listening(PhaseOf(s, p).record.socket)
            && (PhaseOf(s, p).whole ==> server == PhaseOf(s, p).record.pid)
  {
    RunKeepsInv(Start(leftover), trace, s);
    var k := PhaseOf(s, p).record.socket;
    assert ListenerOk(s, k) && PhaseOk(s, s.listeners[k]) && PhaseOk(s, p);
  }

  /** While a singleton listens, a client that reads the record and tries at once is connected to it by
      its first try. */
  lemma ReadingFindsTheSingleton(leftover: Option<Matter>, trace: seq<Event>, s: State, p: nat, q: nat)
    requires Run(Start(leftover), trace, s)
    requires PhaseOf(s, p).Listening? && PhaseOf(s, q).Reading?
    ensures Enabled(Next(s, ReadRecord(q)), TryConnect(q))
    ensures Next(Next(s, ReadRecord(q)), TryConnect(q)).phases[q] == Connected(p, PhaseOf(s, q).made + 1)
  {
    RunKeepsInv(Start(leftover), trace, s);
    assert PhaseOk(s, p);
  }

  /** `n` tries to connect, one after another. */
  function TryTimes(s: State, p: nat, n: nat): Option<State> {
    if n == 0 then Some(s)
    else
      match TryTimes(s, p, n - 1)
      case None => None
      case Some(s') => if Enabled(s', TryConnect(p)) then Some(Next(s', TryConnect(p))) else None
  }

  lemma {:induction false} TriesCount(s: State, p: nat, n: nat)
    requires PhaseOf(s, p).Trying? && PhaseOf(s, p).round == 0 && n <= 5
    requires PhaseOf(s, p).record.socket !in s.listeners
    ensures var ph := PhaseOf(s, p);
      TryTimes(s, p, n) == Some(if n == 0 then s else Moved(s, p, Trying(ph.record, ph.whole, ph.attempt, n, ph.made + n)))
  {
    if n > 0 {
      TriesCount(s, p, n - 1);
      var ph := PhaseOf(s, p);
      assert n > 1 ==> s.phases[p := Trying(ph.record, ph.whole, ph.attempt, n - 1, ph.made + n - 1)]
                       [p := Trying(ph.record, ph.whole, ph.attempt, n, ph.made + n)]
                       == s.phases[p := Trying(ph.record, ph.whole, ph.attempt, n, ph.made + n)];
    }
  }

  /** A client whose socket nobody listens on makes six tries, then reads the record again, and gives up
      instead after the eleventh time (its attempts count from zero). */
  lemma SixTriesPerRead(s: State, p: nat)
    requires PhaseOf(s, p).Trying? && PhaseOf(s, p).round == 0
    requires PhaseOf(s, p).record.socket !in s.listeners
    ensures TryTimes(s, p, 6).Some?
    ensures PhaseOf(TryTimes(s, p, 6).value, p) ==
            var ph := PhaseOf(s, p);
            if ph.attempt == 10 then GaveUp(ph.made + 6) else Reading(ph.attempt + 1, ph.made + 6)
  {
    TriesCount(s, p, 5);
  }

  /** What a client reads is what the last writer left: part of a record, or all of it. One that reads no
      record reads again, and gives up instead after the eleventh time; one that finds the recorded process
      gone gives up at once. */
  lemma WhatAClientReads(s: State, p: nat, seen: Option<Matter>, q: nat)
    requires Enabled(s, Tear(p, seen)) && Enabled(s, ReadRecord(q)) && p != q
    ensures var ph := PhaseOf(s, q);
      && PhaseOf(Next(Next(s, Tear(p, seen)), ReadRecord(q)), q) ==
         (if seen.Some? then Trying(seen.value, false, ph.attempt, 0, ph.made)
          else if ph.attempt == 10 then GaveUp(ph.made) else Reading(ph.attempt + 1, ph.made))
      && PhaseOf(Next(Next(s, Record(p)), ReadRecord(q)), q) ==
         Trying(Matter(PhaseOf(s, p).socket, p), true, ph.attempt, 0, ph.made)
  {
  }

  lemma ExitIsFinal(s: State, p: nat)
    requires Enabled(s, SeeExit(p))
    ensures PhaseOf(Next(s, SeeExit(p)), p) == GaveUp(PhaseOf(s, p).made)
  {
  }

  function TriesMade(ph: Phase): nat {
    match ph
    case Reading(_, made) => made
    case Trying(_, _, _, _, made) => made
    case Connected(_, made) => made
    case GaveUp(made) => made
    case _ => 0
  }

  /** Over every run no client tries to connect more than 11 * 6 times. */
  lemma TriesAreBounded(leftover: Option<Matter>, trace: seq<Event>, s: State, p: nat)
    requires Run(Start(leftover), trace, s)
    ensures TriesMade(PhaseOf(s, p)) <= 66
  {
    RunKeepsInv(Start(leftover), trace, s);
    assert PhaseOk(s, p);
  }

  // ----- the client's loops -----

  datatype Reply = Refused | Pipe(server: nat)
  datatype ReadResult = Unreadable | Found(m: Matter)
  datatype Outcome = Piped(server: nat) | Failed | ProcessExited(pid: nat)

  /** What the world does to one client: what its n-th read of the file finds, what its n-th try to
      connect gets, and whether the recorded process is seen to exit before that try. */
  datatype World = World(read: nat -> ReadResult, reply: nat -> Reply, exits: nat -> bool)

  /** How many of the first `n` reads find a record. */
  function FoundReads(w: World, n: nat): nat {
    if n == 0 then 0 else FoundReads(w, n - 1) + if w.read(n - 1).Found? then 1 else 0
  }

  class Client {
    var looks: nat
    var tries: nat

    constructor ()
      ensures looks == 0 && tries == 0
    {
      looks, tries := 0, 0;
    }

    /** Six tries at one socket, racing with the exit of the recorded process. */
    method RetryConnect(w: World, pid: nat) returns (outcome: Outcome)
      modifies this`tries
      ensures old(tries) <= tries <= old(tries) + 6
      ensures outcome.Piped? <==> tries > old(tries) && w.reply(tries - 1).Pipe?
      ensures outcome.Piped? ==> w.reply(tries - 1) == Pipe(outcome.server)
      ensures outcome.ProcessExited? ==> outcome.pid == pid && w.exits(tries)
      ensures forall t :: old(tries) <= t < tries ==> !w.exits(t)
      ensures forall t :: old(tries) <= t < tries - 1 ==> w.reply(t).Refused?
      ensures outcome.Failed? ==> tries == old(tries) + 6 && w.reply(tries - 1).Refused?
    {
      var i := 0;
      while true
        invariant i <= MAX_TRIES && tries == old(tries) + i
        invariant forall t :: old(tries) <= t < tries ==> w.reply(t).Refused? && !w.exits(t)
        decreases MAX_TRIES - i
      {
        if w.exits(tries) {
          return ProcessExited(pid);
        }
        var reply := w.reply(tries);
        tries := tries + 1;
        match reply {
          case Pipe(server) => return Piped(server);
          case Refused =>
            if i == MAX_TRIES {
              return Failed;
            }
        }
        i := i + 1;
      }
    }

    /** Read and retry until a connection, the exit of the recorded process, or the eleventh failure. */
    method Connect(w: World) returns (outcome: Outcome)
      requires looks == 0 && tries == 0
      modifies this
      ensures 1 <= looks <= 11 && tries <= 6 * looks
      ensures outcome.Piped? ==> tries > 0 && w.reply(tries - 1) == Pipe(outcome.server)
      ensures outcome.Piped? ==> w.read(looks - 1).Found?
      ensures outcome.ProcessExited? ==> w.read(looks - 1).Found? && outcome.pid == w.read(looks - 1).m.pid
      ensures outcome.Failed? ==> tries == 6 * FoundReads(w, 11)
      ensures !outcome.Failed? ==> 6 * FoundReads(w, looks - 1) <= tries <= 6 * FoundReads(w, looks)
      ensures outcome.Failed? ==> looks == 11 && forall t :: 0 <= t < tries ==> w.reply(t).Refused?
    {
      var attempt := 0;
      while true
        invariant attempt == looks <= MAX_CLIENT_ATTEMPTS && tries <= looks * TRIES_PER_READ
        invariant tries == 6 * FoundReads(w, looks)
        invariant forall t :: 0 <= t < tries ==> w.reply(t).Refused?
        decreases MAX_CLIENT_ATTEMPTS - attempt
      {
        var found := w.read(looks);
        looks := looks + 1;
        outcome := Failed;
        if found.Found? {
          outcome := RetryConnect(w, found.m.pid);
          if outcome.ProcessExited? {
            return;
          }
        }
        if outcome.Piped? || attempt == MAX_CLIENT_ATTEMPTS {
          return;
        }
        attempt := attempt + 1;
      }
    }
  }
}
