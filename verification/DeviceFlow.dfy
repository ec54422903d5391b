/** Polling for one device code (section 3.5 of RFC 8628): wait an interval, ask, and lengthen the
    interval whenever the service asks for it. Instants are in nanoseconds after the code arrived. */
module DeviceFlow {

  const FIRST_INTERVAL := 5
  const SLOWER_BY := 5

  datatype Answer =
    | Granted(token: string)
    | OAuthError(error: string)
    | StatusError(code: int)
    | OtherError

  predicate SlowDown(a: Answer) {
    match a
    case OAuthError(error) => error == "slow_down"
    case StatusError(code) => code == 429
    case Granted(_) => false
    case OtherError => false
  }

  function Nanos(seconds: int): int {
    1_000_000_000 * seconds
  }

  /** What the service would answer to poll `k`, and how long asking takes. */
  datatype Service = Service(setup: nat, answer: nat -> Answer, latency: nat -> nat)

  function SlowDowns(s: Service, k: nat): nat {
    if k == 0 then 0 else SlowDowns(s, k - 1) + (if SlowDown(s.answer(k - 1)) then 1 else 0)
  }

  /** The wait before poll `k`, in seconds. */
  function Interval(s: Service, k: nat): nat {
    if k == 0 then FIRST_INTERVAL
    else Interval(s, k - 1) + (if SlowDown(s.answer(k - 1)) then SLOWER_BY else 0)
  }

  /** The interval is always five seconds and five more for each slow-down so far. */
  lemma {:induction false} IntervalCountsSlowDowns(s: Service, k: nat)
    ensures Interval(s, k) == 5 + 5 * SlowDowns(s, k)
  {
    if k > 0 { IntervalCountsSlowDowns(s, k - 1); }
  }

  /** The instant at which the expiry is checked before poll `k`. */
  function Clock(s: Service, k: nat): nat {
    if k == 0 then s.setup else Clock(s, k - 1) + Nanos(Interval(s, k - 1)) + s.latency(k - 1)
  }

  /** `polls` polls are made within a lifetime of `lifetime` seconds. */
  predicate Made(s: Service, lifetime: int, polls: nat) {
    polls == 0 || Clock(s, polls - 1) < Nanos(lifetime)
  }

  /** The sum 0 + 1 + ... + (n - 1). */
  function Sum(n: nat): nat {
    if n == 0 then 0 else Sum(n - 1) + (n - 1)
  }

  lemma {:induction false} SumIs(n: nat)
    ensures 2 * Sum(n) == n * (n - 1)
  {
    if n > 0 { SumIs(n - 1); }
  }

  lemma {:induction false} ClockGrows(s: Service, k: nat)
    ensures Clock(s, k) >= Nanos(5 * k)
    ensures Clock(s, k) >= Nanos(5 * Sum(SlowDowns(s, k) + 1))
  {
    if k > 0 {
      ClockGrows(s, k - 1);
      IntervalCountsSlowDowns(s, k - 1);
    }
  }

  /** Within a lifetime of L > 0 seconds at most L / 5 polls, rounded up, are made; one of zero or less
      allows none. */
  lemma PollsAreBounded(s: Service, lifetime: int, polls: nat)
    requires Made(s, lifetime, polls)
    ensures lifetime <= 0 ==> polls == 0
    ensures lifetime > 0 ==> polls <= (lifetime + 4) / 5
  {
    if polls > 0 { ClockGrows(s, polls - 1); }
  }

  /** With k slow-downs among the polls made, 5 k (k - 1) / 2 < L. */
  lemma SlowDownsAreBounded(s: Service, lifetime: int, polls: nat)
    requires lifetime > 0 && Made(s, lifetime, polls)
    ensures 5 * (SlowDowns(s, polls) * (SlowDowns(s, polls) - 1)) < 2 * lifetime
  {
    SumIs(SlowDowns(s, polls));
    if polls > 0 { WaitsAddUp(s, lifetime, polls); }
  }

  lemma WaitsAddUp(s: Service, lifetime: int, polls: nat)
    requires polls > 0 && Made(s, lifetime, polls)
    ensures 5 * Sum(SlowDowns(s, polls)) < lifetime
  {
    ClockGrows(s, polls - 1);
    AtMostOneMore(s, polls);
  }

  lemma AtMostOneMore(s: Service, polls: nat)
    requires polls > 0
    ensures Sum(SlowDowns(s, polls)) <= Sum(SlowDowns(s, polls - 1) + 1)
  {
  }

  /** The first wait is five seconds, and each wait is five longer than the last exactly if the answer in
      between was an OAuth `slow_down` or the status 429. */
  ghost predicate Paced(s: Service, waits: seq<nat>) {
    && (waits != [] ==> waits[0] == 5)
    && forall k: nat :: k + 1 < |waits| ==>
         waits[k + 1] ==
          if s.answer(k) == OAuthError("slow_down") || s.answer(k) == StatusError(429) then waits[k] + 5 else waits[k]
  }

  lemma IntervalsArePaced(s: Service, waits: seq<nat>)
    requires Intervals(s, waits)
    ensures Paced(s, waits)
  {
    forall k: nat | k + 1 < |waits|
      ensures waits[k + 1] ==
              if s.answer(k) == OAuthError("slow_down") || s.answer(k) == StatusError(429) then waits[k] + 5 else waits[k]
    {
      assert waits[k + 1] == Interval(s, k + 1) && waits[k] == Interval(s, k);
    }
  }

  /** Nanoseconds until the polls that `waits` precede have been answered. */
  ghost function Elapsed(s: Service, waits: seq<nat>): nat {
    if waits == [] then s.setup
    else Elapsed(s, waits[..|waits| - 1]) + 1_000_000_000 * waits[|waits| - 1] + s.latency(|waits| - 1)
  }

  lemma {:induction false} ClockIsElapsed(s: Service, waits: seq<nat>)
    requires Intervals(s, waits)
    ensures Clock(s, |waits|) == Elapsed(s, waits)
  {
    if waits != [] { ClockIsElapsed(s, waits[..|waits| - 1]); }
  }

  datatype Outcome = Token(token: string) | Expired

  ghost predicate Intervals(s: Service, waits: seq<nat>) {
    forall k: nat :: k < |waits| ==> waits[k] == Interval(s, k)
  }

  lemma Appended(s: Service, waits: seq<nat>, interval: nat)
    requires Intervals(s, waits) && interval == Interval(s, |waits|)
    ensures Intervals(s, waits + [interval]) && Paced(s, waits + [interval])
  {
    IntervalsArePaced(s, waits + [interval]);
  }

  /** Every poll is begun, with its wait, before the lifetime is over. */
  ghost predicate InTime(s: Service, lifetime: int, waits: seq<nat>) {
    forall k :: 0 <= k < |waits| ==> Elapsed(s, waits[..k]) < 1_000_000_000 * lifetime
  }

  lemma AppendedInTime(s: Service, lifetime: int, waits: seq<nat>, interval: nat)
    requires Intervals(s, waits) && InTime(s, lifetime, waits) && Clock(s, |waits|) < Nanos(lifetime)
    ensures InTime(s, lifetime, waits + [interval])
  {
    ClockIsElapsed(s, waits);
    forall k | 0 <= k <= |waits| ensures Elapsed(s, (waits + [interval])[..k]) < 1_000_000_000 * lifetime {
      assert (waits + [interval])[..k] == waits[..k];
      assert waits[..|waits|] == waits;
    }
  }

  /** The polling loop. It waits Interval(k) before poll k, starts no poll at or after the expiry, and
      stops at the first token; every error but a slow-down only means another poll. */
  method Poll(s: Service, lifetime: int) returns (outcome: Outcome, waits: seq<nat>)
    ensures Intervals(s, waits) && Paced(s, waits)
    ensures Made(s, lifetime, |waits|)
    ensures InTime(s, lifetime, waits)
    ensures outcome.Expired? ==> Elapsed(s, waits) >= 1_000_000_000 * lifetime
    ensures forall k: nat :: k + 1 < |waits| ==> !s.answer(k).Granted?
    ensures outcome.Token? ==> waits != [] && s.answer(|waits| - 1) == Granted(outcome.token)
    ensures outcome.Expired? ==> !Made(s, lifetime, |waits| + 1)
    ensures outcome.Expired? ==> forall k: nat :: k < |waits| ==> !s.answer(k).Granted?
  {
    var interval := FIRST_INTERVAL;
    var now := s.setup;
    waits := [];
    while now < Nanos(lifetime)
      invariant interval == Interval(s, |waits|) >= FIRST_INTERVAL && now == Clock(s, |waits|)
      invariant Made(s, lifetime, |waits|)
      invariant Intervals(s, waits) && Paced(s, waits)
      invariant InTime(s, lifetime, waits)
      invariant forall k: nat :: k < |waits| ==> !s.answer(k).Granted?
      decreases Nanos(lifetime) - now
    {
      now := now + Nanos(interval);
      var answer := s.answer(|waits|);
      now := now + s.latency(|waits|);
      Appended(s, waits, interval);
      AppendedInTime(s, lifetime, waits, interval);
      waits := waits + [interval];
      match answer {
        case Granted(token) => return Token(token), waits;
        case OAuthError(error) => if error == "slow_down" { interval := interval + SLOWER_BY; }
        case StatusError(code) => if code == 429 { interval := interval + SLOWER_BY; }
        case OtherError =>
      }
    }
    ClockIsElapsed(s, waits);
    outcome := Expired;
  }
}
