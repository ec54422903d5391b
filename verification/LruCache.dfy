/** The download cache: folders on disk and a persisted list of their names, most recently used first,
    from which the oldest is dropped when there are too many. */
module LruCache {
  import opened Util

  const KEEP_LRU := 5
  const RENAME_ATTEMPTS := 20

  function Min(a: nat, b: nat): nat {
    if a <= b then a else b
  }

  /** `s` without the first `x` in it. */
  function RemoveFirst(s: seq<string>, x: string): seq<string> {
    if s == [] then [] else if s[0] == x then s[1..] else [s[0]] + RemoveFirst(s[1..], x)
  }

  /** `s` without every `x` in it. */
  function Without(s: seq<string>, x: string): seq<string> {
    if s == [] then [] else (if s[0] == x then [] else [s[0]]) + Without(s[1..], x)
  }

  datatype Use = Touch(name: string) | Forget(name: string)

  /** The names used and not forgotten since, most recent first, however many there are. */
  function Recency(history: seq<Use>): seq<string> {
    if history == [] then []
    else
      var rest, last := Recency(history[..|history| - 1]), history[|history| - 1];
      if last.Touch? then [last.name] + Without(rest, last.name) else Without(rest, last.name)
  }

  /** `history` and `failures` (folders that could not be removed when their turn came) only record
      what happened. */
  datatype State = State(list: seq<string>, disk: set<string>, history: seq<Use>, failures: nat)

  const Empty := State([], {}, [], 0)

  function Used(s: State, name: string, removable: bool): State {
    Evicted(s.(list := [name] + RemoveFirst(s.list, name), history := s.history + [Touch(name)]), removable)
  }

  /** The last name goes, with its folder, if there are too many. */
  function Evicted(s: State, removable: bool): State {
    if |s.list| <= KEEP_LRU then s
    else
      var f := s.list[|s.list| - 1];
      if f !in s.disk || removable then s.(list := s.list[..|s.list| - 1], disk := s.disk - {f})
      else s.(failures := s.failures + 1)
  }

  datatype Event =
    | Exists(name: string, removable: bool)
    | Create(name: string, created: bool, removable: bool, renamed: bool)
    | Delete(name: string, removable: bool)

  function Next(s: State, e: Event): State {
    match e
    case Exists(name, removable) => if name in s.disk then Used(s, name, removable) else s
    case Create(name, created, removable, renamed) =>
      if name in s.disk || !created then s
      else
        var s' := Used(s, name, removable);
        if renamed then s'.(disk := s'.disk + {name}) else s'
    case Delete(name, removable) =>
      if name in s.disk && !removable then s
      else s.(list := Without(s.list, name), disk := s.disk - {name}, history := s.history + [Forget(name)])
  }

  function Run(s: State, trace: seq<Event>): State
    decreases |trace|
  {
    if trace == [] then s else Next(Run(s, trace[..|trace| - 1]), trace[|trace| - 1])
  }

  // ----- what counts as a use -----

  /** What an event is to the folders then on disk: a folder found and a folder built are uses, and a
      deletion that goes through forgets. */
  function UsesOf(disk: set<string>, e: Event): seq<Use> {
    match e
    case Exists(name, _) => if name in disk then [Touch(name)] else []
    case Create(name, created, _, _) => if name !in disk && created then [Touch(name)] else []
    case Delete(name, removable) => if name in disk && !removable then [] else [Forget(name)]
  }

  /** The uses of a whole run, read off its events and the folders each one found. */
  function UsesIn(trace: seq<Event>): seq<Use>
    decreases |trace|
  {
    if trace == [] then []
    else
      var init := trace[..|trace| - 1];
      UsesIn(init) + UsesOf(Run(Empty, init).disk, trace[|trace| - 1])
  }

  /** What a run has recorded as its history are its uses. */
  lemma {:induction false} HistoryIsUses(trace: seq<Event>)
    ensures Run(Empty, trace).history == UsesIn(trace)
    decreases |trace|
  {
    if trace != [] { HistoryIsUses(trace[..|trace| - 1]); }
  }

  /** Which folders are on disk after an event: a folder comes with a build whose rename works, and goes
      with a deletion that goes through or as the one evicted at a use. */
  lemma DiskAfter(s: State, e: Event, f: string)
    ensures var s' := Next(s, e);
      && (f in s'.disk && f !in s.disk ==> e.Create? && e.name == f && e.created && e.renamed)
      && (e.Create? && e.name !in s.disk && e.created && e.renamed ==> e.name in s'.disk)
      && (e.Delete? && e.removable ==> e.name !in s'.disk && s'.disk == s.disk - {e.name})
      && (UsesOf(s.disk, e) == [] ==> s' == s)
  {
    if e.Delete? && e.name !in s.disk { assert s.disk - {e.name} == s.disk; }
  }

  // ----- removing names from lists -----

  lemma {:induction false} WithoutMeaning(s: seq<string>, x: string)
    ensures forall y :: y in Without(s, x) <==> y in s && y != x
    ensures Distinct(s) ==> Distinct(Without(s, x))
    ensures Distinct(s) ==> |Without(s, x)| == if x in s then |s| - 1 else |s|
  {
    if s != [] {
      WithoutMeaning(s[1..], x);
      assert s == [s[0]] + s[1..];
      if Distinct(s) { DistinctRest(s); }
    }
  }

  lemma DistinctRest(s: seq<string>)
    requires s != [] && Distinct(s)
    ensures Distinct(s[1..]) && s[0] !in s[1..]
  {
    assert forall i :: 0 <= i < |s| - 1 ==> s[1..][i] == s[i + 1];
  }

  lemma {:induction false} RemoveFirstIsWithout(s: seq<string>, x: string)
    requires Distinct(s)
    ensures RemoveFirst(s, x) == Without(s, x)
  {
    if s != [] {
      DistinctRest(s);
      RemoveFirstIsWithout(s[1..], x);
      if s[0] == x { WithoutAbsent(s[1..], x); }
    }
  }

  lemma {:induction false} WithoutAbsent(s: seq<string>, x: string)
    requires x !in s
    ensures Without(s, x) == s
  {
    if s != [] {
      WithoutAbsent(s[1..], x);
      assert s == [s[0]] + s[1..];
    }
  }

  lemma {:induction false} WithoutConcat(a: seq<string>, b: seq<string>, x: string)
    ensures Without(a + b, x) == Without(a, x) + Without(b, x)
  {
    if a == [] {
      assert a + b == b;
    } else {
      assert (a + b)[1..] == a[1..] + b;
      WithoutConcat(a[1..], b, x);
    }
  }

  lemma WithoutKeepsPrefix(a: seq<string>, b: seq<string>, x: string)
    requires a <= b
    ensures Without(a, x) <= Without(b, x)
  {
    assert b == a + b[|a|..];
    WithoutConcat(a, b[|a|..], x);
  }

  /** Where `history` last speaks of `name`, or -1. */
  function LastAt(history: seq<Use>, name: string): (k: int)
    ensures -1 <= k < |history|
  {
    if history == [] then -1
    else if history[|history| - 1].name == name then |history| - 1
    else LastAt(history[..|history| - 1], name)
  }

  ghost predicate LatestFirst(names: seq<string>, history: seq<Use>) {
    forall i, j :: 0 <= i < j < |names| ==> LastAt(history, names[i]) > LastAt(history, names[j])
  }

  lemma {:induction false} WithoutLatestFirst(s: seq<string>, x: string, history: seq<Use>, u: Use)
    requires LatestFirst(s, history) && u.name == x
    ensures LatestFirst(Without(s, x), history + [u])
  {
    if s != [] {
      var rest := s[1..];
      assert forall i :: 0 <= i < |rest| ==> rest[i] == s[i + 1];
      WithoutLatestFirst(rest, x, history, u);
      WithoutMeaning(rest, x);
      assert (history + [u])[..|history|] == history;
      forall j | 0 <= j < |Without(rest, x)| && s[0] != x
        ensures LastAt(history + [u], s[0]) > LastAt(history + [u], Without(rest, x)[j])
      {
        assert Without(rest, x)[j] in rest;
      }
    }
  }

  /** The names by recency are those last used, not forgotten, each once, the latest use first. */
  lemma RecencyMeaning(history: seq<Use>)
    ensures Distinct(Recency(history)) && LatestFirst(Recency(history), history)
    ensures forall x :: x in Recency(history) <==> LastAt(history, x) >= 0 && history[LastAt(history, x)].Touch?
  {
    RecencyOrder(history);
    forall x ensures x in Recency(history) <==> LastAt(history, x) >= 0 && history[LastAt(history, x)].Touch? {
      RecencyMembers(history, x);
    }
  }

  lemma {:induction false} RecencyMembers(history: seq<Use>, x: string)
    ensures x in Recency(history) <==> LastAt(history, x) >= 0 && history[LastAt(history, x)].Touch?
  {
    if history != [] {
      RecencyMembers(history[..|history| - 1], x);
      WithoutMeaning(Recency(history[..|history| - 1]), history[|history| - 1].name);
    }
  }

  lemma {:induction false} RecencyOrder(history: seq<Use>)
    ensures Distinct(Recency(history)) && LatestFirst(Recency(history), history)
  {
    if history != [] {
      var init, last := history[..|history| - 1], history[|history| - 1];
      var rest := Without(Recency(init), last.name);
      RecencyOrder(init);
      WithoutMeaning(Recency(init), last.name);
      assert history == init + [last];
      WithoutLatestFirst(Recency(init), last.name, init, last);
      if last.Touch? { PutFirst(last.name, rest, history); }
    }
  }

  /** The name just used comes first. */
  lemma PutFirst(x: string, rest: seq<string>, history: seq<Use>)
    requires Distinct(rest) && LatestFirst(rest, history) && x !in rest
    requires history != [] && history[|history| - 1].name == x
    ensures Distinct([x] + rest) && LatestFirst([x] + rest, history)
  {
    forall j | 0 <= j < |rest| ensures x != rest[j] && LastAt(history, x) > LastAt(history, rest[j]) {
      assert rest[j] in rest;
    }
  }

  lemma RecencySnoc(history: seq<Use>, u: Use)
    ensures Recency(history + [u]) ==
            (if u.Touch? then [u.name] else []) + Without(Recency(history), u.name)
  {
    assert (history + [u])[..|history|] == history;
  }

  // ----- what every run keeps -----

  ghost predicate Forgetless(history: seq<Use>) {
    forall u :: u in history ==> u.Touch?
  }

  /** The list is the most recent part of the whole history, long enough unless something was deleted,
      at most one longer than it should be for each failed removal, and covers all folders on disk. */
  ghost predicate Inv(s: State) {
    && s.list <= Recency(s.history)
    && (Forgetless(s.history) ==> |s.list| >= Min(KEEP_LRU, |Recency(s.history)|))
    && |s.list| <= KEEP_LRU + s.failures
    && forall f :: f in s.disk ==> f in s.list
  }

  lemma ListIsDistinct(s: State)
    requires Inv(s)
    ensures Distinct(s.list)
  {
    RecencyMeaning(s.history);
  }

  /** The list with the name moved to the front, before anything is dropped. */
  lemma MovedToFront(s: State, name: string)
    requires Inv(s)
    ensures var l := [name] + RemoveFirst(s.list, name);
            var h := s.history + [Touch(name)];
            && l <= Recency(h) && Distinct(l)
            && |s.list| <= |l| <= |s.list| + 1
            && (Forgetless(h) ==> |l| >= Min(KEEP_LRU, |Recency(h)|))
            && (forall f :: f in s.list ==> f in l)
  {
    ListIsDistinct(s);
    RecencyMeaning(s.history);
    RemoveFirstIsWithout(s.list, name);
    RecencySnoc(s.history, Touch(name));
    WithoutKeepsPrefix(s.list, Recency(s.history), name);
    WithoutMeaning(s.list, name);
    WithoutMeaning(Recency(s.history), name);
    ForgetlessInit(s.history, Touch(name));
    PrefixSize(s.list, Recency(s.history), name);
  }

  lemma ForgetlessInit(history: seq<Use>, u: Use)
    ensures Forgetless(history + [u]) ==> Forgetless(history)
  {
    assert forall v :: v in history ==> v in history + [u];
  }

  lemma PrefixSize(a: seq<string>, b: seq<string>, x: string)
    requires a <= b && Distinct(b)
    ensures x in a ==> x in b
    ensures x in b && x !in a ==> |a| < |b|
  {
  }

  lemma UsedKeepsInv(s: State, name: string, removable: bool)
    requires Inv(s)
    ensures Inv(Used(s, name, removable))
    ensures Used(s, name, removable).list[0] == name
  {
    MovedToFront(s, name);
    EvictedKeepsInv(s.(list := [name] + RemoveFirst(s.list, name), history := s.history + [Touch(name)]), removable);
  }

  /** `Inv` but for one name that may be too many. */
  ghost predicate OneOver(s: State) {
    && s.list <= Recency(s.history) && Distinct(s.list)
    && (Forgetless(s.history) ==> |s.list| >= Min(KEEP_LRU, |Recency(s.history)|))
    && 0 < |s.list| <= KEEP_LRU + s.failures + 1
    && forall f :: f in s.disk ==> f in s.list
  }

  lemma EvictedKeepsInv(s: State, removable: bool)
    requires OneOver(s)
    ensures Inv(Evicted(s, removable))
    ensures Evicted(s, removable).list[0] == s.list[0]
  {
    var l := s.list;
    if |l| > KEEP_LRU {
      var f := l[|l| - 1];
      assert l == l[..|l| - 1] + [f];
    }
  }

  lemma DeleteKeepsInv(s: State, name: string)
    requires Inv(s)
    ensures Inv(Next(s, Delete(name, true)))
  {
    RecencySnoc(s.history, Forget(name));
    WithoutKeepsPrefix(s.list, Recency(s.history), name);
    ListIsDistinct(s);
    WithoutMeaning(s.list, name);
    assert [] + Without(Recency(s.history), name) == Without(Recency(s.history), name);
    assert Forget(name) in s.history + [Forget(name)];
  }

  lemma StepKeepsInv(s: State, e: Event)
    requires Inv(s)
    ensures Inv(Next(s, e))
  {
    match e
    case Exists(name, removable) => UsedKeepsInv(s, name, removable);
    case Create(name, _, removable, _) => UsedKeepsInv(s, name, removable);
    case Delete(name, _) => DeleteKeepsInv(s, name);
  }

  lemma {:induction false} RunKeepsInv(trace: seq<Event>)
    ensures Inv(Run(Empty, trace))
    decreases |trace|
  {
    if trace != [] {
      RunKeepsInv(trace[..|trace| - 1]);
      StepKeepsInv(Run(Empty, trace[..|trace| - 1]), trace[|trace| - 1]);
    }
  }

  /** Over every run, whatever fails and whatever is deleted: the list is a leading part of the names used
      by recency, so without duplicates; it grows by at most one at a time and is never more than five
      longer than the number of failed removals; and no folder is on disk that the list has lost. */
  lemma ListFollowsRecency(trace: seq<Event>, e: Event)
    ensures var s := Run(Empty, trace);
            && s.list <= Recency(UsesIn(trace)) && Distinct(s.list)
            && |s.list| <= 5 + s.failures
            && |Next(s, e).list| <= |s.list| + 1
            && (forall f :: f in s.disk ==> f in s.list)
  {
    var s := Run(Empty, trace);
    HistoryIsUses(trace);
    RunKeepsInv(trace);
    ListIsDistinct(s);
    GrowsByOne(s, e);
  }

  lemma GrowsByOne(s: State, e: Event)
    requires Inv(s)
    ensures |Next(s, e).list| <= |s.list| + 1
  {
    match e
    case Exists(name, _) => MovedToFront(s, name);
    case Create(name, _, _, _) => MovedToFront(s, name);
    case Delete(name, _) =>
      ListIsDistinct(s);
      WithoutMeaning(s.list, name);
  }

  /** With no deletion and no failed removal the list is exactly the five most recent names. */
  lemma ExactlyTheMostRecent(trace: seq<Event>)
    requires Run(Empty, trace).failures == 0 && Forgetless(UsesIn(trace))
    ensures var names := Recency(UsesIn(trace));
            Run(Empty, trace).list == if |names| <= 5 then names else names[..5]
  {
    HistoryIsUses(trace);
    RunKeepsInv(trace);
  }

  /** A name too many goes if its folder is gone already or can be removed, and stays otherwise. */
  lemma DropsTheLast(s: State, name: string, removable: bool)
    requires Inv(s)
    ensures var l, used := [name] + Without(s.list, name), Used(s, name, removable).list;
      used == if |l| > 5 && (removable || l[|l| - 1] !in s.disk) then l[..|l| - 1] else l
  {
    ListIsDistinct(s);
    RemoveFirstIsWithout(s.list, name);
  }

  /** Folders go one at a time: never the one just used, and only the oldest of the others, once five
      names are listed. */
  lemma EvictsTheOldestOther(s: State, name: string, removable: bool, f: string)
    requires Inv(s) && f in s.disk && f !in Used(s, name, removable).disk
    ensures f != name && |s.list| >= KEEP_LRU
    ensures var others := Without(s.list, name); others != [] && f == others[|others| - 1]
  {
    ListIsDistinct(s);
    RemoveFirstIsWithout(s.list, name);
    WithoutMeaning(s.list, name);
  }

  /** So over every run the name just used is kept, in the list and on disk. */
  lemma NeverEvictsTheNewest(trace: seq<Event>, name: string, removable: bool)
    ensures var s := Run(Empty, trace);
            var s' := Used(s, name, removable);
            && s'.list != [] && s'.list[0] == name
            && (name in s.disk ==> name in s'.disk)
  {
    var s := Run(Empty, trace);
    RunKeepsInv(trace);
    UsedKeepsInv(s, name, removable);
    if name in s.disk && name !in Used(s, name, removable).disk {
      EvictsTheOldestOther(s, name, removable, name);
    }
  }

  // ----- the cache object -----

  /** The file system's answers: whether a folder can be removed, and whether the n-th rename succeeds. */
  datatype Os = Os(removable: bool, created: bool, rename: nat -> bool)

  /** `x` is in `s` first at `k`, or nowhere and `k` is the end. */
  ghost predicate FirstAt(s: seq<string>, x: string, k: nat) {
    k <= |s| && (forall j :: 0 <= j < k ==> s[j] != x) && (k < |s| ==> s[k] == x)
  }

  lemma {:induction false} RemoveFirstAt(s: seq<string>, x: string, k: nat)
    requires FirstAt(s, x, k)
    ensures RemoveFirst(s, x) == if k < |s| then s[..k] + s[k + 1..] else s
  {
    if 0 < k {
      var rest, j := s[1..], k - 1;
      assert FirstAt(rest, x, j);
      RemoveFirstAt(rest, x, j);
      SkipHead(s, k);
    }
  }

  lemma SkipHead(s: seq<string>, k: nat)
    requires 0 < k <= |s|
    ensures k < |s| ==> [s[0]] + (s[1..][..k - 1] + s[1..][k..]) == s[..k] + s[k + 1..]
    ensures [s[0]] + s[1..] == s
  {
  }

  method Position(s: seq<string>, x: string) returns (k: nat)
    ensures FirstAt(s, x, k)
  {
    k := 0;
    while k < |s| && s[k] != x
      invariant k <= |s| && forall j :: 0 <= j < k ==> s[j] != x
    {
      k := k + 1;
    }
  }

  class DownloadCache {
    var list: seq<string>
    var disk: set<string>
    ghost var history: seq<Use>
    ghost var failures: nat

    ghost function Abstract(): State
      reads this
    {
      State(list, disk, history, failures)
    }

    constructor ()
      ensures Abstract() == Empty
    {
      list, disk, history, failures := [], {}, [], 0;
    }

    method Touch(name: string, removable: bool)
      modifies this
      ensures Abstract() == Used(old(Abstract()), name, removable)
    {
      history := history + [Use.Touch(name)];
      var index := Position(list, name);
      RemoveFirstAt(list, name, index);
      if index < |list| {
        list := list[..index] + list[index + 1..];
      }
      list := [name] + list;
      Evict(removable);
    }

    method Evict(removable: bool)
      modifies this
      ensures Abstract() == Evicted(old(Abstract()), removable)
    {
      if |list| <= KEEP_LRU {
        return;
      }
      var f := list[|list| - 1];
      if f !in disk || removable {
        disk := disk - {f};
        list := list[..|list| - 1];
      } else {
        failures := failures + 1;
      }
    }

    method Exists(name: string, os: Os) returns (found: bool)
      modifies this
      ensures found <==> name in old(disk)
      ensures found ==> list != [] && list[0] == name
      ensures !found ==> list == old(list) && disk == old(disk)
      ensures Abstract() == Next(old(Abstract()), Event.Exists(name, os.removable))
    {
      found := name in disk;
      if found {
        Touch(name, os.removable);
      }
    }

    method Delete(name: string, os: Os) returns (ok: bool)
      modifies this
      ensures ok <==> name !in old(disk) || os.removable
      ensures if ok then name !in list && disk == old(disk) - {name} else list == old(list) && disk == old(disk)
      ensures Abstract() == Next(old(Abstract()), Event.Delete(name, os.removable))
    {
      if name in disk {
        if !os.removable {
          return false;
        }
        disk := disk - {name};
      }
      assert disk == old(disk) - {name};
      history := history + [Use.Forget(name)];
      WithoutMeaning(list, name);
      list := Without(list, name);
      ok := true;
    }

    /** Returns a folder that is on disk, or fails; a name that could not be renamed into place in 21
        attempts stays in the list without a folder. */
    method Create(name: string, os: Os) returns (ok: bool)
      modifies this
      ensures ok <==> name in disk
      ensures ok <==> name in old(disk) || (os.created && exists n :: 0 <= n <= 20 && os.rename(n))
      ensures if name in old(disk) || !os.created then list == old(list) && disk == old(disk)
              else list != [] && list[0] == name
      ensures Abstract() == Next(old(Abstract()), Event.Create(name, os.created, os.removable, ok))
    {
      if name in disk {
        return true;
      }
      if !os.created {
        return false;
      }
      Touch(name, os.removable);
      var attempt := 0;
      while true
        invariant 0 <= attempt <= RENAME_ATTEMPTS
        invariant forall n :: 0 <= n < attempt ==> !os.rename(n)
        invariant Abstract() == Used(old(Abstract()), name, os.removable)
        decreases RENAME_ATTEMPTS - attempt
      {
        if os.rename(attempt) {
          disk := disk + {name};
          return true;
        }
        if attempt == RENAME_ATTEMPTS {
          return false;
        }
        attempt := attempt + 1;
      }
    }
  }
}
