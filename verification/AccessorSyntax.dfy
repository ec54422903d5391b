/** Syntax trees as the accessor lint sees them, and the order in which a body evaluates. */
module AccessorSyntax {
  import opened Util

  /** What is called: an expression, a member of one (`a.m(...)`), or a class (`new`). */
  datatype Shape = Direct | Method | Construct

  /** `Unvisited` stands for two things. One is a node type `walkChildren` does not list, as `a?.b()`, a
      labelled statement, or `yield e`, which is `Unvisited([Await(e)])`. The other is a part that a listed
      node evaluates and the walk skips: the pattern of a declaration or of a `catch` (defaults, computed
      keys), a computed key of an object literal. So `const { a = d } = o` is `Row([o, Unvisited([d])])`
      and `{ [k]: v }` is `Row([Unvisited([k]), v])`.

      A call whose callee is a member expression is a `Method` call: its `target` is the receiver and, if
      computed, the property. `(a as T).m()` and `a!.m()` are `Method` calls on `Row([a])`. An assignment
      `a ||= b` is `Logical`.

      `Loop` has the parts of a `for` in the order in which they are walked; in each round the test comes first,
      then the body, then the update, and in a `do` the body also comes once before all that. The left side
      `l` of `for (l of r) b` is walked once, before `r`, and evaluated in each round: the loop is
      `Row([l, Loop(false, [r], [], [], Row([Unvisited([l]), b]))])`, or with `ForAwait` in place of `Loop`; if
      `l` declares plain names, it is just `Loop(false, [r], [], [], b)`. */
  datatype Node =
    | Ident(name: string, at: nat) // `at`: where it stands; a shadowing name is another name
    | Leaf                        // literals, `this` and other nodes that evaluate nothing of interest
    | Break
    | Continue
    | NestedFunction(code: Node)  // a function value: creating it runs none of its code
    | Unvisited(parts: seq<Node>) // evaluated, but `walkChildren` does not go there
    | Await(argument: Node)
    | Call(shape: Shape, target: seq<Node>, args: seq<Node>)
    | Member(receiver: Node, property: Node, computed: bool)
    | Row(parts: seq<Node>)       // every other listed node: all it evaluates, left to right
    | Logical(left: Node, right: Node)
    | Conditional(test: Node, consequent: Node, alternate: Node)
    | Block(body: seq<Node>)
    | If(test: Node, consequent: Node, otherwise: Option<Node>)
    | Return(result: Option<Node>)
    | Throw(result: Option<Node>)
    | Loop(bodyFirst: bool, head: seq<Node>, check: seq<Node>, update: seq<Node>, round: Node)
    | ForAwait(right: Node, round: Node)     // `for await (const x of right) body`
    | Switch(discriminant: Node, cases: seq<Case>)
    | Try(block: Node, handler: Option<Node>, finalizer: Option<Node>)

  datatype Case = Case(test: Option<Node>, body: seq<Node>)

  /** `p` holds of `n` and of every node below it, those in nested functions only if `deep`. */
  predicate All(n: Node, p: Node -> bool, deep: bool) {
    p(n) && match n
    case NestedFunction(code) => deep ==> All(code, p, deep)
    case Unvisited(parts) => forall m :: m in parts ==> All(m, p, deep)
    case Await(m) => All(m, p, deep)
    case Call(_, target, args) =>
      (forall m :: m in target ==> All(m, p, deep)) && (forall m :: m in args ==> All(m, p, deep))
    case Member(receiver, property, computed) => All(receiver, p, deep) && (computed ==> All(property, p, deep))
    case Row(parts) => forall m :: m in parts ==> All(m, p, deep)
    case Logical(left, right) => All(left, p, deep) && All(right, p, deep)
    case Conditional(test, yes, no) => All(test, p, deep) && All(yes, p, deep) && All(no, p, deep)
    case Block(body) => forall m :: m in body ==> All(m, p, deep)
    case If(test, yes, no) => All(test, p, deep) && All(yes, p, deep) && (no.Some? ==> All(no.value, p, deep))
    case Return(m) => m.Some? ==> All(m.value, p, deep)
    case Throw(m) => m.Some? ==> All(m.value, p, deep)
    case Loop(_, head, check, update, round) =>
      && (forall m :: m in head ==> All(m, p, deep)) && (forall m :: m in check ==> All(m, p, deep))
      && (forall m :: m in update ==> All(m, p, deep)) && All(round, p, deep)
    case ForAwait(right, body) => All(right, p, deep) && All(body, p, deep)
    case Switch(d, cases) =>
      All(d, p, deep) && forall c :: c in cases ==>
        (c.test.Some? ==> All(c.test.value, p, deep)) && forall m :: m in c.body ==> All(m, p, deep)
    case Try(block, handler, finalizer) =>
      && All(block, p, deep)
      && (handler.Some? ==> All(handler.value, p, deep)) && (finalizer.Some? ==> All(finalizer.value, p, deep))
    case _ => true
  }

  // ----- evaluation -----

  /** `aliases`: other names that may hold the accessor. `late`: besides being used when its name is
      evaluated, the accessor is used when a call it is the receiver or an argument of is made. */
  datatype Rules = Rules(accessor: string, aliases: set<string>, late: bool)

  /** A name for the accessor. */
  predicate Refers(n: Node, rules: Rules) {
    n.Ident? && (n.name == rules.accessor || n.name in rules.aliases)
  }

  /** What a node may do when it is evaluated: suspend, use the accessor (by the name at one place, or by
      any), or jump out. */
  datatype Effect = Suspends | Uses(which: Option<nat>) | Leaps

  predicate FreeHere(m: Node, e: Effect, rules: Rules) {
    match e
    case Suspends => !m.Await? && !m.ForAwait?
    case Uses(which) => !(Refers(m, rules) && (which.None? || which.value == m.at))
    case Leaps => !m.Break? && !m.Continue?
  }

  function FreeOf(e: Effect, rules: Rules): Node -> bool {
    (m: Node) => FreeHere(m, e, rules)
  }

  /** Nothing in `n` has the effect. What a function value does counts only for uses: it neither suspends
      nor leaves the function that creates it. */
  predicate Free(n: Node, e: Effect, rules: Rules) {
    All(n, FreeOf(e, rules), e.Uses?)
  }

  predicate AllFree(ns: seq<Node>, e: Effect, rules: Rules) {
    forall m :: m in ns ==> Free(m, e, rules)
  }

  /** `Use(at)`: the accessor is used by the name at `at`. */
  datatype Event = Suspend | Use(at: nat)

  /** How evaluation of a node ends. */
  datatype End = Normal | Breaks | Continues | Returns | Throws

  predicate IsJump(e: End) { e.Breaks? || e.Continues? }

  datatype Trace = Trace(events: seq<Event>, end: End)

  const Nothing := Trace([], Normal)

  /** One execution path: which way each node on it goes. Any oracle describes a path of any node. */
  datatype Oracle = Oracle(pick: nat, parts: seq<Oracle>)

  function Part(p: Oracle, i: nat): Oracle {
    if i < |p.parts| then p.parts[i] else Oracle(0, [])
  }

  function Head(ps: seq<Oracle>): Oracle {
    if ps == [] then Oracle(0, []) else ps[0]
  }

  function Tail(ps: seq<Oracle>): seq<Oracle> {
    if ps == [] then [] else ps[1..]
  }

  function Then(a: Trace, b: Trace): Trace {
    if a.end != Normal then a else Trace(a.events + b.events, b.end)
  }

  /** An exception after `k - 1` events of `tr`; none if `k` is 0. */
  function Cut(tr: Trace, k: nat): Trace {
    if k == 0 then tr else Trace(if k - 1 <= |tr.events| then tr.events[..k - 1] else tr.events, Throws)
  }

  /** The body of a loop and then, unless it leaves the loop, the rest of its run. */
  function Go(body: Trace, rest: Trace): Trace {
    if body.end.Breaks? then Trace(body.events, Normal)
    else if body.end.Returns? || body.end.Throws? then body
    else Trace(body.events + rest.events, rest.end)
  }

  /** What a jump out of `tr` means where it is caught. */
  function Caught(tr: Trace, all: bool): Trace {
    if tr.end.Breaks? || (all && tr.end.Continues?) then tr.(end := Normal) else tr
  }

  /** The part of a nested function's run that its caller waits for. */
  function Synchronous(events: seq<Event>): seq<Event> {
    if events == [] || events[0] == Suspend then [] else [events[0]] + Synchronous(events[1..])
  }

  /** The names for the accessor among the values handed to a call. */
  function Handed(ns: seq<Node>, rules: Rules): seq<Event> {
    if ns == [] then []
    else (if Refers(ns[0], rules) then [Use(ns[0].at)] else []) + Handed(ns[1..], rules)
  }

  /** The case that choice `pick` enters: that one, or the default, or none. */
  function Entry(cases: seq<Case>, pick: nat): (k: nat)
    ensures k <= |cases| && (pick < |cases| ==> k == pick)
  {
    if pick < |cases| then pick else DefaultAt(cases)
  }

  function DefaultAt(cases: seq<Case>): (k: nat)
    ensures k <= |cases| && (k < |cases| ==> cases[k].test.None?)
    ensures forall j :: 0 <= j < k ==> cases[j].test.Some?
  {
    if cases == [] || cases[0].test.None? then 0 else 1 + DefaultAt(cases[1..])
  }

  /** How many cases have their tests evaluated before the one entered: all if it is the default or none. */
  function TestsBefore(cases: seq<Case>, entry: nat): nat {
    if entry < |cases| && cases[entry].test.Some? then entry else |cases|
  }

  /** What happens along path `p` of `n`. Branches and tests may go either way, and an exception may come at
      any point of a tried block. A call may run the function values that are its target or its arguments,
      once all of those are evaluated. A jump may end at a node that is not listed, as a labelled statement
      is not. */
  function Exec(n: Node, rules: Rules, p: Oracle): Trace
    decreases n, 1, 0
  {
    match n
    case Ident(_, at) => if Refers(n, rules) then Trace([Use(at)], Normal) else Nothing
    case Leaf => Nothing
    case NestedFunction(_) => Nothing
    case Break => Trace([], Breaks)
    case Continue => Trace([], Continues)
    case Unvisited(parts) =>
      var tr := ExecAll(parts, rules, p.parts);
      if p.pick > 0 then Caught(tr, true) else tr
    case Await(m) => Then(Exec(m, rules, Part(p, 0)), Trace([Suspend], Normal))
    case Call(_, target, args) =>
      Then(Then(ExecAll(target, rules, Part(p, 0).parts), ExecAll(args, rules, Part(p, 1).parts)),
           Trace((if rules.late then Handed(target, rules) + Handed(args, rules) else []) +
                 (RunAll(target, rules, Part(p, 0).parts) + RunAll(args, rules, Part(p, 1).parts)), Normal))
    case Member(receiver, property, computed) =>
      if computed then Then(Exec(receiver, rules, Part(p, 0)), Exec(property, rules, Part(p, 1)))
      else Exec(receiver, rules, Part(p, 0))
    case Row(parts) => ExecAll(parts, rules, p.parts)
    case Logical(left, right) =>
      if p.pick == 0 then Exec(left, rules, Part(p, 0))
      else Then(Exec(left, rules, Part(p, 0)), Exec(right, rules, Part(p, 1)))
    case Conditional(test, yes, no) =>
      Then(Exec(test, rules, Part(p, 0)),
           if p.pick == 0 then Exec(yes, rules, Part(p, 1)) else Exec(no, rules, Part(p, 1)))
    case Block(body) => ExecAll(body, rules, p.parts)
    case If(test, yes, no) =>
      Then(Exec(test, rules, Part(p, 0)),
           if p.pick == 0 then Exec(yes, rules, Part(p, 1))
           else if no.Some? then Exec(no.value, rules, Part(p, 1)) else Nothing)
    case Return(m) => Then(if m.Some? then Exec(m.value, rules, Part(p, 0)) else Nothing, Trace([], Returns))
    case Throw(m) => Then(if m.Some? then Exec(m.value, rules, Part(p, 0)) else Nothing, Trace([], Throws))
    case Loop(bodyFirst, head, _, _, round) =>
      var rounds := ExecRounds(n, rules, Part(p, 1).parts);
      Then(ExecAll(head, rules, Part(p, 0).parts),
           if bodyFirst then Go(Exec(round, rules, Part(p, 2)), rounds) else rounds)
    case ForAwait(right, body) =>
      Then(Exec(right, rules, Part(p, 0)), ExecAwaitRounds(body, rules, Part(p, 1).parts))
    case Switch(d, cases) =>
      var entry := Entry(cases, p.pick);
      Then(Exec(d, rules, Part(p, 0)),
           Caught(Then(ExecTests(cases, rules, TestsBefore(cases, entry), Part(p, 1).parts),
                       ExecFrom(cases, rules, entry, Part(p, 2).parts)), false))
    case Try(block, handler, finalizer) =>
      var tried := Cut(Exec(block, rules, Part(p, 0)), p.pick);
      var main :=
        if tried.end.Throws? && handler.Some? then
          var caught := Cut(Exec(handler.value, rules, Part(p, 1)), Part(p, 2).pick);
          Trace(tried.events + caught.events, caught.end)
        else tried;
      if finalizer.None? then main
      else
        var last := Exec(finalizer.value, rules, Part(p, 3));
        Trace(main.events + last.events, if last.end.Normal? then main.end else last.end)
  }

  function ExecAll(ns: seq<Node>, rules: Rules, ps: seq<Oracle>): Trace
    decreases ns, 0, 0
  {
    if ns == [] then Nothing
    else Then(Exec(ns[0], rules, Head(ps)), ExecAll(ns[1..], rules, Tail(ps)))
  }

  /** A function value is run if the oracle says so; its caller goes on when it suspends or ends. */
  function Run(n: Node, rules: Rules, o: Oracle): seq<Event>
    decreases n, 0, 0
  {
    if n.NestedFunction? && o.pick > 0 then Synchronous(Exec(n.code, rules, Part(o, 0)).events) else []
  }

  function RunAll(ns: seq<Node>, rules: Rules, ps: seq<Oracle>): seq<Event>
    decreases ns, 0, 0
  {
    if ns == [] then [] else Run(ns[0], rules, Head(ps)) + RunAll(ns[1..], rules, Tail(ps))
  }

  /** A loop from its test on: a full round for all oracles but the last, which is for the final test. */
  function ExecRounds(n: Node, rules: Rules, rounds: seq<Oracle>): Trace
    requires n.Loop?
    decreases n, 0, |rounds|
  {
    Then(ExecAll(n.check, rules, Part(Head(rounds), 0).parts),
         if |rounds| <= 1 then Nothing
         else
           Go(Exec(n.round, rules, Part(Head(rounds), 1)),
              Then(ExecAll(n.update, rules, Part(Head(rounds), 2).parts), ExecRounds(n, rules, rounds[1..]))))
  }

  function ExecAwaitRounds(body: Node, rules: Rules, rounds: seq<Oracle>): Trace
    decreases body, 2, |rounds|
  {
    Then(Trace([Suspend], Normal),
         if rounds == [] then Nothing
         else Go(Exec(body, rules, rounds[0]), ExecAwaitRounds(body, rules, rounds[1..])))
  }

  function ExecTest(c: Case, rules: Rules, p: Oracle): Trace
    decreases c, 0, 0
  {
    if c.test.Some? then Exec(c.test.value, rules, p) else Nothing
  }

  /** The first `count` case tests. */
  function ExecTests(cases: seq<Case>, rules: Rules, count: nat, ps: seq<Oracle>): Trace
    decreases cases, 0, 0
  {
    if cases == [] || count == 0 then Nothing
    else Then(ExecTest(cases[0], rules, Head(ps)), ExecTests(cases[1..], rules, count - 1, Tail(ps)))
  }

  /** Case number `skip` with its own test, and the bodies after it. */
  function ExecFrom(cases: seq<Case>, rules: Rules, skip: nat, ps: seq<Oracle>): Trace
    decreases cases, 1, 0
  {
    if cases == [] then Nothing
    else if skip > 0 then ExecFrom(cases[1..], rules, skip - 1, ps)
    else Then(Then(ExecTest(cases[0], rules, Part(Head(ps), 0)), ExecAll(cases[0].body, rules, Part(Head(ps), 1).parts)),
              ExecBodies(cases[1..], rules, Tail(ps)))
  }

  function ExecBodies(cases: seq<Case>, rules: Rules, ps: seq<Oracle>): Trace
    decreases cases, 0, 0
  {
    if cases == [] then Nothing
    else Then(ExecAll(cases[0].body, rules, Part(Head(ps), 1).parts), ExecBodies(cases[1..], rules, Tail(ps)))
  }

  // ----- the defect the rule is for -----

  /** The name at `at` is used after a suspension. */
  ghost predicate UsedAfterSuspend(events: seq<Event>, at: nat) {
    exists i, j :: 0 <= i < j < |events| && events[i] == Suspend && events[j] == Use(at)
  }

  /** The same, when a suspension may already have happened. */
  predicate Bad(suspended: bool, events: seq<Event>, at: nat)
    decreases events
  {
    if events == [] then false
    else if events[0] == Suspend then Bad(true, events[1..], at)
    else (suspended && events[0] == Use(at)) || Bad(suspended, events[1..], at)
  }

  lemma {:induction false} BadConcat(suspended: bool, a: seq<Event>, b: seq<Event>, at: nat)
    ensures Bad(suspended, a + b, at) <==> Bad(suspended, a, at) || Bad(suspended || Suspend in a, b, at)
    decreases a
  {
    if a == [] {
      assert a + b == b;
    } else {
      assert (a + b)[1..] == a[1..] + b;
      BadConcat(suspended || a[0] == Suspend, a[1..], b, at);
      assert a == [a[0]] + a[1..];
    }
  }

  lemma {:induction false} BadGrows(events: seq<Event>, at: nat)
    ensures Bad(false, events, at) ==> Bad(true, events, at)
  {
    if events != [] { BadGrows(events[1..], at); }
  }

  /** Without a suspension in `events`, only an earlier one can make a use bad. */
  lemma {:induction false} BadQuiet(suspended: bool, events: seq<Event>, at: nat)
    requires Suspend !in events
    ensures Bad(suspended, events, at) <==> suspended && Use(at) in events
  {
    if events != [] {
      assert events == [events[0]] + events[1..];
      assert events[0] in events;
      BadQuiet(suspended, events[1..], at);
    }
  }

  lemma {:induction false} BadMeaning(suspended: bool, events: seq<Event>, at: nat)
    ensures Bad(suspended, events, at) <==> (suspended && Use(at) in events) || UsedAfterSuspend(events, at)
    decreases events
  {
    if events != [] {
      BadMeaning(suspended || events[0] == Suspend, events[1..], at);
      assert events == [events[0]] + events[1..];
      LaterAgrees(events, at);
    }
  }

  lemma LaterAgrees(events: seq<Event>, at: nat)
    requires events != []
    ensures UsedAfterSuspend(events, at) <==>
            UsedAfterSuspend(events[1..], at) || (events[0] == Suspend && Use(at) in events[1..])
  {
    var rest := events[1..];
    if UsedAfterSuspend(rest, at) {
      var i, j :| 0 <= i < j < |rest| && rest[i] == Suspend && rest[j] == Use(at);
      assert events[i + 1] == Suspend && events[j + 1] == Use(at);
    }
    if events[0] == Suspend && Use(at) in rest {
      var j :| 0 <= j < |rest| && rest[j] == Use(at);
      assert events[0] == Suspend && events[j + 1] == Use(at);
    }
    if UsedAfterSuspend(events, at) {
      var i, j :| 0 <= i < j < |events| && events[i] == Suspend && events[j] == Use(at);
      assert rest[j - 1] == Use(at);
      if i > 0 { assert rest[i - 1] == Suspend; }
    }
  }
}
