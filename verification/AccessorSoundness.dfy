/** What the accessor lint guarantees: on which paths it misses no use after a suspension, and in which
    bodies all paths are of that kind. */
module AccessorSoundness {
  import opened Util
  import opened AccessorSyntax
  import opened AccessorLint

  /** What the walk skips does nothing of interest, function values included; the accessor's name stands
      only where the walk looks for it, as the receiver of a method call or as an argument of a call, and
      no other name holds it; and no `switch` is without cases. */
  predicate Handled(n: Node, rules: Rules) {
    All(n, HandledOf(rules), false)
  }

  function HandledOf(rules: Rules): Node -> bool {
    (m: Node) => HandledHere(m, rules)
  }

  predicate Nameless(ns: seq<Node>, rules: Rules) {
    forall m :: m in ns ==> !Refers(m, rules)
  }

  /** Only the accessor's own name, and only where it counts: the first of `ns` if `first`, or any if `every`. */
  predicate NamedWell(ns: seq<Node>, first: bool, every: bool, rules: Rules) {
    forall i :: 0 <= i < |ns| && Refers(ns[i], rules) ==>
      ns[i].name == rules.accessor && (every || (first && i == 0))
  }

  predicate HandledHere(m: Node, rules: Rules) {
    match m
    case NestedFunction(code) => Free(code, Uses(None), rules)
    case Unvisited(parts) => forall a :: a in parts ==> Silent(a, rules)
    case Await(a) => !Refers(a, rules)
    case Call(shape, target, args) =>
      NamedWell(target, shape.Method?, false, rules) && NamedWell(args, false, !shape.Construct?, rules)
    case Member(receiver, property, computed) => !Refers(receiver, rules) && (computed ==> !Refers(property, rules))
    case Row(parts) => Nameless(parts, rules)
    case Logical(left, right) => !Refers(left, rules) && !Refers(right, rules)
    case Conditional(test, yes, no) => !Refers(test, rules) && !Refers(yes, rules) && !Refers(no, rules)
    case Block(body) => Nameless(body, rules)
    case If(test, yes, no) =>
      !Refers(test, rules) && !Refers(yes, rules) && (no.Some? ==> !Refers(no.value, rules))
    case Return(a) => a.Some? ==> !Refers(a.value, rules)
    case Throw(a) => a.Some? ==> !Refers(a.value, rules)
    case Loop(_, head, check, update, round) =>
      Nameless(head, rules) && Nameless(check, rules) && Nameless(update, rules) && !Refers(round, rules)
    case ForAwait(right, round) => !Refers(right, rules) && !Refers(round, rules)
    case Switch(d, cases) =>
      !Refers(d, rules) && cases != [] && forall c :: c in cases ==> NamelessCase(c, rules)
    case Try(block, handler, finalizer) =>
      && !Refers(block, rules)
      && (handler.Some? ==> !Refers(handler.value, rules)) && (finalizer.Some? ==> !Refers(finalizer.value, rules))
    case _ => true
  }

  predicate NamelessCase(c: Case, rules: Rules) {
    (c.test.Some? ==> !Refers(c.test.value, rules)) && Nameless(c.body, rules)
  }

  predicate Silent(n: Node, rules: Rules) {
    Free(n, Suspends, rules) && Free(n, Uses(None), rules)
  }

  // ----- code free of an effect never has it -----

  ghost predicate Shows(tr: Trace, e: Effect) {
    match e
    case Suspends => Suspend in tr.events
    case Uses(which) => UsesIn(tr.events, which)
    case Leaps => IsJump(tr.end)
  }

  ghost predicate UsesIn(events: seq<Event>, which: Option<nat>) {
    match which
    case None => exists at :: Use(at) in events
    case Some(at) => Use(at) in events
  }

  lemma {:induction false} Lacks(n: Node, rules: Rules, p: Oracle, e: Effect)
    requires Free(n, e, rules)
    ensures !Shows(Exec(n, rules, p), e)
    decreases n, 1, 1
  {
    if n.Switch? || n.Try? || n.Loop? || n.ForAwait? {
      LacksGuarded(n, rules, p, e);
    } else if n.Logical? || n.Conditional? || n.If? {
      LacksBranch(n, rules, p, e);
    } else if n.Call? {
      LacksCall(n, rules, p, e);
    } else {
      LacksInside(n, rules, p, e);
    }
  }

  lemma {:induction false} LacksInside(n: Node, rules: Rules, p: Oracle, e: Effect)
    requires Free(n, e, rules) && !n.Call?
    requires !n.Switch? && !n.Try? && !n.Loop? && !n.ForAwait? && !n.Logical? && !n.Conditional? && !n.If?
    ensures !Shows(Exec(n, rules, p), e)
    decreases n, 1, 0
  {
    match n
    case Unvisited(parts) => LacksAll(parts, rules, p.parts, e);
    case Await(m) => Lacks(m, rules, Part(p, 0), e);
    case Member(receiver, property, computed) =>
      Lacks(receiver, rules, Part(p, 0), e);
      if computed { Lacks(property, rules, Part(p, 1), e); }
    case Row(parts) => LacksAll(parts, rules, p.parts, e);
    case Block(body) => LacksAll(body, rules, p.parts, e);
    case Return(m) => if m.Some? { Lacks(m.value, rules, Part(p, 0), e); }
    case Throw(m) => if m.Some? { Lacks(m.value, rules, Part(p, 0), e); }
    case _ =>
  }

  lemma {:induction false} LacksCall(n: Node, rules: Rules, p: Oracle, e: Effect)
    requires Free(n, e, rules) && n.Call?
    ensures !Shows(Exec(n, rules, p), e)
    decreases n, 1, 0
  {
    LacksAll(n.target, rules, Part(p, 0).parts, e);
    LacksAll(n.args, rules, Part(p, 1).parts, e);
    HandedLacks(n.target, rules, e);
    HandedLacks(n.args, rules, e);
    RunsLack(n.target, rules, Part(p, 0).parts, e);
    RunsLack(n.args, rules, Part(p, 1).parts, e);
  }

  lemma {:induction false} HandedLacks(ns: seq<Node>, rules: Rules, e: Effect)
    requires AllFree(ns, e, rules)
    ensures !Shows(Trace(Handed(ns, rules), Normal), e)
  {
    if ns != [] {
      assert Free(ns[0], e, rules);
      HandedLacks(ns[1..], rules, e);
    }
  }

  lemma {:induction false} SynchronousPart(events: seq<Event>)
    ensures Suspend !in Synchronous(events)
    ensures forall e :: e in Synchronous(events) ==> e in events
  {
    if events != [] { SynchronousPart(events[1..]); }
  }

  /** Function values never suspend whoever runs them, and use the accessor only if their code does. */
  lemma {:induction false} RunLacks(n: Node, rules: Rules, o: Oracle, e: Effect)
    requires e.Uses? ==> Free(n, e, rules)
    ensures !Shows(Trace(Run(n, rules, o), Normal), e)
    decreases n, 0, 0
  {
    if n.NestedFunction? {
      SynchronousPart(Exec(n.code, rules, Part(o, 0)).events);
      if e.Uses? { Lacks(n.code, rules, Part(o, 0), e); }
    }
  }

  lemma {:induction false} RunsLack(ns: seq<Node>, rules: Rules, ps: seq<Oracle>, e: Effect)
    requires e.Uses? ==> AllFree(ns, e, rules)
    ensures !Shows(Trace(RunAll(ns, rules, ps), Normal), e)
    decreases ns, 0, 0
  {
    if ns != [] {
      RunLacks(ns[0], rules, Head(ps), e);
      RunsLack(ns[1..], rules, Tail(ps), e);
    }
  }

  lemma {:induction false} LacksBranch(n: Node, rules: Rules, p: Oracle, e: Effect)
    requires Free(n, e, rules) && (n.Logical? || n.Conditional? || n.If?)
    ensures !Shows(Exec(n, rules, p), e)
    decreases n, 1, 0
  {
    match n
    case Logical(left, right) =>
      Lacks(left, rules, Part(p, 0), e);
      Lacks(right, rules, Part(p, 1), e);
    case Conditional(test, yes, no) =>
      Lacks(test, rules, Part(p, 0), e);
      Lacks(yes, rules, Part(p, 1), e);
      Lacks(no, rules, Part(p, 1), e);
    case If(test, yes, no) =>
      Lacks(test, rules, Part(p, 0), e);
      Lacks(yes, rules, Part(p, 1), e);
      if no.Some? { Lacks(no.value, rules, Part(p, 1), e); }
  }

  lemma {:induction false} LacksGuarded(n: Node, rules: Rules, p: Oracle, e: Effect)
    requires Free(n, e, rules) && (n.Switch? || n.Try? || n.Loop? || n.ForAwait?)
    ensures !Shows(Exec(n, rules, p), e)
    decreases n, 1, 0
  {
    match n
    case Loop(_, _, _, _, _) => LacksLoop(n, rules, p, e);
    case ForAwait(right, round) =>
      Lacks(right, rules, Part(p, 0), e);
      if !e.Suspends? { LacksAwaitRounds(round, rules, Part(p, 1).parts, e); }
    case Switch(_, _) => LacksSwitch(n, rules, p, e);
    case Try(_, _, _) => LacksTry(n, rules, p, e);
  }

  lemma {:induction false} LacksLoop(n: Node, rules: Rules, p: Oracle, e: Effect)
    requires Free(n, e, rules) && n.Loop?
    ensures !Shows(Exec(n, rules, p), e)
    decreases n, 0, 1 + |Part(p, 1).parts|
  {
    LacksAll(n.head, rules, Part(p, 0).parts, e);
    LacksRounds(n, rules, Part(p, 1).parts, e);
    if n.bodyFirst { Lacks(n.round, rules, Part(p, 2), e); }
  }

  lemma {:induction false} LacksSwitch(n: Node, rules: Rules, p: Oracle, e: Effect)
    requires Free(n, e, rules) && n.Switch?
    ensures !Shows(Exec(n, rules, p), e)
    decreases n, 0, 0
  {
    var entry := Entry(n.cases, p.pick);
    Lacks(n.discriminant, rules, Part(p, 0), e);
    LacksTests(n.cases, rules, TestsBefore(n.cases, entry), Part(p, 1).parts, e);
    LacksFrom(n.cases, rules, entry, Part(p, 2).parts, e);
  }

  /** One way through a `try` up to its finalizer. */
  function TryMain(n: Node, rules: Rules, p: Oracle): Trace
    requires n.Try?
  {
    var tried := Cut(Exec(n.block, rules, Part(p, 0)), p.pick);
    if tried.end.Throws? && n.handler.Some? then
      var caught := Cut(Exec(n.handler.value, rules, Part(p, 1)), Part(p, 2).pick);
      Trace(tried.events + caught.events, caught.end)
    else tried
  }

  lemma {:induction false} LacksTry(n: Node, rules: Rules, p: Oracle, e: Effect)
    requires Free(n, e, rules) && n.Try?
    ensures !Shows(Exec(n, rules, p), e)
    decreases n, 0, 1
  {
    LacksMain(n, rules, p, e);
    if n.finalizer.Some? { Lacks(n.finalizer.value, rules, Part(p, 3), e); }
  }

  lemma {:induction false} LacksMain(n: Node, rules: Rules, p: Oracle, e: Effect)
    requires Free(n, e, rules) && n.Try?
    ensures !Shows(TryMain(n, rules, p), e)
    decreases n, 0, 0
  {
    Lacks(n.block, rules, Part(p, 0), e);
    if n.handler.Some? { Lacks(n.handler.value, rules, Part(p, 1), e); }
  }

  lemma {:induction false} LacksAll(ns: seq<Node>, rules: Rules, ps: seq<Oracle>, e: Effect)
    requires AllFree(ns, e, rules)
    ensures !Shows(ExecAll(ns, rules, ps), e)
    decreases ns, 0, 0
  {
    if ns != [] {
      Lacks(ns[0], rules, Head(ps), e);
      LacksAll(ns[1..], rules, Tail(ps), e);
    }
  }

  lemma {:induction false} LacksRounds(n: Node, rules: Rules, rounds: seq<Oracle>, e: Effect)
    requires n.Loop? && AllFree(n.check, e, rules) && AllFree(n.update, e, rules) && Free(n.round, e, rules)
    ensures !Shows(ExecRounds(n, rules, rounds), e)
    decreases n, 0, |rounds|
  {
    LacksAll(n.check, rules, Part(Head(rounds), 0).parts, e);
    if |rounds| > 1 {
      Lacks(n.round, rules, Part(Head(rounds), 1), e);
      LacksAll(n.update, rules, Part(Head(rounds), 2).parts, e);
      LacksRounds(n, rules, rounds[1..], e);
    }
  }

  lemma {:induction false} LacksAwaitRounds(body: Node, rules: Rules, rounds: seq<Oracle>, e: Effect)
    requires Free(body, e, rules) && !e.Suspends?
    ensures !Shows(ExecAwaitRounds(body, rules, rounds), e)
    decreases body, 2, |rounds|
  {
    if rounds != [] {
      Lacks(body, rules, rounds[0], e);
      LacksAwaitRounds(body, rules, rounds[1..], e);
    }
  }

  lemma {:induction false} LacksTest(c: Case, rules: Rules, p: Oracle, e: Effect)
    requires FreeCase(c, e, rules)
    ensures !Shows(ExecTest(c, rules, p), e)
    decreases c, 0, 0
  {
    if c.test.Some? { Lacks(c.test.value, rules, p, e); }
  }

  lemma {:induction false} LacksTests(cases: seq<Case>, rules: Rules, count: nat, ps: seq<Oracle>, e: Effect)
    requires forall c :: c in cases ==> c.test.Some? ==> Free(c.test.value, e, rules)
    ensures !Shows(ExecTests(cases, rules, count, ps), e)
    decreases cases, 0, 0
  {
    if cases != [] && count > 0 {
      assert cases[0] in cases;
      if cases[0].test.Some? { Lacks(cases[0].test.value, rules, Head(ps), e); }
      LacksTests(cases[1..], rules, count - 1, Tail(ps), e);
    }
  }

  lemma {:induction false} LacksFrom(cases: seq<Case>, rules: Rules, skip: nat, ps: seq<Oracle>, e: Effect)
    requires forall c :: c in cases ==> FreeCase(c, e, rules)
    ensures !Shows(ExecFrom(cases, rules, skip, ps), e)
    decreases cases, 1, 0
  {
    if cases != [] {
      assert FreeCase(cases[0], e, rules);
      if skip > 0 {
        LacksFrom(cases[1..], rules, skip - 1, ps, e);
      } else {
        LacksTest(cases[0], rules, Part(Head(ps), 0), e);
        LacksAll(cases[0].body, rules, Part(Head(ps), 1).parts, e);
        assert forall c :: c in cases[1..] ==> FreeCase(c, e, rules);
        LacksBodies(cases[1..], rules, Tail(ps), e);
      }
    }
  }

  lemma {:induction false} LacksBodies(cases: seq<Case>, rules: Rules, ps: seq<Oracle>, e: Effect)
    requires forall c :: c in cases ==> AllFree(c.body, e, rules)
    ensures !Shows(ExecBodies(cases, rules, ps), e)
    decreases cases, 0, 0
  {
    if cases != [] {
      assert cases[0] in cases;
      LacksAll(cases[0].body, rules, Part(Head(ps), 1).parts, e);
      LacksBodies(cases[1..], rules, Tail(ps), e);
    }
  }

  // ----- after a suspension, every use evaluated is reported -----

  /** The name at `at` stands at or below node `m`. */
  predicate Contains(m: Node, at: nat, rules: Rules) {
    !Free(m, Uses(Some(at)), rules)
  }

  predicate Spotted(at: nat, reports: seq<Node>, rules: Rules) {
    exists m :: m in reports && Contains(m, at, rules)
  }

  predicate Tainted(tr: Trace, w: Out, at: nat, rules: Rules) {
    w.saw && (Use(at) in tr.events ==> Spotted(at, w.reports, rules))
  }

  /** The accessor's name is where the walk looks for it, given the role of `n`. */
  predicate Placed(n: Node, asArgument: bool, rules: Rules) {
    Refers(n, rules) ==> asArgument && n.name == rules.accessor
  }

  lemma {:induction false} Taint(n: Node, asArgument: bool, rules: Rules, p: Oracle, at: nat)
    requires Handled(n, rules) && Placed(n, asArgument, rules)
    ensures Tainted(Exec(n, rules, p), Walk(n, asArgument, rules.accessor, true), at, rules)
    decreases n, 2, 0
  {
    if n.Await? {
      Taint(n.argument, false, rules, Part(p, 0), at);
    } else if IsUsage(n, asArgument, rules.accessor) {
      TaintUsage(n, asArgument, rules, p, at);
    } else if !n.NestedFunction? {
      if n.Switch? || n.Try? || n.Loop? || n.ForAwait? {
        TaintGuarded(n, rules, p, at);
      } else if n.Logical? || n.Conditional? || n.If? {
        TaintBranch(n, rules, p, at);
      } else if n.Call? {
        TaintCall(n, rules, p, at);
      } else {
        TaintInside(n, rules, p, at);
      }
    }
  }

  /** A reported usage contains every name that its evaluation uses. */
  lemma TaintUsage(n: Node, asArgument: bool, rules: Rules, p: Oracle, at: nat)
    requires IsUsage(n, asArgument, rules.accessor)
    ensures Tainted(Exec(n, rules, p), Out(true, [n]), at, rules)
  {
    assert n in [n];
    if !Contains(n, at, rules) { Lacks(n, rules, p, Uses(Some(at))); }
  }

  lemma {:induction false} TaintInside(n: Node, rules: Rules, p: Oracle, at: nat)
    requires Handled(n, rules) && !n.NestedFunction? && !n.Await? && !n.Call? && !Refers(n, rules)
    requires !n.Switch? && !n.Try? && !n.Loop? && !n.ForAwait? && !n.Logical? && !n.Conditional? && !n.If?
    ensures Tainted(Exec(n, rules, p), WalkInside(n, rules.accessor, true), at, rules)
    decreases n, 1, 0
  {
    assert HandledHere(n, rules);
    match n
    case Member(receiver, property, computed) =>
      Taint(receiver, false, rules, Part(p, 0), at);
      if computed { Taint(property, false, rules, Part(p, 1), at); }
    case Unvisited(parts) => LacksAll(parts, rules, p.parts, Uses(None));
    case Row(parts) => TaintAll(parts, false, rules, p.parts, at);
    case Block(body) => TaintAll(body, false, rules, p.parts, at);
    case Return(m) => if m.Some? { Taint(m.value, false, rules, Part(p, 0), at); }
    case Throw(m) => if m.Some? { Taint(m.value, false, rules, Part(p, 0), at); }
    case _ =>
  }

  lemma {:induction false} TaintCall(n: Node, rules: Rules, p: Oracle, at: nat)
    requires Handled(n, rules) && n.Call? && !IsUsage(n, false, rules.accessor)
    ensures Tainted(Exec(n, rules, p), WalkInside(n, rules.accessor, true), at, rules)
    decreases n, 1, 0
  {
    assert HandledHere(n, rules);
    var Call(shape, target, args) := n;
    var asArgument := !shape.Construct?;
    TaintAll(target, false, rules, Part(p, 0).parts, at);
    TaintAll(args, asArgument, rules, Part(p, 1).parts, at);
    HandedTainted(target, false, rules, at);
    HandedTainted(args, asArgument, rules, at);
    HandledRuns(target, rules, Part(p, 0).parts);
    HandledRuns(args, rules, Part(p, 1).parts);
  }

  lemma {:induction false} HandedTainted(ns: seq<Node>, asArgument: bool, rules: Rules, at: nat)
    requires AllHandled(ns, rules) && AllPlaced(ns, asArgument, rules)
    ensures Use(at) in Handed(ns, rules) ==> Spotted(at, WalkAll(ns, asArgument, rules.accessor, true).reports, rules)
    decreases ns, 0, 1
  {
    if ns != [] {
      assert Placed(ns[0], asArgument, rules) && Handled(ns[0], rules);
      Taint(ns[0], asArgument, rules, Oracle(0, []), at);
      HandedTainted(ns[1..], asArgument, rules, at);
    }
  }

  /** Handled function values use nothing when run. */
  lemma {:induction false} HandledRuns(ns: seq<Node>, rules: Rules, ps: seq<Oracle>)
    requires AllHandled(ns, rules)
    ensures (forall at :: Use(at) !in RunAll(ns, rules, ps)) && Suspend !in RunAll(ns, rules, ps)
  {
    if ns != [] {
      assert Handled(ns[0], rules);
      if ns[0].NestedFunction? {
        assert HandledHere(ns[0], rules);
        RunLacks(ns[0], rules, Head(ps), Uses(None));
        RunLacks(ns[0], rules, Head(ps), Suspends);
      }
      HandledRuns(ns[1..], rules, Tail(ps));
    }
  }

  lemma {:induction false} TaintBranch(n: Node, rules: Rules, p: Oracle, at: nat)
    requires Handled(n, rules) && (n.Logical? || n.Conditional? || n.If?)
    ensures Tainted(Exec(n, rules, p), WalkInside(n, rules.accessor, true), at, rules)
    decreases n, 1, 0
  {
    assert HandledHere(n, rules);
    match n
    case Logical(left, right) =>
      Taint(left, false, rules, Part(p, 0), at);
      Taint(right, false, rules, Part(p, 1), at);
    case Conditional(test, yes, no) =>
      Taint(test, false, rules, Part(p, 0), at);
      Taint(yes, false, rules, Part(p, 1), at);
      Taint(no, false, rules, Part(p, 1), at);
    case If(test, yes, no) =>
      Taint(test, false, rules, Part(p, 0), at);
      Taint(yes, false, rules, Part(p, 1), at);
      if no.Some? { Taint(no.value, false, rules, Part(p, 1), at); }
  }

  lemma {:induction false} TaintGuarded(n: Node, rules: Rules, p: Oracle, at: nat)
    requires Handled(n, rules) && (n.Switch? || n.Try? || n.Loop? || n.ForAwait?)
    ensures Tainted(Exec(n, rules, p), WalkInside(n, rules.accessor, true), at, rules)
    decreases n, 1, 0
  {
    assert HandledHere(n, rules);
    match n
    case Loop(_, _, _, _, _) => TaintLoop(n, rules, p, at);
    case ForAwait(right, round) =>
      Taint(right, false, rules, Part(p, 0), at);
      TaintAwaitRounds(round, rules, Part(p, 1).parts, at);
    case Switch(_, _) => TaintSwitch(n, rules, p, at);
    case Try(_, _, _) => TaintTry(n, rules, p, at);
  }

  lemma {:induction false} TaintTry(n: Node, rules: Rules, p: Oracle, at: nat)
    requires Handled(n, rules) && n.Try?
    ensures Tainted(Exec(n, rules, p), WalkInside(n, rules.accessor, true), at, rules)
    decreases n, 0, 1
  {
    assert HandledHere(n, rules);
    var Try(block, handler, finalizer) := n;
    Taint(block, false, rules, Part(p, 0), at);
    if handler.Some? { Taint(handler.value, false, rules, Part(p, 1), at); }
    if finalizer.Some? { Taint(finalizer.value, false, rules, Part(p, 3), at); }
  }

  lemma {:induction false} TaintLoop(n: Node, rules: Rules, p: Oracle, at: nat)
    requires Handled(n, rules) && n.Loop?
    ensures Tainted(Exec(n, rules, p), WalkInside(n, rules.accessor, true), at, rules)
    decreases n, 0, 1 + |Part(p, 1).parts|
  {
    assert HandledHere(n, rules);
    TaintAll(n.head, false, rules, Part(p, 0).parts, at);
    TaintRounds(n, rules, Part(p, 1).parts, at);
    if n.bodyFirst { Taint(n.round, false, rules, Part(p, 2), at); }
  }

  /** What the walk of a loop's rounds makes of them, from the flag already set. */
  function RoundsWalk(n: Node, accessor: string): Out
    requires n.Loop?
  {
    Also(Also(WalkAll(n.check, false, accessor, true), WalkAll(n.update, false, accessor, true)),
         Walk(n.round, false, accessor, true))
  }

  lemma {:induction false} TaintRounds(n: Node, rules: Rules, rounds: seq<Oracle>, at: nat)
    requires n.Loop? && Handled(n, rules)
    ensures Tainted(ExecRounds(n, rules, rounds), RoundsWalk(n, rules.accessor), at, rules)
    ensures WalkAll(n.check, false, rules.accessor, true).saw && WalkAll(n.update, false, rules.accessor, true).saw
    decreases n, 0, |rounds|
  {
    assert HandledHere(n, rules);
    TaintAll(n.check, false, rules, Part(Head(rounds), 0).parts, at);
    TaintAll(n.update, false, rules, Part(Head(rounds), 2).parts, at);
    Taint(n.round, false, rules, Part(Head(rounds), 1), at);
    if |rounds| > 1 { TaintRounds(n, rules, rounds[1..], at); }
  }

  lemma {:induction false} TaintSwitch(n: Node, rules: Rules, p: Oracle, at: nat)
    requires Handled(n, rules) && n.Switch?
    ensures Tainted(Exec(n, rules, p), WalkInside(n, rules.accessor, true), at, rules)
    decreases n, 0, 1
  {
    assert HandledHere(n, rules);
    assert forall c :: c in n.cases ==> HandledCase(c, rules);
    Taint(n.discriminant, false, rules, Part(p, 0), at);
    CasesFlag(n.cases, rules, false);
    var entry := Entry(n.cases, p.pick);
    TaintTests(n.cases, rules, TestsBefore(n.cases, entry), Part(p, 1).parts, false, at);
    TaintFrom(n.cases, rules, entry, Part(p, 2).parts, false, at);
  }

  predicate AllHandled(ns: seq<Node>, rules: Rules) {
    forall m :: m in ns ==> Handled(m, rules)
  }

  predicate AllPlaced(ns: seq<Node>, asArgument: bool, rules: Rules) {
    forall m :: m in ns ==> Placed(m, asArgument, rules)
  }

  lemma {:induction false} TaintAll(ns: seq<Node>, asArgument: bool, rules: Rules, ps: seq<Oracle>, at: nat)
    requires AllHandled(ns, rules) && AllPlaced(ns, asArgument, rules)
    ensures Tainted(ExecAll(ns, rules, ps), WalkAll(ns, asArgument, rules.accessor, true), at, rules)
    decreases ns, 0, 0
  {
    if ns != [] {
      assert Handled(ns[0], rules) && Placed(ns[0], asArgument, rules);
      Taint(ns[0], asArgument, rules, Head(ps), at);
      TaintAll(ns[1..], asArgument, rules, Tail(ps), at);
    }
  }

  lemma {:induction false} TaintAwaitRounds(body: Node, rules: Rules, rounds: seq<Oracle>, at: nat)
    requires Handled(body, rules) && !Refers(body, rules)
    ensures Tainted(ExecAwaitRounds(body, rules, rounds), Walk(body, false, rules.accessor, true), at, rules)
    decreases body, 3, |rounds|
  {
    if rounds == [] {
      Taint(body, false, rules, Oracle(0, []), at);
    } else {
      Taint(body, false, rules, rounds[0], at);
      TaintAwaitRounds(body, rules, rounds[1..], at);
    }
  }

  predicate HandledCase(c: Case, rules: Rules) {
    (c.test.Some? ==> Handled(c.test.value, rules)) && AllHandled(c.body, rules) && NamelessCase(c, rules)
  }

  lemma {:induction false} TaintCase(c: Case, rules: Rules, p: Oracle, ps: seq<Oracle>, at: nat)
    requires HandledCase(c, rules)
    ensures var w := WalkCase(c, rules.accessor, true);
      && w.saw
      && (Use(at) in ExecTest(c, rules, p).events ==> Spotted(at, w.reports, rules))
      && (Use(at) in ExecAll(c.body, rules, ps).events ==> Spotted(at, w.reports, rules))
    decreases c, 0, 0
  {
    if c.test.Some? { Taint(c.test.value, false, rules, p, at); }
    TaintAll(c.body, false, rules, ps, at);
  }

  lemma {:induction false} CasesFlag(cases: seq<Case>, rules: Rules, any: bool)
    requires forall c :: c in cases ==> HandledCase(c, rules)
    ensures WalkCases(cases, rules.accessor, true, any).saw == (any || cases != [])
    decreases cases, 0, 0
  {
    if cases != [] {
      TaintCase(cases[0], rules, Oracle(0, []), [], 0);
      CasesFlag(cases[1..], rules, true);
    }
  }

  lemma {:induction false} TaintTests(
    cases: seq<Case>, rules: Rules, count: nat, ps: seq<Oracle>, any: bool, at: nat)
    requires forall c :: c in cases ==> HandledCase(c, rules)
    ensures Use(at) in ExecTests(cases, rules, count, ps).events ==>
              Spotted(at, WalkCases(cases, rules.accessor, true, any).reports, rules)
    decreases cases, 0, 0
  {
    if cases != [] && count > 0 {
      TaintCase(cases[0], rules, Head(ps), [], at);
      TaintTests(cases[1..], rules, count - 1, Tail(ps), true, at);
    }
  }

  lemma {:induction false} TaintFrom(
    cases: seq<Case>, rules: Rules, skip: nat, ps: seq<Oracle>, any: bool, at: nat)
    requires forall c :: c in cases ==> HandledCase(c, rules)
    ensures Use(at) in ExecFrom(cases, rules, skip, ps).events ==>
              Spotted(at, WalkCases(cases, rules.accessor, true, any).reports, rules)
    decreases cases, 1, 0
  {
    if cases != [] {
      TaintCase(cases[0], rules, Part(Head(ps), 0), Part(Head(ps), 1).parts, at);
      if skip > 0 {
        TaintFrom(cases[1..], rules, skip - 1, ps, true, at);
      } else {
        TaintBodies(cases[1..], rules, Tail(ps), true, at);
      }
    }
  }

  lemma {:induction false} TaintBodies(cases: seq<Case>, rules: Rules, ps: seq<Oracle>, any: bool, at: nat)
    requires forall c :: c in cases ==> HandledCase(c, rules)
    ensures Use(at) in ExecBodies(cases, rules, ps).events ==>
              Spotted(at, WalkCases(cases, rules.accessor, true, any).reports, rules)
    decreases cases, 0, 0
  {
    if cases != [] {
      TaintCase(cases[0], rules, Oracle(0, []), Part(Head(ps), 1).parts, at);
      TaintBodies(cases[1..], rules, Tail(ps), true, at);
    }
  }

  // ----- paths on which nothing is missed -----

  predicate Quiet(events: seq<Event>) {
    Suspend !in events
  }

  ghost predicate Unused(events: seq<Event>) {
    forall at :: Use(at) !in events
  }

  predicate Stays(e: End) { !e.Returns? && !e.Throws? }

  /** The earliest part of a loop, in the order of the walk (1 test, 2 update, 3 body), that has waited in
      its rounds so far; 4 if none has. */
  function Mark(m: nat, part: nat, events: seq<Event>): nat {
    if Quiet(events) || m <= part then m else part
  }

  /** A part of a loop is walked with the flag set by the parts before it only. */
  ghost predicate InView(m: nat, part: nat, events: seq<Event>) {
    m > 3 || m < part || Unused(events)
  }

  /** Along path `p` no use depends on an `await` that the walk does not carry to it: an `await` of a later
      part of a loop, of another case, of a tried block left by an exception, on the way out of a function
      to a finalizer, before a jump out of a branch that otherwise leaves the function; or, under the
      late reading, in the arguments of the very call. */
  ghost predicate Seen(n: Node, rules: Rules, p: Oracle)
    decreases n, 1, 0
  {
    match n
    case Await(m) => Seen(m, rules, Part(p, 0))
    case Call(_, target, args) =>
      && SeenAll(target, rules, Part(p, 0).parts) && SeenAll(args, rules, Part(p, 1).parts)
      && (rules.late && Handed(target, rules) + Handed(args, rules) != [] ==>
            Quiet(ExecAll(target, rules, Part(p, 0).parts).events) && Quiet(ExecAll(args, rules, Part(p, 1).parts).events))
    case Member(receiver, property, computed) =>
      Seen(receiver, rules, Part(p, 0)) && (computed ==> Seen(property, rules, Part(p, 1)))
    case Row(parts) => SeenAll(parts, rules, p.parts)
    case Logical(left, right) => Seen(left, rules, Part(p, 0)) && (p.pick != 0 ==> Seen(right, rules, Part(p, 1)))
    case Conditional(test, yes, no) =>
      && Seen(test, rules, Part(p, 0))
      && (if p.pick == 0 then Seen(yes, rules, Part(p, 1)) else Seen(no, rules, Part(p, 1)))
    case Block(body) => SeenAll(body, rules, p.parts)
    case If(test, yes, no) =>
      && Seen(test, rules, Part(p, 0))
      && (if p.pick == 0 then Seen(yes, rules, Part(p, 1)) && LeavesQuietly(yes, rules, Part(p, 1))
          else no.Some? ==> Seen(no.value, rules, Part(p, 1)) && LeavesQuietly(no.value, rules, Part(p, 1)))
    case Return(m) => m.Some? ==> Seen(m.value, rules, Part(p, 0))
    case Throw(m) => m.Some? ==> Seen(m.value, rules, Part(p, 0))
    case Loop(bodyFirst, head, _, _, round) =>
      && SeenAll(head, rules, Part(p, 0).parts)
      && (bodyFirst ==> Seen(round, rules, Part(p, 2)))
      && SeenRounds(n, rules, Part(p, 1).parts, if bodyFirst then Mark(4, 3, Exec(round, rules, Part(p, 2)).events) else 4)
    case ForAwait(right, _) => Seen(right, rules, Part(p, 0))
    case Switch(d, cases) =>
      var entry := Entry(cases, p.pick);
      var tests := ExecTests(cases, rules, TestsBefore(cases, entry), Part(p, 1).parts);
      && Seen(d, rules, Part(p, 0))
      && SeenTests(cases, rules, TestsBefore(cases, entry), Part(p, 1).parts, false)
      && SeenFrom(cases, rules, entry, Part(p, 2).parts, !Quiet(tests.events))
    case Try(block, handler, finalizer) =>
      && Seen(block, rules, Part(p, 0))
      && (var tried := Cut(Exec(block, rules, Part(p, 0)), p.pick);
          tried.end.Throws? && handler.Some? ==> Seen(handler.value, rules, Part(p, 1)) && Quiet(tried.events))
      && (finalizer.Some? ==>
            && Seen(finalizer.value, rules, Part(p, 3))
            && var main := TryMain(n, rules, p);
               var last := Exec(finalizer.value, rules, Part(p, 3));
               (!Stays(main.end) && !Quiet(main.events) ==> Unused(last.events) && !IsJump(last.end)))
    case _ => true
  }

  /** A branch that the walk takes to leave the function does not wait and then jump out. */
  ghost predicate LeavesQuietly(n: Node, rules: Rules, p: Oracle) {
    AlwaysExits(n) && IsJump(Exec(n, rules, p).end) ==> Quiet(Exec(n, rules, p).events)
  }

  ghost predicate SeenAll(ns: seq<Node>, rules: Rules, ps: seq<Oracle>)
    decreases ns, 0, 0
  {
    ns != [] ==> Seen(ns[0], rules, Head(ps)) && SeenAll(ns[1..], rules, Tail(ps))
  }

  ghost predicate SeenRounds(n: Node, rules: Rules, rounds: seq<Oracle>, m: nat)
    requires n.Loop?
    decreases n, 0, |rounds|
  {
    var r := Head(rounds);
    var t := ExecAll(n.check, rules, Part(r, 0).parts).events;
    && SeenAll(n.check, rules, Part(r, 0).parts) && InView(m, 1, t)
    && (|rounds| > 1 ==>
          var b := Exec(n.round, rules, Part(r, 1)).events;
          var u := ExecAll(n.update, rules, Part(r, 2).parts).events;
          var m1 := Mark(m, 1, t);
          var m2 := Mark(m1, 3, b);
          && Seen(n.round, rules, Part(r, 1)) && InView(m1, 3, b)
          && SeenAll(n.update, rules, Part(r, 2).parts) && InView(m2, 2, u)
          && SeenRounds(n, rules, rounds[1..], Mark(m2, 2, u)))
  }

  ghost predicate SeenTest(c: Case, rules: Rules, p: Oracle)
    decreases c, 0, 0
  {
    c.test.Some? ==> Seen(c.test.value, rules, p)
  }

  /** `waited`: the switch has already waited in another case. */
  ghost predicate SeenTests(cases: seq<Case>, rules: Rules, count: nat, ps: seq<Oracle>, waited: bool)
    decreases cases, 0, 0
  {
    cases != [] && count > 0 ==>
      var tr := ExecTest(cases[0], rules, Head(ps));
      && SeenTest(cases[0], rules, Head(ps)) && (waited ==> Unused(tr.events))
      && SeenTests(cases[1..], rules, count - 1, Tail(ps), waited || !Quiet(tr.events))
  }

  ghost predicate SeenFrom(cases: seq<Case>, rules: Rules, skip: nat, ps: seq<Oracle>, waited: bool)
    decreases cases, 1, 0
  {
    cases != [] ==>
      if skip > 0 then SeenFrom(cases[1..], rules, skip - 1, ps, waited)
      else
        var p := Head(ps);
        var tr := Then(ExecTest(cases[0], rules, Part(p, 0)), ExecAll(cases[0].body, rules, Part(p, 1).parts));
        && SeenTest(cases[0], rules, Part(p, 0)) && SeenAll(cases[0].body, rules, Part(p, 1).parts)
        && (waited ==> Unused(tr.events))
        && (tr.end.Normal? ==> SeenBodies(cases[1..], rules, Tail(ps), waited || !Quiet(tr.events)))
  }

  ghost predicate SeenBodies(cases: seq<Case>, rules: Rules, ps: seq<Oracle>, waited: bool)
    decreases cases, 0, 0
  {
    cases != [] ==>
      var tr := ExecAll(cases[0].body, rules, Part(Head(ps), 1).parts);
      && SeenAll(cases[0].body, rules, Part(Head(ps), 1).parts) && (waited ==> Unused(tr.events))
      && (tr.end.Normal? ==> SeenBodies(cases[1..], rules, Tail(ps), waited || !Quiet(tr.events)))
  }

  // ----- soundness along such a path -----

  /** What the walk owes one path and the name at `at`: a report at or above it if it is used after a
      suspension, and the flag if the path stays in the function, suspended. */
  ghost predicate Covers(w: Out, tr: Trace, suspended: bool, at: nat, rules: Rules) {
    && (Bad(suspended, tr.events, at) ==> Spotted(at, w.reports, rules))
    && (Stays(tr.end) && (suspended || Suspend in tr.events) ==> w.saw)
  }

  lemma CoversThen(a: Trace, b: Trace, wa: Out, wb: Out, suspended: bool, at: nat, rules: Rules)
    requires Covers(wa, a, suspended, at, rules) && Covers(wb, b, wa.saw, at, rules) && (wa.saw ==> wb.saw)
    ensures Covers(Also(wa, wb), Then(a, b), suspended, at, rules)
  {
    BadConcat(suspended, a.events, b.events, at);
    BadGrows(b.events, at);
  }

  /** One after the other, covered by the same walk. */
  lemma CoversNext(w: Out, a: Trace, b: Trace, suspended: bool, at: nat, rules: Rules)
    requires Covers(w, a, suspended, at, rules) && Covers(w, b, suspended || Suspend in a.events, at, rules)
    ensures Covers(w, Trace(a.events + b.events, b.end), suspended, at, rules)
    ensures Covers(w, Then(a, b), suspended, at, rules)
  {
    BadConcat(suspended, a.events, b.events, at);
  }

  predicate Reaches(a: seq<Node>, b: seq<Node>) {
    forall m :: m in a ==> m in b
  }

  /** More reports, or the flag set in more cases, still cover; so does walking with the flag already set. */
  lemma CoversMore(w: Out, w': Out, tr: Trace, suspended: bool, suspended': bool, at: nat, rules: Rules)
    requires Covers(w, tr, suspended, at, rules) && (suspended' ==> suspended)
    requires Reaches(w.reports, w'.reports) && (w.saw ==> w'.saw)
    ensures Covers(w', tr, suspended', at, rules)
  {
    BadGrows(tr.events, at);
  }

  /** A part walked with flag `f` is covered also if the path is suspended without the flag, when the part
      uses nothing and the flag is set afterwards. */
  lemma CoversPart(w: Out, w': Out, tr: Trace, f: bool, suspended: bool, at: nat, rules: Rules)
    requires Covers(w, tr, f, at, rules) && (suspended && !f ==> Unused(tr.events))
    requires Reaches(w.reports, w'.reports) && (w.saw ==> w'.saw) && (suspended ==> w'.saw)
    ensures Covers(w', tr, suspended, at, rules)
  {
    if suspended && !f {
      UnusedIsFine(tr.events, at);
    } else {
      CoversMore(w, w', tr, f, suspended, at, rules);
    }
  }

  lemma UnusedIsFine(events: seq<Event>, at: nat)
    requires Use(at) !in events
    ensures !Bad(true, events, at) && !Bad(false, events, at)
  {
    BadMeaning(true, events, at);
    BadMeaning(false, events, at);
  }

  lemma TaintIsCover(w: Out, tr: Trace, at: nat, rules: Rules)
    requires Tainted(tr, w, at, rules)
    ensures Covers(w, tr, true, at, rules)
  {
    BadMeaning(true, tr.events, at);
    if UsedAfterSuspend(tr.events, at) {
      var i, j :| 0 <= i < j < |tr.events| && tr.events[i] == Suspend && tr.events[j] == Use(at);
      assert tr.events[j] in tr.events;
    }
  }

  /** The flag, once set, stays set. */
  lemma FlagStays(n: Node, asArgument: bool, rules: Rules)
    requires Handled(n, rules) && Placed(n, asArgument, rules)
    ensures Walk(n, asArgument, rules.accessor, true).saw
  {
    Taint(n, asArgument, rules, Oracle(0, []), 0);
  }

  lemma FlagStaysAll(ns: seq<Node>, asArgument: bool, rules: Rules)
    requires AllHandled(ns, rules) && AllPlaced(ns, asArgument, rules)
    ensures WalkAll(ns, asArgument, rules.accessor, true).saw
  {
    TaintAll(ns, asArgument, rules, [], 0);
  }

  /** As `Placed`; before any suspension the receiver of a method call is in place too. */
  predicate PlacedFor(n: Node, asArgument: bool, saw: bool, rules: Rules) {
    Refers(n, rules) ==> n.name == rules.accessor && (asArgument || !saw)
  }

  lemma {:induction false} Sound(n: Node, asArgument: bool, rules: Rules, p: Oracle, saw: bool, at: nat)
    requires Handled(n, rules) && Seen(n, rules, p) && PlacedFor(n, asArgument, saw, rules)
    ensures Covers(Walk(n, asArgument, rules.accessor, saw), Exec(n, rules, p), saw, at, rules)
    decreases n, 2, 0
  {
    if saw {
      Taint(n, asArgument, rules, p, at);
      TaintIsCover(Walk(n, asArgument, rules.accessor, true), Exec(n, rules, p), at, rules);
    } else if n.Ident? {
      BadQuiet(false, Exec(n, rules, p).events, at);
    } else if n.Await? {
      SoundAwait(n, rules, p, at);
    } else if n.Call? {
      SoundCall(n, rules, p, at);
    } else if n.Switch? || n.Try? || n.Loop? || n.ForAwait? {
      SoundGuarded(n, rules, p, at);
    } else if !n.NestedFunction? {
      SoundInside(n, rules, p, at);
    }
  }

  lemma {:induction false} SoundAwait(n: Node, rules: Rules, p: Oracle, at: nat)
    requires n.Await? && Handled(n, rules) && Seen(n, rules, p)
    ensures Covers(Walk(n, false, rules.accessor, false), Exec(n, rules, p), false, at, rules)
    decreases n, 1, 0
  {
    assert HandledHere(n, rules);
    Sound(n.argument, false, rules, Part(p, 0), false, at);
    BadConcat(false, Exec(n.argument, rules, Part(p, 0)).events, [Suspend], at);
  }

  lemma NamedArePlaced(ns: seq<Node>, every: bool, rules: Rules)
    requires NamedWell(ns, false, every, rules)
    ensures AllPlaced(ns, every, rules)
  {
  }

  lemma {:induction false} SoundAll(ns: seq<Node>, asArgument: bool, rules: Rules, ps: seq<Oracle>, saw: bool, at: nat)
    requires AllHandled(ns, rules) && SeenAll(ns, rules, ps) && NamedWell(ns, !saw, asArgument, rules)
    ensures Covers(WalkAll(ns, asArgument, rules.accessor, saw), ExecAll(ns, rules, ps), saw, at, rules)
    decreases ns, 0, 0
  {
    if ns != [] {
      var w, rest := Walk(ns[0], asArgument, rules.accessor, saw), ns[1..];
      assert Handled(ns[0], rules);
      NamedRest(ns, !saw, asArgument, rules, !w.saw);
      Sound(ns[0], asArgument, rules, Head(ps), saw, at);
      SoundAll(rest, asArgument, rules, Tail(ps), w.saw, at);
      if w.saw {
        NamedArePlaced(rest, asArgument, rules);
        FlagStaysAll(rest, asArgument, rules);
      }
      CoversThen(Exec(ns[0], rules, Head(ps)), ExecAll(rest, rules, Tail(ps)),
                 w, WalkAll(rest, asArgument, rules.accessor, w.saw), saw, at, rules);
    }
  }

  lemma NamedRest(ns: seq<Node>, first: bool, every: bool, rules: Rules, first': bool)
    requires ns != [] && NamedWell(ns, first, every, rules)
    ensures NamedWell(ns[1..], first', every, rules)
    ensures Refers(ns[0], rules) ==> ns[0].name == rules.accessor && (every || first)
  {
    forall i | 0 <= i < |ns[1..]| && Refers(ns[1..][i], rules)
      ensures ns[1..][i].name == rules.accessor && (every || (first' && i == 0))
    {
      assert ns[1..][i] == ns[i + 1];
    }
  }

  lemma NamelessIsNamedWell(ns: seq<Node>, rules: Rules)
    requires Nameless(ns, rules)
    ensures forall first, every :: NamedWell(ns, first, every, rules)
    ensures AllPlaced(ns, false, rules)
  {
  }

  lemma {:induction false} SoundCall(n: Node, rules: Rules, p: Oracle, at: nat)
    requires n.Call? && Handled(n, rules) && Seen(n, rules, p)
    ensures Covers(WalkInside(n, rules.accessor, false), Exec(n, rules, p), false, at, rules)
    ensures Walk(n, false, rules.accessor, false) == WalkInside(n, rules.accessor, false)
    ensures Walk(n, true, rules.accessor, false) == WalkInside(n, rules.accessor, false)
    decreases n, 1, 0
  {
    var Call(shape, target, args) := n;
    assert HandledHere(n, rules);
    var t := WalkAll(target, false, rules.accessor, false);
    var asArgument := !shape.Construct?;
    var a := WalkAll(args, asArgument, rules.accessor, t.saw);
    SoundTarget(shape, target, rules, Part(p, 0).parts, at);
    SoundArgs(args, asArgument, rules, Part(p, 1).parts, t.saw, at);
    var parts := Then(ExecAll(target, rules, Part(p, 0).parts), ExecAll(args, rules, Part(p, 1).parts));
    CoversThen(ExecAll(target, rules, Part(p, 0).parts), ExecAll(args, rules, Part(p, 1).parts), t, a, false, at, rules);
    SoundMade(n, parts, Also(t, a), rules, p, at);
  }

  lemma {:induction false} SoundTarget(shape: Shape, target: seq<Node>, rules: Rules, ps: seq<Oracle>, at: nat)
    requires AllHandled(target, rules) && SeenAll(target, rules, ps) && NamedWell(target, shape.Method?, false, rules)
    ensures Covers(WalkAll(target, false, rules.accessor, false), ExecAll(target, rules, ps), false, at, rules)
    decreases target, 1, 0
  {
    assert NamedWell(target, true, false, rules);
    SoundAll(target, false, rules, ps, false, at);
  }

  lemma {:induction false} SoundArgs(
    args: seq<Node>, asArgument: bool, rules: Rules, ps: seq<Oracle>, saw: bool, at: nat)
    requires AllHandled(args, rules) && SeenAll(args, rules, ps) && NamedWell(args, false, asArgument, rules)
    ensures Covers(WalkAll(args, asArgument, rules.accessor, saw), ExecAll(args, rules, ps), saw, at, rules)
    ensures saw ==> WalkAll(args, asArgument, rules.accessor, saw).saw
    decreases args, 1, 0
  {
    assert NamedWell(args, !saw, asArgument, rules);
    SoundAll(args, asArgument, rules, ps, saw, at);
    NamedArePlaced(args, asArgument, rules);
    FlagStaysAll(args, asArgument, rules);
  }

  /** Making the call: the names it is handed, if that counts, and the function values it runs. */
  lemma {:induction false} SoundMade(n: Node, parts: Trace, w: Out, rules: Rules, p: Oracle, at: nat)
    requires n.Call? && Handled(n, rules) && Seen(n, rules, p) && Covers(w, parts, false, at, rules)
    requires parts == Then(ExecAll(n.target, rules, Part(p, 0).parts), ExecAll(n.args, rules, Part(p, 1).parts))
    ensures Covers(w, Exec(n, rules, p), false, at, rules)
  {
    var handed := if rules.late then Handed(n.target, rules) + Handed(n.args, rules) else [];
    var runs := RunAll(n.target, rules, Part(p, 0).parts) + RunAll(n.args, rules, Part(p, 1).parts);
    HandledRuns(n.target, rules, Part(p, 0).parts);
    HandledRuns(n.args, rules, Part(p, 1).parts);
    NoSuspendHanded(n.target, rules);
    NoSuspendHanded(n.args, rules);
    BadConcat(false, parts.events, handed + runs, at);
    if handed == [] {
      assert handed + runs == runs;
      BadQuiet(true, runs, at);
      BadQuiet(false, runs, at);
    } else {
      assert Quiet(parts.events);
      BadQuiet(false, handed + runs, at);
    }
  }

  lemma {:induction false} NoSuspendHanded(ns: seq<Node>, rules: Rules)
    ensures Suspend !in Handed(ns, rules)
  {
    if ns != [] { NoSuspendHanded(ns[1..], rules); }
  }

  lemma {:induction false} SoundInside(n: Node, rules: Rules, p: Oracle, at: nat)
    requires Handled(n, rules) && Seen(n, rules, p) && !n.NestedFunction? && !n.Ident? && !n.Await? && !n.Call?
    requires !n.Switch? && !n.Try? && !n.Loop? && !n.ForAwait?
    ensures Covers(WalkInside(n, rules.accessor, false), Exec(n, rules, p), false, at, rules)
    decreases n, 1, 0
  {
    assert HandledHere(n, rules);
    match n
    case Member(receiver, property, computed) =>
      if computed {
        SoundTwo(n, receiver, property, rules, p, at);
      } else {
        Sound(receiver, false, rules, Part(p, 0), false, at);
      }
    case Unvisited(parts) =>
      LacksAll(parts, rules, p.parts, Suspends);
      BadQuiet(false, Exec(n, rules, p).events, at);
    case Row(parts) => SoundRow(parts, rules, p.parts, false, at);
    case Logical(left, right) =>
      if p.pick == 0 { SoundFirst(n, left, right, rules, p, at); } else { SoundTwo(n, left, right, rules, p, at); }
    case Conditional(test, yes, no) => SoundConditional(n, rules, p, at);
    case Block(body) => SoundRow(body, rules, p.parts, false, at);
    case If(test, yes, no) => SoundIf(n, rules, p, at);
    case Return(m) => if m.Some? { SoundLeaving(n, m.value, rules, p, Returns, at); }
    case Throw(m) => if m.Some? { SoundLeaving(n, m.value, rules, p, Throws, at); }
    case _ =>
  }

  lemma {:induction false} SoundRow(ns: seq<Node>, rules: Rules, ps: seq<Oracle>, saw: bool, at: nat)
    requires AllHandled(ns, rules) && SeenAll(ns, rules, ps) && Nameless(ns, rules)
    ensures Covers(WalkAll(ns, false, rules.accessor, saw), ExecAll(ns, rules, ps), saw, at, rules)
    ensures saw ==> WalkAll(ns, false, rules.accessor, saw).saw
    decreases ns, 1, 0
  {
    NamelessIsNamedWell(ns, rules);
    assert NamedWell(ns, !saw, false, rules);
    SoundAll(ns, false, rules, ps, saw, at);
    FlagStaysAll(ns, false, rules);
  }

  lemma {:induction false} SoundLeaving(n: Node, m: Node, rules: Rules, p: Oracle, end: End, at: nat)
    requires m < n && Handled(m, rules) && Seen(m, rules, Part(p, 0)) && !Refers(m, rules) && !Stays(end)
    ensures Covers(Walk(m, false, rules.accessor, false),
                   Then(Exec(m, rules, Part(p, 0)), Trace([], end)), false, at, rules)
    decreases n, 0, 0
  {
    Sound(m, false, rules, Part(p, 0), false, at);
    ConcatNil(Exec(m, rules, Part(p, 0)).events);
  }

  /** `a`, after which `b` may be left out. */
  lemma {:induction false} SoundFirst(n: Node, a: Node, b: Node, rules: Rules, p: Oracle, at: nat)
    requires a < n && Handled(a, rules) && Seen(a, rules, Part(p, 0)) && Handled(b, rules)
    requires !Refers(a, rules) && !Refers(b, rules)
    ensures var wa := Walk(a, false, rules.accessor, false);
      var wb := Walk(b, false, rules.accessor, wa.saw);
      Covers(wa, Exec(a, rules, Part(p, 0)), false, at, rules) && (wa.saw ==> wb.saw)
      && Covers(Also(wa, wb), Exec(a, rules, Part(p, 0)), false, at, rules)
    decreases n, 0, 0
  {
    var wa := Walk(a, false, rules.accessor, false);
    Sound(a, false, rules, Part(p, 0), false, at);
    FlagStays(b, false, rules);
    CoversMore(wa, Also(wa, Walk(b, false, rules.accessor, wa.saw)), Exec(a, rules, Part(p, 0)), false, false, at, rules);
  }

  /** First `a`, then `b`, both below `n`. */
  lemma {:induction false} SoundTwo(n: Node, a: Node, b: Node, rules: Rules, p: Oracle, at: nat)
    requires a < n && b < n && Handled(a, rules) && Handled(b, rules)
    requires Seen(a, rules, Part(p, 0)) && Seen(b, rules, Part(p, 1))
    requires !Refers(a, rules) && !Refers(b, rules)
    ensures var wa := Walk(a, false, rules.accessor, false);
      var wb := Walk(b, false, rules.accessor, wa.saw);
      var ta, tb := Exec(a, rules, Part(p, 0)), Exec(b, rules, Part(p, 1));
      && Covers(wa, ta, false, at, rules) && Covers(wb, tb, wa.saw, at, rules) && (wa.saw ==> wb.saw)
      && Covers(Also(wa, wb), Then(ta, tb), false, at, rules)
    decreases n, 0, 1
  {
    var wa := Walk(a, false, rules.accessor, false);
    var wb := Walk(b, false, rules.accessor, wa.saw);
    SoundFirst(n, a, b, rules, p, at);
    Sound(b, false, rules, Part(p, 1), wa.saw, at);
    CoversThen(Exec(a, rules, Part(p, 0)), Exec(b, rules, Part(p, 1)), wa, wb, false, at, rules);
  }

  lemma {:induction false} SoundConditional(n: Node, rules: Rules, p: Oracle, at: nat)
    requires n.Conditional? && Handled(n, rules) && Seen(n, rules, p)
    ensures Covers(WalkInside(n, rules.accessor, false), Exec(n, rules, p), false, at, rules)
    decreases n, 0, 2
  {
    assert HandledHere(n, rules);
    var taken := if p.pick == 0 then n.consequent else n.alternate;
    SoundTwo(n, n.test, taken, rules, p, at);
    var wt := Walk(n.test, false, rules.accessor, false);
    CoversMore(Also(wt, Walk(taken, false, rules.accessor, wt.saw)), WalkInside(n, rules.accessor, false),
               Exec(n, rules, p), false, false, at, rules);
  }

  /** An `if` leaves the flag set if its test did. */
  lemma IfKeepsFlag(n: Node, rules: Rules)
    requires n.If? && Handled(n, rules) && Walk(n.test, false, rules.accessor, false).saw
    ensures WalkInside(n, rules.accessor, false).saw
  {
    assert HandledHere(n, rules);
    FlagStays(n.consequent, false, rules);
    if n.otherwise.Some? { FlagStays(n.otherwise.value, false, rules); }
  }

  lemma {:induction false} SoundIf(n: Node, rules: Rules, p: Oracle, at: nat)
    requires n.If? && Handled(n, rules) && Seen(n, rules, p)
    ensures Covers(WalkInside(n, rules.accessor, false), Exec(n, rules, p), false, at, rules)
    decreases n, 0, 2
  {
    assert HandledHere(n, rules);
    var If(test, yes, no) := n;
    var wt := Walk(test, false, rules.accessor, false);
    var w := WalkInside(n, rules.accessor, false);
    if wt.saw { IfKeepsFlag(n, rules); }
    if p.pick != 0 && no.None? {
      Sound(test, false, rules, Part(p, 0), false, at);
      ConcatNil(Exec(test, rules, Part(p, 0)).events);
      CoversMore(wt, w, Exec(n, rules, p), false, false, at, rules);
    } else {
      SoundBranch(n, if p.pick == 0 then yes else no.value, rules, p, at);
    }
  }

  lemma {:induction false} SoundBranch(n: Node, taken: Node, rules: Rules, p: Oracle, at: nat)
    requires n.If? && Handled(n, rules) && Seen(n, rules, p)
    requires if p.pick == 0 then taken == n.consequent else n.otherwise == Some(taken)
    requires Walk(n.test, false, rules.accessor, false).saw ==> WalkInside(n, rules.accessor, false).saw
    ensures Covers(WalkInside(n, rules.accessor, false), Exec(n, rules, p), false, at, rules)
    decreases n, 0, 1
  {
    assert HandledHere(n, rules);
    var wt := Walk(n.test, false, rules.accessor, false);
    var w := WalkInside(n, rules.accessor, false);
    Sound(n.test, false, rules, Part(p, 0), false, at);
    var wk := Walk(taken, false, rules.accessor, wt.saw);
    var tk := Exec(taken, rules, Part(p, 1));
    Sound(taken, false, rules, Part(p, 1), wt.saw, at);
    if AlwaysExits(taken) { ExitsNeverFallThrough(taken, rules, Part(p, 1)); }
    var wb := Out(w.saw, wk.reports);
    assert Covers(wb, tk, wt.saw, at, rules);
    CoversThen(Exec(n.test, rules, Part(p, 0)), tk, wt, wb, false, at, rules);
    CoversMore(Also(wt, wb), w, Exec(n, rules, p), false, false, at, rules);
  }

  lemma {:induction false} SoundGuarded(n: Node, rules: Rules, p: Oracle, at: nat)
    requires Handled(n, rules) && Seen(n, rules, p) && (n.Switch? || n.Try? || n.Loop? || n.ForAwait?)
    ensures Covers(WalkInside(n, rules.accessor, false), Exec(n, rules, p), false, at, rules)
    decreases n, 1, 0
  {
    match n
    case Loop(_, _, _, _, _) => SoundLoop(n, rules, p, at);
    case ForAwait(_, _) => SoundForAwait(n, rules, p, at);
    case Switch(_, _) => SoundSwitch(n, rules, p, at);
    case Try(_, _, _) => SoundTry(n, rules, p, at);
  }

  lemma {:induction false} SoundForAwait(n: Node, rules: Rules, p: Oracle, at: nat)
    requires n.ForAwait? && Handled(n, rules) && Seen(n, rules, p)
    ensures Covers(WalkInside(n, rules.accessor, false), Exec(n, rules, p), false, at, rules)
    decreases n, 0, 1
  {
    assert HandledHere(n, rules);
    var ForAwait(right, round) := n;
    var wr, w := Walk(right, false, rules.accessor, false), Walk(round, false, rules.accessor, true);
    Sound(right, false, rules, Part(p, 0), false, at);
    var rounds := ExecAwaitRounds(round, rules, Part(p, 1).parts);
    TaintAwaitRounds(round, rules, Part(p, 1).parts, at);
    TaintIsCover(w, rounds, at, rules);
    CoversMore(w, w, rounds, true, wr.saw, at, rules);
    CoversThen(Exec(right, rules, Part(p, 0)), rounds, wr, w, false, at, rules);
  }

  // ----- loops -----

  function CheckWalk(n: Node, accessor: string, saw: bool): Out requires n.Loop? {
    WalkAll(n.check, false, accessor, saw)
  }

  function UpdateWalk(n: Node, accessor: string, saw: bool): Out requires n.Loop? {
    WalkAll(n.update, false, accessor, CheckWalk(n, accessor, saw).saw)
  }

  function RoundWalk(n: Node, accessor: string, saw: bool): Out requires n.Loop? {
    Walk(n.round, false, accessor, UpdateWalk(n, accessor, saw).saw)
  }

  /** A loop but for its head. */
  function PartsWalk(n: Node, accessor: string, saw: bool): Out requires n.Loop? {
    Also(Also(CheckWalk(n, accessor, saw), UpdateWalk(n, accessor, saw)), RoundWalk(n, accessor, saw))
  }

  /** The parts of the loop from the one marked on leave the flag set. */
  predicate Carried(n: Node, accessor: string, saw: bool, m: nat) requires n.Loop? {
    && (saw || m <= 1 ==> CheckWalk(n, accessor, saw).saw)
    && (saw || m <= 2 ==> UpdateWalk(n, accessor, saw).saw)
    && (saw || m <= 3 ==> RoundWalk(n, accessor, saw).saw)
  }

  /** A part that waits and goes on marks the loop. */
  lemma MarkCarries(n: Node, rules: Rules, saw: bool, m: nat, part: nat, events: seq<Event>)
    requires n.Loop? && Handled(n, rules) && Carried(n, rules.accessor, saw, m) && 1 <= part <= 3
    requires !Quiet(events) ==>
      if part == 1 then CheckWalk(n, rules.accessor, saw).saw
      else if part == 2 then UpdateWalk(n, rules.accessor, saw).saw
      else RoundWalk(n, rules.accessor, saw).saw
    ensures Carried(n, rules.accessor, saw, Mark(m, part, events))
    ensures Mark(m, part, events) <= 3 <==> m <= 3 || Suspend in events
  {
    assert HandledHere(n, rules);
    NamelessIsNamedWell(n.update, rules);
    FlagStaysAll(n.update, false, rules);
    FlagStays(n.round, false, rules);
  }

  lemma {:induction false} SoundLoop(n: Node, rules: Rules, p: Oracle, at: nat)
    requires n.Loop? && Handled(n, rules) && Seen(n, rules, p)
    ensures Covers(WalkInside(n, rules.accessor, false), Exec(n, rules, p), false, at, rules)
    decreases n, 0, 4 + 3 * |Part(p, 1).parts|
  {
    assert HandledHere(n, rules);
    var wh := WalkAll(n.head, false, rules.accessor, false);
    var w := PartsWalk(n, rules.accessor, wh.saw);
    SoundRow(n.head, rules, Part(p, 0).parts, false, at);
    LoopFlags(n, rules, wh.saw);
    var first := Exec(n.round, rules, Part(p, 2));
    var m := if n.bodyFirst then Mark(4, 3, first.events) else 4;
    var tr := if n.bodyFirst then Go(first, ExecRounds(n, rules, Part(p, 1).parts))
      else ExecRounds(n, rules, Part(p, 1).parts);
    if n.bodyFirst {
      SoundRound(n, rules, Part(p, 2), wh.saw, 4, at);
      if Stays(first.end) { SoundRounds(n, rules, Part(p, 1).parts, wh.saw, m, at); }
      CoversGo(w, first, ExecRounds(n, rules, Part(p, 1).parts), wh.saw, at, rules);
    } else {
      SoundRounds(n, rules, Part(p, 1).parts, wh.saw, 4, at);
    }
    CoversThen(ExecAll(n.head, rules, Part(p, 0).parts), tr, wh, w, false, at, rules);
    CoversMore(Also(wh, w), WalkInside(n, rules.accessor, false), Exec(n, rules, p), false, false, at, rules);
  }

  lemma LoopFlags(n: Node, rules: Rules, saw: bool)
    requires n.Loop? && Handled(n, rules)
    ensures Carried(n, rules.accessor, saw, 4)
  {
    assert HandledHere(n, rules);
    NamelessIsNamedWell(n.check, rules);
    NamelessIsNamedWell(n.update, rules);
    FlagStaysAll(n.check, false, rules);
    FlagStaysAll(n.update, false, rules);
    FlagStays(n.round, false, rules);
  }

  lemma CoversGo(w: Out, body: Trace, rest: Trace, suspended: bool, at: nat, rules: Rules)
    requires Covers(w, body, suspended, at, rules)
    requires body.end.Normal? || body.end.Continues? ==> Covers(w, rest, suspended || Suspend in body.events, at, rules)
    ensures Covers(w, Go(body, rest), suspended, at, rules)
  {
    if body.end.Normal? || body.end.Continues? { CoversNext(w, body, rest, suspended, at, rules); }
  }

  /** One body, at mark `m`. */
  lemma {:induction false} SoundRound(n: Node, rules: Rules, p: Oracle, saw: bool, m: nat, at: nat)
    requires n.Loop? && Handled(n, rules) && Carried(n, rules.accessor, saw, m)
    requires Seen(n.round, rules, p) && InView(m, 3, Exec(n.round, rules, p).events)
    ensures var tr := Exec(n.round, rules, p);
      && Covers(PartsWalk(n, rules.accessor, saw), tr, saw || m <= 3, at, rules)
      && (Stays(tr.end) ==> Carried(n, rules.accessor, saw, Mark(m, 3, tr.events)))
      && (Mark(m, 3, tr.events) <= 3 <==> m <= 3 || Suspend in tr.events)
    decreases n, 0, 0
  {
    assert HandledHere(n, rules);
    var f, tr := UpdateWalk(n, rules.accessor, saw).saw, Exec(n.round, rules, p);
    Sound(n.round, false, rules, p, f, at);
    CoversPart(RoundWalk(n, rules.accessor, saw), PartsWalk(n, rules.accessor, saw), tr, f, saw || m <= 3, at, rules);
    if Stays(tr.end) { MarkCarries(n, rules, saw, m, 3, tr.events); }
  }

  lemma {:induction false} SoundCheck(n: Node, rules: Rules, ps: seq<Oracle>, saw: bool, m: nat, at: nat)
    requires n.Loop? && Handled(n, rules) && Carried(n, rules.accessor, saw, m) && m > 0
    requires SeenAll(n.check, rules, ps) && InView(m, 1, ExecAll(n.check, rules, ps).events)
    ensures var tr := ExecAll(n.check, rules, ps);
      && Covers(PartsWalk(n, rules.accessor, saw), tr, saw || m <= 3, at, rules)
      && (Stays(tr.end) ==> Carried(n, rules.accessor, saw, Mark(m, 1, tr.events)))
      && (Mark(m, 1, tr.events) <= 3 <==> m <= 3 || Suspend in tr.events)
    decreases n, 0, 0
  {
    assert HandledHere(n, rules);
    var w, tr := CheckWalk(n, rules.accessor, saw), ExecAll(n.check, rules, ps);
    SoundRow(n.check, rules, ps, saw, at);
    LoopPartsReach(n, rules, saw);
    CoversPart(w, PartsWalk(n, rules.accessor, saw), tr, saw, saw || m <= 3, at, rules);
    if Stays(tr.end) { MarkCarries(n, rules, saw, m, 1, tr.events); }
  }

  lemma {:induction false} SoundUpdate(n: Node, rules: Rules, ps: seq<Oracle>, saw: bool, m: nat, at: nat)
    requires n.Loop? && Handled(n, rules) && Carried(n, rules.accessor, saw, m)
    requires SeenAll(n.update, rules, ps) && InView(m, 2, ExecAll(n.update, rules, ps).events)
    ensures var tr := ExecAll(n.update, rules, ps);
      && Covers(PartsWalk(n, rules.accessor, saw), tr, saw || m <= 3, at, rules)
      && (Stays(tr.end) ==> Carried(n, rules.accessor, saw, Mark(m, 2, tr.events)))
      && (Mark(m, 2, tr.events) <= 3 <==> m <= 3 || Suspend in tr.events)
    decreases n, 0, 0
  {
    assert HandledHere(n, rules);
    var f := CheckWalk(n, rules.accessor, saw).saw;
    var w, tr := UpdateWalk(n, rules.accessor, saw), ExecAll(n.update, rules, ps);
    SoundRow(n.update, rules, ps, f, at);
    LoopPartsReach(n, rules, saw);
    CoversPart(w, PartsWalk(n, rules.accessor, saw), tr, f, saw || m <= 3, at, rules);
    if Stays(tr.end) { MarkCarries(n, rules, saw, m, 2, tr.events); }
  }

  /** Whatever a part of the loop reports or sets, the loop does. */
  lemma LoopPartsReach(n: Node, rules: Rules, saw: bool)
    requires n.Loop? && Handled(n, rules)
    ensures var w := PartsWalk(n, rules.accessor, saw);
      && Reaches(CheckWalk(n, rules.accessor, saw).reports, w.reports)
      && Reaches(UpdateWalk(n, rules.accessor, saw).reports, w.reports)
      && (CheckWalk(n, rules.accessor, saw).saw ==> UpdateWalk(n, rules.accessor, saw).saw)
      && (UpdateWalk(n, rules.accessor, saw).saw ==> w.saw)
  {
    assert HandledHere(n, rules);
    NamelessIsNamedWell(n.update, rules);
    FlagStaysAll(n.update, false, rules);
    FlagStays(n.round, false, rules);
  }

  /** A loop's rounds, from the state in which its parts are walked. */
  lemma {:induction false} SoundRounds(n: Node, rules: Rules, rounds: seq<Oracle>, saw: bool, m: nat, at: nat)
    requires n.Loop? && Handled(n, rules) && m > 0
    requires SeenRounds(n, rules, rounds, m) && Carried(n, rules.accessor, saw, m)
    ensures Covers(PartsWalk(n, rules.accessor, saw), ExecRounds(n, rules, rounds), saw || m <= 3, at, rules)
    decreases n, 0, 3 + 3 * |rounds|
  {
    var w, t := PartsWalk(n, rules.accessor, saw), ExecAll(n.check, rules, Part(Head(rounds), 0).parts);
    SoundCheck(n, rules, Part(Head(rounds), 0).parts, saw, m, at);
    ConcatNil(t.events);
    if |rounds| > 1 && t.end == Normal {
      SoundOn(n, rules, rounds, saw, Mark(m, 1, t.events), at);
      CoversNext(w, t, RoundOn(n, rules, rounds), saw || m <= 3, at, rules);
    }
  }

  /** A full round after its test, and the rounds after it. */
  function RoundOn(n: Node, rules: Rules, rounds: seq<Oracle>): Trace
    requires n.Loop? && |rounds| > 1
  {
    Go(Exec(n.round, rules, Part(Head(rounds), 1)),
       Then(ExecAll(n.update, rules, Part(Head(rounds), 2).parts), ExecRounds(n, rules, rounds[1..])))
  }

  lemma {:induction false} SoundOn(n: Node, rules: Rules, rounds: seq<Oracle>, saw: bool, m: nat, at: nat)
    requires n.Loop? && Handled(n, rules) && |rounds| > 1 && m > 0 && Carried(n, rules.accessor, saw, m)
    requires var b := Exec(n.round, rules, Part(Head(rounds), 1)).events;
      var u := ExecAll(n.update, rules, Part(Head(rounds), 2).parts).events;
      && Seen(n.round, rules, Part(Head(rounds), 1)) && InView(m, 3, b)
      && SeenAll(n.update, rules, Part(Head(rounds), 2).parts) && InView(Mark(m, 3, b), 2, u)
      && SeenRounds(n, rules, rounds[1..], Mark(Mark(m, 3, b), 2, u))
    ensures Covers(PartsWalk(n, rules.accessor, saw), RoundOn(n, rules, rounds), saw || m <= 3, at, rules)
    decreases n, 0, 2 + 3 * |rounds|
  {
    var b := Exec(n.round, rules, Part(Head(rounds), 1));
    var rest := Then(ExecAll(n.update, rules, Part(Head(rounds), 2).parts), ExecRounds(n, rules, rounds[1..]));
    SoundRound(n, rules, Part(Head(rounds), 1), saw, m, at);
    if Stays(b.end) { SoundNext(n, rules, rounds, saw, Mark(m, 3, b.events), at); }
    CoversGo(PartsWalk(n, rules.accessor, saw), b, rest, saw || m <= 3, at, rules);
  }

  /** The update and the rounds after it. */
  lemma {:induction false} SoundNext(n: Node, rules: Rules, rounds: seq<Oracle>, saw: bool, m: nat, at: nat)
    requires n.Loop? && Handled(n, rules) && |rounds| > 1 && m > 0 && Carried(n, rules.accessor, saw, m)
    requires var u := ExecAll(n.update, rules, Part(Head(rounds), 2).parts).events;
      && SeenAll(n.update, rules, Part(Head(rounds), 2).parts) && InView(m, 2, u)
      && SeenRounds(n, rules, rounds[1..], Mark(m, 2, u))
    ensures Covers(PartsWalk(n, rules.accessor, saw),
                   Then(ExecAll(n.update, rules, Part(Head(rounds), 2).parts), ExecRounds(n, rules, rounds[1..])),
                   saw || m <= 3, at, rules)
    decreases n, 0, 1 + 3 * |rounds|
  {
    var u := ExecAll(n.update, rules, Part(Head(rounds), 2).parts);
    SoundUpdate(n, rules, Part(Head(rounds), 2).parts, saw, m, at);
    if u.end == Normal {
      SoundRounds(n, rules, rounds[1..], saw, Mark(m, 2, u.events), at);
      CoversNext(PartsWalk(n, rules.accessor, saw), u, ExecRounds(n, rules, rounds[1..]), saw || m <= 3, at, rules);
    }
  }

  // ----- switches -----

  lemma CasesReach(cases: seq<Case>, rules: Rules, before: bool, any: bool)
    requires cases != []
    ensures var c, w := WalkCase(cases[0], rules.accessor, before), WalkCases(cases, rules.accessor, before, any);
      && w.saw == WalkCases(cases[1..], rules.accessor, before, any || c.saw).saw
      && Reaches(c.reports, w.reports)
      && Reaches(WalkCases(cases[1..], rules.accessor, before, any || c.saw).reports, w.reports)
  {
  }

  lemma {:induction false} AnyStays(cases: seq<Case>, rules: Rules, before: bool)
    ensures WalkCases(cases, rules.accessor, before, true).saw
    decreases cases
  {
    if cases != [] { AnyStays(cases[1..], rules, before); }
  }

  predicate AllHandledCases(cases: seq<Case>, rules: Rules) {
    forall c :: c in cases ==> HandledCase(c, rules)
  }

  function TestWalk(c: Case, accessor: string, before: bool): Out {
    if c.test.Some? then Walk(c.test.value, false, accessor, before) else Out(before, [])
  }

  lemma {:induction false} SoundTest(c: Case, rules: Rules, p: Oracle, before: bool, at: nat)
    requires HandledCase(c, rules) && SeenTest(c, rules, p)
    ensures Covers(TestWalk(c, rules.accessor, before), ExecTest(c, rules, p), before, at, rules)
    ensures before ==> TestWalk(c, rules.accessor, before).saw
    ensures TestWalk(c, rules.accessor, before).saw ==> WalkCase(c, rules.accessor, before).saw
    decreases c, 0, 0
  {
    if c.test.Some? {
      Sound(c.test.value, false, rules, p, before, at);
      FlagStays(c.test.value, false, rules);
    }
    NamelessIsNamedWell(c.body, rules);
    FlagStaysAll(c.body, false, rules);
  }

  lemma {:induction false} SoundUnit(c: Case, rules: Rules, p: Oracle, before: bool, at: nat)
    requires HandledCase(c, rules) && SeenTest(c, rules, Part(p, 0)) && SeenAll(c.body, rules, Part(p, 1).parts)
    ensures Covers(WalkCase(c, rules.accessor, before),
                   Then(ExecTest(c, rules, Part(p, 0)), ExecAll(c.body, rules, Part(p, 1).parts)), before, at, rules)
    decreases c, 0, 1
  {
    var w := TestWalk(c, rules.accessor, before);
    SoundTest(c, rules, Part(p, 0), before, at);
    SoundRow(c.body, rules, Part(p, 1).parts, w.saw, at);
    CoversThen(ExecTest(c, rules, Part(p, 0)), ExecAll(c.body, rules, Part(p, 1).parts), w,
               WalkAll(c.body, false, rules.accessor, w.saw), before, at, rules);
  }

  /** Case tests; `waited`: the switch has waited before. */
  lemma {:induction false} SoundTests(
    cases: seq<Case>, rules: Rules, count: nat, ps: seq<Oracle>, before: bool, any: bool, waited: bool, at: nat)
    requires AllHandledCases(cases, rules) && SeenTests(cases, rules, count, ps, waited)
    requires before || waited ==> WalkCases(cases, rules.accessor, before, any).saw
    ensures Covers(
      WalkCases(cases, rules.accessor, before, any), ExecTests(cases, rules, count, ps), before || waited, at, rules)
    decreases cases, 0, 0
  {
    if cases != [] && count > 0 {
      var w, c := WalkCases(cases, rules.accessor, before, any), cases[0];
      var tr, rest := ExecTest(c, rules, Head(ps)), ExecTests(cases[1..], rules, count - 1, Tail(ps));
      var any' := any || WalkCase(c, rules.accessor, before).saw;
      assert HandledCase(c, rules);
      CasesReach(cases, rules, before, any);
      AnyStays(cases[1..], rules, before);
      SoundTest(c, rules, Head(ps), before, at);
      CoversPart(TestWalk(c, rules.accessor, before), w, tr, before, before || waited, at, rules);
      if tr.end == Normal {
        SoundTests(cases[1..], rules, count - 1, Tail(ps), before, any', waited || !Quiet(tr.events), at);
        CoversMore(WalkCases(cases[1..], rules.accessor, before, any'), w, rest, before || waited || !Quiet(tr.events),
                   before || waited || Suspend in tr.events, at, rules);
        CoversNext(w, tr, rest, before || waited, at, rules);
      }
    }
  }

  /** The case entered and the bodies after it. */
  lemma {:induction false} SoundFrom(
    cases: seq<Case>, rules: Rules, skip: nat, ps: seq<Oracle>, before: bool, any: bool, waited: bool, at: nat)
    requires AllHandledCases(cases, rules) && SeenFrom(cases, rules, skip, ps, waited)
    requires before || waited ==> WalkCases(cases, rules.accessor, before, any).saw
    ensures Covers(
      WalkCases(cases, rules.accessor, before, any), ExecFrom(cases, rules, skip, ps), before || waited, at, rules)
    decreases cases, 1, 0
  {
    if cases != [] {
      var w, c := WalkCases(cases, rules.accessor, before, any), cases[0];
      var any' := any || WalkCase(c, rules.accessor, before).saw;
      assert HandledCase(c, rules);
      CasesReach(cases, rules, before, any);
      if skip > 0 {
        SoundFrom(cases[1..], rules, skip - 1, ps, before, any', waited, at);
        CoversMore(WalkCases(cases[1..], rules.accessor, before, any'), w, ExecFrom(cases, rules, skip, ps),
          before || waited,
                   before || waited, at, rules);
      } else {
        SoundEntered(cases, rules, ps, before, any, waited, at);
      }
    }
  }

  lemma {:induction false} SoundEntered(
    cases: seq<Case>, rules: Rules, ps: seq<Oracle>, before: bool, any: bool, waited: bool, at: nat)
    requires cases != [] && AllHandledCases(cases, rules) && SeenFrom(cases, rules, 0, ps, waited)
    requires before || waited ==> WalkCases(cases, rules.accessor, before, any).saw
    ensures Covers(WalkCases(cases, rules.accessor, before, any), ExecFrom(cases, rules, 0, ps), before || waited, at, rules)
    decreases cases, 0, 2
  {
    var w, c, p := WalkCases(cases, rules.accessor, before, any), cases[0], Head(ps);
    var wc := WalkCase(c, rules.accessor, before);
    var tr := Then(ExecTest(c, rules, Part(p, 0)), ExecAll(c.body, rules, Part(p, 1).parts));
    assert HandledCase(c, rules);
    CasesReach(cases, rules, before, any);
    AnyStays(cases[1..], rules, before);
    SoundUnit(c, rules, p, before, at);
    CoversPart(wc, w, tr, before, before || waited, at, rules);
    if tr.end == Normal {
      SoundBodies(cases[1..], rules, Tail(ps), before, any || wc.saw, waited || !Quiet(tr.events), at);
      CoversMore(WalkCases(cases[1..], rules.accessor, before, any || wc.saw), w, ExecBodies(cases[1..], rules, Tail(ps)),
                 before || waited || !Quiet(tr.events), before || waited || Suspend in tr.events, at, rules);
      CoversNext(w, tr, ExecBodies(cases[1..], rules, Tail(ps)), before || waited, at, rules);
    }
  }

  lemma {:induction false} SoundBodies(
    cases: seq<Case>, rules: Rules, ps: seq<Oracle>, before: bool, any: bool, waited: bool, at: nat)
    requires AllHandledCases(cases, rules) && SeenBodies(cases, rules, ps, waited)
    requires before || waited ==> WalkCases(cases, rules.accessor, before, any).saw
    ensures Covers(WalkCases(cases, rules.accessor, before, any), ExecBodies(cases, rules, ps), before || waited, at, rules)
    decreases cases, 0, 1
  {
    if cases != [] {
      var w, c := WalkCases(cases, rules.accessor, before, any), cases[0];
      var wc, wt := WalkCase(c, rules.accessor, before), TestWalk(c, rules.accessor, before);
      var tr := ExecAll(c.body, rules, Part(Head(ps), 1).parts);
      assert HandledCase(c, rules);
      CasesReach(cases, rules, before, any);
      AnyStays(cases[1..], rules, before);
      if before && c.test.Some? { FlagStays(c.test.value, false, rules); }
      SoundRow(c.body, rules, Part(Head(ps), 1).parts, wt.saw, at);
      CoversPart(WalkAll(c.body, false, rules.accessor, wt.saw), w, tr, wt.saw, before || waited, at, rules);
      if tr.end == Normal {
        SoundBodies(cases[1..], rules, Tail(ps), before, any || wc.saw, waited || !Quiet(tr.events), at);
        CoversMore(WalkCases(cases[1..], rules.accessor, before, any || wc.saw), w, ExecBodies(cases[1..], rules, Tail(ps)),
                   before || waited || !Quiet(tr.events), before || waited || Suspend in tr.events, at, rules);
        CoversNext(w, tr, ExecBodies(cases[1..], rules, Tail(ps)), before || waited, at, rules);
      }
    }
  }

  lemma {:induction false} SoundSwitch(n: Node, rules: Rules, p: Oracle, at: nat)
    requires n.Switch? && Handled(n, rules) && Seen(n, rules, p)
    ensures Covers(WalkInside(n, rules.accessor, false), Exec(n, rules, p), false, at, rules)
    decreases n, 0, 1
  {
    assert HandledHere(n, rules);
    var Switch(d, cases) := n;
    assert AllHandledCases(cases, rules);
    var wd := Walk(d, false, rules.accessor, false);
    var w := WalkCases(cases, rules.accessor, wd.saw, false);
    var entry := Entry(cases, p.pick);
    var tests := ExecTests(cases, rules, TestsBefore(cases, entry), Part(p, 1).parts);
    var bodies := ExecFrom(cases, rules, entry, Part(p, 2).parts);
    Sound(d, false, rules, Part(p, 0), false, at);
    if wd.saw { CasesFlag(cases, rules, false); }
    SoundTests(cases, rules, TestsBefore(cases, entry), Part(p, 1).parts, wd.saw, false, false, at);
    if Stays(tests.end) {
      SoundFrom(cases, rules, entry, Part(p, 2).parts, wd.saw, false, !Quiet(tests.events), at);
      CoversNext(w, tests, bodies, wd.saw, at, rules);
    }
    var inside := Then(tests, bodies);
    assert Covers(w, Caught(inside, false), wd.saw, at, rules);
    CoversThen(Exec(d, rules, Part(p, 0)), Caught(inside, false), wd, w, false, at, rules);
  }

  // ----- try -----

  lemma CoversCut(w: Out, tr: Trace, k: nat, suspended: bool, at: nat, rules: Rules)
    requires Covers(w, tr, suspended, at, rules)
    ensures Covers(w, Cut(tr, k), suspended, at, rules)
  {
    if 0 < k <= |tr.events| + 1 {
      assert tr.events == tr.events[..k - 1] + tr.events[k - 1..];
      BadConcat(suspended, tr.events[..k - 1], tr.events[k - 1..], at);
    }
  }

  /** The flag and reports of a `try` before its finalizer, and one way through that far. */
  function TryWalk(n: Node, accessor: string): Out
    requires n.Try?
  {
    var b := Walk(n.block, false, accessor, false);
    var h := if n.handler.Some? then Walk(n.handler.value, false, accessor, false) else Out(false, []);
    Out(b.saw || h.saw, b.reports + h.reports)
  }

  lemma {:induction false} SoundTryMain(n: Node, rules: Rules, p: Oracle, at: nat)
    requires n.Try? && Handled(n, rules) && Seen(n, rules, p)
    ensures Covers(TryWalk(n, rules.accessor), TryMain(n, rules, p), false, at, rules)
    decreases n, 0, 0
  {
    assert HandledHere(n, rules);
    var wb := Walk(n.block, false, rules.accessor, false);
    var block := Exec(n.block, rules, Part(p, 0));
    var tried := Cut(block, p.pick);
    Sound(n.block, false, rules, Part(p, 0), false, at);
    CoversCut(wb, block, p.pick, false, at, rules);
    if tried.end.Throws? && n.handler.Some? {
      var wh := Walk(n.handler.value, false, rules.accessor, false);
      var handler := Exec(n.handler.value, rules, Part(p, 1));
      Sound(n.handler.value, false, rules, Part(p, 1), false, at);
      CoversCut(wh, handler, Part(p, 2).pick, false, at, rules);
      var caught := Cut(handler, Part(p, 2).pick);
      BadQuiet(false, tried.events, at);
      BadConcat(false, tried.events, caught.events, at);
      CoversMore(wh, TryWalk(n, rules.accessor), Trace(tried.events + caught.events, caught.end), false, false, at, rules);
    } else {
      CoversMore(wb, TryWalk(n, rules.accessor), tried, false, false, at, rules);
    }
  }

  lemma {:induction false} SoundTry(n: Node, rules: Rules, p: Oracle, at: nat)
    requires n.Try? && Handled(n, rules) && Seen(n, rules, p)
    ensures Covers(WalkInside(n, rules.accessor, false), Exec(n, rules, p), false, at, rules)
    decreases n, 0, 1
  {
    assert HandledHere(n, rules);
    SoundTryMain(n, rules, p, at);
    var w, main := TryWalk(n, rules.accessor), TryMain(n, rules, p);
    if n.finalizer.Some? {
      var fin := n.finalizer.value;
      var wf, last := Walk(fin, false, rules.accessor, w.saw), Exec(fin, rules, Part(p, 3));
      Sound(fin, false, rules, Part(p, 3), w.saw, at);
      if w.saw { FlagStays(fin, false, rules); }
      FinallyCovered(w, wf, main, last, at, rules);
    }
  }

  lemma FinallyCovered(w: Out, wf: Out, main: Trace, last: Trace, at: nat, rules: Rules)
    requires Covers(w, main, false, at, rules) && Covers(wf, last, w.saw, at, rules) && (w.saw ==> wf.saw)
    requires !Stays(main.end) && !Quiet(main.events) ==> Unused(last.events) && !IsJump(last.end)
    ensures Covers(Also(w, wf), Trace(main.events + last.events, if last.end.Normal? then main.end else last.end),
      false, at, rules)
  {
    BadConcat(false, main.events, last.events, at);
    BadGrows(last.events, at);
    if !Stays(main.end) && !Quiet(main.events) { UnusedIsFine(last.events, at); }
  }

  /** On a path that is seen throughout, each name by which the accessor is used after a suspension stands
      at or below a reported node, provided the names stand where the walk looks for them and what it
      skips is harmless. */
  lemma NothingSeenIsMissed(body: Node, rules: Rules, p: Oracle, at: nat)
    requires Handled(body, rules) && !Refers(body, rules) && Seen(body, rules, p)
    requires UsedAfterSuspend(Exec(body, rules, p).events, at)
    ensures Spotted(at, Reported(body, rules.accessor), rules)
  {
    BadMeaning(false, Exec(body, rules, p).events, at);
    Sound(body, false, rules, p, false, at);
  }

  // ----- bodies all of whose paths are seen throughout -----

  /** The jumps that may leave `n`. */
  function Outs(n: Node): set<End>
    decreases n, 1
  {
    match n
    case Break => {Breaks}
    case Continue => {Continues}
    case Unvisited(parts) => OutsAll(parts)
    case Await(m) => Outs(m)
    case Call(_, target, args) => OutsAll(target) + OutsAll(args)
    case Member(receiver, property, computed) => Outs(receiver) + if computed then Outs(property) else {}
    case Row(parts) => OutsAll(parts)
    case Logical(left, right) => Outs(left) + Outs(right)
    case Conditional(test, yes, no) => Outs(test) + Outs(yes) + Outs(no)
    case Block(body) => OutsAll(body)
    case If(test, yes, no) => Outs(test) + Outs(yes) + if no.Some? then Outs(no.value) else {}
    case Return(m) => if m.Some? then Outs(m.value) else {}
    case Throw(m) => if m.Some? then Outs(m.value) else {}
    case Loop(_, head, check, update, _) => OutsAll(head) + OutsAll(check) + OutsAll(update)
    case ForAwait(right, _) => Outs(right)
    case Switch(d, cases) => Outs(d) + (OutsCases(cases) - {Breaks})
    case Try(block, handler, finalizer) =>
      Outs(block) + (if handler.Some? then Outs(handler.value) else {})
        + (if finalizer.Some? then Outs(finalizer.value) else {})
    case _ => {}
  }

  function OutsAll(ns: seq<Node>): set<End>
    decreases ns, 0
  {
    if ns == [] then {} else Outs(ns[0]) + OutsAll(ns[1..])
  }

  function OutsCases(cases: seq<Case>): set<End>
    decreases cases, 0
  {
    if cases == [] then {}
    else (if cases[0].test.Some? then Outs(cases[0].test.value) else {}) + OutsAll(cases[0].body) + OutsCases(cases[1..])
  }

  lemma {:induction false} OutsMeaning(n: Node, rules: Rules, p: Oracle)
    ensures IsJump(Exec(n, rules, p).end) ==> Exec(n, rules, p).end in Outs(n)
    decreases n, 2, 0
  {
    match n
    case Unvisited(parts) => OutsOfAll(parts, rules, p.parts);
    case Await(m) => OutsMeaning(m, rules, Part(p, 0));
    case Call(_, target, args) =>
      OutsOfAll(target, rules, Part(p, 0).parts);
      OutsOfAll(args, rules, Part(p, 1).parts);
    case Member(receiver, property, computed) =>
      OutsMeaning(receiver, rules, Part(p, 0));
      if computed { OutsMeaning(property, rules, Part(p, 1)); }
    case Row(parts) => OutsOfAll(parts, rules, p.parts);
    case Block(body) => OutsOfAll(body, rules, p.parts);
    case Return(m) => if m.Some? { OutsMeaning(m.value, rules, Part(p, 0)); }
    case Throw(m) => if m.Some? { OutsMeaning(m.value, rules, Part(p, 0)); }
    case _ => OutsOfBranches(n, rules, p);
  }

  lemma {:induction false} OutsOfBranches(n: Node, rules: Rules, p: Oracle)
    requires !n.Unvisited? && !n.Await? && !n.Call? && !n.Member? && !n.Row? && !n.Block? && !n.Return? && !n.Throw?
    ensures IsJump(Exec(n, rules, p).end) ==> Exec(n, rules, p).end in Outs(n)
    decreases n, 1, 0
  {
    match n
    case Logical(left, right) => OutsMeaning(left, rules, Part(p, 0)); OutsMeaning(right, rules, Part(p, 1));
    case Conditional(test, yes, no) =>
      OutsMeaning(test, rules, Part(p, 0));
      OutsMeaning(if p.pick == 0 then yes else no, rules, Part(p, 1));
    case If(test, yes, no) =>
      OutsMeaning(test, rules, Part(p, 0));
      if p.pick == 0 { OutsMeaning(yes, rules, Part(p, 1)); }
      else if no.Some? { OutsMeaning(no.value, rules, Part(p, 1)); }
    case Loop(_, _, _, _, _) => OutsOfLoop(n, rules, p);
    case ForAwait(right, round) =>
      OutsMeaning(right, rules, Part(p, 0));
      AwaitRoundsKeepJumps(round, rules, Part(p, 1).parts);
    case Switch(_, _) => OutsOfSwitch(n, rules, p);
    case Try(_, _, _) => OutsOfTry(n, rules, p);
    case _ =>
  }

  lemma {:induction false} OutsOfLoop(n: Node, rules: Rules, p: Oracle)
    requires n.Loop?
    ensures IsJump(Exec(n, rules, p).end) ==> Exec(n, rules, p).end in Outs(n)
    decreases n, 0, 1 + |Part(p, 1).parts|
  {
    OutsOfAll(n.head, rules, Part(p, 0).parts);
    OutsOfRounds(n, rules, Part(p, 1).parts);
  }

  lemma {:induction false} OutsOfSwitch(n: Node, rules: Rules, p: Oracle)
    requires n.Switch?
    ensures IsJump(Exec(n, rules, p).end) ==> Exec(n, rules, p).end in Outs(n)
    decreases n, 0, 1
  {
    var entry := Entry(n.cases, p.pick);
    OutsMeaning(n.discriminant, rules, Part(p, 0));
    OutsOfTests(n.cases, rules, TestsBefore(n.cases, entry), Part(p, 1).parts);
    OutsOfFrom(n.cases, rules, entry, Part(p, 2).parts);
  }

  lemma {:induction false} OutsOfTry(n: Node, rules: Rules, p: Oracle)
    requires n.Try?
    ensures IsJump(Exec(n, rules, p).end) ==> Exec(n, rules, p).end in Outs(n)
    decreases n, 0, 1
  {
    OutsMeaning(n.block, rules, Part(p, 0));
    if n.handler.Some? { OutsMeaning(n.handler.value, rules, Part(p, 1)); }
    if n.finalizer.Some? { OutsMeaning(n.finalizer.value, rules, Part(p, 3)); }
  }

  lemma {:induction false} OutsOfAll(ns: seq<Node>, rules: Rules, ps: seq<Oracle>)
    ensures IsJump(ExecAll(ns, rules, ps).end) ==> ExecAll(ns, rules, ps).end in OutsAll(ns)
    decreases ns, 0, 0
  {
    if ns != [] {
      OutsMeaning(ns[0], rules, Head(ps));
      OutsOfAll(ns[1..], rules, Tail(ps));
    }
  }

  lemma {:induction false} OutsOfRounds(n: Node, rules: Rules, rounds: seq<Oracle>)
    requires n.Loop?
    ensures var end := ExecRounds(n, rules, rounds).end; IsJump(end) ==> end in OutsAll(n.check) + OutsAll(n.update)
    decreases n, 0, |rounds|
  {
    OutsOfAll(n.check, rules, Part(Head(rounds), 0).parts);
    OutsOfAll(n.update, rules, Part(Head(rounds), 2).parts);
    if |rounds| > 1 { OutsOfRounds(n, rules, rounds[1..]); }
  }

  lemma {:induction false} AwaitRoundsKeepJumps(body: Node, rules: Rules, rounds: seq<Oracle>)
    ensures !IsJump(ExecAwaitRounds(body, rules, rounds).end)
    decreases |rounds|
  {
    if rounds != [] { AwaitRoundsKeepJumps(body, rules, rounds[1..]); }
  }

  lemma {:induction false} OutsOfTests(cases: seq<Case>, rules: Rules, count: nat, ps: seq<Oracle>)
    ensures var end := ExecTests(cases, rules, count, ps).end; IsJump(end) ==> end in OutsCases(cases)
    decreases cases, 0, 0
  {
    if cases != [] && count > 0 {
      if cases[0].test.Some? { OutsMeaning(cases[0].test.value, rules, Head(ps)); }
      OutsOfTests(cases[1..], rules, count - 1, Tail(ps));
    }
  }

  lemma {:induction false} OutsOfFrom(cases: seq<Case>, rules: Rules, skip: nat, ps: seq<Oracle>)
    ensures var end := ExecFrom(cases, rules, skip, ps).end; IsJump(end) ==> end in OutsCases(cases)
    decreases cases, 1, 0
  {
    if cases != [] {
      if skip > 0 {
        OutsOfFrom(cases[1..], rules, skip - 1, ps);
      } else {
        if cases[0].test.Some? { OutsMeaning(cases[0].test.value, rules, Part(Head(ps), 0)); }
        OutsOfAll(cases[0].body, rules, Part(Head(ps), 1).parts);
        OutsOfBodies(cases[1..], rules, Tail(ps));
      }
    }
  }

  lemma {:induction false} OutsOfBodies(cases: seq<Case>, rules: Rules, ps: seq<Oracle>)
    ensures var end := ExecBodies(cases, rules, ps).end; IsJump(end) ==> end in OutsCases(cases)
    decreases cases, 0, 0
  {
    if cases != [] {
      OutsOfAll(cases[0].body, rules, Part(Head(ps), 1).parts);
      OutsOfBodies(cases[1..], rules, Tail(ps));
    }
  }

  /** A case body that never falls through into the next. */
  predicate Closed(ns: seq<Node>) {
    ns != [] && (ns[|ns| - 1].Break? || ns[|ns| - 1].Continue? || AlwaysExits(ns[|ns| - 1]))
  }

  lemma {:induction false} ClosedNeverFalls(ns: seq<Node>, rules: Rules, ps: seq<Oracle>)
    requires Closed(ns)
    ensures ExecAll(ns, rules, ps).end != Normal
  {
    if |ns| == 1 {
      if AlwaysExits(ns[0]) { ExitsNeverFallThrough(ns[0], rules, Head(ps)); }
    } else {
      ClosedNeverFalls(ns[1..], rules, Tail(ps));
    }
  }

  predicate UseFree(n: Node, rules: Rules) { Free(n, Uses(None), rules) }
  predicate AllUseFree(ns: seq<Node>, rules: Rules) { AllFree(ns, Uses(None), rules) }
  predicate WaitFree(n: Node, rules: Rules) { Free(n, Suspends, rules) }
  predicate AllWaitFree(ns: seq<Node>, rules: Rules) { AllFree(ns, Suspends, rules) }

  /** A branch does not both wait and jump out, if the walk takes it to leave the function. */
  predicate NoLeak(n: Node, rules: Rules) {
    AlwaysExits(n) ==> WaitFree(n, rules) || Outs(n) == {}
  }

  /** A body that waits is closed, or no later one uses the accessor. */
  predicate BodiesGuarded(cases: seq<Case>, rules: Rules) {
    cases != [] ==>
      && (AllWaitFree(cases[0].body, rules) || Closed(cases[0].body)
          || forall c :: c in cases[1..] ==> AllUseFree(c.body, rules))
      && BodiesGuarded(cases[1..], rules)
  }

  /** Where an `await` may be carried past the walk: round a loop, from case to case, over an exception,
      past a jump. A part of a loop may wait if no part up to it, in the order test, update, body, uses the
      accessor; in a switch nothing uses it, or the tests do not wait and bodies are guarded; a block with
      a handler does not wait; and before a finalizer nothing waits, unless it neither uses nor jumps. */
  predicate GuardedHere(m: Node, rules: Rules) {
    match m
    case If(_, yes, no) => NoLeak(yes, rules) && (no.Some? ==> NoLeak(no.value, rules))
    case Loop(_, _, check, update, round) =>
      && (AllWaitFree(check, rules) || AllUseFree(check, rules))
      && (AllWaitFree(update, rules) || (AllUseFree(check, rules) && AllUseFree(update, rules)))
      && (WaitFree(round, rules) || (AllUseFree(check, rules) && AllUseFree(update, rules) && UseFree(round, rules)))
    case Switch(_, cases) =>
      || (forall c :: c in cases ==> FreeCase(c, Uses(None), rules))
      || ((forall c :: c in cases ==> c.test.Some? ==> WaitFree(c.test.value, rules)) && BodiesGuarded(cases, rules))
    case Try(block, handler, finalizer) =>
      && (handler.Some? ==> WaitFree(block, rules))
      && (finalizer.Some? ==>
          || (UseFree(finalizer.value, rules) && Outs(finalizer.value) == {})
          || (WaitFree(block, rules) && (handler.Some? ==> WaitFree(handler.value, rules))))
    case _ => true
  }

  function GuardedOf(rules: Rules): Node -> bool {
    (m: Node) => GuardedHere(m, rules)
  }

  predicate Guarded(n: Node, rules: Rules) {
    All(n, GuardedOf(rules), false)
  }

  /** Under the late reading: no `await` in a call that is handed the accessor. */
  predicate SyncHere(m: Node, rules: Rules) {
    m.Call? && Handed(m.target, rules) + Handed(m.args, rules) != [] ==>
      AllFree(m.target, Suspends, rules) && AllFree(m.args, Suspends, rules)
  }

  function SyncOf(rules: Rules): Node -> bool {
    (m: Node) => SyncHere(m, rules)
  }

  predicate SyncUses(n: Node, rules: Rules) {
    All(n, SyncOf(rules), false)
  }

  predicate Watched(n: Node, rules: Rules) {
    Guarded(n, rules) && (rules.late ==> SyncUses(n, rules))
  }

  predicate Checkable(n: Node, rules: Rules) {
    Handled(n, rules) && Watched(n, rules)
  }

  predicate AllWatched(ns: seq<Node>, rules: Rules) {
    forall m :: m in ns ==> Watched(m, rules)
  }

  lemma WaitFreeIsQuiet(n: Node, rules: Rules, p: Oracle)
    ensures WaitFree(n, rules) ==> Quiet(Exec(n, rules, p).events)
    ensures UseFree(n, rules) ==> Unused(Exec(n, rules, p).events)
  {
    if WaitFree(n, rules) { Lacks(n, rules, p, Suspends); }
    if UseFree(n, rules) { Lacks(n, rules, p, Uses(None)); }
  }

  lemma AllWaitFreeIsQuiet(ns: seq<Node>, rules: Rules, ps: seq<Oracle>)
    ensures AllWaitFree(ns, rules) ==> Quiet(ExecAll(ns, rules, ps).events)
    ensures AllUseFree(ns, rules) ==> Unused(ExecAll(ns, rules, ps).events)
  {
    if AllWaitFree(ns, rules) { LacksAll(ns, rules, ps, Suspends); }
    if AllUseFree(ns, rules) { LacksAll(ns, rules, ps, Uses(None)); }
  }

  /** In a watched body every path is seen throughout. */
  lemma {:induction false} WatchedIsSeen(n: Node, rules: Rules, p: Oracle)
    requires Watched(n, rules)
    ensures Seen(n, rules, p)
    decreases n, 2, 0
  {
    match n
    case Await(m) => WatchedIsSeen(m, rules, Part(p, 0));
    case Call(_, target, args) =>
      assert rules.late ==> SyncHere(n, rules);
      WatchedAreSeen(target, rules, Part(p, 0).parts);
      WatchedAreSeen(args, rules, Part(p, 1).parts);
      AllWaitFreeIsQuiet(target, rules, Part(p, 0).parts);
      AllWaitFreeIsQuiet(args, rules, Part(p, 1).parts);
    case Member(receiver, property, computed) =>
      WatchedIsSeen(receiver, rules, Part(p, 0));
      if computed { WatchedIsSeen(property, rules, Part(p, 1)); }
    case Row(parts) => WatchedAreSeen(parts, rules, p.parts);
    case Block(body) => WatchedAreSeen(body, rules, p.parts);
    case Return(m) => if m.Some? { WatchedIsSeen(m.value, rules, Part(p, 0)); }
    case Throw(m) => if m.Some? { WatchedIsSeen(m.value, rules, Part(p, 0)); }
    case _ => WatchedBranches(n, rules, p);
  }

  lemma {:induction false} WatchedBranches(n: Node, rules: Rules, p: Oracle)
    requires Watched(n, rules)
    requires !n.Await? && !n.Call? && !n.Member? && !n.Row? && !n.Block? && !n.Return? && !n.Throw?
    ensures Seen(n, rules, p)
    decreases n, 1, 0
  {
    match n
    case Logical(left, right) =>
      WatchedIsSeen(left, rules, Part(p, 0));
      WatchedIsSeen(right, rules, Part(p, 1));
    case Conditional(test, yes, no) =>
      WatchedIsSeen(test, rules, Part(p, 0));
      WatchedIsSeen(if p.pick == 0 then yes else no, rules, Part(p, 1));
    case If(test, yes, no) => WatchedIf(n, rules, p);
    case Loop(_, _, _, _, _) => WatchedLoop(n, rules, p);
    case ForAwait(right, _) => WatchedIsSeen(right, rules, Part(p, 0));
    case Switch(_, _) => WatchedSwitch(n, rules, p);
    case Try(_, _, _) => WatchedTry(n, rules, p);
    case _ =>
  }

  lemma {:induction false} WatchedAreSeen(ns: seq<Node>, rules: Rules, ps: seq<Oracle>)
    requires AllWatched(ns, rules)
    ensures SeenAll(ns, rules, ps)
    decreases ns, 0, 0
  {
    if ns != [] {
      assert Watched(ns[0], rules);
      WatchedIsSeen(ns[0], rules, Head(ps));
      WatchedAreSeen(ns[1..], rules, Tail(ps));
    }
  }

  lemma {:induction false} WatchedIf(n: Node, rules: Rules, p: Oracle)
    requires n.If? && Watched(n, rules)
    ensures Seen(n, rules, p)
    decreases n, 0, 0
  {
    assert GuardedHere(n, rules);
    WatchedIsSeen(n.test, rules, Part(p, 0));
    if p.pick == 0 || n.otherwise.Some? {
      var taken := if p.pick == 0 then n.consequent else n.otherwise.value;
      WatchedIsSeen(taken, rules, Part(p, 1));
      OutsMeaning(taken, rules, Part(p, 1));
      WaitFreeIsQuiet(taken, rules, Part(p, 1));
    }
  }

  /** No part of a guarded loop uses the accessor while the mark says that the walk would miss it. */
  ghost predicate MarkOk(n: Node, rules: Rules, m: nat)
    requires n.Loop?
  {
    && (m <= 3 ==> AllUseFree(n.check, rules))
    && (2 <= m <= 3 ==> AllUseFree(n.update, rules))
    && (m == 3 ==> UseFree(n.round, rules))
    && m > 0
  }

  lemma {:induction false} WatchedLoop(n: Node, rules: Rules, p: Oracle)
    requires n.Loop? && Watched(n, rules)
    ensures Seen(n, rules, p)
    decreases n, 0, 1 + |Part(p, 1).parts|
  {
    assert GuardedHere(n, rules);
    WatchedAreSeen(n.head, rules, Part(p, 0).parts);
    WatchedIsSeen(n.round, rules, Part(p, 2));
    WaitFreeIsQuiet(n.round, rules, Part(p, 2));
    var m := if n.bodyFirst then Mark(4, 3, Exec(n.round, rules, Part(p, 2)).events) else 4;
    assert MarkOk(n, rules, m);
    WatchedRounds(n, rules, Part(p, 1).parts, m);
  }

  lemma {:induction false} WatchedRounds(n: Node, rules: Rules, rounds: seq<Oracle>, m: nat)
    requires n.Loop? && Watched(n, rules) && MarkOk(n, rules, m)
    ensures SeenRounds(n, rules, rounds, m)
    decreases n, 0, |rounds|
  {
    assert GuardedHere(n, rules);
    var r := Head(rounds);
    WatchedAreSeen(n.check, rules, Part(r, 0).parts);
    AllWaitFreeIsQuiet(n.check, rules, Part(r, 0).parts);
    if |rounds| > 1 {
      WatchedIsSeen(n.round, rules, Part(r, 1));
      WaitFreeIsQuiet(n.round, rules, Part(r, 1));
      WatchedAreSeen(n.update, rules, Part(r, 2).parts);
      AllWaitFreeIsQuiet(n.update, rules, Part(r, 2).parts);
      var t := ExecAll(n.check, rules, Part(r, 0).parts).events;
      var b := Exec(n.round, rules, Part(r, 1)).events;
      var u := ExecAll(n.update, rules, Part(r, 2).parts).events;
      assert MarkOk(n, rules, Mark(m, 1, t));
      assert MarkOk(n, rules, Mark(Mark(m, 1, t), 3, b));
      WatchedRounds(n, rules, rounds[1..], Mark(Mark(Mark(m, 1, t), 3, b), 2, u));
    }
  }

  predicate WatchedCase(c: Case, rules: Rules) {
    (c.test.Some? ==> Watched(c.test.value, rules)) && AllWatched(c.body, rules)
  }

  lemma {:induction false} WatchedSwitch(n: Node, rules: Rules, p: Oracle)
    requires n.Switch? && Watched(n, rules)
    ensures Seen(n, rules, p)
    decreases n, 0, 0
  {
    assert GuardedHere(n, rules);
    var cases := n.cases;
    assert forall c :: c in cases ==> WatchedCase(c, rules);
    var entry := Entry(cases, p.pick);
    var count := TestsBefore(cases, entry);
    WatchedIsSeen(n.discriminant, rules, Part(p, 0));
    var unused := forall c :: c in cases ==> FreeCase(c, Uses(None), rules);
    assert CasesOk(cases, rules, unused);
    WatchedTests(cases, rules, count, Part(p, 1).parts, false, unused);
    if !unused { LacksTests(cases, rules, count, Part(p, 1).parts, Suspends); }
    WatchedFrom(cases, rules, entry, Part(p, 2).parts, !Quiet(ExecTests(cases, rules, count, Part(p, 1).parts).events),
      unused);
  }

  /** `unused`: nothing in the cases uses the accessor; else their tests do not wait. */
  ghost predicate CasesOk(cases: seq<Case>, rules: Rules, unused: bool) {
    forall c :: c in cases ==> CaseOk(c, rules, unused)
  }

  ghost predicate CaseOk(c: Case, rules: Rules, unused: bool) {
    && WatchedCase(c, rules)
    && if unused then FreeCase(c, Uses(None), rules) else (c.test.Some? ==> WaitFree(c.test.value, rules))
  }

  lemma {:induction false} WatchedTests(
    cases: seq<Case>, rules: Rules, count: nat, ps: seq<Oracle>, waited: bool, unused: bool)
    requires CasesOk(cases, rules, unused) && (waited ==> unused)
    ensures SeenTests(cases, rules, count, ps, waited)
    decreases cases, 0, 0
  {
    if cases != [] && count > 0 {
      var c := cases[0];
      assert CaseOk(c, rules, unused);
      if c.test.Some? {
        WatchedIsSeen(c.test.value, rules, Head(ps));
        WaitFreeIsQuiet(c.test.value, rules, Head(ps));
      }
      WatchedTests(cases[1..], rules, count - 1, Tail(ps), waited || !Quiet(ExecTest(c, rules, Head(ps)).events), unused);
    }
  }

  lemma {:induction false} WatchedFrom(
    cases: seq<Case>, rules: Rules, skip: nat, ps: seq<Oracle>, waited: bool, unused: bool)
    requires CasesOk(cases, rules, unused) && (waited ==> unused) && (!unused ==> BodiesGuarded(cases, rules))
    ensures SeenFrom(cases, rules, skip, ps, waited)
    decreases cases, 1, 0
  {
    if cases != [] {
      assert CasesOk(cases[1..], rules, unused);
      if skip > 0 {
        WatchedFrom(cases[1..], rules, skip - 1, ps, waited, unused);
      } else {
        WatchedEntered(cases, rules, ps, waited, unused);
      }
    }
  }

  lemma {:induction false} WatchedEntered(cases: seq<Case>, rules: Rules, ps: seq<Oracle>, waited: bool, unused: bool)
    requires cases != [] && CasesOk(cases, rules, unused) && (waited ==> unused) && (!unused ==> BodiesGuarded(cases, rules))
    ensures SeenFrom(cases, rules, 0, ps, waited)
    decreases cases, 0, 1
  {
    var c, p := cases[0], Head(ps);
    assert CaseOk(c, rules, unused) && CasesOk(cases[1..], rules, unused);
    if c.test.Some? {
      WatchedIsSeen(c.test.value, rules, Part(p, 0));
      WaitFreeIsQuiet(c.test.value, rules, Part(p, 0));
    }
    WatchedAreSeen(c.body, rules, Part(p, 1).parts);
    AllWaitFreeIsQuiet(c.body, rules, Part(p, 1).parts);
    var body := ExecAll(c.body, rules, Part(p, 1).parts);
    var tr := Then(ExecTest(c, rules, Part(p, 0)), body);
    if Closed(c.body) { ClosedNeverFalls(c.body, rules, Part(p, 1).parts); }
    if tr.end.Normal? {
      assert !unused ==> Quiet(ExecTest(c, rules, Part(p, 0)).events);
      WatchedBodies(cases[1..], rules, Tail(ps), waited || !Quiet(tr.events), unused);
    }
  }

  lemma {:induction false} WatchedBodies(cases: seq<Case>, rules: Rules, ps: seq<Oracle>, waited: bool, unused: bool)
    requires CasesOk(cases, rules, unused) && (!unused ==> BodiesGuarded(cases, rules))
    requires waited ==> forall c :: c in cases ==> AllUseFree(c.body, rules)
    ensures SeenBodies(cases, rules, ps, waited)
    decreases cases, 0, 0
  {
    if cases != [] {
      var c := cases[0];
      assert CaseOk(c, rules, unused) && CasesOk(cases[1..], rules, unused);
      WatchedAreSeen(c.body, rules, Part(Head(ps), 1).parts);
      AllWaitFreeIsQuiet(c.body, rules, Part(Head(ps), 1).parts);
      var tr := ExecAll(c.body, rules, Part(Head(ps), 1).parts);
      if Closed(c.body) { ClosedNeverFalls(c.body, rules, Part(Head(ps), 1).parts); }
      if tr.end.Normal? {
        assert unused ==> forall d :: d in cases[1..] ==> CaseOk(d, rules, unused);
        WatchedBodies(cases[1..], rules, Tail(ps), waited || !Quiet(tr.events), unused);
      }
    }
  }

  lemma {:induction false} WatchedTry(n: Node, rules: Rules, p: Oracle)
    requires n.Try? && Watched(n, rules)
    ensures Seen(n, rules, p)
    decreases n, 0, 0
  {
    assert GuardedHere(n, rules);
    var Try(block, handler, finalizer) := n;
    WatchedIsSeen(block, rules, Part(p, 0));
    WaitFreeIsQuiet(block, rules, Part(p, 0));
    if handler.Some? {
      WatchedIsSeen(handler.value, rules, Part(p, 1));
      WaitFreeIsQuiet(handler.value, rules, Part(p, 1));
    }
    if finalizer.Some? {
      WatchedIsSeen(finalizer.value, rules, Part(p, 3));
      FinallyIsFine(n, rules, p);
    }
  }

  lemma {:induction false} FinallyIsFine(n: Node, rules: Rules, p: Oracle)
    requires n.Try? && n.finalizer.Some? && GuardedHere(n, rules)
    ensures var main, last := TryMain(n, rules, p), Exec(n.finalizer.value, rules, Part(p, 3));
      !Quiet(main.events) ==> Unused(last.events) && !IsJump(last.end)
  {
    WaitFreeIsQuiet(n.block, rules, Part(p, 0));
    if n.handler.Some? { WaitFreeIsQuiet(n.handler.value, rules, Part(p, 1)); }
    WaitFreeIsQuiet(n.finalizer.value, rules, Part(p, 3));
    OutsMeaning(n.finalizer.value, rules, Part(p, 3));
  }

  /** Soundness. Take a body where the accessor's name stands only where the walk looks for it, what the
      walk skips is harmless, and no `await` can be carried round a loop, between cases, over an exception
      or past a jump to a use (and under the late reading, calls that are handed the accessor do not wait).
      On every path, each name by which the accessor is used after a suspension stands at or below a node
      that is reported. */
  lemma LintIsSound(body: Node, rules: Rules)
    requires Checkable(body, rules) && !Refers(body, rules)
    ensures forall at :: MisusedAt(body, rules, at) ==> Spotted(at, Reported(body, rules.accessor), rules)
    ensures Misused(body, rules) ==> Reports(body, rules.accessor)
  {
    forall at | MisusedAt(body, rules, at) ensures Spotted(at, Reported(body, rules.accessor), rules) {
      var p :| UsedAfterSuspend(Exec(body, rules, p).events, at);
      WatchedIsSeen(body, rules, p);
      NothingSeenIsMissed(body, rules, p, at);
    }
  }
}
