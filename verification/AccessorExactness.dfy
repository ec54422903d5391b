/** Where every report of the accessor lint is justified by a path that misuses the accessor. */
module AccessorExactness {
  import opened Util
  import opened AccessorSyntax
  import opened AccessorLint
  import opened AccessorSoundness

  // ----- which way nodes go -----

  /** How a node ends when it goes the way the walk looks at: on, if it can. */
  function Way(n: Node): End
    decreases n, 1
  {
    match n
    case Break => Breaks
    case Continue => Continues
    case Return(_) => Returns
    case Throw(_) => Throws
    case Row(parts) => WayAll(parts)
    case Unvisited(parts) => WayAll(parts)
    case Block(body) => WayAll(body)
    case If(_, yes, no) =>
      if no.None? then Normal
      else if Way(yes) == Normal || Way(no.value) == Normal then Normal
      else if AlwaysExits(yes) && !AlwaysExits(no.value) then Way(no.value) else Way(yes)
    case Switch(_, cases) => SwitchWay(cases)
    case Try(block, handler, finalizer) =>
      if finalizer.Some? && Way(finalizer.value) != Normal then Way(finalizer.value)
      else if handler.None? then Way(block)
      else MainWay(Way(block), Way(handler.value))
    case _ => Normal
  }

  /** A tried block and its handler: an exception may always come. */
  function MainWay(block: End, handler: End): End {
    if block == Normal || handler == Normal then Normal else if block == Throws then handler else block
  }

  function WayAll(ns: seq<Node>): End
    decreases ns, 0
  {
    if ns == [] then Normal else if Way(ns[0]) != Normal then Way(ns[0]) else WayAll(ns[1..])
  }

  /** Case bodies from the first on, falling through. */
  function FallWay(cases: seq<Case>): End
    decreases cases, 0
  {
    if cases == [] then Normal else if WayAll(cases[0].body) != Normal then WayAll(cases[0].body) else FallWay(cases[1..])
  }

  function OutWay(cases: seq<Case>): End
    decreases cases, 1
  {
    if FallWay(cases) == Breaks then Normal else FallWay(cases)
  }

  predicate SomeGoesOn(cases: seq<Case>)
    decreases cases, 2
  {
    cases != [] && (OutWay(cases) == Normal || SomeGoesOn(cases[1..]))
  }

  function SwitchWay(cases: seq<Case>): End
    decreases cases, 3
  {
    if DefaultAt(cases) == |cases| || SomeGoesOn(cases) then Normal else OutWay(cases)
  }

  predicate GoesRound(e: End) { e.Normal? || e.Continues? }

  // ----- the condition -----

  predicate AllGo(ns: seq<Node>) {
    forall a :: a in ns ==> Way(a) == Normal
  }

  /** Nothing stands after a node that cannot go on. */
  predicate GoToLast(ns: seq<Node>) {
    forall i :: 0 <= i < |ns| - 1 ==> Way(ns[i]) == Normal
  }

  /** A branch whose flag counts goes the way of the whole `if`, or it does not wait. */
  predicate BranchOk(b: Node, otherExits: bool, way: End, rules: Rules) {
    (AlwaysExits(b) && !otherExits) || Way(b) == way || Free(b, Suspends, rules)
  }

  predicate CasesLive(cases: seq<Case>, way: End, rules: Rules)
    decreases cases
  {
    cases != [] ==>
      && (cases[0].test.Some? ==> Way(cases[0].test.value) == Normal) && GoToLast(cases[0].body)
      && (OutWay(cases) == way || FreeCase(cases[0], Suspends, rules))
      && CasesLive(cases[1..], way, rules)
  }

  /** No dead code, and what waits can go where the walk carries its flag: a branch to what follows the
      `if`, the rounds of a loop and the cases of a switch to what follows those, a handler to what
      follows its `try`, the body of a `do` or of a loop with an update to the next round. */
  predicate LiveHere(m: Node, rules: Rules) {
    match m
    case Unvisited(parts) => AllGo(parts)
    case Await(a) => Way(a) == Normal
    case Call(_, target, args) => AllGo(target) && AllGo(args)
    case Member(receiver, property, _) => Way(receiver) == Normal && Way(property) == Normal
    case Row(parts) => AllGo(parts)
    case Logical(left, right) => Way(left) == Normal && Way(right) == Normal
    case Conditional(test, yes, no) => Way(test) == Normal && Way(yes) == Normal && Way(no) == Normal
    case Block(body) => GoToLast(body)
    case If(test, yes, no) =>
      && Way(test) == Normal && BranchOk(yes, no.Some? && AlwaysExits(no.value), Way(m), rules)
      && (no.Some? ==> BranchOk(no.value, AlwaysExits(yes), Way(m), rules))
    case Return(a) => a.Some? ==> Way(a.value) == Normal
    case Throw(a) => a.Some? ==> Way(a.value) == Normal
    case Loop(bodyFirst, head, check, update, round) =>
      && AllGo(head) && AllGo(check) && AllGo(update)
      && (bodyFirst || update != [] ==> GoesRound(Way(round)))
      && (Way(round).Returns? || Way(round).Throws? ==> Free(round, Suspends, rules))
    case ForAwait(right, _) => Way(right) == Normal
    case Switch(d, cases) => Way(d) == Normal && CasesLive(cases, SwitchWay(cases), rules)
    case Try(block, handler, _) =>
      handler.Some? ==> Way(handler.value) == MainWay(Way(block), Way(handler.value)) || Free(handler.value, Suspends, rules)
    case _ => true
  }

  function LiveOf(rules: Rules): Node -> bool {
    (m: Node) => LiveHere(m, rules)
  }

  predicate Live(n: Node, rules: Rules) {
    All(n, LiveOf(rules), false)
  }

  predicate AllLive(ns: seq<Node>, rules: Rules) {
    forall m :: m in ns ==> Live(m, rules)
  }

  // ----- justified reports -----

  /** Where the name stands that makes `m` a usage. */
  function UsageSpot(m: Node): nat {
    if m.Call? && m.target != [] && m.target[0].Ident? then m.target[0].at else if m.Ident? then m.at else 0
  }

  /** The usage by the name at `at` is reported. */
  predicate Flagged(at: nat, reports: seq<Node>) {
    exists m :: m in reports && UsageSpot(m) == at
  }

  /** `on` ends as it should, and the walk sets the flag only if `on` is suspended by then. */
  ghost predicate OnWay(on: Trace, way: End, w: Out, saw: bool) {
    on.end == way && (w.saw ==> saw || Suspend in on.events)
  }

  /** A report is justified by the path traced by `bad`. */
  ghost predicate Justified(bad: Trace, w: Out, saw: bool, at: nat) {
    Flagged(at, w.reports) ==> Bad(saw, bad.events, at)
  }

  lemma JustifiedThen(a: Trace, b: Trace, wa: Out, saw: bool, at: nat)
    ensures Bad(saw, a.events, at) ==> Bad(saw, Then(a, b).events, at)
    ensures OnWay(a, Normal, wa, saw) && Bad(wa.saw, b.events, at) ==> Bad(saw, Then(a, b).events, at)
  {
    BadConcat(saw, a.events, b.events, at);
    BadGrows(b.events, at);
  }

  lemma OnThen(a: Trace, b: Trace, way: End, wa: Out, wb: Out, saw: bool)
    requires OnWay(a, Normal, wa, saw) && OnWay(b, way, wb, wa.saw)
    ensures OnWay(Then(a, b), way, Also(wa, wb), saw) && OnWay(Then(a, b), way, wa, saw)
  {
  }

  /** `events` start with `before` and then `part`. */
  predicate After(events: seq<Event>, before: seq<Event>, part: seq<Event>) {
    before + part <= events
  }

  lemma AfterMore(a: seq<Event>, events: seq<Event>, before: seq<Event>, part: seq<Event>)
    requires After(events, before, part)
    ensures After(a + events, a + before, part)
  {
    assert (a + before) + part == a + (before + part);
  }

  /** What is bad after `before` is bad in any longer run. */
  lemma BadAfter(events: seq<Event>, before: seq<Event>, part: seq<Event>, saw: bool, f: bool, at: nat)
    requires After(events, before, part) && Bad(f, part, at) && (f ==> saw || Suspend in before)
    ensures Bad(saw, events, at)
  {
    assert events == (before + part) + events[|before + part|..];
    BadConcat(saw, before + part, events[|before + part|..], at);
    BadConcat(saw, before, part, at);
    BadGrows(part, at);
  }

  lemma {:induction false} Exact(n: Node, asArgument: bool, rules: Rules, saw: bool, at: nat)
    returns (bad: Oracle, on: Oracle)
    requires Live(n, rules)
    ensures Justified(Exec(n, rules, bad), Walk(n, asArgument, rules.accessor, saw), saw, at)
    ensures OnWay(Exec(n, rules, on), Way(n), Walk(n, asArgument, rules.accessor, saw), saw)
    decreases n, 2, 0
  {
    bad, on := Oracle(0, []), Oracle(0, []);
    if n.Await? {
      bad, on := ExactAwait(n, rules, saw, at);
    } else if n.Call? {
      bad, on := ExactCall(n, asArgument, rules, saw, at);
    } else if IsUsage(n, asArgument, rules.accessor) {
      assert Exec(n, rules, bad) == Trace([Use(n.at)], Normal);
      assert [Use(n.at)][0] == Use(n.at) && [Use(n.at)][1..] == [];
      assert WalkInside(n, rules.accessor, saw) == Out(saw, []);
    } else if n.Loop? || n.ForAwait? || n.Switch? || n.Try? {
      bad, on := ExactGuarded(n, rules, saw, at);
    } else if !n.NestedFunction? {
      bad, on := ExactInside(n, rules, saw, at);
    }
  }

  lemma {:induction false} ExactAwait(n: Node, rules: Rules, saw: bool, at: nat) returns (bad: Oracle, on: Oracle)
    requires n.Await? && Live(n, rules)
    ensures Justified(Exec(n, rules, bad), Walk(n, false, rules.accessor, saw), saw, at)
    ensures OnWay(Exec(n, rules, on), Normal, Walk(n, false, rules.accessor, saw), saw)
    decreases n, 1, 0
  {
    assert LiveHere(n, rules);
    var b, o := Exact(n.argument, false, rules, saw, at);
    bad, on := Oracle(0, [b]), Oracle(0, [o]);
    JustifiedThen(Exec(n.argument, rules, b), Trace([Suspend], Normal),
                  Walk(n.argument, false, rules.accessor, saw), saw, at);
    assert Part(on, 0) == o && Part(bad, 0) == b;
    var ev := Exec(n.argument, rules, o).events + [Suspend];
    assert ev[|ev| - 1] == Suspend;
    assert Exec(n, rules, on).events == ev;
  }

  lemma {:induction false} ExactInside(n: Node, rules: Rules, saw: bool, at: nat) returns (bad: Oracle, on: Oracle)
    requires Live(n, rules) && !n.Await? && !n.Call? && !n.NestedFunction?
    requires !n.Loop? && !n.ForAwait? && !n.Switch? && !n.Try?
    ensures Justified(Exec(n, rules, bad), WalkInside(n, rules.accessor, saw), saw, at)
    ensures OnWay(Exec(n, rules, on), Way(n), WalkInside(n, rules.accessor, saw), saw)
    decreases n, 1, 1
  {
    bad, on := Oracle(0, []), Oracle(0, []);
    assert LiveHere(n, rules);
    match n
    case Member(receiver, property, computed) => bad, on := ExactMember(n, rules, saw, at);
    case Unvisited(parts) =>
      var _, o := ExactAll(parts, false, rules, saw, at);
      on := Oracle(0, o);
      GoingAll(parts);
    case Row(parts) =>
      var b, o := ExactAll(parts, false, rules, saw, at);
      bad, on := Oracle(0, b), Oracle(0, o);
    case Logical(left, right) => bad, on := ExactTwo(n, left, right, rules, saw, 1, at);
    case Conditional(_, _, _) => bad, on := ExactConditional(n, rules, saw, at);
    case Block(body) =>
      var b, o := ExactAll(body, false, rules, saw, at);
      bad, on := Oracle(0, b), Oracle(0, o);
    case If(_, _, _) => bad, on := ExactIf(n, rules, saw, at);
    case Return(m) => if m.Some? { bad, on := ExactLeaving(n, m.value, rules, saw, Returns, at); }
    case Throw(m) => if m.Some? { bad, on := ExactLeaving(n, m.value, rules, saw, Throws, at); }
    case _ =>
  }

  lemma {:induction false} ExactMember(n: Node, rules: Rules, saw: bool, at: nat) returns (bad: Oracle, on: Oracle)
    requires n.Member? && Live(n, rules)
    ensures Justified(Exec(n, rules, bad), WalkInside(n, rules.accessor, saw), saw, at)
    ensures OnWay(Exec(n, rules, on), Normal, WalkInside(n, rules.accessor, saw), saw)
    decreases n, 0, 1
  {
    assert LiveHere(n, rules);
    if n.computed {
      bad, on := ExactTwo(n, n.receiver, n.property, rules, saw, 0, at);
    } else {
      var b, o := Exact(n.receiver, false, rules, saw, at);
      bad, on := Oracle(0, [b]), Oracle(0, [o]);
    }
  }

  lemma {:induction false} ExactLeaving(n: Node, m: Node, rules: Rules, saw: bool, end: End, at: nat)
    returns (bad: Oracle, on: Oracle)
    requires m < n && Live(m, rules) && Way(m) == Normal
    ensures Justified(Then(Exec(m, rules, Part(bad, 0)), Trace([], end)), Walk(m, false, rules.accessor, saw), saw, at)
    ensures OnWay(Then(Exec(m, rules, Part(on, 0)), Trace([], end)), end, Walk(m, false, rules.accessor, saw), saw)
    decreases n, 0, 0
  {
    var b, o := Exact(m, false, rules, saw, at);
    bad, on := Oracle(0, [b]), Oracle(0, [o]);
    JustifiedThen(Exec(m, rules, b), Trace([], end), Walk(m, false, rules.accessor, saw), saw, at);
  }

  lemma {:induction false} GoingAll(ns: seq<Node>)
    requires AllGo(ns)
    ensures WayAll(ns) == Normal && GoToLast(ns)
  {
    if ns != [] {
      assert Way(ns[0]) == Normal;
      GoingAll(ns[1..]);
    }
  }

  lemma {:induction false} ExactAll(ns: seq<Node>, asArgument: bool, rules: Rules, saw: bool, at: nat)
    returns (bads: seq<Oracle>, ons: seq<Oracle>)
    requires AllLive(ns, rules) && GoToLast(ns)
    ensures Justified(ExecAll(ns, rules, bads), WalkAll(ns, asArgument, rules.accessor, saw), saw, at)
    ensures OnWay(ExecAll(ns, rules, ons), WayAll(ns), WalkAll(ns, asArgument, rules.accessor, saw), saw)
    decreases ns, 0, 0
  {
    bads, ons := [], [];
    if ns != [] {
      assert Live(ns[0], rules) && AllLive(ns[1..], rules);
      var w := Walk(ns[0], asArgument, rules.accessor, saw);
      var b, o := Exact(ns[0], asArgument, rules, saw, at);
      var bs, os := ExactAll(ns[1..], asArgument, rules, w.saw, at);
      var first := if Flagged(at, w.reports) then b else o;
      bads, ons := [first] + bs, [o] + os;
      assert bads[1..] == bs && ons[1..] == os;
      JustifiedThen(Exec(ns[0], rules, first), ExecAll(ns[1..], rules, bs), w, saw, at);
      if |ns| > 1 { assert Way(ns[0]) == Normal; } else { assert ns[1..] == []; }
    }
  }

  /** What is known of two traces, one after the other. */
  ghost predicate TwoOk(ba: Trace, bb: Trace, oa: Trace, ob: Trace, way: End, wa: Out, wb: Out, saw: bool, at: nat) {
    && Justified(Then(ba, bb), Also(wa, wb), saw, at)
    && OnWay(Then(oa, ob), way, Also(wa, wb), saw) && OnWay(Then(oa, ob), way, wa, saw)
  }

  lemma TwoAreOk(ba: Trace, bb: Trace, oa: Trace, ob: Trace, way: End, wa: Out, wb: Out, saw: bool, at: nat)
    requires Justified(ba, wa, saw, at) && Justified(bb, wb, wa.saw, at)
    requires OnWay(oa, Normal, wa, saw) && OnWay(ob, way, wb, wa.saw) && (ba == oa || Flagged(at, wa.reports))
    ensures TwoOk(ba, bb, oa, ob, way, wa, wb, saw, at)
  {
    JustifiedThen(ba, bb, wa, saw, at);
  }

  /** `a`, then `b`, at oracle positions 0 and 1. */
  lemma {:induction false} ExactTwo(n: Node, a: Node, b: Node, rules: Rules, saw: bool, pick: nat, at: nat)
    returns (bad: Oracle, on: Oracle)
    requires a < n && b < n && Live(a, rules) && Live(b, rules) && Way(a) == Normal
    ensures bad.pick == pick && on.pick == pick
    ensures var wa := Walk(a, false, rules.accessor, saw);
      TwoOk(Exec(a, rules, Part(bad, 0)), Exec(b, rules, Part(bad, 1)), Exec(a, rules, Part(on, 0)),
        Exec(b, rules, Part(on, 1)),
            Way(b), wa, Walk(b, false, rules.accessor, wa.saw), saw, at)
    decreases n, 0, 0
  {
    var wa := Walk(a, false, rules.accessor, saw);
    var ba, oa := Exact(a, false, rules, saw, at);
    var bb, ob := Exact(b, false, rules, wa.saw, at);
    var first := if Flagged(at, wa.reports) then ba else oa;
    bad, on := Oracle(pick, [first, bb]), Oracle(pick, [oa, ob]);
    assert Part(bad, 0) == first && Part(bad, 1) == bb && Part(on, 0) == oa && Part(on, 1) == ob;
    TwoAreOk(Exec(a, rules, first), Exec(b, rules, bb), Exec(a, rules, oa), Exec(b, rules, ob), Way(b), wa,
             Walk(b, false, rules.accessor, wa.saw), saw, at);
  }

  /** The target and the arguments of a call, at oracle positions 0 and 1. */
  lemma {:induction false} ExactParts(n: Node, rules: Rules, saw: bool, at: nat) returns (bad: Oracle, on: Oracle)
    requires n.Call? && Live(n, rules)
    ensures var w := WalkInside(n, rules.accessor, saw);
      && Justified(Then(ExecAll(n.target, rules, Part(bad, 0).parts), ExecAll(n.args, rules, Part(bad, 1).parts)), w,
        saw, at)
      && OnWay(Then(ExecAll(n.target, rules, Part(on, 0).parts), ExecAll(n.args, rules, Part(on, 1).parts)), Normal, w, saw)
    decreases n, 0, 0
  {
    assert LiveHere(n, rules);
    GoingAll(n.target);
    GoingAll(n.args);
    var wt := WalkAll(n.target, false, rules.accessor, saw);
    var bt, ot := ExactAll(n.target, false, rules, saw, at);
    var ba, oa := ExactAll(n.args, !n.shape.Construct?, rules, wt.saw, at);
    var first := if Flagged(at, wt.reports) then bt else ot;
    bad, on := Oracle(0, [Oracle(0, first), Oracle(0, ba)]), Oracle(0, [Oracle(0, ot), Oracle(0, oa)]);
    JustifiedThen(ExecAll(n.target, rules, first), ExecAll(n.args, rules, ba), wt, saw, at);
  }

  lemma {:induction false} ExactCall(n: Node, asArgument: bool, rules: Rules, saw: bool, at: nat)
    returns (bad: Oracle, on: Oracle)
    requires n.Call? && Live(n, rules)
    ensures Justified(Exec(n, rules, bad), Walk(n, asArgument, rules.accessor, saw), saw, at)
    ensures OnWay(Exec(n, rules, on), Normal, Walk(n, asArgument, rules.accessor, saw), saw)
    decreases n, 1, 0
  {
    bad, on := ExactParts(n, rules, saw, at);
    MadeKeeps(n, rules, bad, saw, at);
    MadeKeeps(n, rules, on, saw, at);
    if IsUsage(n, asArgument, rules.accessor) && saw {
      bad := on;
      ReceiverUsed(n, rules, on);
      BadMeaning(true, Exec(n, rules, on).events, UsageSpot(n));
      assert Walk(n, asArgument, rules.accessor, saw) == Out(saw, [n]);
    }
  }

  /** What making the call adds to its parts takes nothing away. */
  lemma MadeKeeps(n: Node, rules: Rules, p: Oracle, saw: bool, at: nat)
    requires n.Call?
    ensures var parts := Then(ExecAll(n.target, rules, Part(p, 0).parts), ExecAll(n.args, rules, Part(p, 1).parts));
      && Exec(n, rules, p).end == parts.end
      && (forall e :: e in parts.events ==> e in Exec(n, rules, p).events)
      && (Bad(saw, parts.events, at) ==> Bad(saw, Exec(n, rules, p).events, at))
  {
    var parts := Then(ExecAll(n.target, rules, Part(p, 0).parts), ExecAll(n.args, rules, Part(p, 1).parts));
    var made := (if rules.late then Handed(n.target, rules) + Handed(n.args, rules) else []) +
                (RunAll(n.target, rules, Part(p, 0).parts) + RunAll(n.args, rules, Part(p, 1).parts));
    assert Exec(n, rules, p) == Then(parts, Trace(made, Normal));
    BadConcat(saw, parts.events, made, at);
  }

  /** The receiver comes first. */
  lemma ReceiverUsed(n: Node, rules: Rules, p: Oracle)
    requires n.Call? && IsUsage(n, false, rules.accessor)
    ensures Use(UsageSpot(n)) in Exec(n, rules, p).events
  {
    var t := ExecAll(n.target, rules, Part(p, 0).parts);
    assert Exec(n.target[0], rules, Head(Part(p, 0).parts)) == Trace([Use(UsageSpot(n))], Normal);
    assert t.events[0] == Use(UsageSpot(n));
    MadeKeeps(n, rules, p, false, 0);
  }

  lemma {:induction false} ExactConditional(n: Node, rules: Rules, saw: bool, at: nat)
    returns (bad: Oracle, on: Oracle)
    requires n.Conditional? && Live(n, rules)
    ensures Justified(Exec(n, rules, bad), WalkInside(n, rules.accessor, saw), saw, at)
    ensures OnWay(Exec(n, rules, on), Normal, WalkInside(n, rules.accessor, saw), saw)
    decreases n, 0, 1
  {
    assert LiveHere(n, rules);
    var wt := Walk(n.test, false, rules.accessor, saw);
    var wy := Walk(n.consequent, false, rules.accessor, wt.saw);
    var badYes, oy := ExactTwo(n, n.test, n.consequent, rules, saw, 0, at);
    var bn, no := ExactTwo(n, n.test, n.alternate, rules, saw, 1, at);
    bad := if Flagged(at, Also(wt, wy).reports) then badYes else bn;
    on := if wy.saw then oy else no;
  }

  lemma {:induction false} ExactIf(n: Node, rules: Rules, saw: bool, at: nat) returns (bad: Oracle, on: Oracle)
    requires n.If? && Live(n, rules)
    ensures Justified(Exec(n, rules, bad), WalkInside(n, rules.accessor, saw), saw, at)
    ensures OnWay(Exec(n, rules, on), Way(n), WalkInside(n, rules.accessor, saw), saw)
    decreases n, 0, 2
  {
    if n.otherwise.Some? {
      bad, on := ExactIfElse(n, rules, saw, at);
    } else {
      assert LiveHere(n, rules);
      var If(test, yes, _) := n;
      var wt := Walk(test, false, rules.accessor, saw);
      var wy := Walk(yes, false, rules.accessor, wt.saw);
      var badYes, oy := ExactTwo(n, test, yes, rules, saw, 0, at);
      var bt, ot := Exact(test, false, rules, saw, at);
      bad := badYes;
      on := if Way(yes) == Normal then oy else Oracle(1, [ot]);
      ConcatNil(Exec(test, rules, ot).events);
      if Free(yes, Suspends, rules) { NoAwaitNoReport(yes, false, rules, wt.saw); }
    }
  }

  lemma {:induction false} ExactIfElse(n: Node, rules: Rules, saw: bool, at: nat) returns (bad: Oracle, on: Oracle)
    requires n.If? && Live(n, rules) && n.otherwise.Some?
    ensures Justified(Exec(n, rules, bad), WalkInside(n, rules.accessor, saw), saw, at)
    ensures OnWay(Exec(n, rules, on), Way(n), WalkInside(n, rules.accessor, saw), saw)
    decreases n, 0, 1
  {
    assert LiveHere(n, rules);
    var test, yes, no := n.test, n.consequent, n.otherwise.value;
    var wt := Walk(test, false, rules.accessor, saw);
    var wy := Walk(yes, false, rules.accessor, wt.saw);
    var badYes, oy := ExactTwo(n, test, yes, rules, saw, 0, at);
    var bn, onNo := ExactTwo(n, test, no, rules, saw, 1, at);
    bad := if Flagged(at, Also(wt, wy).reports) then badYes else bn;
    var takeYes := Way(yes) == Way(n) && (Way(no) != Way(n) || (wy.saw && !(AlwaysExits(yes) && !AlwaysExits(no))));
    on := if takeYes then oy else onNo;
    if Free(yes, Suspends, rules) { NoAwaitNoReport(yes, false, rules, wt.saw); }
    if Free(no, Suspends, rules) { NoAwaitNoReport(no, false, rules, wt.saw); }
  }

  lemma {:induction false} ExactGuarded(n: Node, rules: Rules, saw: bool, at: nat) returns (bad: Oracle, on: Oracle)
    requires Live(n, rules) && (n.Loop? || n.ForAwait? || n.Switch? || n.Try?)
    ensures Justified(Exec(n, rules, bad), WalkInside(n, rules.accessor, saw), saw, at)
    ensures OnWay(Exec(n, rules, on), Way(n), WalkInside(n, rules.accessor, saw), saw)
    decreases n, 1, 0
  {
    if n.Loop? {
      bad, on := ExactLoop(n, rules, saw, at);
    } else if n.ForAwait? {
      bad, on := ExactForAwait(n, rules, saw, at);
    } else if n.Switch? {
      bad, on := ExactSwitch(n, rules, saw, at);
    } else {
      bad, on := ExactTry(n, rules, saw, at);
    }
  }

  /** No round, and one round, of `for await`. */
  lemma AwaitNone(n: Node, rules: Rules, o: Oracle)
    requires n.ForAwait?
    ensures Exec(n, rules, Oracle(0, [o])) == Then(Exec(n.right, rules, o), Trace([Suspend], Normal))
  {
    assert Then(Trace([Suspend], Normal), Nothing) == Trace([Suspend], Normal);
  }

  lemma AwaitOne(n: Node, rules: Rules, o: Oracle, b: Oracle)
    requires n.ForAwait? && Exec(n.right, rules, o).end == Normal
    ensures After(Exec(n, rules, Oracle(0, [o, Oracle(0, [b])])).events, Exec(n.right, rules, o).events + ([Suspend] + []),
                  Exec(n.round, rules, b).events)
  {
    var rest := Go(Exec(n.round, rules, b), ExecAwaitRounds(n.round, rules, [b][1..])).events;
    AfterMore([Suspend], rest, [], Exec(n.round, rules, b).events);
    AfterMore(Exec(n.right, rules, o).events, [Suspend] + rest, [Suspend] + [], Exec(n.round, rules, b).events);
  }

  lemma {:induction false} ExactForAwait(n: Node, rules: Rules, saw: bool, at: nat) returns (bad: Oracle, on: Oracle)
    requires n.ForAwait? && Live(n, rules)
    ensures Justified(Exec(n, rules, bad), WalkInside(n, rules.accessor, saw), saw, at)
    ensures OnWay(Exec(n, rules, on), Normal, WalkInside(n, rules.accessor, saw), saw)
    decreases n, 0, 0
  {
    assert LiveHere(n, rules);
    var wr := Walk(n.right, false, rules.accessor, saw);
    var br, or := Exact(n.right, false, rules, saw, at);
    var bb, _ := Exact(n.round, false, rules, true, at);
    var right := Exec(n.right, rules, or);
    on := Oracle(0, [or]);
    AwaitNone(n, rules, or);
    assert (right.events + [Suspend])[|right.events|] == Suspend;
    if Flagged(at, wr.reports) {
      bad := Oracle(0, [br]);
      AwaitNone(n, rules, br);
      JustifiedThen(Exec(n.right, rules, br), Trace([Suspend], Normal), wr, saw, at);
    } else {
      bad := Oracle(0, [or, Oracle(0, [bb])]);
      AwaitOne(n, rules, or, bb);
      if Flagged(at, Walk(n.round, false, rules.accessor, true).reports) {
        BadAfter(Exec(n, rules, bad).events, right.events + ([Suspend] + []), Exec(n.round, rules, bb).events, saw,
          true, at);
      }
    }
  }

  // ----- loops -----

  /** A round with these choices for test, body and update. */
  function Round(t: seq<Oracle>, b: Oracle, u: seq<Oracle>): Oracle {
    Oracle(0, [Oracle(0, t), b, Oracle(0, u)])
  }

  lemma RoundOnce(n: Node, rules: Rules, t: seq<Oracle>, b: Oracle, u: seq<Oracle>, rest: seq<Oracle>)
    requires n.Loop? && rest != [] && ExecAll(n.check, rules, t).end == Normal
    ensures var r := Go(Exec(n.round, rules, b), Then(ExecAll(n.update, rules, u), ExecRounds(n, rules, rest)));
      ExecRounds(n, rules, [Round(t, b, u)] + rest) == Trace(ExecAll(n.check, rules, t).events + r.events, r.end)
  {
    var rounds := [Round(t, b, u)] + rest;
    assert rounds[1..] == rest && Head(rounds) == Round(t, b, u) && |rounds| > 1;
  }

  lemma LastTest(n: Node, rules: Rules, t: seq<Oracle>)
    requires n.Loop?
    ensures ExecRounds(n, rules, [Oracle(0, [Oracle(0, t)])]) == ExecAll(n.check, rules, t)
  {
    ConcatNil(ExecAll(n.check, rules, t).events);
  }

  /** A path through a loop: the choices for its head, its rounds, and the first body of a `do`. */
  function LoopPath(h: seq<Oracle>, rounds: seq<Oracle>, b: Oracle): Oracle {
    Oracle(0, [Oracle(0, h), Oracle(0, rounds), b])
  }

  /** What happens before the rounds. */
  function LoopStart(n: Node, rules: Rules, h: seq<Oracle>, b: Oracle): seq<Event>
    requires n.Loop?
  {
    ExecAll(n.head, rules, h).events + if n.bodyFirst then Exec(n.round, rules, b).events else []
  }

  lemma LoopEvents(n: Node, rules: Rules, h: seq<Oracle>, rounds: seq<Oracle>, b: Oracle)
    requires n.Loop? && ExecAll(n.head, rules, h).end == Normal
    requires n.bodyFirst ==> GoesRound(Exec(n.round, rules, b).end)
    ensures Exec(n, rules, LoopPath(h, rounds, b)) ==
            Trace(LoopStart(n, rules, h, b) + ExecRounds(n, rules, rounds).events, ExecRounds(n, rules, rounds).end)
  {
    var r := ExecRounds(n, rules, rounds).events;
    ConcatNil(ExecAll(n.head, rules, h).events);
    ConcatAssoc(ExecAll(n.head, rules, h).events, Exec(n.round, rules, b).events, r);
  }

  /** The choices that take the parts of a live loop on their way. */
  datatype Ons = Ons(head: seq<Oracle>, check: seq<Oracle>, update: seq<Oracle>, round: Oracle)

  ghost predicate LoopOns(n: Node, rules: Rules, saw: bool, o: Ons)
    requires n.Loop?
  {
    var a := rules.accessor;
    var wh := WalkAll(n.head, false, a, saw);
    && OnWay(ExecAll(n.head, rules, o.head), Normal, wh, saw)
    && OnWay(ExecAll(n.check, rules, o.check), Normal, CheckWalk(n, a, wh.saw), wh.saw)
    && OnWay(ExecAll(n.update, rules, o.update), Normal, UpdateWalk(n, a, wh.saw), CheckWalk(n, a, wh.saw).saw)
    && OnWay(Exec(n.round, rules, o.round), Way(n.round), RoundWalk(n, a, wh.saw), UpdateWalk(n, a, wh.saw).saw)
  }

  function Last(o: Ons): Oracle { Oracle(0, [Oracle(0, o.check)]) }

  function Full(o: Ons): Oracle { Round(o.check, o.round, o.update) }

  lemma LoopOn(n: Node, rules: Rules, saw: bool, o: Ons) returns (on: Oracle)
    requires n.Loop? && Live(n, rules) && LoopOns(n, rules, saw, o)
    ensures OnWay(Exec(n, rules, on), Normal, WalkInside(n, rules.accessor, saw), saw)
  {
    assert LiveHere(n, rules);
    var leaves := Way(n.round).Returns? || Way(n.round).Throws?;
    var rounds := if leaves then [Last(o)] else [Full(o)] + [Last(o)];
    on := LoopPath(o.head, rounds, o.round);
    LastTest(n, rules, o.check);
    LoopEvents(n, rules, o.head, rounds, o.round);
    if leaves {
      NoAwaitNoReport(n.round, false, rules,
        UpdateWalk(n, rules.accessor, WalkAll(n.head, false, rules.accessor, saw).saw).saw);
    } else {
      RoundOnce(n, rules, o.check, o.round, o.update, [Last(o)]);
    }
  }

  lemma {:induction false} ExactLoop(n: Node, rules: Rules, saw: bool, at: nat) returns (bad: Oracle, on: Oracle)
    requires n.Loop? && Live(n, rules)
    ensures Justified(Exec(n, rules, bad), WalkInside(n, rules.accessor, saw), saw, at)
    ensures OnWay(Exec(n, rules, on), Normal, WalkInside(n, rules.accessor, saw), saw)
    decreases n, 0, 0
  {
    assert LiveHere(n, rules);
    GoingAll(n.head);
    GoingAll(n.check);
    GoingAll(n.update);
    var a := rules.accessor;
    var wh := WalkAll(n.head, false, a, saw);
    var hb, ho := ExactAll(n.head, false, rules, saw, at);
    var tb, to := ExactAll(n.check, false, rules, wh.saw, at);
    var ub, uo := ExactAll(n.update, false, rules, CheckWalk(n, a, wh.saw).saw, at);
    var bb, bo := Exact(n.round, false, rules, UpdateWalk(n, a, wh.saw).saw, at);
    var o := Ons(ho, to, uo, bo);
    on := LoopOn(n, rules, saw, o);
    if Flagged(at, wh.reports) {
      bad := BadHead(n, rules, saw, hb, at);
    } else if Flagged(at, CheckWalk(n, a, wh.saw).reports) {
      bad := BadCheck(n, rules, saw, o, tb, at);
    } else if Flagged(at, UpdateWalk(n, a, wh.saw).reports) {
      bad := BadUpdate(n, rules, saw, o, ub, at);
    } else if Flagged(at, RoundWalk(n, a, wh.saw).reports) {
      bad := BadRound(n, rules, saw, o, bb, at);
    } else {
      bad := on;
    }
  }

  lemma BadHead(n: Node, rules: Rules, saw: bool, hb: seq<Oracle>, at: nat) returns (bad: Oracle)
    requires n.Loop? && Bad(saw, ExecAll(n.head, rules, hb).events, at)
    ensures Bad(saw, Exec(n, rules, bad).events, at)
  {
    var b := Oracle(0, []);
    bad := LoopPath(hb, [], b);
    var rest := if n.bodyFirst then Go(Exec(n.round, rules, b), ExecRounds(n, rules, [])) else ExecRounds(n, rules, []);
    BadConcat(saw, ExecAll(n.head, rules, hb).events, rest.events, at);
    assert Exec(n, rules, bad) == Then(ExecAll(n.head, rules, hb), rest);
  }

  lemma BadCheck(n: Node, rules: Rules, saw: bool, o: Ons, tb: seq<Oracle>, at: nat) returns (bad: Oracle)
    requires n.Loop? && Live(n, rules) && LoopOns(n, rules, saw, o)
    requires Bad(WalkAll(n.head, false, rules.accessor, saw).saw, ExecAll(n.check, rules, tb).events, at)
    ensures Bad(saw, Exec(n, rules, bad).events, at)
  {
    assert LiveHere(n, rules);
    bad := LoopPath(o.head, [Oracle(0, [Oracle(0, tb)])], o.round);
    LastTest(n, rules, tb);
    LoopEvents(n, rules, o.head, [Oracle(0, [Oracle(0, tb)])], o.round);
    BadAfter(Exec(n, rules, bad).events, LoopStart(n, rules, o.head, o.round), ExecAll(n.check, rules, tb).events, saw,
             WalkAll(n.head, false, rules.accessor, saw).saw, at);
  }

  lemma BadUpdate(n: Node, rules: Rules, saw: bool, o: Ons, ub: seq<Oracle>, at: nat) returns (bad: Oracle)
    requires n.Loop? && Live(n, rules) && LoopOns(n, rules, saw, o) && n.update != []
    requires Bad(CheckWalk(n, rules.accessor, WalkAll(n.head, false, rules.accessor, saw).saw).saw,
                 ExecAll(n.update, rules, ub).events, at)
    ensures Bad(saw, Exec(n, rules, bad).events, at)
  {
    assert LiveHere(n, rules);
    var rounds := [Round(o.check, o.round, ub)] + [Last(o)];
    bad := LoopPath(o.head, rounds, o.round);
    LoopEvents(n, rules, o.head, rounds, o.round);
    UpdateComes(n, rules, o, ub);
    var start, t, b := LoopStart(n, rules, o.head, o.round), ExecAll(n.check, rules, o.check).events,
      Exec(n.round, rules, o.round).events;
    AfterMore(start, ExecRounds(n, rules, rounds).events, t + (b + []), ExecAll(n.update, rules, ub).events);
    BadAfter(Exec(n, rules, bad).events, start + (t + (b + [])), ExecAll(n.update, rules, ub).events, saw,
             CheckWalk(n, rules.accessor, WalkAll(n.head, false, rules.accessor, saw).saw).saw, at);
  }

  lemma UpdateComes(n: Node, rules: Rules, o: Ons, ub: seq<Oracle>)
    requires n.Loop? && ExecAll(n.check, rules, o.check).end == Normal && GoesRound(Exec(n.round, rules, o.round).end)
    ensures After(ExecRounds(n, rules, [Round(o.check, o.round, ub)] + [Last(o)]).events,
                  ExecAll(n.check, rules, o.check).events + (Exec(n.round, rules, o.round).events + []),
                  ExecAll(n.update, rules, ub).events)
  {
    RoundOnce(n, rules, o.check, o.round, ub, [Last(o)]);
    var t, b, part := ExecAll(n.check, rules, o.check).events, Exec(n.round, rules, o.round).events,
      ExecAll(n.update, rules, ub).events;
    var rest := Then(ExecAll(n.update, rules, ub), ExecRounds(n, rules, [Last(o)])).events;
    AfterMore(b, rest, [], part);
    AfterMore(t, b + rest, b + [], part);
  }

  /** The round in which the body misuses the accessor, and the last test. */
  function LastRound(o: Ons, bb: Oracle): seq<Oracle> {
    [Round(o.check, bb, o.update)] + [Last(o)]
  }

  lemma LastRoundEvents(n: Node, rules: Rules, o: Ons, bb: Oracle)
    requires n.Loop? && ExecAll(n.check, rules, o.check).end == Normal
    ensures After(ExecRounds(n, rules, LastRound(o, bb)).events, ExecAll(n.check, rules, o.check).events + [],
                  Exec(n.round, rules, bb).events)
  {
    RoundOnce(n, rules, o.check, bb, o.update, [Last(o)]);
    AfterMore(ExecAll(n.check, rules, o.check).events,
              Go(Exec(n.round, rules, bb), Then(ExecAll(n.update, rules, o.update), ExecRounds(n, rules, [Last(o)]))).events,
              [], Exec(n.round, rules, bb).events);
  }

  lemma BadRound(n: Node, rules: Rules, saw: bool, o: Ons, bb: Oracle, at: nat) returns (bad: Oracle)
    requires n.Loop? && Live(n, rules) && LoopOns(n, rules, saw, o)
    requires Bad(UpdateWalk(n, rules.accessor, WalkAll(n.head, false, rules.accessor, saw).saw).saw,
                 Exec(n.round, rules, bb).events, at)
    ensures Bad(saw, Exec(n, rules, bad).events, at)
  {
    assert LiveHere(n, rules);
    LastRoundEvents(n, rules, o, bb);
    if n.update == [] && !n.bodyFirst {
      var start, t := LoopStart(n, rules, o.head, o.round), ExecAll(n.check, rules, o.check).events;
      bad := LoopPath(o.head, LastRound(o, bb), o.round);
      LoopEvents(n, rules, o.head, LastRound(o, bb), o.round);
      AfterMore(start, ExecRounds(n, rules, LastRound(o, bb)).events, t + [], Exec(n.round, rules, bb).events);
      BadAfter(Exec(n, rules, bad).events, start + (t + []), Exec(n.round, rules, bb).events, saw,
               UpdateWalk(n, rules.accessor, WalkAll(n.head, false, rules.accessor, saw).saw).saw, at);
    } else {
      bad := BadSecondRound(n, rules, saw, o, bb, at);
    }
  }

  lemma BadSecondRound(n: Node, rules: Rules, saw: bool, o: Ons, bb: Oracle, at: nat) returns (bad: Oracle)
    requires n.Loop? && Live(n, rules) && LoopOns(n, rules, saw, o) && GoesRound(Way(n.round))
    requires After(ExecRounds(n, rules, LastRound(o, bb)).events, ExecAll(n.check, rules, o.check).events + [],
                   Exec(n.round, rules, bb).events)
    requires Bad(UpdateWalk(n, rules.accessor, WalkAll(n.head, false, rules.accessor, saw).saw).saw,
                 Exec(n.round, rules, bb).events, at)
    ensures Bad(saw, Exec(n, rules, bad).events, at)
  {
    var start, t, b := LoopStart(n, rules, o.head, o.round), ExecAll(n.check, rules, o.check).events,
      Exec(n.round, rules, o.round).events;
    var u, rest, part := ExecAll(n.update, rules, o.update).events, ExecRounds(n, rules, LastRound(o, bb)).events,
      Exec(n.round, rules, bb).events;
    bad := LoopPath(o.head, [Full(o)] + LastRound(o, bb), o.round);
    LoopEvents(n, rules, o.head, [Full(o)] + LastRound(o, bb), o.round);
    RoundOnce(n, rules, o.check, o.round, o.update, LastRound(o, bb));
    AfterMore(u, rest, t + [], part);
    AfterMore(b, u + rest, u + (t + []), part);
    AfterMore(t, b + (u + rest), b + (u + (t + [])), part);
    AfterMore(start, t + (b + (u + rest)), t + (b + (u + (t + []))), part);
    BadAfter(Exec(n, rules, bad).events, start + (t + (b + (u + (t + [])))), part, saw,
             UpdateWalk(n, rules.accessor, WalkAll(n.head, false, rules.accessor, saw).saw).saw, at);
  }

  // ----- switches -----

  lemma {:induction false} LiveFrom(cases: seq<Case>, k: nat, way: End, rules: Rules)
    requires CasesLive(cases, way, rules) && k <= |cases|
    ensures CasesLive(cases[k..], way, rules)
  {
    if k > 0 {
      LiveFrom(cases[1..], k - 1, way, rules);
      assert cases[1..][k - 1..] == cases[k..];
    } else {
      assert cases[0..] == cases;
    }
  }

  predicate LiveCase(c: Case, rules: Rules) {
    (c.test.Some? ==> Live(c.test.value, rules)) && AllLive(c.body, rules)
  }

  predicate AllLiveCases(cases: seq<Case>, rules: Rules) {
    forall c :: c in cases ==> LiveCase(c, rules)
  }

  /** Tests that all go on. */
  lemma {:induction false} TestsGo(cases: seq<Case>, rules: Rules, way: End, count: nat) returns (ps: seq<Oracle>)
    requires AllLiveCases(cases, rules) && CasesLive(cases, way, rules)
    ensures ExecTests(cases, rules, count, ps).end == Normal
    decreases cases, 0, 0
  {
    ps := [];
    if cases != [] && count > 0 {
      assert LiveCase(cases[0], rules);
      var o := Oracle(0, []);
      if cases[0].test.Some? {
        var _, o' := Exact(cases[0].test.value, false, rules, false, 0);
        o := o';
      }
      var rest := TestsGo(cases[1..], rules, way, count - 1);
      ps := [o] + rest;
      assert ps[1..] == rest;
    }
  }

  /** Bodies that go the way of falling through. */
  lemma {:induction false} BodiesGo(cases: seq<Case>, rules: Rules, way: End) returns (ps: seq<Oracle>)
    requires AllLiveCases(cases, rules) && CasesLive(cases, way, rules)
    ensures ExecBodies(cases, rules, ps).end == FallWay(cases)
    decreases cases, 0, 0
  {
    ps := [];
    if cases != [] {
      assert LiveCase(cases[0], rules);
      var _, os := ExactAll(cases[0].body, false, rules, false, 0);
      var rest := BodiesGo(cases[1..], rules, way);
      ps := [Oracle(0, [Oracle(0, []), Oracle(0, os)])] + rest;
      assert ps[1..] == rest;
    }
  }

  /** The case entered: its test, then its body. */
  function Unit(c: Case, rules: Rules, p: Oracle): Trace {
    Then(ExecTest(c, rules, Part(p, 0)), ExecAll(c.body, rules, Part(p, 1).parts))
  }

  lemma {:induction false} ExactCase(c: Case, rules: Rules, before: bool, at: nat) returns (bad: Oracle, on: Oracle)
    requires LiveCase(c, rules) && GoToLast(c.body) && (c.test.Some? ==> Way(c.test.value) == Normal)
    ensures Justified(Unit(c, rules, bad), WalkCase(c, rules.accessor, before), before, at)
    ensures OnWay(Unit(c, rules, on), WayAll(c.body), WalkCase(c, rules.accessor, before), before)
    decreases c, 1, 0
  {
    var wt := TestWalk(c, rules.accessor, before);
    var bt, ot := Oracle(0, []), Oracle(0, []);
    if c.test.Some? { bt, ot := Exact(c.test.value, false, rules, before, at); }
    var bb, ob := ExactAll(c.body, false, rules, wt.saw, at);
    var first := if Flagged(at, wt.reports) then bt else ot;
    bad, on := Oracle(0, [first, Oracle(0, bb)]), Oracle(0, [ot, Oracle(0, ob)]);
    assert OnWay(ExecTest(c, rules, ot), Normal, wt, before);
    JustifiedThen(ExecTest(c, rules, first), ExecAll(c.body, rules, bb), wt, before, at);
    OnThen(ExecTest(c, rules, ot), ExecAll(c.body, rules, ob), WayAll(c.body), wt,
           WalkAll(c.body, false, rules.accessor, wt.saw), before);
  }

  lemma {:induction false} FromAt(cases: seq<Case>, rules: Rules, k: nat, ps: seq<Oracle>)
    requires k <= |cases|
    ensures ExecFrom(cases, rules, k, ps) == ExecFrom(cases[k..], rules, 0, ps)
  {
    if k > 0 {
      FromAt(cases[1..], rules, k - 1, ps);
      assert cases[1..][k - 1..] == cases[k..];
    } else {
      assert cases[0..] == cases;
    }
  }

  /** Entering case `k`. */
  lemma {:induction false} ExactFrom(cases: seq<Case>, rules: Rules, way: End, k: nat, before: bool, at: nat)
    returns (bad: seq<Oracle>, on: seq<Oracle>)
    requires k < |cases| && AllLiveCases(cases, rules) && CasesLive(cases, way, rules)
    ensures Justified(ExecFrom(cases, rules, k, bad), WalkCase(cases[k], rules.accessor, before), before, at)
    ensures OnWay(Caught(ExecFrom(cases, rules, k, on), false), OutWay(cases[k..]),
      WalkCase(cases[k], rules.accessor, before), before)
    decreases cases, 1, 0
  {
    LiveFrom(cases, k, way, rules);
    var rest := cases[k..];
    assert LiveCase(cases[k], rules) && rest[0] == cases[k];
    var b, o := ExactCase(cases[k], rules, before, at);
    var bodies := BodiesGo(rest[1..], rules, way);
    bad, on := [b], [o] + bodies;
    assert on[1..] == bodies;
    FromAt(cases, rules, k, bad);
    FromAt(cases, rules, k, on);
    JustifiedThen(Unit(cases[k], rules, b), ExecBodies(rest[1..], rules, Tail(bad)),
      WalkCase(cases[k], rules.accessor, before), before, at);
  }

  /** A report or a flag of the cases is one of some case. */
  lemma {:induction false} SomeCase(cases: seq<Case>, accessor: string, before: bool, any: bool, at: nat)
    ensures var w := WalkCases(cases, accessor, before, any);
      && (w.saw ==> any || exists k :: 0 <= k < |cases| && WalkCase(cases[k], accessor, before).saw)
      && (Flagged(at, w.reports) ==>
            exists k :: 0 <= k < |cases| && Flagged(at, WalkCase(cases[k], accessor, before).reports))
  {
    if cases != [] {
      var c, rest := WalkCase(cases[0], accessor, before), cases[1..];
      SomeCase(rest, accessor, before, any || c.saw, at);
      assert forall k :: 0 <= k < |rest| ==> rest[k] == cases[k + 1];
      assert c == WalkCase(cases[0], accessor, before);
    }
  }

  lemma {:induction false} SomeWay(cases: seq<Case>) returns (k: nat)
    requires SomeGoesOn(cases)
    ensures k < |cases| && OutWay(cases[k..]) == Normal
  {
    if OutWay(cases) == Normal {
      k := 0;
      assert cases[0..] == cases;
    } else {
      k := SomeWay(cases[1..]);
      assert cases[1..][k..] == cases[k + 1..];
      k := k + 1;
    }
  }

  /** The way that case `k` of a live switch goes, if it waits. */
  lemma {:induction false} CaseGoes(cases: seq<Case>, way: End, rules: Rules, k: nat)
    requires CasesLive(cases, way, rules) && k < |cases|
    ensures OutWay(cases[k..]) == way || FreeCase(cases[k], Suspends, rules)
  {
    LiveFrom(cases, k, way, rules);
    assert cases[k..] != [] && cases[k..][0] == cases[k];
  }

  /** A path through the cases that goes the way of the switch, with the flag if the walk has it. */
  lemma {:induction false} SwitchOn(cases: seq<Case>, rules: Rules, before: bool, at: nat)
    returns (pick: nat, on: seq<Oracle>)
    requires AllLiveCases(cases, rules) && CasesLive(cases, SwitchWay(cases), rules)
    ensures OnWay(Caught(ExecFrom(cases, rules, Entry(cases, pick), on), false), SwitchWay(cases),
                  WalkCases(cases, rules.accessor, before, false), before)
    decreases cases, 2, 0
  {
    var way := SwitchWay(cases);
    SomeCase(cases, rules.accessor, before, false, at);
    if k :| 0 <= k < |cases| && WalkCase(cases[k], rules.accessor, before).saw && OutWay(cases[k..]) == way {
      var _, o := ExactFrom(cases, rules, way, k, before, at);
      pick, on := k, o;
    } else {
      forall k | 0 <= k < |cases| && WalkCase(cases[k], rules.accessor, before).saw ensures before {
        CaseGoes(cases, way, rules, k);
        NoAwaitCase(cases[k], rules, before);
      }
      if DefaultAt(cases) == |cases| {
        pick, on := |cases|, [];
        FromAt(cases, rules, |cases|, []);
      } else {
        var k := 0;
        if SomeGoesOn(cases) { k := SomeWay(cases); } else { assert cases[0..] == cases; }
        var _, o := ExactFrom(cases, rules, way, k, before, at);
        pick, on := k, o;
      }
    }
  }

  /** Some path through the cases justifies their report. */
  lemma {:induction false} SwitchBad(cases: seq<Case>, rules: Rules, before: bool, at: nat)
    returns (pick: nat, bad: seq<Oracle>)
    requires AllLiveCases(cases, rules) && CasesLive(cases, SwitchWay(cases), rules)
    requires Flagged(at, WalkCases(cases, rules.accessor, before, false).reports)
    ensures Bad(before, ExecFrom(cases, rules, Entry(cases, pick), bad).events, at)
    decreases cases, 2, 0
  {
    SomeCase(cases, rules.accessor, before, false, at);
    var k :| 0 <= k < |cases| && Flagged(at, WalkCase(cases[k], rules.accessor, before).reports);
    var b, _ := ExactFrom(cases, rules, SwitchWay(cases), k, before, at);
    pick, bad := k, b;
  }

  /** A path of a `switch`: the choices for its discriminant, the tests, and from the case entered on. */
  function SwitchPath(pick: nat, d: Oracle, tests: seq<Oracle>, cases: seq<Oracle>): Oracle {
    Oracle(pick, [d, Oracle(0, tests), Oracle(0, cases)])
  }

  lemma SwitchEvents(n: Node, rules: Rules, pick: nat, d: Oracle, tests: seq<Oracle>, cases: seq<Oracle>)
    requires n.Switch? && Exec(n.discriminant, rules, d).end == Normal
    requires ExecTests(n.cases, rules, TestsBefore(n.cases, Entry(n.cases, pick)), tests).end == Normal
    ensures var ev := ExecTests(n.cases, rules, TestsBefore(n.cases, Entry(n.cases, pick)), tests).events;
      var from := ExecFrom(n.cases, rules, Entry(n.cases, pick), cases);
      Exec(n, rules, SwitchPath(pick, d, tests, cases)) ==
      Trace(Exec(n.discriminant, rules, d).events + (ev + from.events), Caught(from, false).end)
  {
  }

  lemma {:induction false} ExactSwitch(n: Node, rules: Rules, saw: bool, at: nat) returns (bad: Oracle, on: Oracle)
    requires n.Switch? && Live(n, rules)
    ensures Justified(Exec(n, rules, bad), WalkInside(n, rules.accessor, saw), saw, at)
    ensures OnWay(Exec(n, rules, on), Way(n), WalkInside(n, rules.accessor, saw), saw)
    decreases n, 0, 0
  {
    assert LiveHere(n, rules);
    var Switch(d, cases) := n;
    assert AllLiveCases(cases, rules) by { forall c | c in cases ensures LiveCase(c, rules) { } }
    var wd := Walk(d, false, rules.accessor, saw);
    var bd, od := Exact(d, false, rules, saw, at);
    var pick, from := SwitchOn(cases, rules, wd.saw, at);
    var tests := TestsGo(cases, rules, SwitchWay(cases), TestsBefore(cases, Entry(cases, pick)));
    on := SwitchPath(pick, od, tests, from);
    SwitchEvents(n, rules, pick, od, tests, from);
    bad := on;
    if Flagged(at, wd.reports) {
      bad := SwitchPath(pick, bd, tests, from);
      JustifiedThen(Exec(d, rules, bd), Caught(Then(ExecTests(cases, rules, TestsBefore(cases, Entry(cases, pick)), tests),
        ExecFrom(cases, rules, Entry(cases, pick), from)), false), wd, saw, at);
    } else if Flagged(at, WalkCases(cases, rules.accessor, wd.saw, false).reports) {
      bad := SwitchMisuse(n, rules, saw, od, at);
    }
  }

  lemma {:induction false} SwitchMisuse(n: Node, rules: Rules, saw: bool, od: Oracle, at: nat) returns (bad: Oracle)
    requires n.Switch? && LiveHere(n, rules) && AllLiveCases(n.cases, rules)
    requires OnWay(Exec(n.discriminant, rules, od), Normal, Walk(n.discriminant, false, rules.accessor, saw), saw)
    requires Flagged(at, WalkCases(n.cases, rules.accessor, Walk(n.discriminant, false, rules.accessor, saw).saw,
      false).reports)
    ensures Bad(saw, Exec(n, rules, bad).events, at)
    decreases n.cases, 3, 0
  {
    var before := Walk(n.discriminant, false, rules.accessor, saw).saw;
    var pick, from := SwitchBad(n.cases, rules, before, at);
    var count := TestsBefore(n.cases, Entry(n.cases, pick));
    var tests := TestsGo(n.cases, rules, SwitchWay(n.cases), count);
    bad := SwitchPath(pick, od, tests, from);
    SwitchEvents(n, rules, pick, od, tests, from);
    var d, t := Exec(n.discriminant, rules, od).events, ExecTests(n.cases, rules, count, tests).events;
    var part := ExecFrom(n.cases, rules, Entry(n.cases, pick), from).events;
    AfterMore(t, part, [], part);
    AfterMore(d, t + part, t + [], part);
    BadAfter(Exec(n, rules, bad).events, d + (t + []), part, saw, before, at);
  }

  // ----- try -----

  function TryMainWay(n: Node): End
    requires n.Try?
  {
    if n.handler.None? then Way(n.block) else MainWay(Way(n.block), Way(n.handler.value))
  }

  /** The flag and reports of a `try` before its finalizer. */
  function MainWalk(n: Node, accessor: string, saw: bool): Out
    requires n.Try?
  {
    var b := Walk(n.block, false, accessor, saw);
    var h := if n.handler.Some? then Walk(n.handler.value, false, accessor, saw) else Out(saw, []);
    Out(b.saw || h.saw, b.reports + h.reports)
  }

  /** The block's path, followed by an exception and the handler's path if that is the way. */
  lemma MainOn(n: Node, rules: Rules, saw: bool, ob: Oracle, oh: Oracle) returns (on: Oracle)
    requires n.Try? && n.handler.Some? && LiveHere(n, rules)
    requires OnWay(Exec(n.block, rules, ob), Way(n.block), Walk(n.block, false, rules.accessor, saw), saw)
    requires OnWay(Exec(n.handler.value, rules, oh), Way(n.handler.value),
      Walk(n.handler.value, false, rules.accessor, saw), saw)
    ensures |on.parts| == 3 && OnWay(TryMain(n, rules, on), TryMainWay(n), MainWalk(n, rules.accessor, saw), saw)
  {
    var tried := Exec(n.block, rules, ob);
    on := Oracle(if Way(n.handler.value) == TryMainWay(n) then |tried.events| + 1 else 0, [ob, oh, Oracle(0, [])]);
    assert Cut(tried, |tried.events| + 1) == Trace(tried.events, Throws);
    assert Part(on, 0) == ob && Part(on, 1) == oh && Part(on, 2) == Oracle(0, []);
    if Way(n.handler.value) != TryMainWay(n) { NoAwaitNoReport(n.handler.value, false, rules, saw); }
  }

  /** The block's bad path, or an exception at once and the handler's. */
  lemma MainBad(n: Node, rules: Rules, saw: bool, bb: Oracle, bh: Oracle, at: nat) returns (bad: Oracle)
    requires n.Try? && n.handler.Some?
    requires Justified(Exec(n.block, rules, bb), Walk(n.block, false, rules.accessor, saw), saw, at)
    requires Justified(Exec(n.handler.value, rules, bh), Walk(n.handler.value, false, rules.accessor, saw), saw, at)
    ensures |bad.parts| == 3 && Justified(TryMain(n, rules, bad), MainWalk(n, rules.accessor, saw), saw, at)
  {
    var inBlock := Flagged(at, Walk(n.block, false, rules.accessor, saw).reports);
    bad := Oracle(if inBlock then 0 else 1, [bb, bh, Oracle(0, [])]);
    assert Part(bad, 0) == bb && Part(bad, 1) == bh && Part(bad, 2) == Oracle(0, []);
    BadConcat(saw, Exec(n.block, rules, bb).events, Exec(n.handler.value, rules, bh).events, at);
    ConcatNil(Exec(n.handler.value, rules, bh).events);
  }

  lemma {:induction false} ExactMain(n: Node, rules: Rules, saw: bool, at: nat) returns (bad: Oracle, on: Oracle)
    requires n.Try? && Live(n, rules)
    ensures Justified(TryMain(n, rules, bad), MainWalk(n, rules.accessor, saw), saw, at)
    ensures OnWay(TryMain(n, rules, on), TryMainWay(n), MainWalk(n, rules.accessor, saw), saw)
    ensures |on.parts| == 3 && |bad.parts| == 3
    decreases n, 0, 0
  {
    var quiet := Oracle(0, []);
    var bb, ob := Exact(n.block, false, rules, saw, at);
    if n.handler.Some? {
      assert LiveHere(n, rules);
      var bh, oh := Exact(n.handler.value, false, rules, saw, at);
      on := MainOn(n, rules, saw, ob, oh);
      bad := MainBad(n, rules, saw, bb, bh, at);
    } else {
      bad, on := Oracle(0, [bb, quiet, quiet]), Oracle(0, [ob, quiet, quiet]);
      ConcatNil(Walk(n.block, false, rules.accessor, saw).reports);
    }
  }

  lemma TryEvents(n: Node, rules: Rules, p: Oracle, fin: Oracle)
    requires n.Try? && |p.parts| == 3
    ensures var q := Oracle(p.pick, p.parts + [fin]);
      && TryMain(n, rules, q) == TryMain(n, rules, p)
      && (n.finalizer.None? ==> Exec(n, rules, q) == TryMain(n, rules, p))
      && (n.finalizer.Some? ==>
            var last := Exec(n.finalizer.value, rules, fin);
            Exec(n, rules, q) == Trace(TryMain(n, rules, p).events + last.events,
                                       if last.end.Normal? then TryMain(n, rules, p).end else last.end))
  {
    var q := Oracle(p.pick, p.parts + [fin]);
    assert Part(q, 0) == Part(p, 0) && Part(q, 1) == Part(p, 1) && Part(q, 2) == Part(p, 2) && Part(q, 3) == fin;
  }

  lemma {:induction false} ExactTry(n: Node, rules: Rules, saw: bool, at: nat) returns (bad: Oracle, on: Oracle)
    requires n.Try? && Live(n, rules)
    ensures Justified(Exec(n, rules, bad), WalkInside(n, rules.accessor, saw), saw, at)
    ensures OnWay(Exec(n, rules, on), Way(n), WalkInside(n, rules.accessor, saw), saw)
    decreases n, 0, 1
  {
    var w := MainWalk(n, rules.accessor, saw);
    var bm, om := ExactMain(n, rules, saw, at);
    var bf, of := Oracle(0, []), Oracle(0, []);
    if n.finalizer.Some? { bf, of := Exact(n.finalizer.value, false, rules, w.saw, at); }
    var first := if Flagged(at, w.reports) then bm else om;
    bad, on := Oracle(first.pick, first.parts + [bf]), Oracle(om.pick, om.parts + [of]);
    TryEvents(n, rules, first, bf);
    TryEvents(n, rules, om, of);
    if n.finalizer.Some? {
      var last := Exec(n.finalizer.value, rules, bf).events;
      BadConcat(saw, TryMain(n, rules, first).events, last, at);
      BadGrows(last, at);
    }
  }

  /** Where `n` ends is plain to see: in statements that leave, blocks and branches of them, or nodes that go on. */
  predicate PlainEnd(n: Node) {
    match n
    case Break => false
    case Continue => false
    case Switch(_, _) => false
    case Try(_, _, _) => false
    case Block(body) => body == [] || PlainEnd(body[|body| - 1])
    case If(_, yes, no) => PlainEnd(yes) && (no.Some? ==> PlainEnd(no.value))
    case _ => true
  }

  lemma {:induction false} PlainEndWay(n: Node, rules: Rules)
    requires Live(n, rules) && PlainEnd(n)
    ensures if AlwaysExits(n) then Way(n) == Returns || Way(n) == Throws else Way(n) == Normal
    decreases n
  {
    assert LiveHere(n, rules);
    match n
    case Block(body) =>
      if body != [] { PlainEndWay(body[|body| - 1], rules); }
      LastDecides(body);
    case If(_, yes, no) =>
      PlainEndWay(yes, rules);
      if no.Some? { PlainEndWay(no.value, rules); }
    case Row(parts) => GoingAll(parts);
    case Unvisited(parts) => GoingAll(parts);
    case _ =>
  }

  lemma {:induction false} LastDecides(ns: seq<Node>)
    requires GoToLast(ns)
    ensures WayAll(ns) == if ns == [] then Normal else Way(ns[|ns| - 1])
  {
    if |ns| > 1 {
      assert Way(ns[0]) == Normal;
      LastDecides(ns[1..]);
    }
  }

  /** The rule's judgement that a node always leaves the function is right, and it is made whenever it is
      right, except of nodes that end in a `switch`, a `try` or a jump. */
  lemma ExitsExactly(n: Node, rules: Rules)
    requires Live(n, rules) && PlainEnd(n)
    ensures AlwaysExits(n) <==> forall p :: Exec(n, rules, p).end != Normal
  {
    PlainEndWay(n, rules);
    if AlwaysExits(n) {
      forall p ensures Exec(n, rules, p).end != Normal { ExitsNeverFallThrough(n, rules, p); }
    } else {
      GoesOn(n, rules);
    }
  }

  lemma GoesOn(n: Node, rules: Rules)
    requires Live(n, rules) && Way(n) == Normal
    ensures exists p :: Exec(n, rules, p).end == Normal
  {
    var _, on := Exact(n, false, rules, false, 0);
    assert Exec(n, rules, on).end == Normal;
  }

  /** Exactness. In a live body every reported node is justified: some path uses the accessor there after a
      suspension. So if the body is checkable besides, the rule reports something exactly when some path
      misuses the accessor. */
  lemma LintIsExact(body: Node, rules: Rules)
    requires Live(body, rules)
    ensures forall m :: m in Reported(body, rules.accessor) ==> MisusedAt(body, rules, UsageSpot(m))
    ensures Checkable(body, rules) && !Refers(body, rules) ==> (Reports(body, rules.accessor) <==> Misused(body, rules))
  {
    forall m | m in Reported(body, rules.accessor) ensures MisusedAt(body, rules, UsageSpot(m)) {
      var bad, _ := Exact(body, false, rules, false, UsageSpot(m));
      BadMeaning(false, Exec(body, rules, bad).events, UsageSpot(m));
    }
    if Reports(body, rules.accessor) {
      assert Reported(body, rules.accessor)[0] in Reported(body, rules.accessor);
    }
    if Checkable(body, rules) && !Refers(body, rules) { LintIsSound(body, rules); }
  }
}
