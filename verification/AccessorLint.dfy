/** The lint that forbids a `ServicesAccessor` after an `await`: its branch-aware walk. */
module AccessorLint {
  import opened Util
  import opened AccessorSyntax

  /** The walk's flag on leaving a node, and the nodes it reported there. */
  datatype Out = Out(saw: bool, reports: seq<Node>)

  function Also(a: Out, b: Out): Out {
    Out(b.saw, a.reports + b.reports)
  }

  /** `accessor.m(...)`, or the accessor itself as an argument of a call, but not of a `new`. */
  predicate IsUsage(n: Node, asArgument: bool, accessor: string) {
    || (n.Call? && n.shape.Method? && n.target != [] && n.target[0].Ident? && n.target[0].name == accessor)
    || (asArgument && n.Ident? && n.name == accessor)
  }

  /** `return` or `throw` on every way through, as far as the last statement tells. */
  predicate AlwaysExits(n: Node) {
    match n
    case Return(_) => true
    case Throw(_) => true
    case Block(body) => body != [] && AlwaysExits(body[|body| - 1])
    case If(_, yes, no) => AlwaysExits(yes) && no.Some? && AlwaysExits(no.value)
    case _ => false
  }

  function Walk(n: Node, asArgument: bool, accessor: string, saw: bool): Out
    decreases n, 2
  {
    if n.NestedFunction? then Out(saw, [])
    else if n.Await? then Out(true, Walk(n.argument, false, accessor, saw).reports)
    else if IsUsage(n, asArgument, accessor) && saw then Out(saw, [n])
    else WalkInside(n, accessor, saw)
  }

  /** The branch-aware cases, then the children in source order. */
  function WalkInside(n: Node, accessor: string, saw: bool): Out
    decreases n, 1
  {
    match n
    case Call(shape, target, args) =>
      var t := WalkAll(target, false, accessor, saw);
      Also(t, WalkAll(args, !shape.Construct?, accessor, t.saw))
    case Unvisited(_) => Out(saw, [])
    case Member(receiver, property, computed) =>
      var r := Walk(receiver, false, accessor, saw);
      if computed then Also(r, Walk(property, false, accessor, r.saw)) else r
    case Row(parts) => WalkAll(parts, false, accessor, saw)
    case Logical(left, right) =>
      var l := Walk(left, false, accessor, saw);
      Also(l, Walk(right, false, accessor, l.saw))
    case Conditional(test, yes, no) =>
      var t := Walk(test, false, accessor, saw);
      var y := Walk(yes, false, accessor, t.saw);
      var e := Walk(no, false, accessor, t.saw);
      Out(e.saw || y.saw, t.reports + y.reports + e.reports)
    case Block(body) => WalkAll(body, false, accessor, saw)
    case If(test, yes, no) =>
      var t := Walk(test, false, accessor, saw);
      var y := Walk(yes, false, accessor, t.saw);
      var e := if no.Some? then Walk(no.value, false, accessor, t.saw) else Out(t.saw, []);
      var after := Joined(AlwaysExits(yes), no.Some? && AlwaysExits(no.value), y.saw, e.saw);
      Out(after, t.reports + y.reports + e.reports)
    case Return(m) => if m.Some? then Walk(m.value, false, accessor, saw) else Out(saw, [])
    case Throw(m) => if m.Some? then Walk(m.value, false, accessor, saw) else Out(saw, [])
    case Loop(_, head, check, update, round) =>
      var h := WalkAll(head, false, accessor, saw);
      var t := WalkAll(check, false, accessor, h.saw);
      var u := WalkAll(update, false, accessor, t.saw);
      Also(Also(Also(h, t), u), Walk(round, false, accessor, u.saw))
    case ForAwait(right, round) =>
      var r := Walk(right, false, accessor, saw);
      Also(r, Walk(round, false, accessor, true))
    case Switch(d, cases) =>
      var o := Walk(d, false, accessor, saw);
      Also(o, WalkCases(cases, accessor, o.saw, false))
    case Try(block, handler, finalizer) =>
      var b := Walk(block, false, accessor, saw);
      var h := if handler.Some? then Walk(handler.value, false, accessor, saw) else Out(saw, []);
      var joined := Out(b.saw || h.saw, b.reports + h.reports);
      if finalizer.Some? then Also(joined, Walk(finalizer.value, false, accessor, joined.saw)) else joined
    case _ => Out(saw, [])
  }

  /** The flag after an `if`: only branches that can fall through matter, unless neither can. */
  function Joined(yesExits: bool, noExits: bool, afterYes: bool, afterNo: bool): bool {
    if yesExits && noExits then afterYes || afterNo
    else if yesExits then afterNo
    else if noExits then afterYes
    else afterYes || afterNo
  }

  function WalkAll(ns: seq<Node>, asArgument: bool, accessor: string, saw: bool): Out
    decreases ns, 0
  {
    if ns == [] then Out(saw, [])
    else
      var o := Walk(ns[0], asArgument, accessor, saw);
      Also(o, WalkAll(ns[1..], asArgument, accessor, o.saw))
  }

  /** Each case from the state before the cases; `any`: some earlier case ended with the flag set. */
  function WalkCases(cases: seq<Case>, accessor: string, before: bool, any: bool): Out
    decreases cases, 0
  {
    if cases == [] then Out(any, [])
    else
      var b := WalkCase(cases[0], accessor, before);
      Also(b, WalkCases(cases[1..], accessor, before, any || b.saw))
  }

  function WalkCase(c: Case, accessor: string, before: bool): Out
    decreases c
  {
    var t := if c.test.Some? then Walk(c.test.value, false, accessor, before) else Out(before, []);
    Also(t, WalkAll(c.body, false, accessor, t.saw))
  }

  /** What linting a function body reports. */
  function Reported(body: Node, accessor: string): seq<Node> {
    Walk(body, false, accessor, false).reports
  }

  predicate Reports(body: Node, accessor: string) {
    Reported(body, accessor) != []
  }

  /** Some execution of the body uses the accessor, by the name at `at`, after a suspension. */
  ghost predicate MisusedAt(body: Node, rules: Rules, at: nat) {
    exists p :: UsedAfterSuspend(Exec(body, rules, p).events, at)
  }

  ghost predicate Misused(body: Node, rules: Rules) {
    exists at :: MisusedAt(body, rules, at)
  }

  // ----- nothing falls through an always-exiting node -----

  lemma {:induction false} ExitsNeverFallThrough(n: Node, rules: Rules, p: Oracle)
    requires AlwaysExits(n)
    ensures Exec(n, rules, p).end != Normal
    decreases n
  {
    match n
    case Block(body) => LastExits(body, rules, p.parts);
    case If(_, yes, no) =>
      ExitsNeverFallThrough(yes, rules, Part(p, 1));
      ExitsNeverFallThrough(no.value, rules, Part(p, 1));
    case _ =>
  }

  lemma {:induction false} LastExits(ns: seq<Node>, rules: Rules, ps: seq<Oracle>)
    requires ns != [] && AlwaysExits(ns[|ns| - 1])
    ensures ExecAll(ns, rules, ps).end != Normal
    decreases ns
  {
    if |ns| == 1 {
      ExitsNeverFallThrough(ns[0], rules, Head(ps));
    } else {
      LastExits(ns[1..], rules, Tail(ps));
    }
  }

  // ----- nothing is reported for nothing -----

  predicate FreeCase(c: Case, e: Effect, rules: Rules) {
    (c.test.Some? ==> Free(c.test.value, e, rules)) && AllFree(c.body, e, rules)
  }

  /** Walking code without an `await` sets no flag and, from a clear flag, reports nothing. */
  lemma {:induction false} NoAwaitNoReport(n: Node, asArgument: bool, rules: Rules, saw: bool)
    requires Free(n, Suspends, rules)
    ensures Walk(n, asArgument, rules.accessor, saw).saw ==> saw
    ensures !saw ==> Walk(n, asArgument, rules.accessor, saw) == Out(false, [])
    decreases n, 2
  {
    if !n.NestedFunction? && !(IsUsage(n, asArgument, rules.accessor) && saw) {
      NoAwaitInside(n, rules, saw);
    }
  }

  lemma {:induction false} NoAwaitInside(n: Node, rules: Rules, saw: bool)
    requires Free(n, Suspends, rules)
    ensures WalkInside(n, rules.accessor, saw).saw ==> saw
    ensures !saw ==> WalkInside(n, rules.accessor, saw) == Out(false, [])
    decreases n, 1
  {
    match n
    case Call(shape, target, args) =>
      NoAwaitAll(target, false, rules, saw);
      NoAwaitAll(args, !shape.Construct?, rules, WalkAll(target, false, rules.accessor, saw).saw);
    case Member(receiver, property, computed) =>
      NoAwaitNoReport(receiver, false, rules, saw);
      if computed { NoAwaitNoReport(property, false, rules, Walk(receiver, false, rules.accessor, saw).saw); }
    case Row(parts) => NoAwaitAll(parts, false, rules, saw);
    case Logical(left, right) => NoAwaitTwo(n, left, right, rules, saw);
    case Conditional(test, yes, no) =>
      NoAwaitTwo(n, test, yes, rules, saw);
      NoAwaitTwo(n, test, no, rules, saw);
    case Block(body) => NoAwaitAll(body, false, rules, saw);
    case If(test, yes, no) =>
      NoAwaitTwo(n, test, yes, rules, saw);
      if no.Some? { NoAwaitTwo(n, test, no.value, rules, saw); }
    case Return(m) => if m.Some? { NoAwaitNoReport(m.value, false, rules, saw); }
    case Throw(m) => if m.Some? { NoAwaitNoReport(m.value, false, rules, saw); }
    case Loop(_, _, _, _, _) => NoAwaitLoop(n, rules, saw);
    case Switch(d, cases) =>
      NoAwaitNoReport(d, false, rules, saw);
      NoAwaitCases(cases, rules, Walk(d, false, rules.accessor, saw).saw, false);
    case Try(_, _, _) => NoAwaitTry(n, rules, saw);
    case _ =>
  }

  /** First `a` and then `b`, both below `n`. */
  lemma {:induction false} NoAwaitTwo(n: Node, a: Node, b: Node, rules: Rules, saw: bool)
    requires a < n && b < n && Free(a, Suspends, rules) && Free(b, Suspends, rules)
    ensures var w := Walk(a, false, rules.accessor, saw);
      var v := Walk(b, false, rules.accessor, w.saw);
      (w.saw || v.saw ==> saw) && (!saw ==> w == Out(false, []) && v == Out(false, []))
    decreases n, 0
  {
    NoAwaitNoReport(a, false, rules, saw);
    NoAwaitNoReport(b, false, rules, Walk(a, false, rules.accessor, saw).saw);
  }

  lemma {:induction false} NoAwaitAll(ns: seq<Node>, asArgument: bool, rules: Rules, saw: bool)
    requires AllFree(ns, Suspends, rules)
    ensures WalkAll(ns, asArgument, rules.accessor, saw).saw ==> saw
    ensures !saw ==> WalkAll(ns, asArgument, rules.accessor, saw) == Out(false, [])
    decreases ns, 0
  {
    if ns != [] {
      assert Free(ns[0], Suspends, rules);
      NoAwaitNoReport(ns[0], asArgument, rules, saw);
      NoAwaitAll(ns[1..], asArgument, rules, Walk(ns[0], asArgument, rules.accessor, saw).saw);
    }
  }

  lemma {:induction false} NoAwaitLoop(n: Node, rules: Rules, saw: bool)
    requires n.Loop? && Free(n, Suspends, rules)
    ensures WalkInside(n, rules.accessor, saw).saw ==> saw
    ensures !saw ==> WalkInside(n, rules.accessor, saw) == Out(false, [])
    decreases n, 0
  {
    var h := WalkAll(n.head, false, rules.accessor, saw).saw;
    var t := WalkAll(n.check, false, rules.accessor, h).saw;
    NoAwaitAll(n.head, false, rules, saw);
    NoAwaitAll(n.check, false, rules, h);
    NoAwaitAll(n.update, false, rules, t);
    NoAwaitNoReport(n.round, false, rules, WalkAll(n.update, false, rules.accessor, t).saw);
  }

  lemma {:induction false} NoAwaitCases(cases: seq<Case>, rules: Rules, before: bool, any: bool)
    requires forall c :: c in cases ==> FreeCase(c, Suspends, rules)
    ensures WalkCases(cases, rules.accessor, before, any).saw ==> before || any
    ensures !before && !any ==> WalkCases(cases, rules.accessor, before, any) == Out(false, [])
    decreases cases, 0
  {
    if cases != [] {
      NoAwaitCase(cases[0], rules, before);
      NoAwaitCases(cases[1..], rules, before, any || WalkCase(cases[0], rules.accessor, before).saw);
    }
  }

  lemma {:induction false} NoAwaitCase(c: Case, rules: Rules, before: bool)
    requires FreeCase(c, Suspends, rules)
    ensures WalkCase(c, rules.accessor, before).saw ==> before
    ensures !before ==> WalkCase(c, rules.accessor, before) == Out(false, [])
    decreases c
  {
    if c.test.Some? { NoAwaitNoReport(c.test.value, false, rules, before); }
    NoAwaitAll(c.body, false, rules, if c.test.Some? then Walk(c.test.value, false, rules.accessor, before).saw else before);
  }

  lemma {:induction false} NoAwaitTry(n: Node, rules: Rules, saw: bool)
    requires n.Try? && Free(n, Suspends, rules)
    ensures WalkInside(n, rules.accessor, saw).saw ==> saw
    ensures !saw ==> WalkInside(n, rules.accessor, saw) == Out(false, [])
    decreases n, 0
  {
    NoAwaitNoReport(n.block, false, rules, saw);
    if n.handler.Some? { NoAwaitNoReport(n.handler.value, false, rules, saw); }
    if n.finalizer.Some? {
      NoAwaitNoReport(n.finalizer.value, false, rules, true);
      NoAwaitNoReport(n.finalizer.value, false, rules, false);
    }
  }

  // ----- the walker itself -----

  lemma JoinLists(was: seq<Node>, a: seq<Node>, b: seq<Node>, c: seq<Node>)
    ensures was + a + b + c == was + (a + b + c)
  {
  }

  /** `checkForAccessorAfterAwait`: one flag and one list, updated in place along the walk. */
  class Checker {
    const accessor: string
    var sawAwait: bool
    var reports: seq<Node>

    constructor (accessor: string)
      ensures this.accessor == accessor && !sawAwait && reports == []
    {
      this.accessor := accessor;
      sawAwait, reports := false, [];
    }

    /** The state is `w`, added to the reports `was`. */
    ghost predicate Became(w: Out, was: seq<Node>)
      reads this
    {
      sawAwait == w.saw && reports == was + w.reports
    }

    method Visit(n: Node, asArgument: bool)
      modifies this
      ensures Became(Walk(n, asArgument, accessor, old(sawAwait)), old(reports))
      decreases n, 3
    {
      if n.NestedFunction? {
      } else if n.Await? {
        Visit(n.argument, false);
        sawAwait := true;
      } else if IsUsage(n, asArgument, accessor) && sawAwait {
        reports := reports + [n];
      } else if n.If? {
        VisitIf(n);
      } else if n.Conditional? {
        VisitConditional(n);
      } else if n.Switch? {
        VisitSwitch(n);
      } else if n.Try? {
        VisitTry(n);
      } else {
        VisitChildren(n);
      }
    }

    method VisitIf(n: Node)
      requires n.If?
      modifies this
      ensures Became(WalkInside(n, accessor, old(sawAwait)), old(reports))
      decreases n, 2
    {
      ghost var test := Walk(n.test, false, accessor, sawAwait);
      ghost var yes := Walk(n.consequent, false, accessor, test.saw);
      ghost var no := if n.otherwise.Some? then Walk(n.otherwise.value, false, accessor, test.saw) else Out(test.saw, []);
      JoinLists(reports, test.reports, yes.reports, no.reports);
      Visit(n.test, false);
      var beforeBranches := sawAwait;
      Visit(n.consequent, false);
      var awaitAfterConsequent := sawAwait;
      var consequentExits := AlwaysExits(n.consequent);
      sawAwait := beforeBranches;
      var alternateExits := false;
      if n.otherwise.Some? {
        Visit(n.otherwise.value, false);
        alternateExits := AlwaysExits(n.otherwise.value);
      }
      Join(consequentExits, alternateExits, awaitAfterConsequent);
    }

    /** The flag after both branches of an `if`; on entry it is the one after the alternate. */
    method Join(consequentExits: bool, alternateExits: bool, awaitAfterConsequent: bool)
      modifies this`sawAwait
      ensures sawAwait == Joined(consequentExits, alternateExits, awaitAfterConsequent, old(sawAwait))
    {
      var awaitAfterAlternate := sawAwait;
      if consequentExits && alternateExits {
        sawAwait := awaitAfterConsequent || awaitAfterAlternate;
      } else if consequentExits {
        sawAwait := awaitAfterAlternate;
      } else if alternateExits {
        sawAwait := awaitAfterConsequent;
      } else {
        sawAwait := awaitAfterConsequent || awaitAfterAlternate;
      }
    }

    method VisitConditional(n: Node)
      requires n.Conditional?
      modifies this
      ensures Became(WalkInside(n, accessor, old(sawAwait)), old(reports))
      decreases n, 2
    {
      ghost var test := Walk(n.test, false, accessor, sawAwait);
      ghost var yes := Walk(n.consequent, false, accessor, test.saw);
      ghost var no := Walk(n.alternate, false, accessor, test.saw);
      JoinLists(reports, test.reports, yes.reports, no.reports);
      Visit(n.test, false);
      var beforeBranches := sawAwait;
      Visit(n.consequent, false);
      var awaitAfterConsequent := sawAwait;
      sawAwait := beforeBranches;
      Visit(n.alternate, false);
      sawAwait := sawAwait || awaitAfterConsequent;
    }

    method VisitSwitch(n: Node)
      requires n.Switch?
      modifies this
      ensures Became(WalkInside(n, accessor, old(sawAwait)), old(reports))
      decreases n, 2
    {
      Visit(n.discriminant, false);
      VisitCases(n.cases);
    }

    method VisitCases(cases: seq<Case>)
      modifies this
      ensures Became(WalkCases(cases, accessor, old(sawAwait), false), old(reports))
      decreases cases
    {
      var beforeCases := sawAwait;
      var anyCaseHadAwait := false;
      var i := 0;
      while i < |cases|
        invariant 0 <= i <= |cases|
        invariant var rest := WalkCases(cases[i..], accessor, beforeCases, anyCaseHadAwait);
          var all := WalkCases(cases, accessor, beforeCases, false);
          all.saw == rest.saw && reports + rest.reports == old(reports) + all.reports
      {
        assert cases[i..][1..] == cases[i + 1..];
        sawAwait := beforeCases;
        VisitCase(cases[i]);
        anyCaseHadAwait := anyCaseHadAwait || sawAwait;
        i := i + 1;
      }
      sawAwait := anyCaseHadAwait;
    }

    method VisitCase(c: Case)
      modifies this
      ensures Became(WalkCase(c, accessor, old(sawAwait)), old(reports))
      decreases c
    {
      if c.test.Some? {
        Visit(c.test.value, false);
      }
      VisitAll(c.body, false);
    }

    method VisitTry(n: Node)
      requires n.Try?
      modifies this
      ensures Became(WalkInside(n, accessor, old(sawAwait)), old(reports))
      decreases n, 2
    {
      var beforeTry := sawAwait;
      Visit(n.block, false);
      var awaitAfterTry := sawAwait;
      sawAwait := beforeTry;
      if n.handler.Some? {
        Visit(n.handler.value, false);
      }
      var awaitAfterCatch := sawAwait;
      sawAwait := awaitAfterTry || awaitAfterCatch;
      if n.finalizer.Some? {
        Visit(n.finalizer.value, false);
      }
    }

    method VisitAll(ns: seq<Node>, asArgument: bool)
      modifies this
      ensures Became(WalkAll(ns, asArgument, accessor, old(sawAwait)), old(reports))
      decreases ns, 0
    {
      var i := 0;
      while i < |ns|
        invariant 0 <= i <= |ns|
        invariant var rest := WalkAll(ns[i..], asArgument, accessor, sawAwait);
          var all := WalkAll(ns, asArgument, accessor, old(sawAwait));
          all.saw == rest.saw && reports + rest.reports == old(reports) + all.reports
      {
        assert ns[i..][1..] == ns[i + 1..];
        Visit(ns[i], asArgument);
        i := i + 1;
      }
    }

    /** `walkChildren`, for the node types without a rule of their own. */
    method VisitChildren(n: Node)
      requires !n.NestedFunction? && !n.Await? && !n.If? && !n.Conditional? && !n.Switch? && !n.Try?
      modifies this
      ensures Became(WalkInside(n, accessor, old(sawAwait)), old(reports))
      decreases n, 2
    {
      if n.Member? || n.Logical? || n.ForAwait? {
        VisitPair(n);
        return;
      }
      match n
      case Row(parts) => VisitAll(parts, false);
      case Block(body) => VisitAll(body, false);
      case Return(m) => if m.Some? { Visit(m.value, false); }
      case Throw(m) => if m.Some? { Visit(m.value, false); }
      case Loop(_, head, check, update, round) => VisitLoop(n);
      case Call(shape, target, args) => VisitAll(target, false); VisitAll(args, !shape.Construct?);
      case _ =>
    }

    method VisitLoop(n: Node)
      requires n.Loop?
      modifies this
      ensures Became(WalkInside(n, accessor, old(sawAwait)), old(reports))
      decreases n, 1
    {
      ghost var head := WalkAll(n.head, false, accessor, sawAwait);
      ghost var check := WalkAll(n.check, false, accessor, head.saw);
      ghost var update := WalkAll(n.update, false, accessor, check.saw);
      ghost var round := Walk(n.round, false, accessor, update.saw);
      JoinLists(reports, head.reports, check.reports, update.reports);
      ConcatAssoc(reports, head.reports + check.reports + update.reports, round.reports);
      VisitAll(n.head, false);
      VisitAll(n.check, false);
      VisitAll(n.update, false);
      Visit(n.round, false);
    }

    /** The nodes with two children. */
    method VisitPair(n: Node)
      requires n.Member? || n.Logical? || n.ForAwait?
      modifies this
      ensures Became(WalkInside(n, accessor, old(sawAwait)), old(reports))
      decreases n, 1
    {
      match n
      case Member(receiver, property, computed) =>
        Visit(receiver, false);
        if computed { Visit(property, false); }
      case Logical(left, right) => Visit(left, false); Visit(right, false);
      case ForAwait(right, round) =>
        Visit(right, false);
        sawAwait := true;
        Visit(round, false);
    }
  }
}
