/** Bodies on which the accessor lint and the executions disagree, at least one for each condition of
    `AccessorSoundness.Checkable` and `AccessorExactness.Live`. */
module AccessorLintLimits {
  import opened Util
  import opened AccessorSyntax
  import opened AccessorLint
  import opened AccessorSoundness

  /** `await x` and `f(accessor)`. */
  const WAIT := Await(Leaf)

  function Pass(accessor: string): Node { Call(Direct, [Leaf], [Ident(accessor, 0)]) }

  function Early(accessor: string): Rules { Rules(accessor, {}, false) }

  ghost predicate Missed(body: Node, rules: Rules) {
    Misused(body, rules) && !Reports(body, rules.accessor)
  }

  /** The default path: first alternatives, no exception, no loop round. */
  const P := Oracle(0, [])

  lemma MissedAlong(body: Node, rules: Rules, p: Oracle)
    requires [Suspend, Use(0)] <= Exec(body, rules, p).events
    requires Reported(body, rules.accessor) == []
    ensures Missed(body, rules)
  {
    var events := Exec(body, rules, p).events;
    assert events[0] == Suspend && events[1] == Use(0);
    assert MisusedAt(body, rules, 0);
  }

  lemma MissedAt(body: Node, rules: Rules, p: Oracle, i: nat, j: nat)
    requires i < j < |Exec(body, rules, p).events|
    requires Exec(body, rules, p).events[i] == Suspend && Exec(body, rules, p).events[j] == Use(0)
    requires Reported(body, rules.accessor) == []
    ensures Missed(body, rules)
  {
    assert MisusedAt(body, rules, 0);
  }

  lemma Entered(n: Node, accessor: string, saw: bool)
    requires !n.NestedFunction? && !n.Await? && !n.Call?
    ensures Walk(n, false, accessor, saw) == WalkInside(n, accessor, saw)
  {
  }

  lemma ListOfOne(n: Node, asArgument: bool, rules: Rules, ps: seq<Oracle>, saw: bool)
    ensures ExecAll([n], rules, ps) == Exec(n, rules, Head(ps))
    ensures WalkAll([n], asArgument, rules.accessor, saw) == Walk(n, asArgument, rules.accessor, saw)
    ensures RunAll([n], rules, ps) == Run(n, rules, Head(ps))
    ensures Handed([n], rules) == if Refers(n, rules) then [Use(n.at)] else []
  {
    var tr, w := Exec(n, rules, Head(ps)), Walk(n, asArgument, rules.accessor, saw);
    assert [n][1..] == [];
    assert tr.events + [] == tr.events && w.reports + [] == w.reports;
    assert Run(n, rules, Head(ps)) + [] == Run(n, rules, Head(ps));
  }

  lemma ListOfTwo(m: Node, n: Node, rules: Rules, ps: seq<Oracle>, saw: bool)
    ensures ExecAll([m, n], rules, ps) == Then(Exec(m, rules, Head(ps)), Exec(n, rules, Head(Tail(ps))))
    ensures var w := Walk(m, false, rules.accessor, saw);
      WalkAll([m, n], false, rules.accessor, saw) == Also(w, Walk(n, false, rules.accessor, w.saw))
  {
    assert [m, n][1..] == [n];
    ListOfOne(n, false, rules, Tail(ps), Walk(m, false, rules.accessor, saw).saw);
  }

  lemma LeafAndIdent(rules: Rules, saw: bool, p: Oracle)
    ensures Exec(Leaf, rules, p) == Nothing && Walk(Leaf, false, rules.accessor, saw) == Out(saw, [])
    ensures Exec(Ident(rules.accessor, 0), rules, p) == Trace([Use(0)], Normal)
    ensures Walk(Ident(rules.accessor, 0), false, rules.accessor, saw) == Out(saw, [])
    ensures Walk(Ident(rules.accessor, 0), true, rules.accessor, false) == Out(false, [])
    ensures Walk(Ident(rules.accessor, 0), true, rules.accessor, true) == Out(true, [Ident(rules.accessor, 0)])
  {
    assert WalkInside(Leaf, rules.accessor, saw) == Out(saw, []);
    assert WalkInside(Ident(rules.accessor, 0), rules.accessor, saw) == Out(saw, []);
  }

  /** A call of `m` on or with one value each, none of them a function, does what evaluating them does. */
  lemma PlainCall(shape: Shape, a: Node, b: Node, rules: Rules, p: Oracle)
    requires !rules.late && !a.NestedFunction? && !b.NestedFunction?
    ensures Exec(Call(shape, [a], [b]), rules, p) ==
            Then(Exec(a, rules, Head(Part(p, 0).parts)), Exec(b, rules, Head(Part(p, 1).parts)))
  {
    ListOfOne(a, false, rules, Part(p, 0).parts, false);
    ListOfOne(b, false, rules, Part(p, 1).parts, false);
    var tr := Then(Exec(a, rules, Head(Part(p, 0).parts)), Exec(b, rules, Head(Part(p, 1).parts)));
    assert tr.events + ([] + ([] + [])) == tr.events;
  }

  lemma CallWalk(shape: Shape, a: Node, b: Node, rules: Rules, saw: bool)
    requires !IsUsage(Call(shape, [a], [b]), false, rules.accessor)
    ensures var t := Walk(a, false, rules.accessor, saw);
      Walk(Call(shape, [a], [b]), false, rules.accessor, saw) ==
      Also(t, Walk(b, !shape.Construct?, rules.accessor, t.saw))
  {
    var t := WalkAll([a], false, rules.accessor, saw);
    CallInside(shape, [a], [b], rules.accessor, saw);
    ListOfOne(a, false, rules, [], saw);
    ListOfOne(b, !shape.Construct?, rules, [], t.saw);
  }

  lemma CallInside(shape: Shape, target: seq<Node>, args: seq<Node>, accessor: string, saw: bool)
    requires !IsUsage(Call(shape, target, args), false, accessor)
    ensures var t := WalkAll(target, false, accessor, saw);
      Walk(Call(shape, target, args), false, accessor, saw) ==
      Also(t, WalkAll(args, !shape.Construct?, accessor, t.saw))
  {
  }

  lemma Passing(rules: Rules, p: Oracle)
    requires !rules.late
    ensures Exec(Pass(rules.accessor), rules, p) == Trace([Use(0)], Normal)
    ensures Walk(Pass(rules.accessor), false, rules.accessor, false) == Out(false, [])
  {
    PassWalk(rules);
    LeafAndIdent(rules, false, Head(Part(p, 0).parts));
    LeafAndIdent(rules, false, Head(Part(p, 1).parts));
    PlainCall(Direct, Leaf, Ident(rules.accessor, 0), rules, p);
    assert [] + [Use(0)] == [Use(0)];
  }

  lemma PassWalk(rules: Rules)
    ensures Walk(Pass(rules.accessor), false, rules.accessor, false) == Out(false, [])
    ensures Walk(Pass(rules.accessor), false, rules.accessor, true) == Out(true, [Ident(rules.accessor, 0)])
  {
    var a := Ident(rules.accessor, 0);
    LeafAndIdent(rules, false, P);
    LeafAndIdent(rules, true, P);
    CallWalk(Direct, Leaf, a, rules, false);
    CallWalk(Direct, Leaf, a, rules, true);
    assert [] + [a] == [a];
  }

  lemma Waiting(rules: Rules, asArgument: bool, p: Oracle)
    ensures Exec(WAIT, rules, p) == Trace([Suspend], Normal)
    ensures Walk(WAIT, asArgument, rules.accessor, false) == Out(true, [])
  {
    LeafAndIdent(rules, false, Part(p, 0));
    assert [] + [Suspend] == [Suspend];
  }

  /** A node that uses the accessor unseen is missed after an `await`. */
  lemma AfterWait(n: Node, rules: Rules, p: Oracle)
    requires Exec(n, rules, p) == Trace([Use(0)], Normal)
    requires Walk(n, false, rules.accessor, true).reports == []
    ensures Missed(Row([WAIT, n]), rules)
  {
    var body, path := Row([WAIT, n]), Oracle(0, [P, p]);
    Waiting(rules, false, P);
    assert Tail(path.parts) == [p];
    ListOfTwo(WAIT, n, rules, path.parts, false);
    Entered(body, rules.accessor, false);
    assert Exec(body, rules, path).events == [Suspend] + [Use(0)];
    MissedAlong(body, rules, path);
  }

  /** `while (c) { body }` */
  function While(body: Node): Node { Loop(false, [], [Leaf], [], body) }

  /** One round, whatever happens in its test, and the rest of the rounds. */
  lemma WhileStep(body: Node, rules: Rules, rounds: seq<Oracle>)
    ensures ExecRounds(While(body), rules, rounds) ==
            if |rounds| <= 1 then Nothing
            else Go(Exec(body, rules, Part(rounds[0], 1)), ExecRounds(While(body), rules, rounds[1..]))
  {
    LeafAndIdent(rules, false, Head(Part(Head(rounds), 0).parts));
    ListOfOne(Leaf, false, rules, Part(Head(rounds), 0).parts, false);
    if |rounds| > 1 {
      ConcatNil(ExecRounds(While(body), rules, rounds[1..]).events);
      ConcatNil(Go(Exec(body, rules, Part(rounds[0], 1)), ExecRounds(While(body), rules, rounds[1..])).events);
    }
  }

  lemma WhileRound(body: Node, rules: Rules, p: Oracle, rest: seq<Oracle>)
    requires rest != []
    ensures ExecRounds(While(body), rules, [Oracle(0, [P, p])] + rest)
      == Go(Exec(body, rules, p), ExecRounds(While(body), rules, rest))
  {
    WhileStep(body, rules, [Oracle(0, [P, p])] + rest);
    assert ([Oracle(0, [P, p])] + rest)[1..] == rest;
  }

  lemma WhileRuns(body: Node, rules: Rules, rounds: seq<Oracle>)
    ensures Exec(While(body), rules, Oracle(0, [P, Oracle(0, rounds)])) == ExecRounds(While(body), rules, rounds)
  {
    ConcatNil(ExecRounds(While(body), rules, rounds).events);
  }

  lemma WhileWalk(body: Node, rules: Rules, saw: bool)
    ensures Walk(While(body), false, rules.accessor, saw) == Walk(body, false, rules.accessor, saw)
  {
    LeafAndIdent(rules, saw, P);
    ListOfOne(Leaf, false, rules, [], saw);
    Entered(While(body), rules.accessor, saw);
    ConcatNil(Walk(body, false, rules.accessor, saw).reports);
  }

  /** Loop bodies are walked once: `while (c) { f(accessor); await x; }` misuses it in round two. */
  lemma LoopsAreMissed(accessor: string)
    ensures Missed(While(Block([Pass(accessor), WAIT])), Early(accessor))
  {
    var rules, body := Early(accessor), Block([Pass(accessor), WAIT]);
    var round := Oracle(0, [P, P]);
    PassThenWait(rules);
    WhileStep(body, rules, [P]);
    WhileRound(body, rules, P, [P]);
    WhileRound(body, rules, P, [round] + [P]);
    ConcatNil([Use(0), Suspend]);
    var rounds := [round] + ([round] + [P]);
    WhileRuns(body, rules, rounds);
    assert ExecRounds(While(body), rules, rounds).events == [Use(0), Suspend] + [Use(0), Suspend];
    WhileWalk(body, rules, false);
    MissedAt(While(body), rules, Oracle(0, [P, Oracle(0, rounds)]), 1, 2);
  }

  lemma PassThenWait(rules: Rules)
    requires !rules.late
    ensures Exec(Block([Pass(rules.accessor), WAIT]), rules, P) == Trace([Use(0), Suspend], Normal)
    ensures Walk(Block([Pass(rules.accessor), WAIT]), false, rules.accessor, false).reports == []
  {
    Passing(rules, P);
    ThenWait(Pass(rules.accessor), rules);
  }

  lemma ThenWait(first: Node, rules: Rules)
    requires Exec(first, rules, P) == Trace([Use(0)], Normal)
    requires Walk(first, false, rules.accessor, false) == Out(false, [])
    ensures Exec(Block([first, WAIT]), rules, P) == Trace([Use(0), Suspend], Normal)
    ensures Walk(Block([first, WAIT]), false, rules.accessor, false).reports == []
  {
    Waiting(rules, false, P);
    OneThenOther(first, WAIT, rules);
    Entered(Block([first, WAIT]), rules.accessor, false);
  }

  lemma OneThenOther(first: Node, last: Node, rules: Rules)
    requires Exec(first, rules, P) == Trace([Use(0)], Normal)
    requires Walk(first, false, rules.accessor, false) == Out(false, [])
    ensures ExecAll([first, last], rules, []) == Then(Trace([Use(0)], Normal), Exec(last, rules, P))
    ensures WalkAll([first, last], false, rules.accessor, false) == Walk(last, false, rules.accessor, false)
  {
    ListOfTwo(first, last, rules, [], false);
    var w := Walk(last, false, rules.accessor, false);
    assert [] + w.reports == w.reports;
  }

  /** `try { await x; } catch { f(accessor); }`: the handler is walked from the state before the `try`. */
  lemma HandlersAreMissed(accessor: string)
    ensures Missed(Try(WAIT, Some(Pass(accessor)), None), Early(accessor))
  {
    var rules, p, body := Early(accessor), Oracle(2, []), Try(WAIT, Some(Pass(accessor)), None);
    Waiting(rules, false, P);
    Passing(rules, P);
    assert Part(p, 0) == Part(p, 1) == Part(p, 2) == P;
    assert Exec(body, rules, p).events == [Suspend] + [Use(0)];
    Entered(body, accessor, false);
    MissedAlong(body, rules, p);
  }

  /** `try { if (c) { await x; return; } } finally { f(accessor); }`: an exiting branch still runs the
      finalizer, but its `await` is not carried there. */
  lemma FinalizersAreMissed(accessor: string)
    ensures Missed(Try(Turning(), None, Some(Pass(accessor))), Early(accessor))
  {
    Passing(Early(accessor), P);
    TurningLeaves(Early(accessor));
    LeavesThenUses(Turning(), Pass(accessor), Early(accessor));
  }

  /** `if (c) { await x; return; }` */
  function Turning(): Node { If(Leaf, Leaving(), None) }

  lemma LeavesThenUses(block: Node, last: Node, rules: Rules)
    requires Exec(block, rules, P) == Trace([Suspend], Returns) && Exec(last, rules, P) == Trace([Use(0)], Normal)
    requires Walk(block, false, rules.accessor, false) == Walk(last, false, rules.accessor, false) == Out(false, [])
    ensures Missed(Try(block, None, Some(last)), rules)
  {
    var body := Try(block, None, Some(last));
    assert Part(P, 0) == Part(P, 3) == P;
    assert Exec(body, rules, P).events == [Suspend] + [Use(0)];
    Entered(body, rules.accessor, false);
    MissedAlong(body, rules, P);
  }

  lemma TurningLeaves(rules: Rules)
    ensures Exec(Turning(), rules, P) == Trace([Suspend], Returns)
    ensures Walk(Turning(), false, rules.accessor, false) == Out(false, [])
  {
    LeavingExits(rules, P);
    LeafAndIdent(rules, false, P);
    assert Part(P, 0) == Part(P, 1) == P;
    assert [] + [Suspend] == [Suspend];
    Entered(Turning(), rules.accessor, false);
  }

  /** `{ await x; return; }` */
  function Leaving(): Node { Block([WAIT, Return(None)]) }

  lemma LeavingExits(rules: Rules, p: Oracle)
    ensures Exec(Leaving(), rules, p) == Trace([Suspend], Returns)
    ensures Walk(Leaving(), false, rules.accessor, false) == Out(true, []) && AlwaysExits(Leaving())
  {
    Waiting(rules, false, Head(p.parts));
    ListOfTwo(WAIT, Return(None), rules, p.parts, false);
    Entered(Leaving(), rules.accessor, false);
    Entered(Return(None), rules.accessor, true);
    assert [Suspend] + [] == [Suspend];
  }

  /** `switch (d) { case a: await x; case b: f(accessor); }`: every case starts from the state before the switch. */
  lemma FallthroughIsMissed(accessor: string)
    ensures Missed(Switch(Leaf, [Case(Some(Leaf), [WAIT]), Case(Some(Leaf), [Pass(accessor)])]), Early(accessor))
  {
    var rules, first, second := Early(accessor), Case(Some(Leaf), [WAIT]), Case(Some(Leaf), [Pass(accessor)]);
    var body := Switch(Leaf, [first, second]);
    FallthroughCases(rules, first, second);
    LeafAndIdent(rules, false, P);
    assert Part(P, 0) == Part(P, 1) == Part(P, 2) == P;
    assert Exec(body, rules, P).events == [] + ([] + [Suspend, Use(0)]);
    Entered(body, accessor, false);
    assert WalkInside(body, accessor, false).reports == [] + [];
    MissedAlong(body, rules, P);
  }

  lemma FallthroughCases(rules: Rules, first: Case, second: Case)
    requires !rules.late && first == Case(Some(Leaf), [WAIT]) && second == Case(Some(Leaf), [Pass(rules.accessor)])
    ensures ExecTests([first, second], rules, 0, []) == Nothing
    ensures ExecFrom([first, second], rules, 0, []) == Trace([Suspend, Use(0)], Normal)
    ensures WalkCases([first, second], rules.accessor, false, false).reports == []
  {
    Waiting(rules, false, P);
    Passing(rules, P);
    LeafAndIdent(rules, false, P);
    ListOfOne(WAIT, false, rules, [], false);
    ListOfOne(Pass(rules.accessor), false, rules, [], false);
    assert [first, second][1..] == [second] && [second][1..] == [];
    assert ExecBodies([second], rules, []) == Trace([Use(0)] + [], Normal);
    assert ExecFrom([first, second], rules, 0, []) == Trace(([] + [Suspend]) + ([Use(0)] + []), Normal);
    assert WalkCases([second], rules.accessor, false, true).reports == [];
  }

  /** `await x; switch (d) {}; f(accessor)`: a switch without cases forgets the earlier `await`. */
  lemma EmptySwitchForgets(accessor: string)
    ensures Missed(Row([Row([WAIT, Switch(Leaf, [])]), Pass(accessor)]), Early(accessor))
  {
    var rules, empty := Early(accessor), Switch(Leaf, []);
    var head := Row([WAIT, empty]);
    var body := Row([head, Pass(accessor)]);
    Waiting(rules, false, P);
    Passing(rules, P);
    EmptySwitch(rules);
    ListOfTwo(WAIT, empty, rules, [], false);
    Entered(head, accessor, false);
    assert Exec(head, rules, P) == Trace([Suspend] + [], Normal);
    ListOfTwo(head, Pass(accessor), rules, [], false);
    Entered(body, accessor, false);
    assert Exec(body, rules, P).events == [Suspend] + [Use(0)];
    MissedAlong(body, rules, P);
  }

  lemma EmptySwitch(rules: Rules)
    ensures Exec(Switch(Leaf, []), rules, P) == Nothing
    ensures Walk(Switch(Leaf, []), false, rules.accessor, true) == Out(false, [])
  {
    LeafAndIdent(rules, true, P);
    Entered(Switch(Leaf, []), rules.accessor, true);
    assert Part(P, 0) == Part(P, 1) == Part(P, 2) == P;
  }

  /** Node types `walkChildren` does not list hide what is below them, e.g. `a?.b(...)`. */
  lemma UnlistedNodesHide(accessor: string)
    ensures Missed(Row([WAIT, Unvisited([Pass(accessor)])]), Early(accessor))
  {
    Hidden(Early(accessor), true, P);
    AfterWait(Unvisited([Pass(accessor)]), Early(accessor), P);
  }

  lemma Hidden(rules: Rules, saw: bool, p: Oracle)
    requires !rules.late
    ensures Exec(Unvisited([Pass(rules.accessor)]), rules, p) == Trace([Use(0)], Normal)
    ensures Walk(Unvisited([Pass(rules.accessor)]), false, rules.accessor, saw) == Out(saw, [])
  {
    Passing(rules, Head(p.parts));
    ListOfOne(Pass(rules.accessor), false, rules, p.parts, false);
    Entered(Unvisited([Pass(rules.accessor)]), rules.accessor, saw);
  }

  /** A listed node hides the parts it skips: `await x; const { a = f(accessor) } = o;` and
      `await x; ({ [f(accessor)]: v });` misuse it in a default and in a computed key. */
  lemma SkippedUsesAreMissed(accessor: string)
    ensures Missed(Row([WAIT, Row([Leaf, Unvisited([Pass(accessor)])])]), Early(accessor))
    ensures Missed(Row([WAIT, Row([Unvisited([Pass(accessor)]), Leaf])]), Early(accessor))
  {
    var rules, hidden := Early(accessor), Unvisited([Pass(accessor)]);
    Hidden(rules, true, P);
    LeafAndIdent(rules, true, P);
    ListOfTwo(Leaf, hidden, rules, [], true);
    ListOfTwo(hidden, Leaf, rules, [], true);
    assert [] + [Use(0)] == [Use(0)] && [Use(0)] + [] == [Use(0)];
    Entered(Row([Leaf, hidden]), accessor, true);
    Entered(Row([hidden, Leaf]), accessor, true);
    AfterWait(Row([Leaf, hidden]), rules, P);
    AfterWait(Row([hidden, Leaf]), rules, P);
  }

  /** Function values are not entered, even where a call runs them at once: after an `await`, both
      `items.forEach(i => f(accessor))` and `(() => f(accessor))()` misuse it. So does a function made
      before the `await` of a later argument, `g(() => f(accessor), await x)`. */
  lemma CallbacksAreMissed(accessor: string)
    ensures Missed(Row([WAIT, Call(Method, [Leaf], [Callback(accessor)])]), Early(accessor))
    ensures Missed(Row([WAIT, Call(Direct, [Callback(accessor)], [])]), Early(accessor))
    ensures Missed(Call(Direct, [Leaf], [Callback(accessor), WAIT]), Early(accessor))
  {
    var rules, f := Early(accessor), Callback(accessor);
    CallbackRuns(rules);
    AfterWait(Call(Method, [Leaf], [f]), rules, Oracle(0, [P, RUN]));
    AfterWait(Call(Direct, [f], []), rules, Oracle(0, [RUN, P]));
    CallbackWaits(rules);
    MissedAlong(Call(Direct, [Leaf], [f, WAIT]), rules, Oracle(0, [P, RUN]));
  }

  function Callback(accessor: string): Node { NestedFunction(Pass(accessor)) }

  /** The function value that comes first is run. */
  const RUN := Oracle(0, [Oracle(1, [])])

  lemma Ran(rules: Rules)
    requires !rules.late
    ensures Run(Callback(rules.accessor), rules, Oracle(1, [])) == [Use(0)]
  {
    Passing(rules, Part(Oracle(1, []), 0));
    assert [Use(0)][1..] == [];
    assert Synchronous([Use(0)]) == [Use(0)] + [];
  }

  lemma CallbackRuns(rules: Rules)
    requires !rules.late
    ensures Exec(Call(Method, [Leaf], [Callback(rules.accessor)]), rules, Oracle(0, [P, RUN])) == Trace([Use(0)], Normal)
    ensures Walk(Call(Method, [Leaf], [Callback(rules.accessor)]), false, rules.accessor, true).reports == []
    ensures Exec(Call(Direct, [Callback(rules.accessor)], []), rules, Oracle(0, [RUN, P])) == Trace([Use(0)], Normal)
    ensures Walk(Call(Direct, [Callback(rules.accessor)], []), false, rules.accessor, true).reports == []
  {
    var f := Callback(rules.accessor);
    Ran(rules);
    LeafAndIdent(rules, true, P);
    ListOfOne(Leaf, false, rules, [], true);
    ListOfOne(f, false, rules, RUN.parts, true);
    ListOfOne(f, true, rules, RUN.parts, true);
    assert [] + ([] + [Use(0)]) == [Use(0)] == [] + ([Use(0)] + []);
    assert Part(Oracle(0, [P, RUN]), 0) == Part(Oracle(0, [RUN, P]), 1) == P;
  }

  lemma CallbackWaits(rules: Rules)
    requires !rules.late
    ensures Exec(Call(Direct, [Leaf], [Callback(rules.accessor), WAIT]), rules, Oracle(0, [P, RUN])).events ==
            [Suspend, Use(0)]
    ensures Reported(Call(Direct, [Leaf], [Callback(rules.accessor), WAIT]), rules.accessor) == []
  {
    var f, ps := Callback(rules.accessor), RUN.parts;
    Ran(rules);
    LeafAndIdent(rules, false, P);
    Waiting(rules, true, P);
    ListOfOne(Leaf, false, rules, [], false);
    ListOfOne(WAIT, true, rules, Tail(ps), false);
    ListOfTwo(f, WAIT, rules, ps, false);
    assert [f, WAIT][1..] == [WAIT];
    assert WalkAll([f, WAIT], true, rules.accessor, false) == Also(Out(false, []), Out(true, []));
    assert WalkInside(Call(Direct, [Leaf], [f, WAIT]), rules.accessor, false) == Also(Out(false, []), Out(true, []));
    assert RunAll([f, WAIT], rules, ps) == [Use(0)] + [];
    assert ([] + ([] + [Suspend])) + ([] + ([] + [Use(0)])) == [Suspend, Use(0)];
  }

  /** `await x; new Foo(accessor)`: an argument of `new` is not looked for. */
  lemma ConstructorsAreMissed(accessor: string)
    ensures Missed(Row([WAIT, Call(Construct, [Leaf], [Ident(accessor, 0)])]), Early(accessor))
  {
    var rules, a := Early(accessor), Ident(accessor, 0);
    LeafAndIdent(rules, true, P);
    PlainCall(Construct, Leaf, a, rules, P);
    CallWalk(Construct, Leaf, a, rules, true);
    assert [] + [Use(0)] == [Use(0)];
    AfterWait(Call(Construct, [Leaf], [a]), rules, P);
  }

  /** `await x; accessor!.get(S)` and `await x; (accessor as T).get(S)`: the receiver is not an identifier. */
  lemma WrappedReceiversAreMissed(accessor: string)
    ensures Missed(Row([WAIT, Call(Method, [Row([Ident(accessor, 0)])], [Leaf])]), Early(accessor))
  {
    var rules, a := Early(accessor), Row([Ident(accessor, 0)]);
    BareReference(rules);
    LeafAndIdent(rules, true, P);
    PlainCall(Method, a, Leaf, rules, P);
    CallWalk(Method, a, Leaf, rules, true);
    assert [Use(0)] + [] == [Use(0)];
    AfterWait(Call(Method, [a], [Leaf]), rules, P);
  }

  lemma BareReference(rules: Rules)
    ensures Exec(Row([Ident(rules.accessor, 0)]), rules, P) == Trace([Use(0)], Normal)
    ensures Walk(Row([Ident(rules.accessor, 0)]), false, rules.accessor, true) == Out(true, [])
  {
    var a := Ident(rules.accessor, 0);
    LeafAndIdent(rules, true, P);
    ListOfOne(a, false, rules, [], true);
    Entered(Row([a]), rules.accessor, true);
  }

  /** `await x; const b = accessor;`: other mentions are not looked for. */
  lemma ReferencesAreMissed(accessor: string)
    ensures Missed(Row([WAIT, Row([Ident(accessor, 0)])]), Early(accessor))
  {
    BareReference(Early(accessor));
    AfterWait(Row([Ident(accessor, 0)]), Early(accessor), P);
  }

  /** `const b = accessor; await x; b.get(S)`: nor are other names that hold it. */
  lemma AliasesAreMissed(accessor: string, alias: string)
    requires alias != accessor
    ensures Missed(Row([WAIT, Call(Method, [Ident(alias, 0)], [Leaf])]), Rules(accessor, {alias}, false))
  {
    var rules, b := Rules(accessor, {alias}, false), Ident(alias, 0);
    LeafAndIdent(rules, true, P);
    Entered(b, accessor, true);
    PlainCall(Method, b, Leaf, rules, P);
    CallWalk(Method, b, Leaf, rules, true);
    assert [Use(0)] + [] == [Use(0)];
    AfterWait(Call(Method, [b], [Leaf]), rules, P);
  }

  /** `for (a[f(accessor)] of await x) {}`: the left side is walked before the right one and evaluated after it. */
  lemma LoopHeadsAreMissed(accessor: string)
    ensures Missed(Row([Pass(accessor), Loop(false, [WAIT], [], [], Unvisited([Pass(accessor)]))]), Early(accessor))
  {
    var rules := Early(accessor);
    Passing(rules, P);
    Hidden(rules, true, Part(P, 0));
    Waiting(rules, false, P);
    HeadMissed(Pass(accessor), WAIT, Unvisited([Pass(accessor)]), rules);
  }

  lemma HeadMissed(left: Node, right: Node, round: Node, rules: Rules)
    requires Exec(left, rules, P) == Exec(round, rules, P) == Trace([Use(0)], Normal)
    requires Exec(right, rules, P) == Trace([Suspend], Normal)
    requires Walk(left, false, rules.accessor, false) == Out(false, [])
    requires Walk(right, false, rules.accessor, false) == Out(true, [])
    requires Walk(round, false, rules.accessor, true).reports == []
    ensures Missed(Row([left, Loop(false, [right], [], [], round)]), rules)
  {
    HeadRuns(right, round, rules);
    HeadWalk(right, round, rules);
    UseThenMiss(left, Loop(false, [right], [], [], round), Oracle(0, [P, Oracle(0, [P, P])]), rules);
  }

  lemma HeadRuns(right: Node, round: Node, rules: Rules)
    requires Exec(right, rules, P) == Trace([Suspend], Normal) && Exec(round, rules, P) == Trace([Use(0)], Normal)
    ensures Exec(Loop(false, [right], [], [], round), rules, Oracle(0, [P, Oracle(0, [P, P])])) ==
            Trace([Suspend, Use(0)], Normal)
  {
    LoopSteps(right, round, rules, Oracle(0, [P, Oracle(0, [P, P])]));
    OneUse(right, round, rules);
    assert [Suspend] + [Use(0)] == [Suspend, Use(0)];
  }

  lemma LoopSteps(right: Node, round: Node, rules: Rules, p: Oracle)
    requires Part(p, 0) == P
    ensures var loop := Loop(false, [right], [], [], round);
      Exec(loop, rules, p) == Then(Exec(right, rules, P), ExecRounds(loop, rules, Part(p, 1).parts))
  {
    ListOfOne(right, false, rules, [], false);
  }

  lemma HeadWalk(right: Node, round: Node, rules: Rules)
    requires Walk(right, false, rules.accessor, false) == Out(true, [])
    requires Walk(round, false, rules.accessor, true).reports == []
    ensures Walk(Loop(false, [right], [], [], round), false, rules.accessor, false).reports == []
  {
    ListOfOne(right, false, rules, [], false);
    Entered(Loop(false, [right], [], [], round), rules.accessor, false);
  }

  lemma UseThenMiss(left: Node, loop: Node, once: Oracle, rules: Rules)
    requires Exec(left, rules, P) == Trace([Use(0)], Normal)
    requires Exec(loop, rules, once) == Trace([Suspend, Use(0)], Normal)
    requires Walk(left, false, rules.accessor, false) == Out(false, [])
    requires Walk(loop, false, rules.accessor, false).reports == []
    ensures Missed(Row([left, loop]), rules)
  {
    var body, p := Row([left, loop]), Oracle(0, [P, once]);
    UseThenLoop(left, loop, once, rules);
    ListOfTwo(left, loop, rules, [], false);
    Entered(body, rules.accessor, false);
    MissedAt(body, rules, p, 1, 2);
  }

  lemma UseThenLoop(left: Node, loop: Node, once: Oracle, rules: Rules)
    requires Exec(left, rules, P) == Trace([Use(0)], Normal)
    requires Exec(loop, rules, once) == Trace([Suspend, Use(0)], Normal)
    ensures Exec(Row([left, loop]), rules, Oracle(0, [P, once])).events == [Use(0), Suspend, Use(0)]
  {
    assert Tail([P, once]) == [once];
    ListOfTwo(left, loop, rules, [P, once], false);
    assert [Use(0)] + [Suspend, Use(0)] == [Use(0), Suspend, Use(0)];
  }

  lemma OneUse(right: Node, round: Node, rules: Rules)
    requires Exec(round, rules, P) == Trace([Use(0)], Normal)
    ensures ExecRounds(Loop(false, [right], [], [], round), rules, [P, P]) == Trace([Use(0)], Normal)
  {
    assert [P, P][1..] == [P] && Part(P, 1) == P;
    ConcatNil([Use(0)]);
  }

  /** Nor does the walk see an `await` there: `const { a = await x } = o; f(accessor)`. */
  lemma SkippedAwaitIsMissed(accessor: string)
    ensures Missed(Row([Row([Leaf, Unvisited([WAIT])]), Pass(accessor)]), Early(accessor))
  {
    var rules, hidden := Early(accessor), Unvisited([WAIT]);
    var first := Row([Leaf, hidden]);
    var body := Row([first, Pass(accessor)]);
    Waiting(rules, false, P);
    Passing(rules, P);
    LeafAndIdent(rules, false, P);
    ListOfOne(WAIT, false, rules, [], false);
    Entered(hidden, accessor, false);
    ListOfTwo(Leaf, hidden, rules, [], false);
    Entered(first, accessor, false);
    assert Exec(first, rules, P) == Trace([] + [Suspend], Normal);
    ListOfTwo(first, Pass(accessor), rules, [], false);
    Entered(body, accessor, false);
    assert Exec(body, rules, P).events == [Suspend] + [Use(0)];
    MissedAlong(body, rules, P);
  }

  /** `if (d) { await x; break; }` */
  function Breaking(): Node { If(Leaf, Block([WAIT, Break]), None) }

  /** `if (e) { if (d) { await x; break; } return; }`: its branch ends in `return`, so the walk takes it
      to be left for good, and the flag set before the `break` is dropped. */
  function Escaping(): Node { If(Leaf, Block([Breaking(), Return(None)]), None) }

  lemma EscapingJumps(rules: Rules)
    ensures Exec(Escaping(), rules, P) == Trace([Suspend], Breaks)
    ensures Walk(Escaping(), false, rules.accessor, false) == Out(false, [])
  {
    BreakingJumps(rules);
    BranchJumps(Breaking(), rules);
  }

  lemma BranchJumps(first: Node, rules: Rules)
    requires Exec(first, rules, P) == Trace([Suspend], Breaks)
    requires Walk(first, false, rules.accessor, false) == Out(true, [])
    ensures Exec(If(Leaf, Block([first, Return(None)]), None), rules, P) == Trace([Suspend], Breaks)
    ensures Walk(If(Leaf, Block([first, Return(None)]), None), false, rules.accessor, false) == Out(false, [])
  {
    var inner := Block([first, Return(None)]);
    ListOfTwo(first, Return(None), rules, [], false);
    Entered(Return(None), rules.accessor, true);
    Entered(inner, rules.accessor, false);
    BranchOnly(inner, rules);
  }

  lemma BranchOnly(inner: Node, rules: Rules)
    requires Exec(inner, rules, P) == Trace([Suspend], Breaks)
    requires Walk(inner, false, rules.accessor, false) == Out(true, []) && AlwaysExits(inner)
    ensures Exec(If(Leaf, inner, None), rules, P) == Trace([Suspend], Breaks)
    ensures Walk(If(Leaf, inner, None), false, rules.accessor, false) == Out(false, [])
  {
    LeafAndIdent(rules, false, P);
    Entered(If(Leaf, inner, None), rules.accessor, false);
    assert Part(P, 0) == Part(P, 1) == P;
    assert [] + [Suspend] == [Suspend];
  }

  lemma BreakingJumps(rules: Rules)
    ensures Exec(Breaking(), rules, P) == Trace([Suspend], Breaks)
    ensures Walk(Breaking(), false, rules.accessor, false) == Out(true, [])
  {
    WaitThenBreak(rules);
    LeafAndIdent(rules, false, P);
    Entered(Breaking(), rules.accessor, false);
    assert Part(P, 0) == Part(P, 1) == P;
    assert [] + [Suspend] == [Suspend];
  }

  lemma WaitThenBreak(rules: Rules)
    ensures Exec(Block([WAIT, Break]), rules, P) == Trace([Suspend], Breaks)
    ensures Walk(Block([WAIT, Break]), false, rules.accessor, false) == Out(true, [])
  {
    Waiting(rules, false, P);
    ListOfTwo(WAIT, Break, rules, [], false);
    Entered(Break, rules.accessor, true);
    Entered(Block([WAIT, Break]), rules.accessor, false);
    ConcatNil([Suspend]);
  }

  /** `while (c) { if (e) { if (d) { await x; break; } return; } } f(accessor)`: the loop uses nothing, but
      a jump out of a branch that otherwise leaves the function carries the `await` past the walk. */
  lemma JumpsAreMissed(accessor: string)
    ensures Missed(Row([While(Escaping()), Pass(accessor)]), Early(accessor))
  {
    var rules, loop := Early(accessor), While(Escaping());
    var round := Oracle(0, [P, P]);
    var once := Oracle(0, [P, Oracle(0, [round] + [P])]);
    var body, p := Row([loop, Pass(accessor)]), Oracle(0, [once]);
    EscapingJumps(rules);
    WhileStep(Escaping(), rules, [P]);
    WhileRound(Escaping(), rules, P, [P]);
    WhileRuns(Escaping(), rules, [round] + [P]);
    WhileWalk(Escaping(), rules, false);
    Passing(rules, P);
    ListOfTwo(loop, Pass(accessor), rules, [once], false);
    Entered(body, accessor, false);
    assert Exec(body, rules, p).events == [Suspend] + [Use(0)];
    MissedAlong(body, rules, p);
  }

  /** `accessor.get(await x)`: the name comes before the `await` and the call after it, but the walk looks
      at the call first. */
  lemma LateCallIsMissed(accessor: string)
    ensures Missed(Call(Method, [Ident(accessor, 0)], [WAIT]), Rules(accessor, {}, true))
  {
    var rules, body := Rules(accessor, {}, true), Call(Method, [Ident(accessor, 0)], [WAIT]);
    LeafAndIdent(rules, false, P);
    Waiting(rules, true, P);
    ListOfOne(Ident(accessor, 0), false, rules, [], false);
    ListOfOne(WAIT, true, rules, [], false);
    assert Part(P, 0) == Part(P, 1) == P;
    var events := Exec(body, rules, P).events;
    assert events == ([Use(0)] + [Suspend]) + (([Use(0)] + []) + ([] + []));
    assert WalkInside(body, accessor, false).reports == [] + [];
    assert events[1] == Suspend && events[2] == Use(0);
    assert MisusedAt(body, rules, 0);
  }

  // ----- reports without a misuse -----

  ghost predicate ReportedInVain(body: Node, rules: Rules) {
    Reports(body, rules.accessor) && !Misused(body, rules)
  }

  /** Nothing is misused if no path uses anything after it has waited. */
  lemma InVain(body: Node, rules: Rules)
    requires Reports(body, rules.accessor)
    requires forall p :: LastWait(Exec(body, rules, p).events)
    ensures ReportedInVain(body, rules)
  {
    forall at, p ensures !UsedAfterSuspend(Exec(body, rules, p).events, at) {
      assert LastWait(Exec(body, rules, p).events);
    }
  }

  /** No use follows a suspension. */
  ghost predicate LastWait(events: seq<Event>) {
    forall i, j :: 0 <= i < j < |events| && events[i] == Suspend ==> events[j] == Suspend
  }

  /** `first; f(accessor)`, where `first` sets the flag. */
  lemma PassIsReported(first: Node, rules: Rules)
    requires Walk(first, false, rules.accessor, false).saw
    ensures Reports(Block([first, Pass(rules.accessor)]), rules.accessor)
  {
    PassWalk(rules);
    ListOfTwo(first, Pass(rules.accessor), rules, [], false);
    Entered(Block([first, Pass(rules.accessor)]), rules.accessor, false);
    var w := Walk(first, false, rules.accessor, false);
    assert (w.reports + [Ident(rules.accessor, 0)])[|w.reports|] == Ident(rules.accessor, 0);
  }

  /** Every path of `first` that waits leaves the function, so `first; f(accessor)` misuses nothing. */
  lemma LeavingFirst(first: Node, rules: Rules)
    requires !rules.late && Walk(first, false, rules.accessor, false).saw
    requires forall p :: OnlyLeaves(Exec(first, rules, p))
    ensures ReportedInVain(Block([first, Pass(rules.accessor)]), rules)
  {
    var body := Block([first, Pass(rules.accessor)]);
    PassIsReported(first, rules);
    forall p ensures LastWait(Exec(body, rules, p).events) {
      assert OnlyLeaves(Exec(first, rules, Head(p.parts)));
      LeavesFirst(first, rules, p.parts);
    }
    InVain(body, rules);
  }

  lemma LeavesFirst(first: Node, rules: Rules, ps: seq<Oracle>)
    requires !rules.late && OnlyLeaves(Exec(first, rules, Head(ps)))
    ensures LastWait(ExecAll([first, Pass(rules.accessor)], rules, ps).events)
  {
    ListOfTwo(first, Pass(rules.accessor), rules, ps, false);
    Passing(rules, Head(Tail(ps)));
    UseLast(Exec(first, rules, Head(ps)), Exec(Pass(rules.accessor), rules, Head(Tail(ps))));
  }

  lemma UseLast(a: Trace, b: Trace)
    requires OnlyLeaves(a) && b == Trace([Use(0)], Normal)
    ensures LastWait(Then(a, b).events)
  {
    assert forall i :: 0 <= i < |a.events| ==> a.events[i] in a.events;
  }

  /** A path that has no use, and does not go on once it has waited. */
  ghost predicate OnlyLeaves(tr: Trace) {
    (forall e :: e in tr.events ==> e == Suspend) && (Suspend in tr.events ==> tr.end != Normal)
  }

  /** `{ await x; return; } f(accessor)`: dead code is reported. */
  lemma DeadCodeIsReported(accessor: string)
    ensures ReportedInVain(Block([Leaving(), Pass(accessor)]), Early(accessor))
  {
    var rules := Early(accessor);
    forall p ensures OnlyLeaves(Exec(Leaving(), rules, p)) { LeavingExits(rules, p); }
    LeavingExits(rules, P);
    LeavingFirst(Leaving(), rules);
  }

  /** Whatever the path, `n` waits and returns. */
  ghost predicate WaitsAndReturns(n: Node, rules: Rules) {
    && Walk(n, false, rules.accessor, false) == Out(true, [])
    && forall p :: Exec(n, rules, p) == Trace([Suspend], Returns)
  }

  lemma LeavingWaits(rules: Rules)
    ensures WaitsAndReturns(Leaving(), rules)
  {
    forall p ensures Exec(Leaving(), rules, p) == Trace([Suspend], Returns) { LeavingExits(rules, p); }
    LeavingExits(rules, P);
  }

  /** `while (c) { await x; return; } f(accessor)`: a round that waits does not get past the loop. */
  lemma LeavingRoundsAreReported(accessor: string)
    ensures ReportedInVain(Block([While(Leaving()), Pass(accessor)]), Early(accessor))
  {
    var rules := Early(accessor);
    LeavingWaits(rules);
    forall p ensures OnlyLeaves(Exec(While(Leaving()), rules, p)) { OneLeavingRound(Leaving(), rules, p); }
    WhileWalk(Leaving(), rules, false);
    LeavingFirst(While(Leaving()), rules);
  }

  lemma OneLeavingRound(b: Node, rules: Rules, p: Oracle)
    requires WaitsAndReturns(b, rules)
    ensures OnlyLeaves(Exec(While(b), rules, p))
  {
    var rounds := Part(p, 1).parts;
    WhileStep(b, rules, rounds);
    if |rounds| > 1 { assert Exec(b, rules, Part(rounds[0], 1)) == Trace([Suspend], Returns); }
    ConcatNil(ExecRounds(While(b), rules, rounds).events);
  }

  /** `switch (d) { case a: await x; return; } f(accessor)`: nor does a case that leaves the function. */
  lemma LeavingCasesAreReported(accessor: string)
    ensures ReportedInVain(Block([OneCase(Leaving()), Pass(accessor)]), Early(accessor))
  {
    var rules := Early(accessor);
    LeavingWaits(rules);
    forall p ensures OnlyLeaves(Exec(OneCase(Leaving()), rules, p)) { OneLeavingCase(Leaving(), rules, p); }
    OneCaseWalk(Leaving(), rules);
    LeavingFirst(OneCase(Leaving()), rules);
  }

  function OneCase(b: Node): Node { Switch(Leaf, [Case(Some(Leaf), [b])]) }

  lemma OneCaseWalk(b: Node, rules: Rules)
    requires WaitsAndReturns(b, rules)
    ensures Walk(OneCase(b), false, rules.accessor, false).saw
  {
    LeafAndIdent(rules, false, P);
    Entered(OneCase(b), rules.accessor, false);
    CaseWaits(b, rules);
    CasesWait(Case(Some(Leaf), [b]), rules.accessor);
  }

  lemma CasesWait(c: Case, accessor: string)
    requires WalkCase(c, accessor, false) == Out(true, [])
    ensures WalkCases([c], accessor, false, false).saw
  {
    assert [c][1..] == [];
    assert WalkCases([], accessor, false, true).saw;
  }

  lemma CaseWaits(b: Node, rules: Rules)
    requires Walk(b, false, rules.accessor, false) == Out(true, [])
    ensures WalkCase(Case(Some(Leaf), [b]), rules.accessor, false) == Out(true, [])
  {
    LeafAndIdent(rules, false, P);
    ListOfOne(b, false, rules, [], false);
  }

  lemma OneLeavingCase(b: Node, rules: Rules, p: Oracle)
    requires WaitsAndReturns(b, rules)
    ensures OnlyLeaves(Exec(OneCase(b), rules, p))
  {
    var c := Case(Some(Leaf), [b]);
    LeafAndIdent(rules, false, Part(p, 0));
    assert DefaultAt([c]) == 1 by { assert [c][1..] == []; }
    OneTest(b, rules, Part(p, 1).parts);
    OneEntered(b, rules, Part(p, 2).parts);
  }

  lemma OneTest(b: Node, rules: Rules, ps: seq<Oracle>)
    ensures forall count :: ExecTests([Case(Some(Leaf), [b])], rules, count, ps) == Nothing
  {
    assert [Case(Some(Leaf), [b])][1..] == [];
    LeafAndIdent(rules, false, Head(ps));
  }

  lemma OneEntered(b: Node, rules: Rules, ps: seq<Oracle>)
    requires WaitsAndReturns(b, rules)
    ensures ExecFrom([Case(Some(Leaf), [b])], rules, 0, ps) == Trace([Suspend], Returns)
    ensures ExecFrom([Case(Some(Leaf), [b])], rules, 1, ps) == Nothing
  {
    var from := Head(ps);
    assert [Case(Some(Leaf), [b])][1..] == [];
    LeafAndIdent(rules, false, Part(from, 0));
    ListOfOne(b, false, rules, Part(from, 1).parts, false);
    assert Exec(b, rules, Head(Part(from, 1).parts)) == Trace([Suspend], Returns);
    assert [] + [Suspend] == [Suspend];
  }

  /** `try { 1; } catch { await x; return; } f(accessor)`: nor does a handler that leaves the function. */
  lemma LeavingHandlersAreReported(accessor: string)
    ensures ReportedInVain(Block([Try(Leaf, Some(Leaving()), None), Pass(accessor)]), Early(accessor))
  {
    var rules := Early(accessor);
    LeavingWaits(rules);
    OneLeavingHandler(Leaving(), rules);
    LeavingFirst(Try(Leaf, Some(Leaving()), None), rules);
  }

  lemma OneLeavingHandler(b: Node, rules: Rules)
    requires WaitsAndReturns(b, rules)
    ensures Walk(Try(Leaf, Some(b), None), false, rules.accessor, false).saw
    ensures forall p :: OnlyLeaves(Exec(Try(Leaf, Some(b), None), rules, p))
  {
    LeafAndIdent(rules, false, P);
    Entered(Try(Leaf, Some(b), None), rules.accessor, false);
    forall p ensures OnlyLeaves(Exec(Try(Leaf, Some(b), None), rules, p)) {
      LeafAndIdent(rules, false, Part(p, 0));
      assert Exec(b, rules, Part(p, 1)) == Trace([Suspend], Returns);
    }
  }

  /** `while (c) { if (d) { await x; break; } f(accessor); }`: a branch that waits and breaks is taken to go on
      to what follows the `if`. */
  lemma BreakingBranchesAreReported(accessor: string)
    ensures ReportedInVain(While(Block([Breaking(), Pass(accessor)])), Early(accessor))
  {
    var rules, round := Early(accessor), Block([Breaking(), Pass(accessor)]);
    BreakingJumps(rules);
    PassIsReported(Breaking(), rules);
    forall p ensures BreaksOrUses(Exec(round, rules, p)) { BreakingPaths(rules, p); }
    BreakingLoop(round, rules);
  }

  ghost predicate BreaksOrUses(tr: Trace) {
    tr == Trace([Suspend], Breaks) || tr == Trace([Use(0)], Normal) || tr == Nothing
  }

  lemma BreakingLoop(round: Node, rules: Rules)
    requires Reports(round, rules.accessor) && forall p :: BreaksOrUses(Exec(round, rules, p))
    ensures ReportedInVain(While(round), rules)
  {
    WhileWalk(round, rules, false);
    forall p ensures LastWait(Exec(While(round), rules, p).events) {
      BreakingRounds(round, rules, Part(p, 1).parts);
      ConcatNil(ExecRounds(While(round), rules, Part(p, 1).parts).events);
    }
    InVain(While(round), rules);
  }

  lemma BreakingPaths(rules: Rules, p: Oracle)
    requires !rules.late
    ensures BreaksOrUses(Exec(Block([Breaking(), Pass(rules.accessor)]), rules, p))
  {
    var q := Head(p.parts);
    BreakingEither(rules, q);
    ListOfTwo(Breaking(), Pass(rules.accessor), rules, p.parts, false);
    Passing(rules, Head(Tail(p.parts)));
    ConcatNil([Use(0)]);
  }

  lemma BreakingEither(rules: Rules, q: Oracle)
    ensures Exec(Breaking(), rules, q) == Trace([Suspend], Breaks) || Exec(Breaking(), rules, q) == Nothing
  {
    LeafAndIdent(rules, false, Part(q, 0));
    Waiting(rules, false, Head(Part(q, 1).parts));
    ListOfTwo(WAIT, Break, rules, Part(q, 1).parts, false);
    ConcatNil([Suspend]);
  }

  /** Once such a loop has waited it is over. */
  lemma {:induction false} BreakingRounds(round: Node, rules: Rules, rounds: seq<Oracle>)
    requires forall p :: BreaksOrUses(Exec(round, rules, p))
    ensures LastWait(ExecRounds(While(round), rules, rounds).events)
    decreases |rounds|
  {
    WhileStep(round, rules, rounds);
    if |rounds| > 1 {
      assert BreaksOrUses(Exec(round, rules, Part(rounds[0], 1)));
      BreakingRounds(round, rules, rounds[1..]);
      RoundWaitsLast(Exec(round, rules, Part(rounds[0], 1)), ExecRounds(While(round), rules, rounds[1..]));
    }
  }

  lemma RoundWaitsLast(tr: Trace, rest: Trace)
    requires BreaksOrUses(tr) && LastWait(rest.events)
    ensures LastWait(Go(tr, rest).events)
  {
    if tr == Nothing {
      ConcatNil(rest.events);
    } else if tr == Trace([Use(0)], Normal) {
      LastWaitMore(rest.events);
    }
  }

  lemma LastWaitMore(events: seq<Event>)
    requires LastWait(events)
    ensures LastWait([Use(0)] + events)
  {
    forall i, j | 0 <= i < j < |events| + 1 && ([Use(0)] + events)[i] == Suspend
      ensures ([Use(0)] + events)[j] == Suspend
    {
      assert i > 0 && events[i - 1] == Suspend && events[j - 1] == Suspend;
    }
  }
}
