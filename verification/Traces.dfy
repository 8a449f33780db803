/**
  A run of a function as the sections it goes through.
  */
module Traces {
  import opened Common
  import opened Forms
  import opened MiniC
  import opened Expansion
  import opened MacroText
  import opened Simulation
  import opened Guarantees
  import opened Discipline
  import opened Isolation
  import opened Exactness
  import opened Functions
  import opened SmallStep

  /** One section run: which, from what state, and how it ended. */
  datatype Visit = Visit(at: nat, before: State, after: Outcome)

  /** Section p is the one a goto l leads to: the first of that name after the body. */
  ghost predicate Labelled(fn: seq<Section>, l: Label, p: nat) {
    0 < p < |fn| && fn[p].name == l && forall j :: 0 < j < p ==> fn[j].name != l
  }

  /** Control goes from the end of section i to section j: the next one, or the one jumped to. */
  ghost predicate Passes(fn: seq<Section>, i: nat, exit: Exit, j: nat) {
    || (exit.Normal? && j == i + 1 < |fn|)
    || (exit.Jumped? && Labelled(fn, exit.target, j))
  }

  /** Control leaves the function at the end of section i: after the last section, by a jump to
      a label it does not have, or in any other way. */
  ghost predicate LeavesFrom(fn: seq<Section>, i: nat, exit: Exit) {
    if exit.Normal? then i + 1 == |fn|
    else if exit.Jumped? then forall j :: 0 < j < |fn| ==> fn[j].name != exit.target
    else !exit.OutOfFuel?
  }

  /** The visits of a run from section i on, in order, of which the last one ends with o.  Each
      section runs as the small-step machine runs it. */
  ghost predicate Trace(h: Host, fn: seq<Section>, i: nat, s: State, t: seq<Visit>, o: Outcome)
    decreases |t|
  {
    && t != [] && i < |fn| && t[0].at == i && t[0].before == s && Halts(h, fn[i].body, s, t[0].after)
    && if |t| == 1 then t[0].after == o && LeavesFrom(fn, i, o.exit)
       else Passes(fn, i, t[0].after.exit, t[1].at) && Trace(h, fn, t[1].at, t[0].after.st, t[1..], o)
  }

  predicate ExpandedAll(fn: seq<Section>) { forall i :: 0 <= i < |fn| ==> Expanded(fn[i].body) }

  /** A trace of the whole function. */
  ghost predicate IsTrace(h: Host, fn: seq<Section>, s: State, t: seq<Visit>, o: Outcome) {
    Trace(h, fn, 0, s, t, o)
  }

  /** Given enough fuel, the function ends with that outcome. */
  ghost predicate Finishes(h: Host, fn: seq<Section>, s: State, o: Outcome) {
    !o.exit.OutOfFuel? && exists fuel: nat :: FinishesWithin(h, fn, s, fuel, o)
  }

  ghost predicate FinishesWithin(h: Host, fn: seq<Section>, s: State, fuel: nat, o: Outcome) {
    RunFrom(h, fn, 0, s, fuel) == o
  }

  /** From one section to the next, with the labels as Labelled has them. */
  lemma RunGoesOn(h: Host, fn: seq<Section>, i: nat, s: State, fuel: nat)
    requires i < |fn|
    ensures var a, run := Exec(h, fn[i].body, s, fuel), RunFrom(h, fn, i, s, fuel);
            && (a.exit.OutOfFuel? ==> run == a)
            && (LeavesFrom(fn, i, a.exit) ==> run == a)
            && (a.exit.Normal? && i + 1 < |fn| ==> run == RunFrom(h, fn, i + 1, a.st, fuel))
            && (a.exit.Jumped? ==> forall p: nat :: Labelled(fn, a.exit.target, p) ==>
                  run == if fuel == 0 then Outcome(OutOfFuel, a.st) else RunFrom(h, fn, p, a.st, fuel - 1))
  {
    var a := Exec(h, fn[i].body, s, fuel);
    if a.exit.Jumped? { PositionIsLabelled(fn, a.exit.target); }
    assert RunFrom(h, fn, i, s, fuel) == Proceed(h, fn, i, a, fuel);
    if a.exit.Normal? && i + 1 == |fn| { assert RunFrom(h, fn, i + 1, a.st, fuel) == Outcome(Normal, a.st); }
  }

  lemma PositionIsLabelled(fn: seq<Section>, l: Label)
    ensures Position(fn, l).Some? ==> Labelled(fn, l, Position(fn, l).value)
    ensures Position(fn, l).None? ==> forall j :: 0 < j < |fn| ==> fn[j].name != l
    ensures forall p: nat :: Labelled(fn, l, p) ==> Position(fn, l) == Some(p)
  {
    var found := Position(fn, l);
    assert found == PositionFrom(fn, l, 1);
    forall p: nat | Labelled(fn, l, p) ensures found == Some(p) {
      assert found.Some? && found.value <= p;
    }
  }

  lemma {:induction false} RunHasTrace(h: Host, fn: seq<Section>, i: nat, s: State, fuel: nat) returns (t: seq<Visit>)
    requires i < |fn| && ExpandedAll(fn) && !RunFrom(h, fn, i, s, fuel).exit.OutOfFuel?
    ensures Trace(h, fn, i, s, t, RunFrom(h, fn, i, s, fuel))
    decreases fuel, |fn| - i
  {
    var a := Exec(h, fn[i].body, s, fuel);
    var v := Visit(i, s, a);
    RunGoesOn(h, fn, i, s, fuel);
    assert Completes(h, fn[i].body, s, a);
    InterpreterIsMachine(h, fn[i].body, s, a);
    t := [v];
    if a.exit.Normal? && i + 1 < |fn| {
      var rest := RunHasTrace(h, fn, i + 1, a.st, fuel);
      t := [v] + rest;
      assert t[1..] == rest;
    } else if a.exit.Jumped? {
      PositionIsLabelled(fn, a.exit.target);
      if Position(fn, a.exit.target).Some? {
        var rest := RunHasTrace(h, fn, Position(fn, a.exit.target).value, a.st, fuel - 1);
        t := [v] + rest;
        assert t[1..] == rest;
      }
    }
  }

  lemma {:induction false} TraceHasRun(h: Host, fn: seq<Section>, i: nat, s: State, t: seq<Visit>, o: Outcome)
    returns (fuel: nat)
    requires ExpandedAll(fn) && Trace(h, fn, i, s, t, o)
    ensures RunFrom(h, fn, i, s, fuel) == o && !o.exit.OutOfFuel?
    decreases |t|
  {
    var a := t[0].after;
    InterpreterIsMachine(h, fn[i].body, s, a);
    fuel :| Exec(h, fn[i].body, s, fuel) == a;
    if |t| == 1 {
      RunGoesOn(h, fn, i, s, fuel);
    } else {
      var less := TraceHasRun(h, fn, t[1].at, a.st, t[1..], o);
      var more := fuel + less + 1;
      MoreFuel(h, fn[i].body, s, fuel, more);
      FunctionMoreFuel(h, fn, t[1].at, a.st, less, more);
      FunctionMoreFuel(h, fn, t[1].at, a.st, less, more - 1);
      RunGoesOn(h, fn, i, s, more);
      fuel := more;
    }
  }

  /** A function ends with an outcome if and only if a trace through its sections does: from the
      body on, each section followed by the next one when it completes and by the first section of
      the name when it jumps. */
  lemma RunIsTrace(h: Host, fn: seq<Section>, s: State, o: Outcome)
    requires fn != [] && ExpandedAll(fn)
    ensures Finishes(h, fn, s, o) <==> exists t :: IsTrace(h, fn, s, t, o)
  {
    if Finishes(h, fn, s, o) {
      var fuel: nat :| FinishesWithin(h, fn, s, fuel, o);
      var t := RunHasTrace(h, fn, 0, s, fuel);
      assert IsTrace(h, fn, s, t, o);
    }
    if t :| IsTrace(h, fn, s, t, o) {
      var fuel := TraceHasRun(h, fn, 0, s, t, o);
      assert FinishesWithin(h, fn, s, fuel, o);
    }
  }

  /** A handler at the end of a function runs whether the body completes or jumps to it, from the
      state the body leaves, and the function ends as the handler does. */
  lemma HandlerRuns(h: Host, body: Section, handler: Section, s: State, o: Outcome, p: Outcome)
    requires Expanded(body.body) && Expanded(handler.body)
    requires Halts(h, body.body, s, o) && (o.exit.Normal? || o.exit == Jumped(handler.name))
    requires Halts(h, handler.body, o.st, p) && p.exit != Jumped(handler.name)
    ensures Finishes(h, [body, handler], s, p)
  {
    var fn, v, w := [body, handler], Visit(0, s, o), Visit(1, o.st, p);
    assert fn[1] == handler;
    assert LeavesFrom(fn, 1, p.exit);
    assert Trace(h, fn, 1, o.st, [w], p);
    assert [v, w][1..] == [w];
    assert Labelled(fn, handler.name, 1);
    assert Passes(fn, 0, o.exit, 1);
    assert IsTrace(h, fn, s, [v, w], p);
    RunIsTrace(h, fn, s, p);
  }

  // ---------- expanded functions ----------

  lemma {:induction false} BoundIsExpanded(s: Stmt, d: bool)
    requires Bound(s, d)
    ensures Expanded(s)
  {
    match s
    case Block(items) => BoundItemsAreExpanded(items, d);
    case If(_, thn) => BoundIsExpanded(thn, d);
    case IfElse(_, thn, els) => BoundIsExpanded(thn, d); BoundIsExpanded(els, d);
    case While(_, body) => BoundIsExpanded(body, d);
    case DoWhile(body, _) => BoundIsExpanded(body, d);
    case _ =>
  }

  lemma {:induction false} BoundItemsAreExpanded(items: Items, d: bool)
    requires BoundItems(items, d)
    ensures ExpandedItems(items)
  {
    match items
    case Nil =>
    case Cons(s, tail) => BoundIsExpanded(s, d); BoundItemsAreExpanded(tail, d);
    case Local(x, _, _, tail) => BoundItemsAreExpanded(tail, d || x == EVAL_ONCE);
  }

  lemma ExpansionExpands(longBits: nat, b: Build, u: Stmt)
    ensures Expanded(Expand(longBits, b, u))
  {
    ExpansionBound(longBits, b, u, true);
    BoundIsExpanded(Expand(longBits, b, u), true);
  }

  lemma AllExpanded(longBits: nat, b: Build, fn: seq<Section>)
    ensures ExpandedAll(ExpandAll(longBits, b, fn))
  {
    forall i | 0 <= i < |fn| ensures Expanded(ExpandAll(longBits, b, fn)[i].body) {
      ExpansionExpands(longBits, b, fn[i].body);
    }
  }

  ghost predicate TracesTo(h: Host, fn: seq<Section>, s: State, exit: Exit, env: Env, calls: seq<Event>) {
    exists t, o :: IsTrace(h, fn, s, t, o) && o.exit == exit && o.st.env == env && o.st.calls == calls
  }

  lemma TracesAreEnds(h: Host, fn: seq<Section>, s: State, exit: Exit, env: Env, calls: seq<Event>)
    requires fn != [] && ExpandedAll(fn)
    ensures TracesTo(h, fn, s, exit, env, calls) <==> Ends(h, fn, s, exit, env, calls)
  {
    if TracesTo(h, fn, s, exit, env, calls) {
      var t, o :| IsTrace(h, fn, s, t, o) && o.exit == exit && o.st.env == env && o.st.calls == calls;
      RunIsTrace(h, fn, s, o);
      var fuel: nat :| FinishesWithin(h, fn, s, fuel, o);
      assert EndsWithin(h, fn, s, fuel, exit, env, calls);
    }
    if Ends(h, fn, s, exit, env, calls) {
      var fuel: nat :| EndsWithin(h, fn, s, fuel, exit, env, calls);
      var o := RunFrom(h, fn, 0, s, fuel);
      assert FinishesWithin(h, fn, s, fuel, o);
      RunIsTrace(h, fn, s, o);
    }
  }

  /** The header's promise on the small-step machine: a function that keeps the rules goes, in one
      build, through its sections to an exit with some variables and calls, if and only if it does
      in the other build. */
  lemma TracesAgree(h: Host, fn: seq<Section>, s: State, exit: Exit, env: Env, calls: seq<Event>)
    requires fn != [] && PlainAll(fn) && DisciplinedAll(h.longBits, Scopes(s.env), fn) && Clean(s.env) && Sound(s.env)
    ensures TracesTo(h, ExpandAll(h.longBits, Production, fn), s, exit, env, calls) <==>
            TracesTo(h, ExpandAll(h.longBits, Debug, fn), s, exit, env, calls)
  {
    var ps, ds := ExpandAll(h.longBits, Production, fn), ExpandAll(h.longBits, Debug, fn);
    AllExpanded(h.longBits, Production, fn);
    AllExpanded(h.longBits, Debug, fn);
    TracesAreEnds(h, ps, s, exit, env, calls);
    TracesAreEnds(h, ds, s, exit, env, calls);
    EndsAlike(h, fn, s, exit, env, calls);
  }

  /** A Require form that fails skips the rest of the body and runs the handler, in either build:
      { __Require...(arg, bail); rest } bail: handler. */
  lemma {:induction false} RequireReachesHandler(h: Host, b: Build, u: Stmt, rest: Stmt, handler: Stmt, s: State,
                                                 p: Outcome)
    requires u.Use? && u.form.Requires? && !HasAction(u.form) && PlainExpr(u.message) && Reacts(h, b, u, s)
    requires Halts(h, Expand(h.longBits, b, handler), InBuild(h, b, u, s, 0).st, p) && p.exit != Jumped(u.handler)
    ensures var body := Block(Cons(u, Cons(rest, Nil)));
            Finishes(h, ExpandAll(h.longBits, b, [Section("", body), Section(u.handler, handler)]), s, p)
  {
    var body := Block(Cons(u, Cons(rest, Nil)));
    var one, two := Expand(h.longBits, b, body), Expand(h.longBits, b, handler);
    var o := InBuild(h, b, u, s, 0);
    ExpansionExpands(h.longBits, b, body);
    ExpansionExpands(h.longBits, b, handler);
    JumpsWhenItReacts(h, b, u, s, 0);
    var tail := ExpandItems(h.longBits, b, Cons(rest, Nil));
    assert ExpandItems(h.longBits, b, Cons(u, Cons(rest, Nil))) == Cons(Expand(h.longBits, b, u), tail);
    assert one == Block(Cons(Expand(h.longBits, b, u), tail));
    assert ExecItems(h, Cons(Expand(h.longBits, b, u), tail), s, 0) == o;
    assert Exec(h, one, s, 0) == o;
    assert Completes(h, one, s, o);
    InterpreterIsMachine(h, one, s, o);
    HandlerRuns(h, Section("", one), Section(u.handler, two), s, o, p);
    assert ExpandAll(h.longBits, b, [Section("", body), Section(u.handler, handler)]) ==
           [Section("", one), Section(u.handler, two)];
  }
}
