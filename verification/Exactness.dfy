/**
  Where the builds part, exactly: one use at a time, with nothing assumed about hazards.
  */
module Exactness {
  import opened Common
  import opened Forms
  import opened MiniC
  import opened Expansion
  import opened Simulation
  import opened Guarantees
  import opened Discipline
  import opened Isolation

  function InBuild(h: Host, b: Build, u: Stmt, s: State, fuel: nat): Outcome {
    Exec(h, Expand(h.longBits, b, u), s, fuel)
  }

  // ---------- any use, in either build ----------

  predicate Copying(b: Build, f: Form) { b.Debug? && CopiesCode(f) }

  /** The state once the expansion has evaluated the argument. */
  function Measured(h: Host, b: Build, u: Stmt, s: State): State
    requires u.Use?
  {
    if Copying(b, u.form) then Copied(h, h.longBits, Probe(u.site, u.arg), s)
    else Eval(h, Probe(u.site, u.arg), s).st
  }

  /** The value the expansion tests. */
  function Code(h: Host, b: Build, u: Stmt, s: State): int
    requires u.Use?
  {
    if Copying(b, u.form) then Read(Measured(h, b, u, s).env, EVAL_ONCE) else Eval(h, Probe(u.site, u.arg), s).v
  }

  /** The expansion goes into the body of its test. */
  predicate Reacts(h: Host, b: Build, u: Stmt, s: State)
    requires u.Use?
  {
    Fails(u.form, Code(h, b, u, s))
  }

  /** The state after any message, in which an action begins. */
  function ActionStart(h: Host, b: Build, u: Stmt, s: State): State
    requires u.Use?
  {
    if b.Production? || IsQuiet(u.form) then Measured(h, b, u, s)
    else Told(h, u.form, u.arg, u.handler, u.message,
              if CopiesCode(u.form) then Code(h, b, u, s) else 0, Measured(h, b, u, s))
  }

  /** Leaving the expansion: the copy goes out of scope, and a wrapper holds jumps in. */
  function Closing(b: Build, f: Form, o: Outcome): Outcome {
    var p := if Copying(b, f) then Popped(o) else o;
    if Unwrapped(b, f) then p else Unwrap(p)
  }

  lemma CopyOnTop(h: Host, u: Stmt, s: State)
    requires u.Use? && CopiesCode(u.form)
    ensures var env := Measured(h, Debug, u, s).env;
            env.Frame? && env.name == EVAL_ONCE && Copies(env) == [env.value] + Copies(env.outer)
    ensures Scopes(Measured(h, Debug, u, s).env.outer) == Scopes(s.env)
  {
    var s0 := s.(env := Declared(h, EVAL_ONCE, h.longBits, s.env));
    var t := Eval(h, Probe(u.site, u.arg), s0);
    EvalKeepsScopes(h, Probe(u.site, u.arg), s0);
    WriteKeepsScopes(t.st.env, EVAL_ONCE, t.v);
  }

  /** Every use that is not dropped, in full: the argument, the test, the message, the reaction.
      Nothing is assumed of the argument or of the action. */
  lemma {:induction false} UseRuns(h: Host, b: Build, u: Stmt, s: State, fuel: nat)
    requires u.Use? && !u.form.DebugString? && !Dropped(b, u.form) && PlainExpr(u.message)
    ensures var act := Expand(h.longBits, b, u.action);
            InBuild(h, b, u, s, fuel) ==
            Closing(b, u.form,
                    if Reacts(h, b, u, s)
                    then ExecItems(h, Reaction(u.form, u.handler, act), ActionStart(h, b, u, s), fuel)
                    else Outcome(Normal, Measured(h, b, u, s)))
  {
    var f, a, act := u.form, Probe(u.site, u.arg), Expand(h.longBits, b, u.action);
    var body := Body(b, f, u.arg, u.handler, u.message, act);
    var s1, code := Measured(h, b, u, s), Code(h, b, u, s);
    if Copying(b, f) {
      CopyOnTop(h, u, s);
      RunCopiesAndTests(h, h.longBits, a, body, s, fuel);
    } else if Unwrapped(b, f) {
      RunClosedIf(h, Condition(f, a), body, s, fuel);
    } else {
      RunTests(h, Condition(f, a), body, s, fuel);
    }
    if b.Debug? && !IsQuiet(f) {
      BodyRuns(h, f, u.arg, u.handler, u.message, act, if CopiesCode(f) then code else 0, s1, fuel);
    }
  }

  /** Evaluating a plain argument: the user's value, narrowed in the copy, and the user's effects. */
  lemma PlainMeasured(h: Host, b: Build, u: Stmt, s: State)
    requires u.Use? && PlainExpr(u.arg)
    ensures var t, s1 := Eval(h, u.arg, s), Measured(h, b, u, s);
            && Code(h, b, u, s) == (if Copying(b, u.form) then Narrow(h.longBits, t.v) else t.v)
            && Erase(s1.env) == Erase(t.st.env) && s1.calls == t.st.calls
  {
    var r := s.(env := Erase(s.env));
    EraseTwice(s.env);
    EvalSees(h, u.arg, s, r);
    if Copying(b, u.form) {
      CopyArrives(h, u.site, u.arg, s, r);
      ReadCopy(Measured(h, b, u, s).env);
    } else {
      ArgumentArrives(h, u.site, u.arg, s, r);
    }
  }

  /** In any run of either build: a use that is not dropped evaluates its argument once, before
      its action begins, and nothing but the action evaluates another. */
  lemma {:induction false} EvaluatedOnce(h: Host, b: Build, u: Stmt, s: State, fuel: nat)
    requires u.Use? && !u.form.DebugString? && PlainExpr(u.arg) && PlainExpr(u.message)
    ensures Measured(h, b, u, s).ticks == ActionStart(h, b, u, s).ticks == s.ticks + [u.site]
    ensures InBuild(h, b, u, s, fuel).st.ticks ==
            if Dropped(b, u.form) then s.ticks
            else if Reacts(h, b, u, s) && HasAction(u.form)
            then Exec(h, Expand(h.longBits, b, u.action), ActionStart(h, b, u, s), fuel).st.ticks
            else s.ticks + [u.site]
  {
    EvalKeeps(h, u.arg, s.(ticks := s.ticks + [u.site]));
    EvalKeeps(h, u.arg, s.(ticks := s.ticks + [u.site], env := Declared(h, EVAL_ONCE, h.longBits, s.env)));
    EvalKeeps(h, MessageOf(u.form, u.message), Measured(h, b, u, s));
    if !Dropped(b, u.form) {
      if HasAction(u.form) {
        JumpRouting(h, b, u, s, fuel);
      } else {
        UseRuns(h, b, u, s, fuel);
        RunOnly(h, Goto(u.handler), ActionStart(h, b, u, s), fuel);
      }
    }
  }

  lemma EraseTwice(env: Env)
    ensures Erase(Erase(env)) == Erase(env)
  {
  }

  // ---------- where control goes ----------

  /** By the exit an action took, in a build: a Require form jumps when it completes; a wrapper
      holds in a break or continue. */
  function Routed(b: Build, f: Form, l: Label, left: Exit): Exit {
    if IsRequire(f) && left.Normal? then Jumped(l)
    else if Leaves(left) && !Unwrapped(b, f) then Normal
    else left
  }

  /** What is left of a state when the expansion is done. */
  function Closed(b: Build, f: Form, st: State): State {
    if Copying(b, f) then st.(env := Pop(st.env)) else st
  }

  /** For every form with an action, every argument and every action, in either build: the action
      runs exactly when the test fails, right after any message; then its effects are the last, and
      control goes from it where Routed says. */
  lemma {:induction false} JumpRouting(h: Host, b: Build, u: Stmt, s: State, fuel: nat)
    requires u.Use? && HasAction(u.form) && PlainExpr(u.message)
    ensures var o := Exec(h, Expand(h.longBits, b, u.action), ActionStart(h, b, u, s), fuel);
            InBuild(h, b, u, s, fuel) ==
            if Reacts(h, b, u, s) then Outcome(Routed(b, u.form, u.handler, o.exit), Closed(b, u.form, o.st))
            else Outcome(Normal, Closed(b, u.form, Measured(h, b, u, s)))
  {
    var act := Expand(h.longBits, b, u.action);
    UseRuns(h, b, u, s, fuel);
    if IsRequire(u.form) {
      RunActThenJump(h, act, u.handler, ActionStart(h, b, u, s), fuel);
    } else {
      RunSpliced(h, act, ActionStart(h, b, u, s), fuel);
    }
  }

  /** The same in terms of the unexpanded action: the routes of the Require forms and of
      __Verify_Action are those of the described meaning. */
  lemma RoutingByMeaning(h: Host, b: Build, u: Stmt, s: State, fuel: nat)
    requires u.Use? && HasAction(u.form) && !PartsOnJumps(u.form) && Plain(u) && Clean(s.env)
    requires Fails(u.form, Eval(h, u.arg, Start(s)).v)
    requires b.Production? || !Exec(h, u, Start(s), fuel).st.notes.hazard
    ensures var r1 := Test(h, u.site, u.form, u.arg, u.handler, u.message, Start(s)).st;
            InBuild(h, b, u, s, fuel).exit == Routed(b, u.form, u.handler, Exec(h, u.action, r1, fuel).exit)
  {
    RunFollows(h, b, u, s, fuel);
  }

  /** A __Verify_noErr_Action that fails in both builds: production leaves as its action leaves,
      debug holds a break or continue in; so where the action leaves alike in the two builds,
      they take the same exit if and only if it does not end in one. */
  lemma JumpsPartTheBuilds(h: Host, u: Stmt, s: State, fuel: nat)
    requires u.Use? && PartsOnJumps(u.form) && PlainExpr(u.message)
    requires Reacts(h, Production, u, s) && Reacts(h, Debug, u, s)
    ensures var lp := Exec(h, Expand(h.longBits, Production, u.action), ActionStart(h, Production, u, s), fuel).exit;
            var ld := Exec(h, Expand(h.longBits, Debug, u.action), ActionStart(h, Debug, u, s), fuel).exit;
            var p, d := InBuild(h, Production, u, s, fuel).exit, InBuild(h, Debug, u, s, fuel).exit;
            && p == lp
            && d == (if Leaves(ld) then Normal else ld)
            && (lp == ld ==> (p == d <==> !Leaves(lp)))
  {
    JumpRouting(h, Production, u, s, fuel);
    JumpRouting(h, Debug, u, s, fuel);
  }

  /** An action that meets no hazard leaves alike in the two builds. */
  lemma {:induction false} SafeActionsLeaveAlike(h: Host, u: Stmt, s: State, fuel: nat)
    requires u.Use? && PartsOnJumps(u.form) && Plain(u) && Clean(s.env)
    requires Narrow(h.longBits, Eval(h, u.arg, Start(s)).v) != 0
    requires !Exec(h, u.action, Test(h, u.site, u.form, u.arg, u.handler, u.message, Start(s)).st, fuel).st.notes.hazard
    ensures var left := Exec(h, u.action, Test(h, u.site, u.form, u.arg, u.handler, u.message, Start(s)).st, fuel).exit;
            && Exec(h, Expand(h.longBits, Production, u.action), ActionStart(h, Production, u, s), fuel).exit == left
            && Exec(h, Expand(h.longBits, Debug, u.action), ActionStart(h, Debug, u, s), fuel).exit == left
  {
    var r := Start(s);
    var r1 := Test(h, u.site, u.form, u.arg, u.handler, u.message, r).st;
    if r1.notes.hazard { HazardStays(h, u.action, r1, fuel); }
    FailedTest(h, u.site, u.form, u.arg, u.handler, u.message, r);
    ArgumentArrives(h, u.site, u.arg, s, r);
    Simulates(h, Production, s.log, u.action, ActionStart(h, Production, u, s), r1, fuel);
    EvalSees(h, u.arg, s, r);
    PlainMeasured(h, Debug, u, s);
    CopyArrives(h, u.site, u.arg, s, r);
    ToldFollows(h, s.log, u.site, u.form, u.arg, u.handler, u.message, s, Measured(h, Debug, u, s), r);
    Simulates(h, Debug, s.log, u.action, ActionStart(h, Debug, u, s), r1, fuel);
  }

  // ---------- narrowing ----------

  /** Every form that copies its error code and is not a Check reacts in the production build if
      and only if the code is not 0, in the debug build if and only if the copy is not 0; and it
      does not matter which, if and only if the code is 0 or no multiple of 2^bits.  By
      JumpRouting the action runs or does not run accordingly; without an action, so do exits. */
  lemma NarrowingPartsTheBuilds(h: Host, u: Stmt, s: State, fuel: nat)
    requires u.Use? && CopiesCode(u.form) && !IsCheck(u.form) && PlainExpr(u.arg) && PlainExpr(u.message)
    ensures var v := Eval(h, u.arg, s).v;
            && (Reacts(h, Production, u, s) <==> v != 0)
            && (Reacts(h, Debug, u, s) <==> Narrow(h.longBits, v) != 0)
            && ((Reacts(h, Production, u, s) <==> Reacts(h, Debug, u, s)) <==>
                v == 0 || !IsMultiple(v, Pow2(h.longBits)))
    ensures u.form.Requires? && !HasAction(u.form) ==>
              var v := Eval(h, u.arg, s).v;
              InBuild(h, Production, u, s, fuel).exit == InBuild(h, Debug, u, s, fuel).exit <==>
              v == 0 || !IsMultiple(v, Pow2(h.longBits))
  {
    PlainMeasured(h, Production, u, s);
    PlainMeasured(h, Debug, u, s);
    NarrowingDecides(h.longBits, Eval(h, u.arg, s).v);
    if u.form.Requires? && !HasAction(u.form) {
      JumpsWhenItReacts(h, Production, u, s, fuel);
      JumpsWhenItReacts(h, Debug, u, s, fuel);
    }
  }

  /** A Require form without an action jumps exactly when it reacts. */
  lemma {:induction false} JumpsWhenItReacts(h: Host, b: Build, u: Stmt, s: State, fuel: nat)
    requires u.Use? && u.form.Requires? && !HasAction(u.form) && PlainExpr(u.message)
    ensures InBuild(h, b, u, s, fuel).exit == if Reacts(h, b, u, s) then Jumped(u.handler) else Normal
  {
    UseRuns(h, b, u, s, fuel);
    RunOnly(h, Goto(u.handler), ActionStart(h, b, u, s), fuel);
  }

  // ---------- Check ----------

  /** What a Check does in a debug build: its argument, and its message if it fails. */
  function CheckEffect(h: Host, u: Stmt, s: State): State
    requires u.Use?
  {
    var t := Eval(h, u.arg, s).st;
    if Reacts(h, Debug, u, s) then Eval(h, MessageOf(u.form, u.message), t).st else t
  }

  lemma {:induction false} CheckActs(h: Host, u: Stmt, s: State, fuel: nat)
    requires u.Use? && u.form.Checks? && Plain(u)
    ensures var d, e := InBuild(h, Debug, u, s, fuel), CheckEffect(h, u, s);
            d.exit == Normal && Erase(d.st.env) == Erase(e.env) && d.st.calls == e.calls
  {
    UseRuns(h, Debug, u, s, fuel);
    PlainMeasured(h, Debug, u, s);
    var s1, s2 := Measured(h, Debug, u, s), ActionStart(h, Debug, u, s);
    MessageSeesAlike(h, MessageOf(u.form, u.message), s1, Eval(h, u.arg, s).st);
    if CopiesCode(u.form) {
      CopyOnTop(h, u, s);
      EvalKeepsScopes(h, MessageOf(u.form, u.message), s1);
      PopErased(s1.env);
      PopErased(s2.env);
    }
  }

  lemma PopErased(env: Env)
    ensures env.Frame? && env.name == EVAL_ONCE ==> Erase(Pop(env)) == Erase(env)
  {
  }

  lemma MessageSeesAlike(h: Host, m: Expr, s1: State, t: State)
    requires PlainExpr(m) && Erase(s1.env) == Erase(t.env) && s1.calls == t.calls
    ensures Erase(Eval(h, m, s1).st.env) == Erase(Eval(h, m, t).st.env)
    ensures Eval(h, m, s1).st.calls == Eval(h, m, t).st.calls
  {
    var r := t.(env := Erase(t.env));
    EvalSees(h, m, s1, r);
    EvalSees(h, m, t, r);
    EraseTwice(t.env);
  }

  /** The builds agree on a Check if and only if evaluating its argument, and its message where
      it fails, changes nothing in the end. */
  lemma ChecksPartTheBuilds(h: Host, u: Stmt, s: State, fuel: nat)
    requires u.Use? && u.form.Checks? && Plain(u) && Clean(s.env)
    ensures var p, d := InBuild(h, Production, u, s, fuel), InBuild(h, Debug, u, s, fuel);
            && p.exit == d.exit == Normal
            && (p.st.env == d.st.env && p.st.calls == d.st.calls <==>
                CheckEffect(h, u, s).env == s.env && CheckEffect(h, u, s).calls == s.calls)
  {
    CheckActs(h, u, s, fuel);
    ExecKeepsScopes(h, Expand(h.longBits, Debug, u), s, fuel);
    SameScopesClean(InBuild(h, Debug, u, s, fuel).st.env, s.env);
    EvalKeepsScopes(h, u.arg, s);
    EvalKeepsScopes(h, MessageOf(u.form, u.message), Eval(h, u.arg, s).st);
    SameScopesClean(CheckEffect(h, u, s).env, s.env);
  }

  // ---------- hygiene ----------

  /** Whatever runs inside an action, expanded in either build, nested however deep, every
      enclosing use finds its own copy of its error code as it left it. */
  lemma Hygiene(h: Host, b: Build, u: Stmt, s: State, fuel: nat)
    requires Plain(u)
    ensures Copies(InBuild(h, b, u, s, fuel).st.env) == Copies(s.env)
  {
    ExpansionBound(h.longBits, b, u, false);
    ExecInStep(h, Expand(h.longBits, b, u), 0, s, s, fuel);
  }

  // ---------- capture ----------

  /** Without the rule that user text leaves the name alone: whatever the argument, the message and
      the action of a copying form, its debug expansion never sees a user variable of that name and
      never changes one.  Two states that differ only in such variables are the same to it, while
      the production build reads and writes them. */
  lemma {:induction false} Capture(h: Host, u: Stmt, s: State, s': State, fuel: nat)
    requires u.Use? && CopiesCode(u.form)
    requires Erase(s.env) == Erase(s'.env) && s.calls == s'.calls && s.ticks == s'.ticks && s.log == s'.log
    ensures Code(h, Debug, u, s) == Code(h, Debug, u, s') && (Reacts(h, Debug, u, s) <==> Reacts(h, Debug, u, s'))
    ensures var o, p := InBuild(h, Debug, u, s, fuel), InBuild(h, Debug, u, s', fuel);
            && o.exit == p.exit && Erase(o.st.env) == Erase(p.st.env)
            && o.st.calls == p.st.calls && o.st.ticks == p.st.ticks && o.st.log == p.st.log
            && Copies(o.st.env) == Copies(s.env)
  {
    CodeCaptured(h, u, s, s');
    UseBound(h.longBits, Debug, u, false);
    ExecInStep(h, Expand(h.longBits, Debug, u), 0, s, s', fuel);
  }

  lemma CodeCaptured(h: Host, u: Stmt, s: State, s': State)
    requires u.Use? && CopiesCode(u.form) && Erase(s.env) == Erase(s'.env) && s.calls == s'.calls
    ensures Code(h, Debug, u, s) == Code(h, Debug, u, s')
  {
    var e := Probe(u.site, u.arg);
    var a := s.(env := Declared(h, EVAL_ONCE, h.longBits, s.env));
    var b := s'.(env := Declared(h, EVAL_ONCE, h.longBits, s'.env));
    assert Alike(0, s.env, s'.env);
    EvalInStep(h, e, 1, a, b);
    DeclaresByScopes(1, Eval(h, e, a).st.env, a.env);
    AssignInStep(1, Eval(h, e, a).st, Eval(h, e, b).st, EVAL_ONCE, Eval(h, e, a).v);
  }

  /** With the bare variable as argument the builds react alike if and only if the user's value
      and the indeterminate one happen both to be, or both not to be, 0. */
  lemma CapturedVariable(h: Host, u: Stmt, s: State)
    requires u.Use? && CopiesCode(u.form) && u.arg == Var(EVAL_ONCE)
    ensures Reacts(h, Production, u, s) <==> Read(s.env, EVAL_ONCE) != 0
    ensures Reacts(h, Debug, u, s) <==> Narrow(h.longBits, h.garbage) != 0
  {
    var s0 := s.(env := Declared(h, EVAL_ONCE, h.longBits, s.env));
    var g := Narrow(h.longBits, h.garbage);
    assert Eval(h, Probe(u.site, u.arg), s0) == Value(g, s0.(ticks := s.ticks + [u.site]));
    assert Measured(h, Debug, u, s).env == Frame(EVAL_ONCE, h.longBits, Narrow(h.longBits, g), s.env);
    NarrowInWidth(h.longBits, h.garbage);
    if g != 0 { InWidthKeepsError(h.longBits, h.longBits, g); }
    assert Eval(h, Probe(u.site, u.arg), s).v == Read(s.env, EVAL_ONCE);
  }

  // ---------- the negations ----------

  /** The form that takes an error code instead of an assertion. */
  function NoErrForm(f: Form): Form {
    match f
    case DebugString => f
    case Checks(_, given) => Checks(true, given)
    case Verifies(_, given) => Verifies(true, given)
    case VerifiesWithAction(_) => VerifiesWithAction(true)
    case Requires(_, acts, voice) => Requires(true, acts, voice)
  }

  /** __nCheck, __nVerify, __nRequire and their variants pass !(a) on. */
  predicate HasNegation(f: Form) { (f.Checks? || f.Verifies? || f.Requires?) && !f.noErr }

  /** The production expansions of the negations, and the quiet ones in either build, act on a as
      the _noErr forms do. */
  lemma {:induction false} NegationIsNoErr(h: Host, b: Build, u: Stmt, s: State, fuel: nat)
    requires u.Use? && HasNegation(u.form) && (b.Production? || IsQuiet(u.form))
    ensures InBuild(h, b, u.(arg := Not(u.arg)), s, fuel) == InBuild(h, b, u.(form := NoErrForm(u.form)), s, fuel)
  {
    if !u.form.Checks? {
      var f := NoErrForm(u.form);
      var act := Expand(h.longBits, b, u.action);
      var body := Reaction(f, u.handler, act);
      var negated, code := Not(Probe(u.site, Not(u.arg))), IsError(Probe(u.site, u.arg));
      assert Expand(h.longBits, b, u.(arg := Not(u.arg))) == Tests(negated, body);
      assert Expand(h.longBits, b, u.(form := f)) == Tests(code, body);
      var s0 := s.(ticks := s.ticks + [u.site]);
      assert Eval(h, Not(u.arg), s0) == Value(Truth(Eval(h, u.arg, s0).v == 0), Eval(h, u.arg, s0).st);
      assert Eval(h, negated, s) == Eval(h, code, s);
      RunTests(h, negated, body, s, fuel);
      RunTests(h, code, body, s, fuel);
    }
  }

  /** An environment is its declarations, the user's values and the values of the copies. */
  lemma {:induction false} EnvIsItsParts(a: Env, b: Env)
    requires Scopes(a) == Scopes(b) && Erase(a) == Erase(b) && Copies(a) == Copies(b)
    ensures a == b
  {
    match a
    case Top(_, _) =>
    case Frame(x, _, v, outer) =>
      if x == EVAL_ONCE { assert Copies(outer) == Copies(a)[1..] && Copies(b.outer) == Copies(b)[1..]; }
      EnvIsItsParts(outer, b.outer);
  }

  ghost predicate Negates(n: Stmt, e: Stmt) {
    && n.Use? && HasNegation(n.form) && !IsQuiet(n.form) && Plain(n) && n.arg.Not?
    && e == n.(form := NoErrForm(n.form), arg := n.arg.e)
  }

  lemma {:induction false} NegationStartsAlike(h: Host, n: Stmt, e: Stmt, s: State)
    requires Negates(n, e)
    ensures Twins(0, Measured(h, Debug, n, s), Measured(h, Debug, e, s))
    ensures Twins(0, ActionStart(h, Debug, n, s), ActionStart(h, Debug, e, s))
  {
    PlainMeasured(h, Debug, n, s);
    PlainMeasured(h, Debug, e, s);
    assert Eval(h, n.arg, s).st == Eval(h, e.arg, s).st;
    MessageSeesAlike(h, MessageOf(n.form, n.message), Measured(h, Debug, n, s), Measured(h, Debug, e, s));
  }

  /** The copy that a debug expansion leaves goes out of scope last, and nobody notices. */
  lemma {:induction false} ClosingAlike(h: Host, n: Stmt, e: Stmt, s: State, o: Outcome, p: Outcome)
    requires Negates(n, e) && o.exit == p.exit && Twins(0, o.st, p.st) && o.st.ticks == p.st.ticks
    requires Scopes(p.st.env) == Scopes(Measured(h, Debug, e, s).env)
    ensures var o', p' := Closing(Debug, n.form, o), Closing(Debug, e.form, p);
            && o'.exit == p'.exit && Erase(o'.st.env) == Erase(p'.st.env)
            && o'.st.calls == p'.st.calls && o'.st.ticks == p'.st.ticks
  {
    CopyOnTop(h, e, s);
    PopErased(p.st.env);
  }

  lemma {:induction false} NegationRunsAlike(h: Host, n: Stmt, e: Stmt, s: State, fuel: nat)
    requires Negates(n, e) && (Reacts(h, Debug, n, s) <==> Reacts(h, Debug, e, s))
    ensures var o, p := InBuild(h, Debug, n, s, fuel), InBuild(h, Debug, e, s, fuel);
            && o.exit == p.exit && Erase(o.st.env) == Erase(p.st.env)
            && o.st.calls == p.st.calls && o.st.ticks == p.st.ticks
  {
    UseRuns(h, Debug, n, s, fuel);
    UseRuns(h, Debug, e, s, fuel);
    EvaluatedOnce(h, Debug, n, s, fuel);
    EvaluatedOnce(h, Debug, e, s, fuel);
    NegationStartsAlike(h, n, e, s);
    var a, b := ActionStart(h, Debug, n, s), ActionStart(h, Debug, e, s);
    if Reacts(h, Debug, n, s) {
      var act := Expand(h.longBits, Debug, n.action);
      var items := Reaction(n.form, n.handler, act);
      assert items == Reaction(e.form, e.handler, act);
      ExpansionBound(h.longBits, Debug, n.action, false);
      ReactionBound(n.form, n.handler, act, false);
      ItemsInStep(h, items, 0, a, b, fuel);
      ItemsKeepScopes(h, items, b, fuel);
      EvalKeepsScopes(h, MessageOf(e.form, e.message), Measured(h, Debug, e, s));
      ClosingAlike(h, n, e, s, ExecItems(h, items, a, fuel), ExecItems(h, items, b, fuel));
    } else {
      ClosingAlike(h, n, e, s, Outcome(Normal, Measured(h, Debug, n, s)), Outcome(Normal, Measured(h, Debug, e, s)));
    }
  }

  /** A telling one in a debug build reacts as its _noErr form does if and only if the error is not
      lost in the copy.  Then the two differ in nothing but what they log. */
  lemma {:induction false} TellingNegationIsNoErr(h: Host, u: Stmt, s: State, fuel: nat)
    requires u.Use? && HasNegation(u.form) && !IsQuiet(u.form) && Plain(u)
    ensures var n, e := u.(arg := Not(u.arg)), u.(form := NoErrForm(u.form));
            var v := Eval(h, u.arg, s).v;
            && ((Reacts(h, Debug, n, s) <==> Reacts(h, Debug, e, s)) <==> v == 0 || !IsMultiple(v, Pow2(h.longBits)))
            && ((Reacts(h, Debug, n, s) <==> Reacts(h, Debug, e, s)) ==>
                AllButLog(InBuild(h, Debug, n, s, fuel), InBuild(h, Debug, e, s, fuel)))
  {
    var n, e := u.(arg := Not(u.arg)), u.(form := NoErrForm(u.form));
    PlainMeasured(h, Debug, n, s);
    PlainMeasured(h, Debug, e, s);
    assert Eval(h, Not(u.arg), s) == Value(Truth(Eval(h, u.arg, s).v == 0), Eval(h, u.arg, s).st);
    NarrowingDecides(h.longBits, Eval(h, u.arg, s).v);
    if Reacts(h, Debug, n, s) <==> Reacts(h, Debug, e, s) {
      NegationRunsAlike(h, n, e, s, fuel);
      Hygiene(h, Debug, n, s, fuel);
      Hygiene(h, Debug, e, s, fuel);
      ExecKeepsScopes(h, Expand(h.longBits, Debug, n), s, fuel);
      ExecKeepsScopes(h, Expand(h.longBits, Debug, e), s, fuel);
      EnvIsItsParts(InBuild(h, Debug, n, s, fuel).st.env, InBuild(h, Debug, e, s, fuel).st.env);
    }
  }

  predicate AllButLog(o: Outcome, p: Outcome) {
    o.exit == p.exit && o.st.env == p.st.env && o.st.calls == p.st.calls && o.st.ticks == p.st.ticks
  }
}
