/**
  A run of either expansion follows the run of the unexpanded program step for step.
  */
module Simulation {
  import opened Common
  import opened Forms
  import opened MiniC
  import opened Expansion

  // ---------- variables, with the macros' own local out of sight ----------

  function Erase(env: Env): Env {
    match env
    case Top(_, _) => env
    case Frame(x, bits, v, outer) =>
      if x == EVAL_ONCE then Erase(outer) else Frame(x, bits, v, Erase(outer))
  }

  lemma EraseRead(env: Env, x: Name)
    requires x != EVAL_ONCE
    ensures Read(Erase(env), x) == Read(env, x)
  {
  }

  lemma EraseWrite(env: Env, x: Name, v: int)
    requires x != EVAL_ONCE
    ensures Erase(Write(env, x, v)) == Write(Erase(env), x, v)
  {
  }

  lemma {:induction false} EraseGlobals(env: Env, g: map<Name, int>)
    ensures Globals(Erase(env)) == Globals(env)
    ensures Erase(WithGlobals(env, g)) == WithGlobals(Erase(env), g)
  {
    match env
    case Top(_, _) =>
    case Frame(_, _, _, outer) => EraseGlobals(outer, g);
  }

  // ---------- expressions ----------

  /** The same variables and the same calls, as far as the user can tell. */
  ghost predicate Sees(s: State, r: State) {
    Erase(s.env) == r.env && s.calls == r.calls
  }

  lemma EvalKeeps(h: Host, e: Expr, s: State)
    ensures Eval(h, e, s).st.log == s.log
    ensures Eval(h, e, s).st.notes == s.notes
    ensures PlainExpr(e) ==> Eval(h, e, s).st.ticks == s.ticks
  {
  }

  lemma {:induction false} EvalSees(h: Host, e: Expr, s: State, r: State)
    requires PlainExpr(e) && Sees(s, r)
    ensures Eval(h, e, s).v == Eval(h, e, r).v
    ensures Sees(Eval(h, e, s).st, Eval(h, e, r).st)
  {
    match e
    case Const(_) =>
    case Var(x) => EraseRead(s.env, x);
    case Set(x, e1) =>
      EvalSees(h, e1, s, r);
      var a := Eval(h, e1, s);
      EraseWrite(a.st.env, x, a.v);
      EraseRead(Write(a.st.env, x, a.v), x);
    case Cast(_, e1) => EvalSees(h, e1, s, r);
    case Not(e1) => EvalSees(h, e1, s, r);
    case IsError(e1) => EvalSees(h, e1, s, r);
    case Bin(_, _, e1, e2) =>
      EvalSees(h, e1, s, r);
      EvalSees(h, e2, Eval(h, e1, s).st, Eval(h, e1, r).st);
    case And(e1, e2) =>
      EvalSees(h, e1, s, r);
      EvalSees(h, e2, Eval(h, e1, s).st, Eval(h, e1, r).st);
    case Call(f, bits, e1) =>
      EvalSees(h, e1, s, r);
      var a, b := Eval(h, e1, s), Eval(h, e1, r);
      var calls := a.st.calls + [Called(f, a.v)];
      EraseGlobals(a.st.env, h.external(calls, Globals(a.st.env)).1);
  }

  // ---------- the relation ----------

  /** `s` is a state of an expanded run and `r` of the unexpanded one.  A production run has
      evaluated the tested arguments and keeps the log it started with, `log0`; a debug run has
      evaluated every argument reached and logged every message owed. */
  ghost predicate Follows(b: Build, log0: seq<Message>, s: State, r: State) {
    && Sees(s, r)
    && s.ticks == (if b.Debug? then r.notes.reached else r.notes.tested)
    && s.log == (if b.Debug? then r.notes.failed else log0)
  }

  lemma EvalFollows(h: Host, b: Build, log0: seq<Message>, e: Expr, s: State, r: State)
    requires PlainExpr(e) && Follows(b, log0, s, r)
    ensures Eval(h, e, s).v == Eval(h, e, r).v
    ensures Follows(b, log0, Eval(h, e, s).st, Eval(h, e, r).st)
    ensures Eval(h, e, r).st.notes == r.notes
  {
    EvalSees(h, e, s, r);
    EvalKeeps(h, e, s);
    EvalKeeps(h, e, r);
  }

  // ---------- once a hazard, always a hazard ----------

  lemma TestKeepsHazard(h: Host, site: nat, f: Form, arg: Expr, l: Label, m: Expr, r: State)
    requires r.notes.hazard
    ensures Test(h, site, f, arg, l, m, r).st.notes.hazard
  {
  }

  lemma {:induction false} HazardStays(h: Host, s: Stmt, r: State, fuel: nat)
    requires r.notes.hazard
    ensures Exec(h, s, r, fuel).st.notes.hazard
    decreases fuel, s
  {
    match s
    case Empty =>
    case Expression(e) => EvalKeeps(h, e, r);
    case Block(items) => HazardStaysItems(h, items, r, fuel);
    case If(c, thn) =>
      EvalKeeps(h, c, r);
      HazardStays(h, thn, Eval(h, c, r).st, fuel);
    case IfElse(c, thn, els) =>
      EvalKeeps(h, c, r);
      HazardStays(h, thn, Eval(h, c, r).st, fuel);
      HazardStays(h, els, Eval(h, c, r).st, fuel);
    case While(c, body) =>
      EvalKeeps(h, c, r);
      HazardStays(h, body, Eval(h, c, r).st, fuel);
      if fuel > 0 { HazardStays(h, s, Exec(h, body, Eval(h, c, r).st, fuel).st, fuel - 1); }
    case DoWhile(body, c) =>
      HazardStays(h, body, r, fuel);
      var o := Exec(h, body, r, fuel);
      EvalKeeps(h, c, o.st);
      if fuel > 0 { HazardStays(h, s, Eval(h, c, o.st).st, fuel - 1); }
    case Return(e) => EvalKeeps(h, e, r);
    case Report(_, _, m, c) => EvalKeeps(h, m, r); EvalKeeps(h, c, Eval(h, m, r).st);
    case Use(site, f, arg, l, m, action) =>
      TestKeepsHazard(h, site, f, arg, l, m, r);
      HazardStays(h, action, Test(h, site, f, arg, l, m, r).st, fuel);
    case _ =>
  }

  lemma {:induction false} HazardStaysItems(h: Host, items: Items, r: State, fuel: nat)
    requires r.notes.hazard
    ensures ExecItems(h, items, r, fuel).st.notes.hazard
    decreases fuel, items
  {
    match items
    case Nil =>
    case Cons(s, tail) =>
      HazardStays(h, s, r, fuel);
      HazardStaysItems(h, tail, Exec(h, s, r, fuel).st, fuel);
    case Local(x, bits, init, tail) =>
      var r1 := r.(env := Declared(h, x, bits, r.env));
      EvalKeeps(h, init, r1);
      var t := Eval(h, init, r1);
      HazardStaysItems(h, tail, t.st.(env := Write(t.st.env, x, t.v)), fuel);
  }

  // ---------- running the pieces of a replacement list ----------

  /** Leaving `do ... while (0)`: a break or continue goes no further. */
  function Unwrap(o: Outcome): Outcome {
    if o.exit.Broke? || o.exit.Continued? then Outcome(Normal, o.st) else o
  }

  lemma RunWrapper(h: Host, items: Items, s: State, fuel: nat)
    ensures Exec(h, Wrapper(items), s, fuel) == Unwrap(ExecItems(h, items, s, fuel))
  {
    assert Exec(h, Block(items), s, fuel) == ExecItems(h, items, s, fuel);
  }

  lemma RunOnly(h: Host, s: Stmt, st: State, fuel: nat)
    ensures ExecItems(h, Only(s), st, fuel) == Exec(h, s, st, fuel)
  {
    var o := Exec(h, s, st, fuel);
    assert ExecItems(h, Nil, o.st, fuel) == Outcome(Normal, o.st);
  }

  lemma RunTests(h: Host, c: Expr, body: Items, s: State, fuel: nat)
    ensures var t := Eval(h, c, s);
            Exec(h, Tests(c, body), s, fuel) ==
            if t.v == 0 then Outcome(Normal, t.st) else Unwrap(ExecItems(h, body, t.st, fuel))
  {
    var guarded := If(c, Block(body));
    RunWrapper(h, Only(guarded), s, fuel);
    RunOnly(h, guarded, s, fuel);
    assert Exec(h, Block(body), Eval(h, c, s).st, fuel) == ExecItems(h, body, Eval(h, c, s).st, fuel);
  }

  lemma RunClosedIf(h: Host, c: Expr, body: Items, s: State, fuel: nat)
    ensures var t := Eval(h, c, s);
            Exec(h, ClosedIf(c, body), s, fuel) ==
            if t.v == 0 then Outcome(Normal, t.st) else ExecItems(h, body, t.st, fuel)
  {
    var t := Eval(h, c, s);
    RunWrapper(h, Nil, t.st, fuel);
    assert Exec(h, Block(body), t.st, fuel) == ExecItems(h, body, t.st, fuel);
  }

  /** The state in which a debug expansion tests its copy of the error code. */
  function Copied(h: Host, bits: nat, e: Expr, s: State): State {
    var t := Eval(h, e, s.(env := Declared(h, EVAL_ONCE, bits, s.env)));
    t.st.(env := Write(t.st.env, EVAL_ONCE, t.v))
  }

  function Popped(o: Outcome): Outcome {
    Outcome(o.exit, o.st.(env := Pop(o.st.env)))
  }

  lemma RunCopiesAndTests(h: Host, bits: nat, e: Expr, body: Items, s: State, fuel: nat)
    ensures var s1 := Copied(h, bits, e, s);
            Exec(h, CopiesAndTests(bits, e, body), s, fuel) ==
            Unwrap(Popped(if Read(s1.env, EVAL_ONCE) == 0 then Outcome(Normal, s1)
                          else ExecItems(h, body, s1, fuel)))
  {
    var guarded := If(IsError(Var(EVAL_ONCE)), Block(body));
    var s1 := Copied(h, bits, e, s);
    RunWrapper(h, Local(EVAL_ONCE, bits, e, Only(guarded)), s, fuel);
    RunOnly(h, guarded, s1, fuel);
    assert Eval(h, IsError(Var(EVAL_ONCE)), s1) == Value(Truth(Read(s1.env, EVAL_ONCE) != 0), s1);
    assert Exec(h, Block(body), s1, fuel) == ExecItems(h, body, s1, fuel);
  }

  lemma RunSpliced(h: Host, action: Stmt, s: State, fuel: nat)
    ensures ExecItems(h, Spliced(action), s, fuel) == Exec(h, action, s, fuel)
  {
    var o := Exec(h, action, s, fuel);
    RunOnly(h, action, s, fuel);
    RunOnly(h, Empty, o.st, fuel);
  }

  lemma RunActThenJump(h: Host, action: Stmt, l: Label, s: State, fuel: nat)
    ensures var o := Exec(h, action, s, fuel);
            ExecItems(h, ActThenJump(action, l), s, fuel) ==
            if o.exit.Normal? then Outcome(Jumped(l), o.st) else o
  {
    var o := Exec(h, action, s, fuel);
    RunSpliced(h, action, s, fuel);
    assert Exec(h, Block(Spliced(action)), s, fuel) == o;
    RunOnly(h, Goto(l), o.st, fuel);
  }

  lemma RunTell(h: Host, text: Text, at: Option<Label>, m: Expr, c: Expr, rest: Items, s: State, fuel: nat)
    ensures var a := Eval(h, m, s);
            var b := Eval(h, c, a.st);
            ExecItems(h, Tell(text, at, m, c, rest), s, fuel) ==
            ExecItems(h, rest, b.st.(log := b.st.log + [Message(text, at, a.v, b.v)]), fuel)
  {
    var o := Exec(h, Report(text, at, m, c), s, fuel);
    assert Exec(h, Empty, o.st, fuel) == Outcome(Normal, o.st);
    assert ExecItems(h, Cons(Empty, rest), o.st, fuel) == ExecItems(h, rest, o.st, fuel);
  }

  // ---------- scopes close as they opened ----------

  /** The declarations in scope, without their values. */
  function Scopes(env: Env): Env {
    match env
    case Top(_, w) => Top(map[], w)
    case Frame(x, bits, _, outer) => Frame(x, bits, 0, Scopes(outer))
  }

  lemma WriteKeepsScopes(env: Env, x: Name, v: int)
    ensures Scopes(Write(env, x, v)) == Scopes(env)
  {
  }

  lemma GlobalsKeepScopes(env: Env, g: map<Name, int>)
    ensures Scopes(WithGlobals(env, g)) == Scopes(env)
  {
  }

  lemma {:induction false} EvalKeepsScopes(h: Host, e: Expr, s: State)
    ensures Scopes(Eval(h, e, s).st.env) == Scopes(s.env)
    decreases e
  {
    match e
    case Const(_) =>
    case Var(_) =>
    case Set(x, e1) =>
      EvalKeepsScopes(h, e1, s);
      WriteKeepsScopes(Eval(h, e1, s).st.env, x, Eval(h, e1, s).v);
    case Cast(_, e1) => EvalKeepsScopes(h, e1, s);
    case Not(e1) => EvalKeepsScopes(h, e1, s);
    case IsError(e1) => EvalKeepsScopes(h, e1, s);
    case Bin(_, _, e1, e2) => EvalKeepsScopes(h, e1, s); EvalKeepsScopes(h, e2, Eval(h, e1, s).st);
    case And(e1, e2) => EvalKeepsScopes(h, e1, s); EvalKeepsScopes(h, e2, Eval(h, e1, s).st);
    case Call(f, bits, e1) =>
      EvalKeepsScopes(h, e1, s);
      var r := Eval(h, e1, s);
      GlobalsKeepScopes(r.st.env, h.external(r.st.calls + [Called(f, r.v)], Globals(r.st.env)).1);
    case Probe(site, e1) => EvalKeepsScopes(h, e1, s.(ticks := s.ticks + [site]));
  }

  lemma {:induction false} ExecKeepsScopes(h: Host, s: Stmt, st: State, fuel: nat)
    ensures Scopes(Exec(h, s, st, fuel).st.env) == Scopes(st.env)
    decreases fuel, s
  {
    match s
    case Empty =>
    case Expression(e) => EvalKeepsScopes(h, e, st);
    case Block(items) => ItemsKeepScopes(h, items, st, fuel);
    case If(c, thn) =>
      EvalKeepsScopes(h, c, st);
      ExecKeepsScopes(h, thn, Eval(h, c, st).st, fuel);
    case IfElse(c, thn, els) =>
      EvalKeepsScopes(h, c, st);
      ExecKeepsScopes(h, thn, Eval(h, c, st).st, fuel);
      ExecKeepsScopes(h, els, Eval(h, c, st).st, fuel);
    case While(c, body) =>
      EvalKeepsScopes(h, c, st);
      ExecKeepsScopes(h, body, Eval(h, c, st).st, fuel);
      if fuel > 0 { ExecKeepsScopes(h, s, Exec(h, body, Eval(h, c, st).st, fuel).st, fuel - 1); }
    case DoWhile(body, c) =>
      ExecKeepsScopes(h, body, st, fuel);
      var o := Exec(h, body, st, fuel);
      EvalKeepsScopes(h, c, o.st);
      if fuel > 0 { ExecKeepsScopes(h, s, Eval(h, c, o.st).st, fuel - 1); }
    case Return(e) => EvalKeepsScopes(h, e, st);
    case Report(_, _, m, c) => EvalKeepsScopes(h, m, st); EvalKeepsScopes(h, c, Eval(h, m, st).st);
    case Use(site, f, arg, l, m, action) =>
      EvalKeepsScopes(h, arg, st);
      ExecKeepsScopes(h, action, Test(h, site, f, arg, l, m, st).st, fuel);
    case _ =>
  }

  lemma {:induction false} ItemsKeepScopes(h: Host, items: Items, st: State, fuel: nat)
    ensures Scopes(ExecItems(h, items, st, fuel).st.env) == Scopes(st.env)
    decreases fuel, items
  {
    match items
    case Nil =>
    case Cons(s, tail) =>
      ExecKeepsScopes(h, s, st, fuel);
      ItemsKeepScopes(h, tail, Exec(h, s, st, fuel).st, fuel);
    case Local(x, bits, init, tail) =>
      var s1 := st.(env := Declared(h, x, bits, st.env));
      var t := Eval(h, init, s1);
      EvalKeepsScopes(h, init, s1);
      WriteKeepsScopes(t.st.env, x, t.v);
      ItemsKeepScopes(h, tail, t.st.(env := Write(t.st.env, x, t.v)), fuel);
  }

  // ---------- hygiene ----------

  /** The values of the macros' own locals, innermost first. */
  function Copies(env: Env): seq<int> {
    match env
    case Top(_, _) => []
    case Frame(x, _, v, outer) => if x == EVAL_ONCE then [v] + Copies(outer) else Copies(outer)
  }

  /** Never assigns to the macros' own local.  Declaring it is another matter. */
  predicate Spares(e: Expr) {
    match e
    case Const(_) => true
    case Var(_) => true
    case Set(x, e1) => x != EVAL_ONCE && Spares(e1)
    case Cast(_, e1) => Spares(e1)
    case Not(e1) => Spares(e1)
    case IsError(e1) => Spares(e1)
    case Bin(_, _, e1, e2) => Spares(e1) && Spares(e2)
    case And(e1, e2) => Spares(e1) && Spares(e2)
    case Call(_, _, e1) => Spares(e1)
    case Probe(_, e1) => Spares(e1)
  }

  lemma PlainSpares(e: Expr)
    requires PlainExpr(e)
    ensures Spares(e)
  {
  }

  lemma WriteKeepsCopies(env: Env, x: Name, v: int)
    requires x != EVAL_ONCE
    ensures Copies(Write(env, x, v)) == Copies(env)
  {
  }

  lemma {:induction false} GlobalsKeepCopies(env: Env, g: map<Name, int>)
    ensures Copies(WithGlobals(env, g)) == Copies(env)
  {
    match env
    case Top(_, _) =>
    case Frame(_, _, _, outer) => GlobalsKeepCopies(outer, g);
  }

  lemma {:induction false} EvalKeepsCopies(h: Host, e: Expr, s: State)
    requires Spares(e)
    ensures Copies(Eval(h, e, s).st.env) == Copies(s.env)
    decreases e
  {
    match e
    case Const(_) =>
    case Var(_) =>
    case Set(x, e1) =>
      EvalKeepsCopies(h, e1, s);
      WriteKeepsCopies(Eval(h, e1, s).st.env, x, Eval(h, e1, s).v);
    case Cast(_, e1) => EvalKeepsCopies(h, e1, s);
    case Not(e1) => EvalKeepsCopies(h, e1, s);
    case IsError(e1) => EvalKeepsCopies(h, e1, s);
    case Bin(_, _, e1, e2) => EvalKeepsCopies(h, e1, s); EvalKeepsCopies(h, e2, Eval(h, e1, s).st);
    case And(e1, e2) => EvalKeepsCopies(h, e1, s); EvalKeepsCopies(h, e2, Eval(h, e1, s).st);
    case Call(f, bits, e1) =>
      EvalKeepsCopies(h, e1, s);
      var r := Eval(h, e1, s);
      GlobalsKeepCopies(r.st.env, h.external(r.st.calls + [Called(f, r.v)], Globals(r.st.env)).1);
    case Probe(site, e1) => EvalKeepsCopies(h, e1, s.(ticks := s.ticks + [site]));
  }

  lemma ReadCopy(env: Env)
    ensures Copies(env) != [] ==> Read(env, EVAL_ONCE) == Copies(env)[0]
  {
  }

  // ---------- one use ----------

  /** The outcome of an expanded run against that of the unexpanded run: a production run
      always follows, a debug run follows unless there was a hazard. */
  ghost predicate Tracks(b: Build, log0: seq<Message>, o: Outcome, p: Outcome) {
    b.Production? || !p.st.notes.hazard ==> o.exit == p.exit && Follows(b, log0, o.st, p.st)
  }

  /** The state in which an expansion has evaluated the argument of the use and nothing more. */
  ghost predicate Arrived(site: nat, s: State, s1: State, t: State) {
    && Sees(s1, t)
    && s1.ticks == s.ticks + [site]
    && s1.log == s.log
  }

  lemma ArgumentArrives(h: Host, site: nat, arg: Expr, s: State, r: State)
    requires PlainExpr(arg) && Sees(s, r)
    ensures var a, t := Eval(h, Probe(site, arg), s), Eval(h, arg, r);
            a.v == t.v && Arrived(site, s, a.st, t.st)
  {
    var s0 := s.(ticks := s.ticks + [site]);
    EvalSees(h, arg, s0, r);
    EvalKeeps(h, arg, s0);
  }

  lemma CopyArrives(h: Host, site: nat, arg: Expr, s: State, r: State)
    requires PlainExpr(arg) && Sees(s, r)
    ensures var s1, t := Copied(h, h.longBits, Probe(site, arg), s), Eval(h, arg, r);
            && Arrived(site, s, s1, t.st)
            && s1.env.Frame? && s1.env.name == EVAL_ONCE
            && Copies(s1.env) == [Narrow(h.longBits, t.v)] + Copies(s.env)
            && Scopes(s1.env.outer) == Scopes(s.env)
  {
    var s0 := s.(env := Declared(h, EVAL_ONCE, h.longBits, s.env));
    ArgumentArrives(h, site, arg, s0, r);
    EvalKeepsScopes(h, Probe(site, arg), s0);
    PlainSpares(arg);
    EvalKeepsCopies(h, Probe(site, arg), s0);
    var e := Eval(h, Probe(site, arg), s0).st.env;
    assert e.Frame? && e.name == EVAL_ONCE && Copies(e)[1..] == Copies(e.outer);
    assert Copies(s0.env)[1..] == Copies(s.env);
  }

  function CodeOf(h: Host, f: Form, v: int): int {
    if CopiesCode(f) then Narrow(h.longBits, v) else 0
  }

  /** What a test that fails without a hazard leaves behind. */
  lemma FailedTest(h: Host, site: nat, f: Form, arg: Expr, l: Label, m: Expr, r: State)
    requires !f.DebugString? && Fails(f, Eval(h, arg, r).v)
    ensures var t, r1 := Eval(h, arg, r), Test(h, site, f, arg, l, m, r).st;
            && r1.notes.reached == r.notes.reached + [site]
            && (!IsCheck(f) ==> r1.notes.tested == r.notes.tested + [site])
            && (!IsCheck(f) ==> r1.env == t.st.env && r1.calls == t.st.calls)
            && (!r1.notes.hazard && IsCheck(f) ==> r1.env == t.st.env && r1.calls == t.st.calls)
            && (IsQuiet(f) ==> r1.notes.failed == r.notes.failed)
            && (!IsQuiet(f) ==>
                  var said := Eval(h, MessageOf(f, m), t.st).v;
                  r1.notes.failed == r.notes.failed + [Message(TextOf(f, arg), LabelOf(f, l), said, CodeOf(h, f, t.v))])
            && (!r1.notes.hazard && !IsQuiet(f) ==> Eval(h, MessageOf(f, m), t.st).st == t.st)
  {
  }

  lemma PassedTestFollows(h: Host, b: Build, log0: seq<Message>, site: nat, f: Form, arg: Expr, l: Label, m: Expr,
                          s: State, s1: State, r: State)
    requires Follows(b, log0, s, r) && Arrived(site, s, s1, Eval(h, arg, r).st)
    requires !f.DebugString? && !Dropped(b, f) && !Fails(f, Eval(h, arg, r).v)
    requires b.Production? || !Test(h, site, f, arg, l, m, r).st.notes.hazard
    ensures Follows(b, log0, s1, Test(h, site, f, arg, l, m, r).st)
  {
    EvalKeeps(h, arg, r);
  }

  /** The state after the message of a debug expansion. */
  function Told(h: Host, f: Form, arg: Expr, l: Label, m: Expr, code: int, s1: State): State {
    var a := Eval(h, MessageOf(f, m), s1);
    a.st.(log := a.st.log + [Message(TextOf(f, arg), LabelOf(f, l), a.v, code)])
  }

  /** Running the body of a debug expansion as far as its reaction. */
  lemma BodyRuns(h: Host, f: Form, arg: Expr, l: Label, m: Expr, act: Stmt, code: int, s1: State, fuel: nat)
    requires PlainExpr(m) && !IsQuiet(f)
    requires if CopiesCode(f) then Copies(s1.env) != [] && Copies(s1.env)[0] == code else code == 0
    ensures ExecItems(h, Body(Debug, f, arg, l, m, act), s1, fuel) ==
            ExecItems(h, Reaction(f, l, act), Told(h, f, arg, l, m, code, s1), fuel)
  {
    var text := MessageOf(f, m);
    RunTell(h, TextOf(f, arg), LabelOf(f, l), text, if CopiesCode(f) then Var(EVAL_ONCE) else Const(0),
            Reaction(f, l, act), s1, fuel);
    PlainSpares(text);
    EvalKeepsCopies(h, text, s1);
    ReadCopy(Eval(h, text, s1).st.env);
  }

  /** The message, when one is due, is the one owed, and telling it leaves the program alone. */
  lemma ToldFollows(h: Host, log0: seq<Message>, site: nat, f: Form, arg: Expr, l: Label, m: Expr,
                    s: State, s1: State, r: State)
    requires PlainExpr(arg) && PlainExpr(m) && Follows(Debug, log0, s, r)
    requires !f.DebugString? && !IsQuiet(f) && Fails(f, Eval(h, arg, r).v)
    requires Arrived(site, s, s1, Eval(h, arg, r).st)
    requires !Test(h, site, f, arg, l, m, r).st.notes.hazard
    ensures Follows(Debug, log0, Told(h, f, arg, l, m, CodeOf(h, f, Eval(h, arg, r).v), s1),
                    Test(h, site, f, arg, l, m, r).st)
  {
    FailedTest(h, site, f, arg, l, m, r);
    EvalSees(h, MessageOf(f, m), s1, Eval(h, arg, r).st);
    EvalKeeps(h, MessageOf(f, m), s1);
  }

  /** What happens after the message: the action, then the jump. */
  lemma ReactionTracks(h: Host, b: Build, log0: seq<Message>, f: Form, l: Label, act: Stmt, action: Stmt,
                       s2: State, r1: State, fuel: nat)
    requires Follows(b, log0, s2, r1)
    requires HasAction(f) ==> Tracks(b, log0, Exec(h, act, s2, fuel), Exec(h, action, r1, fuel))
    ensures var o := ExecItems(h, Reaction(f, l, act), s2, fuel);
            var p := if HasAction(f) then Finish(f, l, Exec(h, action, r1, fuel))
                     else Outcome(if IsRequire(f) then Jumped(l) else Normal, r1);
            && (Unwrapped(b, f) ==> Tracks(b, log0, o, p))
            && (!Unwrapped(b, f) ==> Tracks(b, log0, Unwrap(o), p))
  {
    if IsRequire(f) {
      if HasAction(f) { RunActThenJump(h, act, l, s2, fuel); } else { RunOnly(h, Goto(l), s2, fuel); }
    } else if HasAction(f) {
      RunSpliced(h, act, s2, fuel);
    }
  }

  // ---------- whole programs ----------

  /** __Debug_String, and the Check forms in a production build. */
  lemma {:induction false} DroppedTracks(h: Host, b: Build, log0: seq<Message>, u: Stmt, s: State, r: State, fuel: nat)
    requires u.Use? && Plain(u) && Follows(b, log0, s, r)
    requires u.form.DebugString? || (b.Production? && IsCheck(u.form))
    ensures Tracks(b, log0, Exec(h, Expand(h.longBits, b, u), s, fuel), Exec(h, u, r, fuel))
  {
    if b.Debug? {
      EvalSees(h, u.message, s, r);
      EvalKeeps(h, u.message, s);
      var told := Tell(NoText, None, u.message, Const(0), Nil);
      RunTell(h, NoText, None, u.message, Const(0), Nil, s, fuel);
      RunWrapper(h, told, s, fuel);
    }
  }

  /** Dropping the copy of the error code changes nothing the user can see. */
  lemma PoppedTracks(log0: seq<Message>, o: Outcome, p: Outcome, env: Env)
    requires env.Frame? && env.name == EVAL_ONCE && Scopes(o.st.env) == Scopes(env)
    requires Tracks(Debug, log0, Unwrap(o), p)
    ensures Tracks(Debug, log0, Unwrap(Popped(o)), p)
  {
    assert Erase(Pop(o.st.env)) == Erase(o.st.env);
  }

  /** The body of a debug expansion whose copy of the error code is not 0. */
  lemma {:induction false} CopyFailed(h: Host, log0: seq<Message>, u: Stmt, s: State, r: State, fuel: nat)
    requires u.Use? && Plain(u) && Follows(Debug, log0, s, r)
    requires CopiesCode(u.form) && Eval(h, u.arg, r).v != 0
    requires !Test(h, u.site, u.form, u.arg, u.handler, u.message, r).st.notes.hazard
    ensures var s1 := Copied(h, h.longBits, Probe(u.site, u.arg), s);
            var body := Body(Debug, u.form, u.arg, u.handler, u.message, Expand(h.longBits, Debug, u.action));
            Tracks(Debug, log0, Unwrap(ExecItems(h, body, s1, fuel)), Exec(h, u, r, fuel))
    decreases fuel, u, 0
  {
    var Use(site, f, arg, l, m, action) := u;
    var act := Expand(h.longBits, Debug, action);
    var s1, code := Copied(h, h.longBits, Probe(site, arg), s), Narrow(h.longBits, Eval(h, arg, r).v);
    CopyArrives(h, site, arg, s, r);
    var r1 := Test(h, site, f, arg, l, m, r).st;
    var s2 := Told(h, f, arg, l, m, code, s1);
    BodyRuns(h, f, arg, l, m, act, code, s1, fuel);
    ToldFollows(h, log0, site, f, arg, l, m, s, s1, r);
    if HasAction(f) { Simulates(h, Debug, log0, action, s2, r1, fuel); }
    ReactionTracks(h, Debug, log0, f, l, act, action, s2, r1, fuel);
  }

  lemma NoErrorLost(h: Host, site: nat, f: Form, arg: Expr, l: Label, m: Expr, r: State)
    requires CopiesCode(f) && !Test(h, site, f, arg, l, m, r).st.notes.hazard
    ensures Eval(h, arg, r).v == 0 <==> Narrow(h.longBits, Eval(h, arg, r).v) == 0
  {
  }

  lemma {:induction false} CopyPassed(h: Host, log0: seq<Message>, u: Stmt, s: State, r: State, fuel: nat)
    requires u.Use? && Plain(u) && Follows(Debug, log0, s, r)
    requires CopiesCode(u.form) && Eval(h, u.arg, r).v == 0
    requires !Test(h, u.site, u.form, u.arg, u.handler, u.message, r).st.notes.hazard
    ensures Tracks(Debug, log0, Outcome(Normal, Copied(h, h.longBits, Probe(u.site, u.arg), s)), Exec(h, u, r, fuel))
  {
    var s1 := Copied(h, h.longBits, Probe(u.site, u.arg), s);
    CopyArrives(h, u.site, u.arg, s, r);
    PassedTestFollows(h, Debug, log0, u.site, u.form, u.arg, u.handler, u.message, s, s1, r);
  }

  /** A debug expansion that tests a copy of the error code, up to where the copy is dropped. */
  lemma {:induction false} CopyTested(h: Host, log0: seq<Message>, u: Stmt, s: State, r: State,
                                      fuel: nat) returns (o: Outcome)
    requires u.Use? && Plain(u) && Follows(Debug, log0, s, r)
    requires CopiesCode(u.form)
    requires !Test(h, u.site, u.form, u.arg, u.handler, u.message, r).st.notes.hazard
    ensures var s1 := Copied(h, h.longBits, Probe(u.site, u.arg), s);
            var body := Body(Debug, u.form, u.arg, u.handler, u.message, Expand(h.longBits, Debug, u.action));
            o == if Read(s1.env, EVAL_ONCE) == 0 then Outcome(Normal, s1) else ExecItems(h, body, s1, fuel)
    ensures Tracks(Debug, log0, Unwrap(o), Exec(h, u, r, fuel))
    decreases fuel, u, 1
  {
    var body := Body(Debug, u.form, u.arg, u.handler, u.message, Expand(h.longBits, Debug, u.action));
    var s1 := Copied(h, h.longBits, Probe(u.site, u.arg), s);
    CopyArrives(h, u.site, u.arg, s, r);
    ReadCopy(s1.env);
    NoErrorLost(h, u.site, u.form, u.arg, u.handler, u.message, r);
    if Eval(h, u.arg, r).v != 0 {
      CopyFailed(h, log0, u, s, r, fuel);
      o := ExecItems(h, body, s1, fuel);
    } else {
      CopyPassed(h, log0, u, s, r, fuel);
      o := Outcome(Normal, s1);
    }
  }

  lemma {:induction false} CopyingUseTracks(h: Host, log0: seq<Message>, u: Stmt, s: State, r: State, fuel: nat)
    requires u.Use? && Plain(u) && Follows(Debug, log0, s, r)
    requires CopiesCode(u.form)
    requires !Test(h, u.site, u.form, u.arg, u.handler, u.message, r).st.notes.hazard
    ensures Tracks(Debug, log0, Exec(h, Expand(h.longBits, Debug, u), s, fuel), Exec(h, u, r, fuel))
    decreases fuel, u, 2
  {
    var body := Body(Debug, u.form, u.arg, u.handler, u.message, Expand(h.longBits, Debug, u.action));
    var s1 := Copied(h, h.longBits, Probe(u.site, u.arg), s);
    RunCopiesAndTests(h, h.longBits, Probe(u.site, u.arg), body, s, fuel);
    CopyArrives(h, u.site, u.arg, s, r);
    var o := CopyTested(h, log0, u, s, r, fuel);
    ItemsKeepScopes(h, body, s1, fuel);
    PoppedTracks(log0, o, Exec(h, u, r, fuel), s1.env);
  }

  /** An expansion that tests the argument itself. */
  lemma {:induction false} DirectUseTracks(h: Host, b: Build, log0: seq<Message>, u: Stmt, s: State, r: State,
                                           fuel: nat)
    requires u.Use? && Plain(u) && Follows(b, log0, s, r)
    requires !u.form.DebugString? && !(b.Production? && IsCheck(u.form)) && !(b.Debug? && CopiesCode(u.form))
    requires b.Production? || !Test(h, u.site, u.form, u.arg, u.handler, u.message, r).st.notes.hazard
    ensures Tracks(b, log0, Exec(h, Expand(h.longBits, b, u), s, fuel), Exec(h, u, r, fuel))
    decreases fuel, u, 0
  {
    var Use(site, f, arg, l, m, action) := u;
    var r1 := Test(h, site, f, arg, l, m, r).st;
    var act := Expand(h.longBits, b, action);
    var a := Probe(site, arg);
    var body := Body(b, f, arg, l, m, act);
    var s1, t := Eval(h, a, s).st, Eval(h, arg, r);
    ArgumentArrives(h, site, arg, s, r);
    RunTests(h, Condition(f, a), body, s, fuel);
    RunClosedIf(h, Condition(f, a), body, s, fuel);
    if Fails(f, t.v) {
      var s2 := s1;
      if b.Debug? && !IsQuiet(f) {
        s2 := Told(h, f, arg, l, m, 0, s1);
        BodyRuns(h, f, arg, l, m, act, 0, s1, fuel);
        ToldFollows(h, log0, site, f, arg, l, m, s, s1, r);
      } else {
        FailedTest(h, site, f, arg, l, m, r);
      }
      if HasAction(f) { Simulates(h, b, log0, action, s2, r1, fuel); }
      ReactionTracks(h, b, log0, f, l, act, action, s2, r1, fuel);
    } else {
      PassedTestFollows(h, b, log0, site, f, arg, l, m, s, s1, r);
    }
  }

  lemma {:induction false} UseTracks(h: Host, b: Build, log0: seq<Message>, u: Stmt, s: State, r: State, fuel: nat)
    requires u.Use? && Plain(u) && Follows(b, log0, s, r)
    ensures Tracks(b, log0, Exec(h, Expand(h.longBits, b, u), s, fuel), Exec(h, u, r, fuel))
    decreases fuel, u, 3
  {
    var r1 := Test(h, u.site, u.form, u.arg, u.handler, u.message, r).st;
    if b.Debug? && Exec(h, u, r, fuel).st.notes.hazard {
    } else if b.Debug? && r1.notes.hazard {
      HazardStays(h, u.action, r1, fuel);
    } else if u.form.DebugString? || (b.Production? && IsCheck(u.form)) {
      DroppedTracks(h, b, log0, u, s, r, fuel);
    } else if b.Debug? && CopiesCode(u.form) {
      CopyingUseTracks(h, log0, u, s, r, fuel);
    } else {
      DirectUseTracks(h, b, log0, u, s, r, fuel);
    }
  }

  /** The main simulation.  For every program that leaves the macros' own local alone, from
      every state, on every host and for every amount of fuel, a production run does exactly
      what the unexpanded program does, and so does a debug run that met no hazard; a run cut
      short by its fuel agrees up to that point. */
  lemma {:induction false} Simulates(h: Host, b: Build, log0: seq<Message>, u: Stmt, s: State, r: State, fuel: nat)
    requires Plain(u) && Follows(b, log0, s, r)
    ensures Tracks(b, log0, Exec(h, Expand(h.longBits, b, u), s, fuel), Exec(h, u, r, fuel))
    decreases fuel, u, 4
  {
    match u
    case Empty =>
    case Expression(e) => EvalFollows(h, b, log0, e, s, r);
    case Block(items) => SimulatesItems(h, b, log0, items, s, r, fuel);
    case If(c, thn) =>
      EvalFollows(h, b, log0, c, s, r);
      Simulates(h, b, log0, thn, Eval(h, c, s).st, Eval(h, c, r).st, fuel);
    case IfElse(c, thn, els) =>
      EvalFollows(h, b, log0, c, s, r);
      Simulates(h, b, log0, thn, Eval(h, c, s).st, Eval(h, c, r).st, fuel);
      Simulates(h, b, log0, els, Eval(h, c, s).st, Eval(h, c, r).st, fuel);
    case While(c, body) => WhileTracks(h, b, log0, u, s, r, fuel);
    case DoWhile(body, c) => DoWhileTracks(h, b, log0, u, s, r, fuel);
    case Return(e) => EvalFollows(h, b, log0, e, s, r);
    case Use(_, _, _, _, _, _) => UseTracks(h, b, log0, u, s, r, fuel);
    case _ =>
  }

  lemma {:induction false} WhileTracks(h: Host, b: Build, log0: seq<Message>, u: Stmt, s: State, r: State, fuel: nat)
    requires u.While? && Plain(u) && Follows(b, log0, s, r)
    ensures Tracks(b, log0, Exec(h, Expand(h.longBits, b, u), s, fuel), Exec(h, u, r, fuel))
    decreases fuel, u, 0
  {
    EvalFollows(h, b, log0, u.c, s, r);
    var t, v := Eval(h, u.c, s), Eval(h, u.c, r);
    if v.v != 0 {
      Simulates(h, b, log0, u.body, t.st, v.st, fuel);
      var o, p := Exec(h, Expand(h.longBits, b, u.body), t.st, fuel), Exec(h, u.body, v.st, fuel);
      if (p.exit.Normal? || p.exit.Continued?) && fuel > 0 {
        if b.Debug? && p.st.notes.hazard {
          HazardStays(h, u, p.st, fuel - 1);
        } else {
          Simulates(h, b, log0, u, o.st, p.st, fuel - 1);
        }
      }
    }
  }

  lemma {:induction false} DoWhileTracks(h: Host, b: Build, log0: seq<Message>, u: Stmt, s: State, r: State, fuel: nat)
    requires u.DoWhile? && Plain(u) && Follows(b, log0, s, r)
    ensures Tracks(b, log0, Exec(h, Expand(h.longBits, b, u), s, fuel), Exec(h, u, r, fuel))
    decreases fuel, u, 0
  {
    Simulates(h, b, log0, u.body, s, r, fuel);
    var o, p := Exec(h, Expand(h.longBits, b, u.body), s, fuel), Exec(h, u.body, r, fuel);
    if b.Debug? && p.st.notes.hazard {
      BodyHazardStays(h, u, r, fuel);
    } else if p.exit.Normal? || p.exit.Continued? {
      EvalFollows(h, b, log0, u.c, o.st, p.st);
      var t, v := Eval(h, u.c, o.st), Eval(h, u.c, p.st);
      if v.v != 0 && fuel > 0 { Simulates(h, b, log0, u, t.st, v.st, fuel - 1); }
    }
  }

  lemma BodyHazardStays(h: Host, u: Stmt, r: State, fuel: nat)
    requires u.DoWhile? && Exec(h, u.body, r, fuel).st.notes.hazard
    ensures Exec(h, u, r, fuel).st.notes.hazard
  {
    var p := Exec(h, u.body, r, fuel);
    EvalKeeps(h, u.c, p.st);
    if fuel > 0 { HazardStays(h, u, Eval(h, u.c, p.st).st, fuel - 1); }
  }

  lemma {:induction false} SimulatesItems(h: Host, b: Build, log0: seq<Message>, items: Items, s: State, r: State,
                                          fuel: nat)
    requires PlainItems(items) && Follows(b, log0, s, r)
    ensures Tracks(b, log0, ExecItems(h, ExpandItems(h.longBits, b, items), s, fuel), ExecItems(h, items, r, fuel))
    decreases fuel, items, 3
  {
    match items
    case Nil =>
    case Cons(u, tail) =>
      Simulates(h, b, log0, u, s, r, fuel);
      var o, p := Exec(h, Expand(h.longBits, b, u), s, fuel), Exec(h, u, r, fuel);
      if p.exit.Normal? {
        if b.Debug? && p.st.notes.hazard {
          HazardStaysItems(h, tail, p.st, fuel);
        } else {
          SimulatesItems(h, b, log0, tail, o.st, p.st, fuel);
        }
      }
    case Local(x, bits, init, tail) =>
      var s0, r0 := s.(env := Declared(h, x, bits, s.env)), r.(env := Declared(h, x, bits, r.env));
      EvalFollows(h, b, log0, init, s0, r0);
      var t, v := Eval(h, init, s0), Eval(h, init, r0);
      EraseWrite(t.st.env, x, t.v);
      var s1, r1 := t.st.(env := Write(t.st.env, x, t.v)), v.st.(env := Write(v.st.env, x, v.v));
      SimulatesItems(h, b, log0, tail, s1, r1, fuel);
      EvalKeepsScopes(h, init, s0);
      WriteKeepsScopes(t.st.env, x, t.v);
      ItemsKeepScopes(h, ExpandItems(h.longBits, b, tail), s1, fuel);
  }
}
