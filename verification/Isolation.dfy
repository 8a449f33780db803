/**
  Statements cannot tell apart two states that differ only in variables with the name of the
  macros' own local, as long as a declaration of that name stands between them and those variables.
  */
module Isolation {
  import opened Common
  import opened Forms
  import opened MiniC
  import opened Expansion
  import opened Simulation

  // ---------- which statements ----------

  predicate Mentions(e: Expr) {
    match e
    case Const(_) => false
    case Var(x) => x == EVAL_ONCE
    case Set(x, e1) => x == EVAL_ONCE || Mentions(e1)
    case Cast(_, e1) => Mentions(e1)
    case Not(e1) => Mentions(e1)
    case IsError(e1) => Mentions(e1)
    case Bin(_, _, e1, e2) => Mentions(e1) || Mentions(e2)
    case And(e1, e2) => Mentions(e1) || Mentions(e2)
    case Call(_, _, e1) => Mentions(e1)
    case Probe(_, e1) => Mentions(e1)
  }

  predicate Allowed(e: Expr, declared: bool) { declared || !Mentions(e) }

  /** Fully expanded, and it mentions the name only where it is declared, inside or, if `declared`,
      around it. */
  predicate Bound(s: Stmt, declared: bool) {
    match s
    case Empty => true
    case Expression(e) => Allowed(e, declared)
    case Block(items) => BoundItems(items, declared)
    case If(c, thn) => Allowed(c, declared) && Bound(thn, declared)
    case IfElse(c, thn, els) => Allowed(c, declared) && Bound(thn, declared) && Bound(els, declared)
    case While(c, body) => Allowed(c, declared) && Bound(body, declared)
    case DoWhile(body, c) => Bound(body, declared) && Allowed(c, declared)
    case Break => true
    case Continue => true
    case Goto(_) => true
    case Return(e) => Allowed(e, declared)
    case Report(_, _, m, code) => Allowed(m, declared) && Allowed(code, declared)
    case Use(_, _, _, _, _, _) => false
  }

  predicate BoundItems(items: Items, declared: bool) {
    match items
    case Nil => true
    case Cons(s, tail) => Bound(s, declared) && BoundItems(tail, declared)
    case Local(x, _, init, tail) =>
      var inside := declared || x == EVAL_ONCE;
      Allowed(init, inside) && BoundItems(tail, inside)
  }

  // ---------- which states ----------

  /** The same innermost n variables; further out, the same but for those with the name. */
  ghost predicate Alike(n: nat, a: Env, b: Env) {
    if n == 0 then Erase(a) == Erase(b)
    else
      && a.Frame? && b.Frame? && a.name == b.name && a.bits == b.bits && a.value == b.value
      && Alike(n - 1, a.outer, b.outer)
  }

  /** One of the innermost n variables has the name. */
  predicate Declares(n: nat, env: Env) {
    n > 0 && env.Frame? && (env.name == EVAL_ONCE || Declares(n - 1, env.outer))
  }

  /** The values of the variables with the name further out than n. */
  function Hidden(n: nat, env: Env): seq<int> {
    if n == 0 then Copies(env) else if env.Frame? then Hidden(n - 1, env.outer) else []
  }

  ghost predicate Twins(n: nat, a: State, b: State) {
    Alike(n, a.env, b.env) && a.calls == b.calls
  }

  /** Twins step to twins, with the same evaluations and messages, and what is hidden stays. */
  ghost predicate InStep(n: nat, a: State, b: State, a': State, b': State) {
    && Twins(n, a', b')
    && Scopes(a'.env) == Scopes(a.env) && Hidden(n, a'.env) == Hidden(n, a.env)
    && (a.ticks == b.ticks ==> a'.ticks == b'.ticks)
    && (a.log == b.log ==> a'.log == b'.log)
  }

  lemma {:induction false} DeclaresByScopes(n: nat, a: Env, b: Env)
    requires Scopes(a) == Scopes(b)
    ensures Declares(n, a) == Declares(n, b)
  {
    if n > 0 && a.Frame? { DeclaresByScopes(n - 1, a.outer, b.outer); }
  }

  // ---------- variables ----------

  lemma {:induction false} AlikeRead(n: nat, a: Env, b: Env, x: Name)
    requires Alike(n, a, b) && (x == EVAL_ONCE ==> Declares(n, a))
    ensures Read(a, x) == Read(b, x)
  {
    if n == 0 {
      EraseRead(a, x);
      EraseRead(b, x);
    } else if a.name != x {
      AlikeRead(n - 1, a.outer, b.outer, x);
    }
  }

  lemma {:induction false} AlikeWrite(n: nat, a: Env, b: Env, x: Name, v: int)
    requires Alike(n, a, b) && (x == EVAL_ONCE ==> Declares(n, a))
    ensures Alike(n, Write(a, x, v), Write(b, x, v)) && Hidden(n, Write(a, x, v)) == Hidden(n, a)
  {
    if n == 0 {
      EraseWrite(a, x, v);
      EraseWrite(b, x, v);
      WriteKeepsCopies(a, x, v);
    } else if a.name != x {
      AlikeWrite(n - 1, a.outer, b.outer, x, v);
    }
  }

  lemma {:induction false} AlikeGlobals(n: nat, a: Env, b: Env, g: map<Name, int>)
    requires Alike(n, a, b)
    ensures Globals(a) == Globals(b)
    ensures Alike(n, WithGlobals(a, g), WithGlobals(b, g)) && Hidden(n, WithGlobals(a, g)) == Hidden(n, a)
  {
    if n == 0 {
      EraseGlobals(a, g);
      EraseGlobals(b, g);
      GlobalsKeepCopies(a, g);
    } else {
      AlikeGlobals(n - 1, a.outer, b.outer, g);
    }
  }

  lemma AssignInStep(n: nat, a: State, b: State, x: Name, v: int)
    requires Twins(n, a, b) && (x == EVAL_ONCE ==> Declares(n, a.env))
    ensures var a', b' := a.(env := Write(a.env, x, v)), b.(env := Write(b.env, x, v));
            InStep(n, a, b, a', b') && Read(a'.env, x) == Read(b'.env, x)
  {
    AlikeWrite(n, a.env, b.env, x, v);
    WriteKeepsScopes(a.env, x, v);
    DeclaresByScopes(n, Write(a.env, x, v), a.env);
    AlikeRead(n, Write(a.env, x, v), Write(b.env, x, v), x);
  }

  // ---------- expressions ----------

  lemma {:induction false} EvalInStep(h: Host, e: Expr, n: nat, a: State, b: State)
    requires Twins(n, a, b) && (Mentions(e) ==> Declares(n, a.env))
    ensures Eval(h, e, a).v == Eval(h, e, b).v
    ensures InStep(n, a, b, Eval(h, e, a).st, Eval(h, e, b).st)
    decreases e
  {
    match e
    case Const(_) =>
    case Var(x) => AlikeRead(n, a.env, b.env, x);
    case Set(x, e1) =>
      EvalInStep(h, e1, n, a, b);
      var p, q := Eval(h, e1, a), Eval(h, e1, b);
      DeclaresByScopes(n, p.st.env, a.env);
      AssignInStep(n, p.st, q.st, x, p.v);
    case Cast(_, e1) => EvalInStep(h, e1, n, a, b);
    case Not(e1) => EvalInStep(h, e1, n, a, b);
    case IsError(e1) => EvalInStep(h, e1, n, a, b);
    case Bin(_, _, e1, e2) =>
      EvalInStep(h, e1, n, a, b);
      DeclaresByScopes(n, Eval(h, e1, a).st.env, a.env);
      EvalInStep(h, e2, n, Eval(h, e1, a).st, Eval(h, e1, b).st);
    case And(e1, e2) =>
      EvalInStep(h, e1, n, a, b);
      DeclaresByScopes(n, Eval(h, e1, a).st.env, a.env);
      EvalInStep(h, e2, n, Eval(h, e1, a).st, Eval(h, e1, b).st);
    case Call(f, bits, e1) =>
      EvalInStep(h, e1, n, a, b);
      var p, q := Eval(h, e1, a), Eval(h, e1, b);
      ExternalInStep(h, f, bits, p.v, n, p.st, q.st);
    case Probe(site, e1) => EvalInStep(h, e1, n, a.(ticks := a.ticks + [site]), b.(ticks := b.ticks + [site]));
  }

  lemma ExternalInStep(h: Host, f: Name, bits: nat, arg: int, n: nat, a: State, b: State)
    requires Twins(n, a, b)
    ensures var p, q := External(h, f, bits, arg, a), External(h, f, bits, arg, b);
            p.v == q.v && InStep(n, a, b, p.st, q.st)
  {
    AlikeGlobals(n, a.env, b.env, map[]);
    var g := h.external(a.calls + [Called(f, arg)], Globals(a.env)).1;
    AlikeGlobals(n, a.env, b.env, g);
    GlobalsKeepScopes(a.env, g);
  }

  // ---------- statements ----------

  ghost predicate EndInStep(n: nat, a: State, b: State, o: Outcome, p: Outcome) {
    o.exit == p.exit && InStep(n, a, b, o.st, p.st)
  }

  /** Twins run a bound statement in step: the same exit, the same calls, evaluations and messages,
      the same variables but for what is hidden, and that is left alone. */
  lemma {:induction false} ExecInStep(h: Host, s: Stmt, n: nat, a: State, b: State, fuel: nat)
    requires Twins(n, a, b) && Bound(s, Declares(n, a.env))
    ensures EndInStep(n, a, b, Exec(h, s, a, fuel), Exec(h, s, b, fuel))
    decreases fuel, s, 1
  {
    match s
    case Expression(e) => EvalInStep(h, e, n, a, b);
    case Block(items) => ItemsInStep(h, items, n, a, b, fuel);
    case If(c, thn) =>
      EvalInStep(h, c, n, a, b);
      DeclaresByScopes(n, Eval(h, c, a).st.env, a.env);
      ExecInStep(h, thn, n, Eval(h, c, a).st, Eval(h, c, b).st, fuel);
    case IfElse(c, thn, els) =>
      EvalInStep(h, c, n, a, b);
      DeclaresByScopes(n, Eval(h, c, a).st.env, a.env);
      ExecInStep(h, thn, n, Eval(h, c, a).st, Eval(h, c, b).st, fuel);
      ExecInStep(h, els, n, Eval(h, c, a).st, Eval(h, c, b).st, fuel);
    case While(_, _) => WhileInStep(h, s, n, a, b, fuel);
    case DoWhile(_, _) => DoWhileInStep(h, s, n, a, b, fuel);
    case Return(e) => EvalInStep(h, e, n, a, b);
    case Report(_, _, m, code) =>
      EvalInStep(h, m, n, a, b);
      DeclaresByScopes(n, Eval(h, m, a).st.env, a.env);
      EvalInStep(h, code, n, Eval(h, m, a).st, Eval(h, m, b).st);
    case _ =>
  }

  lemma {:induction false} WhileInStep(h: Host, s: Stmt, n: nat, a: State, b: State, fuel: nat)
    requires s.While? && Twins(n, a, b) && Bound(s, Declares(n, a.env))
    ensures EndInStep(n, a, b, Exec(h, s, a, fuel), Exec(h, s, b, fuel))
    decreases fuel, s, 0
  {
    EvalInStep(h, s.c, n, a, b);
    var t, u := Eval(h, s.c, a), Eval(h, s.c, b);
    DeclaresByScopes(n, t.st.env, a.env);
    ExecInStep(h, s.body, n, t.st, u.st, fuel);
    var o, p := Exec(h, s.body, t.st, fuel), Exec(h, s.body, u.st, fuel);
    DeclaresByScopes(n, o.st.env, a.env);
    if fuel > 0 { ExecInStep(h, s, n, o.st, p.st, fuel - 1); }
  }

  lemma {:induction false} DoWhileInStep(h: Host, s: Stmt, n: nat, a: State, b: State, fuel: nat)
    requires s.DoWhile? && Twins(n, a, b) && Bound(s, Declares(n, a.env))
    ensures EndInStep(n, a, b, Exec(h, s, a, fuel), Exec(h, s, b, fuel))
    decreases fuel, s, 0
  {
    ExecInStep(h, s.body, n, a, b, fuel);
    var o, p := Exec(h, s.body, a, fuel), Exec(h, s.body, b, fuel);
    DeclaresByScopes(n, o.st.env, a.env);
    EvalInStep(h, s.c, n, o.st, p.st);
    var t, u := Eval(h, s.c, o.st), Eval(h, s.c, p.st);
    DeclaresByScopes(n, t.st.env, a.env);
    if fuel > 0 { ExecInStep(h, s, n, t.st, u.st, fuel - 1); }
  }

  lemma {:induction false} ItemsInStep(h: Host, items: Items, n: nat, a: State, b: State, fuel: nat)
    requires Twins(n, a, b) && BoundItems(items, Declares(n, a.env))
    ensures EndInStep(n, a, b, ExecItems(h, items, a, fuel), ExecItems(h, items, b, fuel))
    decreases fuel, items, 1
  {
    match items
    case Nil =>
    case Cons(s, tail) =>
      ExecInStep(h, s, n, a, b, fuel);
      DeclaresByScopes(n, Exec(h, s, a, fuel).st.env, a.env);
      ItemsInStep(h, tail, n, Exec(h, s, a, fuel).st, Exec(h, s, b, fuel).st, fuel);
    case Local(_, _, _, _) => LocalInStep(h, items, n, a, b, fuel);
  }

  lemma {:induction false} LocalInStep(h: Host, items: Items, n: nat, a: State, b: State, fuel: nat)
    requires items.Local? && Twins(n, a, b) && BoundItems(items, Declares(n, a.env))
    ensures EndInStep(n, a, b, ExecItems(h, items, a, fuel), ExecItems(h, items, b, fuel))
    decreases fuel, items, 0
  {
    var x, a0, b0 := items.name, a.(env := Declared(h, items.name, items.bits, a.env)),
                     b.(env := Declared(h, items.name, items.bits, b.env));
    EvalInStep(h, items.init, n + 1, a0, b0);
    var t, u := Eval(h, items.init, a0), Eval(h, items.init, b0);
    DeclaresByScopes(n + 1, t.st.env, a0.env);
    AssignInStep(n + 1, t.st, u.st, x, t.v);
    var a1, b1 := t.st.(env := Write(t.st.env, x, t.v)), u.st.(env := Write(u.st.env, x, u.v));
    DeclaresByScopes(n + 1, a1.env, a0.env);
    ItemsInStep(h, items.tail, n + 1, a1, b1, fuel);
    var o, p := ExecItems(h, items.tail, a1, fuel), ExecItems(h, items.tail, b1, fuel);
    assert InStep(n + 1, a0, b0, o.st, p.st);
    PopInStep(n, a, b, items.name, items.bits, Narrow(items.bits, h.garbage), o.st, p.st);
  }

  lemma PopInStep(n: nat, a: State, b: State, x: Name, bits: nat, v: int, a': State, b': State)
    requires InStep(n + 1, a.(env := Frame(x, bits, v, a.env)), b.(env := Frame(x, bits, v, b.env)), a', b')
    ensures InStep(n, a, b, a'.(env := Pop(a'.env)), b'.(env := Pop(b'.env)))
  {
  }

  // ---------- expansions are bound ----------

  lemma {:induction false} OnlyBound(s: Stmt, d: bool)
    requires Bound(s, d)
    ensures BoundItems(Only(s), d)
  {
    assert BoundItems(Nil, d);
  }

  lemma WrapperBound(items: Items, d: bool)
    requires BoundItems(items, d)
    ensures Bound(Wrapper(items), d)
  {
    assert Bound(Block(items), d);
  }

  lemma {:induction false} TestsBound(c: Expr, body: Items, d: bool)
    requires Allowed(c, d) && BoundItems(body, d)
    ensures Bound(Tests(c, body), d) && Bound(ClosedIf(c, body), d)
  {
    assert Bound(Block(body), d);
    OnlyBound(If(c, Block(body)), d);
    WrapperBound(Only(If(c, Block(body))), d);
    assert BoundItems(Nil, d);
    WrapperBound(Nil, d);
  }

  /** The copy is declared around all that the debug expansion copies and runs. */
  lemma {:induction false} CopiesAndTestsBound(longBits: nat, e: Expr, body: Items, d: bool)
    requires BoundItems(body, true)
    ensures Bound(CopiesAndTests(longBits, e, body), d)
  {
    var guarded := If(IsError(Var(EVAL_ONCE)), Block(body));
    assert Bound(Block(body), true);
    OnlyBound(guarded, true);
    WrapperBound(Local(EVAL_ONCE, longBits, e, Only(guarded)), d);
  }

  lemma {:induction false} TellBound(text: Text, at: Option<Label>, m: Expr, code: Expr, rest: Items, d: bool)
    requires Allowed(m, d) && Allowed(code, d) && BoundItems(rest, d)
    ensures BoundItems(Tell(text, at, m, code, rest), d)
  {
    assert BoundItems(Cons(Empty, rest), d);
  }

  lemma {:induction false} ReactionBound(f: Form, l: Label, act: Stmt, d: bool)
    requires Bound(act, d)
    ensures BoundItems(Reaction(f, l, act), d)
  {
    OnlyBound(Empty, d);
    OnlyBound(Goto(l), d);
    OnlyBound(act, d);
    assert BoundItems(Spliced(act), d);
    assert Bound(Block(Spliced(act)), d);
  }

  lemma {:induction false} BodyBound(b: Build, f: Form, q: Expr, l: Label, m: Expr, act: Stmt, d: bool)
    requires Allowed(m, d) && Bound(act, d) && (b.Debug? && CopiesCode(f) ==> d)
    ensures BoundItems(Body(b, f, q, l, m, act), d)
  {
    ReactionBound(f, l, act, d);
    if b.Debug? {
      TellBound(TextOf(f, q), LabelOf(f, l), MessageOf(f, m),
                if CopiesCode(f) then Var(EVAL_ONCE) else Const(0), Reaction(f, l, act), d);
    }
  }

  lemma {:induction false} ReplaceBound(longBits: nat, b: Build, f: Form, a: Expr, q: Expr, l: Label, m: Expr,
                                        act: Stmt, d: bool)
    requires var d1 := d || (b.Debug? && CopiesCode(f)); Allowed(a, d1) && Allowed(m, d1) && Bound(act, d1)
    ensures Bound(Replace(longBits, b, f, a, q, l, m, act), d)
  {
    var body := Body(b, f, q, l, m, act);
    if f.DebugString? {
      assert BoundItems(Nil, d);
      TellBound(NoText, None, m, Const(0), Nil, d);
      WrapperBound(Tell(NoText, None, m, Const(0), Nil), d);
    } else if b.Debug? && CopiesCode(f) {
      BodyBound(b, f, q, l, m, act, true);
      CopiesAndTestsBound(longBits, a, body, d);
    } else {
      BodyBound(b, f, q, l, m, act, d);
      TestsBound(Condition(f, a), body, d);
    }
  }

  lemma PlainAllowed(e: Expr)
    requires PlainExpr(e)
    ensures !Mentions(e)
  {
  }

  /** The expansion of any statement is bound where the name is declared around it, that of a
      plain statement everywhere. */
  lemma {:induction false} ExpansionBound(longBits: nat, b: Build, u: Stmt, d: bool)
    requires d || Plain(u)
    ensures Bound(Expand(longBits, b, u), d)
    decreases u, 1
  {
    match u
    case Expression(e) => if !d { PlainAllowed(e); }
    case Block(items) => ExpansionBoundItems(longBits, b, items, d);
    case If(c, thn) => if !d { PlainAllowed(c); } ExpansionBound(longBits, b, thn, d);
    case IfElse(c, thn, els) =>
      if !d { PlainAllowed(c); }
      ExpansionBound(longBits, b, thn, d);
      ExpansionBound(longBits, b, els, d);
    case While(c, body) => if !d { PlainAllowed(c); } ExpansionBound(longBits, b, body, d);
    case DoWhile(body, c) => if !d { PlainAllowed(c); } ExpansionBound(longBits, b, body, d);
    case Return(e) => if !d { PlainAllowed(e); }
    case Use(_, _, _, _, _, _) => UseBound(longBits, b, u, d);
    case _ =>
  }

  /** So is the debug expansion of any use that copies its error code. */
  lemma {:induction false} UseBound(longBits: nat, b: Build, u: Stmt, d: bool)
    requires u.Use? && (d || Plain(u) || (b.Debug? && CopiesCode(u.form)))
    ensures Bound(Expand(longBits, b, u), d)
    decreases u, 0
  {
    var d1 := d || (b.Debug? && CopiesCode(u.form));
    if !d1 { PlainAllowed(u.arg); PlainAllowed(u.message); }
    ExpansionBound(longBits, b, u.action, d1);
    ReplaceBound(longBits, b, u.form, Probe(u.site, u.arg), u.arg, u.handler, u.message,
                 Expand(longBits, b, u.action), d);
  }

  lemma {:induction false} ExpansionBoundItems(longBits: nat, b: Build, items: Items, d: bool)
    requires d || PlainItems(items)
    ensures BoundItems(ExpandItems(longBits, b, items), d)
    decreases items, 1
  {
    match items
    case Nil =>
    case Cons(s, tail) => ExpansionBound(longBits, b, s, d); ExpansionBoundItems(longBits, b, tail, d);
    case Local(_, _, init, tail) => if !d { PlainAllowed(init); } ExpansionBoundItems(longBits, b, tail, d);
  }
}
