/**
  A machine that runs expanded programs in place: variables, calls and log are updated as the
  program goes, and loops are loops.  Its methods are proved against the interpreter.
  */
module Machine {
  import opened Forms
  import opened MiniC
  import opened Expansion
  import opened MacroText
  import opened Simulation
  import opened Guarantees
  import opened Discipline
  import opened TextMeaning

  class Runner {
    var env: Env
    var calls: seq<Event>
    var ticks: seq<nat>
    var log: seq<Message>
    const notes: Notes

    function Now(): State
      reads this
    {
      State(env, calls, ticks, log, notes)
    }

    constructor (s: State)
      ensures Now() == s
    {
      env, calls, ticks, log, notes := s.env, s.calls, s.ticks, s.log, s.notes;
    }

    method Evaluate(h: Host, e: Expr) returns (v: int)
      modifies this
      ensures Value(v, Now()) == Eval(h, e, old(Now()))
      decreases e
    {
      match e
      case Const(n) => v := n;
      case Var(x) => v := Read(env, x);
      case Set(x, e1) =>
        v := Evaluate(h, e1);
        env := Write(env, x, v);
        v := Read(env, x);
      case Cast(bits, e1) => v := Evaluate(h, e1); v := Narrow(bits, v);
      case Not(e1) => v := Evaluate(h, e1); v := Truth(v == 0);
      case IsError(e1) => v := Evaluate(h, e1); v := Truth(v != 0);
      case Bin(op, bits, e1, e2) =>
        var a := Evaluate(h, e1);
        var b := Evaluate(h, e2);
        v := Apply(op, bits, a, b);
      case And(e1, e2) =>
        v := Evaluate(h, e1);
        if v != 0 { v := Evaluate(h, e2); v := Truth(v != 0); }
      case Call(f, bits, e1) =>
        v := Evaluate(h, e1);
        calls := calls + [Called(f, v)];
        var (w, g) := h.external(calls, Globals(env));
        v, env := Narrow(bits, w), WithGlobals(env, g);
      case Probe(site, e1) =>
        ticks := ticks + [site];
        v := Evaluate(h, e1);
    }

    method Run(h: Host, s: Stmt, fuel: nat) returns (exit: Exit)
      requires Expanded(s)
      modifies this
      ensures Outcome(exit, Now()) == Exec(h, s, old(Now()), fuel)
      decreases s, 0
    {
      exit := Normal;
      match s
      case Empty =>
      case Expression(e) => var _ := Evaluate(h, e);
      case Block(items) => exit := RunItems(h, items, fuel);
      case If(c, thn) =>
        var v := Evaluate(h, c);
        if v != 0 { exit := Run(h, thn, fuel); }
      case IfElse(c, thn, els) =>
        var v := Evaluate(h, c);
        if v != 0 { exit := Run(h, thn, fuel); } else { exit := Run(h, els, fuel); }
      case While(c, body) => exit := RunWhile(h, c, body, fuel);
      case DoWhile(body, c) => exit := RunDoWhile(h, body, c, fuel);
      case Break => exit := Broke;
      case Continue => exit := Continued;
      case Goto(l) => exit := Jumped(l);
      case Return(e) => var v := Evaluate(h, e); exit := Returned(v);
      case Report(text, at, message, code) =>
        var m := Evaluate(h, message);
        var c := Evaluate(h, code);
        log := log + [Message(text, at, m, c)];
    }

    method RunWhile(h: Host, c: Expr, body: Stmt, fuel: nat) returns (exit: Exit)
      requires Expanded(body)
      modifies this
      ensures Outcome(exit, Now()) == Exec(h, While(c, body), old(Now()), fuel)
      decreases body, 1
    {
      var left := fuel;
      var v := Evaluate(h, c);
      ghost var before := old(Now());
      while v != 0
        invariant Value(v, Now()) == Eval(h, c, before)
        invariant Exec(h, While(c, body), before, left) == Exec(h, While(c, body), old(Now()), fuel)
        decreases left, v != 0
      {
        exit := Run(h, body, left);
        if exit.Broke? { return Normal; }
        if !exit.Normal? && !exit.Continued? { return; }
        if left == 0 { return OutOfFuel; }
        left, before := left - 1, Now();
        v := Evaluate(h, c);
      }
      exit := Normal;
    }

    method RunDoWhile(h: Host, body: Stmt, c: Expr, fuel: nat) returns (exit: Exit)
      requires Expanded(body)
      modifies this
      ensures Outcome(exit, Now()) == Exec(h, DoWhile(body, c), old(Now()), fuel)
      decreases body, 1
    {
      var left := fuel;
      while true
        invariant Exec(h, DoWhile(body, c), Now(), left) == Exec(h, DoWhile(body, c), old(Now()), fuel)
        decreases left
      {
        exit := Run(h, body, left);
        if exit.Broke? { return Normal; }
        if !exit.Normal? && !exit.Continued? { return; }
        var v := Evaluate(h, c);
        if v == 0 { return Normal; }
        if left == 0 { return OutOfFuel; }
        left := left - 1;
      }
    }

    method RunItems(h: Host, items: Items, fuel: nat) returns (exit: Exit)
      requires ExpandedItems(items)
      modifies this
      ensures Outcome(exit, Now()) == ExecItems(h, items, old(Now()), fuel)
      decreases items, 0
    {
      match items
      case Nil => exit := Normal;
      case Cons(s, tail) =>
        exit := Run(h, s, fuel);
        if exit.Normal? { exit := RunItems(h, tail, fuel); }
      case Local(x, bits, init, tail) =>
        env := Declared(h, x, bits, env);
        var v := Evaluate(h, init);
        env := Write(env, x, v);
        exit := RunItems(h, tail, fuel);
        env := Pop(env);
    }

    /** Expands a disciplined program for a build and runs it in place.  Only the log depends on
        the build. */
    method RunProgram(h: Host, b: Build, u: Stmt, fuel: nat) returns (exit: Exit)
      requires Unambiguous(u) && Plain(u) && Disciplined(h.longBits, Scopes(env), u) && Clean(env) && Sound(env)
      modifies this
      ensures var p := Exec(h, u, Start(old(Now())), fuel);
              && exit == p.exit
              && env == p.st.env
              && calls == p.st.calls
              && log == if b.Debug? then p.st.notes.failed else old(log)
    {
      ExpansionReadable(h.longBits, b, u);
      DisciplineIsSafe(h, u, Start(Now()), fuel);
      RunFollows(h, b, u, Now(), fuel);
      exit := Run(h, Expand(h.longBits, b, u), fuel);
    }
  }
}
