/**
  A second semantics of the small C: a machine that takes one step at a time, with a list of what
  is left to do and a stack of values, and no bound on loops.  A jump unwinds the list.  The
  interpreter of module MiniC is proved to compute what the machine does.
  */
module SmallStep {
  import opened Common
  import opened MiniC
  import opened MacroText

  // ---------- the machine ----------

  datatype Task =
    | Evaluate(e: Expr)                            // leaves its value on the stack
    | Assign(x: Name)                              // takes a value, leaves what the variable then holds
    | Convert(bits: nat)
    | IsZero
    | IsNonzero
    | Operate(op: Op, bits: nat)                   // takes the right operand, then the left one
    | Unless0(e: Expr)                             // the right operand of &&
    | Invoke(f: Name, bits: nat)
    | Discard
    | Execute(s: Stmt)
    | ExecuteItems(items: Items)
    | Choose(thn: Stmt, els: Stmt)
    | Decide(loop: Stmt)                           // takes the value of the condition of a loop
    | Again(loop: Stmt)                            // the end of the body of a loop
    | Bind(x: Name)                                // takes the value of an initializer
    | EndScope
    | Emit(text: Text, at: Option<Label>)          // takes a code, then a message
    | HandBack                                     // takes the value of a return

  datatype Todo = Done | Then(task: Task, rest: Todo)

  datatype Values = NoValues | Push(v: int, below: Values)

  datatype Config =
    | Running(todo: Todo, values: Values, st: State)
    | Leaving(exit: Exit, todo: Todo, values: Values, st: State)
    | Stuck(todo: Todo)

  predicate Final(c: Config) { c.todo.Done? }

  function Next(h: Host, c: Config): Config {
    match c
    case Running(Then(t, k), vs, st) => Perform(h, t, k, vs, st)
    case Leaving(x, Then(t, k), vs, st) => Unwind(x, t, k, vs, st)
    case _ => c
  }

  /** A loop stops a break and a continue; the end of a block closes its scope. */
  function Unwind(x: Exit, t: Task, k: Todo, vs: Values, st: State): Config {
    match t
    case Again(_) =>
      if x.Broke? then Running(k, vs, st)
      else if x.Continued? then Running(Then(t, k), vs, st)
      else Leaving(x, k, vs, st)
    case EndScope => Leaving(x, k, vs, st.(env := Pop(st.env)))
    case _ => Leaving(x, k, vs, st)
  }

  function Perform(h: Host, t: Task, k: Todo, vs: Values, st: State): Config {
    match t
    case Evaluate(e) => Unfold(h, e, k, vs, st)
    case Execute(s) => Start(s, k, vs, st)
    case ExecuteItems(Nil) => Running(k, vs, st)
    case ExecuteItems(Cons(s, tail)) => Running(Then(Execute(s), Then(ExecuteItems(tail), k)), vs, st)
    case ExecuteItems(Local(x, bits, init, tail)) =>
      Running(Then(Evaluate(init), Then(Bind(x), Then(ExecuteItems(tail), Then(EndScope, k)))), vs,
              st.(env := Frame(x, bits, Narrow(bits, h.garbage), st.env)))
    case Again(DoWhile(body, c)) => Running(Then(Evaluate(c), Then(Decide(DoWhile(body, c)), k)), vs, st)
    case Again(loop) => Running(Then(Execute(loop), k), vs, st)
    case EndScope => Running(k, vs, st.(env := Pop(st.env)))
    case _ => if vs.Push? then Consume(h, t, k, vs.v, vs.below, st) else Stuck(Then(t, k))
  }

  function Unfold(h: Host, e: Expr, k: Todo, vs: Values, st: State): Config {
    match e
    case Const(n) => Running(k, Push(n, vs), st)
    case Var(x) => Running(k, Push(Read(st.env, x), vs), st)
    case Set(x, e1) => Running(Then(Evaluate(e1), Then(Assign(x), k)), vs, st)
    case Cast(bits, e1) => Running(Then(Evaluate(e1), Then(Convert(bits), k)), vs, st)
    case Not(e1) => Running(Then(Evaluate(e1), Then(IsZero, k)), vs, st)
    case IsError(e1) => Running(Then(Evaluate(e1), Then(IsNonzero, k)), vs, st)
    case Bin(op, bits, e1, e2) => Running(Then(Evaluate(e1), Then(Evaluate(e2), Then(Operate(op, bits), k))), vs, st)
    case And(e1, e2) => Running(Then(Evaluate(e1), Then(Unless0(e2), k)), vs, st)
    case Call(f, bits, e1) => Running(Then(Evaluate(e1), Then(Invoke(f, bits), k)), vs, st)
    case Probe(site, e1) => Running(Then(Evaluate(e1), k), vs, st.(ticks := st.ticks + [site]))
  }

  function Start(s: Stmt, k: Todo, vs: Values, st: State): Config {
    match s
    case Empty => Running(k, vs, st)
    case Expression(e) => Running(Then(Evaluate(e), Then(Discard, k)), vs, st)
    case Block(items) => Running(Then(ExecuteItems(items), k), vs, st)
    case If(c, thn) => Running(Then(Evaluate(c), Then(Choose(thn, Empty), k)), vs, st)
    case IfElse(c, thn, els) => Running(Then(Evaluate(c), Then(Choose(thn, els), k)), vs, st)
    case While(c, _) => Running(Then(Evaluate(c), Then(Decide(s), k)), vs, st)
    case DoWhile(body, _) => Running(Then(Execute(body), Then(Again(s), k)), vs, st)
    case Break => Leaving(Broke, k, vs, st)
    case Continue => Leaving(Continued, k, vs, st)
    case Goto(l) => Leaving(Jumped(l), k, vs, st)
    case Return(e) => Running(Then(Evaluate(e), Then(HandBack, k)), vs, st)
    case Report(text, at, m, code) =>
      Running(Then(Evaluate(m), Then(Evaluate(code), Then(Emit(text, at), k))), vs, st)
    case Use(_, _, _, _, _, _) => Stuck(Then(Execute(s), k))
  }

  /** Doing t, which takes the value v off the top of vs. */
  function Consume(h: Host, t: Task, k: Todo, v: int, vs: Values, st: State): Config {
    match t
    case Assign(x) => var env := Write(st.env, x, v); Running(k, Push(Read(env, x), vs), st.(env := env))
    case Convert(bits) => Running(k, Push(Narrow(bits, v), vs), st)
    case IsZero => Running(k, Push(if v == 0 then 1 else 0, vs), st)
    case IsNonzero => Running(k, Push(if v == 0 then 0 else 1, vs), st)
    case Operate(op, bits) =>
      if vs.NoValues? then Stuck(Then(t, k)) else
      var result := match op
        case Add => Narrow(bits, vs.v + v)
        case Subtract => Narrow(bits, vs.v - v)
        case Less => if vs.v < v then 1 else 0
        case Equal => if vs.v == v then 1 else 0;
      Running(k, Push(result, vs.below), st)
    case Unless0(e) =>
      if v == 0 then Running(k, Push(0, vs), st) else Running(Then(Evaluate(e), Then(IsNonzero, k)), vs, st)
    case Invoke(f, bits) =>
      var calls := st.calls + [Called(f, v)];
      var (result, globals) := h.external(calls, Globals(st.env));
      Running(k, Push(Narrow(bits, result), vs), st.(calls := calls, env := WithGlobals(st.env, globals)))
    case Discard => Running(k, vs, st)
    case Choose(thn, els) => Running(Then(Execute(if v == 0 then els else thn), k), vs, st)
    case Decide(loop) =>
      if v == 0 then Running(k, vs, st)
      else if loop.While? then Running(Then(Execute(loop.body), Then(Again(loop), k)), vs, st)
      else Running(Then(Execute(loop), k), vs, st)
    case Bind(x) => Running(k, vs, st.(env := Write(st.env, x, v)))
    case Emit(text, at) =>
      if vs.NoValues? then Stuck(Then(t, k))
      else Running(k, vs.below, st.(log := st.log + [Message(text, at, vs.v, v)]))
    case HandBack => Leaving(Returned(v), k, vs, st)
    case _ => Stuck(Then(t, k))
  }

  function Steps(h: Host, c: Config, n: nat): Config
    decreases n
  {
    if n == 0 then c else Steps(h, Next(h, c), n - 1)
  }

  lemma {:induction false} StepsAdd(h: Host, c: Config, m: nat, n: nat)
    ensures Steps(h, c, m + n) == Steps(h, Steps(h, c, m), n)
    decreases m
  {
    if m > 0 { StepsAdd(h, Next(h, c), m - 1, n); }
  }

  /** c leads to d in at least that many steps. */
  ghost predicate Reaches(h: Host, c: Config, least: nat, d: Config) {
    exists n: nat :: n >= least && Steps(h, c, n) == d
  }

  lemma Stays(h: Host, c: Config)
    ensures Reaches(h, c, 0, c)
  {
    assert Steps(h, c, 0) == c;
  }

  lemma GoesOn(h: Host, c: Config, m: nat, d: Config, n: nat, e: Config)
    requires Reaches(h, c, m, d) && Reaches(h, d, n, e)
    ensures Reaches(h, c, m + n, e)
  {
    var i: nat :| i >= m && Steps(h, c, i) == d;
    var j: nat :| j >= n && Steps(h, d, j) == e;
    StepsAdd(h, c, i, j);
  }

  /** One step before, and one after. */
  lemma Around(h: Host, c: Config, m: nat, d: Config)
    requires Reaches(h, Next(h, c), m, d)
    ensures Reaches(h, c, m + 1, d) && Reaches(h, c, m + 2, Next(h, d))
  {
    var i: nat :| i >= m && Steps(h, Next(h, c), i) == d;
    assert Steps(h, c, i + 1) == d;
    assert Steps(h, Next(h, d), 0) == Next(h, d);
    assert Steps(h, d, 1) == Next(h, d);
    StepsAdd(h, c, i + 1, 1);
  }

  lemma Moves(h: Host, c: Config)
    ensures Reaches(h, c, 1, Next(h, c))
  {
    Stays(h, Next(h, c));
    Around(h, c, 0, Next(h, c));
  }

  lemma AtLeast(h: Host, c: Config, m: nat, d: Config, n: nat)
    requires Reaches(h, c, m, d) && n <= m
    ensures Reaches(h, c, n, d)
  {
    var i: nat :| i >= m && Steps(h, c, i) == d;
    assert i >= n;
  }

  // ---------- expressions ----------

  /** The machine evaluates an expression to the interpreter's value, in the interpreter's state. */
  lemma {:induction false} EvalReaches(h: Host, e: Expr, k: Todo, vs: Values, st: State)
    ensures var t := Eval(h, e, st);
            Reaches(h, Running(Then(Evaluate(e), k), vs, st), 0, Running(k, Push(t.v, vs), t.st))
    decreases e, 2
  {
    var c, t := Running(Then(Evaluate(e), k), vs, st), Eval(h, e, st);
    var d := Running(k, Push(t.v, vs), t.st);
    match e
    case Const(_) => Moves(h, c); AtLeast(h, c, 1, d, 0);
    case Var(_) => Moves(h, c); AtLeast(h, c, 1, d, 0);
    case Set(x, e1) => OperandReaches(h, c, e1, Assign(x), k, vs, st);
    case Cast(bits, e1) => OperandReaches(h, c, e1, Convert(bits), k, vs, st);
    case Not(e1) => OperandReaches(h, c, e1, IsZero, k, vs, st);
    case IsError(e1) => OperandReaches(h, c, e1, IsNonzero, k, vs, st);
    case Bin(_, _, _, _) => BinReaches(h, e, k, vs, st);
    case And(_, _) => AndReaches(h, e, k, vs, st);
    case Call(f, bits, e1) => OperandReaches(h, c, e1, Invoke(f, bits), k, vs, st);
    case Probe(site, e1) =>
      EvalReaches(h, e1, k, vs, st.(ticks := st.ticks + [site]));
      Around(h, c, 0, d);
      AtLeast(h, c, 1, d, 0);
  }

  /** From any configuration that goes on to evaluate e and then to do t. */
  lemma {:induction false} OperandReaches(h: Host, c: Config, e: Expr, t: Task, k: Todo, vs: Values, st: State)
    requires Next(h, c) == Running(Then(Evaluate(e), Then(t, k)), vs, st)
    ensures var v := Eval(h, e, st);
            var d := Next(h, Running(Then(t, k), Push(v.v, vs), v.st));
            Reaches(h, c, 0, d) && Reaches(h, c, 1, d)
    decreases e, 3
  {
    var v := Eval(h, e, st);
    var d := Running(Then(t, k), Push(v.v, vs), v.st);
    EvalReaches(h, e, Then(t, k), vs, st);
    Around(h, c, 0, d);
    AtLeast(h, c, 2, Next(h, d), 0);
    AtLeast(h, c, 2, Next(h, d), 1);
  }

  lemma {:induction false} BinReaches(h: Host, e: Expr, k: Todo, vs: Values, st: State)
    requires e.Bin?
    ensures var t := Eval(h, e, st);
            Reaches(h, Running(Then(Evaluate(e), k), vs, st), 0, Running(k, Push(t.v, vs), t.st))
    decreases e, 0
  {
    var c, op := Running(Then(Evaluate(e), k), vs, st), Then(Operate(e.op, e.bits), k);
    var a := Eval(h, e.l, st);
    var b := Eval(h, e.r, a.st);
    var c2 := Running(Then(Evaluate(e.r), op), Push(a.v, vs), a.st);
    EvalReaches(h, e.l, Then(Evaluate(e.r), op), vs, st);
    EvalReaches(h, e.r, op, Push(a.v, vs), a.st);
    var d := Running(op, Push(b.v, Push(a.v, vs)), b.st);
    GoesOn(h, Next(h, c), 0, c2, 0, d);
    Around(h, c, 0, d);
    AtLeast(h, c, 2, Next(h, d), 0);
  }

  lemma {:induction false} AndReaches(h: Host, e: Expr, k: Todo, vs: Values, st: State)
    requires e.And?
    ensures var t := Eval(h, e, st);
            Reaches(h, Running(Then(Evaluate(e), k), vs, st), 0, Running(k, Push(t.v, vs), t.st))
    decreases e, 0
  {
    var c, a := Running(Then(Evaluate(e), k), vs, st), Eval(h, e.l, st);
    OperandReaches(h, c, e.l, Unless0(e.r), k, vs, st);
    if a.v != 0 {
      var c2 := Running(Then(Evaluate(e.r), Then(IsNonzero, k)), vs, a.st);
      var b := Eval(h, e.r, a.st);
      var d := Running(Then(IsNonzero, k), Push(b.v, vs), b.st);
      EvalReaches(h, e.r, Then(IsNonzero, k), vs, a.st);
      GoesOn(h, c, 0, c2, 0, d);
      Moves(h, d);
      GoesOn(h, c, 0, d, 1, Next(h, d));
      AtLeast(h, c, 1, Next(h, d), 0);
    }
  }

  // ---------- statements ----------

  /** Where the machine is when a statement has ended, with k left to do. */
  function Ended(o: Outcome, k: Todo, vs: Values): Config {
    if o.exit.Normal? then Running(k, vs, o.st) else Leaving(o.exit, k, vs, o.st)
  }

  /** After that many steps, or more, there is still something to do. */
  ghost predicate Lasts(h: Host, c: Config, least: nat) {
    exists d :: Reaches(h, c, least, d) && !Final(d)
  }

  /** From c the machine ends as the interpreter does, or where the interpreter runs out of fuel it
      takes more steps than there was fuel. */
  ghost predicate Matches(h: Host, c: Config, fuel: nat, o: Outcome, k: Todo, vs: Values) {
    if o.exit.OutOfFuel? then Lasts(h, c, fuel + 1) else Reaches(h, c, 0, Ended(o, k, vs))
  }

  lemma MatchesFrom(h: Host, c: Config, m: nat, d: Config, fuel: nat, o: Outcome, k: Todo, vs: Values)
    requires Reaches(h, c, m, d) && Matches(h, d, fuel, o, k, vs)
    ensures Matches(h, c, fuel + m, o, k, vs) && Matches(h, c, fuel, o, k, vs)
  {
    if o.exit.OutOfFuel? {
      var e :| Reaches(h, d, fuel + 1, e) && !Final(e);
      GoesOn(h, c, m, d, fuel + 1, e);
      AtLeast(h, c, fuel + m + 1, e, fuel + 1);
    } else {
      GoesOn(h, c, m, d, 0, Ended(o, k, vs));
      AtLeast(h, c, m, Ended(o, k, vs), 0);
    }
  }

  lemma MatchesAtOnce(h: Host, c: Config, fuel: nat, o: Outcome, k: Todo, vs: Values)
    requires !o.exit.OutOfFuel? && Next(h, c) == Ended(o, k, vs)
    ensures Matches(h, c, fuel, o, k, vs)
  {
    Moves(h, c);
    AtLeast(h, c, 1, Next(h, c), 0);
  }

  /** One more step after a part has ended, whatever is left to do then. */
  lemma MatchesThrough(h: Host, c: Config, fuel: nat, o: Outcome, t: Task, k: Todo, vs: Values, p: Outcome)
    requires Matches(h, c, fuel, o, Then(t, k), vs)
    requires o.exit.OutOfFuel? <==> p.exit.OutOfFuel?
    requires !o.exit.OutOfFuel? ==> Next(h, Ended(o, Then(t, k), vs)) == Ended(p, k, vs)
    ensures Matches(h, c, fuel, p, k, vs)
  {
    if !o.exit.OutOfFuel? {
      var d := Ended(o, Then(t, k), vs);
      Moves(h, d);
      GoesOn(h, c, 0, d, 1, Next(h, d));
      AtLeast(h, c, 1, Next(h, d), 0);
    }
  }

  lemma {:induction false} ExecMatches(h: Host, s: Stmt, k: Todo, vs: Values, st: State, fuel: nat)
    requires Expanded(s)
    ensures Matches(h, Running(Then(Execute(s), k), vs, st), fuel, Exec(h, s, st, fuel), k, vs)
    decreases fuel, s, 1
  {
    var c, o := Running(Then(Execute(s), k), vs, st), Exec(h, s, st, fuel);
    match s
    case Expression(e) => OperandReaches(h, c, e, Discard, k, vs, st);
    case Block(items) =>
      Moves(h, c);
      ItemsMatch(h, items, k, vs, st, fuel);
      MatchesFrom(h, c, 1, Next(h, c), fuel, o, k, vs);
    case If(e, thn) => ChoiceMatches(h, s, e, thn, Empty, k, vs, st, fuel);
    case IfElse(e, thn, els) => ChoiceMatches(h, s, e, thn, els, k, vs, st, fuel);
    case While(_, _) => WhileMatches(h, s, k, vs, st, fuel);
    case DoWhile(_, _) => DoWhileMatches(h, s, k, vs, st, fuel);
    case Return(e) => OperandReaches(h, c, e, HandBack, k, vs, st);
    case Report(_, _, _, _) => ReportMatches(h, s, k, vs, st, fuel);
    case _ => MatchesAtOnce(h, c, fuel, o, k, vs);
  }

  lemma {:induction false} ChoiceMatches(h: Host, s: Stmt, e: Expr, thn: Stmt, els: Stmt, k: Todo, vs: Values,
                                         st: State, fuel: nat)
    requires (s == If(e, thn) && els == Empty) || s == IfElse(e, thn, els)
    requires Expanded(thn) && Expanded(els)
    ensures Matches(h, Running(Then(Execute(s), k), vs, st), fuel, Exec(h, s, st, fuel), k, vs)
    decreases fuel, s, 0
  {
    var c, v := Running(Then(Execute(s), k), vs, st), Eval(h, e, st);
    OperandReaches(h, c, e, Choose(thn, els), k, vs, st);
    var d := Running(Then(Execute(if v.v == 0 then els else thn), k), vs, v.st);
    if v.v != 0 {
      ExecMatches(h, thn, k, vs, v.st, fuel);
    } else if s.If? {
      MatchesAtOnce(h, d, fuel, Outcome(Normal, v.st), k, vs);
    } else {
      ExecMatches(h, els, k, vs, v.st, fuel);
    }
    MatchesFrom(h, c, 0, d, fuel, Exec(h, s, st, fuel), k, vs);
  }

  lemma {:induction false} ReportMatches(h: Host, s: Stmt, k: Todo, vs: Values, st: State, fuel: nat)
    requires s.Report?
    ensures Matches(h, Running(Then(Execute(s), k), vs, st), fuel, Exec(h, s, st, fuel), k, vs)
  {
    var c, k1 := Running(Then(Execute(s), k), vs, st), Then(Emit(s.text, s.at), k);
    var m := Eval(h, s.message, st);
    var code := Eval(h, s.code, m.st);
    EvalReaches(h, s.message, Then(Evaluate(s.code), k1), vs, st);
    EvalReaches(h, s.code, k1, Push(m.v, vs), m.st);
    var d := Running(k1, Push(code.v, Push(m.v, vs)), code.st);
    GoesOn(h, Next(h, c), 0, Running(Then(Evaluate(s.code), k1), Push(m.v, vs), m.st), 0, d);
    Around(h, c, 0, d);
    AtLeast(h, c, 2, Next(h, d), 0);
  }

  /** Once round a loop, when the machine matches from the end of the body on. */
  lemma {:induction false} RoundMatches(h: Host, s: Stmt, d: Config, o: Outcome, k: Todo, vs: Values, fuel: nat,
                                        p: Outcome)
    requires Matches(h, d, fuel, o, Then(Again(s), k), vs)
    requires if o.exit.Broke? then p == Outcome(Normal, o.st)
             else if o.exit.Normal? || o.exit.Continued? then
               Matches(h, Running(Then(Again(s), k), vs, o.st), fuel, p, k, vs)
             else p == o
    ensures Matches(h, d, fuel, p, k, vs)
  {
    var b, a := Ended(o, Then(Again(s), k), vs), Running(Then(Again(s), k), vs, o.st);
    if o.exit.Normal? {
      MatchesFrom(h, d, 0, a, fuel, p, k, vs);
    } else if !o.exit.OutOfFuel? {
      Moves(h, b);
      GoesOn(h, d, 0, b, 1, Next(h, b));
      if o.exit.Continued? {
        MatchesFrom(h, d, 1, a, fuel, p, k, vs);
      } else {
        AtLeast(h, d, 1, Next(h, b), 0);
      }
    }
  }

  lemma NextRound(h: Host, a: Config, s: Stmt, k: Todo, vs: Values, st: State, fuel: nat, p: Outcome)
    requires Reaches(h, a, 1, Running(Then(Execute(s), k), vs, st))
    requires if fuel == 0 then p.exit.OutOfFuel?
             else Matches(h, Running(Then(Execute(s), k), vs, st), fuel - 1, p, k, vs)
    ensures Matches(h, a, fuel, p, k, vs)
  {
    var e := Running(Then(Execute(s), k), vs, st);
    if fuel == 0 {
      assert !Final(e);
    } else {
      MatchesFrom(h, a, 1, e, fuel - 1, p, k, vs);
    }
  }

  lemma {:induction false} WhileMatches(h: Host, s: Stmt, k: Todo, vs: Values, st: State, fuel: nat)
    requires s.While? && Expanded(s)
    ensures Matches(h, Running(Then(Execute(s), k), vs, st), fuel, Exec(h, s, st, fuel), k, vs)
    decreases fuel, s, 0
  {
    var c, v, p := Running(Then(Execute(s), k), vs, st), Eval(h, s.c, st), Exec(h, s, st, fuel);
    OperandReaches(h, c, s.c, Decide(s), k, vs, st);
    if v.v != 0 {
      var d := Running(Then(Execute(s.body), Then(Again(s), k)), vs, v.st);
      ExecMatches(h, s.body, Then(Again(s), k), vs, v.st, fuel);
      var o := Exec(h, s.body, v.st, fuel);
      if o.exit.Normal? || o.exit.Continued? {
        if fuel > 0 { ExecMatches(h, s, k, vs, o.st, fuel - 1); }
        Moves(h, Running(Then(Again(s), k), vs, o.st));
        NextRound(h, Running(Then(Again(s), k), vs, o.st), s, k, vs, o.st, fuel, p);
      }
      RoundMatches(h, s, d, o, k, vs, fuel, p);
      MatchesFrom(h, c, 0, d, fuel, p, k, vs);
    }
  }

  lemma {:induction false} DoWhileMatches(h: Host, s: Stmt, k: Todo, vs: Values, st: State, fuel: nat)
    requires s.DoWhile? && Expanded(s)
    ensures Matches(h, Running(Then(Execute(s), k), vs, st), fuel, Exec(h, s, st, fuel), k, vs)
    decreases fuel, s, 0
  {
    var c, o, p := Running(Then(Execute(s), k), vs, st), Exec(h, s.body, st, fuel), Exec(h, s, st, fuel);
    Moves(h, c);
    ExecMatches(h, s.body, Then(Again(s), k), vs, st, fuel);
    if o.exit.Normal? || o.exit.Continued? {
      var a, v := Running(Then(Again(s), k), vs, o.st), Eval(h, s.c, o.st);
      OperandReaches(h, a, s.c, Decide(s), k, vs, o.st);
      if v.v != 0 {
        if fuel > 0 { ExecMatches(h, s, k, vs, v.st, fuel - 1); }
        NextRound(h, a, s, k, vs, v.st, fuel, p);
      }
    }
    RoundMatches(h, s, Next(h, c), o, k, vs, fuel, p);
    MatchesFrom(h, c, 1, Next(h, c), fuel, p, k, vs);
  }

  lemma {:induction false} ItemsMatch(h: Host, items: Items, k: Todo, vs: Values, st: State, fuel: nat)
    requires ExpandedItems(items)
    ensures Matches(h, Running(Then(ExecuteItems(items), k), vs, st), fuel, ExecItems(h, items, st, fuel), k, vs)
    decreases fuel, items, 1
  {
    var c, p := Running(Then(ExecuteItems(items), k), vs, st), ExecItems(h, items, st, fuel);
    match items
    case Nil => MatchesAtOnce(h, c, fuel, p, k, vs);
    case Cons(s, tail) =>
      var o := Exec(h, s, st, fuel);
      Moves(h, c);
      ExecMatches(h, s, Then(ExecuteItems(tail), k), vs, st, fuel);
      MatchesFrom(h, c, 1, Next(h, c), fuel, o, Then(ExecuteItems(tail), k), vs);
      if o.exit.Normal? {
        ItemsMatch(h, tail, k, vs, o.st, fuel);
        MatchesFrom(h, c, 0, Running(Then(ExecuteItems(tail), k), vs, o.st), fuel, p, k, vs);
      } else {
        MatchesThrough(h, c, fuel, o, ExecuteItems(tail), k, vs, p);
      }
    case Local(_, _, _, _) => LocalMatches(h, items, k, vs, st, fuel);
  }

  lemma {:induction false} LocalMatches(h: Host, items: Items, k: Todo, vs: Values, st: State, fuel: nat)
    requires items.Local? && ExpandedItems(items)
    ensures Matches(h, Running(Then(ExecuteItems(items), k), vs, st), fuel, ExecItems(h, items, st, fuel), k, vs)
    decreases fuel, items, 0
  {
    var c, p := Running(Then(ExecuteItems(items), k), vs, st), ExecItems(h, items, st, fuel);
    var st0, k1 := st.(env := Declared(h, items.name, items.bits, st.env)), Then(EndScope, k);
    var t := Eval(h, items.init, st0);
    var st1 := t.st.(env := Write(t.st.env, items.name, t.v));
    OperandReaches(h, c, items.init, Bind(items.name), Then(ExecuteItems(items.tail), k1), vs, st0);
    ItemsMatch(h, items.tail, k1, vs, st1, fuel);
    var o := ExecItems(h, items.tail, st1, fuel);
    MatchesFrom(h, c, 0, Running(Then(ExecuteItems(items.tail), k1), vs, st1), fuel, o, k1, vs);
    MatchesThrough(h, c, fuel, o, EndScope, k, vs, p);
  }

  // ---------- the two semantics are the same ----------

  lemma {:induction false} FinalStays(h: Host, c: Config, n: nat)
    requires Final(c)
    ensures Steps(h, c, n) == c
    decreases n
  {
    if n > 0 { FinalStays(h, c, n - 1); }
  }

  function Initial(s: Stmt, st: State): Config { Running(Then(Execute(s), Done), NoValues, st) }

  /** Started on s, the machine comes to a halt with that outcome. */
  ghost predicate Halts(h: Host, s: Stmt, st: State, o: Outcome) {
    !o.exit.OutOfFuel? && Reaches(h, Initial(s, st), 0, Ended(o, Done, NoValues))
  }

  /** Given enough fuel, the interpreter ends with that outcome. */
  ghost predicate Completes(h: Host, s: Stmt, st: State, o: Outcome) {
    !o.exit.OutOfFuel? && exists fuel: nat :: Exec(h, s, st, fuel) == o
  }

  /** A machine that halts does so once, and does nothing afterwards. */
  lemma HaltsOnce(h: Host, c: Config, i: nat, d: Config, m: nat, e: Config)
    requires Steps(h, c, i) == d && Final(d) && Reaches(h, c, m, e) && (i <= m || Final(e))
    ensures e == d
  {
    var j: nat :| j >= m && Steps(h, c, j) == e;
    if i <= j {
      StepsAdd(h, c, i, j - i);
      FinalStays(h, d, j - i);
    } else {
      StepsAdd(h, c, j, i - j);
      FinalStays(h, e, i - j);
    }
  }

  /** For every statement without macro uses, on every host and from every state: the interpreter
      ends with an outcome, given enough fuel, if and only if the machine halts with it. */
  lemma InterpreterIsMachine(h: Host, s: Stmt, st: State, o: Outcome)
    requires Expanded(s)
    ensures Completes(h, s, st, o) <==> Halts(h, s, st, o)
  {
    var c := Initial(s, st);
    if Completes(h, s, st, o) {
      var fuel: nat :| Exec(h, s, st, fuel) == o;
      ExecMatches(h, s, Done, NoValues, st, fuel);
    }
    if Halts(h, s, st, o) {
      var d := Ended(o, Done, NoValues);
      var n: nat :| Steps(h, c, n) == d;
      ExecMatches(h, s, Done, NoValues, st, n);
      var p := Exec(h, s, st, n);
      if p.exit.OutOfFuel? {
        var e :| Reaches(h, c, n + 1, e) && !Final(e);
        HaltsOnce(h, c, n, d, n + 1, e);
        assert false;
      } else {
        HaltsOnce(h, c, n, d, 0, Ended(p, Done, NoValues));
        assert p == o;
      }
    }
  }
}
