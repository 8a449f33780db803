/**
  Laws of the statements: each says of one statement what another one does.
  */
module Laws {
  import opened Common
  import opened MiniC
  import opened Expansion
  import opened MacroText
  import opened Simulation
  import opened Discipline
  import opened Functions
  import opened SmallStep

  /** An `else` branch is the `then` branch of the negation. */
  lemma ElseIsThen(h: Host, c: Expr, a: Stmt, b: Stmt, s: State, fuel: nat)
    ensures Exec(h, IfElse(Not(c), b, a), s, fuel) == Exec(h, IfElse(c, a, b), s, fuel)
    ensures Exec(h, IfElse(c, a, Empty), s, fuel) == Exec(h, If(c, a), s, fuel)
  {
    var t := Eval(h, c, s);
    assert Eval(h, Not(c), s) == Value(Truth(t.v == 0), t.st);
    assert Exec(h, Empty, t.st, fuel) == Outcome(Normal, t.st);
  }

  /** { one two } */
  function Both(one: Stmt, two: Stmt): Stmt { Block(Cons(one, Only(two))) }

  lemma {:induction false} RunBoth(h: Host, one: Stmt, two: Stmt, s: State, fuel: nat)
    ensures var o := Exec(h, one, s, fuel);
            Exec(h, Both(one, two), s, fuel) == if o.exit.Normal? then Exec(h, two, o.st, fuel) else o
  {
    var o := Exec(h, one, s, fuel);
    RunOnly(h, two, o.st, fuel);
    assert ExecItems(h, Cons(one, Only(two)), s, fuel) ==
           if o.exit.Normal? then ExecItems(h, Only(two), o.st, fuel) else o;
    assert Exec(h, Both(one, two), s, fuel) == ExecItems(h, Cons(one, Only(two)), s, fuel);
  }

  /** while (c) b  is  if (c) { b while (c) b }, when no break or continue leads out of b. */
  lemma {:induction false} WhileUnrolls(h: Host, c: Expr, b: Stmt, s: State, o: Outcome)
    requires !Jumps(b)
    ensures Completes(h, While(c, b), s, o) <==> Completes(h, If(c, Both(b, While(c, b))), s, o)
  {
    var loop, t := While(c, b), Eval(h, c, s);
    if Completes(h, loop, s, o) {
      var f: nat :| Exec(h, loop, s, f) == o;
      var p := Exec(h, b, t.st, f);
      StaysInside(h, b, t.st, f);
      RunBoth(h, b, loop, t.st, f);
      if t.v != 0 && p.exit.Normal? { MoreFuel(h, loop, p.st, f - 1, f); }
      assert Exec(h, If(c, Both(b, loop)), s, f) == o;
    }
    if Completes(h, If(c, Both(b, loop)), s, o) {
      var f: nat :| Exec(h, If(c, Both(b, loop)), s, f) == o;
      var p := Exec(h, b, t.st, f);
      StaysInside(h, b, t.st, f);
      RunBoth(h, b, loop, t.st, f);
      if t.v != 0 { MoreFuel(h, b, t.st, f, f + 1); }
      assert Exec(h, loop, s, f + 1) == o;
    }
  }

  /** do b while (c);  is  { b if (c) do b while (c); }, when no break or continue leads out of b. */
  lemma {:induction false} DoWhileUnrolls(h: Host, c: Expr, b: Stmt, s: State, o: Outcome)
    requires !Jumps(b)
    ensures Completes(h, DoWhile(b, c), s, o) <==> Completes(h, Both(b, If(c, DoWhile(b, c))), s, o)
  {
    var loop, again := DoWhile(b, c), If(c, DoWhile(b, c));
    if Completes(h, loop, s, o) {
      var f: nat :| Exec(h, loop, s, f) == o;
      var p := Exec(h, b, s, f);
      StaysInside(h, b, s, f);
      RunBoth(h, b, again, s, f);
      var t := Eval(h, c, p.st);
      if p.exit.Normal? && t.v != 0 { MoreFuel(h, loop, t.st, f - 1, f); }
      assert Exec(h, Both(b, again), s, f) == o;
    }
    if Completes(h, Both(b, again), s, o) {
      var f: nat :| Exec(h, Both(b, again), s, f) == o;
      StaysInside(h, b, s, f);
      RunBoth(h, b, again, s, f);
      MoreFuel(h, b, s, f, f + 1);
      assert Exec(h, loop, s, f + 1) == o;
    }
  }

  /** break ends a loop and continue starts the next round. */
  lemma BreakAndContinue(h: Host, c: Expr, b: Stmt, s: State, fuel: nat)
    requires Eval(h, c, s).v != 0 && fuel > 0
    ensures Exec(h, While(c, Both(Break, b)), s, fuel) == Outcome(Normal, Eval(h, c, s).st)
    ensures Exec(h, While(c, Both(Continue, b)), s, fuel) ==
            Exec(h, While(c, Both(Continue, b)), Eval(h, c, s).st, fuel - 1)
  {
    RunBoth(h, Break, b, Eval(h, c, s).st, fuel);
    RunBoth(h, Continue, b, Eval(h, c, s).st, fuel);
  }

  /** The rules are about macro uses only: a program without any keeps them. */
  lemma {:induction false} MacroFreeIsDisciplined(longBits: nat, scope: Env, s: Stmt)
    requires Expanded(s)
    ensures Disciplined(longBits, scope, s)
    decreases s
  {
    match s
    case Block(items) => MacroFreeItems(longBits, scope, items);
    case If(_, thn) => MacroFreeIsDisciplined(longBits, scope, thn);
    case IfElse(_, thn, els) =>
      MacroFreeIsDisciplined(longBits, scope, thn);
      MacroFreeIsDisciplined(longBits, scope, els);
    case While(_, body) => MacroFreeIsDisciplined(longBits, scope, body);
    case DoWhile(body, _) => MacroFreeIsDisciplined(longBits, scope, body);
    case _ =>
  }

  lemma {:induction false} MacroFreeItems(longBits: nat, scope: Env, items: Items)
    requires ExpandedItems(items)
    ensures DisciplinedItems(longBits, scope, items)
    decreases items
  {
    match items
    case Nil =>
    case Cons(s, tail) => MacroFreeIsDisciplined(longBits, scope, s); MacroFreeItems(longBits, scope, tail);
    case Local(x, bits, _, tail) => MacroFreeItems(longBits, Frame(x, bits, 0, scope), tail);
  }
}
