/**
  What the header promises about whole programs: the two builds differ only in diagnostics.
  */
module Guarantees {
  import opened Forms
  import opened MiniC
  import opened Expansion
  import opened Simulation

  // ---------- the builds agree ----------

  /** No copy of an error code is in scope, as in any function before its first macro. */
  predicate Clean(env: Env) {
    Erase(env) == env
  }

  /** The unexpanded program starts with nothing owed and nothing reached. */
  function Start(s: State): State {
    s.(notes := Notes(s.log, s.ticks, s.ticks, false))
  }

  lemma SameScopesClean(a: Env, b: Env)
    requires Scopes(a) == Scopes(b) && Clean(b)
    ensures Clean(a)
  {
    match a
    case Top(_, _) =>
    case Frame(_, _, _, outer) => EraseShrinks(b.outer); SameScopesClean(outer, b.outer);
  }

  function Depth(env: Env): nat {
    match env
    case Top(_, _) => 0
    case Frame(_, _, _, outer) => 1 + Depth(outer)
  }

  lemma EraseShrinks(env: Env)
    ensures Depth(Erase(env)) <= Depth(env)
  {
  }

  /** A run of either build, set beside the meaning of the program. */
  lemma RunFollows(h: Host, b: Build, u: Stmt, s: State, fuel: nat)
    requires Plain(u) && Clean(s.env)
    requires b.Production? || !Exec(h, u, Start(s), fuel).st.notes.hazard
    ensures var o, p := Exec(h, Expand(h.longBits, b, u), s, fuel), Exec(h, u, Start(s), fuel);
            && o.exit == p.exit
            && o.st.env == p.st.env
            && o.st.calls == p.st.calls
            && o.st.ticks == (if b.Debug? then p.st.notes.reached else p.st.notes.tested)
            && o.st.log == (if b.Debug? then p.st.notes.failed else s.log)
  {
    Simulates(h, b, s.log, u, s, Start(s), fuel);
    ExecKeepsScopes(h, Expand(h.longBits, b, u), s, fuel);
    SameScopesClean(Exec(h, Expand(h.longBits, b, u), s, fuel).st.env, s.env);
  }

  /** The two builds reach the same variables, by the same exit, having made the same calls.
      The production build logs nothing; the debug build logs exactly what is owed. */
  lemma BuildsAgree(h: Host, u: Stmt, s: State, fuel: nat)
    requires Plain(u) && Clean(s.env)
    requires !Exec(h, u, Start(s), fuel).st.notes.hazard
    ensures var p := Exec(h, Expand(h.longBits, Production, u), s, fuel);
            var d := Exec(h, Expand(h.longBits, Debug, u), s, fuel);
            && p.exit == d.exit
            && p.st.env == d.st.env
            && p.st.calls == d.st.calls
            && p.st.log == s.log
            && d.st.log == Exec(h, u, Start(s), fuel).st.notes.failed
  {
    RunFollows(h, Production, u, s, fuel);
    RunFollows(h, Debug, u, s, fuel);
  }

  // ---------- how often arguments are evaluated ----------

  function Without(sites: seq<nat>, dropped: set<nat>): seq<nat> {
    if sites == [] then []
    else
      var last := sites[|sites| - 1];
      var front := Without(sites[..|sites| - 1], dropped);
      if last in dropped then front else front + [last]
  }

  lemma WithoutAppend(sites: seq<nat>, site: nat, dropped: set<nat>)
    ensures Without(sites + [site], dropped) ==
            if site in dropped then Without(sites, dropped) else Without(sites, dropped) + [site]
  {
    assert (sites + [site])[..|sites|] == sites;
  }

  /** `checks` are the sites of the Check forms of the program, and of no other form. */
  predicate ChecksAt(s: Stmt, checks: set<nat>) {
    match s
    case Block(items) => ChecksAtItems(items, checks)
    case If(_, thn) => ChecksAt(thn, checks)
    case IfElse(_, thn, els) => ChecksAt(thn, checks) && ChecksAt(els, checks)
    case While(_, body) => ChecksAt(body, checks)
    case DoWhile(body, _) => ChecksAt(body, checks)
    case Use(site, f, _, _, _, action) => (IsCheck(f) <==> site in checks) && ChecksAt(action, checks)
    case _ => true
  }

  predicate ChecksAtItems(items: Items, checks: set<nat>) {
    match items
    case Nil => true
    case Cons(s, tail) => ChecksAt(s, checks) && ChecksAtItems(tail, checks)
    case Local(_, _, _, tail) => ChecksAtItems(tail, checks)
  }

  ghost predicate Counted(r: State, checks: set<nat>) {
    r.notes.tested == Without(r.notes.reached, checks)
  }

  lemma TestCounts(h: Host, site: nat, f: Form, arg: Expr, l: Label, m: Expr, checks: set<nat>, r: State)
    requires IsCheck(f) <==> site in checks
    requires Counted(r, checks)
    ensures Counted(Test(h, site, f, arg, l, m, r).st, checks)
  {
    WithoutAppend(r.notes.reached, site, checks);
  }

  /** Over a whole run a production build evaluates the arguments a debug build evaluates,
      as often and in the same order, except that it never evaluates those of Check forms. */
  lemma {:induction false} RunCounts(h: Host, u: Stmt, checks: set<nat>, r: State, fuel: nat)
    requires ChecksAt(u, checks) && Counted(r, checks)
    ensures Counted(Exec(h, u, r, fuel).st, checks)
    decreases fuel, u
  {
    match u
    case Empty =>
    case Expression(e) => EvalKeeps(h, e, r);
    case Block(items) => ItemsCount(h, items, checks, r, fuel);
    case If(c, thn) =>
      EvalKeeps(h, c, r);
      RunCounts(h, thn, checks, Eval(h, c, r).st, fuel);
    case IfElse(c, thn, els) =>
      EvalKeeps(h, c, r);
      RunCounts(h, thn, checks, Eval(h, c, r).st, fuel);
      RunCounts(h, els, checks, Eval(h, c, r).st, fuel);
    case While(c, body) =>
      EvalKeeps(h, c, r);
      RunCounts(h, body, checks, Eval(h, c, r).st, fuel);
      if fuel > 0 { RunCounts(h, u, checks, Exec(h, body, Eval(h, c, r).st, fuel).st, fuel - 1); }
    case DoWhile(body, c) =>
      RunCounts(h, body, checks, r, fuel);
      var o := Exec(h, body, r, fuel);
      EvalKeeps(h, c, o.st);
      if fuel > 0 { RunCounts(h, u, checks, Eval(h, c, o.st).st, fuel - 1); }
    case Return(e) => EvalKeeps(h, e, r);
    case Report(_, _, m, c) => EvalKeeps(h, m, r); EvalKeeps(h, c, Eval(h, m, r).st);
    case Use(site, f, arg, l, m, action) =>
      TestCounts(h, site, f, arg, l, m, checks, r);
      RunCounts(h, action, checks, Test(h, site, f, arg, l, m, r).st, fuel);
    case _ =>
  }

  lemma {:induction false} ItemsCount(h: Host, items: Items, checks: set<nat>, r: State, fuel: nat)
    requires ChecksAtItems(items, checks) && Counted(r, checks)
    ensures Counted(ExecItems(h, items, r, fuel).st, checks)
    decreases fuel, items
  {
    match items
    case Nil =>
    case Cons(s, tail) =>
      RunCounts(h, s, checks, r, fuel);
      ItemsCount(h, tail, checks, Exec(h, s, r, fuel).st, fuel);
    case Local(x, bits, init, tail) =>
      var r1 := r.(env := Declared(h, x, bits, r.env));
      EvalKeeps(h, init, r1);
      var t := Eval(h, init, r1);
      ItemsCount(h, tail, checks, t.st.(env := Write(t.st.env, x, t.v)), fuel);
  }

  /** The same, of the expanded programs. */
  lemma EvaluationCounts(h: Host, u: Stmt, checks: set<nat>, s: State, fuel: nat)
    requires Plain(u) && Clean(s.env) && ChecksAt(u, checks) && s.ticks == []
    requires !Exec(h, u, Start(s), fuel).st.notes.hazard
    ensures Exec(h, Expand(h.longBits, Production, u), s, fuel).st.ticks ==
            Without(Exec(h, Expand(h.longBits, Debug, u), s, fuel).st.ticks, checks)
  {
    RunFollows(h, Production, u, s, fuel);
    RunFollows(h, Debug, u, s, fuel);
    RunCounts(h, u, checks, Start(s), fuel);
  }
}
