/**
  Functions in the style the header is for: a body, then labelled sections that handle
  exceptions, each falling through to the next.
  */
module Functions {
  import opened Common
  import opened Forms
  import opened MiniC
  import opened Expansion
  import opened Simulation
  import opened Guarantees
  import opened Discipline

  /** The first section is the body; its name is never the target of a jump. */
  datatype Section = Section(name: Label, body: Stmt)

  function Position(fn: seq<Section>, l: Label): Option<nat> {
    PositionFrom(fn, l, 1)
  }

  function PositionFrom(fn: seq<Section>, l: Label, i: nat): (p: Option<nat>)
    ensures p.Some? ==> i <= p.value < |fn| && fn[p.value].name == l
    ensures forall j :: i <= j < |fn| && fn[j].name == l ==> p.Some? && p.value <= j
    decreases |fn| - i
  {
    if i >= |fn| then None else if fn[i].name == l then Some(i) else PositionFrom(fn, l, i + 1)
  }

  /** Runs from section i on. */
  function RunFrom(h: Host, fn: seq<Section>, i: nat, st: State, fuel: nat): Outcome
    requires i <= |fn|
    decreases fuel, |fn| - i, 1
  {
    if i == |fn| then Outcome(Normal, st) else Proceed(h, fn, i, Exec(h, fn[i].body, st, fuel), fuel)
  }

  /** Goes on from the outcome of section i.  A jump spends one unit of fuel. */
  function Proceed(h: Host, fn: seq<Section>, i: nat, o: Outcome, fuel: nat): Outcome
    requires i < |fn|
    decreases fuel, |fn| - i, 0
  {
    if o.exit.Normal? then RunFrom(h, fn, i + 1, o.st, fuel)
    else if o.exit.Jumped? && Position(fn, o.exit.target).Some? then
      if fuel == 0 then Outcome(OutOfFuel, o.st)
      else RunFrom(h, fn, Position(fn, o.exit.target).value, o.st, fuel - 1)
    else o
  }

  function ExpandAll(longBits: nat, b: Build, fn: seq<Section>): (r: seq<Section>)
    ensures |r| == |fn|
    ensures forall i :: 0 <= i < |fn| ==> r[i] == Section(fn[i].name, Expand(longBits, b, fn[i].body))
  {
    if fn == [] then []
    else [Section(fn[0].name, Expand(longBits, b, fn[0].body))] + ExpandAll(longBits, b, fn[1..])
  }

  predicate PlainAll(fn: seq<Section>) {
    forall i :: 0 <= i < |fn| ==> Plain(fn[i].body)
  }

  lemma {:induction false} SamePositions(longBits: nat, b: Build, fn: seq<Section>, l: Label, i: nat)
    ensures PositionFrom(ExpandAll(longBits, b, fn), l, i) == PositionFrom(fn, l, i)
    decreases |fn| - i
  {
    if i < |fn| { SamePositions(longBits, b, fn, l, i + 1); }
  }

  lemma {:induction false} HazardStaysFrom(h: Host, fn: seq<Section>, i: nat, r: State, fuel: nat)
    requires i <= |fn| && r.notes.hazard
    ensures RunFrom(h, fn, i, r, fuel).st.notes.hazard
    decreases fuel, |fn| - i, 1
  {
    if i < |fn| {
      HazardStays(h, fn[i].body, r, fuel);
      HazardStaysAfter(h, fn, i, Exec(h, fn[i].body, r, fuel), fuel);
    }
  }

  lemma {:induction false} HazardStaysAfter(h: Host, fn: seq<Section>, i: nat, p: Outcome, fuel: nat)
    requires i < |fn| && p.st.notes.hazard
    ensures Proceed(h, fn, i, p, fuel).st.notes.hazard
    decreases fuel, |fn| - i, 0
  {
    if p.exit.Normal? {
      HazardStaysFrom(h, fn, i + 1, p.st, fuel);
    } else if p.exit.Jumped? && Position(fn, p.exit.target).Some? && fuel > 0 {
      HazardStaysFrom(h, fn, Position(fn, p.exit.target).value, p.st, fuel - 1);
    }
  }

  lemma {:induction false} FunctionTracks(h: Host, b: Build, log0: seq<Message>, fn: seq<Section>, i: nat,
                                          s: State, r: State, fuel: nat)
    requires i <= |fn| && PlainAll(fn) && Follows(b, log0, s, r)
    requires b.Production? || !RunFrom(h, fn, i, r, fuel).st.notes.hazard
    ensures var o, p := RunFrom(h, ExpandAll(h.longBits, b, fn), i, s, fuel), RunFrom(h, fn, i, r, fuel);
            o.exit == p.exit && Follows(b, log0, o.st, p.st)
    decreases fuel, |fn| - i, 1
  {
    if i < |fn| {
      var o, p := Exec(h, Expand(h.longBits, b, fn[i].body), s, fuel), Exec(h, fn[i].body, r, fuel);
      if p.st.notes.hazard { HazardStaysAfter(h, fn, i, p, fuel); }
      Simulates(h, b, log0, fn[i].body, s, r, fuel);
      ProceedTracks(h, b, log0, fn, i, o, p, fuel);
    }
  }

  lemma {:induction false} ProceedTracks(h: Host, b: Build, log0: seq<Message>, fn: seq<Section>, i: nat,
                                         o: Outcome, p: Outcome, fuel: nat)
    requires i < |fn| && PlainAll(fn) && o.exit == p.exit && Follows(b, log0, o.st, p.st)
    requires b.Production? || !Proceed(h, fn, i, p, fuel).st.notes.hazard
    ensures var o', p' := Proceed(h, ExpandAll(h.longBits, b, fn), i, o, fuel), Proceed(h, fn, i, p, fuel);
            o'.exit == p'.exit && Follows(b, log0, o'.st, p'.st)
    decreases fuel, |fn| - i, 0
  {
    if p.exit.Normal? {
      FunctionTracks(h, b, log0, fn, i + 1, o.st, p.st, fuel);
    } else if p.exit.Jumped? {
      SamePositions(h.longBits, b, fn, p.exit.target, 1);
      var j := Position(fn, p.exit.target);
      if j.Some? && fuel > 0 { FunctionTracks(h, b, log0, fn, j.value, o.st, p.st, fuel - 1); }
    }
  }

  lemma {:induction false} FunctionKeepsScopes(h: Host, fn: seq<Section>, i: nat, s: State, fuel: nat)
    requires i <= |fn|
    ensures Scopes(RunFrom(h, fn, i, s, fuel).st.env) == Scopes(s.env)
    decreases fuel, |fn| - i
  {
    if i < |fn| {
      ExecKeepsScopes(h, fn[i].body, s, fuel);
      var o := Exec(h, fn[i].body, s, fuel);
      if o.exit.Normal? {
        FunctionKeepsScopes(h, fn, i + 1, o.st, fuel);
      } else if o.exit.Jumped? && Position(fn, o.exit.target).Some? && fuel > 0 {
        FunctionKeepsScopes(h, fn, Position(fn, o.exit.target).value, o.st, fuel - 1);
      }
    }
  }

  /** A run of either build of a function, set beside its meaning. */
  lemma FunctionFollows(h: Host, b: Build, fn: seq<Section>, s: State, fuel: nat)
    requires PlainAll(fn) && Clean(s.env)
    requires b.Production? || !RunFrom(h, fn, 0, Start(s), fuel).st.notes.hazard
    ensures var o := RunFrom(h, ExpandAll(h.longBits, b, fn), 0, s, fuel);
            var p := RunFrom(h, fn, 0, Start(s), fuel);
            && o.exit == p.exit
            && o.st.env == p.st.env
            && o.st.calls == p.st.calls
            && o.st.ticks == (if b.Debug? then p.st.notes.reached else p.st.notes.tested)
            && o.st.log == (if b.Debug? then p.st.notes.failed else s.log)
  {
    var xs := ExpandAll(h.longBits, b, fn);
    FunctionTracks(h, b, s.log, fn, 0, s, Start(s), fuel);
    FunctionKeepsScopes(h, xs, 0, s, fuel);
    SameScopesClean(RunFrom(h, xs, 0, s, fuel).st.env, s.env);
  }

  /** Jumps taken and all, a function that meets no hazard ends the same way in both builds, with
      the same variables and calls, and the debug build has logged exactly what is owed. */
  lemma SafeFunctionsAgree(h: Host, fn: seq<Section>, s: State, fuel: nat)
    requires PlainAll(fn) && Clean(s.env) && !RunFrom(h, fn, 0, Start(s), fuel).st.notes.hazard
    ensures var p := RunFrom(h, ExpandAll(h.longBits, Production, fn), 0, s, fuel);
            var d := RunFrom(h, ExpandAll(h.longBits, Debug, fn), 0, s, fuel);
            && p.exit == d.exit
            && p.st.env == d.st.env
            && p.st.calls == d.st.calls
            && p.st.log == s.log
            && d.st.log == RunFrom(h, fn, 0, Start(s), fuel).st.notes.failed
  {
    FunctionFollows(h, Production, fn, s, fuel);
    FunctionFollows(h, Debug, fn, s, fuel);
  }

  predicate DisciplinedAll(longBits: nat, scope: Env, fn: seq<Section>) {
    forall i :: 0 <= i < |fn| ==> Disciplined(longBits, scope, fn[i].body)
  }

  lemma {:induction false} DisciplinedFunctionIsSafe(h: Host, fn: seq<Section>, i: nat, r: State, fuel: nat)
    requires i <= |fn| && DisciplinedAll(h.longBits, Scopes(r.env), fn) && Sound(r.env)
    ensures RunFrom(h, fn, i, r, fuel).st.notes.hazard == r.notes.hazard
    decreases fuel, |fn| - i
  {
    if i < |fn| {
      DisciplineIsSafe(h, fn[i].body, r, fuel);
      ExecSafe(h, fn[i].body, r, fuel);
      var o := Exec(h, fn[i].body, r, fuel);
      if o.exit.Normal? {
        DisciplinedFunctionIsSafe(h, fn, i + 1, o.st, fuel);
      } else if o.exit.Jumped? && Position(fn, o.exit.target).Some? && fuel > 0 {
        DisciplinedFunctionIsSafe(h, fn, Position(fn, o.exit.target).value, o.st, fuel - 1);
      }
    }
  }

  /** The same for every function that keeps the rules. */
  lemma FunctionsAgree(h: Host, fn: seq<Section>, s: State, fuel: nat)
    requires PlainAll(fn) && DisciplinedAll(h.longBits, Scopes(s.env), fn) && Clean(s.env) && Sound(s.env)
    ensures var p := RunFrom(h, ExpandAll(h.longBits, Production, fn), 0, s, fuel);
            var d := RunFrom(h, ExpandAll(h.longBits, Debug, fn), 0, s, fuel);
            && p.exit == d.exit
            && p.st.env == d.st.env
            && p.st.calls == d.st.calls
            && p.st.log == s.log
            && d.st.log == RunFrom(h, fn, 0, Start(s), fuel).st.notes.failed
  {
    DisciplinedFunctionIsSafe(h, fn, 0, Start(s), fuel);
    SafeFunctionsAgree(h, fn, s, fuel);
  }

  // ---------- fuel only cuts runs short ----------

  lemma {:induction false} MoreFuel(h: Host, s: Stmt, st: State, fuel: nat, more: nat)
    requires fuel <= more && !Exec(h, s, st, fuel).exit.OutOfFuel?
    ensures Exec(h, s, st, more) == Exec(h, s, st, fuel)
    decreases fuel, s
  {
    match s
    case Block(items) => MoreFuelItems(h, items, st, fuel, more);
    case If(c, thn) =>
      if Eval(h, c, st).v != 0 { MoreFuel(h, thn, Eval(h, c, st).st, fuel, more); }
    case IfElse(c, thn, els) =>
      var t := Eval(h, c, st);
      if t.v != 0 { MoreFuel(h, thn, t.st, fuel, more); } else { MoreFuel(h, els, t.st, fuel, more); }
    case While(c, body) =>
      var t := Eval(h, c, st);
      if t.v != 0 {
        MoreFuel(h, body, t.st, fuel, more);
        var o := Exec(h, body, t.st, fuel);
        if o.exit.Normal? || o.exit.Continued? { MoreFuel(h, s, o.st, fuel - 1, more - 1); }
      }
    case DoWhile(body, c) =>
      MoreFuel(h, body, st, fuel, more);
      var o := Exec(h, body, st, fuel);
      if o.exit.Normal? || o.exit.Continued? {
        var t := Eval(h, c, o.st);
        if t.v != 0 { MoreFuel(h, s, t.st, fuel - 1, more - 1); }
      }
    case Use(site, f, arg, l, m, action) =>
      var t := Test(h, site, f, arg, l, m, st);
      if t.fails && HasAction(f) { MoreFuel(h, action, t.st, fuel, more); }
    case _ =>
  }

  lemma {:induction false} MoreFuelItems(h: Host, items: Items, st: State, fuel: nat, more: nat)
    requires fuel <= more && !ExecItems(h, items, st, fuel).exit.OutOfFuel?
    ensures ExecItems(h, items, st, more) == ExecItems(h, items, st, fuel)
    decreases fuel, items
  {
    match items
    case Nil =>
    case Cons(s, tail) =>
      MoreFuel(h, s, st, fuel, more);
      var o := Exec(h, s, st, fuel);
      if o.exit.Normal? { MoreFuelItems(h, tail, o.st, fuel, more); }
    case Local(x, bits, init, tail) =>
      var t := Eval(h, init, st.(env := Declared(h, x, bits, st.env)));
      MoreFuelItems(h, tail, t.st.(env := Write(t.st.env, x, t.v)), fuel, more);
  }

  lemma {:induction false} FunctionMoreFuel(h: Host, fn: seq<Section>, i: nat, st: State, fuel: nat, more: nat)
    requires i <= |fn| && fuel <= more && !RunFrom(h, fn, i, st, fuel).exit.OutOfFuel?
    ensures RunFrom(h, fn, i, st, more) == RunFrom(h, fn, i, st, fuel)
    decreases fuel, |fn| - i
  {
    if i < |fn| {
      var o := Exec(h, fn[i].body, st, fuel);
      MoreFuel(h, fn[i].body, st, fuel, more);
      if o.exit.Normal? {
        FunctionMoreFuel(h, fn, i + 1, o.st, fuel, more);
      } else if o.exit.Jumped? && Position(fn, o.exit.target).Some? {
        FunctionMoreFuel(h, fn, Position(fn, o.exit.target).value, o.st, fuel - 1, more - 1);
      }
    }
  }

  /** Given enough fuel, the function ends by that exit with those variables and calls. */
  ghost predicate Ends(h: Host, fn: seq<Section>, s: State, exit: Exit, env: Env, calls: seq<Event>) {
    !exit.OutOfFuel? && exists fuel: nat :: EndsWithin(h, fn, s, fuel, exit, env, calls)
  }

  ghost predicate EndsWithin(h: Host, fn: seq<Section>, s: State, fuel: nat, exit: Exit, env: Env, calls: seq<Event>) {
    var o := RunFrom(h, fn, 0, s, fuel);
    o.exit == exit && o.st.env == env && o.st.calls == calls
  }

  /** A function ends in one way at most. */
  lemma EndsOnce(h: Host, fn: seq<Section>, s: State,
                 x: Exit, env: Env, calls: seq<Event>, x': Exit, env': Env, calls': seq<Event>)
    requires Ends(h, fn, s, x, env, calls) && Ends(h, fn, s, x', env', calls')
    ensures x == x' && env == env' && calls == calls'
  {
    var m: nat :| EndsWithin(h, fn, s, m, x, env, calls);
    var n: nat :| EndsWithin(h, fn, s, n, x', env', calls');
    if m <= n { FunctionMoreFuel(h, fn, 0, s, m, n); } else { FunctionMoreFuel(h, fn, 0, s, n, m); }
  }

  /** A function that keeps the rules ends in one build if and only if it ends in the other, and
      then by the same exit with the same variables and calls.  A statement is a function of one
      section. */
  lemma EndsAlike(h: Host, fn: seq<Section>, s: State, exit: Exit, env: Env, calls: seq<Event>)
    requires PlainAll(fn) && DisciplinedAll(h.longBits, Scopes(s.env), fn) && Clean(s.env) && Sound(s.env)
    ensures Ends(h, ExpandAll(h.longBits, Production, fn), s, exit, env, calls) <==>
            Ends(h, ExpandAll(h.longBits, Debug, fn), s, exit, env, calls)
  {
    var ps, ds := ExpandAll(h.longBits, Production, fn), ExpandAll(h.longBits, Debug, fn);
    forall fuel: nat
      ensures EndsWithin(h, ps, s, fuel, exit, env, calls) <==> EndsWithin(h, ds, s, fuel, exit, env, calls)
    {
      FunctionsAgree(h, fn, s, fuel);
    }
  }
}
