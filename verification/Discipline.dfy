/**
  Rules a user can keep, each checked in the program text, under which the builds agree on
  every run; and what exactly goes wrong where a rule is broken.
  */
module Discipline {
  import opened Common
  import opened Forms
  import opened MiniC
  import opened Expansion
  import opened Simulation
  import opened Guarantees

  // ---------- narrowing ----------

  /** Residue is the remainder of division by a power of two. */
  lemma {:induction false} ResidueIsRemainder(bits: nat, v: int) returns (q: int)
    ensures v == q * Pow2(bits) + Residue(bits, v)
  {
    if bits == 0 {
      q := v;
    } else {
      q := ResidueIsRemainder(bits - 1, v / 2);
      assert v == 2 * (v / 2) + v % 2;
    }
  }

  lemma {:induction false} MultipleLeavesNothing(bits: nat, q: int)
    ensures Residue(bits, q * Pow2(bits)) == 0
  {
    if bits > 0 {
      var half := q * Pow2(bits - 1);
      assert q * Pow2(bits) == 2 * half;
      MultipleLeavesNothing(bits - 1, q);
    }
  }

  ghost predicate IsMultiple(v: int, m: int) {
    exists q: int :: v == q * m
  }

  /** A test of the `long` copy decides as a test of the code itself, unless the code is a
      multiple of 2^bits other than 0. */
  lemma {:induction false} NarrowingDecides(bits: nat, v: int)
    ensures (v != 0) == (Narrow(bits, v) != 0) <==> v == 0 || !IsMultiple(v, Pow2(bits))
  {
    var q := ResidueIsRemainder(bits, v);
    if IsMultiple(v, Pow2(bits)) {
      var k :| v == k * Pow2(bits);
      MultipleLeavesNothing(bits, k);
    }
  }

  /** Conversion gives the value of that width that is congruent to v. */
  lemma NarrowIsConversion(bits: nat, v: int) returns (q: int)
    requires bits > 0
    ensures v == q * Pow2(bits) + Narrow(bits, v)
    ensures -Pow2(bits - 1) <= Narrow(bits, v) < Pow2(bits - 1)
  {
    q := ResidueIsRemainder(bits, v);
    if Narrow(bits, v) < 0 { q := q + 1; }
  }

  lemma {:induction false} SmallKeepsError(bits: nat, v: int)
    requires -Pow2(bits) < v < Pow2(bits) && v != 0
    ensures Narrow(bits, v) != 0
  {
    if bits > 0 && v % 2 == 0 { SmallKeepsError(bits - 1, v / 2); }
  }

  lemma Pow2Grows(a: nat, b: nat)
    requires a <= b
    ensures Pow2(a) <= Pow2(b)
  {
  }

  /** Every OSErr (16 bits) and every OSStatus (32 bits) survives a `long` of 32 or of 64 bits. */
  lemma OsCodesSurvive(longBits: nat, codeBits: nat, v: int)
    requires longBits == 32 || longBits == 64
    requires codeBits == 16 || codeBits == 32
    requires -Pow2(codeBits - 1) <= v < Pow2(codeBits - 1)
    ensures (v != 0) == (Narrow(longBits, v) != 0)
  {
    Pow2Grows(codeBits - 1, longBits - 1);
    assert Pow2(longBits - 1) < Pow2(longBits);
    if v != 0 { SmallKeepsError(longBits, v); }
  }

  // ---------- the rules ----------

  /** Evaluating it changes nothing. */
  predicate Pure(e: Expr) {
    match e
    case Const(_) => true
    case Var(_) => true
    case Set(_, _) => false
    case Cast(_, e1) => Pure(e1)
    case Not(e1) => Pure(e1)
    case IsError(e1) => Pure(e1)
    case Bin(_, _, e1, e2) => Pure(e1) && Pure(e2)
    case And(e1, e2) => Pure(e1) && Pure(e2)
    case Call(_, _, _) => false
    case Probe(_, _) => false
  }

  lemma PureKeeps(h: Host, e: Expr, s: State)
    requires Pure(e)
    ensures Eval(h, e, s).st == s
  {
  }

  // ---------- declared widths ----------

  /** The values of a signed type of that many bits. */
  predicate InWidth(bits: nat, v: int) {
    if bits == 0 then v == 0 else -Pow2(bits - 1) <= v < Pow2(bits - 1)
  }

  lemma NarrowInWidth(bits: nat, v: int)
    ensures InWidth(bits, Narrow(bits, v))
  {
    if bits > 0 { var _ := NarrowIsConversion(bits, v); }
  }

  lemma InWidthKeepsError(longBits: nat, bits: nat, v: int)
    requires InWidth(bits, v) && bits <= longBits && v != 0
    ensures Narrow(longBits, v) != 0
  {
    assert Pow2(bits) == 2 * Pow2(bits - 1);
    Pow2Grows(bits, longBits);
    SmallKeepsError(longBits, v);
  }

  /** The width a name is declared with, where it is in scope. */
  function WidthOf(env: Env, x: Name): Option<nat> {
    match env
    case Top(_, w) => if x in w then Some(w[x]) else None
    case Frame(y, bits, _, outer) => if x == y then Some(bits) else WidthOf(outer, x)
  }

  /** Every variable holds a value of its width. */
  predicate Sound(env: Env) {
    match env
    case Top(g, w) => forall x :: x in g && x in w ==> InWidth(w[x], g[x])
    case Frame(_, bits, v, outer) => InWidth(bits, v) && Sound(outer)
  }

  lemma {:induction false} ReadInWidth(env: Env, x: Name)
    requires Sound(env) && WidthOf(env, x).Some?
    ensures InWidth(WidthOf(env, x).value, Read(env, x))
  {
    match env
    case Top(g, w) => if x !in g && w[x] > 0 { Pow2Grows(0, w[x] - 1); }
    case Frame(y, _, _, outer) => if x != y { ReadInWidth(outer, x); }
  }

  lemma {:induction false} SameScopesSameWidth(a: Env, b: Env, x: Name)
    requires Scopes(a) == Scopes(b)
    ensures WidthOf(a, x) == WidthOf(b, x)
  {
    match a
    case Top(_, _) =>
    case Frame(_, _, _, outer) => SameScopesSameWidth(outer, b.outer, x);
  }

  lemma {:induction false} WidthInScope(env: Env, x: Name)
    ensures WidthOf(Scopes(env), x) == WidthOf(env, x)
  {
    match env
    case Top(_, _) =>
    case Frame(_, _, _, outer) => WidthInScope(outer, x);
  }

  // ---------- what variables do ----------

  /** A variable holds what was last written to it, converted to its declared width, and a write
      to one leaves the others alone. */
  lemma {:induction false} ReadWritten(env: Env, x: Name, y: Name, v: int)
    ensures Read(Write(env, x, v), y) ==
            if y != x then Read(env, y) else if WidthOf(env, x).Some? then Narrow(WidthOf(env, x).value, v) else v
  {
    match env
    case Top(_, _) =>
    case Frame(z, _, _, outer) => if z != x { ReadWritten(outer, x, y, v); }
  }

  predicate IsLocal(env: Env, x: Name) { env.Frame? && (env.name == x || IsLocal(env.outer, x)) }

  /** Code outside the program sees the globals, and what it makes of them is what the program
      reads next; it cannot reach a local, nor a global that a local hides. */
  lemma {:induction false} GlobalsChanged(env: Env, g: map<Name, int>, x: Name)
    ensures IsLocal(env, x) ==> Read(WithGlobals(env, g), x) == Read(env, x)
    ensures !IsLocal(env, x) ==>
              && Read(env, x) == (if x in Globals(env) then Globals(env)[x] else 0)
              && Read(WithGlobals(env, g), x) ==
                 if x !in g then 0
                 else if WidthOf(env, x).Some? then Narrow(WidthOf(env, x).value, g[x]) else g[x]
  {
    match env
    case Top(_, _) =>
    case Frame(z, _, _, outer) => if z != x { GlobalsChanged(outer, g, x); }
  }

  lemma {:induction false} WriteSound(env: Env, x: Name, v: int)
    requires Sound(env)
    ensures Sound(Write(env, x, v))
  {
    match env
    case Top(_, w) => if x in w { NarrowInWidth(w[x], v); }
    case Frame(y, bits, _, outer) => if x == y { NarrowInWidth(bits, v); } else { WriteSound(outer, x, v); }
  }

  lemma {:induction false} GlobalsSound(env: Env, g: map<Name, int>)
    requires Sound(env)
    ensures Sound(WithGlobals(env, g))
  {
    match env
    case Top(_, w) =>
      forall x | x in g && x in w ensures InWidth(w[x], Narrow(w[x], g[x])) { NarrowInWidth(w[x], g[x]); }
    case Frame(_, _, _, outer) => GlobalsSound(outer, g);
  }

  lemma {:induction false} EvalSound(h: Host, e: Expr, s: State)
    requires Sound(s.env)
    ensures Sound(Eval(h, e, s).st.env)
    decreases e
  {
    match e
    case Const(_) =>
    case Var(_) =>
    case Set(x, e1) => EvalSound(h, e1, s); WriteSound(Eval(h, e1, s).st.env, x, Eval(h, e1, s).v);
    case Cast(_, e1) => EvalSound(h, e1, s);
    case Not(e1) => EvalSound(h, e1, s);
    case IsError(e1) => EvalSound(h, e1, s);
    case Bin(_, _, e1, e2) => EvalSound(h, e1, s); EvalSound(h, e2, Eval(h, e1, s).st);
    case And(e1, e2) => EvalSound(h, e1, s); EvalSound(h, e2, Eval(h, e1, s).st);
    case Call(f, _, e1) =>
      EvalSound(h, e1, s);
      var r := Eval(h, e1, s);
      GlobalsSound(r.st.env, h.external(r.st.calls + [Called(f, r.v)], Globals(r.st.env)).1);
    case Probe(site, e1) => EvalSound(h, e1, s.(ticks := s.ticks + [site]));
  }

  /** No statement, by whatever exit, leaves a variable with a value its type cannot hold. */
  lemma {:induction false} ExecSound(h: Host, s: Stmt, st: State, fuel: nat)
    requires Sound(st.env)
    ensures Sound(Exec(h, s, st, fuel).st.env)
    decreases fuel, s
  {
    match s
    case Expression(e) => EvalSound(h, e, st);
    case Block(items) => ItemsSound(h, items, st, fuel);
    case If(c, thn) => EvalSound(h, c, st); ExecSound(h, thn, Eval(h, c, st).st, fuel);
    case IfElse(c, thn, els) =>
      EvalSound(h, c, st);
      ExecSound(h, thn, Eval(h, c, st).st, fuel);
      ExecSound(h, els, Eval(h, c, st).st, fuel);
    case While(c, body) =>
      EvalSound(h, c, st);
      ExecSound(h, body, Eval(h, c, st).st, fuel);
      if fuel > 0 { ExecSound(h, s, Exec(h, body, Eval(h, c, st).st, fuel).st, fuel - 1); }
    case DoWhile(body, c) =>
      ExecSound(h, body, st, fuel);
      var o := Exec(h, body, st, fuel);
      EvalSound(h, c, o.st);
      if fuel > 0 { ExecSound(h, s, Eval(h, c, o.st).st, fuel - 1); }
    case Return(e) => EvalSound(h, e, st);
    case Report(_, _, m, c) => EvalSound(h, m, st); EvalSound(h, c, Eval(h, m, st).st);
    case Use(site, f, arg, l, m, action) =>
      EvalSound(h, arg, st);
      ExecSound(h, action, Test(h, site, f, arg, l, m, st).st, fuel);
    case _ =>
  }

  lemma {:induction false} ItemsSound(h: Host, items: Items, st: State, fuel: nat)
    requires Sound(st.env)
    ensures Sound(ExecItems(h, items, st, fuel).st.env)
    decreases fuel, items
  {
    match items
    case Nil =>
    case Cons(s, tail) => ExecSound(h, s, st, fuel); ItemsSound(h, tail, Exec(h, s, st, fuel).st, fuel);
    case Local(x, bits, init, tail) =>
      var s0 := st.(env := Declared(h, x, bits, st.env));
      NarrowInWidth(bits, h.garbage);
      EvalSound(h, init, s0);
      var t := Eval(h, init, s0);
      WriteSound(t.st.env, x, t.v);
      ItemsSound(h, tail, t.st.(env := Write(t.st.env, x, t.v)), fuel);
  }

  /** Its type is no wider than a `long` of that many bits: a variable or an assignment has the
      declared width of the variable, a call or a sum that of its type, a comparison is an int. */
  predicate Fits(longBits: nat, scope: Env, e: Expr) {
    match e
    case Const(n) => n == 0 || Narrow(longBits, n) != 0
    case Var(x) => WidthOf(scope, x).Some? && WidthOf(scope, x).value <= longBits
    case Set(x, _) => WidthOf(scope, x).Some? && WidthOf(scope, x).value <= longBits
    case Cast(bits, _) => bits <= longBits
    case Call(_, bits, _) => bits <= longBits
    case Not(_) => longBits > 0
    case IsError(_) => longBits > 0
    case And(_, _) => longBits > 0
    case Bin(op, bits, _, _) => if op.Less? || op.Equal? then longBits > 0 else bits <= longBits
    case Probe(_, _) => false
  }

  lemma VariableFits(h: Host, e: Expr, s: State)
    requires (e.Var? || e.Set?) && Fits(h.longBits, Scopes(s.env), e) && Sound(s.env)
    ensures var v := Eval(h, e, s).v; v != 0 ==> Narrow(h.longBits, v) != 0
  {
    var t := Eval(h, e, s);
    EvalSound(h, e, s);
    EvalKeepsScopes(h, e, s);
    WidthInScope(s.env, e.x);
    SameScopesSameWidth(t.st.env, s.env, e.x);
    assert t.v == Read(t.st.env, e.x);
    ReadInWidth(t.st.env, e.x);
    if t.v != 0 { InWidthKeepsError(h.longBits, WidthOf(s.env, e.x).value, t.v); }
  }

  /** An error code whose type is no wider than `long` is never lost in the copy. */
  lemma FitsKeepsError(h: Host, e: Expr, s: State)
    requires Fits(h.longBits, Scopes(s.env), e) && Sound(s.env)
    ensures var v := Eval(h, e, s).v; v != 0 ==> Narrow(h.longBits, v) != 0
  {
    var v := Eval(h, e, s).v;
    if v == 0 || e.Const? {
    } else if e.Var? || e.Set? {
      VariableFits(h, e, s);
    } else if e.Cast? {
      NarrowInWidth(e.bits, Eval(h, e.e, s).v);
      InWidthKeepsError(h.longBits, e.bits, v);
    } else if e.Call? {
      var r := Eval(h, e.arg, s);
      NarrowInWidth(e.bits, h.external(r.st.calls + [Called(e.f, r.v)], Globals(r.st.env)).0);
      InWidthKeepsError(h.longBits, e.bits, v);
    } else if e.Bin? && (e.op.Add? || e.op.Subtract?) {
      var a := Eval(h, e.l, s);
      var b := Eval(h, e.r, a.st);
      NarrowInWidth(e.bits, if e.op.Add? then a.v + b.v else a.v - b.v);
      InWidthKeepsError(h.longBits, e.bits, v);
    } else {
      assert v == 1 && Pow2(h.longBits) == 2 * Pow2(h.longBits - 1);
      SmallKeepsError(h.longBits, v);
    }
  }

  /** A break or continue in it may lead out of it.  The Require forms hold theirs in. */
  predicate Jumps(s: Stmt) {
    match s
    case Break => true
    case Continue => true
    case Block(items) => JumpsItems(items)
    case If(_, thn) => Jumps(thn)
    case IfElse(_, thn, els) => Jumps(thn) || Jumps(els)
    case Use(_, f, _, _, _, action) => f.VerifiesWithAction? && Jumps(action)
    case _ => false
  }

  predicate JumpsItems(items: Items) {
    match items
    case Nil => false
    case Cons(s, tail) => Jumps(s) || JumpsItems(tail)
    case Local(_, _, _, tail) => JumpsItems(tail)
  }

  predicate Leaves(x: Exit) { x.Broke? || x.Continued? }

  lemma {:induction false} StaysInside(h: Host, s: Stmt, st: State, fuel: nat)
    requires !Jumps(s)
    ensures !Leaves(Exec(h, s, st, fuel).exit)
    decreases fuel, s
  {
    match s
    case Block(items) => ItemsStayInside(h, items, st, fuel);
    case If(c, thn) => StaysInside(h, thn, Eval(h, c, st).st, fuel);
    case IfElse(c, thn, els) =>
      StaysInside(h, thn, Eval(h, c, st).st, fuel);
      StaysInside(h, els, Eval(h, c, st).st, fuel);
    case While(c, body) =>
      if fuel > 0 { StaysInside(h, s, Exec(h, body, Eval(h, c, st).st, fuel).st, fuel - 1); }
    case DoWhile(body, c) =>
      if fuel > 0 { StaysInside(h, s, Eval(h, c, Exec(h, body, st, fuel).st).st, fuel - 1); }
    case Use(site, f, arg, l, m, action) =>
      if f.VerifiesWithAction? { StaysInside(h, action, Test(h, site, f, arg, l, m, st).st, fuel); }
    case _ =>
  }

  lemma {:induction false} ItemsStayInside(h: Host, items: Items, st: State, fuel: nat)
    requires !JumpsItems(items)
    ensures !Leaves(ExecItems(h, items, st, fuel).exit)
    decreases fuel, items
  {
    match items
    case Nil =>
    case Cons(s, tail) =>
      StaysInside(h, s, st, fuel);
      ItemsStayInside(h, tail, Exec(h, s, st, fuel).st, fuel);
    case Local(x, bits, init, tail) =>
      var t := Eval(h, init, st.(env := Declared(h, x, bits, st.env)));
      ItemsStayInside(h, tail, t.st.(env := Write(t.st.env, x, t.v)), fuel);
  }

  /** Arguments of Check forms and messages are pure, copied error codes fit in a `long`, and
      no break or continue leads out of the action of a __Verify_noErr_Action.  `scope` has the
      declarations in scope. */
  predicate Disciplined(longBits: nat, scope: Env, s: Stmt)
    decreases s
  {
    match s
    case Block(items) => DisciplinedItems(longBits, scope, items)
    case If(_, thn) => Disciplined(longBits, scope, thn)
    case IfElse(_, thn, els) => Disciplined(longBits, scope, thn) && Disciplined(longBits, scope, els)
    case While(_, body) => Disciplined(longBits, scope, body)
    case DoWhile(body, _) => Disciplined(longBits, scope, body)
    case Use(_, f, arg, _, m, action) =>
      && (IsCheck(f) ==> Pure(arg))
      && (HasString(f) ==> Pure(m))
      && (CopiesCode(f) ==> Fits(longBits, scope, arg))
      && (PartsOnJumps(f) ==> !Jumps(action))
      && (HasAction(f) ==> Disciplined(longBits, scope, action))
    case _ => true
  }

  predicate DisciplinedItems(longBits: nat, scope: Env, items: Items)
    decreases items
  {
    match items
    case Nil => true
    case Cons(s, tail) => Disciplined(longBits, scope, s) && DisciplinedItems(longBits, scope, tail)
    case Local(x, bits, _, tail) => DisciplinedItems(longBits, Frame(x, bits, 0, scope), tail)
  }

  /** __Require_noErr(code, l) */
  function RequireNoErr(code: Expr, l: Label): Stmt {
    Use(0, Requires(true, false, Loud), code, l, Const(0), Empty)
  }

  /** What the header is for: an OSErr or OSStatus in a variable, assigned from a call in the
      argument, or just returned by one, on hosts with a `long` of 32 or of 64 bits. */
  lemma UsualArgumentsAreDisciplined(longBits: nat, bits: nat, scope: Env, err: Name, f: Name, l: Label)
    requires (longBits == 32 || longBits == 64) && (bits == 16 || bits == 32)
    ensures var call := Call(f, bits, Const(0));
            var inVariable := Local(err, bits, call, Cons(RequireNoErr(Var(err), l), Nil));
            var inArgument := Local(err, bits, Const(0), Cons(RequireNoErr(Set(err, call), l), Nil));
            && Disciplined(longBits, scope, Block(inVariable))
            && Disciplined(longBits, scope, Block(inArgument))
            && Disciplined(longBits, scope, RequireNoErr(call, l))
  {
    var call := Call(f, bits, Const(0));
    var inner := Frame(err, bits, 0, scope);
    assert WidthOf(inner, err) == Some(bits);
    assert Disciplined(longBits, inner, RequireNoErr(Var(err), l));
    assert Disciplined(longBits, inner, RequireNoErr(Set(err, call), l));
    assert DisciplinedItems(longBits, inner, Nil);
    assert DisciplinedItems(longBits, inner, Cons(RequireNoErr(Var(err), l), Nil));
    assert DisciplinedItems(longBits, inner, Cons(RequireNoErr(Set(err, call), l), Nil));
  }

  lemma DisciplinedTest(h: Host, u: Stmt, r: State)
    requires u.Use? && Disciplined(h.longBits, Scopes(r.env), u) && Sound(r.env)
    ensures Test(h, u.site, u.form, u.arg, u.handler, u.message, r).st.notes.hazard == r.notes.hazard
  {
    var f := u.form;
    var t := Eval(h, u.arg, r);
    if IsCheck(f) { PureKeeps(h, u.arg, r); }
    if HasString(f) { PureKeeps(h, u.message, t.st); PureKeeps(h, u.message, r); }
    if CopiesCode(f) { FitsKeepsError(h, u.arg, r); }
  }

  /** What an expression leaves: the same notes and declarations, and sound variables. */
  lemma EvalSafe(h: Host, e: Expr, r: State)
    requires Sound(r.env)
    ensures var t := Eval(h, e, r).st;
            t.notes == r.notes && Scopes(t.env) == Scopes(r.env) && Sound(t.env)
  {
    EvalKeeps(h, e, r);
    EvalKeepsScopes(h, e, r);
    EvalSound(h, e, r);
  }

  lemma ExecSafe(h: Host, u: Stmt, r: State, fuel: nat)
    requires Sound(r.env)
    ensures var t := Exec(h, u, r, fuel).st; Scopes(t.env) == Scopes(r.env) && Sound(t.env)
  {
    ExecKeepsScopes(h, u, r, fuel);
    ExecSound(h, u, r, fuel);
  }

  /** A disciplined program meets no hazard, whatever the state and however long it runs. */
  lemma {:induction false} DisciplineIsSafe(h: Host, u: Stmt, r: State, fuel: nat)
    requires Disciplined(h.longBits, Scopes(r.env), u) && Sound(r.env)
    ensures Exec(h, u, r, fuel).st.notes.hazard == r.notes.hazard
    decreases fuel, u, 1
  {
    match u
    case Empty =>
    case Expression(e) => EvalKeeps(h, e, r);
    case Block(items) => DisciplineIsSafeItems(h, items, r, fuel);
    case If(c, thn) =>
      EvalSafe(h, c, r);
      DisciplineIsSafe(h, thn, Eval(h, c, r).st, fuel);
    case IfElse(c, thn, els) =>
      EvalSafe(h, c, r);
      DisciplineIsSafe(h, thn, Eval(h, c, r).st, fuel);
      DisciplineIsSafe(h, els, Eval(h, c, r).st, fuel);
    case While(c, body) =>
      EvalSafe(h, c, r);
      var t := Eval(h, c, r).st;
      DisciplineIsSafe(h, body, t, fuel);
      ExecSafe(h, body, t, fuel);
      if fuel > 0 { DisciplineIsSafe(h, u, Exec(h, body, t, fuel).st, fuel - 1); }
    case DoWhile(body, c) =>
      DisciplineIsSafe(h, body, r, fuel);
      ExecSafe(h, body, r, fuel);
      var o := Exec(h, body, r, fuel);
      EvalSafe(h, c, o.st);
      if fuel > 0 { DisciplineIsSafe(h, u, Eval(h, c, o.st).st, fuel - 1); }
    case Return(e) => EvalKeeps(h, e, r);
    case Report(_, _, m, c) => EvalKeeps(h, m, r); EvalKeeps(h, c, Eval(h, m, r).st);
    case Use(_, _, _, _, _, _) => DisciplinedUseIsSafe(h, u, r, fuel);
    case _ =>
  }

  lemma {:induction false} DisciplinedUseIsSafe(h: Host, u: Stmt, r: State, fuel: nat)
    requires u.Use? && Disciplined(h.longBits, Scopes(r.env), u) && Sound(r.env)
    ensures Exec(h, u, r, fuel).st.notes.hazard == r.notes.hazard
    decreases fuel, u, 0
  {
    DisciplinedTest(h, u, r);
    if HasAction(u.form) {
      var r1 := Test(h, u.site, u.form, u.arg, u.handler, u.message, r).st;
      EvalSafe(h, u.arg, r);
      DisciplineIsSafe(h, u.action, r1, fuel);
      if PartsOnJumps(u.form) { StaysInside(h, u.action, r1, fuel); }
    }
  }

  lemma {:induction false} DisciplineIsSafeItems(h: Host, items: Items, r: State, fuel: nat)
    requires DisciplinedItems(h.longBits, Scopes(r.env), items) && Sound(r.env)
    ensures ExecItems(h, items, r, fuel).st.notes.hazard == r.notes.hazard
    decreases fuel, items, 1
  {
    match items
    case Nil =>
    case Cons(s, tail) =>
      DisciplineIsSafe(h, s, r, fuel);
      ExecSafe(h, s, r, fuel);
      DisciplineIsSafeItems(h, tail, Exec(h, s, r, fuel).st, fuel);
    case Local(x, bits, init, tail) =>
      var r0 := r.(env := Declared(h, x, bits, r.env));
      NarrowInWidth(bits, h.garbage);
      EvalSafe(h, init, r0);
      var t := Eval(h, init, r0);
      WriteSound(t.st.env, x, t.v);
      WriteKeepsScopes(t.st.env, x, t.v);
      DisciplineIsSafeItems(h, tail, t.st.(env := Write(t.st.env, x, t.v)), fuel);
  }

  /** The header's promise: a disciplined program does the same in both builds, from every state
      a program can be in, on every host, on every run. */
  lemma DisciplinedBuildsAgree(h: Host, u: Stmt, s: State, fuel: nat)
    requires Plain(u) && Disciplined(h.longBits, Scopes(s.env), u) && Clean(s.env) && Sound(s.env)
    ensures var p := Exec(h, Expand(h.longBits, Production, u), s, fuel);
            var d := Exec(h, Expand(h.longBits, Debug, u), s, fuel);
            && p.exit == d.exit
            && p.st.env == d.st.env
            && p.st.calls == d.st.calls
            && p.st.log == s.log
            && d.st.log == Exec(h, u, Start(s), fuel).st.notes.failed
  {
    DisciplineIsSafe(h, u, Start(s), fuel);
    BuildsAgree(h, u, s, fuel);
  }
}
