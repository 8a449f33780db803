/**
  What each macro of basic-headers/AssertMacros.h expands to, as a statement, in each build.
  `__builtin_expect(x, 0)` is x.
  */
module Expansion {
  import opened Common
  import opened Forms
  import opened MiniC

  // ---------- pieces the replacement lists are made of ----------

  /** do { items } while ( 0 ) */
  function Wrapper(items: Items): Stmt {
    DoWhile(Block(items), Const(0))
  }

  function Only(s: Stmt): Items {
    Cons(s, Nil)
  }

  /** DEBUG_ASSERT_MESSAGE(...); whose default definition supplies a semicolon of its own. */
  function Tell(text: Text, at: Option<Label>, message: Expr, code: Expr, rest: Items): Items {
    Cons(Report(text, at, message, code), Cons(Empty, rest))
  }

  /** The text of the statement ends in a semicolon, which the user leaves to the macro. */
  predicate EndsInSemicolon(s: Stmt) {
    match s
    case Block(_) => false
    case If(_, thn) => EndsInSemicolon(thn)
    case IfElse(_, _, els) => EndsInSemicolon(els)
    case While(_, body) => EndsInSemicolon(body)
    case _ => true
  }

  /** `action;` -- when the action already ends in a brace the semicolon is an empty statement. */
  function Spliced(action: Stmt): Items {
    if EndsInSemicolon(action) then Only(action) else Cons(action, Only(Empty))
  }

  /** { action; } goto handler; */
  function ActThenJump(action: Stmt, handler: Label): Items {
    Cons(Block(Spliced(action)), Only(Goto(handler)))
  }

  /** do { if ( !(a) ) { body } } while ( 0 ), and the same with `0 != (e)` */
  function Tests(c: Expr, body: Items): Stmt {
    Wrapper(Only(If(c, Block(body))))
  }

  /** do { long evalOnceErrorCode = (e); if ( 0 != evalOnceErrorCode ) { body } } while ( 0 ) */
  function CopiesAndTests(longBits: nat, e: Expr, body: Items): Stmt {
    Wrapper(Local(EVAL_ONCE, longBits, e, Only(If(IsError(Var(EVAL_ONCE)), Block(body)))))
  }

  /** if ( c ) { body } else do {} while (0) */
  function ClosedIf(c: Expr, body: Items): Stmt {
    IfElse(c, Block(body), Wrapper(Nil))
  }

  // ---------- the expansions ----------

  function Condition(f: Form, a: Expr): Expr {
    if IsNoErr(f) then IsError(a) else Not(a)
  }

  /** What a failed use does after any message. */
  function Reaction(f: Form, l: Label, act: Stmt): Items {
    if IsRequire(f) then (if HasAction(f) then ActThenJump(act, l) else Only(Goto(l)))
    else if HasAction(f) then Spliced(act) else Nil
  }

  function Body(b: Build, f: Form, q: Expr, l: Label, m: Expr, act: Stmt): Items {
    if b.Debug? && !IsQuiet(f) then
      Tell(TextOf(f, q), LabelOf(f, l), MessageOf(f, m),
           if CopiesCode(f) then Var(EVAL_ONCE) else Const(0), Reaction(f, l, act))
    else Reaction(f, l, act)
  }

  /** The expansion is not inside a `do ... while (0)`. */
  predicate Unwrapped(b: Build, f: Form) {
    f.VerifiesWithAction? && (f.noErr ==> b.Production?)
  }

  /** Nothing is left of __Debug_String and of the Check forms in a production build. */
  predicate Dropped(b: Build, f: Form) {
    b.Production? && (f.DebugString? || IsCheck(f))
  }

  /** The statement a macro use becomes.  `a` stands for the macro's first argument wherever the
      replacement list puts it, `q` for the same argument where the list makes a string of it.
      Module MacroText has the replacement lists themselves, form by form. */
  function Replace(longBits: nat, b: Build, f: Form, a: Expr, q: Expr, l: Label, m: Expr, act: Stmt): Stmt {
    if Dropped(b, f) then Empty
    else if f.DebugString? then Wrapper(Tell(NoText, None, m, Const(0), Nil))
    else if Unwrapped(b, f) then ClosedIf(Condition(f, a), Body(b, f, q, l, m, act))
    else if b.Debug? && CopiesCode(f) then CopiesAndTests(longBits, a, Body(b, f, q, l, m, act))
    else Tests(Condition(f, a), Body(b, f, q, l, m, act))
  }

  // ---------- whole programs ----------

  /** Expands every macro use, those inside actions first.  The argument is tagged with its
      site so that each evaluation of it can be counted. */
  function Expand(longBits: nat, b: Build, s: Stmt): Stmt {
    match s
    case Block(items) => Block(ExpandItems(longBits, b, items))
    case If(c, thn) => If(c, Expand(longBits, b, thn))
    case IfElse(c, thn, els) => IfElse(c, Expand(longBits, b, thn), Expand(longBits, b, els))
    case While(c, body) => While(c, Expand(longBits, b, body))
    case DoWhile(body, c) => DoWhile(Expand(longBits, b, body), c)
    case Use(site, f, arg, l, m, action) =>
      Replace(longBits, b, f, Probe(site, arg), arg, l, m, Expand(longBits, b, action))
    case _ => s
  }

  function ExpandItems(longBits: nat, b: Build, items: Items): Items {
    match items
    case Nil => Nil
    case Cons(s, tail) => Cons(Expand(longBits, b, s), ExpandItems(longBits, b, tail))
    case Local(x, bits, init, tail) => Local(x, bits, init, ExpandItems(longBits, b, tail))
  }

  // ---------- what users may write ----------

  /** Does not mention the macros' own local, and carries no site tags. */
  predicate PlainExpr(e: Expr) {
    match e
    case Const(_) => true
    case Var(x) => x != EVAL_ONCE
    case Set(x, e1) => x != EVAL_ONCE && PlainExpr(e1)
    case Cast(_, e1) => PlainExpr(e1)
    case Not(e1) => PlainExpr(e1)
    case IsError(e1) => PlainExpr(e1)
    case Bin(_, _, e1, e2) => PlainExpr(e1) && PlainExpr(e2)
    case And(e1, e2) => PlainExpr(e1) && PlainExpr(e2)
    case Call(_, _, e1) => PlainExpr(e1)
    case Probe(_, _) => false
  }

  predicate Plain(s: Stmt) {
    match s
    case Empty => true
    case Expression(e) => PlainExpr(e)
    case Block(items) => PlainItems(items)
    case If(c, thn) => PlainExpr(c) && Plain(thn)
    case IfElse(c, thn, els) => PlainExpr(c) && Plain(thn) && Plain(els)
    case While(c, body) => PlainExpr(c) && Plain(body)
    case DoWhile(body, c) => Plain(body) && PlainExpr(c)
    case Break => true
    case Continue => true
    case Goto(_) => true
    case Return(e) => PlainExpr(e)
    case Report(_, _, _, _) => false
    case Use(_, _, arg, _, m, action) => PlainExpr(arg) && PlainExpr(m) && Plain(action)
  }

  predicate PlainItems(items: Items) {
    match items
    case Nil => true
    case Cons(s, tail) => Plain(s) && PlainItems(tail)
    case Local(x, _, init, tail) => x != EVAL_ONCE && PlainExpr(init) && PlainItems(tail)
  }
}
