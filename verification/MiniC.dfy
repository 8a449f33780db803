/**
  The forms of statement macro that basic-headers/AssertMacros.h defines, and what tells
  them apart.  A use of a macro carries every argument any form can take; a form ignores
  the arguments it does not declare.
  */
module Forms {

  /** A Require form tells its failure, keeps quiet, or tells it with the user's string. */
  datatype Voice = Loud | Quiet | WithString

  /** The families of macros.  The suffixes _noErr, _Action, _Quiet and _String are fields, so
      that Requires(true, false, Quiet) is __Require_noErr_Quiet; the values of this type are
      exactly the forms the header defines. */
  datatype Form =
    | DebugString
    | Checks(noErr: bool, hasString: bool)
    | Verifies(noErr: bool, hasString: bool)
    | VerifiesWithAction(noErr: bool)
    | Requires(noErr: bool, hasAction: bool, voice: Voice)

  datatype Build = Production | Debug

  predicate IsCheck(f: Form) { f.Checks? }

  predicate IsRequire(f: Form) { f.Requires? }

  predicate IsQuiet(f: Form) { f.Requires? && f.voice.Quiet? }

  /** The argument is an error code, which fails when it is not 0. */
  predicate IsNoErr(f: Form) { !f.DebugString? && f.noErr }

  predicate HasAction(f: Form) { f.VerifiesWithAction? || (f.Requires? && f.hasAction) }

  predicate HasString(f: Form) {
    match f
    case DebugString => true
    case Checks(_, given) => given
    case Verifies(_, given) => given
    case VerifiesWithAction(_) => false
    case Requires(_, _, voice) => voice.WithString?
  }

  /** __Verify_noErr_Action, the one form whose builds differ in where a break leads. */
  predicate PartsOnJumps(f: Form) { f == VerifiesWithAction(true) }

  /** The debug expansion copies the error code into a block-local `long`. */
  predicate CopiesCode(f: Form) {
    IsNoErr(f) && !IsQuiet(f)
  }
}

/**
  A small C: expressions with effects, statements with block-scoped locals, loops and jumps,
  and an interpreter.  A statement may also be a macro use that has not been expanded; the
  interpreter gives it the meaning the header's summaries promise, and notes what happened.
  */
module MiniC {
  import opened Common
  import opened Forms

  type Name = string
  type Label = string

  /** The local that the debug expansions declare. */
  const EVAL_ONCE: Name := "evalOnceErrorCode"

  // ---------- syntax ----------

  datatype Op = Add | Subtract | Less | Equal

  datatype Expr =
    | Const(n: int)
    | Var(x: Name)
    | Set(x: Name, e: Expr)
    | Cast(bits: nat, e: Expr)              // conversion to a signed type of that width
    | Not(e: Expr)                          // !(e)
    | IsError(e: Expr)                      // 0 != (e)
    | Bin(op: Op, bits: nat, l: Expr, r: Expr)   // in a signed type of that width
    | And(l: Expr, r: Expr)
    | Call(f: Name, bits: nat, arg: Expr)   // code outside the program, with a result of that width
    | Probe(site: nat, e: Expr)             // the argument of the macro use at that site

  /** What a message quotes: nothing, an assertion, or an error code followed by "== 0". */
  datatype Text = NoText | Asserts(e: Expr) | EqualsZero(e: Expr)

  datatype Stmt =
    | Empty
    | Expression(e: Expr)
    | Block(items: Items)
    | If(c: Expr, thn: Stmt)
    | IfElse(c: Expr, thn: Stmt, els: Stmt)
    | While(c: Expr, body: Stmt)
    | DoWhile(body: Stmt, c: Expr)
    | Break
    | Continue
    | Goto(target: Label)
    | Return(e: Expr)
    | Report(text: Text, at: Option<Label>, message: Expr, code: Expr)   // DEBUG_ASSERT_MESSAGE
    | Use(site: nat, form: Form, arg: Expr, handler: Label, message: Expr, action: Stmt)

  /** The contents of a block.  The scope of a local is the rest of its block. */
  datatype Items =
    | Nil
    | Cons(head: Stmt, tail: Items)
    | Local(name: Name, bits: nat, init: Expr, tail: Items)

  // ---------- state ----------

  /** Variables in scope, innermost first; globals are outermost and read 0 until written.
      A variable has the width it is declared with; a global may be wider than any. */
  datatype Env =
    | Top(globals: map<Name, int>, widths: map<Name, nat>)
    | Frame(name: Name, bits: nat, value: int, outer: Env)

  datatype Event = Called(f: Name, arg: int)

  datatype Message = Message(text: Text, handler: Option<Label>, message: int, code: int)

  /** Kept by unexpanded macro uses only.
      failed:  the messages a debug build owes, in order
      reached: the sites whose argument a debug build evaluates, in order
      tested:  the sites whose argument a production build evaluates, in order
      hazard:  something happened on which the two builds may part */
  datatype Notes = Notes(failed: seq<Message>, reached: seq<nat>, tested: seq<nat>, hazard: bool)

  datatype State = State(env: Env, calls: seq<Event>, ticks: seq<nat>, log: seq<Message>, notes: Notes)

  /** What the program runs on.  An external call sees every call so far and may change globals. */
  datatype Host = Host(longBits: nat, garbage: int,
                       external: (seq<Event>, map<Name, int>) -> (int, map<Name, int>))

  datatype Value = Value(v: int, st: State)

  datatype Exit = Normal | Broke | Continued | Jumped(target: Label) | Returned(v: int) | OutOfFuel

  datatype Outcome = Outcome(exit: Exit, st: State)

  // ---------- integers ----------

  function Pow2(n: nat): (p: int)
    ensures p > 0
  {
    if n == 0 then 1 else 2 * Pow2(n - 1)
  }

  /** The low `bits` bits of v. */
  function Residue(bits: nat, v: int): (r: nat)
    ensures r < Pow2(bits)
    ensures v == 0 ==> r == 0
  {
    if bits == 0 then 0 else v % 2 + 2 * Residue(bits - 1, v / 2)
  }

  /** Two's complement conversion to a signed type of `bits` bits. */
  function Narrow(bits: nat, v: int): (r: int)
    ensures v == 0 ==> r == 0
    ensures r == 0 <==> Residue(bits, v) == 0
  {
    var m := Residue(bits, v);
    if 2 * m >= Pow2(bits) && m != 0 then m - Pow2(bits) else m
  }

  function Truth(b: bool): int { if b then 1 else 0 }

  function Apply(op: Op, bits: nat, a: int, b: int): int {
    match op
    case Add => Narrow(bits, a + b)
    case Subtract => Narrow(bits, a - b)
    case Less => Truth(a < b)
    case Equal => Truth(a == b)
  }

  // ---------- variables ----------

  function Read(env: Env, x: Name): int {
    match env
    case Top(g, _) => if x in g then g[x] else 0
    case Frame(y, _, v, outer) => if x == y then v else Read(outer, x)
  }

  function Write(env: Env, x: Name, v: int): Env {
    match env
    case Top(g, w) => Top(g[x := if x in w then Narrow(w[x], v) else v], w)
    case Frame(y, bits, w, outer) =>
      if x == y then Frame(y, bits, Narrow(bits, v), outer) else Frame(y, bits, w, Write(outer, x, v))
  }

  function Globals(env: Env): map<Name, int> {
    match env
    case Top(g, _) => g
    case Frame(_, _, _, outer) => Globals(outer)
  }

  function WithGlobals(env: Env, g: map<Name, int>): Env {
    match env
    case Top(_, w) => Top(map x | x in g :: if x in w then Narrow(w[x], g[x]) else g[x], w)
    case Frame(y, bits, v, outer) => Frame(y, bits, v, WithGlobals(outer, g))
  }

  function Pop(env: Env): Env {
    match env
    case Top(_, _) => env
    case Frame(_, _, _, outer) => outer
  }

  // ---------- expressions ----------

  function Eval(h: Host, e: Expr, s: State): Value
    decreases e
  {
    match e
    case Const(n) => Value(n, s)
    case Var(x) => Value(Read(s.env, x), s)
    case Set(x, e1) =>
      var r := Eval(h, e1, s);
      var env := Write(r.st.env, x, r.v);
      Value(Read(env, x), r.st.(env := env))
    case Cast(bits, e1) => var r := Eval(h, e1, s); Value(Narrow(bits, r.v), r.st)
    case Not(e1) => var r := Eval(h, e1, s); Value(Truth(r.v == 0), r.st)
    case IsError(e1) => var r := Eval(h, e1, s); Value(Truth(r.v != 0), r.st)
    case Bin(op, bits, e1, e2) =>
      var a := Eval(h, e1, s);
      var b := Eval(h, e2, a.st);
      Value(Apply(op, bits, a.v, b.v), b.st)
    case And(e1, e2) =>
      var a := Eval(h, e1, s);
      if a.v == 0 then Value(0, a.st) else
      var b := Eval(h, e2, a.st);
      Value(Truth(b.v != 0), b.st)
    case Call(f, bits, e1) => var r := Eval(h, e1, s); External(h, f, bits, r.v, r.st)
    case Probe(site, e1) => Eval(h, e1, s.(ticks := s.ticks + [site]))
  }

  function External(h: Host, f: Name, bits: nat, arg: int, s: State): Value {
    var calls := s.calls + [Called(f, arg)];
    var (v, g) := h.external(calls, Globals(s.env));
    Value(Narrow(bits, v), s.(calls := calls, env := WithGlobals(s.env, g)))
  }

  // ---------- what a macro use promises ----------

  function TextOf(f: Form, arg: Expr): Text {
    if IsNoErr(f) then EqualsZero(arg) else Asserts(arg)
  }

  function LabelOf(f: Form, handler: Label): Option<Label> {
    if IsRequire(f) then Some(handler) else None
  }

  function MessageOf(f: Form, message: Expr): Expr {
    if HasString(f) then message else Const(0)
  }

  /** An assertion fails when it is 0, an error code when it is not. */
  predicate Fails(f: Form, v: int) {
    if IsNoErr(f) then v != 0 else v == 0
  }

  /** A `long` copy of an error code that reads as no error. */
  predicate LosesError(h: Host, f: Form, v: int) {
    CopiesCode(f) && v != 0 && Narrow(h.longBits, v) == 0
  }

  /** `fails` directs control: a Check has no effect on it. */
  datatype Tested = Tested(fails: bool, st: State)

  /** The part of a use before its action or jump. */
  function Test(h: Host, site: nat, f: Form, arg: Expr, handler: Label, message: Expr, s: State): Tested {
    if f.DebugString? then
      var m := Eval(h, message, s);
      var owed := Message(NoText, None, m.v, 0);
      Tested(false, s.(notes := s.notes.(failed := s.notes.failed + [owed],
                                         hazard := s.notes.hazard || m.st != s)))
    else
      var t := Eval(h, arg, s);
      var m := Eval(h, MessageOf(f, message), t.st);
      var owes := Fails(f, t.v) && !IsQuiet(f);
      var owed := Message(TextOf(f, arg), LabelOf(f, handler), m.v,
                          if CopiesCode(f) then Narrow(h.longBits, t.v) else 0);
      var notes := Notes(if owes then s.notes.failed + [owed] else s.notes.failed,
                         s.notes.reached + [site],
                         if IsCheck(f) then s.notes.tested else s.notes.tested + [site],
                         || s.notes.hazard
                         || LosesError(h, f, t.v)
                         || (IsCheck(f) && t.st != s)
                         || (owes && m.st != t.st));
      if IsCheck(f) then Tested(false, s.(notes := notes))
      else Tested(Fails(f, t.v), t.st.(notes := notes))
  }

  /** Where control goes once the action of a failed use has run.  A Require form jumps to its
      label when the action completes, and absorbs a break or continue of the action.
      A break or continue out of a __Verify_noErr_Action is where the builds part. */
  function Finish(f: Form, handler: Label, o: Outcome): Outcome {
    if IsRequire(f) then
      if o.exit.Normal? then Outcome(Jumped(handler), o.st)
      else if o.exit.Broke? || o.exit.Continued? then Outcome(Normal, o.st)
      else o
    else if PartsOnJumps(f) && (o.exit.Broke? || o.exit.Continued?) then
      Outcome(o.exit, o.st.(notes := o.st.notes.(hazard := true)))
    else o
  }

  // ---------- statements ----------

  /** `fuel` bounds how often loops go round; it is spent on nothing else. */
  function Exec(h: Host, s: Stmt, st: State, fuel: nat): Outcome
    decreases fuel, s
  {
    match s
    case Empty => Outcome(Normal, st)
    case Expression(e) => Outcome(Normal, Eval(h, e, st).st)
    case Block(items) => ExecItems(h, items, st, fuel)
    case If(c, thn) =>
      var t := Eval(h, c, st);
      if t.v != 0 then Exec(h, thn, t.st, fuel) else Outcome(Normal, t.st)
    case IfElse(c, thn, els) =>
      var t := Eval(h, c, st);
      if t.v != 0 then Exec(h, thn, t.st, fuel) else Exec(h, els, t.st, fuel)
    case While(c, body) =>
      var t := Eval(h, c, st);
      if t.v == 0 then Outcome(Normal, t.st) else
      var o := Exec(h, body, t.st, fuel);
      if o.exit.Broke? then Outcome(Normal, o.st)
      else if !o.exit.Normal? && !o.exit.Continued? then o
      else if fuel == 0 then Outcome(OutOfFuel, o.st)
      else Exec(h, s, o.st, fuel - 1)
    case DoWhile(body, c) =>
      var o := Exec(h, body, st, fuel);
      if o.exit.Broke? then Outcome(Normal, o.st)
      else if !o.exit.Normal? && !o.exit.Continued? then o
      else
        var t := Eval(h, c, o.st);
        if t.v == 0 then Outcome(Normal, t.st)
        else if fuel == 0 then Outcome(OutOfFuel, t.st)
        else Exec(h, s, t.st, fuel - 1)
    case Break => Outcome(Broke, st)
    case Continue => Outcome(Continued, st)
    case Goto(l) => Outcome(Jumped(l), st)
    case Return(e) => var t := Eval(h, e, st); Outcome(Returned(t.v), t.st)
    case Report(text, at, message, code) =>
      var m := Eval(h, message, st);
      var c := Eval(h, code, m.st);
      Outcome(Normal, c.st.(log := c.st.log + [Message(text, at, m.v, c.v)]))
    case Use(site, form, arg, handler, message, action) =>
      var t := Test(h, site, form, arg, handler, message, st);
      if !t.fails then Outcome(Normal, t.st)
      else if HasAction(form) then Finish(form, handler, Exec(h, action, t.st, fuel))
      else Outcome(if IsRequire(form) then Jumped(handler) else Normal, t.st)
  }

  /** A new variable holds some value of its width. */
  function Declared(h: Host, x: Name, bits: nat, env: Env): Env {
    Frame(x, bits, Narrow(bits, h.garbage), env)
  }

  /** A declared name is in scope in its own initializer, where its value is indeterminate
      (section 6.2.1 of ISO/IEC 9899:2011). */
  function ExecItems(h: Host, items: Items, st: State, fuel: nat): Outcome
    decreases fuel, items
  {
    match items
    case Nil => Outcome(Normal, st)
    case Cons(s, tail) =>
      var o := Exec(h, s, st, fuel);
      if o.exit.Normal? then ExecItems(h, tail, o.st, fuel) else o
    case Local(x, bits, init, tail) =>
      var t := Eval(h, init, st.(env := Declared(h, x, bits, st.env)));
      var o := ExecItems(h, tail, t.st.(env := Write(t.st.env, x, t.v)), fuel);
      Outcome(o.exit, o.st.(env := Pop(o.st.env)))
  }
}
