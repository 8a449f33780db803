/**
  The macros as text: what the preprocessor leaves in place of each use, and a parser that
  attaches an `else` to the nearest `if` (section 6.8.4.1 of ISO/IEC 9899:2011).
  Expressions are single tokens: the replacement lists put every argument in parentheses.
  */
module MacroText {
  import opened Common
  import opened Forms
  import opened MiniC
  import opened Expansion

  datatype Token =
    | TSemi | TLBrace | TRBrace | TLParen | TRParen
    | TIf | TElse | TWhile | TDo | TBreak | TContinue | TGoto | TReturn
    | TLabel(l: Label)
    | TExpr(e: Expr)
    | TDeclare(name: Name, bits: nat)                                     // long name =
    | TReport(text: Text, at: Option<Label>, message: Expr, code: Expr)   // a call

  // ---------- phrases ----------

  /** keyword ( c ) */
  function Headed(keyword: Token, c: Expr): seq<Token> {
    [keyword, TLParen, TExpr(c), TRParen]
  }

  function Braced(inside: seq<Token>): seq<Token> {
    [TLBrace] + inside + [TRBrace]
  }

  /** do { inside } while ( 0 ) */
  function DoOnce(inside: seq<Token>): seq<Token> {
    [TDo] + Braced(inside) + Headed(TWhile, Const(0))
  }

  /** if ( c ) { inside } */
  function IfBraced(c: Expr, inside: seq<Token>): seq<Token> {
    Headed(TIf, c) + Braced(inside)
  }

  /** DEBUG_ASSERT_MESSAGE( ... ); */
  function Says(text: Text, at: Option<Label>, message: Expr, code: Expr): seq<Token> {
    [TReport(text, at, message, code), TSemi, TSemi]
  }

  function Jump(l: Label): seq<Token> {
    [TGoto, TLabel(l), TSemi]
  }

  /** long evalOnceErrorCode = (e); */
  function Copy(longBits: nat, e: Expr): seq<Token> {
    [TDeclare(EVAL_ONCE, longBits), TExpr(e), TSemi]
  }

  // ---------- the replacement lists, as the header writes them ----------

  /** `act` is the text of the action argument, to which the lists add a semicolon. */
  function ProductionText(f: Form, a: Expr, l: Label, act: seq<Token>): seq<Token> {
    match f
    // __Debug_String, __Check, __Check_String, __Check_noErr, __Check_noErr_String
    case DebugString => []
    case Checks(_, _) => []
    // __Verify, __Verify_String
    case Verifies(false, _) => DoOnce(IfBraced(Not(a), []))
    // __Verify_noErr, __Verify_noErr_String
    case Verifies(true, _) => DoOnce(IfBraced(IsError(a), []))
    // __Verify_Action
    case VerifiesWithAction(false) => IfBraced(Not(a), act + [TSemi]) + [TElse] + DoOnce([])
    // __Verify_noErr_Action
    case VerifiesWithAction(true) => IfBraced(IsError(a), act + [TSemi]) + [TElse] + DoOnce([])
    // __Require, __Require_Quiet, __Require_String
    case Requires(false, false, _) => DoOnce(IfBraced(Not(a), Jump(l)))
    // __Require_Action, __Require_Action_Quiet, __Require_Action_String
    case Requires(false, true, _) => DoOnce(IfBraced(Not(a), Braced(act + [TSemi]) + Jump(l)))
    // __Require_noErr, __Require_noErr_Quiet, __Require_noErr_String
    case Requires(true, false, _) => DoOnce(IfBraced(IsError(a), Jump(l)))
    // __Require_noErr_Action, __Require_noErr_Action_Quiet, __Require_noErr_Action_String
    case Requires(true, true, _) => DoOnce(IfBraced(IsError(a), Braced(act + [TSemi]) + Jump(l)))
  }

  /** `q` is the first argument where the list makes a string of it. */
  function DebugText(longBits: nat, f: Form, a: Expr, q: Expr, l: Label, m: Expr, act: seq<Token>): seq<Token> {
    var zero := Const(0);
    var copy := Var(EVAL_ONCE);
    match f
    // __Debug_String
    case DebugString => DoOnce(Says(NoText, None, m, zero))
    // __Check
    case Checks(false, false) => DoOnce(IfBraced(Not(a), Says(Asserts(q), None, zero, zero)))
    // __Check_String
    case Checks(false, true) => DoOnce(IfBraced(Not(a), Says(Asserts(q), None, m, zero)))
    // __Check_noErr
    case Checks(true, false) =>
      DoOnce(Copy(longBits, a) + IfBraced(IsError(copy), Says(EqualsZero(q), None, zero, copy)))
    // __Check_noErr_String
    case Checks(true, true) =>
      DoOnce(Copy(longBits, a) + IfBraced(IsError(copy), Says(EqualsZero(q), None, m, copy)))
    // __Verify
    case Verifies(false, false) => DoOnce(IfBraced(Not(a), Says(Asserts(q), None, zero, zero)))
    // __Verify_String
    case Verifies(false, true) => DoOnce(IfBraced(Not(a), Says(Asserts(q), None, m, zero)))
    // __Verify_noErr
    case Verifies(true, false) =>
      DoOnce(Copy(longBits, a) + IfBraced(IsError(copy), Says(EqualsZero(q), None, zero, copy)))
    // __Verify_noErr_String
    case Verifies(true, true) =>
      DoOnce(Copy(longBits, a) + IfBraced(IsError(copy), Says(EqualsZero(q), None, m, copy)))
    // __Verify_Action
    case VerifiesWithAction(false) =>
      IfBraced(Not(a), Says(Asserts(q), None, zero, zero) + (act + [TSemi])) + [TElse] + DoOnce([])
    // __Verify_noErr_Action
    case VerifiesWithAction(true) =>
      DoOnce(Copy(longBits, a) + IfBraced(IsError(copy), Says(EqualsZero(q), None, zero, copy) + (act + [TSemi])))
    // __Require
    case Requires(false, false, Loud) =>
      DoOnce(IfBraced(Not(a), Says(Asserts(q), Some(l), zero, zero) + Jump(l)))
    // __Require_Action
    case Requires(false, true, Loud) =>
      DoOnce(IfBraced(Not(a), Says(Asserts(q), Some(l), zero, zero) + (Braced(act + [TSemi]) + Jump(l))))
    // __Require_Quiet
    case Requires(false, false, Quiet) => DoOnce(IfBraced(Not(a), Jump(l)))
    // __Require_Action_Quiet
    case Requires(false, true, Quiet) => DoOnce(IfBraced(Not(a), Braced(act + [TSemi]) + Jump(l)))
    // __Require_String
    case Requires(false, false, WithString) =>
      DoOnce(IfBraced(Not(a), Says(Asserts(q), Some(l), m, zero) + Jump(l)))
    // __Require_Action_String
    case Requires(false, true, WithString) =>
      DoOnce(IfBraced(Not(a), Says(Asserts(q), Some(l), m, zero) + (Braced(act + [TSemi]) + Jump(l))))
    // __Require_noErr
    case Requires(true, false, Loud) =>
      DoOnce(Copy(longBits, a) + IfBraced(IsError(copy), Says(EqualsZero(q), Some(l), zero, copy) + Jump(l)))
    // __Require_noErr_Action
    case Requires(true, true, Loud) =>
      DoOnce(Copy(longBits, a) +
             IfBraced(IsError(copy), Says(EqualsZero(q), Some(l), zero, copy) + (Braced(act + [TSemi]) + Jump(l))))
    // __Require_noErr_Quiet
    case Requires(true, false, Quiet) => DoOnce(IfBraced(IsError(a), Jump(l)))
    // __Require_noErr_Action_Quiet
    case Requires(true, true, Quiet) => DoOnce(IfBraced(IsError(a), Braced(act + [TSemi]) + Jump(l)))
    // __Require_noErr_String
    case Requires(true, false, WithString) =>
      DoOnce(Copy(longBits, a) + IfBraced(IsError(copy), Says(EqualsZero(q), Some(l), m, copy) + Jump(l)))
    // __Require_noErr_Action_String
    case Requires(true, true, WithString) =>
      DoOnce(Copy(longBits, a) +
             IfBraced(IsError(copy), Says(EqualsZero(q), Some(l), m, copy) + (Braced(act + [TSemi]) + Jump(l))))
  }

  function ReplacementText(longBits: nat, b: Build, f: Form, a: Expr, q: Expr, l: Label, m: Expr, act: seq<Token>)
    : seq<Token>
  {
    if b.Production? then ProductionText(f, a, l, act) else DebugText(longBits, f, a, q, l, m, act)
  }

  // ---------- the text of a program ----------

  /** The text of a statement after preprocessing; the user puts a semicolon after a macro use. */
  function Print(longBits: nat, b: Build, s: Stmt): (r: seq<Token>)
    ensures r != []
    ensures EndsInSemicolon(s) ==> r[|r| - 1] == TSemi
    decreases s
  {
    match s
    case Empty => [TSemi]
    case Expression(e) => [TExpr(e), TSemi]
    case Block(items) => Braced(PrintItems(longBits, b, items))
    case If(c, thn) => Headed(TIf, c) + Print(longBits, b, thn)
    case IfElse(c, thn, els) =>
      Headed(TIf, c) + Print(longBits, b, thn) + ([TElse] + Print(longBits, b, els))
    case While(c, body) => Headed(TWhile, c) + Print(longBits, b, body)
    case DoWhile(body, c) => [TDo] + Print(longBits, b, body) + (Headed(TWhile, c) + [TSemi])
    case Break => [TBreak, TSemi]
    case Continue => [TContinue, TSemi]
    case Goto(l) => Jump(l)
    case Return(e) => [TReturn, TExpr(e), TSemi]
    case Report(text, at, m, code) => [TReport(text, at, m, code), TSemi]
    case Use(site, f, arg, l, m, action) =>
      ReplacementText(longBits, b, f, Probe(site, arg), arg, l, m, Bare(Print(longBits, b, action), action)) + [TSemi]
  }

  function PrintItems(longBits: nat, b: Build, items: Items): seq<Token>
    decreases items
  {
    match items
    case Nil => []
    case Cons(s, tail) => Print(longBits, b, s) + PrintItems(longBits, b, tail)
    case Local(x, bits, init, tail) => [TDeclare(x, bits), TExpr(init), TSemi] + PrintItems(longBits, b, tail)
  }

  /** The text of an action argument: without the semicolon the macro will add. */
  function Bare(text: seq<Token>, s: Stmt): seq<Token> {
    if text != [] && EndsInSemicolon(s) then text[..|text| - 1] else text
  }

  // ---------- the parser ----------

  datatype Parsed = Fail | Ok(s: Stmt, rest: seq<Token>)
  datatype ParsedItems = FailItems | OkItems(items: Items, rest: seq<Token>)

  predicate HasCondition(t: seq<Token>) {
    |t| >= 4 && t[1] == TLParen && t[2].TExpr? && t[3] == TRParen
  }

  predicate At(t: seq<Token>, i: nat, tok: Token) {
    i < |t| && t[i] == tok
  }

  function Parse(t: seq<Token>): (p: Parsed)
    ensures p.Ok? ==> |p.rest| < |t|
    decreases |t|, 0
  {
    if t == [] then Fail else
    match t[0]
    case TSemi => Ok(Empty, t[1..])
    case TExpr(e) => if At(t, 1, TSemi) then Ok(Expression(e), t[2..]) else Fail
    case TReport(text, at, m, code) => if At(t, 1, TSemi) then Ok(Report(text, at, m, code), t[2..]) else Fail
    case TBreak => if At(t, 1, TSemi) then Ok(Break, t[2..]) else Fail
    case TContinue => if At(t, 1, TSemi) then Ok(Continue, t[2..]) else Fail
    case TGoto => if |t| >= 2 && t[1].TLabel? && At(t, 2, TSemi) then Ok(Goto(t[1].l), t[3..]) else Fail
    case TReturn => if |t| >= 2 && t[1].TExpr? && At(t, 2, TSemi) then Ok(Return(t[1].e), t[3..]) else Fail
    case TLBrace =>
      var p := ParseItems(t[1..]);
      if p.OkItems? then Ok(Block(p.items), p.rest) else Fail
    case TIf =>
      if !HasCondition(t) then Fail else
      var p := Parse(t[4..]);
      if p.Fail? then Fail
      else if !At(p.rest, 0, TElse) then Ok(If(t[2].e, p.s), p.rest)
      else
        var q := Parse(p.rest[1..]);
        if q.Fail? then Fail else Ok(IfElse(t[2].e, p.s, q.s), q.rest)
    case TWhile =>
      if !HasCondition(t) then Fail else
      var p := Parse(t[4..]);
      if p.Fail? then Fail else Ok(While(t[2].e, p.s), p.rest)
    case TDo =>
      var p := Parse(t[1..]);
      if p.Fail? || !At(p.rest, 0, TWhile) || !HasCondition(p.rest) || !At(p.rest, 4, TSemi) then Fail
      else Ok(DoWhile(p.s, p.rest[2].e), p.rest[5..])
    case _ => Fail
  }

  function ParseItems(t: seq<Token>): (p: ParsedItems)
    ensures p.OkItems? ==> |p.rest| < |t|
    decreases |t|, 1
  {
    if t == [] then FailItems
    else if t[0] == TRBrace then OkItems(Nil, t[1..])
    else if t[0].TDeclare? then
      if |t| < 3 || !t[1].TExpr? || t[2] != TSemi then FailItems else
      var p := ParseItems(t[3..]);
      if p.FailItems? then FailItems else OkItems(Local(t[0].name, t[0].bits, t[1].e, p.items), p.rest)
    else
      var p := Parse(t);
      if p.Fail? then FailItems else
      var q := ParseItems(p.rest);
      if q.FailItems? then FailItems else OkItems(Cons(p.s, q.items), q.rest)
  }

  // ---------- programs whose text can be read in one way only ----------

  /** Ends in an `if` that would take an `else` coming next. */
  predicate OpenIf(s: Stmt) {
    match s
    case If(_, _) => true
    case IfElse(_, _, els) => OpenIf(els)
    case While(_, body) => OpenIf(body)
    case _ => false
  }

  /** No open `if` before an `else`.  A macro use counts as a statement like any other. */
  predicate Unambiguous(s: Stmt) {
    match s
    case Block(items) => UnambiguousItems(items)
    case If(_, thn) => Unambiguous(thn)
    case IfElse(_, thn, els) => Unambiguous(thn) && Unambiguous(els) && !OpenIf(thn)
    case While(_, body) => Unambiguous(body)
    case DoWhile(body, _) => Unambiguous(body)
    case Use(_, _, _, _, _, action) => Unambiguous(action)
    case _ => true
  }

  predicate UnambiguousItems(items: Items) {
    match items
    case Nil => true
    case Cons(s, tail) => Unambiguous(s) && UnambiguousItems(tail)
    case Local(_, _, _, tail) => UnambiguousItems(tail)
  }

  /** No macro use is left. */
  predicate Expanded(s: Stmt) {
    match s
    case Block(items) => ExpandedItems(items)
    case If(_, thn) => Expanded(thn)
    case IfElse(_, thn, els) => Expanded(thn) && Expanded(els)
    case While(_, body) => Expanded(body)
    case DoWhile(body, _) => Expanded(body)
    case Use(_, _, _, _, _, _) => false
    case _ => true
  }

  predicate ExpandedItems(items: Items) {
    match items
    case Nil => true
    case Cons(s, tail) => Expanded(s) && ExpandedItems(tail)
    case Local(_, _, _, tail) => ExpandedItems(tail)
  }

  // ---------- reading back what was printed ----------

  lemma {:induction false} FirstToken(longBits: nat, b: Build, s: Stmt)
    requires Expanded(s)
    ensures var r := Print(longBits, b, s);
            r[0] != TElse && r[0] != TRBrace && !r[0].TDeclare?
  {
  }

  lemma {:induction false} ItemsDoNotStartWithElse(longBits: nat, b: Build, items: Items, rest: seq<Token>)
    requires ExpandedItems(items)
    ensures !At(PrintItems(longBits, b, items) + [TRBrace] + rest, 0, TElse)
  {
    if items.Cons? { FirstToken(longBits, b, items.head); }
  }

  lemma {:induction false} ParseBlock(t: seq<Token>, items: Items, rest: seq<Token>)
    requires ParseItems(t) == OkItems(items, rest)
    ensures Parse([TLBrace] + t) == Ok(Block(items), rest)
  {
    assert ([TLBrace] + t)[1..] == t;
  }

  lemma {:induction false} ParseIf(c: Expr, t: seq<Token>, s: Stmt, rest: seq<Token>)
    requires Parse(t) == Ok(s, rest) && !At(rest, 0, TElse)
    ensures Parse(Headed(TIf, c) + t) == Ok(If(c, s), rest)
  {
    assert (Headed(TIf, c) + t)[4..] == t;
  }

  lemma {:induction false} ParseIfElse(c: Expr, t: seq<Token>, s: Stmt, u: seq<Token>, s': Stmt, rest: seq<Token>)
    requires Parse(t) == Ok(s, [TElse] + u) && Parse(u) == Ok(s', rest)
    ensures Parse(Headed(TIf, c) + t) == Ok(IfElse(c, s, s'), rest)
  {
    assert (Headed(TIf, c) + t)[4..] == t;
    assert ([TElse] + u)[1..] == u;
  }

  lemma {:induction false} ParseWhile(c: Expr, t: seq<Token>, s: Stmt, rest: seq<Token>)
    requires Parse(t) == Ok(s, rest)
    ensures Parse(Headed(TWhile, c) + t) == Ok(While(c, s), rest)
  {
    assert (Headed(TWhile, c) + t)[4..] == t;
  }

  lemma {:induction false} ParseDo(c: Expr, t: seq<Token>, s: Stmt, rest: seq<Token>)
    requires Parse(t) == Ok(s, Headed(TWhile, c) + [TSemi] + rest)
    ensures Parse([TDo] + t) == Ok(DoWhile(s, c), rest)
  {
    assert ([TDo] + t)[1..] == t;
    assert (Headed(TWhile, c) + [TSemi] + rest)[5..] == rest;
  }

  /** A statement with no statement inside it. */
  predicate Simple(s: Stmt) {
    s.Empty? || s.Expression? || s.Break? || s.Continue? || s.Goto? || s.Return? || s.Report?
  }

  lemma {:induction false} ParseSimple(longBits: nat, b: Build, s: Stmt, rest: seq<Token>)
    requires Simple(s)
    ensures Parse(Print(longBits, b, s) + rest) == Ok(s, rest)
  {
    var t := Print(longBits, b, s);
    assert (t + rest)[|t|..] == rest;
  }

  // The text of a statement and what follows it, taken apart.

  lemma {:induction false} PrintedBlock(longBits: nat, b: Build, items: Items, rest: seq<Token>)
    ensures Print(longBits, b, Block(items)) + rest == [TLBrace] + (PrintItems(longBits, b, items) + [TRBrace] + rest)
  {
  }

  lemma {:induction false} PrintedIf(longBits: nat, b: Build, c: Expr, thn: Stmt, rest: seq<Token>)
    ensures Print(longBits, b, If(c, thn)) + rest == Headed(TIf, c) + (Print(longBits, b, thn) + rest)
  {
  }

  lemma {:induction false} PrintedIfElse(longBits: nat, b: Build, c: Expr, thn: Stmt, els: Stmt, rest: seq<Token>)
    ensures Print(longBits, b, IfElse(c, thn, els)) + rest ==
            Headed(TIf, c) + (Print(longBits, b, thn) + ([TElse] + (Print(longBits, b, els) + rest)))
  {
  }

  lemma {:induction false} PrintedWhile(longBits: nat, b: Build, c: Expr, body: Stmt, rest: seq<Token>)
    ensures Print(longBits, b, While(c, body)) + rest == Headed(TWhile, c) + (Print(longBits, b, body) + rest)
  {
  }

  lemma {:induction false} PrintedDo(longBits: nat, b: Build, c: Expr, body: Stmt, rest: seq<Token>)
    ensures Print(longBits, b, DoWhile(body, c)) + rest ==
            [TDo] + (Print(longBits, b, body) + (Headed(TWhile, c) + [TSemi] + rest))
  {
  }

  lemma {:induction false} PrintedCons(longBits: nat, b: Build, s: Stmt, tail: Items, rest: seq<Token>)
    ensures PrintItems(longBits, b, Cons(s, tail)) + [TRBrace] + rest ==
            Print(longBits, b, s) + (PrintItems(longBits, b, tail) + [TRBrace] + rest)
  {
  }

  lemma {:induction false} PrintedLocal(longBits: nat, b: Build, x: Name, bits: nat, init: Expr, tail: Items,
                                        rest: seq<Token>)
    ensures PrintItems(longBits, b, Local(x, bits, init, tail)) + [TRBrace] + rest ==
            [TDeclare(x, bits), TExpr(init), TSemi] + (PrintItems(longBits, b, tail) + [TRBrace] + rest)
  {
  }

  lemma {:induction false} ReadBack(longBits: nat, b: Build, s: Stmt, rest: seq<Token>)
    requires Expanded(s) && Unambiguous(s)
    requires OpenIf(s) ==> !At(rest, 0, TElse)
    ensures Parse(Print(longBits, b, s) + rest) == Ok(s, rest)
    decreases s
  {
    match s
    case Block(items) =>
      var inside := PrintItems(longBits, b, items) + [TRBrace] + rest;
      ReadBackItems(longBits, b, items, rest);
      ParseBlock(inside, items, rest);
      PrintedBlock(longBits, b, items, rest);
    case If(c, thn) =>
      ReadBack(longBits, b, thn, rest);
      ParseIf(c, Print(longBits, b, thn) + rest, thn, rest);
      PrintedIf(longBits, b, c, thn, rest);
    case IfElse(c, thn, els) =>
      var u := Print(longBits, b, els) + rest;
      ReadBack(longBits, b, thn, [TElse] + u);
      ReadBack(longBits, b, els, rest);
      ParseIfElse(c, Print(longBits, b, thn) + ([TElse] + u), thn, u, els, rest);
      PrintedIfElse(longBits, b, c, thn, els, rest);
    case While(c, body) =>
      ReadBack(longBits, b, body, rest);
      ParseWhile(c, Print(longBits, b, body) + rest, body, rest);
      PrintedWhile(longBits, b, c, body, rest);
    case DoWhile(body, c) =>
      var more := Headed(TWhile, c) + [TSemi] + rest;
      ReadBack(longBits, b, body, more);
      ParseDo(c, Print(longBits, b, body) + more, body, rest);
      PrintedDo(longBits, b, c, body, rest);
    case _ => ParseSimple(longBits, b, s, rest);
  }

  lemma {:induction false} ParseItem(t: seq<Token>, s: Stmt, u: seq<Token>, items: Items, rest: seq<Token>)
    requires t != [] && t[0] != TRBrace && !t[0].TDeclare?
    requires Parse(t) == Ok(s, u) && ParseItems(u) == OkItems(items, rest)
    ensures ParseItems(t) == OkItems(Cons(s, items), rest)
  {
  }

  lemma {:induction false} ParseLocal(x: Name, bits: nat, init: Expr, t: seq<Token>, items: Items, rest: seq<Token>)
    requires ParseItems(t) == OkItems(items, rest)
    ensures ParseItems([TDeclare(x, bits), TExpr(init), TSemi] + t) == OkItems(Local(x, bits, init, items), rest)
  {
    assert ([TDeclare(x, bits), TExpr(init), TSemi] + t)[3..] == t;
  }

  lemma {:induction false} ReadBackItems(longBits: nat, b: Build, items: Items, rest: seq<Token>)
    requires ExpandedItems(items) && UnambiguousItems(items)
    ensures ParseItems(PrintItems(longBits, b, items) + [TRBrace] + rest) == OkItems(items, rest)
    decreases items
  {
    match items
    case Nil => assert ([] + [TRBrace] + rest)[1..] == rest;
    case Cons(s, tail) =>
      var more := PrintItems(longBits, b, tail) + [TRBrace] + rest;
      ItemsDoNotStartWithElse(longBits, b, tail, rest);
      ReadBack(longBits, b, s, more);
      FirstToken(longBits, b, s);
      ReadBackItems(longBits, b, tail, rest);
      ParseItem(Print(longBits, b, s) + more, s, more, tail, rest);
      PrintedCons(longBits, b, s, tail, rest);
    case Local(x, bits, init, tail) =>
      ReadBackItems(longBits, b, tail, rest);
      var more := PrintItems(longBits, b, tail) + [TRBrace] + rest;
      ParseLocal(x, bits, init, more, tail, rest);
      PrintedLocal(longBits, b, x, bits, init, tail, rest);
  }

  /** What the parser makes is unambiguous, and takes every `else` it can. */
  lemma {:induction false} ParsedIsUnambiguous(t: seq<Token>)
    ensures var p := Parse(t);
            p.Ok? ==> Expanded(p.s) && Unambiguous(p.s) && (OpenIf(p.s) ==> !At(p.rest, 0, TElse))
    decreases |t|, 0
  {
    if t != [] && t[0] == TLBrace {
      ParsedItemsAreUnambiguous(t[1..]);
    } else if t != [] && t[0] == TIf && HasCondition(t) {
      ParsedIsUnambiguous(t[4..]);
      var p := Parse(t[4..]);
      if p.Ok? && At(p.rest, 0, TElse) { ParsedIsUnambiguous(p.rest[1..]); }
    } else if t != [] && t[0] == TWhile && HasCondition(t) {
      ParsedIsUnambiguous(t[4..]);
    } else if t != [] && t[0] == TDo {
      ParsedIsUnambiguous(t[1..]);
    }
  }

  lemma {:induction false} ParsedItemsAreUnambiguous(t: seq<Token>)
    ensures var p := ParseItems(t); p.OkItems? ==> ExpandedItems(p.items) && UnambiguousItems(p.items)
    decreases |t|, 1
  {
    if t == [] || t[0] == TRBrace {
    } else if t[0].TDeclare? {
      if |t| >= 3 { ParsedItemsAreUnambiguous(t[3..]); }
    } else {
      ParsedIsUnambiguous(t);
      if Parse(t).Ok? { ParsedItemsAreUnambiguous(Parse(t).rest); }
    }
  }

  /** A statement without macro uses is read back, before any text, if and only if no open `if`
      stands before an `else`, in it or after it. */
  lemma ReadBackExactly(longBits: nat, b: Build, s: Stmt, rest: seq<Token>)
    requires Expanded(s)
    ensures Parse(Print(longBits, b, s) + rest) == Ok(s, rest) <==>
            Unambiguous(s) && (OpenIf(s) ==> !At(rest, 0, TElse))
  {
    ParsedIsUnambiguous(Print(longBits, b, s) + rest);
    if Unambiguous(s) && (OpenIf(s) ==> !At(rest, 0, TElse)) { ReadBack(longBits, b, s, rest); }
  }
}
