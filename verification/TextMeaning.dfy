/**
  The text of a macro use reads as the statement its expansion is, wherever it stands.
  */
module TextMeaning {
  import opened Common
  import opened Forms
  import opened MiniC
  import opened Expansion
  import opened MacroText
  import opened Simulation
  import opened Guarantees
  import opened Discipline

  // ---------- printing the pieces of an expansion ----------

  lemma {:induction false} PrintOnly(longBits: nat, b: Build, s: Stmt)
    ensures PrintItems(longBits, b, Only(s)) == Print(longBits, b, s)
  {
    assert PrintItems(longBits, b, Nil) == [];
  }

  lemma {:induction false} PrintWrapper(longBits: nat, b: Build, items: Items)
    ensures Print(longBits, b, Wrapper(items)) == DoOnce(PrintItems(longBits, b, items)) + [TSemi]
  {
    assert Print(longBits, b, Block(items)) == Braced(PrintItems(longBits, b, items));
  }

  lemma {:induction false} PrintGuard(longBits: nat, b: Build, c: Expr, body: Items)
    ensures PrintItems(longBits, b, Only(If(c, Block(body)))) == IfBraced(c, PrintItems(longBits, b, body))
  {
    PrintOnly(longBits, b, If(c, Block(body)));
    assert Print(longBits, b, Block(body)) == Braced(PrintItems(longBits, b, body));
  }

  lemma {:induction false} PrintTests(longBits: nat, b: Build, c: Expr, body: Items)
    ensures Print(longBits, b, Tests(c, body)) == DoOnce(IfBraced(c, PrintItems(longBits, b, body))) + [TSemi]
  {
    PrintGuard(longBits, b, c, body);
    PrintWrapper(longBits, b, Only(If(c, Block(body))));
  }

  lemma {:induction false} PrintCopiesAndTests(longBits: nat, b: Build, e: Expr, body: Items)
    ensures Print(longBits, b, CopiesAndTests(longBits, e, body)) ==
            DoOnce(Copy(longBits, e) + IfBraced(IsError(Var(EVAL_ONCE)), PrintItems(longBits, b, body))) + [TSemi]
  {
    var guarded := If(IsError(Var(EVAL_ONCE)), Block(body));
    PrintGuard(longBits, b, IsError(Var(EVAL_ONCE)), body);
    PrintWrapper(longBits, b, Local(EVAL_ONCE, longBits, e, Only(guarded)));
  }

  lemma {:induction false} PrintClosedIf(longBits: nat, b: Build, c: Expr, body: Items)
    ensures Print(longBits, b, ClosedIf(c, body)) ==
            (IfBraced(c, PrintItems(longBits, b, body)) + [TElse] + DoOnce([])) + [TSemi]
  {
    PrintWrapper(longBits, b, Nil);
    assert PrintItems(longBits, b, Nil) == [];
    assert Print(longBits, b, Block(body)) == Braced(PrintItems(longBits, b, body));
  }

  lemma {:induction false} PrintTell(longBits: nat, b: Build, text: Text, at: Option<Label>, m: Expr, code: Expr,
                                     rest: Items)
    ensures PrintItems(longBits, b, Tell(text, at, m, code, rest)) ==
            Says(text, at, m, code) + PrintItems(longBits, b, rest)
  {
    assert PrintItems(longBits, b, Cons(Empty, rest)) == [TSemi] + PrintItems(longBits, b, rest);
  }

  /** The macro's semicolon either ends the action or stands alone after it. */
  lemma {:induction false} PrintSpliced(longBits: nat, b: Build, act: Stmt)
    ensures PrintItems(longBits, b, Spliced(act)) == Bare(Print(longBits, b, act), act) + [TSemi]
  {
    var t := Print(longBits, b, act);
    PrintOnly(longBits, b, act);
    PrintOnly(longBits, b, Empty);
    if EndsInSemicolon(act) { assert t == t[..|t| - 1] + [t[|t| - 1]]; }
  }

  lemma {:induction false} PrintActThenJump(longBits: nat, b: Build, act: Stmt, l: Label)
    ensures PrintItems(longBits, b, ActThenJump(act, l)) ==
            Braced(Bare(Print(longBits, b, act), act) + [TSemi]) + Jump(l)
  {
    PrintSpliced(longBits, b, act);
    PrintOnly(longBits, b, Goto(l));
    assert Print(longBits, b, Block(Spliced(act))) == Braced(PrintItems(longBits, b, Spliced(act)));
  }

  // ---------- the replacement lists by shape ----------

  function ReactionText(f: Form, l: Label, act: seq<Token>): seq<Token> {
    if IsRequire(f) then (if HasAction(f) then Braced(act + [TSemi]) + Jump(l) else Jump(l))
    else if HasAction(f) then act + [TSemi] else []
  }

  function BodyText(b: Build, f: Form, q: Expr, l: Label, m: Expr, act: seq<Token>): seq<Token> {
    if b.Debug? && !IsQuiet(f) then
      Says(TextOf(f, q), LabelOf(f, l), MessageOf(f, m), if CopiesCode(f) then Var(EVAL_ONCE) else Const(0))
      + ReactionText(f, l, act)
    else ReactionText(f, l, act)
  }

  function ShapeText(longBits: nat, b: Build, f: Form, a: Expr, q: Expr, l: Label, m: Expr,
                     act: seq<Token>): seq<Token> {
    if Dropped(b, f) then []
    else if f.DebugString? then DoOnce(Says(NoText, None, m, Const(0)))
    else if Unwrapped(b, f) then IfBraced(Condition(f, a), BodyText(b, f, q, l, m, act)) + [TElse] + DoOnce([])
    else if b.Debug? && CopiesCode(f) then
      DoOnce(Copy(longBits, a) + IfBraced(IsError(Var(EVAL_ONCE)), BodyText(b, f, q, l, m, act)))
    else DoOnce(IfBraced(Condition(f, a), BodyText(b, f, q, l, m, act)))
  }

  lemma {:induction false} ProductionShape(longBits: nat, f: Form, a: Expr, q: Expr, l: Label, m: Expr, act: seq<Token>)
    ensures ProductionText(f, a, l, act) == ShapeText(longBits, Production, f, a, q, l, m, act)
  {
  }

  lemma {:induction false} DebugRequireShape(longBits: nat, f: Form, a: Expr, q: Expr, l: Label, m: Expr,
                                             act: seq<Token>)
    requires f.Requires? && !f.noErr
    ensures DebugText(longBits, f, a, q, l, m, act) == ShapeText(longBits, Debug, f, a, q, l, m, act)
  {
  }

  lemma {:induction false} DebugRequireNoErrShape(longBits: nat, f: Form, a: Expr, q: Expr, l: Label, m: Expr,
                                                  act: seq<Token>)
    requires f.Requires? && f.noErr
    ensures DebugText(longBits, f, a, q, l, m, act) == ShapeText(longBits, Debug, f, a, q, l, m, act)
  {
  }

  lemma {:induction false} DebugOtherShape(longBits: nat, f: Form, a: Expr, q: Expr, l: Label, m: Expr, act: seq<Token>)
    requires !f.Requires?
    ensures DebugText(longBits, f, a, q, l, m, act) == ShapeText(longBits, Debug, f, a, q, l, m, act)
  {
    if !f.DebugString? && !HasAction(f) {
      assert ReactionText(f, l, act) == [];
      assert BodyText(Debug, f, q, l, m, act) ==
             Says(TextOf(f, q), LabelOf(f, l), MessageOf(f, m), if CopiesCode(f) then Var(EVAL_ONCE) else Const(0));
    }
  }

  lemma {:induction false} PrintBody(longBits: nat, b: Build, f: Form, q: Expr, l: Label, m: Expr, act: Stmt)
    ensures PrintItems(longBits, b, Body(b, f, q, l, m, act)) ==
            BodyText(b, f, q, l, m, Bare(Print(longBits, b, act), act))
  {
    PrintOnly(longBits, b, Goto(l));
    PrintSpliced(longBits, b, act);
    PrintActThenJump(longBits, b, act, l);
    assert PrintItems(longBits, b, Nil) == [];
    PrintTell(longBits, b, TextOf(f, q), LabelOf(f, l), MessageOf(f, m),
              if CopiesCode(f) then Var(EVAL_ONCE) else Const(0), Reaction(f, l, act));
  }

  lemma {:induction false} PrintDebugString(longBits: nat, b: Build, m: Expr)
    ensures Print(longBits, b, Wrapper(Tell(NoText, None, m, Const(0), Nil))) ==
            DoOnce(Says(NoText, None, m, Const(0))) + [TSemi]
  {
    assert PrintItems(longBits, b, Nil) == [];
    PrintTell(longBits, b, NoText, None, m, Const(0), Nil);
    PrintWrapper(longBits, b, Tell(NoText, None, m, Const(0), Nil));
  }

  lemma {:induction false} PrintReplace(longBits: nat, b: Build, f: Form, a: Expr, q: Expr, l: Label, m: Expr,
                                        act: Stmt)
    ensures Print(longBits, b, Replace(longBits, b, f, a, q, l, m, act)) ==
            ShapeText(longBits, b, f, a, q, l, m, Bare(Print(longBits, b, act), act)) + [TSemi]
  {
    var body := Body(b, f, q, l, m, act);
    PrintBody(longBits, b, f, q, l, m, act);
    if Dropped(b, f) {
    } else if f.DebugString? {
      PrintDebugString(longBits, b, m);
    } else if Unwrapped(b, f) {
      PrintClosedIf(longBits, b, Condition(f, a), body);
    } else if b.Debug? && CopiesCode(f) {
      PrintCopiesAndTests(longBits, b, a, body);
    } else {
      PrintTests(longBits, b, Condition(f, a), body);
    }
  }

  /** Every replacement list, followed by the user's semicolon, spells the statement that the
      expansion is, for every action. */
  lemma {:induction false} ReplacementSpellsExpansion(longBits: nat, b: Build, f: Form, a: Expr, q: Expr, l: Label,
                                                      m: Expr, act: Stmt)
    ensures ReplacementText(longBits, b, f, a, q, l, m, Bare(Print(longBits, b, act), act)) + [TSemi] ==
            Print(longBits, b, Replace(longBits, b, f, a, q, l, m, act))
  {
    var text := Bare(Print(longBits, b, act), act);
    PrintReplace(longBits, b, f, a, q, l, m, act);
    if b.Production? {
      ProductionShape(longBits, f, a, q, l, m, text);
    } else if !f.Requires? {
      DebugOtherShape(longBits, f, a, q, l, m, text);
    } else if f.noErr {
      DebugRequireNoErrShape(longBits, f, a, q, l, m, text);
    } else {
      DebugRequireShape(longBits, f, a, q, l, m, text);
    }
  }

  // ---------- whole programs ----------

  predicate Readable(s: Stmt) { Expanded(s) && Unambiguous(s) }

  predicate ReadableItems(items: Items) { ExpandedItems(items) && UnambiguousItems(items) }

  lemma {:induction false} ConsReadable(s: Stmt, tail: Items)
    requires Readable(s) && ReadableItems(tail)
    ensures ReadableItems(Cons(s, tail))
  {
  }

  lemma {:induction false} OnlyReadable(s: Stmt)
    requires Readable(s)
    ensures ReadableItems(Only(s))
  {
    assert ReadableItems(Nil);
    ConsReadable(s, Nil);
  }

  /** One statement that needs a semicolon after it and leaves no `if` for a following `else`. */
  predicate Closed(s: Stmt) { Readable(s) && !OpenIf(s) && EndsInSemicolon(s) }

  lemma {:induction false} WrapperCloses(items: Items)
    requires ReadableItems(items)
    ensures Closed(Wrapper(items))
  {
    assert Readable(Block(items));
  }

  lemma {:induction false} TestsClose(c: Expr, body: Items)
    requires ReadableItems(body)
    ensures Closed(Tests(c, body))
  {
    assert Readable(Block(body));
    OnlyReadable(If(c, Block(body)));
    WrapperCloses(Only(If(c, Block(body))));
  }

  lemma {:induction false} CopiesAndTestsClose(longBits: nat, e: Expr, body: Items)
    requires ReadableItems(body)
    ensures Closed(CopiesAndTests(longBits, e, body))
  {
    var guarded := If(IsError(Var(EVAL_ONCE)), Block(body));
    assert Readable(Block(body));
    OnlyReadable(guarded);
    WrapperCloses(Local(EVAL_ONCE, longBits, e, Only(guarded)));
  }

  lemma {:induction false} ClosedIfCloses(c: Expr, body: Items)
    requires ReadableItems(body)
    ensures Closed(ClosedIf(c, body))
  {
    assert Readable(Block(body));
    assert ReadableItems(Nil);
    WrapperCloses(Nil);
  }

  lemma {:induction false} ReactionReadable(f: Form, l: Label, act: Stmt)
    requires Readable(act)
    ensures ReadableItems(Reaction(f, l, act))
  {
    OnlyReadable(Empty);
    OnlyReadable(Goto(l));
    OnlyReadable(act);
    ConsReadable(act, Only(Empty));
    assert Readable(Block(Spliced(act)));
    ConsReadable(Block(Spliced(act)), Only(Goto(l)));
  }

  lemma {:induction false} TellReadable(text: Text, at: Option<Label>, m: Expr, code: Expr, rest: Items)
    requires ReadableItems(rest)
    ensures ReadableItems(Tell(text, at, m, code, rest))
  {
    ConsReadable(Empty, rest);
    ConsReadable(Report(text, at, m, code), Cons(Empty, rest));
  }

  lemma {:induction false} BodyReadable(b: Build, f: Form, q: Expr, l: Label, m: Expr, act: Stmt)
    requires Readable(act)
    ensures ReadableItems(Body(b, f, q, l, m, act))
  {
    ReactionReadable(f, l, act);
    TellReadable(TextOf(f, q), LabelOf(f, l), MessageOf(f, m),
                 if CopiesCode(f) then Var(EVAL_ONCE) else Const(0), Reaction(f, l, act));
  }

  /** Every expansion is one closed statement. */
  lemma {:induction false} ReplaceCloses(longBits: nat, b: Build, f: Form, a: Expr, q: Expr, l: Label, m: Expr,
                                         act: Stmt)
    requires Readable(act)
    ensures Closed(Replace(longBits, b, f, a, q, l, m, act))
  {
    var body := Body(b, f, q, l, m, act);
    BodyReadable(b, f, q, l, m, act);
    if Dropped(b, f) {
    } else if f.DebugString? {
      assert ReadableItems(Nil);
      TellReadable(NoText, None, m, Const(0), Nil);
      WrapperCloses(Tell(NoText, None, m, Const(0), Nil));
    } else {
      ClosedIfCloses(Condition(f, a), body);
      CopiesAndTestsClose(longBits, a, body);
      TestsClose(Condition(f, a), body);
    }
  }

  lemma {:induction false} ExpansionReadable(longBits: nat, b: Build, u: Stmt)
    requires Unambiguous(u)
    ensures var s := Expand(longBits, b, u);
            Readable(s) && OpenIf(s) == OpenIf(u) && EndsInSemicolon(s) == EndsInSemicolon(u)
  {
    match u
    case Block(items) => ExpansionReadableItems(longBits, b, items);
    case If(_, thn) => ExpansionReadable(longBits, b, thn);
    case IfElse(_, thn, els) => ExpansionReadable(longBits, b, thn); ExpansionReadable(longBits, b, els);
    case While(_, body) => ExpansionReadable(longBits, b, body);
    case DoWhile(body, _) => ExpansionReadable(longBits, b, body);
    case Use(site, f, arg, l, m, action) =>
      ExpansionReadable(longBits, b, action);
      ReplaceCloses(longBits, b, f, Probe(site, arg), arg, l, m, Expand(longBits, b, action));
    case _ =>
  }

  lemma {:induction false} ExpansionReadableItems(longBits: nat, b: Build, items: Items)
    requires UnambiguousItems(items)
    ensures ReadableItems(ExpandItems(longBits, b, items))
  {
    match items
    case Nil =>
    case Cons(s, tail) => ExpansionReadable(longBits, b, s); ExpansionReadableItems(longBits, b, tail);
    case Local(_, _, _, tail) => ExpansionReadableItems(longBits, b, tail);
  }

  lemma {:induction false} TextOfUse(longBits: nat, b: Build, u: Stmt)
    requires u.Use? && Unambiguous(u)
    requires Print(longBits, b, u.action) == Print(longBits, b, Expand(longBits, b, u.action))
    ensures Print(longBits, b, u) == Print(longBits, b, Expand(longBits, b, u))
  {
    var act := Expand(longBits, b, u.action);
    ExpansionReadable(longBits, b, u.action);
    assert Bare(Print(longBits, b, u.action), u.action) == Bare(Print(longBits, b, act), act);
    ReplacementSpellsExpansion(longBits, b, u.form, Probe(u.site, u.arg), u.arg, u.handler, u.message, act);
  }

  /** The text of a program with macro uses is the text of its expansion. */
  lemma {:induction false} TextOfExpansion(longBits: nat, b: Build, u: Stmt)
    requires Unambiguous(u)
    ensures Print(longBits, b, u) == Print(longBits, b, Expand(longBits, b, u))
  {
    match u
    case Block(items) => TextOfExpansionItems(longBits, b, items);
    case If(_, thn) => TextOfExpansion(longBits, b, thn);
    case IfElse(_, thn, els) => TextOfExpansion(longBits, b, thn); TextOfExpansion(longBits, b, els);
    case While(_, body) => TextOfExpansion(longBits, b, body);
    case DoWhile(body, _) => TextOfExpansion(longBits, b, body);
    case Use(_, _, _, _, _, action) => TextOfExpansion(longBits, b, action); TextOfUse(longBits, b, u);
    case _ =>
  }

  lemma {:induction false} TextOfExpansionItems(longBits: nat, b: Build, items: Items)
    requires UnambiguousItems(items)
    ensures PrintItems(longBits, b, items) == PrintItems(longBits, b, ExpandItems(longBits, b, items))
  {
    match items
    case Nil =>
    case Cons(s, tail) => TextOfExpansion(longBits, b, s); TextOfExpansionItems(longBits, b, tail);
    case Local(_, _, _, tail) => TextOfExpansionItems(longBits, b, tail);
  }

  /** Preprocessing a program and parsing the text gives its expansion, in both builds and with
      uses nested in actions however deep. */
  lemma ParsesAsExpansion(longBits: nat, b: Build, u: Stmt, rest: seq<Token>)
    requires Unambiguous(u)
    requires OpenIf(u) ==> !At(rest, 0, TElse)
    ensures Parse(Print(longBits, b, u) + rest) == Ok(Expand(longBits, b, u), rest)
  {
    TextOfExpansion(longBits, b, u);
    ExpansionReadable(longBits, b, u);
    ReadBack(longBits, b, Expand(longBits, b, u), rest);
  }

  /** if ( c ) M; else s -- the else belongs to the outer `if`, whatever macro use M is. */
  lemma {:induction false} ElseBindsOutside(longBits: nat, b: Build, c: Expr, use: Stmt, s: Stmt, rest: seq<Token>)
    requires use.Use? && Unambiguous(use) && Unambiguous(s)
    requires OpenIf(s) ==> !At(rest, 0, TElse)
    ensures Parse(Headed(TIf, c) + (Print(longBits, b, use) + ([TElse] + (Print(longBits, b, s) + rest)))) ==
            Ok(IfElse(c, Expand(longBits, b, use), Expand(longBits, b, s)), rest)
  {
    ParsesAsExpansion(longBits, b, IfElse(c, use, s), rest);
    PrintedIfElse(longBits, b, c, use, s, rest);
  }

  /** From source text to outcome: preprocess and parse a disciplined program for each build, run
      both, and they end alike, with the same variables and calls; the production build has
      logged nothing, the debug build exactly the messages owed. */
  lemma TextsAgree(h: Host, u: Stmt, s: State, fuel: nat)
    requires Unambiguous(u) && Plain(u) && Disciplined(h.longBits, Scopes(s.env), u) && Clean(s.env) && Sound(s.env)
    ensures var pt, dt := Parse(Print(h.longBits, Production, u)), Parse(Print(h.longBits, Debug, u));
            && pt.Ok? && dt.Ok? && pt.rest == dt.rest == []
            && var p, d := Exec(h, pt.s, s, fuel), Exec(h, dt.s, s, fuel);
            && p.exit == d.exit
            && p.st.env == d.st.env
            && p.st.calls == d.st.calls
            && p.st.log == s.log
            && d.st.log == Exec(h, u, Start(s), fuel).st.notes.failed
  {
    ParsesAsExpansion(h.longBits, Production, u, []);
    ParsesAsExpansion(h.longBits, Debug, u, []);
    assert Print(h.longBits, Production, u) + [] == Print(h.longBits, Production, u);
    assert Print(h.longBits, Debug, u) + [] == Print(h.longBits, Debug, u);
    DisciplinedBuildsAgree(h, u, s, fuel);
  }
}
