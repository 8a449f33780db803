/**
  Inputs on which the builds of an assertion macro part, and on which conversions go wrong: one
  for each rule that the general results need.
  */
module Witnesses {
  import opened Common
  import opened Forms
  import opened MiniC
  import opened Expansion
  import opened Simulation
  import opened Guarantees
  import opened Discipline
  import opened Exactness

  /** __Verify_noErr_Action(1, break): the enclosing loop ends in production and goes on in debug. */
  lemma BreakInAction(h: Host, s: State, fuel: nat)
    requires h.longBits > 0
    ensures var u := Use(0, VerifiesWithAction(true), Const(1), "", Const(0), Break);
            InBuild(h, Production, u, s, fuel).exit == Broke && InBuild(h, Debug, u, s, fuel).exit == Normal
  {
    var u := Use(0, VerifiesWithAction(true), Const(1), "", Const(0), Break);
    PlainMeasured(h, Production, u, s);
    PlainMeasured(h, Debug, u, s);
    InWidthKeepsErrorOfOne(h.longBits);
    JumpRouting(h, Production, u, s, fuel);
    JumpRouting(h, Debug, u, s, fuel);
  }

  lemma InWidthKeepsErrorOfOne(longBits: nat)
    requires longBits > 0
    ensures Narrow(longBits, 1) != 0
  {
    assert Pow2(longBits) == 2 * Pow2(longBits - 1);
    SmallKeepsError(longBits, 1);
  }

  /** __Require_noErr(2^bits, bail): production jumps, debug does not. */
  lemma ErrorLost(h: Host, s: State, fuel: nat)
    ensures var u := RequireNoErr(Const(Pow2(h.longBits)), "bail");
            InBuild(h, Production, u, s, fuel).exit == Jumped("bail") && InBuild(h, Debug, u, s, fuel).exit == Normal
  {
    var u := RequireNoErr(Const(Pow2(h.longBits)), "bail");
    MultipleLeavesNothing(h.longBits, 1);
    PlainMeasured(h, Production, u, s);
    PlainMeasured(h, Debug, u, s);
    JumpsWhenItReacts(h, Production, u, s, fuel);
    JumpsWhenItReacts(h, Debug, u, s, fuel);
  }

  /** int evalOnceErrorCode = 5; __Require_noErr(evalOnceErrorCode, bail): production jumps, and
      debug does not where an uninitialized variable happens to be 0. */
  lemma NameCaptured(h: Host, s: State, fuel: nat)
    requires h.garbage == 0 && s.env == Frame(EVAL_ONCE, 32, 5, Top(map[], map[]))
    ensures var u := RequireNoErr(Var(EVAL_ONCE), "bail");
            InBuild(h, Production, u, s, fuel).exit == Jumped("bail") && InBuild(h, Debug, u, s, fuel).exit == Normal
  {
    var u := RequireNoErr(Var(EVAL_ONCE), "bail");
    CapturedVariable(h, u, s);
    JumpsWhenItReacts(h, Production, u, s, fuel);
    JumpsWhenItReacts(h, Debug, u, s, fuel);
  }

  /** With the same variable, __Verify_noErr_Action(1, evalOnceErrorCode = 0): production sets it to
      0, debug leaves it at 5. */
  lemma ActionCaptured(h: Host, s: State, fuel: nat)
    requires s.env == Frame(EVAL_ONCE, 32, 5, Top(map[], map[]))
    ensures var u := Use(0, VerifiesWithAction(true), Const(1), "", Const(0), Expression(Set(EVAL_ONCE, Const(0))));
            && Read(InBuild(h, Production, u, s, fuel).st.env, EVAL_ONCE) == 0
            && Read(InBuild(h, Debug, u, s, fuel).st.env, EVAL_ONCE) == 5
  {
    var u := Use(0, VerifiesWithAction(true), Const(1), "", Const(0), Expression(Set(EVAL_ONCE, Const(0))));
    PlainMeasured(h, Production, u, s);
    JumpRouting(h, Production, u, s, fuel);
    Capture(h, u, s, s, fuel);
    assert Copies(s.env) == [5];
    ReadCopy(InBuild(h, Debug, u, s, fuel).st.env);
  }

  /** With such a variable at 0, __Verify_noErr_String(1, evalOnceErrorCode): the message is not 0. */
  lemma {:induction false} MessageCaptured(h: Host, s: State, fuel: nat)
    requires h.longBits > 0 && s.env == Frame(EVAL_ONCE, 32, 0, Top(map[], map[]))
    ensures var u := Use(0, Verifies(true, true), Const(1), "", Var(EVAL_ONCE), Empty);
            var log := InBuild(h, Debug, u, s, fuel).st.log;
            Read(s.env, EVAL_ONCE) == 0 && |log| == |s.log| + 1 && log[|s.log|].message != 0
  {
    var u := Use(0, Verifies(true, true), Const(1), "", Var(EVAL_ONCE), Empty);
    var body := Body(Debug, u.form, u.arg, u.handler, u.message, Empty);
    InWidthKeepsErrorOfOne(h.longBits);
    var s1 := Copied(h, h.longBits, Probe(0, u.arg), s);
    assert Read(s1.env, EVAL_ONCE) == Narrow(h.longBits, 1);
    RunCopiesAndTests(h, h.longBits, Probe(0, u.arg), body, s, fuel);
    RunTell(h, EqualsZero(u.arg), None, u.message, Var(EVAL_ONCE), Nil, s1, fuel);
  }

  /** __Check(x = 1); if (x) __Verify(1); with x global and 0: debug evaluates two arguments, and
      production neither, so leaving out the one of the Check does not make them equal. */
  lemma {:induction false} CountsPart(h: Host, s: State, fuel: nat)
    requires s.env == Top(map["x" := 0], map[]) && s.ticks == []
    ensures var check := Use(0, Checks(false, false), Set("x", Const(1)), "", Const(0), Empty);
            var verify := Use(1, Verifies(false, false), Const(1), "", Const(0), Empty);
            var u := Block(Cons(check, Cons(If(Var("x"), verify), Nil)));
            && InBuild(h, Production, u, s, fuel).st.ticks == []
            && InBuild(h, Debug, u, s, fuel).st.ticks == [0, 1]
  {
    var check := Use(0, Checks(false, false), Set("x", Const(1)), "", Const(0), Empty);
    var verify := Use(1, Verifies(false, false), Const(1), "", Const(0), Empty);
    var rest := If(Var("x"), verify);
    CheckActs(h, check, s, fuel);
    CheckAssigns(h, s, fuel);
    TwoInARow(h, Production, check, rest, s, fuel);
    TwoInARow(h, Debug, check, rest, s, fuel);
    var d := InBuild(h, Debug, check, s, fuel);
    EvaluatedOnce(h, Debug, check, s, fuel);
    GuardedCounts(h, verify, d.st, fuel);
  }

  lemma {:induction false} GuardedCounts(h: Host, u: Stmt, s: State, fuel: nat)
    requires Read(s.env, "x") != 0 && u.Use? && u.form == Verifies(false, false)
    requires PlainExpr(u.arg) && PlainExpr(u.message)
    ensures InBuild(h, Debug, If(Var("x"), u), s, fuel).st.ticks == s.ticks + [u.site]
  {
    assert Eval(h, Var("x"), s) == Value(Read(s.env, "x"), s);
    EvaluatedOnce(h, Debug, u, s, fuel);
  }

  lemma {:induction false} TwoInARow(h: Host, b: Build, first: Stmt, second: Stmt, s: State, fuel: nat)
    requires InBuild(h, b, first, s, fuel).exit == Normal
    ensures InBuild(h, b, Block(Cons(first, Cons(second, Nil))), s, fuel) ==
            InBuild(h, b, second, InBuild(h, b, first, s, fuel).st, fuel)
  {
    var one, two := Expand(h.longBits, b, first), Expand(h.longBits, b, second);
    assert ExpandItems(h.longBits, b, Nil) == Nil;
    assert ExpandItems(h.longBits, b, Cons(second, Nil)) == Only(two);
    assert ExpandItems(h.longBits, b, Cons(first, Cons(second, Nil))) == Cons(one, Only(two));
    RunOnly(h, two, InBuild(h, b, first, s, fuel).st, fuel);
    assert ExecItems(h, Cons(one, Only(two)), s, fuel) == Exec(h, two, Exec(h, one, s, fuel).st, fuel);
    assert Exec(h, Block(Cons(one, Only(two))), s, fuel) == ExecItems(h, Cons(one, Only(two)), s, fuel);
  }

  /** __Check(x = 1) with x global and 0: debug changes x. */
  lemma CheckAssigns(h: Host, s: State, fuel: nat)
    requires s.env == Top(map["x" := 0], map[])
    ensures var u := Use(0, Checks(false, false), Set("x", Const(1)), "", Const(0), Empty);
            && Read(InBuild(h, Production, u, s, fuel).st.env, "x") == 0
            && Read(InBuild(h, Debug, u, s, fuel).st.env, "x") == 1
  {
    var u := Use(0, Checks(false, false), Set("x", Const(1)), "", Const(0), Empty);
    CheckActs(h, u, s, fuel);
    assert Eval(h, u.arg, s).st.env == Top(map["x" := 1], map[]);
    var d := InBuild(h, Debug, u, s, fuel);
    EraseRead(d.st.env, "x");
  }
}

module ConversionWitnesses {
  import opened ByteOrder

  /** On a little-endian host with an eight-byte long, NXSwapHostLongToBig(1) is not big-endian. */
  lemma LongNotBigEndian()
    ensures var h := Host(false, 8);
            Store(h, 8, NXSwapHostLongToBig(h, 1)) != BigImage(8, 1)
  {
    RangeGrows(1, 8);
    LongImage(Host(false, 8), 1);
  }

  /** On a big-endian host with an eight-byte long, a float comes back as 0. */
  lemma FloatComesBackZero(x: int, junk: seq<Byte>)
    requires 0 < x < Range(4) && |junk| == 8
    ensures var h := Host(true, 8);
            NXSwapBigFloatToHost(h, NXSwapHostFloatToBig(h, x, junk)) == 0 != x
  {
    FloatRoundTrip(Host(true, 8), x, junk);
  }
}
