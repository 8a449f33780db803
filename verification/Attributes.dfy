/**
  The __API_... macros of basic-headers/Availability.h: how a variadic entry point finds the
  macro for its number of arguments (section 6.10.3 of ISO/IEC 9899:2011), and what that macro,
  in basic-headers/AvailabilityInternal.h, expands to.
  */
module Dispatch {
  import opened Common

  type Arg = string

  /** The entry points.  Each ...Begin family opens a region of declarations. */
  datatype Family =
    | Available | AvailableBegin
    | Deprecated | DeprecatedBegin
    | Replaced | ReplacedBegin
    | Unavailable | UnavailableBegin

  predicate IsBegin(f: Family) { f.AvailableBegin? || f.DeprecatedBegin? || f.ReplacedBegin? || f.UnavailableBegin? }

  /** The first argument is a message or a replacement, not a platform. */
  predicate TakesNote(f: Family) { f.Deprecated? || f.DeprecatedBegin? || f.Replaced? || f.ReplacedBegin? }

  datatype Attribute = Attribute(family: Family, note: Option<Arg>, platform: Arg)

  // ---------- choosing a macro by the number of arguments ----------

  /** What can stand in an argument position of GET_MACRO. */
  datatype Word = Given(a: Arg) | Numbered(k: nat) | Zero

  /** The names NAME<w>, ..., NAME2, NAME1. */
  function Countdown(w: nat): (r: seq<Word>)
    ensures |r| == w
    ensures forall i :: 0 <= i < w ==> r[i] == Numbered(w - i)
  {
    if w == 0 then [] else [Numbered(w)] + Countdown(w - 1)
  }

  /** GET_MACRO(args, NAME<w>, ..., NAME1, 0) is its parameter number w + 1. */
  function GetMacro(w: nat, args: seq<Arg>): Word {
    (seq(|args|, i requires 0 <= i < |args| => Given(args[i])) + Countdown(w) + [Zero])[w]
  }

  /** It is the macro numbered by the count of the arguments, as long as they fit in the window;
      with more of them it is one of the arguments. */
  lemma SelectsByCount(w: nat, args: seq<Arg>)
    requires args != []
    ensures GetMacro(w, args) == if |args| <= w then Numbered(|args|) else Given(args[w])
  {
  }

  // ---------- the numbered macros ----------

  function Window(f: Family): nat { if TakesNote(f) then 8 else 7 }

  /** How many parameters macro k of the family declares, if there is one.  The families with a
      note start at 2, and __API_UNAVAILABLE_BEGIN7 declares six. */
  function Parameters(f: Family, k: nat): Option<nat> {
    if k == 0 || k > Window(f) || (TakesNote(f) && k == 1) then None
    else if f.UnavailableBegin? && k == 7 then Some(6)
    else Some(k)
  }

  function NoteOf(f: Family, args: seq<Arg>): Option<Arg> {
    if TakesNote(f) && args != [] then Some(args[0]) else None
  }

  /** One attribute: __API_A, __API_D, __API_R, __API_U, or its _BEGIN form. */
  function One(f: Family, args: seq<Arg>, platform: Arg): Attribute {
    Attribute(f, NoteOf(f, args), platform)
  }

  predicate CallsPrevious(f: Family, k: nat) {
    ((f.Deprecated? || f.Replaced?) && k >= 4) || (f.Unavailable? && k >= 3)
  }

  /** Macro k applied to its arguments.  The MSG, REP and UNAVAILABLE macros call the one before
      them and add the last platform; the others list their parameters. */
  function ApplyMacro(f: Family, k: nat, args: seq<Arg>): Option<seq<Attribute>>
    decreases k
  {
    if Parameters(f, k) != Some(|args|) then None
    else if CallsPrevious(f, k) then
      var before := ApplyMacro(f, k - 1, args[..k - 1]);
      if before.None? then None else Some(before.value + [One(f, args, args[k - 1])])
    else if f.UnavailableBegin? && k == 7 then
      // the seventh platform is not a parameter, so its name is left as it stands
      Some(seq(6, i requires 0 <= i < 6 => One(f, args, args[i])) + [One(f, args, "g")])
    else if TakesNote(f) then Some(seq(k - 1, i requires 0 <= i < k - 1 => One(f, args, args[i + 1])))
    else Some(seq(k, i requires 0 <= i < k => One(f, args, args[i])))
  }

  /** The entry point: select, then apply.  Anything but a numbered macro is not a macro call. */
  function Entry(f: Family, args: seq<Arg>): Option<seq<Attribute>> {
    match GetMacro(Window(f), args)
    case Numbered(k) => ApplyMacro(f, k, args)
    case Given(_) => None
    case Zero => None
  }

  // ---------- what the entry points mean ----------

  function Platforms(f: Family, args: seq<Arg>): seq<Arg> {
    if TakesNote(f) && args != [] then args[1..] else args
  }

  /** One attribute for each platform, in order. */
  function InOrder(f: Family, note: Option<Arg>, platforms: seq<Arg>): (r: seq<Attribute>)
    ensures |r| == |platforms|
    ensures forall i :: 0 <= i < |r| ==> r[i] == Attribute(f, note, platforms[i])
  {
    if platforms == [] then []
    else [Attribute(f, note, platforms[0])] + InOrder(f, note, platforms[1..])
  }

  /** The numbers of arguments that work. */
  predicate Works(f: Family, n: nat) {
    && n <= Window(f)
    && (TakesNote(f) ==> n != 1)
    && (f.UnavailableBegin? ==> n != 7)
  }

  lemma {:induction false} InOrderAppend(f: Family, note: Option<Arg>, platforms: seq<Arg>, last: Arg)
    ensures InOrder(f, note, platforms + [last]) == InOrder(f, note, platforms) + [Attribute(f, note, last)]
  {
  }

  lemma {:induction false} LastInOrder(f: Family, args: seq<Arg>)
    requires |args| >= 3
    ensures var front, last := args[..|args| - 1], args[|args| - 1];
            InOrder(f, NoteOf(f, args), Platforms(f, args)) ==
            InOrder(f, NoteOf(f, front), Platforms(f, front)) + [One(f, args, last)]
  {
    var front, last := args[..|args| - 1], args[|args| - 1];
    assert args == front + [last];
    assert Platforms(f, args) == Platforms(f, front) + [last];
    InOrderAppend(f, NoteOf(f, args), Platforms(f, front), last);
  }

  lemma {:induction false} NumberedInOrder(f: Family, k: nat, args: seq<Arg>)
    requires Parameters(f, k) == Some(|args|) && |args| == k
    ensures ApplyMacro(f, k, args) == Some(InOrder(f, NoteOf(f, args), Platforms(f, args)))
    decreases k
  {
    if CallsPrevious(f, k) {
      NumberedInOrder(f, k - 1, args[..k - 1]);
      LastInOrder(f, args);
    } else {
      assert ApplyMacro(f, k, args).value == InOrder(f, NoteOf(f, args), Platforms(f, args));
    }
  }

  /** For every family and every argument list: one attribute per platform, in order, exactly
      for the numbers of arguments that work, and an error for every other. */
  lemma EntryMeans(f: Family, args: seq<Arg>)
    requires args != []
    ensures Entry(f, args) ==
            if Works(f, |args|) then Some(InOrder(f, NoteOf(f, args), Platforms(f, args))) else None
  {
    SelectsByCount(Window(f), args);
    if Works(f, |args|) { NumberedInOrder(f, |args|, args); }
  }

  /** The deprecation families: a message or replacement and one to seven platforms, or an error.
      Each attribute has the family, the first argument and its own platform. */
  lemma NotedEntries(f: Family, args: seq<Arg>)
    requires f.Deprecated? || f.DeprecatedBegin? || f.Replaced? || f.ReplacedBegin?
    requires args != []
    ensures Entry(f, args).Some? <==> 2 <= |args| <= 8
    ensures Entry(f, args).Some? ==>
              && |Entry(f, args).value| == |args| - 1
              && forall i :: 0 < i < |args| ==> Entry(f, args).value[i - 1] == Attribute(f, Some(args[0]), args[i])
  {
    EntryMeans(f, args);
  }

  /** The other families: one to seven platforms, six for __API_UNAVAILABLE_BEGIN, or an error.
      Each attribute has the family and its own platform. */
  lemma PlatformEntries(f: Family, args: seq<Arg>)
    requires f.Available? || f.AvailableBegin? || f.Unavailable? || f.UnavailableBegin?
    requires args != []
    ensures Entry(f, args).Some? <==> |args| <= if f.UnavailableBegin? then 6 else 7
    ensures Entry(f, args).Some? ==>
              && |Entry(f, args).value| == |args|
              && forall i :: 0 <= i < |args| ==> Entry(f, args).value[i] == Attribute(f, None, args[i])
  {
    EntryMeans(f, args);
  }

  /** The example in the header's comment. */
  lemma HeadersExample()
    ensures Entry(Deprecated, ["No longer supported", "macos(10.4, 10.8)"]) ==
            Some([Attribute(Deprecated, Some("No longer supported"), "macos(10.4, 10.8)")])
  {
    var args := ["No longer supported", "macos(10.4, 10.8)"];
    NotedEntries(Deprecated, args);
    var one := Entry(Deprecated, args).value;
    assert one[1 - 1] == Attribute(Deprecated, Some(args[0]), args[1]);
    assert one == [Attribute(Deprecated, Some(args[0]), args[1])];
  }
}

/**
  Regions: the ..._BEGIN macros push a group of attributes on the compiler's stack, the ..._END
  macros pop it, and a declaration in between carries every attribute on the stack.
  */
module Regions {
  import opened Common
  import opened Dispatch

  datatype Declaration = Declaration(name: string, attributes: seq<Attribute>)

  datatype Command = Begin(family: Family, args: seq<Arg>) | End | Declare(name: string)

  datatype State = State(groups: seq<seq<Attribute>>, declared: seq<Declaration>)

  function Flatten(groups: seq<seq<Attribute>>): seq<Attribute> {
    if groups == [] then [] else Flatten(groups[..|groups| - 1]) + groups[|groups| - 1]
  }

  function Step(c: Command, st: State): Option<State> {
    match c
    case Begin(f, args) =>
      var attributes := if IsBegin(f) then Entry(f, args) else None;
      if attributes.None? then None else Some(st.(groups := st.groups + [attributes.value]))
    case End => if st.groups == [] then None else Some(st.(groups := st.groups[..|st.groups| - 1]))
    case Declare(name) => Some(st.(declared := st.declared + [Declaration(name, Flatten(st.groups))]))
  }

  function Run(cs: seq<Command>, st: State): Option<State> {
    if cs == [] then Some(st)
    else
      var next := Step(cs[0], st);
      if next.None? then None else Run(cs[1..], next.value)
  }

  /** The compiler's own stack, pushed, filled and popped by pragmas. */
  class AttributeStack {
    var groups: seq<seq<Attribute>>
    var declared: seq<Declaration>

    function Now(): State
      reads this
    {
      State(groups, declared)
    }

    constructor (st: State)
      ensures Now() == st
    {
      groups, declared := st.groups, st.declared;
    }

    /** push, then one attribute pragma for each platform.  The push comes first, and stays when
        the arguments turn out not to select a macro. */
    method BeginRegion(f: Family, args: seq<Arg>) returns (ok: bool)
      requires IsBegin(f)
      modifies this
      ensures ok == Step(Begin(f, args), old(Now())).Some?
      ensures Now() == if ok then Step(Begin(f, args), old(Now())).value
                       else old(Now()).(groups := old(groups) + [[]])
    {
      groups := groups + [[]];
      var attributes := Entry(f, args);
      ok := attributes.Some?;
      if ok {
        var top := |groups| - 1;
        for i := 0 to |attributes.value|
          invariant groups == old(groups) + [attributes.value[..i]] && declared == old(declared)
        {
          assert attributes.value[..i + 1] == attributes.value[..i] + [attributes.value[i]];
          groups := groups[top := groups[top] + [attributes.value[i]]];
        }
        assert attributes.value[..|attributes.value|] == attributes.value;
      }
    }

    method Read(cs: seq<Command>) returns (ok: bool)
      modifies this
      ensures ok == Run(cs, old(Now())).Some?
      ensures ok ==> Now() == Run(cs, old(Now())).value
    {
      ok := true;
      for i := 0 to |cs|
        invariant ok && Run(cs, old(Now())) == Run(cs[i..], Now())
      {
        ghost var before := Now();
        match cs[i] {
          case Begin(f, args) => if IsBegin(f) { ok := BeginRegion(f, args); } else { ok := false; }
          case End =>
            ok := groups != [];
            if ok { groups := groups[..|groups| - 1]; }
          case Declare(name) => declared := declared + [Declaration(name, Flatten(groups))];
        }
        assert ok == Step(cs[i], before).Some?;
        assert cs[i..][0] == cs[i] && cs[i..][1..] == cs[i + 1..];
        if !ok { return; }
        assert Run(cs[i..], before) == Run(cs[i + 1..], Now());
      }
      assert cs[|cs|..] == [];
    }
  }

  // ---------- nested regions ----------

  datatype Node = Leaf(name: string) | Region(family: Family, args: seq<Arg>, body: Nodes)
  datatype Nodes = Nothing | Then(first: Node, rest: Nodes)

  function Text(ns: Nodes): seq<Command> {
    match ns
    case Nothing => []
    case Then(Leaf(name), rest) => [Declare(name)] + Text(rest)
    case Then(Region(f, args, body), rest) => [Begin(f, args)] + Text(body) + [End] + Text(rest)
  }

  predicate Usable(c: Command) { c.Begin? ==> IsBegin(c.family) && c.args != [] && Works(c.family, |c.args|) }

  predicate AllUsable(cs: seq<Command>) { forall i :: 0 <= i < |cs| ==> Usable(cs[i]) }

  /** What a Begin adds, in terms of its arguments. */
  function Adds(f: Family, args: seq<Arg>): seq<Attribute> { InOrder(f, NoteOf(f, args), Platforms(f, args)) }

  /** Each declaration with the attributes of the regions it is in, outermost first. */
  function Carried(ns: Nodes, open: seq<Attribute>): seq<Declaration> {
    match ns
    case Nothing => []
    case Then(Leaf(name), rest) => [Declaration(name, open)] + Carried(rest, open)
    case Then(Region(f, args, body), rest) => Carried(body, open + Adds(f, args)) + Carried(rest, open)
  }

  lemma {:induction false} RunConcat(a: seq<Command>, b: seq<Command>, st: State)
    ensures Run(a + b, st) == if Run(a, st).None? then None else Run(b, Run(a, st).value)
  {
    if a == [] {
      assert a + b == b;
    } else {
      assert (a + b)[1..] == a[1..] + b;
      if Step(a[0], st).Some? { RunConcat(a[1..], b, Step(a[0], st).value); }
    }
  }

  /** Nested regions leave the stack as it was, and each declaration carries exactly the
      attributes of the regions around it, in order. */
  lemma {:induction false} RegionsNest(ns: Nodes, st: State)
    requires AllUsable(Text(ns))
    ensures Run(Text(ns), st) == Some(st.(declared := st.declared + Carried(ns, Flatten(st.groups))))
    decreases ns, 1
  {
    match ns
    case Nothing => assert st.declared + [] == st.declared;
    case Then(Leaf(name), rest) => LeafNests(name, rest, st);
    case Then(Region(f, args, body), rest) => RegionNests(f, args, body, rest, st);
  }

  lemma {:induction false} LeafNests(name: string, rest: Nodes, st: State)
    requires AllUsable(Text(Then(Leaf(name), rest)))
    ensures var ns := Then(Leaf(name), rest);
            Run(Text(ns), st) == Some(st.(declared := st.declared + Carried(ns, Flatten(st.groups))))
    decreases Then(Leaf(name), rest), 0
  {
    var all := Text(Then(Leaf(name), rest));
    assert all[0] == Declare(name) && all[1..] == Text(rest);
    var d := Declaration(name, Flatten(st.groups));
    var st1 := st.(declared := st.declared + [d]);
    assert Run(all, st) == Run(Text(rest), st1);
    RegionsNest(rest, st1);
    var more := Carried(rest, Flatten(st.groups));
    assert st.declared + [d] + more == st.declared + ([d] + more);
  }

  lemma {:induction false} RegionNests(f: Family, args: seq<Arg>, body: Nodes, rest: Nodes, st: State)
    requires AllUsable(Text(Then(Region(f, args, body), rest)))
    ensures var ns := Then(Region(f, args, body), rest);
            Run(Text(ns), st) == Some(st.(declared := st.declared + Carried(ns, Flatten(st.groups))))
    decreases Then(Region(f, args, body), rest), 0
  {
    var inside := Text(body) + [End] + Text(rest);
    var all := [Begin(f, args)] + inside;
    assert Text(Then(Region(f, args, body), rest)) == all;
    assert Usable(all[0]) by { assert all[0] == Begin(f, args); }
    UsableParts(f, args, body, rest);
    EntryMeans(f, args);
    var st1 := st.(groups := st.groups + [Adds(f, args)]);
    assert all[1..] == inside;
    assert Run(all, st) == Run(inside, st1);
    RegionsNest(body, st1);
    assert st1.groups[..|st1.groups| - 1] == st.groups;
    var st2 := st1.(declared := st1.declared + Carried(body, Flatten(st1.groups)));
    var st3 := st.(declared := st2.declared);
    assert Run([End], st2) == Some(st3) by { assert [End][1..] == []; }
    RunConcat(Text(body), [End], st1);
    RunConcat(Text(body) + [End], Text(rest), st1);
    RegionsNest(rest, st3);
    NestedCarries(f, args, body, rest, st);
  }

  lemma {:induction false} NestedCarries(f: Family, args: seq<Arg>, body: Nodes, rest: Nodes, st: State)
    ensures var open := Flatten(st.groups);
            && Flatten(st.groups + [Adds(f, args)]) == open + Adds(f, args)
            && st.declared + Carried(body, open + Adds(f, args)) + Carried(rest, open) ==
               st.declared + Carried(Then(Region(f, args, body), rest), open)
  {
    assert (st.groups + [Adds(f, args)])[..|st.groups|] == st.groups;
    var open := Flatten(st.groups);
    var a, b := Carried(body, open + Adds(f, args)), Carried(rest, open);
    assert Carried(Then(Region(f, args, body), rest), open) == a + b;
    assert st.declared + a + b == st.declared + (a + b);
  }

  lemma UsableParts(f: Family, args: seq<Arg>, body: Nodes, rest: Nodes)
    requires AllUsable(Text(Then(Region(f, args, body), rest)))
    ensures AllUsable(Text(body)) && AllUsable(Text(rest))
  {
    var all := Text(Then(Region(f, args, body), rest));
    assert all == [Begin(f, args)] + Text(body) + [End] + Text(rest);
    forall i | 0 <= i < |Text(body)| ensures Usable(Text(body)[i]) { assert all[i + 1] == Text(body)[i]; }
    forall i | 0 <= i < |Text(rest)| ensures Usable(Text(rest)[i]) {
      assert all[|Text(body)| + 2 + i] == Text(rest)[i];
    }
  }

  // ---------- any sequence of commands ----------

  /** How many more regions it opens than it closes. */
  function Balance(cs: seq<Command>): int {
    if cs == [] then 0
    else Balance(cs[..|cs| - 1]) + (match cs[|cs| - 1] case Begin(_, _) => 1 case End => -1 case Declare(_) => 0)
  }

  lemma {:induction false} BalanceConcat(a: seq<Command>, b: seq<Command>)
    ensures Balance(a + b) == Balance(a) + Balance(b)
  {
    if b == [] {
      assert a + b == a;
    } else {
      assert (a + b)[..|a + b| - 1] == a + b[..|b| - 1];
      BalanceConcat(a, b[..|b| - 1]);
    }
  }

  lemma BalanceFront(cs: seq<Command>)
    requires cs != []
    ensures Balance(cs) == Balance([cs[0]]) + Balance(cs[1..])
    ensures Balance([cs[0]]) == match cs[0] case Begin(_, _) => 1 case End => -1 case Declare(_) => 0
  {
    BalanceConcat([cs[0]], cs[1..]);
    assert [cs[0]] + cs[1..] == cs;
    assert [cs[0]][..0] == [];
  }

  /** Some prefix closes more regions than it and the stack have opened. */
  ghost predicate ClosesTooMany(cs: seq<Command>, depth: nat) {
    exists i :: 0 <= i <= |cs| && depth + Balance(cs[..i]) < 0
  }

  lemma PrefixOfTail(cs: seq<Command>, i: nat)
    requires cs != [] && 0 < i <= |cs|
    ensures Balance(cs[..i]) == Balance([cs[0]]) + Balance(cs[1..][..i - 1])
  {
    assert cs[..i][1..] == cs[1..][..i - 1];
    BalanceFront(cs[..i]);
  }

  lemma TooManyLater(cs: seq<Command>, depth: nat)
    requires cs != [] && depth + Balance([cs[0]]) >= 0
    requires ClosesTooMany(cs, depth)
    ensures ClosesTooMany(cs[1..], depth + Balance([cs[0]]))
  {
    var i :| 0 <= i <= |cs| && depth + Balance(cs[..i]) < 0;
    assert cs[..0] == [];
    PrefixOfTail(cs, i);
    assert depth + Balance([cs[0]]) + Balance(cs[1..][..i - 1]) < 0;
  }

  lemma TooManyBefore(cs: seq<Command>, depth: nat)
    requires cs != [] && depth + Balance([cs[0]]) >= 0
    requires ClosesTooMany(cs[1..], depth + Balance([cs[0]]))
    ensures ClosesTooMany(cs, depth)
  {
    var i :| 0 <= i <= |cs[1..]| && depth + Balance([cs[0]]) + Balance(cs[1..][..i]) < 0;
    assert cs[1..][..i] == cs[1..][..i + 1 - 1];
    PrefixOfTail(cs, i + 1);
    assert depth + Balance(cs[..i + 1]) < 0;
  }

  /** An END without its BEGIN is the only way to fail, and otherwise the depth of the stack is
      the balance. */
  lemma {:induction false} OnlyUnmatchedEndFails(cs: seq<Command>, st: State)
    requires AllUsable(cs)
    ensures Run(cs, st).None? <==> ClosesTooMany(cs, |st.groups|)
    ensures Run(cs, st).Some? ==> |Run(cs, st).value.groups| == |st.groups| + Balance(cs)
  {
    if cs == [] {
      assert cs[..0] == [];
    } else {
      BalanceFront(cs);
      var next := Step(cs[0], st);
      if cs[0].Begin? { EntryMeans(cs[0].family, cs[0].args); }
      if next.None? {
        assert [cs[0]] == cs[..1];
        assert |st.groups| + Balance(cs[..1]) < 0;
      } else {
        OnlyUnmatchedEndFails(cs[1..], next.value);
        if ClosesTooMany(cs, |st.groups|) { TooManyLater(cs, |st.groups|); }
        if ClosesTooMany(cs[1..], |next.value.groups|) { TooManyBefore(cs, |st.groups|); }
      }
    }
  }

  // ---------- well-nested sequences are exactly the texts of nested regions ----------

  ghost predicate WellNested(cs: seq<Command>) {
    Balance(cs) == 0 && !ClosesTooMany(cs, 0)
  }

  lemma {:induction false} TextBalances(ns: Nodes)
    ensures Balance(Text(ns)) == 0
  {
    match ns
    case Nothing =>
    case Then(Leaf(name), rest) =>
      TextBalances(rest);
      BalanceFront(Text(ns));
      assert Text(ns)[1..] == Text(rest);
    case Then(Region(f, args, body), rest) =>
      TextBalances(body);
      TextBalances(rest);
      BalanceFront([Begin(f, args)]);
      BalanceFront([End]);
      BalanceConcat([Begin(f, args)], Text(body));
      BalanceConcat([Begin(f, args)] + Text(body), [End]);
      BalanceConcat([Begin(f, args)] + Text(body) + [End], Text(rest));
  }

  lemma PrefixOfConcat(a: seq<Command>, b: seq<Command>, i: nat)
    requires i <= |a| + |b|
    ensures Balance((a + b)[..i]) == if i <= |a| then Balance(a[..i]) else Balance(a) + Balance(b[..i - |a|])
  {
    if i <= |a| {
      assert (a + b)[..i] == a[..i];
    } else {
      assert (a + b)[..i] == a + b[..i - |a|];
      BalanceConcat(a, b[..i - |a|]);
    }
  }

  lemma RegionStaysUp(f: Family, args: seq<Arg>, body: Nodes, i: nat)
    requires i <= |Text(body)| + 2
    requires forall k :: 0 <= k <= |Text(body)| ==> Balance(Text(body)[..k]) >= 0
    ensures Balance(([Begin(f, args)] + Text(body) + [End])[..i]) >= 0
    ensures Balance([Begin(f, args)] + Text(body) + [End]) == 0
  {
    var open := [Begin(f, args)] + Text(body);
    TextBalances(body);
    BalanceFront([Begin(f, args)]);
    BalanceFront([End]);
    BalanceConcat([Begin(f, args)], Text(body));
    BalanceConcat(open, [End]);
    PrefixOfConcat(open, [End], i);
    if i <= |open| {
      PrefixOfConcat([Begin(f, args)], Text(body), i);
      assert i == 0 ==> [Begin(f, args)][..i] == [];
      assert i == 1 ==> [Begin(f, args)][..i] == [Begin(f, args)];
    } else {
      assert [End][..i - |open|] == [End];
    }
  }

  /** No text of nested regions closes more than it has opened. */
  lemma {:induction false} TextStaysUp(ns: Nodes, i: nat)
    requires i <= |Text(ns)|
    ensures Balance(Text(ns)[..i]) >= 0
  {
    match ns
    case Nothing =>
    case Then(Leaf(name), rest) =>
      if i > 0 {
        TextStaysUp(rest, i - 1);
        PrefixOfTail(Text(ns), i);
        BalanceFront(Text(ns));
        assert Text(ns)[1..] == Text(rest);
      }
    case Then(Region(f, args, body), rest) =>
      var region := [Begin(f, args)] + Text(body) + [End];
      forall k | 0 <= k <= |Text(body)| ensures Balance(Text(body)[..k]) >= 0 { TextStaysUp(body, k); }
      RegionStaysUp(f, args, body, if i <= |region| then i else 0);
      PrefixOfConcat(region, Text(rest), i);
      if i > |region| { TextStaysUp(rest, i - |region|); }
  }

  /** Every text of nested regions is well nested. */
  lemma TextIsWellNested(ns: Nodes)
    ensures WellNested(Text(ns))
  {
    TextBalances(ns);
    forall i | 0 <= i <= |Text(ns)| ensures Balance(Text(ns)[..i]) >= 0 { TextStaysUp(ns, i); }
  }

  /** Where the region that the first command opens is closed. */
  lemma {:induction false} MatchingEnd(cs: seq<Command>) returns (m: nat)
    requires cs != [] && cs[0].Begin? && WellNested(cs)
    ensures 1 < m <= |cs| && Balance(cs[..m]) == 0 && cs[m - 1] == End
    ensures forall i :: 0 < i < m ==> Balance(cs[..i]) > 0
  {
    m := 1;
    BalanceFront(cs[..1]);
    assert cs[..1][1..] == [];
    while Balance(cs[..m]) > 0
      invariant 1 <= m <= |cs| && Balance(cs[..m]) >= 0
      invariant forall i :: 0 < i < m ==> Balance(cs[..i]) > 0
      invariant m == 1 ==> Balance(cs[..m]) > 0
      invariant m > 1 && Balance(cs[..m]) == 0 ==> cs[m - 1] == End
      decreases |cs| - m
    {
      assert m < |cs| by { assert cs[..|cs|] == cs; }
      assert cs[..m + 1][..m] == cs[..m];
      assert 0 + Balance(cs[..m + 1]) >= 0;
      m := m + 1;
    }
  }

  lemma SliceBalance(cs: seq<Command>, i: nat, j: nat)
    requires i <= j <= |cs|
    ensures Balance(cs[i..j]) == Balance(cs[..j]) - Balance(cs[..i])
  {
    BalanceConcat(cs[..i], cs[i..j]);
    assert cs[..i] + cs[i..j] == cs[..j];
  }

  lemma NestedSlice(cs: seq<Command>, i: nat, j: nat)
    requires i <= j <= |cs| && Balance(cs[..i]) == Balance(cs[..j])
    requires forall k :: i <= k <= j ==> Balance(cs[..k]) >= Balance(cs[..i])
    ensures WellNested(cs[i..j])
  {
    SliceBalance(cs, i, j);
    forall k | 0 <= k <= j - i ensures Balance(cs[i..j][..k]) >= 0 {
      assert cs[i..j][..k] == cs[i..i + k];
      SliceBalance(cs, i, i + k);
    }
  }

  /** Counting is enough: every well-nested sequence is the text of nested regions, so what
      RegionsNest says holds of all of them. */
  lemma {:induction false} WellNestedIsText(cs: seq<Command>) returns (ns: Nodes)
    requires WellNested(cs)
    ensures Text(ns) == cs
    decreases |cs|
  {
    if cs == [] {
      ns := Nothing;
    } else if cs[0].Declare? {
      LeafFirst(cs);
      var rest := WellNestedIsText(cs[1..]);
      ns := Then(Leaf(cs[0].name), rest);
      assert cs == [cs[0]] + cs[1..];
    } else {
      DoesNotStartWithEnd(cs);
      var m := MatchingEnd(cs);
      RegionFirst(cs, m);
      var body := WellNestedIsText(cs[1..m - 1]);
      var rest := WellNestedIsText(cs[m..]);
      ns := Then(Region(cs[0].family, cs[0].args, body), rest);
      Reassemble(cs, m, body, rest);
    }
  }

  lemma {:induction false} Reassemble(cs: seq<Command>, m: nat, body: Nodes, rest: Nodes)
    requires 1 < m <= |cs| && cs[0].Begin? && cs[m - 1] == End
    requires Text(body) == cs[1..m - 1] && Text(rest) == cs[m..]
    ensures Text(Then(Region(cs[0].family, cs[0].args, body), rest)) == cs
  {
    assert cs == [cs[0]] + cs[1..m - 1] + [End] + cs[m..];
  }

  lemma PrefixesStayUp(cs: seq<Command>, i: nat)
    requires WellNested(cs) && i <= |cs|
    ensures Balance(cs[..i]) >= 0
  {
    assert 0 + Balance(cs[..i]) >= 0;
  }

  lemma DoesNotStartWithEnd(cs: seq<Command>)
    requires WellNested(cs) && cs != []
    ensures cs[0] != End
  {
    PrefixesStayUp(cs, 1);
    BalanceFront(cs[..1]);
    assert cs[..1][1..] == [];
  }

  lemma LeafFirst(cs: seq<Command>)
    requires WellNested(cs) && cs != [] && cs[0].Declare?
    ensures WellNested(cs[1..])
  {
    BalanceFront(cs[..1]);
    assert cs[..1][1..] == [] && cs[..|cs|] == cs && cs[1..|cs|] == cs[1..];
    forall k | 1 <= k <= |cs| ensures Balance(cs[..k]) >= 0 { PrefixesStayUp(cs, k); }
    NestedSlice(cs, 1, |cs|);
  }

  lemma {:induction false} RegionFirst(cs: seq<Command>, m: nat)
    requires WellNested(cs) && cs != [] && cs[0].Begin?
    requires 1 < m <= |cs| && Balance(cs[..m]) == 0 && cs[m - 1] == End
    requires forall i :: 0 < i < m ==> Balance(cs[..i]) > 0
    ensures WellNested(cs[1..m - 1]) && WellNested(cs[m..])
  {
    BalanceFront(cs[..1]);
    assert cs[..1][1..] == [] && cs[..|cs|] == cs && cs[m..|cs|] == cs[m..];
    assert cs[..m][..m - 1] == cs[..m - 1];
    NestedSlice(cs, 1, m - 1);
    forall k | m <= k <= |cs| ensures Balance(cs[..k]) >= 0 { PrefixesStayUp(cs, k); }
    NestedSlice(cs, m, |cs|);
  }

  /** Every well-nested sequence leaves the stack as it was, and has declared what the nested
      regions it is the text of say, each declaration with the attributes around it. */
  lemma WellNestedRestores(cs: seq<Command>, st: State) returns (ns: Nodes)
    requires WellNested(cs) && AllUsable(cs)
    ensures Text(ns) == cs
    ensures Run(cs, st) == Some(State(st.groups, st.declared + Carried(ns, Flatten(st.groups))))
  {
    ns := WellNestedIsText(cs);
    RegionsNest(ns, st);
  }

  /** There is only one way to read a text as nested regions, so there is no choice in that. */
  lemma {:induction false} OneReading(a: Nodes, b: Nodes)
    requires Text(a) == Text(b)
    ensures a == b
  {
    var end: seq<Command> := [];
    assert Text(a) + end == Text(a) && Text(b) + end == Text(b);
    OneReadingUpTo(a, b, end, end);
  }

  /** Stops at the end of the input or at an END. */
  predicate Stops(rest: seq<Command>) { rest == [] || rest[0] == End }

  lemma {:induction false} LeafHead(name: string, rest: Nodes, p: seq<Command>)
    ensures Text(Then(Leaf(name), rest)) + p == [Declare(name)] + (Text(rest) + p)
  {
    assert Text(Then(Leaf(name), rest)) == [Declare(name)] + Text(rest);
  }

  lemma {:induction false} RegionHead(f: Family, args: seq<Arg>, body: Nodes, rest: Nodes, p: seq<Command>)
    ensures Text(Then(Region(f, args, body), rest)) + p ==
            [Begin(f, args)] + (Text(body) + ([End] + (Text(rest) + p)))
  {
    var b, r := Text(body), Text(rest);
    assert Text(Then(Region(f, args, body), rest)) == [Begin(f, args)] + b + [End] + r;
    assert [Begin(f, args)] + b + [End] + r + p == [Begin(f, args)] + (b + ([End] + (r + p)));
  }

  /** The first command, and what follows it. */
  lemma {:induction false} TextHead(ns: Nodes, p: seq<Command>)
    ensures ns.Nothing? ==> Text(ns) + p == p
    ensures ns.Then? && ns.first.Leaf? ==>
              var t := Text(ns) + p;
              t != [] && t[0] == Declare(ns.first.name) && t[1..] == Text(ns.rest) + p
    ensures ns.Then? && ns.first.Region? ==>
              var t := Text(ns) + p;
              && t != [] && t[0] == Begin(ns.first.family, ns.first.args)
              && t[1..] == Text(ns.first.body) + ([End] + (Text(ns.rest) + p))
  {
    match ns
    case Nothing =>
    case Then(Leaf(name), rest) => LeafHead(name, rest, p);
    case Then(Region(f, args, body), rest) => RegionHead(f, args, body, rest, p);
  }

  lemma {:induction false} OneReadingUpTo(a: Nodes, b: Nodes, p: seq<Command>, q: seq<Command>)
    requires Text(a) + p == Text(b) + q && Stops(p) && Stops(q)
    ensures a == b && p == q
    decreases a
  {
    TextHead(a, p);
    TextHead(b, q);
    if a.Then? && b.Then? && a.first.Leaf? && b.first.Leaf? {
      OneReadingUpTo(a.rest, b.rest, p, q);
    } else if a.Then? && b.Then? && a.first.Region? && b.first.Region? {
      var p', q' := [End] + (Text(a.rest) + p), [End] + (Text(b.rest) + q);
      OneReadingUpTo(a.first.body, b.first.body, p', q');
      assert p'[1..] == Text(a.rest) + p && q'[1..] == Text(b.rest) + q;
      OneReadingUpTo(a.rest, b.rest, p, q);
    }
  }

  /** Seven platforms, which the other families take, are too many for __API_UNAVAILABLE_BEGIN. */
  lemma SevenUnavailable(st: State)
    ensures var seven := ["macos", "ios", "tvos", "watchos", "bridgeos", "macCatalyst", "driverkit"];
            Step(Begin(UnavailableBegin, seven), st).None? && Step(Begin(AvailableBegin, seven), st).Some?
  {
    var seven := ["macos", "ios", "tvos", "watchos", "bridgeos", "macCatalyst", "driverkit"];
    EntryMeans(UnavailableBegin, seven);
    EntryMeans(AvailableBegin, seven);
  }
}
