/**
  How the availability headers number OS versions, and the Swift compiler version test.
  */
module Versions {

  // ---------- Mac OS X: two formats ----------

  /** Mac OS X 10.minor.patch */
  datatype MacVersion = MacVersion(minor: nat, patch: nat)

  /** The versions that have a number: up to 10.9 there is one digit for the patch release, from
      10.10 on there are two. */
  predicate Numbered(v: MacVersion) { v.patch < (if v.minor <= 9 then 10 else 100) }

  function MacCode(v: MacVersion): int {
    if v.minor <= 9 then 1000 + 10 * v.minor + v.patch else 100000 + 100 * v.minor + v.patch
  }

  predicate Precedes(a: MacVersion, b: MacVersion) {
    a.minor < b.minor || (a.minor == b.minor && a.patch < b.patch)
  }

  /** The numbers are ordered as the versions are, across the change of format. */
  lemma MacCodesAreOrdered(a: MacVersion, b: MacVersion)
    requires Numbered(a) && Numbered(b)
    ensures MacCode(a) < MacCode(b) <==> Precedes(a, b)
    ensures MacCode(a) == MacCode(b) <==> a == b
  {
  }

  // ---------- iOS, tvOS, watchOS ----------

  datatype MobileVersion = MobileVersion(major: nat, minor: nat, patch: nat)

  function MobileCode(v: MobileVersion): int { 10000 * v.major + 100 * v.minor + v.patch }

  predicate MobilePrecedes(a: MobileVersion, b: MobileVersion) {
    a.major < b.major || (a.major == b.major && (a.minor < b.minor || (a.minor == b.minor && a.patch < b.patch)))
  }

  lemma MobileCodesAreOrdered(a: MobileVersion, b: MobileVersion)
    requires a.minor < 100 && a.patch < 100 && b.minor < 100 && b.patch < 100
    ensures MobileCode(a) < MobileCode(b) <==> MobilePrecedes(a, b)
    ensures MobileCode(a) == MobileCode(b) <==> a == b
  {
  }

  /** The constants the headers list: the first and last of each format and platform, and those
      with a patch release. */
  lemma ListedConstants()
    ensures MacCode(MacVersion(0, 0)) == 1000 && MacCode(MacVersion(1, 0)) == 1010 && MacCode(MacVersion(9, 0)) == 1090
    ensures MacCode(MacVersion(10, 0)) == 101000 && MacCode(MacVersion(10, 2)) == 101002
    ensures MacCode(MacVersion(15, 0)) == 101500 && MacCode(MacVersion(15, 1)) == 101501
    ensures MobileCode(MobileVersion(2, 0, 0)) == 20000 && MobileCode(MobileVersion(4, 1, 0)) == 40100
    ensures MobileCode(MobileVersion(13, 0, 0)) == 130000 && MobileCode(MobileVersion(13, 1, 0)) == 130100
    ensures MobileCode(MobileVersion(10, 0, 1)) == 100001 && MobileCode(MobileVersion(3, 1, 1)) == 30101
  {
  }

  // ---------- Swift ----------

  /** Argument i of __swift_compiler_version_at_least, which pads its arguments with zeros. */
  function Component(args: seq<nat>, i: nat): nat {
    if i < |args| then args[i] else 0
  }

  const WORD := 0x1_0000_0000_0000_0000

  function Sum(args: seq<nat>): nat {
    Component(args, 0) * 1000000000 + Component(args, 2) * 1000000 + Component(args, 3) * 1000 + Component(args, 4)
  }

  /** X, Z, a and b in base 1000, in unsigned 64-bit arithmetic; the second argument, Y, is not used. */
  function SwiftCode(args: seq<nat>): (c: nat)
    ensures c < WORD
  {
    Sum(args) % WORD
  }

  predicate AtLeast(compiler: nat, args: seq<nat>) { compiler >= SwiftCode(args) }

  predicate Digits(args: seq<nat>) {
    Component(args, 2) < 1000 && Component(args, 3) < 1000 && Component(args, 4) < 1000
  }

  /** Lexicographic order on X, Z, a, b. */
  predicate SwiftLeq(p: seq<nat>, q: seq<nat>) {
    Component(p, 0) < Component(q, 0) || (Component(p, 0) == Component(q, 0) &&
    (Component(p, 2) < Component(q, 2) || (Component(p, 2) == Component(q, 2) &&
    (Component(p, 3) < Component(q, 3) || (Component(p, 3) == Component(q, 3) &&
     Component(p, 4) <= Component(q, 4))))))
  }

  /** The largest version whose number is a 64-bit number, with components below 1000: 2^64 - 1. */
  const LAST_SWIFT: seq<nat> := [18446744073, 0, 709, 551, 615]

  /** The number does not wrap around in 64 bits if and only if the version is not past that one. */
  lemma SwiftCodeFits(args: seq<nat>)
    requires Digits(args)
    ensures SwiftCode(args) == Sum(args) <==> SwiftLeq(args, LAST_SWIFT)
  {
    assert Component(LAST_SWIFT, 0) == 18446744073 && Component(LAST_SWIFT, 2) == 709;
    assert Component(LAST_SWIFT, 3) == 551 && Component(LAST_SWIFT, 4) == 615;
    assert SwiftLeq(args, LAST_SWIFT) <==> Sum(args) < WORD;
  }

  /** The test of a compiler numbered in the same way is the order of versions, and arguments
      left out count as 0. */
  lemma SwiftTestIsOrder(compiler: seq<nat>, args: seq<nat>)
    requires Digits(args) && SwiftLeq(args, LAST_SWIFT)
    requires Digits(compiler) && SwiftLeq(compiler, LAST_SWIFT)
    ensures AtLeast(SwiftCode(compiler), args) <==> SwiftLeq(args, compiler)
  {
    SwiftCodeFits(args);
    SwiftCodeFits(compiler);
  }

  /** Past it, a version is taken for an old one. */
  lemma SwiftWraps()
    ensures AtLeast(SwiftCode([1]), [18446744074]) && !SwiftLeq([18446744074], [1])
  {
    assert Component([18446744074], 0) == 18446744074 && Component([1], 0) == 1;
  }
}

/**
  basic-headers/AvailabilityMacros.h: what a range of OS versions makes of a declaration.
  */
module Classifier {
  import opened Common
  import opened Versions

  datatype Architecture = Intel | Arm | OtherArchitecture

  // ---------- the range of versions ----------

  /** What the user and the compiler have defined before the header is read. */
  datatype Request = Request(min: Option<int>, max: Option<int>, environment: Option<int>, arch: Architecture)

  datatype Resolution = Accepted(min: int, max: int) | MaxBelowMin | MinTooOld

  function ResolvedMin(r: Request): int {
    if r.min.Some? then r.min.value
    else if r.environment.Some? then r.environment.value
    else match r.arch case Intel => 1040 case Arm => 1050 case OtherArchitecture => 1010
  }

  function ResolvedMax(r: Request): int {
    if r.max.Some? then r.max.value
    else if ResolvedMin(r) > 101500 then ResolvedMin(r)
    else 101500
  }

  function Resolve(r: Request): Resolution {
    if ResolvedMax(r) < ResolvedMin(r) then MaxBelowMin
    else if ResolvedMin(r) < 1000 then MinTooOld
    else Accepted(ResolvedMin(r), ResolvedMax(r))
  }

  /** Only a maximum set by hand can be too low, and only a minimum that was given too old; and
      when the maximum is not too low, a minimum that was given is too old exactly below 10.0. */
  lemma WhatIsRejected(r: Request)
    ensures Resolve(r).MaxBelowMin? <==> r.max.Some? && r.max.value < ResolvedMin(r)
    ensures Resolve(r).MinTooOld? <==>
            && (r.max.Some? ==> r.max.value >= ResolvedMin(r))
            && ((r.min.Some? && r.min.value < 1000) ||
                (r.min.None? && r.environment.Some? && r.environment.value < 1000))
    ensures Resolve(r).Accepted? ==> 1000 <= Resolve(r).min <= Resolve(r).max
  {
  }

  /** The range that is accepted, for every request: what is set by hand, else the compiler's
      minimum, else 10.4 on Intel, 10.5 on ARM and 10.1 elsewhere; up to the maximum set by hand,
      else the larger of 10.15 and the minimum. */
  lemma AcceptedRange(r: Request)
    requires Resolve(r).Accepted?
    ensures r.min.Some? ==> Resolve(r).min == r.min.value
    ensures r.min.None? && r.environment.Some? ==> Resolve(r).min == r.environment.value
    ensures r.min.None? && r.environment.None? ==>
              Resolve(r).min == MacCode(MacVersion(if r.arch.Intel? then 4 else if r.arch.Arm? then 5 else 1, 0))
    ensures r.max.Some? ==> Resolve(r).max == r.max.value
    ensures r.max.None? && Resolve(r).min <= MacCode(MacVersion(15, 0)) ==> Resolve(r).max == MacCode(MacVersion(15, 0))
    ensures r.max.None? && Resolve(r).min > MacCode(MacVersion(15, 0)) ==> Resolve(r).max == Resolve(r).min
  {
  }

  /** With nothing given, the minimum is 10.4 on Intel, 10.5 on ARM and 10.1 elsewhere, and the
      range reaches 10.15. */
  lemma Defaults(r: Request)
    requires r.min.None? && r.environment.None? && r.max.None?
    ensures var oldest := match r.arch case Intel => 4 case Arm => 5 case OtherArchitecture => 1;
            Resolve(r) == Accepted(MacCode(MacVersion(oldest, 0)), MacCode(MacVersion(15, 0)))
  {
  }

  // ---------- the macros ----------

  datatype Class = Unavailable | Weak | Ordinary | Deprecated

  /** AVAILABLE_MAC_OS_X_VERSION_<intro>_AND_LATER */
  function Available(min: int, max: int, intro: int): Class {
    if max < intro then Unavailable else if min < intro then Weak else Ordinary
  }

  /** AVAILABLE_..._<intro>_AND_LATER_BUT_DEPRECATED_IN_..., whose test is against `tested` */
  function AvailableButDeprecated(min: int, max: int, intro: int, tested: int): Class {
    if min >= tested then Deprecated else Available(min, max, intro)
  }

  /** DEPRECATED_IN_MAC_OS_X_VERSION_..._AND_LATER, for types */
  function DeprecatedIn(min: int, tested: int): Class {
    if min >= tested then Deprecated else Ordinary
  }

  // ---------- what the header's introduction promises ----------

  ghost predicate InRange(v: MacVersion, min: int, max: int) {
    Numbered(v) && min <= MacCode(v) <= max
  }

  /** There is an OS version in the range. */
  ghost predicate Populated(min: int, max: int) { exists v :: InRange(v, min, max) }

  predicate Has(v: MacVersion, intro: MacVersion) { !Precedes(v, intro) }

  /** Some OS the application may run on has the function. */
  ghost predicate SomeHave(min: int, max: int, intro: MacVersion) {
    exists v :: InRange(v, min, max) && Has(v, intro)
  }

  ghost predicate SomeLack(min: int, max: int, intro: MacVersion) {
    exists v :: InRange(v, min, max) && !Has(v, intro)
  }

  ghost predicate Promised(c: Class, min: int, max: int, intro: MacVersion) {
    && (c.Unavailable? <==> !SomeHave(min, max, intro))
    && (c.Weak? <==> SomeHave(min, max, intro) && SomeLack(min, max, intro))
    && (c.Ordinary? <==> SomeHave(min, max, intro) && !SomeLack(min, max, intro))
  }

  // ---------- which numbers are versions ----------

  /** The first number of an OS version from a on. */
  function Next(a: int): int {
    if a <= 1000 then 1000
    else if a <= 1099 then a
    else if a <= 101000 then 101000
    else a
  }

  lemma NextIsAVersion(a: int) returns (v: MacVersion)
    ensures Numbered(v) && MacCode(v) == Next(a) >= a
  {
    var n := Next(a);
    v := if n <= 1099 then MacVersion((n - 1000) / 10, (n - 1000) % 10)
         else MacVersion((n - 100000) / 100, (n - 100000) % 100);
  }

  lemma NextIsFirst(a: int, v: MacVersion)
    requires Numbered(v) && MacCode(v) >= a
    ensures MacCode(v) >= Next(a)
  {
  }

  /** Whether there is an OS version in a range can be read off its ends. */
  lemma PopulatedIs(a: int, b: int)
    ensures Populated(a, b) <==> Next(a) <= b
  {
    var first := NextIsAVersion(a);
    if Next(a) <= b { assert InRange(first, a, b); }
    if Populated(a, b) {
      var v :| InRange(v, a, b);
      NextIsFirst(a, v);
    }
  }

  // ---------- the macros keep the promise, and exactly when ----------

  lemma LackedBelow(min: int, max: int, intro: MacVersion)
    requires Numbered(intro)
    ensures SomeLack(min, max, intro) <==> Next(min) <= Least(max, MacCode(intro) - 1)
  {
    var below := Least(max, MacCode(intro) - 1);
    PopulatedIs(min, below);
    if SomeLack(min, max, intro) {
      var v :| InRange(v, min, max) && !Has(v, intro);
      MacCodesAreOrdered(v, intro);
      assert InRange(v, min, below);
    }
    if Populated(min, below) {
      var v :| InRange(v, min, below);
      MacCodesAreOrdered(v, intro);
      assert InRange(v, min, max) && !Has(v, intro);
    }
  }

  function Least(a: int, b: int): int { if a < b then a else b }

  lemma HadFrom(min: int, max: int, intro: MacVersion)
    requires Numbered(intro)
    ensures SomeHave(min, max, intro) <==> Next(if min < MacCode(intro) then MacCode(intro) else min) <= max
  {
    var from := if min < MacCode(intro) then MacCode(intro) else min;
    PopulatedIs(from, max);
    if SomeHave(min, max, intro) {
      var v :| InRange(v, min, max) && Has(v, intro);
      MacCodesAreOrdered(v, intro);
      assert InRange(v, from, max);
    }
    if Populated(from, max) {
      var v :| InRange(v, from, max);
      MacCodesAreOrdered(v, intro);
      assert InRange(v, min, max) && Has(v, intro);
    }
  }

  lemma NextOfVersion(v: MacVersion)
    requires Numbered(v)
    ensures Next(MacCode(v)) == MacCode(v)
  {
  }

  /** Two comparisons against the ends of the range decide what holds of every OS in it, for every
      range: unavailable iff no OS has the function, weak iff some but not all, ordinary iff all,
      if and only if there is an OS for the answer to be about -- from the minimum on, below the
      introduction if the minimum is below it, up to the maximum if not.  A minimum that is the
      number of a version always has one. */
  lemma AvailableIsPromised(min: int, max: int, intro: MacVersion)
    requires Numbered(intro) && min <= max
    ensures var code := MacCode(intro);
            Promised(Available(min, max, code), min, max, intro) <==>
            max < code || Next(min) <= (if min < code then code - 1 else max)
    ensures Next(min) == min ==> Promised(Available(min, max, MacCode(intro)), min, max, intro)
  {
    LackedBelow(min, max, intro);
    HadFrom(min, max, intro);
    NextOfVersion(intro);
  }

  /** A minimum between the two formats: from 1100 on the first OS is 10.10, so every OS in the
      range has what 10.10 introduced, and still it is called weak. */
  lemma WeakForNothing(max: int)
    requires max >= 101500
    ensures Resolve(Request(None, Some(max), Some(1100), Intel)) == Accepted(1100, max)
    ensures Available(1100, max, 101000) == Weak && !SomeLack(1100, max, MacVersion(10, 0))
  {
    LackedBelow(1100, max, MacVersion(10, 0));
  }

  /** Every OS the application may run on is at or past the deprecation. */
  ghost predicate AllPast(min: int, max: int, dep: MacVersion) {
    forall v :: InRange(v, min, max) ==> !Precedes(v, dep)
  }

  lemma AllPastIs(min: int, max: int, dep: MacVersion)
    requires Numbered(dep)
    ensures AllPast(min, max, dep) <==> Next(min) > Least(max, MacCode(dep) - 1)
  {
    LackedBelow(min, max, dep);
    if SomeLack(min, max, dep) {
      var v :| InRange(v, min, max) && !Has(v, dep);
      assert Precedes(v, dep);
    }
    if !AllPast(min, max, dep) {
      var v :| InRange(v, min, max) && Precedes(v, dep);
      assert !Has(v, dep);
    }
  }

  /** For every range, an entry that tests the version it names warns if and only if every OS in
      the range is at or past it, if and only if the minimum is at or past it or there is an OS in
      the range before it.  An entry that does not warn says what the undeprecated macro says. */
  lemma DeprecationIsPromised(min: int, max: int, intro: MacVersion, dep: MacVersion)
    requires Numbered(dep) && min <= max
    ensures var code := MacCode(dep);
            var c := AvailableButDeprecated(min, max, MacCode(intro), code);
            var fair := min >= code || Next(min) <= Least(max, code - 1);
            && ((c.Deprecated? <==> AllPast(min, max, dep)) <==> fair)
            && ((DeprecatedIn(min, code).Deprecated? <==> AllPast(min, max, dep)) <==> fair)
            && (!c.Deprecated? ==> c == Available(min, max, MacCode(intro)))
            && (Next(min) == min ==> fair)
  {
    AllPastIs(min, max, dep);
    var first := NextIsAVersion(min);
  }

  /** The same minimum: every OS in the range is past 10.10, and neither macro warns. */
  lemma MissingWarning(max: int)
    requires max >= 101500
    ensures AllPast(1100, max, MacVersion(10, 0))
    ensures !AvailableButDeprecated(1100, max, 1060, 101000).Deprecated? && !DeprecatedIn(1100, 101000).Deprecated?
  {
    AllPastIs(1100, max, MacVersion(10, 0));
  }

  /** An entry that tests an earlier version than the one it names keeps that promise, for any
      range, if and only if the minimum is past both, or it is past the one tested exactly when
      there is no OS in the range before the one named. */
  lemma MistestedDeprecation(min: int, max: int, intro: MacVersion, tested: MacVersion, dep: MacVersion)
    requires Numbered(tested) && Numbered(dep) && Precedes(tested, dep) && min <= max
    ensures var t, code := MacCode(tested), MacCode(dep);
            var kept := min >= code || (min >= t <==> Next(min) > Least(max, code - 1));
            && ((AvailableButDeprecated(min, max, MacCode(intro), t).Deprecated? <==> AllPast(min, max, dep)) <==> kept)
            && ((DeprecatedIn(min, t).Deprecated? <==> AllPast(min, max, dep)) <==> kept)
            && (Next(min) == min ==> (kept <==> !(t <= min < code)))
  {
    AllPastIs(min, max, dep);
    MacCodesAreOrdered(tested, dep);
    var first := NextIsAVersion(min);
  }

  /** The two such entries: 10.6 deprecated in 10.13 tests 10.7, types deprecated in 10.13 test
      10.12.  A minimum of 10.12 gets a warning from both before its time. */
  lemma EarlyWarnings(max: int)
    requires max >= 101200
    ensures AvailableButDeprecated(101200, max, 1060, 1070).Deprecated?
    ensures DeprecatedIn(101200, 101200).Deprecated?
    ensures !AllPast(101200, max, MacVersion(13, 0))
  {
    AllPastIs(101200, max, MacVersion(13, 0));
  }

  /** The definitions for 10.0 are written out: nothing, and always deprecated.  They are what
      the tests would give on every accepted range. */
  lemma TenZeroWrittenOut(r: Request)
    requires Resolve(r).Accepted?
    ensures Available(Resolve(r).min, Resolve(r).max, 1000) == Ordinary
    ensures AvailableButDeprecated(Resolve(r).min, Resolve(r).max, 1000, 1000) == Deprecated
    ensures DeprecatedIn(Resolve(r).min, 1000) == Deprecated
  {
  }

  // ---------- the attribute behind Weak ----------

  datatype Compiler = Gnu(major: nat, minor: nat) | Metrowerks(version: nat, intel: bool) | OtherCompiler

  /** WEAK_IMPORT_ATTRIBUTE is not empty. */
  predicate HasWeakImport(c: Compiler, min: int) {
    match c
    case Gnu(major, minor) => (major >= 4 || (major == 3 && minor >= 1)) && min >= 1020
    case Metrowerks(version, intel) => version >= 0x3205 && min >= 1020 && !intel
    case OtherCompiler => false
  }

  /** The attribute is there from GCC 3.1 and from CodeWarrior 0x3205 off Intel, for every minimum
      from 10.2 on, and nowhere else. */
  lemma WhoHasWeakImport(min: int)
    ensures forall major: nat, minor: nat :: HasWeakImport(Gnu(major, minor), min) <==>
              min >= MacCode(MacVersion(2, 0)) && !(major < 3 || (major == 3 && minor < 1))
    ensures forall version: nat, intel: bool :: HasWeakImport(Metrowerks(version, intel), min) <==>
              min >= MacCode(MacVersion(2, 0)) && !intel && version >= 0x3205
    ensures !HasWeakImport(OtherCompiler, min)
  {
  }

  predicate MarkedWeak(c: Compiler, min: int, max: int, intro: int) {
    Available(min, max, intro).Weak? && HasWeakImport(c, min)
  }

  /** Marked weak iff some OS in the range has the function and some lack it: that is so, on any
      compiler and for any range, if and only if the introduction is not inside the range, or the
      attribute is there exactly when some OS in the range precedes the introduction. */
  lemma WeakMarkIsPromised(c: Compiler, min: int, max: int, intro: MacVersion)
    requires Numbered(intro) && min <= max
    ensures var code := MacCode(intro);
            (MarkedWeak(c, min, max, code) <==> SomeHave(min, max, intro) && SomeLack(min, max, intro)) <==>
            !(min < code <= max) || (HasWeakImport(c, min) <==> Next(min) < code)
  {
    LackedBelow(min, max, intro);
    HadFrom(min, max, intro);
    NextOfVersion(intro);
  }

  /** No compiler marks it from a minimum of 10.1: 10.1 lacks what 10.3 introduced, and the mark is missing. */
  lemma NoWeakMarkBelowTenTwo(c: Compiler, max: int)
    requires max >= 1030
    ensures !MarkedWeak(c, 1010, max, 1030)
    ensures SomeHave(1010, max, MacVersion(3, 0)) && SomeLack(1010, max, MacVersion(3, 0))
  {
    LackedBelow(1010, max, MacVersion(3, 0));
    HadFrom(1010, max, MacVersion(3, 0));
  }

  // ---------- moving the range ----------

  /** Each range is no lower than the one before it. */
  ghost predicate Chain(ranges: seq<(int, int)>) {
    forall i :: 0 < i < |ranges| ==> ranges[i - 1].0 <= ranges[i].0 && ranges[i - 1].1 <= ranges[i].1
  }

  lemma {:induction false} ChainRises(ranges: seq<(int, int)>, i: nat, j: nat)
    requires Chain(ranges) && i <= j < |ranges|
    ensures ranges[i].0 <= ranges[j].0 && ranges[i].1 <= ranges[j].1
    decreases j - i
  {
    if i < j { ChainRises(ranges, i, j - 1); }
  }

  /** Along any chain of ranges whose ends only move up, what is deprecated stays deprecated, for
      functions and for types; what is ordinary never becomes weak again; and nothing becomes
      unavailable. */
  lemma ClassesOnlyMoveForward(ranges: seq<(int, int)>, intro: int, dep: int, i: nat, j: nat)
    requires Chain(ranges) && i <= j < |ranges| && intro <= dep
    requires ranges[i].0 <= ranges[i].1
    ensures var before := AvailableButDeprecated(ranges[i].0, ranges[i].1, intro, dep);
            var later := AvailableButDeprecated(ranges[j].0, ranges[j].1, intro, dep);
            && (before.Deprecated? ==> later.Deprecated?)
            && (before.Ordinary? ==> later.Ordinary? || later.Deprecated?)
            && (later.Unavailable? ==> before.Unavailable?)
            && (ranges[i].0 == ranges[j].0 && !before.Unavailable? ==> later == before)
    ensures DeprecatedIn(ranges[i].0, dep).Deprecated? ==> DeprecatedIn(ranges[j].0, dep).Deprecated?
  {
    ChainRises(ranges, i, j);
  }
}
