/**
  The block of basic-headers/AvailabilityInternal.h that completes the macro environment, and
  the choice of platform in basic-headers/Availability.h.  Macros that expand to version
  constants are modelled by their values; redefining a macro replaces its value.
  */
module SetUp {
  import opened Common

  type Macro = Option<int>

  /** The macros the block reads and writes.
      env...:    set by the compiler for its target, __ENVIRONMENT_..._VERSION_MIN_REQUIRED__
      ...Min:    __..._VERSION_MIN_REQUIRED
      ...Max:    __..._VERSION_MAX_ALLOWED
      legacy...: __ENABLE_LEGACY_..._AVAILABILITY */
  datatype Definitions = Definitions(
    envMac: Macro, envIphone: Macro, envTv: Macro, envWatch: Macro, envBridge: Macro, envDriverkit: Macro,
    macMin: Macro, iphoneMin: Macro, tvMin: Macro, watchMin: Macro, bridgeMin: Macro, driverkitMin: Macro,
    macMax: Macro, iphoneMax: Macro, tvMax: Macro, watchMax: Macro, bridgeMax: Macro,
    legacyIphone: Macro, legacyMac: Macro)

  /** A compiler that targets none of the platforms, and nothing set by hand. */
  const NOTHING := Definitions(None, None, None, None, None, None, None, None, None, None, None, None,
                               None, None, None, None, None, None, None)

  const MAC_10_15 := 101500
  const IPHONE_2_0 := 20000
  const IPHONE_13_0 := 130000
  const TVOS_13_0 := 130000

  // ---------- what the block computes, from the initial definitions alone ----------

  /** The compiler targets the platform and nobody has set its minimum by hand. */
  predicate Adopts(min: Macro, env: Macro) { min.None? && env.Some? }

  function Adopted(min: Macro, env: Macro): Macro { if min.Some? then min else env }

  predicate TreatedAsIphone(d: Definitions) {
    || d.iphoneMin.Some? || d.envIphone.Some?
    || Adopts(d.tvMin, d.envTv) || Adopts(d.watchMin, d.envWatch) || Adopts(d.bridgeMin, d.envBridge)
  }

  /** The iPhone minimum that goes with a target derived from the iPhone; later ones win. */
  function Derived(d: Definitions): Macro {
    if Adopts(d.bridgeMin, d.envBridge) then Some(110000)
    else if Adopts(d.watchMin, d.envWatch) || Adopts(d.tvMin, d.envTv) then Some(90000)
    else None
  }

  /** That wins over a value set by hand, and nothing below 2.0 is left. */
  function IphoneMinimum(d: Definitions): Macro {
    if Derived(d).Some? then Derived(d)
    else
      var given := Adopted(d.iphoneMin, d.envIphone);
      if given.Some? && given.value < IPHONE_2_0 then Some(IPHONE_2_0) else given
  }

  function Complete(d: Definitions): Definitions {
    d.(macMin := Adopted(d.macMin, d.envMac),
       tvMin := Adopted(d.tvMin, d.envTv),
       watchMin := Adopted(d.watchMin, d.envWatch),
       bridgeMin := Adopted(d.bridgeMin, d.envBridge),
       driverkitMin := Adopted(d.driverkitMin, d.envDriverkit),
       iphoneMin := IphoneMinimum(d),
       macMax := if Adopted(d.macMin, d.envMac).Some? then Adopted(d.macMax, Some(MAC_10_15)) else d.macMax,
       iphoneMax := if TreatedAsIphone(d) then Adopted(d.iphoneMax, Some(IPHONE_13_0)) else d.iphoneMax,
       tvMax := if Adopts(d.tvMin, d.envTv) then Some(TVOS_13_0) else d.tvMax,
       watchMax := if Adopts(d.watchMin, d.envWatch) then Some(60000) else d.watchMax,
       bridgeMax := if Adopts(d.bridgeMin, d.envBridge) then Some(20000) else d.bridgeMax)
  }

  /** A Catalyst target enables both tables; otherwise the iPhone table goes before the Mac one. */
  function Enable(d: Definitions, catalyst: bool): Definitions {
    if catalyst then d.(legacyIphone := Some(1), legacyMac := Some(1))
    else if d.legacyIphone.Some? then d
    else if d.iphoneMin.Some? then d.(legacyIphone := Some(1))
    else if d.envMac.Some? then d.(legacyMac := Some(1))
    else d
  }

  // ---------- the block as the preprocessor goes through it ----------

  class Preprocessor {
    var defs: Definitions

    constructor (d: Definitions)
      ensures defs == d
    {
      defs := d;
    }

    /** Lines 51 to 79: each of the three sets a minimum, a maximum and the iPhone minimum. */
    method AdoptDerived()
      modifies this
      ensures var d := old(defs);
              defs == d.(tvMin := Adopted(d.tvMin, d.envTv),
                         watchMin := Adopted(d.watchMin, d.envWatch),
                         bridgeMin := Adopted(d.bridgeMin, d.envBridge),
                         tvMax := if Adopts(d.tvMin, d.envTv) then Some(TVOS_13_0) else d.tvMax,
                         watchMax := if Adopts(d.watchMin, d.envWatch) then Some(60000) else d.watchMax,
                         bridgeMax := if Adopts(d.bridgeMin, d.envBridge) then Some(20000) else d.bridgeMax,
                         iphoneMin := if Derived(d).Some? then Derived(d) else d.iphoneMin)
    {
      if defs.tvMin.None? {
        if defs.envTv.Some? {
          defs := defs.(tvMin := defs.envTv);
          defs := defs.(tvMax := Some(TVOS_13_0));
          defs := defs.(iphoneMin := Some(90000));
        }
      }
      if defs.watchMin.None? {
        if defs.envWatch.Some? {
          defs := defs.(watchMin := defs.envWatch);
          defs := defs.(watchMax := Some(60000));
          defs := defs.(iphoneMin := Some(90000));
        }
      }
      if defs.bridgeMin.None? {
        if defs.envBridge.Some? {
          defs := defs.(bridgeMin := defs.envBridge);
          defs := defs.(bridgeMax := Some(20000));
          defs := defs.(iphoneMin := Some(110000));
        }
      }
    }

    /** Lines 37 to 85: the compiler's target, where nothing was set by hand. */
    method AdoptTargets()
      modifies this
      ensures var d := old(defs);
              defs == Complete(d).(macMax := d.macMax, iphoneMax := d.iphoneMax,
                                   iphoneMin := if Derived(d).Some? then Derived(d)
                                                else Adopted(d.iphoneMin, d.envIphone))
    {
      if defs.macMin.None? {
        if defs.envMac.Some? { defs := defs.(macMin := defs.envMac); }
      }
      if defs.iphoneMin.None? {
        if defs.envIphone.Some? { defs := defs.(iphoneMin := defs.envIphone); }
      }
      AdoptDerived();
      if defs.driverkitMin.None? {
        if defs.envDriverkit.Some? { defs := defs.(driverkitMin := defs.envDriverkit); }
      }
    }

    /** Lines 37 to 104. */
    method CompleteVersions()
      modifies this
      ensures defs == Complete(old(defs))
    {
      AdoptTargets();
      if defs.macMin.Some? {
        if defs.macMax.None? { defs := defs.(macMax := Some(MAC_10_15)); }
      }
      if defs.iphoneMin.Some? {
        if defs.iphoneMax.None? { defs := defs.(iphoneMax := Some(IPHONE_13_0)); }
        if defs.iphoneMin.value < IPHONE_2_0 {
          defs := defs.(iphoneMin := None);
          defs := defs.(iphoneMin := Some(IPHONE_2_0));
        }
      }
    }

    /** The whole of lines 37 to 147: which tables are on in the end, from what was defined before
        the header was read. */
    method ReadHeader(catalyst: bool)
      modifies this
      ensures defs == Final(old(defs), catalyst)
      ensures Ios in Enabled(defs) <==> IosTable(old(defs), catalyst)
      ensures Mac in Enabled(defs) <==> MacTable(old(defs), catalyst)
      ensures Selected(defs, catalyst) == Selected(Complete(old(defs)), catalyst)
    {
      MinimumsAndMaximums(defs);
      CompleteVersions();
      if catalyst {
        defs := defs.(legacyIphone := Some(1));
        defs := defs.(legacyMac := Some(1));
      }
      if defs.legacyIphone.None? {
        if defs.iphoneMin.Some? {
          defs := defs.(legacyIphone := Some(1));
        } else if defs.envMac.Some? {
          defs := defs.(legacyMac := Some(1));
        }
      }
    }
  }

  // ---------- what the block guarantees ----------

  /** From every environment: the target has an iPhone minimum if and only if it is treated as
      an iPhone, and then it is at least 2.0; a Mac or iPhone minimum comes with a maximum. */
  lemma MinimumsAndMaximums(d: Definitions)
    ensures var e := Complete(d);
            && (e.iphoneMin.Some? <==> TreatedAsIphone(d))
            && (e.iphoneMin.Some? ==> e.iphoneMin.value >= IPHONE_2_0 && e.iphoneMax.Some?)
            && (e.macMin.Some? ==> e.macMax.Some?)
  {
  }

  /** What the Mac, iPhone and DriverKit macros are in the end.  A value set by hand is kept, but
      for an iPhone minimum below 2.0; a target derived from the iPhone decides its minimum. */
  lemma FinalValues(d: Definitions)
    ensures var e := Complete(d);
            && (d.macMin.Some? ==> e.macMin == d.macMin)
            && (d.macMin.None? ==> e.macMin == d.envMac)
            && (d.macMax.Some? ==> e.macMax == d.macMax)
            && (d.macMax.None? ==> e.macMax == if d.macMin.Some? || d.envMac.Some? then Some(101500) else None)
            && (d.driverkitMin.Some? ==> e.driverkitMin == d.driverkitMin)
            && (d.driverkitMin.None? ==> e.driverkitMin == d.envDriverkit)
    ensures var e := Complete(d);
            var targetsTv, targetsWatch := d.tvMin.None? && d.envTv.Some?, d.watchMin.None? && d.envWatch.Some?;
            var targetsBridge := d.bridgeMin.None? && d.envBridge.Some?;
            && (targetsBridge ==> e.iphoneMin == Some(110000))
            && (!targetsBridge && (targetsTv || targetsWatch) ==> e.iphoneMin == Some(90000))
            && (!targetsBridge && !targetsTv && !targetsWatch ==>
                && (d.iphoneMin.Some? ==> e.iphoneMin == Some(Largest(20000, d.iphoneMin.value)))
                && (d.iphoneMin.None? && d.envIphone.Some? ==> e.iphoneMin == Some(Largest(20000, d.envIphone.value)))
                && (d.iphoneMin.None? && d.envIphone.None? ==> e.iphoneMin == None))
            && (d.iphoneMax.Some? ==> e.iphoneMax == d.iphoneMax)
            && (d.iphoneMax.None? ==> e.iphoneMax == if e.iphoneMin.Some? then Some(130000) else None)
  {
  }

  function Largest(a: int, b: int): int { if a < b then b else a }

  /** What the macros of the targets derived from the iPhone are in the end: set by hand, both are
      kept; otherwise the compiler's target brings its minimum and its maximum. */
  lemma DerivedValues(d: Definitions)
    ensures var e := Complete(d);
            && (d.tvMin.Some? ==> e.tvMin == d.tvMin && e.tvMax == d.tvMax)
            && (d.tvMin.None? && d.envTv.Some? ==> e.tvMin == d.envTv && e.tvMax == Some(130000))
            && (d.tvMin.None? && d.envTv.None? ==> e.tvMin == None && e.tvMax == d.tvMax)
            && (d.watchMin.Some? ==> e.watchMin == d.watchMin && e.watchMax == d.watchMax)
            && (d.watchMin.None? && d.envWatch.Some? ==> e.watchMin == d.envWatch && e.watchMax == Some(60000))
            && (d.watchMin.None? && d.envWatch.None? ==> e.watchMin == None && e.watchMax == d.watchMax)
            && (d.bridgeMin.Some? ==> e.bridgeMin == d.bridgeMin && e.bridgeMax == d.bridgeMax)
            && (d.bridgeMin.None? && d.envBridge.Some? ==> e.bridgeMin == d.envBridge && e.bridgeMax == Some(20000))
            && (d.bridgeMin.None? && d.envBridge.None? ==> e.bridgeMin == None && e.bridgeMax == d.bridgeMax)
  {
  }

  /** The block leaves the compiler's own macros and the table switches alone. */
  lemma LeftAlone(d: Definitions)
    ensures var e := Complete(d);
            && e.envMac == d.envMac && e.envIphone == d.envIphone && e.envTv == d.envTv && e.envWatch == d.envWatch
            && e.envBridge == d.envBridge && e.envDriverkit == d.envDriverkit
            && e.legacyIphone == d.legacyIphone && e.legacyMac == d.legacyMac
  {
  }

  /** The other platforms that have a maximum get it together with the minimum, so a minimum
      set by hand goes without: in the end a minimum comes with a maximum if and only if the
      minimum was not set by hand or the maximum was set too. */
  lemma OtherMaximums(d: Definitions)
    ensures var e := Complete(d);
            && ((e.tvMin.Some? ==> e.tvMax.Some?) <==> d.tvMin.None? || d.tvMax.Some?)
            && ((e.watchMin.Some? ==> e.watchMax.Some?) <==> d.watchMin.None? || d.watchMax.Some?)
            && ((e.bridgeMin.Some? ==> e.bridgeMax.Some?) <==> d.bridgeMin.None? || d.bridgeMax.Some?)
  {
  }

  /** A tvOS minimum set by hand, and nothing else: no maximum. */
  lemma TvWithoutMaximum()
    ensures var d := NOTHING.(tvMin := Some(120000));
            Complete(d).tvMin.Some? && Complete(d).tvMax.None?
  {
  }

  /** The default maximum does not look at the minimum: without a maximum set by hand, the range
      from minimum to maximum is nonempty if and only if the minimum is at most 10.15. */
  lemma DefaultMacRange(d: Definitions)
    requires d.macMax.None? && Complete(d).macMin.Some?
    ensures var e := Complete(d);
            e.macMax.Some? && (e.macMin.value <= e.macMax.value <==> e.macMin.value <= MAC_10_15)
  {
  }

  /** A minimum of 10.15.1, which Availability.h numbers, has no OS up to the default maximum. */
  lemma EmptyMacRange()
    ensures var e := Complete(NOTHING.(envMac := Some(101501)));
            e.macMin == Some(101501) && e.macMax == Some(101500)
  {
  }

  /** Going through the block a second time changes nothing. */
  lemma CompleteTwice(d: Definitions)
    ensures Complete(Complete(d)) == Complete(d)
  {
    var e := Complete(d);
    assert !Adopts(e.tvMin, e.envTv) && !Adopts(e.watchMin, e.envWatch) && !Adopts(e.bridgeMin, e.envBridge);
    MinimumsAndMaximums(d);
  }

  // ---------- the platform selected ----------

  datatype Platform = Ios | Mac

  /** Whose version arguments __OSX_AVAILABLE_STARTING uses. */
  function Selected(d: Definitions, catalyst: bool): set<Platform> {
    if d.iphoneMin.Some? then {Ios}
    else if d.macMin.Some? then (if catalyst then {Mac, Ios} else {Mac})
    else {}
  }

  /** Whose attribute tables are defined: the iPhone table by #ifdef, the Mac table by #if. */
  function Enabled(d: Definitions): set<Platform> {
    (if d.legacyIphone.Some? then {Ios} else {}) +
    (if d.legacyMac.Some? && d.legacyMac.value != 0 then {Mac} else {})
  }

  function Final(d: Definitions, catalyst: bool): Definitions { Enable(Complete(d), catalyst) }

  /** Which tables end up enabled, from the initial definitions alone. */
  predicate IosTable(d: Definitions, catalyst: bool) {
    catalyst || d.legacyIphone.Some? || TreatedAsIphone(d)
  }

  predicate MacTable(d: Definitions, catalyst: bool) {
    || catalyst
    || (d.legacyIphone.None? && !TreatedAsIphone(d) && d.envMac.Some?)
    || (d.legacyMac.Some? && d.legacyMac.value != 0)
  }

  lemma TablesAre(d: Definitions, catalyst: bool)
    ensures Ios in Enabled(Final(d, catalyst)) <==> IosTable(d, catalyst)
    ensures Mac in Enabled(Final(d, catalyst)) <==> MacTable(d, catalyst)
  {
    MinimumsAndMaximums(d);
  }

  /** From every environment, off Catalyst: the platform selected is the one whose table is
      enabled, if and only if a target treated as an iPhone has not had the Mac table enabled by
      hand, a Mac has its table and not the iPhone's, and any other target has none. */
  lemma SelectionMatchesTables(d: Definitions)
    ensures Selected(Final(d, false), false) ==
            if TreatedAsIphone(d) then {Ios} else if d.macMin.Some? || d.envMac.Some? then {Mac} else {}
    ensures Selected(Final(d, false), false) == Enabled(Final(d, false)) <==>
            if TreatedAsIphone(d) then !MacTable(d, false)
            else if d.macMin.Some? || d.envMac.Some? then MacTable(d, false) && !IosTable(d, false)
            else !MacTable(d, false) && !IosTable(d, false)
    ensures d.legacyIphone.None? && d.legacyMac.None? ==>
            (Selected(Final(d, false), false) == Enabled(Final(d, false)) <==>
             (d.macMin.Some? && d.envMac.None? ==> TreatedAsIphone(d)))
  {
    MinimumsAndMaximums(d);
    TablesAre(d, false);
    var tables := Enabled(Final(d, false));
    assert tables == (if IosTable(d, false) then {Ios} else {}) + (if MacTable(d, false) then {Mac} else {});
    assert tables == {Ios} <==> IosTable(d, false) && !MacTable(d, false);
    assert tables == {Mac} <==> MacTable(d, false) && !IosTable(d, false);
    assert tables == {} <==> !MacTable(d, false) && !IosTable(d, false);
  }

  /** A Mac minimum set by hand, and nothing else: the Mac is selected and no table is enabled. */
  lemma SelectedWithoutTable()
    ensures var d := Final(NOTHING.(macMin := Some(101200)), false);
            Selected(d, false) == {Mac} && Enabled(d) == {}
  {
  }

  /** On a Catalyst target every platform that is selected has its table, and both are selected
      for a Mac that is not also treated as an iPhone. */
  lemma CatalystHasBothTables(d: Definitions)
    ensures Selected(Final(d, true), true) <= Enabled(Final(d, true)) == {Ios, Mac}
    ensures TreatedAsIphone(d) ==> Selected(Final(d, true), true) == {Ios}
    ensures !TreatedAsIphone(d) && (d.macMin.Some? || d.envMac.Some?) ==> Selected(Final(d, true), true) == {Mac, Ios}
    ensures !TreatedAsIphone(d) && d.macMin.None? && d.envMac.None? ==> Selected(Final(d, true), true) == {}
  {
    MinimumsAndMaximums(d);
  }
}
