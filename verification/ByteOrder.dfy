/**
  basic-headers/architecture/byte_order.h on an arbitrary host: byte order and the size of
  `long` are parameters.  libkern/OSByteOrder.h is not part of this model; OSSwapIntN is taken
  to reverse N/8 bytes, and the Big/Little/Host forms to swap or not by the host's byte order.
  Floats are their bit patterns.
  */
module ByteOrder {

  type Byte = b: int | 0 <= b < 256

  datatype Host = Host(bigEndian: bool, longSize: nat)

  predicate Known(h: Host) { h.longSize == 4 || h.longSize == 8 }

  // ---------- bytes and values ----------

  function Range(n: nat): (p: int)
    ensures p > 0
  {
    if n == 0 then 1 else 256 * Range(n - 1)
  }

  /** The n low bytes of x, least significant first. */
  function Bytes(n: nat, x: int): (s: seq<Byte>)
    ensures |s| == n
  {
    if n == 0 then [] else [x % 256] + Bytes(n - 1, x / 256)
  }

  function Value(s: seq<Byte>): (x: int)
    ensures 0 <= x < Range(|s|)
  {
    if s == [] then 0 else s[0] + 256 * Value(s[1..])
  }

  function Reversed(s: seq<Byte>): (r: seq<Byte>)
    ensures |r| == |s|
    ensures forall i :: 0 <= i < |s| ==> r[i] == s[|s| - 1 - i]
  {
    if s == [] then [] else Reversed(s[1..]) + [s[0]]
  }

  lemma ReversedTwice(s: seq<Byte>)
    ensures Reversed(Reversed(s)) == s
  {
  }

  lemma {:induction false} BytesOfValue(s: seq<Byte>)
    ensures Bytes(|s|, Value(s)) == s
  {
    if s != [] {
      BytesOfValue(s[1..]);
      assert Value(s) % 256 == s[0] && Value(s) / 256 == Value(s[1..]);
    }
  }

  lemma {:induction false} ValueOfBytes(n: nat, x: int)
    requires 0 <= x < Range(n)
    ensures Value(Bytes(n, x)) == x
  {
    if n > 0 {
      ValueOfBytes(n - 1, x / 256);
      assert Bytes(n, x)[1..] == Bytes(n - 1, x / 256);
    }
  }

  /** Bytes above the n-th do not matter. */
  lemma {:induction false} LowBytes(n: nat, m: nat, x: int)
    requires n <= m
    ensures Bytes(m, x)[..n] == Bytes(n, x)
  {
    if n > 0 {
      LowBytes(n - 1, m - 1, x / 256);
      assert Bytes(m, x)[..n] == [x % 256] + Bytes(m - 1, x / 256)[..n - 1];
    }
  }

  lemma {:induction false} BytesOfZero(n: nat)
    ensures forall i :: 0 <= i < n ==> Bytes(n, 0)[i] == 0
  {
    if n > 0 { BytesOfZero(n - 1); }
  }

  /** The bytes of a small value above the n-th are 0. */
  lemma {:induction false} HighBytes(n: nat, m: nat, x: int)
    requires n <= m && 0 <= x < Range(n)
    ensures forall i :: n <= i < m ==> Bytes(m, x)[i] == 0
  {
    if n == 0 { BytesOfZero(m); } else { HighBytes(n - 1, m - 1, x / 256); }
  }

  lemma {:induction false} ValueOfZeros(s: seq<Byte>)
    requires forall i :: 0 <= i < |s| ==> s[i] == 0
    ensures Value(s) == 0
  {
    if s != [] { ValueOfZeros(s[1..]); }
  }

  // ---------- memory ----------

  /** The image of an n-byte integer in the host's memory, and the integer read from an image. */
  function Store(h: Host, n: nat, x: int): (s: seq<Byte>)
    ensures |s| == n
  {
    if h.bigEndian then Reversed(Bytes(n, x)) else Bytes(n, x)
  }

  function Load(h: Host, s: seq<Byte>): (x: int)
    ensures 0 <= x < Range(|s|)
  {
    Value(if h.bigEndian then Reversed(s) else s)
  }

  function BigImage(n: nat, x: int): seq<Byte> { Reversed(Bytes(n, x)) }

  function LittleImage(n: nat, x: int): seq<Byte> { Bytes(n, x) }

  lemma LoadOfStore(h: Host, n: nat, x: int)
    requires 0 <= x < Range(n)
    ensures Load(h, Store(h, n, x)) == x
  {
    ReversedTwice(Bytes(n, x));
    ValueOfBytes(n, x);
  }

  lemma StoreOfLoad(h: Host, s: seq<Byte>)
    ensures Store(h, |s|, Load(h, s)) == s
  {
    ReversedTwice(s);
    BytesOfValue(Reversed(s));
    BytesOfValue(s);
  }

  // ---------- swaps ----------

  /** (uintN_t)x */
  function Truncated(n: nat, x: int): (r: int)
    ensures 0 <= r < Range(n)
  {
    Value(Bytes(n, x))
  }

  lemma {:induction false} TruncatedIsRemainder(n: nat, x: int) returns (q: int)
    ensures x == q * Range(n) + Truncated(n, x)
  {
    if n == 0 {
      q := x;
    } else {
      q := TruncatedIsRemainder(n - 1, x / 256);
      assert Bytes(n, x)[1..] == Bytes(n - 1, x / 256);
      assert x == 256 * (x / 256) + x % 256;
    }
  }

  /** OSSwapInt of n bytes: the argument is converted to the unsigned type first. */
  function Swap(n: nat, x: int): (r: int)
    ensures 0 <= r < Range(n)
  {
    Value(Reversed(Bytes(n, x)))
  }

  function HostToBig(h: Host, n: nat, x: int): int { if h.bigEndian then Truncated(n, x) else Swap(n, x) }

  function BigToHost(h: Host, n: nat, x: int): int { HostToBig(h, n, x) }

  function HostToLittle(h: Host, n: nat, x: int): int { if h.bigEndian then Swap(n, x) else Truncated(n, x) }

  function LittleToHost(h: Host, n: nat, x: int): int { HostToLittle(h, n, x) }

  lemma SwapTwice(n: nat, x: int)
    ensures Swap(n, Swap(n, x)) == Truncated(n, x)
  {
    BytesOfValue(Reversed(Bytes(n, x)));
    ReversedTwice(Bytes(n, x));
  }

  /** Stored in the host's own order in the n bytes of its type, as the Short, Int and LongLong
      forms are, a converted integer has the same image on every host. */
  lemma HostIndependentImage(h: Host, n: nat, x: int)
    ensures Store(h, n, HostToBig(h, n, x)) == BigImage(n, x)
    ensures Store(h, n, HostToLittle(h, n, x)) == LittleImage(n, x)
  {
    BytesOfValue(Bytes(n, x));
    BytesOfValue(Reversed(Bytes(n, x)));
    ReversedTwice(Bytes(n, x));
  }

  /** What one host converts and stores, another loads and converts back. */
  lemma Portable(from: Host, to: Host, n: nat, x: int)
    requires 0 <= x < Range(n)
    ensures BigToHost(to, n, Load(to, Store(from, n, HostToBig(from, n, x)))) == x
    ensures LittleToHost(to, n, Load(to, Store(from, n, HostToLittle(from, n, x)))) == x
  {
    HostIndependentImage(from, n, x);
    ValueOfBytes(n, x);
    ReversedTwice(Bytes(n, x));
    BytesOfValue(Bytes(n, x));
    BytesOfValue(Reversed(Bytes(n, x)));
  }

  /** There and back again: the n low bytes survive. */
  lemma RoundTrip(h: Host, n: nat, x: int)
    ensures BigToHost(h, n, HostToBig(h, n, x)) == Truncated(n, x)
    ensures LittleToHost(h, n, HostToLittle(h, n, x)) == Truncated(n, x)
  {
    SwapTwice(n, x);
    ValueOfBytes(n, Truncated(n, x));
    BytesOfValue(Bytes(n, x));
  }

  // ---------- the Long forms, which convert four bytes whatever the size of long ----------

  function NXSwapHostLongToBig(h: Host, x: int): int { HostToBig(h, 4, x) }

  function NXSwapBigLongToHost(h: Host, x: int): int { BigToHost(h, 4, x) }

  function NXSwapHostLongToLittle(h: Host, x: int): int { HostToLittle(h, 4, x) }

  function NXSwapLittleLongToHost(h: Host, x: int): int { LittleToHost(h, 4, x) }

  /** The round trip of an `unsigned long` is the identity if and only if it fits in 32 bits. */
  lemma LongRoundTrip(h: Host, x: int)
    requires Known(h) && 0 <= x < Range(h.longSize)
    ensures NXSwapBigLongToHost(h, NXSwapHostLongToBig(h, x)) == x <==> x < Range(4)
    ensures NXSwapLittleLongToHost(h, NXSwapHostLongToLittle(h, x)) == x <==> x < Range(4)
  {
    RoundTrip(h, 4, x);
    if x < Range(4) { ValueOfBytes(4, x); }
  }

  function Zeros(n: nat): (s: seq<Byte>)
    ensures |s| == n && forall i :: 0 <= i < n ==> s[i] == 0
  {
    if n == 0 then [] else [0] + Zeros(n - 1)
  }

  /** The memory of a long that holds a value of four bytes. */
  lemma LongHolding(h: Host, v: int)
    requires Known(h) && 0 <= v < Range(4)
    ensures Store(h, h.longSize, v) ==
            if h.longSize == 4 then Store(h, 4, v)
            else if h.bigEndian then Zeros(4) + Store(h, 4, v)
            else Store(h, 4, v) + Zeros(4)
  {
    if h.longSize == 8 {
      LowBytes(4, 8, v);
      HighBytes(4, 8, v);
      assert Bytes(8, v) == Bytes(4, v) + Zeros(4);
    }
  }

  /** Stored as the unsigned long it is, the result of a Long form has the image of four bytes,
      on an eight-byte long with zeros beside it: before it on a big-endian host, after it on a
      little-endian one. */
  lemma LongMemory(h: Host, x: int)
    requires Known(h)
    ensures var big, little := BigImage(4, x), LittleImage(4, x);
            && Store(h, h.longSize, NXSwapHostLongToBig(h, x)) ==
               (if h.longSize == 4 then big else if h.bigEndian then Zeros(4) + big else big + Zeros(4))
            && Store(h, h.longSize, NXSwapHostLongToLittle(h, x)) ==
               (if h.longSize == 4 then little else if h.bigEndian then Zeros(4) + little else little + Zeros(4))
  {
    HostIndependentImage(h, 4, x);
    LongHolding(h, HostToBig(h, 4, x));
    LongHolding(h, HostToLittle(h, 4, x));
  }

  lemma SplitEqual(a: seq<Byte>, b: seq<Byte>, c: seq<Byte>, d: seq<Byte>)
    requires |a| == |c|
    ensures a + b == c + d <==> a == c && b == d
  {
    if a + b == c + d {
      assert a == (a + b)[..|a|] && c == (c + d)[..|c|];
      assert b == (a + b)[|a|..] && d == (c + d)[|c|..];
    }
  }

  lemma ReversedConcat(s: seq<Byte>, t: seq<Byte>)
    ensures Reversed(s + t) == Reversed(t) + Reversed(s)
  {
  }

  lemma ReversedZeros(s: seq<Byte>)
    ensures Reversed(s) == Zeros(|s|) <==> s == Zeros(|s|)
  {
    ReversedTwice(s);
    assert Reversed(Zeros(|s|)) == Zeros(|s|);
  }

  /** The halves of an eight-byte value. */
  lemma Halves(x: int) returns (high: seq<Byte>)
    requires 0 <= x < Range(8)
    ensures |high| == 4 && Bytes(8, x) == Bytes(4, x) + high
    ensures x < Range(4) <==> high == Zeros(4)
    ensures x == 0 <==> high == Zeros(4) && Bytes(4, x) == Zeros(4)
  {
    LowBytes(4, 8, x);
    ValueOfBytes(8, x);
    high := Bytes(8, x)[4..];
    assert Bytes(8, x) == Bytes(8, x)[..4] + high;
    if x < Range(4) { HighBytes(4, 8, x); ValueOfBytes(4, x); }
    if high == Zeros(4) { HighZerosFit(Bytes(8, x)); }
    if x == 0 { BytesOfZero(4); }
    if Bytes(4, x) == Zeros(4) { ValueOfZeros(Bytes(4, x)); }
  }

  lemma HighZerosFit(s: seq<Byte>)
    requires |s| == 8 && s[4..] == Zeros(4)
    ensures Value(s) < Range(4)
  {
    var low := s[..4];
    BytesOfValue(low);
    HighBytes(4, 8, Value(low));
    LowBytes(4, 8, Value(low));
    assert Bytes(8, Value(low)) == s;
    RangeGrows(4, 8);
    ValueOfBytes(8, Value(low));
  }

  lemma RangeGrows(m: nat, n: nat)
    requires m <= n
    ensures Range(m) <= Range(n)
  {
  }

  /** At the width of unsigned long the image is that of the value in the order asked for, if and
      only if long has four bytes, or the host's own order is asked for and the value fits in
      them, or the value is 0: on an eight-byte long the halves change places. */
  lemma LongImage(h: Host, x: int)
    requires Known(h) && 0 <= x < Range(h.longSize)
    ensures Store(h, h.longSize, NXSwapHostLongToBig(h, x)) == BigImage(h.longSize, x) <==>
            h.longSize == 4 || (h.bigEndian && x < Range(4)) || x == 0
    ensures Store(h, h.longSize, NXSwapHostLongToLittle(h, x)) == LittleImage(h.longSize, x) <==>
            h.longSize == 4 || (!h.bigEndian && x < Range(4)) || x == 0
  {
    LongMemory(h, x);
    if h.longSize == 8 {
      var high := Halves(x);
      var low, zeros := Bytes(4, x), Zeros(4);
      ReversedConcat(low, high);
      ReversedZeros(low);
      ReversedZeros(high);
      ReversedTwice(low);
      ReversedTwice(high);
      if h.bigEndian {
        SplitEqual(zeros, Reversed(low), Reversed(high), Reversed(low));
        SplitEqual(zeros, low, low, high);
      } else {
        SplitEqual(Reversed(low), zeros, Reversed(high), Reversed(low));
        SplitEqual(low, zeros, low, high);
      }
    }
  }

  /** Handed over as the eight bytes of an unsigned long, a value arrives if and only if both hosts
      have the same byte order and it fits in four bytes, or it is 0; as four bytes, always. */
  lemma LongPortable(from: Host, to: Host, x: int)
    requires Known(from) && to.longSize == from.longSize && 0 <= x < Range(from.longSize)
    ensures var n := from.longSize;
            var arrives := n == 4 || (from.bigEndian == to.bigEndian && x < Range(4)) || x == 0;
            && (NXSwapBigLongToHost(to, Load(to, Store(from, n, NXSwapHostLongToBig(from, x)))) == x <==> arrives)
            && (NXSwapLittleLongToHost(to, Load(to, Store(from, n, NXSwapHostLongToLittle(from, x)))) == x <==> arrives)
  {
    if from.longSize == 4 {
      Portable(from, to, 4, x);
    } else if from.bigEndian == to.bigEndian {
      RangeGrows(4, 8);
      LoadOfStore(from, 8, NXSwapHostLongToBig(from, x));
      LoadOfStore(from, 8, NXSwapHostLongToLittle(from, x));
      assert to == from;
      LongRoundTrip(from, x);
    } else {
      LongMemory(from, x);
      HalfLost(to, BigImage(4, x));
      HalfLost(to, LittleImage(4, x));
    }
  }

  /** A long whose four low bytes are zeros is converted to 0. */
  lemma HalfLost(to: Host, half: seq<Byte>)
    requires |half| == 4
    ensures var image := if to.bigEndian then half + Zeros(4) else Zeros(4) + half;
            && NXSwapBigLongToHost(to, Load(to, image)) == 0
            && NXSwapLittleLongToHost(to, Load(to, image)) == 0
  {
    var image := if to.bigEndian then half + Zeros(4) else Zeros(4) + half;
    var ordered := if to.bigEndian then Reversed(image) else image;
    BytesOfValue(ordered);
    LowBytes(4, 8, Value(ordered));
    assert Bytes(4, Value(ordered)) == ordered[..4] == Zeros(4);
    assert Reversed(Zeros(4)) == Zeros(4);
    ValueOfZeros(Zeros(4));
  }

  // ---------- floats through a union ----------

  /** Writing the float member leaves the bytes beyond it as they were: `junk`. */
  function FloatToSwapped(h: Host, x: int, junk: seq<Byte>): int
    requires |junk| == h.longSize >= 4
  {
    Load(h, Store(h, 4, x) + junk[4..])
  }

  function SwappedToFloat(h: Host, sf: int): int
    requires h.longSize >= 4
  {
    Load(h, Store(h, h.longSize, sf)[..4])
  }

  /** union fconv: a float and an unsigned long in the same bytes. */
  class FloatUnion {
    const host: Host
    const memory: array<Byte>

    ghost predicate Valid()
      reads memory
    {
      memory.Length == host.longSize >= 4
    }

    /** An uninitialized variable holds some bytes. */
    constructor (h: Host, junk: seq<Byte>)
      requires |junk| == h.longSize >= 4
      ensures Valid() && host == h && fresh(memory) && memory[..] == junk
    {
      host := h;
      memory := new Byte[|junk|](i requires 0 <= i < |junk| => junk[i]);
    }

    method WriteNumber(x: int)
      requires Valid()
      modifies memory
      ensures Valid() && memory[..] == Store(host, 4, x) + old(memory[..])[4..]
    {
      var image := Store(host, 4, x);
      for i := 0 to 4
        invariant memory[..i] == image[..i]
        invariant memory[i..] == old(memory[..])[i..]
      {
        memory[i] := image[i];
      }
    }

    method WriteSf(x: int)
      requires Valid()
      modifies memory
      ensures Valid() && memory[..] == Store(host, host.longSize, x)
    {
      var image := Store(host, host.longSize, x);
      for i := 0 to memory.Length
        invariant memory[..i] == image[..i]
      {
        memory[i] := image[i];
      }
    }

    method ReadNumber() returns (x: int)
      requires Valid()
      ensures x == Load(host, memory[..4])
    {
      x := Load(host, memory[..4]);
    }

    method ReadSf() returns (x: int)
      requires Valid()
      ensures x == Load(host, memory[..])
    {
      x := Load(host, memory[..]);
    }
  }

  method NXConvertHostFloatToSwapped(h: Host, x: int, junk: seq<Byte>) returns (sf: int)
    requires |junk| == h.longSize >= 4
    ensures sf == FloatToSwapped(h, x, junk)
  {
    var u := new FloatUnion(h, junk);
    u.WriteNumber(x);
    sf := u.ReadSf();
  }

  method NXConvertSwappedFloatToHost(h: Host, sf: int, junk: seq<Byte>) returns (x: int)
    requires |junk| == h.longSize >= 4
    ensures x == SwappedToFloat(h, sf)
  {
    var u := new FloatUnion(h, junk);
    u.WriteSf(sf);
    x := u.ReadNumber();
  }

  function NXSwapHostFloatToBig(h: Host, x: int, junk: seq<Byte>): int
    requires |junk| == h.longSize >= 4
  {
    HostToBig(h, 4, FloatToSwapped(h, x, junk))
  }

  function NXSwapBigFloatToHost(h: Host, sf: int): int
    requires h.longSize >= 4
  {
    SwappedToFloat(h, BigToHost(h, 4, sf))
  }

  function NXSwapHostFloatToLittle(h: Host, x: int, junk: seq<Byte>): int
    requires |junk| == h.longSize >= 4
  {
    HostToLittle(h, 4, FloatToSwapped(h, x, junk))
  }

  function NXSwapLittleFloatToHost(h: Host, sf: int): int
    requires h.longSize >= 4
  {
    SwappedToFloat(h, LittleToHost(h, 4, sf))
  }

  /** The float and the low half of the long are in the same bytes. */
  predicate Overlaps(h: Host) { !h.bigEndian || h.longSize == 4 }

  lemma FloatIsLowHalf(h: Host, x: int, junk: seq<Byte>)
    requires Known(h) && Overlaps(h) && |junk| == h.longSize && 0 <= x < Range(4)
    ensures Bytes(4, FloatToSwapped(h, x, junk)) == Bytes(4, x)
  {
    var image := Store(h, 4, x) + junk[4..];
    StoreOfLoad(h, image);
    if h.bigEndian {
      assert image == Reversed(Bytes(4, x));
      ReversedTwice(Bytes(4, x));
      BytesOfValue(Bytes(4, x));
    } else {
      BytesOfValue(image);
      LowBytes(4, h.longSize, Value(image));
      assert image[..4] == Bytes(4, x);
    }
  }

  lemma LowHalfIsFloat(h: Host, v: int)
    requires Known(h) && Overlaps(h) && 0 <= v < Range(4)
    ensures SwappedToFloat(h, v) == v
  {
    if h.bigEndian {
      assert Store(h, 4, v)[..4] == Store(h, 4, v);
    } else {
      LowBytes(4, h.longSize, v);
    }
    LoadOfStore(h, 4, v);
  }

  /** On a big-endian host with an eight-byte long, the float is in the half that is lost. */
  lemma LowHalfIsPadding(h: Host, v: int)
    requires Known(h) && !Overlaps(h) && 0 <= v < Range(4)
    ensures SwappedToFloat(h, v) == 0
  {
    HighBytes(4, 8, v);
    var image := Store(h, 8, v)[..4];
    assert forall i :: 0 <= i < 4 ==> image[i] == 0;
    ValueOfZeros(Reversed(image));
  }

  /** The float round trips, for every bit pattern and whatever the union held before: the
      pattern comes back where the float overlaps the low half of the long, and 0 elsewhere. */
  lemma FloatRoundTrip(h: Host, x: int, junk: seq<Byte>)
    requires Known(h) && |junk| == h.longSize && 0 <= x < Range(4)
    ensures NXSwapBigFloatToHost(h, NXSwapHostFloatToBig(h, x, junk)) == if Overlaps(h) then x else 0
    ensures NXSwapLittleFloatToHost(h, NXSwapHostFloatToLittle(h, x, junk)) == if Overlaps(h) then x else 0
  {
    var sf := FloatToSwapped(h, x, junk);
    RoundTrip(h, 4, sf);
    if Overlaps(h) {
      FloatIsLowHalf(h, x, junk);
      ValueOfBytes(4, x);
      LowHalfIsFloat(h, x);
    } else {
      LowHalfIsPadding(h, Truncated(4, sf));
    }
  }

  /** The memory of the NXSwappedFloat that a float is converted to, as wide as a long.  Its first
      four bytes are the float in the order asked for, unless the host is big-endian with an
      eight-byte long: then they are zeros, and what follows is what the union held before. */
  lemma FloatImage(h: Host, x: int, junk: seq<Byte>)
    requires Known(h) && |junk| == h.longSize && 0 <= x < Range(4)
    ensures Store(h, h.longSize, NXSwapHostFloatToBig(h, x, junk)) ==
            if h.longSize == 4 then BigImage(4, x)
            else if h.bigEndian then Zeros(4) + junk[4..]
            else BigImage(4, x) + Zeros(4)
    ensures Store(h, h.longSize, NXSwapHostFloatToLittle(h, x, junk)) ==
            if h.longSize == 4 then LittleImage(4, x)
            else if h.bigEndian then Zeros(4) + Reversed(junk[4..])
            else LittleImage(4, x) + Zeros(4)
  {
    var sf := FloatToSwapped(h, x, junk);
    LongMemory(h, sf);
    if Overlaps(h) {
      FloatIsLowHalf(h, x, junk);
    } else {
      var image := Store(h, 4, x) + junk[4..];
      BytesOfValue(Reversed(image));
      LowBytes(4, 8, sf);
      assert Bytes(4, sf) == Reversed(image)[..4] == Reversed(junk[4..]);
      ReversedTwice(junk[4..]);
    }
  }

  // ---------- doubles, as wide as unsigned long long everywhere ----------

  /** union dconv: written as one member of n bytes, read as the other. */
  function ThroughUnion(h: Host, n: nat, x: int): int { Load(h, Store(h, n, x)) }

  /** NXSwapHostDoubleToBig then NXSwapBigDoubleToHost, and the little-endian pair, on a host
      where both members have n bytes; n is 8. */
  lemma {:induction false} DoubleRoundTrip(h: Host, n: nat, x: int)
    requires 0 <= x < Range(n)
    ensures ThroughUnion(h, n, BigToHost(h, n, HostToBig(h, n, ThroughUnion(h, n, x)))) == x
    ensures ThroughUnion(h, n, LittleToHost(h, n, HostToLittle(h, n, ThroughUnion(h, n, x)))) == x
  {
    LoadOfStore(h, n, x);
    RoundTrip(h, n, x);
    ValueOfBytes(n, x);
  }

  /** A converted double has the same image on every host, in the order asked for, and read from
      that image on any host it is the double again. */
  lemma {:induction false} DoubleImage(h: Host, to: Host, x: int)
    requires 0 <= x < Range(8)
    ensures Store(h, 8, HostToBig(h, 8, ThroughUnion(h, 8, x))) == BigImage(8, x)
    ensures Store(h, 8, HostToLittle(h, 8, ThroughUnion(h, 8, x))) == LittleImage(8, x)
    ensures ThroughUnion(to, 8, BigToHost(to, 8, Load(to, BigImage(8, x)))) == x
    ensures ThroughUnion(to, 8, LittleToHost(to, 8, Load(to, LittleImage(8, x)))) == x
  {
    LoadOfStore(h, 8, x);
    LoadOfStore(to, 8, x);
    HostIndependentImage(h, 8, x);
    Portable(h, to, 8, x);
  }
}
