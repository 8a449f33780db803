/**
  The structures of basic-headers/MacTypes.h whose fields change places with the byte order.
  */
module Layouts {
  import opened ByteOrder

  // ---------- NumVersion and NumVersionVariant ----------

  datatype NumVersion = NumVersion(majorRev: Byte, minorAndBugRev: Byte, stage: Byte, nonRelRev: Byte)

  /** The fields in the order the header declares them for the host. */
  function NumVersionImage(h: Host, v: NumVersion): seq<Byte> {
    if h.bigEndian then [v.majorRev, v.minorAndBugRev, v.stage, v.nonRelRev]
    else [v.nonRelRev, v.stage, v.minorAndBugRev, v.majorRev]
  }

  /** NumVersionVariant.whole */
  function Whole(h: Host, v: NumVersion): int {
    Load(h, NumVersionImage(h, v))
  }

  /** Which of two versions is the earlier one, field by field. */
  predicate Earlier(a: NumVersion, b: NumVersion) {
    a.majorRev < b.majorRev || (a.majorRev == b.majorRev &&
    (a.minorAndBugRev < b.minorAndBugRev || (a.minorAndBugRev == b.minorAndBugRev &&
    (a.stage < b.stage || (a.stage == b.stage && a.nonRelRev < b.nonRelRev)))))
  }

  lemma ValueOfFour(a: Byte, b: Byte, c: Byte, d: Byte)
    ensures Value([a, b, c, d]) == a + 256 * (b + 256 * (c + 256 * d))
  {
    assert [a, b, c, d][1..] == [b, c, d] && [b, c, d][1..] == [c, d] && [c, d][1..] == [d] && [d][1..] == [];
    assert Value([d]) == d;
    assert Value([c, d]) == c + 256 * d;
    assert Value([b, c, d]) == b + 256 * (c + 256 * d);
  }

  lemma WholeIsPacked(h: Host, v: NumVersion)
    ensures Whole(h, v) == v.nonRelRev + 256 * (v.stage + 256 * (v.minorAndBugRev + 256 * v.majorRev))
  {
    var low := [v.nonRelRev, v.stage, v.minorAndBugRev, v.majorRev];
    assert Reversed([v.majorRev, v.minorAndBugRev, v.stage, v.nonRelRev]) == low;
    ValueOfFour(v.nonRelRev, v.stage, v.minorAndBugRev, v.majorRev);
  }

  /** The whole is the same integer on every host, it orders versions as their fields do, and
      it is what NXSwapBigIntToHost makes of the big-endian 'vers' resource. */
  lemma WholeIsPortable(h: Host, k: Host, a: NumVersion, b: NumVersion)
    ensures Whole(h, a) == Whole(k, a)
    ensures Whole(h, a) < Whole(h, b) <==> Earlier(a, b)
    ensures Whole(h, a) == Whole(h, b) <==> a == b
    ensures BigToHost(h, 4, Load(h, [a.majorRev, a.minorAndBugRev, a.stage, a.nonRelRev])) == Whole(h, a)
  {
    WholeIsPacked(h, a);
    WholeIsPacked(k, a);
    WholeIsPacked(h, b);
    var resource := [a.majorRev, a.minorAndBugRev, a.stage, a.nonRelRev];
    var low := [a.nonRelRev, a.stage, a.minorAndBugRev, a.majorRev];
    assert Reversed(resource) == low;
    BytesOfValue(resource);
    BytesOfValue(low);
  }

  // ---------- wide ----------

  /** In a wide hi is signed, in an UnsignedWide not; lo never is. */
  datatype Wide = Wide(hi: int, lo: int)

  predicate ValidWide(w: Wide) {
    -Range(4) <= 2 * w.hi < Range(4) && 0 <= w.lo < Range(4)
  }

  function WideImage(h: Host, w: Wide): seq<Byte> {
    if h.bigEndian then Store(h, 4, w.hi) + Store(h, 4, w.lo)
    else Store(h, 4, w.lo) + Store(h, 4, w.hi)
  }

  /** The eight bytes read as a signed 64-bit integer of the host. */
  function AsSigned(h: Host, s: seq<Byte>): int {
    var u := Load(h, s);
    if 2 * u >= Range(|s|) then u - Range(|s|) else u
  }

  lemma {:induction false} ValueOfConcat(s: seq<Byte>, t: seq<Byte>)
    ensures Value(s + t) == Value(s) + Range(|s|) * Value(t)
  {
    if s == [] {
      assert s + t == t;
    } else {
      ValueOfConcat(s[1..], t);
      assert (s + t)[1..] == s[1..] + t;
      var p, v := Range(|s| - 1), Value(t);
      assert 256 * (p * v) == (256 * p) * v;
    }
  }

  lemma Ranges()
    ensures Range(4) == 0x1_0000_0000 && Range(8) == 0x1_0000_0000_0000_0000
  {
    assert Range(2) == 0x1_0000;
    assert Range(6) == 0x1_0000_0000_0000;
  }

  lemma WideBytes(h: Host, w: Wide)
    ensures Load(h, WideImage(h, w)) == Value(Bytes(4, w.lo) + Bytes(4, w.hi))
  {
    var lo, hi := Bytes(4, w.lo), Bytes(4, w.hi);
    if h.bigEndian { assert Reversed(Reversed(hi) + Reversed(lo)) == lo + hi; }
  }

  /** Two's complement: the unsigned reading of hi and lo, taken as signed. */
  lemma SignedHalves(hi: int, lo: int, top: int, q: int)
    requires hi == q * 0x1_0000_0000 + top && 0 <= top < 0x1_0000_0000
    requires -0x8000_0000 <= hi < 0x8000_0000 && 0 <= lo < 0x1_0000_0000
    ensures var u := lo + 0x1_0000_0000 * top;
            (if 2 * u >= 0x1_0000_0000_0000_0000 then u - 0x1_0000_0000_0000_0000 else u) == hi * 0x1_0000_0000 + lo
  {
    assert q == 0 || q == -1;
  }

  /** Reading an UnsignedWide, laid out likewise but with an unsigned hi, as an unsigned 64-bit
      integer gives hi * 2^32 + lo in either layout. */
  lemma UnsignedWideReadsAsInteger(h: Host, w: Wide)
    requires 0 <= w.hi < Range(4) && 0 <= w.lo < Range(4)
    ensures Load(h, WideImage(h, w)) == w.hi * Range(4) + w.lo
  {
    WideBytes(h, w);
    ValueOfConcat(Bytes(4, w.lo), Bytes(4, w.hi));
    ValueOfBytes(4, w.lo);
    ValueOfBytes(4, w.hi);
  }

  /** Reading a wide as a 64-bit integer gives hi * 2^32 + lo in either layout. */
  lemma WideReadsAsInteger(h: Host, w: Wide)
    requires ValidWide(w)
    ensures AsSigned(h, WideImage(h, w)) == w.hi * Range(4) + w.lo
  {
    Ranges();
    WideBytes(h, w);
    ValueOfConcat(Bytes(4, w.lo), Bytes(4, w.hi));
    ValueOfBytes(4, w.lo);
    var q := TruncatedIsRemainder(4, w.hi);
    SignedHalves(w.hi, w.lo, Truncated(4, w.hi), q);
  }
}
