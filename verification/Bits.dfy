/**
  The bit macros: masks and fields of 32-bit words, page table entries, and addresses.
 */
module Bits {

  // ---------------------------------------------------------------------------------------------
  // Masks and fields
  // ---------------------------------------------------------------------------------------------

  function SetBit(v: bv32, mask: bv32): bv32 { v | mask }

  function ClrBit(v: bv32, mask: bv32): bv32 { v & !mask }

  function SetVal(v: bv32, value: bv32, mask: bv32, offst: bv32): bv32
    requires offst < 32
  {
    (v & !mask) | ((value << offst) & mask)
  }

  function GetVal(v: bv32, mask: bv32, offst: bv32): bv32
    requires offst < 32
  {
    (v & mask) >> offst
  }

  function GenMask(h: bv32, l: bv32): bv32
    requires l <= h < 32
  {
    (0xFFFF_FFFF << l) & (0xFFFF_FFFF >> (31 - h))
  }

  /** A mask has exactly the bits from `l` to `h` set. */
  lemma GenMaskBits(h: bv32, l: bv32, i: bv32)
    requires l <= h < 32 && i < 32
    ensures (GenMask(h, l) >> i) & 1 == if l <= i <= h then 1 else 0
  {}

  /** A field that fits reads back as written, and writing it disturbs no other bit. */
  lemma SetValGetVal(v: bv32, value: bv32, h: bv32, l: bv32)
    requires l <= h < 32 && value <= GenMask(h, l) >> l
    ensures GetVal(SetVal(v, value, GenMask(h, l), l), GenMask(h, l), l) == value
    ensures SetVal(v, value, GenMask(h, l), l) & !GenMask(h, l) == v & !GenMask(h, l)
  {}

  function NBits2(n: bv32): bv32 { if n & 2 != 0 then 1 else 0 }

  function NBits4(n: bv32): bv32 { if n & 0xC != 0 then 2 + NBits2(n >> 2) else NBits2(n) }

  function NBits8(n: bv32): bv32 { if n & 0xF0 != 0 then 4 + NBits4(n >> 4) else NBits4(n) }

  function NBits16(n: bv32): bv32 { if n & 0xFF00 != 0 then 8 + NBits8(n >> 8) else NBits8(n) }

  function NBits32(n: bv32): bv32 { if n & 0xFFFF_0000 != 0 then 16 + NBits16(n >> 16) else NBits16(n) }

  function NBits(n: bv32): bv32 { if n == 0 then 0 else NBits32(n) }

  /** The position of the highest set bit: the whole part of the base-2 logarithm. */
  lemma NBitsIsLog(n: bv32)
    requires n != 0
    ensures NBits(n) < 32 && n >> NBits(n) == 1
  {}

  // ---------------------------------------------------------------------------------------------
  // Numbers stored in words
  // ---------------------------------------------------------------------------------------------

  lemma DoubleWord(x: bv32)
    requires x < 0x8000_0000
    ensures (x << 1) as nat == 2 * (x as nat)
    ensures ((x << 1) | 1) as nat == 2 * (x as nat) + 1
  {}

  lemma {:induction false} WordOf(n: nat) returns (w: bv32)
    requires n < 0x1_0000_0000
    ensures w as nat == n
  {
    if n == 0 {
      w := 0;
    } else {
      var half := WordOf(n / 2);
      assert half as nat < 0x8000_0000 ==> half < 0x8000_0000;
      DoubleWord(half);
      w := if n % 2 == 0 then half << 1 else (half << 1) | 1;
    }
  }

  lemma WordRoundTrip(w: bv32)
    ensures (w as nat) as bv32 == w
  {}

  /** A number below 2^32 survives being stored in a word. */
  lemma NumberRoundTrip(n: nat)
    requires n < 0x1_0000_0000
    ensures (n as bv32) as nat == n
  {
    var w := WordOf(n);
    WordRoundTrip(w);
  }

  // ---------------------------------------------------------------------------------------------
  // Page table entries
  // ---------------------------------------------------------------------------------------------

  const PRESENT_MASK: bv32 := 0x8000_0000
  const SWAPPED_MASK: bv32 := 0x4000_0000
  const FPN_MASK: bv32 := 0x1FFF
  const SWPTYP_MASK: bv32 := 0x1F
  const SWPOFF_MASK: bv32 := 0x03FF_FFE0
  const SWPOFF_LOBIT: bv32 := 5

  /** Frame numbers, swap types and swap offsets that fit their fields. */
  const FPN_LIMIT: nat := 8192
  const SWPTYP_LIMIT: nat := 32
  const SWPOFF_LIMIT: nat := 0x20_0000

  lemma PteMasks()
    ensures FPN_MASK == GenMask(12, 0) && SWPTYP_MASK == GenMask(4, 0) && SWPOFF_MASK == GenMask(25, SWPOFF_LOBIT)
  {}

  function Fpn(pte: bv32): bv32 { GetVal(pte, FPN_MASK, 0) }

  function SwpTyp(pte: bv32): bv32 { GetVal(pte, SWPTYP_MASK, 0) }

  function SwpOff(pte: bv32): bv32 { GetVal(pte, SWPOFF_MASK, SWPOFF_LOBIT) }

  function PteSetFpn(pte: bv32, fpn: bv32): bv32 {
    SetVal(ClrBit(SetBit(pte, PRESENT_MASK), SWAPPED_MASK), fpn, FPN_MASK, 0)
  }

  function PteSetSwap(pte: bv32, typ: bv32, off: bv32): bv32 {
    SetVal(SetVal(SetBit(SetBit(pte, PRESENT_MASK), SWAPPED_MASK), typ, SWPTYP_MASK, 0), off, SWPOFF_MASK, SWPOFF_LOBIT)
  }

  /** What an entry says about its page. */
  datatype Entry = Absent | Resident(fpn: nat) | Swapped(typ: nat, off: nat)

  function Decode(pte: bv32): Entry {
    if pte & PRESENT_MASK == 0 then Absent
    else if pte & SWAPPED_MASK == 0 then Resident(Fpn(pte) as nat)
    else Swapped(SwpTyp(pte) as nat, SwpOff(pte) as nat)
  }

  lemma FpnBits(pte: bv32, fpn: bv32)
    requires fpn <= 0x1FFF
    ensures var w := PteSetFpn(pte, fpn);
            w & PRESENT_MASK != 0 && w & SWAPPED_MASK == 0 && Fpn(w) == fpn
  {}

  lemma SwapBits(pte: bv32, typ: bv32, off: bv32)
    requires typ <= 0x1F && off <= 0x1F_FFFF
    ensures var w := PteSetSwap(pte, typ, off);
            w & PRESENT_MASK != 0 && w & SWAPPED_MASK != 0 && SwpTyp(w) == typ && SwpOff(w) == off
  {}

  /** Setting a frame leaves an entry that decodes to that frame, whatever the entry held before. */
  lemma SetFpnDecodes(pte: bv32, fpn: nat)
    requires fpn < FPN_LIMIT
    ensures Decode(PteSetFpn(pte, fpn as bv32)) == Resident(fpn)
  {
    NumberRoundTrip(fpn);
    var w := fpn as bv32;
    assert w as nat < 8192 ==> w <= 0x1FFF;
    FpnBits(pte, w);
  }

  lemma SetSwapDecodes(pte: bv32, typ: nat, off: nat)
    requires typ < SWPTYP_LIMIT && off < SWPOFF_LIMIT
    ensures Decode(PteSetSwap(pte, typ as bv32, off as bv32)) == Swapped(typ, off)
  {
    NumberRoundTrip(typ);
    NumberRoundTrip(off);
    var t, o := typ as bv32, off as bv32;
    assert t as nat < 32 ==> t <= 0x1F;
    assert o as nat < 0x20_0000 ==> o <= 0x1F_FFFF;
    SwapBits(pte, t, o);
  }

  datatype PteCall = SetFpn(fpn: nat) | SetSwap(typ: nat, off: nat)

  predicate Fits(c: PteCall) {
    match c
    case SetFpn(f) => f < FPN_LIMIT
    case SetSwap(t, o) => t < SWPTYP_LIMIT && o < SWPOFF_LIMIT
  }

  function Call(pte: bv32, c: PteCall): bv32
    requires Fits(c)
  {
    match c
    case SetFpn(f) => PteSetFpn(pte, f as bv32)
    case SetSwap(t, o) => PteSetSwap(pte, t as bv32, o as bv32)
  }

  function Calls(pte: bv32, cs: seq<PteCall>): bv32
    requires forall c :: c in cs ==> Fits(c)
  {
    if cs == [] then pte else Call(Calls(pte, cs[..|cs| - 1]), cs[|cs| - 1])
  }

  function Says(c: PteCall): Entry {
    match c
    case SetFpn(f) => Resident(f)
    case SetSwap(t, o) => Swapped(t, o)
  }

  lemma CallDecodes(pte: bv32, c: PteCall)
    requires Fits(c)
    ensures Decode(Call(pte, c)) == Says(c)
  {
    match c
    case SetFpn(f) => SetFpnDecodes(pte, f);
    case SetSwap(t, o) => SetSwapDecodes(pte, t, o);
  }

  /** After any sequence of settings the entry says what the last one said. */
  lemma LastCallWins(pte: bv32, cs: seq<PteCall>)
    requires cs != [] && forall c :: c in cs ==> Fits(c)
    ensures Decode(Calls(pte, cs)) == Says(cs[|cs| - 1])
  {
    var last := cs[|cs| - 1];
    assert last in cs;
    CallDecodes(Calls(pte, cs[..|cs| - 1]), last);
  }

  // ---------------------------------------------------------------------------------------------
  // The frame an access goes to
  // ---------------------------------------------------------------------------------------------

  /** For a swapped page the frame field overlaps the swap location, whose bits an access then uses. */
  function FrameField(e: Entry): nat {
    match e
    case Absent => 0
    case Resident(f) => f
    case Swapped(t, o) =>
      if t < 0x1_0000_0000 && o < 0x1_0000_0000 then Fpn(PteSetSwap(0, t as bv32, o as bv32)) as nat else 0
  }

  lemma SwapAliasBits(pte: bv32)
    ensures Fpn(pte) == Fpn(PteSetSwap(0, SwpTyp(pte), SwpOff(pte)))
  {}

  /** Extracting the frame field of any entry in use gives the frame an access goes to. */
  lemma FpnOfEntry(pte: bv32)
    requires Decode(pte) != Absent
    ensures Fpn(pte) as nat == FrameField(Decode(pte))
  {
    if Decode(pte).Swapped? {
      SwapAliasBits(pte);
      WordRoundTrip(SwpTyp(pte));
      WordRoundTrip(SwpOff(pte));
    }
  }

  // ---------------------------------------------------------------------------------------------
  // Addresses
  // ---------------------------------------------------------------------------------------------

  const OFFST_MASK: bv32 := 0xFF
  const PGN_MASK: bv32 := 0x3F_FF00
  const PGN_LOBIT: bv32 := 8

  lemma AddressMasks()
    ensures NBits(256) == PGN_LOBIT && OFFST_MASK == GenMask(7, 0) && PGN_MASK == GenMask(21, PGN_LOBIT)
  {}

  function Pgn(addr: bv32): bv32 { GetVal(addr, PGN_MASK, PGN_LOBIT) }

  function Offst(addr: bv32): bv32 { GetVal(addr, OFFST_MASK, 0) }

  function PhyAddr(fpn: bv32, offst: bv32): bv32 { (fpn << PGN_LOBIT) + offst }

  /** Below 4 MB the two address fields are the quotient and the remainder by the page size. */
  lemma AddressSplits(addr: bv32)
    requires addr < 0x40_0000
    ensures Pgn(addr) == addr / 256 && Offst(addr) == addr % 256
    ensures addr == Pgn(addr) * 256 + Offst(addr)
  {}

  /** A physical address is the frame's first byte plus the offset, and splits back into the two. */
  lemma PhyAddrJoins(fpn: bv32, offst: bv32)
    requires fpn <= 0x1FFF && offst < 256
    ensures PhyAddr(fpn, offst) == fpn * 256 + offst
    ensures PhyAddr(fpn, offst) / 256 == fpn && PhyAddr(fpn, offst) % 256 == offst
  {}

  // ---------------------------------------------------------------------------------------------
  // Addresses as numbers
  // ---------------------------------------------------------------------------------------------

  /** The number a word stands for. */
  function Value(w: bv32): nat { w as nat }

  function LowBit(w: bv32): nat { if w & 1 == 1 then 1 else 0 }

  lemma HalfBits(w: bv32)
    ensures w >> 1 < 0x8000_0000
    ensures w == if w & 1 == 1 then ((w >> 1) << 1) | 1 else (w >> 1) << 1
  {}

  lemma OddValue(w: bv32, half: bv32)
    requires half < 0x8000_0000 && w == (half << 1) | 1
    ensures Value(w) == 2 * Value(half) + 1
  {
    DoubleWord(half);
  }

  lemma EvenValue(w: bv32, half: bv32)
    requires half < 0x8000_0000 && w == half << 1
    ensures Value(w) == 2 * Value(half)
  {
    DoubleWord(half);
  }

  lemma HalfValue(w: bv32)
    ensures Value(w) == 2 * Value(w >> 1) + LowBit(w)
  {
    hide Value;
    HalfBits(w);
    if w & 1 == 1 { OddValue(w, w >> 1); } else { EvenValue(w, w >> 1); }
  }

  /** What remains of a word without its low `k` bits, and its bit `k`. */
  function Upper(w: bv32, k: bv32): nat
    requires k <= 8
  {
    Value(w >> k)
  }

  function Bit(w: bv32, k: bv32): nat
    requires k <= 8
  {
    LowBit(w >> k)
  }

  lemma Shifts(w: bv32, k: bv32)
    requires k < 8
    ensures (w >> k) >> 1 == w >> (k + 1)
  {}

  lemma UpperHalf(w: bv32, k: bv32)
    requires k < 8
    ensures Upper(w, k) == 2 * Upper(w, k + 1) + Bit(w, k)
  {
    hide Value, LowBit;
    Shifts(w, k);
    HalfValue(w >> k);
  }

  /** The low eight bits, weighted. */
  function LowBits(w: bv32): nat {
    Bit(w, 0) + 2 * Bit(w, 1) + 4 * Bit(w, 2) + 8 * Bit(w, 3) + 16 * Bit(w, 4) + 32 * Bit(w, 5) + 64 * Bit(w, 6)
    + 128 * Bit(w, 7)
  }

  lemma UpperAndLow(w: bv32)
    ensures Upper(w, 0) == 256 * Upper(w, 8) + LowBits(w)
  {
    hide Upper, Bit;
    UpperHalf(w, 0);
    UpperHalf(w, 1);
    UpperHalf(w, 2);
    UpperHalf(w, 3);
    UpperHalf(w, 4);
    UpperHalf(w, 5);
    UpperHalf(w, 6);
    UpperHalf(w, 7);
  }

  lemma ByteBits(w: bv32, k: bv32)
    requires k < 8
    ensures ((w & 0xFF) >> k) & 1 == (w >> k) & 1
  {}

  lemma SameBit(w: bv32, k: bv32)
    requires k < 8
    ensures Bit(w & 0xFF, k) == Bit(w, k)
  {
    ByteBits(w, k);
  }

  lemma ByteShifts(w: bv32)
    ensures (w & 0xFF) >> 8 == 0
  {}

  lemma SameLowBits(w: bv32)
    ensures LowBits(w & 0xFF) == LowBits(w)
  {
    hide Bit;
    SameBit(w, 0);
    SameBit(w, 1);
    SameBit(w, 2);
    SameBit(w, 3);
    SameBit(w, 4);
    SameBit(w, 5);
    SameBit(w, 6);
    SameBit(w, 7);
  }

  /** A word is its upper part times 256 plus its low byte. */
  lemma LowByte(w: bv32)
    ensures Upper(w, 0) == 256 * Upper(w, 8) + Upper(w & 0xFF, 0) && Upper(w & 0xFF, 0) < 256
  {
    assert Upper(w & 0xFF, 8) == 0 by { ByteShifts(w); }
    hide Upper;
    UpperAndLow(w);
    UpperAndLow(w & 0xFF);
    SameLowBits(w);
  }

  lemma WholeWord(w: bv32)
    ensures w >> 0 == w
  {}

  lemma AddressFields(w: bv32)
    requires w < 0x40_0000
    ensures Pgn(w) == w >> 8 && Offst(w) == w & 0xFF && Offst(w) < 256
  {}

  lemma PhyAddrFields(f: bv32, o: bv32)
    requires f <= 0x1FFF && o < 256
    ensures PhyAddr(f, o) >> 8 == f && PhyAddr(f, o) & 0xFF == o
  {}

  lemma UpperZero(w: bv32)
    ensures Upper(w, 0) == Value(w)
  {
    hide Value;
    WholeWord(w);
  }

  lemma UpperByte(w: bv32)
    ensures Upper(w, 8) == Value(w >> 8)
  {}

  lemma SplitValue(w: bv32)
    ensures Value(w) == 256 * Value(w >> 8) + Value(w & 0xFF) && Value(w & 0xFF) < 256
  {
    hide Value, Upper;
    LowByte(w);
    UpperZero(w);
    UpperZero(w & 0xFF);
    UpperByte(w);
  }

  /** A word is determined as a number by its low byte and what is above it. */
  lemma FieldsValue(w: bv32, high: bv32, low: bv32)
    requires w >> 8 == high && w & 0xFF == low
    ensures Value(w) == 256 * Value(high) + Value(low) && Value(low) < 256
  {
    hide Value;
    SplitValue(w);
  }

  lemma AddressValue(w: bv32)
    requires w < 0x40_0000
    ensures Value(w) == 256 * Value(Pgn(w)) + Value(Offst(w)) && Value(Offst(w)) < 256
  {
    AddressFields(w);
    hide Value, Pgn, Offst;
    FieldsValue(w, Pgn(w), Offst(w));
  }

  lemma PhyAddrValue(f: bv32, o: bv32)
    requires f <= 0x1FFF && o < 256
    ensures Value(PhyAddr(f, o)) == 256 * Value(f) + Value(o)
  {
    PhyAddrFields(f, o);
    hide Value, PhyAddr;
    FieldsValue(PhyAddr(f, o), f, o);
  }

  lemma AddressWord(n: nat)
    requires n < 0x40_0000
    ensures n as bv32 < 0x40_0000 && Value(n as bv32) == n
  {
    NumberRoundTrip(n);
    var w := n as bv32;
    assert w as nat < 0x40_0000 ==> w < 0x40_0000;
  }

  lemma FrameWord(n: nat)
    requires n < FPN_LIMIT
    ensures n as bv32 <= 0x1FFF && Value(n as bv32) == n
  {
    NumberRoundTrip(n);
    var w := n as bv32;
    assert w as nat < 8192 ==> w <= 0x1FFF;
  }

  /** For a number below 4 MB the address macros give its quotient and remainder by the page size. */
  lemma AddressOf(addr: nat)
    requires addr < 0x40_0000
    ensures Value(Pgn(addr as bv32)) == addr / 256
    ensures Value(Offst(addr as bv32)) == addr % 256 && Offst(addr as bv32) < 256
  {
    hide Value, Pgn, Offst;
    AddressWord(addr);
    AddressFields(addr as bv32);
    AddressValue(addr as bv32);
  }

  /** A physical address computed in words is the one computed in numbers. */
  lemma PhyAddrOf(fpn: nat, offst: bv32)
    requires fpn < FPN_LIMIT && offst < 256
    ensures Value(PhyAddr(fpn as bv32, offst)) == fpn * 256 + Value(offst)
  {
    hide Value, PhyAddr;
    FrameWord(fpn);
    PhyAddrValue(fpn as bv32, offst);
  }
}
