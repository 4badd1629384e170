/**
 * The Wiegand side as values: the shared bit accumulator that the two
 * interrupt handlers feed (RFID::DATA0 and RFID::DATA1, RFID.cpp:390-420),
 * the parity checks (RFID.cpp:319-387) and the tag built from the bits
 * (RFID::prepareRFIDTagWiegand, RFID.cpp:267-316).
 *
 * Widths: the accumulator is 64 bits, the bit counter 8 bits and wraps,
 * the field and parity words are 32 bits (a 32-bit `int` and `long`).
 */
module WiegandBits {
  import opened RfidTypes

  // ----- Counting one bits -----

  /**
   * The number of one bits among the n lowest bits of x. A 32-bit word w is
   * counted as its widening, Ones64(w as bv64, n).
   */
  function Ones64(x: bv64, n: nat): nat {
    if n == 0 then 0 else (if x & 1 == 1 then 1 else 0) + Ones64(x >> 1, n - 1)
  }

  lemma ShiftWiden(w: bv32)
    ensures (w >> 1) as bv64 == (w as bv64) >> 1
    ensures (w & 1 == 1) == ((w as bv64) & 1 == 1)
  {
  }

  /** One step of counting a 32-bit word: its low bit, then the rest shifted down. */
  lemma CountStep32(w: bv32, k: nat)
    requires k > 0
    ensures Ones64(w as bv64, k) == (if w & 1 == 1 then 1 else 0) + Ones64((w >> 1) as bv64, k - 1)
  {
    ShiftWiden(w);
  }

  lemma {:induction false} OnesZero(n: nat)
    ensures Ones64(0, n) == 0
  {
    if n > 0 {
      OnesZero(n - 1);
    }
  }

  /** The n lowest bits of m are ones. */
  predicate LowOnes(m: bv64, n: nat) {
    n == 0 || (m & 1 == 1 && LowOnes(m >> 1, n - 1))
  }

  lemma AndShift(y: bv64, m: bv64)
    ensures (y & m) >> 1 == (y >> 1) & (m >> 1)
    ensures ((y & m) & 1 == 1) == (y & 1 == 1 && m & 1 == 1)
  {
  }

  lemma MaskShift(m: bv64, n: nat)
    requires n > 0 && LowOnes(m, n)
    ensures LowOnes(m >> 1, n - 1)
  {
  }

  /** The count of the n low bits of y & m, from that of the bits above bit 0. */
  lemma MaskStep(y: bv64, m: bv64, n: nat)
    requires n > 0 && LowOnes(m, n)
    requires Ones64((y >> 1) & (m >> 1), n - 1) == Ones64(y >> 1, n - 1)
    ensures Ones64(y & m, n) == Ones64(y, n)
  {
    AndShift(y, m);
  }

  /** Masking with a mask whose n low bits are ones does not change their count. */
  lemma {:induction false} OnesMask(y: bv64, m: bv64, n: nat)
    requires LowOnes(m, n)
    ensures Ones64(y & m, n) == Ones64(y, n)
    decreases n
  {
    if n > 0 {
      MaskShift(m, n);
      OnesMask(y >> 1, m >> 1, n - 1);
      MaskStep(y, m, n);
    }
  }

  lemma Mask13()
    ensures LowOnes(0x1FFF, 13)
  {
    assert LowOnes(0x1, 1);
    assert LowOnes(0x3, 2);
    assert LowOnes(0x7, 3);
    assert LowOnes(0xF, 4);
    assert LowOnes(0x1F, 5);
    assert LowOnes(0x3F, 6);
    assert LowOnes(0x7F, 7);
    assert LowOnes(0xFF, 8);
    assert LowOnes(0x1FF, 9);
    assert LowOnes(0x3FF, 10);
    assert LowOnes(0x7FF, 11);
    assert LowOnes(0xFFF, 12);
  }

  /** A 13-bit code cut out of y into a 32-bit word holds as many ones as the 13 low bits of y. */
  lemma Code13(y: bv64)
    ensures Ones64(Low32(y & 0x1FFF) as bv64, 13) == Ones64(y, 13)
  {
    assert Low32(y & 0x1FFF) as bv64 == y & 0x1FFF;
    Mask13();
    OnesMask(y, 0x1FFF, 13);
  }

  // ----- Parity checks -----

  /**
   * The 26-bit check: bits 13 to 25 hold an even number of ones and bits
   * 0 to 12 an odd number.
   */
  predicate Parity26(bits: bv64) {
    Ones64(bits >> 13, 13) % 2 == 0 && Ones64(bits, 13) % 2 == 1
  }

  /**
   * One round of the 35-bit check's gathering loop on one word: shift it
   * left by two and OR in bits base and base + 4 of the frame. The mask is
   * 0x11, so the two bits land four apart and overlap the bits gathered in
   * later rounds. The word is an int, so only its low 32 bits are kept.
   */
  function Round(bits: bv64, acc: bv32, base: bv8): bv32
    requires base <= 64
  {
    (acc << 2) | Low32((bits >> base) & 0x11)
  }

  /** The two words the gathering loop builds side by side. */
  datatype Words = Words(parity2: bv32, parity35: bv32)

  /**
   * The last k of the eleven rounds: in them the second word reads from
   * bit 35 - 3k and the third from bit 34 - 3k (base2 starts at 2 and
   * base35 at 1, and both move up by three per round).
   */
  function Gather(bits: bv64, w: Words, k: bv8): Words
    requires k <= 11
    decreases k
  {
    if k == 0 then w
    else Gather(bits, Words(Round(bits, w.parity2, 35 - 3 * k), Round(bits, w.parity35, 34 - 3 * k)), k - 1)
  }

  /** All eleven rounds, from a second word 0 and a third word holding bits 34 and up. */
  function Gathered(bits: bv64): Words {
    Gather(bits, Words(0, Low32(bits >> 34)), 11)
  }

  /** The last step on the second word: shift it left by one and append bit 0 of the frame. */
  function Close2(w: bv32, bits: bv64): bv32 {
    (w << 1) | Low32(bits & 1)
  }

  /** The second word of the 35-bit check: the gathered word, closed with bit 0. */
  function Parity2Word(bits: bv64): bv32 {
    Close2(Gathered(bits).parity2, bits)
  }

  /** The third word of the 35-bit check, as gathered. */
  function Parity35Word(bits: bv64): bv32 {
    Gathered(bits).parity35
  }

  /**
   * The 35-bit check: the 35 low bits hold an even number of ones, the 23
   * low bits of the second word an odd number, those of the third word an
   * even number.
   */
  predicate Parity35(bits: bv64) {
    && Ones64(bits, 35) % 2 == 0
    && Ones64(Parity2Word(bits) as bv64, 23) % 2 == 1
    && Ones64(Parity35Word(bits) as bv64, 23) % 2 == 0
  }

  // ----- The shared accumulator -----

  /** The state both interrupt handlers share: the configured length, the bits, the count, the flag. */
  datatype Bus = Bus(dataLen: bv8, databits: bv64, bitCount: bv8, available: bool)

  /** The flag is raised when the count reaches the configured length, for 26 and 35 only. */
  predicate Raises(dataLen: bv8, count: bv8) {
    (count == W26BIT && dataLen == W26BIT) || (count == W35BIT && dataLen == W35BIT)
  }

  /** The accumulator after one more bit: shifted left by one, the new bit at bit 0. */
  function ShiftIn(d: bv64, one: bool): bv64 {
    if one then (d << 1) | 1 else d << 1
  }

  /** Shifting a bit in keeps every earlier bit one place higher; the top bit falls off. */
  lemma ShiftedOut(d: bv64, one: bool)
    ensures ShiftIn(d, one) >> 1 == d & 0x7FFF_FFFF_FFFF_FFFF
  {
  }

  /** Shifting a bit in puts it at bit 0. */
  lemma ShiftedIn(d: bv64, one: bool)
    ensures (ShiftIn(d, one) & 1 == 1) == one
  {
  }

  /** One falling edge: DATA0 when one is false, DATA1 when it is true. */
  function Pulse(b: Bus, one: bool): Bus {
    var count := b.bitCount + 1;
    b.(databits := ShiftIn(b.databits, one), bitCount := count,
       available := if Raises(b.dataLen, count) then true else b.available)
  }

  lemma PulseFields(b: Bus, one: bool)
    ensures Pulse(b, one).dataLen == b.dataLen
    ensures Pulse(b, one).bitCount == b.bitCount + 1
    ensures Pulse(b, one).available <==> Raises(b.dataLen, b.bitCount + 1) || b.available
  {
  }

  /** The counter is a byte: each pulse adds one, and 255 wraps to 0. */
  lemma CounterWraps(b: Bus, one: bool)
    ensures b.bitCount == 255 ==> Pulse(b, one).bitCount == 0
  {
  }

  /**
   * After a pulse the flag is up exactly when it was up before, or the count
   * now equals the configured length and that length is 26 or 35.
   */
  lemma PulseFlag(b: Bus, one: bool)
    ensures Pulse(b, one).available
        <==> b.available || (Pulse(b, one).bitCount == b.dataLen && (b.dataLen == W26BIT || b.dataLen == W35BIT))
  {
  }

  lemma CountNext(c: bv8, n: nat)
    requires c as int == n && n < 255
    ensures (c + 1) as int == n + 1
    ensures (c + 1 == W26BIT <==> n + 1 == 26) && (c + 1 == W35BIT <==> n + 1 == 35)
  {
  }

  /** Pulses in the order they arrive. */
  function Pulses(b: Bus, bits: seq<bool>): Bus
    decreases |bits|
  {
    if |bits| == 0 then b else Pulse(Pulses(b, bits[..|bits| - 1]), bits[|bits| - 1])
  }

  /** The accumulator as resetWiegand leaves it, for length len and flag up or down. */
  function Reset(len: bv8, flag: bool): Bus {
    Bus(len, 0, 0, flag)
  }

  /**
   * From a reset with the flag down, before the counter wraps: the count is
   * the number of pulses, and the flag is up exactly when the length is 26
   * or 35 and at least that many pulses arrived.
   */
  lemma {:induction false} PulsesFromReset(len: bv8, bits: seq<bool>)
    requires |bits| < 256
    ensures Pulses(Reset(len, false), bits).dataLen == len
    ensures Pulses(Reset(len, false), bits).bitCount as int == |bits|
    ensures Pulses(Reset(len, false), bits).available
        <==> (len == W26BIT && |bits| >= 26) || (len == W35BIT && |bits| >= 35)
    decreases |bits|
  {
    if |bits| > 0 {
      var front := bits[..|bits| - 1];
      var prev := Pulses(Reset(len, false), front);
      PulsesFromReset(len, front);
      PulseFields(prev, bits[|bits| - 1]);
      CountNext(prev.bitCount, |front|);
    }
  }

  /** No pulse lowers the flag. */
  lemma {:induction false} PulsesKeepFlag(b: Bus, bits: seq<bool>)
    requires b.available
    ensures Pulses(b, bits).available
    decreases |bits|
  {
    if |bits| > 0 {
      PulsesKeepFlag(b, bits[..|bits| - 1]);
    }
  }

  function Falses(n: nat): (r: seq<bool>)
    ensures |r| == n && forall i :: 0 <= i < n ==> !r[i]
  {
    seq(n, _ => false)
  }

  /** Zero pulses into an empty accumulator leave it empty. */
  lemma {:induction false} ZerosStayZero(b: Bus, n: nat)
    requires b.databits == 0
    ensures Pulses(b, Falses(n)).databits == 0
  {
    if n > 0 {
      assert Falses(n)[..n - 1] == Falses(n - 1);
      ZerosStayZero(b, n - 1);
    }
  }

  // ----- The tag built from the bits -----

  /** The 26-bit card code: bits 1 to 24. */
  function Card26(bits: bv64): bv32 {
    Low32((bits >> 1) & 0xFF_FFFF)
  }

  /** The 35-bit facility code: bits 2 to 13. */
  function Facility35(bits: bv64): bv32 {
    Low32((bits >> 2) & 0xFFF)
  }

  /** The 35-bit card code: bits 14 to 33. */
  function Card35(bits: bv64): bv32 {
    Low32((bits >> 14) & 0xF_FFFF)
  }

  /**
   * What prepareRFIDTagWiegand makes of tag t: for 26 bits the id is bits 1
   * to 24 and mfr the stored facility code (which resetWiegand leaves 0);
   * for 35 bits mfr is bits 2 to 13 and the id bits 14 to 33. The checksum
   * is 0 and valid the parity check. Other lengths leave the tag as it is.
   */
  function PrepareTag(dataLen: bv8, bits: bv64, facility: bv32, t: Tag): Tag {
    if dataLen == W26BIT then
      t.(mfr := facility, id := Card26(bits), chk := 0, valid := Parity26(bits))
    else if dataLen == W35BIT then
      t.(mfr := Facility35(bits), id := Card35(bits), chk := 0, valid := Parity35(bits))
    else
      t
  }

  function BitOf(b: bool): bv64 {
    if b then 1 else 0
  }

  /** A 26-bit frame: an even parity bit, a 24-bit card code, an odd parity bit. */
  function Frame26(even: bool, card: bv24, odd: bool): bv64 {
    (BitOf(even) << 25) | ((card as bv64) << 1) | BitOf(odd)
  }

  /** A 35-bit frame: parity bits 34, 1 and 0 around a 20-bit card code and a 12-bit facility code. */
  function Frame35(p34: bool, card: bv20, facility: bv12, p1: bool, p0: bool): bv64 {
    (BitOf(p34) << 34) | ((card as bv64) << 14) | ((facility as bv64) << 2) | (BitOf(p1) << 1) | BitOf(p0)
  }

  /** The 26-bit decoder gives back the card code of a frame and leaves raw alone. */
  lemma Decode26(even: bool, card: bv24, odd: bool, facility: bv32, t: Tag)
    ensures var r := PrepareTag(W26BIT, Frame26(even, card, odd), facility, t);
            && r.id == card as bv32 && r.mfr == facility && r.chk == 0 && r.raw == t.raw
            && (r.valid <==> Parity26(Frame26(even, card, odd)))
  {
  }

  /** The 35-bit decoder gives back the facility and card codes of a frame. */
  lemma Decode35(p34: bool, card: bv20, facility: bv12, p1: bool, p0: bool, f: bv32, t: Tag)
    ensures var r := PrepareTag(W35BIT, Frame35(p34, card, facility, p1, p0), f, t);
            && r.mfr == facility as bv32 && r.id == card as bv32 && r.chk == 0 && r.raw == t.raw
            && (r.valid <==> Parity35(Frame35(p34, card, facility, p1, p0)))
  {
  }

  /**
   * Whatever the bits, the 26-bit id fits 24 bits, the 35-bit facility code
   * 12 bits and the 35-bit id 20 bits; other lengths change nothing.
   */
  lemma TagWidths(dataLen: bv8, bits: bv64, facility: bv32, t: Tag)
    ensures var r := PrepareTag(dataLen, bits, facility, t);
            && (dataLen == W26BIT ==> r.id < 0x100_0000 && r.mfr == facility)
            && (dataLen == W35BIT ==> r.mfr < 0x1000 && r.id < 0x10_0000)
            && (dataLen != W26BIT && dataLen != W35BIT ==> r == t)
            && r.raw == t.raw
  {
  }

  // ----- The second word in closed form -----

  /** Bit i of a frame. */
  function FrameBit(x: bv64, i: bv8): bool
    requires i < 64
  {
    (x >> i) & 1 == 1
  }

  /** Bit i of a 32-bit word. */
  function WordBit(x: bv32, i: bv8): bool
    requires i < 32
  {
    (x >> i) & 1 == 1
  }

  /** The last k rounds on the second word alone. */
  function Second(bits: bv64, a: bv32, k: bv8): bv32
    requires k <= 11
    decreases k
  {
    if k == 0 then a else Second(bits, Round(bits, a, 35 - 3 * k), k - 1)
  }

  /** The second word of the gathering loop depends only on the second word it starts from. */
  lemma {:induction false} GatherSecond(bits: bv64, w: Words, k: bv8)
    requires k <= 11
    ensures Gather(bits, w, k).parity2 == Second(bits, w.parity2, k)
    decreases k
  {
    if k > 0 {
      GatherSecond(bits, Words(Round(bits, w.parity2, 35 - 3 * k), Round(bits, w.parity35, 34 - 3 * k)), k - 1);
    }
  }

  /** The eleven rounds of the second word written out, then the closing step. */
  function Unrolled2(bits: bv64): bv32 {
    var a1 := Round(bits, 0, 2);
    var a2 := Round(bits, a1, 5);
    var a3 := Round(bits, a2, 8);
    var a4 := Round(bits, a3, 11);
    var a5 := Round(bits, a4, 14);
    var a6 := Round(bits, a5, 17);
    var a7 := Round(bits, a6, 20);
    var a8 := Round(bits, a7, 23);
    var a9 := Round(bits, a8, 26);
    var a10 := Round(bits, a9, 29);
    Close2(Round(bits, a10, 32), bits)
  }

  /** The gathered and closed second word is the eleven rounds written out. */
  lemma Parity2Unrolled(bits: bv64)
    ensures Parity2Word(bits) == Unrolled2(bits)
  {
    GatherSecond(bits, Words(0, Low32(bits >> 34)), 11);
    var a1 := Round(bits, 0, 2);
    var a2 := Round(bits, a1, 5);
    var a3 := Round(bits, a2, 8);
    var a4 := Round(bits, a3, 11);
    var a5 := Round(bits, a4, 14);
    var a6 := Round(bits, a5, 17);
    var a7 := Round(bits, a6, 20);
    var a8 := Round(bits, a7, 23);
    var a9 := Round(bits, a8, 26);
    var a10 := Round(bits, a9, 29);
    assert Second(bits, 0, 11) == Second(bits, a1, 10);
    assert Second(bits, a1, 10) == Second(bits, a2, 9);
    assert Second(bits, a2, 9) == Second(bits, a3, 8);
    assert Second(bits, a3, 8) == Second(bits, a4, 7);
    assert Second(bits, a4, 7) == Second(bits, a5, 6);
    assert Second(bits, a5, 6) == Second(bits, a6, 5);
    assert Second(bits, a6, 5) == Second(bits, a7, 4);
    assert Second(bits, a7, 4) == Second(bits, a8, 3);
    assert Second(bits, a8, 3) == Second(bits, a9, 2);
    assert Second(bits, a9, 2) == Second(bits, a10, 1);
  }

  /** The written-out word, bit by bit. */
  lemma UnrolledBits(bits: bv64)
    ensures WordBit(Unrolled2(bits), 0) == FrameBit(bits, 0)
    ensures WordBit(Unrolled2(bits), 21) == (FrameBit(bits, 2) || FrameBit(bits, 12))
    ensures WordBit(Unrolled2(bits), 19) == (FrameBit(bits, 5) || FrameBit(bits, 15))
    ensures WordBit(Unrolled2(bits), 17) == (FrameBit(bits, 8) || FrameBit(bits, 18))
    ensures WordBit(Unrolled2(bits), 15) == (FrameBit(bits, 11) || FrameBit(bits, 21))
    ensures WordBit(Unrolled2(bits), 13) == (FrameBit(bits, 14) || FrameBit(bits, 24))
    ensures WordBit(Unrolled2(bits), 11) == (FrameBit(bits, 17) || FrameBit(bits, 27))
    ensures WordBit(Unrolled2(bits), 9) == (FrameBit(bits, 20) || FrameBit(bits, 30))
    ensures WordBit(Unrolled2(bits), 7) == (FrameBit(bits, 23) || FrameBit(bits, 33))
    ensures WordBit(Unrolled2(bits), 5) == (FrameBit(bits, 26) || FrameBit(bits, 36))
    ensures WordBit(Unrolled2(bits), 3) == FrameBit(bits, 29)
    ensures WordBit(Unrolled2(bits), 1) == FrameBit(bits, 32)
    ensures Unrolled2(bits) & 0x55_5554 == 0
  {
  }

  /**
   * The second word of the 35-bit check in closed form, for every frame.
   * Bit 0 is frame bit 0. For j = 0 to 10, word bit 21 - 2j is frame bit
   * 2 + 3j, ORed with frame bit 12 + 3j when j <= 8: the mask's bit 4 brings
   * that frame bit in two rounds later at the same place. The even word bits
   * 2 to 22 are zero, so of the 23 counted bits only these twelve can be one.
   */
  lemma Parity2Closed(bits: bv64)
    ensures WordBit(Parity2Word(bits), 0) == FrameBit(bits, 0)
    ensures WordBit(Parity2Word(bits), 21) == (FrameBit(bits, 2) || FrameBit(bits, 12))
    ensures WordBit(Parity2Word(bits), 19) == (FrameBit(bits, 5) || FrameBit(bits, 15))
    ensures WordBit(Parity2Word(bits), 17) == (FrameBit(bits, 8) || FrameBit(bits, 18))
    ensures WordBit(Parity2Word(bits), 15) == (FrameBit(bits, 11) || FrameBit(bits, 21))
    ensures WordBit(Parity2Word(bits), 13) == (FrameBit(bits, 14) || FrameBit(bits, 24))
    ensures WordBit(Parity2Word(bits), 11) == (FrameBit(bits, 17) || FrameBit(bits, 27))
    ensures WordBit(Parity2Word(bits), 9) == (FrameBit(bits, 20) || FrameBit(bits, 30))
    ensures WordBit(Parity2Word(bits), 7) == (FrameBit(bits, 23) || FrameBit(bits, 33))
    ensures WordBit(Parity2Word(bits), 5) == (FrameBit(bits, 26) || FrameBit(bits, 36))
    ensures WordBit(Parity2Word(bits), 3) == FrameBit(bits, 29)
    ensures WordBit(Parity2Word(bits), 1) == FrameBit(bits, 32)
    ensures Parity2Word(bits) & 0x55_5554 == 0
  {
    Parity2Unrolled(bits);
    UnrolledBits(bits);
  }

  // ----- Worked examples -----

  lemma Parity26Examples()
    ensures Parity26(1)
    ensures !Parity26(0)
  {
    OnesZero(12);
    OnesZero(13);
    assert Ones64(1, 13) == 1 + Ones64(0, 12);
  }

  /**
   * One round from an empty word takes two bits four apart: bits base and
   * base + 4 of the frame land at bits 0 and 4 of the word, and every other
   * bit of the word is zero, so bits base + 1 to base + 3 are dropped.
   */
  lemma RoundBits(bits: bv64, base: bv8)
    requires base <= 32
    ensures Round(bits, 0, base) & 1 == Low32((bits >> base) & 1)
    ensures (Round(bits, 0, base) >> 4) & 1 == Low32((bits >> (base + 4)) & 1)
    ensures Round(bits, 0, base) & 0xE == 0 && Round(bits, 0, base) >> 5 == 0
  {
  }

  /** At base 2: bit 2 lands at bit 0, bit 6 at bit 4, and bit 3 is dropped. */
  lemma RoundTakesTwoBits()
    ensures Round(0x04, 0, 2) == 0x01
    ensures Round(0x40, 0, 2) == 0x10
    ensures Round(0x08, 0, 2) == 0
  {
  }

  /**
   * Bit 6 enters the second word in the first round through the mask's bit
   * 4, and ten more rounds and the closing shift carry it to bit 25, above
   * the 23 bits the check counts.
   */
  lemma OverlapLeavesCountedBits()
    ensures Parity2Word(0x40) == 0x200_0000
  {
    var w := Words(0x10, 0);
    assert Gathered(0x40) == Gather(0x40, w, 10);
    assert Gather(0x40, w, 10) == Gather(0x40, Words(0x40, 0), 9);
    assert Gather(0x40, Words(0x40, 0), 9) == Gather(0x40, Words(0x100, 0), 8);
    assert Gather(0x40, Words(0x100, 0), 8) == Gather(0x40, Words(0x400, 0), 7);
    assert Gather(0x40, Words(0x400, 0), 7) == Gather(0x40, Words(0x1000, 0), 6);
    assert Gather(0x40, Words(0x1000, 0), 6) == Gather(0x40, Words(0x4000, 0), 5);
    assert Gather(0x40, Words(0x4000, 0), 5) == Gather(0x40, Words(0x1_0000, 0), 4);
    assert Gather(0x40, Words(0x1_0000, 0), 4) == Gather(0x40, Words(0x4_0000, 0), 3);
    assert Gather(0x40, Words(0x4_0000, 0), 3) == Gather(0x40, Words(0x10_0000, 0), 2);
    assert Gather(0x40, Words(0x10_0000, 0), 2) == Gather(0x40, Words(0x40_0000, 0), 1);
    assert Gather(0x40, Words(0x40_0000, 0), 1) == Words(0x100_0000, 0);
  }

  /** The all-zero frame fails the 35-bit check: its second word has no ones, an even count. */
  lemma Parity35Zero()
    ensures !Parity35(0)
  {
  }

  /** 25 zero pulses then a one: the flag is up, the id 0 and the check passes. */
  lemma Example26Valid(t: Tag)
    ensures var b := Pulses(Reset(W26BIT, false), Falses(25) + [true]);
            && b.available && b.databits == 1 && b.bitCount == 26
            && PrepareTag(W26BIT, b.databits, 0, t).id == 0
            && PrepareTag(W26BIT, b.databits, 0, t).valid
  {
    var bits := Falses(25) + [true];
    assert bits[..25] == Falses(25);
    ZerosStayZero(Reset(W26BIT, false), 25);
    PulsesFromReset(W26BIT, bits);
    Parity26Examples();
  }

  /** 26 zero pulses: the flag is up, the id 0 and the check fails. */
  lemma Example26Invalid(t: Tag)
    ensures var b := Pulses(Reset(W26BIT, false), Falses(26));
            && b.available && b.databits == 0
            && PrepareTag(W26BIT, b.databits, 0, t).id == 0
            && !PrepareTag(W26BIT, b.databits, 0, t).valid
  {
    ZerosStayZero(Reset(W26BIT, false), 26);
    PulsesFromReset(W26BIT, Falses(26));
    Parity26Examples();
  }
}
