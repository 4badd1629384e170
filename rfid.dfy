/**
 * The RFID class (RFID.h:46-78, RFID.cpp): one decoder object per reader,
 * built for either interface, plus the Wiegand accumulator that all objects
 * share.
 *
 * The accumulator is static in the source: one bit buffer, one counter, one
 * flag and one configured length, fed by the two interrupt handlers. It is
 * the class WiegandBus here, and every Rfid object holds a reference to the
 * one instance. The tag, the UART counters and the facility and card codes
 * belong to each object.
 *
 * Every method is proved against the value model: the UART side against
 * UartFrame.Step, the Wiegand side against WiegandBits.Pulse and
 * WiegandBits.PrepareTag. Each branch of the source is a small method whose
 * contract names the fields it sets; a lemma over values then assembles
 * those fields into the state the value model prescribes.
 */
module Rfid {
  import opened RfidTypes
  import opened HexParser
  import opened UartFrame
  import opened WiegandBits

  // ----- The shared Wiegand state -----

  /** A bus whose fields are those one pulse produces is that pulse's successor. */
  lemma PulseOf(b: Bus, one: bool, n: Bus)
    requires n.dataLen == b.dataLen && n.databits == ShiftIn(b.databits, one)
    requires n.bitCount == b.bitCount + 1
    requires n.available == (Raises(b.dataLen, n.bitCount) || b.available)
    ensures n == Pulse(b, one)
  {
  }

  /** The static Wiegand state: _dataLen, _databits, _bitCount, _wiegandIdAvailable. */
  class WiegandBus {
    var dataLen: bv8
    var databits: bv64
    var bitCount: bv8
    var idAvailable: bool

    function View(): Bus
      reads this
    {
      Bus(dataLen, databits, bitCount, idAvailable)
    }

    /** Static storage starts zeroed. */
    constructor ()
      ensures View() == Bus(0, 0, 0, false)
    {
      dataLen, databits, bitCount, idAvailable := 0, 0, 0, false;
    }

    /** The first half of both handlers: shift the accumulator left, OR in 1 for DATA1. */
    method ShiftBit(one: bool)
      modifies this
      ensures databits == ShiftIn(old(databits), one)
      ensures dataLen == old(dataLen) && bitCount == old(bitCount) && idAvailable == old(idAvailable)
    {
      databits := databits << 1;
      if one {
        databits := databits | 0x01;
      }
    }

    /** The second half: count the bit and raise the flag at the configured length. */
    method CountBit()
      modifies this
      ensures bitCount == old(bitCount) + 1
      ensures idAvailable == (Raises(dataLen, bitCount) || old(idAvailable))
      ensures dataLen == old(dataLen) && databits == old(databits)
    {
      bitCount := bitCount + 1;
      if bitCount == W26BIT && dataLen == W26BIT {
        idAvailable := true;
      } else if bitCount == W35BIT && dataLen == W35BIT {
        idAvailable := true;
      }
    }

    /** The DATA0 interrupt: a zero bit. */
    method Data0()
      modifies this
      ensures View() == Pulse(old(View()), false)
    {
      ShiftBit(false);
      CountBit();
      PulseOf(old(View()), false, View());
    }

    /** The DATA1 interrupt: a one bit. */
    method Data1()
      modifies this
      ensures View() == Pulse(old(View()), true)
    {
      ShiftBit(true);
      CountBit();
      PulseOf(old(View()), true, View());
    }
  }

  // ----- Helpers shared by the checks -----

  /** One step of the checksum loop: a byte XOR. */
  function Xor8(a: bv8, b: bv8): bv8 {
    a ^ b
  }

  /** The XOR of the first n hex pairs of raw, as the checksum loop accumulates it. */
  function PairsXor(raw: seq<bv8>, n: nat): bv8
    requires |raw| == RAW_SIZE && n <= 5
  {
    if n == 0 then 0 else Xor8(PairsXor(raw, n - 1), Pair(raw, n - 1))
  }

  lemma XorChain(p0: bv8, p1: bv8, p2: bv8, p3: bv8, p4: bv8)
    ensures Xor8(Xor8(Xor8(Xor8(Xor8(0, p0), p1), p2), p3), p4) == p0 ^ p1 ^ p2 ^ p3 ^ p4
  {
  }

  /** All five rounds of the loop give the frame checksum. */
  lemma PairsXorIsChecksum(raw: seq<bv8>)
    requires |raw| == RAW_SIZE
    ensures PairsXor(raw, 5) == FrameChecksum(raw)
  {
    var x1 := PairsXor(raw, 1);
    var x2 := PairsXor(raw, 2);
    var x3 := PairsXor(raw, 3);
    var x4 := PairsXor(raw, 4);
    assert PairsXor(raw, 0) == 0;
    assert x1 == Xor8(PairsXor(raw, 0), Pair(raw, 0));
    assert x2 == Xor8(x1, Pair(raw, 1));
    assert x3 == Xor8(x2, Pair(raw, 2));
    assert x4 == Xor8(x3, Pair(raw, 3));
    assert PairsXor(raw, 5) == Xor8(x4, Pair(raw, 4));
    XorChain(Pair(raw, 0), Pair(raw, 1), Pair(raw, 2), Pair(raw, 3), Pair(raw, 4));
  }

  /** Counts the ones among the n low bits of a 32-bit word, shifting it down one bit at a time. */
  method CountOnes32(word: bv32, n: nat) returns (count: nat)
    ensures count == Ones64(word as bv64, n)
  {
    var w := word;
    count := 0;
    for i := 0 to n
      invariant count + Ones64(w as bv64, n - i) == Ones64(word as bv64, n)
    {
      CountStep32(w, n - i);
      if w & 0x01 == 1 {
        count := count + 1;
      }
      w := w >> 1;
    }
  }

  /** The same for a 64-bit word. */
  method CountOnes64(word: bv64, n: nat) returns (count: nat)
    ensures count == Ones64(word, n)
  {
    var w := word;
    count := 0;
    for i := 0 to n
      invariant count + Ones64(w, n - i) == Ones64(word, n)
    {
      if w & 0x01 == 1 {
        count := count + 1;
      }
      w := w >> 1;
    }
  }

  /** One 13-bit half of checkParity26: mask it out of the word and count its ones. */
  method HalfCount(code: bv64) returns (count: nat)
    ensures count == Ones64(code, 13)
  {
    count := CountOnes32(Low32(code & 0x1FFF), 13);
    Code13(code);
  }

  /** checkParity26 on the shared bits: count the ones of the two 13-bit halves. */
  method CheckParity26(databits: bv64) returns (ok: bool)
    ensures ok == Parity26(databits)
  {
    var oddCount := HalfCount(databits >> 13);
    var evenCount := HalfCount(databits);
    ok := oddCount % 2 == 0 && evenCount % 2 == 1;
  }

  /**
   * The gathering loop of checkParity35: eleven rounds, base2 from 2 and
   * base35 from 1, both moving up by three. The rounds are counted down.
   */
  method GatherWords(databits: bv64) returns (parity2: bv32, parity35: bv32)
    ensures Words(parity2, parity35) == Gathered(databits)
  {
    parity2 := 0;
    parity35 := Low32(databits >> 34);
    var base2: bv8, base35: bv8 := 2, 1;
    var k: bv8 := 11;
    while k > 0
      invariant k <= 11 && base2 == 35 - 3 * k && base35 == 34 - 3 * k
      invariant Gather(databits, Words(parity2, parity35), k) == Gathered(databits)
    {
      parity2 := Round(databits, parity2, base2);
      parity35 := Round(databits, parity35, base35);
      base2 := base2 + 3;
      base35 := base35 + 3;
      k := k - 1;
    }
  }

  /** Counting the closed second word counts the second word of the check. */
  lemma Count2Of(bits: bv64, gathered2: bv32, parity35: bv32, c: nat)
    requires Words(gathered2, parity35) == Gathered(bits)
    requires c == Ones64(Close2(gathered2, bits) as bv64, 23)
    ensures Ones64(Parity2Word(bits) as bv64, 23) == c
  {
  }

  /** Counting the gathered third word counts the third word of the check. */
  lemma Count35Of(bits: bv64, gathered2: bv32, parity35: bv32, c: nat)
    requires Words(gathered2, parity35) == Gathered(bits)
    requires c == Ones64(parity35 as bv64, 23)
    ensures Ones64(Parity35Word(bits) as bv64, 23) == c
  {
  }

  /** Counts taken of the three words decide the 35-bit check. */
  lemma Parity35Of(bits: bv64, gathered2: bv32, parity35: bv32, c1: nat, c2: nat, c3: nat)
    requires Words(gathered2, parity35) == Gathered(bits)
    requires c1 == Ones64(bits, 35)
    requires c2 == Ones64(Close2(gathered2, bits) as bv64, 23)
    requires c3 == Ones64(parity35 as bv64, 23)
    ensures Parity35(bits) == (c1 % 2 == 0 && c2 % 2 == 1 && c3 % 2 == 0)
  {
    Count2Of(bits, gathered2, parity35, c2);
    Count35Of(bits, gathered2, parity35, c3);
  }

  /** The three counting loops of checkParity35: bits 0-34 of the frame, and the 23 low bits of each word. */
  method CountWords(databits: bv64, gathered2: bv32, parity35: bv32) returns (p1OddCount: nat, p2EvenCount: nat, p35OddCount: nat)
    ensures p1OddCount == Ones64(databits, 35)
    ensures p2EvenCount == Ones64(Close2(gathered2, databits) as bv64, 23)
    ensures p35OddCount == Ones64(parity35 as bv64, 23)
  {
    p1OddCount := CountOnes64(databits, 35);
    p2EvenCount := CountOnes32(Close2(gathered2, databits), 23);
    p35OddCount := CountOnes32(parity35, 23);
  }

  /** checkParity35 on the shared bits: gather the two parity words, then count the three words. */
  method CheckParity35(databits: bv64) returns (ok: bool)
    ensures ok == Parity35(databits)
  {
    var gathered2, parity35 := GatherWords(databits);
    var p1OddCount, p2EvenCount, p35OddCount := CountWords(databits, gathered2, parity35);
    ok := p1OddCount % 2 == 0 && p2EvenCount % 2 == 1 && p35OddCount % 2 == 0;
    Parity35Of(databits, gathered2, parity35, p1OddCount, p2EvenCount, p35OddCount);
  }

  // ----- Assembling states from fields -----

  /** A state whose fields are those ETX produces from s is Finalize(s). */
  lemma FinalizeOf(s: UartState, n: UartState)
    requires WellFormed(s)
    requires n.tag.raw == s.tag.raw && n.bytesRead == s.bytesRead && n.available
    requires n.tag.mfr == FrameMfr(s.tag.raw)
    requires n.tag.id == FrameId(s.tag.raw)
    requires n.tag.chk == FrameChk(s.tag.raw)
    requires n.tag.valid == (s.tag.valid || FrameChecksum(s.tag.raw) == n.tag.chk)
    ensures n == Finalize(s)
  {
  }

  /** A tag whose fields are those the decoder sets for a length is PrepareTag's result. */
  lemma PreparedOf(dataLen: bv8, bits: bv64, facility: bv32, t: Tag, n: Tag)
    requires n.raw == t.raw
    requires dataLen == W26BIT ==>
               n.mfr == facility && n.id == Card26(bits) && n.chk == 0
               && n.valid == Parity26(bits)
    requires dataLen == W35BIT ==>
               n.mfr == Facility35(bits) && n.id == Card35(bits) && n.chk == 0
               && n.valid == Parity35(bits)
    requires dataLen != W26BIT && dataLen != W35BIT ==> n == t
    ensures n == PrepareTag(dataLen, bits, facility, t)
  {
  }

  class Rfid {
    const mode: Mode
    /** The shared static state. */
    const bus: WiegandBus
    /** The tag: _tag.mfr, _tag.id, _tag.chk, _tag.valid and the 13-slot _tag.raw. */
    var mfr: bv32
    var id: bv32
    var chk: bv8
    var valid: bool
    const raw: array<bv8>
    /** UART mode: the stored character count and the frame flag. */
    var bytesRead: nat
    var uartIdAvailable: bool
    /** Wiegand mode: the codes the last decode extracted (zero between decodes). */
    var facilityCode: bv32
    var cardCode: bv32

    /**
     * The buffer has thirteen slots and at most twelve are filled; in
     * Wiegand mode the codes are zero whenever no decode is running.
     */
    predicate Valid()
      reads this
    {
      && raw.Length == RAW_SIZE
      && bytesRead <= FRAME_CHARS
      && (mode == Wiegand ==> facilityCode == 0 && cardCode == 0)
    }

    /** The tag as getTag hands it out, by value. */
    function TagView(): Tag
      reads this, raw
    {
      Tag(mfr, id, chk, valid, raw[..])
    }

    /** The UART side of the object, as the value model sees it. */
    function UartView(): UartState
      reads this, raw
    {
      UartState(TagView(), bytesRead, uartIdAvailable)
    }

    /**
     * RFID(mode, arg): initUART(arg) or initWiegand(arg). The tag fields are
     * zeroed; the raw buffer is not initialised. For UART the counter and the
     * flag are cleared. For Wiegand the length is stored in the shared state
     * and resetWiegand runs; the shared flag is left as it was.
     */
    constructor (m: Mode, arg: bv8, shared: WiegandBus)
      modifies shared
      ensures Valid() && mode == m && bus == shared && fresh(raw)
      ensures mfr == 0 && id == 0 && chk == 0 && !valid
      ensures m == Uart ==> bytesRead == 0 && !uartIdAvailable && unchanged(shared)
      ensures m == Wiegand ==> shared.View() == Reset(arg, old(shared.idAvailable))
    {
      mode := m;
      bus := shared;
      raw := new bv8[RAW_SIZE];
      mfr, id, chk, valid := 0, 0, 0, false;
      bytesRead := 0;
      if m == Wiegand {
        shared.dataLen := arg;
        shared.databits, shared.bitCount := 0, 0;
        facilityCode, cardCode := 0, 0;
      } else {
        uartIdAvailable := false;
      }
    }

    // ----- UART mode -----

    method ZeroRaw()
      requires raw.Length == RAW_SIZE
      modifies raw
      ensures raw[..] == Zeros(RAW_SIZE)
    {
      for i := 0 to RAW_SIZE
        invariant forall j :: 0 <= j < i ==> raw[j] == 0
      {
        raw[i] := 0;
      }
      assert forall j :: 0 <= j < RAW_SIZE ==> raw[..][j] == Zeros(RAW_SIZE)[j];
    }

    /** STX: zero the tag and the counter, clear all thirteen slots, lower the flag. */
    method ClearFrame()
      requires Valid()
      modifies this, raw
      ensures Valid() && UartView() == Blank()
      ensures facilityCode == old(facilityCode) && cardCode == old(cardCode)
    {
      bytesRead := 0;
      mfr, id, chk, valid := 0, 0, 0, false;
      ZeroRaw();
      uartIdAvailable := false;
    }

    /** The three hex2dec calls of ETX: characters 0-3, 4-9 and 10-11, cut to the field widths. */
    method ParseFields()
      requires raw.Length == RAW_SIZE
      modifies this
      ensures mfr == FrameMfr(raw[..]) && id == FrameId(raw[..]) && chk == FrameChk(raw[..])
      ensures valid == old(valid) && bytesRead == old(bytesRead) && uartIdAvailable == old(uartIdAvailable)
      ensures facilityCode == old(facilityCode) && cardCode == old(cardCode)
    {
      var text := raw[..];
      var m := Hex2Dec(text, 0, 3);
      var d := Hex2Dec(text, 4, 9);
      var c := Hex2Dec(text, 10, 11);
      mfr, id, chk := Low32(m), Low32(d), Low8(c);
    }

    /** The checksum loop of ETX: the XOR of the five hex pairs 0-1, 2-3, ..., 8-9. */
    method ComputeChecksum() returns (checksum: bv8)
      requires raw.Length == RAW_SIZE
      ensures checksum == FrameChecksum(raw[..])
    {
      var text := raw[..];
      checksum := 0;
      for i := 0 to 5
        invariant checksum == PairsXor(text, i)
      {
        var b := 2 * i;
        var pair := Hex2Dec(text, b, b + 1);
        checksum := checksum ^ Low8(pair);
      }
      PairsXorIsChecksum(text);
    }

    /** ETX: parse the three fields, check the XOR of the five pairs against chk, raise the flag. */
    method FinalizeFrame()
      requires Valid()
      modifies this
      ensures Valid() && UartView() == Finalize(old(UartView()))
      ensures facilityCode == old(facilityCode) && cardCode == old(cardCode)
    {
      ParseFields();
      var checksum := ComputeChecksum();
      if checksum == chk {
        valid := true;
      }
      uartIdAvailable := true;
      FinalizeOf(old(UartView()), UartView());
    }

    /** Any other byte: stored in the next slot while fewer than twelve are held. */
    method StoreChar(hex: bv8)
      requires Valid()
      modifies this, raw
      ensures Valid() && UartView() == Store(old(UartView()), hex)
      ensures facilityCode == old(facilityCode) && cardCode == old(cardCode)
    {
      if bytesRead < FRAME_CHARS {
        raw[bytesRead] := hex;
        bytesRead := bytesRead + 1;
      }
    }

    /**
     * prepareRFIDTagUART: one poll of the serial port, which has a byte or
     * not (input). At most one byte is consumed; the flag is returned.
     */
    method PrepareRfidTagUart(input: Option<bv8>) returns (avail: bool)
      requires Valid()
      modifies this, raw
      ensures Valid() && UartView() == Step(old(UartView()), input)
      ensures avail == uartIdAvailable
      ensures facilityCode == old(facilityCode) && cardCode == old(cardCode)
    {
      if input.Some? {
        var hex := input.value;
        if hex == STX {
          ClearFrame();
        } else if hex == ETX {
          FinalizeFrame();
        } else {
          StoreChar(hex);
        }
      }
      avail := uartIdAvailable;
    }

    // ----- Wiegand mode -----

    /** resetWiegand: empty the shared accumulator and zero the codes. */
    method ResetWiegand()
      modifies this, bus
      ensures bus.View() == Reset(old(bus.dataLen), old(bus.idAvailable))
      ensures facilityCode == 0 && cardCode == 0
      ensures TagView() == old(TagView())
      ensures bytesRead == old(bytesRead) && uartIdAvailable == old(uartIdAvailable)
    {
      bus.databits := 0;
      bus.bitCount := 0;
      facilityCode := 0;
      cardCode := 0;
    }

    /** The 26-bit branch of prepareRFIDTagWiegand. */
    method Prepare26()
      modifies this
      ensures cardCode == Card26(bus.databits)
      ensures mfr == facilityCode && id == cardCode && chk == 0 && valid == Parity26(bus.databits)
      ensures facilityCode == old(facilityCode)
      ensures bytesRead == old(bytesRead) && uartIdAvailable == old(uartIdAvailable)
    {
      cardCode := Card26(bus.databits);
      mfr := facilityCode;
      id := cardCode;
      chk := 0;
      valid := CheckParity26(bus.databits);
    }

    /** The 35-bit branch of prepareRFIDTagWiegand. */
    method Prepare35()
      modifies this
      ensures facilityCode == Facility35(bus.databits) && cardCode == Card35(bus.databits)
      ensures mfr == facilityCode && id == cardCode && chk == 0 && valid == Parity35(bus.databits)
      ensures bytesRead == old(bytesRead) && uartIdAvailable == old(uartIdAvailable)
    {
      facilityCode := Facility35(bus.databits);
      cardCode := Card35(bus.databits);
      mfr := facilityCode;
      id := cardCode;
      chk := 0;
      valid := CheckParity35(bus.databits);
    }

    /**
     * prepareRFIDTagWiegand: build the tag from the shared bits for the
     * configured length, and keep the codes it extracted.
     */
    method PrepareRfidTagWiegand()
      modifies this
      ensures TagView() == PrepareTag(bus.dataLen, bus.databits, old(facilityCode), old(TagView()))
      ensures bus.dataLen == W26BIT ==> facilityCode == old(facilityCode) && cardCode == id
      ensures bus.dataLen == W35BIT ==> facilityCode == mfr && cardCode == id
      ensures bus.dataLen != W26BIT && bus.dataLen != W35BIT ==>
                facilityCode == old(facilityCode) && cardCode == old(cardCode)
      ensures bytesRead == old(bytesRead) && uartIdAvailable == old(uartIdAvailable)
    {
      if bus.dataLen == W26BIT {
        Prepare26();
      } else if bus.dataLen == W35BIT {
        Prepare35();
      }
      PreparedOf(bus.dataLen, bus.databits, old(facilityCode), old(TagView()), TagView());
    }

    /** refreshWiegand: lower the shared flag, build the tag, then reset. */
    method RefreshWiegand()
      requires Valid()
      modifies this, bus
      ensures Valid()
      ensures TagView() == PrepareTag(old(bus.dataLen), old(bus.databits), old(facilityCode), old(TagView()))
      ensures bus.View() == Reset(old(bus.dataLen), false)
      ensures bytesRead == old(bytesRead) && uartIdAvailable == old(uartIdAvailable)
    {
      bus.idAvailable := false;
      PrepareRfidTagWiegand();
      ResetWiegand();
    }

    // ----- The public interface -----

    /**
     * available(): in UART mode one poll of the port; in Wiegand mode the
     * shared flag, and nothing changes.
     */
    method Available(input: Option<bv8>) returns (r: bool)
      requires Valid()
      modifies this, raw
      ensures Valid()
      ensures mode == Uart ==> UartView() == Step(old(UartView()), input) && r == uartIdAvailable
      ensures mode == Wiegand ==> r == bus.idAvailable && UartView() == old(UartView())
      ensures facilityCode == old(facilityCode) && cardCode == old(cardCode)
    {
      match mode
      case Uart =>
        r := PrepareRfidTagUart(input);
      case Wiegand =>
        r := bus.idAvailable;
    }

    /**
     * getTag(): in UART mode the tag as it stands, and only the flag is
     * lowered. In Wiegand mode the tag is rebuilt from the shared bits,
     * the shared state is emptied with its flag down, and the result is
     * the new tag.
     */
    method GetTag() returns (t: Tag)
      requires Valid()
      modifies this, bus
      ensures Valid() && t == TagView()
      ensures mode == Uart ==>
                && UartView() == old(UartView()).(available := false) && unchanged(bus)
                && facilityCode == old(facilityCode) && cardCode == old(cardCode)
      ensures mode == Wiegand ==>
                && t == PrepareTag(old(bus.dataLen), old(bus.databits), 0, old(TagView()))
                && bus.View() == Reset(old(bus.dataLen), false)
                && bytesRead == old(bytesRead) && uartIdAvailable == old(uartIdAvailable)
    {
      match mode
      case Uart =>
        uartIdAvailable := false;
        t := TagView();
      case Wiegand =>
        RefreshWiegand();
        t := TagView();
    }
  }
}
