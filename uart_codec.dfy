/**
 * The UART wire format from the writer's side: a 16-bit facility code and a
 * 24-bit id become ten upper-case hex digits, followed by the two digits of
 * the XOR of their five bytes. A frame built this way decodes back to the
 * code and the id with the check passed, from any decoder state. Conversely, hex digits decode to fields of
 * at most 16 and 24 bits.
 */
module UartCodec {
  import opened RfidTypes
  import opened HexParser
  import opened UartFrame
  import opened UartProps

  /** The upper-case hex digit of a nibble. */
  function HexChar(v: bv8): bv8
    requires v < 16
  {
    if v < 10 then 48 + v else 55 + v
  }

  /** The two hex digits of a byte, high nibble first. */
  function ByteDigits(b: bv8): seq<bv8> {
    [HexChar(b >> 4), HexChar(b & 0xF)]
  }

  /** The twelve hex digits of six bytes, two per byte, in order. */
  function Digits6(v: seq<bv8>): (r: seq<bv8>)
    requires |v| == 6
    ensures |r| == FRAME_CHARS
  {
    ByteDigits(v[0]) + ByteDigits(v[1]) + ByteDigits(v[2])
      + ByteDigits(v[3]) + ByteDigits(v[4]) + ByteDigits(v[5])
  }

  /** The five bytes of F‖I, most significant first. */
  function FrameBytes(f: bv16, i: bv24): seq<bv8> {
    [(f >> 8) as bv8, (f & 0xFF) as bv8,
     (i >> 16) as bv8, ((i >> 8) & 0xFF) as bv8, (i & 0xFF) as bv8]
  }

  function XorBytes(b: seq<bv8>): bv8
    requires |b| == 5
  {
    b[0] ^ b[1] ^ b[2] ^ b[3] ^ b[4]
  }

  /** The bytes of a frame: F‖I and their XOR. */
  function FrameWithCheck(f: bv16, i: bv24): (r: seq<bv8>)
    ensures |r| == 6
  {
    FrameBytes(f, i) + [XorBytes(FrameBytes(f, i))]
  }

  /** The twelve characters between STX and ETX for facility f and id i. */
  function EncodeFrame(f: bv16, i: bv24): (r: seq<bv8>)
    ensures |r| == FRAME_CHARS
  {
    Digits6(FrameWithCheck(f, i))
  }

  /** Appends byte b below the bytes of h. */
  function Push(h: bv64, b: bv8): bv64 {
    (h << 8) | (b as bv64)
  }

  // ----- Facts about single digits and bytes -----

  lemma NibbleOfHexChar(v: bv8)
    requires v < 16
    ensures IsHexDigit(HexChar(v)) && Nibble(HexChar(v)) == v
  {
  }

  lemma HexCharOfNibble(c: bv8)
    requires IsHexDigit(c)
    ensures Nibble(c) < 16 && HexChar(Nibble(c)) == c
  {
  }

  lemma HexFoldAppend2(x: seq<bv8>, c1: bv8, c2: bv8)
    ensures HexFold(x + [c1, c2])
         == (((HexFold(x) << 4) | (Nibble(c1) as bv64)) << 4) | (Nibble(c2) as bv64)
  {
    assert (x + [c1, c2])[..|x| + 1] == x + [c1];
    assert (x + [c1])[..|x|] == x;
  }

  lemma JoinNibbles(h: bv64, b: bv8)
    ensures (((h << 4) | ((b >> 4) as bv64)) << 4) | ((b & 0xF) as bv64) == Push(h, b)
  {
  }

  /** Appending the two digits of b shifts the parsed value by a byte and ORs in b. */
  lemma HexFoldByte(x: seq<bv8>, b: bv8)
    ensures HexFold(x + ByteDigits(b)) == Push(HexFold(x), b)
  {
    NibbleOfHexChar(b >> 4);
    NibbleOfHexChar(b & 0xF);
    HexFoldAppend2(x, HexChar(b >> 4), HexChar(b & 0xF));
    JoinNibbles(HexFold(x), b);
  }

  lemma LowByte(b: bv8)
    ensures Low8(Push(0, b)) == b
  {
  }

  /** The value parsed from the two digits of b, as a byte, is b. */
  lemma PairOfByte(b: bv8)
    ensures Low8(HexFold(ByteDigits(b))) == b
  {
    HexFoldByte([], b);
    assert [] + ByteDigits(b) == ByteDigits(b);
    LowByte(b);
  }

  /** The digits of two bytes parse to the two bytes joined. */
  lemma HexFoldTwo(a: bv8, b: bv8)
    ensures HexFold(ByteDigits(a) + ByteDigits(b)) == Push(Push(0, a), b)
  {
    HexFoldByte([], a);
    assert [] + ByteDigits(a) == ByteDigits(a);
    HexFoldByte(ByteDigits(a), b);
  }

  /** The digits of three bytes parse to the three bytes joined. */
  lemma HexFoldThree(a: bv8, b: bv8, c: bv8)
    ensures HexFold(ByteDigits(a) + ByteDigits(b) + ByteDigits(c)) == Push(Push(Push(0, a), b), c)
  {
    HexFoldTwo(a, b);
    HexFoldByte(ByteDigits(a) + ByteDigits(b), c);
  }

  lemma JoinShort(f: bv16)
    ensures Low32(Push(Push(0, (f >> 8) as bv8), (f & 0xFF) as bv8)) == f as bv32
  {
  }

  lemma JoinId(i: bv24)
    ensures Low32(Push(Push(Push(0, (i >> 16) as bv8), ((i >> 8) & 0xFF) as bv8), (i & 0xFF) as bv8))
         == i as bv32
  {
  }

  // ----- Facts about digit strings -----

  /** Where the six two-element pieces of a concatenation sit. */
  lemma SixPieces<T>(p0: seq<T>, p1: seq<T>, p2: seq<T>, p3: seq<T>, p4: seq<T>, p5: seq<T>, z: seq<T>)
    requires |p0| == 2 && |p1| == 2 && |p2| == 2 && |p3| == 2 && |p4| == 2 && |p5| == 2
    ensures var r := p0 + p1 + p2 + p3 + p4 + p5 + z;
            && r[0..2] == p0 && r[2..4] == p1 && r[4..6] == p2 && r[6..8] == p3
            && r[8..10] == p4 && r[10..12] == p5
            && r[0..4] == p0 + p1 && r[4..10] == p2 + p3 + p4
  {
  }

  lemma DigitsNoControl(b: bv8)
    ensures NoControl(ByteDigits(b))
  {
    NibbleOfHexChar(b >> 4);
    NibbleOfHexChar(b & 0xF);
  }

  lemma NoControlConcat(x: seq<bv8>, y: seq<bv8>)
    requires NoControl(x) && NoControl(y)
    ensures NoControl(x + y)
  {
    forall k | 0 <= k < |x + y| ensures (x + y)[k] != STX && (x + y)[k] != ETX {
      if k < |x| {
        assert (x + y)[k] == x[k];
      } else {
        assert (x + y)[k] == y[k - |x|];
      }
    }
  }

  /** The digits of six bytes are never STX or ETX. */
  lemma DigitsAreData(v: seq<bv8>)
    requires |v| == 6
    ensures NoControl(Digits6(v))
  {
    var d0, d1, d2 := ByteDigits(v[0]), ByteDigits(v[1]), ByteDigits(v[2]);
    var d3, d4, d5 := ByteDigits(v[3]), ByteDigits(v[4]), ByteDigits(v[5]);
    DigitsNoControl(v[0]);
    DigitsNoControl(v[1]);
    DigitsNoControl(v[2]);
    DigitsNoControl(v[3]);
    DigitsNoControl(v[4]);
    DigitsNoControl(v[5]);
    NoControlConcat(d0, d1);
    NoControlConcat(d0 + d1, d2);
    NoControlConcat(d0 + d1 + d2, d3);
    NoControlConcat(d0 + d1 + d2 + d3, d4);
    NoControlConcat(d0 + d1 + d2 + d3 + d4, d5);
  }

  /**
   * The slots of the digits of six bytes followed by the terminator: the
   * facility digits, the id digits and each pair.
   */
  lemma SixLayout(v: seq<bv8>)
    requires |v| == 6
    ensures var raw := Digits6(v) + [0];
            && raw[0..4] == ByteDigits(v[0]) + ByteDigits(v[1])
            && raw[4..10] == ByteDigits(v[2]) + ByteDigits(v[3]) + ByteDigits(v[4])
            && raw[0..2] == ByteDigits(v[0]) && raw[2..4] == ByteDigits(v[1])
            && raw[4..6] == ByteDigits(v[2]) && raw[6..8] == ByteDigits(v[3])
            && raw[8..10] == ByteDigits(v[4]) && raw[10..12] == ByteDigits(v[5])
  {
    SixPieces(ByteDigits(v[0]), ByteDigits(v[1]), ByteDigits(v[2]),
              ByteDigits(v[3]), ByteDigits(v[4]), ByteDigits(v[5]), [0]);
  }

  // ----- The fields of the digits of six bytes -----

  lemma SixFields(v: seq<bv8>)
    requires |v| == 6
    ensures var raw := Digits6(v) + [0];
            && HexFold(raw[0..4]) == Push(Push(0, v[0]), v[1])
            && HexFold(raw[4..10]) == Push(Push(Push(0, v[2]), v[3]), v[4])
  {
    SixLayout(v);
    HexFoldTwo(v[0], v[1]);
    HexFoldThree(v[2], v[3], v[4]);
  }

  lemma SixChecksum(v: seq<bv8>)
    requires |v| == 6
    ensures var raw := Digits6(v) + [0];
            && |raw| == RAW_SIZE
            && FrameChecksum(raw) == XorBytes(v[..5])
            && Low8(HexFold(raw[10..12])) == v[5]
  {
    SixLayout(v);
    PairOfByte(v[0]);
    PairOfByte(v[1]);
    PairOfByte(v[2]);
    PairOfByte(v[3]);
    PairOfByte(v[4]);
    PairOfByte(v[5]);
  }

  /** A frame whose characters are the digits of six bytes v, decoded. */
  lemma SixDecodes(s: UartState, v: seq<bv8>)
    requires WellFormed(s) && |v| == 6
    ensures var r := Feed(s, [STX] + Digits6(v) + [ETX]);
            && r.tag.mfr == Low32(Push(Push(0, v[0]), v[1]))
            && r.tag.id == Low32(Push(Push(Push(0, v[2]), v[3]), v[4]))
            && r.tag.chk == v[5]
            && (r.tag.valid <==> XorBytes(v[..5]) == v[5])
            && r.available
  {
    DigitsAreData(v);
    FrameDecodes(s, Digits6(v));
    assert Keep([], Digits6(v)) == Digits6(v);
    assert Padded(Digits6(v)) == Digits6(v) + [0];
    SixFields(v);
    SixChecksum(v);
  }

  // ----- Encode, then decode -----

  /**
   * Any facility code F and id I, framed by the wire format, decode to F and
   * I with the check passed, whatever state the decoder was in.
   */
  lemma EncodeThenDecode(s: UartState, f: bv16, i: bv24)
    requires WellFormed(s)
    ensures var r := Feed(s, [STX] + EncodeFrame(f, i) + [ETX]);
            && r.tag.mfr == f as bv32
            && r.tag.id == i as bv32
            && r.tag.chk == XorBytes(FrameBytes(f, i))
            && r.tag.valid
            && r.available
  {
    var v := FrameWithCheck(f, i);
    SixDecodes(s, v);
    assert v[..5] == FrameBytes(f, i);
    JoinShort(f);
    JoinId(i);
  }

  // ----- Decode, then encode -----

  /** The byte two hex digits denote, the first one high. */
  function PairByte(hi: bv8, lo: bv8): bv8
    requires IsHexDigit(hi) && IsHexDigit(lo)
  {
    (Nibble(hi) << 4) | Nibble(lo)
  }

  /** Two hex digits are the digits of the byte they denote. */
  lemma PairDigits(hi: bv8, lo: bv8)
    requires IsHexDigit(hi) && IsHexDigit(lo)
    ensures ByteDigits(PairByte(hi, lo)) == [hi, lo]
  {
    HexCharOfNibble(hi);
    HexCharOfNibble(lo);
    var b := PairByte(hi, lo);
    assert b >> 4 == Nibble(hi) && b & 0xF == Nibble(lo);
  }

  /** The six bytes twelve hex digits denote. */
  function FrameValues(data: seq<bv8>): (v: seq<bv8>)
    requires |data| == FRAME_CHARS && AllHex(data)
    ensures |v| == 6
  {
    [PairByte(data[0], data[1]), PairByte(data[2], data[3]), PairByte(data[4], data[5]),
     PairByte(data[6], data[7]), PairByte(data[8], data[9]), PairByte(data[10], data[11])]
  }

  lemma SixSplit<T>(r: seq<T>)
    requires |r| == 12
    ensures r == [r[0], r[1]] + [r[2], r[3]] + [r[4], r[5]] + [r[6], r[7]] + [r[8], r[9]] + [r[10], r[11]]
  {
  }

  /** Twelve hex digits are the digits of the six bytes they denote. */
  lemma HexIsDigits(data: seq<bv8>)
    requires |data| == FRAME_CHARS && AllHex(data)
    ensures Digits6(FrameValues(data)) == data
  {
    PairDigits(data[0], data[1]);
    PairDigits(data[2], data[3]);
    PairDigits(data[4], data[5]);
    PairDigits(data[6], data[7]);
    PairDigits(data[8], data[9]);
    PairDigits(data[10], data[11]);
    SixSplit(data);
  }

  /** A frame of twelve hex digits, decoded: the fields are the bytes they denote. */
  lemma HexFrameDecodes(s: UartState, data: seq<bv8>)
    requires WellFormed(s) && |data| == FRAME_CHARS && AllHex(data)
    ensures var v := FrameValues(data);
            var r := Feed(s, [STX] + data + [ETX]);
            && r.tag.mfr == Low32(Push(Push(0, v[0]), v[1]))
            && r.tag.id == Low32(Push(Push(Push(0, v[2]), v[3]), v[4]))
            && r.tag.chk == v[5]
            && (r.tag.valid <==> XorBytes(v[..5]) == v[5])
            && r.available
  {
    HexIsDigits(data);
    SixDecodes(s, FrameValues(data));
  }

  lemma ShortWidth(a: bv8, b: bv8)
    ensures Low32(Push(Push(0, a), b)) < 0x1_0000
  {
  }

  lemma IdWidth(a: bv8, b: bv8, c: bv8)
    ensures Low32(Push(Push(Push(0, a), b), c)) < 0x100_0000
  {
  }

  /**
   * A frame of twelve hex digits gives a facility code that fits 16 bits and
   * an id that fits 24 bits (the checksum is a byte by type).
   */
  lemma FieldWidths(s: UartState, data: seq<bv8>)
    requires WellFormed(s) && |data| == FRAME_CHARS && AllHex(data)
    ensures var r := Feed(s, [STX] + data + [ETX]);
            r.tag.mfr < 0x1_0000 && r.tag.id < 0x100_0000
  {
    var v := FrameValues(data);
    HexFrameDecodes(s, data);
    ShortWidth(v[0], v[1]);
    IdWidth(v[2], v[3], v[4]);
  }

  /** A 16-bit code built from two bytes, and the bytes it splits back into. */
  lemma ShortJoin(a: bv8, b: bv8)
    ensures var f := ((a as bv16) << 8) | (b as bv16);
            f as bv32 == Low32(Push(Push(0, a), b)) && (f >> 8) as bv8 == a && (f & 0xFF) as bv8 == b
  {
  }

  /** A 24-bit id built from three bytes, and the bytes it splits back into. */
  lemma IdJoin(a: bv8, b: bv8, c: bv8)
    ensures var i := ((((a as bv24) << 8) | (b as bv24)) << 8) | (c as bv24);
            && i as bv32 == Low32(Push(Push(Push(0, a), b), c))
            && (i >> 16) as bv8 == a && ((i >> 8) & 0xFF) as bv8 == b && (i & 0xFF) as bv8 == c
  {
  }

  /**
   * Six bytes whose last is the XOR of the others are the frame of a 16-bit
   * code and a 24-bit id that widen to the fields the bytes join to.
   */
  lemma FrameOfBytes(a: bv8, b: bv8, c: bv8, d: bv8, e: bv8, x: bv8)
    requires a ^ b ^ c ^ d ^ e == x
    ensures exists f: bv16, i: bv24 :: && f as bv32 == Low32(Push(Push(0, a), b))
                                       && i as bv32 == Low32(Push(Push(Push(0, c), d), e))
                                       && FrameWithCheck(f, i) == [a, b, c, d, e, x]
                                       && EncodeFrame(f, i) == Digits6([a, b, c, d, e, x])
  {
    var f := ((a as bv16) << 8) | (b as bv16);
    var i := ((((c as bv24) << 8) | (d as bv24)) << 8) | (e as bv24);
    ShortJoin(a, b);
    IdJoin(c, d, e);
    assert FrameWithCheck(f, i) == [a, b, c, d, e, x];
  }

  /** The same, stated for the characters of the frame. */
  lemma FrameOfDigits(v: seq<bv8>)
    requires |v| == 6 && XorBytes(v[..5]) == v[5]
    ensures exists f: bv16, i: bv24 :: && f as bv32 == Low32(Push(Push(0, v[0]), v[1]))
                                       && i as bv32 == Low32(Push(Push(Push(0, v[2]), v[3]), v[4]))
                                       && EncodeFrame(f, i) == Digits6(v)
  {
    assert v[..5] == [v[0], v[1], v[2], v[3], v[4]];
    assert v == [v[0], v[1], v[2], v[3], v[4], v[5]];
    FrameOfBytes(v[0], v[1], v[2], v[3], v[4], v[5]);
  }

  /** The digits of six bytes whose check passes are the wire format of the fields they decode to. */
  lemma SixReencodes(s: UartState, v: seq<bv8>)
    requires WellFormed(s) && |v| == 6
    ensures var r := Feed(s, [STX] + Digits6(v) + [ETX]);
            r.tag.valid ==> exists f: bv16, i: bv24 :: && r.tag.mfr == f as bv32 && r.tag.id == i as bv32
                                                      && Digits6(v) == EncodeFrame(f, i)
  {
    SixDecodes(s, v);
    if XorBytes(v[..5]) == v[5] {
      FrameOfDigits(v);
    }
  }

  /**
   * A frame of twelve hex digits whose check passes is exactly the wire
   * format of the facility code and id it decodes to.
   */
  lemma DecodeThenEncode(s: UartState, data: seq<bv8>)
    requires WellFormed(s) && |data| == FRAME_CHARS && AllHex(data)
    ensures var r := Feed(s, [STX] + data + [ETX]);
            r.tag.valid ==> exists f: bv16, i: bv24 :: && r.tag.mfr == f as bv32 && r.tag.id == i as bv32
                                                      && data == EncodeFrame(f, i)
  {
    HexIsDigits(data);
    SixReencodes(s, FrameValues(data));
  }

  // ----- Worked examples -----

  /** The characters 0 0 1 0 0 0 1 1 2 2 2 3. */
  function ExampleData(): seq<bv8> {
    [48, 48, 49, 48, 48, 48, 49, 49, 50, 50, 50, 51]
  }

  lemma ExampleIsEncoded()
    ensures ExampleData() == EncodeFrame(0x0010, 0x001122)
  {
    assert FrameWithCheck(0x0010, 0x001122) == [0x00, 0x10, 0x00, 0x11, 0x22, 0x23];
    assert ByteDigits(0x00) == [48, 48] && ByteDigits(0x10) == [49, 48] && ByteDigits(0x11) == [49, 49];
    assert ByteDigits(0x22) == [50, 50] && ByteDigits(0x23) == [50, 51];
  }

  /** Facility 16, id 4386, checksum 0x23 = 0x00 ^ 0x10 ^ 0x00 ^ 0x11 ^ 0x22, check passed. */
  lemma ExampleFrame(s: UartState)
    requires WellFormed(s)
    ensures var r := Feed(s, [STX] + ExampleData() + [ETX]);
            r.tag.mfr == 0x10 && r.tag.id == 0x1122 && r.tag.chk == 0x23 && r.tag.valid
  {
    ExampleIsEncoded();
    EncodeThenDecode(s, 0x0010, 0x001122);
  }

  /** The characters of the example with its checksum digits replaced by 0 0. */
  function MismatchData(): seq<bv8> {
    ExampleData()[..10] + [48, 48]
  }

  /**
   * The same frame with its checksum digits replaced by 0 0: the same fields,
   * checksum 0, check failed.
   */
  lemma ExampleMismatch(s: UartState)
    requires WellFormed(s)
    ensures var r := Feed(s, [STX] + MismatchData() + [ETX]);
            r.tag.mfr == 0x10 && r.tag.id == 0x1122 && r.tag.chk == 0 && !r.tag.valid
  {
    var v: seq<bv8> := [0x00, 0x10, 0x00, 0x11, 0x22, 0x00];
    assert ByteDigits(0x00) == [48, 48] && ByteDigits(0x10) == [49, 48] && ByteDigits(0x11) == [49, 49];
    assert ByteDigits(0x22) == [50, 50];
    assert Digits6(v) == MismatchData();
    SixDecodes(s, v);
  }
}
