/**
 * The UART frame decoder as a state machine over values
 * (RFID::prepareRFIDTagUART, RFID.cpp:118-200).
 *
 * One step consumes at most one byte. STX resets the frame, ETX parses the
 * twelve stored characters and checks the XOR checksum, and any other byte
 * is stored while fewer than twelve are held. There is no "inside a frame"
 * flag: bytes before the first STX or after an ETX are stored the same way.
 */
module UartFrame {
  import opened RfidTypes
  import opened HexParser

  /** The per-instance UART state: the tag being built, the byte counter and the flag. */
  datatype UartState = UartState(tag: Tag, bytesRead: nat, available: bool)

  /** Thirteen slots, at most twelve of them filled. */
  predicate WellFormed(s: UartState) {
    |s.tag.raw| == RAW_SIZE && s.bytesRead <= FRAME_CHARS
  }

  function Zeros(n: nat): (z: seq<bv8>)
    ensures |z| == n && forall i :: 0 <= i < n ==> z[i] == 0
  {
    seq(n, _ => 0)
  }

  /** The state an STX leaves, whatever came before. */
  function Blank(): UartState {
    UartState(Tag(0, 0, 0, false, Zeros(RAW_SIZE)), 0, false)
  }

  /** The value of the hex pair raw[2i], raw[2i + 1], as a byte. */
  function Pair(raw: seq<bv8>, i: nat): bv8
    requires |raw| == RAW_SIZE && i < 5
  {
    Low8(HexFold(raw[2 * i..2 * i + 2]))
  }

  /** The checksum a frame should carry: the XOR of its first five hex pairs. */
  function FrameChecksum(raw: seq<bv8>): bv8
    requires |raw| == RAW_SIZE
  {
    Pair(raw, 0) ^ Pair(raw, 1) ^ Pair(raw, 2) ^ Pair(raw, 3) ^ Pair(raw, 4)
  }

  /** The manufacturer field: characters 0-3, cut to 32 bits. */
  function FrameMfr(raw: seq<bv8>): bv32
    requires |raw| == RAW_SIZE
  {
    Low32(HexFold(raw[0..4]))
  }

  /** The id field: characters 4-9, cut to 32 bits. */
  function FrameId(raw: seq<bv8>): bv32
    requires |raw| == RAW_SIZE
  {
    Low32(HexFold(raw[4..10]))
  }

  /** The checksum field: characters 10-11, cut to a byte. */
  function FrameChk(raw: seq<bv8>): bv8
    requires |raw| == RAW_SIZE
  {
    Low8(HexFold(raw[10..12]))
  }

  /** What ETX does: parse the fields, set `valid` if the checksum matches, raise the flag. */
  function Finalize(s: UartState): (r: UartState)
    requires WellFormed(s)
    ensures WellFormed(r)
  {
    var raw := s.tag.raw;
    var chk := FrameChk(raw);
    var valid := if FrameChecksum(raw) == chk then true else s.tag.valid;
    UartState(Tag(FrameMfr(raw), FrameId(raw), chk, valid, raw), s.bytesRead, true)
  }

  /** What any other byte does: store it while fewer than twelve are held. */
  function Store(s: UartState, b: bv8): (r: UartState)
    requires WellFormed(s)
    ensures WellFormed(r)
  {
    if s.bytesRead < FRAME_CHARS then
      UartState(s.tag.(raw := s.tag.raw[s.bytesRead := b]), s.bytesRead + 1, s.available)
    else
      s
  }

  /** One poll: None when the transport has no byte. */
  function Step(s: UartState, input: Option<bv8>): (r: UartState)
    requires WellFormed(s)
    ensures WellFormed(r)
  {
    match input
    case None => s
    case Some(b) =>
      if b == STX then Blank()
      else if b == ETX then Finalize(s)
      else Store(s, b)
  }

  /** Steps over a sequence of bytes, each one available in turn. */
  function Feed(s: UartState, bytes: seq<bv8>): (r: UartState)
    requires WellFormed(s)
    ensures WellFormed(r)
    decreases |bytes|
  {
    if |bytes| == 0 then s else Feed(Step(s, Some(bytes[0])), bytes[1..])
  }
}
