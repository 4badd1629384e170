/**
 * What the UART decoder promises over whole byte streams: a frame
 * STX, data, ETX decodes the same whatever came before it, keeps only its
 * first twelve characters, and never touches the terminator slot.
 */
module UartProps {
  import opened RfidTypes
  import opened HexParser
  import opened UartFrame

  /** No STX and no ETX among the bytes. */
  predicate NoControl(data: seq<bv8>) {
    forall i :: 0 <= i < |data| ==> data[i] != STX && data[i] != ETX
  }

  /** A stored prefix, padded with zeros to the thirteen slots. */
  function Padded(p: seq<bv8>): (r: seq<bv8>)
    requires |p| <= FRAME_CHARS
    ensures |r| == RAW_SIZE
  {
    p + Zeros(RAW_SIZE - |p|)
  }

  /** The characters a buffer holding p keeps after data arrives: the first twelve. */
  function Keep(p: seq<bv8>, data: seq<bv8>): (r: seq<bv8>)
    requires |p| <= FRAME_CHARS
    ensures |r| <= FRAME_CHARS
  {
    var q := p + data;
    if |q| <= FRAME_CHARS then q else q[..FRAME_CHARS]
  }

  /** The state s with exactly p stored (zeros after it) and the counter at |p|. */
  function Holding(s: UartState, p: seq<bv8>): (r: UartState)
    requires |p| <= FRAME_CHARS
    ensures WellFormed(r)
  {
    s.(tag := s.tag.(raw := Padded(p)), bytesRead := |p|)
  }

  lemma StoreHolding(s: UartState, p: seq<bv8>, b: bv8)
    requires |p| <= FRAME_CHARS
    ensures Store(Holding(s, p), b) == Holding(s, Keep(p, [b]))
  {
    if |p| < FRAME_CHARS {
      assert Padded(p)[|p| := b] == Padded(p + [b]);
    }
  }

  lemma KeepSnoc(p: seq<bv8>, b: bv8, rest: seq<bv8>)
    requires |p| <= FRAME_CHARS
    ensures Keep(Keep(p, [b]), rest) == Keep(p, [b] + rest)
  {
    assert p + [b] + rest == p + ([b] + rest);
    if |p| == FRAME_CHARS {
      assert (p + rest)[..FRAME_CHARS] == p;
      assert (p + ([b] + rest))[..FRAME_CHARS] == p;
    }
  }

  /**
   * Bytes other than STX and ETX are appended while fewer than twelve are
   * held and dropped after that; nothing else in the state changes.
   */
  lemma {:induction false} FeedData(s: UartState, p: seq<bv8>, data: seq<bv8>)
    requires |p| <= FRAME_CHARS && NoControl(data)
    ensures Feed(Holding(s, p), data) == Holding(s, Keep(p, data))
    decreases |data|
  {
    if |data| == 0 {
      assert p + data == p;
    } else {
      var b := data[0];
      StoreHolding(s, p, b);
      assert Step(Holding(s, p), Some(b)) == Holding(s, Keep(p, [b]));
      assert NoControl(data[1..]) by {
        forall i | 0 <= i < |data[1..]| ensures data[1..][i] != STX && data[1..][i] != ETX {
          assert data[1..][i] == data[i + 1];
        }
      }
      FeedData(s, Keep(p, [b]), data[1..]);
      KeepSnoc(p, b, data[1..]);
      assert [b] + data[1..] == data;
    }
  }

  /** Feeding two streams one after the other is feeding their concatenation. */
  lemma {:induction false} FeedConcat(s: UartState, a: seq<bv8>, b: seq<bv8>)
    requires WellFormed(s)
    ensures Feed(s, a + b) == Feed(Feed(s, a), b)
    decreases |a|
  {
    if |a| > 0 {
      assert (a + b)[0] == a[0];
      assert (a + b)[1..] == a[1..] + b;
      FeedConcat(Step(s, Some(a[0])), a[1..], b);
    } else {
      assert a + b == b;
    }
  }

  /**
   * A frame STX, data, ETX. The result does not depend on the state before
   * it: STX discards everything. Only the first twelve data characters are
   * kept, slot 12 stays 0, the fields are parsed from the kept characters,
   * valid says whether the checksum matches, and the flag is raised.
   */
  lemma FrameDecodes(s: UartState, data: seq<bv8>)
    requires WellFormed(s) && NoControl(data)
    ensures var r := Feed(s, [STX] + data + [ETX]);
            var raw := Padded(Keep([], data));
            && r.tag.raw == raw
            && r.bytesRead == |Keep([], data)|
            && raw[FRAME_CHARS] == 0
            && r.tag.mfr == Low32(HexFold(raw[0..4]))
            && r.tag.id == Low32(HexFold(raw[4..10]))
            && r.tag.chk == Low8(HexFold(raw[10..12]))
            && (r.tag.valid <==> FrameChecksum(raw) == r.tag.chk)
            && r.available
  {
    FeedConcat(s, [STX] + data, [ETX]);
    FeedConcat(s, [STX], data);
    assert Feed(s, [STX]) == Blank();
    assert Blank() == Holding(Blank(), []);
    FeedData(Blank(), [], data);
  }

  /** Once slot 12 holds 0, no stream of bytes changes it. */
  lemma {:induction false} TerminatorKept(s: UartState, bytes: seq<bv8>)
    requires WellFormed(s) && s.tag.raw[FRAME_CHARS] == 0
    ensures Feed(s, bytes).tag.raw[FRAME_CHARS] == 0
    decreases |bytes|
  {
    if |bytes| > 0 {
      TerminatorKept(Step(s, Some(bytes[0])), bytes[1..]);
    }
  }

  /** A failed check on ETX never clears an earlier success. */
  lemma EtxKeepsValid(s: UartState)
    requires WellFormed(s)
    ensures Finalize(s).tag.valid == (s.tag.valid || FrameChecksum(s.tag.raw) == Finalize(s).tag.chk)
    ensures Finalize(s).available
  {
  }
}
