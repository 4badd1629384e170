/**
 * The hex field parser (RFID::hex2dec, RFID.cpp:206-232).
 *
 * Characters are bytes. Each character becomes a nibble by byte arithmetic
 * that wraps modulo 256 (subtract 48, and 7 more when the result is above 9),
 * and the nibble is OR-ed, unmasked, into the accumulator shifted left by 4.
 */
module HexParser {

  /** The per-character transform of hex2dec, with its byte wrap-around. */
  function Nibble(c: bv8): bv8 {
    var h := c - 48;
    if h > 9 then h - 7 else h
  }

  /**
   * What hex2dec accumulates over the characters of s, first character
   * most significant: each step shifts left by 4 and ORs in the nibble.
   */
  function HexFold(s: seq<bv8>): bv64 {
    if |s| == 0 then 0 else (HexFold(s[..|s| - 1]) << 4) | (Nibble(s[|s| - 1]) as bv64)
  }

  lemma HexFoldSnoc(s: seq<bv8>, lo: nat, i: nat)
    requires lo <= i < |s|
    ensures HexFold(s[lo..i + 1]) == (HexFold(s[lo..i]) << 4) | (Nibble(s[i]) as bv64)
  {
    assert s[lo..i + 1][..i - lo] == s[lo..i];
  }

  /**
   * hex2dec(hexCode, start, end): parses hexCode[start..end] (both ends
   * inclusive). An empty range (start > end) gives 0. The source's loop
   * counter is a byte compared with end + 1, so end = 255 would never stop;
   * callers pass indices below 13.
   */
  method Hex2Dec(hexCode: seq<bv8>, start: nat, end: nat) returns (dec: bv64)
    requires end < |hexCode| && end < 255
    ensures start <= end ==> dec == HexFold(hexCode[start..end + 1])
    ensures start > end ==> dec == 0
  {
    dec := 0;
    var i := start;
    while i < end + 1
      invariant start <= end ==> start <= i <= end + 1 && dec == HexFold(hexCode[start..i])
      invariant start > end ==> i == start && dec == 0
    {
      var hex := Nibble(hexCode[i]);
      HexFoldSnoc(hexCode, start, i);
      dec := (dec << 4) | (hex as bv64);
      i := i + 1;
    }
  }

  // ----- Reference: the base-16 value of a string of hex digits -----

  /** ASCII '0'-'9' (48-57) and 'A'-'F' (65-70). */
  predicate IsHexDigit(c: bv8) {
    48 <= c <= 57 || 65 <= c <= 70
  }

  predicate AllHex(s: seq<bv8>) {
    forall i :: 0 <= i < |s| ==> IsHexDigit(s[i])
  }

  /** The value a hex digit denotes. */
  function DigitValue(c: bv8): bv8
    requires IsHexDigit(c)
  {
    if c <= 57 then c - 48 else c - 55
  }

  /**
   * The number a string of hex digits denotes, most significant digit
   * first: sixteen times the value of all but the last digit, plus the last.
   * (Multiplying by 16 is written as a shift by 4.)
   */
  function HexValue(s: seq<bv8>): bv64
    requires AllHex(s)
  {
    if |s| == 0 then 0 else (HexValue(s[..|s| - 1]) << 4) + DigitValue(s[|s| - 1]) as bv64
  }

  lemma NibbleOfDigit(c: bv8)
    requires IsHexDigit(c)
    ensures Nibble(c) == DigitValue(c)
  {
  }

  /**
   * On hex digits hex2dec computes the base-16 value (modulo 2^64, which is
   * exact for up to 16 digits).
   */
  lemma {:induction false} HexFoldIsHexValue(s: seq<bv8>)
    requires AllHex(s)
    ensures HexFold(s) == HexValue(s)
  {
    if |s| > 0 {
      HexFoldIsHexValue(s[..|s| - 1]);
      NibbleOfDigit(s[|s| - 1]);
    }
  }

  /** The characters 2 4 3 F B 8 7 D parse to 0x243FB87D. */
  lemma HexExample()
    ensures HexFold([50, 52, 51, 70, 66, 56, 55, 68]) == 0x243F_B87D
  {
    var s: seq<bv8> := [50, 52, 51, 70, 66, 56, 55, 68];
    assert s[0..0] == [] && s[0..8] == s;
    HexFoldSnoc(s, 0, 0);
    assert HexFold(s[0..1]) == 0x2;
    HexFoldSnoc(s, 0, 1);
    assert HexFold(s[0..2]) == 0x24;
    HexFoldSnoc(s, 0, 2);
    assert HexFold(s[0..3]) == 0x243;
    HexFoldSnoc(s, 0, 3);
    assert HexFold(s[0..4]) == 0x243F;
    HexFoldSnoc(s, 0, 4);
    assert HexFold(s[0..5]) == 0x243F_B;
    HexFoldSnoc(s, 0, 5);
    assert HexFold(s[0..6]) == 0x243F_B8;
    HexFoldSnoc(s, 0, 6);
    assert HexFold(s[0..7]) == 0x243F_B87;
    HexFoldSnoc(s, 0, 7);
    assert HexFold(s[0..8]) == 0x243F_B87D;
  }
}
