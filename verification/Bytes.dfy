/**
 * Bytes and little-endian 16-bit words, as the firmware stores them with shifts
 * and masks and as the server reads them through a DataView.
 */
module Bytes {
  type Byte = x: int | 0 <= x < 0x100
  type U16 = x: int | 0 <= x < 0x1_0000
  type I16 = x: int | -0x8000 <= x < 0x8000

  /** The C cast (uint16_t) of an int16_t. */
  function ToU16(v: I16): U16 {
    if v < 0 then v + 0x1_0000 else v
  }

  /** The C cast (int16_t) of a uint16_t; also DataView.getInt16 of the same bytes. */
  function ToI16(v: U16): (r: I16)
    ensures ToU16(r) == v
  {
    if v < 0x8000 then v else v - 0x1_0000
  }

  function ReadLe16(b: seq<Byte>, at: nat): U16
    requires at + 2 <= |b|
  {
    b[at] as int + 0x100 * b[at + 1] as int
  }

  /** Three words in a row: the settings in a report and in a flash record. */
  function ThreeWords(w0: U16, w1: U16, w2: U16): (b: seq<Byte>)
    ensures |b| == 6
  {
    [w0 % 0x100, w0 / 0x100, w1 % 0x100, w1 / 0x100, w2 % 0x100, w2 / 0x100]
  }

  lemma ThreeWordsRead(head: seq<Byte>, w0: U16, w1: U16, w2: U16)
    ensures
      var (b, n) := (head + ThreeWords(w0, w1, w2), |head|);
      ReadLe16(b, n) == w0 && ReadLe16(b, n + 2) == w1 && ReadLe16(b, n + 4) == w2
  {
  }

  /** Six words and a flag byte: the layout of an uplink payload. */
  function SixWords(w0: U16, w1: U16, w2: U16, w3: U16, w4: U16, w5: U16, flags: Byte): (b: seq<Byte>)
    ensures |b| == 13
  {
    [w0 % 0x100, w0 / 0x100, w1 % 0x100, w1 / 0x100, w2 % 0x100, w2 / 0x100,
     w3 % 0x100, w3 / 0x100, w4 % 0x100, w4 / 0x100, w5 % 0x100, w5 / 0x100, flags]
  }

  lemma SixWordsRead(w0: U16, w1: U16, w2: U16, w3: U16, w4: U16, w5: U16, flags: Byte)
    ensures
      var b := SixWords(w0, w1, w2, w3, w4, w5, flags);
      && ReadLe16(b, 0) == w0 && ReadLe16(b, 2) == w1 && ReadLe16(b, 4) == w2
      && ReadLe16(b, 6) == w3 && ReadLe16(b, 8) == w4 && ReadLe16(b, 10) == w5 && b[12] == flags
  {
  }

  lemma WordSplits(lo: Byte, hi: Byte)
    ensures (lo as int + 0x100 * hi as int) % 0x100 == lo && (lo as int + 0x100 * hi as int) / 0x100 == hi
  {
  }

  lemma SixWordsDetermine(b: seq<Byte>)
    requires |b| == 13
    ensures b == SixWords(ReadLe16(b, 0), ReadLe16(b, 2), ReadLe16(b, 4),
                          ReadLe16(b, 6), ReadLe16(b, 8), ReadLe16(b, 10), b[12])
  {
    WordSplits(b[0], b[1]);
    WordSplits(b[2], b[3]);
    WordSplits(b[4], b[5]);
    WordSplits(b[6], b[7]);
    WordSplits(b[8], b[9]);
    WordSplits(b[10], b[11]);
  }

  /** `put_u16`: two bytes of a buffer are written, the rest is kept. */
  method PutU16(p: array<Byte>, at: nat, v: U16)
    requires at + 2 <= p.Length
    modifies p
    ensures p[at] == v % 0x100 && p[at + 1] == v / 0x100
    ensures forall i :: 0 <= i < p.Length && i != at && i != at + 1 ==> p[i] == old(p[i])
  {
    p[at] := v % 0x100;
    p[at + 1] := v / 0x100;
  }
}
