/**
 * Base64 as the host build prints payloads (firmware/sim/main.c) and as section 4
 * of RFC 4648 defines it. A text is a sequence of digits 0..63, with 64 for the
 * padding, written in the RFC's alphabet.
 */
module Base64 {
  import opened Bytes
  import opened Options

  type Sextet = x: int | 0 <= x < 64
  type Digit = x: int | 0 <= x <= 64

  const PADDING: Digit := 64

  // ------------------------- Bytes and their digits -------------------------

  type Word = x: int | 0 <= x < 0x100_0000

  /** Three bytes in 24 bits, and back. */
  function Pack(b0: Byte, b1: Byte, b2: Byte): Word {
    b0 as int * 0x1_0000 + b1 as int * 0x100 + b2 as int
  }

  function Unpack(n: Word): (t: seq<Byte>)
    ensures |t| == 3
  {
    [n as int / 0x1_0000, n as int / 0x100 % 0x100, n as int % 0x100]
  }

  /** Four sextets in 24 bits, and back; the masks are those of the encoder. */
  function Join(a: Sextet, b: Sextet, c: Sextet, d: Sextet): Word {
    ((a as int * 64 + b as int) * 64 + c as int) * 64 + d as int
  }

  function Quad(n: Word): (q: seq<Sextet>)
    ensures |q| == 4
  {
    [n as int / 0x4_0000 % 64, n as int / 0x1000 % 64, n as int / 0x40 % 64, n as int % 64]
  }

  lemma Split(q: int, r: int, k: int)
    requires k in {0x40, 0x100, 0x1000, 0x1_0000, 0x4_0000} && 0 <= r < k
    ensures (q * k + r) / k == q && (q * k + r) % k == r
  {
    if k == 0x40 {
    } else if k == 0x100 {
    } else if k == 0x1000 {
    } else if k == 0x1_0000 {
    } else {
    }
  }

  lemma UnpackUndoesPack(b0: Byte, b1: Byte, b2: Byte)
    ensures Unpack(Pack(b0, b1, b2)) == [b0, b1, b2]
  {
    Split(b0, b1 as int * 0x100 + b2 as int, 0x1_0000);
    Split(b0 as int * 0x100 + b1 as int, b2, 0x100);
    Split(b0, b1, 0x100);
  }

  lemma PackUndoesUnpack(n: Word)
    ensures Pack(Unpack(n)[0], Unpack(n)[1], Unpack(n)[2]) == n
  {
  }

  lemma QuadUndoesJoin(a: Sextet, b: Sextet, c: Sextet, d: Sextet)
    ensures Quad(Join(a, b, c, d)) == [a, b, c, d]
  {
    var (p, q, r, t) := (a as int, b as int, c as int, d as int);
    Split(p, (q * 64 + r) * 64 + t, 0x4_0000);
    Split(p * 64 + q, r * 64 + t, 0x1000);
    Split((p * 64 + q) * 64 + r, t, 0x40);
    Split(p * 64 + q, r, 0x40);
    Split(p, q, 0x40);
  }

  lemma JoinUndoesQuad(n: Word)
    ensures Join(Quad(n)[0], Quad(n)[1], Quad(n)[2], Quad(n)[3]) == n
  {
    var m := n as int;
    assert m / 0x1000 == m / 0x40 / 0x40 && m / 0x4_0000 == m / 0x1000 / 0x40;
  }

  /** Without the last byte the last sextet is zero; without the last two, so is the third. */
  lemma ZeroSextets(b0: Byte, b1: Byte)
    ensures Quad(Pack(b0, b1, 0))[3] == 0
    ensures Quad(Pack(b0, 0, 0))[2] == 0
  {
    Split(b0 as int * 0x400 + b1 as int * 4, 0, 0x40);
    Split(b0 as int * 0x400, 0, 0x40);
    Split(b0 as int * 0x10, 0, 0x40);
  }

  /** The byte at `i`, or the zero bits that fill up the last quad. */
  function At(b: seq<Byte>, i: nat): Byte {
    if i < |b| then b[i] else 0
  }

  function Digits(b: seq<Byte>): seq<Digit> {
    if b == [] then []
    else
      var q := Quad(Pack(b[0], At(b, 1), At(b, 2)));
      if |b| == 1 then [q[0], q[1], PADDING, PADDING]
      else if |b| == 2 then [q[0], q[1], q[2], PADDING]
      else q + Digits(b[3..])
  }

  /** Whole quads, padding only at the end, and the bits under the padding zero. */
  function Undigits(d: seq<Digit>): Option<seq<Byte>> {
    if |d| == 0 then Some([])
    else if |d| < 4 || d[0] == PADDING || d[1] == PADDING then None
    else if d[2] == PADDING then
      var t := Unpack(Join(d[0], d[1], 0, 0));
      if |d| == 4 && d[3] == PADDING && t[1] == t[2] == 0 then Some([t[0]]) else None
    else if d[3] == PADDING then
      var t := Unpack(Join(d[0], d[1], d[2], 0));
      if |d| == 4 && t[2] == 0 then Some([t[0], t[1]]) else None
    else
      var rest := Undigits(d[4..]);
      if rest.None? then None else Some(Unpack(Join(d[0], d[1], d[2], d[3])) + rest.value)
  }

  lemma {:induction false} DigitCount(b: seq<Byte>)
    ensures |Digits(b)| == (|b| + 2) / 3 * 4
  {
    hide Quad, Pack;
    if |b| > 2 {
      DigitCount(b[3..]);
    }
  }

  lemma {:induction false} UndigitsUndoesDigits(b: seq<Byte>)
    ensures Undigits(Digits(b)) == Some(b)
  {
    hide Quad, Pack, Unpack, Join;
    if b != [] {
      var n := Pack(b[0], At(b, 1), At(b, 2));
      UnpackUndoesPack(b[0], At(b, 1), At(b, 2));
      JoinUndoesQuad(n);
      ZeroSextets(b[0], At(b, 1));
      if |b| > 2 {
        UndigitsUndoesDigits(b[3..]);
        assert Digits(b)[4..] == Digits(b[3..]);
        assert b == [b[0], b[1], b[2]] + b[3..];
      } else if |b| == 2 {
        assert At(b, 2) == 0 && b == [b[0], b[1]];
        assert Join(Quad(n)[0], Quad(n)[1], Quad(n)[2], 0) == n;
      } else {
        assert At(b, 1) == At(b, 2) == 0 && b == [b[0]];
        assert Join(Quad(n)[0], Quad(n)[1], 0, 0) == n;
      }
    }
  }

  lemma {:induction false} DigitsUndoesUndigits(d: seq<Digit>)
    requires Undigits(d).Some?
    ensures Digits(Undigits(d).value) == d
  {
    if d != [] {
      var c, e := if d[2] == PADDING then 0 else d[2], if d[3] == PADDING then 0 else d[3];
      QuadUndoesJoin(d[0], d[1], c, e);
      PackUndoesUnpack(Join(d[0], d[1], c, e));
      if d[3] != PADDING {
        DigitsUndoesUndigits(d[4..]);
        var b := Undigits(d).value;
        assert b[3..] == Undigits(d[4..]).value;
        assert d == d[..4] + d[4..];
      }
    }
  }

  // -------------------------- Digits and their text --------------------------

  /** The alphabet of RFC 4648; `Base64Table` proves it is the firmware's table. */
  function Symbol(v: Digit): char {
    if v < 26 then 'A' + v as char
    else if v < 52 then 'a' + (v - 26) as char
    else if v < 62 then '0' + (v - 52) as char
    else if v == 62 then '+'
    else if v == 63 then '/' else '='
  }

  function DigitOf(c: char): Option<Digit> {
    if 'A' <= c <= 'Z' then Some(c as int - 'A' as int)
    else if 'a' <= c <= 'z' then Some(c as int - 'a' as int + 26)
    else if '0' <= c <= '9' then Some(c as int - '0' as int + 52)
    else if c == '+' then Some(62)
    else if c == '/' then Some(63)
    else if c == '=' then Some(PADDING)
    else None
  }

  function Text(d: seq<Digit>): (s: string)
    ensures |s| == |d|
    ensures forall i :: 0 <= i < |d| ==> s[i] == Symbol(d[i])
  {
    seq(|d|, i requires 0 <= i < |d| => Symbol(d[i]))
  }

  lemma TextOf(s: string, d: seq<Digit>)
    requires |s| == |d| && forall i :: 0 <= i < |d| ==> s[i] == Symbol(d[i])
    ensures s == Text(d)
  {
    hide Symbol;
  }

  predicate IsText(s: string) {
    forall i :: 0 <= i < |s| ==> DigitOf(s[i]).Some?
  }

  function Untext(s: string): (d: seq<Digit>)
    requires IsText(s)
    ensures |d| == |s|
  {
    seq(|s|, i requires 0 <= i < |s| => DigitOf(s[i]).value)
  }

  lemma DigitOfSymbol(v: Digit)
    ensures DigitOf(Symbol(v)) == Some(v)
  {
  }

  lemma SymbolOfDigit(c: char)
    ensures DigitOf(c).Some? ==> Symbol(DigitOf(c).value) == c
  {
  }

  lemma UntextUndoesText(d: seq<Digit>)
    ensures IsText(Text(d)) && Untext(Text(d)) == d
  {
    forall i | 0 <= i < |d| {
      DigitOfSymbol(d[i]);
    }
  }

  lemma TextUndoesUntext(s: string)
    requires IsText(s)
    ensures Text(Untext(s)) == s
  {
    forall i | 0 <= i < |s| {
      SymbolOfDigit(s[i]);
    }
  }

  // ------------------------------- The codec -------------------------------

  function Encode(b: seq<Byte>): string {
    Text(Digits(b))
  }

  function Decode(s: string): Option<seq<Byte>> {
    if IsText(s) then Undigits(Untext(s)) else None
  }

  lemma DecodeUndoesEncode(b: seq<Byte>)
    ensures Decode(Encode(b)) == Some(b)
  {
    UntextUndoesText(Digits(b));
    UndigitsUndoesDigits(b);
  }

  /** The encoding is the only string that decodes to `b`. */
  lemma EncodeUndoesDecode(s: string)
    requires Decode(s).Some?
    ensures Encode(Decode(s).value) == s
  {
    TextUndoesUntext(s);
    DigitsUndoesUndigits(Untext(s));
  }

  /** What a turn of the encoder's loop has to write. */
  lemma NextQuad(b: seq<Byte>, n: Word)
    requires |b| > 2 && n == Pack(b[0], b[1], b[2])
    ensures Digits(b) == Quad(n) + Digits(b[3..])
  {
    hide Quad, Pack;
  }

  /** What the last branch of the encoder has to write. */
  lemma LastQuad(b: seq<Byte>, n: Word)
    requires 1 <= |b| <= 2 && n == Pack(b[0], At(b, 1), 0)
    ensures Digits(b) == [Quad(n)[0], Quad(n)[1], if |b| == 2 then Quad(n)[2] else PADDING, PADDING]
  {
    hide Quad, Pack;
  }

  /** The loop of `base64_encode`, which writes the whole quads. */
  method EncodeQuads(input: array<Byte>, len: nat, out: array<char>) returns (i: nat, o: nat, ghost done: seq<Digit>)
    requires len <= input.Length && |Digits(input[..len])| < out.Length
    modifies out
    ensures i <= len < i + 3 && o == |done|
    ensures Digits(input[..len]) == done + Digits(input[..len][i..])
    ensures forall j :: 0 <= j < o ==> out[j] == Symbol(done[j])
  {
    hide Symbol, Digits;
    ghost var bytes := input[..len];
    done := [];
    assert bytes[0..] == bytes;
    i, o := 0, 0;
    while i + 2 < len
      invariant 0 <= i <= len && o == |done|
      invariant Digits(bytes) == done + Digits(bytes[i..])
      invariant forall j :: 0 <= j < o ==> out[j] == Symbol(done[j])
    {
      var n: Word := input[i] as int * 0x1_0000 + input[i + 1] as int * 0x100 + input[i + 2] as int;
      NextQuad(bytes[i..], n);
      assert bytes[i..][3..] == bytes[i + 3..];
      assert done + (Quad(n) + Digits(bytes[i + 3..])) == done + Quad(n) + Digits(bytes[i + 3..]);
      done := done + Quad(n);
      out[o] := Symbol(n / 0x4_0000 % 64);
      out[o + 1] := Symbol(n / 0x1000 % 64);
      out[o + 2] := Symbol(n / 0x40 % 64);
      out[o + 3] := Symbol(n % 64);
      o := o + 4;
      i := i + 3;
    }
  }

  /** Its last branch, for the one or two bytes that are left. */
  method EncodeLast(input: array<Byte>, len: nat, i: nat, out: array<char>, o: nat)
    requires i < len <= input.Length && len <= i + 2 && o + 4 <= out.Length
    modifies out
    ensures forall j :: 0 <= j < o ==> out[j] == old(out[j])
    ensures |Digits(input[i..len])| == 4
    ensures forall j :: 0 <= j < 4 ==> out[o + j] == Symbol(Digits(input[i..len])[j])
  {
    assert Symbol(PADDING) == '=';
    hide Symbol, Digits;
    var n: Word := input[i] as int * 0x1_0000;
    if i + 1 < len {
      n := n + input[i + 1] as int * 0x100;
    }
    LastQuad(input[i..len], n);
    out[o] := Symbol(n / 0x4_0000 % 64);
    out[o + 1] := Symbol(n / 0x1000 % 64);
    out[o + 2] := if i + 1 < len then Symbol(n / 0x40 % 64) else '=';
    out[o + 3] := '=';
  }

  /** `base64_encode`: the text and its terminator are written to `out`. */
  method Base64Encode(input: array<Byte>, len: nat, out: array<char>)
    requires len <= input.Length && (len + 2) / 3 * 4 < out.Length
    modifies out
    ensures
      var text := Encode(input[..len]);
      |text| < out.Length && out[..|text|] == text && out[|text|] == '\0'
  {
    assert Symbol(PADDING) == '=' && Digits([]) == [];
    hide Symbol, Digits, Text;
    ghost var bytes := input[..len];
    DigitCount(bytes);
    var i, o, done := EncodeQuads(input, len, out);
    if i < len {
      assert bytes[i..] == input[i..len];
      EncodeLast(input, len, i, out, o);
      o := o + 4;
    }
    done := done + Digits(bytes[i..]);
    assert i >= len ==> bytes[i..] == [];
    TextOf(out[..o], done);
    out[o] := '\0';
    assert out[..o] == Text(done);
  }

  /** The terminator is not part of any text. */
  lemma NoNul(b: seq<Byte>)
    ensures '\0' !in Encode(b)
  {
  }

  /** The 9-byte report and the 13-byte reading fit the 32-character buffer. */
  lemma PayloadsFit(b: seq<Byte>)
    requires |b| in {9, 13}
    ensures |Encode(b)| + 1 <= 32
  {
    DigitCount(b);
  }
}

/** The table `B64` of firmware/sim/main.c. */
module Base64Table {
  import opened Base64

  const UPPER := "ABCDEFGHIJKLMNOPQRSTUVWXYZ"
  const LOWER := "abcdefghijklmnopqrstuvwxyz"
  const DIGITS := "0123456789"
  const B64 := UPPER + LOWER + DIGITS + "+/"

  lemma TableHoldsTheAlphabet(v: Sextet)
    ensures |B64| == 64 && B64[v] == Symbol(v)
  {
  }
}
