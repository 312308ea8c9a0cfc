/**
 * Numbers as text, the way `fprintf` writes them and `fscanf` reads them, and bytes
 * as hex: what firmware/sim/main.c keeps and is given in place of memory and radio.
 */
module HostText {
  import opened Bytes
  import opened Options

  // -------------------------------- Decimal --------------------------------

  predicate IsDigit(c: char) {
    '0' <= c <= '9'
  }

  predicate IsSpace(c: char) {
    c as int in {9, 10, 11, 12, 13, 32}
  }

  function DigitValue(c: char): int
    requires IsDigit(c)
  {
    c as int - '0' as int
  }

  predicate AllDigits(s: string) {
    forall i :: 0 <= i < |s| ==> IsDigit(s[i])
  }

  /** `%u` */
  function Decimal(n: nat): (s: string)
    ensures s != "" && AllDigits(s)
  {
    if n < 10 then [('0' as int + n) as char] else Decimal(n / 10) + [('0' as int + n % 10) as char]
  }

  /** `%d` */
  function Signed(n: int): string {
    if n < 0 then ['-'] + Decimal(-n) else Decimal(n)
  }

  function Value(s: string): nat
    requires AllDigits(s)
  {
    if s == "" then 0 else Value(s[..|s| - 1]) * 10 + DigitValue(s[|s| - 1])
  }

  lemma {:induction false} ValueOfDecimal(n: nat)
    ensures Value(Decimal(n)) == n
  {
    var s := Decimal(n);
    if n >= 10 {
      ValueOfDecimal(n / 10);
      assert s[..|s| - 1] == Decimal(n / 10);
    } else {
      assert s[..0] == "";
    }
  }

  /** How many digits `s` starts with. */
  function DigitRun(s: string): (k: nat)
    ensures k <= |s| && AllDigits(s[..k])
  {
    if s != "" && IsDigit(s[0]) then 1 + DigitRun(s[1..]) else 0
  }

  lemma {:induction false} DigitRunStops(d: string, rest: string)
    requires AllDigits(d) && (rest != "" ==> !IsDigit(rest[0]))
    ensures DigitRun(d + rest) == |d|
  {
    if d == "" {
      assert d + rest == rest;
    } else {
      assert (d + rest)[1..] == d[1..] + rest;
      DigitRunStops(d[1..], rest);
    }
  }

  function SkipSpace(s: string): string {
    if s != "" && IsSpace(s[0]) then SkipSpace(s[1..]) else s
  }

  /** The number that `s` starts with, and what follows it. */
  function ScanDigits(s: string): Option<(int, string)> {
    var k := DigitRun(s);
    if k == 0 then None else Some((Value(s[..k]), s[k..]))
  }

  /** One `%u` or `%d` conversion: the number and what follows it, or a mismatch. */
  function Scan(s: string): Option<(int, string)> {
    var t := SkipSpace(s);
    var signed := t != "" && (t[0] == '-' || t[0] == '+');
    match ScanDigits(if signed then t[1..] else t)
    case None => None
    case Some((v, rest)) => Some((if signed && t[0] == '-' then -v else v, rest))
  }

  lemma ScanUndoesDecimal(n: nat, rest: string)
    requires rest != "" ==> !IsDigit(rest[0])
    ensures ScanDigits(Decimal(n) + rest) == Some((n, rest))
  {
    var d := Decimal(n);
    DigitRunStops(d, rest);
    assert (d + rest)[..|d|] == d && (d + rest)[|d|..] == rest;
    ValueOfDecimal(n);
  }

  lemma SkipsSpace(s: string)
    requires s != "" && !IsSpace(s[0])
    ensures SkipSpace(s) == s && SkipSpace([' '] + s) == s
  {
    assert ([' '] + s)[1..] == s;
  }

  lemma ScanTakesPlus(n: nat, rest: string)
    requires rest != "" ==> !IsDigit(rest[0])
    ensures Scan(['+'] + (Decimal(n) + rest)) == Some((n, rest))
  {
    var s := ['+'] + (Decimal(n) + rest);
    ScanUndoesDecimal(n, rest);
    SkipsSpace(s);
    assert s[1..] == Decimal(n) + rest;
    hide ScanDigits, Decimal, SkipSpace;
  }

  /** White space in the C locale: horizontal tab to carriage return, and the blank. */
  predicate White(c: char) {
    9 <= c as int <= 13 || c == ' '
  }

  /** Exactly the white space in front is skipped. */
  lemma {:induction false} SkippedIsWhite(s: string) returns (k: nat)
    ensures k <= |s| && SkipSpace(s) == s[k..]
    ensures forall i :: 0 <= i < k ==> White(s[i])
    ensures k < |s| ==> !White(s[k])
  {
    if s != "" && IsSpace(s[0]) {
      var j := SkippedIsWhite(s[1..]);
      k := j + 1;
      assert forall i :: 0 < i < k ==> s[i] == s[1..][i - 1];
    } else {
      k := 0;
    }
  }

  lemma ScanUndoesSigned(n: int, rest: string)
    requires rest != "" ==> !IsDigit(rest[0])
    ensures Scan(Signed(n) + rest) == Some((n, rest))
    ensures Scan([' '] + (Signed(n) + rest)) == Some((n, rest))
  {
    hide ScanDigits, Decimal, SkipSpace, DigitRun, Value;
    var (m, s) := (if n < 0 then -n else n, Signed(n) + rest);
    ScanUndoesDecimal(m, rest);
    assert IsDigit(Decimal(m)[0]);
    SkipsSpace(s);
    assert n < 0 ==> s[1..] == Decimal(m) + rest;
  }

  /** `k` conversions in a row; the text after the last one is left unread. */
  function ScanMany(s: string, k: nat): (r: Option<seq<int>>)
    ensures r.Some? ==> |r.value| == k
    decreases k
  {
    if k == 0 then Some([])
    else
      match Scan(s)
      case None => None
      case Some((n, rest)) =>
        match ScanMany(rest, k - 1)
        case None => None
        case Some(ns) => Some([n] + ns)
  }

  /** Numbers on one line. */
  function Line(ns: seq<int>): string
    requires ns != []
  {
    if |ns| == 1 then Signed(ns[0]) + "\n" else Signed(ns[0]) + ([' '] + Line(ns[1..]))
  }

  lemma ScanOneMore(s: string, n: int, rest: string, ns: seq<int>)
    requires Scan(s) == Some((n, rest)) && ScanMany(rest, |ns|) == Some(ns)
    ensures ScanMany(s, |ns| + 1) == Some([n] + ns)
  {
  }

  lemma {:induction false} ScanUndoesLine(ns: seq<int>)
    requires ns != []
    ensures ScanMany(Line(ns), |ns|) == Some(ns)
    ensures ScanMany([' '] + Line(ns), |ns|) == Some(ns)
  {
    hide Scan, Signed;
    var (rest, tail) := (if |ns| == 1 then "\n" else [' '] + Line(ns[1..]), ns[1..]);
    ScanUndoesSigned(ns[0], rest);
    if |ns| > 1 {
      ScanUndoesLine(tail);
    }
    assert ScanMany(rest, |tail|) == Some(tail);
    ScanOneMore(Line(ns), ns[0], rest, tail);
    ScanOneMore([' '] + Line(ns), ns[0], rest, tail);
    assert ns == [ns[0]] + tail;
  }

  // ------------------------------- C strings -------------------------------

  /** What `%s` prints: the characters before the terminator. */
  function CString(s: seq<char>): string {
    if s == [] || s[0] == '\0' then "" else [s[0]] + CString(s[1..])
  }

  lemma {:induction false} CStringStops(text: string, rest: seq<char>)
    requires '\0' !in text && rest != [] && rest[0] == '\0'
    ensures CString(text + rest) == text
  {
    if text == "" {
      assert text + rest == rest;
    } else {
      assert (text + rest)[1..] == text[1..] + rest;
      CStringStops(text[1..], rest);
    }
  }

  // ---------------------------------- Hex ----------------------------------

  type Nibble = x: int | 0 <= x < 16

  function HexDigit(v: Nibble): char {
    if v < 10 then ('0' as int + v) as char else ('a' as int + v - 10) as char
  }

  function NibbleOf(c: char): Option<Nibble> {
    if '0' <= c <= '9' then Some(c as int - '0' as int)
    else if 'a' <= c <= 'f' then Some(c as int - 'a' as int + 10)
    else if 'A' <= c <= 'F' then Some(c as int - 'A' as int + 10)
    else None
  }

  predicate IsHex(s: string) {
    forall i :: 0 <= i < |s| ==> NibbleOf(s[i]).Some?
  }

  /** `data.toString('hex')` on the simulator's side. */
  function Hex(b: seq<Byte>): string {
    seq(2 * |b|, i requires 0 <= i < 2 * |b| => HexDigit(if i % 2 == 0 then b[i / 2] / 16 else b[i / 2] % 16))
  }

  /** The bytes of a string of hex digits. */
  function Unhex(s: string): (b: seq<Byte>)
    requires IsHex(s) && |s| % 2 == 0
  {
    seq(|s| / 2, i requires 0 <= i < |s| / 2 => NibbleOf(s[2 * i]).value as int * 16 + NibbleOf(s[2 * i + 1]).value as int)
  }

  lemma NibbleOfHexDigit(v: Nibble)
    ensures NibbleOf(HexDigit(v)) == Some(v)
  {
  }

  /** The digits of either case have their values, and nothing else is one. */
  lemma HexDigitsOfEitherCase(c: char, v: Nibble)
    ensures NibbleOf(c) == Some(v) <==> c == "0123456789abcdef"[v] || c == "0123456789ABCDEF"[v]
  {
  }

  lemma HexPair(b: seq<Byte>, i: nat)
    requires i < |b|
    ensures NibbleOf(Hex(b)[2 * i]) == Some(b[i] / 16) && NibbleOf(Hex(b)[2 * i + 1]) == Some(b[i] % 16)
  {
    hide HexDigit, NibbleOf;
    NibbleOfHexDigit(b[i] / 16);
    NibbleOfHexDigit(b[i] % 16);
    assert (2 * i) / 2 == i && (2 * i + 1) / 2 == i && (2 * i + 1) % 2 == 1;
  }

  lemma UnhexUndoesHex(b: seq<Byte>)
    ensures IsHex(Hex(b)) && |Hex(b)| == 2 * |b| && Unhex(Hex(b)) == b
  {
    hide HexDigit, NibbleOf;
    var s := Hex(b);
    forall i | 0 <= i < |s|
      ensures NibbleOf(s[i]).Some?
    {
      HexPair(b, i / 2);
      assert i == 2 * (i / 2) || i == 2 * (i / 2) + 1;
    }
    forall i | 0 <= i < |b|
      ensures Unhex(s)[i] == b[i]
    {
      HexPair(b, i);
    }
  }

  /**
   * One `%2x` conversion (section 7.21.6.2 of ISO/IEC 9899:2011): white space is
   * skipped, a sign takes one of the two characters, and `0x` alone is no number.
   */
  function ScanByte(s: string): Option<Byte> {
    var t := SkipSpace(s);
    if t == "" then None
    else if t[0] == '-' || t[0] == '+' then
      if |t| == 1 || NibbleOf(t[1]).None? then None
      else
        var v := NibbleOf(t[1]).value as int;
        Some(if t[0] == '-' then (0x100 - v) % 0x100 else v)
    else if NibbleOf(t[0]).None? then None
    else
      var high := NibbleOf(t[0]).value as int;
      if |t| == 1 then Some(high)
      else if NibbleOf(t[1]).Some? then Some(16 * high + NibbleOf(t[1]).value as int)
      else if t[0] == '0' && (t[1] == 'x' || t[1] == 'X') then None
      else Some(high)
  }

  function Before(done: seq<Byte>, rest: Option<seq<Byte>>): Option<seq<Byte>> {
    if rest.None? then None else Some(done + rest.value)
  }

  lemma NothingBefore(rest: Option<seq<Byte>>)
    ensures Before([], rest) == rest
  {
    assert rest.Some? ==> [] + rest.value == rest.value;
  }

  lemma OneMoreBefore(done: seq<Byte>, b: Byte, rest: Option<seq<Byte>>)
    ensures Before(done, Before([b], rest)) == Before(done + [b], rest)
  {
    assert rest.Some? ==> done + ([b] + rest.value) == done + [b] + rest.value;
  }

  /** Conversions at every second character from `i` pairs on, if none fails. */
  function ScanPairs(hex: string, i: nat): Option<seq<Byte>>
    requires 2 * i <= |hex| && |hex| % 2 == 0
    decreases |hex| - 2 * i
  {
    if 2 * i == |hex| then Some([])
    else
      match ScanByte(hex[2 * i..])
      case None => None
      case Some(b) => Before([b], ScanPairs(hex, i + 1))
  }

  function ParsedHex(hex: string, max: nat): Option<seq<Byte>> {
    if |hex| % 2 != 0 || |hex| / 2 > max then None else ScanPairs(hex, 0)
  }

  lemma {:induction false} PairsOfDigits(s: string, i: nat)
    requires IsHex(s) && |s| % 2 == 0 && 2 * i <= |s|
    ensures ScanPairs(s, i) == Some(Unhex(s)[i..])
    decreases |s| - 2 * i
  {
    if 2 * i < |s| {
      var t := s[2 * i..];
      assert t[0] == s[2 * i] && t[1] == s[2 * i + 1];
      assert NibbleOf(t[0]).Some? && NibbleOf(t[1]).Some?;
      assert SkipSpace(t) == t;
      assert ScanByte(t) == Some(Unhex(s)[i]);
      PairsOfDigits(s, i + 1);
      assert Unhex(s)[i..] == [Unhex(s)[i]] + Unhex(s)[i + 1..];
    } else {
      assert Unhex(s)[i..] == [];
    }
  }

  /** What the simulator passes is parsed to the bytes it means, if they fit. */
  lemma ParseUndoesHex(b: seq<Byte>, max: nat)
    ensures ParsedHex(Hex(b), max) == if |b| <= max then Some(b) else None
  {
    hide Hex, Unhex, ScanPairs;
    UnhexUndoesHex(b);
    PairsOfDigits(Hex(b), 0);
    assert Unhex(Hex(b))[0..] == b;
  }

  /**
   * What a conversion accepts, character by character: after white space a sign and a
   * hex digit, or a hex digit that does not begin a bare `0x`.
   */
  predicate PairScans(s: string) {
    var t := SkipSpace(s);
    && t != ""
    && (if t[0] == '-' || t[0] == '+' then |t| > 1 && NibbleOf(t[1]).Some?
        else NibbleOf(t[0]).Some? && !(t[0] == '0' && |t| > 1 && (t[1] == 'x' || t[1] == 'X')))
  }

  lemma PairScansIff(s: string)
    ensures ScanByte(s).Some? <==> PairScans(s)
  {
  }

  lemma {:induction false} AllPairsScanIff(hex: string, i: nat)
    requires |hex| % 2 == 0 && 2 * i <= |hex|
    ensures ScanPairs(hex, i).Some? <==> forall k :: i <= k < |hex| / 2 ==> PairScans(hex[2 * k..])
    decreases |hex| - 2 * i
  {
    hide ScanByte, PairScans;
    if 2 * i < |hex| {
      PairScansIff(hex[2 * i..]);
      AllPairsScanIff(hex, i + 1);
    }
  }

  /** The strings that are taken for bytes are exactly the even ones that fit and scan pair by pair. */
  lemma ParsedIff(hex: string, max: nat)
    ensures ParsedHex(hex, max).Some? <==>
      && |hex| % 2 == 0
      && |hex| / 2 <= max
      && forall k :: 0 <= k < |hex| / 2 ==> PairScans(hex[2 * k..])
  {
    hide PairScans, ScanPairs;
    if |hex| % 2 == 0 {
      AllPairsScanIff(hex, 0);
    }
  }

  /** Strings that are not hex are not all refused: a pair may be a signed or a single digit. */
  lemma LooseHexIsAccepted()
    ensures ParsedHex("5g-1", 242) == Some([5, 255])
  {
    var s := "5g-1";
    assert s[0..] == s && s[2..] == "-1";
    assert ScanByte(s) == Some(5) && ScanByte("-1") == Some(255);
    assert ScanPairs(s, 2) == Some([]) && ScanPairs(s, 1) == Before([255], Some([]));
    assert [255] + [] == [255] && [5] + [255] == [5, 255];
  }

  /** `parse_hex`: the number of bytes, or -1. */
  method ParseHex(hex: string, out: array<Byte>, max: nat) returns (len: int)
    requires max <= out.Length
    modifies out
    ensures len == match ParsedHex(hex, max) { case Some(b) => |b| case None => -1 }
    ensures len >= 0 ==> len <= max && Some(out[..len]) == ParsedHex(hex, max)
  {
    hide ScanByte;
    if |hex| % 2 != 0 || |hex| / 2 > max {
      return -1;
    }
    NothingBefore(ScanPairs(hex, 0));
    for i := 0 to |hex| / 2
      invariant ScanPairs(hex, 0) == Before(out[..i], ScanPairs(hex, i))
    {
      var byte := ScanByte(hex[i * 2..]);
      if byte.None? {
        return -1;
      }
      ghost var before := out[..i];
      out[i] := byte.value;
      assert out[..i + 1] == before + [byte.value];
      OneMoreBefore(before, byte.value, ScanPairs(hex, i + 1));
    }
    len := |hex| / 2;
    assert out[..len] + [] == out[..len];
  }
}
