/** String literals on their way from Jik source to C source: the lexer's escapes, the
    generator's escapes, and the C standard's reading of the result. */
module Literals {
  import opened Machine
  import opened Results

  type Bytes = seq<byte>

  const NUL: byte := 0
  const TAB: byte := 9
  const NEWLINE: byte := 10
  const RETURN: byte := 13
  const QUOTE: byte := 34
  const APOSTROPHE: byte := 39
  const ZERO: byte := 48
  const BACKSLASH: byte := 92
  const LOWER_N: byte := 110
  const LOWER_R: byte := 114
  const LOWER_T: byte := 116
  const LOWER_X: byte := 120

  predicate NulFree(bs: Bytes) { NUL !in bs }

  // ----- the generator: sanitize_string -----

  function Escape(b: byte): (r: Bytes)
    ensures |r| > 0
  {
    if b == NEWLINE then [BACKSLASH, LOWER_N]
    else if b == TAB then [BACKSLASH, LOWER_T]
    else if b == RETURN then [BACKSLASH, LOWER_R]
    else if b == QUOTE then [BACKSLASH, QUOTE]
    else if b == BACKSLASH then [BACKSLASH, BACKSLASH]
    else if 32 <= b < 127 then [b]
    else [BACKSLASH, ZERO + b / 64, ZERO + b / 8 % 8, ZERO + b % 8]
  }

  function Escapes(bs: Bytes): Bytes {
    if bs == [] then [] else Escape(bs[0]) + Escapes(bs[1..])
  }

  lemma {:induction false} EscapesAppend(bs: Bytes, b: byte)
    ensures Escapes(bs + [b]) == Escapes(bs) + Escape(b)
  {
    if bs == [] {
      assert [] + [b] == [b];
      assert Escapes([b]) == Escape(b) + Escapes([]);
    } else {
      EscapesAppend(bs[1..], b);
      assert (bs + [b])[1..] == bs[1..] + [b];
    }
  }

  lemma EscapePrintable(b: byte)
    ensures forall i :: 0 <= i < |Escape(b)| ==> 32 <= Escape(b)[i] < 127
  {
  }

  /** The input is a C string: it ends at its first NUL. */
  method SanitizeString(input: Bytes) returns (out: Bytes)
    requires NulFree(input)
    ensures out == Escapes(input)
    ensures forall i :: 0 <= i < |out| ==> 32 <= out[i] < 127
  {
    hide Escape;
    out := [];
    var src := 0;
    while src < |input|
      invariant 0 <= src <= |input| && out == Escapes(input[..src])
      invariant forall i :: 0 <= i < |out| ==> 32 <= out[i] < 127
    {
      var b := input[src];
      EscapesAppend(input[..src], b);
      EscapePrintable(b);
      assert input[..src + 1] == input[..src] + [b];
      out := out + Escape(b);
      src := src + 1;
    }
    assert input[..|input|] == input;
  }

  // ----- C: sections 6.4.4.4 and 6.4.5 of ISO C11 -----

  predicate IsOctal(b: byte) { ZERO <= b <= 55 }

  /** The value of a simple escape sequence. */
  function SimpleEscape(c: byte): Result<byte> {
    if c == APOSTROPHE || c == QUOTE || c == 63 || c == BACKSLASH then Ok(c)
    else if c == 97 then Ok(7)
    else if c == 98 then Ok(8)
    else if c == 102 then Ok(12)
    else if c == LOWER_N then Ok(NEWLINE)
    else if c == LOWER_R then Ok(RETURN)
    else if c == LOWER_T then Ok(TAB)
    else if c == 118 then Ok(11)
    else Err("unknown escape")
  }

  /** An octal escape takes up to three digits, as many as there are. */
  function OctalLength(s: Bytes): (n: nat)
    ensures n <= |s| && n <= 3
  {
    if s == [] || !IsOctal(s[0]) then 0
    else if |s| < 2 || !IsOctal(s[1]) then 1
    else if |s| < 3 || !IsOctal(s[2]) then 2
    else 3
  }

  function OctalValue(s: Bytes): int {
    if s == [] then 0 else 8 * OctalValue(s[..|s| - 1]) + s[|s| - 1] - ZERO
  }

  function HexValue(b: byte): int {
    if ZERO <= b <= 57 then b - ZERO
    else if 97 <= b <= 102 then b - 97 + 10
    else if 65 <= b <= 70 then b - 65 + 10
    else -1
  }

  /** A hexadecimal escape takes every hexadecimal digit that follows. */
  function HexLength(s: Bytes): (n: nat)
    ensures n <= |s|
  {
    if s == [] || HexValue(s[0]) < 0 then 0 else 1 + HexLength(s[1..])
  }

  function HexRun(s: Bytes): int {
    if s == [] then 0 else 16 * HexRun(s[..|s| - 1]) + HexValue(s[|s| - 1])
  }

  /** Reads the characters of a literal after its opening quote; yields the bytes and what
      follows the closing quote. */
  function CBody(s: Bytes): Result<(Bytes, Bytes)>
    decreases |s|
  {
    if s == [] || s[0] == NEWLINE then Err("unterminated")
    else if s[0] == QUOTE then Ok(([], s[1..]))
    else if s[0] != BACKSLASH then
      var (bs, rest) :- CBody(s[1..]);
      Ok(([s[0]] + bs, rest))
    else if |s| == 1 then Err("unterminated")
    else if IsOctal(s[1]) then
      var n := OctalLength(s[1..]);
      var v := OctalValue(s[1..][..n]);
      if !(0 <= v < 256) then Err("octal escape out of range")
      else
        var (bs, rest) :- CBody(s[1 + n..]);
        Ok(([v as byte] + bs, rest))
    else if s[1] == LOWER_X then
      var n := HexLength(s[2..]);
      var v := HexRun(s[2..][..n]);
      if n == 0 || !(0 <= v < 256) then Err("hexadecimal escape out of range")
      else
        var (bs, rest) :- CBody(s[2 + n..]);
        Ok(([v as byte] + bs, rest))
    else
      var v :- SimpleEscape(s[1]);
      var (bs, rest) :- CBody(s[2..]);
      Ok(([v] + bs, rest))
  }

  lemma OctalOfEscape(b: byte, after: Bytes)
    ensures
      var e := [ZERO + b / 64, ZERO + b / 8 % 8, ZERO + b % 8];
      OctalLength(e + after) == 3 && (e + after)[..3] == e && OctalValue(e) == b
  {
    var e := [ZERO + b / 64, ZERO + b / 8 % 8, ZERO + b % 8];
    assert e[..2][..1] == [e[0]] && e[..2] == [e[0], e[1]];
    assert OctalValue([e[0]]) == b / 64;
    assert OctalValue([e[0], e[1]]) == 8 * (b / 64) + b / 8 % 8 == b / 8 by {
      assert [e[0], e[1]][..1] == [e[0]];
    }
    assert OctalValue(e) == 8 * (b / 8) + b % 8;
  }

  /** One escaped byte is read back, whatever follows it. */
  lemma EscapeReadBack(b: byte, after: Bytes, bs: Bytes, rest: Bytes)
    requires b != NUL && CBody(after) == Ok((bs, rest))
    ensures CBody(Escape(b) + after) == Ok(([b] + bs, rest))
  {
    var s := Escape(b) + after;
    if |Escape(b)| == 4 {
      OctalOfEscape(b, after);
      var e := [ZERO + b / 64, ZERO + b / 8 % 8, ZERO + b % 8];
      assert s[1..] == e + after;
      assert s[4..] == after;
    } else if |Escape(b)| == 2 {
      assert s[2..] == after;
    } else {
      assert s[1..] == after;
    }
  }

  /** A C compiler reads the generated literal as the original bytes and stops at its
      closing quote, even where an octal escape is followed by digits. */
  lemma {:induction false} GeneratedLiteralReadBack(bs: Bytes, rest: Bytes)
    requires NulFree(bs)
    ensures CBody(Escapes(bs) + [QUOTE] + rest) == Ok((bs, rest))
  {
    if bs == [] {
      assert Escapes(bs) + [QUOTE] + rest == [QUOTE] + rest;
      assert ([QUOTE] + rest)[1..] == rest;
    } else {
      var after := Escapes(bs[1..]) + [QUOTE] + rest;
      GeneratedLiteralReadBack(bs[1..], rest);
      Regroup(Escape(bs[0]), Escapes(bs[1..]), [QUOTE], rest);
      EscapeReadBack(bs[0], after, bs[1..], rest);
      assert [bs[0]] + bs[1..] == bs;
    }
  }

  lemma Regroup(a: Bytes, b: Bytes, c: Bytes, d: Bytes)
    ensures (a + b) + c + d == a + (b + c + d)
  {
  }

  // ----- Jik: what a string literal may be made of -----

  datatype Piece = Raw(b: byte) | Simple(c: byte) | Hex(hi: byte, lo: byte)

  predicate ValidPiece(p: Piece) {
    match p
    case Raw(b) => b != NUL && b != NEWLINE && b != QUOTE && b != BACKSLASH
    case Simple(c) => c in {LOWER_N, LOWER_T, LOWER_R, BACKSLASH, APOSTROPHE, QUOTE}
    case Hex(hi, lo) => HexValue(hi) >= 0 && HexValue(lo) >= 0 && HexValue(hi) + HexValue(lo) > 0
  }

  function Written(p: Piece): (r: Bytes)
    ensures |r| > 0
  {
    match p
    case Raw(b) => [b]
    case Simple(c) => [BACKSLASH, c]
    case Hex(hi, lo) => [BACKSLASH, LOWER_X, hi, lo]
  }

  function Denoted(p: Piece): byte
    requires ValidPiece(p)
  {
    match p
    case Raw(b) => b
    case Simple(c) => if c == LOWER_N then NEWLINE else if c == LOWER_T then TAB else if c == LOWER_R then RETURN else c
    case Hex(hi, lo) => 16 * HexValue(hi) + HexValue(lo)
  }

  predicate ValidPieces(ps: seq<Piece>) { forall i :: 0 <= i < |ps| ==> ValidPiece(ps[i]) }

  function WrittenAll(ps: seq<Piece>): Bytes {
    if ps == [] then [] else Written(ps[0]) + WrittenAll(ps[1..])
  }

  function DenotedAll(ps: seq<Piece>): (r: Bytes)
    requires ValidPieces(ps)
    ensures |r| == |ps|
  {
    seq(|ps|, i requires 0 <= i < |ps| => Denoted(ps[i]))
  }

  /** A literal never denotes a NUL byte. */
  lemma DenotedNulFree(ps: seq<Piece>)
    requires ValidPieces(ps)
    ensures NulFree(DenotedAll(ps))
  {
  }

  predicate IsHexDigit(d: byte, value: int) {
    (0 <= value < 10 && d == 48 + value) || (10 <= value < 16 && (d == 97 + value - 10 || d == 65 + value - 10))
  }

  /** The byte a piece stands for, in numbers: 10, 9 and 13 for `\n`, `\t` and `\r`, the
      character itself for a backslash or a quote, and two hexadecimal digits of either case. */
  predicate Means(p: Piece, value: byte) {
    match p
    case Raw(b) => value == b
    case Simple(c) => (c == 110 && value == 10) || (c == 116 && value == 9) || (c == 114 && value == 13) || (c in {34, 39, 92} && value == c)
    case Hex(hi, lo) => IsHexDigit(hi, value / 16) && IsHexDigit(lo, value % 16)
  }

  lemma MeansDenoted(p: Piece, value: byte)
    requires ValidPiece(p)
    ensures Means(p, value) <==> value == Denoted(p)
  {
    if p.Hex? {
      HexMeans(p.hi, p.lo, value);
    }
  }

  lemma HexMeans(hi: byte, lo: byte, value: byte)
    requires HexValue(hi) >= 0 && HexValue(lo) >= 0
    ensures IsHexDigit(hi, value / 16) && IsHexDigit(lo, value % 16) <==> value == 16 * HexValue(hi) + HexValue(lo)
  {
    assert IsHexDigit(hi, value / 16) <==> value / 16 == HexValue(hi);
    assert IsHexDigit(lo, value % 16) <==> value % 16 == HexValue(lo);
  }

  /** Every escape and every plain character of a Jik literal means what the same text means
      in C, where no further hexadecimal digit follows a hexadecimal pair. */
  lemma PiecesMeanAsInC(p: Piece, after: Bytes, bs: Bytes, rest: Bytes)
    requires ValidPiece(p) && CBody(after) == Ok((bs, rest))
    requires p.Hex? ==> HexValue(after[0]) < 0
    ensures CBody(Written(p) + after) == Ok(([Denoted(p)] + bs, rest))
  {
    var s := Written(p) + after;
    match p
    case Raw(b) =>
      assert s[1..] == after;
    case Simple(c) =>
      assert s[2..] == after;
    case Hex(hi, lo) =>
      HexReadInC(hi, lo, after, bs, rest);
  }

  lemma HexReadInC(hi: byte, lo: byte, after: Bytes, bs: Bytes, rest: Bytes)
    requires ValidPiece(Hex(hi, lo)) && CBody(after) == Ok((bs, rest)) && HexValue(after[0]) < 0
    ensures CBody([BACKSLASH, LOWER_X, hi, lo] + after) == Ok(([Denoted(Hex(hi, lo))] + bs, rest))
  {
    hide HexValue, HexLength, HexRun;
    var s := [BACKSLASH, LOWER_X, hi, lo] + after;
    assert s[2..] == [hi, lo] + after;
    assert s[4..] == after;
    HexPair(hi, lo, after);
  }

  lemma HexPair(hi: byte, lo: byte, after: Bytes)
    requires HexValue(hi) >= 0 && HexValue(lo) >= 0 && after != [] && HexValue(after[0]) < 0
    ensures
      var t := [hi, lo] + after;
      HexLength(t) == 2 && HexRun(t[..2]) == 16 * HexValue(hi) + HexValue(lo)
  {
    var t := [hi, lo] + after;
    assert t[1..] == [lo] + after && t[1..][1..] == after;
    assert HexLength(after) == 0;
    assert t[..2][..1] == [hi] && [hi][..0] == [];
    assert HexRun([hi]) == HexValue(hi);
  }

  /** The hexadecimal digit for a value below 16, in either case. */
  function HexDigit(value: nat, upper: bool): byte
    requires value < 16
  {
    if value < 10 then 48 + value else (if upper then 65 else 97) + value - 10
  }

  /** Every byte string without NUL can be written as a literal, byte by byte as its two
      hexadecimal digits in either case. */
  lemma EveryStringHasALiteral(bs: Bytes, upper: bool) returns (ps: seq<Piece>)
    requires NulFree(bs)
    ensures |ps| == |bs| && forall i :: 0 <= i < |bs| ==> ps[i] == Hex(HexDigit(bs[i] / 16, upper), HexDigit(bs[i] % 16, upper))
    ensures ValidPieces(ps) && DenotedAll(ps) == bs
  {
    ps := seq(|bs|, i requires 0 <= i < |bs| => Hex(HexDigit(bs[i] / 16, upper), HexDigit(bs[i] % 16, upper)));
    forall i | 0 <= i < |ps|
      ensures ValidPiece(ps[i]) && Denoted(ps[i]) == bs[i]
    {
      assert HexValue(HexDigit(bs[i] / 16, upper)) == bs[i] / 16 && HexValue(HexDigit(bs[i] % 16, upper)) == bs[i] % 16;
      assert bs[i] != NUL;
    }
  }
}
