/** The lexer's cursor over NUL-terminated source text, reading one string literal. */
module Lexing {
  import opened Machine
  import opened Results
  import opened Literals

  /** The piece a text starts with, if any. */
  function FirstPiece(s: Bytes): Result<Piece> {
    if s == [] then Err("unterminated")
    else if s[0] != BACKSLASH then if ValidPiece(Raw(s[0])) then Ok(Raw(s[0])) else Err("unterminated")
    else if |s| > 1 && ValidPiece(Simple(s[1])) then Ok(Simple(s[1]))
    else if |s| > 3 && s[1] == LOWER_X && ValidPiece(Hex(s[2], s[3])) then Ok(Hex(s[2], s[3]))
    else Err("bad escape")
  }

  /** At most one valid piece starts a text. */
  lemma FirstPieceIsUnique(p: Piece, rest: Bytes)
    requires ValidPiece(p)
    ensures FirstPiece(Written(p) + rest) == Ok(p)
  {
  }

  /** The text ends at its first NUL, which is its last byte. */
  predicate Terminated(code: Bytes) {
    |code| > 0 && code[|code| - 1] == NUL && NulFree(code[..|code| - 1])
  }

  class Lexer {
    const code: Bytes
    var pos: nat

    ghost predicate Valid()
      reads this
    {
      Terminated(code) && pos < |code|
    }

    constructor (text: Bytes)
      requires NulFree(text)
      ensures Valid() && pos == 0 && code == text + [NUL]
    {
      code, pos := text + [NUL], 0;
    }

    /** Peeking past the terminator yields NUL here; the value is then not used. */
    function Peek(offset: nat): byte
      reads this
    {
      if pos + offset < |code| then code[pos + offset] else NUL
    }

    /** What is left before the terminator. */
    function Rest(): Bytes
      requires |code| > 0 && pos < |code|
      reads this
    {
      code[pos..|code| - 1]
    }

    /** `jik_lexer_decode_escape` with allow_nul false, at the character after a backslash;
        leaves the cursor on the last character of the escape. */
    method DecodeEscape() returns (r: Result<byte>)
      requires Valid() && pos > 0 && code[pos - 1] == BACKSLASH
      modifies this`pos
      ensures r.Ok? <==> FirstPiece([BACKSLASH] + old(Rest())).Ok?
      ensures r.Ok? ==>
        var p := FirstPiece([BACKSLASH] + old(Rest())).value;
        Valid() && r.value == Denoted(p) && pos + 2 == old(pos) + |Written(p)| && pos + 1 < |code|
    {
      ghost var s := [BACKSLASH] + Rest();
      assert pos + 1 < |code| ==> s[1] == code[pos];
      assert pos + 3 < |code| ==> s[2] == code[pos + 1] && s[3] == code[pos + 2];
      assert pos + 1 == |code| ==> |s| == 1;
      var ch := Peek(0);
      if ch == LOWER_N {
        return Ok(NEWLINE);
      } else if ch == LOWER_T {
        return Ok(TAB);
      } else if ch == LOWER_R {
        return Ok(RETURN);
      } else if ch == ZERO {
        return Err("\\0 is not supported in string literals");
      } else if ch == LOWER_X {
        var hi, lo := HexValue(Peek(1)), HexValue(Peek(2));
        if hi < 0 || lo < 0 {
          return Err("invalid hex escape sequence");
        }
        var value := 16 * hi + lo;
        if value == NUL {
          return Err("\\x00 is not supported in string literals");
        }
        pos := pos + 2;
        return Ok(value);
      } else if ch == BACKSLASH || ch == APOSTROPHE || ch == QUOTE {
        return Ok(ch);
      }
      return Err("unknown escape sequence");
    }

    /** The body of the string loop: one piece, unless the text ends, a line ends or an
        escape is bad. */
    method LexPiece() returns (r: Result<byte>)
      requires Valid() && code[pos] != QUOTE
      modifies this`pos
      ensures r.Ok? <==> FirstPiece(old(Rest())).Ok?
      ensures r.Ok? ==>
        var p := FirstPiece(old(Rest())).value;
        Valid() && old(pos) < pos && ValidPiece(p) && r.value == Denoted(p) && code[old(pos)..pos] == Written(p)
    {
      ghost var s, at := Rest(), pos;
      assert pos + 1 < |code| ==> s[0] == code[pos];
      if code[pos] == NUL {
        return Err("unterminated string literal");
      }
      if code[pos] == NEWLINE {
        return Err("newline not allowed in string literal");
      }
      if code[pos] == BACKSLASH {
        if code[pos + 1] == NUL {
          return Err("unterminated string literal");
        }
        pos := pos + 1;
        assert [BACKSLASH] + Rest() == s;
        r := DecodeEscape();
        if r.Err? {
          return;
        }
      } else {
        r := Ok(code[pos]);
      }
      pos := pos + 1;
      PieceRead(s, FirstPiece(s).value);
      assert code[at..pos] == s[..pos - at];
    }

    /** `jik_lexer_lex_string`, at the opening quote. It succeeds exactly on text that goes
        on with valid pieces and a closing quote; it then yields what those pieces denote
        and leaves the cursor on that quote. */
    method LexString() returns (r: Result<Bytes>, ghost ps: seq<Piece>)
      requires Valid() && code[pos] == QUOTE
      modifies this`pos
      ensures r.Ok? ==>
        && ValidPieces(ps) && r.value == DenotedAll(ps)
        && (forall i :: 0 <= i < |ps| ==> Means(ps[i], r.value[i]))
        && Valid() && pos == old(pos) + 1 + |WrittenAll(ps)|
        && code[old(pos) + 1..pos] == WrittenAll(ps) && code[pos] == QUOTE
      ensures r.Err? ==> forall qs :: ValidPieces(qs) ==> !(WrittenAll(qs) + [QUOTE] <= code[old(pos) + 1..])
    {
      pos := pos + 1;
      var buf: Bytes := [];
      ps := [];
      ghost var start := pos;
      while code[pos] != QUOTE
        invariant Valid() && start <= pos && ValidPieces(ps) && buf == DenotedAll(ps)
        invariant code[start..pos] == WrittenAll(ps)
        decreases |code| - pos
      {
        ghost var at, p := pos, FirstPiece(Rest());
        var b := LexPiece();
        if b.Err? {
          NoLiteral(code, start, at, ps);
          return Err(b.message), ps;
        }
        buf := buf + [b.value];
        PieceAdded(code, start, at, pos, ps, p.value);
        ps := ps + [p.value];
      }
      forall i | 0 <= i < |ps|
        ensures Means(ps[i], buf[i])
      {
        MeansDenoted(ps[i], buf[i]);
      }
      r := Ok(buf);
    }
  }

  /** Where no piece starts and no quote stands, no literal that began at `start` can end. */
  lemma NoLiteral(code: Bytes, start: nat, at: nat, ps: seq<Piece>)
    requires Terminated(code) && start <= at < |code| && ValidPieces(ps) && code[start..at] == WrittenAll(ps)
    requires code[at] != QUOTE && FirstPiece(code[at..|code| - 1]).Err?
    ensures forall qs :: ValidPieces(qs) ==> !(WrittenAll(qs) + [QUOTE] <= code[start..])
  {
    forall qs | ValidPieces(qs)
      ensures !(WrittenAll(qs) + [QUOTE] <= code[start..])
    {
      Diverge(code, start, at, ps, qs);
    }
  }

  lemma {:induction false} Diverge(code: Bytes, start: nat, at: nat, ps: seq<Piece>, qs: seq<Piece>)
    requires Terminated(code) && start <= at < |code| && ValidPieces(ps) && code[start..at] == WrittenAll(ps)
    requires code[at] != QUOTE && FirstPiece(code[at..|code| - 1]).Err?
    requires ValidPieces(qs)
    ensures !(WrittenAll(qs) + [QUOTE] <= code[start..])
    decreases |ps|
  {
    hide FirstPiece, Terminated, ValidPiece;
    if ps == [] {
      NothingStarts(code, start, qs);
    } else if qs == [] {
      HeadIsNoQuote(code, start, at, ps);
      NoQuoteAhead(code, start);
    } else if WrittenAll(qs) + [QUOTE] <= code[start..] {
      FirstOf(code, start, qs);
      HeadRead(code, start, at, ps);
      RestOf(code, start, qs);
      Diverge(code, start + |Written(ps[0])|, at, ps[1..], qs[1..]);
    }
  }

  lemma NoQuoteAhead(code: Bytes, start: nat)
    requires start < |code| && code[start] != QUOTE
    ensures !([] + [QUOTE] <= code[start..])
  {
    assert code[start..][0] == code[start];
  }

  lemma NothingStarts(code: Bytes, at: nat, qs: seq<Piece>)
    requires Terminated(code) && at < |code| && code[at] != QUOTE && FirstPiece(code[at..|code| - 1]).Err? && ValidPieces(qs)
    ensures !(WrittenAll(qs) + [QUOTE] <= code[at..])
  {
    if qs != [] && WrittenAll(qs) + [QUOTE] <= code[at..] {
      FirstOf(code, at, qs);
    }
  }

  lemma RestOf(code: Bytes, start: nat, qs: seq<Piece>)
    requires start <= |code| && qs != [] && WrittenAll(qs) + [QUOTE] <= code[start..]
    ensures start + |Written(qs[0])| <= |code| && WrittenAll(qs[1..]) + [QUOTE] <= code[start + |Written(qs[0])|..]
  {
    var n := |Written(qs[0])|;
    assert (WrittenAll(qs) + [QUOTE])[n..] == WrittenAll(qs[1..]) + [QUOTE];
    assert code[start + n..] == code[start..][n..];
  }

  /** The first of the pieces read so far is the one the text starts with. */
  lemma HeadRead(code: Bytes, start: nat, at: nat, ps: seq<Piece>)
    requires Terminated(code) && start <= at < |code| && ps != [] && ValidPieces(ps) && code[start..at] == WrittenAll(ps)
    ensures
      var n := |Written(ps[0])|;
      start + n <= at && code[start + n..at] == WrittenAll(ps[1..]) && FirstPiece(code[start..|code| - 1]) == Ok(ps[0])
  {
    var n := |Written(ps[0])|;
    assert code[start..start + n] == code[start..at][..n] == Written(ps[0]);
    assert code[start + n..at] == code[start..at][n..] == WrittenAll(ps[1..]);
    FirstOfPrefix(code, start, ps[0]);
  }

  lemma HeadIsNoQuote(code: Bytes, start: nat, at: nat, ps: seq<Piece>)
    requires start <= at < |code| && ps != [] && ValidPieces(ps) && code[start..at] == WrittenAll(ps)
    ensures code[start] != QUOTE
  {
    assert code[start] == code[start..at][0] == Written(ps[0])[0];
  }

  lemma FirstOfPrefix(code: Bytes, start: nat, p: Piece)
    requires Terminated(code) && start + |Written(p)| < |code| && code[start..start + |Written(p)|] == Written(p) && ValidPiece(p)
    ensures FirstPiece(code[start..|code| - 1]) == Ok(p)
  {
    var text := code[start..|code| - 1];
    assert Written(p) + text[|Written(p)|..] == text;
    FirstPieceIsUnique(p, text[|Written(p)|..]);
  }

  /** The first piece of a literal is the one its text starts with: it lies before the terminator. */
  lemma FirstOf(code: Bytes, start: nat, qs: seq<Piece>)
    requires Terminated(code) && start < |code| && qs != [] && ValidPieces(qs) && WrittenAll(qs) + [QUOTE] <= code[start..]
    ensures FirstPiece(code[start..|code| - 1]) == Ok(qs[0]) && Written(qs[0]) <= code[start..]
  {
    var n, first := |WrittenAll(qs)|, |Written(qs[0])|;
    assert code[start..][n] == QUOTE && n < |code| - start;
    assert code[start + n] != NUL;
    assert WrittenAll(qs)[..first] == Written(qs[0]);
    assert code[start..start + first] == code[start..][..n][..first];
    FirstOfPrefix(code, start, qs[0]);
  }

  /** After a piece has been read, it is what was written between the two positions. */
  lemma PieceRead(s: Bytes, p: Piece)
    requires FirstPiece(s) == Ok(p)
    ensures ValidPiece(p) && Written(p) <= s
  {
  }

  lemma PieceAdded(code: Bytes, start: nat, at: nat, to: nat, ps: seq<Piece>, p: Piece)
    requires start <= at <= to <= |code| && code[start..at] == WrittenAll(ps) && code[at..to] == Written(p)
    requires ValidPieces(ps) && ValidPiece(p)
    ensures code[start..to] == WrittenAll(ps + [p])
    ensures ValidPieces(ps + [p]) && DenotedAll(ps + [p]) == DenotedAll(ps) + [Denoted(p)]
  {
    assert code[start..to] == code[start..at] + code[at..to];
    WrittenAppend(ps, p);
  }

  lemma {:induction false} WrittenAppend(ps: seq<Piece>, p: Piece)
    ensures WrittenAll(ps + [p]) == WrittenAll(ps) + Written(p)
  {
    if ps == [] {
      assert [] + [p] == [p];
      assert Written(p) + [] == Written(p);
    } else {
      WrittenAppend(ps[1..], p);
      assert (ps + [p])[1..] == ps[1..] + [p];
      assert Written(ps[0]) + (WrittenAll(ps[1..]) + Written(p)) == Written(ps[0]) + WrittenAll(ps[1..]) + Written(p);
    }
  }

  lemma LiteralInText(text: Bytes, pos: nat, ps: seq<Piece>)
    requires text != [] && 1 <= pos < |text + [NUL]| && (text + [NUL])[pos] == QUOTE && (text + [NUL])[1..pos] == WrittenAll(ps)
    ensures WrittenAll(ps) + [QUOTE] <= text[1..]
  {
    assert pos < |text| && text[1..][..pos - 1] == (text + [NUL])[1..pos];
  }

  lemma NoLiteralInText(text: Bytes)
    requires text != [] && forall qs :: ValidPieces(qs) ==> !(WrittenAll(qs) + [QUOTE] <= (text + [NUL])[1..])
    ensures forall qs :: ValidPieces(qs) ==> !(WrittenAll(qs) + [QUOTE] <= text[1..])
  {
    assert (text + [NUL])[1..] == text[1..] + [NUL];
  }

  /** From Jik source to C source and back to bytes: every literal the lexer accepts is
      generated as C text that a C compiler reads as the bytes the Jik literal denotes; what
      it rejects is no literal. */
  method LiteralReachesC(text: Bytes, rest: Bytes) returns (r: Result<Bytes>)
    requires NulFree(text) && text != [] && text[0] == QUOTE
    ensures r.Ok? ==> exists ps ::
      ValidPieces(ps) && WrittenAll(ps) + [QUOTE] <= text[1..] && CBody(r.value + [QUOTE] + rest) == Ok((DenotedAll(ps), rest))
    ensures r.Err? ==> forall ps :: ValidPieces(ps) ==> !(WrittenAll(ps) + [QUOTE] <= text[1..])
  {
    var lex := new Lexer(text);
    var value, ps := lex.LexString();
    if value.Err? {
      NoLiteralInText(text);
      return Err(value.message);
    }
    DenotedNulFree(ps);
    GeneratedLiteralReadBack(value.value, rest);
    LiteralInText(text, lex.pos, ps);
    var out := SanitizeString(value.value);
    r := Ok(out);
  }
}
