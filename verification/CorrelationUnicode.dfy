/**
 The scanner that rejects unpaired UTF-16 escapes before JSON decoding (section 7 of RFC
 8259). Byte strings are strings with one character per byte.
 */
module CorrelationUnicode {
  // ---------- What is accepted ----------

  predicate IsHex(c: char) { '0' <= c <= '9' || 'a' <= c <= 'f' || 'A' <= c <= 'F' }

  function HexDigit(c: char): (d: nat)
    requires IsHex(c)
    ensures d < 16
  {
    if '0' <= c <= '9' then c as int - '0' as int
    else if 'a' <= c <= 'f' then c as int - 'a' as int + 10
    else c as int - 'A' as int + 10
  }

  predicate Hex4(h: string) { |h| == 4 && forall i :: 0 <= i < 4 ==> IsHex(h[i]) }

  /** The code unit four hexadecimal digits spell. */
  function Code(h: string): (code: nat)
    requires Hex4(h)
    ensures code < 0x1_0000
  {
    ((HexDigit(h[0]) * 16 + HexDigit(h[1])) * 16 + HexDigit(h[2])) * 16 + HexDigit(h[3])
  }

  predicate IsHigh(code: nat) { 0xD800 <= code <= 0xDBFF }

  predicate IsLow(code: nat) { 0xDC00 <= code <= 0xDFFF }

  const HEX := "0123456789abcdefABCDEF"

  /** The hexadecimal digits and their values. */
  lemma HexTable(c: char)
    ensures IsHex(c) <==> c in HEX
    ensures forall i :: 0 <= i < 22 && HEX[i] == c ==> HexDigit(c) == if i < 16 then i else i - 6
  {
  }

  /** High and low surrogates pair up to exactly the code points above the 16-bit ones (section 3 of RFC
      2781), each in one way. */
  lemma PairsAreCodePoints(c: nat)
    ensures 0x10000 <= c < 0x110000 <==> exists high: nat, low: nat :: IsHigh(high) && IsLow(low) && c == Joined(high, low)
    ensures forall high: nat, low: nat, h: nat, l: nat ::
              (IsHigh(high) && IsLow(low) && IsHigh(h) && IsLow(l) && Joined(high, low) == Joined(h, l)) ==> high == h && low == l
    ensures IsHigh(c) || IsLow(c) <==> 0xD800 <= c < 0xE000
  {
    if 0x10000 <= c < 0x110000 {
      var v := c - 0x10000;
      assert IsHigh(0xD800 + v / 0x400) && IsLow(0xDC00 + v % 0x400);
      assert Joined(0xD800 + v / 0x400, 0xDC00 + v % 0x400) == c;
    }
  }

  function Joined(high: nat, low: nat): int { 0x10000 + (high - 0xD800) * 0x400 + (low - 0xDC00) }

  /** One piece of the inside of a JSON string. */
  datatype Piece = Plain(c: char) | Escape(c: char) | Unit(h: string) | Pair(high: string, low: string)

  datatype Token = Outside(c: char) | Quoted(pieces: seq<Piece>)

  predicate PieceOk(p: Piece) {
    match p
    case Plain(c) => c != '"' && c != '\\'
    case Escape(c) => c != 'u'
    case Unit(h) => Hex4(h) && !IsHigh(Code(h)) && !IsLow(Code(h))
    case Pair(high, low) => Hex4(high) && Hex4(low) && IsHigh(Code(high)) && IsLow(Code(low))
  }

  predicate TokenOk(t: Token) {
    match t
    case Outside(c) => c != '"'
    case Quoted(pieces) => forall i :: 0 <= i < |pieces| ==> PieceOk(pieces[i])
  }

  function PieceText(p: Piece): string {
    match p
    case Plain(c) => [c]
    case Escape(c) => ['\\', c]
    case Unit(h) => ['\\', 'u'] + h
    case Pair(high, low) => ['\\', 'u'] + high + ['\\', 'u'] + low
  }

  function PiecesText(pieces: seq<Piece>): string {
    if pieces == [] then "" else PieceText(pieces[0]) + PiecesText(pieces[1..])
  }

  function TokenText(t: Token): string {
    match t
    case Outside(c) => [c]
    case Quoted(pieces) => ['"'] + PiecesText(pieces) + ['"']
  }

  function Render(tokens: seq<Token>): string {
    if tokens == [] then "" else TokenText(tokens[0]) + Render(tokens[1..])
  }

  /** The text is a run of bytes outside strings and closed strings, in which every \u escape is
      a code unit that is no surrogate or half of a complete high/low pair. */
  ghost predicate Paired(raw: string) {
    exists tokens :: (forall i :: 0 <= i < |tokens| ==> TokenOk(tokens[i])) && Render(tokens) == raw
  }

  // ---------- The scan as a recursion over what is left ----------

  /** How many bytes the piece at the front takes: 0 when there is no acceptable piece. */
  function PieceLength(s: string): (n: nat)
    requires s != "" && s[0] != '"'
    ensures n <= |s|
  {
    if s[0] != '\\' then 1
    else if |s| < 2 then 0
    else if s[1] != 'u' then 2
    else if |s| < 6 || !Hex4(s[2..6]) || IsLow(Code(s[2..6])) then 0
    else if !IsHigh(Code(s[2..6])) then 6
    else if |s| < 12 || s[6] != '\\' || s[7] != 'u' || !Hex4(s[8..12]) || !IsLow(Code(s[8..12])) then 0
    else 12
  }

  predicate Scan(s: string, inString: bool)
    decreases |s|
  {
    if s == "" then !inString
    else if s[0] == '"' then Scan(s[1..], !inString)
    else if !inString then Scan(s[1..], false)
    else PieceLength(s) > 0 && Scan(s[PieceLength(s)..], true)
  }

  /** The acceptable piece at the front of a string, read back. */
  function FrontPiece(s: string): (p: Piece)
    requires s != "" && s[0] != '"' && PieceLength(s) > 0
    ensures PieceOk(p) && PieceText(p) == s[..PieceLength(s)]
  {
    if s[0] != '\\' then Plain(s[0])
    else if s[1] != 'u' then Escape(s[1])
    else if PieceLength(s) == 6 then Unit(s[2..6])
    else Pair(s[2..6], s[8..12])
  }

  lemma PieceLengthAt(p: Piece, rest: string)
    requires PieceOk(p)
    ensures var s := PieceText(p) + rest; s != "" && s[0] != '"' && PieceLength(s) == |PieceText(p)| > 0
  {
    var s := PieceText(p) + rest;
    match p {
      case Unit(h) => assert s[2..6] == h;
      case Pair(high, low) => assert s[2..6] == high && s[8..12] == low;
      case _ =>
    }
  }

  /** Scanning acceptable pieces and the closing quote leaves the string. */
  lemma {:induction false} ScanPieces(pieces: seq<Piece>, rest: string)
    requires forall i :: 0 <= i < |pieces| ==> PieceOk(pieces[i])
    ensures Scan(PiecesText(pieces) + ['"'] + rest, true) == Scan(rest, false)
    decreases |pieces|
  {
    var s := PiecesText(pieces) + ['"'] + rest;
    if pieces == [] {
      assert s[1..] == rest;
    } else {
      var tail := PiecesText(pieces[1..]) + ['"'] + rest;
      assert s == PieceText(pieces[0]) + tail;
      PieceLengthAt(pieces[0], tail);
      assert s[|PieceText(pieces[0])|..] == tail;
      ScanPieces(pieces[1..], rest);
    }
  }

  /** A closed string at the front of the text is scanned as a whole. */
  lemma ScanQuoted(pieces: seq<Piece>, rest: string, s: string)
    requires forall i :: 0 <= i < |pieces| ==> PieceOk(pieces[i])
    requires s == TokenText(Quoted(pieces)) + rest
    ensures Scan(s, false) == Scan(rest, false)
  {
    var inner := PiecesText(pieces) + ['"'] + rest;
    assert s == ['"'] + inner;
    assert s[0] == '"' && s[1..] == inner;
    ScanPieces(pieces, rest);
  }

  lemma {:induction false} ScanTokens(tokens: seq<Token>)
    requires forall i :: 0 <= i < |tokens| ==> TokenOk(tokens[i])
    ensures Scan(Render(tokens), false)
    decreases |tokens|
  {
    if tokens != [] {
      var s, rest := Render(tokens), Render(tokens[1..]);
      ScanTokens(tokens[1..]);
      match tokens[0] {
        case Outside(c) => assert s[0] == c && s[1..] == rest;
        case Quoted(pieces) => ScanQuoted(pieces, rest, s);
      }
    }
  }

  /** A scan that succeeds outside a string splits the text into tokens. */
  lemma {:induction false} TokensOf(s: string) returns (tokens: seq<Token>)
    requires Scan(s, false)
    ensures (forall i :: 0 <= i < |tokens| ==> TokenOk(tokens[i])) && Render(tokens) == s
    decreases |s|, 1
  {
    if s == "" {
      tokens := [];
    } else if s[0] == '"' {
      var pieces, rest := PiecesOf(s[1..]);
      tokens := [Quoted(pieces)] + rest;
      assert tokens[1..] == rest && s == [s[0]] + s[1..];
    } else {
      var rest := TokensOf(s[1..]);
      tokens := [Outside(s[0])] + rest;
      assert tokens[1..] == rest && s == [s[0]] + s[1..];
    }
  }

  lemma ScanInside(s: string)
    requires Scan(s, true)
    ensures s != "" && (s[0] == '"' ==> Scan(s[1..], false))
  {
  }

  lemma FrontOf(s: string) returns (p: Piece, n: nat)
    requires Scan(s, true) && s != "" && s[0] != '"'
    ensures 0 < n <= |s| && PieceOk(p) && PieceText(p) == s[..n] && Scan(s[n..], true)
  {
    n := PieceLength(s);
    p := FrontPiece(s);
  }

  lemma JoinPieces(s: string, n: nat, p: Piece, more: seq<Piece>, tail: string)
    requires n <= |s| && PieceText(p) == s[..n] && s[n..] == PiecesText(more) + ['"'] + tail
    ensures s == PiecesText([p] + more) + ['"'] + tail
  {
    assert ([p] + more)[1..] == more;
    assert s == s[..n] + s[n..];
  }

  /** A scan that succeeds inside a string finds its pieces, its end and the tokens after it. */
  lemma {:induction false} PiecesOf(s: string) returns (pieces: seq<Piece>, tokens: seq<Token>)
    requires Scan(s, true)
    ensures forall i :: 0 <= i < |pieces| ==> PieceOk(pieces[i])
    ensures forall i :: 0 <= i < |tokens| ==> TokenOk(tokens[i])
    ensures s == PiecesText(pieces) + ['"'] + Render(tokens)
    decreases |s|, 0
  {
    ScanInside(s);
    if s[0] == '"' {
      pieces := [];
      tokens := TokensOf(s[1..]);
      assert s == [s[0]] + s[1..];
    } else {
      var p, n := FrontOf(s);
      var more;
      more, tokens := PiecesOf(s[n..]);
      pieces := [p] + more;
      JoinPieces(s, n, p, more, Render(tokens));
    }
  }

  lemma ScanIffPaired(raw: string)
    ensures Scan(raw, false) <==> Paired(raw)
  {
    if Scan(raw, false) {
      var tokens := TokensOf(raw);
    }
    if Paired(raw) {
      var tokens :| (forall i :: 0 <= i < |tokens| ==> TokenOk(tokens[i])) && Render(tokens) == raw;
      ScanTokens(tokens);
    }
  }

  // ---------- The scanner ----------

  /** correlationHex4: the fold in 16-bit arithmetic. After the shift the low four bits are
      clear, so the bitwise or of a digit is an addition. */
  method ReadHex4(raw: string) returns (value: nat, ok: bool)
    ensures ok <==> |raw| >= 4 && Hex4(raw[..4])
    ensures ok ==> value == Code(raw[..4])
    ensures !ok ==> value == 0
  {
    if |raw| < 4 {
      return 0, false;
    }
    value := 0;
    var k := 0;
    while k < 4
      invariant 0 <= k <= 4
      invariant forall i :: 0 <= i < k ==> IsHex(raw[i])
      invariant k == 0 ==> value == 0
      invariant k == 1 ==> value == HexDigit(raw[0])
      invariant k == 2 ==> value == HexDigit(raw[0]) * 16 + HexDigit(raw[1])
      invariant k == 3 ==> value == (HexDigit(raw[0]) * 16 + HexDigit(raw[1])) * 16 + HexDigit(raw[2])
      invariant k == 4 ==> value == Code(raw[..4])
    {
      value := (value * 16) % 0x1_0000;
      if !IsHex(raw[k]) {
        return 0, false;
      }
      value := value + HexDigit(raw[k]);
      k := k + 1;
    }
    return value, true;
  }

  /** validCorrelationUnicode: accepts exactly the texts whose escapes are paired. */
  method ValidUnicode(raw: string) returns (ok: bool)
    ensures ok <==> Paired(raw)
  {
    ScanIffPaired(raw);
    var inString := false;
    var i := 0;
    assert raw[0..] == raw;
    while i < |raw|
      invariant 0 <= i <= |raw|
      invariant Scan(raw, false) == Scan(raw[i..], inString)
    {
      ghost var left := raw[i..];
      if raw[i] == '"' {
        inString := !inString;
        i := i + 1;
        assert left[1..] == raw[i..];
        continue;
      }
      if !inString || raw[i] != '\\' {
        i := i + 1;
        assert left[1..] == raw[i..];
        continue;
      }
      i := i + 1;
      if i >= |raw| {
        return false;
      }
      if raw[i] != 'u' {
        i := i + 1;
        assert left[2..] == raw[i..];
        continue;
      }
      var code, hex := ReadHex4(raw[i + 1..]);
      if !hex {
        assert |left| >= 6 ==> left[2..6] == raw[i + 1..][..4];
        return false;
      }
      assert left[2..6] == raw[i + 1..][..4];
      i := i + 4;
      if 0xDC00 <= code <= 0xDFFF {
        return false;
      }
      if 0xD800 <= code <= 0xDBFF {
        if i + 6 >= |raw| || raw[i + 1] != '\\' || raw[i + 2] != 'u' {
          return false;
        }
        var low, lowHex := ReadHex4(raw[i + 3..]);
        assert left[8..12] == raw[i + 3..][..4];
        if !lowHex || low < 0xDC00 || low > 0xDFFF {
          return false;
        }
        i := i + 6;
      }
      i := i + 1;
      assert left[PieceLength(left)..] == raw[i..];
    }
    assert raw[i..] == "";
    return !inString;
  }
}
