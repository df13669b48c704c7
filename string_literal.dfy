/**
 * ExpressionFormatter.formatStringLiteral: a string value becomes either a plain SQL literal
 * ('...' with quotes doubled) or, when anything is outside printable ASCII, a Unicode-escape
 * literal U&'...'. Also a decoder for both forms and the round trip through it.
 */
module StringLiterals {
  import opened Wrappers
  import opened Ast
  import Text

  const QuoteCode: CodePoint := 0x27
  const BackslashCode: CodePoint := 0x5C

  /** isAsciiPrintable: 0x20 to 0x7E inclusive. */
  predicate IsAsciiPrintable(c: int) {
    0x20 <= c < 0x7F
  }

  predicate AllAsciiPrintable(s: JavaString) {
    forall k :: 0 <= k < |s| ==> IsAsciiPrintable(s[k])
  }

  /** s.replace("'", "''"). */
  function DoubleQuotes(s: JavaString): JavaString
    decreases |s|
  {
    if s == [] then []
    else (if s[0] == QuoteCode then [QuoteCode, QuoteCode] else [s[0]]) + DoubleQuotes(s[1..])
  }

  /** The characters of a printable-ASCII value. */
  function AsciiText(s: JavaString): (r: string)
    requires AllAsciiPrintable(s)
    ensures |r| == |s|
    ensures forall k :: 0 <= k < |s| ==> r[k] as int == s[k]
    decreases |s|
  {
    if s == [] then "" else [s[0] as char] + AsciiText(s[1..])
  }

  function Pow16(n: nat): (r: nat)
    ensures r > 0
    decreases n
  {
    if n == 0 then 1 else 16 * Pow16(n - 1)
  }

  /** The upper-case hex digit of a value below 16. */
  function HexChar(d: nat): char
    requires d < 16
  {
    if d < 10 then ('0' as int + d) as char else ('A' as int + d - 10) as char
  }

  predicate IsHexDigit(c: char) {
    '0' <= c <= '9' || 'A' <= c <= 'F'
  }

  function HexDigitValue(c: char): (r: nat)
    requires IsHexDigit(c)
    ensures r < 16
  {
    if c <= '9' then c as int - '0' as int else c as int - 'A' as int + 10
  }

  /** format("%0<width>X", n) for a value that fits in width digits. */
  function HexDigits(n: nat, width: nat): (r: string)
    requires n < Pow16(width)
    ensures |r| == width
    ensures forall k :: 0 <= k < |r| ==> IsHexDigit(r[k])
    decreases width
  {
    if width == 0 then "" else HexDigits(n / 16, width - 1) + [HexChar(n % 16)]
  }

  /** The number an upper-case hex digit string denotes. */
  function HexValue(s: string): nat
    requires forall k :: 0 <= k < |s| ==> IsHexDigit(s[k])
    decreases |s|
  {
    if s == [] then 0 else 16 * HexValue(s[..|s| - 1]) + HexDigitValue(s[|s| - 1])
  }

  lemma HexValueSnoc(init: string, d: char)
    requires forall k :: 0 <= k < |init| ==> IsHexDigit(init[k])
    requires IsHexDigit(d)
    ensures forall k :: 0 <= k < |init + [d]| ==> IsHexDigit((init + [d])[k])
    ensures HexValue(init + [d]) == 16 * HexValue(init) + HexDigitValue(d)
  {
    assert (init + [d])[..|init|] == init;
  }

  lemma {:induction false} HexValueOfHexDigits(n: nat, width: nat)
    requires n < Pow16(width)
    ensures HexValue(HexDigits(n, width)) == n
    decreases width
  {
    if width > 0 {
      var hi, lo := n / 16, n % 16;
      HexValueOfHexDigits(hi, width - 1);
      var init := HexDigits(hi, width - 1);
      HexValueSnoc(init, HexChar(lo));
      assert HexDigitValue(HexChar(lo)) == lo;
      assert HexDigits(n, width) == init + [HexChar(lo)];
    }
  }

  /** A hex digit string of length w denotes a number below 16^w. */
  lemma {:induction false} HexValueBound(s: string)
    requires forall k :: 0 <= k < |s| ==> IsHexDigit(s[k])
    ensures HexValue(s) < Pow16(|s|)
    decreases |s|
  {
    if s != [] {
      var init := s[..|s| - 1];
      HexValueBound(init);
      var h, d, p := HexValue(init), HexDigitValue(s[|s| - 1]), Pow16(|s| - 1);
      assert h <= p - 1;
      assert 16 * h <= 16 * p - 16;
      assert HexValue(s) == 16 * h + d;
    }
  }

  /** The escape of one code point inside U&'...' (the body of the loop in formatStringLiteral). */
  function EscapeCodePoint(c: CodePoint): string {
    if IsAsciiPrintable(c) then
      if c == BackslashCode then "\\\\" else [c as char]
    else if c <= 0xFFFF then
      "\\" + HexDigits(c, 4)
    else
      "\\+" + HexDigits(c, 6)
  }

  function EscapeAll(s: JavaString): string
    decreases |s|
  {
    if s == [] then "" else EscapeCodePoint(s[0]) + EscapeAll(s[1..])
  }

  lemma {:induction false} EscapeAllAppend(a: JavaString, b: JavaString)
    ensures EscapeAll(a + b) == EscapeAll(a) + EscapeAll(b)
    decreases |a|
  {
    if a == [] {
      assert a + b == b;
    } else {
      assert (a + b)[0] == a[0];
      assert (a + b)[1..] == a[1..] + b;
      EscapeAllAppend(a[1..], b);
    }
  }

  lemma EscapeAllSnoc(q: JavaString, i: nat)
    requires i < |q|
    ensures EscapeAll(q[..i + 1]) == EscapeAll(q[..i]) + EscapeCodePoint(q[i])
  {
    assert q[..i + 1] == q[..i] + [q[i]];
    EscapeAllAppend(q[..i], [q[i]]);
    assert EscapeAll([q[i]]) == EscapeCodePoint(q[i]) + EscapeAll([]);
  }

  /** What formatStringLiteral returns for the value s. */
  function StringLiteralText(s: JavaString): string {
    var q := DoubleQuotes(s);
    if AllAsciiPrintable(q) then "'" + AsciiText(q) + "'" else "U&'" + EscapeAll(q) + "'"
  }

  /** One turn of the loop in formatStringLiteral: the text appended for one code point. */
  method EscapeStep(codePoint: CodePoint) returns (piece: string)
    ensures piece == EscapeCodePoint(codePoint)
  {
    if IsAsciiPrintable(codePoint) {
      var ch := codePoint as char;
      piece := if ch == '\\' then [ch, ch] else [ch];
    } else if codePoint <= 0xFFFF {
      piece := "\\" + HexDigits(codePoint, 4);
    } else {
      piece := "\\+" + HexDigits(codePoint, 6);
    }
  }

  lemma EscapeLoopStep(prefix: string, q: JavaString, i: nat, builder: string, piece: string)
    requires i < |q|
    requires builder == prefix + EscapeAll(q[..i])
    requires piece == EscapeCodePoint(q[i])
    ensures builder + piece == prefix + EscapeAll(q[..i + 1])
  {
    EscapeAllSnoc(q, i);
    Text.AppendAssoc(prefix, EscapeAll(q[..i]), piece);
  }


  /** formatStringLiteral, with its loop over the code points of the quote-doubled value. */
  method FormatStringLiteral(s: JavaString) returns (r: string)
    ensures r == StringLiteralText(s)
  {
    var q := DoubleQuotes(s);
    if AllAsciiPrintable(q) {
      return "'" + AsciiText(q) + "'";
    }
    var builder := "U&'";
    var i := 0;
    assert q[..0] == [];
    while i < |q|
      invariant 0 <= i <= |q|
      invariant builder == "U&'" + EscapeAll(q[..i])
    {
      var piece := EscapeStep(q[i]);
      EscapeLoopStep("U&'", q, i, builder, piece);
      builder := builder + piece;
      i := i + 1;
    }
    assert q[..i] == q;
    builder := builder + "'";
    r := builder;
  }

  // ----- Properties -----

  lemma {:induction false} DoubleQuotesPrintable(s: JavaString)
    ensures AllAsciiPrintable(DoubleQuotes(s)) <==> AllAsciiPrintable(s)
    decreases |s|
  {
    if s != [] {
      DoubleQuotesPrintable(s[1..]);
      var head := if s[0] == QuoteCode then [QuoteCode, QuoteCode] else [s[0]];
      assert DoubleQuotes(s) == head + DoubleQuotes(s[1..]);
      if AllAsciiPrintable(s) {
        assert AllAsciiPrintable(s[1..]) by {
          forall k | 0 <= k < |s[1..]| ensures IsAsciiPrintable(s[1..][k]) {
            assert s[1..][k] == s[k + 1];
          }
        }
      } else {
        var k :| 0 <= k < |s| && !IsAsciiPrintable(s[k]);
        if k > 0 {
          assert s[1..][k - 1] == s[k];
          var j :| 0 <= j < |DoubleQuotes(s[1..])| && !IsAsciiPrintable(DoubleQuotes(s[1..])[j]);
          assert DoubleQuotes(s)[|head| + j] == DoubleQuotes(s[1..])[j];
        } else {
          assert DoubleQuotes(s)[0] == s[0];
        }
      }
    }
  }

  /** The plain form is chosen exactly when every code point of the value is printable ASCII. */
  lemma PlainFormIff(s: JavaString)
    ensures StringLiteralText(s)[0] == '\'' <==> AllAsciiPrintable(s)
    ensures !AllAsciiPrintable(s) ==> StringLiteralText(s)[..3] == "U&'"
  {
    DoubleQuotesPrintable(s);
  }

  /**
   * A printable value renders as its quote-doubled characters between single quotes,
   * character for character: nothing else (in particular no backslash) is doubled.
   */
  lemma PlainLiteralLayout(s: JavaString)
    requires AllAsciiPrintable(s)
    ensures var r, q := StringLiteralText(s), DoubleQuotes(s);
      && |r| == |q| + 2
      && r[0] == '\'' && r[|r| - 1] == '\''
      && forall k :: 0 <= k < |q| ==> r[k + 1] as int == q[k]
  {
    DoubleQuotesPrintable(s);
  }

  /**
   * In the escape form every code point becomes: itself when printable (a backslash doubled),
   * a backslash and exactly 4 upper-case hex digits of its value when at most 0xFFFF, or a
   * backslash, '+' and exactly 6 hex digits otherwise.
   */
  lemma EscapeCodePointShape(c: CodePoint)
    ensures var e := EscapeCodePoint(c);
      && (IsAsciiPrintable(c) && c != BackslashCode ==> e == [c as char])
      && (c == BackslashCode ==> e == "\\\\")
      && (!IsAsciiPrintable(c) && c <= 0xFFFF ==>
            |e| == 5 && e[0] == '\\' && HexValue(e[1..]) == c)
      && (!IsAsciiPrintable(c) && c > 0xFFFF ==>
            |e| == 8 && e[..2] == "\\+" && HexValue(e[2..]) == c)
  {
    var e := EscapeCodePoint(c);
    if !IsAsciiPrintable(c) {
      if c <= 0xFFFF {
        HexValueOfHexDigits(c, 4);
        assert e[1..] == HexDigits(c, 4);
      } else {
        HexValueOfHexDigits(c, 6);
        assert e[2..] == HexDigits(c, 6);
      }
    }
  }

  /** The escape form is U&' + the escapes of the quote-doubled value, in order, + '. */
  lemma UnicodeLiteralLayout(s: JavaString)
    requires !AllAsciiPrintable(s)
    ensures var r := StringLiteralText(s);
      && |r| >= 4 && r[..3] == "U&'" && r[|r| - 1] == '\''
      && r[3..|r| - 1] == EscapeAll(DoubleQuotes(s))
  {
    DoubleQuotesPrintable(s);
  }

  predicate AllPrintableChars(t: string) {
    forall k :: 0 <= k < |t| ==> IsAsciiPrintable(t[k] as int)
  }

  lemma {:induction false} EscapeAllPrintable(s: JavaString)
    ensures AllPrintableChars(EscapeAll(s))
    decreases |s|
  {
    if s != [] {
      EscapeAllPrintable(s[1..]);
      var e := EscapeCodePoint(s[0]);
      assert AllPrintableChars(e);
    }
  }

  /** Whatever the value, the literal text consists of printable ASCII characters only. */
  lemma LiteralIsPrintableAscii(s: JavaString)
    ensures AllPrintableChars(StringLiteralText(s))
  {
    var q := DoubleQuotes(s);
    if !AllAsciiPrintable(q) {
      EscapeAllPrintable(q);
      var r := StringLiteralText(s);
      assert r == "U&'" + EscapeAll(q) + "'";
    }
  }

  // ----- Decoding -----

  /** Undo the quote doubling: '' becomes ', a lone ' is malformed. */
  function Undouble(q: JavaString): Option<JavaString>
    decreases |q|
  {
    if q == [] then Some([])
    else if q[0] == QuoteCode then
      if |q| >= 2 && q[1] == QuoteCode then
        match Undouble(q[2..])
        case None => None
        case Some(rest) => Some([QuoteCode] + rest)
      else None
    else
      match Undouble(q[1..])
      case None => None
      case Some(rest) => Some([q[0]] + rest)
  }

  predicate AllHex(t: string) {
    forall k :: 0 <= k < |t| ==> IsHexDigit(t[k])
  }

  /** Undo the U& escapes: \\ is a backslash, \+XXXXXX and \XXXX are code points. */
  function Unescape(body: string): Option<JavaString>
    decreases |body|
  {
    if body == [] then Some([])
    else if body[0] != '\\' then
      match Unescape(body[1..])
      case None => None
      case Some(rest) => Some([body[0] as int as CodePoint] + rest)
    else if |body| >= 2 && body[1] == '\\' then
      match Unescape(body[2..])
      case None => None
      case Some(rest) => Some([BackslashCode] + rest)
    else if |body| >= 8 && body[1] == '+' && AllHex(body[2..8]) && HexValue(body[2..8]) <= 0x10FFFF then
      match Unescape(body[8..])
      case None => None
      case Some(rest) => Some([HexValue(body[2..8]) as CodePoint] + rest)
    else if |body| >= 5 && AllHex(body[1..5]) then
      match Unescape(body[5..])
      case None => None
      case Some(rest) =>
        HexValueBound(body[1..5]);
        assert Pow16(4) == 65536 by {
          assert Pow16(2) == 256;
        }
        Some([HexValue(body[1..5]) as CodePoint] + rest)
    else None
  }

  function CodePointsOf(t: string): (r: JavaString)
    ensures |r| == |t|
    ensures forall k :: 0 <= k < |t| ==> r[k] == t[k] as int
    decreases |t|
  {
    if t == [] then [] else [t[0] as int as CodePoint] + CodePointsOf(t[1..])
  }

  /** The value a literal in either form denotes. */
  function DecodeLiteral(t: string): Option<JavaString> {
    if |t| >= 4 && t[..3] == "U&'" && t[|t| - 1] == '\'' then
      match Unescape(t[3..|t| - 1])
      case None => None
      case Some(q) => Undouble(q)
    else if |t| >= 2 && t[0] == '\'' && t[|t| - 1] == '\'' then
      Undouble(CodePointsOf(t[1..|t| - 1]))
    else None
  }

  lemma {:induction false} UndoubleDoubleQuotes(s: JavaString)
    ensures Undouble(DoubleQuotes(s)) == Some(s)
    decreases |s|
  {
    if s != [] {
      UndoubleDoubleQuotes(s[1..]);
      var q := DoubleQuotes(s);
      if s[0] == QuoteCode {
        assert q[2..] == DoubleQuotes(s[1..]);
      } else {
        assert q[1..] == DoubleQuotes(s[1..]);
      }
      assert [s[0]] + s[1..] == s;
    }
  }

  lemma UnescapeStep(c: CodePoint, rest: string, tail: JavaString)
    requires Unescape(rest) == Some(tail)
    ensures Unescape(EscapeCodePoint(c) + rest) == Some([c] + tail)
  {
    var e := EscapeCodePoint(c);
    var body := e + rest;
    if IsAsciiPrintable(c) {
      if c == BackslashCode {
        assert body[2..] == rest;
      } else {
        assert body[1..] == rest;
      }
    } else if c <= 0xFFFF {
      HexValueOfHexDigits(c, 4);
      assert body[1..5] == HexDigits(c, 4);
      assert body[5..] == rest;
    } else {
      HexValueOfHexDigits(c, 6);
      assert body[2..8] == HexDigits(c, 6);
      assert body[8..] == rest;
    }
  }

  lemma {:induction false} UnescapeEscapeAll(q: JavaString)
    ensures Unescape(EscapeAll(q)) == Some(q)
    decreases |q|
  {
    if q != [] {
      UnescapeEscapeAll(q[1..]);
      UnescapeStep(q[0], EscapeAll(q[1..]), q[1..]);
      assert [q[0]] + q[1..] == q;
    }
  }

  /**
   * Round trip: decoding the literal formatStringLiteral produces (undo the U& escapes, then
   * the quote doubling) gives back the original value, for every code-point sequence.
   */
  lemma DecodeFormatted(s: JavaString)
    ensures DecodeLiteral(StringLiteralText(s)) == Some(s)
  {
    var q := DoubleQuotes(s);
    UndoubleDoubleQuotes(s);
    if AllAsciiPrintable(q) {
      DecodePlain(q);
    } else {
      DecodeEscaped(q);
    }
  }

  lemma DecodePlain(q: JavaString)
    requires AllAsciiPrintable(q)
    ensures DecodeLiteral("'" + AsciiText(q) + "'") == Undouble(q)
  {
    var t := "'" + AsciiText(q) + "'";
    assert t[1..|t| - 1] == AsciiText(q);
    assert CodePointsOf(AsciiText(q)) == q;
    assert t[0] == '\'';
    if |t| >= 4 {
      assert t[..3][0] != "U&'"[0];
    }
  }

  lemma DecodeEscaped(q: JavaString)
    ensures DecodeLiteral("U&'" + EscapeAll(q) + "'") == Undouble(q)
  {
    var t := "U&'" + EscapeAll(q) + "'";
    assert t[..3] == "U&'";
    assert t[3..|t| - 1] == EscapeAll(q);
    UnescapeEscapeAll(q);
  }
}
