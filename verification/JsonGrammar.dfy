/** The grammar of JSON texts (section 2 of RFC 8259) written down on its own, as
    syntax trees with their spelling and meaning, and the proof that the parser
    reads exactly the spellings, each as its meaning. */
module JsonGrammar {
  import opened Bytes
  import opened Json
  import opened JsonRound
  import opened Wrappers

  // ---- characters ----

  predicate Is(b: byte, c: char) {
    b as int == c as int
  }

  /** The four kinds of insignificant whitespace. */
  predicate Space(b: byte) {
    Is(b, ' ') || Is(b, '\t') || Is(b, '\n') || Is(b, '\r')
  }

  predicate Blank(s: seq<byte>) {
    forall b <- s :: Space(b)
  }

  predicate DecimalDigit(b: byte) {
    '0' as int <= b as int <= '9' as int
  }

  predicate SpellsText(s: seq<byte>, t: string) {
    |s| == |t| && forall i :: 0 <= i < |s| ==> Is(s[i], t[i])
  }

  /** The structural characters and the three literal names. */
  lemma Symbols()
    ensures SpellsText([OPEN_BRACKET, OPEN_BRACE, CLOSE_BRACKET, CLOSE_BRACE, COLON, COMMA], "[{]}:,")
    ensures SpellsText([QUOTE, BACKSLASH, SLASH, LOWER_U, MINUS, PLUS, DOT, ZERO, NINE], "\"\\/u-+.09")
    ensures SpellsText(FALSE_TEXT, "false") && SpellsText(NULL_TEXT, "null") && SpellsText(TRUE_TEXT, "true")
  {
  }

  const LOWER := "0123456789abcdef"
  const UPPER := "0123456789ABCDEF"

  /** Digits above nine may be written in either case. */
  predicate SpellsDigit(b: byte, d: nat) {
    d < 16 && (Is(b, LOWER[d]) || Is(b, UPPER[d]))
  }

  predicate SpellsQuad(q: seq<byte>, v: nat) {
    && |q| == 4 && v < 0x10000
    && SpellsDigit(q[0], v / 4096) && SpellsDigit(q[1], v / 256 % 16)
    && SpellsDigit(q[2], v / 16 % 16) && SpellsDigit(q[3], v % 16)
  }

  /** The letters of the short escapes and what they stand for. */
  const SHORT := "\"\\/bfnrt"
  const SHORT_MEANS := "\"\\/\U{0008}\U{000C}\n\r\t"

  /** One character of a string: itself, a short escape, one `\u` escape, or the
      two of a surrogate pair. */
  datatype Char = Raw(c: byte) | Short(k: nat) | Escaped(cp: nat, q: seq<byte>) | Pair(cp: nat, hi: seq<byte>, lo: seq<byte>)

  predicate ValidChar(ch: Char) {
    match ch
    case Raw(c) => c >= 0x20 && !Is(c, '"') && !Is(c, '\\')
    case Short(k) => k < 8
    case Escaped(cp, q) => SpellsQuad(q, cp) && !(0xD800 <= cp <= 0xDBFF)
    case Pair(cp, hi, lo) =>
      && 0x10000 <= cp <= 0x10FFFF
      && SpellsQuad(hi, 0xD800 + (cp - 0x10000) / 1024) && SpellsQuad(lo, 0xDC00 + (cp - 0x10000) % 1024)
  }

  function Code(c: char): byte {
    if (c as int) < 128 then c as int as byte else 0
  }

  function SpellChar(ch: Char): seq<byte> {
    match ch
    case Raw(c) => [c]
    case Short(k) => [Code('\\'), Code(if k < 8 then SHORT[k] else 'u')]
    case Escaped(_, q) => [Code('\\'), Code('u')] + q
    case Pair(_, hi, lo) => [Code('\\'), Code('u')] + hi + [Code('\\'), Code('u')] + lo
  }

  function CharMeans(ch: Char): seq<byte> {
    match ch
    case Raw(c) => [c]
    case Short(k) => [Code(if k < 8 then SHORT_MEANS[k] else 'u')]
    case Escaped(cp, _) => EncodeUtf8(cp)
    case Pair(cp, _, _) => EncodeUtf8(cp)
  }

  predicate ValidChars(chs: seq<Char>) {
    forall ch <- chs :: ValidChar(ch)
  }

  function SpellChars(chs: seq<Char>): seq<byte> {
    if chs == [] then [] else SpellChar(chs[0]) + SpellChars(chs[1..])
  }

  function CharsMean(chs: seq<Char>): seq<byte> {
    if chs == [] then [] else CharMeans(chs[0]) + CharsMean(chs[1..])
  }

  function SpellString(chs: seq<Char>): seq<byte> {
    [Code('"')] + SpellChars(chs) + [Code('"')]
  }

  // ---- hexadecimal digits ----

  /** The value of a digit in either case, and of nothing else. */
  lemma HexValueIff(b: byte, d: nat)
    ensures HexValue(b) == Some(d) <==> SpellsDigit(b, d)
  {
  }

  lemma QuadValue(s: seq<byte>)
    requires |s| == 4
    ensures HexPrefix(s, 4) ==
            match (HexValue(s[0]), HexValue(s[1]), HexValue(s[2]), HexValue(s[3]))
            case (Some(a), Some(b), Some(c), Some(d)) => Some(((a * 16 + b) * 16 + c) * 16 + d)
            case _ => None
  {
    hide HexValue;
    assert HexPrefix(s, 0) == Some(0);
    assert HexPrefix(s, 1) == HexValue(s[0]);
    assert HexPrefix(s, 2) == match (HexValue(s[0]), HexValue(s[1]))
                              case (Some(a), Some(b)) => Some(a * 16 + b)
                              case _ => None;
  }

  lemma FourDigits(a: nat, b: nat, c: nat, d: nat)
    requires a < 16 && b < 16 && c < 16 && d < 16
    ensures var v := ((a * 16 + b) * 16 + c) * 16 + d;
            v < 0x10000 && v / 4096 == a && v / 256 % 16 == b && v / 16 % 16 == c && v % 16 == d
  {
    var v := ((a * 16 + b) * 16 + c) * 16 + d;
    assert v / 16 == (a * 16 + b) * 16 + c;
    assert v / 256 == a * 16 + b;
  }

  /** Four digits in any mixture of cases, and no other four bytes, are read as
      the number they spell. */
  lemma Hex4Iff(s: seq<byte>, v: nat)
    ensures Hex4(s) == Some(v) <==> |s| >= 4 && SpellsQuad(s[..4], v)
  {
    if |s| >= 4 {
      var q := s[..4];
      FirstFour(s);
      hide *;
      QuadValue(q);
      HexDigitsOf(q[0]);
      HexDigitsOf(q[1]);
      HexDigitsOf(q[2]);
      HexDigitsOf(q[3]);
      QuadDigits(q, v);
      if HexValue(q[0]).Some? && HexValue(q[1]).Some? && HexValue(q[2]).Some? && HexValue(q[3]).Some? {
        QuadIff(q, HexValue(q[0]).value, HexValue(q[1]).value, HexValue(q[2]).value, HexValue(q[3]).value, v);
      }
    }
  }

  lemma FirstFour(s: seq<byte>)
    requires |s| >= 4
    ensures Hex4(s) == HexPrefix(s[..4], 4)
  {
    assert s == s[..4] + s[4..];
    HexPrefixOf(s[..4], s[4..], 4);
    hide HexPrefix;
  }

  lemma QuadDigits(q: seq<byte>, v: nat)
    ensures SpellsQuad(q, v) ==>
              |q| == 4 && v < 0x10000 &&
              (exists a: nat :: SpellsDigit(q[0], a)) && (exists b: nat :: SpellsDigit(q[1], b)) &&
              (exists c: nat :: SpellsDigit(q[2], c)) && (exists d: nat :: SpellsDigit(q[3], d))
  {
    hide SpellsDigit;
  }

  lemma HexDigitsOf(b: byte)
    ensures forall d: nat :: HexValue(b) == Some(d) <==> SpellsDigit(b, d)
    ensures HexValue(b).Some? ==> HexValue(b).value < 16
  {
    forall d: nat
      ensures HexValue(b) == Some(d) <==> SpellsDigit(b, d)
    {
      HexValueIff(b, d);
    }
  }

  lemma QuadIff(q: seq<byte>, a: nat, b: nat, c: nat, d: nat, v: nat)
    requires |q| == 4 && a < 16 && b < 16 && c < 16 && d < 16
    requires forall x: nat :: SpellsDigit(q[0], x) <==> x == a
    requires forall x: nat :: SpellsDigit(q[1], x) <==> x == b
    requires forall x: nat :: SpellsDigit(q[2], x) <==> x == c
    requires forall x: nat :: SpellsDigit(q[3], x) <==> x == d
    ensures SpellsQuad(q, v) <==> v == ((a * 16 + b) * 16 + c) * 16 + d
  {
    hide SpellsDigit;
    FourDigits(a, b, c, d);
    if v < 0x10000 {
      QuadSum(v);
    }
  }

  /** A code point outside the high surrogates, in any spelling of its one or two
      escapes, is decoded to itself. */
  lemma UnicodeAnyCase(ch: Char, rest: seq<byte>)
    requires ValidChar(ch) && (ch.Escaped? || ch.Pair?)
    ensures SpellChar(ch)[..2] == [BACKSLASH, LOWER_U]
    ensures UnicodeEscape(SpellChar(ch)[2..] + rest) == Some(Parsed(ch.cp, rest))
  {
    hide Hex4;
    hide SpellsQuad;
    match ch
    case Escaped(cp, q) =>
      QuadLength(q, cp);
      var s := q + rest;
      assert s[..4] == q && s[4..] == rest;
      Hex4Iff(s, cp);
      assert SpellChar(ch)[2..] == q;
    case Pair(cp, hi, lo) =>
      var u, l := 0xD800 + (cp - 0x10000) / 1024, 0xDC00 + (cp - 0x10000) % 1024;
      QuadLength(hi, u);
      QuadLength(lo, l);
      var s := hi + [BACKSLASH, LOWER_U] + lo + rest;
      assert s[..4] == hi && s[6..][..4] == lo && s[10..] == rest && s[4] == BACKSLASH && s[5] == LOWER_U;
      Hex4Iff(s, u);
      Hex4Iff(s[6..], l);
      assert SpellChar(ch)[2..] == hi + [BACKSLASH, LOWER_U] + lo;
  }

  lemma QuadLength(q: seq<byte>, v: nat)
    requires SpellsQuad(q, v)
    ensures |q| == 4 && v < 0x10000
  {
  }

  // ---- strings ----

  /** A valid character is read as what it means. */
  lemma CharReads(ch: Char, rest: seq<byte>)
    requires ValidChar(ch)
    ensures Chars(SpellChar(ch) + rest) == Prepend(CharMeans(ch), Chars(rest))
  {
    var s := SpellChar(ch) + rest;
    match ch
    case Raw(c) =>
      assert s[1..] == rest;
    case Short(k) =>
      assert s[1..] == [Code(SHORT[k])] + rest && s[1..][1..] == rest;
      ShortReads(k);
    case _ =>
      UnicodeAnyCase(ch, rest);
      CharLength(ch);
      hide ValidChar;
      hide SpellChar;
      hide UnicodeEscape;
      hide EncodeUtf8;
      EscapeReads(SpellChar(ch), rest, ch.cp);
  }

  lemma CharLength(ch: Char)
    requires ValidChar(ch)
    ensures |SpellChar(ch)| >= 1 && (!ch.Raw? ==> |SpellChar(ch)| >= 2)
    ensures ch.Escaped? || ch.Pair? ==> CharMeans(ch) == EncodeUtf8(ch.cp)
  {
  }

  lemma EscapeReads(text: seq<byte>, rest: seq<byte>, cp: nat)
    requires |text| >= 2 && text[..2] == [BACKSLASH, LOWER_U] && UnicodeEscape(text[2..] + rest) == Some(Parsed(cp, rest))
    ensures Chars(text + rest) == Prepend(EncodeUtf8(cp), Chars(rest))
  {
    hide UnicodeEscape;
    hide EncodeUtf8;
    var s := text + rest;
    assert s[0] == text[..2][0] && s[1] == text[..2][1];
    assert s[1..][1..] == text[2..] + rest;
  }

  lemma ShortReads(k: nat)
    requires k < 8
    ensures SimpleEscape(Code(SHORT[k])) == Some(Code(SHORT_MEANS[k])) && Code(SHORT[k]) != LOWER_U
  {
  }

  lemma ShortIs(c: byte) returns (k: nat)
    requires SimpleEscape(c).Some?
    ensures k < 8 && Code(SHORT[k]) == c && Code(SHORT_MEANS[k]) == SimpleEscape(c).value
  {
    k := if c == 34 then 0 else if c == 92 then 1 else if c == 47 then 2 else if c == 98 then 3
         else if c == 102 then 4 else if c == 110 then 5 else if c == 114 then 6 else 7;
  }

  lemma {:induction false} CharsRead(chs: seq<Char>, rest: seq<byte>)
    requires ValidChars(chs)
    ensures Chars(SpellChars(chs) + [QUOTE] + rest) == Some(Parsed(CharsMean(chs), rest))
  {
    hide *;
    if chs == [] {
      NoChars(rest);
    } else {
      CharsHead(chs);
      CharsRead(chs[1..], rest);
      assert SpellChar(chs[0]) + SpellChars(chs[1..]) + [QUOTE] + rest ==
             SpellChar(chs[0]) + (SpellChars(chs[1..]) + [QUOTE] + rest);
      CharReads(chs[0], SpellChars(chs[1..]) + [QUOTE] + rest);
      Prepended(CharMeans(chs[0]), CharsMean(chs[1..]), rest);
    }
  }

  lemma NoChars(rest: seq<byte>)
    ensures CharsMean([]) == [] && Chars(SpellChars([]) + [QUOTE] + rest) == Some(Parsed([], rest))
  {
    assert ([] + [QUOTE] + rest)[1..] == rest;
  }

  lemma CharsHead(chs: seq<Char>)
    requires chs != [] && ValidChars(chs)
    ensures ValidChar(chs[0]) && ValidChars(chs[1..])
    ensures SpellChars(chs) == SpellChar(chs[0]) + SpellChars(chs[1..])
    ensures CharsMean(chs) == CharMeans(chs[0]) + CharsMean(chs[1..])
  {
    hide ValidChar;
    hide SpellChar;
    hide CharMeans;
  }

  lemma Prepended(a: seq<byte>, b: seq<byte>, rest: seq<byte>)
    ensures Prepend(a, Some(Parsed(b, rest))) == Some(Parsed(a + b, rest))
  {
  }

  /** The one or two escapes that were read. */
  lemma UnicodeIs(s: seq<byte>) returns (ch: Char)
    requires UnicodeEscape(s).Some?
    ensures ValidChar(ch) && (ch.Escaped? || ch.Pair?) && ch.cp == UnicodeEscape(s).value.value
    ensures [BACKSLASH, LOWER_U] + s == SpellChar(ch) + UnicodeEscape(s).value.rest
  {
    hide Hex4;
    hide SpellsQuad;
    var u := Hex4(s).value;
    Hex4Iff(s, u);
    if 0xD800 <= u <= 0xDBFF {
      ch := PairIs(s, u);
    } else {
      QuadLength(s[..4], u);
      ch := Escaped(u, s[..4]);
      assert s == s[..4] + s[4..];
    }
  }

  lemma PairIs(s: seq<byte>, u: nat) returns (ch: Char)
    requires UnicodeEscape(s).Some? && |s| >= 4 && Hex4(s) == Some(u) && SpellsQuad(s[..4], u) && 0xD800 <= u <= 0xDBFF
    ensures ValidChar(ch) && ch.Pair? && ch.cp == UnicodeEscape(s).value.value
    ensures [BACKSLASH, LOWER_U] + s == SpellChar(ch) + UnicodeEscape(s).value.rest
  {
    hide Hex4;
    hide SpellsQuad;
    var l := Hex4(s[6..]).value;
    Hex4Iff(s[6..], l);
    var cp := 0x10000 + (u - 0xD800) * 1024 + (l - 0xDC00);
    Surrogates(u, l);
    assert UnicodeEscape(s) == Some(Parsed(cp, s[10..]));
    ch := Pair(cp, s[..4], s[6..][..4]);
    SplitTen(s);
    hide UnicodeEscape;
    assert SpellChar(ch) == [BACKSLASH, LOWER_U] + s[..4] + [BACKSLASH, LOWER_U] + s[6..][..4];
  }

  lemma Surrogates(u: nat, l: nat)
    requires 0xD800 <= u <= 0xDBFF && 0xDC00 <= l <= 0xDFFF
    ensures var cp := 0x10000 + (u - 0xD800) * 1024 + (l - 0xDC00);
            0x10000 <= cp <= 0x10FFFF && 0xD800 + (cp - 0x10000) / 1024 == u && 0xDC00 + (cp - 0x10000) % 1024 == l
  {
  }

  lemma SplitTen(s: seq<byte>)
    requires |s| >= 10
    ensures s == s[..4] + [s[4], s[5]] + s[6..][..4] + s[10..]
  {
  }

  /** One character at the front of what Chars accepts. */
  lemma CharIs(s: seq<byte>) returns (ch: Char, rest: seq<byte>)
    requires s != [] && s[0] != QUOTE && Chars(s).Some?
    ensures ValidChar(ch) && s == SpellChar(ch) + rest && |rest| < |s|
    ensures Chars(rest).Some? && Chars(s) == Prepend(CharMeans(ch), Chars(rest))
  {
    if s[0] == BACKSLASH {
      var e := Escape(s[1..]).value;
      rest := e.rest;
      if s[1] == LOWER_U {
        ch := UnicodeIs(s[1..][1..]);
        assert s == [BACKSLASH, LOWER_U] + s[1..][1..];
        hide SpellsQuad;
        hide UnicodeEscape;
      } else {
        var k := ShortIs(s[1]);
        ch := Short(k);
        assert s == [s[0], s[1]] + s[1..][1..];
      }
    } else {
      ch, rest := Raw(s[0]), s[1..];
    }
  }

  lemma {:induction false} CharsAre(s: seq<byte>) returns (chs: seq<Char>)
    requires Chars(s).Some?
    ensures ValidChars(chs) && s == SpellChars(chs) + [QUOTE] + Chars(s).value.rest
    ensures CharsMean(chs) == Chars(s).value.value
    decreases |s|
  {
    if s[0] == QUOTE {
      chs := [];
    } else {
      var ch, rest := CharIs(s);
      hide Chars;
      hide ValidChar;
      hide SpellChar;
      hide CharMeans;
      var more := CharsAre(rest);
      chs := [ch] + more;
      assert chs[1..] == more;
    }
  }

  /** MAIN RESULT for strings: what is accepted is exactly the spellings of
      character sequences, read as what they mean. */
  lemma StringIff(s: seq<byte>, v: seq<byte>, rest: seq<byte>)
    ensures ParseString(s) == Some(Parsed(v, rest)) <==>
            exists chs :: ValidChars(chs) && s == SpellString(chs) + rest && v == CharsMean(chs)
  {
    if ParseString(s) == Some(Parsed(v, rest)) {
      var chs := CharsAre(s[1..]);
      assert s == [QUOTE] + s[1..];
      assert s == SpellString(chs) + rest;
    }
    forall chs | ValidChars(chs) && s == SpellString(chs) + rest && v == CharsMean(chs)
      ensures ParseString(s) == Some(Parsed(v, rest))
    {
      StringReads(chs, rest);
    }
  }

  lemma StringReads(chs: seq<Char>, rest: seq<byte>)
    requires ValidChars(chs)
    ensures ParseString(SpellString(chs) + rest) == Some(Parsed(CharsMean(chs), rest))
  {
    hide *;
    CharsRead(chs, rest);
    QuotedReads(SpellChars(chs) + [QUOTE] + rest);
    StringSpelled(chs, rest);
  }

  lemma QuotedReads(s: seq<byte>)
    ensures ParseString([QUOTE] + s) == Chars(s)
  {
    hide Chars;
    assert ([QUOTE] + s)[1..] == s;
  }

  lemma StringSpelled(chs: seq<Char>, rest: seq<byte>)
    requires ValidChars(chs)
    ensures SpellString(chs) + rest == [QUOTE] + (SpellChars(chs) + [QUOTE] + rest)
  {
    hide SpellChars;
    hide ValidChars;
  }

  // ---- numbers ----

  datatype Exponent = Exponent(upper: bool, sign: seq<byte>, digits: seq<byte>)

  datatype Numeral = Numeral(negative: bool, whole: seq<byte>, frac: Option<seq<byte>>, exp: Option<Exponent>)

  predicate AllDecimal(s: seq<byte>) {
    s != [] && forall b <- s :: DecimalDigit(b)
  }

  predicate ValidWhole(whole: seq<byte>) {
    AllDecimal(whole) && (Is(whole[0], '0') ==> |whole| == 1)
  }

  predicate ValidFrac(frac: Option<seq<byte>>) {
    frac.Some? ==> AllDecimal(frac.value)
  }

  predicate ValidExp(exp: Option<Exponent>) {
    exp.Some? ==>
      && AllDecimal(exp.value.digits)
      && (exp.value.sign == [] || exp.value.sign == [Code('+')] || exp.value.sign == [Code('-')])
  }

  /** No superfluous leading zero; digits after the point and in the exponent. */
  predicate ValidNumeral(n: Numeral) {
    ValidWhole(n.whole) && ValidFrac(n.frac) && ValidExp(n.exp)
  }

  function SpellFrac(frac: Option<seq<byte>>): seq<byte> {
    match frac
    case Some(digits) => [Code('.')] + digits
    case None => []
  }

  function SpellExp(exp: Option<Exponent>): seq<byte> {
    match exp
    case Some(e) => [if e.upper then Code('E') else Code('e')] + e.sign + e.digits
    case None => []
  }

  function SpellNumeral(n: Numeral): seq<byte> {
    (if n.negative then [Code('-')] else []) + n.whole + SpellFrac(n.frac) + SpellExp(n.exp)
  }

  lemma Decimals(s: seq<byte>)
    requires forall b <- s :: DecimalDigit(b)
    ensures DigitRun(s) == |s|
  {
    forall i | 0 <= i < |s|
      ensures IsDigit(s[i])
    {
      assert s[i] in s;
    }
    AllDigits(s);
  }

  lemma DigitsThen(digits: seq<byte>, rest: seq<byte>)
    requires forall b <- digits :: DecimalDigit(b)
    requires rest == [] || !IsDigit(rest[0])
    ensures DigitRun(digits + rest) == |digits|
  {
    Decimals(digits);
    DigitRunExtends(digits, rest);
  }

  lemma ExpReads(exp: Option<Exponent>)
    requires ValidExp(exp)
    ensures ExpLen(SpellExp(exp)) == Some(|SpellExp(exp)|)
  {
    if exp.Some? {
      var e := exp.value;
      var s := SpellExp(exp);
      Decimals(e.digits);
      assert s[1 + |e.sign|..] == e.digits;
      assert e.sign == [] ==> s[1] == e.digits[0] && e.digits[0] in e.digits;
      assert e.sign != [] ==> s[1] == e.sign[0];
    }
  }

  lemma FracReads(frac: Option<seq<byte>>, rest: seq<byte>)
    requires ValidFrac(frac)
    requires rest == [] || Is(rest[0], 'e') || Is(rest[0], 'E')
    ensures FracLen(SpellFrac(frac) + rest) == Some(|SpellFrac(frac)|)
  {
    var s := SpellFrac(frac) + rest;
    if frac.Some? {
      assert s[1..] == frac.value + rest;
      DigitsThen(frac.value, rest);
    } else {
      assert s == rest;
    }
  }

  lemma WholeReads(whole: seq<byte>, rest: seq<byte>)
    requires ValidWhole(whole)
    requires rest == [] || !IsDigit(rest[0])
    ensures IntLen(whole + rest) == Some(|whole|)
  {
    DigitsThen(whole, rest);
    assert whole[0] in whole;
    hide DigitRun;
  }

  lemma TailStarts(n: Numeral)
    requires ValidNumeral(n)
    ensures SpellExp(n.exp) == [] || Is(SpellExp(n.exp)[0], 'e') || Is(SpellExp(n.exp)[0], 'E')
    ensures var tail := SpellFrac(n.frac) + SpellExp(n.exp); tail == [] || !IsDigit(tail[0])
  {
  }

  lemma NumeralReads(n: Numeral)
    requires ValidNumeral(n)
    ensures NumberLen(SpellNumeral(n)) == Some(|SpellNumeral(n)|)
  {
    var f, e := SpellFrac(n.frac), SpellExp(n.exp);
    var sign := if n.negative then [MINUS] else [];
    TailStarts(n);
    assert n.whole[0] in n.whole;
    WholeReads(n.whole, f + e);
    FracReads(n.frac, e);
    ExpReads(n.exp);
    hide *;
    NumberOfParts(sign, n.whole, f, e);
    SpelledSo(n);
  }

  lemma SpelledSo(n: Numeral)
    ensures SpellNumeral(n) == (if n.negative then [MINUS] else []) + n.whole + SpellFrac(n.frac) + SpellExp(n.exp)
  {
  }

  lemma NumberOfParts(sign: seq<byte>, whole: seq<byte>, f: seq<byte>, e: seq<byte>)
    requires (sign == [] || sign == [MINUS]) && whole != [] && whole[0] != MINUS
    requires IntLen(whole + (f + e)) == Some(|whole|) && FracLen(f + e) == Some(|f|) && ExpLen(e) == Some(|e|)
    ensures NumberLen(sign + whole + f + e) == Some(|sign + whole + f + e|)
  {
    hide IntLen;
    hide FracLen;
    hide ExpLen;
    var s := sign + whole + f + e;
    assert SignLen(s) == |sign|;
    assert s[|sign|..] == whole + (f + e);
    assert s[|sign| + |whole|..] == f + e;
    assert s[|sign| + |whole| + |f|..] == e;
  }

  lemma DigitsAre(s: seq<byte>, n: nat)
    requires n <= DigitRun(s)
    ensures n <= |s| && forall b <- s[..n] :: DecimalDigit(b)
  {
  }

  lemma ExpIs(s: seq<byte>) returns (exp: Option<Exponent>)
    requires ExpLen(s).Some?
    ensures ValidExp(exp) && SpellExp(exp) == s[..ExpLen(s).value]
  {
    if ExpLen(s).value == 0 {
      exp := None;
    } else {
      var sign := if |s| > 1 && (s[1] == PLUS || s[1] == MINUS) then 1 else 0;
      var tail := s[1 + sign..];
      var d := DigitRun(tail);
      assert ExpLen(s) == Some(1 + sign + d) && d > 0 && (s[0] == 69 || s[0] == 101);
      DigitsAre(tail, d);
      hide ExpLen;
      hide DigitRun;
      exp := Some(Exponent(s[0] == 69, s[1..1 + sign], tail[..d]));
      OnePart(s, 1 + sign, d);
      assert s[..1 + sign] == [s[0]] + s[1..1 + sign];
    }
  }

  lemma FracIs(s: seq<byte>) returns (frac: Option<seq<byte>>)
    requires FracLen(s).Some?
    ensures ValidFrac(frac) && SpellFrac(frac) == s[..FracLen(s).value]
  {
    if FracLen(s).value == 0 {
      frac := None;
    } else {
      var d := DigitRun(s[1..]);
      DigitsAre(s[1..], d);
      frac := Some(s[1..][..d]);
      assert s[..1 + d] == [s[0]] + s[1..][..d];
    }
  }

  lemma WholeIs(s: seq<byte>)
    requires IntLen(s).Some?
    ensures ValidWhole(s[..IntLen(s).value])
  {
  }

  lemma NumeralIs(s: seq<byte>) returns (n: Numeral)
    requires NumberLen(s).Some?
    ensures ValidNumeral(n) && SpellNumeral(n) == s[..NumberLen(s).value]
  {
    hide *;
    NumberParts(s);
    var i := SignLen(s);
    var a := IntLen(s[i..]).value;
    var b := FracLen(s[i + a..]).value;
    WholeIs(s[i..]);
    var frac := FracIs(s[i + a..]);
    var exp := ExpIs(s[i + a + b..]);
    var c := ExpLen(s[i + a + b..]).value;
    n := Numeral(i == 1, s[i..][..a], frac, exp);
    SpelledSo(n);
    SignIs(s);
    FourParts(s, i, a, b, c);
    NumeralValid(n);
  }

  lemma NumeralValid(n: Numeral)
    requires ValidWhole(n.whole) && ValidFrac(n.frac) && ValidExp(n.exp)
    ensures ValidNumeral(n)
  {
  }

  lemma SignIs(s: seq<byte>)
    ensures SignLen(s) <= 1 && SignLen(s) <= |s| && s[..SignLen(s)] == if SignLen(s) == 1 then [MINUS] else []
  {
  }

  lemma NumberParts(s: seq<byte>)
    requires NumberLen(s).Some?
    ensures var i := SignLen(s);
            IntLen(s[i..]).Some? &&
            var a := IntLen(s[i..]).value;
            FracLen(s[i + a..]).Some? &&
            var b := FracLen(s[i + a..]).value;
            ExpLen(s[i + a + b..]).Some? && NumberLen(s) == Some(i + a + b + ExpLen(s[i + a + b..]).value)
  {
    hide IntLen;
    hide FracLen;
    hide ExpLen;
  }

  lemma FourParts(s: seq<byte>, i: nat, a: nat, b: nat, c: nat)
    requires i + a + b + c <= |s|
    ensures s[..i + a + b + c] == s[..i] + s[i..][..a] + s[i + a..][..b] + s[i + a + b..][..c]
  {
    OnePart(s, i, a);
    OnePart(s, i + a, b);
    OnePart(s, i + a + b, c);
  }

  lemma OnePart(s: seq<byte>, i: nat, n: nat)
    requires i + n <= |s|
    ensures s[..i + n] == s[..i] + s[i..][..n]
  {
  }
}
