/** JSON values, their printed form, and the language the parser accepts, as
    functions on the remaining input. */
module Json {
  import opened Ir
  import opened Bytes
  import opened Wrappers

  // ---- values ----

  /** Numbers are finite doubles, given by their exact value. Keys are C
      strings: they hold no NUL. */
  datatype Json =
    | Null
    | Bool(b: bool)
    | Number(n: real)
    | Str(s: seq<byte>)
    | Arr(items: seq<Json>)
    | Obj(fields: seq<Field>)

  datatype Field = Field(key: CStr, value: Json)

  /** The two conversions of the C library: `strtod` on a whole lexeme (None
      when it rejects it), and printing with 17 significant digits. */
  datatype Libc = Libc(strtod: seq<byte> -> Option<real>, format: real -> seq<byte>)

  // ---- bytes ----

  const QUOTE: byte := 34
  const BACKSLASH: byte := 92
  const SLASH: byte := 47
  const COMMA: byte := 44
  const COLON: byte := 58
  const MINUS: byte := 45
  const PLUS: byte := 43
  const DOT: byte := 46
  const ZERO: byte := 48
  const NINE: byte := 57
  const OPEN_BRACKET: byte := 91
  const CLOSE_BRACKET: byte := 93
  const OPEN_BRACE: byte := 123
  const CLOSE_BRACE: byte := 125
  const LOWER_U: byte := 117
  const NULL_TEXT: seq<byte> := [110, 117, 108, 108]
  const TRUE_TEXT: seq<byte> := [116, 114, 117, 101]
  const FALSE_TEXT: seq<byte> := [102, 97, 108, 115, 101]

  predicate IsSpace(c: byte) {
    c == 32 || c == 9 || c == 10 || c == 13
  }

  predicate IsDigit(c: byte) {
    ZERO <= c <= NINE
  }

  predicate StartsWith(s: seq<byte>, c: byte) {
    s != [] && s[0] == c
  }

  // ---- printing ----

  function HexDigit(d: nat): byte
    requires d < 16
  {
    if d < 10 then (48 + d) as byte else (87 + d) as byte
  }

  /** The escape of one byte inside a string. */
  function EscapeByte(c: byte): seq<byte> {
    if c == QUOTE then [BACKSLASH, QUOTE]
    else if c == BACKSLASH then [BACKSLASH, BACKSLASH]
    else if c == 8 then [BACKSLASH, 98]
    else if c == 12 then [BACKSLASH, 102]
    else if c == 10 then [BACKSLASH, 110]
    else if c == 13 then [BACKSLASH, 114]
    else if c == 9 then [BACKSLASH, 116]
    else if c < 32 then [BACKSLASH, LOWER_U, ZERO, ZERO, HexDigit(c as nat / 16), HexDigit(c as nat % 16)]
    else [c]
  }

  function EscapeAll(s: seq<byte>): seq<byte> {
    if s == [] then [] else EscapeByte(s[0]) + EscapeAll(s[1..])
  }

  function PrintString(s: seq<byte>): seq<byte> {
    [QUOTE] + EscapeAll(s) + [QUOTE]
  }

  function Digits(n: nat): (r: seq<byte>)
    ensures r != [] && forall i :: 0 <= i < |r| ==> IsDigit(r[i])
    ensures n != 0 ==> r[0] != ZERO
    ensures n == 0 ==> r == [ZERO]
  {
    if n < 10 then [(48 + n) as byte] else Digits(n / 10) + [(48 + n % 10) as byte]
  }

  function Decimal(n: int): seq<byte> {
    if n < 0 then [MINUS] + Digits(-n) else Digits(n)
  }

  const MAX_PLAIN := 1_000_000_000_000_000

  /** Numbers printed without a decimal point. */
  predicate PlainInteger(r: real) {
    r == r.Floor as real && -MAX_PLAIN <= r.Floor <= MAX_PLAIN
  }

  function PrintNumber(lib: Libc, r: real): seq<byte> {
    if PlainInteger(r) then Decimal(r.Floor) else lib.format(r)
  }

  function Print(lib: Libc, v: Json): seq<byte>
    decreases v
  {
    match v
    case Null => NULL_TEXT
    case Bool(b) => if b then TRUE_TEXT else FALSE_TEXT
    case Number(n) => PrintNumber(lib, n)
    case Str(s) => PrintString(s)
    case Arr(items) => [OPEN_BRACKET] + PrintItems(lib, items) + [CLOSE_BRACKET]
    case Obj(fields) => [OPEN_BRACE] + PrintFields(lib, fields) + [CLOSE_BRACE]
  }

  function PrintItems(lib: Libc, items: seq<Json>): seq<byte>
    decreases items
  {
    if items == [] then []
    else if |items| == 1 then Print(lib, items[0])
    else Print(lib, items[0]) + [COMMA] + PrintItems(lib, items[1..])
  }

  function PrintField(lib: Libc, f: Field): seq<byte>
    decreases f
  {
    PrintString(f.key) + [COLON] + Print(lib, f.value)
  }

  function PrintFields(lib: Libc, fields: seq<Field>): seq<byte>
    decreases fields
  {
    if fields == [] then []
    else if |fields| == 1 then PrintField(lib, fields[0])
    else PrintField(lib, fields[0]) + [COMMA] + PrintFields(lib, fields[1..])
  }

  // ---- the accepted language ----

  function SkipSpace(s: seq<byte>): (r: seq<byte>)
    ensures |r| <= |s|
    ensures r != [] ==> !IsSpace(r[0])
  {
    if s != [] && IsSpace(s[0]) then SkipSpace(s[1..]) else s
  }

  function HexValue(c: byte): Option<nat> {
    if IsDigit(c) then Some(c as nat - 48)
    else if 97 <= c <= 102 then Some(c as nat - 87)
    else if 65 <= c <= 70 then Some(c as nat - 55)
    else None
  }

  /** The value of the first n hexadecimal digits. */
  function HexPrefix(s: seq<byte>, n: nat): (r: Option<nat>)
    requires n <= |s|
  {
    if n == 0 then Some(0)
    else
      match (HexPrefix(s, n - 1), HexValue(s[n - 1]))
      case (Some(v), Some(d)) => Some(v * 16 + d)
      case _ => None
  }

  function Hex4(s: seq<byte>): Option<nat> {
    if |s| < 4 then None else HexPrefix(s, 4)
  }

  function EncodeUtf8(cp: nat): seq<byte> {
    if cp <= 0x7F then [cp as byte]
    else if cp <= 0x7FF then [(0xC0 + cp / 64) as byte, (0x80 + cp % 64) as byte]
    else if cp <= 0xFFFF then
      [(0xE0 + cp / 4096) as byte, (0x80 + cp / 64 % 64) as byte, (0x80 + cp % 64) as byte]
    else if cp <= 0x10FFFF then
      [(0xF0 + cp / 262144) as byte, (0x80 + cp / 4096 % 64) as byte, (0x80 + cp / 64 % 64) as byte,
       (0x80 + cp % 64) as byte]
    else []
  }

  datatype Parsed<T> = Parsed(value: T, rest: seq<byte>)

  /** After `\u`: four hex digits, and a second escape after a high surrogate. */
  function UnicodeEscape(s: seq<byte>): (r: Option<Parsed<nat>>)
    ensures r.Some? ==> |r.value.rest| < |s| && r.value.value <= 0x10FFFF
  {
    match Hex4(s)
    case None => None
    case Some(hi) =>
      if !(0xD800 <= hi <= 0xDBFF) then (if hi <= 0xFFFF then Some(Parsed(hi, s[4..])) else None)
      else if |s| < 10 || s[4] != BACKSLASH || s[5] != LOWER_U then None
      else
        match Hex4(s[6..])
        case None => None
        case Some(lo) =>
          if lo < 0xDC00 || lo > 0xDFFF then None
          else Some(Parsed(0x10000 + (hi - 0xD800) * 1024 + (lo - 0xDC00), s[10..]))
  }

  /** The byte a one-letter escape stands for. */
  function SimpleEscape(c: byte): Option<byte> {
    if c == QUOTE then Some(QUOTE)
    else if c == BACKSLASH then Some(BACKSLASH)
    else if c == SLASH then Some(SLASH)
    else if c == 98 then Some(8)
    else if c == 102 then Some(12)
    else if c == 110 then Some(10)
    else if c == 114 then Some(13)
    else if c == 116 then Some(9)
    else None
  }

  /** What follows a backslash. */
  function Escape(s: seq<byte>): (r: Option<Parsed<seq<byte>>>)
    ensures r.Some? ==> |r.value.rest| < |s|
  {
    if s == [] then None
    else if s[0] == LOWER_U then
      match UnicodeEscape(s[1..])
      case Some(p) => Some(Parsed(EncodeUtf8(p.value), p.rest))
      case None => None
    else
      match SimpleEscape(s[0])
      case Some(c) => Some(Parsed([c], s[1..]))
      case None => None
  }

  function Prepend<T>(a: seq<T>, r: Option<Parsed<seq<T>>>): Option<Parsed<seq<T>>> {
    match r
    case Some(p) => Some(Parsed(a + p.value, p.rest))
    case None => None
  }

  /** The inside of a string, up to and with the closing quote. */
  function Chars(s: seq<byte>): (r: Option<Parsed<seq<byte>>>)
    ensures r.Some? ==> |r.value.rest| < |s|
  {
    if s == [] then None
    else if s[0] == QUOTE then Some(Parsed([], s[1..]))
    else if s[0] == BACKSLASH then
      match Escape(s[1..])
      case Some(p) => Prepend(p.value, Chars(p.rest))
      case None => None
    else if s[0] < 32 then None
    else Prepend([s[0]], Chars(s[1..]))
  }

  function ParseString(s: seq<byte>): (r: Option<Parsed<seq<byte>>>)
    ensures r.Some? ==> |r.value.rest| < |s|
  {
    if StartsWith(s, QUOTE) then Chars(s[1..]) else None
  }

  /** The number of digits s starts with. */
  function DigitRun(s: seq<byte>): (n: nat)
    ensures n <= |s|
    ensures forall i :: 0 <= i < n ==> IsDigit(s[i])
    ensures n < |s| ==> !IsDigit(s[n])
  {
    if s != [] && IsDigit(s[0]) then 1 + DigitRun(s[1..]) else 0
  }

  /** Lengths of the parts of a number: sign, integer, fraction, exponent;
      None where a part is malformed. */
  function SignLen(s: seq<byte>): (n: nat)
    ensures n <= |s|
  {
    if StartsWith(s, MINUS) then 1 else 0
  }

  function IntLen(s: seq<byte>): (n: Option<nat>)
    ensures n.Some? ==> 0 < n.value <= |s|
  {
    if s == [] then None
    else if s[0] == ZERO then Some(1)
    else if IsDigit(s[0]) then Some(DigitRun(s))
    else None
  }

  function FracLen(s: seq<byte>): (n: Option<nat>)
    ensures n.Some? ==> n.value <= |s|
  {
    if !StartsWith(s, DOT) then Some(0)
    else if DigitRun(s[1..]) == 0 then None
    else Some(1 + DigitRun(s[1..]))
  }

  function ExpLen(s: seq<byte>): (n: Option<nat>)
    ensures n.Some? ==> n.value <= |s|
  {
    if s == [] || (s[0] != 101 && s[0] != 69) then Some(0)
    else
      var sign := if |s| > 1 && (s[1] == PLUS || s[1] == MINUS) then 1 else 0;
      var d := DigitRun(s[1 + sign..]);
      if d == 0 then None else Some(1 + sign + d)
  }

  function NumberLen(s: seq<byte>): (n: Option<nat>)
    ensures n.Some? ==> 0 < n.value <= |s|
  {
    var i := SignLen(s);
    match IntLen(s[i..])
    case None => None
    case Some(a) =>
      match FracLen(s[i + a..])
      case None => None
      case Some(b) =>
        match ExpLen(s[i + a + b..])
        case None => None
        case Some(c) => Some(i + a + b + c)
  }

  function ParseNumber(lib: Libc, s: seq<byte>): (r: Option<Parsed<Json>>)
    ensures r.Some? ==> |r.value.rest| < |s|
  {
    match NumberLen(s)
    case None => None
    case Some(n) =>
      match lib.strtod(s[..n])
      case None => None
      case Some(x) => Some(Parsed(Number(x), s[n..]))
  }

  function Literal(text: seq<byte>, v: Json, s: seq<byte>): (r: Option<Parsed<Json>>)
    requires text != []
    ensures r.Some? ==> |r.value.rest| < |s|
  {
    if text <= s then Some(Parsed(v, s[|text|..])) else None
  }

  function ParseValue(lib: Libc, input: seq<byte>): (r: Option<Parsed<Json>>)
    ensures r.Some? ==> |r.value.rest| < |input|
    decreases |input|, 1
  {
    var s := SkipSpace(input);
    if s == [] then None
    else if s[0] == QUOTE then
      match ParseString(s)
      case Some(p) => Some(Parsed(Str(p.value), p.rest))
      case None => None
    else if s[0] == OPEN_BRACE then
      if StartsWith(SkipSpace(s[1..]), CLOSE_BRACE) then Some(Parsed(Obj([]), SkipSpace(s[1..])[1..]))
      else
        match ParseMembers(lib, SkipSpace(s[1..]))
        case Some(p) => Some(Parsed(Obj(Collapse(p.value)), p.rest))
        case None => None
    else if s[0] == OPEN_BRACKET then
      if StartsWith(SkipSpace(s[1..]), CLOSE_BRACKET) then Some(Parsed(Arr([]), SkipSpace(s[1..])[1..]))
      else
        match ParseItems(lib, SkipSpace(s[1..]))
        case Some(p) => Some(Parsed(Arr(p.value), p.rest))
        case None => None
    else if s[0] == 116 then Literal(TRUE_TEXT, Json.Bool(true), s)
    else if s[0] == 102 then Literal(FALSE_TEXT, Json.Bool(false), s)
    else if s[0] == 110 then Literal(NULL_TEXT, Null, s)
    else if s[0] == MINUS || IsDigit(s[0]) then ParseNumber(lib, s)
    else None
  }

  /** Items up to and with the closing bracket. */
  function ParseItems(lib: Libc, s: seq<byte>): (r: Option<Parsed<seq<Json>>>)
    ensures r.Some? ==> |r.value.rest| < |s|
    decreases |s|, 2
  {
    match ParseValue(lib, s)
    case None => None
    case Some(p) =>
      var t := SkipSpace(p.rest);
      if StartsWith(t, COMMA) then Prepend([p.value], ParseItems(lib, t[1..]))
      else if StartsWith(t, CLOSE_BRACKET) then Some(Parsed([p.value], t[1..]))
      else None
  }

  /** One member: a key, a colon, a value. */
  function ParseMember(lib: Libc, s: seq<byte>): (r: Option<Parsed<Field>>)
    ensures r.Some? ==> |r.value.rest| < |s|
    decreases |s|, 2
  {
    match ParseString(SkipSpace(s))
    case None => None
    case Some(k) =>
      var t := SkipSpace(k.rest);
      if !StartsWith(t, COLON) then None
      else
        match ParseValue(lib, t[1..])
        case None => None
        case Some(p) => Some(Parsed(Field(UntilNul(k.value), p.value), p.rest))
  }

  /** Members in the order given, duplicates included. */
  function ParseMembers(lib: Libc, s: seq<byte>): (r: Option<Parsed<seq<Field>>>)
    ensures r.Some? ==> |r.value.rest| < |s|
    decreases |s|, 3
  {
    match ParseMember(lib, s)
    case None => None
    case Some(p) =>
      var t := SkipSpace(p.rest);
      if StartsWith(t, COMMA) then Prepend([p.value], ParseMembers(lib, t[1..]))
      else if StartsWith(t, CLOSE_BRACE) then Some(Parsed([p.value], t[1..]))
      else None
  }

  // ---- duplicate keys ----

  /** What C sees of a byte string: everything before the first NUL. */
  function UntilNul(s: seq<byte>): (r: CStr)
    ensures r <= s && (|r| < |s| ==> s[|r|] == 0)
  {
    if s == [] || s[0] == 0 then []
    else
      var rest: seq<byte> := UntilNul(s[1..]);
      [s[0]] + rest
  }

  function KeyIndex(fields: seq<Field>, key: CStr): (k: nat)
    ensures k <= |fields|
    ensures k < |fields| ==> fields[k].key == key
    ensures forall i :: 0 <= i < k ==> fields[i].key != key
  {
    if fields == [] || fields[0].key == key then 0 else 1 + KeyIndex(fields[1..], key)
  }

  /** A member whose key is present replaces the value there. */
  function SetField(fields: seq<Field>, f: Field): seq<Field> {
    var k := KeyIndex(fields, f.key);
    if k < |fields| then fields[k := Field(fields[k].key, f.value)] else fields + [f]
  }

  function Collapse(given: seq<Field>): seq<Field> {
    if given == [] then [] else SetField(Collapse(given[..|given| - 1]), given[|given| - 1])
  }

  /** The whole input is one value. */
  function Parse(lib: Libc, input: seq<byte>): Option<Json> {
    match ParseValue(lib, input)
    case None => None
    case Some(p) => if SkipSpace(p.rest) == [] then Some(p.value) else None
  }
}
