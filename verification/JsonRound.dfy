/** Parsing undoes printing, and what parsing promises about objects. */
module JsonRound {
  import opened Ir
  import opened Bytes
  import opened Json
  import opened Wrappers

  // ---- strings ----

  lemma HexRound(c: byte)
    requires c < 32
    ensures Hex4([ZERO, ZERO, HexDigit(c as nat / 16), HexDigit(c as nat % 16)]) == Some(c as nat)
  {
    var s := [ZERO, ZERO, HexDigit(c as nat / 16), HexDigit(c as nat % 16)];
    assert HexPrefix(s, 1) == Some(0);
    assert HexPrefix(s, 2) == Some(0);
    assert HexPrefix(s, 3) == Some(c as nat / 16);
  }

  lemma {:induction false} HexPrefixOf(s: seq<byte>, t: seq<byte>, n: nat)
    requires n <= |s|
    ensures HexPrefix(s + t, n) == HexPrefix(s, n)
  {
    if n > 0 {
      HexPrefixOf(s, t, n - 1);
    }
  }

  /** One escaped byte is read back as that byte. */
  lemma ControlRound(c: byte, rest: seq<byte>)
    requires c < 32 && |EscapeByte(c)| == 6
    ensures Chars(EscapeByte(c) + rest) == Prepend([c], Chars(rest))
  {
    var e := EscapeByte(c);
    var hex := [ZERO, ZERO, HexDigit(c as nat / 16), HexDigit(c as nat % 16)];
    HexRound(c);
    HexPrefixOf(hex, rest, 4);
    assert (e + rest)[1..] == [LOWER_U] + hex + rest;
    assert ([LOWER_U] + hex + rest)[1..] == hex + rest;
    assert (hex + rest)[4..] == rest;
    hide HexPrefix;
    assert UnicodeEscape(hex + rest) == Some(Parsed(c as nat, rest));
  }

  lemma EscapeRound(c: byte, rest: seq<byte>)
    ensures Chars(EscapeByte(c) + rest) == Prepend([c], Chars(rest))
  {
    var e := EscapeByte(c);
    if c < 32 && |e| == 6 {
      ControlRound(c, rest);
    } else if |e| == 2 {
      assert (e + rest)[1..] == [e[1]] + rest;
      assert ([e[1]] + rest)[1..] == rest;
    } else {
      assert (e + rest)[1..] == rest;
    }
  }

  lemma {:induction false} EscapeAllRound(s: seq<byte>, post: seq<byte>)
    ensures Chars(EscapeAll(s) + [QUOTE] + post) == Some(Parsed(s, post))
  {
    hide Escape;
    hide EscapeByte;
    if s == [] {
      assert ([] + [QUOTE] + post)[1..] == post;
    } else {
      hide Chars;
      EscapeAllRound(s[1..], post);
      EscapeRound(s[0], EscapeAll(s[1..]) + [QUOTE] + post);
      assert EscapeAll(s) + [QUOTE] + post == EscapeByte(s[0]) + (EscapeAll(s[1..]) + [QUOTE] + post);
      assert [s[0]] + s[1..] == s;
    }
  }

  lemma Unquoted(e: seq<byte>, post: seq<byte>)
    ensures var text := [QUOTE] + e + [QUOTE] + post; text[0] == QUOTE && text[1..] == e + [QUOTE] + post
  {
  }

  /** Strings with any bytes come back unchanged. */
  lemma StringRound(s: seq<byte>, post: seq<byte>)
    ensures ParseString(PrintString(s) + post) == Some(Parsed(s, post))
  {
    EscapeAllRound(s, post);
    Unquoted(EscapeAll(s), post);
    hide Chars;
    hide EscapeAll;
  }

  // ---- numbers ----

  /** What may follow a number without becoming part of it. */
  predicate EndsNumber(post: seq<byte>) {
    post == [] || (!IsDigit(post[0]) && post[0] != DOT && post[0] != 101 && post[0] != 69)
  }

  lemma {:induction false} DigitRunExtends(s: seq<byte>, post: seq<byte>)
    requires post == [] || !IsDigit(post[0])
    ensures DigitRun(s + post) == DigitRun(s)
  {
    if s == [] {
      assert s + post == post;
    } else {
      assert (s + post)[1..] == s[1..] + post;
      DigitRunExtends(s[1..], post);
    }
  }

  lemma DropExtends(s: seq<byte>, post: seq<byte>, n: nat)
    requires n <= |s|
    ensures (s + post)[n..] == s[n..] + post
  {
  }

  lemma ExpExtends(s: seq<byte>, post: seq<byte>)
    requires EndsNumber(post) && ExpLen(s) == Some(|s|)
    ensures ExpLen(s + post) == Some(|s|)
  {
    if s == [] {
      assert s + post == post;
    } else {
      var sign := if |s| > 1 && (s[1] == PLUS || s[1] == MINUS) then 1 else 0;
      DropExtends(s, post, 1 + sign);
      DigitRunExtends(s[1 + sign..], post);
    }
  }

  lemma FracExtends(s: seq<byte>, post: seq<byte>)
    requires EndsNumber(post) && FracLen(s).Some?
    ensures FracLen(s + post) == FracLen(s)
  {
    if s == [] {
      assert s + post == post;
    } else {
      DropExtends(s, post, 1);
      DigitRunExtends(s[1..], post);
    }
  }

  lemma IntExtends(s: seq<byte>, post: seq<byte>)
    requires EndsNumber(post) && IntLen(s).Some?
    ensures IntLen(s + post) == IntLen(s)
  {
    DigitRunExtends(s, post);
  }

  /** A complete number stays the same number before a delimiter. */
  lemma NumberExtends(s: seq<byte>, post: seq<byte>)
    requires EndsNumber(post) && NumberLen(s) == Some(|s|)
    ensures NumberLen(s + post) == Some(|s|)
  {
    hide IntLen;
    hide FracLen;
    hide ExpLen;
    var i := SignLen(s);
    var a := IntLen(s[i..]).value;
    var b := FracLen(s[i + a..]).value;
    assert SignLen(s + post) == i;
    DropExtends(s, post, i);
    DropExtends(s, post, i + a);
    DropExtends(s, post, i + a + b);
    IntExtends(s[i..], post);
    FracExtends(s[i + a..], post);
    ExpExtends(s[i + a + b..], post);
  }

  lemma {:induction false} AllDigits(s: seq<byte>)
    requires forall i :: 0 <= i < |s| ==> IsDigit(s[i])
    ensures DigitRun(s) == |s|
  {
    if s != [] {
      AllDigits(s[1..]);
    }
  }

  /** A decimal integer is a number in the sense of the grammar. */
  lemma DecimalIsNumber(n: int)
    ensures NumberLen(Decimal(n)) == Some(|Decimal(n)|)
  {
    var s := Decimal(n);
    var m: nat := if n < 0 then -n else n;
    var i := SignLen(s);
    assert s[i..] == Digits(m);
    AllDigits(Digits(m));
    assert s[|s|..] == [];
    assert IntLen(s[i..]) == Some(|Digits(m)|);
  }

  // ---- values ----

  /** What the C library is relied on for: integers within 10^15 are read
      exactly, and any other printed double is a JSON number read back as the
      same double. */
  ghost predicate ReadsIntegers(lib: Libc) {
    forall n: int {:trigger Decimal(n)} :: -MAX_PLAIN <= n <= MAX_PLAIN ==> lib.strtod(Decimal(n)) == Some(n as real)
  }

  predicate ReadsBack(lib: Libc, r: real) {
    PlainInteger(r) || (NumberLen(lib.format(r)) == Some(|lib.format(r)|) && lib.strtod(lib.format(r)) == Some(r))
  }

  predicate DistinctKeys(fields: seq<Field>) {
    forall i, j :: 0 <= i < j < |fields| ==> fields[i].key != fields[j].key
  }

  /** Distinct keys in every object, and numbers the C library reads back. */
  predicate Printable(lib: Libc, v: Json)
    decreases v
  {
    match v
    case Number(n) => ReadsBack(lib, n)
    case Arr(items) => forall i :: 0 <= i < |items| ==> Printable(lib, items[i])
    case Obj(fields) => DistinctKeys(fields) && forall i :: 0 <= i < |fields| ==> Printable(lib, fields[i].value)
    case _ => true
  }

  lemma NumberRound(lib: Libc, n: real, post: seq<byte>)
    requires ReadsIntegers(lib) && ReadsBack(lib, n) && EndsNumber(post)
    ensures ParseNumber(lib, PrintNumber(lib, n) + post) == Some(Parsed(Number(n), post))
    ensures PrintNumber(lib, n) != [] && (PrintNumber(lib, n)[0] == MINUS || IsDigit(PrintNumber(lib, n)[0]))
  {
    var text := PrintNumber(lib, n);
    if PlainInteger(n) {
      DecimalIsNumber(n.Floor);
      assert lib.strtod(text) == Some(n);
    }
    NumberExtends(text, post);
    StartOfNumber(text);
    hide NumberLen;
    hide PrintNumber;
    assert (text + post)[..|text|] == text;
    assert (text + post)[|text|..] == post;
  }

  lemma StartOfNumber(s: seq<byte>)
    requires NumberLen(s).Some?
    ensures s != [] && (s[0] == MINUS || IsDigit(s[0]))
  {
  }

  /** The first byte printed tells the kind of value. */
  lemma FirstByte(lib: Libc, v: Json)
    requires ReadsIntegers(lib) && Printable(lib, v)
    ensures Print(lib, v) != [] && !IsSpace(Print(lib, v)[0])
    ensures Print(lib, v)[0] != CLOSE_BRACKET
  {
    if v.Number? {
      NumberRound(lib, v.n, []);
    }
  }

  lemma NoSpace(s: seq<byte>)
    requires s == [] || !IsSpace(s[0])
    ensures SkipSpace(s) == s
  {
  }

  lemma LiteralRound(text: seq<byte>, v: Json, post: seq<byte>)
    requires text != []
    ensures Literal(text, v, text + post) == Some(Parsed(v, post))
  {
    assert (text + post)[|text|..] == post;
  }

  lemma AtomRound(lib: Libc, v: Json, post: seq<byte>)
    requires ReadsIntegers(lib) && Printable(lib, v) && EndsNumber(post) && !v.Arr? && !v.Obj?
    ensures ParseValue(lib, Print(lib, v) + post) == Some(Parsed(v, post))
  {
    FirstByte(lib, v);
    NoSpace(Print(lib, v) + post);
    match v
    case Null =>
      LiteralRound(NULL_TEXT, v, post);
    case Bool(b) =>
      LiteralRound(if b then TRUE_TEXT else FALSE_TEXT, v, post);
    case Number(n) =>
      NumberRound(lib, n, post);
      hide PrintNumber;
      hide ParseNumber;
    case Str(s) =>
      StringRound(s, post);
      hide ParseString;
  }

  /** Reading an array whose items are read back. */
  lemma ArrayRound(lib: Libc, items: seq<Json>, post: seq<byte>)
    requires items != [] ==>
      && ParseItems(lib, PrintItems(lib, items) + [CLOSE_BRACKET] + post) == Some(Parsed(items, post))
      && PrintItems(lib, items) != []
      && !IsSpace(PrintItems(lib, items)[0]) && PrintItems(lib, items)[0] != CLOSE_BRACKET
    ensures ParseValue(lib, Print(lib, Arr(items)) + post) == Some(Parsed(Arr(items), post))
  {
    hide ParseString;
    hide ParseNumber;
    hide ParseMembers;
    hide ParseItems;
    hide Literal;
    var text := Print(lib, Arr(items)) + post;
    NoSpace(text);
    var inner := PrintItems(lib, items) + [CLOSE_BRACKET] + post;
    assert text[1..] == inner;
    NoSpace(inner);
    hide SkipSpace;
    if items == [] {
      assert inner[1..] == post;
    }
  }

  lemma ObjectRound(lib: Libc, fields: seq<Field>, post: seq<byte>)
    requires DistinctKeys(fields)
    requires fields != [] ==>
      ParseMembers(lib, PrintFields(lib, fields) + [CLOSE_BRACE] + post) == Some(Parsed(fields, post))
    ensures ParseValue(lib, Print(lib, Obj(fields)) + post) == Some(Parsed(Obj(fields), post))
  {
    hide ParseString;
    hide ParseNumber;
    hide ParseItems;
    hide ParseMembers;
    hide Literal;
    hide Collapse;
    var text := Print(lib, Obj(fields)) + post;
    NoSpace(text);
    var inner := PrintFields(lib, fields) + [CLOSE_BRACE] + post;
    assert text[1..] == inner;
    CollapseDistinct(fields);
    if fields != [] {
      FieldStarts(lib, fields);
    }
    NoSpace(inner);
    hide SkipSpace;
    if fields == [] {
      assert inner[1..] == post;
    }
  }

  lemma FieldStarts(lib: Libc, fields: seq<Field>)
    requires fields != []
    ensures PrintFields(lib, fields) != [] && PrintFields(lib, fields)[0] == QUOTE
  {
    assert PrintField(lib, fields[0])[0] == QUOTE;
  }

  /** MAIN RESULT. Every printable value, printed and followed by a delimiter
      or the end of the input, is read back as itself. */
  lemma {:induction false} ValueRound(lib: Libc, v: Json, post: seq<byte>)
    requires ReadsIntegers(lib) && Printable(lib, v) && EndsNumber(post)
    ensures ParseValue(lib, Print(lib, v) + post) == Some(Parsed(v, post))
    decreases v, 1
  {
    match v
    case Arr(items) =>
      if items != [] {
        ItemsRound(lib, items, post);
      }
      ArrayRound(lib, items, post);
    case Obj(fields) =>
      if fields != [] {
        FieldsRound(lib, fields, post);
      }
      ObjectRound(lib, fields, post);
    case _ =>
      AtomRound(lib, v, post);
  }

  lemma LastItem(lib: Libc, text: seq<byte>, v: Json, post: seq<byte>)
    requires ParseValue(lib, text + ([CLOSE_BRACKET] + post)) == Some(Parsed(v, [CLOSE_BRACKET] + post))
    ensures ParseItems(lib, text + ([CLOSE_BRACKET] + post)) == Some(Parsed([v], post))
  {
    hide ParseValue;
    assert ([CLOSE_BRACKET] + post)[1..] == post;
  }

  lemma NextItem(lib: Libc, text: seq<byte>, v: Json, more: seq<byte>)
    requires ParseValue(lib, text + ([COMMA] + more)) == Some(Parsed(v, [COMMA] + more))
    ensures ParseItems(lib, text + ([COMMA] + more)) == Prepend([v], ParseItems(lib, more))
  {
    hide ParseValue;
    assert ([COMMA] + more)[1..] == more;
  }

  lemma {:induction false} ItemsRound(lib: Libc, items: seq<Json>, post: seq<byte>)
    requires ReadsIntegers(lib) && items != [] && forall i :: 0 <= i < |items| ==> Printable(lib, items[i])
    ensures ParseItems(lib, PrintItems(lib, items) + [CLOSE_BRACKET] + post) == Some(Parsed(items, post))
    ensures PrintItems(lib, items) != []
    ensures !IsSpace(PrintItems(lib, items)[0]) && PrintItems(lib, items)[0] != CLOSE_BRACKET
    decreases items
  {
    hide Print;
    hide ParseValue;
    hide ParseItems;
    hide Printable;
    FirstByte(lib, items[0]);
    var first := Print(lib, items[0]);
    if |items| == 1 {
      ValueRound(lib, items[0], [CLOSE_BRACKET] + post);
      assert PrintItems(lib, items) + [CLOSE_BRACKET] + post == first + ([CLOSE_BRACKET] + post);
      LastItem(lib, first, items[0], post);
      assert items == [items[0]];
    } else {
      var more := PrintItems(lib, items[1..]) + [CLOSE_BRACKET] + post;
      ItemsRound(lib, items[1..], post);
      ValueRound(lib, items[0], [COMMA] + more);
      assert PrintItems(lib, items) + [CLOSE_BRACKET] + post == first + ([COMMA] + more);
      NextItem(lib, first, items[0], more);
      assert items == [items[0]] + items[1..];
    }
  }

  lemma MemberReads(lib: Libc, key: CStr, text: seq<byte>, v: Json, post: seq<byte>)
    requires ParseValue(lib, text + post) == Some(Parsed(v, post))
    ensures ParseMember(lib, PrintString(key) + ([COLON] + text + post)) == Some(Parsed(Field(key, v), post))
  {
    hide ParseValue;
    hide ParseString;
    hide UntilNul;
    hide EscapeAll;
    var rest := [COLON] + text + post;
    StringRound(key, rest);
    NoSpace(PrintString(key) + rest);
    NoSpace(rest);
    hide SkipSpace;
    assert rest[1..] == text + post;
    WholeCStr(key);
  }

  lemma {:induction false} FieldRound(lib: Libc, f: Field, post: seq<byte>)
    requires ReadsIntegers(lib) && Printable(lib, f.value) && EndsNumber(post)
    ensures ParseMember(lib, PrintField(lib, f) + post) == Some(Parsed(f, post))
    decreases f
  {
    hide ParseMember;
    hide ParseValue;
    hide Printable;
    hide Print;
    hide PrintString;
    var text := Print(lib, f.value);
    ValueRound(lib, f.value, post);
    MemberReads(lib, f.key, text, f.value, post);
    assert PrintField(lib, f) + post == PrintString(f.key) + ([COLON] + text + post);
  }

  lemma WholeCStr(s: CStr)
    ensures UntilNul(s) == s
  {
    assert forall i :: 0 <= i < |s| ==> s[i] != 0;
  }

  lemma LastMember(lib: Libc, text: seq<byte>, f: Field, post: seq<byte>)
    requires ParseMember(lib, text + ([CLOSE_BRACE] + post)) == Some(Parsed(f, [CLOSE_BRACE] + post))
    ensures ParseMembers(lib, text + ([CLOSE_BRACE] + post)) == Some(Parsed([f], post))
  {
    hide ParseMember;
    assert ([CLOSE_BRACE] + post)[1..] == post;
  }

  lemma NextMember(lib: Libc, text: seq<byte>, f: Field, more: seq<byte>)
    requires ParseMember(lib, text + ([COMMA] + more)) == Some(Parsed(f, [COMMA] + more))
    ensures ParseMembers(lib, text + ([COMMA] + more)) == Prepend([f], ParseMembers(lib, more))
  {
    hide ParseMember;
    assert ([COMMA] + more)[1..] == more;
  }

  lemma {:induction false} FieldsRound(lib: Libc, fields: seq<Field>, post: seq<byte>)
    requires ReadsIntegers(lib) && fields != [] && forall i :: 0 <= i < |fields| ==> Printable(lib, fields[i].value)
    ensures ParseMembers(lib, PrintFields(lib, fields) + [CLOSE_BRACE] + post) == Some(Parsed(fields, post))
    decreases fields
  {
    hide PrintField;
    hide ParseMember;
    hide ParseMembers;
    hide Printable;
    var first := PrintField(lib, fields[0]);
    if |fields| == 1 {
      FieldRound(lib, fields[0], [CLOSE_BRACE] + post);
      assert PrintFields(lib, fields) + [CLOSE_BRACE] + post == first + ([CLOSE_BRACE] + post);
      LastMember(lib, first, fields[0], post);
      assert fields == [fields[0]];
    } else {
      var more := PrintFields(lib, fields[1..]) + [CLOSE_BRACE] + post;
      FieldsRound(lib, fields[1..], post);
      FieldRound(lib, fields[0], [COMMA] + more);
      assert PrintFields(lib, fields) + [CLOSE_BRACE] + post == first + ([COMMA] + more);
      NextMember(lib, first, fields[0], more);
      assert fields == [fields[0]] + fields[1..];
    }
  }

  /** MAIN RESULT. Parsing the printed form gives the value back, with the
      same key order, and consumes the whole text. */
  lemma ParsePrint(lib: Libc, v: Json)
    requires ReadsIntegers(lib) && Printable(lib, v)
    ensures Parse(lib, Print(lib, v)) == Some(v)
  {
    ValueRound(lib, v, []);
    assert Print(lib, v) + [] == Print(lib, v);
  }

  // ---- objects ----

  lemma {:induction false} KeyIndexFirst(fields: seq<Field>, key: CStr, k: nat)
    requires k <= |fields| && (k < |fields| ==> fields[k].key == key)
    requires forall i :: 0 <= i < k ==> fields[i].key != key
    ensures KeyIndex(fields, key) == k
  {
  }

  lemma {:induction false} CollapseDistinct(fields: seq<Field>)
    requires DistinctKeys(fields)
    ensures Collapse(fields) == fields
  {
    if fields != [] {
      var n := |fields| - 1;
      CollapseDistinct(fields[..n]);
      KeyIndexFirst(fields[..n], fields[n].key, n);
      assert fields == fields[..n] + [fields[n]];
    }
  }

  /** The last value given for a key. */
  function LastValue(given: seq<Field>, key: CStr): Option<Json> {
    if given == [] then None
    else if given[|given| - 1].key == key then Some(given[|given| - 1].value)
    else LastValue(given[..|given| - 1], key)
  }

  function Lookup(fields: seq<Field>, key: CStr): Option<Json> {
    var k := KeyIndex(fields, key);
    if k < |fields| then Some(fields[k].value) else None
  }

  /** The keys in the order they were first given. */
  function FirstKeys(given: seq<Field>): seq<CStr> {
    if given == [] then []
    else
      var before := FirstKeys(given[..|given| - 1]);
      if given[|given| - 1].key in before then before else before + [given[|given| - 1].key]
  }

  function Keys(fields: seq<Field>): (r: seq<CStr>)
    ensures |r| == |fields| && forall i :: 0 <= i < |fields| ==> r[i] == fields[i].key
  {
    if fields == [] then [] else [fields[0].key] + Keys(fields[1..])
  }

  /** Storing one member. */
  lemma SetFieldLookup(before: seq<Field>, f: Field, key: CStr)
    requires DistinctKeys(before)
    ensures Lookup(SetField(before, f), key) == if key == f.key then Some(f.value) else Lookup(before, key)
  {
    hide KeyIndex;
    var after := SetField(before, f);
    var k := KeyIndex(before, f.key);
    var j := KeyIndex(before, key);
    if k < |before| {
      KeyIndexFirst(after, key, j);
    } else {
      KeyIndexFirst(after, key, if key == f.key then k else if j < |before| then j else |after|);
    }
  }

  lemma SetFieldKeys(before: seq<Field>, f: Field)
    requires DistinctKeys(before)
    ensures DistinctKeys(SetField(before, f))
    ensures Keys(SetField(before, f)) == if f.key in Keys(before) then Keys(before) else Keys(before) + [f.key]
  {
    hide KeyIndex;
    hide Keys;
    var k := KeyIndex(before, f.key);
    if k < |before| {
      assert Keys(before)[k] == f.key;
    } else {
      KeysAvoid(before, f.key);
    }
  }

  /** A stored object has each key once, in the order of first appearance, with
      the last value given for it. */
  lemma {:induction false} LastValueWins(given: seq<Field>, key: CStr)
    ensures DistinctKeys(Collapse(given))
    ensures Lookup(Collapse(given), key) == LastValue(given, key)
    ensures Keys(Collapse(given)) == FirstKeys(given)
  {
    hide SetField;
    if given != [] {
      var n := |given| - 1;
      LastValueWins(given[..n], key);
      SetFieldLookup(Collapse(given[..n]), given[n], key);
      SetFieldKeys(Collapse(given[..n]), given[n]);
      hide DistinctKeys;
    }
  }

  lemma KeysAvoid(fields: seq<Field>, key: CStr)
    requires KeyIndex(fields, key) == |fields|
    ensures key !in Keys(fields)
  {
  }

  /** Every object in the value has distinct keys. */
  predicate WellKeyed(v: Json)
    decreases v
  {
    match v
    case Arr(items) => forall i :: 0 <= i < |items| ==> WellKeyed(items[i])
    case Obj(fields) => DistinctKeys(fields) && forall i :: 0 <= i < |fields| ==> WellKeyed(fields[i].value)
    case _ => true
  }

  /** Distinct keys in every object, and only numbers the C library has read. */
  ghost predicate WellRead(lib: Libc, v: Json)
    decreases v
  {
    match v
    case Number(n) => exists t :: lib.strtod(t) == Some(n)
    case Arr(items) => forall i :: 0 <= i < |items| ==> WellRead(lib, items[i])
    case Obj(fields) => DistinctKeys(fields) && forall i :: 0 <= i < |fields| ==> WellRead(lib, fields[i].value)
    case _ => true
  }

  lemma {:induction false} CollapseValues(lib: Libc, given: seq<Field>)
    requires forall i :: 0 <= i < |given| ==> WellRead(lib, given[i].value)
    ensures forall i :: 0 <= i < |Collapse(given)| ==> WellRead(lib, Collapse(given)[i].value)
  {
    hide WellRead;
    if given != [] {
      CollapseValues(lib, given[..|given| - 1]);
    }
  }

  /** Whatever is parsed, duplicate keys are gone everywhere, and its numbers
      are the library's. */
  lemma {:induction false} ParsedWellRead(lib: Libc, s: seq<byte>)
    requires ParseValue(lib, s).Some?
    ensures WellRead(lib, ParseValue(lib, s).value.value)
    decreases |s|, 1
  {
    var t := SkipSpace(s);
    if t[0] == OPEN_BRACE {
      if !StartsWith(SkipSpace(t[1..]), CLOSE_BRACE) {
        MembersWellRead(lib, SkipSpace(t[1..]));
        var given := ParseMembers(lib, SkipSpace(t[1..])).value.value;
        hide ParseMembers;
        CollapseValues(lib, given);
        LastValueWins(given, []);
      }
    } else if t[0] == OPEN_BRACKET {
      if !StartsWith(SkipSpace(t[1..]), CLOSE_BRACKET) {
        ItemsWellRead(lib, SkipSpace(t[1..]));
        hide ParseItems;
      }
    }
  }

  lemma {:induction false} ItemsWellRead(lib: Libc, s: seq<byte>)
    requires ParseItems(lib, s).Some?
    ensures forall i :: 0 <= i < |ParseItems(lib, s).value.value| ==> WellRead(lib, ParseItems(lib, s).value.value[i])
    decreases |s|, 2
  {
    ParsedWellRead(lib, s);
    var p := ParseValue(lib, s).value;
    hide ParseValue;
    hide WellRead;
    var t := SkipSpace(p.rest);
    if StartsWith(t, COMMA) {
      ItemsWellRead(lib, t[1..]);
    }
  }

  lemma {:induction false} MembersWellRead(lib: Libc, s: seq<byte>)
    requires ParseMembers(lib, s).Some?
    ensures forall i :: 0 <= i < |ParseMembers(lib, s).value.value| ==>
              WellRead(lib, ParseMembers(lib, s).value.value[i].value)
    decreases |s|, 3
  {
    var p := ParseMember(lib, s).value;
    ParsedWellRead(lib, SkipSpace(ParseString(SkipSpace(s)).value.rest)[1..]);
    hide ParseValue;
    hide ParseString;
    hide WellRead;
    var t := SkipSpace(p.rest);
    if StartsWith(t, COMMA) {
      MembersWellRead(lib, t[1..]);
    }
  }

  lemma {:induction false} WellReadKeys(lib: Libc, v: Json)
    requires WellRead(lib, v)
    ensures WellKeyed(v)
  {
    match v
    case Arr(items) =>
      forall i | 0 <= i < |items|
        ensures WellKeyed(items[i])
      {
        WellReadKeys(lib, items[i]);
      }
    case Obj(fields) =>
      forall i | 0 <= i < |fields|
        ensures WellKeyed(fields[i].value)
      {
        WellReadKeys(lib, fields[i].value);
      }
    case _ =>
  }

  /** MAIN RESULT. No parsed value has an object with duplicate keys. */
  lemma ParsedWellKeyed(lib: Libc, s: seq<byte>)
    requires ParseValue(lib, s).Some?
    ensures WellKeyed(ParseValue(lib, s).value.value)
  {
    ParsedWellRead(lib, s);
    WellReadKeys(lib, ParseValue(lib, s).value.value);
  }

  // ---- printing what was parsed ----

  /** Whatever the library reads it prints so that it reads it again. */
  ghost predicate ReadsDoubles(lib: Libc) {
    forall t, r :: lib.strtod(t) == Some(r) ==> ReadsBack(lib, r)
  }

  lemma {:induction false} WellReadPrintable(lib: Libc, v: Json)
    requires WellRead(lib, v) && ReadsDoubles(lib)
    ensures Printable(lib, v)
  {
    hide ReadsBack;
    match v
    case Arr(items) =>
      forall i | 0 <= i < |items|
        ensures Printable(lib, items[i])
      {
        WellReadPrintable(lib, items[i]);
      }
    case Obj(fields) =>
      forall i | 0 <= i < |fields|
        ensures Printable(lib, fields[i].value)
      {
        WellReadPrintable(lib, fields[i].value);
      }
    case _ =>
  }

  /** Printing what was parsed and parsing again changes nothing: the printed
      form is canonical. */
  lemma PrintIsCanonical(lib: Libc, input: seq<byte>)
    requires ReadsIntegers(lib) && ReadsDoubles(lib) && Parse(lib, input).Some?
    ensures Parse(lib, Print(lib, Parse(lib, input).value)) == Parse(lib, input)
  {
    ParsedWellRead(lib, input);
    var v := Parse(lib, input).value;
    WellReadPrintable(lib, v);
    ParsePrint(lib, v);
  }

  lemma {:induction false} DigitsInjective(m: nat, n: nat)
    requires Digits(m) == Digits(n)
    ensures m == n
  {
    if m >= 10 && n >= 10 {
      var a, b := Digits(m / 10), Digits(n / 10);
      assert Digits(m)[..|a|] == a && Digits(n)[..|b|] == b;
      assert Digits(m)[|a|] == Digits(n)[|b|];
      DigitsInjective(m / 10, n / 10);
    }
  }

  lemma DecimalInjective(m: int, n: int)
    requires Decimal(m) == Decimal(n)
    ensures m == n
  {
    assert m < 0 <==> Decimal(m)[0] == MINUS;
    assert n < 0 <==> Decimal(n)[0] == MINUS;
    if m < 0 {
      assert Digits(-m) == Decimal(m)[1..] && Digits(-n) == Decimal(n)[1..];
      DigitsInjective(-m, -n);
    } else {
      DigitsInjective(m, n);
    }
  }

  ghost function ReadInteger(t: seq<byte>): (r: Option<real>)
    ensures r.Some? ==> PlainInteger(r.value)
  {
    if exists n: int :: -MAX_PLAIN <= n <= MAX_PLAIN && Decimal(n) == t then
      var n: int :| -MAX_PLAIN <= n <= MAX_PLAIN && Decimal(n) == t;
      Some(n as real)
    else None
  }

  const HALF: seq<byte> := [ZERO, DOT, 53]

  lemma IntegerRead(n: int)
    requires -MAX_PLAIN <= n <= MAX_PLAIN
    ensures Decimal(n) != HALF && ReadInteger(Decimal(n)) == Some(n as real)
  {
    assert DOT in HALF && DOT !in Decimal(n);
    var m: int :| -MAX_PLAIN <= m <= MAX_PLAIN && Decimal(m) == Decimal(n) && ReadInteger(Decimal(n)) == Some(m as real);
    DecimalInjective(m, n);
  }

  lemma HalfIsNumber()
    ensures NumberLen(HALF) == Some(3)
  {
    assert HALF[1..][1..] == [53];
    assert DigitRun([53]) == 1;
    assert FracLen(HALF[1..]) == Some(2);
  }

  /** The premises can be met, also by a library that reads a fraction. */
  lemma LibraryExists() returns (lib: Libc)
    ensures ReadsIntegers(lib) && ReadsDoubles(lib) && lib.strtod([ZERO, DOT, 53]) == Some(0.5)
  {
    hide ReadInteger;
    hide Decimal;
    hide NumberLen;
    HalfIsNumber();
    lib := Libc(t => if t == HALF then Some(0.5) else ReadInteger(t), r => HALF);
    forall n: int | -MAX_PLAIN <= n <= MAX_PLAIN
      ensures lib.strtod(Decimal(n)) == Some(n as real)
    {
      IntegerRead(n);
    }
  }

  // ---- the printed text ----

  /** No control characters, in particular no NUL: the text is a C string. */
  predicate Plain(s: seq<byte>) {
    forall i :: 0 <= i < |s| ==> s[i] >= 32
  }

  lemma {:induction false} EscapedPlain(s: seq<byte>)
    ensures Plain(EscapeAll(s))
  {
    if s != [] {
      EscapedPlain(s[1..]);
    }
  }

  lemma NumberPlain(lib: Libc, r: real)
    requires PlainInteger(r) || Plain(lib.format(r))
    ensures Plain(PrintNumber(lib, r))
  {
  }

  lemma {:induction false} PrintPlain(lib: Libc, v: Json)
    requires forall r: real :: PlainInteger(r) || Plain(lib.format(r))
    ensures Plain(Print(lib, v))
    decreases v
  {
    hide PlainInteger;
    hide EscapeAll;
    match v
    case Number(n) =>
      NumberPlain(lib, n);
    case Str(s) =>
      EscapedPlain(s);
    case Arr(items) =>
      ItemsPlain(lib, items);
    case Obj(fields) =>
      FieldsPlain(lib, fields);
    case _ =>
  }

  lemma {:induction false} ItemsPlain(lib: Libc, items: seq<Json>)
    requires forall r: real :: PlainInteger(r) || Plain(lib.format(r))
    ensures Plain(PrintItems(lib, items))
    decreases items
  {
    hide PlainInteger;
    hide Print;
    if items != [] {
      PrintPlain(lib, items[0]);
      ItemsPlain(lib, items[1..]);
    }
  }

  lemma {:induction false} FieldsPlain(lib: Libc, fields: seq<Field>)
    requires forall r: real :: PlainInteger(r) || Plain(lib.format(r))
    ensures Plain(PrintFields(lib, fields))
    decreases fields
  {
    hide PlainInteger;
    hide Print;
    hide EscapeAll;
    if fields != [] {
      EscapedPlain(fields[0].key);
      PrintPlain(lib, fields[0].value);
      FieldsPlain(lib, fields[1..]);
    }
  }

  // ---- Unicode escapes ----

  function HexQuad(v: nat): seq<byte>
    requires v < 0x10000
  {
    [HexDigit(v / 4096), HexDigit(v / 256 % 16), HexDigit(v / 16 % 16), HexDigit(v % 16)]
  }

  lemma HexDigitRound(d: nat)
    requires d < 16
    ensures HexValue(HexDigit(d)) == Some(d)
  {
  }

  lemma QuadSum(v: nat)
    requires v < 0x10000
    ensures v / 4096 < 16 && v / 4096 * 16 + v / 256 % 16 == v / 256
    ensures v / 256 * 16 + v / 16 % 16 == v / 16 && v / 16 * 16 + v % 16 == v
  {
    assert v / 256 / 16 == v / 4096 && v / 16 / 16 == v / 256;
  }

  lemma HexQuadRound(v: nat, rest: seq<byte>)
    requires v < 0x10000
    ensures Hex4(HexQuad(v) + rest) == Some(v)
  {
    hide HexDigit;
    hide HexValue;
    QuadSum(v);
    var s := HexQuad(v);
    HexPrefixOf(s, rest, 4);
    HexDigitRound(v / 4096);
    HexDigitRound(v / 256 % 16);
    HexDigitRound(v / 16 % 16);
    HexDigitRound(v % 16);
    assert HexPrefix(s, 0) == Some(0);
    assert HexPrefix(s, 1) == Some(v / 4096);
    assert HexPrefix(s, 2) == Some(v / 256);
    assert HexPrefix(s, 3) == Some(v / 16);
  }

  /** The escape of a code point as section 7 of RFC 8259 defines it: one
      escape, or a surrogate pair beyond the basic plane. */
  function UnicodeText(cp: nat): seq<byte>
    requires cp <= 0x10FFFF
  {
    if cp < 0x10000 then HexQuad(cp)
    else HexQuad(0xD800 + (cp - 0x10000) / 1024) + [BACKSLASH, LOWER_U] + HexQuad(0xDC00 + (cp - 0x10000) % 1024)
  }

  /** Every code point except a high surrogate on its own is decoded to itself. */
  lemma UnicodeRound(cp: nat, rest: seq<byte>)
    requires cp <= 0x10FFFF && !(0xD800 <= cp <= 0xDBFF)
    ensures UnicodeEscape(UnicodeText(cp) + rest) == Some(Parsed(cp, rest))
  {
    hide HexQuad;
    hide Hex4;
    if cp < 0x10000 {
      QuadLen(cp);
      HexQuadRound(cp, rest);
      assert (HexQuad(cp) + rest)[4..] == rest;
    } else {
      var hi, lo := 0xD800 + (cp - 0x10000) / 1024, 0xDC00 + (cp - 0x10000) % 1024;
      assert 0x10000 + (hi - 0xD800) * 1024 + (lo - 0xDC00) == cp;
      PairRound(hi, lo, cp, rest);
      hide UnicodeEscape;
    }
  }

  lemma PairRound(hi: nat, lo: nat, cp: nat, rest: seq<byte>)
    requires 0xD800 <= hi <= 0xDBFF && 0xDC00 <= lo <= 0xDFFF
    requires cp == 0x10000 + (hi - 0xD800) * 1024 + (lo - 0xDC00)
    ensures UnicodeEscape(HexQuad(hi) + [BACKSLASH, LOWER_U] + HexQuad(lo) + rest) ==
            Some(Parsed(cp, rest))
  {
    hide HexQuad;
    hide Hex4;
    QuadLen(hi);
    QuadLen(lo);
    var s, low := HexQuad(hi) + [BACKSLASH, LOWER_U] + HexQuad(lo) + rest, HexQuad(lo) + rest;
    assert s == HexQuad(hi) + ([BACKSLASH, LOWER_U] + low);
    HexQuadRound(hi, [BACKSLASH, LOWER_U] + low);
    HexQuadRound(lo, rest);
    assert s[6..] == low && s[10..] == rest;
  }

  lemma QuadLen(v: nat)
    requires v < 0x10000
    ensures |HexQuad(v)| == 4
  {
  }

  /** A high surrogate is accepted exactly when a low surrogate follows. */
  lemma HighSurrogateIff(hi: nat, rest: seq<byte>)
    requires 0xD800 <= hi <= 0xDBFF
    ensures UnicodeEscape(HexQuad(hi) + rest).Some? <==>
            |rest| >= 6 && rest[..2] == [BACKSLASH, LOWER_U] && Hex4(rest[2..]).Some? &&
            0xDC00 <= Hex4(rest[2..]).value <= 0xDFFF
  {
    HexQuadRound(hi, rest);
    QuadLen(hi);
    var s := HexQuad(hi) + rest;
    assert |rest| >= 2 ==> s[6..] == rest[2..];
    assert |rest| >= 2 ==> s[4] == rest[0] && s[5] == rest[1];
    hide HexQuad;
    hide Hex4;
  }

  /** Reading UTF-8 as section 3 of RFC 3629 describes it. */
  function DecodeUtf8(s: seq<byte>): nat
    requires 1 <= |s| <= 4
  {
    if |s| == 1 then s[0] as nat
    else if |s| == 2 then s[0] as nat % 32 * 64 + s[1] as nat % 64
    else if |s| == 3 then s[0] as nat % 16 * 4096 + s[1] as nat % 64 * 64 + s[2] as nat % 64
    else s[0] as nat % 8 * 262144 + s[1] as nat % 64 * 4096 + s[2] as nat % 64 * 64 + s[3] as nat % 64
  }

  lemma Continuation(x: nat)
    ensures (0x80 + x % 64) % 64 == x % 64
  {
  }

  lemma Sextets(cp: nat)
    ensures cp == cp / 64 * 64 + cp % 64
    ensures cp / 64 == cp / 4096 * 64 + cp / 64 % 64
    ensures cp / 4096 == cp / 262144 * 64 + cp / 4096 % 64
  {
    assert cp / 64 / 64 == cp / 4096 && cp / 4096 / 64 == cp / 262144;
  }

  lemma LeadByte(x: nat)
    ensures x < 32 ==> (0xC0 + x) % 32 == x
    ensures x < 16 ==> (0xE0 + x) % 16 == x
    ensures x < 8 ==> (0xF0 + x) % 8 == x
  {
  }

  predicate Trails(b: byte) {
    0x80 <= b <= 0xBF
  }

  /** The byte sequences of section 4 of RFC 3629, shortest forms only; the
      parser does not keep surrogates out, so ED is as free as the others. */
  predicate WellFormedUtf8(s: seq<byte>) {
    || (|s| == 1 && s[0] <= 0x7F)
    || (|s| == 2 && 0xC2 <= s[0] <= 0xDF && Trails(s[1]))
    || (|s| == 3 && s[0] == 0xE0 && 0xA0 <= s[1] <= 0xBF && Trails(s[2]))
    || (|s| == 3 && 0xE1 <= s[0] <= 0xEF && Trails(s[1]) && Trails(s[2]))
    || (|s| == 4 && s[0] == 0xF0 && 0x90 <= s[1] <= 0xBF && Trails(s[2]) && Trails(s[3]))
    || (|s| == 4 && 0xF1 <= s[0] <= 0xF3 && Trails(s[1]) && Trails(s[2]) && Trails(s[3]))
    || (|s| == 4 && s[0] == 0xF4 && 0x80 <= s[1] <= 0x8F && Trails(s[2]) && Trails(s[3]))
  }

  lemma EncodedWell(cp: nat)
    requires cp <= 0x10FFFF
    ensures WellFormedUtf8(EncodeUtf8(cp))
  {
    Sextets(cp);
  }

  /** Encoding is the inverse of decoding, so no two code points share bytes, and
      gives well-formed sequences only. */
  lemma Utf8Round(cp: nat)
    requires cp <= 0x10FFFF
    ensures 1 <= |EncodeUtf8(cp)| <= 4 && DecodeUtf8(EncodeUtf8(cp)) == cp
    ensures WellFormedUtf8(EncodeUtf8(cp))
  {
    Sextets(cp);
    Continuation(cp);
    Continuation(cp / 64);
    Continuation(cp / 4096);
    LeadByte(cp / 64);
    LeadByte(cp / 4096);
    LeadByte(cp / 262144);
    EncodedWell(cp);
    hide WellFormedUtf8;
    if cp > 0xFFFF {
      FourBytes(cp);
    }
  }

  lemma Low6(x: nat)
    requires x < 64
    ensures (0x80 + x) % 64 == x
  {
  }

  lemma FourBytes(cp: nat)
    requires 0xFFFF < cp <= 0x10FFFF
    ensures |EncodeUtf8(cp)| == 4 && DecodeUtf8(EncodeUtf8(cp)) == cp
  {
    var a, b, c, d := cp / 262144, cp / 4096 % 64, cp / 64 % 64, cp % 64;
    Sextets(cp);
    assert cp == a * 262144 + b * 4096 + c * 64 + d;
    var s := EncodeUtf8(cp);
    assert s[0] as nat == 0xF0 + a && s[1] as nat == 0x80 + b && s[2] as nat == 0x80 + c && s[3] as nat == 0x80 + d;
    hide EncodeUtf8;
    LeadByte(a);
    Low6(b);
    Low6(c);
    Low6(d);
  }
}
