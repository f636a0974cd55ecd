/** What the printer writes: spellings of the grammar without any whitespace, the
    shortest escapes, and decimal numbers that have the value they stand for. */
module JsonPrinted {
  import opened Bytes
  import opened Json
  import opened JsonRound
  import opened JsonGrammar
  import opened JsonTrees
  import opened Wrappers

  // ---- numbers ----

  /** The value of a run of decimal digits. */
  function ValueOf(digits: seq<byte>): int {
    if digits == [] then 0
    else ValueOf(digits[..|digits| - 1]) * 10 + (digits[|digits| - 1] as int - '0' as int)
  }

  lemma {:induction false} DigitsValue(n: nat)
    ensures ValueOf(Digits(n)) == n
  {
    if n < 10 {
      assert Digits(n) == [(48 + n) as byte] && Digits(n)[..0] == [];
    } else {
      DigitsValue(n / 10);
      var s := Digits(n);
      assert s[..|s| - 1] == Digits(n / 10);
    }
  }

  /** An integer is printed with its sign and the digits of its value, the first
      of them not zero unless it is the only one. */
  lemma DecimalMeans(n: int)
    ensures var digits := if n < 0 then Decimal(n)[1..] else Decimal(n);
            && AllDecimal(digits) && (Is(digits[0], '0') ==> n == 0 && |digits| == 1)
            && ValueOf(digits) == (if n < 0 then -n else n) && (n < 0 ==> Is(Decimal(n)[0], '-'))
  {
    DigitsValue(if n < 0 then -n else n);
  }

  // ---- strings ----

  /** The character the printer writes for a byte. */
  function Printed(c: byte): Char {
    if c == 34 then Short(0)
    else if c == 92 then Short(1)
    else if c == 8 then Short(3)
    else if c == 12 then Short(4)
    else if c == 10 then Short(5)
    else if c == 13 then Short(6)
    else if c == 9 then Short(7)
    else if c < 32 then Escaped(c as nat, HexQuad(c as nat))
    else Raw(c)
  }

  lemma HexQuadSpells(v: nat)
    requires v < 0x10000
    ensures SpellsQuad(HexQuad(v), v)
  {
    HexSpells(v / 4096);
    HexSpells(v / 256 % 16);
    HexSpells(v / 16 % 16);
    HexSpells(v % 16);
    hide SpellsDigit;
    hide HexDigit;
  }

  lemma HexSpells(d: nat)
    requires d < 16
    ensures SpellsDigit(HexDigit(d), d)
  {
  }

  lemma PrintedChar(c: byte)
    ensures ValidChar(Printed(c)) && SpellChar(Printed(c)) == EscapeByte(c) && CharMeans(Printed(c)) == [c]
  {
    hide SpellsQuad;
    hide HexQuad;
    hide HexDigit;
    if c < 32 {
      HexQuadSpells(c as nat);
      ControlQuad(c);
    }
  }

  lemma ControlQuad(c: byte)
    requires c < 32
    ensures HexQuad(c as nat) == [ZERO, ZERO, HexDigit(c as nat / 16), HexDigit(c as nat % 16)]
  {
  }

  /** No spelling of the byte is shorter than the one printed. */
  lemma ShortestEscape(c: byte, ch: Char)
    requires ValidChar(ch) && CharMeans(ch) == [c]
    ensures |EscapeByte(c)| <= |SpellChar(ch)|
  {
    match ch
    case Short(k) =>
    case Raw(b) =>
    case Escaped(cp, q) => QuadLength(q, cp);
    case Pair(cp, hi, lo) =>
  }

  lemma {:induction false} PrintedChars(s: seq<byte>) returns (chs: seq<Char>)
    ensures ValidChars(chs) && SpellChars(chs) == EscapeAll(s) && CharsMean(chs) == s && |chs| == |s|
  {
    if s == [] {
      chs := [];
    } else {
      hide Printed;
      hide ValidChar;
      hide SpellChar;
      hide CharMeans;
      hide EscapeByte;
      PrintedChar(s[0]);
      var more := PrintedChars(s[1..]);
      chs := [Printed(s[0])] + more;
      assert chs[1..] == more && s == [s[0]] + s[1..];
    }
  }

  // ---- values ----

  /** A tree without whitespace. */
  predicate Compact(t: Tree)
    decreases t
  {
    match t
    case EmptyArray(gap) => gap == []
    case ArrayTree(items) => forall i :: 0 <= i < |items| ==> CompactItem(items[i])
    case EmptyObject(gap) => gap == []
    case ObjectTree(members) => forall i :: 0 <= i < |members| ==> CompactMember(members[i])
    case _ => true
  }

  predicate CompactItem(i: Item)
    decreases i
  {
    i.before == [] && Compact(i.tree) && i.after == []
  }

  predicate CompactMember(m: Member)
    decreases m
  {
    m.before == [] && m.between == [] && CompactItem(m.item)
  }

  predicate Good(t: Tree) {
    Shaped(t) && Compact(t)
  }

  predicate GoodItems(items: seq<Item>) {
    forall i :: 0 <= i < |items| ==> ShapedItem(items[i]) && CompactItem(items[i])
  }

  predicate GoodMembers(members: seq<Member>) {
    forall i :: 0 <= i < |members| ==> ShapedMember(members[i]) && CompactMember(members[i])
  }

  lemma PlainItem(t: Tree) returns (i: Item)
    requires Good(t)
    ensures i == Item([], t, []) && ShapedItem(i) && CompactItem(i) && SpellItem(i) == Spell(t)
  {
    i := Item([], t, []);
    hide Spell;
    hide Shaped;
    hide Compact;
    assert [] + Spell(t) + [] == Spell(t);
  }

  lemma PlainMember(key: seq<Char>, t: Tree) returns (m: Member)
    requires ValidChars(key) && Good(t)
    ensures ShapedMember(m) && CompactMember(m) && SpellMember(m) == SpellString(key) + [COLON] + Spell(t)
  {
    var i := PlainItem(t);
    m := Member([], key, [], i);
    MemberUnfold(m);
    hide Spell;
    hide SpellString;
    hide SpellItem;
    hide SpellMember;
    hide Shaped;
    hide Compact;
    assert [] + SpellString(key) + [] == SpellString(key);
  }

  lemma PrintedNumber(lib: Libc, r: real) returns (t: Tree)
    requires ReadsBack(lib, r)
    ensures Good(t) && Spell(t) == PrintNumber(lib, r)
  {
    hide *;
    NumberPrinted(lib, r);
    var text := PrintNumber(lib, r);
    var n := NumeralIs(text);
    t := NumberTree(n);
    NumberTreeIs(lib, n);
    CompactNumber(n);
    assert text[..|text|] == text;
  }

  lemma NumberPrinted(lib: Libc, r: real)
    requires ReadsBack(lib, r)
    ensures NumberLen(PrintNumber(lib, r)) == Some(|PrintNumber(lib, r)|)
  {
    if PlainInteger(r) {
      DecimalIsNumber(r.Floor);
    }
    hide NumberLen;
    hide Decimal;
  }

  lemma CompactNumber(n: Numeral)
    requires Shaped(NumberTree(n))
    ensures Good(NumberTree(n))
  {
  }

  lemma Unprinted(lib: Libc)
    ensures PrintItems(lib, []) == [] && PrintFields(lib, []) == []
  {
  }

  /** MAIN RESULT. What is printed for a value is a spelling of the grammar with
      no whitespace in it. */
  lemma {:induction false} PrintCompact(lib: Libc, v: Json) returns (t: Tree)
    requires Printable(lib, v)
    ensures Good(t) && Spell(t) == Print(lib, v)
    decreases v, 1
  {
    match v
    case Null =>
      Words();
      t := NullTree;
    case Bool(b) =>
      Words();
      t := if b then TrueTree else FalseTree;
    case Number(n) =>
      t := PrintedNumber(lib, n);
    case Str(s) =>
      var chs := PrintedChars(s);
      t := StringTree(chs);
      hide SpellChars;
      hide EscapeAll;
    case Arr(items) =>
      if items == [] {
        t := EmptyArray([]);
      } else {
        var inside := ItemsCompact(lib, items);
        t := ArrayTree(inside);
        GoodArray(inside);
        hide Spell;
        ArrayIs(lib, inside);
        hide SpellItems;
        hide PrintItems;
        hide Shaped;
        hide Compact;
      }
    case Obj(fields) =>
      if fields == [] {
        t := EmptyObject([]);
      } else {
        var inside := FieldsCompact(lib, fields);
        t := ObjectTree(inside);
        GoodObject(inside);
        hide Spell;
        ObjectIs(lib, inside);
        hide SpellMembers;
        hide PrintFields;
        hide Shaped;
        hide Compact;
      }
  }

  lemma GoodArray(items: seq<Item>)
    requires items != [] && GoodItems(items)
    ensures Good(ArrayTree(items))
  {
  }

  lemma GoodObject(members: seq<Member>)
    requires members != [] && GoodMembers(members)
    ensures Good(ObjectTree(members))
  {
  }

  lemma {:induction false} ItemsCompact(lib: Libc, values: seq<Json>) returns (items: seq<Item>)
    requires values != [] && forall i :: 0 <= i < |values| ==> Printable(lib, values[i])
    ensures items != [] && |items| == |values| && GoodItems(items) && SpellItems(items) == PrintItems(lib, values)
    decreases values
  {
    hide Printable;
    hide Good;
    hide Print;
    hide ShapedItem;
    hide CompactItem;
    hide SpellItem;
    var t := PrintCompact(lib, values[0]);
    var first := PlainItem(t);
    if |values| == 1 {
      items := [first];
      OneItem(first);
    } else {
      var more := ItemsCompact(lib, values[1..]);
      items := [first] + more;
      ItemsJoin(first, more);
      hide SpellItems;
    }
  }

  lemma FieldCompact(lib: Libc, f: Field) returns (m: Member)
    requires Printable(lib, f.value)
    ensures ShapedMember(m) && CompactMember(m) && SpellMember(m) == PrintField(lib, f)
    decreases f
  {
    var t := PrintCompact(lib, f.value);
    var chs := PrintedChars(f.key);
    m := PlainMember(chs, t);
    hide Print;
    hide Spell;
    hide SpellMember;
    hide SpellChars;
    hide EscapeAll;
  }

  lemma {:induction false} FieldsCompact(lib: Libc, fields: seq<Field>) returns (members: seq<Member>)
    requires fields != [] && forall i :: 0 <= i < |fields| ==> Printable(lib, fields[i].value)
    ensures members != [] && |members| == |fields| && GoodMembers(members)
    ensures SpellMembers(members) == PrintFields(lib, fields)
    decreases fields
  {
    hide Printable;
    hide Print;
    hide PrintField;
    hide ShapedMember;
    hide CompactMember;
    hide SpellMember;
    var first := FieldCompact(lib, fields[0]);
    if |fields| == 1 {
      members := [first];
      OneMember(first);
    } else {
      var more := FieldsCompact(lib, fields[1..]);
      members := [first] + more;
      MembersJoin(first, more);
      hide SpellMembers;
    }
  }
}
