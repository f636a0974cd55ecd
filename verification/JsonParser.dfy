/** The recursive-descent parser with its cursor, and the serializer with its
    growing buffer. */
module JsonParser {
  import opened Ir
  import opened Bytes
  import opened Json
  import opened Wrappers

  lemma Drop<T>(s: seq<T>, i: nat, j: nat)
    requires i + j <= |s|
    ensures s[i..][j..] == s[i + j..]
  {
  }

  lemma SpacesSkipped(s: seq<byte>)
    ensures SkipSpace(SkipSpace(s)) == SkipSpace(s)
  {
  }

  lemma PrependTwice<T>(a: seq<T>, b: seq<T>, r: Option<Parsed<seq<T>>>)
    ensures Prepend(a, Prepend(b, r)) == Prepend(a + b, r)
  {
    if r.Some? {
      assert a + (b + r.value.value) == a + b + r.value.value;
    }
  }

  lemma PrependNothing<T>(r: Option<Parsed<seq<T>>>)
    ensures Prepend([], r) == r
  {
    if r.Some? {
      assert [] + r.value.value == r.value.value;
    }
  }

  lemma PrependEnd<T>(a: seq<T>, rest: seq<byte>)
    ensures Prepend(a, Some(Parsed([], rest))) == Some(Parsed(a, rest))
  {
    assert a + [] == a;
  }

  lemma PrependNone<T>(a: seq<T>)
    ensures Prepend(a, None) == None
  {
  }

  lemma CharsStep(s: seq<byte>)
    requires s != []
    ensures s[0] == QUOTE ==> Chars(s) == Some(Parsed([], s[1..]))
    ensures s[0] == BACKSLASH ==>
              Chars(s) == match Escape(s[1..]) case Some(p) => Prepend(p.value, Chars(p.rest)) case None => None
    ensures s[0] != QUOTE && s[0] != BACKSLASH ==> Chars(s) == if s[0] < 32 then None else Prepend([s[0]], Chars(s[1..]))
  {
    hide Escape;
  }

  lemma CharsEnd()
    ensures Chars([]) == None
  {
  }

  lemma ExpParts(s: seq<byte>, sign: nat)
    requires s != [] && (s[0] == 101 || s[0] == 69)
    requires sign == if |s| > 1 && (s[1] == PLUS || s[1] == MINUS) then 1 else 0
    ensures 1 + sign <= |s|
    ensures ExpLen(s) == if DigitRun(s[1 + sign..]) == 0 then None else Some(1 + sign + DigitRun(s[1 + sign..]))
  {
    hide DigitRun;
  }

  class Parser {
    const src: seq<byte>
    const lib: Libc
    var pos: nat

    constructor (lib: Libc, src: seq<byte>)
      ensures this.lib == lib && this.src == src && Valid() && Rest() == src
    {
      this.lib, this.src, pos := lib, src, 0;
    }

    predicate Valid()
      reads this
    {
      pos <= |src|
    }

    /** The input not yet consumed. */
    function Rest(): seq<byte>
      requires Valid()
      reads this
    {
      src[pos..]
    }

    method SkipWhitespace()
      requires Valid()
      modifies this`pos
      ensures Valid() && old(pos) <= pos && Rest() == SkipSpace(old(Rest()))
    {
      while pos < |src|
        invariant old(pos) <= pos <= |src|
        invariant SkipSpace(src[pos..]) == SkipSpace(old(Rest()))
      {
        if !IsSpace(src[pos]) {
          break;
        }
        Drop(src, pos, 1);
        pos := pos + 1;
      }
    }

    method Peek() returns (c: byte)
      requires Valid()
      modifies this`pos
      ensures Valid() && old(pos) <= pos && Rest() == SkipSpace(old(Rest()))
      ensures c == if Rest() == [] then 0 else Rest()[0]
    {
      SkipWhitespace();
      if pos >= |src| {
        return 0;
      }
      return src[pos];
    }

    method Consume(c: byte) returns (ok: bool)
      requires Valid()
      modifies this`pos
      ensures Valid() && old(pos) <= pos && (ok ==> old(pos) < pos)
      ensures ok == StartsWith(SkipSpace(old(Rest())), c)
      ensures Rest() == if ok then SkipSpace(old(Rest()))[1..] else SkipSpace(old(Rest()))
    {
      SkipWhitespace();
      if pos < |src| && src[pos] == c {
        Drop(src, pos, 1);
        pos := pos + 1;
        return true;
      }
      return false;
    }

    method MatchLiteral(text: seq<byte>) returns (ok: bool)
      requires Valid()
      modifies this`pos
      ensures Valid() && old(pos) <= pos
      ensures ok == (text <= old(Rest()))
      ensures Rest() == if ok then old(Rest())[|text|..] else old(Rest())
    {
      if pos + |text| > |src| {
        return false;
      }
      if src[pos..pos + |text|] != text {
        assert Rest()[..|text|] == src[pos..pos + |text|];
        return false;
      }
      assert Rest()[..|text|] == src[pos..pos + |text|];
      Drop(src, pos, |text|);
      pos := pos + |text|;
      return true;
    }

    /** Four hexadecimal digits at `at`, or -1. */
    method Hex4At(at: nat) returns (v: int)
      requires at + 4 <= |src|
      ensures v == match Hex4(src[at..]) case Some(n) => n case None => -1
    {
      var value: nat := 0;
      var i := 0;
      while i < 4
        invariant 0 <= i <= 4
        invariant HexPrefix(src[at..], i) == Some(value)
      {
        var d := HexValue(src[at + i]);
        if d.None? {
          HexFails(src[at..], i + 1, 4);
          return -1;
        }
        value := value * 16 + d.value;
        i := i + 1;
      }
      return value;
    }

    /** After `\u`. */
    method ParseUnicode() returns (r: Option<nat>)
      requires Valid()
      modifies this`pos
      ensures Valid() && old(pos) <= pos
      ensures r.Some? == UnicodeEscape(old(Rest())).Some?
      ensures r.Some? ==> old(pos) < pos && UnicodeEscape(old(Rest())) == Some(Parsed(r.value, Rest()))
    {
      if pos + 4 > |src| {
        return None;
      }
      var hi := Hex4At(pos);
      if hi < 0 {
        return None;
      }
      HexBound(src[pos..], 4);
      Drop(src, pos, 4);
      pos := pos + 4;
      if 0xD800 <= hi <= 0xDBFF {
        if pos + 6 > |src| || src[pos] != BACKSLASH || src[pos + 1] != LOWER_U {
          return None;
        }
        Drop(src, pos - 4, 6);
        pos := pos + 2;
        var lo := Hex4At(pos);
        if lo < 0 || lo < 0xDC00 || lo > 0xDFFF {
          return None;
        }
        Drop(src, pos - 6, 10);
        pos := pos + 4;
        return Some(0x10000 + (hi - 0xD800) * 1024 + (lo - 0xDC00));
      }
      return Some(hi);
    }

    /** After a backslash: the bytes the escape stands for. */
    method ParseEscape() returns (r: Option<seq<byte>>)
      requires Valid()
      modifies this`pos
      ensures Valid() && old(pos) <= pos
      ensures r.Some? == Escape(old(Rest())).Some?
      ensures r.Some? ==> old(pos) < pos && Escape(old(Rest())) == Some(Parsed(r.value, Rest()))
    {
      if pos >= |src| {
        return None;
      }
      var esc := src[pos];
      Drop(src, pos, 1);
      pos := pos + 1;
      if esc == LOWER_U {
        var cp := ParseUnicode();
        if cp.None? {
          return None;
        }
        return Some(EncodeUtf8(cp.value));
      }
      var c := SimpleEscape(esc);
      if c.None? {
        return None;
      }
      return Some([c.value]);
    }

    method ParseStringRaw() returns (r: Option<seq<byte>>)
      requires Valid()
      modifies this`pos
      ensures Valid() && old(pos) <= pos
      ensures r.Some? == ParseString(old(Rest())).Some?
      ensures r.Some? ==> old(pos) < pos && ParseString(old(Rest())) == Some(Parsed(r.value, Rest()))
    {
      hide Escape;
      hide Prepend;
      if pos >= |src| || src[pos] != QUOTE {
        return None;
      }
      Drop(src, pos, 1);
      pos := pos + 1;
      var buf: seq<byte> := [];
      ghost var all := Chars(Rest());
      PrependNothing(all);
      hide Chars;
      while pos < |src|
        invariant old(pos) < pos <= |src|
        invariant Prepend(buf, Chars(src[pos..])) == all
        decreases |src| - pos
      {
        var c := src[pos];
        Drop(src, pos, 1);
        CharsStep(src[pos..]);
        if c == QUOTE {
          pos := pos + 1;
          PrependEnd(buf, Rest());
          return Some(buf);
        }
        if c == BACKSLASH {
          pos := pos + 1;
          var bytes := ParseEscape();
          if bytes.None? {
            PrependNone(buf);
            return None;
          }
          PrependTwice(buf, bytes.value, Chars(Rest()));
          buf := buf + bytes.value;
        } else if c < 32 {
          PrependNone(buf);
          return None;
        } else {
          PrependTwice(buf, [c], Chars(src[pos + 1..]));
          buf := buf + [c];
          pos := pos + 1;
        }
      }
      CharsEnd();
      PrependNone(buf);
      return None;
    }

    /** The first position from i on that is not a digit. */
    method SkipDigits(i: nat) returns (j: nat)
      requires i <= |src|
      ensures j == i + DigitRun(src[i..]) && j <= |src|
    {
      j := i;
      while j < |src| && IsDigit(src[j])
        invariant i <= j <= |src|
        invariant i + DigitRun(src[i..]) == j + DigitRun(src[j..])
      {
        Drop(src, j, 1);
        j := j + 1;
      }
    }

    /** Each part of a number, from position i: the position after it. */
    method ScanInt(i: nat) returns (r: Option<nat>)
      requires i <= |src|
      ensures r == match IntLen(src[i..]) case Some(a) => Some(i + a) case None => None
      ensures r.Some? ==> r.value <= |src|
    {
      hide DigitRun;
      if i >= |src| {
        return None;
      }
      if src[i] == ZERO {
        return Some(i + 1);
      } else if IsDigit(src[i]) {
        var j := SkipDigits(i);
        return Some(j);
      }
      return None;
    }

    method ScanFrac(i: nat) returns (r: Option<nat>)
      requires i <= |src|
      ensures r == match FracLen(src[i..]) case Some(a) => Some(i + a) case None => None
      ensures r.Some? ==> r.value <= |src|
    {
      hide DigitRun;
      if i < |src| && src[i] == DOT {
        Drop(src, i, 1);
        if i + 1 >= |src| || !IsDigit(src[i + 1]) {
          return None;
        }
        var j := SkipDigits(i + 1);
        return Some(j);
      }
      return Some(i);
    }

    method ScanExp(i: nat) returns (r: Option<nat>)
      requires i <= |src|
      ensures r == match ExpLen(src[i..]) case Some(a) => Some(i + a) case None => None
      ensures r.Some? ==> r.value <= |src|
    {
      hide DigitRun;
      if i < |src| && (src[i] == 101 || src[i] == 69) {
        var sign := 0;
        if i + 1 < |src| && (src[i + 1] == PLUS || src[i + 1] == MINUS) {
          sign := 1;
        }
        var j := i + 1 + sign;
        ExpParts(src[i..], sign);
        hide ExpLen;
        Drop(src, i, 1 + sign);
        if j >= |src| || !IsDigit(src[j]) {
          return None;
        }
        j := SkipDigits(j);
        return Some(j);
      }
      return Some(i);
    }

    /** The length of the number at the cursor. */
    method ScanNumber() returns (n: Option<nat>)
      requires Valid()
      ensures n == NumberLen(Rest())
    {
      hide IntLen;
      hide FracLen;
      hide ExpLen;
      var i := pos;
      if i < |src| && src[i] == MINUS {
        i := i + 1;
      }
      assert i - pos == SignLen(Rest());
      Drop(src, pos, i - pos);
      var a := ScanInt(i);
      if a.None? {
        return None;
      }
      Drop(src, pos, a.value - pos);
      var b := ScanFrac(a.value);
      if b.None? {
        return None;
      }
      Drop(src, pos, b.value - pos);
      var c := ScanExp(b.value);
      return if c.Some? then Some(c.value - pos) else None;
    }

    method ParseNumberHere() returns (r: Option<Json>)
      requires Valid()
      modifies this`pos
      ensures Valid() && old(pos) <= pos
      ensures r.Some? == ParseNumber(lib, old(Rest())).Some?
      ensures r.Some? ==> old(pos) < pos && ParseNumber(lib, old(Rest())) == Some(Parsed(r.value, Rest()))
    {
      hide NumberLen;
      var n := ScanNumber();
      if n.None? {
        return None;
      }
      assert Rest()[..n.value] == src[pos..pos + n.value];
      var x := lib.strtod(src[pos..pos + n.value]);
      if x.None? {
        return None;
      }
      Drop(src, pos, n.value);
      pos := pos + n.value;
      return Some(Number(x.value));
    }

    method ParseArray() returns (r: Option<Json>)
      requires Valid() && StartsWith(Rest(), OPEN_BRACKET)
      modifies this`pos
      ensures Valid() && old(pos) <= pos
      ensures r.Some? == ParseValue(lib, old(Rest())).Some?
      ensures r.Some? ==> old(pos) < pos && ParseValue(lib, old(Rest())) == Some(Parsed(r.value, Rest()))
      decreases |src| - pos, 1
    {
      hide ParseItems;
      ghost var start := Rest();
      var open := Consume(OPEN_BRACKET);
      var c := Peek();
      if c == CLOSE_BRACKET {
        Drop(src, pos, 1);
        pos := pos + 1;
        return Some(Arr([]));
      }
      var items := ParseItemsHere();
      if items.None? {
        return None;
      }
      return Some(Arr(items.value));
    }

    /** The loop over the items. */
    method ParseItemsHere() returns (r: Option<seq<Json>>)
      requires Valid()
      modifies this`pos
      ensures Valid() && old(pos) <= pos
      ensures r.Some? == ParseItems(lib, old(Rest())).Some?
      ensures r.Some? ==> old(pos) < pos && ParseItems(lib, old(Rest())) == Some(Parsed(r.value, Rest()))
      decreases |src| - pos, 3
    {
      hide ParseValue;
      var items: seq<Json> := [];
      ghost var all := ParseItems(lib, Rest());
      PrependNothing(all);
      while true
        invariant Valid() && old(pos) <= pos
        invariant all == Prepend(items, ParseItems(lib, Rest()))
        decreases |src| - pos
      {
        ghost var here := Rest();
        var item := ParseValueHere();
        if item.None? {
          return None;
        }
        ghost var after := Rest();
        SpacesSkipped(after);
        ghost var before := items;
        items := items + [item.value];
        var more := Consume(COMMA);
        if more {
          PrependTwice(before, [item.value], ParseItems(lib, Rest()));
        } else {
          var close := Consume(CLOSE_BRACKET);
          if close {
            return Some(items);
          }
          return None;
        }
      }
    }

    /** A member whose key is stored already replaces the value there. */
    method StoreField(fields: seq<Field>, f: Field) returns (r: seq<Field>)
      ensures r == SetField(fields, f)
    {
      var idx := 0;
      while idx < |fields|
        invariant 0 <= idx <= |fields|
        invariant KeyIndex(fields, f.key) == idx + KeyIndex(fields[idx..], f.key)
      {
        if fields[idx].key == f.key {
          return fields[idx := Field(fields[idx].key, f.value)];
        }
        Drop(fields, idx, 1);
        idx := idx + 1;
      }
      return fields + [f];
    }

    method ParseMemberHere() returns (r: Option<Field>)
      requires Valid()
      modifies this`pos
      ensures Valid() && old(pos) <= pos
      ensures r.Some? == ParseMember(lib, old(Rest())).Some?
      ensures r.Some? ==> old(pos) < pos && ParseMember(lib, old(Rest())) == Some(Parsed(r.value, Rest()))
      decreases |src| - pos, 3
    {
      hide ParseValue;
      hide ParseString;
      SkipWhitespace();
      var key := ParseStringRaw();
      if key.None? {
        return None;
      }
      var colon := Consume(COLON);
      if !colon {
        return None;
      }
      var value := ParseValueHere();
      if value.None? {
        return None;
      }
      return Some(Field(UntilNul(key.value), value.value));
    }

    method ParseObject() returns (r: Option<Json>)
      requires Valid() && StartsWith(Rest(), OPEN_BRACE)
      modifies this`pos
      ensures Valid() && old(pos) <= pos
      ensures r.Some? == ParseValue(lib, old(Rest())).Some?
      ensures r.Some? ==> old(pos) < pos && ParseValue(lib, old(Rest())) == Some(Parsed(r.value, Rest()))
      decreases |src| - pos, 1
    {
      hide ParseMembers;
      var open := Consume(OPEN_BRACE);
      var c := Peek();
      if c == CLOSE_BRACE {
        Drop(src, pos, 1);
        pos := pos + 1;
        return Some(Obj([]));
      }
      ghost var given;
      var fields;
      fields, given := ParseMembersHere();
      if fields.None? {
        return None;
      }
      return Some(Obj(fields.value));
    }

    /** The loop over the members; `given` lists them as they stand. */
    method ParseMembersHere() returns (r: Option<seq<Field>>, ghost given: seq<Field>)
      requires Valid()
      modifies this`pos
      ensures Valid() && old(pos) <= pos
      ensures r.Some? == ParseMembers(lib, old(Rest())).Some?
      ensures r.Some? ==> old(pos) < pos && ParseMembers(lib, old(Rest())) == Some(Parsed(given, Rest()))
      ensures r.Some? ==> r.value == Collapse(given)
      decreases |src| - pos, 4
    {
      hide ParseMember;
      hide SetField;
      var fields: seq<Field> := [];
      given := [];
      ghost var all := ParseMembers(lib, Rest());
      PrependNothing(all);
      while true
        invariant Valid() && old(pos) <= pos
        invariant fields == Collapse(given)
        invariant all == Prepend(given, ParseMembers(lib, Rest()))
        decreases |src| - pos
      {
        var member := ParseMemberHere();
        if member.None? {
          return None, given;
        }
        SpacesSkipped(Rest());
        ghost var before := given;
        given := given + [member.value];
        assert given[..|given| - 1] == before;
        fields := StoreField(fields, member.value);
        var more := Consume(COMMA);
        if more {
          PrependTwice(before, [member.value], ParseMembers(lib, Rest()));
        } else {
          var close := Consume(CLOSE_BRACE);
          if close {
            return Some(fields), given;
          }
          return None, given;
        }
      }
    }

    method ParseLiteral(text: seq<byte>, v: Json) returns (r: Option<Json>)
      requires Valid() && text != []
      modifies this`pos
      ensures Valid() && old(pos) <= pos
      ensures r.Some? == Literal(text, v, old(Rest())).Some?
      ensures r.Some? ==> old(pos) < pos && Literal(text, v, old(Rest())) == Some(Parsed(r.value, Rest()))
    {
      var ok := MatchLiteral(text);
      return if ok then Some(v) else None;
    }

    method ParseValueHere() returns (r: Option<Json>)
      requires Valid()
      modifies this`pos
      ensures Valid() && old(pos) <= pos
      ensures r.Some? == ParseValue(lib, old(Rest())).Some?
      ensures r.Some? ==> old(pos) < pos && ParseValue(lib, old(Rest())) == Some(Parsed(r.value, Rest()))
      decreases |src| - pos, 2
    {
      SkipWhitespace();
      SpacesSkipped(old(Rest()));
      hide SkipSpace;
      if pos >= |src| {
        return None;
      }
      var c := src[pos];
      assert ParseValue(lib, old(Rest())) == ParseValue(lib, Rest()) by { SameValue(lib, old(Rest())); }
      if c == QUOTE {
        var s := ParseStringRaw();
        if s.None? {
          return None;
        }
        return Some(Str(s.value));
      } else if c == OPEN_BRACE {
        r := ParseObject();
      } else if c == OPEN_BRACKET {
        r := ParseArray();
      } else if c == 116 {
        r := ParseLiteral(TRUE_TEXT, Json.Bool(true));
      } else if c == 102 {
        r := ParseLiteral(FALSE_TEXT, Json.Bool(false));
      } else if c == 110 {
        r := ParseLiteral(NULL_TEXT, Null);
      } else if c == MINUS || IsDigit(c) {
        r := ParseNumberHere();
      } else {
        r := None;
      }
    }
  }

  lemma SameValue(lib: Libc, s: seq<byte>)
    ensures ParseValue(lib, SkipSpace(s)) == ParseValue(lib, s)
  {
    SpacesSkipped(s);
  }

  lemma {:induction false} HexFails(s: seq<byte>, i: nat, n: nat)
    requires i <= n <= |s| && HexPrefix(s, i).None?
    ensures HexPrefix(s, n).None?
  {
    if i < n {
      HexFails(s, i, n - 1);
    }
  }

  lemma {:induction false} HexBound(s: seq<byte>, n: nat)
    requires n <= |s| && n <= 4
    ensures HexPrefix(s, n).Some? ==> HexPrefix(s, n).value < if n == 0 then 1 else if n == 1 then 16 else
              if n == 2 then 256 else if n == 3 then 4096 else 65536
  {
    if n > 0 {
      HexBound(s, n - 1);
    }
  }

  /** The whole input must be one value. */
  method ParseText(lib: Libc, input: seq<byte>) returns (r: Option<Json>)
    ensures r == Parse(lib, input)
  {
    hide ParseValue;
    var p := new Parser(lib, input);
    var v := p.ParseValueHere();
    if v.None? {
      return None;
    }
    p.SkipWhitespace();
    if p.pos != |input| {
      return None;
    }
    return v;
  }

  // ---- serializer ----

  const INITIAL_CAPACITY := 256

  /** A growing buffer that always ends its contents with a NUL. */
  class StrBuf {
    var buf: array<byte>
    var len: nat

    constructor ()
      ensures Valid() && fresh(buf) && Contents() == []
    {
      buf := new byte[INITIAL_CAPACITY](_ => 0);
      len := 0;
    }

    ghost predicate Valid()
      reads this, buf
    {
      len < buf.Length && buf[len] == 0
    }

    ghost function Contents(): seq<byte>
      requires Valid()
      reads this, buf
    {
      buf[..len]
    }

    method Append(data: seq<byte>)
      requires Valid()
      modifies this, buf
      ensures Valid() && (buf == old(buf) || fresh(buf))
      ensures Contents() == old(Contents()) + data
    {
      while len + |data| + 1 > buf.Length
        invariant Valid() && len == old(len) && (buf == old(buf) || fresh(buf))
        invariant Contents() == old(Contents())
        decreases len + |data| + 1 - buf.Length
      {
        var capacity := buf.Length * 2;
        if capacity < len + |data| + 1 {
          capacity := len + |data| + 1;
        }
        Grow(capacity);
      }
      forall i | 0 <= i < |data| {
        buf[len + i] := data[i];
      }
      len := len + |data|;
      buf[len] := 0;
    }

    /** A larger buffer with the same contents. */
    method Grow(capacity: nat)
      requires Valid() && buf.Length <= capacity
      modifies this`buf
      ensures Valid() && fresh(buf) && buf.Length == capacity && Contents() == old(Contents())
    {
      var larger := new byte[capacity];
      forall i | 0 <= i < buf.Length {
        larger[i] := buf[i];
      }
      buf := larger;
    }

    method StringifyString(s: seq<byte>)
      requires Valid()
      modifies this, buf
      ensures Valid() && (buf == old(buf) || fresh(buf))
      ensures Contents() == old(Contents()) + PrintString(s)
    {
      hide EscapeByte;
      Append([QUOTE]);
      var i := 0;
      ghost var start := Contents();
      while i < |s|
        invariant 0 <= i <= |s| && Valid() && (buf == old(buf) || fresh(buf))
        invariant Contents() + EscapeAll(s[i..]) == start + EscapeAll(s)
      {
        Drop(s, i, 1);
        Append(EscapeByte(s[i]));
        i := i + 1;
      }
      assert Contents() == start + EscapeAll(s);
      Append([QUOTE]);
      assert Contents() == old(Contents()) + ([QUOTE] + EscapeAll(s) + [QUOTE]);
    }

    method StringifyValue(lib: Libc, v: Json)
      requires Valid()
      modifies this, buf
      ensures Valid() && (buf == old(buf) || fresh(buf))
      ensures Contents() == old(Contents()) + Print(lib, v)
      decreases v, 1
    {
      hide PrintString;
      hide PrintItems;
      hide PrintFields;
      hide Decimal;
      match v
      case Null =>
        Append(NULL_TEXT);
      case Bool(b) =>
        Append(if b then TRUE_TEXT else FALSE_TEXT);
      case Number(n) =>
        if n == n.Floor as real && -MAX_PLAIN <= n.Floor <= MAX_PLAIN {
          Append(Decimal(n.Floor));
        } else {
          Append(lib.format(n));
        }
      case Str(s) =>
        StringifyString(s);
      case Arr(items) =>
        Append([OPEN_BRACKET]);
        StringifyItems(lib, items);
        Append([CLOSE_BRACKET]);
        assert Contents() == old(Contents()) + ([OPEN_BRACKET] + PrintItems(lib, items) + [CLOSE_BRACKET]);
      case Obj(fields) =>
        Append([OPEN_BRACE]);
        StringifyFields(lib, fields);
        Append([CLOSE_BRACE]);
        assert Contents() == old(Contents()) + ([OPEN_BRACE] + PrintFields(lib, fields) + [CLOSE_BRACE]);
    }

    method StringifyItems(lib: Libc, items: seq<Json>)
      requires Valid()
      modifies this, buf
      ensures Valid() && (buf == old(buf) || fresh(buf))
      ensures Contents() == old(Contents()) + PrintItems(lib, items)
      decreases items, 0
    {
      hide Print;
      hide PrintItems;
      var i := 0;
      ghost var all := Contents() + PrintItems(lib, items);
      while i < |items|
        invariant 0 <= i <= |items| && Valid() && (buf == old(buf) || fresh(buf))
        invariant Contents() + ItemsFrom(lib, items, i) == all
      {
        ItemsStep(lib, items, i);
        if i > 0 {
          Append([COMMA]);
        }
        StringifyValue(lib, items[i]);
        i := i + 1;
      }
      ItemsEnd(lib, items);
    }

    method StringifyFields(lib: Libc, fields: seq<Field>)
      requires Valid()
      modifies this, buf
      ensures Valid() && (buf == old(buf) || fresh(buf))
      ensures Contents() == old(Contents()) + PrintFields(lib, fields)
      decreases fields, 0
    {
      hide PrintField;
      hide PrintFields;
      var i := 0;
      ghost var all := Contents() + PrintFields(lib, fields);
      while i < |fields|
        invariant 0 <= i <= |fields| && Valid() && (buf == old(buf) || fresh(buf))
        invariant Contents() + FieldsFrom(lib, fields, i) == all
      {
        FieldsStep(lib, fields, i);
        if i > 0 {
          Append([COMMA]);
        }
        StringifyField(lib, fields[i]);
        i := i + 1;
      }
      FieldsEnd(lib, fields);
    }

    method StringifyField(lib: Libc, f: Field)
      requires Valid()
      modifies this, buf
      ensures Valid() && (buf == old(buf) || fresh(buf))
      ensures Contents() == old(Contents()) + PrintField(lib, f)
      decreases f
    {
      hide Print;
      hide PrintString;
      StringifyString(f.key);
      Append([COLON]);
      StringifyValue(lib, f.value);
    }
  }

  /** What is still to be printed before item i. */
  function ItemsFrom(lib: Libc, items: seq<Json>, i: nat): seq<byte>
    requires i <= |items|
  {
    if i == 0 then PrintItems(lib, items)
    else if i < |items| then [COMMA] + PrintItems(lib, items[i..])
    else []
  }

  function FieldsFrom(lib: Libc, fields: seq<Field>, i: nat): seq<byte>
    requires i <= |fields|
  {
    if i == 0 then PrintFields(lib, fields)
    else if i < |fields| then [COMMA] + PrintFields(lib, fields[i..])
    else []
  }

  lemma ItemsStep(lib: Libc, items: seq<Json>, i: nat)
    requires i < |items|
    ensures ItemsFrom(lib, items, i) ==
            (if i > 0 then [COMMA] else []) + Print(lib, items[i]) + ItemsFrom(lib, items, i + 1)
  {
    hide Print;
    assert items[i..][0] == items[i];
    Drop(items, i, 1);
    assert items[0..] == items;
  }

  lemma ItemsEnd(lib: Libc, items: seq<Json>)
    ensures ItemsFrom(lib, items, |items|) == []
  {
  }

  lemma FieldsStep(lib: Libc, fields: seq<Field>, i: nat)
    requires i < |fields|
    ensures FieldsFrom(lib, fields, i) ==
            (if i > 0 then [COMMA] else []) + PrintField(lib, fields[i]) + FieldsFrom(lib, fields, i + 1)
  {
    hide PrintField;
    assert fields[i..][0] == fields[i];
    Drop(fields, i, 1);
    assert fields[0..] == fields;
  }

  lemma FieldsEnd(lib: Libc, fields: seq<Field>)
    ensures FieldsFrom(lib, fields, |fields|) == []
  {
  }

  method Stringify(lib: Libc, v: Json) returns (text: seq<byte>)
    ensures text == Print(lib, v)
  {
    hide Print;
    var sb := new StrBuf();
    sb.StringifyValue(lib, v);
    text := sb.buf[..sb.len];
  }
}
