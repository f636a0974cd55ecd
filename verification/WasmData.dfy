/** String constants: the interning table, the layout it gives every string,
    and the data segment whose escaped text decodes to that layout. */
module WasmData {
  import opened Bytes
  import opened Wrappers

  const DATA_BASE := 1024
  const MAX_STRINGS := 512

  datatype WasmString = WasmString(value: CStr, offset: nat)

  function Align8(n: nat): (r: nat)
    ensures n <= r < n + 8 && r % 8 == 0
  {
    (n + 7) / 8 * 8
  }

  /** Where the entry after the first n ends: the next free offset. */
  function EndOf(strings: seq<WasmString>, n: nat): nat
    requires n <= |strings|
  {
    if n == 0 then DATA_BASE else Align8(strings[n - 1].offset + |strings[n - 1].value|)
  }

  /** Entries follow each other, each a 4-byte length and then the bytes. */
  predicate LaidOut(strings: seq<WasmString>) {
    forall i {:trigger EndOf(strings, i)} :: 0 <= i < |strings| ==> strings[i].offset == EndOf(strings, i) + 4
  }

  predicate DistinctValues(strings: seq<WasmString>) {
    forall i, j :: 0 <= i < j < |strings| ==> strings[i].value != strings[j].value
  }

  predicate WellFormed(strings: seq<WasmString>) {
    |strings| <= MAX_STRINGS && LaidOut(strings) && DistinctValues(strings)
  }

  /** Entry i keeps its length in [offset-4, offset) and its bytes after it,
      all before entry j > i begins. */
  lemma {:induction false} EntriesDisjoint(strings: seq<WasmString>, i: nat, j: nat)
    requires LaidOut(strings) && i < j < |strings|
    ensures DATA_BASE <= strings[i].offset - 4
    ensures strings[i].offset + |strings[i].value| <= strings[j].offset - 4
    decreases j
  {
    BaseBelow(strings, i);
    if i < j - 1 {
      EntriesDisjoint(strings, i, j - 1);
    }
    assert strings[j].offset == EndOf(strings, j) + 4;
  }

  lemma {:induction false} BaseBelow(strings: seq<WasmString>, i: nat)
    requires LaidOut(strings) && i < |strings|
    ensures DATA_BASE + 4 <= strings[i].offset
  {
    assert strings[i].offset == EndOf(strings, i) + 4;
    if i > 0 {
      BaseBelow(strings, i - 1);
    }
  }

  // ---- interning as a function ----

  function Find(strings: seq<WasmString>, s: CStr): (k: int)
    ensures -1 <= k < |strings|
    ensures k >= 0 ==> strings[k].value == s
    ensures k == -1 ==> forall i :: 0 <= i < |strings| ==> strings[i].value != s
  {
    if strings == [] then -1
    else if strings[0].value == s then 0
    else
      var k := Find(strings[1..], s);
      if k < 0 then -1 else k + 1
  }

  function Add(strings: seq<WasmString>, s: CStr): seq<WasmString> {
    if Find(strings, s) >= 0 || |strings| >= MAX_STRINGS then strings
    else strings + [WasmString(s, EndOf(strings, |strings|) + 4)]
  }

  function AddAll(strings: seq<WasmString>, ss: seq<CStr>): seq<WasmString> {
    if ss == [] then strings else Add(AddAll(strings, ss[..|ss| - 1]), ss[|ss| - 1])
  }

  /** The offset a string constant is emitted with; DATA_BASE stands for a
      string the full table could not take. */
  function OffsetOf(strings: seq<WasmString>, s: CStr): nat {
    if Find(strings, s) >= 0 then strings[Find(strings, s)].offset else DATA_BASE
  }

  lemma FindIsUnique(strings: seq<WasmString>, s: CStr, k: nat)
    requires DistinctValues(strings) && k < |strings| && strings[k].value == s
    ensures Find(strings, s) == k
  {
    var j := Find(strings, s);
    if j < k {
      assert strings[j].value == strings[k].value;
    }
  }

  lemma AddKeeps(strings: seq<WasmString>, s: CStr)
    requires WellFormed(strings)
    ensures WellFormed(Add(strings, s)) && strings <= Add(strings, s)
    ensures Find(Add(strings, s), s) >= 0 || |strings| == MAX_STRINGS
  {
    var r := Add(strings, s);
    if r != strings {
      forall i | 0 <= i < |r|
        ensures r[i].offset == EndOf(r, i) + 4
      {
        assert EndOf(r, i) == EndOf(strings, i);
      }
      FindIsUnique(r, s, |strings|);
    }
  }

  lemma {:induction false} AddAllKeeps(strings: seq<WasmString>, ss: seq<CStr>)
    requires WellFormed(strings)
    ensures WellFormed(AddAll(strings, ss)) && strings <= AddAll(strings, ss)
  {
    if ss != [] {
      AddAllKeeps(strings, ss[..|ss| - 1]);
      AddKeeps(AddAll(strings, ss[..|ss| - 1]), ss[|ss| - 1]);
    }
  }

  /** A found string stays found at the same place as the table grows. */
  lemma FindStable(strings: seq<WasmString>, more: seq<WasmString>, s: CStr)
    requires strings <= more && DistinctValues(more) && Find(strings, s) >= 0
    ensures Find(more, s) == Find(strings, s)
  {
    FindIsUnique(more, s, Find(strings, s));
  }

  function Distinct(ss: seq<CStr>): set<CStr> {
    set s | s in ss
  }

  lemma {:induction false} TableIsDistinct(ss: seq<CStr>)
    ensures var t := AddAll([], ss);
            && (forall e <- t :: e.value in ss)
            && (|t| < MAX_STRINGS ==> forall s <- ss :: Find(t, s) >= 0)
  {
    AddAllKeeps([], ss);
    if ss != [] {
      var init := ss[..|ss| - 1];
      TableIsDistinct(init);
      AddAllKeeps([], init);
      var t, t' := AddAll([], init), AddAll([], ss);
      AddKeeps(t, ss[|ss| - 1]);
      forall s <- ss | |t'| < MAX_STRINGS
        ensures Find(t', s) >= 0
      {
        if s in init {
          FindStable(t, t', s);
        }
      }
    }
  }

  lemma {:induction false} ValuesCount(strings: seq<WasmString>)
    requires DistinctValues(strings)
    ensures |set e | e in strings :: e.value| == |strings|
  {
    var values := set e | e in strings :: e.value;
    if strings != [] {
      var n := |strings| - 1;
      var init := strings[..n];
      ValuesCount(init);
      var before := set e | e in init :: e.value;
      assert strings[n].value !in before;
      assert values == before + {strings[n].value} by {
        assert strings == init + [strings[n]];
      }
    } else {
      assert values == {};
    }
  }

  lemma {:induction false} SubsetSmaller<T>(a: set<T>, b: set<T>)
    requires a <= b
    ensures |a| <= |b|
    ensures |a| == |b| ==> a == b
  {
    if a != {} {
      var x :| x in a;
      SubsetSmaller(a - {x}, b - {x});
      assert a == (a - {x}) + {x} && b == (b - {x}) + {x};
    } else {
      assert |b| == 0 ==> b == {};
    }
  }

  /** EXACT CONDITION. The pre-pass finds room for every constant of the module
      if and only if they are at most 512 different strings. */
  lemma EveryStringInternedIff(ss: seq<CStr>)
    ensures (forall s <- ss :: Find(AddAll([], ss), s) >= 0) <==> |Distinct(ss)| <= MAX_STRINGS
  {
    var t := AddAll([], ss);
    var values := set e | e in t :: e.value;
    AddAllKeeps([], ss);
    TableIsDistinct(ss);
    ValuesCount(t);
    assert values <= Distinct(ss);
    SubsetSmaller(values, Distinct(ss));
    if forall s <- ss :: Find(t, s) >= 0 {
      forall s <- Distinct(ss)
        ensures s in values
      {
        assert t[Find(t, s)] in t;
      }
      assert values == Distinct(ss);
    } else {
      assert |t| == MAX_STRINGS;
      var s :| s in ss && Find(t, s) < 0;
      assert s in Distinct(ss) && s !in values;
    }
  }

  /** MAIN RESULT of interning. With at most 512 different constants, equal
      strings share one offset and different strings own disjoint ranges. */
  lemma OffsetsIdentifyStrings(ss: seq<CStr>, a: CStr, b: CStr)
    requires |Distinct(ss)| <= MAX_STRINGS && a in ss && b in ss
    ensures var t := AddAll([], ss);
            && Add(t, a) == t
            && (a == b <==> OffsetOf(t, a) == OffsetOf(t, b))
            && (a != b ==> OffsetOf(t, a) + |a| <= OffsetOf(t, b) - 4 || OffsetOf(t, b) + |b| <= OffsetOf(t, a) - 4)
  {
    var t := AddAll([], ss);
    EveryStringInternedIff(ss);
    AddAllKeeps([], ss);
    var i, j := Find(t, a), Find(t, b);
    if i < j {
      EntriesDisjoint(t, i, j);
    } else if j < i {
      EntriesDisjoint(t, j, i);
    }
  }

  // ---- the memory image ----

  function Zeros(n: nat): (z: seq<byte>)
    ensures |z| == n
  {
    seq(n, _ => 0 as byte)
  }

  /** A 32-bit number, least significant byte first. */
  function LittleEndian(v: nat): (b: seq<byte>)
    ensures |b| == 4
  {
    [(v % 256) as byte, (v / 256 % 256) as byte, (v / 0x1_0000 % 256) as byte, (v / 0x100_0000 % 256) as byte]
  }

  function FromLittleEndian(b: seq<byte>): nat
    requires |b| == 4
  {
    b[0] as int + 256 * b[1] as int + 0x1_0000 * b[2] as int + 0x100_0000 * b[3] as int
  }

  lemma EntryRoom(strings: seq<WasmString>, n: nat)
    requires LaidOut(strings) && 0 < n <= |strings|
    ensures strings[n - 1].offset - 4 >=
            if n == 1 then DATA_BASE else strings[n - 2].offset + |strings[n - 2].value|
  {
    if n == 1 {
      BaseBelow(strings, 0);
    } else {
      EntriesDisjoint(strings, n - 2, n - 1);
    }
  }

  /** Memory from DATA_BASE on, up to the end of entry n-1. */
  function Image(strings: seq<WasmString>, n: nat): (m: seq<byte>)
    requires n <= |strings| && LaidOut(strings)
    ensures |m| == if n == 0 then 0 else strings[n - 1].offset + |strings[n - 1].value| - DATA_BASE
  {
    if n == 0 then []
    else
      var before := Image(strings, n - 1);
      EntryRoom(strings, n);
      var s := strings[n - 1];
      before + Zeros(s.offset - 4 - DATA_BASE - |before|) + LittleEndian(|s.value|) + s.value
  }

  lemma {:induction false} ImageGrows(strings: seq<WasmString>, n: nat, m: nat)
    requires n <= m <= |strings| && LaidOut(strings)
    ensures Image(strings, n) <= Image(strings, m)
    decreases m
  {
    if n < m {
      ImageGrows(strings, n, m - 1);
    }
  }

  /** In the image every interned string lies at its offset, with its length in
      the four bytes before. */
  lemma ImageHolds(strings: seq<WasmString>, k: nat)
    requires LaidOut(strings) && k < |strings| && |strings[k].value| < 0x1_0000_0000
    ensures var m := Image(strings, |strings|);
            var at := strings[k].offset - DATA_BASE;
            && 4 <= at && at + |strings[k].value| <= |m|
            && FromLittleEndian(m[at - 4..at]) == |strings[k].value|
            && m[at..at + |strings[k].value|] == strings[k].value
  {
    hide LittleEndian;
    var s := strings[k];
    var at := s.offset - DATA_BASE;
    EntryRoom(strings, k + 1);
    var here, m := Image(strings, k + 1), Image(strings, |strings|);
    var before := Image(strings, k);
    ImageParts(before + Zeros(s.offset - 4 - DATA_BASE - |before|), LittleEndian(|s.value|), s.value);
    ImageGrows(strings, k + 1, |strings|);
    assert m[at - 4..at] == here[at - 4..at];
    assert m[at..at + |s.value|] == here[at..at + |s.value|];
    ReadLength(|s.value|);
  }

  lemma ReadLength(v: nat)
    requires v < 0x1_0000_0000
    ensures FromLittleEndian(LittleEndian(v)) == v
  {
    var q := v / 256;
    assert v == 256 * q + v % 256;
    assert v / 0x1_0000 == q / 256 && v / 0x100_0000 == q / 0x1_0000;
    assert q == 256 * (q / 256) + q % 256;
    assert q / 256 == 256 * (q / 0x1_0000) + q / 256 % 256;
  }

  lemma ImageParts(head: seq<byte>, size: seq<byte>, body: seq<byte>)
    ensures (head + size + body)[|head|..|head| + |size|] == size
    ensures (head + size + body)[|head| + |size|..|head| + |size| + |body|] == body
  {
  }

  /** The image of everything interned. */
  function TableImage(ss: seq<CStr>): seq<byte> {
    AddAllKeeps([], ss);
    Image(AddAll([], ss), |AddAll([], ss)|)
  }

  /** MAIN RESULT of the segment. Any text that decodes to the image of the
      interned constants puts every constant at the offset its uses are emitted
      with, behind its length. */
  lemma DataSegmentServes(ss: seq<CStr>, literals: seq<string>, s: CStr)
    requires |Distinct(ss)| <= MAX_STRINGS && s in ss && |s| < 0x1_0000_0000
    requires Decode(literals) == Some(TableImage(ss))
    ensures var m := Decode(literals).value;
            var at := OffsetOf(AddAll([], ss), s) - DATA_BASE;
            && 4 <= at && at + |s| <= |m|
            && FromLittleEndian(m[at - 4..at]) == |s|
            && m[at..at + |s|] == s
  {
    hide AddAll;
    hide Decode;
    hide Image;
    hide LittleEndian;
    hide FromLittleEndian;
    hide EndOf;
    hide Distinct;
    EveryStringInternedIff(ss);
    AddAllKeeps([], ss);
    ImageHolds(AddAll([], ss), Find(AddAll([], ss), s));
  }

  // ---- escaped text ----

  function HexDigit(d: nat): char
    requires d < 16
  {
    "0123456789abcdef"[d]
  }

  function HexValue(c: char): int {
    if '0' <= c <= '9' then c as int - '0' as int
    else if 'a' <= c <= 'f' then c as int - 'a' as int + 10
    else if 'A' <= c <= 'F' then c as int - 'A' as int + 10
    else -1
  }

  function HexEscape(b: byte): string {
    ['\\', HexDigit(b as int / 16), HexDigit(b as int % 16)]
  }

  /** One byte of a data string: quote and backslash behind a backslash, other
      printable ASCII as it is, everything else as two hex digits. */
  function EscapeByte(b: byte): string {
    if b == 0x22 || b == 0x5C then ['\\', b as int as char]
    else if 0x20 <= b < 0x7F then [b as int as char]
    else HexEscape(b)
  }

  function Escape(bs: seq<byte>): string {
    if bs == [] then [] else Escape(bs[..|bs| - 1]) + EscapeByte(bs[|bs| - 1])
  }

  /** The WebAssembly text format's reading of a string literal: \hh is a byte,
      a backslash may precede t, n, r, a quote or a backslash, and a bare quote
      or control character cannot occur. */
  function Unescape(t: string): Option<seq<byte>> {
    if t == [] then Some([])
    else if t[0] == '\\' then
      if |t| >= 3 && HexValue(t[1]) >= 0 && HexValue(t[2]) >= 0 then
        Prepend((16 * HexValue(t[1]) + HexValue(t[2])) as byte, Unescape(t[3..]))
      else if |t| >= 2 && t[1] in "tnr\"'\\" then
        Prepend(if t[1] == 't' then 9 else if t[1] == 'n' then 10 else if t[1] == 'r' then 13 else (t[1] as int) as byte,
                Unescape(t[2..]))
      else None
    else if ' ' <= t[0] <= '~' && t[0] != '"' then Prepend((t[0] as int) as byte, Unescape(t[1..]))
    else None
  }

  function Prepend(b: byte, rest: Option<seq<byte>>): Option<seq<byte>> {
    match rest
    case Some(bs) => Some([b] + bs)
    case None => None
  }

  lemma HexRoundTrip(d: nat)
    requires d < 16
    ensures HexValue(HexDigit(d)) == d
  {
    assert "0123456789abcdef"[d] == if d < 10 then ('0' as int + d) as char else ('a' as int + (d - 10)) as char;
  }

  lemma UnescapeByte(b: byte, rest: string)
    ensures Unescape(EscapeByte(b) + rest) == Prepend(b, Unescape(rest))
  {
    var t := EscapeByte(b) + rest;
    if b == 0x22 || b == 0x5C {
      assert t[2..] == rest;
      assert HexValue(t[1]) < 0;
    } else if 0x20 <= b < 0x7F {
      assert t[1..] == rest;
    } else {
      HexRoundTrip(b as int / 16);
      HexRoundTrip(b as int % 16);
      assert t[3..] == rest;
    }
  }

  lemma {:induction false} UnescapeAppend(bs: seq<byte>, rest: string)
    ensures Unescape(Escape(bs) + rest) ==
            match Unescape(rest) case Some(more) => Some(bs + more) case None => None
  {
    hide Unescape;
    hide EscapeByte;
    if bs == [] {
      assert Escape(bs) + rest == rest;
      assert forall more: seq<byte> :: bs + more == more;
    } else {
      var n := |bs| - 1;
      var e := EscapeByte(bs[n]);
      assert Escape(bs) + rest == Escape(bs[..n]) + (e + rest);
      UnescapeAppend(bs[..n], e + rest);
      UnescapeByte(bs[n], rest);
      assert forall more: seq<byte> :: bs[..n] + ([bs[n]] + more) == bs + more;
    }
  }

  /** Reading back an escaped string gives the string, for all bytes. */
  lemma UnescapeEscape(bs: seq<byte>)
    ensures Unescape(Escape(bs)) == Some(bs)
  {
    UnescapeAppend(bs, []);
    assert Escape(bs) + [] == Escape(bs);
    assert bs + [] == bs;
  }

  /** The bytes of the string literals of a data segment, one after the other. */
  function Decode(literals: seq<string>): Option<seq<byte>> {
    if literals == [] then Some([])
    else
      match (Decode(literals[..|literals| - 1]), Unescape(literals[|literals| - 1]))
      case (Some(a), Some(b)) => Some(a + b)
      case _ => None
  }

  lemma DecodeSnoc(literals: seq<string>, a: seq<byte>, t: string, b: seq<byte>)
    requires Decode(literals) == Some(a) && Unescape(t) == Some(b)
    ensures Decode(literals + [t]) == Some(a + b)
  {
    assert (literals + [t])[..|literals|] == literals;
  }

  lemma HexEscapeRead(b: byte, rest: string)
    ensures Unescape(HexEscape(b) + rest) == Prepend(b, Unescape(rest))
  {
    var t := HexEscape(b) + rest;
    HexRoundTrip(b as int / 16);
    HexRoundTrip(b as int % 16);
    assert t[3..] == rest;
  }

  lemma PrefixRead(v: nat)
    ensures var b := LittleEndian(v);
            Unescape(HexEscape(b[0]) + (HexEscape(b[1]) + (HexEscape(b[2]) + (HexEscape(b[3]) + [])))) == Some(b)
  {
    hide Unescape;
    hide HexEscape;
    var b := LittleEndian(v);
    HexEscapeRead(b[3], []);
    HexEscapeRead(b[2], HexEscape(b[3]) + []);
    HexEscapeRead(b[1], HexEscape(b[2]) + (HexEscape(b[3]) + []));
    HexEscapeRead(b[0], HexEscape(b[1]) + (HexEscape(b[2]) + (HexEscape(b[3]) + [])));
    UnescapeEmpty();
    assert [b[0]] + ([b[1]] + ([b[2]] + ([b[3]] + []))) == b;
  }

  lemma UnescapeEmpty()
    ensures Unescape([]) == Some([])
  {
  }

  // ---- writing order ----

  /** A permutation of the entry numbers. */
  predicate IsOrder(order: seq<nat>, n: nat) {
    && |order| == n
    && (forall i :: 0 <= i < n ==> order[i] < n)
    && (forall i, j :: 0 <= i < j < n ==> order[i] != order[j])
  }

  predicate InOrder(strings: seq<WasmString>, order: seq<nat>, m: nat)
    requires IsOrder(order, |strings|) && m <= |strings|
  {
    forall i, j :: 0 <= i < j < m ==> strings[order[i]].offset <= strings[order[j]].offset
  }

  /** The inner loop: entries after `j` have moved up by one, all above the key. */
  predicate Shifted(strings: seq<WasmString>, was: seq<nat>, now: seq<nat>, j: int, i: nat)
    requires IsOrder(was, |strings|) && -1 <= j < i < |strings|
  {
    && |now| == |was|
    && (forall k :: 0 <= k <= j ==> now[k] == was[k])
    && (forall k :: i < k < |now| ==> now[k] == was[k])
    && (forall k :: j + 1 < k <= i ==> now[k] == was[k - 1])
    && (forall k :: j < k < i ==> strings[was[k]].offset > strings[was[i]].offset)
  }

  lemma ShiftStep(strings: seq<WasmString>, was: seq<nat>, now: seq<nat>, j: nat, i: nat)
    requires IsOrder(was, |strings|) && j < i < |strings| && Shifted(strings, was, now, j, i)
    requires strings[was[j]].offset > strings[was[i]].offset
    ensures now[j] == was[j] && Shifted(strings, was, now[j + 1 := now[j]], j - 1, i)
  {
  }

  lemma ShiftedAt(strings: seq<WasmString>, was: seq<nat>, now: seq<nat>, j: int, i: nat)
    requires IsOrder(was, |strings|) && -1 <= j < i < |strings| && Shifted(strings, was, now, j, i)
    ensures |now| == |was| && (j >= 0 ==> now[j] == was[j])
  {
  }

  /** Moving the key at `i` down to `p` keeps a permutation and sorts one more. */
  lemma Inserted(strings: seq<WasmString>, was: seq<nat>, now: seq<nat>, p: nat, i: nat)
    requires IsOrder(was, |strings|) && p <= i < |strings| && InOrder(strings, was, i)
    requires |now| == |was| && now[p] == was[i]
    requires forall k :: 0 <= k < |now| && (k < p || i < k) ==> now[k] == was[k]
    requires forall k :: p < k <= i ==> now[k] == was[k - 1]
    requires forall k :: p <= k < i ==> strings[was[k]].offset > strings[was[i]].offset
    requires p > 0 ==> strings[was[p - 1]].offset <= strings[was[i]].offset
    ensures IsOrder(now, |strings|) && InOrder(strings, now, i + 1)
  {
    forall a, b | 0 <= a < b < |now|
      ensures now[a] != now[b]
    {
      var a' := if a < p || i < a then a else if a == p then i else a - 1;
      var b' := if b < p || i < b then b else if b == p then i else b - 1;
      assert now[a] == was[a'] && now[b] == was[b'] && a' != b';
    }
    forall a, b | 0 <= a < b < i + 1
      ensures strings[now[a]].offset <= strings[now[b]].offset
    {
      if b == p && a < p - 1 {
        assert strings[was[a]].offset <= strings[was[p - 1]].offset;
      }
    }
  }

  /** The entries are created in offset order, so sorting leaves them alone. */
  lemma AscendingOrder(strings: seq<WasmString>, order: seq<nat>)
    requires LaidOut(strings) && IsOrder(order, |strings|) && InOrder(strings, order, |strings|)
    ensures forall i :: 0 <= i < |strings| ==> order[i] == i
  {
    forall i, j | 0 <= i < j < |strings|
      ensures order[i] < order[j]
    {
      if order[j] < order[i] {
        EntriesDisjoint(strings, order[j], order[i]);
      }
    }
    Climbs(order, |strings|);
  }

  /** A strictly increasing sequence of n numbers below n is 0, 1, ..., n-1. */
  lemma {:induction false} Climbs(order: seq<nat>, n: nat)
    requires |order| == n && (forall i :: 0 <= i < n ==> order[i] < n)
    requires forall i, j :: 0 <= i < j < n ==> order[i] < order[j]
    ensures forall i :: 0 <= i < n ==> order[i] == i
  {
    if n > 0 {
      assert forall i :: 0 <= i < n - 1 ==> order[i] < order[n - 1];
      Climbs(order[..n - 1], n - 1);
      assert forall i :: 0 <= i < n - 1 ==> order[..n - 1][i] == order[i];
      if n > 1 {
        assert order[n - 2] == n - 2;
      }
    }
  }

  // ---- the emitter's string table ----

  class StringTable {
    var strings: seq<WasmString>
    var dataOffset: nat

    ghost predicate Valid()
      reads this
    {
      WellFormed(strings) && dataOffset == EndOf(strings, |strings|)
    }

    constructor ()
      ensures Valid() && strings == []
    {
      strings, dataOffset := [], DATA_BASE;
    }

    /** Look up or insert; the offset of the bytes. */
    method Intern(s: CStr) returns (offset: nat)
      requires Valid()
      modifies this
      ensures Valid()
      ensures strings == Add(old(strings), s)
      ensures offset == OffsetOf(strings, s)
      ensures Find(old(strings), s) >= 0 ==> unchanged(this)
    {
      var i := 0;
      while i < |strings|
        invariant 0 <= i <= |strings|
        invariant forall j :: 0 <= j < i ==> strings[j].value != s
      {
        if strings[i].value == s {
          FindIsUnique(strings, s, i);
          return strings[i].offset;
        }
        i := i + 1;
      }
      if |strings| >= MAX_STRINGS {
        return DATA_BASE;
      }
      ghost var before := strings;
      var prefixOff := dataOffset;
      var bytesOff := prefixOff + 4;
      var nextOff := bytesOff + |s|;
      nextOff := (nextOff + 7) / 8 * 8;
      strings := strings + [WasmString(s, bytesOff)];
      dataOffset := nextOff;
      AddKeeps(before, s);
      FindIsUnique(strings, s, |before|);
      return bytesOff;
    }

    /** The pre-pass over the string constants of the module. */
    method PreIntern(consts: seq<CStr>)
      requires Valid() && strings == []
      modifies this
      ensures Valid() && strings == AddAll([], consts)
    {
      var i := 0;
      while i < |consts|
        invariant 0 <= i <= |consts|
        invariant Valid() && strings == AddAll([], consts[..i])
      {
        assert consts[..i + 1][..i] == consts[..i];
        var _ := Intern(consts[i]);
        i := i + 1;
      }
      assert consts[..i] == consts;
    }

    method EscapeBytes(bs: seq<byte>) returns (t: string)
      ensures t == Escape(bs)
    {
      t := [];
      var i := 0;
      while i < |bs|
        invariant 0 <= i <= |bs|
        invariant t == Escape(bs[..i])
      {
        assert bs[..i + 1][..i] == bs[..i];
        var c := bs[i];
        if c == 0x22 || c == 0x5C {
          t := t + ['\\', c as int as char];
        } else if c >= 0x20 && c < 0x7F {
          t := t + [c as int as char];
        } else {
          t := t + HexEscape(c);
        }
        i := i + 1;
      }
      assert bs[..i] == bs;
    }

    method Padding(n: nat) returns (t: string)
      ensures Unescape(t) == Some(Zeros(n))
    {
      t := [];
      var i := 0;
      while i < n
        invariant 0 <= i <= n
        invariant t == Escape(Zeros(i))
      {
        assert Zeros(i + 1)[..i] == Zeros(i);
        t := t + HexEscape(0);
        i := i + 1;
      }
      UnescapeEscape(Zeros(n));
    }

    /** The order in which the entries are written: by offset. */
    method OrderByOffset() returns (order: array<nat>)
      requires Valid()
      ensures fresh(order) && order.Length == |strings|
      ensures IsOrder(order[..], |strings|) && InOrder(strings, order[..], |strings|)
    {
      var n := |strings|;
      order := new nat[n];
      var i := 0;
      while i < n
        invariant 0 <= i <= n
        invariant forall k :: 0 <= k < i ==> order[k] == k
      {
        order[i] := i;
        i := i + 1;
      }
      i := 1;
      while i < n
        invariant n > 0 ==> 1 <= i <= n
        invariant IsOrder(order[..], n) && InOrder(strings, order[..], if n == 0 then 0 else i)
      {
        InsertKey(order, i);
        i := i + 1;
      }
    }

    /** One round of the insertion sort: the key at `i` moves below the larger ones. */
    method InsertKey(order: array<nat>, i: nat)
      requires 0 < i < order.Length == |strings|
      requires IsOrder(order[..], |strings|) && InOrder(strings, order[..], i)
      modifies order
      ensures IsOrder(order[..], |strings|) && InOrder(strings, order[..], i + 1)
    {
      var key := order[i];
      var j := i - 1;
      ghost var was := order[..];
      assert Shifted(strings, was, was, j, i);
      hide Shifted;
      while j >= 0 && strings[order[j]].offset > strings[key].offset
        invariant -1 <= j < i
        invariant Shifted(strings, was, order[..], j, i)
        invariant j >= 0 ==> order[j] == was[j]
        decreases j
      {
        ghost var now := order[..];
        ShiftStep(strings, was, now, j, i);
        order[j + 1] := order[j];
        assert order[..] == now[j + 1 := now[j]];
        ShiftedAt(strings, was, order[..], j - 1, i);
        assert j > 0 ==> order[..][j - 1] == order[j - 1];
        j := j - 1;
      }
      PutKey(order, key, was, j + 1, i);
    }

    method PutKey(order: array<nat>, key: nat, ghost was: seq<nat>, p: nat, i: nat)
      requires p <= i < order.Length == |strings| && IsOrder(was, |strings|) && InOrder(strings, was, i)
      requires Shifted(strings, was, order[..], p - 1, i) && key == was[i]
      requires p > 0 ==> strings[was[p - 1]].offset <= strings[was[i]].offset
      modifies order
      ensures IsOrder(order[..], |strings|) && InOrder(strings, order[..], i + 1)
    {
      hide InOrder;
      ghost var now := order[..];
      order[p] := key;
      assert order[..] == now[p := key];
      Inserted(strings, was, order[..], p, i);
    }

    /** The string literals of the data segment, in memory order. */
    method EmitDataSegment() returns (literals: seq<string>)
      requires Valid()
      ensures Decode(literals) == Some(Image(strings, |strings|))
    {
      literals := [];
      if |strings| == 0 {
        return;
      }
      var n := |strings|;
      var order := OrderByOffset();
      AscendingOrder(strings, order[..]);
      var cursor := DATA_BASE;
      var i := 0;
      while i < n
        invariant 0 <= i <= n
        invariant forall k :: 0 <= k < n ==> order[k] == k
        invariant cursor == DATA_BASE + |Image(strings, i)|
        invariant Decode(literals) == Some(Image(strings, i))
      {
        var s := strings[order[i]];
        EntryRoom(strings, i + 1);
        ghost var before := Image(strings, i);
        literals, cursor := EmitEntry(literals, cursor, s, before);
        i := i + 1;
      }
    }

    method EmitEntry(literals: seq<string>, cursor: nat, s: WasmString, ghost before: seq<byte>)
      returns (out: seq<string>, cursor': nat)
      requires Decode(literals) == Some(before) && cursor == DATA_BASE + |before| <= s.offset - 4
      ensures Decode(out) ==
              Some(before + Zeros(s.offset - 4 - DATA_BASE - |before|) + LittleEndian(|s.value|) + s.value)
      ensures cursor' == s.offset + |s.value|
    {
      hide Unescape;
      hide LittleEndian;
      out := literals;
      var prefixOff := s.offset - 4;
      ghost var padded := before + Zeros(prefixOff - cursor);
      if prefixOff > cursor {
        var pad := Padding(prefixOff - cursor);
        DecodeSnoc(out, before, pad, Zeros(prefixOff - cursor));
        out := out + [pad];
      } else {
        assert padded == before;
      }
      var prefix := LengthPrefix(|s.value|);
      DecodeSnoc(out, padded, prefix, LittleEndian(|s.value|));
      out := out + [prefix];
      var text := EscapeBytes(s.value);
      UnescapeEscape(s.value);
      DecodeSnoc(out, padded + LittleEndian(|s.value|), text, s.value);
      out := out + [text];
      cursor' := s.offset + |s.value|;
    }

    method LengthPrefix(v: nat) returns (t: string)
      ensures Unescape(t) == Some(LittleEndian(v))
    {
      hide Unescape;
      var b := LittleEndian(v);
      t := HexEscape(b[0]) + (HexEscape(b[1]) + (HexEscape(b[2]) + (HexEscape(b[3]) + [])));
      PrefixRead(v);
    }
  }
}
