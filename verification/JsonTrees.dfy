/** Whole JSON texts as syntax trees: the parser accepts exactly their spellings
    and returns what they mean. */
module JsonTrees {
  import opened Bytes
  import opened Json
  import opened JsonRound
  import opened JsonGrammar
  import opened Wrappers

  // ---- trees ----

  datatype Tree =
    | NullTree
    | TrueTree
    | FalseTree
    | StringTree(chars: seq<Char>)
    | NumberTree(n: Numeral)
    | EmptyArray(gap: seq<byte>)
    | ArrayTree(items: seq<Item>)
    | EmptyObject(gap: seq<byte>)
    | ObjectTree(members: seq<Member>)

  /** A value with the whitespace around it. */
  datatype Item = Item(before: seq<byte>, tree: Tree, after: seq<byte>)

  datatype Member = Member(before: seq<byte>, key: seq<Char>, between: seq<byte>, item: Item)

  predicate Shaped(t: Tree)
    decreases t
  {
    match t
    case StringTree(chars) => ValidChars(chars)
    case NumberTree(n) => ValidNumeral(n)
    case EmptyArray(gap) => Blank(gap)
    case ArrayTree(items) => items != [] && forall i :: 0 <= i < |items| ==> ShapedItem(items[i])
    case EmptyObject(gap) => Blank(gap)
    case ObjectTree(members) => members != [] && forall i :: 0 <= i < |members| ==> ShapedMember(members[i])
    case _ => true
  }

  predicate ShapedItem(i: Item)
    decreases i
  {
    Blank(i.before) && Shaped(i.tree) && Blank(i.after)
  }

  predicate ShapedMember(m: Member)
    decreases m
  {
    Blank(m.before) && ValidChars(m.key) && Blank(m.between) && ShapedItem(m.item)
  }

  predicate ShapedItems(items: seq<Item>) {
    forall i :: 0 <= i < |items| ==> ShapedItem(items[i])
  }

  predicate ShapedMembers(members: seq<Member>) {
    forall i :: 0 <= i < |members| ==> ShapedMember(members[i])
  }

  function Text(s: string): seq<byte> {
    seq(|s|, i requires 0 <= i < |s| => Code(s[i]))
  }

  function Spell(t: Tree): seq<byte>
    decreases t
  {
    match t
    case NullTree => Text("null")
    case TrueTree => Text("true")
    case FalseTree => Text("false")
    case StringTree(chars) => SpellString(chars)
    case NumberTree(n) => SpellNumeral(n)
    case EmptyArray(gap) => [Code('[')] + gap + [Code(']')]
    case ArrayTree(items) => [Code('[')] + SpellItems(items) + [Code(']')]
    case EmptyObject(gap) => [Code('{')] + gap + [Code('}')]
    case ObjectTree(members) => [Code('{')] + SpellMembers(members) + [Code('}')]
  }

  function SpellItem(i: Item): seq<byte>
    decreases i
  {
    i.before + Spell(i.tree) + i.after
  }

  function SpellItems(items: seq<Item>): seq<byte>
    decreases items
  {
    if items == [] then []
    else if |items| == 1 then SpellItem(items[0])
    else SpellItem(items[0]) + [Code(',')] + SpellItems(items[1..])
  }

  function SpellMember(m: Member): seq<byte>
    decreases m
  {
    m.before + SpellString(m.key) + m.between + [Code(':')] + SpellItem(m.item)
  }

  function SpellMembers(members: seq<Member>): seq<byte>
    decreases members
  {
    if members == [] then []
    else if |members| == 1 then SpellMember(members[0])
    else SpellMember(members[0]) + [Code(',')] + SpellMembers(members[1..])
  }

  /** The C library accepts every number in the tree. */
  predicate Readable(lib: Libc, t: Tree)
    decreases t
  {
    match t
    case NumberTree(n) => lib.strtod(SpellNumeral(n)).Some?
    case ArrayTree(items) => forall i :: 0 <= i < |items| ==> Readable(lib, items[i].tree)
    case ObjectTree(members) => forall i :: 0 <= i < |members| ==> Readable(lib, members[i].item.tree)
    case _ => true
  }

  predicate ReadableItems(lib: Libc, items: seq<Item>) {
    forall i :: 0 <= i < |items| ==> ShapedItem(items[i]) && Readable(lib, items[i].tree)
  }

  predicate ReadableMembers(lib: Libc, members: seq<Member>) {
    forall i :: 0 <= i < |members| ==> ShapedMember(members[i]) && Readable(lib, members[i].item.tree)
  }

  /** What a tree means. Of members with the same key the last one counts
      (`JsonRound.LastValueWins`); a key ends at its first NUL. */
  function Meaning(lib: Libc, t: Tree): Json
    decreases t
  {
    match t
    case NullTree => Null
    case TrueTree => Json.Bool(true)
    case FalseTree => Json.Bool(false)
    case StringTree(chars) => Str(CharsMean(chars))
    case NumberTree(n) => (match lib.strtod(SpellNumeral(n)) case Some(x) => Number(x) case None => Null)
    case EmptyArray(_) => Arr([])
    case ArrayTree(items) => Arr(ItemsMean(lib, items))
    case EmptyObject(_) => Obj([])
    case ObjectTree(members) => Obj(Collapse(MembersMean(lib, members)))
  }

  function ItemsMean(lib: Libc, items: seq<Item>): seq<Json>
    decreases items
  {
    if items == [] then [] else [Meaning(lib, items[0].tree)] + ItemsMean(lib, items[1..])
  }

  function MemberMeans(lib: Libc, m: Member): Field
    decreases m
  {
    Field(UntilNul(CharsMean(m.key)), Meaning(lib, m.item.tree))
  }

  function MembersMean(lib: Libc, members: seq<Member>): seq<Field>
    decreases members
  {
    if members == [] then [] else [MemberMeans(lib, members[0])] + MembersMean(lib, members[1..])
  }

  // ---- whitespace ----

  lemma {:induction false} BlankSkipped(w: seq<byte>, s: seq<byte>)
    requires Blank(w) && (s == [] || !IsSpace(s[0]))
    ensures SkipSpace(w + s) == s
  {
    if w == [] {
      assert w + s == s;
    } else {
      assert w[0] in w && (w + s)[1..] == w[1..] + s;
      BlankSkipped(w[1..], s);
    }
  }

  lemma {:induction false} SkippedBlank(s: seq<byte>) returns (w: seq<byte>)
    ensures Blank(w) && s == w + SkipSpace(s)
  {
    if s != [] && IsSpace(s[0]) {
      var more := SkippedBlank(s[1..]);
      w := [s[0]] + more;
    } else {
      w := [];
    }
  }

  lemma SkipTwice(s: seq<byte>)
    ensures SkipSpace(SkipSpace(s)) == SkipSpace(s)
  {
  }

  /** Leading whitespace makes no difference to a value, nor to a list of them. */
  lemma SameValue(lib: Libc, a: seq<byte>, b: seq<byte>)
    requires SkipSpace(a) == SkipSpace(b)
    ensures ParseValue(lib, a) == ParseValue(lib, b)
  {
    hide SkipSpace;
    hide ParseItems;
    hide ParseMembers;
    hide ParseNumber;
    hide ParseString;
    hide Literal;
  }

  lemma SameItems(lib: Libc, a: seq<byte>, b: seq<byte>)
    requires SkipSpace(a) == SkipSpace(b)
    ensures ParseItems(lib, a) == ParseItems(lib, b)
  {
    SameValue(lib, a, b);
    hide ParseValue;
    hide SkipSpace;
  }

  lemma SameMembers(lib: Libc, a: seq<byte>, b: seq<byte>)
    requires SkipSpace(a) == SkipSpace(b)
    ensures ParseMembers(lib, a) == ParseMembers(lib, b)
  {
    hide ParseValue;
    hide ParseString;
    hide SkipSpace;
    assert ParseMember(lib, a) == ParseMember(lib, b);
    hide ParseMember;
  }

  /** After a value comes whitespace or a delimiter, never more of a number. */
  lemma EndsAfter(after: seq<byte>, d: byte, rest: seq<byte>)
    requires Blank(after) && (d == COMMA || d == CLOSE_BRACKET || d == CLOSE_BRACE)
    ensures EndsNumber(after + [d] + rest) && SkipSpace(after + ([d] + rest)) == [d] + rest
    ensures after + [d] + rest == after + ([d] + rest)
  {
    BlankSkipped(after, [d] + rest);
    if after != [] {
      assert after[0] in after;
    }
  }

  // ---- spellings are accepted ----

  /** The first byte of a value tells its kind. */
  predicate Starts(t: Tree, b: byte) {
    match t
    case NullTree => b == 110
    case TrueTree => b == 116
    case FalseTree => b == 102
    case StringTree(_) => b == QUOTE
    case NumberTree(_) => b == MINUS || IsDigit(b)
    case EmptyArray(_) => b == OPEN_BRACKET
    case ArrayTree(_) => b == OPEN_BRACKET
    case EmptyObject(_) => b == OPEN_BRACE
    case ObjectTree(_) => b == OPEN_BRACE
  }

  lemma SpellStarts(t: Tree)
    requires Shaped(t)
    ensures Spell(t) != [] && Starts(t, Spell(t)[0]) && !IsSpace(Spell(t)[0]) && Spell(t)[0] != CLOSE_BRACKET
  {
    if t.NumberTree? {
      NumeralReads(t.n);
      StartOfNumber(SpellNumeral(t.n));
      hide NumberLen;
      hide SpellNumeral;
    }
  }

  lemma Words()
    ensures Text("null") == NULL_TEXT && Text("true") == TRUE_TEXT && Text("false") == FALSE_TEXT
  {
  }

  lemma NumberTreeReads(lib: Libc, n: Numeral, rest: seq<byte>)
    requires ValidNumeral(n) && lib.strtod(SpellNumeral(n)).Some? && EndsNumber(rest)
    ensures ParseNumber(lib, SpellNumeral(n) + rest) == Some(Parsed(Number(lib.strtod(SpellNumeral(n)).value), rest))
  {
    NumeralReads(n);
    var text := SpellNumeral(n);
    hide SpellNumeral;
    NumberExtends(text, rest);
    hide NumberLen;
    assert (text + rest)[..|text|] == text && (text + rest)[|text|..] == rest;
  }

  lemma AtomReads(lib: Libc, t: Tree, rest: seq<byte>)
    requires Shaped(t) && Readable(lib, t) && EndsNumber(rest)
    requires !t.ArrayTree? && !t.ObjectTree? && !t.EmptyArray? && !t.EmptyObject?
    ensures ParseValue(lib, Spell(t) + rest) == Some(Parsed(Meaning(lib, t), rest))
  {
    match t
    case StringTree(chars) =>
      StringTreeReads(lib, chars, rest);
    case NumberTree(n) =>
      NumberValueReads(lib, n, rest);
    case _ =>
      WordReads(lib, t, rest);
  }

  lemma NumberValueReads(lib: Libc, n: Numeral, rest: seq<byte>)
    requires ValidNumeral(n) && lib.strtod(SpellNumeral(n)).Some? && EndsNumber(rest)
    ensures ParseValue(lib, Spell(NumberTree(n)) + rest) == Some(Parsed(Meaning(lib, NumberTree(n)), rest))
  {
    hide *;
    NumberTreeReads(lib, n, rest);
    NumeralStarts(n);
    NumberTreeIs(lib, n);
    NumberFirst(lib, SpellNumeral(n) + rest);
  }

  lemma NumberFirst(lib: Libc, s: seq<byte>)
    requires s != [] && (s[0] == MINUS || IsDigit(s[0]))
    ensures ParseValue(lib, s) == ParseNumber(lib, s)
  {
    hide SkipSpace;
    hide ParseNumber;
    hide ParseItems;
    hide ParseMembers;
    hide ParseString;
    hide Literal;
    hide Collapse;
    assert !IsSpace(s[0]);
    NoSpace(s);
    assert s[0] != QUOTE && s[0] != OPEN_BRACE && s[0] != OPEN_BRACKET && s[0] != 116 && s[0] != 102 && s[0] != 110;
  }

  lemma NumeralStarts(n: Numeral)
    requires ValidNumeral(n)
    ensures SpellNumeral(n) != [] && (SpellNumeral(n)[0] == MINUS || IsDigit(SpellNumeral(n)[0]))
  {
    NumeralReads(n);
    StartOfNumber(SpellNumeral(n));
  }

  lemma StringTreeReads(lib: Libc, chars: seq<Char>, rest: seq<byte>)
    requires ValidChars(chars)
    ensures ParseValue(lib, Spell(StringTree(chars)) + rest) == Some(Parsed(Meaning(lib, StringTree(chars)), rest))
  {
    StringReads(chars, rest);
    StringStarts(chars);
    hide SpellString;
    hide CharsMean;
    NoSpace(SpellString(chars) + rest);
    hide ParseString;
    hide SkipSpace;
  }

  lemma WordReads(lib: Libc, t: Tree, rest: seq<byte>)
    requires t.NullTree? || t.TrueTree? || t.FalseTree?
    ensures ParseValue(lib, Spell(t) + rest) == Some(Parsed(Meaning(lib, t), rest))
  {
    Words();
    NoSpace(Spell(t) + rest);
    hide SkipSpace;
    LiteralRound(NULL_TEXT, Null, rest);
    LiteralRound(TRUE_TEXT, Json.Bool(true), rest);
    LiteralRound(FALSE_TEXT, Json.Bool(false), rest);
  }

  lemma GapReads(lib: Libc, open: byte, close: byte, gap: seq<byte>, rest: seq<byte>)
    requires Blank(gap)
    requires (open == OPEN_BRACKET && close == CLOSE_BRACKET) || (open == OPEN_BRACE && close == CLOSE_BRACE)
    ensures ParseValue(lib, [open] + gap + [close] + rest) ==
            Some(Parsed(if open == OPEN_BRACKET then Arr([]) else Obj([]), rest))
  {
    var s := [open] + gap + [close] + rest;
    NoSpace(s);
    assert s[1..] == gap + ([close] + rest);
    BlankSkipped(gap, [close] + rest);
    assert ([close] + rest)[1..] == rest;
    hide SkipSpace;
    hide ParseItems;
    hide ParseMembers;
  }

  lemma ArrayReads(lib: Libc, inner: seq<byte>, values: seq<Json>, rest: seq<byte>)
    requires SkipSpace(inner) != [] && SkipSpace(inner)[0] != CLOSE_BRACKET
    requires ParseItems(lib, inner) == Some(Parsed(values, rest))
    ensures ParseValue(lib, [OPEN_BRACKET] + inner) == Some(Parsed(Arr(values), rest))
  {
    var s := [OPEN_BRACKET] + inner;
    NoSpace(s);
    assert s[1..] == inner;
    SkipTwice(inner);
    SameItems(lib, SkipSpace(inner), inner);
    hide SkipSpace;
    hide ParseItems;
    hide ParseMembers;
  }

  lemma ObjectReads(lib: Libc, inner: seq<byte>, fields: seq<Field>, rest: seq<byte>)
    requires SkipSpace(inner) != [] && SkipSpace(inner)[0] != CLOSE_BRACE
    requires ParseMembers(lib, inner) == Some(Parsed(fields, rest))
    ensures ParseValue(lib, [OPEN_BRACE] + inner) == Some(Parsed(Obj(Collapse(fields)), rest))
  {
    var s := [OPEN_BRACE] + inner;
    NoSpace(s);
    assert s[1..] == inner;
    SkipTwice(inner);
    SameMembers(lib, SkipSpace(inner), inner);
    hide SkipSpace;
    hide ParseItems;
    hide ParseMembers;
    hide Collapse;
  }

  // ---- taking spellings apart ----

  lemma ItemsHead(lib: Libc, items: seq<Item>)
    requires items != [] && ReadableItems(lib, items)
    ensures var first := items[0];
            && Blank(first.before) && Shaped(first.tree) && Readable(lib, first.tree) && Blank(first.after)
            && ReadableItems(lib, items[1..])
            && ItemsMean(lib, items) == [Meaning(lib, first.tree)] + ItemsMean(lib, items[1..])
            && (|items| == 1 ==> ItemsMean(lib, items) == [Meaning(lib, first.tree)])
  {
    assert ShapedItem(items[0]);
    hide Shaped;
    hide Readable;
    hide Meaning;
  }

  lemma ItemsSpelled(items: seq<Item>, d: byte, rest: seq<byte>)
    requires items != []
    ensures var first := items[0];
            SpellItems(items) + [d] + rest ==
            first.before + (Spell(first.tree) +
              (if |items| == 1 then first.after + [d] + rest
               else first.after + [COMMA] + (SpellItems(items[1..]) + [d] + rest)))
  {
    hide *;
    var first := items[0];
    ItemSpelled(first);
    ItemsUnfold(items);
    var one := SpellItem(first);
    if |items| == 1 {
      Regroup(first.before, Spell(first.tree), first.after, [d], rest);
    } else {
      var more := SpellItems(items[1..]);
      Regroup(first.before, Spell(first.tree), first.after, [COMMA], more + [d] + rest);
      Gather(one + [COMMA], more, [d], rest);
    }
  }

  lemma Gather(a: seq<byte>, b: seq<byte>, c: seq<byte>, d: seq<byte>)
    ensures a + b + c + d == a + (b + c + d)
  {
  }

  lemma ItemSpelled(i: Item)
    ensures SpellItem(i) == i.before + Spell(i.tree) + i.after
  {
  }

  lemma ItemsUnfold(items: seq<Item>)
    requires items != []
    ensures SpellItems(items) ==
            if |items| == 1 then SpellItem(items[0]) else SpellItem(items[0]) + [COMMA] + SpellItems(items[1..])
  {
    hide SpellItem;
  }

  lemma Regroup(a: seq<byte>, b: seq<byte>, c: seq<byte>, d: seq<byte>, e: seq<byte>)
    ensures a + b + c + d + e == a + (b + (c + d + e))
  {
  }

  lemma MembersHead(lib: Libc, members: seq<Member>)
    requires members != [] && ReadableMembers(lib, members)
    ensures var first := members[0];
            && ShapedMember(first) && Readable(lib, first.item.tree) && Blank(first.item.after)
            && ReadableMembers(lib, members[1..])
            && MembersMean(lib, members) == [MemberMeans(lib, first)] + MembersMean(lib, members[1..])
            && (|members| == 1 ==> MembersMean(lib, members) == [MemberMeans(lib, first)])
  {
    assert ShapedMember(members[0]);
    hide Shaped;
    hide Readable;
    hide MemberMeans;
  }

  lemma MembersSpelled(members: seq<Member>, d: byte, rest: seq<byte>)
    requires members != []
    ensures SpellMembers(members) + [d] + rest ==
            SpellMember(members[0]) +
              (if |members| == 1 then [d] + rest else [COMMA] + (SpellMembers(members[1..]) + [d] + rest))
  {
    MembersUnfold(members);
    hide *;
    var one := SpellMember(members[0]);
    if |members| == 1 {
      Assoc(one, [d], rest);
    } else {
      var more := SpellMembers(members[1..]);
      Gather(one + [COMMA], more, [d], rest);
      Assoc(one, [COMMA], more + [d] + rest);
    }
  }

  lemma Assoc(a: seq<byte>, b: seq<byte>, c: seq<byte>)
    ensures a + b + c == a + (b + c)
  {
  }

  lemma MembersUnfold(members: seq<Member>)
    requires members != []
    ensures SpellMembers(members) ==
            if |members| == 1 then SpellMember(members[0]) else SpellMember(members[0]) + [COMMA] + SpellMembers(members[1..])
  {
    hide SpellMember;
  }

  /** A member up to its value. */
  lemma MemberSpelled(m: Member, post: seq<byte>)
    ensures var value := m.item.before + (Spell(m.item.tree) + (m.item.after + post));
            SpellMember(m) + post == m.before + (SpellString(m.key) + (m.between + ([COLON] + value)))
  {
    hide Spell;
    hide SpellString;
    var i := m.item;
    var value := i.before + (Spell(i.tree) + (i.after + post));
    assert SpellItem(i) == i.before + Spell(i.tree) + i.after;
    hide SpellItem;
    assert SpellItem(i) + post == value;
    assert SpellMember(m) + post == m.before + (SpellString(m.key) + (m.between + ([COLON] + (SpellItem(i) + post))));
  }

  lemma MemberParts(m: Member)
    requires ShapedMember(m)
    ensures Blank(m.before) && ValidChars(m.key) && Blank(m.between)
    ensures Blank(m.item.before) && Shaped(m.item.tree) && Blank(m.item.after)
  {
  }

  lemma TreeParts(lib: Libc, t: Tree)
    requires Shaped(t) && Readable(lib, t)
    ensures t.ArrayTree? ==> t.items != [] && ReadableItems(lib, t.items)
    ensures t.ObjectTree? ==> t.members != [] && ReadableMembers(lib, t.members)
  {
  }

  lemma InnerStarts(w: seq<byte>, a: seq<byte>, b: seq<byte>)
    requires Blank(w) && a != [] && !IsSpace(a[0])
    ensures SkipSpace(w + (a + b)) != [] && SkipSpace(w + (a + b))[0] == a[0]
  {
    BlankSkipped(w, a + b);
  }

  /** Every spelling of a value, whitespace before it and a delimiter or the end
      after it, is read as what it means. */
  lemma {:induction false} TreeReads(lib: Libc, w: seq<byte>, t: Tree, rest: seq<byte>)
    requires Blank(w) && Shaped(t) && Readable(lib, t) && EndsNumber(rest)
    ensures ParseValue(lib, w + (Spell(t) + rest)) == Some(Parsed(Meaning(lib, t), rest))
    decreases t, 1
  {
    SpaceBefore(lib, w, t, rest);
    TreeParts(lib, t);
    hide *;
    match t
    case EmptyArray(gap) =>
      GapTreeReads(lib, t, rest);
    case EmptyObject(gap) =>
      GapTreeReads(lib, t, rest);
    case ArrayTree(items) =>
      ItemsRead(lib, items, rest);
      ArrayTreeReads(lib, items, rest);
    case ObjectTree(members) =>
      MembersRead(lib, members, rest);
      ObjectTreeReads(lib, members, rest);
    case _ =>
      AtomReads(lib, t, rest);
  }

  lemma SpaceBefore(lib: Libc, w: seq<byte>, t: Tree, rest: seq<byte>)
    requires Blank(w) && Shaped(t)
    ensures ParseValue(lib, w + (Spell(t) + rest)) == ParseValue(lib, Spell(t) + rest)
  {
    SpellStarts(t);
    hide Spell;
    hide Shaped;
    BlankSkipped(w, Spell(t) + rest);
    NoSpace(Spell(t) + rest);
    SameValue(lib, w + (Spell(t) + rest), Spell(t) + rest);
    hide ParseValue;
  }

  lemma GapTreeReads(lib: Libc, t: Tree, rest: seq<byte>)
    requires Shaped(t) && (t.EmptyArray? || t.EmptyObject?)
    ensures ParseValue(lib, Spell(t) + rest) == Some(Parsed(Meaning(lib, t), rest))
  {
    if t.EmptyArray? {
      GapReads(lib, OPEN_BRACKET, CLOSE_BRACKET, t.gap, rest);
    } else {
      GapReads(lib, OPEN_BRACE, CLOSE_BRACE, t.gap, rest);
    }
    hide ParseValue;
  }

  lemma ArrayTreeReads(lib: Libc, items: seq<Item>, rest: seq<byte>)
    requires items != [] && ReadableItems(lib, items)
    requires ParseItems(lib, SpellItems(items) + [CLOSE_BRACKET] + rest) == Some(Parsed(ItemsMean(lib, items), rest))
    ensures ParseValue(lib, Spell(ArrayTree(items)) + rest) == Some(Parsed(Meaning(lib, ArrayTree(items)), rest))
  {
    var inner := SpellItems(items) + [CLOSE_BRACKET] + rest;
    hide *;
    ItemsHead(lib, items);
    ItemsSpelled(items, CLOSE_BRACKET, rest);
    SpellStarts(items[0].tree);
    ArrayIs(lib, items);
    InnerStarts(items[0].before, Spell(items[0].tree),
                if |items| == 1 then items[0].after + [CLOSE_BRACKET] + rest
                else items[0].after + [COMMA] + (SpellItems(items[1..]) + [CLOSE_BRACKET] + rest));
    Opened(OPEN_BRACKET, SpellItems(items), CLOSE_BRACKET, rest);
    ArrayReads(lib, inner, ItemsMean(lib, items), rest);
  }

  lemma Opened(open: byte, inside: seq<byte>, close: byte, rest: seq<byte>)
    ensures [open] + inside + [close] + rest == [open] + (inside + [close] + rest)
  {
  }

  lemma ArrayIs(lib: Libc, items: seq<Item>)
    ensures Spell(ArrayTree(items)) == [OPEN_BRACKET] + SpellItems(items) + [CLOSE_BRACKET]
    ensures Meaning(lib, ArrayTree(items)) == Arr(ItemsMean(lib, items))
  {
  }

  lemma ObjectTreeReads(lib: Libc, members: seq<Member>, rest: seq<byte>)
    requires members != [] && ReadableMembers(lib, members)
    requires ParseMembers(lib, SpellMembers(members) + [CLOSE_BRACE] + rest) ==
             Some(Parsed(MembersMean(lib, members), rest))
    ensures ParseValue(lib, Spell(ObjectTree(members)) + rest) == Some(Parsed(Meaning(lib, ObjectTree(members)), rest))
  {
    var inner := SpellMembers(members) + [CLOSE_BRACE] + rest;
    var post := if |members| == 1 then [CLOSE_BRACE] + rest
                else [COMMA] + (SpellMembers(members[1..]) + [CLOSE_BRACE] + rest);
    var m := members[0];
    hide *;
    MembersHead(lib, members);
    MembersSpelled(members, CLOSE_BRACE, rest);
    MemberParts(m);
    MemberSpelled(m, post);
    ObjectIs(lib, members);
    StringStarts(m.key);
    InnerStarts(m.before, SpellString(m.key),
                m.between + ([COLON] + (m.item.before + (Spell(m.item.tree) + (m.item.after + post)))));
    Opened(OPEN_BRACE, SpellMembers(members), CLOSE_BRACE, rest);
    ObjectReads(lib, inner, MembersMean(lib, members), rest);
  }

  lemma StringStarts(key: seq<Char>)
    ensures SpellString(key) != [] && SpellString(key)[0] == QUOTE && !IsSpace(QUOTE) && QUOTE != CLOSE_BRACE
  {
  }

  lemma ObjectIs(lib: Libc, members: seq<Member>)
    ensures Spell(ObjectTree(members)) == [OPEN_BRACE] + SpellMembers(members) + [CLOSE_BRACE]
    ensures Meaning(lib, ObjectTree(members)) == Obj(Collapse(MembersMean(lib, members)))
  {
  }

  lemma {:induction false} ItemsRead(lib: Libc, items: seq<Item>, rest: seq<byte>)
    requires items != [] && ReadableItems(lib, items)
    ensures ParseItems(lib, SpellItems(items) + [CLOSE_BRACKET] + rest) == Some(Parsed(ItemsMean(lib, items), rest))
    decreases items
  {
    hide *;
    var first := items[0];
    ItemsHead(lib, items);
    ItemsSpelled(items, CLOSE_BRACKET, rest);
    if |items| == 1 {
      EndsAfter(first.after, CLOSE_BRACKET, rest);
      TreeReads(lib, first.before, first.tree, first.after + [CLOSE_BRACKET] + rest);
      LastRead(lib, SpellItems(items) + [CLOSE_BRACKET] + rest, Meaning(lib, first.tree), first.after, rest);
    } else {
      var more := SpellItems(items[1..]) + [CLOSE_BRACKET] + rest;
      ItemsRead(lib, items[1..], rest);
      EndsAfter(first.after, COMMA, more);
      TreeReads(lib, first.before, first.tree, first.after + [COMMA] + more);
      NextRead(lib, SpellItems(items) + [CLOSE_BRACKET] + rest, Meaning(lib, first.tree), first.after, more);
      PrependSome([Meaning(lib, first.tree)], ItemsMean(lib, items[1..]), rest);
    }
  }

  lemma PrependSome<T>(a: seq<T>, b: seq<T>, rest: seq<byte>)
    ensures Prepend(a, Some(Parsed(b, rest))) == Some(Parsed(a + b, rest))
  {
  }

  lemma LastRead(lib: Libc, s: seq<byte>, v: Json, after: seq<byte>, rest: seq<byte>)
    requires Blank(after) && ParseValue(lib, s) == Some(Parsed(v, after + [CLOSE_BRACKET] + rest))
    ensures ParseItems(lib, s) == Some(Parsed([v], rest))
  {
    EndsAfter(after, CLOSE_BRACKET, rest);
    hide ParseValue;
    hide SkipSpace;
    assert ([CLOSE_BRACKET] + rest)[1..] == rest;
  }

  lemma NextRead(lib: Libc, s: seq<byte>, v: Json, after: seq<byte>, more: seq<byte>)
    requires Blank(after) && ParseValue(lib, s) == Some(Parsed(v, after + [COMMA] + more))
    ensures ParseItems(lib, s) == Prepend([v], ParseItems(lib, more))
  {
    EndsAfter(after, COMMA, more);
    hide ParseValue;
    hide SkipSpace;
    assert ([COMMA] + more)[1..] == more;
  }

  lemma {:induction false} MemberReadsAs(lib: Libc, m: Member, post: seq<byte>)
    requires ShapedMember(m) && Readable(lib, m.item.tree) && EndsNumber(m.item.after + post)
    ensures ParseMember(lib, SpellMember(m) + post) == Some(Parsed(MemberMeans(lib, m), m.item.after + post))
    decreases m
  {
    hide *;
    var i := m.item;
    MemberParts(m);
    TreeReads(lib, i.before, i.tree, i.after + post);
    MemberSpelled(m, post);
    KeyReads(lib, m.before, m.key, m.between, i.before + (Spell(i.tree) + (i.after + post)));
    MemberIs(lib, m);
  }

  lemma MemberIs(lib: Libc, m: Member)
    ensures MemberMeans(lib, m) == Field(UntilNul(CharsMean(m.key)), Meaning(lib, m.item.tree))
  {
  }

  lemma KeyReads(lib: Libc, before: seq<byte>, key: seq<Char>, between: seq<byte>, value: seq<byte>)
    requires Blank(before) && ValidChars(key) && Blank(between) && ParseValue(lib, value).Some?
    ensures var p := ParseValue(lib, value).value;
            ParseMember(lib, before + (SpellString(key) + (between + ([COLON] + value)))) ==
            Some(Parsed(Field(UntilNul(CharsMean(key)), p.value), p.rest))
  {
    var tail := between + ([COLON] + value);
    StringReads(key, tail);
    StringStarts(key);
    hide SpellString;
    hide CharsMean;
    BlankSkipped(before, SpellString(key) + tail);
    BlankSkipped(between, [COLON] + value);
    assert ([COLON] + value)[1..] == value;
    hide ParseValue;
    hide ParseString;
    hide SkipSpace;
    hide UntilNul;
  }

  lemma {:induction false} MembersRead(lib: Libc, members: seq<Member>, rest: seq<byte>)
    requires members != [] && ReadableMembers(lib, members)
    ensures ParseMembers(lib, SpellMembers(members) + [CLOSE_BRACE] + rest) ==
            Some(Parsed(MembersMean(lib, members), rest))
    decreases members
  {
    hide *;
    var first := members[0];
    MembersHead(lib, members);
    MembersSpelled(members, CLOSE_BRACE, rest);
    if |members| == 1 {
      EndsAfter(first.item.after, CLOSE_BRACE, rest);
      MemberReadsAs(lib, first, [CLOSE_BRACE] + rest);
      LastMemberRead(lib, SpellMembers(members) + [CLOSE_BRACE] + rest, MemberMeans(lib, first), first.item.after, rest);
    } else {
      var more := SpellMembers(members[1..]) + [CLOSE_BRACE] + rest;
      MembersRead(lib, members[1..], rest);
      EndsAfter(first.item.after, COMMA, more);
      MemberReadsAs(lib, first, [COMMA] + more);
      NextMemberRead(lib, SpellMembers(members) + [CLOSE_BRACE] + rest, MemberMeans(lib, first), first.item.after, more);
      PrependSome([MemberMeans(lib, first)], MembersMean(lib, members[1..]), rest);
    }
  }

  lemma LastMemberRead(lib: Libc, s: seq<byte>, f: Field, after: seq<byte>, rest: seq<byte>)
    requires Blank(after) && ParseMember(lib, s) == Some(Parsed(f, after + ([CLOSE_BRACE] + rest)))
    ensures ParseMembers(lib, s) == Some(Parsed([f], rest))
  {
    EndsAfter(after, CLOSE_BRACE, rest);
    hide ParseMember;
    hide SkipSpace;
    assert ([CLOSE_BRACE] + rest)[1..] == rest;
  }

  lemma NextMemberRead(lib: Libc, s: seq<byte>, f: Field, after: seq<byte>, more: seq<byte>)
    requires Blank(after) && ParseMember(lib, s) == Some(Parsed(f, after + ([COMMA] + more)))
    ensures ParseMembers(lib, s) == Prepend([f], ParseMembers(lib, more))
  {
    EndsAfter(after, COMMA, more);
    hide ParseMember;
    hide SkipSpace;
    assert ([COMMA] + more)[1..] == more;
  }

  // ---- everything accepted is a spelling ----

  /** A number, string or word at the front of the input. */
  lemma AtomIs(lib: Libc, s: seq<byte>) returns (t: Tree)
    requires s != [] && !IsSpace(s[0]) && s[0] != OPEN_BRACE && s[0] != OPEN_BRACKET && ParseValue(lib, s).Some?
    ensures Shaped(t) && Readable(lib, t)
    ensures s == Spell(t) + ParseValue(lib, s).value.rest && Meaning(lib, t) == ParseValue(lib, s).value.value
  {
    NoSpace(s);
    hide SkipSpace;
    if s[0] == QUOTE {
      var p := ParseString(s).value;
      StringIff(s, p.value, p.rest);
      var chs :| ValidChars(chs) && s == SpellString(chs) + p.rest && p.value == CharsMean(chs);
      t := StringTree(chs);
      hide ParseString;
      hide SpellString;
      hide CharsMean;
    } else if s[0] == MINUS || IsDigit(s[0]) {
      t := NumberIs(lib, s);
      hide ParseNumber;
    } else {
      t := WordIs(lib, s);
    }
  }

  lemma NumberIs(lib: Libc, s: seq<byte>) returns (t: Tree)
    requires ParseNumber(lib, s).Some?
    ensures Shaped(t) && Readable(lib, t)
    ensures s == Spell(t) + ParseNumber(lib, s).value.rest && Meaning(lib, t) == ParseNumber(lib, s).value.value
  {
    var n := NumeralIs(s);
    t := NumberTree(n);
    NumberTreeIs(lib, n);
    hide SpellNumeral;
    hide NumberLen;
    hide ValidNumeral;
    hide Spell;
    hide Meaning;
    hide Readable;
    hide Shaped;
  }

  lemma NumberTreeIs(lib: Libc, n: Numeral)
    requires ValidNumeral(n)
    ensures Shaped(NumberTree(n)) && Spell(NumberTree(n)) == SpellNumeral(n)
    ensures lib.strtod(SpellNumeral(n)).Some? ==>
              Readable(lib, NumberTree(n)) && Meaning(lib, NumberTree(n)) == Number(lib.strtod(SpellNumeral(n)).value)
  {
    hide SpellNumeral;
    hide ValidNumeral;
  }

  lemma WordIs(lib: Libc, s: seq<byte>) returns (t: Tree)
    requires s != [] && !IsSpace(s[0]) && s[0] != OPEN_BRACE && s[0] != OPEN_BRACKET && ParseValue(lib, s).Some?
    requires s[0] != QUOTE && s[0] != MINUS && !IsDigit(s[0])
    ensures Shaped(t) && Readable(lib, t)
    ensures s == Spell(t) + ParseValue(lib, s).value.rest && Meaning(lib, t) == ParseValue(lib, s).value.value
  {
    NoSpace(s);
    hide SkipSpace;
    Words();
    t := if s[0] == 116 then TrueTree else if s[0] == 102 then FalseTree else NullTree;
    var word := Spell(t);
    assert word <= s && ParseValue(lib, s).value.rest == s[|word|..];
  }

  lemma ItemsReadable(lib: Libc, first: Item, more: seq<Item>)
    requires ShapedItem(first) && Readable(lib, first.tree) && ReadableItems(lib, more)
    ensures ReadableItems(lib, [first] + more)
    ensures ItemsMean(lib, [first] + more) == [Meaning(lib, first.tree)] + ItemsMean(lib, more)
  {
    assert ([first] + more)[1..] == more;
    hide Shaped;
    hide Readable;
    hide Meaning;
  }

  lemma MembersReadable(lib: Libc, first: Member, more: seq<Member>)
    requires ShapedMember(first) && Readable(lib, first.item.tree) && ReadableMembers(lib, more)
    ensures ReadableMembers(lib, [first] + more)
    ensures MembersMean(lib, [first] + more) == [MemberMeans(lib, first)] + MembersMean(lib, more)
  {
    assert ([first] + more)[1..] == more;
    hide Shaped;
    hide Readable;
    hide MemberMeans;
  }

  /** What ParseValue does on an opening bracket or brace. */
  lemma Bracketed(lib: Libc, s: seq<byte>)
    requires s != [] && (s[0] == OPEN_BRACKET || s[0] == OPEN_BRACE)
    ensures var inner, close := SkipSpace(s[1..]), if s[0] == OPEN_BRACKET then CLOSE_BRACKET else CLOSE_BRACE;
            ParseValue(lib, s) ==
            if StartsWith(inner, close) then Some(Parsed(if s[0] == OPEN_BRACKET then Arr([]) else Obj([]), inner[1..]))
            else if s[0] == OPEN_BRACKET then
              (match ParseItems(lib, inner) case Some(p) => Some(Parsed(Arr(p.value), p.rest)) case None => None)
            else
              (match ParseMembers(lib, inner) case Some(p) => Some(Parsed(Obj(Collapse(p.value)), p.rest)) case None => None)
  {
    NoSpace(s);
    hide SkipSpace;
    hide ParseItems;
    hide ParseMembers;
    hide Collapse;
  }

  lemma GapIs(lib: Libc, s: seq<byte>) returns (t: Tree)
    requires s != [] && (s[0] == OPEN_BRACKET || s[0] == OPEN_BRACE)
    requires StartsWith(SkipSpace(s[1..]), if s[0] == OPEN_BRACKET then CLOSE_BRACKET else CLOSE_BRACE)
    ensures ParseValue(lib, s).Some? && Shaped(t) && Readable(lib, t)
    ensures s == Spell(t) + ParseValue(lib, s).value.rest && Meaning(lib, t) == ParseValue(lib, s).value.value
  {
    Bracketed(lib, s);
    hide ParseValue;
    var gap := SkippedBlank(s[1..]);
    var inner := SkipSpace(s[1..]);
    hide SkipSpace;
    t := if s[0] == OPEN_BRACKET then EmptyArray(gap) else EmptyObject(gap);
    assert Spell(t) == [s[0]] + gap + [inner[0]];
    hide Spell;
    GapShape(s, gap, inner);
  }

  lemma GapShape(s: seq<byte>, gap: seq<byte>, inner: seq<byte>)
    requires s != [] && inner != [] && s[1..] == gap + inner
    ensures s == [s[0]] + gap + [inner[0]] + inner[1..]
  {
    Gather([s[0]], gap, [inner[0]], inner[1..]);
    Assoc(gap, [inner[0]], inner[1..]);
  }

  lemma FirstBefore(w: seq<byte>, items: seq<Item>) returns (items': seq<Item>)
    requires items != []
    ensures |items'| == |items| && items'[1..] == items[1..] && items'[0] == items[0].(before := w + items[0].before)
    ensures SpellItems(items') == w + SpellItems(items)
  {
    items' := [items[0].(before := w + items[0].before)] + items[1..];
    assert items'[1..] == items[1..];
    hide *;
    ItemsUnfold(items);
    ItemsUnfold(items');
    ItemBefore(w, items[0]);
    Gather(w, SpellItem(items[0]), [COMMA], SpellItems(items[1..]));
  }

  lemma ItemBefore(w: seq<byte>, i: Item)
    ensures SpellItem(i.(before := w + i.before)) == w + SpellItem(i)
  {
    hide *;
    ItemSpelled(i);
    ItemSpelled(i.(before := w + i.before));
    Gather(w, i.before, Spell(i.tree), i.after);
  }

  lemma MemberUnfold(m: Member)
    ensures SpellMember(m) == m.before + SpellString(m.key) + m.between + [COLON] + SpellItem(m.item)
  {
    hide SpellString;
    hide SpellItem;
  }

  lemma MemberBefore(w: seq<byte>, m: Member)
    ensures SpellMember(m.(before := w + m.before)) == w + SpellMember(m)
  {
    hide *;
    MemberUnfold(m);
    MemberUnfold(m.(before := w + m.before));
    Gather(w, m.before, SpellString(m.key), m.between);
    Gather(w, m.before + SpellString(m.key) + m.between, [COLON], SpellItem(m.item));
  }

  lemma FirstMemberBefore(w: seq<byte>, members: seq<Member>) returns (members': seq<Member>)
    requires members != []
    ensures |members'| == |members| && members'[1..] == members[1..]
    ensures members'[0] == members[0].(before := w + members[0].before)
    ensures SpellMembers(members') == w + SpellMembers(members)
  {
    members' := [members[0].(before := w + members[0].before)] + members[1..];
    assert members'[1..] == members[1..];
    hide *;
    MembersUnfold(members);
    MembersUnfold(members');
    MemberBefore(w, members[0]);
    Gather(w, SpellMember(members[0]), [COMMA], SpellMembers(members[1..]));
  }

  /** The tree of the first value of the input. */
  lemma {:induction false} ValueIs(lib: Libc, input: seq<byte>) returns (w: seq<byte>, t: Tree)
    requires ParseValue(lib, input).Some?
    ensures Blank(w) && Shaped(t) && Readable(lib, t)
    ensures input == w + (Spell(t) + ParseValue(lib, input).value.rest)
    ensures Meaning(lib, t) == ParseValue(lib, input).value.value
    decreases |input|, 1
  {
    w := SkippedBlank(input);
    var s := SkipSpace(input);
    SkipTwice(input);
    SameValue(lib, input, s);
    NotEmpty(lib, s);
    hide *;
    if s[0] == OPEN_BRACKET || s[0] == OPEN_BRACE {
      t := BracketIs(lib, s);
    } else {
      t := AtomIs(lib, s);
    }
  }

  lemma NotEmpty(lib: Libc, s: seq<byte>)
    requires ParseValue(lib, s).Some? && SkipSpace(s) == s
    ensures s != [] && !IsSpace(s[0])
  {
    hide ParseItems;
    hide ParseMembers;
    hide ParseNumber;
    hide ParseString;
  }

  lemma {:induction false} BracketIs(lib: Libc, s: seq<byte>) returns (t: Tree)
    requires s != [] && (s[0] == OPEN_BRACKET || s[0] == OPEN_BRACE) && ParseValue(lib, s).Some?
    ensures Shaped(t) && Readable(lib, t)
    ensures s == Spell(t) + ParseValue(lib, s).value.rest && Meaning(lib, t) == ParseValue(lib, s).value.value
    decreases |s|, 0
  {
    Bracketed(lib, s);
    var gap := SkippedBlank(s[1..]);
    var inner := SkipSpace(s[1..]);
    if StartsWith(inner, if s[0] == OPEN_BRACKET then CLOSE_BRACKET else CLOSE_BRACE) {
      t := GapIs(lib, s);
    } else if s[0] == OPEN_BRACKET {
      var rest := ParseItems(lib, inner).value.rest;
      hide ParseValue;
      hide ParseItems;
      hide ParseMembers;
      var items := ItemsAre(lib, inner);
      t := ArrayIsTree(lib, s, gap, inner, items, rest);
    } else {
      var rest := ParseMembers(lib, inner).value.rest;
      hide ParseValue;
      hide ParseItems;
      hide ParseMembers;
      var members := MembersAre(lib, inner);
      t := ObjectIsTree(lib, s, gap, inner, members, rest);
    }
  }

  lemma ReadableFirst(lib: Libc, w: seq<byte>, items: seq<Item>, items': seq<Item>)
    requires Blank(w) && items != [] && |items'| == |items| && ReadableItems(lib, items)
    requires items'[1..] == items[1..] && items'[0] == items[0].(before := w + items[0].before)
    ensures ReadableItems(lib, items') && ItemsMean(lib, items') == ItemsMean(lib, items)
    ensures Shaped(ArrayTree(items')) && Readable(lib, ArrayTree(items'))
  {
    assert ShapedItem(items[0]) && ShapedItem(items'[0]);
    forall i | 0 <= i < |items'|
      ensures ShapedItem(items'[i]) && Readable(lib, items'[i].tree)
    {
      if i > 0 {
        assert items'[i] == items'[1..][i - 1] == items[1..][i - 1];
      }
    }
  }

  lemma ArrayIsTree(lib: Libc, s: seq<byte>, gap: seq<byte>, inner: seq<byte>, items: seq<Item>, rest: seq<byte>)
    returns (t: Tree)
    requires s != [] && s[0] == OPEN_BRACKET && s[1..] == gap + inner && Blank(gap)
    requires items != [] && ReadableItems(lib, items) && inner == SpellItems(items) + [CLOSE_BRACKET] + rest
    ensures Shaped(t) && Readable(lib, t) && s == Spell(t) + rest && Meaning(lib, t) == Arr(ItemsMean(lib, items))
  {
    hide *;
    var items' := FirstBefore(gap, items);
    t := ArrayTree(items');
    ReadableFirst(lib, gap, items, items');
    ArrayIs(lib, items');
    InsideOf(s, gap, SpellItems(items), CLOSE_BRACKET, rest);
  }

  lemma InsideOf(s: seq<byte>, gap: seq<byte>, inside: seq<byte>, close: byte, rest: seq<byte>)
    requires s != [] && s[1..] == gap + (inside + [close] + rest)
    ensures s == [s[0]] + (gap + inside) + [close] + rest
  {
    Gather(gap, inside, [close], rest);
    Gather([s[0]], gap + inside, [close], rest);
  }

  lemma ReadableFirstMember(lib: Libc, w: seq<byte>, members: seq<Member>, members': seq<Member>)
    requires Blank(w) && members != [] && |members'| == |members| && ReadableMembers(lib, members)
    requires members'[1..] == members[1..] && members'[0] == members[0].(before := w + members[0].before)
    ensures ReadableMembers(lib, members') && MembersMean(lib, members') == MembersMean(lib, members)
    ensures Shaped(ObjectTree(members')) && Readable(lib, ObjectTree(members'))
  {
    assert ShapedMember(members[0]) && ShapedMember(members'[0]);
    forall i | 0 <= i < |members'|
      ensures ShapedMember(members'[i]) && Readable(lib, members'[i].item.tree)
    {
      if i > 0 {
        assert members'[i] == members'[1..][i - 1] == members[1..][i - 1];
      }
    }
  }

  lemma ObjectIsTree(lib: Libc, s: seq<byte>, gap: seq<byte>, inner: seq<byte>, members: seq<Member>, rest: seq<byte>)
    returns (t: Tree)
    requires s != [] && s[0] == OPEN_BRACE && s[1..] == gap + inner && Blank(gap)
    requires members != [] && ReadableMembers(lib, members) && inner == SpellMembers(members) + [CLOSE_BRACE] + rest
    ensures Shaped(t) && Readable(lib, t) && s == Spell(t) + rest
    ensures Meaning(lib, t) == Obj(Collapse(MembersMean(lib, members)))
  {
    hide *;
    var members' := FirstMemberBefore(gap, members);
    t := ObjectTree(members');
    ReadableFirstMember(lib, gap, members, members');
    ObjectIs(lib, members');
    InsideOf(s, gap, SpellMembers(members), CLOSE_BRACE, rest);
  }

  /** One step of the item list. */
  lemma ItemsStep(lib: Libc, s: seq<byte>)
    requires ParseItems(lib, s).Some?
    ensures ParseValue(lib, s).Some?
    ensures var p := ParseValue(lib, s).value;
            var t := SkipSpace(p.rest);
            && t != [] && (t[0] == COMMA || t[0] == CLOSE_BRACKET) && |t| < |s|
            && (t[0] == COMMA ==> ParseItems(lib, t[1..]).Some? &&
                                  ParseItems(lib, s) == Prepend([p.value], ParseItems(lib, t[1..])))
            && (t[0] == CLOSE_BRACKET ==> ParseItems(lib, s) == Some(Parsed([p.value], t[1..])))
  {
    hide ParseValue;
    hide SkipSpace;
  }

  lemma OneItem(i: Item)
    ensures SpellItems([i]) == SpellItem(i)
  {
    hide SpellItem;
  }

  lemma {:induction false} ItemsAre(lib: Libc, s: seq<byte>) returns (items: seq<Item>)
    requires ParseItems(lib, s).Some?
    ensures items != [] && ReadableItems(lib, items)
    ensures s == SpellItems(items) + [CLOSE_BRACKET] + ParseItems(lib, s).value.rest
    ensures ItemsMean(lib, items) == ParseItems(lib, s).value.value
    decreases |s|, 2
  {
    ItemsStep(lib, s);
    hide *;
    var p := ParseValue(lib, s).value;
    var w, t := ValueIs(lib, s);
    var after := SkippedBlank(p.rest);
    var tail := SkipSpace(p.rest);
    var first := Item(w, t, after);
    ItemShaped(first);
    ItemSpelled(first);
    FirstSpelled(s, w, Spell(t), after, tail);
    if tail[0] == COMMA {
      var more := ItemsAre(lib, tail[1..]);
      items := [first] + more;
      ItemsReadable(lib, first, more);
      ItemsJoin(first, more);
      PrependSome([p.value], ItemsMean(lib, more), ParseItems(lib, tail[1..]).value.rest);
      MoreSpelled(SpellItem(first), COMMA, SpellItems(more), [CLOSE_BRACKET], ParseItems(lib, tail[1..]).value.rest);
    } else {
      items := [first];
      ItemsAlone(lib, first);
      OneItem(first);
      Assoc(SpellItem(first), [CLOSE_BRACKET], tail[1..]);
    }
  }

  lemma NoItems(lib: Libc)
    ensures ReadableItems(lib, []) && ItemsMean(lib, []) == [] && ReadableMembers(lib, []) && MembersMean(lib, []) == []
  {
  }

  lemma ItemShaped(i: Item)
    requires Blank(i.before) && Shaped(i.tree) && Blank(i.after)
    ensures ShapedItem(i)
  {
  }

  lemma FirstSpelled(s: seq<byte>, w: seq<byte>, text: seq<byte>, after: seq<byte>, tail: seq<byte>)
    requires s == w + (text + (after + tail)) && tail != []
    ensures s == w + text + after + ([tail[0]] + tail[1..])
  {
    Assoc(w, text, after + tail);
    Assoc(w + text, after, tail);
    HeadTail(tail);
  }

  lemma MoreSpelled(one: seq<byte>, comma: byte, more: seq<byte>, close: seq<byte>, rest: seq<byte>)
    ensures one + ([comma] + (more + close + rest)) == one + [comma] + more + close + rest
  {
    Assoc(one, [comma], more + close + rest);
    Gather(one + [comma], more, close, rest);
  }

  /** A member up to the end of its value. */
  lemma MemberStep(lib: Libc, s: seq<byte>)
    requires ParseMember(lib, s).Some?
    ensures ParseString(SkipSpace(s)).Some?
    ensures var k := ParseString(SkipSpace(s)).value;
            var t := SkipSpace(k.rest);
            && t != [] && t[0] == COLON && |t| < |s| && ParseValue(lib, t[1..]).Some?
            && var p := ParseValue(lib, t[1..]).value;
               ParseMember(lib, s) == Some(Parsed(Field(UntilNul(k.value), p.value), p.rest))
  {
    hide ParseValue;
    hide ParseString;
    hide SkipSpace;
    hide UntilNul;
  }

  lemma {:induction false} MemberAre(lib: Libc, s: seq<byte>) returns (m: Member)
    requires ParseMember(lib, s).Some?
    ensures ShapedMember(m) && Readable(lib, m.item.tree) && m.item.after == []
    ensures s == SpellMember(m) + ParseMember(lib, s).value.rest
    ensures MemberMeans(lib, m) == ParseMember(lib, s).value.value
    decreases |s|, 2
  {
    MemberStep(lib, s);
    hide *;
    var k := ParseString(SkipSpace(s)).value;
    var t := SkipSpace(k.rest);
    var before := SkippedBlank(s);
    var between := SkippedBlank(k.rest);
    StringIff(SkipSpace(s), k.value, k.rest);
    var chs :| ValidChars(chs) && SkipSpace(s) == SpellString(chs) + k.rest && k.value == CharsMean(chs);
    var w, v := ValueIs(lib, t[1..]);
    m := Member(before, chs, between, Item(w, v, []));
    BlankNothing();
    MemberShaped(m);
    MemberIs(lib, m);
    MemberSpelled(m, ParseValue(lib, t[1..]).value.rest);
    NothingBefore(ParseValue(lib, t[1..]).value.rest);
    HeadTail(t);
  }

  lemma BlankNothing()
    ensures Blank([])
  {
  }

  lemma NothingBefore(s: seq<byte>)
    ensures [] + s == s
  {
  }

  lemma MemberShaped(m: Member)
    requires Blank(m.before) && ValidChars(m.key) && Blank(m.between)
    requires Blank(m.item.before) && Shaped(m.item.tree) && Blank(m.item.after)
    ensures ShapedMember(m)
  {
  }

  lemma MembersStep(lib: Libc, s: seq<byte>)
    requires ParseMembers(lib, s).Some?
    ensures ParseMember(lib, s).Some?
    ensures var p := ParseMember(lib, s).value;
            var t := SkipSpace(p.rest);
            && t != [] && (t[0] == COMMA || t[0] == CLOSE_BRACE) && |t| < |s|
            && (t[0] == COMMA ==> ParseMembers(lib, t[1..]).Some? &&
                                  ParseMembers(lib, s) == Prepend([p.value], ParseMembers(lib, t[1..])))
            && (t[0] == CLOSE_BRACE ==> ParseMembers(lib, s) == Some(Parsed([p.value], t[1..])))
  {
    hide ParseMember;
    hide SkipSpace;
  }

  lemma MemberAfter(m: Member, after: seq<byte>) returns (m': Member)
    requires ShapedMember(m) && m.item.after == [] && Blank(after)
    ensures ShapedMember(m') && m' == m.(item := m.item.(after := after)) && SpellMember(m') == SpellMember(m) + after
  {
    m' := m.(item := m.item.(after := after));
    MemberParts(m);
    hide *;
    MemberShaped(m');
    MemberUnfold(m);
    MemberUnfold(m');
    ItemSpelled(m.item);
    ItemSpelled(m'.item);
    var text := m.item.before + Spell(m.item.tree);
    assert text + [] == text;
    Assoc(m.before + SpellString(m.key) + m.between + [COLON], text, after);
  }

  lemma SameMeaning(lib: Libc, m: Member, after: seq<byte>)
    ensures MemberMeans(lib, m.(item := m.item.(after := after))) == MemberMeans(lib, m)
  {
  }

  lemma HeadTail(s: seq<byte>)
    requires s != []
    ensures s == [s[0]] + s[1..]
  {
  }

  lemma MembersJoin(first: Member, more: seq<Member>)
    requires more != []
    ensures SpellMembers([first] + more) == SpellMember(first) + [COMMA] + SpellMembers(more)
  {
    MembersUnfold([first] + more);
    assert ([first] + more)[1..] == more;
  }

  lemma MembersAlone(lib: Libc, m: Member)
    requires ShapedMember(m) && Readable(lib, m.item.tree)
    ensures ReadableMembers(lib, [m]) && MembersMean(lib, [m]) == [MemberMeans(lib, m)]
  {
    NoItems(lib);
    MembersReadable(lib, m, []);
    assert [m] + [] == [m];
  }

  lemma ItemsJoin(first: Item, more: seq<Item>)
    requires more != []
    ensures SpellItems([first] + more) == SpellItem(first) + [COMMA] + SpellItems(more)
  {
    ItemsUnfold([first] + more);
    assert ([first] + more)[1..] == more;
  }

  lemma ItemsAlone(lib: Libc, i: Item)
    requires ShapedItem(i) && Readable(lib, i.tree)
    ensures ReadableItems(lib, [i]) && ItemsMean(lib, [i]) == [Meaning(lib, i.tree)]
  {
    NoItems(lib);
    ItemsReadable(lib, i, []);
    assert [i] + [] == [i];
  }

  lemma OneMember(m: Member)
    ensures SpellMembers([m]) == SpellMember(m)
  {
    hide SpellMember;
  }

  lemma {:induction false} MembersAre(lib: Libc, s: seq<byte>) returns (members: seq<Member>)
    requires ParseMembers(lib, s).Some?
    ensures members != [] && ReadableMembers(lib, members)
    ensures s == SpellMembers(members) + [CLOSE_BRACE] + ParseMembers(lib, s).value.rest
    ensures MembersMean(lib, members) == ParseMembers(lib, s).value.value
    decreases |s|, 3
  {
    MembersStep(lib, s);
    hide *;
    var p := ParseMember(lib, s).value;
    var m := MemberAre(lib, s);
    var after := SkippedBlank(p.rest);
    var tail := SkipSpace(p.rest);
    var first := MemberAfter(m, after);
    SameMeaning(lib, m, after);
    Assoc(SpellMember(m), after, tail);
    HeadTail(tail);
    if tail[0] == COMMA {
      var more := MembersAre(lib, tail[1..]);
      members := [first] + more;
      MembersReadable(lib, first, more);
      MembersJoin(first, more);
      PrependSome([p.value], MembersMean(lib, more), ParseMembers(lib, tail[1..]).value.rest);
      MoreSpelled(SpellMember(first), COMMA, SpellMembers(more), [CLOSE_BRACE], ParseMembers(lib, tail[1..]).value.rest);
    } else {
      members := [first];
      MembersAlone(lib, first);
      OneMember(first);
      Assoc(SpellMember(first), [CLOSE_BRACE], tail[1..]);
    }
  }

  // ---- whole texts ----

  /** `input` spells t with whitespace around it, and t means v. */
  predicate Spells(lib: Libc, input: seq<byte>, v: Json, before: seq<byte>, t: Tree, after: seq<byte>) {
    && Blank(before) && Shaped(t) && Readable(lib, t) && Blank(after)
    && input == before + Spell(t) + after && v == Meaning(lib, t)
  }

  /** MAIN RESULT. For every input and every value: the parser returns the value
      if and only if the input spells a tree of the grammar that means it. */
  lemma ParseExact(lib: Libc, input: seq<byte>, v: Json)
    ensures Parse(lib, input) == Some(v) <==> exists before, t, after :: Spells(lib, input, v, before, t, after)
  {
    if Parse(lib, input) == Some(v) {
      var before, t, after := ParsedSpells(lib, input, v);
    }
    forall before, t, after | Spells(lib, input, v, before, t, after)
      ensures Parse(lib, input) == Some(v)
    {
      SpelledParses(lib, input, v, before, t, after);
    }
  }

  lemma ParsedSpells(lib: Libc, input: seq<byte>, v: Json) returns (before: seq<byte>, t: Tree, after: seq<byte>)
    requires Parse(lib, input) == Some(v)
    ensures Spells(lib, input, v, before, t, after)
  {
    hide ParseValue;
    hide SkipSpace;
    before, t := ValueIs(lib, input);
    after := SkippedBlank(ParseValue(lib, input).value.rest);
    hide Spell;
    hide Shaped;
    hide Readable;
    hide Meaning;
    assert after + [] == after;
    Assoc(before, Spell(t), after);
  }

  lemma SpelledParses(lib: Libc, input: seq<byte>, v: Json, before: seq<byte>, t: Tree, after: seq<byte>)
    requires Spells(lib, input, v, before, t, after)
    ensures Parse(lib, input) == Some(v)
  {
    hide Spell;
    hide Shaped;
    hide Readable;
    hide Meaning;
    hide ParseValue;
    BlankSkipped(after, []);
    assert after + [] == after;
    BlankEnds(after);
    Assoc(before, Spell(t), after);
    TreeReads(lib, before, t, after);
  }

  lemma BlankEnds(after: seq<byte>)
    requires Blank(after)
    ensures EndsNumber(after)
  {
    if after != [] {
      assert after[0] in after;
    }
  }
}
