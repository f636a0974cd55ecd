/** The part of structured WebAssembly the emitter uses: typed locals and
    globals, an operand stack, one 64 KiB memory, named blocks and loops. */
module Wasm {
  import opened Ir
  import opened Wrappers

  const PAGE := 65536

  datatype WType = T64 | T32
  datatype WVal = W64(n: int64) | W32(m: int32)

  function WTypeOf(v: WVal): WType {
    if v.W64? then T64 else T32
  }

  /** $exit, $dispatch and $bb_n. */
  datatype Label = Exit | Dispatch | BbLabel(n: nat)

  datatype Global = Bump | Entropy | Tokens | Cost

  datatype Op =
    | Const64(n: int64)
    | Const32(m: int32)
    | LocalGet(r: int)
    | LocalSet(r: int)
    | LocalTee(r: int)
    | GetBb
    | SetBb
    | Drop
    | Bin64(bop: BinOp)
    | Eqz64
    | Eqz32
    | Cmp64(cop: CmpOp)
    | Cmp32(cop: CmpOp)
    | Logic32(lop: LogOp)
    | Add32
    | Sub32
    | WrapI64
    | ExtendI32
    | GlobalGet(g: Global)
    | GlobalSet(g: Global)
    | LoadW(t: WType)
    | StoreW(t: WType)
    | CallHost(name: string, argc: nat)
    | NopW

  datatype Instr =
    | Plain(op: Op)
    | BrTo(l: Label)
    | BrTable(n: nat)                  // $bb_0 .. $bb_{n-1}, default $exit
    | Return
    | If(thn: Code, els: Code)
    | When(thn: Code)                  // an `if` without `else`
    | Blk(l: Label, body: Code)
    | Loop(l: Label, body: Code)

  datatype Code = End | Seq(head: Instr, tail: Code)

  datatype WState = WState(
    locals: map<int, WVal>,
    bb: int32,
    stack: seq<WVal>,
    mem: map<int, WVal>,
    globals: map<Global, WVal>,
    log: seq<Call>)

  // ---- operators ----

  datatype OpResult = Ok(st: WState) | OpTraps | Invalid

  function Push(st: WState, v: WVal): OpResult {
    Ok(st.(stack := [v] + st.stack))
  }

  function Width(v: WVal): nat {
    if v.W64? then 8 else 4
  }

  /** What a store leaves of the memory: values it overlaps are lost. */
  function Write(mem: map<int, WVal>, addr: int, v: WVal): map<int, WVal> {
    (map a | a in mem && (a + Width(mem[a]) <= addr || addr + Width(v) <= a) :: mem[a])[addr := v]
  }

  function Scalar(v: WVal): int {
    match v
    case W64(n) => n
    case W32(m) => m
  }

  /** The operands of a call, deepest first. */
  function Operands(stack: seq<WVal>, argc: nat): (args: seq<int>)
    requires argc <= |stack|
  {
    if argc == 0 then [] else Operands(stack[1..], argc - 1) + [Scalar(stack[0])]
  }

  function ToNat32(m: int32): nat {
    m % TWO_32
  }

  function ExecOp(op: Op, st: WState, w: World): OpResult {
    match op
    case Const64(n) => Push(st, W64(n))
    case Const32(m) => Push(st, W32(m))
    case LocalGet(r) => if r in st.locals then Push(st, st.locals[r]) else Invalid
    case LocalSet(r) =>
      if |st.stack| >= 1 && r in st.locals && WTypeOf(st.locals[r]) == WTypeOf(st.stack[0])
      then Ok(st.(locals := st.locals[r := st.stack[0]], stack := st.stack[1..]))
      else Invalid
    case LocalTee(r) =>
      if |st.stack| >= 1 && r in st.locals && WTypeOf(st.locals[r]) == WTypeOf(st.stack[0])
      then Ok(st.(locals := st.locals[r := st.stack[0]]))
      else Invalid
    case GetBb => Push(st, W32(st.bb))
    case SetBb =>
      if |st.stack| >= 1 && st.stack[0].W32?
      then Ok(st.(bb := st.stack[0].m, stack := st.stack[1..]))
      else Invalid
    case Drop => if |st.stack| >= 1 then Ok(st.(stack := st.stack[1..])) else Invalid
    case Bin64(o) =>
      if |st.stack| >= 2 && st.stack[0].W64? && st.stack[1].W64? then
        (match EvalBin(o, st.stack[1].n, st.stack[0].n)
         case Value(v) => if v.IntVal? then Ok(st.(stack := [W64(v.n)] + st.stack[2..])) else Invalid
         case _ => OpTraps)
      else Invalid
    case Eqz64 =>
      if |st.stack| >= 1 && st.stack[0].W64?
      then Ok(st.(stack := [W32(Bit(st.stack[0].n == 0))] + st.stack[1..]))
      else Invalid
    case Eqz32 =>
      if |st.stack| >= 1 && st.stack[0].W32?
      then Ok(st.(stack := [W32(Bit(st.stack[0].m == 0))] + st.stack[1..]))
      else Invalid
    case Cmp64(o) =>
      if |st.stack| >= 2 && st.stack[0].W64? && st.stack[1].W64?
      then Ok(st.(stack := [W32(Bit(Compare(o, st.stack[1].n, st.stack[0].n)))] + st.stack[2..]))
      else Invalid
    case Cmp32(o) =>
      if |st.stack| >= 2 && st.stack[0].W32? && st.stack[1].W32?
      then Ok(st.(stack := [W32(Bit(Compare(o, st.stack[1].m, st.stack[0].m)))] + st.stack[2..]))
      else Invalid
    case Logic32(o) =>
      if |st.stack| >= 2 && st.stack[0].W32? && st.stack[1].W32? then
        var a, b := ToNat32(st.stack[1].m), ToNat32(st.stack[0].m);
        Ok(st.(stack := [W32(Wrap32(if o == And then BitAnd(a, b) else BitOr(a, b)))] + st.stack[2..]))
      else Invalid
    case Add32 =>
      if |st.stack| >= 2 && st.stack[0].W32? && st.stack[1].W32?
      then Ok(st.(stack := [W32(Wrap32(st.stack[1].m + st.stack[0].m))] + st.stack[2..]))
      else Invalid
    case Sub32 =>
      if |st.stack| >= 2 && st.stack[0].W32? && st.stack[1].W32?
      then Ok(st.(stack := [W32(Wrap32(st.stack[1].m - st.stack[0].m))] + st.stack[2..]))
      else Invalid
    case WrapI64 =>
      if |st.stack| >= 1 && st.stack[0].W64?
      then Ok(st.(stack := [W32(Wrap32(st.stack[0].n))] + st.stack[1..]))
      else Invalid
    case ExtendI32 =>
      if |st.stack| >= 1 && st.stack[0].W32?
      then Ok(st.(stack := [W64(st.stack[0].m)] + st.stack[1..]))
      else Invalid
    case GlobalGet(g) => if g in st.globals then Push(st, st.globals[g]) else Invalid
    case GlobalSet(g) =>
      if |st.stack| >= 1 && g in st.globals && WTypeOf(st.globals[g]) == WTypeOf(st.stack[0])
      then Ok(st.(globals := st.globals[g := st.stack[0]], stack := st.stack[1..]))
      else Invalid
    case LoadW(t) =>
      if |st.stack| >= 1 && st.stack[0].W32? then
        var addr := ToNat32(st.stack[0].m);
        if addr + (if t == T64 then 8 else 4) > PAGE then OpTraps
        else if addr in st.mem && WTypeOf(st.mem[addr]) == t
        then Ok(st.(stack := [st.mem[addr]] + st.stack[1..]))
        else Invalid                   // bytes never written as one value of this type
      else Invalid
    case StoreW(t) =>
      if |st.stack| >= 2 && st.stack[1].W32? && WTypeOf(st.stack[0]) == t then
        var addr := ToNat32(st.stack[1].m);
        if addr + Width(st.stack[0]) > PAGE then OpTraps
        else Ok(st.(mem := Write(st.mem, addr, st.stack[0]), stack := st.stack[2..]))
      else Invalid
    case CallHost(name, argc) =>
      if argc <= |st.stack| then
        var call := Call(name, Operands(st.stack, argc));
        Ok(st.(stack := [W32(Wrap32(w.host(st.log, call)))] + st.stack[argc..], log := st.log + [call]))
      else Invalid
    case NopW => Ok(st)
  }

  // ---- structured control ----

  datatype Flow =
    | Falls(st: WState)
    | Branches(l: Label, st: WState)
    | Returns(v: Option<WVal>, st: WState)
    | TrapsIn(st: WState)
    | Rejected(st: WState)       // ill-typed, or a read of memory never written
    | Exhausted(st: WState)

  /** `ret` is the result type of the enclosing function; `fuel` bounds the
      number of times a loop body is entered. */
  function ExecCode(c: Code, ret: Option<WType>, st: WState, w: World, fuel: nat): Flow
    decreases fuel, c, 0
  {
    match c
    case End => Falls(st)
    case Seq(i, rest) =>
      match ExecInstr(i, ret, st, w, fuel)
      case Falls(st') => ExecCode(rest, ret, st', w, fuel)
      case other => other
  }

  function ExecInstr(i: Instr, ret: Option<WType>, st: WState, w: World, fuel: nat): Flow
    decreases fuel, i, 0
  {
    match i
    case Plain(op) =>
      (match ExecOp(op, st, w)
       case Ok(st') => Falls(st')
       case OpTraps => TrapsIn(st)
       case Invalid => Rejected(st))
    case BrTo(l) => Branches(l, st)
    case BrTable(n) =>
      if |st.stack| >= 1 && st.stack[0].W32? then
        var k := ToNat32(st.stack[0].m);
        Branches(if k < n then BbLabel(k) else Exit, st.(stack := st.stack[1..]))
      else Rejected(st)
    case Return =>
      if ret.None? then Returns(None, st)
      else if |st.stack| >= 1 && WTypeOf(st.stack[0]) == ret.value then Returns(Some(st.stack[0]), st)
      else Rejected(st)
    case If(thn, els) =>
      if |st.stack| >= 1 && st.stack[0].W32? then
        ExecCode(if st.stack[0].m != 0 then thn else els, ret, st.(stack := st.stack[1..]), w, fuel)
      else Rejected(st)
    case When(thn) =>
      if |st.stack| >= 1 && st.stack[0].W32? then
        var st' := st.(stack := st.stack[1..]);
        if st.stack[0].m != 0 then ExecCode(thn, ret, st', w, fuel) else Falls(st')
      else Rejected(st)
    case Blk(l, body) =>
      (match ExecCode(body, ret, st, w, fuel)
       case Branches(l', st') => if l' == l then Falls(st'.(stack := st.stack)) else Branches(l', st')
       case other => other)
    case Loop(l, body) =>
      if fuel == 0 then Exhausted(st)
      else
        match ExecCode(body, ret, st, w, fuel - 1)
        case Branches(l', st') =>
          if l' == l then ExecInstr(i, ret, st'.(stack := st.stack), w, fuel - 1) else Branches(l', st')
        case other => other
  }

  function Append(a: Code, b: Code): Code {
    match a
    case End => b
    case Seq(i, rest) => Seq(i, Append(rest, b))
  }

  lemma {:induction false} ExecAppend(a: Code, b: Code, ret: Option<WType>, st: WState, w: World, fuel: nat)
    ensures ExecCode(Append(a, b), ret, st, w, fuel) ==
            match ExecCode(a, ret, st, w, fuel)
            case Falls(st') => ExecCode(b, ret, st', w, fuel)
            case other => other
  {
    match a
    case End =>
    case Seq(i, rest) =>
      var r := ExecInstr(i, ret, st, w, fuel);
      if r.Falls? {
        ExecAppend(rest, b, ret, r.st, w, fuel);
      }
  }

  // ---- the text form: a flat list of tokens ----

  datatype Token =
    | TOp(op: Op)
    | TBr(l: Label)
    | TBrTable(n: nat)
    | TReturn
    | TIf | TElse | TEnd
    | TBlock(l: Label)
    | TLoop(l: Label)
    | TClose

  function Flatten(c: Code): seq<Token> {
    match c
    case End => []
    case Seq(i, rest) => FlattenInstr(i) + Flatten(rest)
  }

  function FlattenInstr(i: Instr): seq<Token> {
    match i
    case Plain(op) => [TOp(op)]
    case BrTo(l) => [TBr(l)]
    case BrTable(n) => [TBrTable(n)]
    case Return => [TReturn]
    case If(thn, els) => [TIf] + Flatten(thn) + [TElse] + Flatten(els) + [TEnd]
    case When(thn) => [TIf] + Flatten(thn) + [TEnd]
    case Blk(l, body) => [TBlock(l)] + Flatten(body) + [TClose]
    case Loop(l, body) => [TLoop(l)] + Flatten(body) + [TClose]
  }

  lemma {:induction false} FlattenAppend(a: Code, b: Code)
    ensures Flatten(Append(a, b)) == Flatten(a) + Flatten(b)
  {
    match a
    case End =>
    case Seq(i, rest) => FlattenAppend(rest, b);
  }

  predicate Stops(ts: seq<Token>) {
    ts == [] || ts[0] in {TElse, TEnd, TClose}
  }

  /** Read instructions up to a token that closes the enclosing construct. */
  function Parse(ts: seq<Token>): (r: Option<(Code, seq<Token>)>)
    ensures r.Some? ==> |r.value.1| <= |ts|
    decreases |ts|, 1
  {
    if Stops(ts) then Some((End, ts))
    else
      match ParseInstr(ts)
      case None => None
      case Some((i, rest)) =>
        match Parse(rest)
        case None => None
        case Some((c, rest')) => Some((Seq(i, c), rest'))
  }

  function ParseInstr(ts: seq<Token>): (r: Option<(Instr, seq<Token>)>)
    requires !Stops(ts)
    ensures r.Some? ==> |r.value.1| < |ts|
    decreases |ts|, 0
  {
    match ts[0]
    case TOp(op) => Some((Plain(op), ts[1..]))
    case TBr(l) => Some((BrTo(l), ts[1..]))
    case TBrTable(n) => Some((BrTable(n), ts[1..]))
    case TReturn => Some((Return, ts[1..]))
    case TBlock(l) =>
      (match Parse(ts[1..])
       case Some((c, rest)) =>
         if rest != [] && rest[0] == TClose then Some((Blk(l, c), rest[1..])) else None
       case None => None)
    case TLoop(l) =>
      (match Parse(ts[1..])
       case Some((c, rest)) =>
         if rest != [] && rest[0] == TClose then Some((Loop(l, c), rest[1..])) else None
       case None => None)
    case TIf =>
      (match Parse(ts[1..])
       case Some((thn, rest)) =>
         if rest != [] && rest[0] == TElse then
           match Parse(rest[1..])
           case Some((els, rest')) =>
             if rest' != [] && rest'[0] == TEnd then Some((If(thn, els), rest'[1..])) else None
           case None => None
         else if rest != [] && rest[0] == TEnd then Some((When(thn), rest[1..]))
         else None
       case None => None)
    case TElse | TEnd | TClose => None
  }

  /** The nesting of the text is read back exactly. */
  lemma {:induction false} ParseFlatten(c: Code, rest: seq<Token>)
    requires Stops(rest)
    ensures Parse(Flatten(c) + rest) == Some((c, rest))
    decreases c, 2
  {
    match c
    case End =>
      assert Flatten(c) + rest == rest;
    case Seq(i, c') =>
      assert Flatten(c) + rest == FlattenInstr(i) + (Flatten(c') + rest);
      ParseFlattenInstr(i, Flatten(c') + rest);
      ParseFlatten(c', rest);
  }

  lemma {:induction false} ParseFlattenInstr(i: Instr, rest: seq<Token>)
    ensures !Stops(FlattenInstr(i) + rest)
    ensures ParseInstr(FlattenInstr(i) + rest) == Some((i, rest))
    decreases i, 1
  {
    hide Parse;
    hide Flatten;
    var ts := FlattenInstr(i) + rest;
    match i
    case Blk(l, body) =>
      var after := [TClose] + rest;
      assert ts[1..] == Flatten(body) + after;
      ParseFlatten(body, after);
      assert after[1..] == rest;
    case Loop(l, body) =>
      var after := [TClose] + rest;
      assert ts[1..] == Flatten(body) + after;
      ParseFlatten(body, after);
      assert after[1..] == rest;
    case When(thn) =>
      var after := [TEnd] + rest;
      assert ts[1..] == Flatten(thn) + after;
      ParseFlatten(thn, after);
      assert after[1..] == rest;
    case If(thn, els) =>
      ParseFlattenIf(thn, els, rest);
    case _ =>
      assert ts[1..] == rest;
  }

  lemma {:induction false} ParseFlattenIf(thn: Code, els: Code, rest: seq<Token>)
    ensures ParseInstr(FlattenInstr(If(thn, els)) + rest) == Some((If(thn, els), rest))
    decreases If(thn, els), 0
  {
    hide Parse;
    hide Flatten;
    var ts := FlattenInstr(If(thn, els)) + rest;
    var afterEls := [TEnd] + rest;
    var afterThn := [TElse] + (Flatten(els) + afterEls);
    assert ts[1..] == Flatten(thn) + afterThn;
    ParseFlatten(thn, afterThn);
    assert afterThn[1..] == Flatten(els) + afterEls;
    ParseFlatten(els, afterEls);
    assert afterEls[1..] == rest;
  }
}
