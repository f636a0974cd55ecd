/** The emitter: what code every instruction, block and function becomes
    (functions), and the loops that append it token by token (class EmitCtx). */
module WasmEmit {
  import opened Ir
  import opened Wasm
  import opened WasmSites
  import opened Wrappers

  const MAX_LOCALS := 4096

  // ---- types of the SSA values ----

  type Types = map<int, IrType>

  function Declare(m: Types, inst: Inst): Types {
    if 0 <= inst.Result() < MAX_LOCALS then m[inst.Result() := inst.Type()] else m
  }

  function DeclareInsts(m: Types, insts: seq<Inst>): Types {
    if insts == [] then m
    else Declare(DeclareInsts(m, insts[..|insts| - 1]), insts[|insts| - 1])
  }

  function DeclareBlocks(m: Types, blocks: seq<Block>): Types {
    if blocks == [] then m
    else DeclareInsts(DeclareBlocks(m, blocks[..|blocks| - 1]), blocks[|blocks| - 1].insts)
  }

  function DeclareParams(params: seq<Param>): Types {
    if params == [] then map[]
    else
      var m := DeclareParams(params[..|params| - 1]);
      var p := params[|params| - 1];
      if 0 <= p.id < MAX_LOCALS then m[p.id := p.ty] else m
  }

  /** One local per SSA value, declared with the type of its last definition. */
  function ValueTypes(f: Function): Types {
    DeclareBlocks(DeclareParams(f.params), f.blocks)
  }

  function TypeAt(types: Types, id: int): IrType {
    if id in types then types[id] else Void
  }

  function LowerType(ty: IrType): WType {
    if ty == Bool || ty == Ptr then T32 else T64
  }

  function ResultType(f: Function): Option<WType> {
    if f.ret == Void then None else Some(LowerType(f.ret))
  }

  // ---- code of one instruction ----

  function S(op: Op, rest: Code): Code {
    Seq(Plain(op), rest)
  }

  function GetValue(id: int): Op {
    if id < 0 then Const64(0) else LocalGet(id)
  }

  function SetValue(id: int): Op {
    if id < 0 then Drop else LocalSet(id)
  }

  /** The copies of an edge, one after the other. */
  function CopyCode(copies: seq<Copy>, rest: Code): Code {
    if copies == [] then rest
    else S(GetValue(copies[0].src), S(SetValue(copies[0].dst), CopyCode(copies[1..], rest)))
  }

  function SentinelCode(ret: IrType, error: int32): Code {
    match ret
    case Void => Seq(Return, End)
    case I64 => S(Const64(error), Seq(Return, End))
    case Bool | Ptr => S(Const32(error), Seq(Return, End))
  }

  /** Compare a 32-bit counter with the charge, leave the function with the
      error when it is short, subtract otherwise. */
  function Fence32(g: Global, charge: nat, error: int32, ret: IrType, rest: Code): Code
    requires charge < TWO_31
  {
    if charge == 0 then rest
    else
      S(GlobalGet(g), S(Const32(charge), S(Cmp32(Lt), Seq(When(SentinelCode(ret, error)),
      S(GlobalGet(g), S(Const32(charge), S(Sub32, S(GlobalSet(g), rest))))))))
  }

  function Fence64(g: Global, charge: nat, error: int32, ret: IrType, rest: Code): Code
    requires charge < TWO_31
  {
    if charge == 0 then rest
    else
      S(GlobalGet(g), S(Const64(charge), S(Cmp64(Lt), Seq(When(SentinelCode(ret, error)),
      S(GlobalGet(g), S(Const64(charge), S(Bin64(Sub), S(GlobalSet(g), rest))))))))
  }

  function FencesCode(name: string, ret: IrType, rest: Code): Code {
    Fence32(Entropy, EntropyCost(name), ENTROPY_EXCEEDED, ret,
    Fence32(Tokens, TokenCost(name), BUDGET_EXCEEDED, ret,
    Fence64(Cost, MicroUsdCost(name), BUDGET_EXCEEDED, ret, rest)))
  }

  function ArgsCode(args: seq<int>, rest: Code): Code {
    if args == [] then rest else S(GetValue(args[0]), ArgsCode(args[1..], rest))
  }

  /** Fences, arguments, call, and the i32 result widened into the i64 slot; a
      site that was never registered yields -1. */
  function HostCallCode(sites: seq<string>, ret: IrType, id: int, name: string, args: seq<int>, rest: Code): Code {
    if name in sites then
      FencesCode(name, ret, ArgsCode(args, S(CallHost(name, |args|), S(ExtendI32, S(SetValue(id), rest)))))
    else S(Const64(-1), S(SetValue(id), rest))
  }

  /** The last part of a conditional or unconditional jump to `t`. */
  function EdgeCode(f: Function, from: int, t: int32, rest: Code): Code {
    CopyCode(EdgeCopies(f, from, t), S(Const32(t), S(SetBb, rest)))
  }

  function CmpOpFor(types: Types, lhs: int, op: CmpOp): Op {
    if TypeAt(types, lhs) == Bool || TypeAt(types, lhs) == Ptr then Cmp32(op) else Cmp64(op)
  }

  /** A cast takes an operand outside the table of types for an integer. */
  function CastSource(types: Types, arg: int): IrType {
    if arg in types then types[arg] else if 0 <= arg < MAX_LOCALS then Void else I64
  }

  function CastCode(types: Types, ty: IrType, arg: int, rest: Code): Code {
    var from := CastSource(types, arg);
    if from == Void || ty == Void then rest
    else if LowerType(from) == T64 && LowerType(ty) == T32 then S(WrapI64, rest)
    else if LowerType(from) == T32 && LowerType(ty) == T64 then S(ExtendI32, rest)
    else rest
  }

  function InstCode(f: Function, types: Types, sites: seq<string>, from: int, inst: Inst, rest: Code): Code {
    match inst
    case ConstInt(id, n) => S(Const64(n), S(SetValue(id), rest))
    case ConstBool(id, b) => S(Const32(Bit(b)), S(SetValue(id), rest))
    case Bin(id, op, l, r) => S(GetValue(l), S(GetValue(r), S(Bin64(op), S(SetValue(id), rest))))
    case Neg(id, x) => S(Const64(0), S(GetValue(x), S(Bin64(Sub), S(SetValue(id), rest))))
    case Not(id, x) =>
      S(GetValue(x), S(if TypeAt(types, x) == I64 then Eqz64 else Eqz32, S(SetValue(id), rest)))
    case Cmp(id, op, l, r) =>
      S(GetValue(l), S(GetValue(r), S(CmpOpFor(types, l, op), S(SetValue(id), rest))))
    case Logic(id, op, l, r) => S(GetValue(l), S(GetValue(r), S(Logic32(op), S(SetValue(id), rest))))
    case Cast(id, ty, x) => S(GetValue(x), CastCode(types, ty, x, S(SetValue(id), rest)))
    case Alloca(id) =>
      S(GlobalGet(Bump), S(LocalTee(id), S(Const32(8), S(Add32, S(GlobalSet(Bump), rest)))))
    case Load(id, ty, addr) => S(GetValue(addr), S(LoadW(LowerType(ty)), S(SetValue(id), rest)))
    case Store(val, addr) =>
      S(GetValue(addr), S(GetValue(val), S(StoreW(LowerType(TypeAt(types, val))), rest)))
    case HostCall(id, name, args) =>
      HostCallCode(sites, f.ret, id, name, args, rest)
    case Ret(x) => if x >= 0 then S(GetValue(x), Seq(Return, rest)) else Seq(Return, rest)
    case Br(c, t, e) =>
      S(GetValue(c), Seq(If(EdgeCode(f, from, t, End), EdgeCode(f, from, e, End)), Seq(BrTo(Dispatch), rest)))
    case Jmp(t) => EdgeCode(f, from, t, Seq(BrTo(Dispatch), rest))
    case Phi(_, _, _) => rest
    case Nop => S(NopW, rest)
  }

  // ---- code of a block and of the dispatch loop ----

  predicate LastTerminates(b: Block) {
    b.insts != [] && b.insts[|b.insts| - 1].Terminates()
  }

  /** After the instructions of block k: fall through to the next block, or
      leave the loop after the last one. */
  function TailCode(f: Function, k: nat): Code
    requires k < |f.blocks| < TWO_31
  {
    if LastTerminates(f.blocks[k]) then End
    else if k + 1 < |f.blocks| then S(Const32(k + 1), S(SetBb, Seq(BrTo(Dispatch), End)))
    else Seq(BrTo(Exit), End)
  }

  /** Block k from its instruction i on. */
  function BodyFrom(f: Function, types: Types, sites: seq<string>, k: nat, i: nat): Code
    requires k < |f.blocks| < TWO_31 && i <= |f.blocks[k].insts|
    decreases |f.blocks[k].insts| - i
  {
    if i == |f.blocks[k].insts| then TailCode(f, k)
    else InstCode(f, types, sites, k, f.blocks[k].insts[i], BodyFrom(f, types, sites, k, i + 1))
  }

  /** The inside of $bb_i: the blocks below i are closed, each followed by the
      body it dispatches to; $bb_0 is innermost. */
  function Level(f: Function, types: Types, sites: seq<string>, i: nat): Code
    requires i <= |f.blocks| < TWO_31
  {
    if i == 0 then S(GetBb, Seq(BrTable(|f.blocks|), End))
    else Seq(Blk(BbLabel(i - 1), Level(f, types, sites, i - 1)), BodyFrom(f, types, sites, i - 1, 0))
  }

  function DefaultCode(ret: IrType): Code {
    match ret
    case Void => End
    case I64 => S(Const64(0), End)
    case Bool | Ptr => S(Const32(0), End)
  }

  function DispatchLoop(f: Function, types: Types, sites: seq<string>): Instr
    requires |f.blocks| < TWO_31
  {
    Loop(Dispatch, Level(f, types, sites, |f.blocks|))
  }

  function FunctionCode(f: Function, types: Types, sites: seq<string>): Code
    requires |f.blocks| < TWO_31
  {
    S(Const32(0), S(SetBb, Seq(Blk(Exit, Seq(DispatchLoop(f, types, sites), End)), DefaultCode(f.ret))))
  }

  // ---- running emitted text ----

  function ZeroW(t: WType): WVal {
    if t == T64 then W64(0) else W32(0)
  }

  function LowerVal(base: int, v: Val): WVal {
    match v
    case IntVal(n) => W64(n)
    case BoolVal(b) => W32(Bit(b))
    case PtrVal(c) => W32(Wrap32(base + 8 * c))
  }

  /** Locals start at zero, parameters at their arguments. */
  function InitialLocals(types: Types, env: Env, base: int): map<int, WVal> {
    map id | id in types :: if id in env then LowerVal(base, env[id]) else ZeroW(LowerType(types[id]))
  }

  function InitialState(types: Types, env: Env, base: int32, b: Budget): WState
    requires -TWO_31 <= b.entropy < TWO_31 && -TWO_31 <= b.tokens < TWO_31 && -TWO_63 <= b.cost < TWO_63
  {
    WState(InitialLocals(types, env, base), 0, [], map[],
           map[Bump := W32(base), Entropy := W32(b.entropy), Tokens := W32(b.tokens), Cost := W64(b.cost)], [])
  }

  /** Parse the text of a function body, run it, and take the value left on
      the stack when it falls off its end. */
  function RunText(text: seq<Token>, ret: Option<WType>, st: WState, w: World, fuel: nat): Flow {
    match Parse(text)
    case None => Rejected(st)
    case Some((c, rest)) =>
      if rest != [] then Rejected(st)
      else
        match ExecCode(c, ret, st, w, fuel)
        case Falls(st') =>
          if ret.None? then Returns(None, st')
          else if |st'.stack| >= 1 && WTypeOf(st'.stack[0]) == ret.value then Returns(Some(st'.stack[0]), st')
          else Rejected(st')
        case other => other
  }

  // ---- the emitter itself ----

  /** Emission state: the text so far and the registered host-call sites.
      Every emitting method takes the code that is still to come as a ghost
      argument `rest`: what it appends, followed by `rest`, is the code it was
      asked for. */
  class EmitCtx {
    var text: seq<Token>
    var sites: seq<string>

    constructor ()
      ensures text == [] && sites == []
    {
      text, sites := [], [];
    }

    method Put(op: Op, ghost rest: Code)
      modifies this`text
      ensures text + Flatten(rest) == old(text + Flatten(S(op, rest)))
    {
      assert Flatten(S(op, rest)) == [TOp(op)] + Flatten(rest);
      text := text + [TOp(op)];
    }

    /** A control token, where `before` is the token list it starts. */
    method PutToken(t: Token, ghost after: seq<Token>)
      modifies this`text
      ensures text + after == old(text + ([t] + after))
    {
      text := text + [t];
    }

    /** Add a host-call site unless it is known, the table is full, or the
        name has no namespace; the index of the site, or -1. */
    method Register(name: string) returns (idx: int)
      requires GoodSites(sites)
      modifies this`sites
      ensures GoodSites(sites) && sites == AddSite(old(sites), name)
      ensures old(sites) < sites <==> name !in old(sites) && '.' in name && |old(sites)| < 64
      ensures if name in sites then 0 <= idx < |sites| && sites[idx] == name else idx == -1
    {
      AddSiteExact(sites, name);
      for i := 0 to |sites|
        invariant forall j :: 0 <= j < i ==> sites[j] != name
      {
        if sites[i] == name {
          return i;
        }
      }
      if |sites| >= MAX_HOST_CALLS || '.' !in name {
        return -1;
      }
      sites := sites + [name];
      return |sites| - 1;
    }

    /** The pre-pass: every host call of every function of the module. */
    method PreregisterHostCalls(functions: seq<Function>)
      requires GoodSites(sites)
      modifies this`sites
      ensures GoodSites(sites) && sites == AddSites(old(sites), HostNames(functions))
    {
      var n := 0;
      while n < |functions|
        invariant 0 <= n <= |functions|
        invariant GoodSites(sites) && sites == AddSites(old(sites), HostNames(functions[..n]))
      {
        AddSitesAppend(old(sites), HostNames(functions[..n]), BlockNames(functions[n].blocks));
        assert functions[..n + 1][..n] == functions[..n];
        RegisterBlocks(functions[n].blocks);
        n := n + 1;
      }
      assert functions[..n] == functions;
    }

    method RegisterBlocks(blocks: seq<Block>)
      requires GoodSites(sites)
      modifies this`sites
      ensures GoodSites(sites) && sites == AddSites(old(sites), BlockNames(blocks))
    {
      var k := 0;
      while k < |blocks|
        invariant 0 <= k <= |blocks|
        invariant GoodSites(sites) && sites == AddSites(old(sites), BlockNames(blocks[..k]))
      {
        AddSitesAppend(old(sites), BlockNames(blocks[..k]), InstNames(blocks[k].insts));
        assert blocks[..k + 1][..k] == blocks[..k];
        RegisterInsts(blocks[k].insts);
        k := k + 1;
      }
      assert blocks[..k] == blocks;
    }

    method RegisterInsts(insts: seq<Inst>)
      requires GoodSites(sites)
      modifies this`sites
      ensures GoodSites(sites) && sites == AddSites(old(sites), InstNames(insts))
    {
      var i := 0;
      while i < |insts|
        invariant 0 <= i <= |insts|
        invariant GoodSites(sites) && sites == AddSites(old(sites), InstNames(insts[..i]))
      {
        AddSitesAppend(old(sites), InstNames(insts[..i]), if insts[i].HostCall? then [insts[i].name] else []);
        assert insts[..i + 1][..i] == insts[..i];
        if insts[i].HostCall? {
          var idx := Register(insts[i].name);
        }
        i := i + 1;
      }
      assert insts[..i] == insts;
    }

    /** The position of the block with the given id, or -1. */
    method FindBb(f: Function, id: int) returns (k: int)
      requires BlocksNumbered(f)
      ensures k == if 0 <= id < |f.blocks| then id else -1
    {
      k := 0;
      while k < |f.blocks|
        invariant 0 <= k <= |f.blocks|
        invariant !(0 <= id < k)
      {
        if f.blocks[k].id == id {
          return;
        }
        k := k + 1;
      }
      k := -1;
    }

    /** The value a phi takes on the edge from block `from`, or -1. */
    method FindIncoming(args: seq<PhiArg>, from: int) returns (matched: int)
      ensures matched == Incoming(args, from)
    {
      matched := -1;
      var i := 0;
      while i < |args|
        invariant 0 <= i <= |args|
        invariant matched == -1
        invariant Incoming(args[i..], from) == Incoming(args, from)
      {
        if args[i].block == from {
          matched := args[i].value;
          return;
        }
        i := i + 1;
      }
    }

    method EmitPhiAssignments(f: Function, from: int, t: int32, ghost rest: Code)
      requires BlocksNumbered(f)
      modifies this`text
      ensures text + Flatten(rest) == old(text + Flatten(CopyCode(EdgeCopies(f, from, t), rest)))
    {
      var target := FindBb(f, t);
      if target < 0 {
        return;
      }
      var insts := f.blocks[target].insts;
      assert insts[0..] == insts;
      var i := 0;
      while i < |insts|
        invariant 0 <= i <= |insts|
        invariant text + Flatten(CopyCode(PhiCopies(insts[i..], from), rest)) ==
                  old(text + Flatten(CopyCode(EdgeCopies(f, from, t), rest)))
      {
        assert insts[i..][1..] == insts[i + 1..];
        if insts[i].Phi? {
          var matched := FindIncoming(insts[i].incoming, from);
          if matched >= 0 {
            ghost var c := Copy(insts[i].id, matched, insts[i].ty);
            ghost var more := PhiCopies(insts[i + 1..], from);
            assert PhiCopies(insts[i..], from) == [c] + more;
            assert ([c] + more)[1..] == more;
            Put(GetValue(matched), S(SetValue(insts[i].id), CopyCode(more, rest)));
            Put(SetValue(insts[i].id), CopyCode(more, rest));
          }
        }
        i := i + 1;
      }
      assert insts[i..] == [];
    }

    /** Copies of the edge, then `$bb` set to the target. */
    method EmitEdge(f: Function, from: int, t: int32, ghost rest: Code)
      requires BlocksNumbered(f)
      modifies this`text
      ensures text + Flatten(rest) == old(text + Flatten(EdgeCode(f, from, t, rest)))
    {
      EmitPhiAssignments(f, from, t, S(Const32(t), S(SetBb, rest)));
      Put(Const32(t), S(SetBb, rest));
      Put(SetBb, rest);
    }

    /** The body of the `if` of a fence: push the error and return. */
    method EmitSentinel(ret: IrType, error: int32, ghost after: seq<Token>)
      modifies this`text
      ensures text + after == old(text + (Flatten(SentinelCode(ret, error)) + after))
    {
      match ret
      case Void =>
        text := text + [TReturn];
      case I64 =>
        text := text + [TOp(Const64(error)), TReturn];
      case Bool =>
        text := text + [TOp(Const32(error)), TReturn];
      case Ptr =>
        text := text + [TOp(Const32(error)), TReturn];
    }

    method EmitWhenSentinel(ret: IrType, error: int32, ghost rest: Code)
      modifies this`text
      ensures text + Flatten(rest) == old(text + Flatten(Seq(When(SentinelCode(ret, error)), rest)))
    {
      ghost var after := [TEnd] + Flatten(rest);
      ghost var thn := Flatten(SentinelCode(ret, error));
      assert Flatten(Seq(When(SentinelCode(ret, error)), rest)) == [TIf] + (thn + after);
      PutToken(TIf, thn + after);
      EmitSentinel(ret, error, after);
      PutToken(TEnd, Flatten(rest));
    }

    method EmitFence32(g: Global, charge: nat, error: int32, ret: IrType, ghost rest: Code)
      requires charge < TWO_31
      modifies this`text
      ensures text + Flatten(rest) == old(text + Flatten(Fence32(g, charge, error, ret, rest)))
    {
      if charge <= 0 {
        return;
      }
      ghost var r8 := S(GlobalSet(g), rest);
      ghost var r7 := S(Sub32, r8);
      ghost var r6 := S(Const32(charge), r7);
      ghost var r5 := S(GlobalGet(g), r6);
      ghost var r4 := Seq(When(SentinelCode(ret, error)), r5);
      Put(GlobalGet(g), S(Const32(charge), S(Cmp32(Lt), r4)));
      Put(Const32(charge), S(Cmp32(Lt), r4));
      Put(Cmp32(Lt), r4);
      EmitWhenSentinel(ret, error, r5);
      Put(GlobalGet(g), r6);
      Put(Const32(charge), r7);
      Put(Sub32, r8);
      Put(GlobalSet(g), rest);
    }

    method EmitFence64(g: Global, charge: nat, error: int32, ret: IrType, ghost rest: Code)
      requires charge < TWO_31
      modifies this`text
      ensures text + Flatten(rest) == old(text + Flatten(Fence64(g, charge, error, ret, rest)))
    {
      if charge <= 0 {
        return;
      }
      ghost var r8 := S(GlobalSet(g), rest);
      ghost var r7 := S(Bin64(Sub), r8);
      ghost var r6 := S(Const64(charge), r7);
      ghost var r5 := S(GlobalGet(g), r6);
      ghost var r4 := Seq(When(SentinelCode(ret, error)), r5);
      Put(GlobalGet(g), S(Const64(charge), S(Cmp64(Lt), r4)));
      Put(Const64(charge), S(Cmp64(Lt), r4));
      Put(Cmp64(Lt), r4);
      EmitWhenSentinel(ret, error, r5);
      Put(GlobalGet(g), r6);
      Put(Const64(charge), r7);
      Put(Bin64(Sub), r8);
      Put(GlobalSet(g), rest);
    }

    method EmitHostCall(ret: IrType, id: int, name: string, args: seq<int>, ghost rest: Code)
      modifies this`text
      ensures text + Flatten(rest) == old(text + Flatten(HostCallCode(sites, ret, id, name, args, rest)))
    {
      if name !in sites {
        Put(Const64(-1), S(SetValue(id), rest));
        Put(SetValue(id), rest);
        return;
      }
      ghost var call := S(CallHost(name, |args|), S(ExtendI32, S(SetValue(id), rest)));
      ghost var body := ArgsCode(args, call);
      ghost var f3 := Fence64(Cost, MicroUsdCost(name), BUDGET_EXCEEDED, ret, body);
      EmitFence32(Entropy, EntropyCost(name), ENTROPY_EXCEEDED, ret,
                  Fence32(Tokens, TokenCost(name), BUDGET_EXCEEDED, ret, f3));
      EmitFence32(Tokens, TokenCost(name), BUDGET_EXCEEDED, ret, f3);
      EmitFence64(Cost, MicroUsdCost(name), BUDGET_EXCEEDED, ret, body);
      var i := 0;
      assert args[0..] == args;
      while i < |args|
        invariant 0 <= i <= |args|
        invariant text + Flatten(ArgsCode(args[i..], call)) ==
                  old(text + Flatten(HostCallCode(sites, ret, id, name, args, rest)))
      {
        assert args[i..][1..] == args[i + 1..];
        Put(GetValue(args[i]), ArgsCode(args[i + 1..], call));
        i := i + 1;
      }
      assert args[i..] == [];
      Put(CallHost(name, |args|), S(ExtendI32, S(SetValue(id), rest)));
      Put(ExtendI32, S(SetValue(id), rest));
      Put(SetValue(id), rest);
    }

    method EmitBranch(f: Function, from: int, c: int, t: int32, e: int32, ghost rest: Code)
      requires BlocksNumbered(f)
      modifies this`text
      ensures text + Flatten(rest) ==
              old(text + Flatten(S(GetValue(c),
                  Seq(If(EdgeCode(f, from, t, End), EdgeCode(f, from, e, End)), Seq(BrTo(Dispatch), rest)))))
    {
      hide Flatten;
      hide FlattenInstr;
      hide EdgeCode;
      ghost var thn, els := EdgeCode(f, from, t, End), EdgeCode(f, from, e, End);
      ghost var r1 := Seq(BrTo(Dispatch), rest);
      ghost var r0 := Seq(If(thn, els), r1);
      Put(GetValue(c), r0);
      ghost var afterEls := [TEnd] + Flatten(r1);
      ghost var afterThn := [TElse] + (Flatten(els) + afterEls);
      FlattenIf(thn, els, r1);
      PutToken(TIf, Flatten(thn) + afterThn);
      EmitArm(f, from, t, afterThn);
      PutToken(TElse, Flatten(els) + afterEls);
      EmitArm(f, from, e, afterEls);
      PutToken(TEnd, Flatten(r1));
      PutDispatch(rest);
    }

    method EmitArm(f: Function, from: int, t: int32, ghost after: seq<Token>)
      requires BlocksNumbered(f)
      modifies this`text
      ensures text + after == old(text + (Flatten(EdgeCode(f, from, t, End)) + after))
    {
      ghost var all := Flatten(EdgeCode(f, from, t, End));
      EmitEdge(f, from, t, End);
      assert text == text + Flatten(End);
      assert text == old(text) + all;
    }

    method PutReturn(ghost rest: Code)
      modifies this`text
      ensures text + Flatten(rest) == old(text + Flatten(Seq(Return, rest)))
    {
      assert Flatten(Seq(Return, rest)) == [TReturn] + Flatten(rest);
      text := text + [TReturn];
    }

    method PutDispatch(ghost rest: Code)
      modifies this`text
      ensures text + Flatten(rest) == old(text + Flatten(Seq(BrTo(Dispatch), rest)))
    {
      assert Flatten(Seq(BrTo(Dispatch), rest)) == [TBr(Dispatch)] + Flatten(rest);
      text := text + [TBr(Dispatch)];
    }

    method EmitInstruction(f: Function, types: Types, from: int, inst: Inst, ghost rest: Code)
      requires BlocksNumbered(f)
      modifies this`text
      ensures text + Flatten(rest) == old(text + Flatten(InstCode(f, types, sites, from, inst, rest)))
    {
      hide Flatten;
      hide FlattenInstr;
      ghost var done := S(SetValue(inst.Result()), rest);
      match inst
      case ConstInt(id, n) =>
        Put(Const64(n), done);
        Put(SetValue(id), rest);
      case ConstBool(id, b) =>
        Put(Const32(Bit(b)), done);
        Put(SetValue(id), rest);
      case Bin(id, op, l, r) =>
        Put(GetValue(l), S(GetValue(r), S(Bin64(op), done)));
        Put(GetValue(r), S(Bin64(op), done));
        Put(Bin64(op), done);
        Put(SetValue(id), rest);
      case Neg(id, x) =>
        Put(Const64(0), S(GetValue(x), S(Bin64(Sub), done)));
        Put(GetValue(x), S(Bin64(Sub), done));
        Put(Bin64(Sub), done);
        Put(SetValue(id), rest);
      case Not(id, x) =>
        var op := if TypeAt(types, x) == I64 then Eqz64 else Eqz32;
        Put(GetValue(x), S(op, done));
        Put(op, done);
        Put(SetValue(id), rest);
      case Cmp(id, op, l, r) =>
        Put(GetValue(l), S(GetValue(r), S(CmpOpFor(types, l, op), done)));
        Put(GetValue(r), S(CmpOpFor(types, l, op), done));
        Put(CmpOpFor(types, l, op), done);
        Put(SetValue(id), rest);
      case Logic(id, op, l, r) =>
        Put(GetValue(l), S(GetValue(r), S(Logic32(op), done)));
        Put(GetValue(r), S(Logic32(op), done));
        Put(Logic32(op), done);
        Put(SetValue(id), rest);
      case Cast(id, ty, x) =>
        Put(GetValue(x), CastCode(types, ty, x, done));
        var source := CastSource(types, x);
        if source != Void && ty != Void {
          if LowerType(source) == T64 && LowerType(ty) == T32 {
            Put(WrapI64, done);
          } else if LowerType(source) == T32 && LowerType(ty) == T64 {
            Put(ExtendI32, done);
          }
        }
        Put(SetValue(id), rest);
      case Alloca(id) =>
        Put(GlobalGet(Bump), S(LocalTee(id), S(Const32(8), S(Add32, S(GlobalSet(Bump), rest)))));
        Put(LocalTee(id), S(Const32(8), S(Add32, S(GlobalSet(Bump), rest))));
        Put(Const32(8), S(Add32, S(GlobalSet(Bump), rest)));
        Put(Add32, S(GlobalSet(Bump), rest));
        Put(GlobalSet(Bump), rest);
      case Load(id, ty, addr) =>
        Put(GetValue(addr), S(LoadW(LowerType(ty)), done));
        Put(LoadW(LowerType(ty)), done);
        Put(SetValue(id), rest);
      case Store(val, addr) =>
        var op := StoreW(LowerType(TypeAt(types, val)));
        Put(GetValue(addr), S(GetValue(val), S(op, rest)));
        Put(GetValue(val), S(op, rest));
        Put(op, rest);
      case HostCall(id, name, args) =>
        EmitHostCall(f.ret, id, name, args, rest);
      case Ret(x) =>
        if x >= 0 {
          Put(GetValue(x), Seq(Return, rest));
        }
        PutReturn(rest);
      case Br(c, t, e) =>
        EmitBranch(f, from, c, t, e, rest);
      case Jmp(t) =>
        EmitEdge(f, from, t, Seq(BrTo(Dispatch), rest));
        PutDispatch(rest);
      case Phi(_, _, _) =>
      case Nop =>
        Put(NopW, rest);
    }

    /** The body of block k, with the jump a missing terminator stands for. */
    method EmitBlock(f: Function, types: Types, k: nat)
      requires BlocksNumbered(f) && k < |f.blocks|
      modifies this`text
      ensures text == old(text + Flatten(BodyFrom(f, types, sites, k, 0)))
    {
      var insts := f.blocks[k].insts;
      var i := 0;
      while i < |insts|
        invariant 0 <= i <= |insts|
        invariant text + Flatten(BodyFrom(f, types, sites, k, i)) ==
                  old(text + Flatten(BodyFrom(f, types, sites, k, 0)))
      {
        EmitInstruction(f, types, k, insts[i], BodyFrom(f, types, sites, k, i + 1));
        i := i + 1;
      }
      if !LastTerminates(f.blocks[k]) {
        if k + 1 < |f.blocks| {
          ghost var jump := Seq(BrTo(Dispatch), End);
          Put(Const32(k + 1), S(SetBb, jump));
          Put(SetBb, jump);
          assert Flatten(jump) == [TBr(Dispatch)];
          text := text + [TBr(Dispatch)];
        } else {
          assert Flatten(TailCode(f, k)) == [TBr(Exit)];
          text := text + [TBr(Exit)];
        }
      } else {
        assert text + Flatten(End) == text;
      }
    }

    /** Open one block per basic block, $bb_{n-1} first and $bb_0 last. */
    method EmitOpens(n: nat)
      modifies this`text
      ensures text == old(text) + Opens(0, n)
    {
      var i := n;
      while i > 0
        invariant 0 <= i <= n
        invariant text == old(text) + Opens(i, n)
      {
        i := i - 1;
        text := text + [TBlock(BbLabel(i))];
      }
    }

    /** Close the blocks in order, each before the body it dispatches to. */
    method EmitLevels(f: Function, types: Types, ghost start: seq<Token>)
      requires BlocksNumbered(f)
      requires text == start + Opens(0, |f.blocks|)
      modifies this`text
      ensures text == start + Flatten(Level(f, types, sites, |f.blocks|))
    {
      hide Level;
      hide BodyFrom;
      hide Flatten;
      var n := |f.blocks|;
      text := text + [TOp(GetBb), TBrTable(n)];
      FlattenLevel(f, types, sites, 0);
      var i := 0;
      while i < n
        invariant 0 <= i <= n
        invariant text == start + Opens(i, n) + Flatten(Level(f, types, sites, i))
      {
        ghost var before := text;
        text := text + [TClose];
        EmitBlock(f, types, i);
        FlattenLevel(f, types, sites, i + 1);
        ReopenLevel(start, Opens(i + 1, n), TBlock(BbLabel(i)), Flatten(Level(f, types, sites, i)),
                    Flatten(BodyFrom(f, types, sites, i, 0)));
        i := i + 1;
      }
    }

    /** The whole function body. */
    method EmitFunctionBody(f: Function, types: Types)
      requires BlocksNumbered(f)
      modifies this`text
      ensures text == old(text) + Flatten(FunctionCode(f, types, sites))
    {
      hide Level;
      hide Flatten;
      ghost var before := text;
      text := text + [TOp(Const32(0)), TOp(SetBb), TBlock(Exit), TLoop(Dispatch)];
      ghost var start := text;
      EmitOpens(|f.blocks|);
      EmitLevels(f, types, start);
      text := text + [TClose, TClose];
      FlattenFunction(f, types, sites);
      assert text + Flatten(DefaultCode(f.ret)) == before + Flatten(FunctionCode(f, types, sites));
      EmitDefault(f.ret);
    }

    method EmitDefault(ret: IrType)
      modifies this`text
      ensures text == old(text) + Flatten(DefaultCode(ret))
    {
      match ret
      case Void =>
      case I64 => text := text + [TOp(Const64(0))];
      case Bool => text := text + [TOp(Const32(0))];
      case Ptr => text := text + [TOp(Const32(0))];
    }
  }

  lemma ReopenLevel(start: seq<Token>, opens: seq<Token>, open: Token, inside: seq<Token>, body: seq<Token>)
    ensures start + (opens + [open]) + inside + [TClose] + body == start + opens + ([open] + inside + [TClose] + body)
  {
  }

  /** The block openings from $bb_{n-1} down to $bb_i. */
  function Opens(i: nat, n: nat): seq<Token>
    decreases n - i
  {
    if i >= n then [] else Opens(i + 1, n) + [TBlock(BbLabel(i))]
  }

  lemma FlattenIf(thn: Code, els: Code, rest: Code)
    ensures Flatten(Seq(If(thn, els), rest)) ==
            [TIf] + (Flatten(thn) + ([TElse] + (Flatten(els) + ([TEnd] + Flatten(rest)))))
  {
    hide Flatten;
    FlattenSeq(If(thn, els), rest);
    var a, b, c := Flatten(thn), Flatten(els), Flatten(rest);
    assert [TIf] + a + [TElse] + b + [TEnd] + c == [TIf] + (a + ([TElse] + (b + ([TEnd] + c))));
  }

  lemma FlattenSeq(i: Instr, rest: Code)
    ensures Flatten(Seq(i, rest)) == FlattenInstr(i) + Flatten(rest)
    ensures rest == End ==> Flatten(Seq(i, rest)) == FlattenInstr(i)
  {
  }

  lemma FlattenLevel(f: Function, types: Types, sites: seq<string>, i: nat)
    requires i <= |f.blocks| < TWO_31
    ensures Flatten(Level(f, types, sites, i)) ==
            if i == 0 then [TOp(GetBb), TBrTable(|f.blocks|)]
            else [TBlock(BbLabel(i - 1))] + Flatten(Level(f, types, sites, i - 1)) + [TClose] +
                 Flatten(BodyFrom(f, types, sites, i - 1, 0))
  {
    if i == 0 {
      assert Flatten(Seq(BrTable(|f.blocks|), End)) == [TBrTable(|f.blocks|)];
    }
  }

  lemma FlattenFunction(f: Function, types: Types, sites: seq<string>)
    requires |f.blocks| < TWO_31
    ensures Flatten(FunctionCode(f, types, sites)) ==
            [TOp(Const32(0)), TOp(SetBb), TBlock(Exit), TLoop(Dispatch)] +
            Flatten(Level(f, types, sites, |f.blocks|)) + [TClose, TClose] + Flatten(DefaultCode(f.ret))
  {
    hide Level;
    hide Flatten;
    hide DefaultCode;
    var loop := DispatchLoop(f, types, sites);
    var tail := DefaultCode(f.ret);
    var exit := Seq(Blk(Exit, Seq(loop, End)), tail);
    FlattenSeq(loop, End);
    FlattenSeq(Blk(Exit, Seq(loop, End)), tail);
    FlattenSeq(Plain(SetBb), exit);
    FlattenSeq(Plain(Const32(0)), S(SetBb, exit));
  }
}
