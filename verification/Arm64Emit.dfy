/** The ARM64 emitter: where values live, what every instruction becomes, and
    the loops that lay out the frame and append the code. */
module Arm64Emit {
  import opened Ir
  import opened Arm64
  import opened Arm64Alloc
  import opened Arm64Scan

  const MAX_ALLOCAS := 512
  const MAX_REG_PARAMS := 8
  const NO_OFFSET := -128
  const SCRATCH := 16
  const SCRATCH_ALT := 17
  const SCRATCH_MOD := 18

  datatype Slot = Slot(id: int, off: int)

  /** What emission knows of the function: parameters, ranges after allocation,
      stack slots of the allocas, frame size. */
  datatype Ctx = Ctx(params: seq<Param>, ranges: seq<LiveRange>, allocas: seq<Slot>, frame: nat)

  // ---- frame layout ----

  /** Allocas are laid out in program order below the spill area. */
  function AllocaSlots(insts: seq<Inst>, top: int): seq<Slot> {
    if insts == [] then []
    else
      var n := |insts| - 1;
      var before := AllocaSlots(insts[..n], top);
      if insts[n].Alloca? && |before| < MAX_ALLOCAS
      then before + [Slot(insts[n].id, top - 8 * (|before| + 1))]
      else before
  }

  lemma AllocaSnoc(before: seq<Inst>, inst: Inst, top: int)
    ensures inst.Alloca? && |AllocaSlots(before, top)| < MAX_ALLOCAS ==>
              AllocaSlots(before + [inst], top) ==
              AllocaSlots(before, top) + [Slot(inst.id, top - 8 * (|AllocaSlots(before, top)| + 1))]
    ensures !(inst.Alloca? && |AllocaSlots(before, top)| < MAX_ALLOCAS) ==>
              AllocaSlots(before + [inst], top) == AllocaSlots(before, top)
  {
    var all := before + [inst];
    assert all[..|before|] == before && all[|before|] == inst;
  }

  lemma NextPrefix(before: seq<Inst>, insts: seq<Inst>, i: nat)
    requires i < |insts|
    ensures before + insts[..i + 1] == before + insts[..i] + [insts[i]]
  {
  }

  function FrameSize(maxSpill: nat, allocas: nat): nat {
    (16 + maxSpill + allocas * 8 + 15) / 16 * 16
  }

  /** The context emit_function builds before it emits. */
  function Context(f: Function): Ctx {
    var scan := Allocate(LiveRanges(f));
    var spill := SpillBytes(scan.next);
    var slots := AllocaSlots(Linear(f.blocks), -16 - spill);
    Ctx(f.params, scan.ranges, slots, FrameSize(spill, |slots|))
  }

  // ---- where values are ----

  datatype Home = InReg(r: nat) | InSlot(off: int) | Nowhere

  /** The first register parameter with this id, or -1. */
  function ParamReg(params: seq<Param>, id: int, from: nat): (r: int)
    ensures r == -1 || (from <= r < |params| && r < MAX_REG_PARAMS && params[r].id == id)
    ensures r == -1 ==> forall i :: from <= i < |params| && i < MAX_REG_PARAMS ==> params[i].id != id
    decreases |params| - from
  {
    if from >= |params| || from >= MAX_REG_PARAMS then -1
    else if params[from].id == id then from
    else ParamReg(params, id, from + 1)
  }

  function HomeOfRange(r: LiveRange): Home {
    if r.reg >= 0 then InReg(r.reg) else InSlot(r.spill)
  }

  /** Where a value is read from. */
  function SourceOf(ctx: Ctx, id: int): Home {
    var p := ParamReg(ctx.params, id, 0);
    if p >= 0 then InReg(p)
    else
      var k := IndexOf(ctx.ranges, id);
      if k < 0 then Nowhere else HomeOfRange(ctx.ranges[k])
  }

  /** Where a result is written. */
  function TargetOf(ctx: Ctx, id: int): Home {
    var k := IndexOf(ctx.ranges, id);
    if k < 0 then Nowhere else HomeOfRange(ctx.ranges[k])
  }

  function LoadCode(h: Home, scratch: nat): seq<Asm> {
    if h.InSlot? then [LdrFp(scratch, h.off)] else []
  }

  function RegOf(h: Home, scratch: nat): nat {
    if h.InReg? then h.r else scratch
  }

  function StoreCode(h: Home): seq<Asm> {
    if h.InSlot? && h.off != -1 then [StrFp(SCRATCH, h.off)] else []
  }

  function FindSlot(slots: seq<Slot>, id: int): (k: int)
    ensures -1 <= k < |slots|
    ensures k >= 0 ==> slots[k].id == id
    ensures k == -1 ==> forall i :: 0 <= i < |slots| ==> slots[i].id != id
  {
    if slots == [] then -1
    else if slots[0].id == id then 0
    else
      var k := FindSlot(slots[1..], id);
      if k < 0 then -1 else k + 1
  }

  /** The frame offset of an alloca, or the fallback. */
  function AllocaOffset(ctx: Ctx, id: int): int {
    var k := FindSlot(ctx.allocas, id);
    if k < 0 then NO_OFFSET else ctx.allocas[k].off
  }

  // ---- code of one instruction ----

  /** Both operands in registers: the first through x16, the second through x17. */
  function LoadBoth(ctx: Ctx, l: int, r: int): seq<Asm> {
    LoadCode(SourceOf(ctx, l), SCRATCH) + LoadCode(SourceOf(ctx, r), SCRATCH_ALT)
  }

  function Lhs(ctx: Ctx, l: int): nat {
    RegOf(SourceOf(ctx, l), SCRATCH)
  }

  function Rhs(ctx: Ctx, r: int): nat {
    RegOf(SourceOf(ctx, r), SCRATCH_ALT)
  }

  function Dest(ctx: Ctx, id: int): nat {
    RegOf(TargetOf(ctx, id), SCRATCH)
  }

  function BinCode(op: BinOp, d: nat, a: nat, b: nat): seq<Asm> {
    match op
    case Add => [Arith(AAdd, d, a, b)]
    case Sub => [Arith(ASub, d, a, b)]
    case Mul => [Arith(AMul, d, a, b)]
    case Div => [Arith(ASdiv, d, a, b)]
    case Mod => [Arith(ASdiv, SCRATCH_MOD, a, b), Msub(d, SCRATCH_MOD, b, a)]
  }

  function AddressCode(d: nat, off: int): seq<Asm> {
    if 0 <= off <= 4095 then [AddFp(d, off)]
    else if -4095 <= off < 0 then [SubFp(d, -off)]
    else MovImm64(d, Wrap64(off)) + [AddFpReg(d, d)]
  }

  /** The part between loading operands and storing a spilled result. */
  function CoreCode(ctx: Ctx, inst: Inst): seq<Asm> {
    match inst
    case ConstInt(id, n) => MovImm64(Dest(ctx, id), n)
    case ConstBool(id, b) => [MovImm(Dest(ctx, id), Bit(b))]
    case Bin(id, op, l, r) => BinCode(op, Dest(ctx, id), Lhs(ctx, l), Rhs(ctx, r))
    case Neg(id, x) => [NegReg(Dest(ctx, id), Lhs(ctx, x))]
    case Not(id, x) => [CmpZero(Lhs(ctx, x)), Cset(Dest(ctx, id), Eq)]
    case Cmp(id, op, l, r) => [CmpReg(Lhs(ctx, l), Rhs(ctx, r)), Cset(Dest(ctx, id), op)]
    case Logic(id, op, l, r) =>
      [Arith(if op == And then AAnd else AOrr, Dest(ctx, id), Lhs(ctx, l), Rhs(ctx, r))]
    case Cast(id, _, x) => if Dest(ctx, id) != Lhs(ctx, x) then [Mov(Dest(ctx, id), Lhs(ctx, x))] else []
    case Alloca(id) => AddressCode(Dest(ctx, id), AllocaOffset(ctx, id))
    case Load(id, _, addr) =>
      if AllocaOffset(ctx, addr) != NO_OFFSET then [LdrFp(Dest(ctx, id), AllocaOffset(ctx, addr))]
      else [LdrReg(Dest(ctx, id), Lhs(ctx, addr))]
    case _ => []
  }

  function OperandCode(ctx: Ctx, inst: Inst): seq<Asm> {
    match inst
    case Bin(_, _, l, r) => LoadBoth(ctx, l, r)
    case Cmp(_, _, l, r) => LoadBoth(ctx, l, r)
    case Logic(_, _, l, r) => LoadBoth(ctx, l, r)
    case Neg(_, x) => LoadCode(SourceOf(ctx, x), SCRATCH)
    case Not(_, x) => LoadCode(SourceOf(ctx, x), SCRATCH)
    case Cast(_, _, x) => LoadCode(SourceOf(ctx, x), SCRATCH)
    case Load(_, _, addr) =>
      if AllocaOffset(ctx, addr) != NO_OFFSET then [] else LoadCode(SourceOf(ctx, addr), SCRATCH)
    case _ => []
  }

  predicate Defines(inst: Inst) {
    inst.ConstInt? || inst.ConstBool? || inst.Bin? || inst.Neg? || inst.Not? || inst.Cmp? || inst.Logic? ||
    inst.Cast? || inst.Alloca? || inst.Load?
  }

  /** l and r are the registers the operands are read from. */
  predicate OperandRegs(ctx: Ctx, inst: Inst, l: nat, r: nat) {
    match inst
    case Bin(_, _, x, y) => l == Lhs(ctx, x) && r == Rhs(ctx, y)
    case Cmp(_, _, x, y) => l == Lhs(ctx, x) && r == Rhs(ctx, y)
    case Logic(_, _, x, y) => l == Lhs(ctx, x) && r == Rhs(ctx, y)
    case Neg(_, x) => l == Lhs(ctx, x)
    case Not(_, x) => l == Lhs(ctx, x)
    case Cast(_, _, x) => l == Lhs(ctx, x)
    case Load(_, _, addr) => AllocaOffset(ctx, addr) != NO_OFFSET || l == Lhs(ctx, addr)
    case _ => true
  }

  function StoreInst(ctx: Ctx, val: int, addr: int): seq<Asm> {
    LoadCode(SourceOf(ctx, val), SCRATCH) +
    (if AllocaOffset(ctx, addr) != NO_OFFSET then [StrFp(Lhs(ctx, val), AllocaOffset(ctx, addr))]
     else LoadCode(SourceOf(ctx, addr), SCRATCH_ALT) + [StrReg(Lhs(ctx, val), Rhs(ctx, addr))])
  }

  function RetCode(ctx: Ctx, x: int): seq<Asm> {
    (if x >= 0 then LoadCode(SourceOf(ctx, x), SCRATCH) + (if Lhs(ctx, x) != 0 then [Mov(0, Lhs(ctx, x))] else [])
     else [])
    + [Ldp(ctx.frame), RetA]
  }

  function InstAsm(ctx: Ctx, inst: Inst): seq<Asm> {
    match inst
    case Store(val, addr) => StoreInst(ctx, val, addr)
    case Ret(x) => RetCode(ctx, x)
    case Br(c, t, e) => LoadCode(SourceOf(ctx, c), SCRATCH) + [Cbz(Lhs(ctx, c), e), Jump(t)]
    case Jmp(t) => [Jump(t)]
    case Phi(_, _, _) => []
    case HostCall(_, _, _) => []
    case Nop => [NopA]
    case _ => OperandCode(ctx, inst) + CoreCode(ctx, inst) + StoreCode(TargetOf(ctx, inst.id))
  }

  // ---- code of blocks and of the function ----

  function InstsAsm(ctx: Ctx, insts: seq<Inst>): seq<Asm> {
    if insts == [] then [] else InstsAsm(ctx, insts[..|insts| - 1]) + InstAsm(ctx, insts[|insts| - 1])
  }

  function BlocksAsm(ctx: Ctx, blocks: seq<Block>): seq<Asm> {
    if blocks == [] then []
    else
      var b := blocks[|blocks| - 1];
      BlocksAsm(ctx, blocks[..|blocks| - 1]) + [Label(b.id)] + InstsAsm(ctx, b.insts)
  }

  predicate EndsInRet(f: Function)
    requires |f.blocks| > 0
  {
    var insts := f.blocks[|f.blocks| - 1].insts;
    insts != [] && insts[|insts| - 1].Ret?
  }

  function FunctionAsm(ctx: Ctx, f: Function): seq<Asm>
    requires |f.blocks| > 0
  {
    BlocksAsm(ctx, f.blocks) + (if EndsInRet(f) then [] else [MovImm(0, 0), Ldp(ctx.frame), RetA])
  }

  // ---- the emitter ----

  class Arm64EmitCtx {
    var text: seq<Asm>
    var allocas: seq<Slot>
    var frame: nat

    constructor ()
      ensures text == [] && allocas == []
    {
      text, allocas, frame := [], [], 0;
    }

    /** Count the allocas and lay out the frame. */
    method Prescan(f: Function, maxSpill: nat)
      modifies this`allocas, this`frame
      ensures allocas == AllocaSlots(Linear(f.blocks), -16 - maxSpill)
      ensures frame == FrameSize(maxSpill, |allocas|)
    {
      allocas := [];
      var allocaOffset := -16 - maxSpill;
      var b := 0;
      while b < |f.blocks|
        invariant 0 <= b <= |f.blocks|
        invariant allocas == AllocaSlots(Linear(f.blocks[..b]), -16 - maxSpill)
        invariant allocaOffset == -16 - maxSpill - 8 * |allocas|
      {
        assert f.blocks[..b + 1][..b] == f.blocks[..b];
        allocaOffset := ScanBlock(f.blocks[b].insts, allocaOffset, -16 - maxSpill, Linear(f.blocks[..b]));
        b := b + 1;
      }
      assert f.blocks[..b] == f.blocks;
      var total := 16 + maxSpill + |allocas| * 8;
      frame := (total + 15) / 16 * 16;
    }

    method ScanBlock(insts: seq<Inst>, start: int, ghost top: int, ghost before: seq<Inst>) returns (offset: int)
      requires allocas == AllocaSlots(before, top) && start == top - 8 * |allocas|
      modifies this`allocas
      ensures allocas == AllocaSlots(before + insts, top) && offset == top - 8 * |allocas|
    {
      hide AllocaSlots;
      offset := start;
      assert before + insts[..0] == before;
      var i := 0;
      while i < |insts|
        invariant 0 <= i <= |insts|
        invariant allocas == AllocaSlots(before + insts[..i], top)
        invariant offset == top - 8 * |allocas|
      {
        NextPrefix(before, insts, i);
        AllocaSnoc(before + insts[..i], insts[i], top);
        if insts[i].Alloca? && |allocas| < MAX_ALLOCAS {
          offset := offset - 8;
          allocas := allocas + [Slot(insts[i].id, offset)];
        }
        i := i + 1;
      }
      assert insts[..i] == insts;
    }

    /** The register to read a value from; a spilled value is loaded first. */
    method LoadValue(ctx: Ctx, id: int, scratch: nat) returns (r: nat)
      modifies this`text
      ensures text == old(text) + LoadCode(SourceOf(ctx, id), scratch)
      ensures r == RegOf(SourceOf(ctx, id), scratch)
    {
      var p := 0;
      while p < |ctx.params| && p < MAX_REG_PARAMS
        invariant 0 <= p <= |ctx.params|
        invariant ParamReg(ctx.params, id, p) == ParamReg(ctx.params, id, 0)
        invariant text == old(text)
      {
        if ctx.params[p].id == id {
          return p;
        }
        p := p + 1;
      }
      var k := IndexOf(ctx.ranges, id);
      if k < 0 {
        return scratch;
      }
      var lr := ctx.ranges[k];
      if lr.reg >= 0 {
        return lr.reg;
      }
      text := text + [LdrFp(scratch, lr.spill)];
      return scratch;
    }

    method StoreIfSpilled(ctx: Ctx, id: int)
      modifies this`text
      ensures text == old(text) + StoreCode(TargetOf(ctx, id))
    {
      var k := IndexOf(ctx.ranges, id);
      if k >= 0 && ctx.ranges[k].reg < 0 && ctx.ranges[k].spill != -1 {
        text := text + [StrFp(SCRATCH, ctx.ranges[k].spill)];
      }
    }

    /** The register to compute a result in; a spilled one is computed in x16. */
    method DestReg(ctx: Ctx, id: int) returns (r: nat)
      ensures r == Dest(ctx, id)
    {
      var k := IndexOf(ctx.ranges, id);
      r := if k >= 0 && ctx.ranges[k].reg >= 0 then ctx.ranges[k].reg else SCRATCH;
    }

    method EmitOperands(ctx: Ctx, inst: Inst) returns (l: nat, r: nat)
      requires Defines(inst)
      modifies this`text
      ensures text == old(text) + OperandCode(ctx, inst) && OperandRegs(ctx, inst, l, r)
    {
      hide SourceOf;
      l, r := SCRATCH, SCRATCH_ALT;
      match inst
      case Bin(_, _, x, y) =>
        l := LoadValue(ctx, x, SCRATCH);
        r := LoadValue(ctx, y, SCRATCH_ALT);
      case Cmp(_, _, x, y) =>
        l := LoadValue(ctx, x, SCRATCH);
        r := LoadValue(ctx, y, SCRATCH_ALT);
      case Logic(_, _, x, y) =>
        l := LoadValue(ctx, x, SCRATCH);
        r := LoadValue(ctx, y, SCRATCH_ALT);
      case Neg(_, x) =>
        l := LoadValue(ctx, x, SCRATCH);
      case Not(_, x) =>
        l := LoadValue(ctx, x, SCRATCH);
      case Cast(_, _, x) =>
        l := LoadValue(ctx, x, SCRATCH);
      case Load(_, _, addr) =>
        if AllocaOffset(ctx, addr) == NO_OFFSET {
          l := LoadValue(ctx, addr, SCRATCH);
        }
      case _ =>
    }

    /** A 64-bit constant in as few moves as its chunks need. */
    method EmitMovImm64(d: nat, val: int64)
      modifies this`text
      ensures text == old(text) + MovImm64(d, val)
    {
      if -0x1_0000 <= val <= 0xFFFF {
        text := text + [MovImm(d, val)];
        return;
      }
      var u := Unsigned(val);
      text := text + [Movz(d, u % 0x1_0000)];
      ghost var sofar := [Movz(d, u % 0x1_0000)];
      for chunk := 1 to 4
        invariant text == old(text) + sofar
        invariant sofar == [Movz(d, u % 0x1_0000)] + (if chunk > 1 then OptMovk(d, u, 1) else []) +
                           (if chunk > 2 then OptMovk(d, u, 2) else []) + (if chunk > 3 then OptMovk(d, u, 3) else [])
      {
        var imm := u / Shift(chunk) % 0x1_0000;
        if imm != 0 {
          text := text + [Movk(d, imm, chunk)];
        }
        sofar := sofar + OptMovk(d, u, chunk);
      }
    }

    method EmitBin(op: BinOp, d: nat, l: nat, r: nat)
      modifies this`text
      ensures text == old(text) + BinCode(op, d, l, r)
    {
      match op
      case Add => text := text + [Arith(AAdd, d, l, r)];
      case Sub => text := text + [Arith(ASub, d, l, r)];
      case Mul => text := text + [Arith(AMul, d, l, r)];
      case Div => text := text + [Arith(ASdiv, d, l, r)];
      case Mod => text := text + [Arith(ASdiv, SCRATCH_MOD, l, r), Msub(d, SCRATCH_MOD, r, l)];
    }

    /** The address of an alloca's slot. */
    method EmitAddress(d: nat, off: int)
      modifies this`text
      ensures text == old(text) + AddressCode(d, off)
    {
      hide MovImm64;
      if 0 <= off <= 4095 {
        text := text + [AddFp(d, off)];
      } else if -4095 <= off < 0 {
        text := text + [SubFp(d, -off)];
      } else {
        EmitMovImm64(d, Wrap64(off));
        text := text + [AddFpReg(d, d)];
      }
    }

    /** The instruction itself, operands and result in registers. */
    method EmitCore(ctx: Ctx, inst: Inst, d: nat, l: nat, r: nat)
      requires Defines(inst) && d == Dest(ctx, inst.id) && OperandRegs(ctx, inst, l, r)
      modifies this`text
      ensures text == old(text) + CoreCode(ctx, inst)
    {
      hide SourceOf;
      hide TargetOf;
      hide MovImm64;
      hide AddressCode;
      hide BinCode;
      match inst
      case ConstInt(_, n) => EmitMovImm64(d, n);
      case ConstBool(_, b) => text := text + [MovImm(d, if b then 1 else 0)];
      case Bin(_, op, _, _) => EmitBin(op, d, l, r);
      case Neg(_, _) => text := text + [NegReg(d, l)];
      case Not(_, _) => text := text + [CmpZero(l), Cset(d, Eq)];
      case Cmp(_, op, _, _) => text := text + [CmpReg(l, r), Cset(d, op)];
      case Logic(_, op, _, _) => text := text + [Arith(if op == And then AAnd else AOrr, d, l, r)];
      case Cast(_, _, _) =>
        if d != l {
          text := text + [Mov(d, l)];
        }
      case Alloca(id) => EmitAddress(d, AllocaOffset(ctx, id));
      case Load(_, _, addr) =>
        var off := AllocaOffset(ctx, addr);
        text := text + [if off != NO_OFFSET then LdrFp(d, off) else LdrReg(d, l)];
    }

    method EmitStore(ctx: Ctx, val: int, addr: int)
      modifies this`text
      ensures text == old(text) + StoreInst(ctx, val, addr)
    {
      hide SourceOf;
      var valReg := LoadValue(ctx, val, SCRATCH);
      var offset := AllocaOffset(ctx, addr);
      if offset != NO_OFFSET {
        text := text + [StrFp(valReg, offset)];
      } else {
        var addrReg := LoadValue(ctx, addr, SCRATCH_ALT);
        text := text + [StrReg(valReg, addrReg)];
      }
    }

    method EmitRet(ctx: Ctx, x: int)
      modifies this`text
      ensures text == old(text) + RetCode(ctx, x)
    {
      hide SourceOf;
      if x >= 0 {
        var src := LoadValue(ctx, x, SCRATCH);
        if src != 0 {
          text := text + [Mov(0, src)];
        }
      }
      text := text + [Ldp(ctx.frame), RetA];
    }

    method EmitDefining(ctx: Ctx, inst: Inst)
      requires Defines(inst)
      modifies this`text
      ensures text == old(text) + (OperandCode(ctx, inst) + CoreCode(ctx, inst) + StoreCode(TargetOf(ctx, inst.id)))
    {
      hide OperandCode;
      hide CoreCode;
      hide StoreCode;
      var l, r := EmitOperands(ctx, inst);
      var d := DestReg(ctx, inst.id);
      EmitCore(ctx, inst, d, l, r);
      StoreIfSpilled(ctx, inst.id);
    }

    method EmitInst(ctx: Ctx, inst: Inst)
      modifies this`text
      ensures text == old(text) + InstAsm(ctx, inst)
    {
      hide OperandCode;
      hide CoreCode;
      hide StoreCode;
      hide StoreInst;
      hide RetCode;
      hide SourceOf;
      match inst
      case Store(val, addr) =>
        EmitStore(ctx, val, addr);
      case Ret(x) =>
        EmitRet(ctx, x);
      case Br(c, t, e) =>
        var cond := LoadValue(ctx, c, SCRATCH);
        text := text + [Cbz(cond, e), Jump(t)];
      case Jmp(t) =>
        text := text + [Jump(t)];
      case Phi(_, _, _) =>
      case HostCall(_, _, _) =>
      case Nop =>
        text := text + [NopA];
      case _ =>
        EmitDefining(ctx, inst);
    }

    method EmitInsts(ctx: Ctx, insts: seq<Inst>)
      modifies this`text
      ensures text == old(text) + InstsAsm(ctx, insts)
    {
      hide InstAsm;
      var i := 0;
      while i < |insts|
        invariant 0 <= i <= |insts|
        invariant text == old(text) + InstsAsm(ctx, insts[..i])
      {
        assert insts[..i + 1][..i] == insts[..i];
        EmitInst(ctx, insts[i]);
        i := i + 1;
      }
      assert insts[..i] == insts;
    }

    /** Labels, instructions and the implicit return. */
    method EmitFunction(ctx: Ctx, f: Function)
      requires |f.blocks| > 0
      modifies this`text
      ensures text == old(text) + FunctionAsm(ctx, f)
    {
      hide InstsAsm;
      var b := 0;
      while b < |f.blocks|
        invariant 0 <= b <= |f.blocks|
        invariant text == old(text) + BlocksAsm(ctx, f.blocks[..b])
      {
        assert f.blocks[..b + 1][..b] == f.blocks[..b];
        text := text + [Label(f.blocks[b].id)];
        EmitInsts(ctx, f.blocks[b].insts);
        b := b + 1;
      }
      assert f.blocks[..b] == f.blocks;
      if !EndsInRet(f) {
        text := text + [MovImm(0, 0), Ldp(ctx.frame), RetA];
      }
    }
  }
}
