/** The emitted ARM64 code means what the control-flow graph means. */
module Arm64Correct {
  import opened Ir
  import opened Arm64
  import opened Arm64Alloc
  import opened Arm64Scan
  import opened Arm64Emit
  import opened Arm64Flow
  import opened Arm64Sim
  import opened Arm64Steps
  import opened Wrappers

  // ---- instructions that define a value ----

  lemma PureUnary(ctx: Ctx, insts: seq<Inst>, fp: int64, home: Homes, p: nat, at: Facts, s: State, m: Machine, v: Val)
    returns (m1: Machine, m2: Machine)
    requires Good(ctx, insts) && p < |insts| && Ready(ctx, at, insts[p]) && Rel(ctx, fp, home, at, s, m)
    requires insts[p].Neg? || insts[p].Not? || insts[p].Cast?
    requires EvalPure(insts[p], s.env) == Value(v) && Dest(ctx, insts[p].id) < NUM_REGS
    ensures RunSeq(OperandCode(ctx, insts[p]), m, fp) == Some(m1) && ScratchOnly(m, m1)
    ensures RunSeq(CoreCode(ctx, insts[p]), m1, fp) == Some(m2)
    ensures Computed(m1, m2, Dest(ctx, insts[p].id), Rep(ctx, fp, home, v)) && !v.PtrVal?
  {
    hide Good;
    hide RunSeq;
    var inst := insts[p];
    var d, x := Dest(ctx, inst.id), inst.arg;
    assert ValOk(ctx, fp, home, at, m, x, s.env[x]);
    m1 := LoadOne(ctx, insts, fp, home, at, s, m, x);
    hide Rel;
    var a := Lhs(ctx, x);
    match inst
    case Neg(_, _) =>
      m2 := WithReg(m1, d, Wrap64(0 - s.env[x].n));
      assert MinusProduct(0, 1, m1.regs[a]) == 0 - s.env[x].n;
      SetComputes(NegReg(d, a), m1, m2, fp, d, Wrap64(0 - s.env[x].n));
    case Not(_, _) =>
      m2 := CompareCore(CmpZero(a), Eq, d, m1, fp, m1.regs[a], 0);
    case Cast(_, _, _) =>
      m2 := MoveCore(d, a, m1, fp);
  }

  lemma PureBinary(ctx: Ctx, insts: seq<Inst>, fp: int64, home: Homes, p: nat, at: Facts, s: State, m: Machine, v: Val)
    returns (m1: Machine, m2: Machine)
    requires Good(ctx, insts) && p < |insts| && Ready(ctx, at, insts[p]) && Rel(ctx, fp, home, at, s, m)
    requires insts[p].Bin? || insts[p].Cmp? || insts[p].Logic?
    requires EvalPure(insts[p], s.env) == Value(v) && Dest(ctx, insts[p].id) < NUM_REGS
    ensures RunSeq(OperandCode(ctx, insts[p]), m, fp) == Some(m1) && ScratchOnly(m, m1)
    ensures RunSeq(CoreCode(ctx, insts[p]), m1, fp) == Some(m2)
    ensures Computed(m1, m2, Dest(ctx, insts[p].id), Rep(ctx, fp, home, v)) && !v.PtrVal?
  {
    hide Good;
    hide RunSeq;
    hide BinCode;
    var inst := insts[p];
    var d, l, r := Dest(ctx, inst.id), inst.lhs, inst.rhs;
    assert ValOk(ctx, fp, home, at, m, l, s.env[l]) && ValOk(ctx, fp, home, at, m, r, s.env[r]);
    ScratchRegs(ctx, insts, fp, home, at, s, m, l);
    ScratchRegs(ctx, insts, fp, home, at, s, m, r);
    m1 := LoadTwo(ctx, insts, fp, home, at, s, m, l, r);
    hide Rel;
    var a, b := Lhs(ctx, l), Rhs(ctx, r);
    match inst
    case Bin(_, op, _, _) =>
      m2 := BinCore(op, d, a, b, m1, fp, s.env[l].n, s.env[r].n, v.n);
    case Cmp(_, op, _, _) =>
      m2 := CompareCore(CmpReg(a, b), op, d, m1, fp, m1.regs[a], m1.regs[b]);
    case Logic(_, op, _, _) =>
      m2 := LogicCore(op, d, a, b, m1, fp, s.env[l].b, s.env[r].b);
  }

  lemma ScratchRegs(ctx: Ctx, insts: seq<Inst>, fp: int64, home: Homes, at: Facts, s: State, m: Machine, x: int)
    requires Good(ctx, insts) && Rel(ctx, fp, home, at, s, m)
    requires x in s.env && x !in at.stale
    ensures Lhs(ctx, x) < 18 && Rhs(ctx, x) < 18
  {
    SourceHolds(ctx, insts, fp, home, at, s, m, x);
  }

  lemma PureCode(ctx: Ctx, insts: seq<Inst>, fp: int64, home: Homes, p: nat, at: Facts, s: State, m: Machine, v: Val)
    returns (m1: Machine, m2: Machine)
    requires Good(ctx, insts) && p < |insts| && Ready(ctx, at, insts[p]) && Rel(ctx, fp, home, at, s, m)
    requires EvalPure(insts[p], s.env) == Value(v) && Dest(ctx, insts[p].id) < NUM_REGS
    ensures RunSeq(OperandCode(ctx, insts[p]), m, fp) == Some(m1) && ScratchOnly(m, m1)
    ensures RunSeq(CoreCode(ctx, insts[p]), m1, fp) == Some(m2)
    ensures Computed(m1, m2, Dest(ctx, insts[p].id), Rep(ctx, fp, home, v)) && !v.PtrVal?
  {
    var inst := insts[p];
    var d := Dest(ctx, inst.id);
    match inst
    case ConstInt(_, n) =>
      m1 := m;
      m2 := WithReg(m, d, n);
      MovImm64Correct(m, d, n, fp);
    case ConstBool(_, b) =>
      m1 := m;
      m2 := WithReg(m, d, Bit(b));
      SetComputes(MovImm(d, Bit(b)), m, m2, fp, d, Bit(b));
    case Bin(_, _, _, _) =>
      m1, m2 := PureBinary(ctx, insts, fp, home, p, at, s, m, v);
    case Cmp(_, _, _, _) =>
      m1, m2 := PureBinary(ctx, insts, fp, home, p, at, s, m, v);
    case Logic(_, _, _, _) =>
      m1, m2 := PureBinary(ctx, insts, fp, home, p, at, s, m, v);
    case _ =>
      m1, m2 := PureUnary(ctx, insts, fp, home, p, at, s, m, v);
  }

  /** A pointer read from a value is the address of the slot of its cell. */
  lemma PointerAddress(ctx: Ctx, insts: seq<Inst>, fp: int64, home: Homes, at: Facts, s: State, m: Machine, c: nat)
    requires Good(ctx, insts) && Rel(ctx, fp, home, at, s, m) && FrameFits(fp) && c in home
    ensures FindSlot(ctx.allocas, home[c]) >= 0
    ensures var off := ctx.allocas[FindSlot(ctx.allocas, home[c])].off;
            -100000 <= off <= -16 && Rep(ctx, fp, home, PtrVal(c)) == fp + off
  {
    assert HomeOk(ctx, home, at, s.next, c);
    assert SlotOk(ctx, FindSlot(ctx.allocas, home[c]));
  }

  lemma LoadInst(ctx: Ctx, insts: seq<Inst>, fp: int64, home: Homes, p: nat, at: Facts, s: State, m: Machine, c: nat)
    returns (m1: Machine, m2: Machine)
    requires Good(ctx, insts) && p < |insts| && Ready(ctx, at, insts[p]) && Rel(ctx, fp, home, at, s, m) && FrameFits(fp)
    requires insts[p].Load? && Dest(ctx, insts[p].id) < NUM_REGS
    requires Get(s.env, insts[p].addr) == Some(PtrVal(c)) && c in s.cells
    ensures RunSeq(OperandCode(ctx, insts[p]), m, fp) == Some(m1) && ScratchOnly(m, m1)
    ensures RunSeq(CoreCode(ctx, insts[p]), m1, fp) == Some(m2)
    ensures Computed(m1, m2, Dest(ctx, insts[p].id), Rep(ctx, fp, home, s.cells[c]))
    ensures Valid(home, s.cells[c]) && (s.cells[c].PtrVal? ==> at.escaped)
  {
    var d, addr := Dest(ctx, insts[p].id), insts[p].addr;
    var x := Rep(ctx, fp, home, s.cells[c]);
    assert ValOk(ctx, fp, home, at, m, addr, s.env[addr]);
    assert CellOk(ctx, fp, home, at, s.next, m, c, s.cells[c]);
    PointerAddress(ctx, insts, fp, home, at, s, m, c);
    if AllocaOffset(ctx, addr) != NO_OFFSET {
      m1 := m;
      m2 := WithReg(m1, d, x);
      SetComputes(LdrFp(d, AllocaOffset(ctx, addr)), m1, m2, fp, d, x);
    } else {
      m1 := LoadOne(ctx, insts, fp, home, at, s, m, addr);
      m2 := WithReg(m1, d, x);
      SetComputes(LdrReg(d, Lhs(ctx, addr)), m1, m2, fp, d, x);
    }
  }

  lemma TargetHomed(ctx: Ctx, insts: seq<Inst>, p: nat)
    requires Good(ctx, insts) && p < |insts| && insts[p].Result() >= 0
    ensures var t := TargetOf(ctx, insts[p].Result());
            (t.InReg? && 9 <= t.r <= 15) || (t.InSlot? && t.off <= -16)
    ensures Dest(ctx, insts[p].Result()) < NUM_REGS
  {
    assert DefOk(ctx, insts, p);
    assert RangeHomed(ctx.ranges[IndexOf(ctx.ranges, insts[p].Result())]);
  }

  lemma DefiningCode(ctx: Ctx, inst: Inst, m: Machine, m1: Machine, m2: Machine, fp: int64, x: int64) returns (m3: Machine)
    requires Defines(inst)
    requires RunSeq(OperandCode(ctx, inst), m, fp) == Some(m1) && ScratchOnly(m, m1)
    requires RunSeq(CoreCode(ctx, inst), m1, fp) == Some(m2) && Computed(m1, m2, Dest(ctx, inst.id), x)
    requires var t := TargetOf(ctx, inst.id); (t.InReg? && 9 <= t.r <= 15) || (t.InSlot? && t.off <= -16)
    ensures RunSeq(InstAsm(ctx, inst), m, fp) == Some(m3)
    ensures Touches(m, m3, fp, TargetOf(ctx, inst.id)) && Holds(m3, fp, TargetOf(ctx, inst.id), x)
  {
    var t := TargetOf(ctx, inst.id);
    m3 := StoreResult(t, m, m1, m2, fp, x);
    hide RunSeq;
    hide OperandCode;
    hide CoreCode;
    hide StoreCode;
    RunSeqAppend(OperandCode(ctx, inst), CoreCode(ctx, inst), m, fp);
    RunSeqAppend(OperandCode(ctx, inst) + CoreCode(ctx, inst), StoreCode(t), m, fp);
  }

  lemma SimPure(ctx: Ctx, insts: seq<Inst>, fp: int64, home: Homes, p: nat, at: Facts, s: State, m: Machine, v: Val)
    returns (m': Machine)
    requires Good(ctx, insts) && p < |insts| && Ready(ctx, at, insts[p]) && Rel(ctx, fp, home, at, s, m)
    requires insts[p].Result() >= 0 && EvalPure(insts[p], s.env) == Value(v)
    ensures RunSeq(InstAsm(ctx, insts[p]), m, fp) == Some(m')
    ensures Rel(ctx, fp, home, AfterInst(ctx, at, insts[p]), Define(s, insts[p].Result(), v), m')
  {
    hide RunSeq;
    hide InstAsm;
    hide OperandCode;
    hide CoreCode;
    hide Touches;
    hide Good;
    hide Rel;
    TargetHomed(ctx, insts, p);
    var m1, m2 := PureCode(ctx, insts, fp, home, p, at, s, m, v);
    m' := DefiningCode(ctx, insts[p], m, m1, m2, fp, Rep(ctx, fp, home, v));
    AfterDef(ctx, insts, fp, home, p, at, s, m, m', v);
  }

  /** An instruction that defines a value, executed by its code. */
  lemma SimDefining(ctx: Ctx, insts: seq<Inst>, fp: int64, home: Homes, f: Function, w: World, p: nat,
                    at: Facts, s: State, m: Machine, s': State) returns (home': Homes, m': Machine)
    requires Good(ctx, insts) && p < |insts| && Ready(ctx, at, insts[p]) && Rel(ctx, fp, home, at, s, m) && FrameFits(fp)
    requires Defines(insts[p]) && insts[p].id >= 0 && Exec(f, w, insts[p], s) == Next(s')
    ensures RunSeq(InstAsm(ctx, insts[p]), m, fp) == Some(m')
    ensures Rel(ctx, fp, home', AfterInst(ctx, at, insts[p]), s', m')
  {
    hide RunSeq;
    hide InstAsm;
    hide OperandCode;
    hide CoreCode;
    hide Touches;
    var inst := insts[p];
    home' := home;
    if inst.Alloca? {
      TargetHomed(ctx, insts, p);
      HomesBelow(ctx, fp, home, at, s, m);
      var m1, m2 := AllocaInst(ctx, insts, fp, p, m);
      m' := DefiningCode(ctx, inst, m, m1, m2, fp, Wrap64(SlotAddress(ctx, fp, inst.id)));
      home' := AfterAlloca(ctx, insts, fp, home, p, at, s, m, m');
    } else if inst.Load? {
      TargetHomed(ctx, insts, p);
      var c := s.env[inst.addr].cell;
      var m1, m2 := LoadInst(ctx, insts, fp, home, p, at, s, m, c);
      m' := DefiningCode(ctx, inst, m, m1, m2, fp, Rep(ctx, fp, home, s.cells[c]));
      AfterDef(ctx, insts, fp, home, p, at, s, m, m', s.cells[c]);
    } else {
      hide Good;
      hide Rel;
      m' := SimPure(ctx, insts, fp, home, p, at, s, m, EvalPure(inst, s.env).v);
    }
  }

  // ---- stores ----

  /** Writing the slot of cell c changes nothing else that matters. */
  lemma AfterStore(ctx: Ctx, insts: seq<Inst>, fp: int64, home: Homes, at: Facts, s: State, m: Machine,
                   m1: Machine, m': Machine, c: nat, v: Val)
    requires Good(ctx, insts) && Rel(ctx, fp, home, at, s, m) && c in home && Valid(home, v) && (v.PtrVal? ==> at.escaped)
    requires ScratchOnly(m, m1) && FindSlot(ctx.allocas, home[c]) >= 0
    requires m' == m1.(mem := WriteWord(m1.mem, SlotAddress(ctx, fp, home[c]), Rep(ctx, fp, home, v)))
    ensures Rel(ctx, fp, home, at, s.(cells := s.cells[c := v]), m')
  {
    var s' := s.(cells := s.cells[c := v]);
    var a := FindSlot(ctx.allocas, home[c]);
    assert SlotOk(ctx, a);
    forall id {:trigger s'.env[id]} | id in s'.env
      ensures ValOk(ctx, fp, home, at, m', id, s'.env[id])
    {
      assert ValOk(ctx, fp, home, at, m, id, s.env[id]);
      var k := IndexOf(ctx.ranges, id);
      if k >= 0 {
        assert RangeHomed(ctx.ranges[k]);
      }
    }
    forall d {:trigger s'.cells[d]} | d in s'.cells
      ensures CellOk(ctx, fp, home, at, s'.next, m', d, s'.cells[d])
    {
      if d != c {
        assert CellOk(ctx, fp, home, at, s.next, m, d, s.cells[d]);
        if d in home {
          assert SlotOk(ctx, FindSlot(ctx.allocas, home[d]));
        }
      } else {
        assert HomeOk(ctx, home, at, s.next, c);
      }
    }
    forall d {:trigger HomeOk(ctx, home, at, s'.next, d)} | d in home
      ensures HomeOk(ctx, home, at, s'.next, d)
    {
      assert HomeOk(ctx, home, at, s.next, d);
    }
  }

  lemma StoreAtOffset(reg: nat, off: int, m: Machine, m1: Machine, fp: int64, load: seq<Asm>, v: int64)
    returns (m': Machine)
    requires RunSeq(load, m, fp) == Some(m1) && reg < |m1.regs| && m1.regs[reg] == v
    ensures RunSeq(load + [StrFp(reg, off)], m, fp) == Some(m')
    ensures m' == m1.(mem := WriteWord(m1.mem, fp + off, v))
  {
    m' := m1.(mem := WriteWord(m1.mem, fp + off, v));
    RunOne(StrFp(reg, off), m1, fp);
    RunSeqAppend(load, [StrFp(reg, off)], m, fp);
  }

  lemma StoreThroughPointer(reg: nat, addr: nat, m: Machine, m1: Machine, fp: int64, load: seq<Asm>, v: int64)
    returns (m': Machine)
    requires RunSeq(load, m, fp) == Some(m1) && Regs(m1, reg, addr) && m1.regs[reg] == v
    ensures RunSeq(load + [StrReg(reg, addr)], m, fp) == Some(m')
    ensures m' == m1.(mem := WriteWord(m1.mem, m1.regs[addr], v))
  {
    m' := m1.(mem := WriteWord(m1.mem, m1.regs[addr], v));
    RunOne(StrReg(reg, addr), m1, fp);
    RunSeqAppend(load, [StrReg(reg, addr)], m, fp);
  }

  lemma StoreRuns(ctx: Ctx, insts: seq<Inst>, fp: int64, home: Homes, p: nat, at: Facts, s: State, m: Machine, c: nat)
    returns (m1: Machine, m': Machine)
    requires Good(ctx, insts) && p < |insts| && Ready(ctx, at, insts[p]) && Rel(ctx, fp, home, at, s, m) && FrameFits(fp)
    requires insts[p].Store? && insts[p].val in s.env && Get(s.env, insts[p].addr) == Some(PtrVal(c))
    ensures c in home && FindSlot(ctx.allocas, home[c]) >= 0 && ScratchOnly(m, m1)
    ensures m' == m1.(mem := WriteWord(m1.mem, SlotAddress(ctx, fp, home[c]), Rep(ctx, fp, home, s.env[insts[p].val])))
    ensures RunSeq(StoreInst(ctx, insts[p].val, insts[p].addr), m, fp) == Some(m')
  {
    hide SourceOf;
    hide Good;
    hide RunSeq;
    hide WriteWord;
    hide Holds;
    hide IndexOf;
    hide HomeOfRange;
    var val, addr := insts[p].val, insts[p].addr;
    var v := s.env[val];
    assert ValOk(ctx, fp, home, at, m, addr, s.env[addr]) && ValOk(ctx, fp, home, at, m, val, v);
    PointerAddress(ctx, insts, fp, home, at, s, m, c);
    if AllocaOffset(ctx, addr) != NO_OFFSET {
      m1 := LoadOne(ctx, insts, fp, home, at, s, m, val);
      hide Rel;
      m' := StoreAtOffset(Lhs(ctx, val), AllocaOffset(ctx, addr), m, m1, fp, LoadCode(SourceOf(ctx, val), SCRATCH),
                       Rep(ctx, fp, home, v));
    } else {
      m1 := LoadTwo(ctx, insts, fp, home, at, s, m, val, addr);
      hide Rel;
      hide LoadCode;
      m' := StoreThroughPointer(Lhs(ctx, val), Rhs(ctx, addr), m, m1, fp, LoadBoth(ctx, val, addr), Rep(ctx, fp, home, v));
      assert StoreInst(ctx, val, addr) == LoadBoth(ctx, val, addr) + [StrReg(Lhs(ctx, val), Rhs(ctx, addr))];
    }
  }

  /** A store of a pointer marks that pointers are stored from now on. */
  lemma SimStore(ctx: Ctx, insts: seq<Inst>, fp: int64, home: Homes, p: nat, at: Facts, s: State, m: Machine, c: nat)
    returns (m': Machine)
    requires Good(ctx, insts) && p < |insts| && Ready(ctx, at, insts[p]) && Rel(ctx, fp, home, at, s, m) && FrameFits(fp)
    requires insts[p].Store? && insts[p].val in s.env && Get(s.env, insts[p].addr) == Some(PtrVal(c))
    ensures RunSeq(InstAsm(ctx, insts[p]), m, fp) == Some(m')
    ensures Rel(ctx, fp, home, AfterInst(ctx, at, insts[p]), s.(cells := s.cells[c := s.env[insts[p].val]]), m')
  {
    hide Good;
    hide RunSeq;
    hide StoreInst;
    hide ScratchOnly;
    var m1;
    m1, m' := StoreRuns(ctx, insts, fp, home, p, at, s, m, c);
    assert ValOk(ctx, fp, home, at, m, insts[p].val, s.env[insts[p].val]);
    var at' := AfterInst(ctx, at, insts[p]);
    assert Leq(at, at') && (s.env[insts[p].val].PtrVal? ==> at'.escaped);
    RelWeaken(ctx, fp, home, at, at', s, m);
    AfterStore(ctx, insts, fp, home, at', s, m, m1, m', c, s.env[insts[p].val]);
  }

  /** Any instruction that continues with the next one. */
  lemma SimNext(ctx: Ctx, insts: seq<Inst>, fp: int64, home: Homes, f: Function, w: World, p: nat,
                at: Facts, s: State, m: Machine, s': State) returns (home': Homes, m': Machine)
    requires Good(ctx, insts) && p < |insts| && Ready(ctx, at, insts[p]) && Rel(ctx, fp, home, at, s, m) && FrameFits(fp)
    requires Defines(insts[p]) ==> insts[p].id >= 0
    requires Exec(f, w, insts[p], s) == Next(s')
    ensures RunSeq(InstAsm(ctx, insts[p]), m, fp) == Some(m')
    ensures Rel(ctx, fp, home', AfterInst(ctx, at, insts[p]), s', m')
  {
    hide RunSeq;
    hide Good;
    hide Rel;
    var inst := insts[p];
    home' := home;
    if inst.Store? {
      hide InstAsm;
      m' := SimStore(ctx, insts, fp, home, p, at, s, m, s.env[inst.addr].cell);
    } else if inst.Phi? || inst.Nop? {
      m' := m;
      RunNothing(m, fp);
    } else {
      hide InstAsm;
      home', m' := SimDefining(ctx, insts, fp, home, f, w, p, at, s, m, s');
    }
  }

  lemma RunNothing(m: Machine, fp: int64)
    ensures RunSeq([], m, fp) == Some(m) && RunSeq([NopA], m, fp) == Some(m)
  {
    RunOne(NopA, m, fp);
  }

  lemma HomesBelow(ctx: Ctx, fp: int64, home: Homes, at: Facts, s: State, m: Machine)
    requires Rel(ctx, fp, home, at, s, m)
    ensures forall c <- home :: c < s.next
  {
    forall c <- home
      ensures c < s.next
    {
      assert HomeOk(ctx, home, at, s.next, c);
    }
  }

  lemma AllocaInst(ctx: Ctx, insts: seq<Inst>, fp: int64, p: nat, m: Machine) returns (m1: Machine, m2: Machine)
    requires Good(ctx, insts) && p < |insts| && insts[p].Alloca? && insts[p].id >= 0 && WellFormed(m)
    requires Dest(ctx, insts[p].id) < NUM_REGS
    ensures FindSlot(ctx.allocas, insts[p].id) >= 0
    ensures RunSeq(OperandCode(ctx, insts[p]), m, fp) == Some(m1) && ScratchOnly(m, m1)
    ensures RunSeq(CoreCode(ctx, insts[p]), m1, fp) == Some(m2)
    ensures Computed(m1, m2, Dest(ctx, insts[p].id), Wrap64(SlotAddress(ctx, fp, insts[p].id)))
  {
    assert insts[p].Result() == insts[p].id;
    assert DefOk(ctx, insts, p);
    assert SlotOk(ctx, FindSlot(ctx.allocas, insts[p].id));
    m1 := m;
    m2 := AddressCore(Dest(ctx, insts[p].id), AllocaOffset(ctx, insts[p].id), m, fp);
  }
}
