/** The code of one instruction computes the instruction. */
module Arm64Steps {
  import opened Ir
  import opened Arm64
  import opened Arm64Alloc
  import opened Arm64Scan
  import opened Arm64Emit
  import opened Arm64Flow
  import opened Arm64Sim
  import opened Wrappers

  // ---- arithmetic ----

  lemma Multiple(q: nat, b: nat)
    requires b > 0
    ensures b * q >= q
    ensures b >= 2 ==> b * q >= 2 * q
  {
    if b >= 2 {
      assert b * q == 2 * q + (b - 2) * q;
    }
  }

  lemma DivBound(a: nat, b: nat)
    requires b > 0
    ensures 0 <= a / b <= a
    ensures b >= 2 ==> 2 * (a / b) <= a
  {
    assert a == b * (a / b) + a % b;
    Multiple(a / b, b);
  }

  lemma QuotientFits(a: int64, b: int64)
    requires b != 0 && !(a == -TWO_63 && b == -1)
    ensures -TWO_63 <= Quotient(a, b) < TWO_63
  {
    DivBound(if a >= 0 then a else -(a as int), if b > 0 then b else -(b as int));
  }

  lemma WholeWraps(x: int)
    requires -TWO_63 <= x < TWO_63
    ensures Wrap64(x) == x
  {
  }

  lemma Commutes(a: int, q: int, b: int)
    ensures MinusProduct(a, q, b) == a - b * q
  {
  }

  /** `sdiv` followed by `msub` is the remainder, even for MIN % -1. */
  lemma RemainderBySdiv(a: int64, b: int64)
    requires b != 0
    ensures Wrap64(MinusProduct(a, Arithmetic(ASdiv, a, b), b)) == Wrap64(Remainder(a, b))
  {
    var q := Quotient(a, b);
    if a == -TWO_63 && b == -1 {
      assert q == TWO_63 && Wrap64(q) == -TWO_63;
    } else {
      QuotientFits(a, b);
      hide Quotient;
      WholeWraps(q);
      hide Wrap64;
      Commutes(a, q, b);
      hide MinusProduct;
    }
  }

  // ---- loading operands ----

  /** A value that is not stale can be read through its source. */
  lemma SourceHolds(ctx: Ctx, insts: seq<Inst>, fp: int64, home: Homes, at: Facts, s: State, m: Machine, id: int)
    requires Good(ctx, insts) && Rel(ctx, fp, home, at, s, m) && id in s.env && id !in at.stale
    ensures Holds(m, fp, SourceOf(ctx, id), Rep(ctx, fp, home, s.env[id]))
    ensures SourceOf(ctx, id).InReg? ==> SourceOf(ctx, id).r < 16
  {
    assert ValOk(ctx, fp, home, at, m, id, s.env[id]);
    var k := IndexOf(ctx.ranges, id);
    if ParamReg(ctx.params, id, 0) < 0 {
      assert RangeHomed(ctx.ranges[k]);
    }
  }

  lemma LoadHome(h: Home, scratch: nat, m: Machine, fp: int64, x: int64) returns (m': Machine)
    requires WellFormed(m) && Holds(m, fp, h, x) && (h.InReg? ==> h.r < 16)
    requires 16 <= scratch < 18
    ensures RunSeq(LoadCode(h, scratch), m, fp) == Some(m')
    ensures ScratchOnly(m, m') && RegOf(h, scratch) < NUM_REGS && m'.regs[RegOf(h, scratch)] == x
    ensures forall r :: 0 <= r < NUM_REGS && r != scratch ==> m'.regs[r] == m.regs[r]
  {
    if h.InSlot? {
      m' := WithReg(m, scratch, x);
      RunOne(LdrFp(scratch, h.off), m, fp);
    } else {
      m' := m;
    }
  }

  lemma HoldsAfterScratch(m: Machine, m': Machine, fp: int64, h: Home, x: int64)
    requires ScratchOnly(m, m') && Holds(m, fp, h, x) && (h.InReg? ==> h.r < 16)
    ensures Holds(m', fp, h, x)
  {
  }

  lemma LoadOne(ctx: Ctx, insts: seq<Inst>, fp: int64, home: Homes, at: Facts, s: State, m: Machine, x: int)
    returns (m': Machine)
    requires Good(ctx, insts) && Rel(ctx, fp, home, at, s, m)
    requires x in s.env && x !in at.stale
    ensures RunSeq(LoadCode(SourceOf(ctx, x), SCRATCH), m, fp) == Some(m')
    ensures ScratchOnly(m, m') && Lhs(ctx, x) < NUM_REGS && m'.regs[Lhs(ctx, x)] == Rep(ctx, fp, home, s.env[x])
  {
    SourceHolds(ctx, insts, fp, home, at, s, m, x);
    m' := LoadHome(SourceOf(ctx, x), SCRATCH, m, fp, Rep(ctx, fp, home, s.env[x]));
  }

  lemma LoadTwo(ctx: Ctx, insts: seq<Inst>, fp: int64, home: Homes, at: Facts, s: State, m: Machine, l: int, r: int)
    returns (m': Machine)
    requires Good(ctx, insts) && Rel(ctx, fp, home, at, s, m)
    requires l in s.env && l !in at.stale
    requires r in s.env && r !in at.stale
    ensures RunSeq(LoadBoth(ctx, l, r), m, fp) == Some(m')
    ensures ScratchOnly(m, m')
    ensures Lhs(ctx, l) < NUM_REGS && m'.regs[Lhs(ctx, l)] == Rep(ctx, fp, home, s.env[l])
    ensures Rhs(ctx, r) < NUM_REGS && m'.regs[Rhs(ctx, r)] == Rep(ctx, fp, home, s.env[r])
  {
    var m1 := LoadOne(ctx, insts, fp, home, at, s, m, l);
    SourceHolds(ctx, insts, fp, home, at, s, m, r);
    HoldsAfterScratch(m, m1, fp, SourceOf(ctx, r), Rep(ctx, fp, home, s.env[r]));
    m' := LoadHome(SourceOf(ctx, r), SCRATCH_ALT, m1, fp, Rep(ctx, fp, home, s.env[r]));
    SourceHolds(ctx, insts, fp, home, at, s, m, l);
    RunSeqAppend(LoadCode(SourceOf(ctx, l), SCRATCH), LoadCode(SourceOf(ctx, r), SCRATCH_ALT), m, fp);
  }

  // ---- computing and storing ----

  /** Register d now holds x; other registers below 16 and memory are as before. */
  predicate Computed(m: Machine, m': Machine, d: nat, x: int64) {
    && WellFormed(m) && WellFormed(m') && m'.mem == m.mem
    && d < NUM_REGS && m'.regs[d] == x
    && (forall r :: 0 <= r < 16 && r != d ==> m'.regs[r] == m.regs[r])
  }

  /** The result goes to its home, through x16 when that is a slot. */
  lemma StoreResult(t: Home, m: Machine, m1: Machine, m2: Machine, fp: int64, x: int64) returns (m3: Machine)
    requires ScratchOnly(m, m1) && Computed(m1, m2, RegOf(t, SCRATCH), x)
    requires (t.InReg? && 9 <= t.r <= 15) || (t.InSlot? && t.off <= -16)
    ensures RunSeq(StoreCode(t), m2, fp) == Some(m3)
    ensures Touches(m, m3, fp, t) && Holds(m3, fp, t, x)
  {
    if t.InSlot? {
      m3 := m2.(mem := WriteWord(m2.mem, fp + t.off, x));
      RunOne(StrFp(SCRATCH, t.off), m2, fp);
    } else {
      m3 := m2;
    }
  }

  lemma SetComputes(i: Asm, m: Machine, m': Machine, fp: int64, d: nat, x: int64)
    requires WellFormed(m) && d < NUM_REGS && ExecAsm(i, m, fp) == Some(m') && m' == WithReg(m, d, x)
    ensures RunSeq([i], m, fp) == Some(m') && Computed(m, m', d, x)
  {
    RunOne(i, m, fp);
  }

  lemma BinCore(op: BinOp, d: nat, a: nat, b: nat, m: Machine, fp: int64, x: int64, y: int64, z: int64)
    returns (m': Machine)
    requires WellFormed(m) && d < NUM_REGS && a < 18 && b < 18
    requires m.regs[a] == x && m.regs[b] == y && EvalBin(op, x, y) == Value(IntVal(z))
    ensures RunSeq(BinCode(op, d, a, b), m, fp) == Some(m') && Computed(m, m', d, z)
  {
    if op == Mod {
      var q := Arithmetic(ASdiv, x, y);
      var m1 := WithReg(m, SCRATCH_MOD, q);
      RemainderBySdiv(x, y);
      m' := WithReg(m1, d, z);
      RunTwo(Arith(ASdiv, SCRATCH_MOD, a, b), Msub(d, SCRATCH_MOD, b, a), m, fp);
    } else {
      m' := WithReg(m, d, z);
      RunOne(BinCode(op, d, a, b)[0], m, fp);
    }
  }

  lemma SmallUnsigned(a: bool)
    ensures Unsigned(Bit(a)) == Bit(a) && Wrap64(Bit(a)) == Bit(a)
  {
  }

  lemma LogicCore(op: LogOp, d: nat, a: nat, b: nat, m: Machine, fp: int64, x: bool, y: bool) returns (m': Machine)
    requires WellFormed(m) && d < NUM_REGS && a < NUM_REGS && b < NUM_REGS
    requires m.regs[a] == Bit(x) && m.regs[b] == Bit(y)
    ensures RunSeq([Arith(if op == And then AAnd else AOrr, d, a, b)], m, fp) == Some(m')
    ensures Computed(m, m', d, Bit(if op == And then x && y else x || y))
  {
    BitOpsOnBits(x, y);
    SmallUnsigned(x);
    SmallUnsigned(y);
    SmallUnsigned(if op == And then x && y else x || y);
    hide BitAnd;
    hide BitOr;
    hide Unsigned;
    hide Wrap64;
    m' := WithReg(m, d, Bit(if op == And then x && y else x || y));
    RunOne(Arith(if op == And then AAnd else AOrr, d, a, b), m, fp);
  }

  lemma CompareCore(c: Asm, op: CmpOp, d: nat, m: Machine, fp: int64, x: int64, y: int64) returns (m': Machine)
    requires WellFormed(m) && d < NUM_REGS
    requires ExecAsm(c, m, fp) == Some(m.(cmp := (x, y)))
    ensures RunSeq([c, Cset(d, op)], m, fp) == Some(m') && Computed(m, m', d, Bit(Compare(op, x, y)))
  {
    var m1 := m.(cmp := (x, y));
    m' := WithReg(m1, d, Bit(Compare(op, x, y)));
    RunTwo(c, Cset(d, op), m, fp);
  }

  lemma MoveCore(d: nat, a: nat, m: Machine, fp: int64) returns (m': Machine)
    requires WellFormed(m) && d < NUM_REGS && a < NUM_REGS
    ensures RunSeq(if d != a then [Mov(d, a)] else [], m, fp) == Some(m') && Computed(m, m', d, m.regs[a])
  {
    if d != a {
      m' := WithReg(m, d, m.regs[a]);
      RunOne(Mov(d, a), m, fp);
    } else {
      m' := m;
    }
  }

  lemma AddressCore(d: nat, off: int, m: Machine, fp: int64) returns (m': Machine)
    requires WellFormed(m) && d < NUM_REGS && -100000 <= off <= -16
    ensures RunSeq(AddressCode(d, off), m, fp) == Some(m') && Computed(m, m', d, Wrap64(At(fp, off)))
  {
    m' := WithReg(m, d, Wrap64(At(fp, off)));
    if -4095 <= off {
      assert MinusProduct(fp, 1, -off) == At(fp, off);
      RunOne(SubFp(d, -off), m, fp);
    } else {
      assert Wrap64(off) == off;
      MovImm64Correct(m, d, off, fp);
      RunOne(AddFpReg(d, d), WithReg(m, d, off), fp);
      RunSeqAppend(MovImm64(d, off), [AddFpReg(d, d)], m, fp);
      Overwrite(m, d, off, Wrap64(At(fp, off)));
    }
  }
}
