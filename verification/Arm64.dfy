/** The ARM64 instructions the emitter uses and their meaning on sixty-four-bit
    registers and a stack frame addressed from the frame pointer. */
module Arm64 {
  import opened Ir
  import opened Wrappers

  datatype ArithOp = AAdd | ASub | AMul | ASdiv | AAnd | AOrr

  datatype Asm =
    | MovImm(d: nat, v: int64)
    | Movz(d: nat, imm: nat)
    | Movk(d: nat, imm: nat, chunk: nat)
    | Mov(d: nat, s: nat)
    | Arith(aop: ArithOp, d: nat, a: nat, b: nat)
    | Msub(d: nat, n: nat, m: nat, a: nat)        // d := a - n * m
    | NegReg(d: nat, s: nat)
    | CmpReg(a: nat, b: nat)
    | CmpZero(a: nat)
    | Cset(d: nat, cond: CmpOp)
    | LdrFp(d: nat, off: int)
    | StrFp(s: nat, off: int)
    | LdrReg(d: nat, a: nat)
    | StrReg(s: nat, a: nat)
    | AddFp(d: nat, imm: nat)
    | SubFp(d: nat, imm: nat)
    | AddFpReg(d: nat, s: nat)
    | Ldp(frame: nat)
    | NopA
    | Cbz(s: nat, lbl: int)
    | Jump(lbl: int)
    | Label(lbl: int)
    | RetA

  const NUM_REGS := 32

  /** The two operands compared last stand for the flags. */
  datatype Machine = Machine(regs: seq<int64>, mem: map<int, int64>, cmp: (int64, int64))

  predicate WellFormed(m: Machine) {
    |m.regs| == NUM_REGS
  }

  function Unsigned(x: int64): nat {
    x % TWO_64
  }

  /** 16-bit chunk positions as powers of two. */
  function Shift(chunk: nat): nat {
    if chunk == 0 then 1 else if chunk == 1 then 0x1_0000 else if chunk == 2 then 0x1_0000_0000 else 0x1_0000_0000_0000
  }

  /** Replace one 16-bit chunk of a register. */
  function Insert(x: int64, imm: nat, chunk: nat): int64 {
    var u := Unsigned(x);
    Wrap64(u - u / Shift(chunk) % 0x1_0000 * Shift(chunk) + imm * Shift(chunk))
  }

  /** `sdiv` yields zero for a zero divisor and wraps on overflow. */
  function Arithmetic(op: ArithOp, a: int64, b: int64): int64 {
    match op
    case AAdd => Wrap64(a + b)
    case ASub => Wrap64(a - b)
    case AMul => Wrap64(a * b)
    case ASdiv => if b == 0 then 0 else Wrap64(Quotient(a, b))
    case AAnd => Wrap64(BitAnd(Unsigned(a), Unsigned(b)))
    case AOrr => Wrap64(BitOr(Unsigned(a), Unsigned(b)))
  }

  /** Eight bytes at `addr`; what it overlaps elsewhere is lost. */
  function WriteWord(mem: map<int, int64>, addr: int, v: int64): map<int, int64> {
    (map a | a in mem && (a + 8 <= addr || addr + 8 <= a) :: mem[a])[addr := v]
  }

  function MinusProduct(a: int, n: int, k: int): int {
    a - n * k
  }

  function At(fp: int, off: int): int {
    fp + off
  }

  function Set(m: Machine, d: nat, v: int64): (r: Option<Machine>)
    ensures r.Some? && WellFormed(m) ==> WellFormed(r.value)
  {
    if d < |m.regs| then Some(m.(regs := m.regs[d := v])) else None
  }

  predicate Regs(m: Machine, a: nat, b: nat) {
    a < |m.regs| && b < |m.regs|
  }

  /** One instruction that does not transfer control; None: the program reads
      memory nobody wrote, or names a register that does not exist. */
  function ExecAsm(i: Asm, m: Machine, fp: int64): (r: Option<Machine>)
    ensures r.Some? && WellFormed(m) ==> WellFormed(r.value)
  {
    match i
    case MovImm(d, v) => Set(m, d, v)
    case Movz(d, imm) => Set(m, d, Wrap64(imm))
    case Movk(d, imm, chunk) => if d < |m.regs| then Set(m, d, Insert(m.regs[d], imm, chunk)) else None
    case Mov(d, s) => if s < |m.regs| then Set(m, d, m.regs[s]) else None
    case Arith(op, d, a, b) => if Regs(m, a, b) then Set(m, d, Arithmetic(op, m.regs[a], m.regs[b])) else None
    case Msub(d, n, k, a) =>
      if Regs(m, n, k) && a < |m.regs| then Set(m, d, Wrap64(MinusProduct(m.regs[a], m.regs[n], m.regs[k]))) else None
    case NegReg(d, s) => if s < |m.regs| then Set(m, d, Wrap64(MinusProduct(0, 1, m.regs[s]))) else None
    case CmpReg(a, b) => if Regs(m, a, b) then Some(m.(cmp := (m.regs[a], m.regs[b]))) else None
    case CmpZero(a) => if a < |m.regs| then Some(m.(cmp := (m.regs[a], 0))) else None
    case Cset(d, cond) => Set(m, d, Bit(Compare(cond, m.cmp.0, m.cmp.1)))
    case LdrFp(d, off) => if At(fp, off) in m.mem then Set(m, d, m.mem[At(fp, off)]) else None
    case StrFp(s, off) =>
      if s < |m.regs| then Some(m.(mem := WriteWord(m.mem, At(fp, off), m.regs[s]))) else None
    case LdrReg(d, a) => if a < |m.regs| && m.regs[a] in m.mem then Set(m, d, m.mem[m.regs[a]]) else None
    case StrReg(s, a) =>
      if Regs(m, s, a) then Some(m.(mem := WriteWord(m.mem, m.regs[a], m.regs[s]))) else None
    case AddFp(d, imm) => Set(m, d, Wrap64(At(fp, imm)))
    case SubFp(d, imm) => Set(m, d, Wrap64(MinusProduct(fp, 1, imm)))
    case AddFpReg(d, s) => if s < |m.regs| then Set(m, d, Wrap64(At(fp, m.regs[s]))) else None
    case Ldp(_) | NopA | Label(_) => Some(m)
    case Cbz(_, _) | Jump(_) | RetA => None
  }

  function FindLabel(code: seq<Asm>, lbl: int): (pc: nat)
    ensures pc <= |code|
  {
    if code == [] then 0 else if code[0] == Label(lbl) then 0 else 1 + FindLabel(code[1..], lbl)
  }

  datatype Stop = Halted(x0: int64) | Crashed | Running

  /** Run from `pc` for at most `fuel` instructions; `ret` leaves with x0. */
  function RunAsm(code: seq<Asm>, pc: nat, m: Machine, fp: int64, fuel: nat): Stop
    decreases fuel
  {
    if fuel == 0 then Running
    else if pc >= |code| then Crashed
    else
      match code[pc]
      case RetA => if |m.regs| > 0 then Halted(m.regs[0]) else Crashed
      case Jump(l) => RunAsm(code, FindLabel(code, l), m, fp, fuel - 1)
      case Cbz(s, l) =>
        if s < |m.regs| then
          RunAsm(code, if m.regs[s] == 0 then FindLabel(code, l) else pc + 1, m, fp, fuel - 1)
        else Crashed
      case i =>
        match ExecAsm(i, m, fp)
        case Some(m') => RunAsm(code, pc + 1, m', fp, fuel - 1)
        case None => Crashed
  }

  /** A sequence without transfers of control. */
  function RunSeq(code: seq<Asm>, m: Machine, fp: int64): (r: Option<Machine>)
    ensures r.Some? && WellFormed(m) ==> WellFormed(r.value)
  {
    if code == [] then Some(m)
    else
      match ExecAsm(code[0], m, fp)
      case Some(m') => RunSeq(code[1..], m', fp)
      case None => None
  }

  lemma {:induction false} RunSeqAppend(a: seq<Asm>, b: seq<Asm>, m: Machine, fp: int64)
    ensures RunSeq(a + b, m, fp) ==
            match RunSeq(a, m, fp) case Some(m') => RunSeq(b, m', fp) case None => None
  {
    if a == [] {
      assert a + b == b;
    } else {
      assert (a + b)[1..] == a[1..] + b;
      var r := ExecAsm(a[0], m, fp);
      if r.Some? {
        RunSeqAppend(a[1..], b, r.value, fp);
      }
    }
  }

  lemma RunOne(i: Asm, m: Machine, fp: int64)
    ensures RunSeq([i], m, fp) == ExecAsm(i, m, fp)
  {
    assert [i][1..] == [];
  }

  lemma RunTwo(i: Asm, j: Asm, m: Machine, fp: int64)
    ensures RunSeq([i, j], m, fp) ==
            match ExecAsm(i, m, fp) case Some(m') => ExecAsm(j, m', fp) case None => None
  {
    assert [i, j] == [i] + [j];
    RunSeqAppend([i], [j], m, fp);
    RunOne(i, m, fp);
    var r := ExecAsm(i, m, fp);
    if r.Some? {
      RunOne(j, r.value, fp);
    }
  }

  /** A stretch of the program that succeeds as a sequence is run through. */
  lemma {:induction false} RunThrough(code: seq<Asm>, pc: nat, seg: seq<Asm>, m: Machine, m': Machine, fp: int64, fuel: nat)
    requires pc + |seg| <= |code| && code[pc..pc + |seg|] == seg
    requires RunSeq(seg, m, fp) == Some(m')
    ensures RunAsm(code, pc, m, fp, |seg| + fuel) == RunAsm(code, pc + |seg|, m', fp, fuel)
    decreases |seg|
  {
    if seg != [] {
      assert code[pc] == code[pc..pc + |seg|][0] == seg[0];
      var mid := ExecAsm(seg[0], m, fp).value;
      assert code[pc + 1..pc + |seg|] == code[pc..pc + |seg|][1..] == seg[1..];
      RunThrough(code, pc + 1, seg[1..], mid, m', fp, fuel);
    }
  }

  // ---- moving a 64-bit constant into a register ----

  function MovImm64(d: nat, val: int64): seq<Asm> {
    if 0 <= val <= 0xFFFF then [MovImm(d, val)]
    else if -0x1_0000 <= val < 0 then [MovImm(d, val)]
    else [Movz(d, Unsigned(val) % 0x1_0000)] + OptMovk(d, Unsigned(val), 1) + OptMovk(d, Unsigned(val), 2)
         + OptMovk(d, Unsigned(val), 3)
  }

  /** A zero chunk needs no instruction. */
  function OptMovk(d: nat, u: nat, chunk: nat): seq<Asm> {
    var imm := u / Shift(chunk) % 0x1_0000;
    if imm != 0 then [Movk(d, imm, chunk)] else []
  }

  /** The low chunks of a constant, the rest zero. */
  function Low(u: nat, chunks: nat): nat {
    if chunks == 1 then u % Shift(1) else if chunks == 2 then u % Shift(2) else if chunks == 3 then u % Shift(3) else u
  }

  lemma LowStep(u: nat, chunk: nat)
    requires u < TWO_64 && 1 <= chunk <= 3
    ensures Low(u, chunk + 1) == Low(u, chunk) + u / Shift(chunk) % 0x1_0000 * Shift(chunk)
    ensures 0 <= Low(u, chunk) < Shift(chunk)
    ensures Low(u, chunk + 1) < TWO_64
  {
    if chunk == 1 {
      var q := u / 0x1_0000;
      assert u == 0x1_0000 * q + u % 0x1_0000;
      assert u / 0x1_0000_0000 == q / 0x1_0000;
      assert q == 0x1_0000 * (q / 0x1_0000) + q % 0x1_0000;
    } else if chunk == 2 {
      var q := u / 0x1_0000_0000;
      assert u == 0x1_0000_0000 * q + u % 0x1_0000_0000;
      assert u / 0x1_0000_0000_0000 == q / 0x1_0000;
      assert q == 0x1_0000 * (q / 0x1_0000) + q % 0x1_0000;
    } else {
      var q := u / 0x1_0000_0000_0000;
      assert u == 0x1_0000_0000_0000 * q + u % 0x1_0000_0000_0000;
      assert q < 0x1_0000;
    }
  }

  /** Inserting the next chunk into a register that holds the lower ones. */
  lemma InsertStep(u: nat, chunk: nat)
    requires u < TWO_64 && 1 <= chunk <= 3
    ensures Insert(Wrap64(Low(u, chunk)), u / Shift(chunk) % 0x1_0000, chunk) == Wrap64(Low(u, chunk + 1))
  {
    LowStep(u, chunk);
    var x := Low(u, chunk);
    assert x < TWO_64;
    hide Low;
    assert x / Shift(chunk) == 0;
    hide Shift;
    UnsignedWraps(x);
    hide Wrap64;
    hide Unsigned;
  }

  lemma UnsignedWraps(x: nat)
    requires x < TWO_64
    ensures Unsigned(Wrap64(x)) == x
  {
  }

  /** One optional movk. */
  lemma MovkStep(m: Machine, d: nat, u: nat, chunk: nat, fp: int64)
    requires d < |m.regs| && u < TWO_64 && 1 <= chunk <= 3 && m.regs[d] == Wrap64(Low(u, chunk))
    ensures RunSeq(OptMovk(d, u, chunk), m, fp) == Some(WithReg(m, d, Wrap64(Low(u, chunk + 1))))
  {
    var imm := u / Shift(chunk) % 0x1_0000;
    InsertStep(u, chunk);
    LowStep(u, chunk);
    if imm != 0 {
      RunOne(Movk(d, imm, chunk), m, fp);
    } else {
      assert m.regs[d := Wrap64(Low(u, chunk + 1))] == m.regs;
    }
  }

  /** MAIN RESULT for constants: every 64-bit constant is built exactly. */
  lemma MovImm64Correct(m: Machine, d: nat, val: int64, fp: int64)
    requires d < |m.regs|
    ensures RunSeq(MovImm64(d, val), m, fp) == Some(WithReg(m, d, val))
  {
    if -0x1_0000 <= val <= 0xFFFF {
      RunOne(MovImm(d, val), m, fp);
    } else {
      SameNumber(val);
      hide RunSeq;
      hide OptMovk;
      hide Unsigned;
      hide Wrap64;
      MovSeqCorrect(m, d, Unsigned(val), fp);
    }
  }

  lemma SameNumber(x: int64)
    ensures Wrap64(Unsigned(x)) == x && Unsigned(x) < TWO_64
  {
  }

  lemma MovSeqCorrect(m: Machine, d: nat, u: nat, fp: int64)
    requires d < |m.regs| && u < TWO_64
    ensures RunSeq([Movz(d, u % 0x1_0000)] + OptMovk(d, u, 1) + OptMovk(d, u, 2) + OptMovk(d, u, 3), m, fp) ==
            Some(WithReg(m, d, Wrap64(u)))
  {
    hide RunSeq;
    hide ExecAsm;
    hide OptMovk;
    MovzStep(m, d, u, fp);
    MovkChain(m, d, u, 1, fp);
    MovkChain(m, d, u, 2, fp);
    MovkChain(m, d, u, 3, fp);
    RunFour([Movz(d, u % 0x1_0000)], OptMovk(d, u, 1), OptMovk(d, u, 2), OptMovk(d, u, 3), m,
            WithReg(m, d, Wrap64(Low(u, 1))), WithReg(m, d, Wrap64(Low(u, 2))), WithReg(m, d, Wrap64(Low(u, 3))),
            WithReg(m, d, Wrap64(u)), fp);
  }

  function WithReg(m: Machine, d: nat, v: int64): Machine
    requires d < |m.regs|
  {
    m.(regs := m.regs[d := v])
  }

  lemma Overwrite(m: Machine, d: nat, v: int64, v': int64)
    requires d < |m.regs|
    ensures WithReg(WithReg(m, d, v), d, v') == WithReg(m, d, v')
  {
    assert m.regs[d := v][d := v'] == m.regs[d := v'];
  }

  /** One optional movk after the lower chunks. */
  lemma MovkChain(m: Machine, d: nat, u: nat, chunk: nat, fp: int64)
    requires d < |m.regs| && u < TWO_64 && 1 <= chunk <= 3
    ensures RunSeq(OptMovk(d, u, chunk), WithReg(m, d, Wrap64(Low(u, chunk))), fp) ==
            Some(WithReg(m, d, Wrap64(Low(u, chunk + 1))))
  {
    hide RunSeq;
    MovkStep(WithReg(m, d, Wrap64(Low(u, chunk))), d, u, chunk, fp);
    Overwrite(m, d, Wrap64(Low(u, chunk)), Wrap64(Low(u, chunk + 1)));
  }

  lemma MovzStep(m: Machine, d: nat, u: nat, fp: int64)
    requires d < |m.regs| && u < TWO_64
    ensures RunSeq([Movz(d, u % 0x1_0000)], m, fp) == Some(WithReg(m, d, Wrap64(Low(u, 1))))
  {
    RunOne(Movz(d, u % 0x1_0000), m, fp);
  }

  lemma RunFour(a: seq<Asm>, b: seq<Asm>, c: seq<Asm>, d: seq<Asm>,
                m: Machine, m1: Machine, m2: Machine, m3: Machine, m4: Machine, fp: int64)
    requires RunSeq(a, m, fp) == Some(m1) && RunSeq(b, m1, fp) == Some(m2)
    requires RunSeq(c, m2, fp) == Some(m3) && RunSeq(d, m3, fp) == Some(m4)
    ensures RunSeq(a + b + c + d, m, fp) == Some(m4)
  {
    hide RunSeq;
    RunSeqAppend(a, b, m, fp);
    RunSeqAppend(a + b, c, m, fp);
    RunSeqAppend(a + b + c, d, m, fp);
  }
}
