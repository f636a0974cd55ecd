/** Whole functions: the emitted program returns what the control-flow graph
    returns. */
module Arm64Run {
  import opened Ir
  import opened Arm64
  import opened Arm64Alloc
  import opened Arm64Emit
  import opened Arm64Flow
  import opened Arm64Scan
  import opened Arm64Sim
  import opened Arm64Steps
  import opened Arm64Correct
  import opened Arm64Layout
  import opened Wrappers

  // ---- functions covered ----

  /** Within the emitter's limits, and returning a scalar. */
  predicate Fits(f: Function) {
    BlocksNumbered(f) && f.ret != Ptr && WithinLimits(f.params, Linear(f.blocks))
  }

  /** No instruction that can be reached reads a stale value or executes an
      alloca again after a pointer was stored, and there are no calls and no
      phis. Branches may go anywhere. */
  predicate Lowerable(f: Function, facts: seq<Facts>) {
    Fits(f) && Consistent(f, facts)
  }

  // ---- where the code of an instruction is ----

  predicate Segment(code: seq<Asm>, pc: nat, seg: seq<Asm>) {
    pc + |seg| <= |code| && code[pc..pc + |seg|] == seg
  }

  lemma {:induction false} InstsPrefix(ctx: Ctx, insts: seq<Inst>, n: nat)
    requires n <= |insts|
    ensures InstsAsm(ctx, insts[..n]) <= InstsAsm(ctx, insts)
  {
    hide InstAsm;
    if n < |insts| {
      InstsPrefix(ctx, insts[..|insts| - 1], n);
      assert insts[..|insts| - 1][..n] == insts[..n];
    } else {
      assert insts[..n] == insts;
    }
  }

  lemma {:induction false} BlocksPrefix(ctx: Ctx, blocks: seq<Block>, n: nat)
    requires n <= |blocks|
    ensures BlocksAsm(ctx, blocks[..n]) <= BlocksAsm(ctx, blocks)
    ensures Linear(blocks[..n]) <= Linear(blocks)
  {
    hide InstsAsm;
    if n < |blocks| {
      BlocksPrefix(ctx, blocks[..|blocks| - 1], n);
      assert blocks[..|blocks| - 1][..n] == blocks[..n];
    } else {
      assert blocks[..n] == blocks;
    }
  }

  function BlockStart(ctx: Ctx, f: Function, k: nat): nat
    requires k <= |f.blocks|
  {
    |BlocksAsm(ctx, f.blocks[..k])|
  }

  /** The position of the code of instruction i of block k, and its number. */
  function PcAt(ctx: Ctx, f: Function, k: nat, i: nat): nat
    requires k < |f.blocks| && i <= |f.blocks[k].insts|
  {
    BlockStart(ctx, f, k) + 1 + |InstsAsm(ctx, f.blocks[k].insts[..i])|
  }

  function NumAt(f: Function, k: nat, i: nat): nat
    requires k < |f.blocks|
  {
    |Linear(f.blocks[..k])| + i
  }

  lemma SubSegment(a: seq<Asm>, b: seq<Asm>, x: seq<Asm>, y: seq<Asm>, code: seq<Asm>)
    requires a + x <= b && y + b <= code
    ensures Segment(code, |y| + |a|, x)
  {
    assert (a + x)[|a|..] == x;
    assert code[|y| + |a|..|y| + |a| + |x|] == b[|a|..|a| + |x|] == (a + x)[|a|..|a| + |x|];
  }

  /** The label and the code of a whole block. */
  lemma BlockAt(ctx: Ctx, f: Function, k: nat)
    requires |f.blocks| > 0 && k < |f.blocks|
    ensures BlocksAsm(ctx, f.blocks[..k]) + [Label(f.blocks[k].id)] + InstsAsm(ctx, f.blocks[k].insts) ==
            BlocksAsm(ctx, f.blocks[..k + 1]) <= FunctionAsm(ctx, f)
    ensures Linear(f.blocks[..k]) + f.blocks[k].insts == Linear(f.blocks[..k + 1]) <= Linear(f.blocks)
  {
    hide InstsAsm;
    assert f.blocks[..k + 1][..k] == f.blocks[..k];
    BlocksPrefix(ctx, f.blocks, k + 1);
  }

  lemma InstAt(ctx: Ctx, f: Function, k: nat, i: nat)
    requires k < |f.blocks| && i < |f.blocks[k].insts|
    ensures Segment(FunctionAsm(ctx, f), PcAt(ctx, f, k, i), InstAsm(ctx, f.blocks[k].insts[i]))
    ensures PcAt(ctx, f, k, i + 1) == PcAt(ctx, f, k, i) + |InstAsm(ctx, f.blocks[k].insts[i])|
    ensures NumAt(f, k, i) < |Linear(f.blocks)| && Linear(f.blocks)[NumAt(f, k, i)] == f.blocks[k].insts[i]
  {
    hide InstAsm;
    hide BlocksAsm;
    hide FunctionAsm;
    hide Linear;
    var insts := f.blocks[k].insts;
    BlockAt(ctx, f, k);
    assert insts[..i + 1][..i] == insts[..i];
    InstsPrefix(ctx, insts, i + 1);
    SubSegment(InstsAsm(ctx, insts[..i]), InstsAsm(ctx, insts), InstAsm(ctx, insts[i]),
               BlocksAsm(ctx, f.blocks[..k]) + [Label(f.blocks[k].id)], FunctionAsm(ctx, f));
  }

  /** The end of a block is the start of the next. */
  lemma BlockEnd(ctx: Ctx, f: Function, k: nat)
    requires k < |f.blocks|
    ensures PcAt(ctx, f, k, |f.blocks[k].insts|) == BlockStart(ctx, f, k + 1)
    ensures k + 1 < |f.blocks| ==> NumAt(f, k + 1, 0) == NumAt(f, k, |f.blocks[k].insts|)
  {
    hide InstsAsm;
    hide BlocksAsm;
    hide FunctionAsm;
    hide Linear;
    BlockAt(ctx, f, k);
    assert f.blocks[k].insts[..|f.blocks[k].insts|] == f.blocks[k].insts;
  }

  // ---- labels ----

  predicate NoLabels(code: seq<Asm>) {
    forall j :: 0 <= j < |code| ==> !code[j].Label?
  }

  lemma CoreHasNoLabels(ctx: Ctx, inst: Inst)
    ensures NoLabels(CoreCode(ctx, inst))
  {
    hide SourceOf;
    hide TargetOf;
    hide AllocaOffset;
    hide Unsigned;
    hide Wrap64;
  }

  lemma InstHasNoLabels(ctx: Ctx, inst: Inst)
    ensures NoLabels(InstAsm(ctx, inst))
  {
    CoreHasNoLabels(ctx, inst);
    hide CoreCode;
    hide SourceOf;
    hide TargetOf;
  }

  lemma {:induction false} InstsHaveNoLabels(ctx: Ctx, insts: seq<Inst>)
    ensures NoLabels(InstsAsm(ctx, insts))
  {
    hide InstAsm;
    if insts != [] {
      InstsHaveNoLabels(ctx, insts[..|insts| - 1]);
      InstHasNoLabels(ctx, insts[|insts| - 1]);
    }
  }

  lemma {:induction false} LabelsBelow(ctx: Ctx, blocks: seq<Block>)
    requires forall k :: 0 <= k < |blocks| ==> blocks[k].id == k
    ensures forall j :: 0 <= j < |BlocksAsm(ctx, blocks)| && BlocksAsm(ctx, blocks)[j].Label? ==>
              BlocksAsm(ctx, blocks)[j].lbl < |blocks|
  {
    hide InstsAsm;
    if blocks != [] {
      LabelsBelow(ctx, blocks[..|blocks| - 1]);
      InstsHaveNoLabels(ctx, blocks[|blocks| - 1].insts);
    }
  }

  lemma {:induction false} FirstLabel(code: seq<Asm>, lbl: int, pos: nat)
    requires pos < |code| && code[pos] == Label(lbl)
    requires forall j :: 0 <= j < pos ==> code[j] != Label(lbl)
    ensures FindLabel(code, lbl) == pos
  {
    if pos > 0 {
      FirstLabel(code[1..], lbl, pos - 1);
    }
  }

  /** A jump to a block arrives at its label. */
  lemma LabelAt(ctx: Ctx, f: Function, k: nat)
    requires BlocksNumbered(f) && k < |f.blocks|
    ensures BlockStart(ctx, f, k) < |FunctionAsm(ctx, f)|
    ensures FunctionAsm(ctx, f)[BlockStart(ctx, f, k)] == Label(k)
    ensures FindLabel(FunctionAsm(ctx, f), k) == BlockStart(ctx, f, k)
  {
    BlockAt(ctx, f, k);
    LabelsBelow(ctx, f.blocks[..k]);
    hide BlocksAsm;
    hide FunctionAsm;
    hide InstsAsm;
    var before, code := BlocksAsm(ctx, f.blocks[..k]), FunctionAsm(ctx, f);
    forall j | 0 <= j < |before|
      ensures code[j] != Label(k)
    {
      assert code[j] == before[j];
    }
    assert code[|before|] == Label(k);
    FirstLabel(code, k, |before|);
  }

  /** Stepping over the label of block t. */
  lemma EnterBlock(ctx: Ctx, f: Function, t: nat, m: Machine, fp: int64, n: nat)
    requires BlocksNumbered(f) && t < |f.blocks|
    ensures FindLabel(FunctionAsm(ctx, f), t) == BlockStart(ctx, f, t)
    ensures RunAsm(FunctionAsm(ctx, f), BlockStart(ctx, f, t), m, fp, n + 1) ==
            RunAsm(FunctionAsm(ctx, f), PcAt(ctx, f, t, 0), m, fp, n)
  {
    LabelAt(ctx, f, t);
    assert f.blocks[t].insts[..0] == [];
    hide FunctionAsm;
    hide BlockStart;
  }

  // ---- one step of control ----

  /** A result word: what x0 holds when a function returns `v`. */
  predicate Answers(r: Stop, v: Option<Val>) {
    && r.Halted?
    && match v
       case None => true
       case Some(IntVal(n)) => r.x0 == n
       case Some(BoolVal(b)) => r.x0 == Bit(b)
       case Some(PtrVal(_)) => false
  }

  lemma RunJump(code: seq<Asm>, pc: nat, l: int, m: Machine, fp: int64, n: nat)
    requires Segment(code, pc, [Jump(l)])
    ensures RunAsm(code, pc, m, fp, n + 1) == RunAsm(code, FindLabel(code, l), m, fp, n)
  {
    assert code[pc] == code[pc..pc + 1][0];
  }

  lemma RunBranch(code: seq<Asm>, pc: nat, r: nat, t: int, e: int, m: Machine, fp: int64, n: nat)
    requires Segment(code, pc, [Cbz(r, e), Jump(t)]) && r < |m.regs|
    ensures m.regs[r] == 0 ==> RunAsm(code, pc, m, fp, n + 1) == RunAsm(code, FindLabel(code, e), m, fp, n)
    ensures m.regs[r] != 0 ==> RunAsm(code, pc, m, fp, n + 2) == RunAsm(code, FindLabel(code, t), m, fp, n)
  {
    assert code[pc] == code[pc..pc + 2][0];
    assert code[pc + 1] == code[pc..pc + 2][1];
  }

  lemma RunReturn(code: seq<Asm>, pc: nat, before: seq<Asm>, m: Machine, m': Machine, fp: int64)
    requires Segment(code, pc, before + [RetA]) && RunSeq(before, m, fp) == Some(m') && |m'.regs| > 0
    ensures RunAsm(code, pc, m, fp, |before| + 1) == Halted(m'.regs[0])
  {
    var seg := before + [RetA];
    assert code[pc..pc + |before|] == code[pc..pc + |seg|][..|before|] == before;
    assert code[pc + |before|] == code[pc..pc + |seg|][|before|];
    RunThrough(code, pc, before, m, m', fp, 1);
  }

  lemma SplitSegment(code: seq<Asm>, pc: nat, a: seq<Asm>, b: seq<Asm>)
    requires Segment(code, pc, a + b)
    ensures Segment(code, pc, a) && Segment(code, pc + |a|, b)
  {
    assert code[pc..pc + |a|] == code[pc..pc + |a + b|][..|a|];
    assert code[pc + |a|..pc + |a + b|] == code[pc..pc + |a + b|][|a|..];
  }

  // ---- simulation ----

  /** What the graph does after block k took `step`. */
  function After(f: Function, w: World, k: nat, step: Step, fuel: nat): Result
    requires k < |f.blocks| < TWO_31
  {
    match step
    case Next(s) => Result(Stuck, s)
    case Done(o, s) => Result(o, s)
    case Goto(t, _, s) =>
      match Follow(f, AtOnce, k, step)
      case Some(s') => Run(f, w, AtOnce, t, s', fuel)
      case None => Result(Stuck, s)
  }

  lemma {:induction false} NoPhisNoCopies(insts: seq<Inst>, from: int)
    requires forall i :: 0 <= i < |insts| ==> !insts[i].Phi?
    ensures PhiCopies(insts, from) == []
  {
    if insts != [] {
      NoPhisNoCopies(insts[1..], from);
    }
  }

  lemma FollowPlain(f: Function, facts: seq<Facts>, k: nat, step: Step)
    requires Lowerable(f, facts) && step.Goto? && 0 <= step.target < |f.blocks|
    ensures Follow(f, AtOnce, k, step) == Some(step.st)
  {
    var insts := f.blocks[step.target].insts;
    forall i | 0 <= i < |insts|
      ensures !insts[i].Phi?
    {
      assert PointOk(f, facts, step.target, i);
    }
    NoPhisNoCopies(insts, k);
  }

  ghost predicate Simulated(f: Function, facts: seq<Facts>, fp: int64, home: Homes, k: nat, i: nat, s: State, m: Machine) {
    && Lowerable(f, facts) && FrameFits(fp)
    && k < |f.blocks| && i <= |f.blocks[k].insts|
    && Good(Context(f), Linear(f.blocks))
    && Rel(Context(f), fp, home, FactsAt(f, facts, k, i), s, m)
  }

  /** What is known before instruction i of block k is executed. */
  lemma BeforeInst(f: Function, facts: seq<Facts>, fp: int64, home: Homes, k: nat, i: nat, s: State, m: Machine)
    requires k < |f.blocks| && i < |f.blocks[k].insts| && Simulated(f, facts, fp, home, k, i, s, m)
    ensures |facts| == |f.blocks| && Lowerable(f, facts) && Fits(f) && FrameFits(fp) && WellFormed(m)
    ensures var ctx, p, at, inst := Context(f), NumAt(f, k, i), FactsAt(f, facts, k, i), f.blocks[k].insts[i];
            && p < |Linear(f.blocks)| && Linear(f.blocks)[p] == inst
            && Good(ctx, Linear(f.blocks)) && Rel(ctx, fp, home, at, s, m)
            && PointOk(f, facts, k, i) && Ready(ctx, at, inst) && (Defines(inst) ==> inst.id >= 0)
            && Segment(FunctionAsm(ctx, f), PcAt(ctx, f, k, i), InstAsm(ctx, inst))
            && PcAt(ctx, f, k, i + 1) == PcAt(ctx, f, k, i) + |InstAsm(ctx, inst)|
            && FactsAt(f, facts, k, i + 1) == AfterInst(ctx, at, inst)
  {
    hide Context;
    hide FunctionAsm;
    hide PcAt;
    hide InstAsm;
    hide Good;
    hide Segment;
    hide Ready;
    InstAt(Context(f), f, k, i);
    assert PointOk(f, facts, k, i);
    FactsNext(f, facts, k, i);
    hide FactsAt;
    hide NumAt;
    hide Linear;
    DefinesId(f.params, Linear(f.blocks), NumAt(f, k, i));
  }

  lemma DefinesId(params: seq<Param>, insts: seq<Inst>, p: nat)
    requires WithinLimits(params, insts) && p < |insts|
    ensures Defines(insts[p]) ==> insts[p].id >= 0
  {
    assert insts[p] == insts[p];
  }

  lemma Simulates(f: Function, facts: seq<Facts>, fp: int64, home: Homes, k: nat, i: nat, s: State, m: Machine)
    requires Lowerable(f, facts) && FrameFits(fp) && k < |f.blocks| == |facts| && i <= |f.blocks[k].insts|
    requires Good(Context(f), Linear(f.blocks)) && Rel(Context(f), fp, home, FactsAt(f, facts, k, i), s, m)
    ensures Simulated(f, facts, fp, home, k, i, s, m)
  {
  }

  /** The end of a block is reached only if its last instruction is no jump. */
  predicate Continues(f: Function, k: nat, i: nat)
    requires k < |f.blocks| && i <= |f.blocks[k].insts|
  {
    i == |f.blocks[k].insts| ==> !Terminated(f.blocks[k].insts)
  }

  lemma RunSegment(code: seq<Asm>, pc: nat, seg: seq<Asm>, m: Machine, m': Machine, fp: int64, n: nat)
    requires Segment(code, pc, seg) && RunSeq(seg, m, fp) == Some(m')
    ensures RunAsm(code, pc, m, fp, |seg| + n) == RunAsm(code, pc + |seg|, m', fp, n)
  {
    RunThrough(code, pc, seg, m, m', fp, n);
  }

  /** At the end of a block without terminator: fall through or return zero. */
  lemma SimEnd(f: Function, facts: seq<Facts>, w: World, fp: int64, home: Homes, k: nat, s: State, m: Machine,
               fuel: nat, v: Option<Val>)
    returns (n: nat)
    requires k < |f.blocks| && Simulated(f, facts, fp, home, k, |f.blocks[k].insts|, s, m) && |f.blocks| < TWO_31
    requires !Terminated(f.blocks[k].insts)
    requires After(f, w, k, ExecBlock(f, w, k, |f.blocks[k].insts|, s), fuel).o == Returned(v)
    ensures Answers(RunAsm(FunctionAsm(Context(f), f), PcAt(Context(f), f, k, |f.blocks[k].insts|), m, fp, n), v)
    decreases fuel, 0, 0
  {
    hide *;
    var ctx := Context(f);
    if k + 1 < |f.blocks| {
      FallsThrough(f, facts, w, fp, home, k, s, m, fuel, v);
      var n' := SimFrom(f, facts, w, fp, home, k + 1, 0, s, m, fuel - 1, v);
      EnterBlock(ctx, f, k + 1, m, fp, n');
      BlockEnd(ctx, f, k);
      n := n' + 1;
    } else {
      n := SimLast(f, facts, w, fp, home, k, s, m, fuel, v);
    }
  }

  lemma SimLast(f: Function, facts: seq<Facts>, w: World, fp: int64, home: Homes, k: nat, s: State, m: Machine,
                fuel: nat, v: Option<Val>)
    returns (n: nat)
    requires k + 1 == |f.blocks| < TWO_31 && Simulated(f, facts, fp, home, k, |f.blocks[k].insts|, s, m)
    requires !Terminated(f.blocks[k].insts)
    requires After(f, w, k, ExecBlock(f, w, k, |f.blocks[k].insts|, s), fuel).o == Returned(v)
    ensures Answers(RunAsm(FunctionAsm(Context(f), f), PcAt(Context(f), f, k, |f.blocks[k].insts|), m, fp, n), v)
  {
    var ctx := Context(f);
    LastReturns(f, w, k, s, fuel, v);
    SimulatedShape(f, facts, fp, home, k, |f.blocks[k].insts|, s, m);
    hide *;
    BlockEnd(ctx, f, k);
    n := ImplicitReturn(ctx, f, m, fp);
    ZeroAnswers(f.ret);
  }

  lemma LastReturns(f: Function, w: World, k: nat, s: State, fuel: nat, v: Option<Val>)
    requires k + 1 == |f.blocks| < TWO_31 && !Terminated(f.blocks[k].insts)
    requires After(f, w, k, ExecBlock(f, w, k, |f.blocks[k].insts|, s), fuel).o == Returned(v)
    ensures v == ZeroOf(f.ret) && f.ret != Ptr && !EndsInRet(f)
  {
  }

  lemma SimulatedShape(f: Function, facts: seq<Facts>, fp: int64, home: Homes, k: nat, i: nat, s: State, m: Machine)
    requires k < |f.blocks| && i <= |f.blocks[k].insts| && Simulated(f, facts, fp, home, k, i, s, m)
    ensures WellFormed(m)
  {
    hide Context;
    hide Good;
    hide Lowerable;
  }

  lemma ZeroAnswers(ty: IrType)
    requires ty != Ptr
    ensures Answers(Halted(0), ZeroOf(ty))
  {
  }

  lemma FallsThrough(f: Function, facts: seq<Facts>, w: World, fp: int64, home: Homes, k: nat, s: State, m: Machine,
                     fuel: nat, v: Option<Val>)
    requires k + 1 < |f.blocks| < TWO_31 && Simulated(f, facts, fp, home, k, |f.blocks[k].insts|, s, m)
    requires !Terminated(f.blocks[k].insts)
    requires After(f, w, k, ExecBlock(f, w, k, |f.blocks[k].insts|, s), fuel).o == Returned(v)
    ensures BlocksNumbered(f) && fuel > 0 && Simulated(f, facts, fp, home, k + 1, 0, s, m)
    ensures After(f, w, k + 1, ExecBlock(f, w, k + 1, 0, s), fuel - 1).o == Returned(v)
    ensures Continues(f, k + 1, 0)
  {
    FallState(f, facts, fp, home, k, s, m);
    FallRuns(f, facts, w, k, s, fuel, v);
  }

  /** What holds at the end of a block holds at the next. */
  lemma FallState(f: Function, facts: seq<Facts>, fp: int64, home: Homes, k: nat, s: State, m: Machine)
    requires k + 1 < |f.blocks| && Simulated(f, facts, fp, home, k, |f.blocks[k].insts|, s, m)
    requires !Terminated(f.blocks[k].insts)
    ensures Lowerable(f, facts) && BlocksNumbered(f) && Simulated(f, facts, fp, home, k + 1, 0, s, m)
  {
    hide Context;
    hide Good;
    hide Rel;
    hide PointOk;
    hide FactsAt;
    hide Linear;
    assert FallOk(f, facts, k);
    FactsHead(f, facts, k + 1);
    RelWeaken(Context(f), fp, home, FactsAt(f, facts, k, |f.blocks[k].insts|), facts[k + 1], s, m);
  }

  lemma FallRuns(f: Function, facts: seq<Facts>, w: World, k: nat, s: State, fuel: nat, v: Option<Val>)
    requires Lowerable(f, facts) && k + 1 < |f.blocks| < TWO_31
    requires After(f, w, k, ExecBlock(f, w, k, |f.blocks[k].insts|, s), fuel).o == Returned(v)
    ensures fuel > 0 && After(f, w, k + 1, ExecBlock(f, w, k + 1, 0, s), fuel - 1).o == Returned(v)
    ensures Continues(f, k + 1, 0)
  {
    hide *;
    LowerableNumbered(f, facts);
    EndGoes(f, w, k, s);
    FollowPlain(f, facts, k, Goto(k + 1, true, s));
    GotoRuns(f, w, k, Goto(k + 1, true, s), fuel, v);
    Entered(f, w, k + 1, s, fuel);
    EntersBlock(f, k + 1);
  }

  lemma LowerableNumbered(f: Function, facts: seq<Facts>)
    requires Lowerable(f, facts)
    ensures BlocksNumbered(f) && |f.blocks| < TWO_31
  {
  }

  lemma EndGoes(f: Function, w: World, k: nat, s: State)
    requires k + 1 < |f.blocks| < TWO_31
    ensures ExecBlock(f, w, k, |f.blocks[k].insts|, s) == Goto(k + 1, true, s)
  {
  }

  lemma Entered(f: Function, w: World, t: nat, s: State, fuel: nat)
    requires t < |f.blocks| < TWO_31 && Run(f, w, AtOnce, t, s, fuel).o.Returned?
    ensures fuel > 0 && Run(f, w, AtOnce, t, s, fuel) == After(f, w, t, ExecBlock(f, w, t, 0, s), fuel - 1)
  {
    hide ExecBlock;
    hide Follow;
  }

  lemma MoveAndLeave(frame: nat, m: Machine, fp: int64)
    requires WellFormed(m)
    ensures RunSeq([MovImm(0, 0), Ldp(frame)], m, fp) == Some(WithReg(m, 0, 0))
  {
    RunTwo(MovImm(0, 0), Ldp(frame), m, fp);
  }

  lemma ImplicitReturn(ctx: Ctx, f: Function, m: Machine, fp: int64) returns (n: nat)
    requires |f.blocks| > 0 && !EndsInRet(f) && WellFormed(m)
    ensures RunAsm(FunctionAsm(ctx, f), BlockStart(ctx, f, |f.blocks|), m, fp, n) == Halted(0)
  {
    hide BlocksAsm;
    hide ExecAsm;
    var code, pc := FunctionAsm(ctx, f), BlockStart(ctx, f, |f.blocks|);
    assert f.blocks[..|f.blocks|] == f.blocks;
    var before := [MovImm(0, 0), Ldp(ctx.frame)];
    assert code[pc..] == before + [RetA];
    MoveAndLeave(ctx.frame, m, fp);
    RunReturn(code, pc, before, m, WithReg(m, 0, 0), fp);
    n := |before| + 1;
  }

  lemma SimRet(f: Function, facts: seq<Facts>, w: World, fp: int64, home: Homes, k: nat, i: nat, s: State,
               m: Machine, v: Option<Val>)
    returns (n: nat)
    requires k < |f.blocks| && i < |f.blocks[k].insts| && Simulated(f, facts, fp, home, k, i, s, m)
    requires f.blocks[k].insts[i].Ret? && Exec(f, w, f.blocks[k].insts[i], s) == Done(Returned(v), s)
    ensures Answers(RunAsm(FunctionAsm(Context(f), f), PcAt(Context(f), f, k, i), m, fp, n), v)
  {
    hide *;
    BeforeInst(f, facts, fp, home, k, i, s, m);
    var ctx, p, insts := Context(f), NumAt(f, k, i), Linear(f.blocks);
    var x := f.blocks[k].insts[i].result;
    if x < 0 {
      n := RetVoid(ctx, insts[p], m, fp, FunctionAsm(ctx, f), PcAt(ctx, f, k, i));
      VoidAnswers(f, w, x, s, v, m.regs[0]);
    } else {
      RetNotPtr(f, w, x, s, v);
      n := RetValue(ctx, insts, fp, home, p, FactsAt(f, facts, k, i), s, m, FunctionAsm(ctx, f), PcAt(ctx, f, k, i));
      ValueAnswers(ctx, fp, home, s.env[x]);
    }
  }

  lemma RetVoid(ctx: Ctx, inst: Inst, m: Machine, fp: int64, code: seq<Asm>, pc: nat) returns (n: nat)
    requires inst.Ret? && inst.result < 0 && WellFormed(m) && Segment(code, pc, InstAsm(ctx, inst))
    ensures |m.regs| > 0 && RunAsm(code, pc, m, fp, n) == Halted(m.regs[0])
  {
    RunOne(Ldp(ctx.frame), m, fp);
    assert InstAsm(ctx, inst) == [Ldp(ctx.frame)] + [RetA];
    RunReturn(code, pc, [Ldp(ctx.frame)], m, m, fp);
    n := 2;
  }

  lemma VoidAnswers(f: Function, w: World, x: int, s: State, v: Option<Val>, r: int64)
    requires x < 0 && Exec(f, w, Ret(x), s) == Done(Returned(v), s)
    ensures Answers(Halted(r), v)
  {
  }

  lemma ValueAnswers(ctx: Ctx, fp: int64, home: Homes, v: Val)
    requires !v.PtrVal?
    ensures Answers(Halted(Rep(ctx, fp, home, v)), Some(v))
  {
  }

  lemma RetNotPtr(f: Function, w: World, x: int, s: State, v: Option<Val>)
    requires Fits(f) && x >= 0 && Exec(f, w, Ret(x), s) == Done(Returned(v), s)
    ensures x in s.env && v == Some(s.env[x]) && !s.env[x].PtrVal?
  {
  }

  lemma RetValue(ctx: Ctx, insts: seq<Inst>, fp: int64, home: Homes, p: nat, at: Facts, s: State, m: Machine,
                 code: seq<Asm>, pc: nat) returns (n: nat)
    requires Good(ctx, insts) && p < |insts| && Ready(ctx, at, insts[p]) && Rel(ctx, fp, home, at, s, m)
    requires insts[p].Ret? && insts[p].result >= 0 && insts[p].result in s.env
    requires Segment(code, pc, InstAsm(ctx, insts[p]))
    ensures RunAsm(code, pc, m, fp, n) == Halted(Rep(ctx, fp, home, s.env[insts[p].result]))
  {
    RetReads(ctx, at, insts[p]);
    hide *;
    var x := insts[p].result;
    var m1 := LoadOne(ctx, insts, fp, home, at, s, m, x);
    var before, m2 := ReturnCode(ctx, x, m, m1, fp);
    RunReturn(code, pc, before, m, m2, fp);
    n := |before| + 1;
  }

  lemma RetReads(ctx: Ctx, at: Facts, inst: Inst)
    requires inst.Ret? && inst.result >= 0 && Ready(ctx, at, inst)
    ensures inst.result !in at.stale && InstAsm(ctx, inst) == RetCode(ctx, inst.result)
  {
  }

  lemma ReturnCode(ctx: Ctx, x: int, m: Machine, m1: Machine, fp: int64) returns (before: seq<Asm>, m2: Machine)
    requires RunSeq(LoadCode(SourceOf(ctx, x), SCRATCH), m, fp) == Some(m1) && WellFormed(m1) && Lhs(ctx, x) < NUM_REGS
    requires x >= 0
    ensures before + [RetA] == RetCode(ctx, x) && RunSeq(before, m, fp) == Some(m2)
    ensures |m2.regs| > 0 && |m1.regs| > Lhs(ctx, x) && m2.regs[0] == m1.regs[Lhs(ctx, x)]
  {
    hide RunSeq;
    hide LoadCode;
    hide SourceOf;
    var load := LoadCode(SourceOf(ctx, x), SCRATCH);
    var a := Lhs(ctx, x);
    var move := if a != 0 then [Mov(0, a)] else [];
    m2 := MoveZero(a, m1, fp);
    RunSeqAppend(load, move, m, fp);
    RunOne(Ldp(ctx.frame), m2, fp);
    RunSeqAppend(load + move, [Ldp(ctx.frame)], m, fp);
    before := load + move + [Ldp(ctx.frame)];
  }

  lemma MoveZero(a: nat, m: Machine, fp: int64) returns (m': Machine)
    requires WellFormed(m) && a < NUM_REGS
    ensures RunSeq(if a != 0 then [Mov(0, a)] else [], m, fp) == Some(m') && |m'.regs| > 0 && m'.regs[0] == m.regs[a]
  {
    if a != 0 {
      m' := WithReg(m, 0, m.regs[a]);
      RunOne(Mov(0, a), m, fp);
    } else {
      m' := m;
    }
  }

  /** Going on from m at block t is going on from where the branch stands. */
  ghost predicate Arrives(code: seq<Asm>, pc: nat, m: Machine, fp: int64, n: nat, t: int, m': Machine) {
    forall rest: nat {:trigger RunAsm(code, FindLabel(code, t), m', fp, rest)} ::
      RunAsm(code, pc, m, fp, n + rest) == RunAsm(code, FindLabel(code, t), m', fp, rest)
  }

  /** A taken branch arrives at the label of its target, nothing changed that
      matters later. */
  lemma SimGoto(f: Function, facts: seq<Facts>, w: World, fp: int64, home: Homes, k: nat, i: nat, s: State,
                m: Machine, t: nat)
    returns (n: nat, m': Machine)
    requires k < |f.blocks| && i < |f.blocks[k].insts| && Simulated(f, facts, fp, home, k, i, s, m)
    requires t < |f.blocks| < TWO_31 && Exec(f, w, f.blocks[k].insts[i], s) == Goto(t, false, s)
    ensures Simulated(f, facts, fp, home, t, 0, s, m')
    ensures Arrives(FunctionAsm(Context(f), f), PcAt(Context(f), f, k, i), m, fp, n, t, m')
  {
    hide *;
    BeforeInst(f, facts, fp, home, k, i, s, m);
    var ctx, p, insts, at := Context(f), NumAt(f, k, i), Linear(f.blocks), FactsAt(f, facts, k, i);
    var code, pc := FunctionAsm(ctx, f), PcAt(ctx, f, k, i);
    GotoInst(f, w, ctx, f.blocks[k].insts[i], s, t);
    GotoEdge(f, facts, w, k, i, s, t);
    if f.blocks[k].insts[i].Jmp? {
      n, m' := 1, m;
      JumpArrives(code, pc, m, fp, t);
    } else {
      n, m' := BranchCode(ctx, insts, fp, home, p, at, s, m, code, pc, t);
      RelScratch(ctx, insts, fp, home, at, s, m, m');
    }
    RelWeaken(ctx, fp, home, at, facts[t], s, m');
    FactsHead(f, facts, t);
    Simulates(f, facts, fp, home, t, 0, s, m');
  }

  lemma GotoEdge(f: Function, facts: seq<Facts>, w: World, k: nat, i: nat, s: State, t: nat)
    requires k < |f.blocks| == |facts| && i < |f.blocks[k].insts| && PointOk(f, facts, k, i) && t < |f.blocks| < TWO_31
    requires Exec(f, w, f.blocks[k].insts[i], s) == Goto(t, false, s)
    ensures Leq(FactsAt(f, facts, k, i), facts[t])
  {
    hide FactsAt;
    hide Ready;
    hide Leq;
  }

  lemma GotoInst(f: Function, w: World, ctx: Ctx, inst: Inst, s: State, t: int32)
    requires Exec(f, w, inst, s) == Goto(t, false, s)
    ensures inst.Jmp? ==> inst.target == t && InstAsm(ctx, inst) == [Jump(t)]
    ensures !inst.Jmp? ==> inst.Br? && inst.cond in s.env && s.env[inst.cond].BoolVal? &&
                           t == if s.env[inst.cond].b then inst.onTrue else inst.onFalse
  {
  }

  lemma JumpArrives(code: seq<Asm>, pc: nat, m: Machine, fp: int64, t: int)
    requires Segment(code, pc, [Jump(t)])
    ensures Arrives(code, pc, m, fp, 1, t, m)
  {
    forall rest: nat {:trigger RunAsm(code, FindLabel(code, t), m, fp, rest)}
      ensures RunAsm(code, pc, m, fp, 1 + rest) == RunAsm(code, FindLabel(code, t), m, fp, rest)
    {
      RunJump(code, pc, t, m, fp, rest);
    }
  }

  lemma BranchCode(ctx: Ctx, insts: seq<Inst>, fp: int64, home: Homes, p: nat, at: Facts, s: State, m: Machine,
                   code: seq<Asm>, pc: nat, t: int) returns (n: nat, m': Machine)
    requires Good(ctx, insts) && p < |insts| && Ready(ctx, at, insts[p]) && Rel(ctx, fp, home, at, s, m)
    requires insts[p].Br? && insts[p].cond in s.env && s.env[insts[p].cond].BoolVal?
    requires t == if s.env[insts[p].cond].b then insts[p].onTrue else insts[p].onFalse
    requires Segment(code, pc, InstAsm(ctx, insts[p]))
    ensures ScratchOnly(m, m') && Arrives(code, pc, m, fp, n, t, m')
  {
    var c := insts[p].cond;
    assert ValOk(ctx, fp, home, at, m, c, s.env[c]);
    m' := LoadOne(ctx, insts, fp, home, at, s, m, c);
    n := BranchArrives(code, pc, LoadCode(SourceOf(ctx, c), SCRATCH), Lhs(ctx, c), insts[p].onTrue, insts[p].onFalse,
                       m, m', fp, s.env[c].b);
  }

  lemma BranchArrives(code: seq<Asm>, pc: nat, load: seq<Asm>, r: nat, onTrue: int, onFalse: int,
                      m: Machine, m': Machine, fp: int64, b: bool) returns (n: nat)
    requires Segment(code, pc, load + [Cbz(r, onFalse), Jump(onTrue)])
    requires RunSeq(load, m, fp) == Some(m') && r < |m'.regs| && m'.regs[r] == Bit(b)
    ensures Arrives(code, pc, m, fp, n, if b then onTrue else onFalse, m')
  {
    hide *;
    var t := if b then onTrue else onFalse;
    SplitSegment(code, pc, load, [Cbz(r, onFalse), Jump(onTrue)]);
    var steps := if b then 2 else 1;
    n := |load| + steps;
    forall rest: nat
      ensures RunAsm(code, pc, m, fp, n + rest) == RunAsm(code, FindLabel(code, t), m', fp, rest)
    {
      RunSegment(code, pc, load, m, m', fp, steps + rest);
      assert n + rest == |load| + (steps + rest);
      BranchRuns(code, pc + |load|, r, onTrue, onFalse, m', fp, rest, b);
    }
    ArrivesIntro(code, pc, m, fp, n, t, m');
  }

  lemma BranchRuns(code: seq<Asm>, pc: nat, r: nat, onTrue: int, onFalse: int, m: Machine, fp: int64, rest: nat,
                   b: bool)
    requires Segment(code, pc, [Cbz(r, onFalse), Jump(onTrue)]) && r < |m.regs| && m.regs[r] == Bit(b)
    ensures RunAsm(code, pc, m, fp, (if b then 2 else 1) + rest) ==
            RunAsm(code, FindLabel(code, if b then onTrue else onFalse), m, fp, rest)
  {
    hide RunAsm;
    hide FindLabel;
    hide Segment;
    RunBranch(code, pc, r, onTrue, onFalse, m, fp, rest);
  }

  lemma ArrivesIntro(code: seq<Asm>, pc: nat, m: Machine, fp: int64, n: nat, t: int, m': Machine)
    requires forall rest: nat :: RunAsm(code, pc, m, fp, n + rest) == RunAsm(code, FindLabel(code, t), m', fp, rest)
    ensures Arrives(code, pc, m, fp, n, t, m')
  {
    hide RunAsm;
    hide FindLabel;
  }

  lemma RelScratch(ctx: Ctx, insts: seq<Inst>, fp: int64, home: Homes, at: Facts, s: State, m: Machine, m': Machine)
    requires Good(ctx, insts) && Rel(ctx, fp, home, at, s, m) && ScratchOnly(m, m')
    ensures Rel(ctx, fp, home, at, s, m')
  {
    forall id {:trigger s.env[id]} | id in s.env
      ensures ValOk(ctx, fp, home, at, m', id, s.env[id])
    {
      assert ValOk(ctx, fp, home, at, m, id, s.env[id]);
      var k := IndexOf(ctx.ranges, id);
      if k >= 0 {
        assert RangeHomed(ctx.ranges[k]);
      }
    }
    forall c {:trigger s.cells[c]} | c in s.cells
      ensures CellOk(ctx, fp, home, at, s.next, m', c, s.cells[c])
    {
      assert CellOk(ctx, fp, home, at, s.next, m, c, s.cells[c]);
    }
  }

  lemma GotoPlain(f: Function, w: World, inst: Inst, s: State)
    requires Exec(f, w, inst, s).Goto?
    ensures Exec(f, w, inst, s) == Goto(Exec(f, w, inst, s).target, false, s)
  {
  }

  lemma DoneReturns(f: Function, w: World, inst: Inst, s: State, v: Option<Val>)
    requires Exec(f, w, inst, s).Done? && Exec(f, w, inst, s).o == Returned(v)
    ensures inst.Ret? && Exec(f, w, inst, s) == Done(Returned(v), s)
  {
  }

  lemma SimStep(f: Function, facts: seq<Facts>, w: World, fp: int64, home: Homes, k: nat, i: nat, s: State,
                m: Machine, s': State,
                fuel: nat, v: Option<Val>) returns (n: nat)
    requires k < |f.blocks| < TWO_31 && i < |f.blocks[k].insts| && Simulated(f, facts, fp, home, k, i, s, m)
    requires Exec(f, w, f.blocks[k].insts[i], s) == Next(s')
    requires After(f, w, k, ExecBlock(f, w, k, i, s), fuel).o == Returned(v)
    ensures Answers(RunAsm(FunctionAsm(Context(f), f), PcAt(Context(f), f, k, i), m, fp, n), v)
    decreases fuel, |f.blocks[k].insts| - i, 1
  {
    hide *;
    NextInst(f, w, k, i, s, s');
    BeforeInst(f, facts, fp, home, k, i, s, m);
    var ctx, p, insts, at := Context(f), NumAt(f, k, i), Linear(f.blocks), FactsAt(f, facts, k, i);
    var inst := f.blocks[k].insts[i];
    var home', m' := SimNext(ctx, insts, fp, home, f, w, p, at, s, m, s');
    Simulates(f, facts, fp, home', k, i + 1, s', m');
    var n' := SimFrom(f, facts, w, fp, home', k, i + 1, s', m', fuel, v);
    RunSegment(FunctionAsm(ctx, f), PcAt(ctx, f, k, i), InstAsm(ctx, inst), m, m', fp, n');
    n := |InstAsm(ctx, inst)| + n';
  }

  lemma NextInst(f: Function, w: World, k: nat, i: nat, s: State, s': State)
    requires k < |f.blocks| < TWO_31 && i < |f.blocks[k].insts| && Exec(f, w, f.blocks[k].insts[i], s) == Next(s')
    ensures ExecBlock(f, w, k, i, s) == ExecBlock(f, w, k, i + 1, s')
    ensures Continues(f, k, i + 1)
  {
  }

  /** From instruction i of block k on. */
  lemma {:induction false} SimFrom(f: Function, facts: seq<Facts>, w: World, fp: int64, home: Homes, k: nat, i: nat,
                                   s: State, m: Machine,
                                   fuel: nat, v: Option<Val>) returns (n: nat)
    requires k < |f.blocks| < TWO_31 && i <= |f.blocks[k].insts| && Simulated(f, facts, fp, home, k, i, s, m)
    requires Continues(f, k, i)
    requires After(f, w, k, ExecBlock(f, w, k, i, s), fuel).o == Returned(v)
    ensures Answers(RunAsm(FunctionAsm(Context(f), f), PcAt(Context(f), f, k, i), m, fp, n), v)
    decreases fuel, |f.blocks[k].insts| - i, 2
  {
    hide *;
    var insts := f.blocks[k].insts;
    if i == |insts| {
      AtEnd(f, k);
      n := SimEnd(f, facts, w, fp, home, k, s, m, fuel, v);
    } else if Exec(f, w, insts[i], s).Next? {
      n := SimStep(f, facts, w, fp, home, k, i, s, m, Exec(f, w, insts[i], s).st, fuel, v);
    } else if Exec(f, w, insts[i], s).Goto? {
      var t := Jumps(f, facts, w, fp, home, k, i, s, m, fuel, v);
      var n1, m' := SimGoto(f, facts, w, fp, home, k, i, s, m, t);
      var n2 := SimFrom(f, facts, w, fp, home, t, 0, s, m', fuel - 1, v);
      EnterBlock(Context(f), f, t, m', fp, n2);
      Arrived(FunctionAsm(Context(f), f), PcAt(Context(f), f, k, i), m, fp, n1, t, m', n2 + 1);
      n := n1 + (n2 + 1);
    } else {
      DoneEnds(f, w, k, i, s, fuel, v);
      n := SimRet(f, facts, w, fp, home, k, i, s, m, v);
    }
  }

  lemma AtEnd(f: Function, k: nat)
    requires k < |f.blocks| && Continues(f, k, |f.blocks[k].insts|)
    ensures !Terminated(f.blocks[k].insts)
  {
  }

  lemma DoneEnds(f: Function, w: World, k: nat, i: nat, s: State, fuel: nat, v: Option<Val>)
    requires k < |f.blocks| < TWO_31 && i < |f.blocks[k].insts|
    requires Exec(f, w, f.blocks[k].insts[i], s).Done?
    requires After(f, w, k, ExecBlock(f, w, k, i, s), fuel).o == Returned(v)
    ensures f.blocks[k].insts[i].Ret? && Exec(f, w, f.blocks[k].insts[i], s) == Done(Returned(v), s)
  {
    DoneReturns(f, w, f.blocks[k].insts[i], s, v);
  }

  lemma Arrived(code: seq<Asm>, pc: nat, m: Machine, fp: int64, n: nat, t: int, m': Machine, rest: nat)
    requires Arrives(code, pc, m, fp, n, t, m')
    ensures RunAsm(code, pc, m, fp, n + rest) == RunAsm(code, FindLabel(code, t), m', fp, rest)
  {
  }

  lemma Jumps(f: Function, facts: seq<Facts>, w: World, fp: int64, home: Homes, k: nat, i: nat, s: State, m: Machine,
              fuel: nat, v: Option<Val>)
    returns (t: nat)
    requires k < |f.blocks| < TWO_31 && i < |f.blocks[k].insts| && Simulated(f, facts, fp, home, k, i, s, m)
    requires Exec(f, w, f.blocks[k].insts[i], s).Goto?
    requires After(f, w, k, ExecBlock(f, w, k, i, s), fuel).o == Returned(v)
    ensures BlocksNumbered(f) && t < |f.blocks| && fuel > 0
    ensures Exec(f, w, f.blocks[k].insts[i], s) == Goto(t, false, s)
    ensures After(f, w, t, ExecBlock(f, w, t, 0, s), fuel - 1).o == Returned(v)
    ensures Continues(f, t, 0)
  {
    hide *;
    IsLowerable(f, facts, fp, home, k, i, s, m);
    GotoPlain(f, w, f.blocks[k].insts[i], s);
    var step := Exec(f, w, f.blocks[k].insts[i], s);
    GotoFollows(f, w, k, i, s, step, fuel, v);
    t := step.target;
    FollowPlain(f, facts, k, step);
    GotoRuns(f, w, k, step, fuel, v);
    Entered(f, w, t, s, fuel);
    EntersBlock(f, t);
  }

  lemma IsLowerable(f: Function, facts: seq<Facts>, fp: int64, home: Homes, k: nat, i: nat, s: State, m: Machine)
    requires k < |f.blocks| && i < |f.blocks[k].insts| && Simulated(f, facts, fp, home, k, i, s, m)
    ensures Lowerable(f, facts) && BlocksNumbered(f)
  {
  }

  lemma GotoFollows(f: Function, w: World, k: nat, i: nat, s: State, step: Step, fuel: nat, v: Option<Val>)
    requires k < |f.blocks| < TWO_31 && i < |f.blocks[k].insts|
    requires step.Goto? && step == Exec(f, w, f.blocks[k].insts[i], s) == Goto(step.target, false, s)
    requires After(f, w, k, ExecBlock(f, w, k, i, s), fuel).o == Returned(v)
    ensures After(f, w, k, step, fuel).o == Returned(v) && 0 <= step.target < |f.blocks|
  {
    hide Exec;
    hide CopyEdge;
    hide Run;
  }

  lemma GotoRuns(f: Function, w: World, k: nat, step: Step, fuel: nat, v: Option<Val>)
    requires k < |f.blocks| < TWO_31 && step.Goto? && 0 <= step.target < |f.blocks|
    requires After(f, w, k, step, fuel).o == Returned(v) && Follow(f, AtOnce, k, step) == Some(step.st)
    ensures Run(f, w, AtOnce, step.target, step.st, fuel).o == Returned(v)
  {
    hide Run;
    hide Follow;
  }

  lemma EntersBlock(f: Function, t: nat)
    requires t < |f.blocks|
    ensures Continues(f, t, 0)
  {
  }

  // ---- whole calls ----

  function Word(v: Val): int64 {
    match v
    case IntVal(n) => n
    case BoolVal(b) => Bit(b)
    case PtrVal(_) => 0
  }

  /** The arguments arrive in x0 to x7. */
  predicate Entry(args: seq<Val>, m: Machine) {
    WellFormed(m) && |args| <= MAX_REG_PARAMS && forall i :: 0 <= i < |args| ==> m.regs[i] == Word(args[i])
  }

  /** A bound parameter has the first register with its id. */
  lemma {:induction false} Bound(params: seq<Param>, args: seq<Val>, id: int) returns (i: nat)
    requires |params| == |args| && id in BindParams(params, args)
    requires forall a, b :: 0 <= a < b < |params| ==> params[a].id != params[b].id
    ensures i < |params| && params[i].id == id && BindParams(params, args)[id] == args[i]
  {
    var n := |params| - 1;
    if params[n].id == id {
      i := n;
    } else {
      i := Bound(params[..n], args[..n], id);
    }
  }

  lemma NoSlotForParam(f: Function, i: nat)
    requires WithinLimits(f.params, Linear(f.blocks)) && i < |f.params|
    ensures FindSlot(Context(f).allocas, f.params[i].id) < 0
  {
    var insts := Linear(f.blocks);
    var slots := Context(f).allocas;
    hide Allocate;
    hide LiveRanges;
    hide Linear;
    AllocaSlotAt(insts, -16 - SpillBytes(Allocate(LiveRanges(f)).next));
    hide AllocaSlots;
    forall a | 0 <= a < |slots|
      ensures slots[a].id != f.params[i].id
    {
      var p :| 0 <= p < |insts| && insts[p].Alloca? && insts[p].id == slots[a].id;
      assert insts[p].Result() == slots[a].id;
    }
  }

  lemma ParamHome(f: Function, at: Facts, fp: int64, args: seq<Val>, m: Machine, id: int)
    requires (forall p <- f.params :: p.id in at.defined)
    requires WithinLimits(f.params, Linear(f.blocks)) && ArgsMatch(f.params, args) && Entry(args, m)
    requires id in BindParams(f.params, args)
    ensures ValOk(Context(f), fp, map[], at, m, id, BindParams(f.params, args)[id])
  {
    var i := Bound(f.params, args, id);
    NoSlotForParam(f, i);
    assert Context(f).params == f.params;
    hide Context;
    hide Linear;
    assert TypeOf(args[i]) == f.params[i].ty;
    var r := ParamReg(f.params, id, 0);
    assert r == i;
  }

  lemma Initially(f: Function, facts: seq<Facts>, fp: int64, args: seq<Val>, b: Budget, m: Machine)
    requires Lowerable(f, facts) && FrameFits(fp) && ArgsMatch(f.params, args) && Entry(args, m)
    ensures Simulated(f, facts, fp, map[], 0, 0, Initial(f, args, b), m)
  {
    ContextGood(f);
    var s := Initial(f, args, b);
    FactsHead(f, facts, 0);
    hide Good;
    hide Context;
    hide FactsAt;
    hide PointOk;
    hide FallOk;
    forall id {:trigger s.env[id]} | id in s.env
      ensures ValOk(Context(f), fp, map[], facts[0], m, id, s.env[id])
    {
      ParamHome(f, facts[0], fp, args, m, id);
    }
    hide Linear;
  }

  /** A program that halted gives the same answer with more time. */
  lemma {:induction false} MoreTime(code: seq<Asm>, pc: nat, m: Machine, fp: int64, n: nat, more: nat)
    requires RunAsm(code, pc, m, fp, n).Halted? && n <= more
    ensures RunAsm(code, pc, m, fp, more) == RunAsm(code, pc, m, fp, n)
    decreases n
  {
    hide ExecAsm;
    hide FindLabel;
    match code[pc]
    case RetA =>
    case Jump(l) =>
      MoreTime(code, FindLabel(code, l), m, fp, n - 1, more - 1);
    case Cbz(r, l) =>
      MoreTime(code, if m.regs[r] == 0 then FindLabel(code, l) else pc + 1, m, fp, n - 1, more - 1);
    case i =>
      MoreTime(code, pc + 1, ExecAsm(i, m, fp).value, fp, n - 1, more - 1);
  }

  lemma StartsAtLabel(f: Function, m: Machine, fp: int64, n: nat)
    requires BlocksNumbered(f)
    ensures RunAsm(FunctionAsm(Context(f), f), 0, m, fp, n + 1) ==
            RunAsm(FunctionAsm(Context(f), f), PcAt(Context(f), f, 0, 0), m, fp, n)
  {
    assert f.blocks[..0] == [];
    assert BlockStart(Context(f), f, 0) == 0;
    hide RunAsm;
    hide Context;
    hide FunctionAsm;
    EnterBlock(Context(f), f, 0, m, fp, n);
  }

  /** MAIN RESULT. Whatever a call-free, phi-free function returns that reads no
      stale value, with loops and locals declared in them, its code leaves in x0: for all arguments, all
      register contents besides them, and every run long enough to finish. */
  lemma LoweredFunctionCorrect(f: Function, facts: seq<Facts>, w: World, args: seq<Val>, b: Budget, fuel: nat,
                               m: Machine,
                               fp: int64, v: Option<Val>) returns (n: nat)
    requires Lowerable(f, facts) && FrameFits(fp) && ArgsMatch(f.params, args) && Entry(args, m)
    requires CallFunction(f, w, AtOnce, args, b, fuel).o == Returned(v)
    ensures forall time: nat :: time >= n ==> Answers(RunAsm(FunctionAsm(Context(f), f), 0, m, fp, time), v)
  {
    hide *;
    var s := Initial(f, args, b);
    Initially(f, facts, fp, args, b, m);
    CallEnters(f, facts, w, args, b, fuel);
    var n' := SimFrom(f, facts, w, fp, map[], 0, 0, s, m, fuel - 1, v);
    StartsAtLabel(f, m, fp, n');
    n := n' + 1;
    forall time: nat | time >= n
      ensures Answers(RunAsm(FunctionAsm(Context(f), f), 0, m, fp, time), v)
    {
      AnswersLater(FunctionAsm(Context(f), f), m, fp, n, time, v);
    }
  }

  lemma AnswersLater(code: seq<Asm>, m: Machine, fp: int64, n: nat, more: nat, v: Option<Val>)
    requires Answers(RunAsm(code, 0, m, fp, n), v) && n <= more
    ensures Answers(RunAsm(code, 0, m, fp, more), v)
  {
    MoreTime(code, 0, m, fp, n, more);
  }

  lemma CallEnters(f: Function, facts: seq<Facts>, w: World, args: seq<Val>, b: Budget, fuel: nat)
    requires Lowerable(f, facts) && ArgsMatch(f.params, args)
    requires CallFunction(f, w, AtOnce, args, b, fuel).o.Returned?
    ensures 0 < |f.blocks| < TWO_31 && BlocksNumbered(f) && fuel > 0
    ensures CallFunction(f, w, AtOnce, args, b, fuel) ==
            After(f, w, 0, ExecBlock(f, w, 0, 0, Initial(f, args, b)), fuel - 1)
    ensures Continues(f, 0, 0)
  {
    hide ExecBlock;
    hide Follow;
    hide WithinLimits;
    hide Linear;
    Entered(f, w, 0, Initial(f, args, b), fuel);
  }
}
