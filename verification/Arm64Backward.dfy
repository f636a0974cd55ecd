/** Live ranges follow the order of the instructions in the text, so a branch
    to an earlier block can find a value's register already reused: here the
    value is used before its definition in the text. */
module Arm64Backward {
  import opened Ir
  import opened Arm64
  import opened Arm64Alloc
  import opened Arm64Scan
  import opened Arm64Emit
  import opened Arm64FirstFit
  import opened Arm64Unfold
  import Arm64Run
  import opened Wrappers

  /** Block 2 defines a value and goes back to block 1, which returns it; in
      between it defines another. */
  function BackFunction(): Function {
    Function(I64, [], [
      Block(0, [Jmp(2)]),
      Block(1, [Ret(10)]),
      Block(2, [ConstInt(10, 7), ConstInt(11, 9), Jmp(1)])])
  }

  function BackInsts(): seq<Inst> {
    [Jmp(2), Ret(10), ConstInt(10, 7), ConstInt(11, 9), Jmp(1)]
  }

  lemma BackLinear()
    ensures Linear(BackFunction().blocks) == BackInsts()
  {
    var b := BackFunction().blocks;
    assert b[..2][..1] == b[..1] && b[..3] == b && b[..1][..0] == [];
    assert Linear(b[..1]) == [Jmp(2)];
    assert Linear(b[..2]) == [Jmp(2), Ret(10)];
    assert b[..|b| - 1] == b[..2];
  }

  function BackDefs(): seq<LiveRange> {
    [LiveRange(10, -1, -1, 2, 2), LiveRange(11, -1, -1, 3, 3)]
  }

  lemma BackDefsAre()
    ensures Defs(BackInsts()) == BackDefs()
  {
    DefsExact(BackInsts(), [2, 3]);
    hide Defs;
  }

  /** The use at instruction 1 lies before the definition at 2: it extends
      nothing. */
  lemma BackUses()
    ensures ExtendUses(BackDefs(), BackInsts()) == BackDefs()
  {
    var i, r := BackInsts(), BackDefs();
    assert IndexOf(r, 10) == 0 && IndexOf(r, 11) == 1;
    assert LastUse(r, i, 0, 2) && LastUse(r, i, 1, 3);
    EndsAtLastUse(r, i, 0, 2);
    EndsAtLastUse(r, i, 1, 3);
    hide ExtendUses;
  }

  lemma BackRanges()
    ensures LiveRanges(BackFunction()) == BackDefs()
  {
    BackLinear();
    BackDefsAre();
    BackUses();
    assert WithParams(BackDefs(), []) == BackDefs();
  }

  /** Both values are given x9. */
  lemma BackAllocation()
    ensures Allocate(BackDefs()).ranges == [LiveRange(10, 9, -1, 2, 2), LiveRange(11, 9, -1, 3, 3)]
  {
    FirstFitCorrect(BackDefs(), [0, 0]);
    hide Allocate;
  }

  function BackCode(frame: nat): seq<Asm> {
    [Label(0), Jump(2), Label(1), Mov(0, 9), Ldp(frame), RetA, Label(2), MovImm(9, 7), MovImm(9, 9), Jump(1),
     MovImm(0, 0), Ldp(frame), RetA]
  }

  lemma BackInstCode(ctx: Ctx)
    requires ctx.params == [] && ctx.ranges == [LiveRange(10, 9, -1, 2, 2), LiveRange(11, 9, -1, 3, 3)]
    ensures InstAsm(ctx, Jmp(2)) == [Jump(2)] && InstAsm(ctx, Jmp(1)) == [Jump(1)]
    ensures InstAsm(ctx, Ret(10)) == [Mov(0, 9), Ldp(ctx.frame), RetA]
    ensures InstAsm(ctx, ConstInt(10, 7)) == [MovImm(9, 7)]
    ensures InstAsm(ctx, ConstInt(11, 9)) == [MovImm(9, 9)]
  {
    assert IndexOf(ctx.ranges, 10) == 0;
    assert IndexOf(ctx.ranges, 11) == 1;
    assert TargetOf(ctx, 10) == InReg(9) && TargetOf(ctx, 11) == InReg(9) && SourceOf(ctx, 10) == InReg(9);
    assert [] + [MovImm(9, 7)] + [] == [MovImm(9, 7)];
    assert [] + [MovImm(9, 9)] + [] == [MovImm(9, 9)];
  }

  lemma BackInsts3(ctx: Ctx)
    ensures InstsAsm(ctx, [ConstInt(10, 7), ConstInt(11, 9), Jmp(1)]) ==
            InstAsm(ctx, ConstInt(10, 7)) + InstAsm(ctx, ConstInt(11, 9)) + InstAsm(ctx, Jmp(1))
  {
    hide InstAsm;
    var last := [ConstInt(10, 7), ConstInt(11, 9), Jmp(1)];
    assert last[..|last| - 1] == [ConstInt(10, 7), ConstInt(11, 9)];
    assert [ConstInt(10, 7), ConstInt(11, 9)][..1] == [ConstInt(10, 7)];
    InstsOne(ctx, ConstInt(10, 7));
  }

  lemma BackBlocks(ctx: Ctx)
    requires ctx.params == [] && ctx.ranges == [LiveRange(10, 9, -1, 2, 2), LiveRange(11, 9, -1, 3, 3)]
    ensures FunctionAsm(ctx, BackFunction()) == BackCode(ctx.frame)
  {
    hide InstAsm;
    hide InstsAsm;
    hide BlocksAsm;
    BackInstCode(ctx);
    var b := BackFunction().blocks;
    InstsOne(ctx, Jmp(2));
    InstsOne(ctx, Ret(10));
    BackInsts3(ctx);
    BlocksThree(ctx, b[0], b[1], b[2]);
  }

  /** From the label of block 1, with 9 in x9. */
  lemma BackReturns(frame: nat, m: Machine, fp: int64)
    requires WellFormed(m) && m.regs[9] == 9
    ensures RunAsm(BackCode(frame), 2, m, fp, 4) == Halted(9)
  {
    var code := BackCode(frame);
    var m1 := m.(regs := m.regs[0 := 9]);
    assert RunAsm(code, 5, m1, fp, 1) == Halted(9);
    assert RunAsm(code, 4, m1, fp, 2) == Halted(9);
    assert RunAsm(code, 3, m, fp, 3) == Halted(9);
  }

  lemma BackRuns(frame: nat, m: Machine, fp: int64)
    requires WellFormed(m)
    ensures RunAsm(BackCode(frame), 0, m, fp, 10) == Halted(9)
  {
    var code := BackCode(frame);
    Labels(frame);
    hide FindLabel;
    var m1 := m.(regs := m.regs[9 := 7]);
    var m2 := m1.(regs := m1.regs[9 := 9]);
    BackReturns(frame, m2, fp);
    assert RunAsm(code, 9, m2, fp, 5) == Halted(9);
    assert RunAsm(code, 8, m1, fp, 6) == Halted(9);
    assert RunAsm(code, 7, m, fp, 7) == Halted(9);
    assert RunAsm(code, 6, m, fp, 8) == Halted(9);
    assert RunAsm(code, 1, m, fp, 9) == Halted(9);
  }

  lemma Labels(frame: nat)
    ensures FindLabel(BackCode(frame), 2) == 6 && FindLabel(BackCode(frame), 1) == 2
  {
    Arm64Run.FirstLabel(BackCode(frame), 2, 6);
    Arm64Run.FirstLabel(BackCode(frame), 1, 2);
  }

  lemma BackSteps(w: World, s: State)
    ensures var f, s1 := BackFunction(), Define(Define(s, 10, IntVal(7)), 11, IntVal(9));
            && ExecBlock(f, w, 0, 0, s) == Goto(2, false, s)
            && ExecBlock(f, w, 2, 0, s) == Goto(1, false, s1)
            && ExecBlock(f, w, 1, 0, s1) == Done(Returned(Some(IntVal(7))), s1)
  {
    var f := BackFunction();
    var s1 := Define(s, 10, IntVal(7));
    var s2 := Define(s1, 11, IntVal(9));
    assert ExecBlock(f, w, 2, 2, s2) == Goto(1, false, s2);
    assert ExecBlock(f, w, 2, 1, s1) == Goto(1, false, s2);
  }

  lemma BackEdges(s: State)
    ensures Follow(BackFunction(), AtOnce, 0, Goto(2, false, s)) == Some(s)
    ensures Follow(BackFunction(), AtOnce, 2, Goto(1, false, s)) == Some(s)
  {
    NoPhi3(ConstInt(10, 7), ConstInt(11, 9), Jmp(1), 0);
    assert [Ret(10)][1..] == [];
    assert PhiCopies([Ret(10)], 2) == [];
  }

  lemma BackMeans(w: World, b: Budget)
    ensures CallFunction(BackFunction(), w, AtOnce, [], b, 3).o == Returned(Some(IntVal(7)))
  {
    var f := BackFunction();
    var s := Initial(f, [], b);
    BackSteps(w, s);
    var s1 := Define(Define(s, 10, IntVal(7)), 11, IntVal(9));
    BackEdges(s);
    BackEdges(s1);
    hide ExecBlock;
    hide Follow;
    assert Run(f, w, AtOnce, 1, s1, 1).o == Returned(Some(IntVal(7)));
    assert Run(f, w, AtOnce, 2, s, 2).o == Returned(Some(IntVal(7)));
  }

  lemma NoPhi3(a: Inst, b: Inst, c: Inst, from: int)
    requires !a.Phi? && !b.Phi? && !c.Phi?
    ensures PhiCopies([a, b, c], from) == []
  {
    assert [a, b, c][1..] == [b, c] && [b, c][1..] == [c] && [c][1..] == [];
    assert PhiCopies([c], from) == [];
    assert PhiCopies([b, c], from) == [];
  }

  /** The graph returns 7, its code returns 9. */
  lemma BackwardBranchMiscompiled(w: World, b: Budget, m: Machine, fp: int64)
    requires WellFormed(m)
    ensures CallFunction(BackFunction(), w, AtOnce, [], b, 3).o == Returned(Some(IntVal(7)))
    ensures RunAsm(FunctionAsm(Context(BackFunction()), BackFunction()), 0, m, fp, 10) == Halted(9)
  {
    BackMeans(w, b);
    BackRanges();
    BackAllocation();
    var ctx := Context(BackFunction());
    assert ctx.params == [] && ctx.ranges == Allocate(BackDefs()).ranges;
    hide *;
    BackBlocks(ctx);
    BackRuns(ctx.frame, m, fp);
  }
}
