/** Unfolding the emitter and the machine on a given function. */
module Arm64Unfold {
  import opened Ir
  import opened Arm64
  import opened Arm64Alloc
  import opened Arm64Scan
  import opened Arm64Emit
  import opened Wrappers

  lemma ContextIs(f: Function, ranges: seq<LiveRange>, insts: seq<Inst>)
    requires Allocate(LiveRanges(f)).ranges == ranges && Allocate(LiveRanges(f)).next == FIRST_SPILL
    requires Linear(f.blocks) == insts
    ensures Context(f).params == f.params && Context(f).ranges == ranges
    ensures Context(f).allocas == AllocaSlots(insts, FIRST_SPILL)
  {
    hide Allocate;
    hide LiveRanges;
    hide Linear;
  }

  lemma SlotsStep(a: seq<Inst>, i: Inst, top: int)
    requires !i.Alloca?
    ensures AllocaSlots(a + [i], top) == AllocaSlots(a, top)
  {
    assert (a + [i])[..|a|] == a;
  }

  lemma {:induction false} SlotsRest(a: seq<Inst>, b: seq<Inst>, top: int)
    requires forall i <- b :: !i.Alloca?
    ensures AllocaSlots(a + b, top) == AllocaSlots(a, top)
  {
    if b == [] {
      assert a + b == a;
    } else {
      var n := |b| - 1;
      SlotsRest(a, b[..n], top);
      assert a + b == (a + b[..n]) + [b[n]];
      SlotsStep(a + b[..n], b[n], top);
    }
  }

  lemma InstsOne(ctx: Ctx, i: Inst)
    ensures InstsAsm(ctx, [i]) == InstAsm(ctx, i)
  {
    hide InstAsm;
    assert [i][..0] == [];
    assert [] + InstAsm(ctx, i) == InstAsm(ctx, i);
  }

  lemma InstsFive(ctx: Ctx, a: Inst, b: Inst, c: Inst, d: Inst, e: Inst)
    ensures InstsAsm(ctx, [a, b, c, d, e]) ==
            InstAsm(ctx, a) + InstAsm(ctx, b) + InstAsm(ctx, c) + InstAsm(ctx, d) + InstAsm(ctx, e)
  {
    hide InstAsm;
    assert [a, b, c, d, e][..4] == [a, b, c, d] && [a, b, c, d][..3] == [a, b, c] && [a, b, c][..2] == [a, b];
    assert [a, b][..1] == [a];
    InstsOne(ctx, a);
    assert InstsAsm(ctx, [a, b]) == InstAsm(ctx, a) + InstAsm(ctx, b);
    assert InstsAsm(ctx, [a, b, c]) == InstAsm(ctx, a) + InstAsm(ctx, b) + InstAsm(ctx, c);
    assert InstsAsm(ctx, [a, b, c, d]) == InstAsm(ctx, a) + InstAsm(ctx, b) + InstAsm(ctx, c) + InstAsm(ctx, d);
  }

  lemma BlocksThree(ctx: Ctx, a: Block, b: Block, c: Block)
    ensures BlocksAsm(ctx, [a, b, c]) ==
            [Label(a.id)] + InstsAsm(ctx, a.insts) + [Label(b.id)] + InstsAsm(ctx, b.insts) + [Label(c.id)] +
            InstsAsm(ctx, c.insts)
  {
    hide InstsAsm;
    var all := [a, b, c];
    assert all[..2] == [a, b] && [a, b][..1] == [a] && [a][..0] == [];
    assert BlocksAsm(ctx, [a]) == [Label(a.id)] + InstsAsm(ctx, a.insts);
    assert BlocksAsm(ctx, [a, b]) == BlocksAsm(ctx, [a]) + [Label(b.id)] + InstsAsm(ctx, b.insts);
  }

  lemma GotoIs(f: Function, w: World, k: nat, i: nat, s: State, t: int32)
    requires k < |f.blocks| < TWO_31 && i < |f.blocks[k].insts| && Exec(f, w, f.blocks[k].insts[i], s) == Goto(t, false, s)
    ensures ExecBlock(f, w, k, i, s) == Goto(t, false, s)
  {
  }

  lemma RunNext(i: Asm, rest: seq<Asm>, m: Machine, m': Machine, fp: int64)
    requires ExecAsm(i, m, fp) == Some(m')
    ensures RunSeq([i] + rest, m, fp) == RunSeq(rest, m', fp)
  {
    assert ([i] + rest)[1..] == rest;
  }
}
