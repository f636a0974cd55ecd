/** Functions whose branches all go forward need no condition: their live
    ranges already keep every value that is still read. */
module Arm64Forward {
  import opened Ir
  import opened Arm64
  import opened Arm64Alloc
  import opened Arm64Emit
  import opened Arm64Flow
  import opened Arm64Scan
  import opened Arm64Sim
  import opened Arm64Layout
  import opened Arm64Run
  import opened Wrappers

  /** No calls, no phis, and branches only to later blocks. */
  predicate ForwardInst(inst: Inst, k: nat) {
    && !inst.HostCall? && !inst.Phi?
    && (inst.Br? ==> inst.onTrue > k && inst.onFalse > k)
    && (inst.Jmp? ==> inst.target > k)
  }

  predicate ForwardOnly(f: Function) {
    && Fits(f)
    && (forall k, i {:trigger ForwardInst(f.blocks[k].insts[i], k)} ::
          0 <= k < |f.blocks| && 0 <= i < |f.blocks[k].insts| ==> ForwardInst(f.blocks[k].insts[i], k))
  }

  /** The range of the value starts before p, or also ends before p. */
  predicate StartsBefore(ctx: Ctx, id: int, p: nat) {
    var k := IndexOf(ctx.ranges, id);
    id >= 0 && k >= 0 && ctx.ranges[k].first < p
  }

  predicate EndsBefore(ctx: Ctx, id: int, p: nat) {
    var k := IndexOf(ctx.ranges, id);
    id >= 0 && k >= 0 && ctx.ranges[k].last < p
  }

  function Ids(ctx: Ctx): set<int> {
    set r | r in ctx.ranges :: r.id
  }

  function ParamIds(ctx: Ctx): set<int> {
    set p | p in ctx.params :: p.id
  }

  /** What holds before instruction p when control only moves forward. */
  function Before(ctx: Ctx, p: nat): Facts {
    Facts(ParamIds(ctx) + (set id | id in Ids(ctx) && StartsBefore(ctx, id, p)),
          set id | id in Ids(ctx) && ParamReg(ctx.params, id, 0) < 0 && EndsBefore(ctx, id, p), true)
  }

  lemma BeforeLater(ctx: Ctx, p: nat, q: nat)
    requires p <= q
    ensures Leq(Before(ctx, p), Before(ctx, q))
  {
  }

  lemma InIds(ctx: Ctx, id: int)
    ensures id in Ids(ctx) <==> IndexOf(ctx.ranges, id) >= 0
  {
    var k := IndexOf(ctx.ranges, id);
    if k >= 0 {
      assert ctx.ranges[k] in ctx.ranges;
    }
  }

  lemma ParamKnown(ctx: Ctx, id: int)
    requires id in ParamIds(ctx) && |ctx.params| <= MAX_REG_PARAMS
    ensures ParamReg(ctx.params, id, 0) >= 0
  {
  }

  /** A value that instruction p overwrites is not read from p on. */
  lemma OverwrittenEnded(ctx: Ctx, insts: seq<Inst>, p: nat, y: int)
    requires Good(ctx, insts) && p < |insts| && insts[p].Result() >= 0
    requires y in Overwritten(ctx, Before(ctx, p), insts[p].Result())
    ensures y in Before(ctx, p + 1).stale
  {
    assert DefOk(ctx, insts, p);
    var x := insts[p].Result();
    var i, j := IndexOf(ctx.ranges, y), IndexOf(ctx.ranges, x);
    if y in ParamIds(ctx) {
      ParamKnown(ctx, y);
    }
    InIds(ctx, y);
    assert i != j;
    if i < j {
      assert Apart(ctx.ranges[i], ctx.ranges[j]);
    } else {
      assert Apart(ctx.ranges[j], ctx.ranges[i]);
    }
  }

  lemma AfterBefore(ctx: Ctx, insts: seq<Inst>, p: nat)
    requires Good(ctx, insts) && p < |insts|
    ensures Leq(AfterInst(ctx, Before(ctx, p), insts[p]), Before(ctx, p + 1))
  {
    var x := insts[p].Result();
    BeforeLater(ctx, p, p + 1);
    if x >= 0 {
      assert DefOk(ctx, insts, p);
      InIds(ctx, x);
      forall y | y in Overwritten(ctx, Before(ctx, p), x)
        ensures y in Before(ctx, p + 1).stale
      {
        OverwrittenEnded(ctx, insts, p, y);
      }
      hide Overwritten;
    }
  }

  /** What an instruction reads is not stale there. */
  lemma ReadyBefore(ctx: Ctx, insts: seq<Inst>, p: nat)
    requires Good(ctx, insts) && p < |insts| && !insts[p].HostCall? && !insts[p].Phi?
    requires insts[p].Alloca? ==> insts[p].id >= 0
    ensures Ready(ctx, Before(ctx, p), insts[p])
  {
    forall x <- Reads(ctx, insts[p])
      ensures x !in Before(ctx, p).stale
    {
      ReadsAreUses(ctx, insts[p], x);
      assert UseOk(ctx, insts, p, x);
    }
    if insts[p].Alloca? {
      assert insts[p].Result() == insts[p].id;
      assert DefOk(ctx, insts, p);
      if insts[p].id in ParamIds(ctx) {
        ParamKnown(ctx, insts[p].id);
      }
    }
  }

  lemma ReadsAreUses(ctx: Ctx, inst: Inst, x: int)
    requires x in Reads(ctx, inst)
    ensures x in Uses(inst)
  {
  }

  lemma ReadyWeaker(ctx: Ctx, a: Facts, b: Facts, inst: Inst)
    requires Leq(a, b) && Ready(ctx, b, inst)
    ensures Ready(ctx, a, inst)
  {
  }

  // ---- the facts of a whole function ----

  function ForwardFacts(f: Function): seq<Facts> {
    seq(|f.blocks|, k requires 0 <= k < |f.blocks| => Before(Context(f), NumAt(f, k, 0)))
  }

  lemma {:induction false} LaterNumber(f: Function, k: nat, i: nat, t: nat)
    requires k < t < |f.blocks| && i <= |f.blocks[k].insts|
    ensures NumAt(f, k, i) <= NumAt(f, t, 0)
  {
    assert f.blocks[..k + 1][..k] == f.blocks[..k];
    assert f.blocks[..t][..k + 1] == f.blocks[..k + 1];
    BlocksPrefix(Ctx([], [], [], 0), f.blocks[..t], k + 1);
  }

  lemma {:induction false} FactsBefore(f: Function, k: nat, i: nat)
    requires Fits(f) && k < |f.blocks| && i <= |f.blocks[k].insts|
    ensures Leq(FactsAt(f, ForwardFacts(f), k, i), Before(Context(f), NumAt(f, k, i)))
  {
    if i == 0 {
      hide Context;
      hide Before;
      FactsHead(f, ForwardFacts(f), k);
    } else {
      FactsBefore(f, k, i - 1);
      hide *;
      FactsStep(f, k, i - 1);
    }
  }

  lemma FactsStep(f: Function, k: nat, i: nat)
    requires Fits(f) && k < |f.blocks| && i < |f.blocks[k].insts|
    requires Leq(FactsAt(f, ForwardFacts(f), k, i), Before(Context(f), NumAt(f, k, i)))
    ensures Leq(FactsAt(f, ForwardFacts(f), k, i + 1), Before(Context(f), NumAt(f, k, i + 1)))
  {
    assert WithinLimits(f.params, Linear(f.blocks)) && NumAt(f, k, i + 1) == NumAt(f, k, i) + 1 &&
           |ForwardFacts(f)| == |f.blocks| by {
      hide Context;
      hide Linear;
      hide WithinLimits;
    }
    hide *;
    var ctx, inst, p := Context(f), f.blocks[k].insts[i], NumAt(f, k, i);
    FactsNext(f, ForwardFacts(f), k, i);
    ContextGood(f);
    InstAt(ctx, f, k, i);
    AfterMonotone(ctx, FactsAt(f, ForwardFacts(f), k, i), Before(ctx, p), inst);
    AfterBefore(ctx, Linear(f.blocks), p);
    LeqTrans(FactsAt(f, ForwardFacts(f), k, i + 1), AfterInst(ctx, Before(ctx, p), inst), Before(ctx, p + 1));
  }

  lemma LeqTrans(a: Facts, b: Facts, c: Facts)
    requires Leq(a, b) && Leq(b, c)
    ensures Leq(a, c)
  {
  }

  lemma ForwardEdge(f: Function, k: nat, i: nat, t: int)
    requires Fits(f) && k < |f.blocks| && i <= |f.blocks[k].insts| && t > k
    ensures EdgeOk(ForwardFacts(f), FactsAt(f, ForwardFacts(f), k, i), t)
  {
    if t < |f.blocks| {
      FactsBefore(f, k, i);
      LaterNumber(f, k, i, t);
      BeforeLater(Context(f), NumAt(f, k, i), NumAt(f, t, 0));
      hide Context;
      hide FactsAt;
      hide Before;
    }
  }

  lemma ForwardPoint(f: Function, k: nat, i: nat)
    requires ForwardOnly(f) && k < |f.blocks| && i < |f.blocks[k].insts|
    ensures PointOk(f, ForwardFacts(f), k, i)
  {
    var ctx, inst, p := Context(f), f.blocks[k].insts[i], NumAt(f, k, i);
    assert ForwardInst(inst, k);
    FactsBefore(f, k, i);
    ContextGood(f);
    InstAt(ctx, f, k, i);
    DefinesId(f.params, Linear(f.blocks), p);
    hide Context;
    hide FactsAt;
    hide Before;
    hide Good;
    hide Linear;
    hide Ready;
    hide EdgeOk;
    ReadyBefore(ctx, Linear(f.blocks), p);
    ReadyWeaker(ctx, FactsAt(f, ForwardFacts(f), k, i), Before(ctx, p), inst);
    if inst.Br? {
      ForwardEdge(f, k, i, inst.onTrue);
      ForwardEdge(f, k, i, inst.onFalse);
    } else if inst.Jmp? {
      ForwardEdge(f, k, i, inst.target);
    }
  }

  lemma ForwardLowerable(f: Function)
    requires ForwardOnly(f)
    ensures Lowerable(f, ForwardFacts(f))
  {
    var facts := ForwardFacts(f);
    forall k, i {:trigger PointOk(f, facts, k, i)} | 0 <= k < |f.blocks| && 0 <= i < |f.blocks[k].insts|
      ensures PointOk(f, facts, k, i)
    {
      ForwardPoint(f, k, i);
    }
    forall k {:trigger FallOk(f, facts, k)} | 0 <= k < |f.blocks|
      ensures FallOk(f, facts, k)
    {
      ForwardEdge(f, k, |f.blocks[k].insts|, k + 1);
    }
    forall p <- f.params
      ensures p.id in facts[0].defined
    {
      assert p in Context(f).params;
    }
    hide Context;
    hide PointOk;
    hide FallOk;
  }

  /** Whatever a call-free, phi-free function with forward branches returns, its
      code returns. */
  lemma ForwardFunctionCorrect(f: Function, w: World, args: seq<Val>, b: Budget, fuel: nat, m: Machine, fp: int64,
                               v: Option<Val>) returns (n: nat)
    requires ForwardOnly(f) && FrameFits(fp) && ArgsMatch(f.params, args) && Entry(args, m)
    requires CallFunction(f, w, AtOnce, args, b, fuel).o == Returned(v)
    ensures forall time: nat :: time >= n ==> Answers(RunAsm(FunctionAsm(Context(f), f), 0, m, fp, time), v)
  {
    ForwardLowerable(f);
    hide *;
    n := LoweredFunctionCorrect(f, ForwardFacts(f), w, args, b, fuel, m, fp, v);
  }
}
