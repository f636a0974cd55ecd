/** Two loops that differ only in what is returned after them: one keeps its
    invariant value in a register of its own, the other loses it. */
module Arm64Loops {
  import opened Ir
  import opened Arm64
  import opened Arm64Alloc
  import opened Arm64Emit
  import opened Arm64FirstFit
  import opened Arm64Flow
  import opened Arm64Scan
  import opened Arm64Layout
  import opened Arm64Run
  import opened Arm64Sim
  import opened Arm64Unfold
  import opened Wrappers

  /** done = false; a = 7; do { was = done; b = -a; done = true } while !was;
      return value x, which is 3 (a) or 5 (b). */
  function LoopFunction(x: int): Function {
    Function(I64, [], [
      Block(0, [Alloca(1), ConstBool(2, false), Store(2, 1), ConstInt(3, 7), Jmp(1)]),
      Block(1, [Load(4, Bool, 1), Neg(5, 3), ConstBool(6, true), Store(6, 1), Br(4, 2, 1)]),
      Block(2, [Ret(x)])])
  }

  function LoopInsts(x: int): seq<Inst> {
    [Alloca(1), ConstBool(2, false), Store(2, 1), ConstInt(3, 7), Jmp(1),
     Load(4, Bool, 1), Neg(5, 3), ConstBool(6, true), Store(6, 1), Br(4, 2, 1), Ret(x)]
  }

  lemma LoopLinear(x: int)
    ensures Linear(LoopFunction(x).blocks) == LoopInsts(x)
  {
    var b := LoopFunction(x).blocks;
    assert b[..1][..0] == [] && b[..2][..1] == b[..1] && b[..|b| - 1] == b[..2];
    assert Linear(b[..1]) == b[0].insts;
    assert Linear(b[..2]) == b[0].insts + b[1].insts;
  }

  // ---- live ranges ----

  /** The six values with the last uses given. */
  function Live(l1: nat, l2: nat, l3: nat, l4: nat, l5: nat, l6: nat): seq<LiveRange> {
    [LiveRange(1, -1, -1, 0, l1), LiveRange(2, -1, -1, 1, l2), LiveRange(3, -1, -1, 3, l3),
     LiveRange(4, -1, -1, 5, l4), LiveRange(5, -1, -1, 6, l5), LiveRange(6, -1, -1, 7, l6)]
  }

  function LoopEnds(x: int): seq<nat> {
    if x == 3 then [8, 2, 10, 9, 6, 8] else [8, 2, 6, 9, 10, 8]
  }

  function LoopLive(x: int): seq<LiveRange> {
    var l := LoopEnds(x);
    Live(l[0], l[1], l[2], l[3], l[4], l[5])
  }

  const FIRSTS: seq<nat> := [0, 1, 3, 5, 6, 7]

  lemma LoopDefs(x: int)
    ensures Defs(LoopInsts(x)) == Live(0, 1, 3, 5, 6, 7)
  {
    DefsExact(LoopInsts(x), FIRSTS);
    hide Defs;
  }

  lemma LiveIndex(r: seq<LiveRange>, k: nat)
    requires r == Live(0, 1, 3, 5, 6, 7) && k < 6
    ensures IndexOf(r, r[k].id) == k && r[k].id == k + 1
  {
  }

  lemma LoopUses(x: int, p: nat)
    requires p < 11
    ensures Uses(LoopInsts(x)[p]) ==
            match p
            case 2 => [2, 1]
            case 5 => [1]
            case 6 => [3]
            case 8 => [6, 1]
            case 9 => [4]
            case 10 => [x]
            case _ => []
  {
  }

  lemma LoopUse(x: int, k: nat)
    requires (x == 3 || x == 5) && k < 6
    ensures LastUse(Live(0, 1, 3, 5, 6, 7), LoopInsts(x), k, LoopEnds(x)[k])
  {
    var insts := LoopInsts(x);
    assert |insts| == 11;
    hide Uses;
    hide LoopInsts;
    forall p | 0 <= p < 11
      ensures k + 1 in Uses(insts[p]) ==> p <= LoopEnds(x)[k]
      ensures p == LoopEnds(x)[k] && p > FIRSTS[k] ==> k + 1 in Uses(insts[p])
    {
      LoopUses(x, p);
    }
  }

  lemma LoopRanges(x: int)
    requires x == 3 || x == 5
    ensures LiveRanges(LoopFunction(x)) == LoopLive(x)
  {
    LoopLinear(x);
    LoopDefs(x);
    var r := Live(0, 1, 3, 5, 6, 7);
    assert WithParams(r, []) == r;
    hide Linear;
    hide Defs;
    hide ExtendUses;
    hide LastUse;
    hide LoopInsts;
    forall k | 0 <= k < 6
      ensures |ExtendUses(r, LoopInsts(x))| == 6 && ExtendUses(r, LoopInsts(x))[k] == r[k].(last := LoopEnds(x)[k])
    {
      LiveIndex(r, k);
      LoopUse(x, k);
      EndsAtLastUse(r, LoopInsts(x), k, LoopEnds(x)[k]);
    }
    assert ExtendUses(r, LoopInsts(x)) == LoopLive(x);
  }

  // ---- allocation ----

  /** The last value takes the register of the first that has ended: of the
      invariant a, or of b. */
  function LoopRegs(x: int): seq<nat> {
    [0, 1, 1, 2, 3, if x == 3 then 3 else 1]
  }

  lemma LoopFit(x: int, k: nat)
    requires k < 6
    ensures FirstFitAt(LoopLive(x), LoopRegs(x), k)
  {
    var r, g := LoopLive(x), LoopRegs(x);
    assert k >= 1 ==> g[0] == 0 && r[0].last >= r[k].first;
    assert k >= 3 && (x == 3 || k <= 4) ==> g[2] == 1 && r[2].last >= r[k].first;
    assert k >= 4 ==> g[3] == 2 && r[3].last >= r[k].first;
  }

  lemma LoopFirstFit(x: int)
    ensures FirstFit(LoopLive(x), LoopRegs(x))
  {
    hide FirstFitAt;
    forall k | 0 <= k < 6
      ensures FirstFitAt(LoopLive(x), LoopRegs(x), k)
    {
      LoopFit(x, k);
    }
  }

  lemma LoopScan(x: int)
    requires x == 3 || x == 5
    ensures Allocate(LiveRanges(LoopFunction(x))).ranges == InRegs(LoopLive(x), LoopRegs(x))
    ensures Allocate(LiveRanges(LoopFunction(x))).next == FIRST_SPILL
  {
    hide *;
    LoopRanges(x);
    LoopFirstFit(x);
    FirstFitCorrect(LoopLive(x), LoopRegs(x));
  }

  lemma LoopContext(x: int)
    requires x == 3 || x == 5
    ensures var ctx := Context(LoopFunction(x));
            ctx.params == [] && ctx.allocas == [Slot(1, -24)] && ctx.ranges == InRegs(LoopLive(x), LoopRegs(x))
  {
    LoopScan(x);
    LoopLinear(x);
    LoopSlots(x);
    ContextIs(LoopFunction(x), InRegs(LoopLive(x), LoopRegs(x)), LoopInsts(x));
    hide Context;
    hide LoopInsts;
    hide InRegs;
  }

  lemma LoopSlots(x: int)
    ensures AllocaSlots(LoopInsts(x), -16) == [Slot(1, -24)]
  {
    var i := LoopInsts(x);
    assert i == [Alloca(1)] + i[1..];
    SlotsRest([Alloca(1)], i[1..], -16);
    assert [Alloca(1)][..0] == [];
  }

  // ---- what the graph means ----

  function AfterEntry(s: State): State {
    s.(env := s.env[1 := PtrVal(0)][2 := BoolVal(false)][3 := IntVal(7)], cells := s.cells[0 := BoolVal(false)], next := 1)
  }

  lemma EntryMeans(x: int, w: World, s: State)
    requires s.next == 0 < w.cells
    ensures ExecBlock(LoopFunction(x), w, 0, 0, s) == Goto(1, false, AfterEntry(s))
  {
    hide ExecBlock;
    var f := LoopFunction(x);
    var s1 := Define(s, 1, PtrVal(0)).(next := 1);
    var s2 := Define(s1, 2, BoolVal(false));
    var s3 := s2.(cells := s2.cells[0 := BoolVal(false)]);
    NextInst(f, w, 0, 0, s, s1);
    NextInst(f, w, 0, 1, s1, s2);
    NextInst(f, w, 0, 2, s2, s3);
    NextInst(f, w, 0, 3, s3, AfterEntry(s));
    GotoIs(f, w, 0, 4, AfterEntry(s), 1);
  }

  predicate InLoop(s: State, done: bool) {
    && Get(s.env, 1) == Some(PtrVal(0)) && Get(s.env, 3) == Some(IntVal(7))
    && 0 in s.cells && s.cells[0] == BoolVal(done)
  }

  function AfterBody(s: State, done: bool): State {
    s.(env := s.env[4 := BoolVal(done)][5 := IntVal(-7)][6 := BoolVal(true)], cells := s.cells[0 := BoolVal(true)])
  }

  lemma BodyReads(x: int, w: World, s: State, done: bool)
    requires InLoop(s, done)
    ensures ExecBlock(LoopFunction(x), w, 1, 0, s) ==
            ExecBlock(LoopFunction(x), w, 1, 2, Define(Define(s, 4, BoolVal(done)), 5, IntVal(-7)))
  {
    hide ExecBlock;
    var f := LoopFunction(x);
    var s1 := Define(s, 4, BoolVal(done));
    NextInst(f, w, 1, 0, s, s1);
    NextInst(f, w, 1, 1, s1, Define(s1, 5, IntVal(-7)));
  }

  lemma BodyMeans(x: int, w: World, s: State, done: bool)
    requires InLoop(s, done)
    ensures ExecBlock(LoopFunction(x), w, 1, 0, s) == Goto(if done then 2 else 1, false, AfterBody(s, done))
  {
    hide ExecBlock;
    var f := LoopFunction(x);
    BodyReads(x, w, s, done);
    var s2 := Define(Define(s, 4, BoolVal(done)), 5, IntVal(-7));
    var s3 := Define(s2, 6, BoolVal(true));
    NextInst(f, w, 1, 2, s2, s3);
    NextInst(f, w, 1, 3, s3, AfterBody(s, done));
    GotoIs(f, w, 1, 4, AfterBody(s, done), if done then 2 else 1);
  }

  lemma NoPhisHere(x: int, from: int, t: nat, s: State)
    requires t < 3
    ensures Follow(LoopFunction(x), AtOnce, from, Goto(t, false, s)) == Some(s)
  {
    NoPhisNoCopies(LoopFunction(x).blocks[t].insts, from);
  }

  lemma TurnIs(x: int, w: World, k: nat, s: State, t: nat, s': State, fuel: nat)
    requires k < 3 && t < 3 && fuel > 0 && ExecBlock(LoopFunction(x), w, k, 0, s) == Goto(t, false, s')
    ensures Run(LoopFunction(x), w, AtOnce, k, s, fuel) == Run(LoopFunction(x), w, AtOnce, t, s', fuel - 1)
  {
    NoPhisHere(x, k, t, s');
    hide Follow;
    hide ExecBlock;
  }

  lemma CallMeans(x: int, w: World, b: Budget)
    ensures ArgsMatch(LoopFunction(x).params, []) && |LoopFunction(x).blocks| == 3
    ensures Initial(LoopFunction(x), [], b).next == 0
    ensures CallFunction(LoopFunction(x), w, AtOnce, [], b, 4) ==
            Run(LoopFunction(x), w, AtOnce, 0, Initial(LoopFunction(x), [], b), 4)
  {
    hide Run;
  }

  /** After two turns of the loop the function returns 7, or -7. */
  lemma LoopMeans(x: int, w: World, b: Budget)
    requires w.cells > 0 && (x == 3 || x == 5)
    ensures CallFunction(LoopFunction(x), w, AtOnce, [], b, 4).o == Returned(Some(IntVal(if x == 3 then 7 else -7)))
  {
    hide ExecBlock;
    hide Run;
    hide LoopFunction;
    var f := LoopFunction(x);
    CallMeans(x, w, b);
    var s0 := Initial(f, [], b);
    var s1 := AfterEntry(s0);
    var s2 := AfterBody(s1, false);
    var s3 := AfterBody(s2, true);
    EntryMeans(x, w, s0);
    BodyMeans(x, w, s1, false);
    BodyMeans(x, w, s2, true);
    TurnIs(x, w, 0, s0, 1, s1, 4);
    TurnIs(x, w, 1, s1, 1, s2, 3);
    TurnIs(x, w, 1, s2, 2, s3, 2);
    RetMeans(f, w, x, s3, if x == 3 then 7 else -7);
  }

  lemma RetMeans(f: Function, w: World, x: int, s: State, n: int64)
    requires f == LoopFunction(x) && x >= 0 && Get(s.env, x) == Some(IntVal(n))
    ensures Run(f, w, AtOnce, 2, s, 1).o == Returned(Some(IntVal(n)))
  {
    assert ExecBlock(f, w, 2, 0, s) == Done(Returned(Some(IntVal(n))), s);
  }

  // ---- the loop that is lowered correctly ----

  lemma LoopIndex(x: int, k: nat)
    requires k < 6
    ensures var r := InRegs(LoopLive(x), LoopRegs(x)); IndexOf(r, k + 1) == k && r[k].reg == FIRST_TEMP + LoopRegs(x)[k]
  {
    var r := InRegs(LoopLive(x), LoopRegs(x));
    assert r[k].id == k + 1;
  }

  lemma LoopHome(x: int, k: nat)
    requires (x == 3 || x == 5) && k < 6
    ensures var ctx := Context(LoopFunction(x));
            IndexOf(ctx.ranges, k + 1) == k && ctx.ranges[k].reg == 9 + LoopRegs(x)[k] &&
            ParamReg(ctx.params, k + 1, 0) == -1 &&
            SourceOf(ctx, k + 1) == TargetOf(ctx, k + 1) == InReg(9 + LoopRegs(x)[k])
  {
    LoopContext(x);
    LoopIndex(x, k);
    hide Context;
    hide InRegs;
    hide LoopRegs;
    hide LoopFunction;
  }

  /** The head of the loop is reached again with the stored constant and b gone. */
  function LoopFacts(): seq<Facts> {
    [Facts({}, {}, false), Facts({1, 2, 3, 4, 5, 6}, {2, 5}, false), Facts({1, 2, 3, 4, 5, 6}, {2, 5}, false)]
  }

  predicate Twins(x: int, y: int) {
    x == y || (x == 2 && y == 3) || (x == 3 && y == 2) || (x == 5 && y == 6) || (x == 6 && y == 5)
  }

  lemma TwinRegs(i: nat, j: nat)
    requires i < 6 && j < 6
    ensures LoopRegs(3)[i] == LoopRegs(3)[j] <==> Twins(i + 1, j + 1)
  {
  }

  lemma SharedRegister(x: int, y: int)
    requires 1 <= x <= 6 && 1 <= y <= 6
    ensures SameRegister(Context(LoopFunction(3)), x, y) <==> Twins(x, y)
  {
    LoopHome(3, x - 1);
    LoopHome(3, y - 1);
    TwinRegs(x - 1, y - 1);
    hide Context;
    hide LoopRegs;
    hide Twins;
    hide LoopFunction;
  }

  lemma Overwrites(at: Facts, x: int)
    requires 1 <= x <= 6 && forall y <- at.defined :: 1 <= y <= 6
    ensures forall y :: y in Overwritten(Context(LoopFunction(3)), at, x) <==> y in at.defined && y != x && Twins(y, x)
  {
    hide SameRegister;
    hide Context;
    hide Twins;
    forall y <- at.defined
      ensures SameRegister(Context(LoopFunction(3)), y, x) <==> Twins(y, x)
      ensures ParamReg(Context(LoopFunction(3)).params, y, 0) < 0
    {
      SharedRegister(y, x);
      LoopHome(3, y - 1);
    }
  }

  /** Facts after an instruction with result x. */
  lemma Defining(k: nat, i: nat, defined: set<int>, stale: set<int>, x: int, overwritten: set<int>)
    requires k < 3 && i < |LoopFunction(3).blocks[k].insts| && LoopFunction(3).blocks[k].insts[i].Result() == x
    requires 1 <= x <= 6 && forall y <- defined :: 1 <= y <= 6
    requires FactsAt(LoopFunction(3), LoopFacts(), k, i) == Facts(defined, stale, false)
    requires forall y :: y in overwritten <==> y in defined && y != x && Twins(y, x)
    ensures FactsAt(LoopFunction(3), LoopFacts(), k, i + 1) == Facts(defined + {x}, stale - {x} + overwritten, false)
  {
    Overwrites(Facts(defined, stale, false), x);
    FactsNext(LoopFunction(3), LoopFacts(), k, i);
    hide Context;
    hide FactsAt;
    hide Overwritten;
    hide Twins;
    assert Overwritten(Context(LoopFunction(3)), Facts(defined, stale, false), x) == overwritten;
  }

  lemma StoresScalar(inst: Inst)
    requires inst.Store? ==> inst.val != 1
    ensures !Escapes(Context(LoopFunction(3)), inst)
  {
    LoopContext(3);
    hide Context;
    hide InRegs;
  }

  lemma NotDefining(k: nat, i: nat, inst: Inst, at: Facts)
    requires k < 3 && i < |LoopFunction(3).blocks[k].insts| && LoopFunction(3).blocks[k].insts[i] == inst
    requires inst.Store? && inst.val != 1 && FactsAt(LoopFunction(3), LoopFacts(), k, i) == at
    ensures FactsAt(LoopFunction(3), LoopFacts(), k, i + 1) == at
  {
    FactsNext(LoopFunction(3), LoopFacts(), k, i);
    StoresScalar(inst);
    hide Context;
    hide FactsAt;
    hide Escapes;
    hide LoopFunction;
  }

  lemma EntryFacts()
    ensures var f, facts := LoopFunction(3), LoopFacts();
            && FactsAt(f, facts, 0, 0) == Facts({}, {}, false) && FactsAt(f, facts, 0, 1) == Facts({1}, {}, false)
            && FactsAt(f, facts, 0, 2) == FactsAt(f, facts, 0, 3) == Facts({1, 2}, {}, false)
            && FactsAt(f, facts, 0, 4) == Facts({1, 2, 3}, {2}, false)
  {
    hide FactsAt;
    var f, facts := LoopFunction(3), LoopFacts();
    FactsHead(f, facts, 0);
    Defining(0, 0, {}, {}, 1, {});
    assert {} + {1} == {1} && {} - {1} + {} == {};
    Defining(0, 1, {1}, {}, 2, {});
    assert {1} + {2} == {1, 2} && {} - {2} + {} == {};
    NotDefining(0, 2, Store(2, 1), Facts({1, 2}, {}, false));
    Defining(0, 3, {1, 2}, {}, 3, {2});
    assert {1, 2} + {3} == {1, 2, 3} && {} - {3} + {2} == {2};
  }

  lemma BodyFacts()
    ensures var f, facts, all := LoopFunction(3), LoopFacts(), {1, 2, 3, 4, 5, 6};
            && FactsAt(f, facts, 1, 0) == FactsAt(f, facts, 1, 1) == Facts(all, {2, 5}, false)
            && FactsAt(f, facts, 1, 2) == Facts(all, {2, 6}, false)
            && FactsAt(f, facts, 1, 3) == FactsAt(f, facts, 1, 4) == Facts(all, {2, 5}, false)
            && FactsAt(f, facts, 2, 0) == Facts(all, {2, 5}, false)
  {
    hide FactsAt;
    var f, facts, all := LoopFunction(3), LoopFacts(), {1, 2, 3, 4, 5, 6};
    FactsHead(f, facts, 1);
    FactsHead(f, facts, 2);
    Defining(1, 0, all, {2, 5}, 4, {});
    assert all + {4} == all && {2, 5} - {4} + {} == {2, 5};
    Defining(1, 1, all, {2, 5}, 5, {6});
    assert all + {5} == all && {2, 5} - {5} + {6} == {2, 6};
    Defining(1, 2, all, {2, 6}, 6, {5});
    assert all + {6} == all && {2, 6} - {6} + {5} == {2, 5};
    NotDefining(1, 3, Store(6, 1), Facts(all, {2, 5}, false));
  }

  lemma PointGood(k: nat, i: nat, inst: Inst, at: Facts, operands: seq<int>)
    requires k < 3 && i < |LoopFunction(3).blocks[k].insts| && inst == LoopFunction(3).blocks[k].insts[i]
    requires FactsAt(LoopFunction(3), LoopFacts(), k, i) == at && !inst.HostCall? && !inst.Phi?
    requires Reads(Context(LoopFunction(3)), inst) == operands && forall x <- operands :: x !in at.stale
    requires inst.Alloca? ==> inst.id !in at.defined
    requires inst.Br? || inst.Jmp? ==> Leq(at, LoopFacts()[1])
    ensures PointOk(LoopFunction(3), LoopFacts(), k, i)
  {
    hide FactsAt;
    hide Context;
    hide Reads;
  }

  /** The flag is addressed by its slot. */
  lemma FlagReads(inst: Inst)
    ensures var ctx := Context(LoopFunction(3));
            && (inst.Store? && inst.addr == 1 ==> Reads(ctx, inst) == [inst.val])
            && (inst.Load? && inst.addr == 1 ==> Reads(ctx, inst) == [])
            && (!inst.Store? && !inst.Load? ==> Reads(ctx, inst) == Uses(inst))
  {
    FlagOffset(3);
    hide Context;
    hide AllocaOffset;
    hide LoopFunction;
    hide Uses;
  }

  lemma EntryPoints(i: nat)
    requires i < 5
    ensures PointOk(LoopFunction(3), LoopFacts(), 0, i)
  {
    EntryFacts();
    hide FactsAt;
    hide Context;
    hide Reads;
    hide PointOk;
    if i == 0 {
      FlagReads(Alloca(1));
      PointGood(0, 0, Alloca(1), Facts({}, {}, false), []);
    } else if i == 1 {
      FlagReads(ConstBool(2, false));
      PointGood(0, 1, ConstBool(2, false), Facts({1}, {}, false), []);
    } else if i == 2 {
      FlagReads(Store(2, 1));
      PointGood(0, 2, Store(2, 1), Facts({1, 2}, {}, false), [2]);
    } else if i == 3 {
      FlagReads(ConstInt(3, 7));
      PointGood(0, 3, ConstInt(3, 7), Facts({1, 2}, {}, false), []);
    } else {
      FlagReads(Jmp(1));
      PointGood(0, 4, Jmp(1), Facts({1, 2, 3}, {2}, false), []);
    }
  }

  lemma BodyPoints(i: nat)
    requires i < 5
    ensures PointOk(LoopFunction(3), LoopFacts(), 1, i)
  {
    BodyFacts();
    hide FactsAt;
    hide Context;
    hide Reads;
    hide PointOk;
    var all := {1, 2, 3, 4, 5, 6};
    if i == 0 {
      FlagReads(Load(4, Bool, 1));
      PointGood(1, 0, Load(4, Bool, 1), Facts(all, {2, 5}, false), []);
    } else if i == 1 {
      FlagReads(Neg(5, 3));
      PointGood(1, 1, Neg(5, 3), Facts(all, {2, 5}, false), [3]);
    } else if i == 2 {
      FlagReads(ConstBool(6, true));
      PointGood(1, 2, ConstBool(6, true), Facts(all, {2, 6}, false), []);
    } else if i == 3 {
      FlagReads(Store(6, 1));
      PointGood(1, 3, Store(6, 1), Facts(all, {2, 5}, false), [6]);
    } else {
      FlagReads(Br(4, 2, 1));
      PointGood(1, 4, Br(4, 2, 1), Facts(all, {2, 5}, false), [4]);
    }
  }

  lemma ExitPoint()
    ensures PointOk(LoopFunction(3), LoopFacts(), 2, 0)
  {
    BodyFacts();
    FlagReads(Ret(3));
    hide FactsAt;
    hide Context;
    hide Reads;
    hide PointOk;
    PointGood(2, 0, Ret(3), FactsAt(LoopFunction(3), LoopFacts(), 2, 0), [3]);
  }

  lemma LoopSingle(x: int)
    ensures SingleAssignment([], LoopInsts(x))
  {
  }

  lemma LoopFits(x: int)
    ensures Fits(LoopFunction(x))
  {
    LoopLinear(x);
    LoopSingle(x);
    CountsBelow(LoopInsts(x));
    assert |LoopInsts(x)| == 11;
    hide Linear;
    hide Values;
    hide Allocas;
    hide SingleAssignment;
    hide LoopInsts;
  }

  lemma {:induction false} CountsBelow(insts: seq<Inst>)
    ensures Values(insts) <= |insts| && Allocas(insts) <= |insts|
  {
    if insts != [] {
      CountsBelow(insts[..|insts| - 1]);
    }
  }

  /** A loop whose invariant is needed after it is within the condition. */
  lemma LoopLowerable()
    ensures Lowerable(LoopFunction(3), LoopFacts())
  {
    LoopFits(3);
    hide Fits;
    hide PointOk;
    var f, facts := LoopFunction(3), LoopFacts();
    forall k, i {:trigger PointOk(f, facts, k, i)} | 0 <= k < |f.blocks| && 0 <= i < |f.blocks[k].insts|
      ensures PointOk(f, facts, k, i)
    {
      if k == 0 {
        EntryPoints(i);
      } else if k == 1 {
        BodyPoints(i);
      } else {
        ExitPoint();
      }
    }
    LoopFalls();
  }

  lemma LoopFalls()
    ensures forall k {:trigger FallOk(LoopFunction(3), LoopFacts(), k)} :: 0 <= k < 3 ==> FallOk(LoopFunction(3), LoopFacts(), k)
  {
    hide FactsAt;
  }

  // ---- the loop that loses its invariant ----

  function EntryCode(): seq<Asm> {
    [SubFp(9, 24), MovImm(10, 0), StrFp(10, -24), MovImm(10, 7), Jump(1)]
  }

  function BodyCode(): seq<Asm> {
    [LdrFp(11, -24), NegReg(12, 10), MovImm(10, 1), StrFp(10, -24), Cbz(11, 1), Jump(2)]
  }

  function LoopCode(frame: nat): seq<Asm> {
    [Label(0)] + EntryCode() + [Label(1)] + BodyCode() + [Label(2)] + [Mov(0, 12), Ldp(frame), RetA]
  }

  predicate LoopHomes(ctx: Ctx) {
    && AllocaOffset(ctx, 1) == -24
    && TargetOf(ctx, 1) == InReg(9) && SourceOf(ctx, 2) == TargetOf(ctx, 2) == InReg(10)
    && SourceOf(ctx, 3) == TargetOf(ctx, 3) == InReg(10) && SourceOf(ctx, 4) == TargetOf(ctx, 4) == InReg(11)
    && SourceOf(ctx, 5) == TargetOf(ctx, 5) == InReg(12) && SourceOf(ctx, 6) == TargetOf(ctx, 6) == InReg(10)
  }

  lemma FlagOffset(x: int)
    requires x == 3 || x == 5
    ensures AllocaOffset(Context(LoopFunction(x)), 1) == -24
  {
    LoopContext(x);
    hide Context;
    hide InRegs;
    hide LoopRegs;
  }

  lemma HomesAre()
    ensures LoopHomes(Context(LoopFunction(5)))
  {
    hide Context;
    hide SourceOf;
    hide TargetOf;
    hide LoopFunction;
    hide AllocaOffset;
    hide IndexOf;
    FlagOffset(5);
    LoopHome(5, 0);
    LoopHome(5, 1);
    LoopHome(5, 2);
    LoopHome(5, 3);
    LoopHome(5, 4);
    LoopHome(5, 5);
  }

  lemma EntryInstCodes(ctx: Ctx)
    requires LoopHomes(ctx)
    ensures InstAsm(ctx, Alloca(1)) == [SubFp(9, 24)] && InstAsm(ctx, ConstBool(2, false)) == [MovImm(10, 0)]
    ensures InstAsm(ctx, Store(2, 1)) == [StrFp(10, -24)] && InstAsm(ctx, ConstInt(3, 7)) == [MovImm(10, 7)]
    ensures InstAsm(ctx, Jmp(1)) == [Jump(1)]
  {
    hide SourceOf;
    hide TargetOf;
    hide AllocaOffset;
  }

  lemma BodyInstCodes(ctx: Ctx)
    requires LoopHomes(ctx)
    ensures InstAsm(ctx, Load(4, Bool, 1)) == [LdrFp(11, -24)] && InstAsm(ctx, Neg(5, 3)) == [NegReg(12, 10)]
    ensures InstAsm(ctx, ConstBool(6, true)) == [MovImm(10, 1)] && InstAsm(ctx, Store(6, 1)) == [StrFp(10, -24)]
    ensures InstAsm(ctx, Br(4, 2, 1)) == [Cbz(11, 1), Jump(2)]
    ensures InstAsm(ctx, Ret(5)) == [Mov(0, 12), Ldp(ctx.frame), RetA]
  {
    hide SourceOf;
    hide TargetOf;
    hide AllocaOffset;
  }

  lemma LoopBlocks(ctx: Ctx)
    requires LoopHomes(ctx)
    ensures InstsAsm(ctx, LoopFunction(5).blocks[0].insts) == EntryCode()
    ensures InstsAsm(ctx, LoopFunction(5).blocks[1].insts) == BodyCode()
    ensures InstsAsm(ctx, LoopFunction(5).blocks[2].insts) == [Mov(0, 12), Ldp(ctx.frame), RetA]
  {
    hide InstAsm;
    hide InstsAsm;
    hide LoopHomes;
    EntryInstCodes(ctx);
    BodyInstCodes(ctx);
    InstsFive(ctx, Alloca(1), ConstBool(2, false), Store(2, 1), ConstInt(3, 7), Jmp(1));
    InstsFive(ctx, Load(4, Bool, 1), Neg(5, 3), ConstBool(6, true), Store(6, 1), Br(4, 2, 1));
    InstsOne(ctx, Ret(5));
  }

  lemma LoopCodeIs(ctx: Ctx)
    requires LoopHomes(ctx)
    ensures FunctionAsm(ctx, LoopFunction(5)) == LoopCode(ctx.frame)
  {
    LoopBlocks(ctx);
    var b := LoopFunction(5).blocks;
    BlocksThree(ctx, b[0], b[1], b[2]);
    hide InstsAsm;
    hide BlocksAsm;
    hide LoopHomes;
    hide EntryCode;
    hide BodyCode;
  }

  lemma LoopLabels(frame: nat)
    ensures FindLabel(LoopCode(frame), 1) == 6 && FindLabel(LoopCode(frame), 2) == 13
    ensures Segment(LoopCode(frame), 0, [Label(0)] + EntryCode()[..4]) && LoopCode(frame)[5] == Jump(1)
    ensures Segment(LoopCode(frame), 6, [Label(1)] + BodyCode()[..4])
    ensures Segment(LoopCode(frame), 11, [Cbz(11, 1), Jump(2)])
    ensures Segment(LoopCode(frame), 13, [Label(2), Mov(0, 12), Ldp(frame)] + [RetA])
  {
    FirstLabel(LoopCode(frame), 1, 6);
    FirstLabel(LoopCode(frame), 2, 13);
  }

  /** The flag is in its slot, the constant that shares a register in x10. */
  predicate AtHead(m: Machine, fp: int64, flag: int64, a: int64) {
    WellFormed(m) && At(fp, -24) in m.mem && m.mem[At(fp, -24)] == flag && m.regs[10] == a
  }

  lemma EntrySteps(m: Machine, fp: int64) returns (m': Machine)
    requires WellFormed(m)
    ensures AtHead(m', fp, 0, 7) && RunSeq([Label(0)] + EntryCode()[..4], m, fp) == Some(m')
  {
    var m1 := m.(regs := m.regs[9 := Wrap64(MinusProduct(fp, 1, 24))]);
    var m2 := m1.(regs := m1.regs[10 := 0]);
    var m3 := m2.(mem := WriteWord(m2.mem, At(fp, -24), 0));
    m' := m3.(regs := m3.regs[10 := 7]);
    assert [Label(0)] + EntryCode()[..4] ==
           [Label(0)] + ([SubFp(9, 24)] + ([MovImm(10, 0)] + ([StrFp(10, -24)] + ([MovImm(10, 7)] + []))));
    RunNext(Label(0), [SubFp(9, 24)] + ([MovImm(10, 0)] + ([StrFp(10, -24)] + ([MovImm(10, 7)] + []))), m, m, fp);
    RunNext(SubFp(9, 24), [MovImm(10, 0)] + ([StrFp(10, -24)] + ([MovImm(10, 7)] + [])), m, m1, fp);
    RunNext(MovImm(10, 0), [StrFp(10, -24)] + ([MovImm(10, 7)] + []), m1, m2, fp);
    RunNext(StrFp(10, -24), [MovImm(10, 7)] + [], m2, m3, fp);
    RunNext(MovImm(10, 7), [], m3, m', fp);
  }

  lemma EntryRuns(frame: nat, m: Machine, fp: int64, n: nat) returns (m': Machine)
    requires WellFormed(m)
    ensures AtHead(m', fp, 0, 7)
    ensures RunAsm(LoopCode(frame), 0, m, fp, 6 + n) == RunAsm(LoopCode(frame), 6, m', fp, n)
  {
    hide RunAsm;
    hide RunSeq;
    hide LoopCode;
    hide FindLabel;
    hide Segment;
    m' := EntrySteps(m, fp);
    LoopLabels(frame);
    RunSegment(LoopCode(frame), 0, [Label(0)] + EntryCode()[..4], m, m', fp, 1 + n);
    RunJump(LoopCode(frame), 5, 1, m', fp, n);
  }

  lemma BodySteps(m: Machine, fp: int64, flag: bool, a: int64) returns (m': Machine)
    requires AtHead(m, fp, Bit(flag), a)
    ensures AtHead(m', fp, 1, 1) && m'.regs[11] == Bit(flag) && m'.regs[12] == Wrap64(MinusProduct(0, 1, a))
    ensures RunSeq([Label(1)] + BodyCode()[..4], m, fp) == Some(m')
  {
    var m1 := m.(regs := m.regs[11 := Bit(flag)]);
    var m2 := m1.(regs := m1.regs[12 := Wrap64(MinusProduct(0, 1, a))]);
    var m3 := m2.(regs := m2.regs[10 := 1]);
    m' := m3.(mem := WriteWord(m3.mem, At(fp, -24), 1));
    assert [Label(1)] + BodyCode()[..4] ==
           [Label(1)] + ([LdrFp(11, -24)] + ([NegReg(12, 10)] + ([MovImm(10, 1)] + ([StrFp(10, -24)] + []))));
    RunNext(Label(1), [LdrFp(11, -24)] + ([NegReg(12, 10)] + ([MovImm(10, 1)] + ([StrFp(10, -24)] + []))), m, m, fp);
    RunNext(LdrFp(11, -24), [NegReg(12, 10)] + ([MovImm(10, 1)] + ([StrFp(10, -24)] + [])), m, m1, fp);
    RunNext(NegReg(12, 10), [MovImm(10, 1)] + ([StrFp(10, -24)] + []), m1, m2, fp);
    RunNext(MovImm(10, 1), [StrFp(10, -24)] + [], m2, m3, fp);
    RunNext(StrFp(10, -24), [], m3, m', fp);
  }

  lemma BodyRuns(frame: nat, m: Machine, fp: int64, flag: bool, a: int64, n: nat) returns (m': Machine)
    requires AtHead(m, fp, Bit(flag), a)
    ensures AtHead(m', fp, 1, 1) && m'.regs[12] == Wrap64(MinusProduct(0, 1, a))
    ensures !flag ==> RunAsm(LoopCode(frame), 6, m, fp, 6 + n) == RunAsm(LoopCode(frame), 6, m', fp, n)
    ensures flag ==> RunAsm(LoopCode(frame), 6, m, fp, 7 + n) == RunAsm(LoopCode(frame), 13, m', fp, n)
  {
    hide RunAsm;
    hide RunSeq;
    hide LoopCode;
    hide FindLabel;
    hide Segment;
    m' := BodySteps(m, fp, flag, a);
    LoopLabels(frame);
    RunSegment(LoopCode(frame), 6, [Label(1)] + BodyCode()[..4], m, m', fp, 1 + n);
    RunSegment(LoopCode(frame), 6, [Label(1)] + BodyCode()[..4], m, m', fp, 2 + n);
    RunBranch(LoopCode(frame), 11, 11, 2, 1, m', fp, n);
  }

  lemma ExitRuns(frame: nat, m: Machine, fp: int64)
    requires WellFormed(m)
    ensures RunAsm(LoopCode(frame), 13, m, fp, 4) == Halted(m.regs[12])
  {
    var m' := m.(regs := m.regs[0 := m.regs[12]]);
    var before := [Label(2), Mov(0, 12), Ldp(frame)];
    assert before == [Label(2)] + ([Mov(0, 12)] + ([Ldp(frame)] + []));
    RunNext(Label(2), [Mov(0, 12)] + ([Ldp(frame)] + []), m, m, fp);
    RunNext(Mov(0, 12), [Ldp(frame)] + [], m, m', fp);
    RunNext(Ldp(frame), [], m', m', fp);
    LoopLabels(frame);
    hide ExecAsm;
    RunReturn(LoopCode(frame), 13, before, m, m', fp);
  }

  lemma LoopRuns(frame: nat, m: Machine, fp: int64)
    requires WellFormed(m)
    ensures RunAsm(LoopCode(frame), 0, m, fp, 23) == Halted(-1)
  {
    hide RunAsm;
    hide LoopCode;
    hide AtHead;
    hide Wrap64;
    hide MinusProduct;
    MinusOne();
    var m1 := EntryRuns(frame, m, fp, 17);
    var m2 := BodyRuns(frame, m1, fp, false, 7, 11);
    var m3 := BodyRuns(frame, m2, fp, true, 1, 4);
    HeadFormed(m3, fp);
    ExitRuns(frame, m3, fp);
  }

  lemma HeadFormed(m: Machine, fp: int64)
    requires AtHead(m, fp, 1, 1)
    ensures WellFormed(m)
  {
  }

  lemma MinusOne()
    ensures Wrap64(MinusProduct(0, 1, 1)) == -1 && Bit(false) == 0 && Bit(true) == 1
  {
  }

  /** An ordinary loop-invariant value, last used in the loop before another
      value is defined there: the graph returns -7, its code returns -1. */
  lemma InvariantLost(w: World, b: Budget, m: Machine, fp: int64)
    requires WellFormed(m) && w.cells > 0
    ensures CallFunction(LoopFunction(5), w, AtOnce, [], b, 4).o == Returned(Some(IntVal(-7)))
    ensures RunAsm(FunctionAsm(Context(LoopFunction(5)), LoopFunction(5)), 0, m, fp, 23) == Halted(-1)
  {
    LoopMeans(5, w, b);
    HomesAre();
    var ctx := Context(LoopFunction(5));
    hide *;
    LoopCodeIs(ctx);
    LoopRuns(ctx.frame, m, fp);
  }

  /** No facts make that loop acceptable, while the same loop is accepted when
      it returns the invariant itself. */
  lemma InvariantRefused(facts: seq<Facts>)
    ensures !Lowerable(LoopFunction(5), facts)
  {
    if Lowerable(LoopFunction(5), facts) {
      var w := World((_, _) => 0, 1);
      var m := Machine(seq(NUM_REGS, _ => 0), map[], (0, 0));
      InvariantLost(w, Budget(0, 0, 0), m, 0);
      var time := EventuallyAnswers(facts, w, m);
      MoreTime(FunctionAsm(Context(LoopFunction(5)), LoopFunction(5)), 0, m, 0, 23, time);
      hide *;
      NotSeven();
      assert false;
    }
  }

  lemma EventuallyAnswers(facts: seq<Facts>, w: World, m: Machine) returns (time: nat)
    requires Lowerable(LoopFunction(5), facts) && WellFormed(m)
    requires CallFunction(LoopFunction(5), w, AtOnce, [], Budget(0, 0, 0), 4).o == Returned(Some(IntVal(-7)))
    ensures time >= 23
    ensures Answers(RunAsm(FunctionAsm(Context(LoopFunction(5)), LoopFunction(5)), 0, m, 0, time), Some(IntVal(-7)))
  {
    var n := LoweredFunctionCorrect(LoopFunction(5), facts, w, [], Budget(0, 0, 0), 4, m, 0, Some(IntVal(-7)));
    time := if n > 23 then n else 23;
  }

  lemma NotSeven()
    ensures !Answers(Halted(-1), Some(IntVal(-7)))
  {
  }
}
