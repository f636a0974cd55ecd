/** Which values are intact where: an SSA value is stale once another value was
    put into its register, until it is defined again. */
module Arm64Flow {
  import opened Ir
  import opened Arm64Alloc
  import opened Arm64Emit

  /** At a point of the program: the values that may have been defined, those
      among them whose register may hold something else, and whether a pointer
      may have been stored. */
  datatype Facts = Facts(defined: set<int>, stale: set<int>, escaped: bool)

  predicate Leq(a: Facts, b: Facts) {
    a.defined <= b.defined && a.stale <= b.stale && (a.escaped ==> b.escaped)
  }

  /** The values the code of an instruction reads from their homes; the slot of
      an alloca is addressed without its pointer. */
  function Reads(ctx: Ctx, inst: Inst): seq<int> {
    match inst
    case Load(_, _, addr) => if AllocaOffset(ctx, addr) != NO_OFFSET then [] else [addr]
    case Store(val, addr) => if AllocaOffset(ctx, addr) != NO_OFFSET then [val] else [val, addr]
    case _ => Uses(inst)
  }

  /** No call and no phi, and no stale value is read. */
  predicate ReadsFresh(ctx: Ctx, at: Facts, inst: Inst) {
    !inst.HostCall? && !inst.Phi? && forall x <- Reads(ctx, inst) :: x !in at.stale
  }

  /** An alloca is executed again only while no pointer has been stored: then
      nothing but the alloca itself, about to be defined anew, points to its
      slot. */
  predicate AllocaOk(at: Facts, inst: Inst) {
    inst.Alloca? && at.escaped ==> inst.id !in at.defined
  }

  predicate Ready(ctx: Ctx, at: Facts, inst: Inst) {
    ReadsFresh(ctx, at, inst) && AllocaOk(at, inst)
  }

  /** Both values live in the same register. */
  predicate SameRegister(ctx: Ctx, x: int, y: int) {
    var i, j := IndexOf(ctx.ranges, x), IndexOf(ctx.ranges, y);
    i >= 0 && j >= 0 && ctx.ranges[i].reg >= 0 && ctx.ranges[i].reg == ctx.ranges[j].reg
  }

  /** A result overwrites the values that share its register; parameters stay
      in x0 to x7. */
  function Overwritten(ctx: Ctx, at: Facts, x: int): set<int> {
    set y | y in at.defined && y != x && SameRegister(ctx, y, x) && ParamReg(ctx.params, y, 0) < 0
  }

  /** Only allocas are pointers as long as none has been stored. */
  predicate Escapes(ctx: Ctx, inst: Inst) {
    inst.Store? && FindSlot(ctx.allocas, inst.val) >= 0
  }

  function AfterInst(ctx: Ctx, at: Facts, inst: Inst): Facts {
    var x := inst.Result();
    if x < 0 then at.(escaped := at.escaped || Escapes(ctx, inst))
    else Facts(at.defined + {x}, at.stale - {x} + Overwritten(ctx, at, x), at.escaped)
  }

  function AfterInsts(ctx: Ctx, at: Facts, insts: seq<Inst>): Facts {
    if insts == [] then at
    else AfterInst(ctx, AfterInsts(ctx, at, insts[..|insts| - 1]), insts[|insts| - 1])
  }

  // ---- facts for every block ----

  /** `facts` gives what holds at the head of each block. */
  function FactsAt(f: Function, facts: seq<Facts>, k: nat, i: nat): Facts
    requires k < |f.blocks| == |facts| && i <= |f.blocks[k].insts|
  {
    AfterInsts(Context(f), facts[k], f.blocks[k].insts[..i])
  }

  predicate EdgeOk(facts: seq<Facts>, at: Facts, t: int) {
    0 <= t < |facts| ==> Leq(at, facts[t])
  }

  /** What holds before the instruction holds at the blocks it can go to. */
  predicate EdgesOk(facts: seq<Facts>, at: Facts, inst: Inst) {
    && (inst.Br? ==> EdgeOk(facts, at, inst.onTrue) && EdgeOk(facts, at, inst.onFalse))
    && (inst.Jmp? ==> EdgeOk(facts, at, inst.target))
  }

  predicate PointOk(f: Function, facts: seq<Facts>, k: nat, i: nat)
    requires k < |f.blocks| == |facts| && i < |f.blocks[k].insts|
  {
    var at, inst := FactsAt(f, facts, k, i), f.blocks[k].insts[i];
    Ready(Context(f), at, inst) && EdgesOk(facts, at, inst)
  }

  predicate Terminated(insts: seq<Inst>) {
    insts != [] && insts[|insts| - 1].Terminates()
  }

  predicate FallOk(f: Function, facts: seq<Facts>, k: nat)
    requires k < |f.blocks| == |facts|
  {
    !Terminated(f.blocks[k].insts) ==> EdgeOk(facts, FactsAt(f, facts, k, |f.blocks[k].insts|), k + 1)
  }

  /** The facts hold on entry and are kept along every edge, forwards and
      backwards. */
  predicate Consistent(f: Function, facts: seq<Facts>) {
    && 0 < |f.blocks| == |facts|
    && (forall p <- f.params :: p.id in facts[0].defined)
    && (forall k, i {:trigger PointOk(f, facts, k, i)} ::
          0 <= k < |f.blocks| && 0 <= i < |f.blocks[k].insts| ==> PointOk(f, facts, k, i))
    && (forall k {:trigger FallOk(f, facts, k)} :: 0 <= k < |f.blocks| ==> FallOk(f, facts, k))
  }

  lemma FactsNext(f: Function, facts: seq<Facts>, k: nat, i: nat)
    requires k < |f.blocks| == |facts| && i < |f.blocks[k].insts|
    ensures FactsAt(f, facts, k, 0) == facts[k]
    ensures FactsAt(f, facts, k, i + 1) == AfterInst(Context(f), FactsAt(f, facts, k, i), f.blocks[k].insts[i])
  {
    var insts := f.blocks[k].insts;
    assert insts[..i + 1][..i] == insts[..i];
  }

  lemma FactsHead(f: Function, facts: seq<Facts>, k: nat)
    requires k < |f.blocks| == |facts|
    ensures FactsAt(f, facts, k, 0) == facts[k]
  {
  }

  lemma AfterMonotone(ctx: Ctx, a: Facts, b: Facts, inst: Inst)
    requires Leq(a, b)
    ensures Leq(AfterInst(ctx, a, inst), AfterInst(ctx, b, inst))
  {
  }

  // ---- locals declared in loops ----

  predicate StoresNoPointer(f: Function) {
    forall block <- f.blocks, inst <- block.insts :: !Escapes(Context(f), inst)
  }

  /** The condition that says nothing about allocas. */
  predicate PointFresh(f: Function, facts: seq<Facts>, k: nat, i: nat)
    requires k < |f.blocks| == |facts| && i < |f.blocks[k].insts|
  {
    var at, inst := FactsAt(f, facts, k, i), f.blocks[k].insts[i];
    ReadsFresh(Context(f), at, inst) && EdgesOk(facts, at, inst)
  }

  predicate ConsistentExceptAllocas(f: Function, facts: seq<Facts>) {
    && 0 < |f.blocks| == |facts|
    && (forall p <- f.params :: p.id in facts[0].defined)
    && (forall k, i {:trigger PointFresh(f, facts, k, i)} ::
          0 <= k < |f.blocks| && 0 <= i < |f.blocks[k].insts| ==> PointFresh(f, facts, k, i))
    && (forall k {:trigger FallOk(f, facts, k)} :: 0 <= k < |f.blocks| ==> FallOk(f, facts, k))
  }

  lemma {:induction false} NeverEscapes(f: Function, facts: seq<Facts>, k: nat, i: nat)
    requires StoresNoPointer(f) && k < |f.blocks| == |facts| && i <= |f.blocks[k].insts| && !facts[k].escaped
    ensures !FactsAt(f, facts, k, i).escaped
  {
    if i == 0 {
      FactsHead(f, facts, k);
    } else {
      NeverEscapes(f, facts, k, i - 1);
      FactsNext(f, facts, k, i - 1);
      assert f.blocks[k] in f.blocks && f.blocks[k].insts[i - 1] in f.blocks[k].insts;
    }
  }

  /** A function that never stores the pointer of an alloca may execute its
      allocas any number of times: they put no condition on it. */
  lemma LocalsInLoops(f: Function, facts: seq<Facts>)
    requires StoresNoPointer(f) && |f.blocks| == |facts| && forall at <- facts :: !at.escaped
    ensures Consistent(f, facts) <==> ConsistentExceptAllocas(f, facts)
  {
    forall k, i {:trigger PointOk(f, facts, k, i)} {:trigger PointFresh(f, facts, k, i)} | 0 <= k < |f.blocks| && 0 <= i < |f.blocks[k].insts|
      ensures PointOk(f, facts, k, i) <==> PointFresh(f, facts, k, i)
    {
      NeverEscapes(f, facts, k, i);
    }
    hide PointOk;
    hide PointFresh;
    hide FallOk;
  }
}
