/** The SSA intermediate representation shared by the back ends, with its
    meaning: an interpreter that walks the control-flow graph, copies the phi
    values of an edge in parallel, and guards every host call by the three
    budgets an agent may declare. */
module Ir {
  import opened Wrappers

  const TWO_63 := 0x8000_0000_0000_0000
  const TWO_64 := 0x1_0000_0000_0000_0000
  const TWO_31 := 0x8000_0000
  const TWO_32 := 0x1_0000_0000

  type int64 = x: int | -TWO_63 <= x < TWO_63
  type int32 = x: int | -TWO_31 <= x < TWO_31

  /** Two's-complement wrap-around to 64 and to 32 bits. */
  function Wrap64(x: int): int64 {
    (x + TWO_63) % TWO_64 - TWO_63
  }

  function Wrap32(x: int): int32 {
    (x + TWO_31) % TWO_32 - TWO_31
  }

  /** C's `/`: the quotient is truncated toward zero. */
  function Quotient(a: int, b: int): int
    requires b != 0
  {
    if a >= 0 then (if b > 0 then a / b else -(a / -b))
    else (if b > 0 then -(-a / b) else -a / -b)
  }

  /** C's `%`: the remainder takes the sign of the dividend. */
  function Remainder(a: int, b: int): int
    requires b != 0
  {
    a - b * Quotient(a, b)
  }

  /** Bitwise conjunction and disjunction of non-negative integers. */
  function BitAnd(a: nat, b: nat): nat {
    if a == 0 || b == 0 then 0 else (a % 2) * (b % 2) + 2 * BitAnd(a / 2, b / 2)
  }

  function BitOr(a: nat, b: nat): nat {
    if a == 0 then b
    else if b == 0 then a
    else (if a % 2 == 1 || b % 2 == 1 then 1 else 0) + 2 * BitOr(a / 2, b / 2)
  }

  /** On 0 and 1 they are the logical connectives. */
  lemma BitOpsOnBits(a: bool, b: bool)
    ensures BitAnd(Bit(a), Bit(b)) == Bit(a && b)
    ensures BitOr(Bit(a), Bit(b)) == Bit(a || b)
  {
    if a && b {
      assert BitAnd(0, 0) == 0 && BitOr(0, 0) == 0;
      assert BitAnd(1, 1) == (1 % 2) * (1 % 2) + 2 * BitAnd(1 / 2, 1 / 2);
      assert BitOr(1, 1) == 1 + 2 * BitOr(1 / 2, 1 / 2);
    }
  }

  datatype IrType = I64 | Bool | Ptr | Void

  /** A pointer names a cell: allocas are the only source of pointers. */
  datatype Val = IntVal(n: int64) | BoolVal(b: bool) | PtrVal(cell: nat)

  datatype BinOp = Add | Sub | Mul | Div | Mod
  datatype CmpOp = Eq | Ne | Lt | Gt | Le | Ge
  datatype LogOp = And | Or

  datatype PhiArg = PhiArg(value: int, block: int)

  datatype Inst =
    | ConstInt(id: int, n: int64)
    | ConstBool(id: int, b: bool)
    | Bin(id: int, bop: BinOp, lhs: int, rhs: int)
    | Neg(id: int, arg: int)
    | Not(id: int, arg: int)
    | Cmp(id: int, cop: CmpOp, lhs: int, rhs: int)
    | Logic(id: int, lop: LogOp, lhs: int, rhs: int)
    | Cast(id: int, ty: IrType, arg: int)
    | Alloca(id: int)
    | Load(id: int, ty: IrType, addr: int)
    | Store(val: int, addr: int)
    | HostCall(id: int, name: string, args: seq<int>)
    | Phi(id: int, ty: IrType, incoming: seq<PhiArg>)
    | Ret(result: int)                       // -1: no value
    | Br(cond: int, onTrue: int32, onFalse: int32)
    | Jmp(target: int32)
    | Nop
  {
    /** IR_STORE, IR_RET, IR_BR, IR_JMP and IR_NOP have no result (id -1). */
    function Result(): int {
      if Store? || Ret? || Br? || Jmp? || Nop? then -1 else id
    }

    /** The type the instruction's result is tagged with. */
    function Type(): IrType {
      match this
      case ConstInt(_, _) | Bin(_, _, _, _) | Neg(_, _) | HostCall(_, _, _) => I64
      case ConstBool(_, _) | Not(_, _) | Cmp(_, _, _, _) | Logic(_, _, _, _) => Bool
      case Cast(_, ty, _) => ty
      case Load(_, ty, _) => ty
      case Phi(_, ty, _) => ty
      case Alloca(_) => Ptr
      case Store(_, _) | Ret(_) | Br(_, _, _) | Jmp(_) | Nop => Void
    }

    predicate Terminates() {
      Ret? || Br? || Jmp?
    }
  }

  datatype Block = Block(id: int, insts: seq<Inst>)
  datatype Param = Param(id: int, ty: IrType)
  datatype Function = Function(ret: IrType, params: seq<Param>, blocks: seq<Block>)

  /** Blocks are numbered from zero in the order of their creation, so the id
      of a block is its position. */
  predicate BlocksNumbered(f: Function) {
    0 < |f.blocks| < TWO_31 && forall k :: 0 <= k < |f.blocks| ==> f.blocks[k].id == k
  }

  // ---- values ----

  function TypeOf(v: Val): IrType {
    match v
    case IntVal(_) => I64
    case BoolVal(_) => Bool
    case PtrVal(_) => Ptr
  }

  function Bit(b: bool): (r: int32)
    ensures 0 <= r <= 1
  {
    if b then 1 else 0
  }

  type Env = map<int, Val>

  function Get(env: Env, id: int): Option<Val> {
    if id in env then Some(env[id]) else None
  }

  datatype Eval = Value(v: Val) | Traps | Undefined

  /** 64-bit integer arithmetic; division and remainder by zero trap, and so
      does the one quotient that does not fit. */
  function EvalBin(op: BinOp, a: int64, b: int64): Eval {
    match op
    case Add => Value(IntVal(Wrap64(a + b)))
    case Sub => Value(IntVal(Wrap64(a - b)))
    case Mul => Value(IntVal(Wrap64(a * b)))
    case Div =>
      if b == 0 || (a == -TWO_63 && b == -1) then Traps
      else Value(IntVal(Wrap64(Quotient(a, b))))
    case Mod =>
      if b == 0 then Traps else Value(IntVal(Wrap64(Remainder(a, b))))
  }

  predicate Compare(op: CmpOp, a: int, b: int) {
    match op
    case Eq => a == b
    case Ne => a != b
    case Lt => a < b
    case Gt => a > b
    case Le => a <= b
    case Ge => a >= b
  }

  /** The result of an instruction that only computes. */
  function EvalPure(inst: Inst, env: Env): Eval {
    match inst
    case ConstInt(_, n) => Value(IntVal(n))
    case ConstBool(_, b) => Value(BoolVal(b))
    case Bin(_, op, l, r) =>
      (match (Get(env, l), Get(env, r))
       case (Some(IntVal(a)), Some(IntVal(b))) => EvalBin(op, a, b)
       case _ => Undefined)
    case Neg(_, x) =>
      (match Get(env, x)
       case Some(IntVal(a)) => Value(IntVal(Wrap64(0 - a)))
       case _ => Undefined)
    case Not(_, x) =>
      (match Get(env, x)
       case Some(IntVal(a)) => Value(BoolVal(a == 0))
       case Some(BoolVal(b)) => Value(BoolVal(!b))
       case _ => Undefined)
    case Cmp(_, op, l, r) =>
      (match (Get(env, l), Get(env, r))
       case (Some(IntVal(a)), Some(IntVal(b))) => Value(BoolVal(Compare(op, a, b)))
       case (Some(BoolVal(a)), Some(BoolVal(b))) => Value(BoolVal(Compare(op, Bit(a), Bit(b))))
       case _ => Undefined)
    case Logic(_, op, l, r) =>
      (match (Get(env, l), Get(env, r))
       case (Some(BoolVal(a)), Some(BoolVal(b))) =>
         Value(BoolVal(if op == And then a && b else a || b))
       case _ => Undefined)
    case Cast(_, ty, x) =>
      (match Get(env, x)
       case Some(IntVal(a)) => if ty == I64 then Value(IntVal(a)) else Undefined
       case Some(BoolVal(b)) =>
         if ty == Bool then Value(BoolVal(b))
         else if ty == I64 then Value(IntVal(Bit(b)))
         else Undefined
       case _ => Undefined)
    case _ => Undefined
  }

  // ---- budgets ----

  /** What is left of the three budgets of an agent. */
  datatype Budget = Budget(entropy: int, tokens: int, cost: int)

  const CLASSIFY := "llm.classify"
  const CHAT := "llm.chat"

  /** The per-call charges, by qualified name of the host function. */
  function EntropyCost(name: string): nat {
    if name == CLASSIFY then 1 else if name == CHAT then 4 else 0
  }

  function TokenCost(name: string): nat {
    if name == CLASSIFY then 100 else if name == CHAT then 1000 else 0
  }

  function MicroUsdCost(name: string): nat {
    if name == CLASSIFY then 500 else if name == CHAT then 30000 else 0
  }

  const ENTROPY_EXCEEDED: int32 := -9
  const BUDGET_EXCEEDED: int32 := -10

  /** The three fences in order: the first that trips decides the error, and
      the fences already passed keep their charge. */
  datatype Fence = Passed(left: Budget) | Tripped(error: int32, left: Budget)

  function PassFences(name: string, b: Budget): Fence {
    if b.entropy < EntropyCost(name) && EntropyCost(name) > 0 then Tripped(ENTROPY_EXCEEDED, b) else
    var b1 := b.(entropy := b.entropy - EntropyCost(name));
    if b1.tokens < TokenCost(name) && TokenCost(name) > 0 then Tripped(BUDGET_EXCEEDED, b1) else
    var b2 := b1.(tokens := b1.tokens - TokenCost(name));
    if b2.cost < MicroUsdCost(name) && MicroUsdCost(name) > 0 then Tripped(BUDGET_EXCEEDED, b2) else
    Passed(b2.(cost := b2.cost - MicroUsdCost(name)))
  }

  // ---- states and steps ----

  datatype Call = Call(name: string, args: seq<int>)

  /** `env` holds the SSA values, `cells` what was stored through pointers,
      `next` the first unused cell, `log` the host calls dispatched so far. */
  datatype State = State(env: Env, cells: map<nat, Val>, next: nat, budget: Budget, log: seq<Call>)

  /** Host functions are uninterpreted: any function of the calls already made,
      the name and the scalar arguments. At most `cells` cells fit in memory. */
  datatype World = World(host: (seq<Call>, Call) -> int, cells: nat)

  datatype Outcome =
    | Returned(v: Option<Val>)
    | Exceeded(error: int32)
    | Trapped
    | Stuck            // undefined value, type mismatch or missing block
    | OutOfFuel

  datatype Step =
    | Next(st: State)
    | Goto(target: int32, fell: bool, st: State)   // `fell`: no terminator was met
    | Done(o: Outcome, st: State)

  function Define(st: State, id: int, v: Val): State {
    st.(env := st.env[id := v])
  }

  function ScalarArg(v: Val): Option<int> {
    match v
    case IntVal(n) => Some(n)
    case BoolVal(b) => Some(Bit(b))
    case PtrVal(_) => None
  }

  /** The scalar arguments of a call, or None when one is undefined. */
  function ScalarArgs(env: Env, args: seq<int>): Option<seq<int>> {
    if args == [] then Some([])
    else
      match (Get(env, args[0]), ScalarArgs(env, args[1..]))
      case (Some(v), Some(rest)) =>
        (match ScalarArg(v)
         case Some(n) => Some([n] + rest)
         case None => None)
      case _ => None
  }

  function ZeroOf(ty: IrType): Option<Val> {
    match ty
    case I64 => Some(IntVal(0))
    case Bool => Some(BoolVal(false))
    case _ => None
  }

  /** One instruction; a phi has no effect where it stands. */
  function Exec(f: Function, w: World, inst: Inst, st: State): Step {
    match inst
    case Phi(_, _, _) | Nop => Next(st)
    case Alloca(id) =>
      if st.next < w.cells then Next(Define(st, id, PtrVal(st.next)).(next := st.next + 1))
      else Done(Stuck, st)
    case Load(id, ty, addr) =>
      (match Get(st.env, addr)
       case Some(PtrVal(c)) =>
         if c in st.cells && TypeOf(st.cells[c]) == ty then Next(Define(st, id, st.cells[c]))
         else Done(Stuck, st)
       case _ => Done(Stuck, st))
    case Store(val, addr) =>
      (match (Get(st.env, val), Get(st.env, addr))
       case (Some(v), Some(PtrVal(c))) => Next(st.(cells := st.cells[c := v]))
       case _ => Done(Stuck, st))
    case HostCall(id, name, args) =>
      (match ScalarArgs(st.env, args)
       case None => Done(Stuck, st)
       case Some(actuals) =>
         match PassFences(name, st.budget)
         case Tripped(e, left) => Done(Exceeded(e), st.(budget := left))
         case Passed(left) =>
           var call := Call(name, actuals);
           var r := IntVal(Wrap32(w.host(st.log, call)));
           Next(Define(st, id, r).(budget := left, log := st.log + [call])))
    case Ret(x) =>
      if x < 0 then (if f.ret == Void then Done(Returned(None), st) else Done(Stuck, st))
      else
        (match Get(st.env, x)
         case Some(v) => if TypeOf(v) == f.ret then Done(Returned(Some(v)), st) else Done(Stuck, st)
         case None => Done(Stuck, st))
    case Br(c, t, e) =>
      (match Get(st.env, c)
       case Some(BoolVal(b)) => Goto(if b then t else e, false, st)
       case _ => Done(Stuck, st))
    case Jmp(t) => Goto(t, false, st)
    case _ =>
      (match EvalPure(inst, st.env)
       case Value(v) => Next(Define(st, inst.id, v))
       case Traps => Done(Trapped, st)
       case Undefined => Done(Stuck, st))
  }

  /** The instructions of block `k` from index `i`; a block without a
      terminator continues with block k+1, and the last block then returns
      the zero of the result type. */
  function ExecBlock(f: Function, w: World, k: nat, i: nat, st: State): Step
    requires k < |f.blocks| < TWO_31 && i <= |f.blocks[k].insts|
    decreases |f.blocks[k].insts| - i
  {
    if i == |f.blocks[k].insts| then
      if k + 1 < |f.blocks| then Goto(k + 1, true, st)
      else if f.ret == Ptr then Done(Stuck, st)
      else Done(Returned(ZeroOf(f.ret)), st)
    else
      match Exec(f, w, f.blocks[k].insts[i], st)
      case Next(st') => ExecBlock(f, w, k, i + 1, st')
      case Goto(t, fell, st') => Goto(t, fell, st')
      case Done(o, st') => Done(o, st')
  }

  // ---- phi copies ----

  /** `dst` receives the value of `src`. */
  datatype Copy = Copy(dst: int, src: int, ty: IrType)

  /** The value a phi takes on the edge from block `from`: the first matching
      entry, or -1. */
  function Incoming(args: seq<PhiArg>, from: int): int {
    if args == [] then -1
    else if args[0].block == from then args[0].value
    else Incoming(args[1..], from)
  }

  /** The copies the phis of a block ask for on the edge from `from`, in order. */
  function PhiCopies(insts: seq<Inst>, from: int): seq<Copy> {
    if insts == [] then []
    else
      var rest := PhiCopies(insts[1..], from);
      if insts[0].Phi? && Incoming(insts[0].incoming, from) >= 0
      then [Copy(insts[0].id, Incoming(insts[0].incoming, from), insts[0].ty)] + rest
      else rest
  }

  /** All copies of an edge at once: every source is read before any write. */
  function ParallelCopy(copies: seq<Copy>, before: Env, env: Env): Option<Env> {
    if copies == [] then Some(env)
    else
      match Get(before, copies[0].src)
      case Some(v) =>
        if TypeOf(v) == copies[0].ty then ParallelCopy(copies[1..], before, env[copies[0].dst := v])
        else None
      case None => None
  }

  /** The copies of an edge one after the other. */
  function SequentialCopy(copies: seq<Copy>, env: Env): Option<Env> {
    if copies == [] then Some(env)
    else
      match Get(env, copies[0].src)
      case Some(v) =>
        if TypeOf(v) == copies[0].ty then SequentialCopy(copies[1..], env[copies[0].dst := v]) else None
      case None => None
  }

  /** Two readings of the phis: the meaning of SSA copies the values of an edge
      at once; lowered code copies them in order, and on jumps only. */
  datatype Copying = AtOnce | InOrder

  /** The copies the phis of block `t` ask for on the edge from block `from`. */
  function EdgeCopies(f: Function, from: int, t: int): seq<Copy> {
    if 0 <= t < |f.blocks| then PhiCopies(f.blocks[t].insts, from) else []
  }

  function CopyEdge(f: Function, how: Copying, from: int, t: int, fell: bool, env: Env): Option<Env> {
    match how
    case AtOnce => ParallelCopy(EdgeCopies(f, from, t), env, env)
    case InOrder => if fell then Some(env) else SequentialCopy(EdgeCopies(f, from, t), env)
  }

  /** Enter the block a step goes to; there is no state when that block does
      not exist or a copied value is undefined. */
  function Follow(f: Function, how: Copying, from: int, step: Step): Option<State>
    requires step.Goto?
  {
    if 0 <= step.target < |f.blocks| then
      match CopyEdge(f, how, from, step.target, step.fell, step.st.env)
      case Some(env) => Some(step.st.(env := env))
      case None => None
    else None
  }

  datatype Result = Result(o: Outcome, st: State)

  /** Run from the head of block `k`; `fuel` bounds the number of blocks. */
  function Run(f: Function, w: World, how: Copying, k: nat, st: State, fuel: nat): Result
    requires k < |f.blocks| < TWO_31
    decreases fuel
  {
    if fuel == 0 then Result(OutOfFuel, st)
    else
      var step := ExecBlock(f, w, k, 0, st);
      match step
      case Next(st') => Result(Stuck, st')
      case Done(o, st') => Result(o, st')
      case Goto(t, _, st') =>
        match Follow(f, how, k, step)
        case Some(st'') => Run(f, w, how, t, st'', fuel - 1)
        case None => Result(Stuck, st')
  }

  // ---- calling a function ----

  predicate ArgsMatch(params: seq<Param>, args: seq<Val>) {
    |params| == |args| && forall i :: 0 <= i < |params| ==> TypeOf(args[i]) == params[i].ty
  }

  function BindParams(params: seq<Param>, args: seq<Val>): Env
    requires |params| == |args|
  {
    if params == [] then map[]
    else BindParams(params[..|params| - 1], args[..|args| - 1])[params[|params| - 1].id := args[|args| - 1]]
  }

  function Initial(f: Function, args: seq<Val>, b: Budget): State
    requires ArgsMatch(f.params, args)
  {
    State(BindParams(f.params, args), map[], 0, b, [])
  }

  function CallFunction(f: Function, w: World, how: Copying, args: seq<Val>, b: Budget, fuel: nat): Result
    requires 0 < |f.blocks| < TWO_31 && ArgsMatch(f.params, args)
  {
    Run(f, w, how, 0, Initial(f, args, b), fuel)
  }
}
