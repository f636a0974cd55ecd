/** What the three fences guarantee over whole runs. */
module WasmBudget {
  import opened Ir
  import opened Wasm
  import opened WasmEmit
  import opened WasmCorrect
  import opened Wrappers

  /** The charges of the host calls that were dispatched. */
  function Spent(log: seq<Call>): Budget {
    if log == [] then Budget(0, 0, 0)
    else
      var s := Spent(log[..|log| - 1]);
      var name := log[|log| - 1].name;
      Budget(s.entropy + EntropyCost(name), s.tokens + TokenCost(name), s.cost + MicroUsdCost(name))
  }

  function Minus(a: Budget, b: Budget): Budget {
    Budget(a.entropy - b.entropy, a.tokens - b.tokens, a.cost - b.cost)
  }

  predicate Within(a: Budget, b: Budget) {
    a.entropy <= b.entropy && a.tokens <= b.tokens && a.cost <= b.cost
  }

  predicate NonNegative(b: Budget) {
    b.entropy >= 0 && b.tokens >= 0 && b.cost >= 0
  }

  /** Every unit missing from the budget was charged to a dispatched call. */
  predicate Accounted(b: Budget, s: State) {
    s.budget == Minus(b, Spent(s.log)) && NonNegative(s.budget)
  }

  /** The call `name` was refused: its fences were passed up to the one that
      reports the error. */
  predicate RefusedAt(b: Budget, s: State, error: int32, name: string) {
    && NonNegative(Minus(b, Spent(s.log))) && NonNegative(s.budget)
    && PassFences(name, Minus(b, Spent(s.log))) == Tripped(error, s.budget)
  }

  ghost predicate Refused(b: Budget, s: State, error: int32) {
    exists name :: RefusedAt(b, s, error, name)
  }

  ghost predicate Audited(b: Budget, o: Outcome, s: State) {
    if o.Exceeded? then Refused(b, s, o.error) else Accounted(b, s)
  }

  lemma {:induction false} SpentSplits(a: seq<Call>, c: Call)
    ensures Spent(a + [c]) == Budget(Spent(a).entropy + EntropyCost(c.name), Spent(a).tokens + TokenCost(c.name),
                                     Spent(a).cost + MicroUsdCost(c.name))
  {
    assert (a + [c])[..|a|] == a;
  }

  lemma CallAudited(b: Budget, s: State, name: string, call: Call)
    requires Accounted(b, s) && call.name == name
    ensures match PassFences(name, s.budget)
            case Tripped(e, left) => RefusedAt(b, s.(budget := left), e, name)
            case Passed(left) => Accounted(b, s.(budget := left, log := s.log + [call]))
  {
    SpentSplits(s.log, call);
    hide Spent;
  }

  lemma ExecAudited(b: Budget, f: Function, w: World, inst: Inst, s: State)
    requires Accounted(b, s)
    ensures match Exec(f, w, inst, s)
            case Next(s') => Accounted(b, s')
            case Goto(_, _, s') => s' == s
            case Done(o, s') => Audited(b, o, s')
  {
    if inst.HostCall? && ScalarArgs(s.env, inst.args).Some? {
      var call := Call(inst.name, ScalarArgs(s.env, inst.args).value);
      CallAudited(b, s, inst.name, call);
    }
    hide PassFences;
    hide ScalarArgs;
    hide EvalPure;
    hide Spent;
    hide RefusedAt;
  }

  lemma {:induction false} BlockAudited(b: Budget, f: Function, w: World, k: nat, i: nat, s: State)
    requires k < |f.blocks| < TWO_31 && i <= |f.blocks[k].insts| && Accounted(b, s)
    ensures match ExecBlock(f, w, k, i, s)
            case Next(_) => true
            case Goto(_, _, s') => Accounted(b, s')
            case Done(o, s') => Audited(b, o, s')
    decreases |f.blocks[k].insts| - i
  {
    hide Exec;
    hide PassFences;
    if i < |f.blocks[k].insts| {
      ExecAudited(b, f, w, f.blocks[k].insts[i], s);
      var step := Exec(f, w, f.blocks[k].insts[i], s);
      if step.Next? {
        BlockAudited(b, f, w, k, i + 1, step.st);
      }
    }
  }

  lemma {:induction false} RunAudited(b: Budget, f: Function, w: World, how: Copying, k: nat, s: State, fuel: nat)
    requires k < |f.blocks| < TWO_31 && Accounted(b, s)
    ensures Audited(b, Run(f, w, how, k, s, fuel).o, Run(f, w, how, k, s, fuel).st)
    decreases fuel
  {
    hide ExecBlock;
    if fuel > 0 {
      BlockAudited(b, f, w, k, 0, s);
      BlockEnds(f, w, k, 0, s);
      var step := ExecBlock(f, w, k, 0, s);
      if step.Goto? && Follow(f, how, k, step).Some? {
        RunAudited(b, f, w, how, step.target, Follow(f, how, k, step).value, fuel - 1);
      }
    }
  }

  lemma {:induction false} SpentNonNegative(log: seq<Call>)
    ensures NonNegative(Spent(log))
  {
    if log != [] {
      SpentNonNegative(log[..|log| - 1]);
    }
  }

  /** Which error a refusal reports: -9 exactly when the entropy fence trips,
      otherwise -10 for tokens or cost; and what it has charged by then. */
  lemma RefusalExplained(name: string, b: Budget, error: int32, left: Budget)
    requires NonNegative(b) && PassFences(name, b) == Tripped(error, left)
    ensures error == -9 || error == -10
    ensures error == -9 <==> b.entropy < EntropyCost(name)
    ensures error == -9 ==> left == b
    ensures error == -10 ==>
            left.entropy == b.entropy - EntropyCost(name) && left.cost == b.cost &&
            ((b.tokens < TokenCost(name) && left.tokens == b.tokens) ||
             (b.tokens >= TokenCost(name) && b.cost < MicroUsdCost(name) &&
              left.tokens == b.tokens - TokenCost(name)))
  {
  }

  // ---- the books of the emitted text itself ----

  /** The counters are the budget b less the charges of the calls dispatched
      since `before`. */
  predicate Balanced(b: Budget, before: seq<Call>, st: WState) {
    before <= st.log && Budgets(Minus(b, Spent(st.log[|before|..])), st.globals)
  }

  /** Stopped within a call site: its fences are passed, up to the one that
      refuses or all of them, and nothing is dispatched yet. */
  ghost predicate UnderWay(b: Budget, before: seq<Call>, st: WState, fence: Fence) {
    && before <= st.log && NonNegative(Minus(b, Spent(st.log[|before|..]))) && Budgets(fence.left, st.globals)
    && exists name :: fence == PassFences(name, Minus(b, Spent(st.log[|before|..])))
  }

  /** How code may end. Only a refusal or an ill-typed argument can leave
      charges that no dispatched call accounts for. */
  ghost predicate Audit(b: Budget, before: seq<Call>, ret: IrType, flow: Flow) {
    match flow
    case Falls(st) => Balanced(b, before, st) && st.stack == []
    case Branches(_, st) => Balanced(b, before, st)
    case TrapsIn(st) => Balanced(b, before, st)
    case Exhausted(st) => Balanced(b, before, st)
    case Returns(v, st) =>
      Balanced(b, before, st) ||
      exists fence: Fence :: fence.Tripped? && UnderWay(b, before, st, fence) && v == SentinelVal(ret, fence.error)
    case Rejected(st) =>
      Balanced(b, before, st) || exists fence: Fence :: fence.Passed? && UnderWay(b, before, st, fence)
  }

  /** Operators that leave the counters and the log alone, and how many values
      they add to the stack. */
  predicate Neutral(op: Op) {
    !op.CallHost? && (op.GlobalSet? ==> op.g == Bump)
  }

  function Pushes(op: Op): int {
    match op
    case Const64(_) | Const32(_) | LocalGet(_) | GetBb | GlobalGet(_) => 1
    case LocalTee(_) | Eqz64 | Eqz32 | WrapI64 | ExtendI32 | LoadW(_) | NopW => 0
    case StoreW(_) => -2
    case CallHost(_, argc) => 1 - argc
    case _ => -1
  }

  predicate SameBooks(a: WState, b: WState) {
    && a.log == b.log
    && forall g <- [Entropy, Tokens, Cost] :: (g in a.globals <==> g in b.globals) && (g in a.globals ==> a.globals[g] == b.globals[g])
  }

  /** `c` is neutral operators that leave `net` values, followed by `rest`. */
  predicate Carries(c: Code, rest: Code, net: int)
    decreases c
  {
    || (c == rest && net == 0)
    || (c.Seq? && c.head.Plain? && Neutral(c.head.op) && Carries(c.tail, rest, net - Pushes(c.head.op)))
  }

  lemma CarriesNothing(rest: Code)
    ensures Carries(rest, rest, 0)
  {
  }

  lemma CarriesOp(op: Op, c: Code, rest: Code, net: int)
    requires Neutral(op) && Carries(c, rest, net - Pushes(op))
    ensures Carries(S(op, c), rest, net)
  {
  }

  lemma NeutralStep(op: Op, st: WState, w: World)
    requires Neutral(op) && ExecOp(op, st, w).Ok?
    ensures SameBooks(ExecOp(op, st, w).st, st) && |ExecOp(op, st, w).st.stack| == |st.stack| + Pushes(op)
  {
    hide EvalBin;
    hide BitAnd;
    hide BitOr;
    hide Write;
    hide Wrap32;
  }

  lemma {:induction false} CarriesRuns(c: Code, rest: Code, net: int, ret: Option<WType>, st: WState, w: World, fuel: nat)
    returns (st': WState)
    requires Carries(c, rest, net)
    ensures SameBooks(st', st)
    ensures var flow := ExecCode(c, ret, st, w, fuel);
            || flow == TrapsIn(st') || flow == Rejected(st')
            || (flow == ExecCode(rest, ret, st', w, fuel) && |st'.stack| == |st.stack| + net)
    decreases c
  {
    st' := st;
    if !(c == rest && net == 0) {
      var op := c.head.op;
      var r := ExecOp(op, st, w);
      if r.Ok? {
        NeutralStep(op, st, w);
        hide ExecOp;
        st' := CarriesRuns(c.tail, rest, net - Pushes(op), ret, r.st, w, fuel);
      }
    }
  }

  lemma SameBalance(b: Budget, before: seq<Call>, st: WState, st': WState)
    requires SameBooks(st', st)
    ensures Balanced(b, before, st') == Balanced(b, before, st)
    ensures forall fence :: UnderWay(b, before, st', fence) == UnderWay(b, before, st, fence)
  {
    assert Entropy in [Entropy, Tokens, Cost] && Tokens in [Entropy, Tokens, Cost] && Cost in [Entropy, Tokens, Cost];
    hide PassFences;
  }

  /** Neutral operators before audited code. */
  lemma AuditCarried(b: Budget, before: seq<Call>, f: Function, c: Code, rest: Code, st: WState, w: World, fuel: nat)
    requires Carries(c, rest, 0) && Balanced(b, before, st) && st.stack == []
    requires forall st': WState :: Balanced(b, before, st') && st'.stack == [] ==>
               Audit(b, before, f.ret, ExecCode(rest, ResultType(f), st', w, fuel))
    ensures Audit(b, before, f.ret, ExecCode(c, ResultType(f), st, w, fuel))
  {
    hide ExecCode;
    hide Carries;
    hide Balanced;
    var st' := CarriesRuns(c, rest, 0, ResultType(f), st, w, fuel);
    SameBalance(b, before, st, st');
  }

  // ---- one instruction, one block, the dispatch loop ----

  /** Passing all fences and dispatching the call balances the books again. */
  lemma Dispatched(b: Budget, before: seq<Call>, name: string, st: WState, st': WState)
    requires Balanced(b, before, st) && PassFences(name, Minus(b, Spent(st.log[|before|..]))).Passed?
    requires Budgets(PassFences(name, Minus(b, Spent(st.log[|before|..]))).left, st'.globals)
    requires exists args :: st'.log == st.log + [Call(name, args)]
    ensures Balanced(b, before, st')
  {
    var args :| st'.log == st.log + [Call(name, args)];
    assert st'.log[|before|..] == st.log[|before|..] + [Call(name, args)];
    SpentSplits(st.log[|before|..], Call(name, args));
    hide Spent;
  }

  /** Pushing the arguments never traps. */
  lemma {:induction false} ArgsRun(args: seq<int>, rest: Code, ret: Option<WType>, st: WState, w: World, fuel: nat)
    returns (st': WState)
    ensures SameBooks(st', st)
    ensures var flow := ExecCode(ArgsCode(args, rest), ret, st, w, fuel);
            || flow == Rejected(st')
            || (flow == ExecCode(rest, ret, st', w, fuel) && |st'.stack| == |st.stack| + |args|)
  {
    st' := st;
    if args != [] && ExecOp(GetValue(args[0]), st, w).Ok? {
      var next := ExecOp(GetValue(args[0]), st, w).st;
      st' := ArgsRun(args[1..], rest, ret, next, w, fuel);
    }
  }

  lemma ResultCarries(id: int, rest: Code)
    ensures Carries(S(ExtendI32, S(SetValue(id), rest)), rest, -1)
  {
    CarriesNothing(rest);
    CarriesOp(SetValue(id), rest, rest, -1);
    CarriesOp(ExtendI32, S(SetValue(id), rest), rest, -1);
  }

  /** From the call itself on. */
  lemma AuditDispatch(b: Budget, before: seq<Call>, f: Function, name: string, argc: nat, id: int, rest: Code, st: WState,
                      st0: WState, w: World, fuel: nat)
    requires Balanced(b, before, st0) && PassFences(name, Minus(b, Spent(st0.log[|before|..]))).Passed?
    requires Budgets(PassFences(name, Minus(b, Spent(st0.log[|before|..]))).left, st.globals) && st.log == st0.log
    requires |st.stack| == argc
    requires forall st': WState :: Balanced(b, before, st') && st'.stack == [] ==>
               Audit(b, before, f.ret, ExecCode(rest, ResultType(f), st', w, fuel))
    ensures Audit(b, before, f.ret,
                  ExecCode(S(CallHost(name, argc), S(ExtendI32, S(SetValue(id), rest))), ResultType(f), st, w, fuel))
  {
    var ret := ResultType(f);
    var tail := S(ExtendI32, S(SetValue(id), rest));
    CallsHost(name, argc, st, w);
    var st1 := ExecOp(CallHost(name, argc), st, w).st;
    WasmCorrect.Step(CallHost(name, argc), tail, ret, st, st1, w, fuel);
    Dispatched(b, before, name, st0, st1);
    ResultCarries(id, rest);
    assert |st1.stack| == 1;
    hide *;
    var st2 := CarriesRuns(tail, rest, -1, ret, st1, w, fuel);
    SameBalance(b, before, st1, st2);
    AuditStopped(b, before, f.ret, st2);
  }

  /** Neutral operators that stop leave the books as they were. */
  lemma AuditStopped(b: Budget, before: seq<Call>, ty: IrType, st: WState)
    requires Balanced(b, before, st)
    ensures Audit(b, before, ty, TrapsIn(st)) && Audit(b, before, ty, Rejected(st))
  {
  }

  lemma AuditCall(b: Budget, before: seq<Call>, f: Function, sites: seq<string>, id: int, name: string, args: seq<int>, rest: Code,
                  st: WState, w: World, fuel: nat)
    requires name in sites && Balanced(b, before, st) && st.stack == []
    requires forall st': WState :: Balanced(b, before, st') && st'.stack == [] ==>
               Audit(b, before, f.ret, ExecCode(rest, ResultType(f), st', w, fuel))
    ensures Audit(b, before, f.ret, ExecCode(HostCallCode(sites, f.ret, id, name, args, rest), ResultType(f), st, w, fuel))
  {
    var ret := ResultType(f);
    var left := Minus(b, Spent(st.log[|before|..]));
    var fence := PassFences(name, left);
    var invoke := S(CallHost(name, |args|), S(ExtendI32, S(SetValue(id), rest)));
    var code := ArgsCode(args, invoke);
    var out := SimFences(f, name, code, left, st, w, fuel);
    if fence.Passed? {
      AuditAfterFences(b, before, f, id, name, args, rest, st, w, fuel);
    } else {
      hide PassFences;
      hide Spent;
      assert UnderWay(b, before, out, fence);
    }
  }

  lemma AuditAfterFences(b: Budget, before: seq<Call>, f: Function, id: int, name: string, args: seq<int>, rest: Code,
                         st: WState, w: World, fuel: nat)
    requires Balanced(b, before, st) && st.stack == []
    requires var fence := PassFences(name, Minus(b, Spent(st.log[|before|..]))); fence.Passed? && BudgetOk(fence.left)
    requires forall st': WState :: Balanced(b, before, st') && st'.stack == [] ==>
               Audit(b, before, f.ret, ExecCode(rest, ResultType(f), st', w, fuel))
    ensures var st1 := WithBudget(st, PassFences(name, Minus(b, Spent(st.log[|before|..]))).left);
            var invoke := S(CallHost(name, |args|), S(ExtendI32, S(SetValue(id), rest)));
            Audit(b, before, f.ret, ExecCode(ArgsCode(args, invoke), ResultType(f), st1, w, fuel))
  {
    hide PassFences;
    hide Spent;
    var ret := ResultType(f);
    var fence := PassFences(name, Minus(b, Spent(st.log[|before|..])));
    var invoke := S(CallHost(name, |args|), S(ExtendI32, S(SetValue(id), rest)));
    var st1 := WithBudget(st, fence.left);
    assert UnderWay(b, before, st1, fence);
    var st2 := ArgsRun(args, invoke, ret, st1, w, fuel);
    SameBalance(b, before, st1, st2);
    SameBudgets(fence.left, st1, st2);
    if |st2.stack| == |args| {
      AuditDispatch(b, before, f, name, |args|, id, rest, st2, st, w, fuel);
    }
    hide ExecCode;
    hide ArgsCode;
  }

  lemma SameBudgets(left: Budget, st: WState, st': WState)
    requires SameBooks(st', st) && Budgets(left, st.globals)
    ensures Budgets(left, st'.globals) && st'.log == st.log
  {
    assert Entropy in [Entropy, Tokens, Cost] && Tokens in [Entropy, Tokens, Cost] && Cost in [Entropy, Tokens, Cost];
  }

  lemma {:induction false} CopiesCarry(copies: seq<Copy>, rest: Code)
    ensures Carries(CopyCode(copies, rest), rest, 0)
  {
    if copies == [] {
      CarriesNothing(rest);
    } else {
      var tail := CopyCode(copies[1..], rest);
      CopiesCarry(copies[1..], rest);
      CarriesOp(SetValue(copies[0].dst), tail, rest, -1);
      CarriesOp(GetValue(copies[0].src), S(SetValue(copies[0].dst), tail), rest, 0);
    }
  }

  lemma {:induction false} CarriesJoin(c: Code, mid: Code, rest: Code, m: int, n: int)
    requires Carries(c, mid, m) && Carries(mid, rest, n)
    ensures Carries(c, rest, m + n)
    decreases c
  {
    if !(c == mid && m == 0) {
      var op, tail := c.head.op, c.tail;
      CarriesJoin(tail, mid, rest, m - Pushes(op), n);
      hide *;
      CarriesOp(op, tail, rest, m + n);
    }
  }

  lemma EdgeCarries(f: Function, from: int, t: int32, rest: Code)
    ensures Carries(EdgeCode(f, from, t, rest), rest, 0)
  {
    var jump := S(Const32(t), S(SetBb, rest));
    CarriesNothing(rest);
    CarriesOp(SetBb, rest, rest, -1);
    CarriesOp(Const32(t), S(SetBb, rest), rest, 0);
    CopiesCarry(EdgeCopies(f, from, t), jump);
    hide *;
    CarriesJoin(EdgeCode(f, from, t, rest), jump, rest, 0, 0);
  }

  lemma CarriesUnary(op: Op, mid: Op, last: Op, rest: Code)
    requires Neutral(op) && Neutral(mid) && Neutral(last) && Pushes(op) + Pushes(mid) + Pushes(last) == 0
    ensures Carries(S(op, S(mid, S(last, rest))), rest, 0)
  {
    hide Neutral;
    CarriesNothing(rest);
    CarriesOp(last, rest, rest, Pushes(last));
    CarriesOp(mid, S(last, rest), rest, Pushes(mid) + Pushes(last));
    CarriesOp(op, S(mid, S(last, rest)), rest, 0);
  }

  lemma CarriesPair(op: Op, last: Op, rest: Code)
    requires Neutral(op) && Neutral(last) && Pushes(op) + Pushes(last) == 0
    ensures Carries(S(op, S(last, rest)), rest, 0)
  {
    hide Neutral;
    CarriesNothing(rest);
    CarriesOp(last, rest, rest, Pushes(last));
    CarriesOp(op, S(last, rest), rest, 0);
  }

  lemma CarriesBinary(l: Op, r: Op, mid: Op, last: Op, rest: Code)
    requires Neutral(l) && Neutral(r) && Neutral(mid) && Neutral(last)
    requires Pushes(l) == Pushes(r) == 1 && Pushes(mid) == Pushes(last) == -1
    ensures Carries(S(l, S(r, S(mid, S(last, rest)))), rest, 0)
  {
    hide Neutral;
    CarriesNothing(rest);
    CarriesOp(last, rest, rest, -1);
    CarriesOp(mid, S(last, rest), rest, -2);
    CarriesOp(r, S(mid, S(last, rest)), rest, -1);
    CarriesOp(l, S(r, S(mid, S(last, rest))), rest, 0);
  }

  predicate StraightLine(inst: Inst, sites: seq<string>) {
    !inst.Terminates() && !(inst.HostCall? && inst.name in sites)
  }

  /** Everything but calls and jumps is neutral and leaves the stack as it was. */
  lemma InstCarries(f: Function, types: Types, sites: seq<string>, k: nat, inst: Inst, rest: Code)
    requires StraightLine(inst, sites)
    ensures Carries(InstCode(f, types, sites, k, inst, rest), rest, 0)
  {
    hide Carries;
    if inst.Bin? || inst.Neg? || inst.Cmp? || inst.Logic? {
      BinaryCarries(f, types, sites, k, inst, rest);
    } else if inst.Alloca? || inst.Load? || inst.Store? || inst.Cast? {
      MemoryCarries(f, types, sites, k, inst, rest);
    } else {
      OtherCarries(f, types, sites, k, inst, rest);
    }
  }

  lemma BinaryCarries(f: Function, types: Types, sites: seq<string>, k: nat, inst: Inst, rest: Code)
    requires inst.Bin? || inst.Neg? || inst.Cmp? || inst.Logic?
    ensures Carries(InstCode(f, types, sites, k, inst, rest), rest, 0)
  {
    hide Carries;
    match inst
    case Bin(id, op, l, r) => CarriesBinary(GetValue(l), GetValue(r), Bin64(op), SetValue(id), rest);
    case Neg(id, x) => CarriesBinary(Const64(0), GetValue(x), Bin64(Sub), SetValue(id), rest);
    case Cmp(id, op, l, r) => CarriesBinary(GetValue(l), GetValue(r), CmpOpFor(types, l, op), SetValue(id), rest);
    case Logic(id, op, l, r) => CarriesBinary(GetValue(l), GetValue(r), Logic32(op), SetValue(id), rest);
  }

  lemma MemoryCarries(f: Function, types: Types, sites: seq<string>, k: nat, inst: Inst, rest: Code)
    requires inst.Alloca? || inst.Load? || inst.Store? || inst.Cast?
    ensures Carries(InstCode(f, types, sites, k, inst, rest), rest, 0)
  {
    hide Carries;
    match inst
    case Alloca(id) =>
      var tail := S(Const32(8), S(Add32, S(GlobalSet(Bump), rest)));
      CarriesNothing(rest);
      CarriesOp(GlobalSet(Bump), rest, rest, -1);
      CarriesOp(Add32, S(GlobalSet(Bump), rest), rest, -2);
      CarriesOp(Const32(8), S(Add32, S(GlobalSet(Bump), rest)), rest, -1);
      CarriesOp(LocalTee(id), tail, rest, -1);
      CarriesOp(GlobalGet(Bump), S(LocalTee(id), tail), rest, 0);
    case Load(id, ty, addr) => CarriesUnary(GetValue(addr), LoadW(LowerType(ty)), SetValue(id), rest);
    case Store(val, addr) => CarriesUnary(GetValue(addr), GetValue(val), StoreW(LowerType(TypeAt(types, val))), rest);
    case Cast(id, ty, x) => CastCarries(types, id, ty, x, rest);
  }

  lemma OtherCarries(f: Function, types: Types, sites: seq<string>, k: nat, inst: Inst, rest: Code)
    requires StraightLine(inst, sites)
    requires inst.ConstInt? || inst.ConstBool? || inst.Not? || inst.HostCall? || inst.Phi? || inst.Nop?
    ensures Carries(InstCode(f, types, sites, k, inst, rest), rest, 0)
  {
    hide Carries;
    match inst
    case ConstInt(id, n) => CarriesPair(Const64(n), SetValue(id), rest);
    case ConstBool(id, b) => CarriesPair(Const32(Bit(b)), SetValue(id), rest);
    case Not(id, x) => CarriesUnary(GetValue(x), if TypeAt(types, x) == I64 then Eqz64 else Eqz32, SetValue(id), rest);
    case HostCall(id, name, args) => CarriesPair(Const64(-1), SetValue(id), rest);
    case Phi(_, _, _) => CarriesNothing(rest);
    case Nop =>
      CarriesNothing(rest);
      CarriesOp(NopW, rest, rest, 0);
  }

  lemma CastCarries(types: Types, id: int, ty: IrType, x: int, rest: Code)
    ensures Carries(S(GetValue(x), CastCode(types, ty, x, S(SetValue(id), rest))), rest, 0)
  {
    hide Carries;
    CarriesPair(GetValue(x), SetValue(id), rest);
    CarriesUnary(GetValue(x), WrapI64, SetValue(id), rest);
    CarriesUnary(GetValue(x), ExtendI32, SetValue(id), rest);
  }

  lemma AuditRet(b: Budget, before: seq<Call>, f: Function, x: int, rest: Code, st: WState, w: World, fuel: nat)
    requires Balanced(b, before, st)
    ensures Audit(b, before, f.ret,
                  ExecCode(if x >= 0 then S(GetValue(x), Seq(Return, rest)) else Seq(Return, rest), ResultType(f), st, w, fuel))
  {
    hide Balanced;
    var ret := ResultType(f);
    if x >= 0 {
      CarriesNothing(Seq(Return, rest));
      CarriesOp(GetValue(x), Seq(Return, rest), Seq(Return, rest), 1);
      var st' := CarriesRuns(S(GetValue(x), Seq(Return, rest)), Seq(Return, rest), 1, ret, st, w, fuel);
      SameBalance(b, before, st, st');
    }
  }

  lemma AuditJmp(b: Budget, before: seq<Call>, f: Function, k: int, t: int32, rest: Code, st: WState, w: World, fuel: nat)
    requires Balanced(b, before, st)
    ensures Audit(b, before, f.ret, ExecCode(EdgeCode(f, k, t, Seq(BrTo(Dispatch), rest)), ResultType(f), st, w, fuel))
  {
    hide Balanced;
    hide EdgeCode;
    hide Carries;
    var jump := Seq(BrTo(Dispatch), rest);
    EdgeCarries(f, k, t, jump);
    var st' := CarriesRuns(EdgeCode(f, k, t, jump), jump, 0, ResultType(f), st, w, fuel);
    SameBalance(b, before, st, st');
    JumpStep(rest, ResultType(f), st', w, fuel);
  }

  /** The arms of a conditional end on an empty stack and jump. */
  lemma AuditArm(b: Budget, before: seq<Call>, f: Function, k: int, t: int32, st: WState, w: World, fuel: nat)
    requires Balanced(b, before, st) && st.stack == []
    ensures Audit(b, before, f.ret, ExecCode(EdgeCode(f, k, t, End), ResultType(f), st, w, fuel))
  {
    hide Balanced;
    hide EdgeCode;
    hide Carries;
    EdgeCarries(f, k, t, End);
    var st' := CarriesRuns(EdgeCode(f, k, t, End), End, 0, ResultType(f), st, w, fuel);
    SameBalance(b, before, st, st');
  }

  lemma AuditBr(b: Budget, before: seq<Call>, f: Function, k: int, c: int, t: int32, e: int32, rest: Code, st: WState, w: World, fuel: nat)
    requires Balanced(b, before, st) && st.stack == []
    ensures Audit(b, before, f.ret,
                  ExecCode(S(GetValue(c), Seq(If(EdgeCode(f, k, t, End), EdgeCode(f, k, e, End)), Seq(BrTo(Dispatch), rest))),
                           ResultType(f), st, w, fuel))
  {
    hide Balanced;
    hide EdgeCode;
    var ret := ResultType(f);
    var thn, els := EdgeCode(f, k, t, End), EdgeCode(f, k, e, End);
    var arms := Seq(If(thn, els), Seq(BrTo(Dispatch), rest));
    CarriesNothing(arms);
    CarriesOp(GetValue(c), arms, arms, 1);
    var st1 := CarriesRuns(S(GetValue(c), arms), arms, 1, ret, st, w, fuel);
    hide Carries;
    SameBalance(b, before, st, st1);
    if |st1.stack| == 1 {
      var st2 := st1.(stack := st1.stack[1..]);
      SameBalance(b, before, st1, st2);
      AuditArm(b, before, f, k, t, st2, w, fuel);
      AuditArm(b, before, f, k, e, st2, w, fuel);
      if st1.stack[0].W32? {
        var arm := ExecCode(if st1.stack[0].m != 0 then thn else els, ret, st2, w, fuel);
        assert ExecInstr(If(thn, els), ret, st1, w, fuel) == arm;
        if arm.Falls? {
          JumpStep(rest, ret, arm.st, w, fuel);
        }
      }
    }
  }

  lemma AuditInst(b: Budget, before: seq<Call>, f: Function, types: Types, sites: seq<string>, k: nat, inst: Inst, rest: Code,
                  st: WState, w: World, fuel: nat)
    requires Balanced(b, before, st) && st.stack == []
    requires forall st': WState :: Balanced(b, before, st') && st'.stack == [] ==>
               Audit(b, before, f.ret, ExecCode(rest, ResultType(f), st', w, fuel))
    ensures Audit(b, before, f.ret, ExecCode(InstCode(f, types, sites, k, inst, rest), ResultType(f), st, w, fuel))
  {
    hide Balanced;
    hide Audit;
    hide ExecCode;
    hide Carries;
    hide EdgeCode;
    hide HostCallCode;
    if StraightLine(inst, sites) {
      InstCarries(f, types, sites, k, inst, rest);
      AuditCarried(b, before, f, InstCode(f, types, sites, k, inst, rest), rest, st, w, fuel);
    } else {
      match inst
      case HostCall(id, name, args) => AuditCall(b, before, f, sites, id, name, args, rest, st, w, fuel);
      case Ret(x) => AuditRet(b, before, f, x, rest, st, w, fuel);
      case Br(c, t, e) => AuditBr(b, before, f, k, c, t, e, rest, st, w, fuel);
      case Jmp(t) => AuditJmp(b, before, f, k, t, rest, st, w, fuel);
    }
  }

  lemma AuditTail(b: Budget, before: seq<Call>, f: Function, k: nat, st: WState, w: World, fuel: nat)
    requires k < |f.blocks| < TWO_31 && Balanced(b, before, st) && st.stack == []
    ensures Audit(b, before, f.ret, ExecCode(TailCode(f, k), ResultType(f), st, w, fuel))
  {
    hide Balanced;
    if !LastTerminates(f.blocks[k]) && k + 1 < |f.blocks| {
      var jump := Seq(BrTo(Dispatch), End);
      CarriesPair(Const32(k + 1), SetBb, jump);
      var st' := CarriesRuns(TailCode(f, k), jump, 0, ResultType(f), st, w, fuel);
      SameBalance(b, before, st, st');
      JumpStep(End, ResultType(f), st', w, fuel);
    }
  }

  lemma {:induction false} AuditBody(b: Budget, before: seq<Call>, f: Function, types: Types, sites: seq<string>, k: nat, i: nat,
                                     st: WState, w: World, fuel: nat)
    requires k < |f.blocks| < TWO_31 && i <= |f.blocks[k].insts| && Balanced(b, before, st) && st.stack == []
    ensures Audit(b, before, f.ret, ExecCode(BodyFrom(f, types, sites, k, i), ResultType(f), st, w, fuel))
    decreases |f.blocks[k].insts| - i
  {
    hide Balanced;
    hide Audit;
    hide ExecCode;
    hide InstCode;
    if i == |f.blocks[k].insts| {
      AuditTail(b, before, f, k, st, w, fuel);
    } else {
      var rest := BodyFrom(f, types, sites, k, i + 1);
      forall st': WState | Balanced(b, before, st') && st'.stack == []
        ensures Audit(b, before, f.ret, ExecCode(rest, ResultType(f), st', w, fuel))
      {
        AuditBody(b, before, f, types, sites, k, i + 1, st', w, fuel);
      }
      AuditInst(b, before, f, types, sites, k, f.blocks[k].insts[i], rest, st, w, fuel);
    }
  }

  lemma {:induction false} AuditLevel(b: Budget, before: seq<Call>, f: Function, types: Types, sites: seq<string>, i: nat,
                                      st: WState, w: World, fuel: nat)
    requires i <= |f.blocks| < TWO_31 && Balanced(b, before, st) && st.stack == []
    ensures Audit(b, before, f.ret, ExecCode(Level(f, types, sites, i), ResultType(f), st, w, fuel))
  {
    hide Balanced;
    hide BodyFrom;
    var ret := ResultType(f);
    if i == 0 {
      var table := Seq(BrTable(|f.blocks|), End);
      var st1 := st.(stack := [W32(st.bb)] + st.stack);
      WasmCorrect.Step(GetBb, table, ret, st, st1, w, fuel);
      SameBalance(b, before, st, st1.(stack := st1.stack[1..]));
    } else {
      AuditLevel(b, before, f, types, sites, i - 1, st, w, fuel);
      var flow := ExecCode(Level(f, types, sites, i - 1), ret, st, w, fuel);
      if flow.Falls? {
        AuditBody(b, before, f, types, sites, i - 1, 0, flow.st, w, fuel);
      } else if flow.Branches? && flow.l == BbLabel(i - 1) {
        var st1 := flow.st.(stack := st.stack);
        SameBalance(b, before, flow.st, st1);
        AuditBody(b, before, f, types, sites, i - 1, 0, st1, w, fuel);
      }
    }
  }

  /** The dispatch loop, for any number of turns. */
  lemma {:induction false} AuditLoop(b: Budget, before: seq<Call>, f: Function, types: Types, sites: seq<string>, st: WState,
                                     w: World, fuel: nat)
    requires |f.blocks| < TWO_31 && Balanced(b, before, st) && st.stack == []
    ensures Audit(b, before, f.ret, ExecInstr(DispatchLoop(f, types, sites), ResultType(f), st, w, fuel))
    decreases fuel
  {
    hide Balanced;
    hide Level;
    if fuel > 0 {
      AuditLevel(b, before, f, types, sites, |f.blocks|, st, w, fuel - 1);
      var flow := ExecCode(Level(f, types, sites, |f.blocks|), ResultType(f), st, w, fuel - 1);
      if flow.Branches? && flow.l == Dispatch {
        var st1 := flow.st.(stack := st.stack);
        SameBalance(b, before, flow.st, st1);
        AuditLoop(b, before, f, types, sites, st1, w, fuel - 1);
      }
      hide ExecCode;
    }
  }

  // ---- whole functions, whole modules ----

  lemma DefaultCarries(ret: IrType, b: Budget, before: seq<Call>, st: WState, w: World, fuel: nat) returns (st': WState)
    requires Balanced(b, before, st)
    ensures Balanced(b, before, st')
    ensures var r := if ret == Void then None else Some(LowerType(ret));
            ExecCode(DefaultCode(ret), r, st, w, fuel) == Falls(st')
  {
    var r := if ret == Void then None else Some(LowerType(ret));
    st' := st;
    if ret != Void {
      var zero := if ret == I64 then Const64(0) else Const32(0);
      st' := ExecOp(zero, st, w).st;
      WasmCorrect.Step(zero, End, r, st, st', w, fuel);
      SameBalance(b, before, st, st');
    }
  }

  lemma AuditFunction(b: Budget, before: seq<Call>, f: Function, types: Types, sites: seq<string>, st: WState,
                      w: World, fuel: nat)
    requires |f.blocks| < TWO_31 && Balanced(b, before, st) && st.stack == []
    ensures var flow := RunText(Flatten(FunctionCode(f, types, sites)), ResultType(f), st, w, fuel);
            !flow.Falls? && Audit(b, before, f.ret, flow)
  {
    hide Balanced;
    hide DispatchLoop;
    hide DefaultCode;
    hide Parse;
    hide Flatten;
    var ret := ResultType(f);
    var code := FunctionCode(f, types, sites);
    ParseFlatten(code, []);
    assert Flatten(code) + [] == Flatten(code);
    var loop := DispatchLoop(f, types, sites);
    var nest := Blk(Exit, Seq(loop, End));
    var exit := Seq(nest, DefaultCode(f.ret));
    var st0 := st.(bb := 0);
    SameBalance(b, before, st, st0);
    WasmCorrect.Step(Const32(0), S(SetBb, exit), ret, st, st.(stack := [W32(0)]), w, fuel);
    WasmCorrect.Step(SetBb, exit, ret, st.(stack := [W32(0)]), st0, w, fuel);
    AuditLoop(b, before, f, types, sites, st0, w, fuel);
    var flow := ExecInstr(loop, ret, st0, w, fuel);
    assert ExecCode(Seq(loop, End), ret, st0, w, fuel) == flow;
    if flow.Falls? {
      var out := DefaultCarries(f.ret, b, before, flow.st, w, fuel);
    } else if flow.Branches? && flow.l == Exit {
      var st1 := flow.st.(stack := []);
      SameBalance(b, before, flow.st, st1);
      var out := DefaultCarries(f.ret, b, before, st1, w, fuel);
    }
  }

  /** How far the counters can be from the charges of the dispatched calls: a
      refused call keeps the charges of the fences it passed, and so does a call
      whose arguments are rejected. */
  ghost predicate Settled(b: Budget, spent: Budget, left: Budget, ret: IrType, flow: Flow) {
    || left == Minus(b, spent)
    || exists name ::
         var fence := PassFences(name, Minus(b, spent));
         && left == fence.left && NonNegative(Minus(b, spent))
         && (fence.Passed? ==> flow.Rejected?)
         && (fence.Tripped? ==> flow.Returns? && flow.v == SentinelVal(ret, fence.error))
  }

  /** MAIN RESULT. For every function, well-typed or not, started with any
      locals, memory and log, for any number of blocks run, and however it ends
      or is cut short: the counters are never negative, the charges of the host
      calls it dispatched stay within every budget it found, and the counters
      are those budgets less these charges, except that a call refused or
      rejected on the way keeps the charges of the fences it passed. */
  lemma BudgetsRespected(f: Function, types: Types, sites: seq<string>, b: Budget, st: WState, w: World, fuel: nat)
    returns (left: Budget)
    requires |f.blocks| < TWO_31 && Budgets(b, st.globals) && st.stack == []
    ensures var flow := RunText(Flatten(FunctionCode(f, types, sites)), ResultType(f), st, w, fuel);
            && st.log <= flow.st.log && Budgets(left, flow.st.globals) && NonNegative(left)
            && var spent := Spent(flow.st.log[|st.log|..]);
               NonNegative(spent) && Within(spent, b) && Within(left, Minus(b, spent)) && Settled(b, spent, left, f.ret, flow)
  {
    assert st.log[|st.log|..] == [];
    AuditFunction(b, st.log, f, types, sites, st, w, fuel);
    var flow := RunText(Flatten(FunctionCode(f, types, sites)), ResultType(f), st, w, fuel);
    hide RunText;
    hide Flatten;
    var spent := Spent(flow.st.log[|st.log|..]);
    SpentNonNegative(flow.st.log[|st.log|..]);
    hide Spent;
    if Balanced(b, st.log, flow.st) {
      left := Minus(b, spent);
    } else {
      var fence: Fence :| UnderWay(b, st.log, flow.st, fence) &&
        (fence.Passed? ==> flow.Rejected?) &&
        (fence.Tripped? ==> flow.Returns? && flow.v == SentinelVal(f.ret, fence.error));
      left := fence.left;
      var name :| fence == PassFences(name, Minus(b, spent));
      FencesOnlyTake(name, Minus(b, spent));
    }
  }

  lemma FencesOnlyTake(name: string, b: Budget)
    requires NonNegative(b)
    ensures NonNegative(PassFences(name, b).left) && Within(PassFences(name, b).left, b)
  {
  }

  /** One entry into a module from outside: a function, its fresh locals, and
      how long it runs. */
  datatype Entry = Entry(f: Function, types: Types, sites: seq<string>, locals: map<int, WVal>, fuel: nat)

  /** What a sequence of entries leaves; memory, counters and log persist. */
  function RunModule(entries: seq<Entry>, st: WState, w: World): WState
    requires forall e <- entries :: |e.f.blocks| < TWO_31
  {
    if entries == [] then st
    else
      var n := |entries| - 1;
      var e := entries[n];
      var before := RunModule(entries[..n], st, w);
      RunText(Flatten(FunctionCode(e.f, e.types, e.sites)), ResultType(e.f),
              before.(locals := e.locals, bb := 0, stack := []), w, e.fuel).st
  }

  function Plus(a: Budget, b: Budget): Budget {
    Budget(a.entropy + b.entropy, a.tokens + b.tokens, a.cost + b.cost)
  }

  lemma NothingSpent()
    ensures Spent([]) == Budget(0, 0, 0)
  {
  }

  lemma {:induction false} SpentAppend(a: seq<Call>, b: seq<Call>)
    ensures Spent(a + b) == Plus(Spent(a), Spent(b))
  {
    hide Spent;
    if b == [] {
      NothingSpent();
      assert a + b == a;
    } else {
      var n := |b| - 1;
      SpentAppend(a, b[..n]);
      assert a + b == (a + b[..n]) + [b[n]];
      assert b == b[..n] + [b[n]];
      SpentSplits(a + b[..n], b[n]);
      SpentSplits(b[..n], b[n]);
    }
  }

  lemma OneMoreEntry(b: Budget, log0: seq<Call>, log1: seq<Call>, log2: seq<Call>, left1: Budget, left2: Budget)
    requires log0 <= log1 <= log2 && Within(Plus(left1, Spent(log1[|log0|..])), b)
    requires Within(left2, Minus(left1, Spent(log2[|log1|..])))
    ensures log0 <= log2 && NonNegative(Spent(log2[|log0|..])) && Within(Plus(left2, Spent(log2[|log0|..])), b)
  {
    hide Spent;
    assert log2[|log0|..] == log1[|log0|..] + log2[|log1|..];
    SpentAppend(log1[|log0|..], log2[|log1|..]);
    SpentNonNegative(log2[|log0|..]);
  }

  /** MAIN RESULT. Over every run of a module, any functions entered in any
      order and whatever happened before, what is left of each counter and the
      charges of all calls dispatched together never exceed the declared budget. */
  lemma {:induction false} ModuleWithinBudget(entries: seq<Entry>, b: Budget, st: WState, w: World) returns (left: Budget)
    requires (forall e <- entries :: |e.f.blocks| < TWO_31) && Budgets(b, st.globals)
    ensures var end := RunModule(entries, st, w);
            && st.log <= end.log && Budgets(left, end.globals) && NonNegative(left)
            && NonNegative(Spent(end.log[|st.log|..])) && Within(Plus(left, Spent(end.log[|st.log|..])), b)
  {
    hide RunText;
    hide Flatten;
    if entries == [] {
      left := b;
      assert st.log[|st.log|..] == [];
    } else {
      var n := |entries| - 1;
      var e := entries[n];
      var before := RunModule(entries[..n], st, w);
      var left0 := ModuleWithinBudget(entries[..n], b, st, w);
      left := BudgetsRespected(e.f, e.types, e.sites, left0, before.(locals := e.locals, bb := 0, stack := []), w, e.fuel);
      OneMoreEntry(b, st.log, before.log, RunModule(entries, st, w).log, left0, left);
      hide *;
    }
  }

  /** A refused call has been charged exactly when it reports -10: the entropy
      fence it passed keeps its charge although nothing is dispatched. */
  lemma RefusedCallIsCharged(name: string, b: Budget, error: int32, left: Budget)
    requires NonNegative(b) && PassFences(name, b) == Tripped(error, left)
    ensures left != b <==> error == BUDGET_EXCEEDED
    ensures left != b <==> b.entropy >= EntropyCost(name)
  {
    assert CHAT[4] == 'c' && CLASSIFY[5] == 'l' && CHAT[5] == 'h';
    assert CHAT != CLASSIFY;
  }

  // ---- in numbers of calls ----

  function Times(log: seq<Call>, name: string): (n: nat)
    ensures n <= |log|
  {
    if log == [] then 0 else Times(log[..|log| - 1], name) + (if log[|log| - 1].name == name then 1 else 0)
  }

  lemma TwoNames()
    ensures "llm.classify" != "llm.chat"
  {
    assert "llm.classify"[5] == 'l' && "llm.chat"[5] == 'h';
  }

  /** What a list of calls costs: a classification one bit, 100 tokens and 500
      micro-dollars, a chat four bits, 1000 tokens and 30000, others nothing. */
  lemma {:induction false} SpentCounts(log: seq<Call>)
    ensures var classify, chat := Times(log, "llm.classify"), Times(log, "llm.chat");
            Spent(log) == Budget(classify + 4 * chat, 100 * classify + 1000 * chat, 500 * classify + 30000 * chat)
  {
    TwoNames();
    if log != [] {
      SpentCounts(log[..|log| - 1]);
    }
  }

  /** MAIN RESULT in calls: whatever is entered in whatever order, the numbers of
      classifications and chats dispatched fit all three declared budgets. */
  lemma CallsWithinBudget(entries: seq<Entry>, b: Budget, st: WState, w: World)
    requires (forall e <- entries :: |e.f.blocks| < TWO_31) && Budgets(b, st.globals)
    ensures st.log <= RunModule(entries, st, w).log
    ensures var made := RunModule(entries, st, w).log[|st.log|..];
            var classify, chat := Times(made, "llm.classify"), Times(made, "llm.chat");
            && classify + 4 * chat <= b.entropy && 100 * classify + 1000 * chat <= b.tokens
            && 500 * classify + 30000 * chat <= b.cost
  {
    var left := ModuleWithinBudget(entries, b, st, w);
    hide RunModule;
    SpentCounts(RunModule(entries, st, w).log[|st.log|..]);
    hide Spent;
    hide Times;
  }
}
