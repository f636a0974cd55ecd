/** The emitted dispatch loop means what the control-flow graph means. */
module WasmCorrect {
  import opened Ir
  import opened Wasm
  import opened WasmEmit
  import opened Wrappers

  // ---- which functions ----

  predicate Produces(inst: Inst) {
    !(inst.Store? || inst.Ret? || inst.Br? || inst.Jmp? || inst.Nop?)
  }

  /** An instruction defines its value at the type its local is declared with,
      and calls only registered hosts. */
  predicate InstOk(f: Function, types: Types, sites: seq<string>, k: nat, i: nat)
    requires k < |f.blocks| && i < |f.blocks[k].insts|
  {
    var inst := f.blocks[k].insts[i];
    && (Produces(inst) ==> inst.id in types && types[inst.id] == inst.Type())
    && (inst.HostCall? ==> inst.name in sites)
  }

  predicate Supported(f: Function, types: Types, sites: seq<string>) {
    && BlocksNumbered(f)
    && (forall id <- types :: 0 <= id)
    && (forall p <- f.params :: p.id in types && types[p.id] == p.ty)
    && (forall k, i {:trigger InstOk(f, types, sites, k, i)} ::
          0 <= k < |f.blocks| && 0 <= i < |f.blocks[k].insts| ==> InstOk(f, types, sites, k, i))
  }

  // ---- related states ----

  /** The cells lie 8 bytes apart inside the page. */
  predicate Layout(base: int32, w: World) {
    0 <= base && base + 8 * w.cells <= PAGE
  }

  predicate ValidVal(v: Val, next: nat) {
    v.PtrVal? ==> v.cell < next
  }

  predicate EnvRel(types: Types, base: int32, s: State, locals: map<int, WVal>) {
    && locals.Keys == types.Keys
    && (forall id <- types :: 0 <= id && WTypeOf(locals[id]) == LowerType(types[id]))
    && (forall id <- s.env :: id in types && TypeOf(s.env[id]) == types[id] &&
          ValidVal(s.env[id], s.next) && locals[id] == LowerVal(base, s.env[id]))
  }

  predicate CellsRel(base: int32, s: State, mem: map<int, WVal>) {
    forall c <- s.cells :: c < s.next && ValidVal(s.cells[c], s.next) &&
      base + 8 * c in mem && mem[base + 8 * c] == LowerVal(base, s.cells[c])
  }

  predicate BudgetOk(b: Budget) {
    0 <= b.entropy < TWO_31 && 0 <= b.tokens < TWO_31 && 0 <= b.cost < TWO_63
  }

  predicate Budgets(b: Budget, g: map<Global, WVal>) {
    && BudgetOk(b)
    && Entropy in g && g[Entropy] == W32(b.entropy)
    && Tokens in g && g[Tokens] == W32(b.tokens)
    && Cost in g && g[Cost] == W64(b.cost)
  }

  /** What the outside sees: the host calls made and the budgets left. */
  predicate Effects(s: State, ws: WState) {
    ws.log == s.log && Budgets(s.budget, ws.globals)
  }

  predicate Rel(types: Types, base: int32, w: World, s: State, ws: WState) {
    && Layout(base, w) && s.next <= w.cells
    && EnvRel(types, base, s, ws.locals)
    && CellsRel(base, s, ws.mem)
    && Effects(s, ws)
    && Bump in ws.globals && ws.globals[Bump] == W32(Wrap32(base + 8 * s.next))
    && ws.stack == []
  }

  // ---- stepping through code ----

  lemma Step(op: Op, rest: Code, ret: Option<WType>, st: WState, st': WState, w: World, fuel: nat)
    requires ExecOp(op, st, w) == Ok(st')
    ensures ExecCode(S(op, rest), ret, st, w, fuel) == ExecCode(rest, ret, st', w, fuel)
  {
  }

  function Pushed(st: WState, v: WVal): WState {
    st.(stack := [v] + st.stack)
  }

  // What the operators do on the stacks the emitted code meets.

  lemma PushesConst(v: WVal, st: WState, w: World)
    ensures ExecOp(match v case W64(n) => Const64(n) case W32(m) => Const32(m), st, w) == Ok(Pushed(st, v))
    ensures forall x :: st.stack == [x] ==> Pushed(st, v) == st.(stack := [v, x])
    ensures st.stack == [] ==> Pushed(st, v) == st.(stack := [v])
  {
    assert st.stack == [] ==> [v] + st.stack == [v];
    assert forall x :: st.stack == [x] ==> [v] + st.stack == [v, x];
  }

  lemma PushesGlobal(g: Global, st: WState, w: World)
    requires g in st.globals && st.stack == []
    ensures ExecOp(GlobalGet(g), st, w) == Ok(st.(stack := [st.globals[g]]))
  {
    assert [st.globals[g]] + st.stack == [st.globals[g]];
  }

  lemma PopsGlobal(g: Global, v: WVal, st: WState, w: World)
    requires g in st.globals && WTypeOf(st.globals[g]) == WTypeOf(v) && st.stack == [v]
    ensures ExecOp(GlobalSet(g), st, w) == Ok(st.(globals := st.globals[g := v], stack := []))
  {
  }

  lemma Subtracts32(a: int32, b: int32, st: WState, w: World)
    requires st.stack == [W32(b), W32(a)]
    ensures ExecOp(Sub32, st, w) == Ok(st.(stack := [W32(Wrap32(a - b))]))
    ensures ExecOp(Add32, st, w) == Ok(st.(stack := [W32(Wrap32(a + b))]))
    ensures ExecOp(Cmp32(Lt), st, w) == Ok(st.(stack := [W32(Bit(a < b))]))
  {
    assert forall v :: [v] + st.stack[2..] == [v];
  }

  lemma Subtracts64(a: int64, b: int64, st: WState, w: World)
    requires st.stack == [W64(b), W64(a)]
    ensures ExecOp(Bin64(Sub), st, w) == Ok(st.(stack := [W64(Wrap64(a - b))]))
    ensures ExecOp(Cmp64(Lt), st, w) == Ok(st.(stack := [W32(Bit(a < b))]))
  {
    assert forall v :: [v] + st.stack[2..] == [v];
  }

  lemma TeesLocal(r: int, v: WVal, st: WState, w: World)
    requires r in st.locals && WTypeOf(st.locals[r]) == WTypeOf(v) && st.stack == [v]
    ensures ExecOp(LocalTee(r), st, w) == Ok(st.(locals := st.locals[r := v]))
  {
  }

  lemma Extends(m: int32, st: WState, w: World)
    requires st.stack == [W32(m)]
    ensures ExecOp(ExtendI32, st, w) == Ok(st.(stack := [W64(m)]))
  {
  }

  lemma CallsHost(name: string, argc: nat, st: WState, w: World)
    requires |st.stack| == argc
    ensures var call := Call(name, Operands(st.stack, argc));
            ExecOp(CallHost(name, argc), st, w) ==
            Ok(st.(stack := [W32(Wrap32(w.host(st.log, call)))], log := st.log + [call]))
  {
    assert st.stack[argc..] == [];
    assert forall v: WVal :: [v] + st.stack[argc..] == [v];
  }

  /** Reading a defined value pushes its lowered form. */
  lemma GetStep(types: Types, base: int32, s: State, id: int, rest: Code, ret: Option<WType>, st: WState, w: World, fuel: nat)
    requires EnvRel(types, base, s, st.locals) && id in s.env
    ensures ExecCode(S(GetValue(id), rest), ret, st, w, fuel) ==
            ExecCode(rest, ret, Pushed(st, LowerVal(base, s.env[id])), w, fuel)
    ensures st.stack == [] ==> Pushed(st, LowerVal(base, s.env[id])) == st.(stack := [LowerVal(base, s.env[id])])
  {
    assert st.stack == [] ==> [LowerVal(base, s.env[id])] + st.stack == [LowerVal(base, s.env[id])];
    Step(GetValue(id), rest, ret, st, Pushed(st, LowerVal(base, s.env[id])), w, fuel);
  }

  function SetLocal(ws: WState, id: int, v: WVal): WState {
    ws.(locals := ws.locals[id := v], stack := [])
  }

  /** Storing a result of the declared type pops it into its local. */
  lemma SetStep(types: Types, base: int32, s: State, id: int, v: WVal, rest: Code, ret: Option<WType>, st: WState, w: World, fuel: nat)
    requires EnvRel(types, base, s, st.locals) && id in types && LowerType(types[id]) == WTypeOf(v)
    requires st.stack == [v]
    ensures ExecCode(S(SetValue(id), rest), ret, st, w, fuel) == ExecCode(rest, ret, SetLocal(st, id, v), w, fuel)
  {
    assert st.stack[1..] == [];
    Step(SetValue(id), rest, ret, st, SetLocal(st, id, v), w, fuel);
  }

  lemma DefineRel(types: Types, base: int32, w: World, s: State, ws: WState, id: int, v: Val)
    requires Rel(types, base, w, s, ws)
    requires id in types && types[id] == TypeOf(v) && ValidVal(v, s.next)
    ensures Rel(types, base, w, Define(s, id, v), SetLocal(ws, id, LowerVal(base, v)))
  {
  }

  lemma LogicOnBits(op: LogOp, a: bool, b: bool)
    ensures Wrap32(if op == And then BitAnd(ToNat32(Bit(a)), ToNat32(Bit(b)))
                   else BitOr(ToNat32(Bit(a)), ToNat32(Bit(b)))) ==
            Bit(if op == And then a && b else a || b)
  {
    assert ToNat32(Bit(a)) == Bit(a) && ToNat32(Bit(b)) == Bit(b);
    BitOpsOnBits(a, b);
    hide BitAnd;
    hide BitOr;
  }

  // ---- instructions that only compute ----

  /** Operands, operator, result: the three shapes of computing code. */
  lemma BinaryCode(types: Types, base: int32, w: World, s: State, ws: WState, l: int, r: int, op: Op, id: int,
                   res: WVal, rest: Code, ret: Option<WType>, fuel: nat)
    requires EnvRel(types, base, s, ws.locals) && ws.stack == []
    requires l in s.env && r in s.env
    requires id in types && LowerType(types[id]) == WTypeOf(res)
    requires ExecOp(op, ws.(stack := [LowerVal(base, s.env[r]), LowerVal(base, s.env[l])]), w) ==
             Ok(ws.(stack := [res]))
    ensures ExecCode(S(GetValue(l), S(GetValue(r), S(op, S(SetValue(id), rest)))), ret, ws, w, fuel) ==
            ExecCode(rest, ret, SetLocal(ws, id, res), w, fuel)
  {
    hide ExecOp;
    hide ExecCode;
    hide ExecInstr;
    var done := S(SetValue(id), rest);
    var st1 := ws.(stack := [LowerVal(base, s.env[l])]);
    var st2 := ws.(stack := [LowerVal(base, s.env[r]), LowerVal(base, s.env[l])]);
    GetStep(types, base, s, l, S(GetValue(r), S(op, done)), ret, ws, w, fuel);
    GetStep(types, base, s, r, S(op, done), ret, st1, w, fuel);
    assert Pushed(st1, LowerVal(base, s.env[r])) == st2;
    Step(op, done, ret, st2, ws.(stack := [res]), w, fuel);
    SetStep(types, base, s, id, res, rest, ret, ws.(stack := [res]), w, fuel);
  }

  lemma UnaryCode(types: Types, base: int32, w: World, s: State, ws: WState, x: int, op: Op, id: int,
                  res: WVal, rest: Code, ret: Option<WType>, fuel: nat)
    requires EnvRel(types, base, s, ws.locals) && ws.stack == []
    requires x in s.env
    requires id in types && LowerType(types[id]) == WTypeOf(res)
    requires ExecOp(op, ws.(stack := [LowerVal(base, s.env[x])]), w) == Ok(ws.(stack := [res]))
    ensures ExecCode(S(GetValue(x), S(op, S(SetValue(id), rest))), ret, ws, w, fuel) ==
            ExecCode(rest, ret, SetLocal(ws, id, res), w, fuel)
  {
    hide ExecOp;
    hide ExecCode;
    hide ExecInstr;
    var done := S(SetValue(id), rest);
    GetStep(types, base, s, x, S(op, done), ret, ws, w, fuel);
    Step(op, done, ret, ws.(stack := [LowerVal(base, s.env[x])]), ws.(stack := [res]), w, fuel);
    SetStep(types, base, s, id, res, rest, ret, ws.(stack := [res]), w, fuel);
  }

  lemma ConstCode(types: Types, base: int32, w: World, s: State, ws: WState, op: Op, id: int,
                  res: WVal, rest: Code, ret: Option<WType>, fuel: nat)
    requires EnvRel(types, base, s, ws.locals) && ws.stack == []
    requires op == match res case W64(n) => Const64(n) case W32(m) => Const32(m)
    requires id in types && LowerType(types[id]) == WTypeOf(res)
    ensures ExecCode(S(op, S(SetValue(id), rest)), ret, ws, w, fuel) ==
            ExecCode(rest, ret, SetLocal(ws, id, res), w, fuel)
  {
    hide ExecOp;
    hide ExecCode;
    hide ExecInstr;
    PushesConst(res, ws, w);
    Step(op, S(SetValue(id), rest), ret, ws, ws.(stack := [res]), w, fuel);
    SetStep(types, base, s, id, res, rest, ret, ws.(stack := [res]), w, fuel);
  }

  lemma NegCode(types: Types, base: int32, w: World, s: State, ws: WState, x: int, id: int,
                rest: Code, ret: Option<WType>, fuel: nat)
    requires EnvRel(types, base, s, ws.locals) && ws.stack == []
    requires x in s.env && s.env[x].IntVal?
    requires id in types && types[id] == I64
    ensures ExecCode(S(Const64(0), S(GetValue(x), S(Bin64(Sub), S(SetValue(id), rest)))), ret, ws, w, fuel) ==
            ExecCode(rest, ret, SetLocal(ws, id, W64(Wrap64(0 - s.env[x].n))), w, fuel)
  {
    hide ExecOp;
    hide ExecCode;
    hide ExecInstr;
    var done := S(SetValue(id), rest);
    var res := W64(Wrap64(0 - s.env[x].n));
    var st1 := ws.(stack := [W64(0)]);
    var st2 := ws.(stack := [W64(s.env[x].n), W64(0)]);
    PushesConst(W64(0), ws, w);
    Subtracts64(0, s.env[x].n, st2, w);
    Step(Const64(0), S(GetValue(x), S(Bin64(Sub), done)), ret, ws, st1, w, fuel);
    GetStep(types, base, s, x, S(Bin64(Sub), done), ret, st1, w, fuel);
    assert Pushed(st1, W64(s.env[x].n)) == st2;
    Step(Bin64(Sub), done, ret, st2, ws.(stack := [res]), w, fuel);
    SetStep(types, base, s, id, res, rest, ret, ws.(stack := [res]), w, fuel);
  }

  lemma SimBinary(f: Function, types: Types, sites: seq<string>, base: int32, w: World, k: nat, inst: Inst, rest: Code,
                  s: State, ws: WState, v: Val, fuel: nat)
    requires Rel(types, base, w, s, ws)
    requires inst.Bin? || inst.Cmp? || inst.Logic?
    requires inst.id in types && types[inst.id] == inst.Type() && EvalPure(inst, s.env) == Value(v)
    ensures TypeOf(v) == inst.Type() && ValidVal(v, s.next)
    ensures ExecCode(InstCode(f, types, sites, k, inst, rest), ResultType(f), ws, w, fuel) ==
            ExecCode(rest, ResultType(f), SetLocal(ws, inst.id, LowerVal(base, v)), w, fuel)
  {
    hide ExecCode;
    hide ExecInstr;
    var l, r := inst.lhs, inst.rhs;
    var op :=
      if inst.Bin? then Bin64(inst.bop)
      else if inst.Cmp? then CmpOpFor(types, l, inst.cop)
      else Logic32(inst.lop);
    if inst.Logic? {
      LogicOnBits(inst.lop, s.env[l].b, s.env[r].b);
    }
    BinaryCode(types, base, w, s, ws, l, r, op, inst.id, LowerVal(base, v), rest, ResultType(f), fuel);
  }

  lemma SimCast(f: Function, types: Types, sites: seq<string>, base: int32, w: World, k: nat, inst: Inst, rest: Code,
                s: State, ws: WState, v: Val, fuel: nat)
    requires Rel(types, base, w, s, ws)
    requires inst.Cast? && inst.id in types && types[inst.id] == inst.Type()
    requires EvalPure(inst, s.env) == Value(v)
    ensures TypeOf(v) == inst.Type() && ValidVal(v, s.next)
    ensures ExecCode(InstCode(f, types, sites, k, inst, rest), ResultType(f), ws, w, fuel) ==
            ExecCode(rest, ResultType(f), SetLocal(ws, inst.id, LowerVal(base, v)), w, fuel)
  {
    hide ExecCode;
    hide ExecInstr;
    var ret := ResultType(f);
    var res := LowerVal(base, v);
    var Cast(id, ty, x) := inst;
    if s.env[x].BoolVal? && ty == I64 {
      UnaryCode(types, base, w, s, ws, x, ExtendI32, id, res, rest, ret, fuel);
    } else {
      GetStep(types, base, s, x, S(SetValue(id), rest), ret, ws, w, fuel);
      SetStep(types, base, s, id, res, rest, ret, ws.(stack := [res]), w, fuel);
    }
  }

  /** A pure instruction leaves its lowered result in its local. */
  lemma SimPure(f: Function, types: Types, sites: seq<string>, base: int32, w: World, k: nat, inst: Inst, rest: Code,
                s: State, ws: WState, v: Val, fuel: nat)
    requires Rel(types, base, w, s, ws)
    requires Produces(inst) && inst.id in types && types[inst.id] == inst.Type()
    requires EvalPure(inst, s.env) == Value(v)
    ensures TypeOf(v) == inst.Type() && ValidVal(v, s.next)
    ensures ExecCode(InstCode(f, types, sites, k, inst, rest), ResultType(f), ws, w, fuel) ==
            ExecCode(rest, ResultType(f), SetLocal(ws, inst.id, LowerVal(base, v)), w, fuel)
  {
    hide ExecCode;
    hide ExecInstr;
    var ret := ResultType(f);
    match inst
    case ConstInt(id, n) =>
      ConstCode(types, base, w, s, ws, Const64(n), id, LowerVal(base, v), rest, ret, fuel);
    case ConstBool(id, b) =>
      ConstCode(types, base, w, s, ws, Const32(Bit(b)), id, LowerVal(base, v), rest, ret, fuel);
    case Neg(id, x) =>
      NegCode(types, base, w, s, ws, x, id, rest, ret, fuel);
    case Not(id, x) =>
      UnaryCode(types, base, w, s, ws, x, if TypeAt(types, x) == I64 then Eqz64 else Eqz32, id,
                LowerVal(base, v), rest, ret, fuel);
    case Cast(_, _, _) =>
      SimCast(f, types, sites, base, w, k, inst, rest, s, ws, v, fuel);
    case _ =>
      SimBinary(f, types, sites, base, w, k, inst, rest, s, ws, v, fuel);
  }

  /** Division and remainder trap in the emitted code when they trap in the IR. */
  lemma SimTrap(f: Function, types: Types, sites: seq<string>, base: int32, w: World, k: nat, inst: Inst, rest: Code,
                s: State, ws: WState, fuel: nat) returns (ws': WState)
    requires Rel(types, base, w, s, ws)
    requires EvalPure(inst, s.env) == Traps
    ensures ExecCode(InstCode(f, types, sites, k, inst, rest), ResultType(f), ws, w, fuel) == TrapsIn(ws')
    ensures Effects(s, ws')
  {
    var ret := ResultType(f);
    var Bin(id, op, l, r) := inst;
    var done := S(SetValue(id), rest);
    var st1 := ws.(stack := [LowerVal(base, s.env[l])]);
    ws' := Pushed(st1, LowerVal(base, s.env[r]));
    assert ws'.stack == [LowerVal(base, s.env[r]), LowerVal(base, s.env[l])];
    GetStep(types, base, s, l, S(GetValue(r), S(Bin64(op), done)), ret, ws, w, fuel);
    GetStep(types, base, s, r, S(Bin64(op), done), ret, st1, w, fuel);
    assert ExecOp(Bin64(op), ws', w) == OpTraps;
  }

  // ---- memory ----

  /** A cell's address needs no wrap-around, on the stack or in the page. */
  lemma CellAddress(base: int32, w: World, c: nat)
    requires Layout(base, w) && c < w.cells
    ensures Wrap32(base + 8 * c) == base + 8 * c && ToNat32(base + 8 * c) == base + 8 * c <= PAGE - 8
  {
  }

  lemma LoadOp(base: int32, w: World, s: State, st: WState, c: nat, t: WType)
    requires Layout(base, w) && s.next <= w.cells && CellsRel(base, s, st.mem)
    requires c in s.cells && WTypeOf(LowerVal(base, s.cells[c])) == t
    requires st.stack == [W32(Wrap32(base + 8 * c))]
    ensures ExecOp(LoadW(t), st, w) == Ok(st.(stack := [LowerVal(base, s.cells[c])]))
  {
    CellAddress(base, w, c);
  }

  lemma StoreOp(base: int32, w: World, st: WState, c: nat, x: WVal)
    requires Layout(base, w) && c < w.cells
    requires st.stack == [x, W32(Wrap32(base + 8 * c))]
    ensures ExecOp(StoreW(WTypeOf(x)), st, w) == Ok(st.(mem := Write(st.mem, base + 8 * c, x), stack := []))
  {
    CellAddress(base, w, c);
    assert st.stack[2..] == [];
  }

  lemma AllocaRel(types: Types, base: int32, w: World, s: State, ws: WState, id: int)
    requires Rel(types, base, w, s, ws) && id in types && types[id] == Ptr && s.next < w.cells
    ensures Rel(types, base, w, Define(s, id, PtrVal(s.next)).(next := s.next + 1),
                ws.(locals := ws.locals[id := W32(base + 8 * s.next)],
                    globals := ws.globals[Bump := W32(base + 8 * s.next + 8)]))
  {
    CellAddress(base, w, s.next);
  }

  lemma SimAlloca(f: Function, types: Types, sites: seq<string>, base: int32, w: World, k: nat, inst: Inst, rest: Code,
                  s: State, ws: WState, fuel: nat) returns (ws': WState)
    requires Rel(types, base, w, s, ws)
    requires inst.Alloca? && inst.id in types && types[inst.id] == Ptr && s.next < w.cells
    ensures Rel(types, base, w, Define(s, inst.id, PtrVal(s.next)).(next := s.next + 1), ws')
    ensures ExecCode(InstCode(f, types, sites, k, inst, rest), ResultType(f), ws, w, fuel) ==
            ExecCode(rest, ResultType(f), ws', w, fuel)
  {
    hide ExecOp;
    hide ExecCode;
    hide ExecInstr;
    assert inst.id in ws.locals && WTypeOf(ws.locals[inst.id]) == T32;
    hide EnvRel;
    hide CellsRel;
    hide Budgets;
    var ret := ResultType(f);
    AllocaRel(types, base, w, s, ws, inst.id);
    CellAddress(base, w, s.next);
    var p, q := W32(base + 8 * s.next), W32(base + 8 * s.next + 8);
    var c4 := S(GlobalSet(Bump), rest);
    var c3 := S(Add32, c4);
    var c2 := S(Const32(8), c3);
    var st1 := ws.(stack := [p]);
    var st2 := ws.(stack := [p], locals := ws.locals[inst.id := p]);
    ws' := st2.(globals := ws.globals[Bump := q], stack := []);
    PushesGlobal(Bump, ws, w);
    TeesLocal(inst.id, p, st1, w);
    PushesConst(W32(8), st2, w);
    Subtracts32(p.m, 8, st2.(stack := [W32(8), p]), w);
    PopsGlobal(Bump, q, st2.(stack := [q]), w);
    assert ws' == ws.(locals := ws.locals[inst.id := p], globals := ws.globals[Bump := q]);
    Step(GlobalGet(Bump), S(LocalTee(inst.id), c2), ret, ws, st1, w, fuel);
    Step(LocalTee(inst.id), c2, ret, st1, st2, w, fuel);
    Step(Const32(8), c3, ret, st2, st2.(stack := [W32(8), p]), w, fuel);
    Step(Add32, c4, ret, st2.(stack := [W32(8), p]), st2.(stack := [q]), w, fuel);
    Step(GlobalSet(Bump), rest, ret, st2.(stack := [q]), ws', w, fuel);
  }

  lemma SimLoad(f: Function, types: Types, sites: seq<string>, base: int32, w: World, k: nat, inst: Inst, rest: Code,
                s: State, ws: WState, c: nat, fuel: nat)
    requires Rel(types, base, w, s, ws)
    requires inst.Load? && inst.id in types && types[inst.id] == inst.ty
    requires Get(s.env, inst.addr) == Some(PtrVal(c)) && c in s.cells && TypeOf(s.cells[c]) == inst.ty
    ensures ValidVal(s.cells[c], s.next)
    ensures ExecCode(InstCode(f, types, sites, k, inst, rest), ResultType(f), ws, w, fuel) ==
            ExecCode(rest, ResultType(f), SetLocal(ws, inst.id, LowerVal(base, s.cells[c])), w, fuel)
  {
    hide ExecOp;
    hide ExecCode;
    hide ExecInstr;
    LoadOp(base, w, s, ws.(stack := [LowerVal(base, PtrVal(c))]), c, LowerType(inst.ty));
    UnaryCode(types, base, w, s, ws, inst.addr, LoadW(LowerType(inst.ty)), inst.id,
              LowerVal(base, s.cells[c]), rest, ResultType(f), fuel);
  }

  lemma StoreRel(types: Types, base: int32, w: World, s: State, ws: WState, c: nat, v: Val)
    requires Rel(types, base, w, s, ws) && c < s.next && ValidVal(v, s.next)
    ensures Rel(types, base, w, s.(cells := s.cells[c := v]),
                ws.(mem := Write(ws.mem, base + 8 * c, LowerVal(base, v))))
  {
    var mem := Write(ws.mem, base + 8 * c, LowerVal(base, v));
    forall d <- s.cells[c := v]
      ensures d < s.next && ValidVal(s.cells[c := v][d], s.next)
      ensures base + 8 * d in mem && mem[base + 8 * d] == LowerVal(base, s.cells[c := v][d])
    {
      if d != c {
        assert base + 8 * d in ws.mem;
      }
    }
  }

  lemma SimStore(f: Function, types: Types, sites: seq<string>, base: int32, w: World, k: nat, inst: Inst, rest: Code,
                 s: State, ws: WState, v: Val, c: nat, fuel: nat) returns (ws': WState)
    requires Rel(types, base, w, s, ws)
    requires inst.Store? && Get(s.env, inst.val) == Some(v) && Get(s.env, inst.addr) == Some(PtrVal(c))
    ensures Rel(types, base, w, s.(cells := s.cells[c := v]), ws')
    ensures ExecCode(InstCode(f, types, sites, k, inst, rest), ResultType(f), ws, w, fuel) ==
            ExecCode(rest, ResultType(f), ws', w, fuel)
  {
    hide ExecOp;
    hide ExecCode;
    hide ExecInstr;
    var ret := ResultType(f);
    var op := StoreW(LowerType(TypeAt(types, inst.val)));
    var p, x := LowerVal(base, PtrVal(c)), LowerVal(base, v);
    var st1 := ws.(stack := [p]);
    var st2 := ws.(stack := [x, p]);
    ws' := ws.(mem := Write(ws.mem, base + 8 * c, x));
    GetStep(types, base, s, inst.addr, S(GetValue(inst.val), S(op, rest)), ret, ws, w, fuel);
    GetStep(types, base, s, inst.val, S(op, rest), ret, st1, w, fuel);
    assert Pushed(st1, x) == st2;
    StoreOp(base, w, st2, c, x);
    Step(op, rest, ret, st2, ws', w, fuel);
    StoreRel(types, base, w, s, ws, c, v);
  }

  // ---- fences and host calls ----

  function SentinelVal(ret: IrType, error: int32): Option<WVal> {
    match ret
    case Void => None
    case I64 => Some(W64(error))
    case Bool | Ptr => Some(W32(error))
  }

  lemma SimSentinel(f: Function, error: int32, st: WState, w: World, fuel: nat) returns (st': WState)
    ensures ExecCode(SentinelCode(f.ret, error), ResultType(f), st, w, fuel) == Returns(SentinelVal(f.ret, error), st')
    ensures st'.globals == st.globals && st'.log == st.log
  {
    var ret := ResultType(f);
    st' := st;
    if f.ret != Void {
      var v := SentinelVal(f.ret, error).value;
      st' := st.(stack := [v] + st.stack);
      var op := if v.W64? then Const64(error) else Const32(error);
      Step(op, Seq(Return, End), ret, st, st', w, fuel);
      assert SentinelCode(f.ret, error) == S(op, Seq(Return, End));
    }
  }

  /** The conditional of a fence: taken it may leave the function, else it falls through. */
  lemma WhenStep(thn: Code, b: bool, rest: Code, ret: Option<WType>, st: WState, st': WState, w: World, fuel: nat)
    requires st.stack == [W32(Bit(b))] && st' == st.(stack := [])
    ensures !b ==> ExecCode(Seq(When(thn), rest), ret, st, w, fuel) == ExecCode(rest, ret, st', w, fuel)
    ensures b && ExecCode(thn, ret, st', w, fuel).Returns? ==>
            ExecCode(Seq(When(thn), rest), ret, st, w, fuel) == ExecCode(thn, ret, st', w, fuel)
  {
    assert st.(stack := st.stack[1..]) == st';
  }

  /** A fence whose counter suffices subtracts the charge; one whose counter is
      short returns the error and touches nothing. */
  lemma SimFence32(f: Function, g: Global, charge: nat, error: int32, rest: Code, ws: WState, left: int32, w: World, fuel: nat)
    returns (ws': WState)
    requires ws.stack == [] && g in ws.globals && ws.globals[g] == W32(left)
    requires charge < TWO_31 && 0 <= left
    ensures charge == 0 || left >= charge ==>
            ExecCode(Fence32(g, charge, error, f.ret, rest), ResultType(f), ws, w, fuel) ==
            ExecCode(rest, ResultType(f), ws.(globals := ws.globals[g := W32(left - charge)]), w, fuel)
    ensures charge > 0 && left < charge ==>
            ExecCode(Fence32(g, charge, error, f.ret, rest), ResultType(f), ws, w, fuel) ==
            Returns(SentinelVal(f.ret, error), ws')
    ensures ws'.globals == ws.globals && ws'.log == ws.log
  {
    hide ExecOp;
    hide ExecCode;
    hide ExecInstr;
    ws' := ws;
    if charge == 0 {
      assert ws.globals[g := W32(left)] == ws.globals;
      return;
    }
    var ret := ResultType(f);
    var c8 := S(GlobalSet(g), rest);
    var c7 := S(Sub32, c8);
    var c6 := S(Const32(charge), c7);
    var c5 := S(GlobalGet(g), c6);
    var c4 := Seq(When(SentinelCode(f.ret, error)), c5);
    var st1 := ws.(stack := [W32(left)]);
    var st2 := ws.(stack := [W32(charge), W32(left)]);
    var st3 := ws.(stack := [W32(Bit(left < charge))]);
    PushesGlobal(g, ws, w);
    PushesConst(W32(charge), st1, w);
    Subtracts32(left, charge, st2, w);
    Step(GlobalGet(g), S(Const32(charge), S(Cmp32(Lt), c4)), ret, ws, st1, w, fuel);
    Step(Const32(charge), S(Cmp32(Lt), c4), ret, st1, st2, w, fuel);
    Step(Cmp32(Lt), c4, ret, st2, st3, w, fuel);
    WhenStep(SentinelCode(f.ret, error), left < charge, c5, ret, st3, ws, w, fuel);
    if left < charge {
      ws' := SimSentinel(f, error, ws, w, fuel);
    } else {
      PopsGlobal(g, W32(left - charge), ws.(stack := [W32(left - charge)]), w);
      Step(GlobalGet(g), c6, ret, ws, st1, w, fuel);
      Step(Const32(charge), c7, ret, st1, st2, w, fuel);
      Step(Sub32, c8, ret, st2, ws.(stack := [W32(left - charge)]), w, fuel);
      Step(GlobalSet(g), rest, ret, ws.(stack := [W32(left - charge)]),
           ws.(globals := ws.globals[g := W32(left - charge)]), w, fuel);
    }
  }

  lemma SimFence64(f: Function, g: Global, charge: nat, error: int32, rest: Code, ws: WState, left: int64, w: World, fuel: nat)
    returns (ws': WState)
    requires ws.stack == [] && g in ws.globals && ws.globals[g] == W64(left)
    requires charge < TWO_31 && 0 <= left
    ensures charge == 0 || left >= charge ==>
            ExecCode(Fence64(g, charge, error, f.ret, rest), ResultType(f), ws, w, fuel) ==
            ExecCode(rest, ResultType(f), ws.(globals := ws.globals[g := W64(left - charge)]), w, fuel)
    ensures charge > 0 && left < charge ==>
            ExecCode(Fence64(g, charge, error, f.ret, rest), ResultType(f), ws, w, fuel) ==
            Returns(SentinelVal(f.ret, error), ws')
    ensures ws'.globals == ws.globals && ws'.log == ws.log
  {
    hide ExecOp;
    hide ExecCode;
    hide ExecInstr;
    ws' := ws;
    if charge == 0 {
      assert ws.globals[g := W64(left)] == ws.globals;
      return;
    }
    var ret := ResultType(f);
    var c8 := S(GlobalSet(g), rest);
    var c7 := S(Bin64(Sub), c8);
    var c6 := S(Const64(charge), c7);
    var c5 := S(GlobalGet(g), c6);
    var c4 := Seq(When(SentinelCode(f.ret, error)), c5);
    var st1 := ws.(stack := [W64(left)]);
    var st2 := ws.(stack := [W64(charge), W64(left)]);
    var st3 := ws.(stack := [W32(Bit(left < charge))]);
    PushesGlobal(g, ws, w);
    PushesConst(W64(charge), st1, w);
    Subtracts64(left, charge, st2, w);
    Step(GlobalGet(g), S(Const64(charge), S(Cmp64(Lt), c4)), ret, ws, st1, w, fuel);
    Step(Const64(charge), S(Cmp64(Lt), c4), ret, st1, st2, w, fuel);
    Step(Cmp64(Lt), c4, ret, st2, st3, w, fuel);
    WhenStep(SentinelCode(f.ret, error), left < charge, c5, ret, st3, ws, w, fuel);
    if left < charge {
      ws' := SimSentinel(f, error, ws, w, fuel);
    } else {
      PopsGlobal(g, W64(left - charge), ws.(stack := [W64(left - charge)]), w);
      Step(GlobalGet(g), c6, ret, ws, st1, w, fuel);
      Step(Const64(charge), c7, ret, st1, st2, w, fuel);
      Step(Bin64(Sub), c8, ret, st2, ws.(stack := [W64(left - charge)]), w, fuel);
      Step(GlobalSet(g), rest, ret, ws.(stack := [W64(left - charge)]),
           ws.(globals := ws.globals[g := W64(left - charge)]), w, fuel);
    }
  }

  function WithBudget(ws: WState, b: Budget): WState
    requires BudgetOk(b)
  {
    ws.(globals := ws.globals[Entropy := W32(b.entropy)][Tokens := W32(b.tokens)][Cost := W64(b.cost)])
  }

  /** The three fences of a call site together implement PassFences. */
  lemma SimFences(f: Function, name: string, rest: Code, b: Budget, ws: WState, w: World, fuel: nat)
    returns (ws': WState)
    requires ws.stack == [] && Budgets(b, ws.globals)
    ensures BudgetOk(PassFences(name, b).left)
    ensures PassFences(name, b).Passed? ==>
            ExecCode(FencesCode(name, f.ret, rest), ResultType(f), ws, w, fuel) ==
            ExecCode(rest, ResultType(f), WithBudget(ws, PassFences(name, b).left), w, fuel)
    ensures PassFences(name, b).Tripped? ==>
            ExecCode(FencesCode(name, f.ret, rest), ResultType(f), ws, w, fuel) ==
            Returns(SentinelVal(f.ret, PassFences(name, b).error), ws')
    ensures PassFences(name, b).Tripped? ==> Budgets(PassFences(name, b).left, ws'.globals) && ws'.log == ws.log
  {
    hide ExecOp;
    hide ExecCode;
    hide ExecInstr;
    var c3 := Fence64(Cost, MicroUsdCost(name), BUDGET_EXCEEDED, f.ret, rest);
    var c2 := Fence32(Tokens, TokenCost(name), BUDGET_EXCEEDED, f.ret, c3);
    ws' := SimFence32(f, Entropy, EntropyCost(name), ENTROPY_EXCEEDED, c2, ws, b.entropy, w, fuel);
    if b.entropy < EntropyCost(name) {
      return;
    }
    var ws1 := ws.(globals := ws.globals[Entropy := W32(b.entropy - EntropyCost(name))]);
    ws' := SimFence32(f, Tokens, TokenCost(name), BUDGET_EXCEEDED, c3, ws1, b.tokens, w, fuel);
    if b.tokens < TokenCost(name) {
      return;
    }
    var ws2 := ws1.(globals := ws1.globals[Tokens := W32(b.tokens - TokenCost(name))]);
    ws' := SimFence64(f, Cost, MicroUsdCost(name), BUDGET_EXCEEDED, rest, ws2, b.cost, w, fuel);
  }

  function LowerArgs(base: int32, env: Env, args: seq<int>): seq<WVal>
    requires forall i :: 0 <= i < |args| ==> args[i] in env
  {
    if args == [] then [] else LowerArgs(base, env, args[1..]) + [LowerVal(base, env[args[0]])]
  }

  lemma {:induction false} SimArgs(types: Types, base: int32, s: State, args: seq<int>, rest: Code, ret: Option<WType>,
                                   st: WState, w: World, fuel: nat)
    requires EnvRel(types, base, s, st.locals) && forall i :: 0 <= i < |args| ==> args[i] in s.env
    ensures ExecCode(ArgsCode(args, rest), ret, st, w, fuel) ==
            ExecCode(rest, ret, st.(stack := LowerArgs(base, s.env, args) + st.stack), w, fuel)
  {
    if args == [] {
      assert LowerArgs(base, s.env, args) + st.stack == st.stack;
    } else {
      var v := LowerVal(base, s.env[args[0]]);
      GetStep(types, base, s, args[0], ArgsCode(args[1..], rest), ret, st, w, fuel);
      SimArgs(types, base, s, args[1..], rest, ret, Pushed(st, v), w, fuel);
      assert LowerArgs(base, s.env, args[1..]) + ([v] + st.stack) == LowerArgs(base, s.env, args) + st.stack;
    }
  }

  lemma {:induction false} ArgsDefined(env: Env, args: seq<int>)
    requires ScalarArgs(env, args).Some?
    ensures forall i :: 0 <= i < |args| ==> args[i] in env
  {
    if args != [] {
      ArgsDefined(env, args[1..]);
      assert forall i :: 1 <= i < |args| ==> args[i] == args[1..][i - 1];
    }
  }

  /** The host sees the same scalars in the same order. */
  lemma {:induction false} OperandsAreArgs(base: int32, env: Env, args: seq<int>)
    requires ScalarArgs(env, args).Some? && forall i :: 0 <= i < |args| ==> args[i] in env
    ensures |LowerArgs(base, env, args)| == |args|
    ensures Operands(LowerArgs(base, env, args), |args|) == ScalarArgs(env, args).value
  {
    if args != [] {
      OperandsAreArgs(base, env, args[1..]);
      var low, v := LowerArgs(base, env, args[1..]), LowerVal(base, env[args[0]]);
      OperandsSnoc(low, v);
    }
  }

  lemma {:induction false} OperandsSnoc(low: seq<WVal>, v: WVal)
    ensures Operands(low + [v], |low| + 1) == [Scalar(v)] + Operands(low, |low|)
  {
    var all := low + [v];
    if low == [] {
      assert all[1..] == [] && Operands(all[1..], 0) == [];
    } else {
      OperandsSnoc(low[1..], v);
      assert all[1..] == low[1..] + [v];
      assert Operands(all, |low| + 1) == Operands(all[1..], |low|) + [Scalar(low[0])];
    }
  }

  lemma SimCall(f: Function, types: Types, base: int32, w: World, inst: Inst, rest: Code, s: State, ws: WState,
                actuals: seq<int>, fuel: nat)
    requires inst.HostCall? && inst.id in types && types[inst.id] == I64
    requires EnvRel(types, base, s, ws.locals) && ws.stack == []
    requires ScalarArgs(s.env, inst.args) == Some(actuals)
    ensures var call := Call(inst.name, actuals);
            ExecCode(ArgsCode(inst.args, S(CallHost(inst.name, |inst.args|), S(ExtendI32, S(SetValue(inst.id), rest)))),
                     ResultType(f), ws, w, fuel) ==
            ExecCode(rest, ResultType(f),
                     SetLocal(ws.(log := ws.log + [call]), inst.id, W64(Wrap32(w.host(ws.log, call)))), w, fuel)
  {
    hide ExecOp;
    hide ExecCode;
    hide ExecInstr;
    var ret := ResultType(f);
    var call := Call(inst.name, actuals);
    var r := Wrap32(w.host(ws.log, call));
    var done := S(SetValue(inst.id), rest);
    var invoke := S(CallHost(inst.name, |inst.args|), S(ExtendI32, done));
    ArgsDefined(s.env, inst.args);
    SimArgs(types, base, s, inst.args, invoke, ret, ws, w, fuel);
    var low := LowerArgs(base, s.env, inst.args);
    OperandsAreArgs(base, s.env, inst.args);
    assert low + ws.stack == low;
    var st1 := ws.(stack := low);
    var st2 := ws.(stack := [W32(r)], log := ws.log + [call]);
    CallsHost(inst.name, |inst.args|, st1, w);
    Extends(r, st2, w);
    Step(CallHost(inst.name, |inst.args|), S(ExtendI32, done), ret, st1, st2, w, fuel);
    Step(ExtendI32, done, ret, st2, st2.(stack := [W64(r)]), w, fuel);
    SetStep(types, base, s, inst.id, W64(r), rest, ret, st2.(stack := [W64(r)]), w, fuel);
  }

  // ---- phi copies ----

  /** The copies write phi results, so their types are the declared ones. */
  predicate CopiesTyped(types: Types, copies: seq<Copy>) {
    forall c <- copies :: c.dst in types && types[c.dst] == c.ty
  }

  lemma {:induction false} SimCopies(types: Types, base: int32, w: World, copies: seq<Copy>, rest: Code, s: State, ws: WState,
                                     ret: Option<WType>, fuel: nat) returns (ws': WState)
    requires Rel(types, base, w, s, ws) && CopiesTyped(types, copies)
    requires SequentialCopy(copies, s.env).Some?
    ensures Rel(types, base, w, s.(env := SequentialCopy(copies, s.env).value), ws') && ws'.bb == ws.bb
    ensures ExecCode(CopyCode(copies, rest), ret, ws, w, fuel) == ExecCode(rest, ret, ws', w, fuel)
  {
    if copies == [] {
      ws' := ws;
    } else {
      var c, more := copies[0], copies[1..];
      var v := s.env[c.src];
      var low := LowerVal(base, v);
      GetStep(types, base, s, c.src, S(SetValue(c.dst), CopyCode(more, rest)), ret, ws, w, fuel);
      SetStep(types, base, s, c.dst, low, CopyCode(more, rest), ret, ws.(stack := [low]), w, fuel);
      DefineRel(types, base, w, s, ws, c.dst, v);
      ws' := SimCopies(types, base, w, more, rest, Define(s, c.dst, v), SetLocal(ws, c.dst, low), ret, fuel);
    }
  }

  lemma {:induction false} PhiCopiesAre(insts: seq<Inst>, from: int)
    ensures forall c <- PhiCopies(insts, from) ::
      exists i :: 0 <= i < |insts| && insts[i].Phi? && insts[i].id == c.dst && insts[i].ty == c.ty
  {
    if insts != [] {
      PhiCopiesAre(insts[1..], from);
      forall c <- PhiCopies(insts, from)
        ensures exists i :: 0 <= i < |insts| && insts[i].Phi? && insts[i].id == c.dst && insts[i].ty == c.ty
      {
        if c in PhiCopies(insts[1..], from) {
          var i :| 0 <= i < |insts[1..]| && insts[1..][i].Phi? && insts[1..][i].id == c.dst && insts[1..][i].ty == c.ty;
          assert insts[i + 1] == insts[1..][i];
        } else {
          assert insts[0].Phi? && insts[0].id == c.dst;
        }
      }
    }
  }

  lemma EdgeCopiesTyped(f: Function, types: Types, sites: seq<string>, from: int, t: int)
    requires Supported(f, types, sites)
    ensures CopiesTyped(types, EdgeCopies(f, from, t))
  {
    if 0 <= t < |f.blocks| {
      PhiCopiesAre(f.blocks[t].insts, from);
      forall c <- EdgeCopies(f, from, t)
        ensures c.dst in types && types[c.dst] == c.ty
      {
        var i :| 0 <= i < |f.blocks[t].insts| && f.blocks[t].insts[i].Phi? &&
                 f.blocks[t].insts[i].id == c.dst && f.blocks[t].insts[i].ty == c.ty;
        assert InstOk(f, types, sites, t, i);
      }
    }
  }

  /** A jump copies the phi values and leaves the target in $bb. */
  lemma SimEdge(f: Function, types: Types, sites: seq<string>, base: int32, w: World, k: nat, step: Ir.Step, rest: Code,
                s: State, ws: WState, fuel: nat) returns (ws': WState)
    requires Rel(types, base, w, s, ws) && Supported(f, types, sites)
    requires step.Goto? && !step.fell && step.st == s && Follow(f, InOrder, k, step).Some?
    ensures Rel(types, base, w, Follow(f, InOrder, k, step).value, ws') && ws'.bb == step.target
    ensures ExecCode(EdgeCode(f, k, step.target, rest), ResultType(f), ws, w, fuel) == ExecCode(rest, ResultType(f), ws', w, fuel)
  {
    var ret := ResultType(f);
    var t := step.target;
    var copies := EdgeCopies(f, k, t);
    EdgeCopiesTyped(f, types, sites, k, t);
    var ws1 := SimCopies(types, base, w, copies, S(Const32(t), S(SetBb, rest)), s, ws, ret, fuel);
    ws' := ws1.(bb := t);
    assert [W32(t)] + ws1.stack == [W32(t)];
    Step(Const32(t), S(SetBb, rest), ret, ws1, ws1.(stack := [W32(t)]), w, fuel);
    Step(SetBb, rest, ret, ws1.(stack := [W32(t)]), ws', w, fuel);
  }

  // ---- one instruction, one block ----

  function LowerOpt(base: int, v: Option<Val>): Option<WVal> {
    match v
    case None => None
    case Some(x) => Some(LowerVal(base, x))
  }

  /** How the code of a block may end when the interpreter ends with `step`. */
  ghost predicate BodyEnds(f: Function, types: Types, base: int32, w: World, k: nat, step: Ir.Step, flow: Flow) {
    match step
    case Next(_) => true
    case Goto(t, _, _) =>
      Follow(f, InOrder, k, step).Some? ==>
        flow.Branches? && flow.l == Dispatch && flow.st.bb == t &&
        Rel(types, base, w, Follow(f, InOrder, k, step).value, flow.st)
    case Done(Returned(v), s) =>
      || (flow.Returns? && flow.v == LowerOpt(base, v) && Effects(s, flow.st))
      || (flow.Branches? && flow.l == Exit && v == ZeroOf(f.ret) && f.ret != Ptr && Effects(s, flow.st))
    case Done(Exceeded(e), s) => flow.Returns? && flow.v == SentinelVal(f.ret, e) && Effects(s, flow.st)
    case Done(Trapped, s) => flow.TrapsIn? && Effects(s, flow.st)
    case Done(_, _) => true
  }

  /** How the code of an instruction may end: it goes on with the rest, in a
      related state, or ends the block. */
  ghost predicate InstEnds(f: Function, types: Types, base: int32, w: World, k: nat, step: Ir.Step, ws: WState,
                           flow: Flow, rest: Flow)
  {
    if step.Next? then Rel(types, base, w, step.st, ws) && flow == rest else BodyEnds(f, types, base, w, k, step, flow)
  }

  lemma HostCallIs(f: Function, types: Types, sites: seq<string>, k: nat, inst: Inst, rest: Code)
    requires inst.HostCall? && inst.name in sites
    ensures InstCode(f, types, sites, k, inst, rest) ==
            FencesCode(inst.name, f.ret, ArgsCode(inst.args,
              S(CallHost(inst.name, |inst.args|), S(ExtendI32, S(SetValue(inst.id), rest)))))
  {
  }

  lemma NopCode(f: Function, types: Types, sites: seq<string>, k: nat, inst: Inst, rest: Code, ws: WState, w: World, fuel: nat)
    requires inst.Nop? || inst.Phi?
    ensures ExecCode(InstCode(f, types, sites, k, inst, rest), ResultType(f), ws, w, fuel) ==
            ExecCode(rest, ResultType(f), ws, w, fuel)
  {
  }

  function AfterCall(s: State, w: World, inst: Inst, actuals: seq<int>, left: Budget): State
    requires inst.HostCall?
  {
    var call := Call(inst.name, actuals);
    Define(s, inst.id, IntVal(Wrap32(w.host(s.log, call)))).(budget := left, log := s.log + [call])
  }

  lemma AfterCallRel(types: Types, base: int32, w: World, s: State, ws: WState, inst: Inst, actuals: seq<int>, left: Budget)
    requires Rel(types, base, w, s, ws) && BudgetOk(left)
    requires inst.HostCall? && inst.id in types && types[inst.id] == I64
    ensures var call := Call(inst.name, actuals);
            Rel(types, base, w, AfterCall(s, w, inst, actuals, left),
                SetLocal(WithBudget(ws, left).(log := ws.log + [call]), inst.id, W64(Wrap32(w.host(ws.log, call)))))
  {
  }

  lemma SimHostCall(f: Function, types: Types, sites: seq<string>, base: int32, w: World, k: nat, inst: Inst, rest: Code,
                    s: State, ws: WState, fuel: nat) returns (ws': WState)
    requires Rel(types, base, w, s, ws)
    requires inst.HostCall? && inst.name in sites && inst.id in types && types[inst.id] == I64
    ensures InstEnds(f, types, base, w, k, Exec(f, w, inst, s), ws',
                     ExecCode(InstCode(f, types, sites, k, inst, rest), ResultType(f), ws, w, fuel),
                     ExecCode(rest, ResultType(f), ws', w, fuel))
  {
    hide ExecOp;
    hide ExecCode;
    hide ExecInstr;
    hide InstCode;
    hide FencesCode;
    hide ArgsCode;
    hide PassFences;
    HostCallIs(f, types, sites, k, inst, rest);
    ws' := ws;
    if ScalarArgs(s.env, inst.args).Some? {
      var actuals := ScalarArgs(s.env, inst.args).value;
      var invoke := S(CallHost(inst.name, |inst.args|), S(ExtendI32, S(SetValue(inst.id), rest)));
      var tripped := SimFences(f, inst.name, ArgsCode(inst.args, invoke), s.budget, ws, w, fuel);
      var fence := PassFences(inst.name, s.budget);
      if fence.Passed? {
        assert Exec(f, w, inst, s) == Next(AfterCall(s, w, inst, actuals, fence.left));
        hide Exec;
        var ws1 := WithBudget(ws, fence.left);
        SimCall(f, types, base, w, inst, rest, s, ws1, actuals, fuel);
        var call := Call(inst.name, actuals);
        ws' := SetLocal(ws1.(log := ws1.log + [call]), inst.id, W64(Wrap32(w.host(ws.log, call))));
        AfterCallRel(types, base, w, s, ws, inst, actuals, fence.left);
      }
    }
  }

  lemma SimReturn(f: Function, types: Types, sites: seq<string>, base: int32, w: World, k: nat, inst: Inst, rest: Code,
                  s: State, ws: WState, fuel: nat)
    requires Rel(types, base, w, s, ws) && inst.Ret?
    ensures BodyEnds(f, types, base, w, k, Exec(f, w, inst, s),
                     ExecCode(InstCode(f, types, sites, k, inst, rest), ResultType(f), ws, w, fuel))
  {
    var x := inst.result;
    if x >= 0 && x in s.env && TypeOf(s.env[x]) == f.ret {
      GetStep(types, base, s, x, Seq(Return, rest), ResultType(f), ws, w, fuel);
    }
  }

  /** A conditional runs one of its arms and goes on. */
  lemma IfStep(thn: Code, els: Code, b: bool, rest: Code, ret: Option<WType>, st: WState, st': WState, out: WState,
               w: World, fuel: nat)
    requires st.stack == [W32(Bit(b))] && st' == st.(stack := [])
    requires ExecCode(if b then thn else els, ret, st', w, fuel) == Falls(out)
    ensures ExecCode(Seq(If(thn, els), rest), ret, st, w, fuel) == ExecCode(rest, ret, out, w, fuel)
  {
    assert st.(stack := st.stack[1..]) == st';
  }

  lemma JumpStep(rest: Code, ret: Option<WType>, st: WState, w: World, fuel: nat)
    ensures ExecCode(Seq(BrTo(Dispatch), rest), ret, st, w, fuel) == Branches(Dispatch, st)
    ensures ExecCode(End, ret, st, w, fuel) == Falls(st)
  {
  }

  lemma SimBranch(f: Function, types: Types, sites: seq<string>, base: int32, w: World, k: nat, inst: Inst, rest: Code,
                  s: State, ws: WState, fuel: nat)
    requires Rel(types, base, w, s, ws) && Supported(f, types, sites)
    requires inst.Br? || inst.Jmp?
    ensures BodyEnds(f, types, base, w, k, Exec(f, w, inst, s),
                     ExecCode(InstCode(f, types, sites, k, inst, rest), ResultType(f), ws, w, fuel))
  {
    hide ExecOp;
    hide ExecCode;
    hide ExecInstr;
    hide EdgeCode;
    hide Follow;
    var ret := ResultType(f);
    var step := Exec(f, w, inst, s);
    var jump := Seq(BrTo(Dispatch), rest);
    if step.Goto? && Follow(f, InOrder, k, step).Some? {
      if inst.Jmp? {
        var ws' := SimEdge(f, types, sites, base, w, k, step, jump, s, ws, fuel);
        JumpStep(rest, ret, ws', w, fuel);
      } else {
        var b := s.env[inst.cond].b;
        var thn, els := EdgeCode(f, k, inst.onTrue, End), EdgeCode(f, k, inst.onFalse, End);
        GetStep(types, base, s, inst.cond, Seq(If(thn, els), jump), ret, ws, w, fuel);
        var ws' := SimEdge(f, types, sites, base, w, k, step, End, s, ws, fuel);
        JumpStep(rest, ret, ws', w, fuel);
        IfStep(thn, els, b, jump, ret, ws.(stack := [W32(Bit(b))]), ws, ws', w, fuel);
      }
    }
  }

  lemma SimMemory(f: Function, types: Types, sites: seq<string>, base: int32, w: World, k: nat, inst: Inst, rest: Code,
                  s: State, ws: WState, fuel: nat) returns (ws': WState)
    requires Rel(types, base, w, s, ws)
    requires inst.Alloca? || inst.Load? || inst.Store?
    requires inst.Store? || (inst.id in types && types[inst.id] == inst.Type())
    ensures InstEnds(f, types, base, w, k, Exec(f, w, inst, s), ws',
                     ExecCode(InstCode(f, types, sites, k, inst, rest), ResultType(f), ws, w, fuel),
                     ExecCode(rest, ResultType(f), ws', w, fuel))
  {
    hide ExecOp;
    hide ExecCode;
    hide ExecInstr;
    hide InstCode;
    ws' := ws;
    var step := Exec(f, w, inst, s);
    if step.Next? {
      match inst
      case Alloca(_) =>
        ws' := SimAlloca(f, types, sites, base, w, k, inst, rest, s, ws, fuel);
      case Load(id, ty, addr) =>
        var c := s.env[addr].cell;
        SimLoad(f, types, sites, base, w, k, inst, rest, s, ws, c, fuel);
        DefineRel(types, base, w, s, ws, id, s.cells[c]);
        ws' := SetLocal(ws, id, LowerVal(base, s.cells[c]));
      case Store(val, addr) =>
        ws' := SimStore(f, types, sites, base, w, k, inst, rest, s, ws, s.env[val], s.env[addr].cell, fuel);
    }
  }

  predicate Computes(inst: Inst) {
    inst.ConstInt? || inst.ConstBool? || inst.Bin? || inst.Neg? || inst.Not? || inst.Cmp? || inst.Logic? || inst.Cast?
  }

  lemma SimComputes(f: Function, types: Types, sites: seq<string>, base: int32, w: World, k: nat, inst: Inst, rest: Code,
                    s: State, ws: WState, fuel: nat) returns (ws': WState)
    requires Rel(types, base, w, s, ws)
    requires Computes(inst) && inst.id in types && types[inst.id] == inst.Type()
    ensures InstEnds(f, types, base, w, k, Exec(f, w, inst, s), ws',
                     ExecCode(InstCode(f, types, sites, k, inst, rest), ResultType(f), ws, w, fuel),
                     ExecCode(rest, ResultType(f), ws', w, fuel))
  {
    hide ExecOp;
    hide ExecCode;
    hide ExecInstr;
    hide InstCode;
    hide EvalPure;
    ws' := ws;
    match EvalPure(inst, s.env)
    case Value(v) =>
      SimPure(f, types, sites, base, w, k, inst, rest, s, ws, v, fuel);
      DefineRel(types, base, w, s, ws, inst.id, v);
      ws' := SetLocal(ws, inst.id, LowerVal(base, v));
    case Traps =>
      var trap := SimTrap(f, types, sites, base, w, k, inst, rest, s, ws, fuel);
    case Undefined =>
  }

  /** One instruction of the interpreter is its code. */
  lemma SimInst(f: Function, types: Types, sites: seq<string>, base: int32, w: World, k: nat, inst: Inst, rest: Code,
                s: State, ws: WState, fuel: nat) returns (ws': WState)
    requires Rel(types, base, w, s, ws) && Supported(f, types, sites)
    requires Produces(inst) ==> inst.id in types && types[inst.id] == inst.Type()
    requires inst.HostCall? ==> inst.name in sites
    ensures InstEnds(f, types, base, w, k, Exec(f, w, inst, s), ws',
                     ExecCode(InstCode(f, types, sites, k, inst, rest), ResultType(f), ws, w, fuel),
                     ExecCode(rest, ResultType(f), ws', w, fuel))
  {
    hide ExecOp;
    hide ExecCode;
    hide ExecInstr;
    hide InstCode;
    hide BodyEnds;
    hide Supported;
    hide Rel;
    ws' := ws;
    match inst
    case Phi(_, _, _) =>
      NopCode(f, types, sites, k, inst, rest, ws, w, fuel);
    case Nop =>
      NopCode(f, types, sites, k, inst, rest, ws, w, fuel);
    case Alloca(_) =>
      ws' := SimMemory(f, types, sites, base, w, k, inst, rest, s, ws, fuel);
    case Load(_, _, _) =>
      ws' := SimMemory(f, types, sites, base, w, k, inst, rest, s, ws, fuel);
    case Store(_, _) =>
      ws' := SimMemory(f, types, sites, base, w, k, inst, rest, s, ws, fuel);
    case HostCall(_, _, _) =>
      ws' := SimHostCall(f, types, sites, base, w, k, inst, rest, s, ws, fuel);
    case Ret(_) =>
      SimReturn(f, types, sites, base, w, k, inst, rest, s, ws, fuel);
    case Br(_, _, _) =>
      SimBranch(f, types, sites, base, w, k, inst, rest, s, ws, fuel);
    case Jmp(_) =>
      SimBranch(f, types, sites, base, w, k, inst, rest, s, ws, fuel);
    case _ =>
      ws' := SimComputes(f, types, sites, base, w, k, inst, rest, s, ws, fuel);
  }

  /** A block that falls through. */
  lemma SimTail(f: Function, types: Types, sites: seq<string>, base: int32, w: World, k: nat, s: State, ws: WState, fuel: nat)
    requires Supported(f, types, sites) && k < |f.blocks| && Rel(types, base, w, s, ws)
    requires !LastTerminates(f.blocks[k])
    ensures BodyEnds(f, types, base, w, k, ExecBlock(f, w, k, |f.blocks[k].insts|, s),
                     ExecCode(TailCode(f, k), ResultType(f), ws, w, fuel))
  {
    if k + 1 < |f.blocks| {
      var jump := Seq(BrTo(Dispatch), End);
      var ret := ResultType(f);
      assert [W32(k + 1)] + ws.stack == [W32(k + 1)];
      Step(Const32(k + 1), S(SetBb, jump), ret, ws, ws.(stack := [W32(k + 1)]), w, fuel);
      Step(SetBb, jump, ret, ws.(stack := [W32(k + 1)]), ws.(bb := k + 1), w, fuel);
    }
  }

  /** The body of block k runs as the interpreter runs the block. */
  lemma {:induction false} SimBlock(f: Function, types: Types, sites: seq<string>, base: int32, w: World, k: nat, i: nat,
                                    s: State, ws: WState, fuel: nat)
    requires Supported(f, types, sites) && k < |f.blocks| && i <= |f.blocks[k].insts|
    requires Rel(types, base, w, s, ws)
    requires i == |f.blocks[k].insts| ==> !LastTerminates(f.blocks[k])
    ensures BodyEnds(f, types, base, w, k, ExecBlock(f, w, k, i, s),
                     ExecCode(BodyFrom(f, types, sites, k, i), ResultType(f), ws, w, fuel))
    decreases |f.blocks[k].insts| - i
  {
    if i == |f.blocks[k].insts| {
      SimTail(f, types, sites, base, w, k, s, ws, fuel);
    } else {
      var inst := f.blocks[k].insts[i];
      assert InstOk(f, types, sites, k, i);
      var ws' := SimInst(f, types, sites, base, w, k, inst, BodyFrom(f, types, sites, k, i + 1), s, ws, fuel);
      var step := Exec(f, w, inst, s);
      if step.Next? {
        assert !inst.Terminates();
        SimBlock(f, types, sites, base, w, k, i + 1, step.st, ws', fuel);
      }
    }
  }

  // ---- the dispatcher ----

  /** With $bb = t the nest of blocks runs the body of block t: the table
      leaves the t+1 inner blocks, and no body ends inside an outer one. */
  lemma {:induction false} SimLevel(f: Function, types: Types, sites: seq<string>, w: World, i: nat, t: nat, ws: WState, fuel: nat)
    requires i <= |f.blocks| < TWO_31 && t < |f.blocks|
    requires ws.bb == t && ws.stack == []
    requires var flow := ExecCode(BodyFrom(f, types, sites, t, 0), ResultType(f), ws, w, fuel);
             !flow.Falls? && (flow.Branches? ==> flow.l == Dispatch || flow.l == Exit)
    ensures ExecCode(Level(f, types, sites, i), ResultType(f), ws, w, fuel) ==
            if i <= t then Branches(BbLabel(t), ws)
            else ExecCode(BodyFrom(f, types, sites, t, 0), ResultType(f), ws, w, fuel)
  {
    var ret := ResultType(f);
    if i == 0 {
      var st1 := ws.(stack := [W32(t)]);
      assert [W32(t)] + ws.stack == [W32(t)];
      Step(GetBb, Seq(BrTable(|f.blocks|), End), ret, ws, st1, w, fuel);
      assert st1.(stack := st1.stack[1..]) == ws;
    } else {
      SimLevel(f, types, sites, w, i - 1, t, ws, fuel);
      var inner := Level(f, types, sites, i - 1);
      assert ws.(stack := ws.stack) == ws;
    }
  }

  /** The value the function returns and the calls and budgets behind it. */
  ghost predicate Matches(f: Function, base: int32, r: Result, flow: Flow) {
    match r.o
    case Returned(v) => flow.Returns? && flow.v == LowerOpt(base, v) && Effects(r.st, flow.st)
    case Exceeded(e) => flow.Returns? && flow.v == SentinelVal(f.ret, e) && Effects(r.st, flow.st)
    case Trapped => flow.TrapsIn? && Effects(r.st, flow.st)
    case OutOfFuel => flow.Exhausted? && Effects(r.st, flow.st)
    case Stuck => true
  }

  predicate IsStuck(f: Function, t: nat, step: Ir.Step) {
    || step.Next?
    || (step.Done? && (step.o == Stuck || step.o == OutOfFuel))
    || (step.Goto? && Follow(f, InOrder, t, step).None?)
  }

  /** One turn of the loop runs the block $bb names; then the loop repeats or
      the function is left. */
  lemma SimTurn(f: Function, types: Types, sites: seq<string>, base: int32, w: World, t: nat,
                s: State, ws: WState, fuel: nat) returns (flow: Flow)
    requires Supported(f, types, sites) && t < |f.blocks| && fuel > 0
    requires Rel(types, base, w, s, ws) && ws.bb == t
    requires !IsStuck(f, t, ExecBlock(f, w, t, 0, s))
    ensures BodyEnds(f, types, base, w, t, ExecBlock(f, w, t, 0, s), flow)
    ensures !flow.Falls? && (flow.Branches? ==> flow.l == Dispatch || flow.l == Exit)
    ensures flow.Branches? && flow.l == Dispatch ==>
            RunLoop(f, types, sites, ws, w, fuel) == RunLoop(f, types, sites, flow.st.(stack := []), w, fuel - 1)
    ensures !(flow.Branches? && flow.l == Dispatch) ==> RunLoop(f, types, sites, ws, w, fuel) == flow
  {
    SimBlock(f, types, sites, base, w, t, 0, s, ws, fuel - 1);
    flow := ExecCode(BodyFrom(f, types, sites, t, 0), ResultType(f), ws, w, fuel - 1);
    SimLevel(f, types, sites, w, |f.blocks|, t, ws, fuel - 1);
    LoopUnfolds(f, types, sites, ws, w, fuel);
  }

  function RunLoop(f: Function, types: Types, sites: seq<string>, ws: WState, w: World, fuel: nat): Flow
    requires |f.blocks| < TWO_31
  {
    ExecInstr(DispatchLoop(f, types, sites), ResultType(f), ws, w, fuel)
  }

  lemma LoopUnfolds(f: Function, types: Types, sites: seq<string>, ws: WState, w: World, fuel: nat)
    requires |f.blocks| < TWO_31 && fuel > 0
    ensures var ret := ResultType(f);
            var loop := DispatchLoop(f, types, sites);
            ExecInstr(loop, ret, ws, w, fuel) ==
            match ExecCode(Level(f, types, sites, |f.blocks|), ret, ws, w, fuel - 1)
            case Branches(l, st') =>
              if l == Dispatch then ExecInstr(loop, ret, st'.(stack := ws.stack), w, fuel - 1) else Branches(l, st')
            case other => other
  {
  }

  lemma RunUnfolds(f: Function, w: World, t: nat, s: State, fuel: nat)
    requires t < |f.blocks| < TWO_31 && fuel > 0
    ensures var step := ExecBlock(f, w, t, 0, s);
            !step.Next? && (step.Done? ==> step.o != OutOfFuel) &&
            (IsStuck(f, t, step) ==> forall base, flow :: LoopMatches(f, base, Run(f, w, InOrder, t, s, fuel), flow)) &&
            (step.Done? ==> Run(f, w, InOrder, t, s, fuel) == Result(step.o, step.st)) &&
            (step.Goto? && !IsStuck(f, t, step) ==>
               Run(f, w, InOrder, t, s, fuel) == Run(f, w, InOrder, step.target, Follow(f, InOrder, t, step).value, fuel - 1))
  {
    BlockEnds(f, w, t, 0, s);
  }

  /** As Matches, or on the way out by $exit to the default return. */
  ghost predicate LoopMatches(f: Function, base: int32, r: Result, flow: Flow) {
    || r.o == Stuck
    || (Matches(f, base, r, flow) && !flow.Falls? && !flow.Branches?)
    || (r.o == Returned(ZeroOf(f.ret)) && f.ret != Ptr && flow.Branches? && flow.l == Exit && Effects(r.st, flow.st))
  }

  /** The loop agrees with the interpreter for every number of blocks run; it
      leaves by $exit only for the default return. */
  lemma {:induction false} SimRun(f: Function, types: Types, sites: seq<string>, base: int32, w: World, t: nat,
                                  s: State, ws: WState, fuel: nat)
    requires Supported(f, types, sites) && t < |f.blocks|
    requires Rel(types, base, w, s, ws) && ws.bb == t
    ensures LoopMatches(f, base, Run(f, w, InOrder, t, s, fuel), RunLoop(f, types, sites, ws, w, fuel))
    decreases fuel
  {
    hide Run;
    hide RunLoop;
    hide ExecBlock;
    hide BodyEnds;
    hide Rel;
    hide LoopMatches;
    hide Follow;
    if fuel == 0 {
      NoFuel(f, types, sites, base, w, t, s, ws);
    } else {
      var step := ExecBlock(f, w, t, 0, s);
      RunUnfolds(f, w, t, s, fuel);
      if !IsStuck(f, t, step) {
        var flow := SimTurn(f, types, sites, base, w, t, s, ws, fuel);
        if step.Goto? {
          var s' := Follow(f, InOrder, t, step).value;
          GotoEnds(f, types, base, w, t, step, flow);
          SimRun(f, types, sites, base, w, step.target, s', flow.st, fuel - 1);
        } else {
          DoneEnds(f, types, base, w, t, step, flow);
        }
      }
    }
  }

  lemma NoFuel(f: Function, types: Types, sites: seq<string>, base: int32, w: World, t: nat, s: State, ws: WState)
    requires t < |f.blocks| < TWO_31 && Rel(types, base, w, s, ws)
    ensures LoopMatches(f, base, Run(f, w, InOrder, t, s, 0), RunLoop(f, types, sites, ws, w, 0))
  {
  }

  lemma GotoEnds(f: Function, types: Types, base: int32, w: World, t: nat, step: Ir.Step, flow: Flow)
    requires step.Goto? && !IsStuck(f, t, step) && BodyEnds(f, types, base, w, t, step, flow)
    ensures 0 <= step.target < |f.blocks|
    ensures flow.Branches? && flow.l == Dispatch && flow.st.bb == step.target
    ensures Rel(types, base, w, Follow(f, InOrder, t, step).value, flow.st)
    ensures flow.st.(stack := []) == flow.st
  {
  }

  lemma DoneEnds(f: Function, types: Types, base: int32, w: World, t: nat, step: Ir.Step, flow: Flow)
    requires step.Done? && !IsStuck(f, t, step) && BodyEnds(f, types, base, w, t, step, flow)
    ensures LoopMatches(f, base, Result(step.o, step.st), flow)
    ensures flow.Branches? ==> flow.l != Dispatch
  {
  }

  lemma {:induction false} BlockEnds(f: Function, w: World, k: nat, i: nat, s: State)
    requires k < |f.blocks| < TWO_31 && i <= |f.blocks[k].insts|
    ensures !ExecBlock(f, w, k, i, s).Next?
    ensures ExecBlock(f, w, k, i, s).Done? ==> ExecBlock(f, w, k, i, s).o != OutOfFuel
    decreases |f.blocks[k].insts| - i
  {
    if i < |f.blocks[k].insts| {
      var step := Exec(f, w, f.blocks[k].insts[i], s);
      if step.Next? {
        BlockEnds(f, w, k, i + 1, step.st);
      }
    }
  }

  // ---- the whole function ----

  lemma {:induction false} ParamsBound(params: seq<Param>, args: seq<Val>)
    requires ArgsMatch(params, args)
    ensures forall id <- BindParams(params, args) ::
      exists i :: 0 <= i < |params| && params[i].id == id && BindParams(params, args)[id] == args[i]
  {
    if params != [] {
      var n := |params| - 1;
      ParamsBound(params[..n], args[..n]);
      var env := BindParams(params, args);
      forall id <- env
        ensures exists i :: 0 <= i < |params| && params[i].id == id && env[id] == args[i]
      {
        if id == params[n].id {
          assert env[id] == args[n];
        } else {
          var m := BindParams(params[..n], args[..n]);
          assert id in m;
          var i :| 0 <= i < n && params[..n][i].id == id && m[id] == args[..n][i];
          assert params[i].id == id && env[id] == args[i];
        }
      }
    }
  }

  lemma InitialRel(f: Function, types: Types, sites: seq<string>, base: int32, w: World, args: seq<Val>, b: Budget)
    requires Supported(f, types, sites) && Layout(base, w) && BudgetOk(b)
    requires ArgsMatch(f.params, args) && forall v <- args :: !v.PtrVal?
    ensures Rel(types, base, w, Initial(f, args, b), InitialState(types, Initial(f, args, b).env, base, b))
  {
    ParamsBound(f.params, args);
    var s := Initial(f, args, b);
    forall id <- s.env
      ensures id in types && TypeOf(s.env[id]) == types[id] && ValidVal(s.env[id], 0)
    {
      var i :| 0 <= i < |f.params| && f.params[i].id == id && s.env[id] == args[i];
      assert f.params[i] in f.params && args[i] in args;
    }
  }

  /** MAIN RESULT. The text emitted for a function, parsed and run on any
      scalar arguments, budgets and world, for any number of blocks, returns
      what the control-flow graph returns: the same value, the same fence
      error, a trap when it traps, and still running when it is still running;
      the host calls made and the budgets left are the same as well. Runs in
      which the graph itself is undefined are not constrained. */
  lemma EmittedFunctionCorrect(f: Function, types: Types, sites: seq<string>, base: int32, w: World,
                               args: seq<Val>, b: Budget, fuel: nat)
    requires Supported(f, types, sites) && Layout(base, w) && BudgetOk(b)
    requires ArgsMatch(f.params, args) && forall v <- args :: !v.PtrVal?
    ensures Matches(f, base, CallFunction(f, w, InOrder, args, b, fuel),
                    RunText(Flatten(FunctionCode(f, types, sites)), ResultType(f),
                            InitialState(types, Initial(f, args, b).env, base, b), w, fuel))
  {
    var ret := ResultType(f);
    var s := Initial(f, args, b);
    var ws := InitialState(types, s.env, base, b);
    InitialRel(f, types, sites, base, w, args, b);
    var code := FunctionCode(f, types, sites);
    ParseFlatten(code, []);
    assert Flatten(code) + [] == Flatten(code);
    var loop := DispatchLoop(f, types, sites);
    var tail := DefaultCode(f.ret);
    var exit := Seq(Blk(Exit, Seq(loop, End)), tail);
    assert [W32(0)] + ws.stack == [W32(0)];
    assert ws.(bb := 0) == ws;
    Step(Const32(0), S(SetBb, exit), ret, ws, ws.(stack := [W32(0)]), w, fuel);
    Step(SetBb, exit, ret, ws.(stack := [W32(0)]), ws, w, fuel);
    SimRun(f, types, sites, base, w, 0, s, ws, fuel);
    var flow := ExecInstr(loop, ret, ws, w, fuel);
    if CallFunction(f, w, InOrder, args, b, fuel).o != Stuck {
      assert ExecCode(Seq(loop, End), ret, ws, w, fuel) == flow;
      if flow.Branches? && flow.l == Exit {
        SimDefault(f, exit, loop, ws, w, flow.st, fuel);
      } else {
        assert ExecCode(exit, ret, ws, w, fuel) == flow;
      }
    }
  }

  /** Leaving the loop by $exit returns the zero of the result type. */
  lemma SimDefault(f: Function, exit: Code, loop: Instr, ws: WState, w: World, st: WState, fuel: nat)
    requires exit == Seq(Blk(Exit, Seq(loop, End)), DefaultCode(f.ret)) && ws.stack == [] && f.ret != Ptr
    requires ExecInstr(loop, ResultType(f), ws, w, fuel) == Branches(Exit, st)
    ensures var flow := ExecCode(exit, ResultType(f), ws, w, fuel);
            flow.Falls? && flow.st.log == st.log && flow.st.globals == st.globals &&
            (f.ret != Void ==> flow.st.stack == [if f.ret == I64 then W64(0) else W32(0)])
  {
    var ret := ResultType(f);
    var tail := DefaultCode(f.ret);
    var out := st.(stack := []);
    assert ExecCode(Seq(loop, End), ret, ws, w, fuel) == Branches(Exit, st);
    assert ExecInstr(Blk(Exit, Seq(loop, End)), ret, ws, w, fuel) == Falls(out);
    assert ExecCode(exit, ret, ws, w, fuel) == ExecCode(tail, ret, out, w, fuel);
    if f.ret != Void {
      var zero := if f.ret == I64 then W64(0) else W32(0);
      assert [zero] + out.stack == [zero];
      Step(if f.ret == I64 then Const64(0) else Const32(0), End, ret, out, out.(stack := [zero]), w, fuel);
    }
  }
}
