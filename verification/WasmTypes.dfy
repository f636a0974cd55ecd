/** The pre-pass that gives every SSA value the type of its local. */
module WasmTypes {
  import opened Ir
  import opened Wasm
  import opened WasmEmit
  import opened Wrappers
  import opened WasmSites
  import opened WasmCorrect

  function AllInsts(blocks: seq<Block>): seq<Inst> {
    if blocks == [] then [] else AllInsts(blocks[..|blocks| - 1]) + blocks[|blocks| - 1].insts
  }

  /** Every value is defined once: by one parameter or one instruction. */
  predicate Ssa(f: Function) {
    var insts := AllInsts(f.blocks);
    && (forall i :: 0 <= i < |insts| && Produces(insts[i]) ==> 0 <= insts[i].id < MAX_LOCALS)
    && (forall i, j :: 0 <= i < j < |insts| && Produces(insts[i]) && Produces(insts[j]) ==> insts[i].id != insts[j].id)
    && (forall p <- f.params :: 0 <= p.id < MAX_LOCALS)
    && (forall i, j :: 0 <= i < j < |f.params| ==> f.params[i].id != f.params[j].id)
    && (forall p <- f.params, i | 0 <= i < |insts| && Produces(insts[i]) :: p.id != insts[i].id)
  }

  /** Per-function emission state. */
  class FnCtx {
    var valueType: Types
    var bbCount: int

    constructor ()
      ensures valueType == map[] && bbCount == 0
    {
      valueType, bbCount := map[], 0;
    }

    method ScanParams(f: Function)
      modifies this`valueType
      ensures valueType == DeclareParams(f.params)
    {
      valueType := map[];
      var i := 0;
      while i < |f.params|
        invariant 0 <= i <= |f.params|
        invariant valueType == DeclareParams(f.params[..i])
      {
        assert f.params[..i + 1][..i] == f.params[..i];
        if 0 <= f.params[i].id < MAX_LOCALS {
          valueType := valueType[f.params[i].id := f.params[i].ty];
        }
        i := i + 1;
      }
      assert f.params[..i] == f.params;
    }

    method ScanInsts(insts: seq<Inst>)
      modifies this`valueType
      ensures valueType == DeclareInsts(old(valueType), insts)
    {
      var i := 0;
      while i < |insts|
        invariant 0 <= i <= |insts|
        invariant valueType == DeclareInsts(old(valueType), insts[..i])
      {
        assert insts[..i + 1][..i] == insts[..i];
        var id := insts[i].Result();
        if 0 <= id < MAX_LOCALS {
          valueType := valueType[id := insts[i].Type()];
        }
        i := i + 1;
      }
      assert insts[..i] == insts;
    }

    /** Parameters first, then every instruction of every block. */
    method ScanFunctionValues(f: Function)
      requires BlocksNumbered(f)
      modifies this
      ensures valueType == ValueTypes(f) && bbCount == |f.blocks|
    {
      ScanParams(f);
      bbCount := 0;
      var k := 0;
      while k < |f.blocks|
        invariant 0 <= k <= |f.blocks|
        invariant valueType == DeclareBlocks(DeclareParams(f.params), f.blocks[..k])
        invariant bbCount == k
      {
        assert f.blocks[..k + 1][..k] == f.blocks[..k];
        if f.blocks[k].id + 1 > bbCount {
          bbCount := f.blocks[k].id + 1;
        }
        ScanInsts(f.blocks[k].insts);
        k := k + 1;
      }
      assert f.blocks[..k] == f.blocks;
    }
  }

  lemma {:induction false} DeclareConcat(m: Types, a: seq<Inst>, b: seq<Inst>)
    ensures DeclareInsts(m, a + b) == DeclareInsts(DeclareInsts(m, a), b)
  {
    if b == [] {
      assert a + b == a;
    } else {
      var n := |a + b| - 1;
      assert (a + b)[..n] == a + b[..|b| - 1];
      DeclareConcat(m, a, b[..|b| - 1]);
    }
  }

  lemma {:induction false} DeclareBlocksFlat(m: Types, blocks: seq<Block>)
    ensures DeclareBlocks(m, blocks) == DeclareInsts(m, AllInsts(blocks))
  {
    if blocks != [] {
      var init := blocks[..|blocks| - 1];
      DeclareBlocksFlat(m, init);
      DeclareConcat(m, AllInsts(init), blocks[|blocks| - 1].insts);
    }
  }

  /** Values keep the type of their only definition. */
  lemma {:induction false} DeclareKeeps(m: Types, insts: seq<Inst>)
    requires forall i :: 0 <= i < |insts| && Produces(insts[i]) ==> 0 <= insts[i].id < MAX_LOCALS
    requires forall i, j :: 0 <= i < j < |insts| && Produces(insts[i]) && Produces(insts[j]) ==> insts[i].id != insts[j].id
    ensures var r := DeclareInsts(m, insts);
            && (forall id <- r :: id in m || 0 <= id)
            && (forall id <- m :: id in r &&
                  ((forall i :: 0 <= i < |insts| && Produces(insts[i]) ==> insts[i].id != id) ==> r[id] == m[id]))
            && (forall i :: 0 <= i < |insts| && Produces(insts[i]) ==>
                  insts[i].id in r && r[insts[i].id] == insts[i].Type())
  {
    if insts != [] {
      var n := |insts| - 1;
      var init, last := insts[..n], insts[n];
      DeclareKeeps(m, init);
      var before := DeclareInsts(m, init);
      var r := DeclareInsts(m, insts);
      assert r == Declare(before, last);
      forall i | 0 <= i < |insts| && Produces(insts[i])
        ensures insts[i].id in r && r[insts[i].id] == insts[i].Type()
      {
        if i < n {
          assert init[i] == insts[i];
        }
      }
      forall id <- m
        ensures id in r
        ensures (forall i :: 0 <= i < |insts| && Produces(insts[i]) ==> insts[i].id != id) ==> r[id] == m[id]
      {
        if forall i :: 0 <= i < |insts| && Produces(insts[i]) ==> insts[i].id != id {
          assert forall i :: 0 <= i < |init| && Produces(init[i]) ==> init[i] == insts[i];
          assert before[id] == m[id];
          assert Produces(last) ==> insts[n].id != id;
        }
      }
    }
  }

  lemma {:induction false} DeclareParamsIs(params: seq<Param>)
    requires forall p <- params :: 0 <= p.id < MAX_LOCALS
    requires forall i, j :: 0 <= i < j < |params| ==> params[i].id != params[j].id
    ensures var m := DeclareParams(params);
            (forall id <- m :: 0 <= id) && (forall p <- params :: p.id in m && m[p.id] == p.ty)
  {
    if params != [] {
      var n := |params| - 1;
      DeclareParamsIs(params[..n]);
      assert params[n] in params;
      forall p <- params
        ensures p.id in DeclareParams(params) && DeclareParams(params)[p.id] == p.ty
      {
        var i :| 0 <= i < |params| && params[i] == p;
        if i < n {
          assert params[..n][i] == p;
        }
      }
    }
  }

  lemma {:induction false} InstInAll(blocks: seq<Block>, k: nat, i: nat) returns (j: nat)
    requires k < |blocks| && i < |blocks[k].insts|
    ensures j < |AllInsts(blocks)| && AllInsts(blocks)[j] == blocks[k].insts[i]
  {
    var n := |blocks| - 1;
    if k == n {
      j := |AllInsts(blocks[..n])| + i;
    } else {
      j := InstInAll(blocks[..n], k, i);
    }
  }

  /** The scan types a function in SSA form so that every definition agrees
      with its local: with all call sites registered such a function is in the
      scope of the emitter's correctness. */
  lemma SsaIsSupported(f: Function, sites: seq<string>)
    requires BlocksNumbered(f) && Ssa(f)
    requires forall inst <- AllInsts(f.blocks) :: inst.HostCall? ==> inst.name in sites
    ensures Supported(f, ValueTypes(f), sites)
  {
    var insts := AllInsts(f.blocks);
    var params := DeclareParams(f.params);
    DeclareBlocksFlat(params, f.blocks);
    DeclareParamsIs(f.params);
    DeclareKeeps(params, insts);
    var types := ValueTypes(f);
    forall k, i | 0 <= k < |f.blocks| && 0 <= i < |f.blocks[k].insts|
      ensures InstOk(f, types, sites, k, i)
    {
      var j := InstInAll(f.blocks, k, i);
      assert insts[j] in insts;
    }
    forall p <- f.params
      ensures p.id in types && types[p.id] == p.ty
    {
      assert forall i :: 0 <= i < |insts| && Produces(insts[i]) ==> insts[i].id != p.id;
    }
  }

  /** The module's functions with the sites of its pre-pass: in SSA form, and with
      at most 64 different names called, all of them qualified, they are in the
      scope of the emitter's correctness. */
  lemma ModuleIsSupported(functions: seq<Function>, n: nat)
    requires n < |functions| && BlocksNumbered(functions[n]) && Ssa(functions[n])
    requires |DottedNames(HostNames(functions))| <= 64 && forall name <- HostNames(functions) :: Dotted(name)
    ensures Supported(functions[n], ValueTypes(functions[n]), AddSites([], HostNames(functions)))
  {
    var f, sites := functions[n], AddSites([], HostNames(functions));
    EverySiteIff(HostNames(functions));
    hide Ssa;
    forall inst <- AllInsts(f.blocks) | inst.HostCall?
      ensures inst.name in sites
    {
      var j :| 0 <= j < |AllInsts(f.blocks)| && AllInsts(f.blocks)[j] == inst;
      var k, i := AllHas(f.blocks, j);
      HostNamed(functions, n, k, i);
    }
    SsaIsSupported(f, sites);
  }

  lemma {:induction false} AllHas(blocks: seq<Block>, j: nat) returns (k: nat, i: nat)
    requires j < |AllInsts(blocks)|
    ensures k < |blocks| && i < |blocks[k].insts| && blocks[k].insts[i] == AllInsts(blocks)[j]
  {
    var last := |blocks| - 1;
    var before := |AllInsts(blocks[..last])|;
    if j < before {
      k, i := AllHas(blocks[..last], j);
    } else {
      k, i := last, j - before;
    }
  }

  // ---- what is declared ----

  lemma {:induction false} ParamDeclared(params: seq<Param>, id: int)
    ensures id in DeclareParams(params) <==> 0 <= id < MAX_LOCALS && exists p <- params :: p.id == id
  {
    if params != [] {
      ParamDeclared(params[..|params| - 1], id);
      assert params == params[..|params| - 1] + [params[|params| - 1]];
    }
  }

  lemma {:induction false} ResultDeclared(m: Types, insts: seq<Inst>, id: int)
    ensures id in DeclareInsts(m, insts) <==>
            id in m || (0 <= id < MAX_LOCALS && exists inst <- insts :: inst.Result() == id)
  {
    if insts != [] {
      ResultDeclared(m, insts[..|insts| - 1], id);
      assert insts == insts[..|insts| - 1] + [insts[|insts| - 1]];
    }
  }

  /** A local is declared for exactly the parameters and results below the limit. */
  lemma DeclaredIff(f: Function, id: int)
    ensures id in ValueTypes(f) <==>
            0 <= id < 4096 && ((exists p <- f.params :: p.id == id) ||
                                     (exists inst <- AllInsts(f.blocks) :: inst.Result() == id))
  {
    ParamDeclared(f.params, id);
    DeclareBlocksFlat(DeclareParams(f.params), f.blocks);
    ResultDeclared(DeclareParams(f.params), AllInsts(f.blocks), id);
  }

  // ---- what the correctness result leaves open ----

  /** The value v as a value of type t: truncated, sign-extended or unchanged. */
  function Converted(v: WVal, t: WType): WVal {
    match (v, t)
    case (W64(n), T32) => W32(Wrap32(n))
    case (W32(m), T64) => W64(m)
    case _ => v
  }

  /** A cast leaves a value of the width of its type, whatever it casts. */
  lemma CastConverts(types: Types, ty: IrType, arg: int, rest: Code, ret: Option<WType>, st: WState, w: World, fuel: nat)
    requires st.stack != [] && CastSource(types, arg) != Void && ty != Void
    requires WTypeOf(st.stack[0]) == LowerType(CastSource(types, arg))
    ensures ExecCode(CastCode(types, ty, arg, rest), ret, st, w, fuel) ==
            ExecCode(rest, ret, st.(stack := [Converted(st.stack[0], LowerType(ty))] + st.stack[1..]), w, fuel)
  {
    var st' := st.(stack := [Converted(st.stack[0], LowerType(ty))] + st.stack[1..]);
    var from, to := LowerType(CastSource(types, arg)), LowerType(ty);
    if from == T64 && to == T32 {
      WasmCorrect.Step(WrapI64, rest, ret, st, st', w, fuel);
    } else if from == T32 && to == T64 {
      WasmCorrect.Step(ExtendI32, rest, ret, st, st', w, fuel);
    } else {
      assert st' == st;
    }
  }

  /** An operand that names no value reads as zero, and a result that names none
      is dropped: such an instruction changes no local. */
  lemma NoValue(id: int, rest: Code, ret: Option<WType>, st: WState, w: World, fuel: nat)
    requires id < 0
    ensures ExecCode(S(GetValue(id), rest), ret, st, w, fuel) == ExecCode(rest, ret, st.(stack := [W64(0)] + st.stack), w, fuel)
    ensures st.stack != [] ==>
              ExecCode(S(SetValue(id), rest), ret, st, w, fuel) == ExecCode(rest, ret, st.(stack := st.stack[1..]), w, fuel)
  {
    WasmCorrect.Step(GetValue(id), rest, ret, st, st.(stack := [W64(0)] + st.stack), w, fuel);
    if st.stack != [] {
      WasmCorrect.Step(SetValue(id), rest, ret, st, st.(stack := st.stack[1..]), w, fuel);
    }
  }
}
