/** When copying phi values in order is copying them at once. */
module WasmEdges {
  import opened Ir
  import opened Wasm
  import opened WasmEmit
  import opened WasmCorrect
  import opened Wrappers

  // ---- one edge ----

  /** No copy reads what an earlier copy of the same edge has changed. */
  predicate NoHazard(copies: seq<Copy>) {
    forall i, j :: 0 <= i < j < |copies| && copies[j].src == copies[i].dst ==> copies[i].src == copies[i].dst
  }

  lemma {:induction false} SequentialIsParallel(copies: seq<Copy>, before: Env, env: Env)
    requires NoHazard(copies)
    requires forall c <- copies :: Get(env, c.src) == Get(before, c.src)
    ensures SequentialCopy(copies, env) == ParallelCopy(copies, before, env)
  {
    if copies != [] {
      var c, rest := copies[0], copies[1..];
      var v := Get(before, c.src);
      if v.Some? && TypeOf(v.value) == c.ty {
        var env' := env[c.dst := v.value];
        forall d <- rest
          ensures Get(env', d.src) == Get(before, d.src)
        {
          var j :| 0 <= j < |rest| && rest[j] == d;
          assert copies[j + 1] == d;
        }
        NoHazardTail(copies);
        SequentialIsParallel(rest, before, env');
      }
    }
  }

  lemma NoHazardTail(copies: seq<Copy>)
    requires copies != [] && NoHazard(copies)
    ensures NoHazard(copies[1..])
  {
    var rest := copies[1..];
    forall i, j | 0 <= i < j < |rest| && rest[j].src == rest[i].dst
      ensures rest[i].src == rest[i].dst
    {
      assert copies[i + 1] == rest[i] && copies[j + 1] == rest[j];
    }
  }

  predicate EnvTyped(env: Env, types: Types) {
    env.Keys == types.Keys && forall id <- types :: TypeOf(env[id]) == types[id]
  }

  /** Every copy moves a value of its type into a phi of that type, and no phi
      is written twice. */
  predicate ProperCopies(copies: seq<Copy>, types: Types) {
    && (forall c <- copies :: c.src in types && c.dst in types && types[c.src] == c.ty == types[c.dst])
    && (forall i, j :: 0 <= i < j < |copies| ==> copies[i].dst != copies[j].dst)
  }

  lemma ProperPrefix(copies: seq<Copy>, types: Types, n: nat)
    requires ProperCopies(copies, types) && n <= |copies|
    ensures ProperCopies(copies[..n], types)
  {
  }

  /** Copies at once: each phi receives the old value of its source, all other
      values stay. */
  lemma {:induction false} ParallelCopyIs(copies: seq<Copy>, types: Types, before: Env, env: Env)
    requires ProperCopies(copies, types) && EnvTyped(before, types) && EnvTyped(env, types)
    ensures var r := ParallelCopy(copies, before, env);
            && r.Some? && EnvTyped(r.value, types)
            && (forall i :: 0 <= i < |copies| ==> r.value[copies[i].dst] == before[copies[i].src])
            && (forall id <- types :: (forall i :: 0 <= i < |copies| ==> copies[i].dst != id) ==> r.value[id] == env[id])
  {
    if copies != [] {
      var c, rest := copies[0], copies[1..];
      var env' := env[c.dst := before[c.src]];
      ParallelStep(copies, types, before, env);
      hide ParallelCopy;
      ParallelCopyIs(rest, types, before, env');
      var r := ParallelCopy(rest, before, env').value;
      forall i | 0 <= i < |copies|
        ensures r[copies[i].dst] == before[copies[i].src]
      {
        if i > 0 {
          assert rest[i - 1] == copies[i];
        }
      }
      forall id <- types | forall i :: 0 <= i < |copies| ==> copies[i].dst != id
        ensures r[id] == env[id]
      {
        assert copies[0].dst != id;
      }
    }
  }

  lemma ParallelStep(copies: seq<Copy>, types: Types, before: Env, env: Env)
    requires copies != [] && ProperCopies(copies, types) && EnvTyped(before, types) && EnvTyped(env, types)
    ensures var c, rest := copies[0], copies[1..];
            && c.src in before && c.dst in types && EnvTyped(env[c.dst := before[c.src]], types)
            && ProperCopies(rest, types) && (forall i :: 0 <= i < |rest| ==> rest[i].dst != c.dst)
            && ParallelCopy(copies, before, env) == ParallelCopy(rest, before, env[c.dst := before[c.src]])
  {
    assert copies[0] in copies;
    assert forall i :: 0 <= i < |copies[1..]| ==> copies[1..][i] == copies[i + 1];
  }

  lemma {:induction false} SequentialSplit(copies: seq<Copy>, n: nat, env: Env)
    requires n <= |copies|
    ensures SequentialCopy(copies, env) ==
            match SequentialCopy(copies[..n], env)
            case Some(mid) => SequentialCopy(copies[n..], mid)
            case None => None
  {
    if n > 0 {
      var v := Get(env, copies[0].src);
      assert copies[..n][1..] == copies[1..][..n - 1];
      assert copies[1..][n - 1..] == copies[n..];
      if v.Some? {
        SequentialSplit(copies[1..], n - 1, env[copies[0].dst := v.value]);
      }
    } else {
      assert copies[..0] == [] && copies[0..] == copies;
    }
  }

  /** A value that no copy writes keeps its value. */
  lemma {:induction false} SequentialKeeps(copies: seq<Copy>, env: Env, id: int)
    requires forall i :: 0 <= i < |copies| ==> copies[i].dst != id
    requires SequentialCopy(copies, env).Some?
    ensures Get(SequentialCopy(copies, env).value, id) == Get(env, id)
  {
    if copies != [] {
      assert copies[0].dst != id;
      SequentialKeeps(copies[1..], env[copies[0].dst := env[copies[0].src]], id);
    }
  }

  /** Two different values of one type. */
  function Sample(ty: IrType, odd: bool): Val {
    match ty
    case Bool => BoolVal(odd)
    case Ptr => PtrVal(if odd then 1 else 0)
    case _ => IntVal(if odd then 1 else 0)
  }

  predicate HazardAt(copies: seq<Copy>, i: nat, j: nat) {
    i < j < |copies| && copies[j].src == copies[i].dst && copies[i].src != copies[i].dst
  }

  /** The first copy that reads a changed value exposes the order. */
  lemma HazardShows(copies: seq<Copy>, types: Types, i: nat, j: nat) returns (env: Env)
    requires ProperCopies(copies, types) && (forall id <- types :: types[id] != Void)
    requires HazardAt(copies, i, j) && NoHazard(copies[..j])
    ensures EnvTyped(env, types)
    ensures SequentialCopy(copies, env) != ParallelCopy(copies, env, env)
  {
    var from, mid, to := copies[i].src, copies[i].dst, copies[j].dst;
    assert copies[i] in copies && copies[j] in copies;
    env := map id | id in types :: Sample(types[id], id == from);
    ParallelCopyIs(copies, types, env, env);
    hide ParallelCopy;
    assert ParallelCopy(copies, env, env).value[to] == env[mid];
    if SequentialCopy(copies, env).Some? {
      HazardReads(copies, types, i, j, env);
      assert env[from] != env[mid];
    }
  }

  /** In order, the copy at j receives what the copy at i was given. */
  lemma HazardReads(copies: seq<Copy>, types: Types, i: nat, j: nat, env: Env)
    requires ProperCopies(copies, types) && EnvTyped(env, types)
    requires HazardAt(copies, i, j) && NoHazard(copies[..j]) && SequentialCopy(copies, env).Some?
    ensures var r := SequentialCopy(copies, env).value;
            copies[i].src in env && copies[j].dst in r && r[copies[j].dst] == env[copies[i].src]
  {
    var after := HazardPrefix(copies, types, i, j, env);
    SequentialSplit(copies, j, env);
    var rest := copies[j..];
    assert rest[0] == copies[j];
    assert forall k :: 0 <= k < |rest[1..]| ==> rest[1..][k] == copies[j + 1 + k];
    SequentialKeeps(rest[1..], after[copies[j].dst := after[copies[j].src]], copies[j].dst);
  }

  lemma HazardPrefix(copies: seq<Copy>, types: Types, i: nat, j: nat, env: Env) returns (after: Env)
    requires ProperCopies(copies, types) && EnvTyped(env, types) && HazardAt(copies, i, j) && NoHazard(copies[..j])
    ensures SequentialCopy(copies[..j], env) == Some(after)
    ensures copies[i].src in env && copies[j].src in after && after[copies[j].src] == env[copies[i].src]
  {
    assert copies[i] in copies && copies[j] in copies;
    ProperPrefix(copies, types, j);
    ParallelCopyIs(copies[..j], types, env, env);
    SequentialIsParallel(copies[..j], env, env);
    after := SequentialCopy(copies[..j], env).value;
    assert copies[..j][i] == copies[i];
  }

  lemma FirstHazard(copies: seq<Copy>, n: nat) returns (i: nat, j: nat)
    requires n <= |copies| && !NoHazard(copies[..n])
    ensures HazardAt(copies, i, j) && NoHazard(copies[..j])
    decreases n
  {
    var a, b :| 0 <= a < b < |copies[..n]| && copies[..n][b].src == copies[..n][a].dst &&
                copies[..n][a].src != copies[..n][a].dst;
    if NoHazard(copies[..b]) {
      i, j := a, b;
    } else {
      i, j := FirstHazard(copies, b);
    }
  }

  /** EXACT CONDITION for jumps. Copying in order is copying at once, for all
      values, if and only if no copy reads what an earlier one changed. */
  lemma OrderIrrelevantIff(copies: seq<Copy>, types: Types)
    requires ProperCopies(copies, types) && (forall id <- types :: types[id] != Void)
    ensures NoHazard(copies) <==>
            forall env: Env | EnvTyped(env, types) :: SequentialCopy(copies, env) == ParallelCopy(copies, env, env)
  {
    if NoHazard(copies) {
      forall env: Env | EnvTyped(env, types)
        ensures SequentialCopy(copies, env) == ParallelCopy(copies, env, env)
      {
        SequentialIsParallel(copies, env, env);
      }
    } else {
      assert copies[..|copies|] == copies;
      var i, j := FirstHazard(copies, |copies|);
      var env := HazardShows(copies, types, i, j);
    }
  }

  predicate Identities(copies: seq<Copy>) {
    forall c <- copies :: c.src == c.dst
  }

  lemma {:induction false} IdentityCopies(copies: seq<Copy>, env: Env)
    requires Identities(copies) && ParallelCopy(copies, env, env).Some?
    ensures ParallelCopy(copies, env, env) == Some(env)
  {
    if copies != [] {
      assert copies[0] in copies;
      assert env[copies[0].dst := env[copies[0].src]] == env;
      IdentityCopies(copies[1..], env);
    }
  }

  /** EXACT CONDITION for fall-through edges, on which nothing is copied. */
  lemma NoCopyNeededIff(copies: seq<Copy>, types: Types)
    requires ProperCopies(copies, types) && (forall id <- types :: types[id] != Void)
    ensures Identities(copies) <==>
            forall env: Env | EnvTyped(env, types) :: ParallelCopy(copies, env, env) == Some(env)
  {
    if Identities(copies) {
      forall env: Env | EnvTyped(env, types)
        ensures ParallelCopy(copies, env, env) == Some(env)
      {
        ParallelCopyIs(copies, types, env, env);
        IdentityCopies(copies, env);
      }
    } else {
      var c :| c in copies && c.src != c.dst;
      var i :| 0 <= i < |copies| && copies[i] == c;
      var env: Env := map id | id in types :: Sample(types[id], id == c.src);
      ParallelCopyIs(copies, types, env, env);
      assert ParallelCopy(copies, env, env).value[c.dst] == env[c.src] != env[c.dst];
    }
  }

  // ---- whole functions ----

  predicate JumpsSafe(f: Function, k: nat, inst: Inst) {
    && (inst.Jmp? ==> NoHazard(EdgeCopies(f, k, inst.target)))
    && (inst.Br? ==> NoHazard(EdgeCopies(f, k, inst.onTrue)) && NoHazard(EdgeCopies(f, k, inst.onFalse)))
  }

  predicate BlockEdgesSafe(f: Function, k: nat)
    requires k < |f.blocks|
  {
    && (forall i {:trigger f.blocks[k].insts[i]} :: 0 <= i < |f.blocks[k].insts| ==> JumpsSafe(f, k, f.blocks[k].insts[i]))
    && (LastTerminates(f.blocks[k]) || Identities(EdgeCopies(f, k, k + 1)))
  }

  /** No edge of the function depends on the order of its copies. */
  predicate EdgesSafe(f: Function) {
    forall k {:trigger BlockEdgesSafe(f, k)} :: 0 <= k < |f.blocks| ==> BlockEdgesSafe(f, k)
  }

  lemma {:induction false} BlockGoes(f: Function, w: World, k: nat, i: nat, s: State)
    requires k < |f.blocks| < TWO_31 && i <= |f.blocks[k].insts| && BlockEdgesSafe(f, k)
    requires i == |f.blocks[k].insts| ==> !LastTerminates(f.blocks[k])
    requires ExecBlock(f, w, k, i, s).Goto?
    ensures var step := ExecBlock(f, w, k, i, s);
            if step.fell then Identities(EdgeCopies(f, k, step.target)) else NoHazard(EdgeCopies(f, k, step.target))
    decreases |f.blocks[k].insts| - i
  {
    if i < |f.blocks[k].insts| {
      var inst := f.blocks[k].insts[i];
      assert JumpsSafe(f, k, inst);
      var step := Exec(f, w, inst, s);
      if step.Next? {
        BlockGoes(f, w, k, i + 1, step.st);
      }
    }
  }

  /** With safe edges both readings of the phis give the same runs. */
  lemma {:induction false} InOrderIsAtOnce(f: Function, w: World, k: nat, s: State, fuel: nat)
    requires EdgesSafe(f) && k < |f.blocks| < TWO_31
    requires Run(f, w, AtOnce, k, s, fuel).o != Stuck
    ensures Run(f, w, InOrder, k, s, fuel) == Run(f, w, AtOnce, k, s, fuel)
    decreases fuel
  {
    hide ExecBlock;
    if fuel > 0 {
      var step := ExecBlock(f, w, k, 0, s);
      if step.Goto? {
        EmptyBlockFalls(f, w, k, s);
        assert BlockEdgesSafe(f, k);
        BlockGoes(f, w, k, 0, s);
        var copies := EdgeCopies(f, k, step.target);
        if step.fell {
          if ParallelCopy(copies, step.st.env, step.st.env).Some? {
            IdentityCopies(copies, step.st.env);
          }
        } else {
          SequentialIsParallel(copies, step.st.env, step.st.env);
        }
        var next := Follow(f, AtOnce, k, step);
        if next.Some? {
          InOrderIsAtOnce(f, w, step.target, next.value, fuel - 1);
        }
      }
    }
  }

  lemma EmptyBlockFalls(f: Function, w: World, k: nat, s: State)
    requires k < |f.blocks| < TWO_31
    ensures |f.blocks[k].insts| == 0 ==> !LastTerminates(f.blocks[k])
  {
  }

  /** MAIN RESULT. For a function whose edges are safe the emitted text computes
      what SSA means: phi values are taken at once on every edge. */
  lemma EmittedMeansSsa(f: Function, types: Types, sites: seq<string>, base: int32, w: World,
                        args: seq<Val>, b: Budget, fuel: nat)
    requires Supported(f, types, sites) && EdgesSafe(f) && Layout(base, w) && BudgetOk(b)
    requires ArgsMatch(f.params, args) && forall v <- args :: !v.PtrVal?
    ensures Matches(f, base, CallFunction(f, w, AtOnce, args, b, fuel),
                    RunText(Flatten(FunctionCode(f, types, sites)), ResultType(f),
                            InitialState(types, Initial(f, args, b).env, base, b), w, fuel))
  {
    hide Run;
    hide RunText;
    EmittedFunctionCorrect(f, types, sites, base, w, args, b, fuel);
    if CallFunction(f, w, AtOnce, args, b, fuel).o != Stuck {
      InOrderIsAtOnce(f, w, 0, Initial(f, args, b), fuel);
    }
  }

  // ---- the limit is real: a loop that swaps two values ----

  /** while c { a, b = b, a; c = false } return b. */
  function SwapLoop(): Function {
    Function(I64, [Param(0, I64), Param(1, I64), Param(2, Bool)],
             [Block(0, [Jmp(1)]),
              Block(1, [Phi(3, I64, [PhiArg(0, 0), PhiArg(4, 1)]),
                        Phi(4, I64, [PhiArg(1, 0), PhiArg(3, 1)]),
                        Phi(5, Bool, [PhiArg(2, 0), PhiArg(6, 1)]),
                        ConstBool(6, false),
                        Br(5, 1, 2)]),
              Block(2, [Ret(4)])])
  }

  function SwapStart(a: int64, b: int64): Env {
    map[0 := IntVal(a), 1 := IntVal(b), 2 := BoolVal(true),
        3 := IntVal(a), 4 := IntVal(b), 5 := BoolVal(true), 6 := BoolVal(false)]
  }

  /** On the back edge of SwapLoop the two readings differ exactly when the two
      values differ: in order, the first value overwrites nothing and the
      second copy reads the new one. */
  lemma SwapIsLost(a: int64, b: int64)
    ensures EdgeCopies(SwapLoop(), 1, 1) == [Copy(3, 4, I64), Copy(4, 3, I64), Copy(5, 6, Bool)]
    ensures !NoHazard(EdgeCopies(SwapLoop(), 1, 1))
    ensures var env := SwapStart(a, b);
            var copies := EdgeCopies(SwapLoop(), 1, 1);
            && ParallelCopy(copies, env, env) == Some(env[3 := IntVal(b)][4 := IntVal(a)][5 := BoolVal(false)])
            && SequentialCopy(copies, env) == Some(env[3 := IntVal(b)][4 := IntVal(b)][5 := BoolVal(false)])
  {
    var insts := SwapLoop().blocks[1].insts;
    assert Incoming(insts[0].incoming, 1) == 4 by {
      assert insts[0].incoming[1..] == [PhiArg(4, 1)];
    }
    assert Incoming(insts[1].incoming, 1) == 3 by {
      assert insts[1].incoming[1..] == [PhiArg(3, 1)];
    }
    assert Incoming(insts[2].incoming, 1) == 6 by {
      assert insts[2].incoming[1..] == [PhiArg(6, 1)];
    }
    assert insts[4..] == [Br(5, 1, 2)] && insts[4..][1..] == [];
    assert PhiCopies(insts[4..], 1) == [];
    assert insts[3..][1..] == insts[4..];
    assert PhiCopies(insts[3..], 1) == [];
    assert insts[2..][1..] == insts[3..];
    assert PhiCopies(insts[2..], 1) == [Copy(5, 6, Bool)];
    assert insts[1..][1..] == insts[2..];
    assert PhiCopies(insts[1..], 1) == [Copy(4, 3, I64), Copy(5, 6, Bool)];
    var copies := [Copy(3, 4, I64), Copy(4, 3, I64), Copy(5, 6, Bool)];
    assert PhiCopies(insts, 1) == copies;
    assert copies[1].src == copies[0].dst;
    assert copies[1..] == [Copy(4, 3, I64), Copy(5, 6, Bool)] && copies[1..][1..] == [Copy(5, 6, Bool)];
    var env := SwapStart(a, b);
    var par := env[3 := IntVal(b)][4 := IntVal(a)];
    assert ParallelCopy(copies[1..][1..], env, par) == Some(par[5 := BoolVal(false)]);
    var inOrder := env[3 := IntVal(b)][4 := IntVal(b)];
    assert SequentialCopy(copies[1..][1..], inOrder) == Some(inOrder[5 := BoolVal(false)]);
  }

  function SwapWorld(): World {
    World((_, _) => 0, 0)
  }

  function SwapCall(how: Copying, a: int64, b: int64): Result {
    CallFunction(SwapLoop(), SwapWorld(), how, [IntVal(a), IntVal(b), BoolVal(true)], Budget(0, 0, 0), 4)
  }

  lemma SwapEntryCopies()
    ensures EdgeCopies(SwapLoop(), 0, 1) == [Copy(3, 0, I64), Copy(4, 1, I64), Copy(5, 2, Bool)]
  {
    var insts := SwapLoop().blocks[1].insts;
    assert insts[4..] == [Br(5, 1, 2)] && insts[4..][1..] == [];
    assert PhiCopies(insts[4..], 0) == [];
    assert insts[3..][1..] == insts[4..];
    assert PhiCopies(insts[3..], 0) == [];
    assert insts[2..][1..] == insts[3..];
    assert PhiCopies(insts[2..], 0) == [Copy(5, 2, Bool)];
    assert insts[1..][1..] == insts[2..];
    assert PhiCopies(insts[1..], 0) == [Copy(4, 1, I64), Copy(5, 2, Bool)];
  }

  lemma SwapEntry(a: int64, b: int64, s: State, how: Copying, fuel: nat)
    requires s.env == map[0 := IntVal(a), 1 := IntVal(b), 2 := BoolVal(true)] && fuel > 0
    ensures Run(SwapLoop(), SwapWorld(), how, 0, s, fuel) ==
            Run(SwapLoop(), SwapWorld(), how, 1,
                s.(env := s.env[3 := IntVal(a)][4 := IntVal(b)][5 := BoolVal(true)]), fuel - 1)
  {
    hide PhiCopies;
    var f := SwapLoop();
    SwapEntryCopies();
    var copies := [Copy(3, 0, I64), Copy(4, 1, I64), Copy(5, 2, Bool)];
    assert copies[1..] == [Copy(4, 1, I64), Copy(5, 2, Bool)] && copies[1..][1..] == [Copy(5, 2, Bool)];
    var e1 := s.env[3 := IntVal(a)];
    var e2 := e1[4 := IntVal(b)];
    var e3 := e2[5 := BoolVal(true)];
    assert ParallelCopy(copies[1..][1..], s.env, e2) == Some(e3);
    assert ParallelCopy(copies[1..], s.env, e1) == Some(e3);
    assert SequentialCopy(copies[1..][1..], e2) == Some(e3);
    assert SequentialCopy(copies[1..], e1) == Some(e3);
    assert CopyEdge(f, how, 0, 1, false, s.env) == Some(e3);
    assert Exec(f, SwapWorld(), f.blocks[0].insts[0], s) == Goto(1, false, s);
    assert ExecBlock(f, SwapWorld(), 0, 0, s) == Goto(1, false, s);
    assert Follow(f, how, 0, Goto(1, false, s)) == Some(s.(env := e3));
  }

  lemma BlockStep(f: Function, w: World, k: nat, i: nat, s: State, s': State)
    requires k < |f.blocks| < TWO_31 && i < |f.blocks[k].insts|
    requires Exec(f, w, f.blocks[k].insts[i], s) == Next(s')
    ensures ExecBlock(f, w, k, i, s) == ExecBlock(f, w, k, i + 1, s')
  {
  }

  lemma SwapBody(s: State, c: bool)
    requires Get(s.env, 5) == Some(BoolVal(c))
    ensures ExecBlock(SwapLoop(), SwapWorld(), 1, 0, s) ==
            Goto(if c then 1 else 2, false, s.(env := s.env[6 := BoolVal(false)]))
  {
    var f, w := SwapLoop(), SwapWorld();
    var s' := s.(env := s.env[6 := BoolVal(false)]);
    SwapBranch(s', c);
    hide ExecBlock;
    BlockStep(f, w, 1, 0, s, s);
    BlockStep(f, w, 1, 1, s, s);
    BlockStep(f, w, 1, 2, s, s);
    BlockStep(f, w, 1, 3, s, s');
  }

  lemma SwapBranch(s: State, c: bool)
    requires Get(s.env, 5) == Some(BoolVal(c))
    ensures ExecBlock(SwapLoop(), SwapWorld(), 1, 4, s) == Goto(if c then 1 else 2, false, s)
  {
    var f := SwapLoop();
    assert Exec(f, SwapWorld(), f.blocks[1].insts[4], s) == Goto(if c then 1 else 2, false, s);
  }

  /** The first turn takes the back edge and copies; the second leaves. */
  lemma SwapTurns(a: int64, b: int64, s1: State, how: Copying)
    requires s1.env == SwapStart(a, b) - {6}
    ensures Run(SwapLoop(), SwapWorld(), how, 1, s1, 3).o ==
            Returned(Some(IntVal(if how == AtOnce then a else b)))
  {
    hide ExecBlock;
    hide ParallelCopy;
    hide SequentialCopy;
    hide PhiCopies;
    var f, w := SwapLoop(), SwapWorld();
    SwapIsLost(a, b);
    SwapBody(s1, true);
    var s2 := s1.(env := s1.env[6 := BoolVal(false)]);
    assert s2.env == SwapStart(a, b);
    var s3 := Follow(f, how, 1, Goto(1, false, s2)).value;
    assert Run(f, w, how, 1, s1, 3) == Run(f, w, how, 1, s3, 2);
    SwapLast(s3, if how == AtOnce then a else b, how);
  }

  lemma SwapLast(s3: State, v: int64, how: Copying)
    requires Get(s3.env, 5) == Some(BoolVal(false)) && Get(s3.env, 4) == Some(IntVal(v))
    ensures Run(SwapLoop(), SwapWorld(), how, 1, s3, 2).o == Returned(Some(IntVal(v)))
  {
    hide ExecBlock;
    var f, w := SwapLoop(), SwapWorld();
    SwapBody(s3, false);
    var s4 := s3.(env := s3.env[6 := BoolVal(false)]);
    assert EdgeCopies(f, 1, 2) == [] by {
      assert f.blocks[2].insts[1..] == [];
    }
    assert Follow(f, how, 1, Goto(2, false, s4)) == Some(s4);
    assert Run(f, w, how, 1, s3, 2) == Run(f, w, how, 2, s4, 1);
    SwapExit(s4, v);
  }

  function SwapTypes(): Types {
    map[0 := I64, 1 := I64, 2 := Bool, 3 := I64, 4 := I64, 5 := Bool, 6 := Bool]
  }

  lemma SwapSupported()
    ensures Supported(SwapLoop(), SwapTypes(), [])
  {
    var f := SwapLoop();
    forall k, i {:trigger InstOk(f, SwapTypes(), [], k, i)} | 0 <= k < |f.blocks| && 0 <= i < |f.blocks[k].insts|
      ensures InstOk(f, SwapTypes(), [], k, i)
    {
    }
  }

  /** The loop means "return a"; its emitted text, parsed and run, returns b. */
  lemma SwapLoopMiscompiled(a: int64, b: int64)
    ensures SwapCall(AtOnce, a, b).o == Returned(Some(IntVal(a)))
    ensures SwapCall(InOrder, a, b).o == Returned(Some(IntVal(b)))
    ensures var env := Initial(SwapLoop(), [IntVal(a), IntVal(b), BoolVal(true)], Budget(0, 0, 0)).env;
            var flow := RunText(Flatten(FunctionCode(SwapLoop(), SwapTypes(), [])), Some(T64),
                                InitialState(SwapTypes(), env, 0, Budget(0, 0, 0)), SwapWorld(), 4);
            flow.Returns? && flow.v == Some(W64(b))
  {
    SwapReadings(a, b);
    SwapSupported();
    hide Run;
    hide RunText;
    hide Flatten;
    hide FunctionCode;
    EmittedFunctionCorrect(SwapLoop(), SwapTypes(), [], 0, SwapWorld(), [IntVal(a), IntVal(b), BoolVal(true)],
                           Budget(0, 0, 0), 4);
  }

  lemma SwapReadings(a: int64, b: int64)
    ensures SwapCall(AtOnce, a, b).o == Returned(Some(IntVal(a)))
    ensures SwapCall(InOrder, a, b).o == Returned(Some(IntVal(b)))
  {
    hide Run;
    var args := [IntVal(a), IntVal(b), BoolVal(true)];
    var s := Initial(SwapLoop(), args, Budget(0, 0, 0));
    BindThree(SwapLoop().params, args);
    forall how: Copying
      ensures SwapCall(how, a, b).o == Returned(Some(IntVal(if how == AtOnce then a else b)))
    {
      SwapEntry(a, b, s, how, 4);
      SwapTurns(a, b, s.(env := s.env[3 := IntVal(a)][4 := IntVal(b)][5 := BoolVal(true)]), how);
    }
  }

  lemma SwapExit(s: State, v: int64)
    requires Get(s.env, 4) == Some(IntVal(v))
    ensures ExecBlock(SwapLoop(), SwapWorld(), 2, 0, s) == Done(Returned(Some(IntVal(v))), s)
  {
    assert Exec(SwapLoop(), SwapWorld(), SwapLoop().blocks[2].insts[0], s) == Done(Returned(Some(IntVal(v))), s);
  }

  lemma BindThree(params: seq<Param>, args: seq<Val>)
    requires |params| == |args| == 3
    ensures BindParams(params, args) ==
            map[params[0].id := args[0]][params[1].id := args[1]][params[2].id := args[2]]
  {
    var p2, a2 := params[..2], args[..2];
    var p1, a1 := p2[..1], a2[..1];
    assert p1[..0] == [] && a1[..0] == [];
    assert BindParams(p1, a1) == map[params[0].id := args[0]];
    assert BindParams(p2, a2) == map[params[0].id := args[0]][params[1].id := args[1]];
  }
}
