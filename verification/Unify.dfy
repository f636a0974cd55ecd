/** Type unification: a table of variable bindings, chained resolution, and a
    coercion between integers and floats. */
module Unify {
  import opened Wrappers

  datatype Kind = Unknown | Unit | Int | Float | Bool | String | Opaque

  /** A primitive type; opaque types are told apart by name. */
  datatype Literal = Literal(kind: Kind, name: Option<string>)

  datatype Type = Var(id: int) | Lit(lit: Literal)

  const MAX_VARS := 1024

  /** The bindings, and for the proof the order in which they were made. */
  datatype Table = Table(bindings: seq<Option<Type>>, time: seq<nat>, clock: nat)

  const Empty := Table([], [], 0)

  // ---- the table ----

  predicate IsVar(t: Table, ty: Type) {
    ty.Var? && 0 <= ty.id < |t.bindings|
  }

  predicate Scoped(t: Table, ty: Type) {
    ty.Var? ==> 0 <= ty.id < |t.bindings|
  }

  /** When a variable was bound; later than everything if it is not. */
  function BoundAt(t: Table, v: int): nat
    requires |t.time| == |t.bindings| && 0 <= v < |t.bindings|
  {
    if t.bindings[v].Some? then t.time[v] else t.clock
  }

  predicate BindingOk(t: Table, v: int)
    requires |t.time| == |t.bindings| && 0 <= v < |t.bindings|
  {
    t.bindings[v].Some? ==>
      && t.time[v] < t.clock && Scoped(t, t.bindings[v].value)
      && (t.bindings[v].value.Var? ==> BoundAt(t, v) < BoundAt(t, t.bindings[v].value.id))
  }

  /** A variable is bound once, to something that was unbound at the time, so
      chains lead to ever later bindings. */
  predicate Valid(t: Table) {
    && |t.time| == |t.bindings| <= MAX_VARS
    && forall v {:trigger BindingOk(t, v)} :: 0 <= v < |t.bindings| ==> BindingOk(t, v)
  }

  /** The end of a chain of bindings. */
  function Resolve(t: Table, ty: Type): (r: Type)
    requires Valid(t)
    ensures IsVar(t, r) ==> t.bindings[r.id].None?
    ensures Scoped(t, ty) ==> Scoped(t, r)
    ensures ty.Lit? ==> r == ty
    decreases if IsVar(t, ty) then t.clock - BoundAt(t, ty.id) + 1 else 0
  {
    if IsVar(t, ty) && t.bindings[ty.id].Some? then
      assert BindingOk(t, ty.id);
      Resolve(t, t.bindings[ty.id].value)
    else ty
  }

  function Bind(t: Table, v: int, ty: Type): Table
    requires 0 <= v < |t.bindings| == |t.time|
  {
    Table(t.bindings[v := Some(ty)], t.time[v := t.clock], t.clock + 1)
  }

  function Fresh(t: Table): Table
    requires |t.bindings| == |t.time|
  {
    if |t.bindings| >= MAX_VARS then t else t.(bindings := t.bindings + [None], time := t.time + [0])
  }

  /** Two literals go together: equal, both opaque with one unnamed, or an
      integer and a float. */
  predicate Compatible(x: Literal, y: Literal) {
    if x.kind == y.kind then x.kind != Opaque || x.name.None? || y.name.None? || x.name == y.name
    else (x.kind == Int && y.kind == Float) || (x.kind == Float && y.kind == Int)
  }

  /** Kinds are told apart, except that integers and floats coerce either way;
      opaque types are told apart by their names when both have one. */
  lemma CompatibleIff(x: Literal, y: Literal)
    ensures Compatible(x, y) <==> Compatible(y, x)
    ensures x.kind != y.kind ==> (Compatible(x, y) <==> {x.kind, y.kind} == {Int, Float})
    ensures x.kind == y.kind && x.kind != Opaque ==> Compatible(x, y)
    ensures x.kind == y.kind == Opaque ==> (!Compatible(x, y) <==> x.name.Some? && y.name.Some? && x.name != y.name)
  {
    assert {x.kind, y.kind} == {Int, Float} ==> Int in {x.kind, y.kind} && Float in {x.kind, y.kind} && x.kind in {Int, Float} && y.kind in {Int, Float};
  }

  datatype Unified = Unified(t: Table, ok: bool)

  /** Unification of two types already resolved. */
  function UnifyRoots(t: Table, a: Type, b: Type): Unified
    requires Valid(t)
  {
    if a == b then Unified(t, true)
    else if a.Var? then Unified(if IsVar(t, a) then Bind(t, a.id, b) else t, true)
    else if b.Var? then Unified(if IsVar(t, b) then Bind(t, b.id, a) else t, true)
    else Unified(t, Compatible(a.lit, b.lit))
  }

  /** A missing type goes with everything. */
  function UnifyTypes(t: Table, a: Option<Type>, b: Option<Type>): Unified
    requires Valid(t)
  {
    match (a, b)
    case (Some(x), Some(y)) => UnifyRoots(t, Resolve(t, x), Resolve(t, y))
    case _ => Unified(t, true)
  }

  lemma BindValid(t: Table, v: int, ty: Type)
    requires Valid(t) && 0 <= v < |t.bindings| && t.bindings[v].None? && Scoped(t, ty)
    requires ty.Var? ==> ty.id != v && t.bindings[ty.id].None?
    ensures Valid(Bind(t, v, ty))
  {
    var t' := Bind(t, v, ty);
    forall w {:trigger BindingOk(t', w)} | 0 <= w < |t'.bindings|
      ensures BindingOk(t', w)
    {
      assert BindingOk(t, w);
    }
  }

  lemma FreshValid(t: Table)
    requires Valid(t)
    ensures Valid(Fresh(t))
  {
    var t' := Fresh(t);
    forall w {:trigger BindingOk(t', w)} | 0 <= w < |t'.bindings|
      ensures BindingOk(t', w)
    {
      if w < |t.bindings| {
        assert BindingOk(t, w);
      }
    }
  }

  lemma UnifyValid(t: Table, a: Option<Type>, b: Option<Type>)
    requires Valid(t) && (a.Some? ==> Scoped(t, a.value)) && (b.Some? ==> Scoped(t, b.value))
    ensures Valid(UnifyTypes(t, a, b).t) && |UnifyTypes(t, a, b).t.bindings| == |t.bindings|
  {
    if a.Some? && b.Some? {
      var x, y := Resolve(t, a.value), Resolve(t, b.value);
      hide Valid;
      if x != y {
        if x.Var? {
          BindValid(t, x.id, y);
        } else if y.Var? {
          BindValid(t, y.id, x);
        }
      }
    }
  }

  // ---- what unification means ----

  type Assignment = int -> Literal

  /** Opaque types that carry a name. */
  predicate Named(x: Literal) {
    x.kind == Opaque ==> x.name.Some?
  }

  ghost predicate AllNamed(s: Assignment) {
    forall v: int {:trigger s(v)} :: Named(s(v))
  }

  function Value(s: Assignment, ty: Type): Literal {
    match ty
    case Var(v) => s(v)
    case Lit(x) => x
  }

  datatype Pair = Pair(left: Type, right: Type)

  predicate Agrees(s: Assignment, p: Pair) {
    Compatible(Value(s, p.left), Value(s, p.right))
  }

  predicate Solves(s: Assignment, pairs: seq<Pair>) {
    forall i {:trigger pairs[i]} :: 0 <= i < |pairs| ==> Agrees(s, pairs[i])
  }

  predicate Follows(s: Assignment, t: Table, v: int)
    requires 0 <= v < |t.bindings|
  {
    t.bindings[v].Some? ==> Compatible(s(v), Value(s, t.bindings[v].value))
  }

  predicate Respects(s: Assignment, t: Table) {
    forall v {:trigger Follows(s, t, v)} :: 0 <= v < |t.bindings| ==> Follows(s, t, v)
  }

  predicate NamedType(ty: Type) {
    ty.Lit? ==> Named(ty.lit)
  }

  predicate NamedTable(t: Table) {
    forall v {:trigger t.bindings[v]} :: 0 <= v < |t.bindings| ==> t.bindings[v].Some? ==> NamedType(t.bindings[v].value)
  }

  /** On named literals the coercion is an equivalence. */
  lemma CompatibleIsEquivalence(x: Literal, y: Literal, z: Literal)
    requires Named(x) && Named(y) && Named(z)
    ensures Compatible(x, x)
    ensures Compatible(x, y) ==> Compatible(y, x)
    ensures Compatible(x, y) && Compatible(y, z) ==> Compatible(x, z)
  {
  }

  /** An assignment that respects the bindings gives a type and the end of its
      chain compatible values. */
  lemma {:induction false} ResolveAgrees(s: Assignment, t: Table, ty: Type)
    requires Valid(t) && NamedTable(t) && NamedType(ty) && AllNamed(s) && Respects(s, t)
    ensures Compatible(Value(s, ty), Value(s, Resolve(t, ty))) && NamedType(Resolve(t, ty))
    decreases if IsVar(t, ty) then t.clock - BoundAt(t, ty.id) + 1 else 0
  {
    if IsVar(t, ty) && t.bindings[ty.id].Some? {
      assert BindingOk(t, ty.id) && Follows(s, t, ty.id);
      var next := t.bindings[ty.id].value;
      ResolveAgrees(s, t, next);
      CompatibleIsEquivalence(s(ty.id), Value(s, next), Value(s, Resolve(t, ty)));
    }
  }

  lemma {:induction false} ResolveNamed(t: Table, ty: Type)
    requires Valid(t) && NamedTable(t) && NamedType(ty)
    ensures NamedType(Resolve(t, ty))
    decreases if IsVar(t, ty) then t.clock - BoundAt(t, ty.id) + 1 else 0
  {
    if IsVar(t, ty) && t.bindings[ty.id].Some? {
      assert BindingOk(t, ty.id);
      ResolveNamed(t, t.bindings[ty.id].value);
    }
  }

  /** A solution read off the table: each variable gets the literal at the end
      of its chain. */
  function Solution(t: Table): Assignment
    requires Valid(t)
  {
    (v: int) =>
      match Resolve(t, Var(v))
      case Lit(x) => x
      case Var(_) => Literal(Unit, None)
  }

  lemma SolutionRespects(t: Table)
    requires Valid(t) && NamedTable(t)
    ensures AllNamed(Solution(t)) && Respects(Solution(t), t)
  {
    var s := Solution(t);
    forall v: int {:trigger s(v)}
      ensures Named(s(v))
    {
      ResolveNamed(t, Var(v));
    }
    forall v {:trigger Follows(s, t, v)} | 0 <= v < |t.bindings|
      ensures Follows(s, t, v)
    {
      if t.bindings[v].Some? {
        var next := t.bindings[v].value;
        assert BindingOk(t, v);
        assert Resolve(t, Var(v)) == Resolve(t, next);
        assert Value(s, next) == s(v);
        CompatibleIsEquivalence(s(v), s(v), s(v));
      }
    }
  }

  /** Binding an unbound variable adds exactly one requirement. */
  lemma BindRespects(s: Assignment, t: Table, v: int, ty: Type)
    requires 0 <= v < |t.bindings| == |t.time| && t.bindings[v].None?
    ensures Respects(s, Bind(t, v, ty)) <==> Respects(s, t) && Compatible(s(v), Value(s, ty))
  {
    var t' := Bind(t, v, ty);
    if Respects(s, t') {
      assert Follows(s, t', v);
      forall w {:trigger Follows(s, t, w)} | 0 <= w < |t.bindings|
        ensures Follows(s, t, w)
      {
        assert Follows(s, t', w);
      }
    }
    if Respects(s, t) && Compatible(s(v), Value(s, ty)) {
      forall w {:trigger Follows(s, t', w)} | 0 <= w < |t'.bindings|
        ensures Follows(s, t', w)
      {
        assert Follows(s, t, w);
      }
    }
  }

  /** One call, exactly: an assignment respects the table afterwards and the
      call succeeded if and only if it respected the table before and makes
      the two types agree. */
  lemma UnifyExact(s: Assignment, t: Table, a: Type, b: Type)
    requires Valid(t) && NamedTable(t) && Scoped(t, a) && Scoped(t, b) && NamedType(a) && NamedType(b) && AllNamed(s)
    ensures var r := UnifyTypes(t, Some(a), Some(b));
            (r.ok && Respects(s, r.t)) <==> (Respects(s, t) && Agrees(s, Pair(a, b)))
  {
    var x, y := Resolve(t, a), Resolve(t, b);
    ResolveNamed(t, a);
    ResolveNamed(t, b);
    if x.Var? && x != y {
      BindRespects(s, t, x.id, y);
    } else if y.Var? && x != y {
      BindRespects(s, t, y.id, x);
    }
    if Respects(s, t) {
      ResolveAgrees(s, t, a);
      ResolveAgrees(s, t, b);
      SameClass(Value(s, a), Value(s, x), Value(s, b), Value(s, y));
      CompatibleIsEquivalence(Value(s, x), Value(s, y), Value(s, x));
      CompatibleIsEquivalence(Value(s, y), Value(s, x), Value(s, x));
    }
    hide Resolve;
    hide Respects;
    hide Compatible;
  }

  lemma SameClass(a: Literal, x: Literal, b: Literal, y: Literal)
    requires Named(a) && Named(x) && Named(b) && Named(y) && Compatible(a, x) && Compatible(b, y)
    ensures Compatible(a, b) <==> Compatible(x, y)
  {
  }

  // ---- sequences of calls ----

  datatype Call = FreshVar | UnifyCall(a: Option<Type>, b: Option<Type>)

  datatype Session = Session(t: Table, ok: bool)

  /** `ok`: all unifications so far succeeded. A failed one changes nothing and
      the session goes on. */
  function Step(s: Session, c: Call): Session
    requires Valid(s.t)
  {
    match c
    case FreshVar => s.(t := Fresh(s.t))
    case UnifyCall(a, b) =>
      var r := UnifyTypes(s.t, a, b);
      Session(r.t, s.ok && r.ok)
  }

  predicate CallOk(t: Table, c: Call) {
    c.UnifyCall? ==> (c.a.Some? ==> Scoped(t, c.a.value)) && (c.b.Some? ==> Scoped(t, c.b.value))
  }

  /** Every opaque type a call mentions has a name. */
  predicate NamedCall(c: Call) {
    c.UnifyCall? ==> (c.a.Some? ==> NamedType(c.a.value)) && (c.b.Some? ==> NamedType(c.b.value))
  }

  predicate NamedCalls(calls: seq<Call>) {
    forall i {:trigger calls[i]} :: 0 <= i < |calls| ==> NamedCall(calls[i])
  }

  function Pairs(calls: seq<Call>): seq<Pair> {
    if calls == [] then []
    else
      var n := |calls| - 1;
      var c := calls[n];
      if c.UnifyCall? && c.a.Some? && c.b.Some? then Pairs(calls[..n]) + [Pair(c.a.value, c.b.value)]
      else Pairs(calls[..n])
  }

  /** The session after the calls; None when a call names a variable that does
      not exist yet. */
  function RunCalls(calls: seq<Call>): (r: Option<Session>)
    ensures r.Some? ==> Valid(r.value.t)
  {
    if calls == [] then Some(Session(Empty, true))
    else
      match RunCalls(calls[..|calls| - 1])
      case None => None
      case Some(s) =>
        var c := calls[|calls| - 1];
        if CallOk(s.t, c) then
          StepValid(s, c);
          Some(Step(s, c))
        else None
  }

  lemma StepValid(s: Session, c: Call)
    requires Valid(s.t) && CallOk(s.t, c)
    ensures Valid(Step(s, c).t)
  {
    if c.UnifyCall? {
      UnifyValid(s.t, c.a, c.b);
    } else {
      FreshValid(s.t);
    }
  }

  /** An assignment solves all pairs given so far exactly when all calls
      succeeded and it respects the table. */
  ghost predicate Tracks(s: Session, pairs: seq<Pair>) {
    && Valid(s.t) && NamedTable(s.t)
    && forall a: Assignment {:trigger Solves(a, pairs)} :: AllNamed(a) ==>
         (Solves(a, pairs) <==> s.ok && Respects(a, s.t))
  }

  lemma UnifyNamed(t: Table, a: Type, b: Type)
    requires Valid(t) && NamedTable(t) && NamedType(a) && NamedType(b)
    ensures NamedTable(UnifyTypes(t, Some(a), Some(b)).t)
  {
    ResolveNamed(t, a);
    ResolveNamed(t, b);
    hide Resolve;
  }

  lemma FailureChangesNothing(t: Table, a: Option<Type>, b: Option<Type>)
    requires Valid(t) && !UnifyTypes(t, a, b).ok
    ensures UnifyTypes(t, a, b).t == t
    ensures a.Some? && b.Some? && Resolve(t, a.value).Lit? && Resolve(t, b.value).Lit?
  {
  }

  lemma SolvesOneMore(a: Assignment, pairs: seq<Pair>, p: Pair)
    ensures Solves(a, pairs + [p]) <==> Solves(a, pairs) && Agrees(a, p)
  {
    if Solves(a, pairs + [p]) {
      assert (pairs + [p])[|pairs|] == p;
      forall i {:trigger pairs[i]} | 0 <= i < |pairs|
        ensures Agrees(a, pairs[i])
      {
        assert (pairs + [p])[i] == pairs[i];
      }
    }
  }

  lemma FreshRespects(a: Assignment, t: Table)
    requires |t.bindings| == |t.time|
    ensures Respects(a, Fresh(t)) <==> Respects(a, t)
  {
    var t' := Fresh(t);
    if Respects(a, t) {
      forall w {:trigger Follows(a, t', w)} | 0 <= w < |t'.bindings|
        ensures Follows(a, t', w)
      {
        if w < |t.bindings| {
          assert Follows(a, t, w);
        }
      }
    }
    if Respects(a, t') {
      forall w {:trigger Follows(a, t, w)} | 0 <= w < |t.bindings|
        ensures Follows(a, t, w)
      {
        assert Follows(a, t', w);
      }
    }
  }

  lemma StepTracks(s: Session, pairs: seq<Pair>, c: Call)
    requires Tracks(s, pairs) && CallOk(s.t, c) && NamedCall(c)
    ensures Tracks(Step(s, c), if c.UnifyCall? && c.a.Some? && c.b.Some? then pairs + [Pair(c.a.value, c.b.value)] else pairs)
  {
    StepValid(s, c);
    hide Valid;
    hide Solves;
    hide Respects;
    hide UnifyTypes;
    if c.FreshVar? {
      forall a: Assignment {:trigger Solves(a, pairs)} | AllNamed(a)
        ensures Respects(a, Fresh(s.t)) <==> Respects(a, s.t)
      {
        FreshRespects(a, s.t);
      }
    } else if c.a.Some? && c.b.Some? {
      var x, y := c.a.value, c.b.value;
      UnifyNamed(s.t, x, y);
      var p := Pair(x, y);
      forall a: Assignment {:trigger Solves(a, pairs + [p])} | AllNamed(a)
        ensures Solves(a, pairs + [p]) <==> Step(s, c).ok && Respects(a, Step(s, c).t)
      {
        SolvesOneMore(a, pairs, p);
        UnifyExact(a, s.t, x, y);
      }
    } else {
      NullUnify(s.t, c.a, c.b);
    }
  }

  lemma NullUnify(t: Table, a: Option<Type>, b: Option<Type>)
    requires Valid(t) && (a.None? || b.None?)
    ensures UnifyTypes(t, a, b) == Unified(t, true)
  {
  }

  lemma {:induction false} RunTracks(calls: seq<Call>)
    requires RunCalls(calls).Some? && NamedCalls(calls)
    ensures Tracks(RunCalls(calls).value, Pairs(calls))
  {
    hide Tracks;
    hide Valid;
    hide Step;
    if calls == [] {
      EmptyTracks();
    } else {
      var n := |calls| - 1;
      RunTracks(calls[..n]);
      StepTracks(RunCalls(calls[..n]).value, Pairs(calls[..n]), calls[n]);
    }
  }

  lemma EmptyTracks()
    ensures Tracks(Session(Empty, true), [])
  {
  }

  /** MAIN RESULT. After any sequence of fresh variables and unifications over
      named opaque types, all unifications have succeeded if and only if some
      assignment of named literals makes every pair agree up to the coercion. */
  lemma SucceedsIffSolvable(calls: seq<Call>)
    requires RunCalls(calls).Some? && NamedCalls(calls)
    ensures RunCalls(calls).value.ok <==> exists a: Assignment :: AllNamed(a) && Solves(a, Pairs(calls))
  {
    RunTracks(calls);
    var s := RunCalls(calls).value;
    hide RunCalls;
    hide Pairs;
    hide Valid;
    hide Solves;
    hide Respects;
    if s.ok {
      SolutionRespects(s.t);
      assert Solves(Solution(s.t), Pairs(calls));
    }
  }

  // ---- opaque types without a name ----

  const NO_NAME: Option<string> := Some("")

  /** All opaque types given one and the same name. */
  function Merge(x: Literal): Literal {
    if x.kind == Opaque then x.(name := NO_NAME) else x
  }

  function MergeType(ty: Type): Type {
    if ty.Lit? then Lit(Merge(ty.lit)) else ty
  }

  function MergeOption(ty: Option<Type>): Option<Type> {
    if ty.Some? then Some(MergeType(ty.value)) else None
  }

  function MergeTable(t: Table): Table {
    t.(bindings := seq(|t.bindings|, v requires 0 <= v < |t.bindings| => MergeOption(t.bindings[v])))
  }

  function MergeCall(c: Call): Call {
    if c.UnifyCall? then UnifyCall(MergeOption(c.a), MergeOption(c.b)) else c
  }

  function MergeCalls(calls: seq<Call>): seq<Call> {
    seq(|calls|, i requires 0 <= i < |calls| => MergeCall(calls[i]))
  }

  lemma MergeValid(t: Table)
    requires Valid(t)
    ensures Valid(MergeTable(t))
  {
    var m := MergeTable(t);
    forall v {:trigger BindingOk(m, v)} | 0 <= v < |m.bindings|
      ensures BindingOk(m, v)
    {
      assert BindingOk(t, v);
    }
  }

  lemma {:induction false} MergeResolve(t: Table, ty: Type)
    requires Valid(t) && Valid(MergeTable(t))
    ensures Resolve(MergeTable(t), MergeType(ty)) == MergeType(Resolve(t, ty))
    decreases if IsVar(t, ty) then t.clock - BoundAt(t, ty.id) + 1 else 0
  {
    if IsVar(t, ty) && t.bindings[ty.id].Some? {
      assert BindingOk(t, ty.id);
      MergeResolve(t, t.bindings[ty.id].value);
    }
  }

  /** Merging names never makes a call fail, and leaves the bindings the same
      otherwise. */
  lemma MergeUnify(t: Table, a: Option<Type>, b: Option<Type>)
    requires Valid(t) && Valid(MergeTable(t))
    ensures var r, m := UnifyTypes(t, a, b), UnifyTypes(MergeTable(t), MergeOption(a), MergeOption(b));
            m.t == MergeTable(r.t) && (r.ok ==> m.ok)
  {
    if a.Some? && b.Some? {
      MergeResolve(t, a.value);
      MergeResolve(t, b.value);
      var x, y := Resolve(t, a.value), Resolve(t, b.value);
      hide Resolve;
      hide Valid;
      if x.Var? && IsVar(t, x) {
        assert MergeTable(Bind(t, x.id, y)) == Bind(MergeTable(t), x.id, MergeType(y));
      }
      if y.Var? && IsVar(t, y) {
        assert MergeTable(Bind(t, y.id, x)) == Bind(MergeTable(t), y.id, MergeType(x));
      }
    }
  }

  lemma MergeFresh(t: Table)
    requires |t.bindings| == |t.time|
    ensures Fresh(MergeTable(t)) == MergeTable(Fresh(t))
  {
  }

  lemma {:induction false} MergeRun(calls: seq<Call>)
    requires RunCalls(calls).Some?
    ensures var r, m := RunCalls(calls).value, RunCalls(MergeCalls(calls));
            m.Some? && m.value.t == MergeTable(r.t) && (r.ok ==> m.value.ok)
    ensures NamedCalls(MergeCalls(calls))
  {
    hide Valid;
    hide Resolve;
    if calls != [] {
      var n := |calls| - 1;
      MergeRun(calls[..n]);
      assert MergeCalls(calls)[..n] == MergeCalls(calls[..n]);
      var s := RunCalls(calls[..n]).value;
      MergeValid(s.t);
      if calls[n].UnifyCall? {
        hide UnifyTypes;
        MergeUnify(s.t, calls[n].a, calls[n].b);
      } else {
        MergeFresh(s.t);
      }
    }
  }

  /** Pairs of two literals are compared on the spot. */
  lemma {:induction false} LiteralPairs(calls: seq<Call>)
    requires RunCalls(calls).Some? && RunCalls(calls).value.ok
    ensures forall i {:trigger Pairs(calls)[i]} :: 0 <= i < |Pairs(calls)| ==>
              var p := Pairs(calls)[i];
              p.left.Lit? && p.right.Lit? ==> Compatible(p.left.lit, p.right.lit)
  {
    if calls != [] {
      LiteralPairs(calls[..|calls| - 1]);
    }
  }

  lemma {:induction false} MergePairs(calls: seq<Call>)
    ensures |Pairs(MergeCalls(calls))| == |Pairs(calls)|
    ensures forall i {:trigger Pairs(calls)[i]} :: 0 <= i < |Pairs(calls)| ==>
              Pairs(MergeCalls(calls))[i] == Pair(MergeType(Pairs(calls)[i].left), MergeType(Pairs(calls)[i].right))
  {
    if calls != [] {
      var n := |calls| - 1;
      MergePairs(calls[..n]);
      assert MergeCalls(calls)[..n] == MergeCalls(calls[..n]);
    }
  }

  /** Success always means that a solution exists, names or not. */
  lemma SuccessIsSolvable(calls: seq<Call>)
    requires RunCalls(calls).Some? && RunCalls(calls).value.ok
    ensures exists a: Assignment :: Solves(a, Pairs(calls))
  {
    MergeRun(calls);
    SucceedsIffSolvable(MergeCalls(calls));
    var a: Assignment :| AllNamed(a) && Solves(a, Pairs(MergeCalls(calls)));
    var b: Assignment := v => a(v).(name := None);
    MergePairs(calls);
    LiteralPairs(calls);
    hide Pairs;
    hide RunCalls;
    forall i {:trigger Pairs(calls)[i]} | 0 <= i < |Pairs(calls)|
      ensures Agrees(b, Pairs(calls)[i])
    {
      assert Agrees(a, Pairs(MergeCalls(calls))[i]);
    }
    assert Solves(b, Pairs(calls));
  }

  // ---- when success is solvability by any literals ----

  /** The property a caller hopes for: all unifications succeed exactly when
      some assignment, of unnamed opaque types as well, makes every pair agree. */
  ghost predicate Complete(calls: seq<Call>) {
    RunCalls(calls).Some? ==>
      (RunCalls(calls).value.ok <==> exists a: Assignment :: Solves(a, Pairs(calls)))
  }

  /** The names of the opaque types in a type, a call, a sequence of calls. */
  function NameOf(ty: Option<Type>): set<string> {
    if ty.Some? && ty.value.Lit? && ty.value.lit.kind == Opaque && ty.value.lit.name.Some? then {ty.value.lit.name.value}
    else {}
  }

  function CallNames(c: Call): set<string> {
    if c.UnifyCall? then NameOf(c.a) + NameOf(c.b) else {}
  }

  function Names(calls: seq<Call>): set<string> {
    if calls == [] then {} else Names(calls[..|calls| - 1]) + CallNames(calls[|calls| - 1])
  }

  predicate TableUses(t: Table, name: string) {
    forall v {:trigger t.bindings[v]} :: 0 <= v < |t.bindings| ==> NameOf(t.bindings[v]) <= {name}
  }

  lemma {:induction false} ResolveUses(t: Table, ty: Type, name: string)
    requires Valid(t) && TableUses(t, name) && NameOf(Some(ty)) <= {name}
    ensures NameOf(Some(Resolve(t, ty))) <= {name}
    decreases if IsVar(t, ty) then t.clock - BoundAt(t, ty.id) + 1 else 0
  {
    if IsVar(t, ty) && t.bindings[ty.id].Some? {
      assert BindingOk(t, ty.id);
      ResolveUses(t, t.bindings[ty.id].value, name);
    }
  }

  lemma MergeCompatible(x: Literal, y: Literal, name: string)
    requires NameOf(Some(Lit(x))) <= {name} && NameOf(Some(Lit(y))) <= {name}
    ensures Compatible(Merge(x), Merge(y)) <==> Compatible(x, y)
  {
    if x.kind == Opaque && y.kind == Opaque && x.name.Some? && y.name.Some? {
      assert x.name.value in NameOf(Some(Lit(x))) && y.name.value in NameOf(Some(Lit(y)));
    }
  }

  /** With a single name, merging names changes no answer. */
  lemma OneNameUnify(t: Table, a: Option<Type>, b: Option<Type>, name: string)
    requires Valid(t) && Valid(MergeTable(t)) && TableUses(t, name)
    requires NameOf(a) <= {name} && NameOf(b) <= {name}
    ensures UnifyTypes(MergeTable(t), MergeOption(a), MergeOption(b)).ok ==> UnifyTypes(t, a, b).ok
    ensures TableUses(UnifyTypes(t, a, b).t, name)
  {
    if a.Some? && b.Some? {
      MergeResolve(t, a.value);
      MergeResolve(t, b.value);
      ResolveUses(t, a.value, name);
      ResolveUses(t, b.value, name);
      var x, y := Resolve(t, a.value), Resolve(t, b.value);
      hide Resolve;
      hide Valid;
      if x.Lit? && y.Lit? {
        MergeCompatible(x.lit, y.lit, name);
        MergeCompatible(x.lit, x.lit, name);
        hide Compatible;
        hide NameOf;
      }
    }
  }

  lemma {:induction false} OneNameRun(calls: seq<Call>, name: string)
    requires RunCalls(calls).Some? && RunCalls(MergeCalls(calls)).Some? && Names(calls) <= {name}
    ensures TableUses(RunCalls(calls).value.t, name)
    ensures RunCalls(MergeCalls(calls)).value.ok ==> RunCalls(calls).value.ok
  {
    hide Valid;
    hide Resolve;
    if calls != [] {
      var n := |calls| - 1;
      MergeRun(calls[..n]);
      assert MergeCalls(calls)[..n] == MergeCalls(calls[..n]);
      OneNameRun(calls[..n], name);
      var s := RunCalls(calls[..n]).value;
      MergeValid(s.t);
      if calls[n].UnifyCall? {
        hide UnifyTypes;
        OneNameUnify(s.t, calls[n].a, calls[n].b, name);
      }
    }
  }

  function MergeAssignment(a: Assignment): (b: Assignment)
    ensures forall v: int {:trigger b(v)} :: b(v) == Merge(a(v))
  {
    (v: int) => Merge(a(v))
  }

  /** Merging the names of a solution and of the pairs keeps it a solution. */
  lemma MergeSolves(calls: seq<Call>, a: Assignment)
    requires Solves(a, Pairs(calls))
    ensures Solves(MergeAssignment(a), Pairs(MergeCalls(calls))) && AllNamed(MergeAssignment(a))
  {
    MergePairs(calls);
    hide Pairs;
    var b := MergeAssignment(a);
    var m := Pairs(MergeCalls(calls));
    forall i {:trigger m[i]} | 0 <= i < |m|
      ensures Agrees(b, m[i])
    {
      var p := Pairs(calls)[i];
      assert Agrees(a, p);
      assert Value(b, m[i].left) == Merge(Value(a, p.left)) && Value(b, m[i].right) == Merge(Value(a, p.right));
    }
  }

  lemma OneNameComplete(calls: seq<Call>, name: string)
    requires Names(calls) <= {name}
    ensures Complete(calls)
  {
    if RunCalls(calls).Some? {
      MergeRun(calls);
      OneNameRun(calls, name);
      SucceedsIffSolvable(MergeCalls(calls));
      hide RunCalls;
      hide Pairs;
      if RunCalls(calls).value.ok {
        SuccessIsSolvable(calls);
      }
      forall a: Assignment | Solves(a, Pairs(calls))
        ensures RunCalls(calls).value.ok
      {
        MergeSolves(calls, a);
      }
    }
  }

  function OpaqueType(name: Option<string>): Option<Type> {
    Some(Lit(Literal(Opaque, name)))
  }

  /** A fresh variable unified with opaque types in turn. */
  function Meets(names: seq<Option<string>>): seq<Call> {
    if names == [] then [FreshVar]
    else Meets(names[..|names| - 1]) + [UnifyCall(Some(Var(0)), OpaqueType(names[|names| - 1]))]
  }

  lemma OneMoreCall(calls: seq<Call>, c: Call)
    ensures Names(calls + [c]) == Names(calls) + CallNames(c)
    ensures c.UnifyCall? && c.a.Some? && c.b.Some? ==> Pairs(calls + [c]) == Pairs(calls) + [Pair(c.a.value, c.b.value)]
    ensures RunCalls(calls).Some? && CallOk(RunCalls(calls).value.t, c) ==>
            RunCalls(calls + [c]) == Some(Step(RunCalls(calls).value, c))
  {
    assert (calls + [c])[..|calls|] == calls;
    hide Step;
    hide Valid;
  }

  predicate Meet(first: Option<string>, next: Option<string>) {
    first.None? || next.None? || next == first
  }

  predicate AllMeet(names: seq<Option<string>>) {
    forall i {:trigger names[i]} :: 0 < i < |names| ==> Meet(names[0], names[i])
  }

  /** A variable takes the first opaque type; later ones are compared with it. */
  lemma MeetOpaque(t: Table, first: Option<string>, next: Option<string>)
    requires Valid(t) && |t.bindings| == 1
    ensures t.bindings[0] == None ==>
              var r := UnifyTypes(t, Some(Var(0)), OpaqueType(next));
              r.ok && |r.t.bindings| == 1 && r.t.bindings[0] == OpaqueType(next)
    ensures t.bindings[0] == OpaqueType(first) ==>
              UnifyTypes(t, Some(Var(0)), OpaqueType(next)) == Unified(t, Meet(first, next))
  {
    assert BindingOk(t, 0);
    if t.bindings[0] == OpaqueType(first) {
      assert Resolve(t, Var(0)) == OpaqueType(first).value;
    }
  }

  lemma OneMoreMeets(names: seq<Option<string>>)
    requires |names| > 1
    ensures AllMeet(names) <==> AllMeet(names[..|names| - 1]) && Meet(names[0], names[|names| - 1])
  {
    hide Meet;
    var n := |names| - 1;
    assert forall i {:trigger names[i]} {:trigger names[..n][i]} :: 0 <= i < n ==> names[..n][i] == names[i];
  }

  lemma {:induction false} MeetsRuns(names: seq<Option<string>>)
    ensures RunCalls(Meets(names)).Some?
    ensures var s := RunCalls(Meets(names)).value;
            && |s.t.bindings| == 1 && (s.ok <==> AllMeet(names))
            && s.t.bindings[0] == (if names == [] then None else OpaqueType(names[0]))
  {
    hide Meet;
    hide UnifyTypes;
    hide Valid;
    if names == [] {
      OneMoreCall([], FreshVar);
      assert [] + [FreshVar] == Meets([]);
    } else {
      var n := |names| - 1;
      MeetsRuns(names[..n]);
      OneMoreCall(Meets(names[..n]), UnifyCall(Some(Var(0)), OpaqueType(names[n])));
      var s := RunCalls(Meets(names[..n])).value;
      hide RunCalls;
      MeetOpaque(s.t, names[0], names[n]);
      if n > 0 {
        OneMoreMeets(names);
        hide AllMeet;
      }
    }
  }

  predicate OpaqueMeeting(p: Pair) {
    p.left == Var(0) && p.right.Lit? && p.right.lit.kind == Opaque
  }

  lemma {:induction false} MeetsPairs(names: seq<Option<string>>)
    ensures forall p <- Pairs(Meets(names)) :: OpaqueMeeting(p)
  {
    if names == [] {
      OneMoreCall([], FreshVar);
      assert [] + [FreshVar] == Meets([]);
    } else {
      var n := |names| - 1;
      MeetsPairs(names[..n]);
      OneMoreCall(Meets(names[..n]), UnifyCall(Some(Var(0)), OpaqueType(names[n])));
      hide Pairs;
      hide Names;
    }
  }

  lemma MeetsNames(x: string, y: string)
    ensures Names(Meets([Some(x), Some(y)])) == {x, y}
  {
    var first := UnifyCall(Some(Var(0)), OpaqueType(Some(x)));
    var second := UnifyCall(Some(Var(0)), OpaqueType(Some(y)));
    OneMoreCall([], FreshVar);
    OneMoreCall([FreshVar], first);
    OneMoreCall([FreshVar] + [first], second);
    assert [] + [FreshVar] == [FreshVar] == Meets([]);
    assert [Some(x), Some(y)][..1] == [Some(x)] && [Some(x)][..0] == [];
    assert CallNames(first) == {x} && CallNames(second) == {y};
    hide CallNames;
    hide Names;
  }

  /** An opaque type without a name goes with all of them. */
  lemma MeetsSolvable(names: seq<Option<string>>)
    ensures exists a: Assignment :: Solves(a, Pairs(Meets(names)))
  {
    MeetsPairs(names);
    var a: Assignment := _ => Literal(Opaque, None);
    hide Pairs;
    hide Meets;
    var pairs := Pairs(Meets(names));
    forall i {:trigger pairs[i]} | 0 <= i < |pairs|
      ensures Agrees(a, pairs[i])
    {
      assert OpaqueMeeting(pairs[i]);
    }
    assert Solves(a, pairs);
  }

  lemma TwoNamesRefused(x: string, y: string)
    requires x != y
    ensures Names(Meets([Some(x), Some(y)])) == {x, y} && !Complete(Meets([Some(x), Some(y)]))
  {
    var names := [Some(x), Some(y)];
    MeetsRuns(names);
    MeetsNames(x, y);
    MeetsSolvable(names);
    assert names[1] != names[0];
    hide RunCalls;
    hide Pairs;
    hide Names;
  }

  /** MAIN RESULT. Success is solvability by any literals, for all sequences of
      calls over a set of opaque names, if and only if there is at most one
      name; calls with unnamed opaque types are among them. */
  lemma CompleteIffOneName(names: set<string>)
    ensures (forall calls :: Names(calls) <= names ==> Complete(calls)) <==> |names| <= 1
  {
    if |names| <= 1 {
      var name := "";
      if names != {} {
        name :| name in names;
        assert |names - {name}| == 0;
      }
      forall calls | Names(calls) <= names
        ensures Complete(calls)
      {
        OneNameComplete(calls, name);
      }
    } else {
      var x :| x in names;
      assert |names - {x}| > 0;
      var y :| y in names - {x};
      TwoNamesRefused(x, y);
    }
  }

  /** With two names the order of the calls decides: an opaque type without a
      name that comes first makes all succeed, one that comes second does not. */
  lemma UnnamedOrderMatters(x: string, y: string)
    requires x != y
    ensures var calls := Meets([None, Some(x), Some(y)]); RunCalls(calls).Some? && RunCalls(calls).value.ok
    ensures var calls := Meets([Some(x), None, Some(y)]);
            && RunCalls(calls).Some? && !RunCalls(calls).value.ok
            && exists a: Assignment :: Solves(a, Pairs(calls))
  {
    MeetsRuns([None, Some(x), Some(y)]);
    MeetsRuns([Some(x), None, Some(y)]);
    assert [Some(x), None, Some(y)][2] != [Some(x), None, Some(y)][0];
    MeetsSolvable([Some(x), None, Some(y)]);
  }
}
