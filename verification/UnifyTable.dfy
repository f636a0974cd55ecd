/** The unification table as an object: an array of bindings filled in place
    and a loop that follows them. */
module UnifyTable {
  import opened Unify
  import opened Wrappers

  class LcnUnifyTable {
    const bindings: array<Option<Type>>
    var count: nat
    ghost var time: seq<nat>
    ghost var clock: nat

    constructor ()
      ensures Consistent() && fresh(bindings) && Model() == Empty
    {
      bindings := new Option<Type>[MAX_VARS](_ => None);
      count, time, clock := 0, [], 0;
    }

    ghost function Model(): Table
      reads this, bindings
      requires count <= bindings.Length
    {
      Table(bindings[..count], time, clock)
    }

    ghost predicate Consistent()
      reads this, bindings
    {
      bindings.Length == MAX_VARS && count <= bindings.Length && Valid(Model())
    }

    /** A new variable, or nothing when the table is full. */
    method FreshVar() returns (v: Option<Type>)
      requires Consistent()
      modifies this, bindings
      ensures Consistent() && Model() == Fresh(old(Model()))
      ensures v == if old(count) < MAX_VARS then Some(Var(old(count))) else None
    {
      FreshValid(Model());
      if count >= MAX_VARS {
        return None;
      }
      bindings[count] := None;
      v := Some(Var(count));
      count := count + 1;
      time := time + [0];
      assert Model() == Fresh(old(Model()));
    }

    /** Follow bindings to the end of the chain. */
    method ResolveType(ty: Type) returns (r: Type)
      requires Consistent()
      ensures r == Resolve(Model(), ty)
    {
      r := ty;
      while r.Var? && 0 <= r.id < count && bindings[r.id].Some?
        invariant Resolve(Model(), r) == Resolve(Model(), ty)
        decreases if IsVar(Model(), r) then clock - BoundAt(Model(), r.id) + 1 else 0
      {
        assert BindingOk(Model(), r.id);
        assert Model().bindings[r.id] == bindings[r.id];
        r := bindings[r.id].value;
      }
    }

    method BindVar(v: int, ty: Type)
      requires Consistent() && 0 <= v < count && bindings[v].None? && Scoped(Model(), ty)
      requires ty.Var? ==> ty.id != v && bindings[ty.id].None?
      modifies this, bindings
      ensures Consistent() && count == old(count) && Model() == Bind(old(Model()), v, ty)
    {
      BindValid(Model(), v, ty);
      bindings[v] := Some(ty);
      time := time[v := clock];
      clock := clock + 1;
      assert Model() == Bind(old(Model()), v, ty);
    }

    /** Make two types equal if they can be; a refusal changes nothing. */
    method UnifyWith(a: Option<Type>, b: Option<Type>) returns (ok: bool)
      requires Consistent()
      requires (a.Some? ==> Scoped(Model(), a.value)) && (b.Some? ==> Scoped(Model(), b.value))
      modifies this, bindings
      ensures Consistent() && Unified(Model(), ok) == UnifyTypes(old(Model()), a, b)
    {
      if a.None? || b.None? {
        return true;
      }
      var x := ResolveType(a.value);
      var y := ResolveType(b.value);
      hide Valid;
      hide Resolve;
      if x == y {
        return true;
      }
      if x.Var? {
        if 0 <= x.id < count {
          BindVar(x.id, y);
        }
        return true;
      }
      if y.Var? {
        if 0 <= y.id < count {
          BindVar(y.id, x);
        }
        return true;
      }
      ok := LiteralsMatch(x.lit, y.lit);
    }

    method LiteralsMatch(x: Literal, y: Literal) returns (ok: bool)
      ensures ok == Compatible(x, y)
    {
      if x.kind == y.kind {
        if x.kind == Opaque {
          if x.name.None? || y.name.None? {
            return true;
          }
          return x.name == y.name;
        }
        return true;
      }
      if x.kind == Int && y.kind == Float {
        return true;
      }
      if x.kind == Float && y.kind == Int {
        return true;
      }
      return false;
    }
  }
}
