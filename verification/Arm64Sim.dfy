/** Simulation of one instruction: registers, spill slots and alloca slots hold
    what the SSA values and cells hold. */
module Arm64Sim {
  import opened Ir
  import opened Arm64
  import opened Arm64Alloc
  import opened Arm64Scan
  import opened Arm64Emit
  import opened Arm64Flow

  // ---- what allocation and layout provide ----

  /** A temporary register, or a slot of its own in the spill area. */
  predicate RangeHomed(r: LiveRange) {
    || (9 <= r.reg <= 15 && r.spill == -1)
    || (r.reg == -1 && r.spill <= -16 && r.spill % 8 == 0)
  }

  /** The value defined by instruction p has a range that starts there. */
  predicate DefOk(ctx: Ctx, insts: seq<Inst>, p: nat)
    requires p < |insts|
  {
    var id := insts[p].Result();
    id >= 0 ==>
      var k := IndexOf(ctx.ranges, id);
      && ParamReg(ctx.params, id, 0) == -1
      && k >= 0 && ctx.ranges[k].first == p <= ctx.ranges[k].last
      && (insts[p].Alloca? <==> FindSlot(ctx.allocas, id) >= 0)
  }

  /** The values instruction p uses are alive at p. */
  predicate UseOk(ctx: Ctx, insts: seq<Inst>, p: nat, id: int)
    requires p < |insts|
  {
    id >= 0 && id in Uses(insts[p]) ==>
      var k := IndexOf(ctx.ranges, id);
      k >= 0 ==> ctx.ranges[k].last >= p
  }

  predicate SlotOk(ctx: Ctx, a: nat)
    requires a < |ctx.allocas|
  {
    && -100000 <= ctx.allocas[a].off <= -16 && ctx.allocas[a].off % 8 == 0
    && (forall k :: 0 <= k < |ctx.ranges| && ctx.ranges[k].reg < 0 ==> ctx.allocas[a].off <= ctx.ranges[k].spill - 8)
    && (forall b :: 0 <= b < a ==> ctx.allocas[a].off <= ctx.allocas[b].off - 8)
  }

  ghost predicate Good(ctx: Ctx, insts: seq<Inst>) {
    && |ctx.params| <= MAX_REG_PARAMS
    && UniqueIds(ctx.ranges)
    && (forall k :: 0 <= k < |ctx.ranges| ==> RangeHomed(ctx.ranges[k]))
    && (forall i, j :: 0 <= i < j < |ctx.ranges| ==> Apart(ctx.ranges[i], ctx.ranges[j]))
    && (forall p {:trigger DefOk(ctx, insts, p)} :: 0 <= p < |insts| ==> DefOk(ctx, insts, p))
    && (forall p, id {:trigger UseOk(ctx, insts, p, id)} :: 0 <= p < |insts| ==> UseOk(ctx, insts, p, id))
    && (forall a {:trigger SlotOk(ctx, a)} :: 0 <= a < |ctx.allocas| ==> SlotOk(ctx, a))
  }

  /** Frame addresses stay far from the ends of the address space. */
  predicate FrameFits(fp: int64) {
    -0x4000_0000_0000_0000 <= fp < 0x4000_0000_0000_0000
  }

  // ---- representation ----

  /** `home` says which alloca a cell belongs to. */
  type Homes = map<nat, int>

  function SlotAddress(ctx: Ctx, fp: int, id: int): int
    requires FindSlot(ctx.allocas, id) >= 0
  {
    fp + ctx.allocas[FindSlot(ctx.allocas, id)].off
  }

  function Rep(ctx: Ctx, fp: int64, home: Homes, v: Val): int64 {
    match v
    case IntVal(n) => n
    case BoolVal(b) => Bit(b)
    case PtrVal(c) =>
      if c in home && FindSlot(ctx.allocas, home[c]) >= 0 then Wrap64(SlotAddress(ctx, fp, home[c])) else 0
  }

  predicate Valid(home: Homes, v: Val) {
    v.PtrVal? ==> v.cell in home
  }

  /** The home `h` contains x. */
  predicate Holds(m: Machine, fp: int, h: Home, x: int64) {
    match h
    case InReg(r) => r < |m.regs| && m.regs[r] == x
    case InSlot(off) => fp + off in m.mem && m.mem[fp + off] == x
    case Nowhere => false
  }

  /** Value `id` is where it is looked for, unless it is stale; an alloca is the
      pointer to the cell that has its slot now. */
  predicate ValOk(ctx: Ctx, fp: int64, home: Homes, at: Facts, m: Machine, id: int, v: Val) {
    && id >= 0 && id in at.defined
    && (ParamReg(ctx.params, id, 0) >= 0 ==>
          !v.PtrVal? && FindSlot(ctx.allocas, id) < 0 && Holds(m, fp, SourceOf(ctx, id), Rep(ctx, fp, home, v)))
    && (ParamReg(ctx.params, id, 0) < 0 ==>
          var k := IndexOf(ctx.ranges, id);
          k >= 0 && (id !in at.stale ==> Valid(home, v) && Holds(m, fp, HomeOfRange(ctx.ranges[k]), Rep(ctx, fp, home, v))))
    && (FindSlot(ctx.allocas, id) >= 0 ==> v.PtrVal? && v.cell in home && home[v.cell] == id)
    && (v.PtrVal? && !at.escaped ==> FindSlot(ctx.allocas, id) >= 0)
  }

  /** Cell c is in its slot, unless the slot has gone to a later cell. */
  predicate CellOk(ctx: Ctx, fp: int64, home: Homes, at: Facts, next: nat, m: Machine, c: nat, v: Val) {
    && c < next && (v.PtrVal? ==> at.escaped)
    && (c in home ==>
          && Valid(home, v) && FindSlot(ctx.allocas, home[c]) >= 0
          && Holds(m, fp, InSlot(ctx.allocas[FindSlot(ctx.allocas, home[c])].off), Rep(ctx, fp, home, v)))
  }

  /** The alloca of cell c may have been executed. */
  predicate HomeOk(ctx: Ctx, home: Homes, at: Facts, next: nat, c: nat)
    requires c in home
  {
    c < next && FindSlot(ctx.allocas, home[c]) >= 0 && home[c] in at.defined
  }

  predicate Rel(ctx: Ctx, fp: int64, home: Homes, at: Facts, s: State, m: Machine) {
    && WellFormed(m)
    && (forall id {:trigger s.env[id]} :: id in s.env ==> ValOk(ctx, fp, home, at, m, id, s.env[id]))
    && (forall c {:trigger s.cells[c]} :: c in s.cells ==> CellOk(ctx, fp, home, at, s.next, m, c, s.cells[c]))
    && (forall c {:trigger HomeOk(ctx, home, at, s.next, c)} :: c in home ==> HomeOk(ctx, home, at, s.next, c))
    && (forall c, d :: c in home && d in home && c != d ==> home[c] != home[d])
  }

  /** Less may be known. */
  lemma RelWeaken(ctx: Ctx, fp: int64, home: Homes, at: Facts, at': Facts, s: State, m: Machine)
    requires Rel(ctx, fp, home, at, s, m) && Leq(at, at')
    ensures Rel(ctx, fp, home, at', s, m)
  {
    forall c {:trigger HomeOk(ctx, home, at', s.next, c)} | c in home
      ensures HomeOk(ctx, home, at', s.next, c)
    {
      assert HomeOk(ctx, home, at, s.next, c);
    }
  }

  // ---- frames ----

  /** Only scratch registers and flags may differ. */
  predicate ScratchOnly(m: Machine, m': Machine) {
    && WellFormed(m) && WellFormed(m') && m'.mem == m.mem
    && (forall r :: 0 <= r < 16 ==> m'.regs[r] == m.regs[r])
  }

  /** Only scratch registers, flags and the home `t` may differ. */
  predicate Touches(m: Machine, m': Machine, fp: int, t: Home) {
    && WellFormed(m) && WellFormed(m')
    && (forall r :: 0 <= r < 16 && t != InReg(r) ==> m'.regs[r] == m.regs[r])
    && (if t.InSlot?
        then forall a :: a in m.mem && (a + 8 <= fp + t.off || fp + t.off + 8 <= a) ==> a in m'.mem && m'.mem[a] == m.mem[a]
        else m'.mem == m.mem)
  }

  lemma HoldsElsewhere(m: Machine, m': Machine, fp: int, t: Home, h: Home, x: int64)
    requires Touches(m, m', fp, t) && Holds(m, fp, h, x)
    requires h.InReg? ==> h.r < 16 && h != t
    requires h.InSlot? && t.InSlot? ==> h.off + 8 <= t.off || t.off + 8 <= h.off
    ensures Holds(m', fp, h, x)
  {
  }

  /** Homes of values that do not share a register are apart. */
  lemma HomesApart(ctx: Ctx, insts: seq<Inst>, i: nat, j: nat)
    requires Good(ctx, insts) && i < |ctx.ranges| && j < |ctx.ranges| && i != j
    requires ctx.ranges[i].reg < 0 || ctx.ranges[i].reg != ctx.ranges[j].reg
    ensures var a, b := HomeOfRange(ctx.ranges[i]), HomeOfRange(ctx.ranges[j]);
            && (a.InReg? ==> 9 <= a.r <= 15 && a != b)
            && (a.InSlot? && b.InSlot? ==> a.off + 8 <= b.off || b.off + 8 <= a.off)
  {
    assert RangeHomed(ctx.ranges[i]) && RangeHomed(ctx.ranges[j]);
    if i < j {
      assert Apart(ctx.ranges[i], ctx.ranges[j]);
    } else {
      assert Apart(ctx.ranges[j], ctx.ranges[i]);
    }
  }

  /** After an instruction wrote only the home of its own result x, every other
      value keeps its home unless it becomes stale. */
  lemma ValKept(ctx: Ctx, insts: seq<Inst>, fp: int64, home: Homes, at: Facts, m: Machine, m': Machine,
                inst: Inst, id: int, v: Val)
    requires Good(ctx, insts) && inst.Result() >= 0 && IndexOf(ctx.ranges, inst.Result()) >= 0 && id != inst.Result()
    requires Touches(m, m', fp, HomeOfRange(ctx.ranges[IndexOf(ctx.ranges, inst.Result())]))
    requires ValOk(ctx, fp, home, at, m, id, v)
    ensures ValOk(ctx, fp, home, AfterInst(ctx, at, inst), m', id, v)
  {
    var k := IndexOf(ctx.ranges, inst.Result());
    var t := HomeOfRange(ctx.ranges[k]);
    assert RangeHomed(ctx.ranges[k]);
    var x := Rep(ctx, fp, home, v);
    if ParamReg(ctx.params, id, 0) >= 0 {
      HoldsElsewhere(m, m', fp, t, SourceOf(ctx, id), x);
    } else {
      var j := IndexOf(ctx.ranges, id);
      if id !in AfterInst(ctx, at, inst).stale {
        HomesApart(ctx, insts, j, k);
        HoldsElsewhere(m, m', fp, t, HomeOfRange(ctx.ranges[j]), x);
      }
    }
  }

  lemma CellKept(ctx: Ctx, insts: seq<Inst>, fp: int64, home: Homes, at: Facts, next: nat, m: Machine, m': Machine,
                 inst: Inst, c: nat, v: Val)
    requires Good(ctx, insts) && inst.Result() >= 0 && IndexOf(ctx.ranges, inst.Result()) >= 0
    requires Touches(m, m', fp, HomeOfRange(ctx.ranges[IndexOf(ctx.ranges, inst.Result())]))
    requires CellOk(ctx, fp, home, at, next, m, c, v)
    ensures CellOk(ctx, fp, home, AfterInst(ctx, at, inst), next, m', c, v)
  {
    if c in home {
      var a := FindSlot(ctx.allocas, home[c]);
      assert SlotOk(ctx, a);
      var k := IndexOf(ctx.ranges, inst.Result());
      HoldsElsewhere(m, m', fp, HomeOfRange(ctx.ranges[k]), InSlot(ctx.allocas[a].off), Rep(ctx, fp, home, v));
    }
  }

  /** Instruction p defined `id` as v and wrote nothing else of importance. */
  lemma AfterDef(ctx: Ctx, insts: seq<Inst>, fp: int64, home: Homes, p: nat, at: Facts, s: State, m: Machine, m': Machine, v: Val)
    requires Good(ctx, insts) && p < |insts| && insts[p].Result() >= 0 && !insts[p].Alloca?
    requires Rel(ctx, fp, home, at, s, m) && Valid(home, v) && (v.PtrVal? ==> at.escaped)
    requires var t := TargetOf(ctx, insts[p].Result());
             Touches(m, m', fp, t) && Holds(m', fp, t, Rep(ctx, fp, home, v))
    ensures Rel(ctx, fp, home, AfterInst(ctx, at, insts[p]), Define(s, insts[p].Result(), v), m')
  {
    var id := insts[p].Result();
    assert DefOk(ctx, insts, p);
    var k := IndexOf(ctx.ranges, id);
    var s' := Define(s, id, v);
    hide TargetOf;
    hide Good;
    assert TargetOf(ctx, id) == HomeOfRange(ctx.ranges[k]) by { TargetIs(ctx, id, k); }
    forall i {:trigger s'.env[i]} | i in s'.env
      ensures ValOk(ctx, fp, home, AfterInst(ctx, at, insts[p]), m', i, s'.env[i])
    {
      if i != id {
        assert ValOk(ctx, fp, home, at, m, i, s.env[i]);
        ValKept(ctx, insts, fp, home, at, m, m', insts[p], i, s.env[i]);
      }
    }
    forall c {:trigger s'.cells[c]} | c in s'.cells
      ensures CellOk(ctx, fp, home, AfterInst(ctx, at, insts[p]), s'.next, m', c, s'.cells[c])
    {
      CellKept(ctx, insts, fp, home, at, s.next, m, m', insts[p], c, s.cells[c]);
    }
    forall c {:trigger HomeOk(ctx, home, AfterInst(ctx, at, insts[p]), s'.next, c)} | c in home
      ensures HomeOk(ctx, home, AfterInst(ctx, at, insts[p]), s'.next, c)
    {
      assert HomeOk(ctx, home, at, s.next, c);
    }
  }

  lemma TargetIs(ctx: Ctx, id: int, k: nat)
    requires k == IndexOf(ctx.ranges, id)
    ensures TargetOf(ctx, id) == HomeOfRange(ctx.ranges[k])
  {
  }

  // ---- a slot gets a new cell ----

  /** `home'` gives the slot of alloca x to the cell `c`; whoever had it is out. */
  function Rehome(home: Homes, x: int, c: nat): Homes {
    (map d | d in home && home[d] != x :: home[d])[c := x]
  }

  /** A value that does not point to the slot of x stands for the same. */
  lemma RepMoves(ctx: Ctx, fp: int64, home: Homes, x: int, c: nat, v: Val)
    requires Valid(home, v) && c !in home && (v.PtrVal? ==> home[v.cell] != x)
    ensures Valid(Rehome(home, x, c), v) && Rep(ctx, fp, Rehome(home, x, c), v) == Rep(ctx, fp, home, v)
  {
  }

  /** A pointer other than an alloca means that pointers have been stored, and
      then x is executed for the first time. */
  lemma ValMoves(ctx: Ctx, fp: int64, home: Homes, at: Facts, x: int, c: nat, m: Machine, id: int, v: Val)
    requires ValOk(ctx, fp, home, at, m, id, v) && id != x && c !in home
    requires at.escaped ==> forall d <- home :: home[d] != x
    ensures ValOk(ctx, fp, Rehome(home, x, c), at, m, id, v)
  {
    if Valid(home, v) && (v.PtrVal? ==> home[v.cell] != x) {
      RepMoves(ctx, fp, home, x, c, v);
    }
  }

  lemma CellMoves(ctx: Ctx, fp: int64, home: Homes, at: Facts, next: nat, x: int, m: Machine, c: nat, v: Val)
    requires CellOk(ctx, fp, home, at, next, m, c, v) && next !in home
    requires at.escaped ==> forall d <- home :: home[d] != x
    ensures CellOk(ctx, fp, Rehome(home, x, next), at, next + 1, m, c, v)
  {
    if c in home {
      RepMoves(ctx, fp, home, x, next, v);
    }
  }

  lemma FirstTime(ctx: Ctx, fp: int64, home: Homes, at: Facts, s: State, m: Machine, inst: Inst)
    requires Rel(ctx, fp, home, at, s, m) && inst.Alloca? && Ready(ctx, at, inst)
    ensures at.escaped ==> forall d <- home :: home[d] != inst.id
  {
    forall d <- home
      ensures home[d] in at.defined
    {
      assert HomeOk(ctx, home, at, s.next, d);
    }
  }

  /** The result of the alloca at p is the address of its slot. */
  lemma AllocaDefined(ctx: Ctx, insts: seq<Inst>, fp: int64, home: Homes, p: nat, at: Facts, m: Machine, c: nat)
    requires Good(ctx, insts) && p < |insts| && insts[p].Alloca? && insts[p].id >= 0
    requires var t := TargetOf(ctx, insts[p].id);
             FindSlot(ctx.allocas, insts[p].id) >= 0 && Holds(m, fp, t, Wrap64(SlotAddress(ctx, fp, insts[p].id)))
    ensures ValOk(ctx, fp, Rehome(home, insts[p].id, c), AfterInst(ctx, at, insts[p]), m, insts[p].id, PtrVal(c))
  {
    assert insts[p].Result() == insts[p].id;
    assert DefOk(ctx, insts, p);
    TargetIs(ctx, insts[p].id, IndexOf(ctx.ranges, insts[p].id));
    hide TargetOf;
    hide Good;
    hide HomeOfRange;
    hide SlotAddress;
    hide Wrap64;
  }

  lemma RehomedOk(ctx: Ctx, insts: seq<Inst>, fp: int64, home: Homes, at: Facts, s: State, m: Machine, inst: Inst)
    requires Rel(ctx, fp, home, at, s, m) && inst.Alloca? && inst.id >= 0 && FindSlot(ctx.allocas, inst.id) >= 0
    ensures var home' := Rehome(home, inst.id, s.next);
            && (forall c, d :: c in home' && d in home' && c != d ==> home'[c] != home'[d])
            && (forall c <- home' :: HomeOk(ctx, home', AfterInst(ctx, at, inst), s.next + 1, c))
  {
    var home' := Rehome(home, inst.id, s.next);
    assert inst.Result() == inst.id;
    forall c <- home'
      ensures HomeOk(ctx, home', AfterInst(ctx, at, inst), s.next + 1, c)
    {
      if c != s.next {
        assert HomeOk(ctx, home, at, s.next, c);
      }
    }
  }

  lemma TargetOfDef(ctx: Ctx, insts: seq<Inst>, p: nat)
    requires Good(ctx, insts) && p < |insts| && insts[p].Result() >= 0
    ensures var k := IndexOf(ctx.ranges, insts[p].Result());
            k >= 0 && TargetOf(ctx, insts[p].Result()) == HomeOfRange(ctx.ranges[k])
  {
    assert DefOk(ctx, insts, p);
    TargetIs(ctx, insts[p].Result(), IndexOf(ctx.ranges, insts[p].Result()));
  }

  /** The alloca at p gives its slot to a new cell. */
  lemma AfterAlloca(ctx: Ctx, insts: seq<Inst>, fp: int64, home: Homes, p: nat, at: Facts, s: State, m: Machine,
                    m': Machine) returns (home': Homes)
    requires Good(ctx, insts) && p < |insts| && insts[p].Alloca? && insts[p].id >= 0 && Ready(ctx, at, insts[p])
    requires Rel(ctx, fp, home, at, s, m)
    requires var t := TargetOf(ctx, insts[p].id);
             Touches(m, m', fp, t) && FindSlot(ctx.allocas, insts[p].id) >= 0 &&
             Holds(m', fp, t, Wrap64(SlotAddress(ctx, fp, insts[p].id)))
    requires forall c <- home :: c < s.next
    ensures Rel(ctx, fp, home', AfterInst(ctx, at, insts[p]),
                Define(s, insts[p].id, PtrVal(s.next)).(next := s.next + 1), m')
  {
    var id := insts[p].id;
    assert insts[p].Result() == id;
    home' := Rehome(home, id, s.next);
    var s' := Define(s, id, PtrVal(s.next)).(next := s.next + 1);
    var at' := AfterInst(ctx, at, insts[p]);
    assert at'.escaped == at.escaped;
    TargetOfDef(ctx, insts, p);
    hide Good;
    hide TargetOf;
    hide HomeOfRange;
    hide ValOk;
    hide CellOk;
    hide Holds;
    hide AfterInst;
    hide Ready;
    hide Rehome;
    hide SlotAddress;
    FirstTime(ctx, fp, home, at, s, m, insts[p]);
    AllocaDefined(ctx, insts, fp, home, p, at, m', s.next);
    RehomedOk(ctx, insts, fp, home, at, s, m, insts[p]);
    forall i {:trigger s'.env[i]} | i in s'.env
      ensures ValOk(ctx, fp, home', at', m', i, s'.env[i])
    {
      if i != id {
        ValKept(ctx, insts, fp, home, at, m, m', insts[p], i, s.env[i]);
        ValMoves(ctx, fp, home, at', id, s.next, m', i, s.env[i]);
      }
    }
    forall c {:trigger s'.cells[c]} | c in s'.cells
      ensures CellOk(ctx, fp, home', at', s'.next, m', c, s'.cells[c])
    {
      CellKept(ctx, insts, fp, home, at, s.next, m, m', insts[p], c, s.cells[c]);
      CellMoves(ctx, fp, home, at', s.next, id, m', c, s.cells[c]);
    }
  }
}
