/** Live ranges, linear scan and frame layout together give the emitter a
    context in which every value is where it is looked for. */
module Arm64Layout {
  import opened Ir
  import opened Arm64Alloc
  import opened Arm64Scan
  import opened Arm64Emit
  import opened Arm64Sim

  // ---- functions within the emitter's limits ----

  /** The number of values the instructions define. */
  function Values(insts: seq<Inst>): nat {
    if insts == [] then 0
    else Values(insts[..|insts| - 1]) + (if insts[|insts| - 1].Result() >= 0 then 1 else 0)
  }

  function Allocas(insts: seq<Inst>): nat {
    if insts == [] then 0
    else Allocas(insts[..|insts| - 1]) + (if insts[|insts| - 1].Alloca? then 1 else 0)
  }

  predicate ParamsOk(params: seq<Param>) {
    && |params| <= MAX_REG_PARAMS
    && (forall i :: 0 <= i < |params| ==> params[i].id >= 0 && params[i].ty != Ptr)
    && (forall i, j :: 0 <= i < j < |params| ==> params[i].id != params[j].id)
  }

  /** Single assignment: every value is defined once. */
  predicate SingleAssignment(params: seq<Param>, insts: seq<Inst>) {
    && (forall p {:trigger insts[p]} :: 0 <= p < |insts| && Defines(insts[p]) ==> insts[p].id >= 0)
    && (forall p, q :: 0 <= p < q < |insts| && insts[p].Result() >= 0 ==> insts[p].Result() != insts[q].Result())
    && (forall p, i :: 0 <= p < |insts| && 0 <= i < |params| ==> insts[p].Result() != params[i].id)
  }

  predicate WithinLimits(params: seq<Param>, insts: seq<Inst>) {
    && ParamsOk(params) && SingleAssignment(params, insts)
    && Values(insts) + |params| <= MAX_VALUES && Allocas(insts) <= MAX_ALLOCAS
  }

  // ---- live ranges ----

  lemma {:induction false} DefsUnassigned(insts: seq<Inst>)
    ensures Unassigned(Defs(insts))
    ensures |Defs(insts)| <= MAX_VALUES && |Defs(insts)| <= Values(insts)
    ensures forall k :: 0 <= k < |Defs(insts)| ==> Defs(insts)[k].first < |insts| && Defs(insts)[k].id >= 0
    ensures forall k :: 0 <= k < |Defs(insts)| ==> Defs(insts)[k].id == insts[Defs(insts)[k].first].Result()
  {
    if insts != [] {
      DefsUnassigned(insts[..|insts| - 1]);
    }
  }

  lemma {:induction false} DefsUnique(insts: seq<Inst>)
    requires forall p, q :: 0 <= p < q < |insts| && insts[p].Result() >= 0 ==> insts[p].Result() != insts[q].Result()
    ensures UniqueIds(Defs(insts))
  {
    if insts != [] {
      DefsUnique(insts[..|insts| - 1]);
      DefsUnassigned(insts[..|insts| - 1]);
    }
  }

  /** A value has a range that starts at its definition. */
  lemma {:induction false} DefsHas(insts: seq<Inst>, p: nat)
    requires p < |insts| && insts[p].Result() >= 0 && Values(insts) <= MAX_VALUES
    ensures LiveRange(insts[p].Result(), -1, -1, p, p) in Defs(insts)
  {
    var n := |insts| - 1;
    DefsUnassigned(insts[..n]);
    if p < n {
      DefsHas(insts[..n], p);
    }
  }

  lemma {:induction false} ParamsAdded(ranges: seq<LiveRange>, params: seq<Param>)
    requires Unassigned(ranges) && UniqueIds(ranges)
    ensures Unassigned(WithParams(ranges, params)) && UniqueIds(WithParams(ranges, params))
    ensures ranges <= WithParams(ranges, params)
  {
    if params != [] {
      ParamsAdded(ranges, params[..|params| - 1]);
    }
  }

  /** The ranges before uses are taken into account. */
  function BaseRanges(f: Function): seq<LiveRange> {
    WithParams(Defs(Linear(f.blocks)), f.params)
  }

  lemma LiveRangesShape(f: Function)
    requires WithinLimits(f.params, Linear(f.blocks))
    ensures Extends(BaseRanges(f), LiveRanges(f))
    ensures Unassigned(BaseRanges(f)) && UniqueIds(BaseRanges(f))
    ensures Unassigned(LiveRanges(f)) && UniqueIds(LiveRanges(f))
  {
    var insts := Linear(f.blocks);
    DefsUnassigned(insts);
    DefsUnique(insts);
    ParamsAdded(Defs(insts), f.params);
    ExtendUsesExtends(BaseRanges(f), insts);
  }

  /** The range of the value defined by instruction p, after liveness. */
  lemma DefinedRange(f: Function, p: nat) returns (k: nat)
    requires WithinLimits(f.params, Linear(f.blocks))
    requires p < |Linear(f.blocks)| && Linear(f.blocks)[p].Result() >= 0
    ensures k < |LiveRanges(f)| && LiveRanges(f)[k].id == Linear(f.blocks)[p].Result()
    ensures LiveRanges(f)[k].first == p <= LiveRanges(f)[k].last
  {
    var insts := Linear(f.blocks);
    LiveRangesShape(f);
    DefsHas(insts, p);
    DefsUnassigned(insts);
    DefsUnique(insts);
    ParamsAdded(Defs(insts), f.params);
    var r := LiveRange(insts[p].Result(), -1, -1, p, p);
    assert r in BaseRanges(f);
    k :| 0 <= k < |BaseRanges(f)| && BaseRanges(f)[k] == r;
  }

  // ---- after the scan ----

  /** The placed range of a value is its live range with a place. */
  lemma PlacedRange(ranges: seq<LiveRange>, k: nat)
    requires UniqueIds(ranges) && Unassigned(ranges) && k < |ranges|
    ensures var placed := Allocate(ranges).ranges;
            var j := IndexOf(placed, ranges[k].id);
            j >= 0 && SameButPlace(ranges[k], placed[j])
  {
    LinearScanCorrect(ranges);
    var placed := Allocate(ranges).ranges;
    assert ranges[k] in ranges;
    var j :| 0 <= j < |placed| && SameButPlace(ranges[k], placed[j]);
    IndexUnique(placed, j);
  }

  lemma PlacedBack(ranges: seq<LiveRange>, id: int) returns (k: nat)
    requires UniqueIds(ranges) && Unassigned(ranges) && IndexOf(Allocate(ranges).ranges, id) >= 0
    ensures k < |ranges| && k == IndexOf(ranges, id)
    ensures SameButPlace(ranges[k], Allocate(ranges).ranges[IndexOf(Allocate(ranges).ranges, id)])
  {
    LinearScanCorrect(ranges);
    var placed := Allocate(ranges).ranges;
    var j := IndexOf(placed, id);
    var r :| r in ranges && SameButPlace(r, placed[j]);
    k :| 0 <= k < |ranges| && ranges[k] == r;
    IndexUnique(ranges, k);
  }

  /** A value used by instruction p is kept until p. */
  lemma UsedUntil(f: Function, p: nat, id: int)
    requires WithinLimits(f.params, Linear(f.blocks)) && p < |Linear(f.blocks)|
    ensures UseOk(Context(f), Linear(f.blocks), p, id)
  {
    var insts := Linear(f.blocks);
    var j := IndexOf(Context(f).ranges, id);
    if id >= 0 && id in Uses(insts[p]) && j >= 0 {
      LiveRangesShape(f);
      var k := PlacedBack(LiveRanges(f), id);
      SameIndex(BaseRanges(f), LiveRanges(f), id);
      var i :| 0 <= i < |Uses(insts[p])| && Uses(insts[p])[i] == id;
      UseIsAlive(BaseRanges(f), insts, p, i, k);
    }
  }

  // ---- alloca slots ----

  lemma {:induction false} AllocaSlotAt(insts: seq<Inst>, top: int)
    ensures |AllocaSlots(insts, top)| <= Allocas(insts) && |AllocaSlots(insts, top)| <= MAX_ALLOCAS
    ensures forall a :: 0 <= a < |AllocaSlots(insts, top)| ==> AllocaSlots(insts, top)[a].off == top - 8 * (a + 1)
    ensures forall a :: 0 <= a < |AllocaSlots(insts, top)| ==>
              exists p :: 0 <= p < |insts| && insts[p].Alloca? && insts[p].id == AllocaSlots(insts, top)[a].id
  {
    if insts != [] {
      var n := |insts| - 1;
      AllocaSlotAt(insts[..n], top);
      var before, slots := AllocaSlots(insts[..n], top), AllocaSlots(insts, top);
      assert Allocas(insts) == Allocas(insts[..n]) + (if insts[n].Alloca? then 1 else 0);
      hide AllocaSlots;
      forall a | 0 <= a < |slots|
        ensures exists p :: 0 <= p < |insts| && insts[p].Alloca? && insts[p].id == slots[a].id
      {
        if a < |before| {
          var p :| 0 <= p < n && insts[..n][p].Alloca? && insts[..n][p].id == before[a].id;
          assert insts[p].Alloca? && insts[p].id == slots[a].id;
        } else {
          assert insts[n].Alloca? && insts[n].id == slots[a].id;
        }
      }
    }
  }

  lemma {:induction false} AllocaHasSlot(insts: seq<Inst>, top: int, p: nat)
    requires p < |insts| && insts[p].Alloca? && Allocas(insts) <= MAX_ALLOCAS
    ensures FindSlot(AllocaSlots(insts, top), insts[p].id) >= 0
  {
    var n := |insts| - 1;
    AllocaSlotAt(insts[..n], top);
    var before, slots := AllocaSlots(insts[..n], top), AllocaSlots(insts, top);
    if p < n {
      AllocaHasSlot(insts[..n], top, p);
      var a := FindSlot(before, insts[p].id);
      assert slots[a].id == insts[p].id;
    } else {
      assert slots[|before|].id == insts[p].id;
    }
  }

  lemma NoSlotWithoutAlloca(params: seq<Param>, insts: seq<Inst>, top: int, p: nat)
    requires SingleAssignment(params, insts) && p < |insts| && insts[p].Result() >= 0 && !insts[p].Alloca?
    ensures FindSlot(AllocaSlots(insts, top), insts[p].Result()) < 0
  {
    AllocaSlotAt(insts, top);
    forall q | 0 <= q < |insts| && insts[q].Alloca?
      ensures insts[q].id != insts[p].Result()
    {
      assert insts[q].Result() == insts[q].id;
    }
  }

  /** At most one eight-byte slot per range is handed out. */
  lemma {:induction false} SpillBound(s: Scan, n: nat)
    requires Shape(s) && n <= |s.ranges|
    ensures s.next - 8 * n <= PlaceUpTo(s, n).next
  {
    if n > 0 {
      SpillBound(s, n - 1);
    }
  }

  lemma {:induction false} RangeCount(ranges: seq<LiveRange>, params: seq<Param>)
    requires |ranges| <= MAX_VALUES
    ensures |WithParams(ranges, params)| <= MAX_VALUES
  {
    if params != [] {
      RangeCount(ranges, params[..|params| - 1]);
    }
  }

  /** The spill slots lie in the area the frame reserves for them. */
  lemma SpillArea(f: Function)
    requires WithinLimits(f.params, Linear(f.blocks))
    ensures var s := Allocate(LiveRanges(f));
            && FIRST_SPILL - 8 * MAX_VALUES <= s.next <= FIRST_SPILL && s.next % 8 == 0
            && (forall k :: 0 <= k < |s.ranges| && s.ranges[k].reg < 0 ==> s.ranges[k].spill >= s.next + 8)
  {
    hide LiveRanges;
    hide Allocate;
    hide SameValues;
    hide Apart;
    SpillDepth(f);
    LiveRangesShape(f);
    LinearScanCorrect(LiveRanges(f));
    var s := Allocate(LiveRanges(f));
    forall k | 0 <= k < |s.ranges| && s.ranges[k].reg < 0
      ensures s.ranges[k].spill >= s.next + 8
    {
      assert Homed(s.ranges[k], s.next);
    }
  }

  lemma SpillDepth(f: Function)
    requires WithinLimits(f.params, Linear(f.blocks))
    ensures FIRST_SPILL - 8 * MAX_VALUES <= Allocate(LiveRanges(f)).next
  {
    hide Defs;
    hide WithParams;
    hide ExtendUses;
    hide SortRanges;
    hide PlaceUpTo;
    hide Linear;
    var ranges := LiveRanges(f);
    LiveRangesShape(f);
    DefsUnassigned(Linear(f.blocks));
    RangeCount(Defs(Linear(f.blocks)), f.params);
    SortCorrect(ranges);
    SpillBound(Start(ranges), |ranges|);
  }

  /** Frame layout: every alloca has eight bytes of its own, below every spill
      slot and within reach of the frame pointer. */
  lemma SlotsDisjoint(f: Function, a: nat)
    requires WithinLimits(f.params, Linear(f.blocks)) && a < |Context(f).allocas|
    ensures SlotOk(Context(f), a)
  {
    hide Allocate;
    hide LiveRanges;
    hide Linear;
    hide WithinLimits;
    hide AllocaSlots;
    SpillArea(f);
    AllocaSlotAt(Linear(f.blocks), -16 - SpillBytes(Allocate(LiveRanges(f)).next));
  }

  // ---- all of it ----

  lemma DefinedOk(f: Function, p: nat)
    requires WithinLimits(f.params, Linear(f.blocks)) && p < |Linear(f.blocks)|
    ensures DefOk(Context(f), Linear(f.blocks), p)
  {
    var insts := Linear(f.blocks);
    if insts[p].Result() >= 0 {
      LiveRangesShape(f);
      var k := DefinedRange(f, p);
      PlacedRange(LiveRanges(f), k);
      var top := -16 - SpillBytes(Allocate(LiveRanges(f)).next);
      if insts[p].Alloca? {
        AllocaHasSlot(insts, top, p);
      } else {
        NoSlotWithoutAlloca(f.params, insts, top, p);
      }
    }
  }

  /** MAIN RESULT. Within the emitter's limits, every value has a place of its
      own for as long as it is used. */
  lemma ContextGood(f: Function)
    requires WithinLimits(f.params, Linear(f.blocks))
    ensures Good(Context(f), Linear(f.blocks))
  {
    var ctx, insts := Context(f), Linear(f.blocks);
    LiveRangesShape(f);
    LinearScanCorrect(LiveRanges(f));
    assert ctx.ranges == Allocate(LiveRanges(f)).ranges;
    forall k | 0 <= k < |ctx.ranges|
      ensures RangeHomed(ctx.ranges[k])
    {
      assert Homed(ctx.ranges[k], Allocate(LiveRanges(f)).next);
    }
    hide Context;
    hide Linear;
    hide WithinLimits;
    forall p {:trigger DefOk(ctx, insts, p)} | 0 <= p < |insts|
      ensures DefOk(ctx, insts, p)
    {
      DefinedOk(f, p);
    }
    forall p, id {:trigger UseOk(ctx, insts, p, id)} | 0 <= p < |insts|
      ensures UseOk(ctx, insts, p, id)
    {
      UsedUntil(f, p, id);
    }
    forall a {:trigger SlotOk(ctx, a)} | 0 <= a < |ctx.allocas|
      ensures SlotOk(ctx, a)
    {
      SlotsDisjoint(f, a);
    }
  }
}
