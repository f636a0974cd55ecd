/** The allocator as it runs: the table of ranges is filled, sorted and
    rewritten in place. */
module Arm64RegAlloc {
  import opened Ir
  import opened Arm64Alloc
  import opened Arm64Scan

  lemma DefsSnoc(insts: seq<Inst>, inst: Inst)
    ensures Defs(insts + [inst]) ==
            if inst.Result() >= 0 && |Defs(insts)| < MAX_VALUES
            then Defs(insts) + [LiveRange(inst.Result(), -1, -1, |insts|, |insts|)]
            else Defs(insts)
  {
    assert (insts + [inst])[..|insts|] == insts;
  }

  lemma ExtendUsesSnoc(ranges: seq<LiveRange>, insts: seq<Inst>, inst: Inst)
    ensures ExtendUses(ranges, insts + [inst]) == ExtendAll(ExtendUses(ranges, insts), Uses(inst), |insts|)
  {
    assert (insts + [inst])[..|insts|] == insts;
  }

  class RegAllocState {
    const ranges: array<LiveRange>
    var count: nat
    var nextSpill: int
    var maxSpill: nat

    ghost predicate Valid()
      reads this
    {
      ranges.Length == MAX_VALUES && count <= MAX_VALUES
    }

    constructor ()
      ensures Valid() && fresh(ranges) && count == 0
    {
      ranges := new LiveRange[MAX_VALUES];
      count, nextSpill, maxSpill := 0, FIRST_SPILL, 0;
    }

    method AddRange(id: int, at: nat)
      requires Valid() && count < MAX_VALUES
      modifies this`count, ranges
      ensures Valid() && count == old(count) + 1
      ensures ranges[..count] == old(ranges[..count]) + [LiveRange(id, -1, -1, at, at)]
    {
      ranges[count] := LiveRange(id, -1, -1, at, at);
      count := count + 1;
    }

    method RecordBlockDefs(insts: seq<Inst>, instIdx: nat, ghost before: seq<Inst>)
      requires Valid() && instIdx == |before| && ranges[..count] == Defs(before)
      modifies this`count, ranges
      ensures Valid() && ranges[..count] == Defs(before + insts)
    {
      hide Defs;
      assert before + insts[..0] == before;
      var i := 0;
      while i < |insts|
        invariant 0 <= i <= |insts| && Valid()
        invariant ranges[..count] == Defs(before + insts[..i])
      {
        DefsSnoc(before + insts[..i], insts[i]);
        assert before + insts[..i] + [insts[i]] == before + insts[..i + 1];
        if insts[i].Result() >= 0 && count < MAX_VALUES {
          AddRange(insts[i].Result(), instIdx + i);
        }
        i := i + 1;
      }
      assert insts[..i] == insts;
    }

    /** First pass: record definitions. */
    method RecordDefs(blocks: seq<Block>)
      requires Valid() && count == 0
      modifies this`count, ranges
      ensures Valid() && ranges[..count] == Defs(Linear(blocks))
    {
      var instIdx := 0;
      var b := 0;
      while b < |blocks|
        invariant 0 <= b <= |blocks| && Valid()
        invariant instIdx == |Linear(blocks[..b])|
        invariant ranges[..count] == Defs(Linear(blocks[..b]))
      {
        assert blocks[..b + 1][..b] == blocks[..b];
        RecordBlockDefs(blocks[b].insts, instIdx, Linear(blocks[..b]));
        instIdx := instIdx + |blocks[b].insts|;
        b := b + 1;
      }
      assert blocks[..b] == blocks;
    }

    method Find(id: int) returns (k: int)
      requires Valid()
      ensures k == IndexOf(ranges[..count], id)
    {
      var i := 0;
      while i < count
        invariant 0 <= i <= count
        invariant forall j :: 0 <= j < i ==> ranges[j].id != id
      {
        if ranges[i].id == id {
          assert ranges[..count][i].id == id;
          return i;
        }
        i := i + 1;
      }
      return -1;
    }

    method RecordParams(params: seq<Param>)
      requires Valid()
      modifies this`count, ranges
      ensures Valid() && ranges[..count] == WithParams(old(ranges[..count]), params)
    {
      var i := 0;
      while i < |params|
        invariant 0 <= i <= |params| && Valid()
        invariant ranges[..count] == WithParams(old(ranges[..count]), params[..i])
      {
        assert params[..i + 1][..i] == params[..i];
        var k := Find(params[i].id);
        assert k >= 0 <==> Tracked(ranges[..count], params[i].id);
        if k < 0 && count < MAX_VALUES {
          AddRange(params[i].id, 0);
        }
        i := i + 1;
      }
      assert params[..i] == params;
    }

    method ExtendUse(id: int, at: nat)
      requires Valid()
      modifies ranges
      ensures ranges[..count] == Extend(old(ranges[..count]), id, at)
    {
      if id < 0 {
        return;
      }
      var k := Find(id);
      if k >= 0 && at > ranges[k].last {
        ranges[k] := ranges[k].(last := at);
      }
    }

    method ExtendUsesOf(inst: Inst, at: nat)
      requires Valid()
      modifies ranges
      ensures ranges[..count] == ExtendAll(old(ranges[..count]), Uses(inst), at)
    {
      var ids := Uses(inst);
      var i := 0;
      while i < |ids|
        invariant 0 <= i <= |ids|
        invariant ranges[..count] == ExtendAll(old(ranges[..count]), ids[..i], at)
      {
        assert ids[..i + 1][..i] == ids[..i];
        ExtendUse(ids[i], at);
        i := i + 1;
      }
      assert ids[..i] == ids;
    }

    method RecordBlockUses(insts: seq<Inst>, instIdx: nat, ghost orig: seq<LiveRange>, ghost before: seq<Inst>)
      requires Valid() && instIdx == |before| && ranges[..count] == ExtendUses(orig, before)
      modifies ranges
      ensures ranges[..count] == ExtendUses(orig, before + insts)
    {
      hide ExtendUses;
      assert before + insts[..0] == before;
      var i := 0;
      while i < |insts|
        invariant 0 <= i <= |insts|
        invariant ranges[..count] == ExtendUses(orig, before + insts[..i])
      {
        ExtendUsesSnoc(orig, before + insts[..i], insts[i]);
        assert before + insts[..i] + [insts[i]] == before + insts[..i + 1];
        ExtendUsesOf(insts[i], instIdx + i);
        i := i + 1;
      }
      assert insts[..i] == insts;
    }

    /** Second pass: extend to every reference. */
    method RecordUses(blocks: seq<Block>)
      requires Valid()
      modifies ranges
      ensures ranges[..count] == ExtendUses(old(ranges[..count]), Linear(blocks))
    {
      var instIdx := 0;
      var b := 0;
      while b < |blocks|
        invariant 0 <= b <= |blocks|
        invariant instIdx == |Linear(blocks[..b])|
        invariant ranges[..count] == ExtendUses(old(ranges[..count]), Linear(blocks[..b]))
      {
        assert blocks[..b + 1][..b] == blocks[..b];
        RecordBlockUses(blocks[b].insts, instIdx, old(ranges[..count]), Linear(blocks[..b]));
        instIdx := instIdx + |blocks[b].insts|;
        b := b + 1;
      }
      assert blocks[..b] == blocks;
    }

    method ComputeLiveRanges(f: Function)
      requires Valid()
      modifies this, ranges
      ensures Valid() && ranges[..count] == LiveRanges(f) && nextSpill == FIRST_SPILL
    {
      count, nextSpill, maxSpill := 0, FIRST_SPILL, 0;
      RecordDefs(f.blocks);
      RecordParams(f.params);
      RecordUses(f.blocks);
    }

    /** One round of the insertion sort. */
    method InsertAt(i: nat)
      requires Valid() && 0 < i < count
      modifies ranges
      ensures ranges[..i + 1] == InsertRange(old(ranges[..i]), old(ranges[i]))
      ensures ranges[i + 1..count] == old(ranges[i + 1..count])
    {
      hide InsertRange;
      hide MovedTo;
      ghost var sorted := ranges[..i];
      var tmp := ranges[i];
      var j := i - 1;
      MoveStarts(sorted, tmp);
      while j >= 0 && ranges[j].first > tmp.first
        invariant -1 <= j < i
        invariant forall k :: 0 <= k <= j ==> ranges[k] == sorted[k]
        invariant forall k :: j + 1 < k <= i ==> ranges[k] == sorted[k - 1]
        invariant forall k :: i < k < ranges.Length ==> ranges[k] == old(ranges[k])
        invariant MovedTo(sorted, j + 1, tmp)
        decreases j
      {
        InsertStep(sorted, j, tmp);
        ranges[j + 1] := ranges[j];
        j := j - 1;
      }
      ranges[j + 1] := tmp;
      InsertSlots(sorted, j + 1, tmp, ranges[..i + 1]);
    }

    method SortByFirst()
      requires Valid()
      modifies ranges
      ensures ranges[..count] == SortRanges(old(ranges[..count]))
    {
      ghost var orig := ranges[..count];
      var i := 1;
      if count > 0 {
        assert orig[..1][..0] == [] && SortRanges(orig[..1]) == [orig[0]];
      }
      while i < count
        invariant count > 0 ==> 1 <= i <= count
        invariant count > 0 ==> ranges[..i] == SortRanges(orig[..i]) && ranges[i..count] == orig[i..]
      {
        assert orig[..i + 1][..i] == orig[..i];
        assert ranges[i] == ranges[i..count][0] == orig[i];
        assert ranges[i + 1..count] == ranges[i..count][1..] == orig[i + 1..];
        InsertAt(i);
        i := i + 1;
      }
      if count > 0 {
        assert orig[..count] == orig;
      }
    }

    /** The state of the scan in the form the specification uses. */
    ghost function State(expire: array<int>, value: array<int>): Scan
      requires Valid()
      reads this, ranges, expire, value
    {
      Scan(ranges[..count], expire[..], value[..], nextSpill)
    }

    method ExpireOld(expire: array<int>, value: array<int>, start: nat)
      requires Valid() && expire.Length == NUM_TEMPS && value.Length == NUM_TEMPS
      requires expire != value
      modifies expire, value
      ensures State(expire, value) == Expire(old(State(expire, value)), start)
    {
      var ri := 0;
      while ri < NUM_TEMPS
        invariant 0 <= ri <= NUM_TEMPS
        invariant forall i :: 0 <= i < ri ==>
          expire[i] == (if 0 <= old(expire[i]) < start then -1 else old(expire[i])) &&
          value[i] == (if 0 <= old(expire[i]) < start then -1 else old(value[i]))
        invariant forall i :: ri <= i < NUM_TEMPS ==> expire[i] == old(expire[i]) && value[i] == old(value[i])
        invariant ranges[..count] == old(ranges[..count])
      {
        if expire[ri] >= 0 && expire[ri] < start {
          expire[ri] := -1;
          value[ri] := -1;
        }
        ri := ri + 1;
      }
      var e := Expire(old(State(expire, value)), start);
      assert expire[..] == e.expire && value[..] == e.value;
    }

    static method FindFree(expire: array<int>) returns (ri: nat)
      requires expire.Length == NUM_TEMPS
      ensures ri == FirstFree(expire[..], 0)
    {
      ri := 0;
      while ri < NUM_TEMPS
        invariant 0 <= ri <= NUM_TEMPS
        invariant FirstFree(expire[..], ri) == FirstFree(expire[..], 0)
      {
        if expire[ri] < 0 {
          return;
        }
        ri := ri + 1;
      }
    }

    static method FindLatest(expire: array<int>) returns (best: nat)
      requires expire.Length == NUM_TEMPS
      ensures best == Latest(expire[..], NUM_TEMPS)
    {
      best := 0;
      var bestExpire := expire[0];
      var ri := 1;
      while ri < NUM_TEMPS
        invariant 1 <= ri <= NUM_TEMPS && best < NUM_TEMPS
        invariant best == Latest(expire[..], ri) && bestExpire == expire[best]
      {
        if expire[ri] > bestExpire {
          bestExpire := expire[ri];
          best := ri;
        }
        ri := ri + 1;
      }
    }

    method Take(expire: array<int>, value: array<int>, i: nat, ri: nat)
      requires Valid() && i < count && ri < NUM_TEMPS
      requires expire.Length == NUM_TEMPS && value.Length == NUM_TEMPS && expire != value
      modifies ranges, expire, value
      ensures State(expire, value) == Occupy(old(State(expire, value)), i, ri)
    {
      var lr := ranges[i];
      ranges[i] := lr.(reg := FIRST_TEMP + ri);
      expire[ri] := lr.last;
      value[ri] := lr.id;
    }

    method Spill(k: int)
      requires Valid() && k < count
      modifies ranges, this`nextSpill
      ensures Valid() && count == old(count)
      ensures ranges[..count] == SpillRange(Scan(old(ranges[..count]), [], [], old(nextSpill)), k).ranges
      ensures nextSpill == SpillRange(Scan(old(ranges[..count]), [], [], old(nextSpill)), k).next
    {
      if k >= 0 {
        ranges[k] := ranges[k].(reg := -1, spill := nextSpill);
        nextSpill := nextSpill - 8;
      }
    }

    method PlaceRange(expire: array<int>, value: array<int>, i: nat)
      requires Valid() && i < count
      requires expire.Length == NUM_TEMPS && value.Length == NUM_TEMPS && expire != value
      modifies ranges, this`nextSpill, expire, value
      ensures State(expire, value) == Place(old(State(expire, value)), i)
    {
      ExpireOld(expire, value, ranges[i].first);
      var free := FindFree(expire);
      if free < NUM_TEMPS {
        Take(expire, value, i, free);
        return;
      }
      var best := FindLatest(expire);
      if ranges[i].last < expire[best] {
        Spill(i);
      } else {
        var k := Find(value[best]);
        Spill(k);
        Take(expire, value, i, best);
      }
    }

    method PlaceAll(ghost start: Scan)
      requires Valid() && Shape(start) && ranges[..count] == start.ranges && nextSpill == start.next
      requires forall ri :: 0 <= ri < NUM_TEMPS ==> start.expire[ri] == -1 && start.value[ri] == -1
      modifies ranges, this`nextSpill
      ensures ranges[..count] == PlaceUpTo(start, |start.ranges|).ranges
      ensures nextSpill == PlaceUpTo(start, |start.ranges|).next
    {
      hide Place;
      var expire := new int[NUM_TEMPS];
      var value := new int[NUM_TEMPS];
      var i := 0;
      while i < NUM_TEMPS
        invariant 0 <= i <= NUM_TEMPS
        invariant forall k :: 0 <= k < i ==> expire[k] == -1 && value[k] == -1
        invariant ranges[..count] == start.ranges && nextSpill == start.next
      {
        expire[i] := -1;
        value[i] := -1;
        i := i + 1;
      }
      assert expire[..] == start.expire && value[..] == start.value;
      i := 0;
      while i < count
        invariant 0 <= i <= count
        invariant State(expire, value) == PlaceUpTo(start, i)
      {
        PlaceRange(expire, value, i);
        i := i + 1;
      }
    }

    /** Sort, place every range, and size the spill area. */
    method Assign()
      requires Valid() && nextSpill == FIRST_SPILL
      modifies ranges, this`nextSpill, this`maxSpill
      ensures Valid()
      ensures ranges[..count] == Allocate(old(ranges[..count])).ranges
      ensures nextSpill == Allocate(old(ranges[..count])).next
      ensures maxSpill == SpillBytes(nextSpill)
    {
      hide PlaceUpTo;
      hide SortRanges;
      hide Start;
      hide Allocate;
      ghost var orig := ranges[..count];
      StartOf(orig);
      SortByFirst();
      PlaceAll(Start(orig));
      var spillBytes := -(nextSpill + 16);
      if spillBytes < 0 {
        spillBytes := 0;
      }
      maxSpill := (spillBytes + 15) / 16 * 16;
    }
  }

  lemma StartOf(ranges: seq<LiveRange>)
    ensures var start := Start(ranges);
            && Shape(start) && start.next == FIRST_SPILL && start.ranges == SortRanges(ranges) && |start.ranges| == |ranges|
            && (forall ri :: 0 <= ri < NUM_TEMPS ==> start.expire[ri] == -1 && start.value[ri] == -1)
            && Allocate(ranges) == PlaceUpTo(start, |start.ranges|)
  {
    SortCorrect(ranges);
  }

  /** The ranges from p on have made room for the key. */
  predicate MovedTo(sorted: seq<LiveRange>, p: int, key: LiveRange) {
    0 <= p <= |sorted| && InsertRange(sorted, key) == InsertRange(sorted[..p], key) + sorted[p..]
  }

  lemma MoveStarts(sorted: seq<LiveRange>, key: LiveRange)
    ensures MovedTo(sorted, |sorted|, key)
  {
    assert sorted[..|sorted|] == sorted;
  }

  lemma InsertSlots(sorted: seq<LiveRange>, p: nat, key: LiveRange, r: seq<LiveRange>)
    requires MovedTo(sorted, p, key) && |r| == |sorted| + 1 && r[p] == key
    requires p == 0 || sorted[p - 1].first <= key.first
    requires forall k :: 0 <= k < p ==> r[k] == sorted[k]
    requires forall k :: p < k < |r| ==> r[k] == sorted[k - 1]
    ensures r == InsertRange(sorted, key)
  {
    InsertHere(sorted[..p], key);
    hide InsertRange;
    assert r == sorted[..p] + [key] + sorted[p..];
  }

  lemma InsertStep(sorted: seq<LiveRange>, j: nat, key: LiveRange)
    requires j < |sorted| && sorted[j].first > key.first && MovedTo(sorted, j + 1, key)
    ensures MovedTo(sorted, j, key)
  {
    assert sorted[..j + 1][..j] == sorted[..j];
    assert [sorted[j]] + sorted[j + 1..] == sorted[j..];
  }
}
