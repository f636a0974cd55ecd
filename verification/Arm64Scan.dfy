/** The linear scan: registers x9-x15 are handed out in order of start; when
    none is free, the value that ends last goes to the stack. */
module Arm64Scan {
  import opened Ir
  import opened Arm64Alloc

  /** Per register: the end of the value in it (-1: free) and that value. */
  datatype Scan = Scan(ranges: seq<LiveRange>, expire: seq<int>, value: seq<int>, next: int)

  predicate Shape(s: Scan) {
    |s.expire| == NUM_TEMPS && |s.value| == NUM_TEMPS
  }

  /** Free the registers whose value ended before `start`. */
  function Expire(s: Scan, start: nat): (r: Scan)
    requires Shape(s)
    ensures Shape(r)
  {
    s.(expire := seq(NUM_TEMPS, i requires 0 <= i < NUM_TEMPS =>
                       if 0 <= s.expire[i] < start then -1 else s.expire[i]),
       value := seq(NUM_TEMPS, i requires 0 <= i < NUM_TEMPS =>
                      if 0 <= s.expire[i] < start then -1 else s.value[i]))
  }

  /** The first free register from `from` on, or NUM_TEMPS. */
  function FirstFree(expire: seq<int>, from: nat): (r: nat)
    requires from <= |expire|
    ensures from <= r <= |expire|
    ensures r < |expire| ==> expire[r] < 0
    ensures forall i :: from <= i < r ==> expire[i] >= 0
    decreases |expire| - from
  {
    if from == |expire| || expire[from] < 0 then from else FirstFree(expire, from + 1)
  }

  /** The register whose value ends last; the first of equals. */
  function Latest(expire: seq<int>, n: nat): (r: nat)
    requires 0 < n <= |expire|
    ensures r < n
    ensures forall i :: 0 <= i < n ==> expire[i] <= expire[r]
  {
    if n == 1 then 0
    else
      var best := Latest(expire, n - 1);
      if expire[n - 1] > expire[best] then n - 1 else best
  }

  function Occupy(s: Scan, k: nat, ri: nat): Scan
    requires Shape(s) && k < |s.ranges| && ri < NUM_TEMPS
  {
    s.(ranges := s.ranges[k := s.ranges[k].(reg := FIRST_TEMP + ri)],
       expire := s.expire[ri := s.ranges[k].last],
       value := s.value[ri := s.ranges[k].id])
  }

  function SpillRange(s: Scan, k: int): Scan
    requires k < |s.ranges|
  {
    if k < 0 then s
    else s.(ranges := s.ranges[k := s.ranges[k].(reg := -1, spill := s.next)], next := s.next - 8)
  }

  /** Place range k. */
  function Place(s: Scan, k: nat): (r: Scan)
    requires Shape(s) && k < |s.ranges|
    ensures Shape(r) && |r.ranges| == |s.ranges|
  {
    var e := Expire(s, s.ranges[k].first);
    var free := FirstFree(e.expire, 0);
    if free < NUM_TEMPS then Occupy(e, k, free)
    else
      var best := Latest(e.expire, NUM_TEMPS);
      if e.ranges[k].last < e.expire[best] then SpillRange(e, k)
      else Occupy(SpillRange(e, IndexOf(e.ranges, e.value[best])), k, best)
  }

  function Start(ranges: seq<LiveRange>): Scan {
    Scan(SortRanges(ranges), seq(NUM_TEMPS, _ => -1), seq(NUM_TEMPS, _ => -1), FIRST_SPILL)
  }

  /** The first n ranges placed. */
  function PlaceUpTo(s: Scan, n: nat): (r: Scan)
    requires Shape(s) && n <= |s.ranges|
    ensures Shape(r) && |r.ranges| == |s.ranges|
  {
    if n == 0 then s else Place(PlaceUpTo(s, n - 1), n - 1)
  }

  function Allocate(ranges: seq<LiveRange>): Scan {
    SortCorrect(ranges);
    PlaceUpTo(Start(ranges), |ranges|)
  }

  function SpillBytes(next: int): nat {
    var bytes := -(next + 16);
    if bytes < 0 then 0 else (bytes + 15) / 16 * 16
  }

  // ---- what every step keeps ----

  predicate Overlap(a: LiveRange, b: LiveRange) {
    a.first <= b.last && b.first <= a.last
  }

  /** A register in x9-x15, or one slot among those handed out so far. */
  predicate Homed(r: LiveRange, next: int) {
    || (FIRST_TEMP <= r.reg < FIRST_TEMP + NUM_TEMPS && r.spill == -1)
    || (r.reg == -1 && next < r.spill <= FIRST_SPILL && r.spill % 8 == 0)
  }

  predicate Apart(a: LiveRange, b: LiveRange) {
    && (a.reg == b.reg && a.reg >= 0 ==> !Overlap(a, b))
    && (a.reg < 0 && b.reg < 0 ==> a.spill != b.spill)
  }

  /** The placement of range j at step n: ranges still in a register are the
      occupant the scan remembers, or ended before every range to come. */
  predicate Placed(s: Scan, n: nat, j: nat)
    requires Shape(s) && j < n <= |s.ranges|
  {
    && Homed(s.ranges[j], s.next)
    && (s.ranges[j].reg >= 0 ==>
          var ri := s.ranges[j].reg - FIRST_TEMP;
          || (s.expire[ri] == s.ranges[j].last && s.value[ri] == s.ranges[j].id)
          || (forall k :: n <= k < |s.ranges| ==> s.ranges[j].last < s.ranges[k].first))
  }

  /** A register that is in use holds a placed range. */
  predicate Held(s: Scan, n: nat, ri: nat)
    requires Shape(s) && ri < NUM_TEMPS && n <= |s.ranges|
  {
    s.expire[ri] >= 0 ==>
      var j := IndexOf(s.ranges, s.value[ri]);
      0 <= j < n && s.ranges[j].reg == FIRST_TEMP + ri && s.ranges[j].last == s.expire[ri]
  }

  predicate Inv(s: Scan, n: nat) {
    && Shape(s) && n <= |s.ranges|
    && s.next <= FIRST_SPILL && s.next % 8 == 0
    && UniqueIds(s.ranges) && SortedByFirst(s.ranges)
    && (forall k :: 0 <= k < |s.ranges| ==> s.ranges[k].first <= s.ranges[k].last)
    && (forall k :: n <= k < |s.ranges| ==> s.ranges[k].reg == -1 && s.ranges[k].spill == -1)
    && (forall j {:trigger Placed(s, n, j)} :: 0 <= j < n ==> Placed(s, n, j))
    && (forall ri {:trigger Held(s, n, ri)} :: 0 <= ri < NUM_TEMPS ==> Held(s, n, ri))
    && (forall i, j :: 0 <= i < j < n ==> Apart(s.ranges[i], s.ranges[j]))
  }

  lemma IndexUnique(ranges: seq<LiveRange>, j: nat)
    requires UniqueIds(ranges) && j < |ranges|
    ensures IndexOf(ranges, ranges[j].id) == j
  {
  }

  /** Only places change, never the ranges themselves. */
  predicate SameRanges(a: seq<LiveRange>, b: seq<LiveRange>) {
    |a| == |b| && forall k :: 0 <= k < |a| ==> SameButPlace(a[k], b[k])
  }

  predicate SameButPlace(a: LiveRange, b: LiveRange) {
    b == a.(reg := b.reg, spill := b.spill)
  }

  lemma SameRangesFacts(a: seq<LiveRange>, b: seq<LiveRange>)
    requires SameRanges(a, b)
    ensures UniqueIds(a) ==> UniqueIds(b)
    ensures SortedByFirst(a) ==> SortedByFirst(b)
    ensures forall id :: IndexOf(a, id) == IndexOf(b, id)
  {
    forall id
      ensures IndexOf(a, id) == IndexOf(b, id)
    {
      var i, j := IndexOf(a, id), IndexOf(b, id);
      if i >= 0 {
        assert b[i].id == id;
      }
      if j >= 0 {
        assert a[j].id == id;
      }
    }
  }

  lemma ExpireKeeps(s: Scan, n: nat)
    requires Inv(s, n) && n < |s.ranges|
    ensures Inv(Expire(s, s.ranges[n].first), n)
    ensures var e := Expire(s, s.ranges[n].first);
            forall ri :: 0 <= ri < NUM_TEMPS && e.expire[ri] >= 0 ==> e.expire[ri] >= s.ranges[n].first
  {
    var start := s.ranges[n].first;
    var e := Expire(s, start);
    forall j {:trigger Placed(e, n, j)} | 0 <= j < n
      ensures Placed(e, n, j)
    {
      assert Placed(s, n, j);
    }
    forall ri {:trigger Held(e, n, ri)} | 0 <= ri < NUM_TEMPS
      ensures Held(e, n, ri)
    {
      assert Held(s, n, ri);
    }
  }

  /** Range n takes a register whose former values have all ended. */
  lemma OccupyKeeps(s: Scan, n: nat, ri: nat)
    requires Inv(s, n) && n < |s.ranges| && ri < NUM_TEMPS
    requires forall j :: 0 <= j < n && s.ranges[j].reg == FIRST_TEMP + ri ==> s.ranges[j].last < s.ranges[n].first
    ensures Inv(Occupy(s, n, ri), n + 1)
  {
    var r := Occupy(s, n, ri);
    SameRangesFacts(s.ranges, r.ranges);
    forall j {:trigger Placed(r, n + 1, j)} | 0 <= j < n + 1
      ensures Placed(r, n + 1, j)
    {
      if j < n {
        assert Placed(s, n, j);
        if s.ranges[j].reg == FIRST_TEMP + ri {
          forall k | n + 1 <= k < |r.ranges|
            ensures r.ranges[j].last < r.ranges[k].first
          {
            assert s.ranges[n].first <= s.ranges[k].first;
          }
        }
      }
    }
    forall q {:trigger Held(r, n + 1, q)} | 0 <= q < NUM_TEMPS
      ensures Held(r, n + 1, q)
    {
      assert Held(s, n, q);
      if q == ri {
        IndexUnique(r.ranges, n);
      }
    }
    forall i, j | 0 <= i < j < n + 1
      ensures Apart(r.ranges[i], r.ranges[j])
    {
      if j < n {
        assert Apart(s.ranges[i], s.ranges[j]);
      } else {
        assert Placed(s, n, i);
      }
    }
  }

  /** Spilling range n itself. */
  lemma SpillNewKeeps(s: Scan, n: nat)
    requires Inv(s, n) && n < |s.ranges|
    ensures Inv(SpillRange(s, n), n + 1)
  {
    var r := SpillRange(s, n);
    SameRangesFacts(s.ranges, r.ranges);
    forall j {:trigger Placed(r, n + 1, j)} | 0 <= j < n + 1
      ensures Placed(r, n + 1, j)
    {
      if j < n {
        assert Placed(s, n, j);
      }
    }
    forall q {:trigger Held(r, n + 1, q)} | 0 <= q < NUM_TEMPS
      ensures Held(r, n + 1, q)
    {
      assert Held(s, n, q);
    }
    forall i, j | 0 <= i < j < n + 1
      ensures Apart(r.ranges[i], r.ranges[j])
    {
      assert Placed(s, n, i);
      if j < n {
        assert Apart(s.ranges[i], s.ranges[j]);
      }
    }
  }

  /** The occupant of register `best` moved to the stack, its register free. */
  function Evict(s: Scan, best: nat): Scan
    requires Shape(s) && best < NUM_TEMPS
  {
    SpillRange(s, IndexOf(s.ranges, s.value[best])).(expire := s.expire[best := -1])
  }

  lemma EvictedApart(s: Scan, n: nat, best: nat, i: nat, j: nat)
    requires Inv(s, n) && best < NUM_TEMPS && i < j < n
    ensures Apart(Evict(s, best).ranges[i], Evict(s, best).ranges[j])
  {
    assert Apart(s.ranges[i], s.ranges[j]) && Placed(s, n, i) && Placed(s, n, j);
  }

  lemma EvictedPlaced(s: Scan, n: nat, best: nat, j: nat)
    requires Inv(s, n) && n < |s.ranges| && best < NUM_TEMPS && s.expire[best] >= 0 && j < n
    ensures Placed(Evict(s, best), n, j)
    ensures Evict(s, best).ranges[j].reg == FIRST_TEMP + best ==> s.ranges[j].last < s.ranges[n].first
  {
    assert Held(s, n, best);
    assert Placed(s, n, j);
  }

  lemma EvictKeeps(s: Scan, n: nat, best: nat)
    requires Inv(s, n) && n < |s.ranges| && best < NUM_TEMPS && s.expire[best] >= 0
    ensures IndexOf(s.ranges, s.value[best]) >= 0 && SameRanges(s.ranges, Evict(s, best).ranges)
    ensures Inv(Evict(s, best), n)
    ensures forall j :: 0 <= j < n && Evict(s, best).ranges[j].reg == FIRST_TEMP + best ==>
              s.ranges[j].last < s.ranges[n].first
  {
    assert Held(s, n, best);
    var m := Evict(s, best);
    SameRangesFacts(s.ranges, m.ranges);
    forall q {:trigger Held(m, n, q)} | 0 <= q < NUM_TEMPS
      ensures Held(m, n, q)
    {
      assert Held(s, n, q);
    }
    hide Placed;
    forall j {:trigger Placed(m, n, j)} | 0 <= j < n
      ensures Placed(m, n, j)
    {
      EvictedPlaced(s, n, best, j);
    }
    forall j | 0 <= j < n && m.ranges[j].reg == FIRST_TEMP + best
      ensures s.ranges[j].last < s.ranges[n].first
    {
      EvictedPlaced(s, n, best, j);
    }
    forall i, j | 0 <= i < j < n
      ensures Apart(m.ranges[i], m.ranges[j])
    {
      EvictedApart(s, n, best, i, j);
    }
  }

  /** Placing one range keeps the invariant. */
  lemma PlaceKeeps(s: Scan, n: nat)
    requires Inv(s, n) && n < |s.ranges|
    ensures Inv(Place(s, n), n + 1) && SameRanges(s.ranges, Place(s, n).ranges)
  {
    ExpireKeeps(s, n);
    var e := Expire(s, s.ranges[n].first);
    var free := FirstFree(e.expire, 0);
    if free < NUM_TEMPS {
      forall j | 0 <= j < n && e.ranges[j].reg == FIRST_TEMP + free
        ensures e.ranges[j].last < e.ranges[n].first
      {
        assert Placed(e, n, j);
      }
      OccupyKeeps(e, n, free);
    } else {
      var best := Latest(e.expire, NUM_TEMPS);
      if e.ranges[n].last < e.expire[best] {
        SpillNewKeeps(e, n);
      } else {
        EvictKeeps(e, n, best);
        OccupyKeeps(Evict(e, best), n, best);
        assert Occupy(Evict(e, best), n, best) == Place(s, n);
      }
    }
  }

  lemma {:induction false} PlaceUpToKeeps(s: Scan, n: nat)
    requires Shape(s) && Inv(s, 0) && n <= |s.ranges|
    ensures Inv(PlaceUpTo(s, n), n)
    ensures SameRanges(s.ranges, PlaceUpTo(s, n).ranges)
  {
    hide Place;
    hide Inv;
    if n > 0 {
      PlaceUpToKeeps(s, n - 1);
      PlaceKeeps(PlaceUpTo(s, n - 1), n - 1);
    }
  }

  lemma StartInv(ranges: seq<LiveRange>)
    requires UniqueIds(ranges) && Unassigned(ranges)
    ensures Inv(Start(ranges), 0)
  {
    SortCorrect(ranges);
    SortKeeps(ranges);
    var start := Start(ranges);
    forall ri {:trigger Held(start, 0, ri)} | 0 <= ri < NUM_TEMPS
      ensures Held(start, 0, ri)
    {
    }
  }

  /** The scan keeps every range and invents none. */
  predicate SameValues(a: seq<LiveRange>, b: seq<LiveRange>) {
    && |a| == |b| && UniqueIds(b)
    && (forall r <- a :: exists k :: 0 <= k < |b| && SameButPlace(r, b[k]))
    && (forall k :: 0 <= k < |b| ==> exists r :: r in a && SameButPlace(r, b[k]))
  }

  lemma SortedSameValues(ranges: seq<LiveRange>, placed: seq<LiveRange>)
    requires UniqueIds(ranges) && SameRanges(SortRanges(ranges), placed)
    ensures SameValues(ranges, placed)
  {
    SortCorrect(ranges);
    SortKeeps(ranges);
    var sorted := SortRanges(ranges);
    SameRangesFacts(sorted, placed);
    forall r <- ranges
      ensures exists k :: 0 <= k < |placed| && SameButPlace(r, placed[k])
    {
      assert r in sorted;
      var k :| 0 <= k < |sorted| && sorted[k] == r;
      assert SameButPlace(r, placed[k]);
    }
    forall k | 0 <= k < |placed|
      ensures exists r :: r in ranges && SameButPlace(r, placed[k])
    {
      assert sorted[k] in sorted;
      assert SameButPlace(sorted[k], placed[k]);
    }
  }

  /** MAIN RESULT. For every set of live ranges with distinct values, after the
      scan each value has one register of x9-x15 or one stack slot of its own,
      and values that are alive together never share a register. */
  lemma LinearScanCorrect(ranges: seq<LiveRange>)
    requires UniqueIds(ranges) && Unassigned(ranges)
    ensures var s := Allocate(ranges);
            && SameValues(ranges, s.ranges)
            && (forall k :: 0 <= k < |s.ranges| ==> Homed(s.ranges[k], s.next))
            && (forall i, j :: 0 <= i < j < |s.ranges| ==> Apart(s.ranges[i], s.ranges[j]))
            && s.next <= FIRST_SPILL && s.next % 8 == 0
  {
    StartInv(ranges);
    SortCorrect(ranges);
    hide SortRanges;
    hide PlaceUpTo;
    PlaceUpToKeeps(Start(ranges), |ranges|);
    var s := Allocate(ranges);
    SortedSameValues(ranges, s.ranges);
    hide SameValues;
    forall k | 0 <= k < |s.ranges|
      ensures Homed(s.ranges[k], s.next)
    {
      assert Placed(s, |ranges|, k);
    }
  }
}
