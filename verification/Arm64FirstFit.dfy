/** What the scan decides, seen from outside: which register a value gets, and
    when a value goes to the stack. */
module Arm64FirstFit {
  import opened Arm64Alloc
  import opened Arm64Scan

  // ---- first fit ----

  /** Register `ri` still holds one of the first n ranges at instruction `at`. */
  predicate InUse(ranges: seq<LiveRange>, regs: seq<nat>, n: nat, ri: nat, at: nat)
    requires n <= |ranges| && n <= |regs|
  {
    exists j :: 0 <= j < n && regs[j] == ri && ranges[j].last >= at
  }

  /** Register regs[k] is the first one free when range k starts. */
  predicate FirstFitAt(ranges: seq<LiveRange>, regs: seq<nat>, k: nat)
    requires k < |ranges| && k < |regs|
  {
    && regs[k] < NUM_TEMPS && !InUse(ranges, regs, k, regs[k], ranges[k].first)
    && (forall ri :: 0 <= ri < regs[k] ==> InUse(ranges, regs, k, ri, ranges[k].first))
  }

  predicate FirstFit(ranges: seq<LiveRange>, regs: seq<nat>) {
    && |ranges| == |regs| && SortedByFirst(ranges)
    && (forall k :: 0 <= k < |ranges| ==> FirstFitAt(ranges, regs, k))
  }

  function InRegs(ranges: seq<LiveRange>, regs: seq<nat>): seq<LiveRange>
    requires |ranges| == |regs|
  {
    seq(|ranges|, k requires 0 <= k < |ranges| => ranges[k].(reg := FIRST_TEMP + regs[k]))
  }

  /** The scan remembers an end for each register, and no later end is in it. */
  predicate Remembers(s: Scan, ranges: seq<LiveRange>, regs: seq<nat>, n: nat)
    requires Shape(s) && n <= |ranges| == |regs|
  {
    && (forall ri :: 0 <= ri < NUM_TEMPS && s.expire[ri] >= 0 ==> InUse(ranges, regs, n, ri, s.expire[ri]))
    && (forall j, k :: 0 <= j < n <= k < |ranges| && regs[j] < NUM_TEMPS ==>
          ranges[j].last < ranges[k].first || ranges[j].last <= s.expire[regs[j]])
  }

  ghost predicate Fitted(s: Scan, ranges: seq<LiveRange>, regs: seq<nat>, n: nat) {
    && Shape(s) && n <= |ranges| == |regs| == |s.ranges| && s.next == FIRST_SPILL
    && s.ranges == InRegs(ranges, regs)[..n] + ranges[n..]
    && Remembers(s, ranges, regs, n)
  }

  /** A register counts as taken exactly when a range still lives in it. */
  lemma ExpiredIffFree(s: Scan, ranges: seq<LiveRange>, regs: seq<nat>, n: nat, ri: nat)
    requires n < |ranges| && Fitted(s, ranges, regs, n) && ri < NUM_TEMPS
    ensures Expire(s, ranges[n].first).expire[ri] >= 0 <==> InUse(ranges, regs, n, ri, ranges[n].first)
  {
  }

  lemma FitsNext(s: Scan, ranges: seq<LiveRange>, regs: seq<nat>, n: nat)
    requires n < |ranges| && Fitted(s, ranges, regs, n) && FirstFit(ranges, regs)
    ensures Fitted(Place(s, n), ranges, regs, n + 1)
  {
    assert FirstFitAt(ranges, regs, n) && s.ranges[n] == ranges[n];
    FreeIs(s, ranges, regs, n);
    RemembersNext(s, ranges, regs, n);
    hide Remembers;
    hide FirstFit;
    hide FirstFitAt;
    assert Place(s, n) == Occupy(Expire(s, ranges[n].first), n, regs[n]);
    hide Place;
    assert InRegs(ranges, regs)[..n + 1] + ranges[n + 1..] == s.ranges[n := ranges[n].(reg := FIRST_TEMP + regs[n])];
  }

  lemma FreeIs(s: Scan, ranges: seq<LiveRange>, regs: seq<nat>, n: nat)
    requires n < |ranges| && Fitted(s, ranges, regs, n) && FirstFitAt(ranges, regs, n)
    ensures FirstFree(Expire(s, ranges[n].first).expire, 0) == regs[n]
  {
    var e := Expire(s, ranges[n].first);
    forall ri | 0 <= ri < NUM_TEMPS
      ensures e.expire[ri] >= 0 <==> InUse(ranges, regs, n, ri, ranges[n].first)
    {
      ExpiredIffFree(s, ranges, regs, n, ri);
    }
  }

  lemma RemembersNext(s: Scan, ranges: seq<LiveRange>, regs: seq<nat>, n: nat)
    requires n < |ranges| && Fitted(s, ranges, regs, n) && SortedByFirst(ranges) && FirstFitAt(ranges, regs, n)
    requires s.ranges[n] == ranges[n]
    ensures Remembers(Occupy(Expire(s, ranges[n].first), n, regs[n]), ranges, regs, n + 1)
  {
    var e := Expire(s, ranges[n].first);
    var s' := Occupy(e, n, regs[n]);
    forall ri | 0 <= ri < NUM_TEMPS && s'.expire[ri] >= 0
      ensures InUse(ranges, regs, n + 1, ri, s'.expire[ri])
    {
      if ri == regs[n] {
        assert regs[n] == ri && ranges[n].last >= s'.expire[ri];
      } else {
        assert InUse(ranges, regs, n, ri, s.expire[ri]);
      }
    }
    forall j, k | 0 <= j < n + 1 <= k < |ranges| && regs[j] < NUM_TEMPS
      ensures ranges[j].last < ranges[k].first || ranges[j].last <= s'.expire[regs[j]]
    {
      if j < n {
        assert ranges[j].last < ranges[n].first || ranges[j].last <= s.expire[regs[j]];
        assert ranges[n].first <= ranges[k].first;
      }
    }
  }

  lemma {:induction false} FitsUpTo(ranges: seq<LiveRange>, regs: seq<nat>, n: nat)
    requires FirstFit(ranges, regs) && n <= |ranges|
    ensures |Start(ranges).ranges| == |ranges| && Fitted(PlaceUpTo(Start(ranges), n), ranges, regs, n)
  {
    hide *;
    FitsStart(ranges, regs);
    PlaceUpToStep(Start(ranges), n);
    if n > 0 {
      FitsUpTo(ranges, regs, n - 1);
      FitsNext(PlaceUpTo(Start(ranges), n - 1), ranges, regs, n - 1);
    }
  }

  lemma PlaceUpToStep(s: Scan, n: nat)
    requires Shape(s) && n <= |s.ranges|
    ensures PlaceUpTo(s, n) == if n == 0 then s else Place(PlaceUpTo(s, n - 1), n - 1)
  {
  }

  lemma FitsStart(ranges: seq<LiveRange>, regs: seq<nat>)
    requires FirstFit(ranges, regs)
    ensures |ranges| == |regs| && Shape(Start(ranges)) && Start(ranges).ranges == ranges && Fitted(Start(ranges), ranges, regs, 0)
  {
    hide Start;
    hide Fitted;
    StartFree(ranges);
    NothingPlaced(Start(ranges), ranges, regs);
  }

  lemma StartFree(ranges: seq<LiveRange>)
    requires SortedByFirst(ranges)
    ensures var s := Start(ranges);
            Shape(s) && s.ranges == ranges && s.next == FIRST_SPILL && forall ri :: 0 <= ri < NUM_TEMPS ==> s.expire[ri] == -1
  {
    SortedStays(ranges);
    hide SortRanges;
    hide SortedByFirst;
  }

  lemma NothingPlaced(s: Scan, ranges: seq<LiveRange>, regs: seq<nat>)
    requires Shape(s) && s.ranges == ranges && s.next == FIRST_SPILL && |ranges| == |regs|
    requires forall ri :: 0 <= ri < NUM_TEMPS ==> s.expire[ri] == -1
    ensures Fitted(s, ranges, regs, 0)
  {
    assert InRegs(ranges, regs)[..0] + ranges[0..] == ranges;
  }

  /** While a register is free at every start, nothing is spilled, and every
      value gets the first register that no value defined before it still
      holds. */
  lemma FirstFitCorrect(ranges: seq<LiveRange>, regs: seq<nat>)
    requires FirstFit(ranges, regs)
    ensures Allocate(ranges).ranges == InRegs(ranges, regs) && Allocate(ranges).next == FIRST_SPILL
  {
    FitsUpTo(ranges, regs, |ranges|);
  }

  // ---- when a value is spilled ----

  /** The values alive at instruction p. */
  function AliveAt(ranges: seq<LiveRange>, p: nat): set<LiveRange> {
    set r | r in ranges && r.first <= p <= r.last
  }

  /** Some instruction has more values alive than there are registers. */
  ghost predicate Crowded(ranges: seq<LiveRange>) {
    exists p: nat :: |AliveAt(ranges, p)| > NUM_TEMPS
  }

  function RegIn(placed: seq<LiveRange>, id: int): int {
    var k := IndexOf(placed, id);
    if k >= 0 then placed[k].reg else -1
  }

  lemma {:induction false} RegistersSuffice(alive: set<LiveRange>, placed: seq<LiveRange>, regs: set<int>)
    requires forall r <- alive :: RegIn(placed, r.id) in regs
    requires forall a, b :: a in alive && b in alive && a != b ==> RegIn(placed, a.id) != RegIn(placed, b.id)
    ensures |alive| <= |regs|
  {
    if alive != {} {
      var r :| r in alive;
      RegistersSuffice(alive - {r}, placed, regs - {RegIn(placed, r.id)});
    }
  }

  lemma PlacedAt(ranges: seq<LiveRange>, placed: seq<LiveRange>, r: LiveRange) returns (k: nat)
    requires SameValues(ranges, placed) && r in ranges
    ensures k < |placed| && SameButPlace(r, placed[k]) && RegIn(placed, r.id) == placed[k].reg
  {
    k :| k < |placed| && SameButPlace(r, placed[k]);
    hide SameButPlace;
    assert placed[k].id == r.id by {
      assert SameButPlace(r, placed[k]);
      PlacedId(r, placed[k]);
    }
    IndexUnique(placed, k);
  }

  lemma PlacedId(a: LiveRange, b: LiveRange)
    requires SameButPlace(a, b)
    ensures a.id == b.id && a.first == b.first && a.last == b.last
  {
  }

  lemma AliveApart(ranges: seq<LiveRange>, placed: seq<LiveRange>, a: LiveRange, b: LiveRange, p: nat)
    requires SameValues(ranges, placed) && a in ranges && b in ranges && a != b
    requires a.first <= p <= a.last && b.first <= p <= b.last
    requires forall i, j :: 0 <= i < j < |placed| ==> Apart(placed[i], placed[j])
    requires forall k :: 0 <= k < |placed| ==> placed[k].reg >= 0
    requires UniqueIds(ranges)
    ensures RegIn(placed, a.id) != RegIn(placed, b.id)
  {
    var i := PlacedAt(ranges, placed, a);
    var j := PlacedAt(ranges, placed, b);
    hide SameValues;
    hide RegIn;
    PlacedId(a, placed[i]);
    PlacedId(b, placed[j]);
    hide SameButPlace;
    IdsDiffer(ranges, a, b);
    assert if i < j then Apart(placed[i], placed[j]) else Apart(placed[j], placed[i]);
  }

  lemma IdsDiffer(ranges: seq<LiveRange>, a: LiveRange, b: LiveRange)
    requires UniqueIds(ranges) && a in ranges && b in ranges && a != b
    ensures a.id != b.id
  {
  }

  lemma AliveInReg(ranges: seq<LiveRange>, placed: seq<LiveRange>, next: int, r: LiveRange)
    requires SameValues(ranges, placed) && r in ranges
    requires forall k :: 0 <= k < |placed| ==> Homed(placed[k], next) && placed[k].reg >= 0
    ensures RegIn(placed, r.id) in {9, 10, 11, 12, 13, 14, 15}
  {
    var k := PlacedAt(ranges, placed, r);
    hide SameValues;
    hide RegIn;
    assert Homed(placed[k], next);
  }

  /** Values alive together have registers of their own, so seven at most. */
  lemma UnspilledFew(ranges: seq<LiveRange>, p: nat)
    requires UniqueIds(ranges) && Unassigned(ranges)
    requires forall k :: 0 <= k < |Allocate(ranges).ranges| ==> Allocate(ranges).ranges[k].reg >= 0
    ensures |AliveAt(ranges, p)| <= NUM_TEMPS
  {
    LinearScanCorrect(ranges);
    hide SameValues;
    hide Allocate;
    hide Homed;
    hide Apart;
    hide RegIn;
    var s := Allocate(ranges);
    var alive := AliveAt(ranges, p);
    forall r <- alive
      ensures RegIn(s.ranges, r.id) in {9, 10, 11, 12, 13, 14, 15}
    {
      AliveInReg(ranges, s.ranges, s.next, r);
    }
    forall a, b | a in alive && b in alive && a != b
      ensures RegIn(s.ranges, a.id) != RegIn(s.ranges, b.id)
    {
      AliveApart(ranges, s.ranges, a, b, p);
    }
    RegistersSuffice(alive, s.ranges, {9, 10, 11, 12, 13, 14, 15});
  }

  lemma {:induction false} FewerIn<T>(a: set<T>, b: set<T>)
    requires a <= b
    ensures |a| <= |b|
  {
    if a != {} {
      var x :| x in a;
      FewerIn(a - {x}, b - {x});
    }
  }

  lemma HolderOf(ranges: seq<LiveRange>, regs: seq<nat>, n: nat, ri: nat, at: nat) returns (j: nat)
    requires n <= |ranges| && n <= |regs| && InUse(ranges, regs, n, ri, at)
    ensures j < n && regs[j] == ri && ranges[j].last >= at
  {
    j :| 0 <= j < n && regs[j] == ri && ranges[j].last >= at;
  }

  /** The range with this holder is one of the first n, in a register below c. */
  predicate HeldBelow(ranges: seq<LiveRange>, regs: seq<nat>, n: nat, c: nat, r: LiveRange)
    requires n <= |ranges| && n <= |regs|
  {
    exists j :: 0 <= j < n && ranges[j] == r && regs[j] < c
  }

  lemma {:induction false} Holders(ranges: seq<LiveRange>, regs: seq<nat>, n: nat, c: nat, at: nat)
    returns (held: set<LiveRange>)
    requires n <= |ranges| && n <= |regs| && UniqueIds(ranges) && SortedByFirst(ranges)
    requires n > 0 ==> ranges[n - 1].first <= at
    requires forall ri :: 0 <= ri < c ==> InUse(ranges, regs, n, ri, at)
    ensures |held| == c && held <= AliveAt(ranges, at) && forall r <- held :: HeldBelow(ranges, regs, n, c, r)
  {
    if c == 0 {
      held := {};
    } else {
      var below := Holders(ranges, regs, n, c - 1, at);
      var j := HolderOf(ranges, regs, n, c - 1, at);
      hide InUse;
      assert ranges[j] !in below;
      assert ranges[j].first <= ranges[n - 1].first;
      held := below + {ranges[j]};
    }
  }

  /** Seven registers in use and a new value are eight values alive. */
  lemma AllInUse(ranges: seq<LiveRange>, regs: seq<nat>, n: nat)
    requires n < |ranges| && n <= |regs| && SortedByFirst(ranges) && UniqueIds(ranges) && Unassigned(ranges)
    requires forall ri :: 0 <= ri < NUM_TEMPS ==> InUse(ranges, regs, n, ri, ranges[n].first)
    ensures |AliveAt(ranges, ranges[n].first)| > NUM_TEMPS
  {
    var at := ranges[n].first;
    var held := Holders(ranges, regs, n, NUM_TEMPS, at);
    hide InUse;
    assert ranges[n] !in held;
    FewerIn(held + {ranges[n]}, AliveAt(ranges, at));
  }

  function FirstUnused(ranges: seq<LiveRange>, regs: seq<nat>, n: nat, at: nat, from: nat): (ri: nat)
    requires n <= |ranges| && n <= |regs| && from <= NUM_TEMPS
    ensures from <= ri <= NUM_TEMPS && (ri < NUM_TEMPS ==> !InUse(ranges, regs, n, ri, at))
    ensures forall i :: from <= i < ri ==> InUse(ranges, regs, n, i, at)
    decreases NUM_TEMPS - from
  {
    if from == NUM_TEMPS || !InUse(ranges, regs, n, from, at) then from else FirstUnused(ranges, regs, n, at, from + 1)
  }

  lemma InUseSame(ranges: seq<LiveRange>, regs: seq<nat>, ri: nat, k: nat)
    requires k < |ranges| && k < |regs| && FirstFitAt(ranges, regs, k)
    ensures FirstFitAt(ranges, regs + [ri], k)
  {
    var more := regs + [ri];
    forall r: nat, at: nat
      ensures InUse(ranges, more, k, r, at) <==> InUse(ranges, regs, k, r, at)
    {
      if InUse(ranges, regs, k, r, at) {
        var j := HolderOf(ranges, regs, k, r, at);
        assert more[j] == r;
      }
      if InUse(ranges, more, k, r, at) {
        var j := HolderOf(ranges, more, k, r, at);
        assert regs[j] == r;
      }
    }
  }

  lemma {:induction false} FitExists(ranges: seq<LiveRange>, n: nat) returns (regs: seq<nat>)
    requires n <= |ranges| && SortedByFirst(ranges) && UniqueIds(ranges) && Unassigned(ranges) && !Crowded(ranges)
    ensures |regs| == n && forall k :: 0 <= k < n ==> FirstFitAt(ranges, regs, k)
  {
    if n == 0 {
      regs := [];
    } else {
      var before := FitExists(ranges, n - 1);
      var ri := FirstUnused(ranges, before, n - 1, ranges[n - 1].first, 0);
      if ri == NUM_TEMPS {
        AllInUse(ranges, before, n - 1);
        assert false;
      }
      regs := before + [ri];
      forall k | 0 <= k < n - 1
        ensures FirstFitAt(ranges, regs, k)
      {
        InUseSame(ranges, before, ri, k);
      }
      NextFits(ranges, before, ri);
    }
  }

  lemma NextFits(ranges: seq<LiveRange>, regs: seq<nat>, ri: nat)
    requires |regs| < |ranges| && ri < NUM_TEMPS && !InUse(ranges, regs, |regs|, ri, ranges[|regs|].first)
    requires forall i :: 0 <= i < ri ==> InUse(ranges, regs, |regs|, i, ranges[|regs|].first)
    ensures FirstFitAt(ranges, regs + [ri], |regs|)
  {
    var more, n := regs + [ri], |regs|;
    forall i: nat | i <= ri
      ensures InUse(ranges, more, n, i, ranges[n].first) <==> InUse(ranges, regs, n, i, ranges[n].first)
    {
      if InUse(ranges, regs, n, i, ranges[n].first) {
        var j := HolderOf(ranges, regs, n, i, ranges[n].first);
        assert more[j] == i;
      }
      if InUse(ranges, more, n, i, ranges[n].first) {
        var j := HolderOf(ranges, more, n, i, ranges[n].first);
        assert regs[j] == i;
      }
    }
  }

  lemma SameAlive(ranges: seq<LiveRange>, p: nat)
    ensures AliveAt(SortRanges(ranges), p) == AliveAt(ranges, p)
  {
    SortKeeps(ranges);
    hide SortRanges;
  }

  /** The scan of the sorted ranges is the scan of the ranges. */
  lemma SameScan(ranges: seq<LiveRange>)
    ensures Allocate(SortRanges(ranges)) == Allocate(ranges)
  {
    SortCorrect(ranges);
    SortedStays(SortRanges(ranges));
    hide SortRanges;
  }

  /** MAIN RESULT. The scan sends a value to the stack exactly when somewhere
      more than seven values are alive: it spills only when no allocation to
      registers is possible. */
  lemma SpillsIffCrowded(ranges: seq<LiveRange>)
    requires UniqueIds(ranges) && Unassigned(ranges)
    ensures (exists r <- Allocate(ranges).ranges :: r.reg < 0) <==> Crowded(ranges)
  {
    var placed := Allocate(ranges).ranges;
    if Crowded(ranges) {
      var p: nat :| |AliveAt(ranges, p)| > NUM_TEMPS;
      if forall k :: 0 <= k < |placed| ==> placed[k].reg >= 0 {
        UnspilledFew(ranges, p);
        assert false;
      }
    } else {
      UncrowdedUnspilled(ranges);
    }
  }

  lemma UncrowdedUnspilled(ranges: seq<LiveRange>)
    requires UniqueIds(ranges) && Unassigned(ranges) && !Crowded(ranges)
    ensures forall r <- Allocate(ranges).ranges :: r.reg >= 0
  {
    var sorted := SortRanges(ranges);
    SortCorrect(ranges);
    SortKeeps(ranges);
    SameScan(ranges);
    hide SortRanges;
    hide Allocate;
    hide FirstFitAt;
    forall p: nat
      ensures |AliveAt(sorted, p)| <= NUM_TEMPS
    {
      SameAlive(ranges, p);
    }
    var regs := FitExists(sorted, |sorted|);
    FirstFitCorrect(sorted, regs);
  }
}
