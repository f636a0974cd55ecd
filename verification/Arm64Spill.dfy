/** Spilling: which value goes to the stack, and how much of the stack that
    takes. */
module Arm64Spill {
  import opened Ir
  import opened Arm64Alloc
  import opened Arm64Scan
  import opened Arm64Emit
  import opened Arm64Sim
  import opened Arm64Layout

  // ---- which value is spilled ----

  /** Every register holds a value that is alive when range n starts. */
  predicate AllBusy(s: Scan, n: nat)
    requires Shape(s) && n < |s.ranges|
  {
    forall ri :: 0 <= ri < NUM_TEMPS ==> s.expire[ri] >= s.ranges[n].first
  }

  /** Of the values in registers, x ends last. */
  predicate EndsLast(s: Scan, n: nat, x: nat)
    requires Shape(s) && n < |s.ranges| && x < |s.ranges|
  {
    && x < n && FIRST_TEMP <= s.ranges[x].reg < FIRST_TEMP + NUM_TEMPS && s.ranges[x].last >= s.ranges[n].first
    && (forall ri :: 0 <= ri < NUM_TEMPS ==> s.expire[ri] <= s.ranges[x].last)
  }

  /** A value is spilled exactly when every register is busy. Then it is the new
      value, if that ends before all of those in registers do, and otherwise the
      one of them that ends last, whose register the new value takes. */
  lemma PlaceSpills(s: Scan, n: nat) returns (x: nat)
    requires Inv(s, n) && n < |s.ranges|
    ensures x < |s.ranges|
    ensures !AllBusy(s, n) ==> Place(s, n).next == s.next && Place(s, n).ranges[n].reg >= 0 &&
                               Place(s, n).ranges == s.ranges[n := Place(s, n).ranges[n]]
    ensures AllBusy(s, n) ==> EndsLast(s, n, x) && Place(s, n).next == s.next - 8
    ensures AllBusy(s, n) ==>
              Place(s, n).ranges ==
              if s.ranges[n].last < s.ranges[x].last then s.ranges[n := s.ranges[n].(reg := -1, spill := s.next)]
              else s.ranges[x := s.ranges[x].(reg := -1, spill := s.next)][n := s.ranges[n].(reg := s.ranges[x].reg)]
  {
    var e := Expire(s, s.ranges[n].first);
    x := n;
    if AllBusy(s, n) {
      assert e.expire == s.expire && e.value == s.value;
      var best := Latest(s.expire, NUM_TEMPS);
      assert Held(s, n, best);
      x := IndexOf(s.ranges, s.value[best]);
    } else {
      var ri :| 0 <= ri < NUM_TEMPS && s.expire[ri] < s.ranges[n].first;
      assert e.expire[ri] < 0;
    }
  }

  // ---- how many slots ----

  function Spilled(ranges: seq<LiveRange>, n: nat): nat
    requires n <= |ranges|
  {
    if n == 0 then 0 else Spilled(ranges, n - 1) + (if ranges[n - 1].reg < 0 then 1 else 0)
  }

  lemma {:induction false} SpilledSame(a: seq<LiveRange>, b: seq<LiveRange>, n: nat)
    requires n <= |a| == |b| && forall k :: 0 <= k < n ==> (a[k].reg < 0 <==> b[k].reg < 0)
    ensures Spilled(a, n) == Spilled(b, n)
  {
    if n > 0 {
      SpilledSame(a, b, n - 1);
    }
  }

  lemma {:induction false} SpilledOneMore(a: seq<LiveRange>, b: seq<LiveRange>, n: nat, x: nat)
    requires x < n <= |a| == |b| && a[x].reg >= 0 && b[x].reg < 0
    requires forall k :: 0 <= k < n && k != x ==> (a[k].reg < 0 <==> b[k].reg < 0)
    ensures Spilled(b, n) == Spilled(a, n) + 1
  {
    if x == n - 1 {
      SpilledSame(a, b, n - 1);
    } else {
      SpilledOneMore(a, b, n - 1, x);
    }
  }

  /** Every slot handed out belongs to a spilled value. */
  lemma PlaceDense(s: Scan, n: nat)
    requires Inv(s, n) && n < |s.ranges| && s.next == FIRST_SPILL - 8 * Spilled(s.ranges, n)
    ensures Place(s, n).next == FIRST_SPILL - 8 * Spilled(Place(s, n).ranges, n + 1)
  {
    var x := PlaceSpills(s, n);
    var r := Place(s, n).ranges;
    hide Place;
    hide Inv;
    hide Expire;
    if !AllBusy(s, n) {
      SpilledSame(s.ranges, r, n);
    } else if s.ranges[n].last < s.ranges[x].last {
      SpilledSame(s.ranges, r, n);
    } else {
      SpilledOneMore(s.ranges, r, n, x);
    }
  }

  lemma {:induction false} DenseUpTo(s: Scan, n: nat)
    requires Shape(s) && Inv(s, 0) && n <= |s.ranges| && s.next == FIRST_SPILL
    ensures PlaceUpTo(s, n).next == FIRST_SPILL - 8 * Spilled(PlaceUpTo(s, n).ranges, n)
  {
    hide Place;
    hide Inv;
    if n > 0 {
      DenseUpTo(s, n - 1);
      PlaceUpToKeeps(s, n - 1);
      PlaceDense(PlaceUpTo(s, n - 1), n - 1);
    }
  }

  /** The spill area holds eight bytes for each spilled value and no more. */
  lemma SpillsDense(ranges: seq<LiveRange>)
    requires UniqueIds(ranges) && Unassigned(ranges)
    ensures var s := Allocate(ranges); |s.ranges| == |ranges| && s.next == FIRST_SPILL - 8 * Spilled(s.ranges, |ranges|)
  {
    StartInv(ranges);
    SortCorrect(ranges);
    hide Inv;
    hide SortRanges;
    DenseUpTo(Start(ranges), |ranges|);
  }

  // ---- the frame ----

  /** MAIN RESULT for the frame: its size is a multiple of 16 that reaches every
      spill slot and every alloca slot. It is the least one for 16 bytes of saved
      registers, eight for each alloca and each spilled value, and eight more
      when the number of spilled values is odd. */
  lemma FrameCovers(f: Function)
    requires WithinLimits(f.params, Linear(f.blocks))
    ensures var ctx := Context(f);
            && ctx.frame % 16 == 0
            && (forall a :: 0 <= a < |ctx.allocas| ==> ctx.allocas[a].off + ctx.frame >= 0)
            && (forall k :: 0 <= k < |ctx.ranges| && ctx.ranges[k].reg < 0 ==> ctx.ranges[k].spill + ctx.frame >= 0)
    ensures var ctx := Context(f);
            var spilled := Spilled(ctx.ranges, |ctx.ranges|);
            var needed := 16 + 8 * (spilled + spilled % 2) + 8 * |ctx.allocas|;
            needed <= ctx.frame < needed + 16
  {
    hide Allocate;
    hide LiveRanges;
    hide Linear;
    hide WithinLimits;
    hide AllocaSlots;
    SpillArea(f);
    LiveRangesShape(f);
    SpillsDense(LiveRanges(f));
    var s := Allocate(LiveRanges(f));
    AllocaSlotAt(Linear(f.blocks), -16 - SpillBytes(s.next));
    RoundedPairs(Spilled(s.ranges, |s.ranges|));
  }

  /** The bytes the prologue reserves lie from x29 up, since it moves sp down by
      the size of the frame and then copies it to x29. */
  predicate Reserved(frame: nat, off: int) {
    0 <= off && off + 8 <= frame
  }

  /** Every slot has a negative offset from x29, so none of them lies in the bytes
      its frame was sized for: they lie in as many bytes below. */
  lemma NoSlotReserved(f: Function)
    requires WithinLimits(f.params, Linear(f.blocks))
    ensures var ctx := Context(f);
            && (forall a :: 0 <= a < |ctx.allocas| ==> !Reserved(ctx.frame, ctx.allocas[a].off))
            && (forall k :: 0 <= k < |ctx.ranges| && ctx.ranges[k].reg < 0 ==> !Reserved(ctx.frame, ctx.ranges[k].spill))
  {
    hide Allocate;
    hide LiveRanges;
    hide Linear;
    hide WithinLimits;
    hide AllocaSlots;
    SpillArea(f);
    LiveRangesShape(f);
    LinearScanCorrect(LiveRanges(f));
    var s := Allocate(LiveRanges(f));
    AllocaSlotAt(Linear(f.blocks), -16 - SpillBytes(s.next));
    forall k | 0 <= k < |s.ranges| && s.ranges[k].reg < 0
      ensures s.ranges[k].spill < 0
    {
      assert Homed(s.ranges[k], s.next);
    }
  }

  lemma RoundedPairs(n: nat)
    ensures SpillBytes(FIRST_SPILL - 8 * n) == 8 * (n + n % 2)
  {
  }
}
