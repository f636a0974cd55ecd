/** Live ranges and linear-scan register allocation of the ARM64 back end. */
module Arm64Alloc {
  import opened Ir

  const MAX_VALUES := 4096
  const NUM_TEMPS := 7
  const FIRST_TEMP := 9
  const FIRST_SPILL := -16

  /** Where a value lives: a register, or (reg == -1) a slot `spill` bytes from
      the frame pointer; `first` and `last` are instruction numbers. */
  datatype LiveRange = LiveRange(id: int, reg: int, spill: int, first: nat, last: nat)

  // ---- live ranges ----

  /** The operands of an instruction; -1 is none. */
  function Uses(inst: Inst): seq<int> {
    match inst
    case Bin(_, _, l, r) => [l, r]
    case Cmp(_, _, l, r) => [l, r]
    case Logic(_, _, l, r) => [l, r]
    case Neg(_, x) => [x]
    case Not(_, x) => [x]
    case Cast(_, _, x) => [x]
    case Load(_, _, a) => [a]
    case Store(v, a) => [v, a]
    case Ret(x) => [x]
    case Br(c, _, _) => [c]
    case Phi(_, _, incoming) => PhiUses(incoming)
    case _ => []
  }

  function PhiUses(incoming: seq<PhiArg>): seq<int> {
    if incoming == [] then [] else PhiUses(incoming[..|incoming| - 1]) + [incoming[|incoming| - 1].value]
  }

  /** Instructions in linear order across the blocks. */
  function Linear(blocks: seq<Block>): seq<Inst> {
    if blocks == [] then [] else Linear(blocks[..|blocks| - 1]) + blocks[|blocks| - 1].insts
  }

  /** First pass: one range per defined value, starting where it is defined. */
  function Defs(insts: seq<Inst>): seq<LiveRange> {
    if insts == [] then []
    else
      var n := |insts| - 1;
      var before := Defs(insts[..n]);
      if insts[n].Result() >= 0 && |before| < MAX_VALUES
      then before + [LiveRange(insts[n].Result(), -1, -1, n, n)]
      else before
  }

  predicate Tracked(ranges: seq<LiveRange>, id: int) {
    exists k :: 0 <= k < |ranges| && ranges[k].id == id
  }

  /** Parameters that no instruction defines start at instruction 0. */
  function WithParams(ranges: seq<LiveRange>, params: seq<Param>): seq<LiveRange> {
    if params == [] then ranges
    else
      var before := WithParams(ranges, params[..|params| - 1]);
      var id := params[|params| - 1].id;
      if !Tracked(before, id) && |before| < MAX_VALUES then before + [LiveRange(id, -1, -1, 0, 0)] else before
  }

  function IndexOf(ranges: seq<LiveRange>, id: int): (k: int)
    ensures -1 <= k < |ranges|
    ensures k >= 0 ==> ranges[k].id == id && forall j :: 0 <= j < k ==> ranges[j].id != id
    ensures k == -1 ==> forall j :: 0 <= j < |ranges| ==> ranges[j].id != id
  {
    if ranges == [] then -1
    else if ranges[0].id == id then 0
    else
      var k := IndexOf(ranges[1..], id);
      if k < 0 then -1 else k + 1
  }

  /** A use at instruction `at` keeps the value alive until then. */
  function Extend(ranges: seq<LiveRange>, id: int, at: nat): seq<LiveRange> {
    var k := IndexOf(ranges, id);
    if id >= 0 && k >= 0 && at > ranges[k].last then ranges[k := ranges[k].(last := at)] else ranges
  }

  function ExtendAll(ranges: seq<LiveRange>, ids: seq<int>, at: nat): seq<LiveRange> {
    if ids == [] then ranges else Extend(ExtendAll(ranges, ids[..|ids| - 1], at), ids[|ids| - 1], at)
  }

  function ExtendUses(ranges: seq<LiveRange>, insts: seq<Inst>): seq<LiveRange> {
    if insts == [] then ranges
    else
      var n := |insts| - 1;
      ExtendAll(ExtendUses(ranges, insts[..n]), Uses(insts[n]), n)
  }

  function LiveRanges(f: Function): seq<LiveRange> {
    var insts := Linear(f.blocks);
    ExtendUses(WithParams(Defs(insts), f.params), insts)
  }

  // ---- what the ranges mean ----

  predicate UniqueIds(ranges: seq<LiveRange>) {
    forall i, j :: 0 <= i < j < |ranges| ==> ranges[i].id != ranges[j].id
  }

  predicate Unassigned(ranges: seq<LiveRange>) {
    forall k :: 0 <= k < |ranges| ==> ranges[k].reg == -1 && ranges[k].spill == -1 && ranges[k].first <= ranges[k].last
  }

  /** Same values, same starts, no range ends earlier. */
  predicate Extends(a: seq<LiveRange>, b: seq<LiveRange>) {
    |a| == |b| && forall k :: 0 <= k < |a| ==> b[k] == a[k].(last := b[k].last) && a[k].last <= b[k].last
  }

  lemma {:induction false} ExtendAllExtends(ranges: seq<LiveRange>, ids: seq<int>, at: nat)
    ensures Extends(ranges, ExtendAll(ranges, ids, at))
  {
    if ids != [] {
      ExtendAllExtends(ranges, ids[..|ids| - 1], at);
    }
  }

  lemma {:induction false} ExtendAllReaches(ranges: seq<LiveRange>, ids: seq<int>, at: nat, i: nat, k: nat)
    requires i < |ids| && ids[i] >= 0 && k == IndexOf(ranges, ids[i])
    ensures |ExtendAll(ranges, ids, at)| == |ranges| && ExtendAll(ranges, ids, at)[k].last >= at
  {
    var n := |ids| - 1;
    var before := ExtendAll(ranges, ids[..n], at);
    ExtendAllExtends(ranges, ids[..n], at);
    SameIndex(ranges, before, ids[i]);
    if i < n {
      ExtendAllReaches(ranges, ids[..n], at, i, k);
    }
  }

  lemma SameIndex(a: seq<LiveRange>, b: seq<LiveRange>, id: int)
    requires Extends(a, b)
    ensures IndexOf(a, id) == IndexOf(b, id)
  {
    var i, j := IndexOf(a, id), IndexOf(b, id);
    if 0 <= i {
      assert b[i].id == id;
    }
    if 0 <= j {
      assert a[j].id == id;
    }
  }

  lemma {:induction false} ExtendUsesExtends(ranges: seq<LiveRange>, insts: seq<Inst>)
    ensures Extends(ranges, ExtendUses(ranges, insts))
  {
    if insts != [] {
      var n := |insts| - 1;
      ExtendUsesExtends(ranges, insts[..n]);
      ExtendAllExtends(ExtendUses(ranges, insts[..n]), Uses(insts[n]), n);
    }
  }

  /** A value used by instruction p is alive at p. */
  lemma {:induction false} UseIsAlive(ranges: seq<LiveRange>, insts: seq<Inst>, p: nat, i: nat, k: nat)
    requires p < |insts| && i < |Uses(insts[p])| && Uses(insts[p])[i] >= 0
    requires k == IndexOf(ranges, Uses(insts[p])[i])
    ensures |ExtendUses(ranges, insts)| == |ranges| && ExtendUses(ranges, insts)[k].last >= p
  {
    hide Uses;
    hide IndexOf;
    hide ExtendAll;
    var n := |insts| - 1;
    var id := Uses(insts[p])[i];
    var before := ExtendUses(ranges, insts[..n]);
    ExtendUsesExtends(ranges, insts[..n]);
    SameIndex(ranges, before, id);
    ExtendAllExtends(before, Uses(insts[n]), n);
    if p < n {
      UseIsAlive(ranges, insts[..n], p, i, k);
    } else {
      ExtendAllReaches(before, Uses(insts[n]), n, i, k);
    }
  }

  // ---- the ranges exactly ----

  /** Exactly the instructions numbered `at` define values. */
  predicate DefinedAt(insts: seq<Inst>, at: seq<nat>) {
    && (forall k :: 0 <= k < |at| ==> at[k] < |insts| && insts[at[k]].Result() >= 0)
    && (forall j, k :: 0 <= j < k < |at| ==> at[j] < at[k])
    && (forall p :: 0 <= p < |insts| && insts[p].Result() >= 0 ==> p in at)
  }

  function RangesAt(insts: seq<Inst>, at: seq<nat>): seq<LiveRange>
    requires forall k :: 0 <= k < |at| ==> at[k] < |insts|
  {
    seq(|at|, k requires 0 <= k < |at| => LiveRange(insts[at[k]].Result(), -1, -1, at[k], at[k]))
  }

  lemma DefsStep(insts: seq<Inst>)
    requires insts != []
    ensures var n := |insts| - 1;
            Defs(insts) ==
            if insts[n].Result() >= 0 && |Defs(insts[..n])| < MAX_VALUES
            then Defs(insts[..n]) + [LiveRange(insts[n].Result(), -1, -1, n, n)] else Defs(insts[..n])
  {
  }

  lemma DefinedBefore(insts: seq<Inst>, at: seq<nat>)
    requires insts != [] && DefinedAt(insts, at)
    ensures var n := |insts| - 1;
            if insts[n].Result() >= 0 then at != [] && at[|at| - 1] == n && DefinedAt(insts[..n], at[..|at| - 1])
            else DefinedAt(insts[..n], at)
  {
    var n := |insts| - 1;
    if insts[n].Result() >= 0 {
      assert n in at;
      forall p | 0 <= p < n && insts[p].Result() >= 0
        ensures p in at[..|at| - 1]
      {
        assert p in at;
      }
    }
  }

  lemma RangesLast(insts: seq<Inst>, at: seq<nat>)
    requires insts != [] && DefinedAt(insts, at)
    ensures forall k :: 0 <= k < |at| ==> at[k] < |insts|
    ensures var n := |insts| - 1;
            if insts[n].Result() >= 0
            then at != [] && DefinedAt(insts[..n], at[..|at| - 1]) &&
                 RangesAt(insts, at) == RangesAt(insts[..n], at[..|at| - 1]) + [LiveRange(insts[n].Result(), -1, -1, n, n)]
            else DefinedAt(insts[..n], at) && RangesAt(insts, at) == RangesAt(insts[..n], at)
  {
    DefinedBefore(insts, at);
  }

  /** One range per defining instruction, in the order of the text. */
  lemma {:induction false} DefsExact(insts: seq<Inst>, at: seq<nat>)
    requires DefinedAt(insts, at) && |at| <= MAX_VALUES
    ensures (forall k :: 0 <= k < |at| ==> at[k] < |insts|) && Defs(insts) == RangesAt(insts, at)
  {
    hide *;
    if insts == [] {
      NoDefs(at);
    } else {
      RangesLast(insts, at);
      DefsStep(insts);
      var n := |insts| - 1;
      if insts[n].Result() >= 0 {
        var before := at[..|at| - 1];
        DefsExact(insts[..n], before);
        RangesCount(insts[..n], before);
      } else {
        DefsExact(insts[..n], at);
      }
    }
  }

  lemma NoDefs(at: seq<nat>)
    requires DefinedAt([], at)
    ensures at == [] && Defs([]) == RangesAt([], at)
  {
    assert (at + [0])[0] <= 0;
  }

  lemma RangesCount(insts: seq<Inst>, at: seq<nat>)
    requires forall k :: 0 <= k < |at| ==> at[k] < |insts|
    ensures |RangesAt(insts, at)| == |at|
  {
  }

  lemma {:induction false} ExtendAllKeeps(ranges: seq<LiveRange>, ids: seq<int>, at: nat, k: nat)
    requires k < |ranges| && (ranges[k].id !in ids || ranges[k].last >= at)
    ensures |ExtendAll(ranges, ids, at)| == |ranges| && ExtendAll(ranges, ids, at)[k] == ranges[k]
  {
    if ids != [] {
      ExtendAllKeeps(ranges, ids[..|ids| - 1], at, k);
    }
  }

  lemma {:induction false} ExtendAllBelow(ranges: seq<LiveRange>, ids: seq<int>, at: nat, k: nat)
    requires k < |ranges| && ranges[k].last <= at
    ensures |ExtendAll(ranges, ids, at)| == |ranges| && ExtendAll(ranges, ids, at)[k].last <= at
  {
    if ids != [] {
      ExtendAllBelow(ranges, ids[..|ids| - 1], at, k);
    }
  }

  lemma {:induction false} ExtendUsesBelow(ranges: seq<LiveRange>, insts: seq<Inst>, k: nat, last: nat)
    requires k < |ranges| && ranges[k].last <= last && |insts| <= last + 1
    ensures |ExtendUses(ranges, insts)| == |ranges| && ExtendUses(ranges, insts)[k].last <= last
  {
    hide ExtendAll;
    if insts != [] {
      var n := |insts| - 1;
      var before := ExtendUses(ranges, insts[..n]);
      ExtendUsesBelow(ranges, insts[..n], k, last);
      if before[k].last <= n {
        ExtendAllBelow(before, Uses(insts[n]), n, k);
      } else {
        ExtendAllKeeps(before, Uses(insts[n]), n, k);
      }
    }
  }

  /** `last` is where the value of range k is used last, or where it is defined
      when no use comes after that. */
  predicate LastUse(ranges: seq<LiveRange>, insts: seq<Inst>, k: nat, last: nat)
    requires k < |ranges|
  {
    && ranges[k].last <= last
    && (ranges[k].last < last ==> last < |insts| && ranges[k].id in Uses(insts[last]))
    && (forall p :: last < p < |insts| ==> ranges[k].id !in Uses(insts[p]))
  }

  /** A range ends at the last use in the text. */
  lemma {:induction false} EndsAtLastUse(ranges: seq<LiveRange>, insts: seq<Inst>, k: nat, last: nat)
    requires k < |ranges| && ranges[k].id >= 0 && IndexOf(ranges, ranges[k].id) == k && LastUse(ranges, insts, k, last)
    ensures |ExtendUses(ranges, insts)| == |ranges| && ExtendUses(ranges, insts)[k] == ranges[k].(last := last)
  {
    hide Uses;
    hide IndexOf;
    hide ExtendAll;
    if insts != [] {
      var n := |insts| - 1;
      var before := ExtendUses(ranges, insts[..n]);
      if last == n && ranges[k].last < n {
        var i :| 0 <= i < |Uses(insts[n])| && Uses(insts[n])[i] == ranges[k].id;
        UseIsAlive(ranges, insts, n, i, k);
        ExtendUsesBelow(ranges, insts, k, n);
        ExtendUsesExtends(ranges, insts);
      } else {
        EndsAtLastUse(ranges, insts[..n], k, last);
        ExtendAllKeeps(before, Uses(insts[n]), n, k);
      }
    }
  }

  // ---- sorting by start ----

  /** Insert from the right, past the ranges that start later. */
  function InsertRange(sorted: seq<LiveRange>, key: LiveRange): seq<LiveRange> {
    if sorted == [] || sorted[|sorted| - 1].first <= key.first then sorted + [key]
    else InsertRange(sorted[..|sorted| - 1], key) + [sorted[|sorted| - 1]]
  }

  function SortRanges(ranges: seq<LiveRange>): seq<LiveRange> {
    if ranges == [] then [] else InsertRange(SortRanges(ranges[..|ranges| - 1]), ranges[|ranges| - 1])
  }

  predicate SortedByFirst(ranges: seq<LiveRange>) {
    forall i, j :: 0 <= i < j < |ranges| ==> ranges[i].first <= ranges[j].first
  }

  lemma InsertHere(sorted: seq<LiveRange>, key: LiveRange)
    requires sorted == [] || sorted[|sorted| - 1].first <= key.first
    ensures InsertRange(sorted, key) == sorted + [key]
  {
  }

  lemma SortStep(r: seq<LiveRange>)
    ensures r == [] ==> SortRanges(r) == []
    ensures r != [] ==> SortRanges(r) == InsertRange(SortRanges(r[..|r| - 1]), r[|r| - 1])
  {
    hide InsertRange;
  }

  lemma {:induction false} SortedStays(r: seq<LiveRange>)
    requires SortedByFirst(r)
    ensures SortRanges(r) == r
  {
    hide SortRanges;
    hide InsertRange;
    SortStep(r);
    if r != [] {
      var n := |r| - 1;
      SortedStays(r[..n]);
      InsertHere(r[..n], r[n]);
      assert r == r[..n] + [r[n]];
    }
  }

  lemma {:induction false} InsertIsPermutation(sorted: seq<LiveRange>, key: LiveRange)
    ensures multiset(InsertRange(sorted, key)) == multiset(sorted) + multiset{key}
  {
    if sorted != [] && sorted[|sorted| - 1].first > key.first {
      var n := |sorted| - 1;
      InsertIsPermutation(sorted[..n], key);
      assert sorted == sorted[..n] + [sorted[n]];
    }
  }

  lemma {:induction false} InsertSorted(sorted: seq<LiveRange>, key: LiveRange)
    requires SortedByFirst(sorted)
    ensures SortedByFirst(InsertRange(sorted, key))
    ensures forall r <- InsertRange(sorted, key) :: r == key || r in sorted
  {
    if sorted != [] && sorted[|sorted| - 1].first > key.first {
      var n := |sorted| - 1;
      InsertSorted(sorted[..n], key);
      var r := InsertRange(sorted[..n], key);
      forall i | 0 <= i < |r|
        ensures r[i].first <= sorted[n].first
      {
        assert r[i] in r;
      }
    }
  }

  /** Sorting orders the ranges by start and loses or invents none. */
  lemma {:induction false} SortCorrect(ranges: seq<LiveRange>)
    ensures SortedByFirst(SortRanges(ranges))
    ensures multiset(SortRanges(ranges)) == multiset(ranges)
    ensures |SortRanges(ranges)| == |ranges|
  {
    if ranges != [] {
      var n := |ranges| - 1;
      SortCorrect(ranges[..n]);
      InsertSorted(SortRanges(ranges[..n]), ranges[n]);
      InsertIsPermutation(SortRanges(ranges[..n]), ranges[n]);
      assert ranges == ranges[..n] + [ranges[n]];
      assert |multiset(SortRanges(ranges))| == |multiset(ranges)|;
    }
  }

  lemma SortKeeps(ranges: seq<LiveRange>)
    ensures forall r :: r in SortRanges(ranges) <==> r in ranges
    ensures UniqueIds(ranges) ==> UniqueIds(SortRanges(ranges))
    ensures Unassigned(ranges) ==> Unassigned(SortRanges(ranges))
  {
    SortCorrect(ranges);
    var s := SortRanges(ranges);
    assert forall r :: r in s <==> r in multiset(s);
    assert forall r :: r in ranges <==> r in multiset(ranges);
    assert forall k :: 0 <= k < |s| ==> s[k] in s;
    if UniqueIds(ranges) {
      UniqueByMultiset(ranges, s);
    }
  }

  lemma {:induction false} MultisetTwice(s: seq<LiveRange>, i: nat, j: nat)
    requires i < j < |s| && s[i] == s[j]
    ensures multiset(s)[s[i]] >= 2
  {
    assert s == s[..j] + [s[j]] + s[j + 1..];
    assert s[i] in s[..j];
    assert multiset(s) == multiset(s[..j]) + multiset{s[j]} + multiset(s[j + 1..]);
  }

  lemma {:induction false} UniqueCountsOnce(s: seq<LiveRange>, r: LiveRange)
    requires UniqueIds(s)
    ensures multiset(s)[r] <= 1
  {
    if s != [] {
      var n := |s| - 1;
      assert s == s[..n] + [s[n]];
      UniqueCountsOnce(s[..n], r);
      if r == s[n] {
        assert r !in s[..n];
        assert r !in multiset(s[..n]);
      }
    }
  }

  lemma UniqueByMultiset(a: seq<LiveRange>, b: seq<LiveRange>)
    requires UniqueIds(a) && multiset(a) == multiset(b)
    ensures UniqueIds(b)
  {
    forall i, j | 0 <= i < j < |b|
      ensures b[i].id != b[j].id
    {
      assert b[i] in multiset(b) && b[j] in multiset(b);
      assert b[i] in a && b[j] in a;
      if b[i] == b[j] {
        MultisetTwice(b, i, j);
        UniqueCountsOnce(a, b[i]);
      } else {
        var x :| 0 <= x < |a| && a[x] == b[i];
        var y :| 0 <= y < |a| && a[y] == b[j];
        assert x != y;
      }
    }
  }
}
