/** The entropy tracker: a ring of classification entries whose statistics are
    those of the last entries ever recorded. */
module Entropy {
  import opened Rings

  const DEFAULT_CAPACITY := 100

  datatype Entry = Entry(confidence: real, entropy: real, category: int)

  // ---- statistics of a plain list ----

  function SumConfidence(s: seq<Entry>): real {
    if s == [] then 0.0 else s[0].confidence + SumConfidence(s[1..])
  }

  function SumEntropy(s: seq<Entry>): real {
    if s == [] then 0.0 else s[0].entropy + SumEntropy(s[1..])
  }

  function CountLow(s: seq<Entry>, threshold: real): (n: nat)
    ensures n <= |s|
  {
    if s == [] then 0 else (if s[0].confidence < threshold then 1 else 0) + CountLow(s[1..], threshold)
  }

  function CountCategory(s: seq<Entry>, category: int): (n: nat)
    ensures n <= |s|
  {
    if s == [] then 0 else (if s[0].category == category then 1 else 0) + CountCategory(s[1..], category)
  }

  function Ratio(x: real, n: nat): real {
    if n == 0 then 0.0 else x / n as real
  }

  /** The entries of a window: the newest `window` of those retained, or all of
      them when the window is not positive or too large. */
  function Window(history: seq<Entry>, capacity: nat, window: int): (r: seq<Entry>)
  {
    var kept := Last(history, capacity);
    if window <= 0 || window > |kept| then kept else kept[|kept| - window..]
  }

  /** A window within the capacity is the same window of the whole history. */
  lemma WindowOfHistory(history: seq<Entry>, capacity: nat, window: int)
    requires 0 < window <= |history| && window <= capacity
    ensures Window(history, capacity, window) == history[|history| - window..]
  {
  }

  /** Otherwise it is everything the ring keeps. */
  lemma WindowOfRing(history: seq<Entry>, capacity: nat, window: int)
    requires window <= 0 || window > capacity || window > |history|
    ensures Window(history, capacity, window) == Last(history, capacity)
  {
  }

  // ---- sums and counts ----

  /** A sum is that of its parts, and of one entry its own figure. */
  lemma {:induction false} SumsAdd(a: seq<Entry>, b: seq<Entry>)
    ensures SumConfidence(a + b) == SumConfidence(a) + SumConfidence(b)
    ensures SumEntropy(a + b) == SumEntropy(a) + SumEntropy(b)
  {
    if a == [] {
      assert a + b == b;
    } else {
      assert (a + b)[1..] == a[1..] + b;
      SumsAdd(a[1..], b);
    }
  }

  lemma SumsOfOne(e: Entry)
    ensures SumConfidence([e]) == e.confidence && SumEntropy([e]) == e.entropy
  {
    assert [e][1..] == [];
  }

  lemma OneMoreTimes(x: real, n: nat)
    ensures x * (n + 1) as real == x + x * n as real
  {
  }

  lemma {:induction false} ConfidenceBetween(s: seq<Entry>, low: real, high: real)
    requires forall i :: 0 <= i < |s| ==> low <= s[i].confidence <= high
    ensures low * |s| as real <= SumConfidence(s) <= high * |s| as real
  {
    if s != [] {
      ConfidenceBetween(s[1..], low, high);
      OneMoreTimes(low, |s| - 1);
      OneMoreTimes(high, |s| - 1);
    }
  }

  lemma {:induction false} EntropyBetween(s: seq<Entry>, low: real, high: real)
    requires forall i :: 0 <= i < |s| ==> low <= s[i].entropy <= high
    ensures low * |s| as real <= SumEntropy(s) <= high * |s| as real
  {
    if s != [] {
      EntropyBetween(s[1..], low, high);
      OneMoreTimes(low, |s| - 1);
      OneMoreTimes(high, |s| - 1);
    }
  }

  /** An average of at least one entry lies between the least and the greatest
      of the figures. */
  lemma AveragesBetween(s: seq<Entry>, low: real, high: real)
    requires s != []
    ensures (forall i :: 0 <= i < |s| ==> low <= s[i].confidence <= high) ==> low <= Ratio(SumConfidence(s), |s|) <= high
    ensures (forall i :: 0 <= i < |s| ==> low <= s[i].entropy <= high) ==> low <= Ratio(SumEntropy(s), |s|) <= high
  {
    hide SumConfidence;
    hide SumEntropy;
    hide Ratio;
    if forall i :: 0 <= i < |s| ==> low <= s[i].confidence <= high {
      ConfidenceBetween(s, low, high);
      DividedBetween(low, SumConfidence(s), high, |s|);
    }
    if forall i :: 0 <= i < |s| ==> low <= s[i].entropy <= high {
      EntropyBetween(s, low, high);
      DividedBetween(low, SumEntropy(s), high, |s|);
    }
  }

  lemma MonotoneTimes(a: real, b: real, n: nat)
    requires n > 0
    ensures a * n as real <= b * n as real ==> a <= b
  {
    assert (b - a) * n as real == b * n as real - a * n as real;
  }

  lemma DividedBetween(low: real, x: real, high: real, n: nat)
    requires n > 0 && low * n as real <= x <= high * n as real
    ensures low <= Ratio(x, n) <= high
  {
    var q := Ratio(x, n);
    assert q * n as real == x;
    hide Ratio;
    MonotoneTimes(low, q, n);
    MonotoneTimes(q, high, n);
  }

  lemma {:induction false} CountsLast(s: seq<Entry>, threshold: real, category: int)
    requires s != []
    ensures var n := |s| - 1;
            && CountLow(s, threshold) == CountLow(s[..n], threshold) + (if s[n].confidence < threshold then 1 else 0)
            && CountCategory(s, category) == CountCategory(s[..n], category) + (if s[n].category == category then 1 else 0)
  {
    if |s| > 1 {
      CountsLast(s[1..], threshold, category);
      assert s[..|s| - 1][1..] == s[1..][..|s| - 2];
    }
  }

  /** The places of the entries below a threshold, and of those in a category. */
  function Low(s: seq<Entry>, threshold: real): set<nat> {
    set i | 0 <= i < |s| && s[i].confidence < threshold
  }

  function InCategory(s: seq<Entry>, category: int): set<nat> {
    set i | 0 <= i < |s| && s[i].category == category
  }

  lemma PlacesLast(s: seq<Entry>, threshold: real, category: int)
    requires s != []
    ensures var n := |s| - 1;
            && n !in Low(s[..n], threshold) && n !in InCategory(s[..n], category)
            && Low(s, threshold) == Low(s[..n], threshold) + (if s[n].confidence < threshold then {n} else {})
            && InCategory(s, category) == InCategory(s[..n], category) + (if s[n].category == category then {n} else {})
  {
  }

  /** The counts are the numbers of entries that qualify. */
  lemma {:induction false} CountsExact(s: seq<Entry>, threshold: real, category: int)
    ensures CountLow(s, threshold) == |Low(s, threshold)|
    ensures CountCategory(s, category) == |InCategory(s, category)|
  {
    if s == [] {
      assert Low(s, threshold) == {} && InCategory(s, category) == {};
    } else {
      hide CountLow;
      hide CountCategory;
      hide Low;
      hide InCategory;
      CountsExact(s[..|s| - 1], threshold, category);
      CountsLast(s, threshold, category);
      PlacesLast(s, threshold, category);
    }
  }

  // ---- the proportions ----

  /** The entries with a category below n. */
  function CountBelow(s: seq<Entry>, n: int): (c: nat)
    ensures c <= |s|
  {
    if s == [] then 0 else (if 0 <= s[0].category < n then 1 else 0) + CountBelow(s[1..], n)
  }

  function SumProportions(s: seq<Entry>, n: nat): real {
    if n == 0 then 0.0 else SumProportions(s, n - 1) + Ratio(CountCategory(s, n - 1) as real, |s|)
  }

  lemma {:induction false} CountSplits(s: seq<Entry>, n: nat)
    ensures CountBelow(s, n + 1) == CountBelow(s, n) + CountCategory(s, n)
  {
    if s != [] {
      CountSplits(s[1..], n);
    }
  }

  lemma {:induction false} NoneBelowZero(s: seq<Entry>)
    ensures CountBelow(s, 0) == 0
  {
    if s != [] {
      NoneBelowZero(s[1..]);
    }
  }

  /** The proportions of the first n categories add up to the share of entries
      that have one of them: to one exactly when all entries do. */
  lemma {:induction false} ProportionsAddUp(s: seq<Entry>, n: nat)
    requires s != []
    ensures SumProportions(s, n) == CountBelow(s, n) as real / |s| as real
    ensures SumProportions(s, n) == 1.0 <==> CountBelow(s, n) == |s|
  {
    if n == 0 {
      NoneBelowZero(s);
    } else {
      ProportionsAddUp(s, n - 1);
      CountSplits(s, n - 1);
      AddFractions(CountBelow(s, n - 1), CountCategory(s, n - 1), |s|);
    }
    WholeFraction(CountBelow(s, n), |s|);
  }

  lemma AddFractions(a: nat, b: nat, d: nat)
    requires d > 0
    ensures a as real / d as real + b as real / d as real == (a + b) as real / d as real
  {
  }

  lemma WholeFraction(a: nat, d: nat)
    requires d > 0
    ensures a as real / d as real == 1.0 <==> a == d
  {
    if a as real / d as real == 1.0 {
      assert a as real == (a as real / d as real) * d as real;
    }
  }

  // ---- the tracker ----

  class LcnEntropyTracker {
    const ring: array<Entry>
    const capacity: nat
    const categories: nat
    var head: nat
    var tail: nat
    var count: nat
    var total: nat
    ghost var history: seq<Entry>   // every entry ever recorded

    constructor (capacity: int, categories: int)
      ensures Valid() && history == [] && fresh(ring)
      ensures this.capacity == if capacity <= 0 then DEFAULT_CAPACITY else capacity
      ensures this.categories == if categories <= 0 then 1 else categories
    {
      var size: nat := if capacity <= 0 then DEFAULT_CAPACITY else capacity;
      this.capacity := size;
      this.categories := if categories <= 0 then 1 else categories;
      ring := new Entry[size](_ => Entry(0.0, 0.0, 0));
      head, tail, count, total, history := 0, 0, 0, 0, [];
    }

    ghost predicate Valid()
      reads this, ring
    {
      && ring.Length == capacity && 0 < capacity && 0 < categories
      && total == |history| && count == |Last(history, capacity)|
      && Stores(ring[..], head, Last(history, capacity)) && tail == Place(head, count, capacity)
    }

    ghost function Kept(): seq<Entry>
      reads this
    {
      Last(history, capacity)
    }

    method Record(confidence: real, entropy: real, category: int)
      requires Valid()
      modifies this, ring
      ensures Valid() && history == old(history) + [Entry(confidence, entropy, category)]
    {
      hide Last;
      var e := Entry(confidence, entropy, category);
      ghost var slots := ring[..];
      PlaceIsModulo(tail, 1, capacity);
      PlaceIsModulo(head, 1, capacity);
      LastRecord(history, e, capacity);
      StoresNext(slots, head, Kept(), e);
      hide Stores;
      ring[tail] := e;
      assert ring[..] == slots[tail := e];
      tail := (tail + 1) % capacity;
      if count < capacity {
        count := count + 1;
      } else {
        head := (head + 1) % capacity;
      }
      total := total + 1;
      history := history + [e];
    }

    method EffectiveWindow(window: int) returns (w: nat)
      requires Valid()
      ensures w == |Window(history, capacity, window)| <= count
      ensures Window(history, capacity, window) == Kept()[count - w..]
    {
      if window <= 0 || window > count {
        return count;
      }
      return window;
    }

    /** The slot of the i-th most recent entry. */
    method RecentIndex(i: nat) returns (idx: nat)
      requires Valid() && i < count
      ensures idx < ring.Length && ring[idx] == Kept()[count - 1 - i]
    {
      var at := tail - 1 - i;
      if at < 0 {
        at := at + capacity;
      }
      assert at == Place(head, count - 1 - i, capacity);
      assert ring[..][at] == Kept()[count - 1 - i];
      return at;
    }

    method AvgConfidence(window: int) returns (r: real)
      requires Valid()
      ensures var s := Window(history, capacity, window); r == Ratio(SumConfidence(s), |s|)
    {
      hide Stores;
      hide Last;
      var w := EffectiveWindow(window);
      if w == 0 {
        return 0.0;
      }
      ghost var kept := Kept();
      var sum := 0.0;
      var i := 0;
      while i < w
        invariant 0 <= i <= w
        invariant sum == SumConfidence(kept[count - i..])
      {
        var idx := RecentIndex(i);
        assert kept[count - i - 1..][1..] == kept[count - i..];
        sum := sum + ring[idx].confidence;
        i := i + 1;
      }
      return sum / w as real;
    }

    method AvgEntropy(window: int) returns (r: real)
      requires Valid()
      ensures var s := Window(history, capacity, window); r == Ratio(SumEntropy(s), |s|)
    {
      hide Stores;
      hide Last;
      var w := EffectiveWindow(window);
      if w == 0 {
        return 0.0;
      }
      ghost var kept := Kept();
      var sum := 0.0;
      var i := 0;
      while i < w
        invariant 0 <= i <= w
        invariant sum == SumEntropy(kept[count - i..])
      {
        var idx := RecentIndex(i);
        assert kept[count - i - 1..][1..] == kept[count - i..];
        sum := sum + ring[idx].entropy;
        i := i + 1;
      }
      return sum / w as real;
    }

    method LowConfidence(window: int, threshold: real) returns (r: real)
      requires Valid()
      ensures var s := Window(history, capacity, window); r == Ratio(CountLow(s, threshold) as real, |s|)
    {
      hide Stores;
      hide Last;
      var w := EffectiveWindow(window);
      if w == 0 {
        return 0.0;
      }
      ghost var kept := Kept();
      var low := 0;
      var i := 0;
      while i < w
        invariant 0 <= i <= w
        invariant low == CountLow(kept[count - i..], threshold)
      {
        var idx := RecentIndex(i);
        assert kept[count - i - 1..][1..] == kept[count - i..];
        if ring[idx].confidence < threshold {
          low := low + 1;
        }
        i := i + 1;
      }
      assert low == CountLow(Window(history, capacity, window), threshold);
      hide CountLow;
      return low as real / w as real;
    }

    /** Proportions of the categories both sides know; zero for the others. */
    method Distribution(window: int, dist: array<real>)
      requires Valid()
      modifies dist
      ensures var s, n := Window(history, capacity, window), dist.Length;
              forall c :: 0 <= c < n ==>
                dist[c] == if c < categories then Ratio(CountCategory(s, c) as real, |s|) else 0.0
    {
      hide Stores;
      hide Last;
      var w := EffectiveWindow(window);
      var nc := if dist.Length < categories then dist.Length else categories;
      var i := 0;
      while i < dist.Length
        invariant 0 <= i <= dist.Length
        invariant forall c :: 0 <= c < i ==> dist[c] == 0.0
      {
        dist[i] := 0.0;
        i := i + 1;
      }
      if w == 0 {
        return;
      }
      CountOccurrences(w, nc, dist);
      ghost var s := Window(history, capacity, window);
      i := 0;
      while i < nc
        invariant 0 <= i <= nc
        invariant forall c :: 0 <= c < i ==> dist[c] == Ratio(CountCategory(s, c) as real, w)
        invariant forall c :: i <= c < nc ==> dist[c] == CountCategory(s, c) as real
        invariant forall c :: nc <= c < dist.Length ==> dist[c] == 0.0
      {
        dist[i] := dist[i] / w as real;
        i := i + 1;
      }
    }

    method CountOccurrences(w: nat, nc: nat, dist: array<real>)
      requires Valid() && w <= count && nc <= dist.Length
      requires forall c :: 0 <= c < dist.Length ==> dist[c] == 0.0
      modifies dist
      ensures forall c :: 0 <= c < nc ==> dist[c] == CountCategory(Kept()[count - w..], c) as real
      ensures forall c :: nc <= c < dist.Length ==> dist[c] == 0.0
    {
      hide Stores;
      hide Last;
      ghost var kept := Kept();
      var i := 0;
      while i < w
        invariant 0 <= i <= w
        invariant forall c :: 0 <= c < nc ==> dist[c] == CountCategory(kept[count - i..], c) as real
        invariant forall c :: nc <= c < dist.Length ==> dist[c] == 0.0
      {
        var idx := RecentIndex(i);
        assert kept[count - i - 1..][1..] == kept[count - i..];
        var cat := ring[idx].category;
        if 0 <= cat < nc {
          dist[cat] := dist[cat] + 1.0;
        }
        i := i + 1;
      }
    }
  }
}
