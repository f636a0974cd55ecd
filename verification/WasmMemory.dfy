/** The one page of linear memory: string data, the slabs of the host-call sites,
    and the heap that allocas take cells from. */
module WasmMemory {
  import opened Bytes
  import opened Ir
  import opened Wasm
  import opened WasmCorrect
  import opened WasmData
  import opened WasmEmit
  import opened WasmSites

  const SCRATCH_BASE := 8192
  const STRIDE := 1088
  const SLAB_SIZE := 1040

  // ---- the three regions ----

  /** Where the slab of registered site i begins. */
  function Slab(i: nat): nat {
    SCRATCH_BASE + i * STRIDE
  }

  function Align16(n: nat): (r: nat)
    ensures n <= r < n + 16 && r % 16 == 0
  {
    (n + 15) / 16 * 16
  }

  /** The initial bump pointer: past the data and past the slabs, if any. */
  function HeapBase(strings: seq<WasmString>, calls: nat): nat {
    var data := EndOf(strings, |strings|);
    Align16(if calls > 0 && Slab(calls) > data then Slab(calls) else data)
  }

  predicate Apart(lo: int, hi: int, lo': int, hi': int) {
    hi <= lo' || hi' <= lo
  }

  /** Entry k, length prefix included, keeps out of the slab of site i. */
  predicate EntryClear(strings: seq<WasmString>, k: nat, i: nat)
    requires k < |strings|
  {
    Apart(strings[k].offset - 4, strings[k].offset + |strings[k].value|, Slab(i), Slab(i) + SLAB_SIZE)
  }

  /** With `calls` sites and `cells` heap cells everything lies in the page and
      nothing overlaps. */
  predicate MemoryOk(strings: seq<WasmString>, calls: nat, cells: nat) {
    && (forall k, i {:trigger EntryClear(strings, k, i)} ::
          0 <= k < |strings| && 0 <= i < calls ==> EntryClear(strings, k, i))
    && (forall k {:trigger strings[k]} :: 0 <= k < |strings| ==>
          strings[k].offset + |strings[k].value| <= HeapBase(strings, calls))
    && (forall i {:trigger Slab(i)} :: 0 <= i < calls ==> Slab(i) + SLAB_SIZE <= HeapBase(strings, calls))
    && HeapBase(strings, calls) + 8 * cells <= PAGE
  }

  // ---- how long the data is ----

  /** Each string takes four bytes for its length and its own, rounded up. */
  function Total(strings: seq<WasmString>): nat {
    if strings == [] then 0
    else Total(strings[..|strings| - 1]) + Align8(4 + |strings[|strings| - 1].value|)
  }

  lemma AlignAfter(base: nat, n: nat)
    requires base % 8 == 0
    ensures Align8(base + n) == base + Align8(n)
  {
    assert (base + n + 7) / 8 == base / 8 + (n + 7) / 8;
  }

  lemma {:induction false} EndIsTotal(strings: seq<WasmString>)
    requires LaidOut(strings)
    ensures EndOf(strings, |strings|) == DATA_BASE + Total(strings) && EndOf(strings, |strings|) % 8 == 0
  {
    if strings != [] {
      var n := |strings| - 1;
      var before := strings[..n];
      forall i {:trigger EndOf(before, i)} | 0 <= i < n
        ensures before[i].offset == EndOf(before, i) + 4
      {
        assert EndOf(before, i) == EndOf(strings, i);
      }
      EndIsTotal(before);
      assert EndOf(before, n) == EndOf(strings, n);
      assert strings[n].offset == EndOf(strings, n) + 4;
      AlignAfter(EndOf(strings, n), 4 + |strings[n].value|);
    }
  }

  /** Entries end one after the other. */
  lemma {:induction false} EndsBelow(strings: seq<WasmString>, k: nat, n: nat)
    requires LaidOut(strings) && k < n <= |strings|
    ensures strings[k].offset + |strings[k].value| <= EndOf(strings, n)
    decreases n
  {
    if k < n - 1 {
      EndsBelow(strings, k, n - 1);
      assert strings[n - 1].offset == EndOf(strings, n - 1) + 4;
    }
  }

  // ---- the data area below the slabs ----

  /** If the data reaches past the start of the slabs, some entry lies in the
      first one. */
  lemma {:induction false} FirstOver(strings: seq<WasmString>, n: nat) returns (k: nat)
    requires LaidOut(strings) && n <= |strings| && EndOf(strings, n) > SCRATCH_BASE
    ensures k < n && !EntryClear(strings, k, 0)
    decreases n
  {
    if EndOf(strings, n - 1) > SCRATCH_BASE {
      k := FirstOver(strings, n - 1);
    } else {
      k := n - 1;
      assert strings[k].offset == EndOf(strings, k) + 4;
    }
  }

  /** The entries keep out of the slabs exactly when the strings fit below them. */
  lemma DataBelowScratchIff(strings: seq<WasmString>, calls: nat)
    requires LaidOut(strings) && calls > 0
    ensures (forall k, i {:trigger EntryClear(strings, k, i)} ::
               0 <= k < |strings| && 0 <= i < calls ==> EntryClear(strings, k, i)) <==>
            Total(strings) <= SCRATCH_BASE - DATA_BASE
  {
    EndIsTotal(strings);
    if Total(strings) <= SCRATCH_BASE - DATA_BASE {
      forall k, i {:trigger EntryClear(strings, k, i)} | 0 <= k < |strings| && 0 <= i < calls
        ensures EntryClear(strings, k, i)
      {
        EndsBelow(strings, k, |strings|);
      }
    } else {
      var k := FirstOver(strings, |strings|);
    }
  }

  /** Different sites never share a slab. */
  lemma SlabsApart(i: nat, j: nat)
    requires i != j
    ensures Apart(Slab(i), Slab(i) + SLAB_SIZE, Slab(j), Slab(j) + SLAB_SIZE)
  {
    assert i < j ==> i * STRIDE + STRIDE <= j * STRIDE;
    assert j < i ==> j * STRIDE + STRIDE <= i * STRIDE;
  }

  lemma HeapAbove(strings: seq<WasmString>, calls: nat)
    requires LaidOut(strings)
    ensures forall k {:trigger strings[k]} :: 0 <= k < |strings| ==>
              strings[k].offset + |strings[k].value| <= HeapBase(strings, calls)
    ensures forall i {:trigger Slab(i)} :: 0 <= i < calls ==> Slab(i) + SLAB_SIZE <= HeapBase(strings, calls)
  {
    forall k {:trigger strings[k]} | 0 <= k < |strings|
      ensures strings[k].offset + |strings[k].value| <= HeapBase(strings, calls)
    {
      EndsBelow(strings, k, |strings|);
    }
    forall i {:trigger Slab(i)} | 0 <= i < calls
      ensures Slab(i) + SLAB_SIZE <= HeapBase(strings, calls)
    {
      assert i * STRIDE + STRIDE <= calls * STRIDE;
    }
  }

  /** MAIN RESULT. When the memory of a module is sound: with host calls, the
      strings take at most 7168 bytes and slabs and heap share the rest of the
      page, so at most 52 of the 64 sites the table holds have room; without,
      strings and heap share the page. */
  lemma MemoryOkIff(strings: seq<WasmString>, calls: nat, cells: nat)
    requires LaidOut(strings)
    ensures calls > 0 ==>
              (MemoryOk(strings, calls, cells) <==>
               Total(strings) <= SCRATCH_BASE - DATA_BASE && STRIDE * calls + 8 * cells <= PAGE - SCRATCH_BASE)
    ensures calls == 0 ==> (MemoryOk(strings, calls, cells) <==> Align16(DATA_BASE + Total(strings)) + 8 * cells <= PAGE)
    ensures MemoryOk(strings, calls, cells) ==> calls <= 52 < MAX_HOST_CALLS
  {
    EndIsTotal(strings);
    HeapAbove(strings, calls);
    if calls > 0 {
      DataBelowScratchIff(strings, calls);
      if Total(strings) <= SCRATCH_BASE - DATA_BASE {
        assert Align16(Slab(calls)) == Slab(calls) by {
          assert Slab(calls) == 16 * (512 + 68 * calls);
        }
      }
    }
    hide EntryClear;
  }

  /** Then the emitted functions have the memory their correctness relies on. */
  lemma HeapLayout(strings: seq<WasmString>, calls: nat, w: World)
    requires LaidOut(strings) && MemoryOk(strings, calls, w.cells)
    ensures HeapBase(strings, calls) < TWO_31 && Layout(HeapBase(strings, calls), w)
  {
  }
}
