/** Ring buffers: positions in a ring, and what a ring keeps of a history. */
module Rings {
  /** The position i places after `from` in a ring of `size` slots. */
  function Place(from: nat, i: nat, size: nat): (r: nat)
    requires from < size && i <= size
    ensures r < size
  {
    if from + i < size then from + i else from + i - size
  }

  /** The code's way to a position, by remainder. */
  lemma PlaceIsModulo(from: nat, i: nat, size: nat)
    requires from < size && i <= size
    ensures (from + i) % size == Place(from, i, size)
  {
    var x, y := from + i, Place(from, i, size);
    var q := if x < size then 0 else 1;
    assert x == (x / size) * size + x % size;
    assert (x / size - q) * size == y - x % size;
    Multiples(x / size - q, size);
  }

  lemma Multiples(k: int, size: int)
    requires size > 0
    ensures k >= 1 ==> k * size >= size
    ensures k <= -1 ==> k * size <= -size
  {
    if k >= 1 {
      assert k * size == size + (k - 1) * size;
    } else if k <= -1 {
      assert k * size == -size + (k + 1) * size;
    }
  }

  /** The newest `size` elements, oldest first. */
  function Last<T>(history: seq<T>, size: nat): (r: seq<T>)
    ensures |r| == if |history| <= size then |history| else size
  {
    if |history| <= size then history else history[|history| - size..]
  }

  /** A full ring forgets its oldest element for a new one. */
  lemma LastRecord<T>(history: seq<T>, x: T, size: nat)
    requires size > 0
    ensures Last(history + [x], size) ==
            if |Last(history, size)| < size then Last(history, size) + [x] else Last(history, size)[1..] + [x]
  {
  }

  /** The slots from `head` on hold `kept`, oldest first. */
  ghost predicate Stores<T>(slots: seq<T>, head: nat, kept: seq<T>) {
    && head < |slots| && |kept| <= |slots|
    && forall i {:trigger kept[i]} :: 0 <= i < |kept| ==> slots[Place(head, i, |slots|)] == kept[i]
  }

  /** Writing the slot after the newest element: the ring grows, or forgets the
      oldest when it was full. */
  lemma StoresNext<T>(slots: seq<T>, head: nat, kept: seq<T>, x: T)
    requires Stores(slots, head, kept)
    ensures var after := slots[Place(head, |kept|, |slots|) := x];
            && (|kept| < |slots| ==> Stores(after, head, kept + [x]))
            && (|kept| == |slots| ==> Stores(after, Place(head, 1, |slots|), kept[1..] + [x]))
  {
  }
}
