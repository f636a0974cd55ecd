/** What fixes the arithmetic of the intermediate representation: each operation
    by a property that no other function has. */
module IrLaws {
  import opened Ir

  /** Wrapping changes a value by a multiple of a power of two, and by nothing
      when it already fits. */
  lemma WrapsModulo(x: int) returns (k: int, k': int)
    ensures x == Wrap64(x) + TWO_64 * k && (-TWO_63 <= x < TWO_63 ==> k == 0)
    ensures x == Wrap32(x) + TWO_32 * k' && (-TWO_31 <= x < TWO_31 ==> k' == 0)
  {
    k, k' := (x + TWO_63) / TWO_64, (x + TWO_31) / TWO_32;
  }

  /** Division truncates: with the remainder, which is smaller than the divisor
      and has the sign of the dividend, it rebuilds the dividend. */
  lemma DivisionTruncates(a: int, b: int)
    requires b != 0
    ensures var q, r := Quotient(a, b), Remainder(a, b);
            && a == b * q + r
            && (if b > 0 then -b < r < b else b < r < -b)
            && (a >= 0 ==> r >= 0) && (a <= 0 ==> r <= 0)
  {
    var m, n := if a >= 0 then a else -a, if b > 0 then b else -b;
    var q := Quotient(a, b);
    Euclid(m, n);
    var k := m / n;
    if (a >= 0) == (b > 0) {
      assert q == k;
      SignsCancel(b, k);
    } else {
      assert q == -k;
      SignsCancel(b, k);
    }
  }

  lemma Euclid(m: nat, n: nat)
    requires n > 0
    ensures m == n * (m / n) + m % n && 0 <= m % n < n
  {
  }

  lemma SignsCancel(b: int, k: int)
    ensures -b * k == -(b * k) && b * -k == -(b * k)
  {
  }

  /** No other quotient and remainder do. */
  lemma DivisionUnique(a: int, b: int, q: int, r: int)
    requires b != 0 && a == b * q + r
    requires if b > 0 then -b < r < b else b < r < -b
    requires (a >= 0 ==> r >= 0) && (a <= 0 ==> r <= 0)
    ensures q == Quotient(a, b) && r == Remainder(a, b)
  {
    DivisionTruncates(a, b);
    var q', r' := Quotient(a, b), Remainder(a, b);
    Distribute(b, q, q');
    SmallMultiple(b, q - q');
  }

  lemma Distribute(b: int, q: int, q': int)
    ensures b * (q - q') == b * q - b * q'
  {
  }

  lemma LargeMultiple(b: int, d: int)
    requires b > 0 && d != 0
    ensures if d > 0 then b * d >= b else b * d <= -b
  {
  }

  lemma SmallMultiple(b: int, d: int)
    requires b != 0 && (if b > 0 then -b < b * d < b else b < b * d < -b)
    ensures d == 0
  {
    SignsCancel(b, d);
    if d != 0 {
      LargeMultiple(if b > 0 then b else -b, d);
      assert false;
    }
  }

  /** The six comparisons: three exclusive cases and their complements. */
  lemma Comparisons(a: int, b: int)
    ensures Compare(Lt, a, b) <==> a < b
    ensures Compare(Gt, a, b) <==> Compare(Lt, b, a)
    ensures Compare(Eq, a, b) <==> !Compare(Lt, a, b) && !Compare(Gt, a, b)
    ensures Compare(Ne, a, b) <==> !Compare(Eq, a, b)
    ensures Compare(Le, a, b) <==> !Compare(Gt, a, b)
    ensures Compare(Ge, a, b) <==> !Compare(Lt, a, b)
  {
  }
}
