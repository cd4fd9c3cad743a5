/** Division with remainder, as far as batches of blocks need it. */
module Arithmetic {

  lemma {:induction false} MulMonotone(a: nat, b: nat, c: nat)
    requires a <= b
    ensures a * c <= b * c
  {
    if a >= b {
    } else {
      MulMonotone(a, b - 1, c);
      assert b * c == (b - 1) * c + c;
    }
  }

  lemma DivModUnique(n: nat, size: nat, q: nat, r: nat)
    requires size >= 1 && n == q * size + r && r < size
    ensures n / size == q && n % size == r
  {
    var p := n / size;
    assert n == p * size + n % size;
    assert (p + 1) * size == p * size + size && (q + 1) * size == q * size + size;
    if p < q {
      MulMonotone(p + 1, q, size);
    } else if q < p {
      MulMonotone(q + 1, p, size);
    }
  }

  /** Of a window of `size` numbers, all round down to its first one just when that is a multiple. */
  lemma BatchStart(n: nat, first: nat, size: nat)
    requires size >= 1 && first <= n < first + size
    ensures n / size * size == first <==> first % size == 0
  {
    if first % size == 0 {
      var p := first / size;
      assert first == p * size;
      DivModUnique(n, size, p, n - first);
    } else if n / size * size == first {
      DivModUnique(first, size, n / size, 0);
    }
  }

  lemma NextBatchAligned(first: nat, size: nat)
    requires size >= 1
    ensures (first + size) % size == first % size
  {
    var q, r := first / size, first % size;
    assert first == q * size + r;
    assert (q + 1) * size == q * size + size;
    DivModUnique(first + size, size, q + 1, r);
  }
}
