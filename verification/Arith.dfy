/** Division facts behind the mapping from guest sectors to table entries. */
module Arith {

  lemma MulMono(a: int, b: int, m: int)
    requires a <= b && m >= 0
    ensures a * m <= b * m
  {
  }

  lemma DivUnique(a: int, b: int, q: int, r: int)
    requires b > 0 && a == q * b + r && 0 <= r < b
    ensures a / b == q && a % b == r
  {
    var q', r' := a / b, a % b;
    assert a == q' * b + r';
    if q' > q {
      MulMono(q + 1, q', b);
    } else if q' < q {
      MulMono(q' + 1, q, b);
    }
  }

  lemma DivDiv(k: nat, a: nat, b: nat)
    requires a > 0 && b > 0
    ensures a * b > 0 && k / (a * b) == (k / a) / b
  {
    var q, r := k / a, k % a;
    var q2, r2 := q / b, q % b;
    assert k == q2 * (a * b) + (r2 * a + r) by {
      assert k == q * a + r && q == q2 * b + r2;
      assert (q2 * b + r2) * a == q2 * (a * b) + r2 * a;
    }
    assert 0 <= r2 * a + r < a * b by {
      MulMono(r2 + 1, b, a);
      assert (r2 + 1) * a == r2 * a + a;
    }
    DivUnique(k, a * b, q2, r2 * a + r);
  }

  /** Staying inside the same multiple of m. */
  lemma DivStep(k: nat, m: nat, x: nat)
    requires m > 0 && k % m + x < m
    ensures (k + x) / m == k / m && (k + x) % m == k % m + x
  {
    DivUnique(k + x, m, k / m, k % m + x);
  }

  lemma DivEqual(j: nat, k: nat, m: nat)
    requires m > 0 && j / m == k / m && j % m == k % m
    ensures j == k
  {
    assert j == (j / m) * m + j % m && k == (k / m) * m + k % m;
  }

  lemma DivMono(a: int, b: int, m: int)
    requires 0 <= a <= b && m > 0
    ensures a / m <= b / m
  {
    if a / m > b / m {
      MulMono(b / m + 1, a / m, m);
    }
  }

  // ---------- Growing by one half ----------

  function Larger(n: nat): nat { if n == 0 then 1 else (n * 3 + 1) / 2 }

  /** n grown k times. */
  function LargerTimes(n: nat, k: nat): nat { if k == 0 then n else Larger(LargerTimes(n, k - 1)) }

  lemma {:induction false} LargerFrom(n: nat, k: nat)
    ensures LargerTimes(Larger(n), k) == LargerTimes(n, k + 1)
  {
    if k > 0 {
      LargerFrom(n, k - 1);
    }
  }
}
