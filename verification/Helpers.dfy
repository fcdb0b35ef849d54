/** A value that may be missing. */
module Optional {
  datatype Option<+T> = None | Some(value: T)
}

/** What rings and counters need of remainders by a size that is a variable. */
module Arithmetic {

  function Max(a: int, b: int): int { if a > b then a else b }

  function Min(a: int, b: int): int { if a < b then a else b }

  lemma MulAtLeast(a: int, m: int)
    requires 1 <= a && 0 < m
    ensures a * m >= m
  {
  }

  lemma MulAtMost(a: int, m: int)
    requires a <= 0 && 0 < m
    ensures a * m <= 0
  {
  }

  lemma ModUnique(x: int, m: int, q: int, r: int)
    requires 0 <= r < m && x == q * m + r
    ensures x % m == r
  {
    var d := q - x / m;
    assert d * m == x % m - r;
    if d >= 1 { MulAtLeast(d, m); }
    if d <= -1 { MulAtLeast(-d, m); }
  }

  lemma SmallMod(a: int, m: int)
    requires 0 <= a < m
    ensures a % m == a
  {
  }

  lemma ModShift(x: int, k: int, m: int)
    requires 0 < m
    ensures (x + k * m) % m == x % m
  {
    assert x == x / m * m + x % m;
    assert x + k * m == (x / m + k) * m + x % m;
    ModUnique(x + k * m, m, x / m + k, x % m);
  }

  lemma ModSucc(x: nat, m: int)
    requires 0 < m
    ensures (x + 1) % m == if x % m == m - 1 then 0 else x % m + 1
  {
    var q, r := x / m, x % m;
    if r == m - 1 {
      assert x + 1 == (q + 1) * m + 0;
      ModUnique(x + 1, m, q + 1, 0);
    } else {
      ModUnique(x + 1, m, q, r + 1);
    }
  }

  /** Less than a ring apart, two positions have different slots. */
  lemma SlotsDiffer(p: nat, q: nat, m: nat)
    requires p < q < p + m
    ensures p % m != q % m
  {
    if p % m == q % m {
      var d := q / m - p / m;
      assert d * m == q - p;
      if d >= 1 { MulAtLeast(d, m); }
      if d <= 0 { MulAtMost(d, m); }
    }
  }
}
