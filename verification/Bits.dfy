/** Bit vectors of any width, least significant bit first, and the numbers they stand for. */
module Bits {

  type Bits = seq<bool>

  function Pow2(n: nat): (r: nat)
    ensures r >= 1
  {
    if n == 0 then 1 else 2 * Pow2(n - 1)
  }

  function Bit(b: bool): (r: nat)
    ensures r <= 1
  {
    if b then 1 else 0
  }

  function Zeros(n: nat): (z: Bits)
    ensures |z| == n
  {
    seq(n, _ => false)
  }

  function Not(v: Bits): (r: Bits)
    ensures |r| == |v|
  {
    seq(|v|, k requires 0 <= k < |v| => !v[k])
  }

  /** The unsigned number. */
  function Value(v: Bits): nat {
    if v == [] then 0 else Value(v[..|v| - 1]) + Bit(v[|v| - 1]) * Pow2(|v| - 1)
  }

  /** The two's-complement number. */
  function Signed(v: Bits): int
    requires |v| > 0
  {
    Value(v) - Bit(v[|v| - 1]) * Pow2(|v|)
  }

  lemma Pow2Step(n: nat)
    ensures Pow2(0) == 1 && Pow2(n + 1) == 2 * Pow2(n)
  {
  }

  lemma ValueStep(v: Bits)
    requires v != []
    ensures Value(v) == Value(v[..|v| - 1]) + if v[|v| - 1] then Pow2(|v| - 1) else 0
  {
  }

  lemma ValueNil(v: Bits)
    requires v == []
    ensures Value(v) == 0
  {
  }

  lemma SignedStep(v: Bits)
    requires v != []
    ensures Signed(v) == Value(v) - (if v[|v| - 1] then 2 * Pow2(|v| - 1) else 0)
    ensures Signed(v) == Value(v[..|v| - 1]) - (if v[|v| - 1] then Pow2(|v| - 1) else 0)
  {
    hide Value;
    ValueStep(v);
  }

  lemma {:induction false} ValueBound(v: Bits)
    ensures Value(v) < Pow2(|v|)
    decreases |v|
  {
    if v != [] {
      ValueBound(v[..|v| - 1]);
    }
  }

  lemma ValueSnoc(v: Bits, b: bool)
    ensures Value(v + [b]) == Value(v) + Bit(b) * Pow2(|v|)
  {
    assert (v + [b])[..|v|] == v;
  }

  lemma {:induction false} ValueZeros(n: nat)
    ensures Value(Zeros(n)) == 0
  {
    if n > 0 {
      assert Zeros(n)[..n - 1] == Zeros(n - 1);
      ValueZeros(n - 1);
    }
  }

  lemma {:induction false} Pow2Add(m: nat, n: nat)
    ensures Pow2(m + n) == Pow2(m) * Pow2(n)
    decreases n
  {
    if n > 0 {
      Pow2Add(m, n - 1);
      assert Pow2(m + n) == 2 * Pow2(m + (n - 1));
      assert 2 * (Pow2(m) * Pow2(n - 1)) == Pow2(m) * (2 * Pow2(n - 1));
    }
  }

  lemma {:induction false} ValueConcat(u: Bits, v: Bits)
    ensures Value(u + v) == Value(u) + Pow2(|u|) * Value(v)
    decreases |v|
  {
    if v == [] {
      assert u + v == u;
    } else {
      var n := |v| - 1;
      assert u + v == (u + v[..n]) + [v[n]];
      ValueSnoc(u + v[..n], v[n]);
      ValueConcat(u, v[..n]);
      Pow2Add(|u|, n);
      Distribute(Pow2(|u|), Value(v[..n]), Bit(v[n]), Pow2(n));
    }
  }

  lemma Distribute(p: int, x: int, b: int, q: int)
    ensures p * x + b * (p * q) == p * (x + b * q)
  {
  }

  lemma {:induction false} ValueUpdate(v: Bits, p: nat, x: bool)
    requires p < |v|
    ensures Value(v[p := x]) == Value(v) - (if v[p] then Pow2(p) else 0) + (if x then Pow2(p) else 0)
    decreases |v|
  {
    var n := |v| - 1;
    assert v == v[..n] + [v[n]];
    if p == n {
      assert v[p := x] == v[..n] + [x];
      ValueSnoc(v[..n], x);
    } else {
      assert v[p := x] == v[..n][p := x] + [v[n]];
      ValueSnoc(v[..n][p := x], v[n]);
      ValueUpdate(v[..n], p, x);
    }
  }

  lemma {:induction false} ValueNot(v: Bits)
    ensures Value(Not(v)) == Pow2(|v|) - 1 - Value(v)
    decreases |v|
  {
    if v != [] {
      var n := |v| - 1;
      assert Not(v) == Not(v[..n]) + [!v[n]];
      ValueSnoc(Not(v[..n]), !v[n]);
      ValueNot(v[..n]);
    }
  }

  lemma ValueDouble(v: Bits)
    ensures Value([false] + v) == 2 * Value(v)
  {
    hide Value; hide Pow2;
    ValueConcat([false], v);
    ValueZeros(1);
    assert Zeros(1) == [false];
    Pow2Step(0);
    Twice(Pow2(1), Value(v));
  }

  lemma Twice(p: int, x: int)
    requires p == 2
    ensures p * x == 2 * x
  {
  }

  lemma DivUnique(q: int, r: int, k: int, f: int, m: int)
    requires 0 <= r < m && 0 <= f < m && q * m + r == k * m + f
    ensures q == k && r == f
  {
    if q > k { MulAtLeast(q - k, m); } else if q < k { MulAtLeast(k - q, m); }
    assert (q - k) * m == f - r;
  }

  lemma MulAtLeast(a: int, m: int)
    requires a >= 1 && m >= 1
    ensures a * m >= m
  {
  }

  /** The remainder is the only representative in range. */
  lemma ModUnique(x: int, f: int, k: int, m: int)
    requires 0 <= f < m && x == f + k * m
    ensures x % m == f && x / m == k
  {
    DivUnique(x / m, x % m, k, f, m);
  }

  /** A word is determined by its number: bit `k` is the one that counts `2^k`. */
  lemma {:induction false} ValueInjective(u: Bits, v: Bits)
    requires |u| == |v| && Value(u) == Value(v)
    ensures u == v
    decreases |u|
  {
    if u != [] {
      var n := |u| - 1;
      ValueBound(u[..n]);
      ValueBound(v[..n]);
      ValueInjective(u[..n], v[..n]);
      assert u == u[..n] + [u[n]] && v == v[..n] + [v[n]];
    }
  }

  lemma {:induction false} BitCounts(v: Bits, k: nat)
    requires k < |v|
    ensures Value(v) / Pow2(k) % 2 == Bit(v[k])
    decreases |v|
  {
    hide Value; hide Pow2;
    var n := |v| - 1;
    ValueBound(v[..n]);
    ValueStep(v);
    if k == n {
      TopBit(Value(v[..n]), Value(v), v[n], Pow2(n));
    } else {
      BitCounts(v[..n], k);
      Pow2Add(k, n - k);
      Pow2Step(n - k - 1);
      hide Bit;
      if v[n] {
        assert Pow2(n) == Pow2(k) * (2 * Pow2(n - k - 1));
        HigherBit(Value(v[..n]), Pow2(k), Pow2(n - k - 1));
      }
    }
  }

  lemma TopBit(low: nat, x: nat, b: bool, p: nat)
    requires low < p && x == low + if b then p else 0
    ensures x / p % 2 == Bit(b)
  {
    ModUnique(x, low, if b then 1 else 0, p);
  }

  /** Adding an even multiple leaves the bit alone. */
  lemma HigherBit(low: nat, p: nat, half: nat)
    requires p > 0
    ensures (low + p * (2 * half)) / p % 2 == low / p % 2
  {
    ModUnique(low + p * (2 * half), low % p, low / p + 2 * half, p);
  }

  /** Two's complement: the top bit counts negatively. */
  lemma SignedRange(v: Bits)
    requires v != []
    ensures 0 - Pow2(|v| - 1) <= Signed(v) < Pow2(|v| - 1)
    ensures (Signed(v) < 0 <==> v[|v| - 1]) && (Value(v) == if Signed(v) >= 0 then Signed(v) else Signed(v) + Pow2(|v|))
  {
    ValueBound(v[..|v| - 1]);
  }
}
