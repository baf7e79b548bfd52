/** The structural multiplier of mul.sv: modified partial products and a carry-save chain.

    Widths are free: operands have `W >= 2` bits and every sum is `2 * W` bits wide. */
module Multiplier {
  import opened Bits

  // ---------------------------------------------------------------- carry-save adder

  /** csa.sv: three numbers in, a sum and a carry word out. */
  function CsaSum(a: Bits, b: Bits, c: Bits): (s: Bits)
    requires |a| == |b| == |c|
    ensures |s| == |a|
  {
    seq(|a|, k requires 0 <= k < |a| => (a[k] != b[k]) != c[k])
  }

  function CsaCarry(a: Bits, b: Bits, c: Bits): (s: Bits)
    requires |a| == |b| == |c|
    ensures |s| == |a|
  {
    seq(|a|, k requires 0 <= k < |a| => (a[k] && b[k]) || (c[k] && (a[k] != b[k])))
  }

  lemma {:induction false} CsaAdds(a: Bits, b: Bits, c: Bits)
    requires |a| == |b| == |c|
    ensures Value(CsaSum(a, b, c)) + 2 * Value(CsaCarry(a, b, c)) == Value(a) + Value(b) + Value(c)
    decreases |a|
  {
    hide Value; hide Pow2;
    var s, t := CsaSum(a, b, c), CsaCarry(a, b, c);
    if a != [] {
      var n := |a| - 1;
      CsaAdds(a[..n], b[..n], c[..n]);
      assert s[..n] == CsaSum(a[..n], b[..n], c[..n]);
      assert t[..n] == CsaCarry(a[..n], b[..n], c[..n]);
      ValueStep(a); ValueStep(b); ValueStep(c); ValueStep(s); ValueStep(t);
    } else {
      ValueNil(a); ValueNil(b); ValueNil(c); ValueNil(s); ValueNil(t);
    }
  }

  /** A carry word moved up one place inside its own width: the top carry falls off. */
  function Up(c: Bits): (r: Bits)
    requires |c| > 0
    ensures |r| == |c|
  {
    [false] + c[..|c| - 1]
  }

  lemma UpDoubles(c: Bits)
    requires |c| > 0
    ensures 2 * Value(c) == Value(Up(c)) + if c[|c| - 1] then Pow2(|c|) else 0
  {
    hide Value; hide Pow2;
    var n := |c| - 1;
    ValueDouble(c[..n]);
    Pow2Step(n);
    ValueStep(c);
  }

  // ---------------------------------------------------------------- partial products

  function Row(a: Bits, b: bool): (r: Bits)
    ensures |r| == |a|
  {
    seq(|a|, k requires 0 <= k < |a| => a[k] && b)
  }

  /** Unsigned partial product `i`: the row of `b[i]` moved up `i` places. */
  function Plain(a: Bits, b: Bits, i: nat): (r: Bits)
    requires |a| == |b| && i < |a|
    ensures |r| == 2 * |a|
  {
    Zeros(i) + Row(a, b[i]) + Zeros(|a| - i)
  }

  /** The partial product that enters the chain.  For signed operands the top bit of each row
      is inverted, the last row is inverted except for its top bit, and two ones are added. */
  function Partial(a: Bits, b: Bits, signed: bool, i: nat): (r: Bits)
    requires |a| == |b| >= 2 && i < |a|
    ensures |r| == 2 * |a|
  {
    var w := |a|;
    var us := Plain(a, b, i);
    if i == 0 then
      us[..w - 1] + (if signed then [!us[w - 1], true] else [us[w - 1], false]) + us[w + 1..]
    else if i < w - 1 then
      us[..w - 1 + i] + [if signed then !us[w - 1 + i] else us[w - 1 + i]] + us[w + i..]
    else if signed then
      Zeros(w - 1) + Not(us[w - 1..2 * w - 2]) + [us[2 * w - 2], true]
    else
      us
  }

  lemma {:induction false} ValueRow(a: Bits, b: bool)
    ensures Value(Row(a, b)) == if b then Value(a) else 0
    decreases |a|
  {
    if a != [] {
      var n := |a| - 1;
      assert Row(a, b)[..n] == Row(a[..n], b);
      ValueRow(a[..n], b);
    }
  }

  lemma ValuePlain(a: Bits, b: Bits, i: nat)
    requires |a| == |b| && i < |a|
    ensures Value(Plain(a, b, i)) == Pow2(i) * if b[i] then Value(a) else 0
  {
    hide Value; hide Pow2;
    var row := Row(a, b[i]);
    ValueConcat(Zeros(i) + row, Zeros(|a| - i));
    ValueConcat(Zeros(i), row);
    ValueZeros(i);
    ValueZeros(|a| - i);
    ValueRow(a, b[i]);
    assert Pow2(|Zeros(i) + row|) * 0 == 0;
  }

  /** Inverting the row's top bit `t` turns the operand's top bit negative, up to a constant. */
  lemma MiddleRow(a: Bits, b: Bits, i: nat)
    requires |a| == |b| >= 2 && 0 < i < |a| - 1
    ensures Value(Partial(a, b, true, i)) == Pow2(i) * (if b[i] then Signed(a) else 0) + Pow2(|a| - 1 + i)
  {
    hide Value; hide Pow2; hide Signed;
    var w := |a|;
    var us, t := Plain(a, b, i), w - 1 + i;
    assert us[t] == (a[w - 1] && b[i]);
    assert Partial(a, b, true, i) == us[t := !us[t]];
    ValueUpdate(us, t, !us[t]);
    ValuePlain(a, b, i);
    hide Plain; hide Partial;
    Pow2Add(w - 1, i);
    SignShift(a, i);
    assert Pow2(i) * 0 == 0;
  }

  lemma SignShift(a: Bits, i: nat)
    requires |a| >= 1
    ensures Pow2(i) * Signed(a) == Pow2(i) * Value(a) - (if a[|a| - 1] then 2 * (Pow2(|a| - 1) * Pow2(i)) else 0)
  {
    hide Value; hide Pow2; hide Signed;
    SignedStep(a);
    SignShiftArithmetic(Pow2(i), Pow2(|a| - 1), Value(a));
  }

  lemma SignShiftArithmetic(p: int, q: int, v: int)
    ensures p * (v - 2 * q) == p * v - 2 * (q * p)
  {
  }

  lemma FirstRowShape(a: Bits, b: Bits)
    requires |a| == |b| >= 2
    ensures var w, us := |a|, Plain(a, b, 0);
      && us[w - 1] == (a[w - 1] && b[0]) && !us[w]
      && Partial(a, b, true, 0) == us[w - 1 := !us[w - 1]][w := true]
  {
    var w, us := |a|, Plain(a, b, 0);
    assert us == Row(a, b[0]) + Zeros(w);
  }

  lemma FirstRow(a: Bits, b: Bits)
    requires |a| == |b| >= 2
    ensures Value(Partial(a, b, true, 0)) == (if b[0] then Signed(a) else 0) + Pow2(|a| - 1) + Pow2(|a|)
  {
    hide Value; hide Pow2; hide Signed; hide Plain; hide Partial;
    var w, us := |a|, Plain(a, b, 0);
    FirstRowShape(a, b);
    ValueUpdate(us, w - 1, !us[w - 1]);
    ValueUpdate(us[w - 1 := !us[w - 1]], w, true);
    ValuePlain(a, b, 0);
    Pow2Step(w - 1);
    One(Pow2(0), if b[0] then Value(a) else 0);
    SignedStep(a);
  }

  lemma One(p: int, x: int)
    requires p == 1
    ensures p * x == x
  {
  }

  lemma LastRow(a: Bits, b: Bits)
    requires |a| == |b| >= 2
    ensures var w := |a|;
      Value(Partial(a, b, true, w - 1))
      == (if b[w - 1] then -(Pow2(w - 1) * Signed(a)) else 0) + Pow2(2 * w - 2) - Pow2(w - 1) + Pow2(2 * w - 1)
  {
    hide Value; hide Pow2; hide Signed;
    var w := |a|;
    var us := Plain(a, b, w - 1);
    var low := Row(a, b[w - 1])[..w - 1];
    var x := a[w - 1] && b[w - 1];
    assert us[w - 1..2 * w - 2] == low && us[2 * w - 2] == x;
    assert low == Row(a[..w - 1], b[w - 1]);
    var body := Zeros(w - 1) + Not(low);
    assert Partial(a, b, true, w - 1) == (body + [x]) + [true];
    hide Plain; hide Partial;
    ValueSnoc(body + [x], true);
    ValueSnoc(body, x);
    ValueConcat(Zeros(w - 1), Not(low));
    ValueZeros(w - 1);
    ValueNot(low);
    ValueRow(a[..w - 1], b[w - 1]);
    LastRowSum(a, b[w - 1]);
  }

  lemma LastRowSum(a: Bits, b: bool)
    requires |a| >= 2
    ensures var w, p := |a|, Pow2(|a| - 1);
      p * (p - 1 - (if b then Value(a[..w - 1]) else 0)) + (if a[w - 1] && b then Pow2(2 * w - 2) else 0)
      == (if b then -(p * Signed(a)) else 0) + Pow2(2 * w - 2) - p
  {
    hide Value; hide Pow2; hide Signed;
    var w, p, low := |a|, Pow2(|a| - 1), Value(a[..|a| - 1]);
    Pow2Add(w - 1, w - 1);
    SignedStep(a);
    LastRowArithmetic(p, low);
  }

  lemma LastRowArithmetic(p: int, low: int)
    ensures p * (p - 1 - low) == p * p - p - p * low
    ensures p * (p - 1 - 0) == p * p - p
    ensures p * (low - p) == p * low - p * p
  {
  }

  // ---------------------------------------------------------------- exact sums

  function Total(a: Bits, b: Bits, signed: bool, n: nat): int
    requires |a| == |b| >= 2 && n <= |a|
  {
    if n == 0 then 0 else Total(a, b, signed, n - 1) + Value(Partial(a, b, signed, n - 1))
  }

  lemma {:induction false} UnsignedTotal(a: Bits, b: Bits, n: nat)
    requires |a| == |b| >= 2 && n <= |a|
    ensures Total(a, b, false, n) == Value(a) * Value(b[..n])
  {
    hide Partial; hide Plain; hide Value; hide Pow2;
    if n > 0 {
      UnsignedTotal(a, b, n - 1);
      PlainRow(a, b, n - 1);
      ValuePlain(a, b, n - 1);
      assert b[..n][..n - 1] == b[..n - 1];
      ValueStep(b[..n]);
      Expand(Value(a), Value(b[..n - 1]), Pow2(n - 1));
    } else {
      ValueNil(b[..0]);
    }
  }

  lemma PlainRow(a: Bits, b: Bits, i: nat)
    requires |a| == |b| >= 2 && i < |a|
    ensures Partial(a, b, false, i) == Plain(a, b, i)
  {
    assert i == 0 ==> !Plain(a, b, i)[|a|];
  }

  lemma Expand(x: int, v: int, p: int)
    ensures x * (v + p) == x * v + p * x
    ensures x * (v + 0) == x * v
    ensures p * 0 == 0
  {
  }

  /** Closed form of the signed sum before the last row. */
  lemma {:induction false} SignedTotal(a: Bits, b: Bits, n: nat)
    requires |a| == |b| >= 2 && 1 <= n <= |a| - 1
    ensures Total(a, b, true, n) == Signed(a) * Value(b[..n]) + Pow2(|a| - 1) + Pow2(|a| - 1 + n)
  {
    hide Partial; hide Value; hide Signed; hide Pow2;
    var w := |a|;
    assert b[..n][..n - 1] == b[..n - 1];
    ValueStep(b[..n]);
    Expand(Signed(a), Value(b[..n - 1]), Pow2(n - 1));
    Pow2Step(w - 1 + (n - 1));
    if n == 1 {
      ValueNil(b[..0]);
      assert Total(a, b, true, 0) == 0;
      FirstRow(a, b);
    } else {
      SignedTotal(a, b, n - 1);
      MiddleRow(a, b, n - 1);
    }
  }

  /** All rows together: the product, plus exactly one bit beyond the width when signed. */
  lemma RowsAddUp(a: Bits, b: Bits)
    requires |a| == |b| >= 2
    ensures Total(a, b, false, |a|) == Value(a) * Value(b)
    ensures Total(a, b, true, |a|) == Signed(a) * Signed(b) + Pow2(2 * |a|)
  {
    hide Partial; hide Value; hide Signed; hide Pow2; hide Total;
    var w := |a|;
    UnsignedTotal(a, b, w);
    assert b[..w] == b;
    SignedTotal(a, b, w - 1);
    LastRow(a, b);
    TotalStep(a, b, w);
    Pow2Step(2 * w - 2);
    Pow2Step(2 * w - 1);
    SignedProduct(Signed(a), b);
  }

  lemma TotalStep(a: Bits, b: Bits, n: nat)
    requires |a| == |b| >= 2 && 0 < n <= |a|
    ensures Total(a, b, true, n) == Total(a, b, true, n - 1) + Value(Partial(a, b, true, n - 1))
  {
  }

  lemma SignedProduct(x: int, b: Bits)
    requires |b| > 0
    ensures var w := |b|;
      x * Signed(b) == x * Value(b[..w - 1]) + if b[w - 1] then -(Pow2(w - 1) * x) else 0
  {
    hide Value; hide Signed; hide Pow2;
    var low, p := Value(b[..|b| - 1]), Pow2(|b| - 1);
    SignedStep(b);
    assert x * (low - p) == x * low - p * x;
  }

  // ---------------------------------------------------------------- the chain

  /** Two words that stand for their sum; the carry word is already moved up one place. */
  datatype CarrySave = CarrySave(s: Bits, c: Bits)

  predicate Rows(pp: seq<Bits>, n: nat) {
    forall i :: 0 <= i < |pp| ==> |pp[i]| == n
  }

  function AllPartials(a: Bits, b: Bits, signed: bool): (pp: seq<Bits>)
    requires |a| == |b| >= 2
    ensures |pp| == |a| && Rows(pp, 2 * |a|)
  {
    seq(|a|, i requires 0 <= i < |a| => Partial(a, b, signed, i))
  }

  /** The compressors that fold rows `i` up to `n` into `x`. */
  function Fold(x: CarrySave, pp: seq<Bits>, i: nat, n: nat): (r: CarrySave)
    requires i <= n <= |pp| && |x.s| == |x.c| > 0 && Rows(pp, |x.s|)
    ensures |r.s| == |r.c| == |x.s|
    decreases n
  {
    if i == n then x
    else
      var y := Fold(x, pp, i, n - 1);
      CarrySave(CsaSum(y.s, y.c, pp[n - 1]), Up(CsaCarry(y.s, y.c, pp[n - 1])))
  }

  /** The chain may be cut by a register anywhere. */
  lemma {:induction false} FoldSplits(x: CarrySave, pp: seq<Bits>, i: nat, k: nat, n: nat)
    requires i <= k <= n <= |pp| && |x.s| == |x.c| > 0 && Rows(pp, |x.s|)
    ensures Fold(Fold(x, pp, i, k), pp, k, n) == Fold(x, pp, i, n)
    decreases n
  {
    if k < n {
      FoldSplits(x, pp, i, k, n - 1);
    }
  }

  function Chain(a: Bits, b: Bits, signed: bool, n: nat): (r: CarrySave)
    requires |a| == |b| >= 2 && 2 <= n <= |a|
    ensures |r.s| == |r.c| == 2 * |a|
  {
    var pp := AllPartials(a, b, signed);
    Fold(CarrySave(pp[0], pp[1]), pp, 2, n)
  }

  /** The two words carry the exact sum of the rows, except for whole carries out of the width. */
  lemma {:induction false} ChainSum(a: Bits, b: Bits, signed: bool, n: nat) returns (lost: nat)
    requires |a| == |b| >= 2 && 2 <= n <= |a|
    ensures var r := Chain(a, b, signed, n);
      Value(r.s) + Value(r.c) + lost * Pow2(2 * |a|) == Total(a, b, signed, n)
    decreases n
  {
    hide Value; hide Pow2; hide Partial;
    if n == 2 {
      assert Total(a, b, signed, 0) == 0;
      assert Total(a, b, signed, 1) == Value(Partial(a, b, signed, 0));
      lost := 0;
      assert lost * Pow2(2 * |a|) == 0;
    } else {
      var before := ChainSum(a, b, signed, n - 1);
      var y, row := Chain(a, b, signed, n - 1), Partial(a, b, signed, n - 1);
      var carry := CsaCarry(y.s, y.c, row);
      CsaAdds(y.s, y.c, row);
      UpDoubles(carry);
      lost := before + Bit(carry[|carry| - 1]);
      CarryOut(before, Bit(carry[|carry| - 1]), Pow2(2 * |a|));
    }
  }

  lemma CarryOut(n: nat, b: nat, p: nat)
    requires b <= 1
    ensures (n + b) * p == n * p + if b == 1 then p else 0
  {
  }

  // ---------------------------------------------------------------- the product

  /** The other implementation in mul.sv: multiply, keep `2 * W` bits. */
  function Behavioural(a: Bits, b: Bits, signed: bool): nat
    requires |a| == |b| >= 2
  {
    (if signed then Signed(a) * Signed(b) else Value(a) * Value(b)) % Pow2(2 * |a|)
  }

  function FinalSum(x: CarrySave): nat {
    (Value(x.s) + Value(x.c)) % Pow2(|x.s|)
  }

  /** Partial products, compressor chain and final adder together are multiplication. */
  lemma StructuralIsBehavioural(a: Bits, b: Bits, signed: bool)
    requires |a| == |b| >= 2
    ensures FinalSum(Chain(a, b, signed, |a|)) == Behavioural(a, b, signed)
  {
    hide Value; hide Pow2; hide Signed; hide Total; hide Chain;
    var r, m := Chain(a, b, signed, |a|), Pow2(2 * |a|);
    var lost := ChainSum(a, b, signed, |a|);
    RowsAddUp(a, b);
    var exact := if signed then Signed(a) * Signed(b) else Value(a) * Value(b);
    var k: int := lost;
    assert (k - 1) * m == k * m - m;
    SameResidue(Value(r.s) + Value(r.c), exact, if signed then k - 1 else k, m);
  }

  lemma SameResidue(x: int, y: int, k: int, m: int)
    requires m > 0 && x + k * m == y
    ensures x % m == y % m
  {
    DivUnique(x / m + k, x % m, y / m, y % m, m);
  }

  /** The upper half of the result is the product divided by `2^W`, rounded down, so `mulh` and
      `mulhu` need nothing but a selection of the upper word. */
  lemma UpperHalf(a: Bits, b: Bits, signed: bool)
    requires |a| == |b| >= 2
    ensures var exact := if signed then Signed(a) * Signed(b) else Value(a) * Value(b);
      && Behavioural(a, b, signed) / Pow2(|a|) == (exact / Pow2(|a|)) % Pow2(|a|)
      && Behavioural(a, b, signed) % Pow2(|a|) == exact % Pow2(|a|)
  {
    hide Value; hide Pow2; hide Signed;
    var exact := if signed then Signed(a) * Signed(b) else Value(a) * Value(b);
    Pow2Add(|a|, |a|);
    Halves(exact, Pow2(|a|));
  }

  lemma Halves(x: int, p: int)
    requires p > 0
    ensures p * p > 0 && (x % (p * p)) / p == (x / p) % p && (x % (p * p)) % p == x % p
  {
    MulAtLeast(p, p);
    var h, l := x / p, x % p;
    var hh, hl := h / p, h % p;
    assert h == hh * p + hl;
    assert x == h * p + l;
    assert h * p == (hh * p + hl) * p;
    assert (hh * p + hl) * p == hh * (p * p) + hl * p;
    Below(hl, l, p);
    ModUnique(x, hl * p + l, hh, p * p);
    ModUnique(hl * p + l, l, hl, p);
  }

  lemma Below(h: int, l: int, p: int)
    requires 0 <= h < p && 0 <= l < p
    ensures 0 <= h * p + l < p * p
  {
    assert h * p <= (p - 1) * p == p * p - p;
  }

  // ---------------------------------------------------------------- the pipeline

  /** What arrives at the inputs in one clock. */
  datatype Issue = Issue(a: Bits, b: Bits, signed: bool, high: bool, go: bool, rob: nat, prf: nat)

  datatype Operands = Operands(a: Bits, b: Bits, signed: bool)

  datatype Tag = Tag(complete: bool, high: bool, rob: nat, prf: nat)

  function Upper(x: nat, p: nat): nat
    requires p > 0
  {
    x / p
  }

  datatype Regs = Regs(operands: Operands, first: CarrySave, rows0: seq<Bits>, second: CarrySave, rows1: seq<Bits>,
                       product: nat, tags: seq<Tag>)

  function TagOf(i: Issue): Tag {
    Tag(i.go, i.high, i.rob, i.prf)
  }

  ghost predicate Sized(r: Regs, w: nat) {
    && |r.operands.a| == |r.operands.b| == w
    && |r.first.s| == |r.first.c| == |r.second.s| == |r.second.c| == 2 * w
    && |r.rows0| == |r.rows1| == w && Rows(r.rows0, 2 * w) && Rows(r.rows1, 2 * w)
    && |r.tags| == 4
  }

  ghost predicate StageOk(x: CarrySave, rows: seq<Bits>, cut: nat, h: Issue)
    requires 2 <= cut <= |h.a| == |h.b|
  {
    h.go ==> x == Chain(h.a, h.b, h.signed, cut) && rows == AllPartials(h.a, h.b, h.signed)
  }

  /** Running the compressors of one stage takes it to the next cut. */
  lemma StageAdvances(x: CarrySave, rows: seq<Bits>, k: nat, n: nat, h: Issue)
    requires 2 <= k <= n <= |h.a| == |h.b| && |rows| == |h.a| && |x.s| == |x.c| == 2 * |h.a| && Rows(rows, |x.s|)
    requires StageOk(x, rows, k, h)
    ensures StageOk(Fold(x, rows, k, n), rows, n, h)
    ensures n == |h.a| && h.go ==> FinalSum(Fold(x, rows, k, n)) == Behavioural(h.a, h.b, h.signed)
  {
    hide Behavioural; hide FinalSum;
    var pp := AllPartials(h.a, h.b, h.signed);
    FoldSplits(CarrySave(pp[0], pp[1]), pp, 2, k, n);
    StructuralIsBehavioural(h.a, h.b, h.signed);
  }

  /** Three stages of compressors and a final adder, with the tags in a shift register beside
      them.  The chain is cut after `cut1` and `cut2` rows: 14 and 25 of 32 in mul.sv. */
  class Pipeline {
    const w: nat
    const cut1: nat
    const cut2: nat
    var r: Regs
    // the last four issues, newest first
    ghost var issued: seq<Issue>

    /** Every stage holds what the issue now passing through it needs. */
    ghost predicate Valid()
      reads this
    {
      && 2 <= cut1 <= cut2 <= w && Sized(r, w)
      && |issued| == 4 && (forall k :: 0 <= k < 4 ==> |issued[k].a| == |issued[k].b| == w)
      && r.tags == [TagOf(issued[0]), TagOf(issued[1]), TagOf(issued[2]), TagOf(issued[3])]
      && (issued[0].go ==> r.operands == Operands(issued[0].a, issued[0].b, issued[0].signed))
      && StageOk(r.first, r.rows0, cut1, issued[1])
      && StageOk(r.second, r.rows1, cut2, issued[2])
      && (var h := issued[3]; h.go ==> r.product == Behavioural(h.a, h.b, h.signed))
    }

    /** Reset clears the tags only; the data registers come up with anything. */
    constructor (width: nat, c1: nat, c2: nat, start: Regs)
      requires 2 <= c1 <= c2 <= width && Sized(start, width)
      ensures Valid() && w == width && forall k :: 0 <= k < 4 ==> !issued[k].go
    {
      w, cut1, cut2 := width, c1, c2;
      var none := Tag(false, false, 0, 0);
      r := start.(tags := [none, none, none, none]);
      var idle := Issue(start.operands.a, start.operands.b, false, false, false, 0, 0);
      issued := [idle, idle, idle, idle];
    }

    /** One clock: every register loads from the stage before it. */
    method Clock(i: Issue)
      requires Valid() && |i.a| == |i.b| == w
      modifies this
      ensures Valid() && issued == [i] + old(issued[..3])
    {
      hide Behavioural; hide AllPartials; hide FinalSum; hide Fold; hide Chain; hide Rows; hide TagOf;
      StageAdvances(r.first, r.rows0, cut1, cut2, issued[1]);
      StageAdvances(r.second, r.rows1, cut2, w, issued[2]);
      var o := r.operands;
      r := Regs(Operands(i.a, i.b, i.signed),
                Chain(o.a, o.b, o.signed, cut1), AllPartials(o.a, o.b, o.signed),
                Fold(r.first, r.rows0, cut1, cut2), r.rows0,
                FinalSum(Fold(r.second, r.rows1, cut2, w)),
                [TagOf(i)] + r.tags[..3]);
      issued := [i] + issued[..3];
    }

    /** The output port. */
    function Y(): nat
      reads this
      requires |r.tags| == 4
    {
      if r.tags[3].high then Upper(r.product, Pow2(w)) else r.product
    }

    /** A completion carries the tags of the multiplication issued four clocks earlier, and the
        output is its exact product, or the upper half of it. */
    lemma Completion()
      requires Valid()
      ensures r.tags[3].complete <==> issued[3].go
      ensures issued[3].go ==>
        var h := issued[3];
        var exact := if h.signed then Signed(h.a) * Signed(h.b) else Value(h.a) * Value(h.b);
        r.tags[3].rob == h.rob && r.tags[3].prf == h.prf
        && Y() == if h.high then (exact / Pow2(w)) % Pow2(w) else exact % Pow2(2 * w)
    {
      hide Value; hide Signed; hide Pow2; hide Chain; hide AllPartials;
      var h := issued[3];
      UpperHalf(h.a, h.b, h.signed);
    }
  }
}
