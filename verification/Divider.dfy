/** The restoring divider of divider.sv, one quotient bit a clock, for operands of any width. */
module Divider {
  import opened Bits

  datatype State = Idle | Divide | PackOutput | WaitForWb

  /** A division request: operands as unsigned words, and the tags that travel with it. */
  datatype Op = Op(a: nat, b: nat, signed: bool, isRem: bool, rob: nat, prf: nat)

  // ---------------------------------------------------------------- words of w bits

  predicate Word(x: nat, w: nat) {
    x < Pow2(w)
  }

  predicate Top(x: nat, w: nat)
    requires w > 0
  {
    x >= Pow2(w - 1)
  }

  /** Complement and increment. */
  function Negate(x: nat, w: nat): (r: nat)
    requires Word(x, w)
    ensures Word(r, w)
  {
    if x == 0 then 0 else Pow2(w) - x
  }

  lemma NegateIsModulo(x: int, p: int)
    requires 0 <= x < p
    ensures (if x == 0 then 0 else p - x) == (-x) % p
  {
    if x > 0 {
      ModUnique(-x, p - x, -1, p);
    }
  }

  function SignedOf(x: nat, w: nat): int
    requires w > 0
  {
    if Top(x, w) then x - Pow2(w) else x
  }

  /** The two's-complement number of a word: the one in range that has its remainder. */
  lemma SignedOfIs(x: nat, w: nat)
    requires w > 0 && Word(x, w)
    ensures 0 - Pow2(w - 1) <= SignedOf(x, w) < Pow2(w - 1) && SignedOf(x, w) % Pow2(w) == x
    ensures Top(x, w) <==> SignedOf(x, w) < 0
  {
    hide Pow2;
    Pow2Step(w - 1);
    ModUnique(SignedOf(x, w), x, if Top(x, w) then -1 else 0, Pow2(w));
  }

  function Magnitude(x: nat, signed: bool, w: nat): (r: nat)
    requires w > 0 && Word(x, w)
    ensures Word(r, w)
  {
    if signed && Top(x, w) then Negate(x, w) else x
  }

  // ---------------------------------------------------------------- the architecture

  /** Section 7.2 of the RISC-V Unprivileged ISA: the quotient is rounded towards zero and the
      remainder has the sign of the dividend. */
  ghost predicate Truncated(x: int, y: int, q: int, r: int) {
    && x == q * y + r
    && (if y < 0 then y < r < -y else -y < r < y)
    && (x >= 0 ==> r >= 0) && (x <= 0 ==> r <= 0)
  }

  lemma TruncatedIsUnique(x: int, y: int, q: int, r: int, q': int, r': int)
    requires y != 0 && Truncated(x, y, q, r) && Truncated(x, y, q', r')
    ensures q == q' && r == r'
  {
    var d, n := if y < 0 then -y else y, if q > q' then q - q' else q' - q;
    assert (q - q') * y == r' - r;
    assert n * d == (q - q') * y || n * d == -((q - q') * y);
    if q != q' {
      MulAtLeast(n, d);
    }
  }

  /** What the instruction must leave in its register, read as a number.  Division by zero gives
      -1 and the dividend.  The one overflow, the most negative number by -1, needs no case:
      reducing the true quotient modulo `2^w` gives the dividend back. */
  ghost predicate Architected(o: Op, w: nat, result: nat)
    requires w > 0
  {
    var x := if o.signed then SignedOf(o.a, w) else o.a;
    var y := if o.signed then SignedOf(o.b, w) else o.b;
    if y == 0 then result == (if o.isRem then x else -1) % Pow2(w)
    else exists q, r :: Truncated(x, y, q, r) && result == (if o.isRem then r else q) % Pow2(w)
  }

  // ---------------------------------------------------------------- one quotient bit

  /** After as many steps as `kk == 2^k` says: partial remainder `r`, quotient bits `q`, divisor
      `d` already moved up, dividend `a`, and `p == 2^w`. */
  ghost predicate Partway(p: nat, kk: nat, a: nat, d: nat, r: nat, q: nat) {
    && r + q * d == kk * a && r < p * kk
    && (d > 0 ==> r < d) && (d == 0 ==> q == kk - 1)
  }

  /** Doubling the partial remainder never carries out of `2w` bits. */
  lemma NothingDropped(p: nat, kk: nat, r: nat)
    requires r < p * kk && 2 * kk <= p
    ensures 2 * r < p * p
  {
    assert p * (2 * kk) <= p * p;
  }

  lemma StepPartway(p: nat, kk: nat, a: nat, d: nat, r: nat, q: nat)
    requires Partway(p, kk, a, d, r, q)
    ensures 2 * r >= d ==> Partway(p, 2 * kk, a, d, 2 * r - d, 2 * q + 1)
    ensures 2 * r < d ==> Partway(p, 2 * kk, a, d, 2 * r, 2 * q)
  {
    assert (2 * q + 1) * d == 2 * (q * d) + d && (2 * q) * d == 2 * (q * d);
    assert (2 * kk) * a == 2 * (kk * a) && p * (2 * kk) == 2 * (p * kk);
    if d == 0 {
      assert q * d == 0;
    }
  }

  /** After all `w` steps. */
  lemma AllSteps(p: nat, a: nat, b: nat, r: nat, q: nat)
    requires p > 0 && Partway(p, p, a, b * p, r, q)
    ensures r / p == a - q * b && (b > 0 ==> q == a / b && r / p == a % b)
    ensures b == 0 ==> q == p - 1 && r / p == a
  {
    var rest := a - q * b;
    assert q * (b * p) == (q * b) * p && rest * p == p * a - (q * b) * p;
    assert r == 0 + rest * p;
    ModUnique(r, 0, rest, p);
    if b > 0 {
      MulAtLeast(b, p);
      LessByFactor(rest, b, p);
      assert a == rest + q * b;
      ModUnique(a, rest, q, b);
    } else {
      assert q * b == 0;
    }
  }

  lemma LessByFactor(x: int, y: int, p: int)
    requires p > 0 && 0 <= x * p < y * p
    ensures 0 <= x < y
  {
    assert x * p == -((-x) * p) && (x - y) * p == x * p - y * p;
    if x < 0 { MulAtLeast(-x, p); }
    if x >= y { MoreByFactor(x - y, p); }
  }

  lemma MoreByFactor(x: int, p: int)
    requires x >= 0 && p >= 0
    ensures x * p >= 0
  {
  }

  // ---------------------------------------------------------------- the result

  function Quotient(o: Op, w: nat): (q: nat)
    requires w > 0 && Word(o.a, w) && Word(o.b, w)
    ensures Word(q, w)
  {
    var a, b := Magnitude(o.a, o.signed, w), Magnitude(o.b, o.signed, w);
    DivNotAbove(a, b);
    if b == 0 then Pow2(w) - 1 else a / b
  }

  function Remainder(o: Op, w: nat): (r: nat)
    requires w > 0 && Word(o.a, w) && Word(o.b, w)
    ensures Word(r, w)
  {
    var a, b := Magnitude(o.a, o.signed, w), Magnitude(o.b, o.signed, w);
    if b == 0 then a else a % b
  }

  lemma DivNotAbove(a: nat, b: nat)
    ensures b > 0 ==> 0 <= a / b <= a && 0 <= a % b <= a
  {
    if b > 0 && a / b > a {
      MulAtLeast(a / b, b);
      assert a / b * b >= a / b by { MulAtLeast(b, a / b); assert a / b * b == b * (a / b); }
    }
  }

  function QuotientWord(o: Op, w: nat): (y: nat)
    requires w > 0 && Word(o.a, w) && Word(o.b, w)
    ensures Word(y, w)
  {
    var q := Quotient(o, w);
    if o.signed && Top(o.a, w) != Top(o.b, w) then Negate(q, w) else q
  }

  function RemainderWord(o: Op, w: nat): (y: nat)
    requires w > 0 && Word(o.a, w) && Word(o.b, w)
    ensures Word(y, w)
  {
    var r := Remainder(o, w);
    if o.signed && Top(o.a, w) then Negate(r, w) else r
  }

  /** Clocks since the start: zero while idle, `w + 2` in the cycle of completion. */
  function NextAge(age: nat, start: bool, w: nat): nat {
    if age == 0 then (if start then 1 else 0) else if age == w + 2 then 0 else age + 1
  }

  /** The low half of the output register, which goes to the register file. */
  function ResultWord(o: Op, w: nat): (y: nat)
    requires w > 0 && Word(o.a, w) && Word(o.b, w)
    ensures Word(y, w)
  {
    if o.isRem then RemainderWord(o, w) else QuotientWord(o, w)
  }

  /** Putting the signs back gives truncated division. */
  lemma SignsPutBack(a: int, b: int, q: int, r: int, na: bool, nb: bool)
    requires 0 <= a && 0 < b && a == q * b + r && 0 <= r < b
    requires na ==> a > 0
    ensures Truncated(if na then -a else a, if nb then -b else b, if na != nb then -q else q, if na then -r else r)
  {
    assert (-q) * (-b) == q * b && (-q) * b == -(q * b) && q * (-b) == -(q * b);
  }

  lemma WordModulo(x: int, w: nat)
    requires 0 <= x < Pow2(w)
    ensures x % Pow2(w) == x && (-x) % Pow2(w) == Negate(x, w)
  {
    hide Pow2;
    ModUnique(x, x, 0, Pow2(w));
    NegateIsModulo(x, Pow2(w));
  }

  lemma SignedMagnitude(x: nat, signed: bool, w: nat)
    requires w > 0 && Word(x, w)
    ensures var m: int := Magnitude(x, signed, w);
      && (if signed then SignedOf(x, w) else x) == (if signed && Top(x, w) then -m else m)
      && (m == 0 <==> x == 0) && Pow2(w) == 2 * Pow2(w - 1)
      && (signed && Top(x, w) ==> m > 0)
  {
    hide Pow2;
    Pow2Step(w - 1);
  }

  lemma ArchitectedBy(o: Op, w: nat, q: int, r: int, result: nat)
    requires w > 0
    requires var x := if o.signed then SignedOf(o.a, w) else o.a;
      var y := if o.signed then SignedOf(o.b, w) else o.b;
      y != 0 && Truncated(x, y, q, r)
    requires result == (if o.isRem then r else q) % Pow2(w)
    ensures Architected(o, w, result)
  {
    var x := if o.signed then SignedOf(o.a, w) else o.a;
    var y := if o.signed then SignedOf(o.b, w) else o.b;
    assert Truncated(x, y, q, r) && result == (if o.isRem then r else q) % Pow2(w);
  }

  lemma MagnitudesDivide(o: Op, w: nat)
    requires w > 0 && Word(o.a, w) && Word(o.b, w) && Magnitude(o.b, o.signed, w) > 0
    ensures var a: int, b: int := Magnitude(o.a, o.signed, w), Magnitude(o.b, o.signed, w);
      a == Quotient(o, w) * b + Remainder(o, w) && 0 <= Remainder(o, w) < b
  {
    hide Pow2; hide Magnitude; hide Word;
  }

  lemma ResultSigns(o: Op, w: nat)
    requires w > 0 && Word(o.a, w) && Word(o.b, w)
    ensures var q: int, r: int := Quotient(o, w), Remainder(o, w);
      var na, nb := o.signed && Top(o.a, w), o.signed && Top(o.b, w);
      ResultWord(o, w) == (if o.isRem then if na then -r else r else if na != nb then -q else q) % Pow2(w)
  {
    hide Pow2; hide Top; hide Negate; hide Quotient; hide Remainder;
    WordModulo(Quotient(o, w), w);
    WordModulo(Remainder(o, w), w);
  }

  /** Division and remainder by anything but zero. */
  lemma NonZeroDivisor(o: Op, w: nat)
    requires w > 0 && Word(o.a, w) && Word(o.b, w) && o.b != 0
    ensures Architected(o, w, ResultWord(o, w))
  {
    hide Pow2; hide Magnitude; hide SignedOf; hide Top; hide Truncated; hide Architected; hide ResultWord;
    hide Quotient; hide Remainder; hide Word;
    var a: int, b: int := Magnitude(o.a, o.signed, w), Magnitude(o.b, o.signed, w);
    SignedMagnitude(o.a, o.signed, w);
    SignedMagnitude(o.b, o.signed, w);
    MagnitudesDivide(o, w);
    var q: int, r: int := Quotient(o, w), Remainder(o, w);
    var na, nb := o.signed && Top(o.a, w), o.signed && Top(o.b, w);
    SignsPutBack(a, b, q, r, na, nb);
    ResultSigns(o, w);
    ArchitectedBy(o, w, if na != nb then -q else q, if na then -r else r, ResultWord(o, w));
  }

  /** Zero divisors: right except for a signed quotient of a negative dividend, which comes out
      as 1 where the architecture says -1. */
  lemma ZeroDivisor(o: Op, w: nat)
    requires w > 1 && Word(o.a, w) && o.b == 0
    ensures Architected(o, w, ResultWord(o, w)) <==> !(o.signed && !o.isRem && Top(o.a, w))
    ensures o.signed && !o.isRem && Top(o.a, w) ==> ResultWord(o, w) == 1
  {
    hide Pow2; hide Truncated;
    SignedMagnitude(o.a, o.signed, w);
    SignedMagnitude(o.b, o.signed, w);
    Pow2Step(w - 2);
    var p, a: int := Pow2(w), Magnitude(o.a, o.signed, w);
    WordModulo(a, w);
    ModUnique(-1, p - 1, -1, p);
  }

  /** The divider agrees with the architecture on every request but one family: signed quotients
      of a negative dividend with divisor zero. */
  lemma MeetsArchitecture(o: Op, w: nat)
    requires w > 1 && Word(o.a, w) && Word(o.b, w)
    ensures Architected(o, w, ResultWord(o, w)) <==> !(o.signed && !o.isRem && o.b == 0 && SignedOf(o.a, w) < 0)
  {
    hide Architected; hide ResultWord; hide Pow2; hide SignedOf; hide Top; hide Word;
    SignedOfIs(o.a, w);
    if o.b == 0 {
      ZeroDivisor(o, w);
    } else {
      NonZeroDivisor(o, w);
    }
  }

  /** At most one word is right. */
  lemma ArchitectedIsUnique(o: Op, w: nat, x: nat, y: nat)
    requires w > 0 && Word(o.a, w) && Word(o.b, w) && Architected(o, w, x) && Architected(o, w, y)
    ensures x == y
  {
    hide Pow2; hide Truncated;
    var a := if o.signed then SignedOf(o.a, w) else o.a;
    var b := if o.signed then SignedOf(o.b, w) else o.b;
    if b != 0 {
      var q, r :| Truncated(a, b, q, r) && x == (if o.isRem then r else q) % Pow2(w);
      var q', r' :| Truncated(a, b, q', r') && y == (if o.isRem then r' else q') % Pow2(w);
      TruncatedIsUnique(a, b, q, r, q', r');
    }
  }

  /** The overflow case: the most negative number divided by -1. */
  lemma Overflow(o: Op, w: nat)
    requires w > 1 && Word(o.b, w) && o.signed && o.a == Pow2(w - 1) && o.b == Pow2(w) - 1
    ensures Word(o.a, w) && ResultWord(o, w) == if o.isRem then 0 else o.a
  {
    hide Pow2;
    Pow2Step(w - 1);
    Pow2Step(w - 2);
    assert Magnitude(o.a, true, w) == o.a && Magnitude(o.b, true, w) == 1;
  }

  // ---------------------------------------------------------------- the clocked block

  datatype Regs = Regs(state: State, rob: nat, prf: nat, signed: bool, sign: bool, remSign: bool, isRem: bool,
                       a: nat, b: nat, d: nat, r: nat, idx: nat, yLow: nat, yHigh: nat)

  /** The register `r` is `2w` bits wide: a shift loses whatever leaves at the top. */
  function Shifted(r: nat, w: nat): nat {
    (2 * r) % (Pow2(w) * Pow2(w))
  }

  /** The latched copies of the request. */
  ghost predicate Latched(r: Regs, o: Op, w: nat)
    requires w > 1
  {
    && Word(o.a, w) && Word(o.b, w)
    && r.rob == o.rob && r.prf == o.prf && r.signed == o.signed && r.isRem == o.isRem
    && r.sign == (Top(o.a, w) != Top(o.b, w)) && r.remSign == Top(o.a, w)
  }

  /** `k` quotient bits have been shifted into `ss`. */
  ghost predicate InProgress(r: Regs, ss: Bits, o: Op, w: nat, k: nat)
    requires w > 1 && k <= w == |ss| && Word(o.a, w) && Word(o.b, w)
  {
    var d := Magnitude(o.b, o.signed, w) * Pow2(w);
    r.d == d && Partway(Pow2(w), Pow2(k), Magnitude(o.a, o.signed, w), d, r.r, Value(ss[..k]))
  }

  /** `age` counts clocks since the start. */
  ghost predicate Inv(r: Regs, ss: Bits, o: Op, w: nat, age: nat)
    requires w > 1 && |ss| == w
  {
    && (r.state == Idle <==> age == 0)
    && (r.state != Idle ==> Latched(r, o, w))
    && (r.state == Divide ==> r.idx < w && age == w - r.idx && InProgress(r, ss, o, w, w - 1 - r.idx))
    && (r.state == PackOutput ==> age == w + 1 && InProgress(r, ss, o, w, w))
    && (r.state == WaitForWb ==> age == w + 2 && r.yLow == ResultWord(o, w))
  }

  lemma StartOk(r: Regs, ss: Bits, o: Op, w: nat)
    requires w > 1 && |ss| == w && Latched(r, o, w) && r.state == Divide && r.idx == w - 1
    requires r.r == Magnitude(o.a, o.signed, w) && r.d == Magnitude(o.b, o.signed, w) * Pow2(w)
    ensures Inv(r, ss, o, w, 1)
  {
    hide Magnitude; hide Value; hide Pow2;
    Pow2Step(0);
    ValueNil(ss[..0]);
    StartPartway(Pow2(w), Pow2(0), r.r, Magnitude(o.b, o.signed, w), Value(ss[..0]));
  }

  lemma StartPartway(p: nat, one: nat, a: nat, b: nat, q: nat)
    requires one == 1 && q == 0 && a < p && b < p
    ensures Partway(p, one, a, b * p, a, q)
  {
    if b > 0 { MulAtLeast(b, p); }
    assert q * (b * p) == 0;
  }

  lemma DivideOk(r: Regs, ss: Bits, o: Op, w: nat, age: nat)
    requires w > 1 && |ss| == w && Inv(r, ss, o, w, age) && r.state == Divide
    ensures var x := Shifted(r.r, w);
      var bit := x >= r.d;
      var r' := r.(r := if bit then x - r.d else x, state := if r.idx == 0 then PackOutput else Divide,
                   idx := if r.idx == 0 then w - 1 else r.idx - 1);
      && x == 2 * r.r
      && Inv(r', [bit] + ss[..w - 1], o, w, age + 1)
  {
    hide Magnitude; hide Value; hide Partway; hide Pow2;
    var k, x := w - 1 - r.idx, Shifted(r.r, w);
    var bit := x >= r.d;
    Pow2Step(k);
    HalfFits(r, ss, o, w, k);
    StepPartway(Pow2(w), Pow2(k), Magnitude(o.a, o.signed, w), r.d, r.r, Value(ss[..k]));
    assert ([bit] + ss[..w - 1])[..k + 1] == [bit] + ss[..k];
    PushBit(bit, ss[..k]);
  }

  /** The doubled partial remainder keeps all its bits. */
  lemma HalfFits(r: Regs, ss: Bits, o: Op, w: nat, k: nat)
    requires w > 1 && |ss| == w && k < w && Word(o.a, w) && Word(o.b, w) && InProgress(r, ss, o, w, k)
    ensures Shifted(r.r, w) == 2 * r.r
  {
    hide Magnitude; hide Value; hide Pow2;
    PowMonotone(k + 1, w);
    Pow2Step(k);
    NothingDropped(Pow2(w), Pow2(k), r.r);
    ModUnique(2 * r.r, 2 * r.r, 0, Pow2(w) * Pow2(w));
  }

  lemma {:induction false} PowMonotone(m: nat, n: nat)
    requires m <= n
    ensures Pow2(m) <= Pow2(n)
    decreases n - m
  {
    if m < n { PowMonotone(m + 1, n); }
  }

  lemma PushBit(bit: bool, v: Bits)
    ensures Value([bit] + v) == 2 * Value(v) + if bit then 1 else 0
  {
    hide Value; hide Pow2;
    ValueConcat([bit], v);
    Pow2Step(0);
    Twice(Pow2(1), Value(v));
    assert [bit][..0] == [];
    ValueNil([]);
    ValueStep([bit]);
  }

  lemma Finished(p: nat, a: nat, b: nat, r: nat, q: nat)
    requires p > 0 && Partway(p, p, a, b * p, r, q)
    ensures q == (if b == 0 then p - 1 else a / b) && r / p == if b == 0 then a else a % b
  {
    hide Partway;
    AllSteps(p, a, b, r, q);
  }

  lemma PackOk(r: Regs, ss: Bits, o: Op, w: nat, age: nat)
    requires w > 1 && |ss| == w && Inv(r, ss, o, w, age) && r.state == PackOutput
    ensures Word(Value(ss), w) && Value(ss) == Quotient(o, w)
    ensures r.r / Pow2(w) == Remainder(o, w)
  {
    hide Magnitude; hide Value; hide Pow2; hide Partway;
    assert ss[..w] == ss;
    var p, a, b := Pow2(w), Magnitude(o.a, o.signed, w), Magnitude(o.b, o.signed, w);
    assert Partway(p, p, a, b * p, r.r, Value(ss));
    Finished(p, a, b, r.r, Value(ss));
    ValueBound(ss);
  }

  class Unit {
    const w: nat
    var r: Regs
    var ss: Bits
    // the request being worked on, and the clocks since it was started
    ghost var op: Op
    ghost var age: nat

    ghost predicate Valid()
      reads this
    {
      w > 1 && |ss| == w && Inv(r, ss, op, w, age)
    }

    constructor (width: nat)
      requires width > 1
      ensures Valid() && w == width && age == 0
    {
      w := width;
      r := Regs(Idle, 0, 0, false, false, false, false, 0, 0, 0, 0, 0, 0, 0);
      ss := Zeros(width);
      op, age := Op(0, 0, false, false, 0, 0), 0;
    }

    predicate Ready(start: bool)
      reads this
    {
      r.state == Idle && !start
    }

    predicate Complete()
      reads this
    {
      r.state == WaitForWb
    }

    /** One clock.  A start is only looked at when idle; completion comes exactly `w + 2` clocks
        after it, with the word `MeetsArchitecture` speaks of. */
    method Clock(start: bool, i: Op)
      requires Valid() && Word(i.a, w) && Word(i.b, w)
      modifies this
      ensures Valid()
      ensures age == NextAge(old(age), start, w)
      ensures op == if old(age) == 0 then i else old(op)
      // ready says that the unit will be idle, unless it is being started now
      ensures old(Ready(start)) <==> old(age) == 0 && age == 0
      ensures Complete() <==> age == w + 2
      ensures Complete() ==> r.yLow == ResultWord(op, w) && r.rob == op.rob && r.prf == op.prf
    {
      match r.state {
        case Idle => Accept(start, i);
        case Divide => NextBit();
        case PackOutput => Pack();
        case WaitForWb => r, age := r.(state := Idle), 0;
      }
    }

    method Accept(start: bool, i: Op)
      requires Valid() && r.state == Idle && Word(i.a, w) && Word(i.b, w)
      modifies `r, `op, `age
      ensures Valid() && op == i && age == if start then 1 else 0
    {
      hide Word; hide Pow2; hide Magnitude; hide InProgress; hide Top;
      var a, b := Magnitude(i.a, i.signed, w), Magnitude(i.b, i.signed, w);
      r := r.(rob := i.rob, prf := i.prf, isRem := i.isRem, signed := i.signed, idx := w - 1,
              sign := Top(i.a, w) != Top(i.b, w), remSign := Top(i.a, w),
              a := a, b := b, d := b * Pow2(w), r := a, state := if start then Divide else Idle);
      op, age := i, if start then 1 else 0;
      if start { StartOk(r, ss, op, w); }
    }

    method NextBit()
      requires Valid() && r.state == Divide
      modifies `r, `ss, `age
      ensures Valid() && age == old(age) + 1
    {
      hide Inv; hide Pow2;
      DivideOk(r, ss, op, w, age);
      hide Shifted;
      var x := Shifted(r.r, w);
      var bit := x >= r.d;
      r := r.(r := if bit then x - r.d else x, state := if r.idx == 0 then PackOutput else Divide,
              idx := if r.idx == 0 then w - 1 else r.idx - 1);
      ss := [bit] + ss[..w - 1];
      age := age + 1;
    }

    method Pack()
      requires Valid() && r.state == PackOutput
      modifies `r, `age
      ensures Valid() && age == old(age) + 1
    {
      hide Value; hide Pow2; hide InProgress; hide Top; hide Quotient; hide Remainder; hide Negate; hide Word;
      PackOk(r, ss, op, w, age);
      var low, high := Value(ss), r.r / Pow2(w);
      if r.signed && r.sign { low := Negate(low, w); }
      if r.signed && r.remSign { high := Negate(high, w); }
      if r.isRem { low := high; }
      r := r.(yLow := low, yHigh := high, state := WaitForWb);
      age := age + 1;
    }
  }
}
