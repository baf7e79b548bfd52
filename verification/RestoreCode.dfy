/** The register-restore code of saveState.cc and the part of interpret.cc that runs it. */
module RestoreCode {
  import opened Bits

  newtype Byte = x: int | 0 <= x < 256

  const TWO32: nat := 0x1_0000_0000

  // ---------------------------------------------------------------- machine integers

  predicate Int32(x: int) {
    -0x8000_0000 <= x < 0x8000_0000
  }

  function Unsigned32(x: int): (u: nat)
    ensures u < TWO32
  {
    x % TWO32
  }

  function Signed32(u: nat): int {
    if u >= 0x8000_0000 then u - TWO32 else u
  }

  /** Division of C: the quotient is rounded towards zero. */
  function TruncDiv(x: int, d: int): int
    requires d > 0
  {
    if x >= 0 then x / d else -((-x) / d)
  }

  /** Bitwise or of non-negative numbers. */
  function Or(x: nat, y: nat): nat
    decreases x + y
  {
    if x == 0 && y == 0 then 0 else 2 * Or(x / 2, y / 2) + if x % 2 == 1 || y % 2 == 1 then 1 else 0
  }

  lemma {:induction false} OrZero(x: nat)
    ensures Or(x, 0) == x
  {
    if x > 0 { OrZero(x / 2); }
  }

  /** Fields that do not meet add up. */
  lemma {:induction false} OrDisjoint(x: nat, y: nat, k: nat)
    requires x % Pow2(k) == 0 && y < Pow2(k)
    ensures Or(x, y) == x + y
    decreases k
  {
    if k == 0 {
      OrZero(x);
    } else {
      var p := Pow2(k - 1);
      var q := x / Pow2(k);
      assert x == q * Pow2(k) == 2 * (q * p);
      ModUnique(x / 2, 0, q, p);
      OrDisjoint(x / 2, y / 2, k - 1);
    }
  }

  // ---------------------------------------------------------------- instruction words

  const LUI: nat := 0x37
  const OPIMM: nat := 0x13
  const BREAK: nat := 0x73

  /** `x & 0xfffff000` and `x & 0xfff`, of the two's-complement word of `x`. */
  function High20(x: int): (h: nat) {
    Unsigned32(x) - Unsigned32(x) % 4096
  }

  function Low12(x: int): (l: nat)
    ensures l < 4096
  {
    Unsigned32(x) % 4096
  }

  function LuiWord(x: int, i: nat): nat {
    Or(Or(High20(x), i * 128), LUI)
  }

  function ImmWord(x: int, sel: nat, i: nat): nat {
    Or(Or(Or(Or(Low12(x) * 0x10_0000, i * 0x8000), sel * 0x1000), i * 128), OPIMM)
  }

  function Opcode(w: nat): nat {
    w % 128
  }

  function Rd(w: nat): (r: nat)
    ensures r < 32
  {
    w / 128 % 32
  }

  function Rs1(w: nat): (r: nat)
    ensures r < 32
  {
    w / 0x8000 % 32
  }

  function Upper(w: nat): nat {
    w - w % 4096
  }

  function Sel(w: nat): nat {
    w / 0x1000 % 8
  }

  /** The sign-extended immediate. */
  function Imm(w: nat): int {
    if w >= 0x8000_0000 then w / 0x10_0000 - 4096 else w / 0x10_0000
  }

  lemma Powers()
    ensures Pow2(7) == 128 && Pow2(12) == 0x1000 && Pow2(15) == 0x8000 && Pow2(20) == 0x10_0000
  {
    assert Pow2(3) == 8 && Pow2(5) == 32;
    assert Pow2(7) == 128;
    assert Pow2(9) == 512 && Pow2(11) == 2048;
    assert Pow2(12) == 4096 && Pow2(14) == 16384 && Pow2(15) == 0x8000;
    assert Pow2(17) == 0x20000 && Pow2(19) == 0x80000;
  }

  lemma MultipleOf(q: nat, m: nat)
    requires m > 0
    ensures (q * m) % m == 0
  {
    ModUnique(q * m, 0, q, m);
  }

  lemma High20Multiple(x: int) returns (q: nat)
    ensures High20(x) == q * 4096 && q < 0x10_0000
  {
    q := Unsigned32(x) / 4096;
  }

  lemma LuiFields(x: int, i: nat)
    requires i < 32
    ensures var w := LuiWord(x, i);
      w < TWO32 && Opcode(w) == LUI && Rd(w) == i && Upper(w) == High20(x)
  {
    hide Or; hide Pow2; hide High20;
    Powers();
    var q := High20Multiple(x);
    MultipleOf(q, 4096);
    OrDisjoint(q * 4096, i * 128, 12);
    assert q * 4096 + i * 128 == (q * 32 + i) * 128;
    MultipleOf(q * 32 + i, 128);
    OrDisjoint((q * 32 + i) * 128, LUI, 7);
    DecodeLui(q, i);
  }

  lemma DecodeLui(q: nat, i: nat)
    requires q < 0x10_0000 && i < 32
    ensures var w := (q * 32 + i) * 128 + LUI;
      w < TWO32 && Opcode(w) == LUI && Rd(w) == i && Upper(w) == q * 4096
  {
    var w := (q * 32 + i) * 128 + LUI;
    ModUnique(w, LUI, q * 32 + i, 128);
    ModUnique(q * 32 + i, i, q, 32);
    ModUnique(w, i * 128 + LUI, q, 4096);
  }

  lemma ImmFields(x: int, sel: nat, i: nat)
    requires i < 32 && sel < 8
    ensures var w := ImmWord(x, sel, i);
      && w == Low12(x) * 0x10_0000 + i * 0x8000 + sel * 0x1000 + i * 128 + OPIMM && w < TWO32
      && Opcode(w) == OPIMM && Rd(w) == i && Rs1(w) == i && Sel(w) == sel
      && Imm(w) == if Low12(x) >= 2048 then Low12(x) - 4096 else Low12(x)
  {
    hide Or; hide Pow2; hide Low12;
    Powers();
    var l := Low12(x);
    MultipleOf(l, 0x10_0000);
    OrDisjoint(l * 0x10_0000, i * 0x8000, 20);
    MultipleOf(l * 32 + i, 0x8000);
    assert (l * 32 + i) * 0x8000 == l * 0x10_0000 + i * 0x8000;
    OrDisjoint(l * 0x10_0000 + i * 0x8000, sel * 0x1000, 15);
    MultipleOf((l * 32 + i) * 8 + sel, 0x1000);
    assert ((l * 32 + i) * 8 + sel) * 0x1000 == l * 0x10_0000 + i * 0x8000 + sel * 0x1000;
    OrDisjoint(l * 0x10_0000 + i * 0x8000 + sel * 0x1000, i * 128, 12);
    var s := ((l * 32 + i) * 8 + sel) * 32 + i;
    MultipleOf(s, 128);
    assert s * 128 == l * 0x10_0000 + i * 0x8000 + sel * 0x1000 + i * 128;
    OrDisjoint(s * 128, OPIMM, 7);
    DecodeImm(l, sel, i);
  }

  lemma DecodeImm(l: nat, sel: nat, i: nat)
    requires l < 4096 && sel < 8 && i < 32
    ensures var w := l * 0x10_0000 + i * 0x8000 + sel * 0x1000 + i * 128 + OPIMM;
      && w < TWO32 && Opcode(w) == OPIMM && Rd(w) == i && Rs1(w) == i && Sel(w) == sel
      && Imm(w) == if l >= 2048 then l - 4096 else l
  {
    var w := l * 0x10_0000 + i * 0x8000 + sel * 0x1000 + i * 128 + OPIMM;
    var a, b, c := l * 32 + i, (l * 32 + i) * 8 + sel, ((l * 32 + i) * 8 + sel) * 32 + i;
    ModUnique(w, OPIMM, c, 128);
    ModUnique(c, i, b, 32);
    ModUnique(w, i * 128 + OPIMM, b, 0x1000);
    ModUnique(b, sel, a, 8);
    ModUnique(w, sel * 0x1000 + i * 128 + OPIMM, a, 0x8000);
    ModUnique(a, i, l, 32);
    ModUnique(w, i * 0x8000 + sel * 0x1000 + i * 128 + OPIMM, l, 0x10_0000);
  }

  // ---------------------------------------------------------------- the emitter

  predicate Bit11(g: int) {
    g / 2048 % 2 == 1
  }

  /** The upper part of a value whose lower part will be read as negative. */
  function Rounded(g: int): int {
    var k := TruncDiv(g, 4096) * 4096;
    if g - k >= 0 then TruncDiv(g + 4095, 4096) * 4096 else k
  }

  /** The arithmetic of the emitter stays within `int`, and its two assertions hold. */
  predicate Encodable(g: int) {
    Bit11(g) ==>
      (var k := TruncDiv(g, 4096) * 4096; g - k >= 0 ==> Int32(g + 4095))
      && (g - Rounded(g)) / 4096 == -1 && Rounded(g) + (g - Rounded(g)) == g
  }

  /** The two words emitted for register `i`. */
  function Words(g: int, i: nat): (ws: seq<nat>)
    ensures |ws| == 2
  {
    if Bit11(g) then [LuiWord(Rounded(g), i), ImmWord(g - Rounded(g), 0, i)]
    else [LuiWord(g, i), ImmWord(g, 6, i)]
  }

  lemma Rounding(g: int)
    requires Int32(g) && Bit11(g)
    ensures var m := g % 4096;
      m >= 2048 && Rounded(g) == g - m + 4096 && -2048 <= g - Rounded(g) < 0 && Rounded(g) % 4096 == 0
  {
    var q, m := g / 4096, g % 4096;
    assert g == q * 4096 + m;
    LowHalf(g);
    if g >= 0 {
      ModUnique(g + 4095, m - 1, q + 1, 4096);
    } else {
      ModUnique(-g, 4096 - m, -q - 1, 4096);
    }
    ModUnique(Rounded(g), 0, q + 1, 4096);
  }

  lemma LowHalf(g: int)
    ensures Bit11(g) <==> g % 4096 >= 2048
  {
    var q, m := g / 4096, g % 4096;
    if m >= 2048 {
      ModUnique(g, m - 2048, 2 * q + 1, 2048);
      ModUnique(2 * q + 1, 1, q, 2);
    } else {
      ModUnique(g, m, 2 * q, 2048);
      ModUnique(2 * q, 0, q, 2);
    }
  }

  /** Exactly the values with bit 11 set from 0x7ffff800 on cannot be encoded: rounding them up
      overflows `int`. */
  lemma EncodableExactly(g: int)
    requires Int32(g)
    ensures Encodable(g) <==> !(Bit11(g) && g >= 0x7fff_f800)
  {
    if Bit11(g) {
      Rounding(g);
      LowHalf(g);
    }
  }

  // ---------------------------------------------------------------- the interpreter

  /** Register `rd` after the instruction `w`: `lui`, `addi` and `ori`. */
  function Result(gpr: seq<int>, w: nat): int
    requires |gpr| == 32
  {
    if Opcode(w) == LUI then Signed32(Upper(w))
    else if Sel(w) == 0 then Signed32(Unsigned32(gpr[Rs1(w)] + Imm(w)))
    else Signed32(Or(Unsigned32(gpr[Rs1(w)]), Unsigned32(Imm(w))))
  }

  predicate Modelled(w: nat) {
    Opcode(w) == LUI || (Opcode(w) == OPIMM && (Sel(w) == 0 || Sel(w) == 6)) || w == BREAK
  }

  /** The registers after one instruction; register 0 is never written. */
  function Exec(gpr: seq<int>, w: nat): (r: seq<int>)
    requires |gpr| == 32
    ensures |r| == 32
  {
    if w == BREAK || Rd(w) == 0 then gpr else gpr[Rd(w) := Result(gpr, w)]
  }

  lemma SignedUnsigned(x: int)
    requires Int32(x)
    ensures Signed32(Unsigned32(x)) == x
  {
    if x >= 0 { ModUnique(x, x, 0, TWO32); } else { ModUnique(x, x + TWO32, -1, TWO32); }
  }

  lemma UnsignedSigned(u: nat)
    requires u < TWO32
    ensures Unsigned32(Signed32(u)) == u
  {
    if u >= 0x8000_0000 { ModUnique(u - TWO32, u, -1, TWO32); } else { ModUnique(u, u, 0, TWO32); }
  }

  /** The low bits of a number and of its 32-bit word agree. */
  lemma LowBits(x: int)
    ensures Low12(x) == x % 4096
  {
    var q := x / TWO32;
    assert x == q * TWO32 + Unsigned32(x);
    var u := Unsigned32(x);
    ModUnique(x, u % 4096, q * 1048576 + u / 4096, 4096);
  }

  /** The two words load `g` into register `i` and touch no other. */
  lemma WordsLoad(gpr: seq<int>, g: int, i: nat)
    requires |gpr| == 32 && 0 < i < 32 && Int32(g) && Encodable(g)
    ensures Exec(Exec(gpr, Words(g, i)[0]), Words(g, i)[1]) == gpr[i := g]
    ensures Modelled(Words(g, i)[0]) && Modelled(Words(g, i)[1]) && Words(g, i)[0] < TWO32 && Words(g, i)[1] < TWO32
    ensures Words(g, i)[0] != BREAK && Words(g, i)[1] != BREAK
  {
    hide LuiWord; hide ImmWord; hide Or; hide Pow2; hide Unsigned32; hide Opcode; hide Rd; hide Rs1; hide Sel; hide Imm; hide Upper;
    hide High20; hide Low12; hide Bit11; hide Rounded; hide Encodable;
    BreakOpcode();
    if Bit11(g) {
      AddiLoads(g, i);
    } else {
      OriLoads(g, i);
    }
  }

  lemma BreakOpcode()
    ensures Opcode(BREAK) == 0x73
  {
  }

  lemma AddiLoads(g: int, i: nat)
    requires Int32(g) && Bit11(g) && Encodable(g) && i < 32
    ensures var l, a := LuiWord(Rounded(g), i), ImmWord(g - Rounded(g), 0, i);
      && l < TWO32 && a < TWO32 && Opcode(l) == LUI && Rd(l) == i && Opcode(a) == OPIMM && Sel(a) == 0 && Rd(a) == i && Rs1(a) == i
      && Signed32(Unsigned32(Signed32(Upper(l)) + Imm(a))) == g
  {
    hide Or; hide Pow2; hide Bit11; hide Rounded; hide LuiWord; hide ImmWord; hide Opcode; hide Rd; hide Rs1; hide Sel; hide Imm;
    hide Signed32; hide Unsigned32; hide Low12; hide High20; hide Encodable; hide Int32; hide Upper;
    var k, d := Rounded(g), g - Rounded(g);
    RoundedParts(g);
    LuiLoads(k, i);
    AddiImm(d, i);
    assert k + d == g;
    SignedUnsigned(g);
  }

  lemma LuiLoads(k: int, i: nat)
    requires Int32(k) && High20(k) == Unsigned32(k) && i < 32
    ensures var l := LuiWord(k, i); l < TWO32 && Opcode(l) == LUI && Rd(l) == i && Signed32(Upper(l)) == k
  {
    hide Or; hide Pow2; hide LuiWord; hide Opcode; hide Rd;
    LuiFields(k, i);
    SignedUnsigned(k);
  }

  lemma AddiImm(d: int, i: nat)
    requires Low12(d) == d + 4096 >= 2048 && i < 32
    ensures var a := ImmWord(d, 0, i);
      a < TWO32 && Opcode(a) == OPIMM && Sel(a) == 0 && Rd(a) == i && Rs1(a) == i && Imm(a) == d
  {
    hide Or; hide Pow2; hide ImmWord; hide Opcode; hide Rd; hide Rs1; hide Sel; hide Imm;
    ImmFields(d, 0, i);
  }

  /** The rounded part is a multiple of 4096 within `int`; the rest is a negative immediate. */
  lemma RoundedParts(g: int)
    requires Int32(g) && Bit11(g) && Encodable(g)
    ensures var k, d := Rounded(g), g - Rounded(g);
      Int32(k) && High20(k) == Unsigned32(k) && Low12(d) == d + 4096 >= 2048
  {
    hide Encodable; hide Bit11; hide Rounded;
    EncodableExactly(g);
    Rounding(g);
    LowBits(g - Rounded(g));
    ModUnique(g - Rounded(g), g - Rounded(g) + 4096, -1, 4096);
    LowBits(Rounded(g));
  }

  lemma OriLoads(g: int, i: nat)
    requires Int32(g) && !Bit11(g) && i < 32
    ensures var l, o := LuiWord(g, i), ImmWord(g, 6, i);
      && l < TWO32 && o < TWO32 && Opcode(l) == LUI && Rd(l) == i && Opcode(o) == OPIMM && Sel(o) == 6 && Rd(o) == i && Rs1(o) == i
      && Signed32(Or(Unsigned32(Signed32(Upper(l))), Unsigned32(Imm(o)))) == g
  {
    hide Or; hide Pow2; hide Bit11; hide LuiWord; hide ImmWord; hide Opcode; hide Rd; hide Rs1; hide Sel; hide Imm;
    LuiFields(g, i);
    ImmFields(g, 6, i);
    LowHalf(g);
    LowBits(g);
    var u, m := Unsigned32(g), Low12(g);
    UnsignedSigned(u - m);
    ModUnique(m, m, 0, TWO32);
    Powers();
    var q := High20Multiple(g);
    MultipleOf(q, 4096);
    OrDisjoint(u - m, m, 12);
    SignedUnsigned(g);
  }

  // ---------------------------------------------------------------- memory

  /** The little-endian word at byte address `a`. */
  function WordAt(mem: seq<Byte>, a: nat): (w: nat)
    requires a + 4 <= |mem|
    ensures w < TWO32
  {
    mem[a] as int + 0x100 * (mem[a + 1] as int + 0x100 * (mem[a + 2] as int + 0x100 * mem[a + 3] as int))
  }

  function ByteOf(w: nat, k: nat): Byte {
    if k == 0 then (w % 0x100) as Byte else if k == 1 then (w / 0x100 % 0x100) as Byte
    else if k == 2 then (w / 0x1_0000 % 0x100) as Byte else (w / 0x100_0000 % 0x100) as Byte
  }

  lemma BytesMakeWord(w: nat)
    requires w < TWO32
    ensures w == ByteOf(w, 0) as int + 0x100 * (ByteOf(w, 1) as int + 0x100 * (ByteOf(w, 2) as int + 0x100 * ByteOf(w, 3) as int))
  {
    var a, b, c := w / 0x100, w / 0x1_0000, w / 0x100_0000;
    assert w == 0x100 * a + w % 0x100 && a == 0x100 * b + a % 0x100 && b == 0x100 * c + b % 0x100;
  }

  /** The words from `a` on are `ws`. */
  ghost predicate Holds(mem: seq<Byte>, a: nat, ws: seq<nat>) {
    a + 4 * |ws| <= |mem| && forall k :: 0 <= k < |ws| ==> WordAt(mem, a + 4 * k) == ws[k]
  }

  /** The emitted code for registers `1` to `n`. */
  function Emitted(gpr: seq<int>, n: nat): (ws: seq<nat>)
    requires n < |gpr|
    ensures |ws| == 2 * n
  {
    if n == 0 then [] else Emitted(gpr, n - 1) + Words(gpr[n], n)
  }

  lemma {:induction false} EmittedAt(gpr: seq<int>, n: nat, i: nat)
    requires 0 < i <= n < |gpr|
    ensures Emitted(gpr, n)[2 * i - 2] == Words(gpr[i], i)[0] && Emitted(gpr, n)[2 * i - 1] == Words(gpr[i], i)[1]
    decreases n
  {
    if i < n { EmittedAt(gpr, n - 1, i); }
  }

  predicate AllEncodable(gpr: seq<int>, n: nat)
    requires n <= |gpr|
  {
    forall i :: 0 < i < n ==> Encodable(gpr[i])
  }

  // ---------------------------------------------------------------- the bytes emitted

  /** The four bytes at `a`. */
  ghost predicate BytesAt(mem: seq<Byte>, a: nat, b0: int, b1: int, b2: int, b3: int) {
    a + 4 <= |mem| && mem[a] as int == b0 && mem[a + 1] as int == b1 && mem[a + 2] as int == b2 && mem[a + 3] as int == b3
  }

  /** `lui rd, top`: opcode 0110111 in bits 0 to 6, `rd` in 7 to 11, the upper immediate above. */
  ghost predicate LuiAt(mem: seq<Byte>, a: nat, rd: nat, top: nat) {
    BytesAt(mem, a, 0x37 + 0x80 * (rd % 2), rd / 2 + 0x10 * (top % 16), top / 16 % 256, top / 4096)
  }

  /** `addi rd, rd, imm` (selector 0) or `ori rd, rd, imm` (selector 6): opcode 0010011, then `rd`,
      the selector in bits 12 to 14, `rd` again as the source in 15 to 19, the immediate above. */
  ghost predicate ImmAt(mem: seq<Byte>, a: nat, sel: nat, rd: nat, imm: nat) {
    BytesAt(mem, a, 0x13 + 0x80 * (rd % 2), rd / 2 + 0x10 * sel + 0x80 * (rd % 2), rd / 2 + 0x10 * (imm % 16), imm / 16)
  }

  /** The two instructions that load `g`: the upper 20 bits, one more if bit 11 of `g` is set, and
      the lower 12, added if that bit is set and else put in by `ori`. */
  ghost predicate LoadsAt(mem: seq<Byte>, a: nat, g: int, rd: nat) {
    var high, low := g / 4096, g % 4096;
    if low >= 2048 then LuiAt(mem, a, rd, (high + 1) % 0x10_0000) && ImmAt(mem, a + 4, 0, rd, low)
    else LuiAt(mem, a, rd, high % 0x10_0000) && ImmAt(mem, a + 4, 6, rd, low)
  }

  /** The whole program: the loads of registers 1 to 31, a break, and idle instructions. */
  ghost predicate ProgramAt(mem: seq<Byte>, a: nat, gpr: seq<int>)
    requires |gpr| == 32
  {
    && (forall rd :: 1 <= rd < 32 ==> LoadsAt(mem, a + 8 * (rd - 1), gpr[rd], rd))
    && BytesAt(mem, a + 8 * 31, 0x73, 0, 0, 0)
    && (forall k :: 0 <= k < 128 ==> BytesAt(mem, a + 8 * 31 + 4 + 4 * k, 0x13, 0, 0, 0))
  }

  lemma BytesOfWord(mem: seq<Byte>, a: nat, b0: int, b1: int, b2: int, b3: int)
    requires a + 4 <= |mem| && 0 <= b0 < 256 && 0 <= b1 < 256 && 0 <= b2 < 256 && 0 <= b3 < 256
    requires WordAt(mem, a) == b0 + 0x100 * b1 + 0x1_0000 * b2 + 0x100_0000 * b3
    ensures BytesAt(mem, a, b0, b1, b2, b3)
  {
    var c1: int, c2: int, c3: int := mem[a + 1] as int, mem[a + 2] as int, mem[a + 3] as int;
    DivUnique(c1 + 0x100 * (c2 + 0x100 * c3), mem[a] as int, b1 + 0x100 * (b2 + 0x100 * b3), b0, 0x100);
    DivUnique(c2 + 0x100 * c3, c1, b2 + 0x100 * b3, b1, 0x100);
    DivUnique(c3, c2, b3, b2, 0x100);
  }

  lemma LuiBytes(mem: seq<Byte>, a: nat, x: int, rd: nat)
    requires a + 4 <= |mem| && rd < 32 && WordAt(mem, a) == LuiWord(x, rd)
    ensures LuiAt(mem, a, rd, x / 4096 % 0x10_0000)
  {
    hide Or; hide WordAt; hide BytesAt; hide High20;
    LuiWordIs(x, rd);
    var top := x / 4096 % 0x10_0000;
    var m := top / 16;
    assert m / 256 == top / 4096 && m == 256 * (m / 256) + m % 256 && top == 16 * m + top % 16 && rd == 2 * (rd / 2) + rd % 2;
    BytesOfWord(mem, a, 0x37 + 0x80 * (rd % 2), rd / 2 + 0x10 * (top % 16), top / 16 % 256, top / 4096);
  }

  lemma LuiWordIs(x: int, i: nat)
    requires i < 32
    ensures LuiWord(x, i) == (x / 4096 % 0x10_0000) * 4096 + i * 128 + LUI
  {
    hide Or; hide Pow2; hide High20; hide Unsigned32;
    Powers();
    var q := High20Multiple(x);
    TopBits(x, q);
    MultipleOf(q, 4096);
    OrDisjoint(q * 4096, i * 128, 12);
    assert q * 4096 + i * 128 == (q * 32 + i) * 128;
    MultipleOf(q * 32 + i, 128);
    OrDisjoint((q * 32 + i) * 128, LUI, 7);
  }

  lemma TopBits(x: int, q: nat)
    requires High20(x) == q * 4096 && q < 0x10_0000
    ensures x / 4096 % 0x10_0000 == q
  {
    var u, n := Unsigned32(x), x / TWO32;
    assert x == n * TWO32 + u && u == q * 4096 + u % 4096;
    ModUnique(x, u % 4096, n * 0x10_0000 + q, 4096);
    ModUnique(x / 4096, q, n, 0x10_0000);
  }

  lemma ImmBytes(mem: seq<Byte>, a: nat, x: int, sel: nat, rd: nat)
    requires a + 4 <= |mem| && rd < 32 && (sel == 0 || sel == 6) && WordAt(mem, a) == ImmWord(x, sel, rd)
    ensures ImmAt(mem, a, sel, rd, x % 4096)
  {
    hide Or; hide WordAt; hide BytesAt; hide ImmWord; hide Opcode; hide Rd; hide Rs1; hide Sel; hide Imm;
    ImmFields(x, sel, rd);
    LowBits(x);
    hide Low12;
    var imm := x % 4096;
    assert imm == 16 * (imm / 16) + imm % 16 && rd == 2 * (rd / 2) + rd % 2;
    BytesOfWord(mem, a, 0x13 + 0x80 * (rd % 2), rd / 2 + 0x10 * sel + 0x80 * (rd % 2), rd / 2 + 0x10 * (imm % 16), imm / 16);
  }

  lemma LoadBytes(mem: seq<Byte>, a: nat, g: int, rd: nat)
    requires a + 8 <= |mem| && rd < 32 && Int32(g)
    requires WordAt(mem, a) == Words(g, rd)[0] && WordAt(mem, a + 4) == Words(g, rd)[1]
    ensures LoadsAt(mem, a, g, rd)
  {
    hide WordAt; hide LuiWord; hide ImmWord; hide LuiAt; hide ImmAt; hide Rounded;
    LowHalf(g);
    if Bit11(g) {
      Rounding(g);
      var q := g / 4096;
      ModUnique(Rounded(g), 0, q + 1, 4096);
      ModUnique(g - Rounded(g), g % 4096, -1, 4096);
      LuiBytes(mem, a, Rounded(g), rd);
      ImmBytes(mem, a + 4, g - Rounded(g), 0, rd);
    } else {
      LuiBytes(mem, a, g, rd);
      ImmBytes(mem, a + 4, g, 6, rd);
    }
  }

  /** Code that holds the words of the program holds these bytes. */
  lemma ProgramBytes(mem: seq<Byte>, at: nat, gpr: seq<int>)
    requires |gpr| == 32 && (forall i :: 0 <= i < 32 ==> Int32(gpr[i])) && Holds(mem, at, Program(gpr))
    ensures ProgramAt(mem, at, gpr)
  {
    hide WordAt; hide Words; hide Int32; hide LoadsAt; hide BytesAt; hide Emitted;
    ProgramStarts(gpr);
    forall rd | 1 <= rd < 32 ensures LoadsAt(mem, at + 8 * (rd - 1), gpr[rd], rd) {
      EmittedAt(gpr, 31, rd);
      assert WordAt(mem, at + 4 * (2 * rd - 2)) == Program(gpr)[2 * rd - 2];
      assert WordAt(mem, at + 4 * (2 * rd - 1)) == Program(gpr)[2 * rd - 1];
      LoadBytes(mem, at + 8 * (rd - 1), gpr[rd], rd);
    }
    assert WordAt(mem, at + 4 * 62) == Program(gpr)[62];
    BytesOfWord(mem, at + 8 * 31, 0x73, 0, 0, 0);
    forall k | 0 <= k < 128 ensures BytesAt(mem, at + 8 * 31 + 4 + 4 * k, 0x13, 0, 0, 0) {
      assert WordAt(mem, at + 4 * (63 + k)) == Program(gpr)[63 + k];
      BytesOfWord(mem, at + 8 * 31 + 4 + 4 * k, 0x13, 0, 0, 0);
    }
  }

  // ---------------------------------------------------------------- the simulated machine

  class Machine {
    const gpr: array<int>
    const mem: array<Byte>
    const tohost: nat
    var pc: nat
    var brk: bool

    ghost predicate Valid()
      reads this, gpr
    {
      gpr.Length == 32 && tohost + 4 <= mem.Length && forall i :: 0 <= i < 32 ==> Int32(gpr[i])
    }

    constructor (size: nat, at: nat, host: nat)
      requires host + 4 <= size
      ensures Valid() && fresh(gpr) && fresh(mem) && mem.Length == size && tohost == host && pc == at && !brk
      ensures forall k :: 0 <= k < size ==> mem[k] == 0
    {
      gpr := new int[32](_ => 0);
      mem := new Byte[size](_ => 0);
      tohost, pc, brk := host, at, false;
    }

    method Store(a: nat, w: nat)
      requires a + 4 <= mem.Length && w < TWO32
      modifies mem
      ensures WordAt(mem[..], a) == w
      ensures forall k :: 0 <= k < mem.Length && !(a <= k < a + 4) ==> mem[k] == old(mem[k])
    {
      BytesMakeWord(w);
      mem[a], mem[a + 1], mem[a + 2], mem[a + 3] := ByteOf(w, 0), ByteOf(w, 1), ByteOf(w, 2), ByteOf(w, 3);
    }

    lemma WordsKept(before: seq<Byte>, at: nat, a: nat, ws: seq<nat>)
      requires Holds(before, at, ws) && at + 4 * |ws| <= a && |before| == mem.Length
      requires forall k :: 0 <= k < mem.Length && !(a <= k < a + 4) ==> mem[k] == before[k]
      ensures Holds(mem[..], at, ws)
    {
      forall k | 0 <= k < |ws| ensures WordAt(mem[..], at + 4 * k) == ws[k] {
        assert WordAt(before, at + 4 * k) == ws[k];
      }
    }

    /** Appending one word of code. */
    method Append(at: nat, a: nat, w: nat, ghost ws: seq<nat>) returns (next: nat)
      requires a + 4 <= mem.Length && w < TWO32 && a == at + 4 * |ws| && Holds(mem[..], at, ws)
      modifies mem
      ensures next == a + 4 && Holds(mem[..], at, ws + [w])
      ensures forall k :: 0 <= k < mem.Length && !(a <= k < a + 4) ==> mem[k] == old(mem[k])
    {
      ghost var before := mem[..];
      Store(a, w);
      WordsKept(before, at, a, ws);
      next := a + 4;
    }
  
    /** The emitter: two words for each register from 1 on, a break and 128 idle instructions.
        `ok` is false when a value overflows the emitter's arithmetic. */
    method Emit(at: nat) returns (ok: bool)
      requires Valid() && at + 4 * 191 <= mem.Length
      modifies mem
      ensures ok <==> AllEncodable(gpr[..], 32)
      ensures ok ==> Holds(mem[..], at, Program(gpr[..])) && ProgramAt(mem[..], at, gpr[..])
      ensures forall k :: 0 <= k < mem.Length && !(at <= k < at + 4 * 191) ==> mem[k] == old(mem[k])
    {
      hide WordAt; hide Words; hide Encodable; hide Holds; hide ProgramAt; hide Int32;
      var pc := at;
      ghost var ws: seq<nat> := [];
      EmptyHolds(at);
      for i := 1 to 32
        invariant pc == at + 8 * (i - 1) && ws == Emitted(gpr[..], i - 1) && Holds(mem[..], at, ws)
        invariant AllEncodable(gpr[..], i)
        invariant forall k :: 0 <= k < mem.Length && !(at <= k < pc) ==> mem[k] == old(mem[k])
      {
        var g := gpr[i];
        if !Encodable(g) {
          return false;
        }
        var two := Words(g, i);
        WordsBounded(g, i);
        pc := Append(at, pc, two[0], ws);
        pc := Append(at, pc, two[1], ws + [two[0]]);
        assert ws + [two[0]] + [two[1]] == ws + two;
        ws := ws + two;
      }
      pc := Append(at, pc, BREAK, ws);
      ws := ws + [BREAK];
      ghost var code := ws;
      for i := 0 to 128
        invariant pc == at + 4 * (63 + i) && ws == code + Idle(i) && Holds(mem[..], at, ws)
        invariant forall k :: 0 <= k < mem.Length && !(at <= k < pc) ==> mem[k] == old(mem[k])
      {
        pc := Append(at, pc, OPIMM, ws);
        assert Idle(i + 1) == Idle(i) + [OPIMM];
        ws := ws + [OPIMM];
      }
      assert ws == Program(gpr[..]);
      ProgramBytes(mem[..], at, gpr[..]);
      ok := true;
    }

    lemma EmptyHolds(at: nat)
      requires at <= mem.Length
      ensures Holds(mem[..], at, [])
    {
    }

    /** One instruction of `execRiscv`, with nothing pending for the host. */
    method ExecRiscv()
      requires Valid() && pc + 4 <= mem.Length && Modelled(WordAt(mem[..], pc)) && WordAt(mem[..], tohost) == 0
      modifies `pc, `brk, gpr
      ensures Valid() && gpr[..] == Exec(old(gpr[..]), WordAt(mem[..], old(pc)))
      ensures pc == (if WordAt(mem[..], old(pc)) == BREAK then old(pc) else old(pc) + 4)
      ensures brk == (old(brk) || WordAt(mem[..], old(pc)) == BREAK)
    {
      hide Or; hide WordAt; hide Opcode; hide Rd; hide Sel; hide Rs1; hide Imm; hide Upper; hide Int32;
      var inst := WordAt(mem[..], pc);
      BreakOpcode();
      if inst == BREAK {
        brk := true;
      } else {
        ResultInt32(gpr[..], inst);
        if Rd(inst) != 0 {
          gpr[Rd(inst)] := Result(gpr[..], inst);
        }
        pc := pc + 4;
      }
    }

    /** Running the emitted code from its start, on whatever the registers hold, stops at the break
        with every register but 0 restored. */
    method Run(at: nat, ghost saved: seq<int>)
      requires Valid() && pc == at && !brk && WordAt(mem[..], tohost) == 0
      requires |saved| == 32 && AllEncodable(saved, 32) && (forall i :: 0 <= i < 32 ==> Int32(saved[i]))
      requires Holds(mem[..], at, Program(saved))
      modifies `pc, `brk, gpr
      ensures brk && pc == at + 4 * 62
      ensures gpr[0] == old(gpr[0]) && forall i :: 0 < i < 32 ==> gpr[i] == saved[i]
    {
      hide WordAt; hide Words; hide Encodable; hide Exec; hide Modelled; hide Int32; hide AllEncodable; hide Emitted;
      ghost var start, n, ws := gpr[..], 0, Emitted(saved, 31);
      ProgramStarts(saved);
      while !brk
        invariant 0 <= n <= 62 && pc == at + 4 * n && Valid() && (brk ==> n == 62)
        invariant gpr[..] == RunWords(start, ws[..n])
        decreases 62 - n, !brk
      {
        ghost var w := Program(saved)[n];
        assert WordAt(mem[..], at + 4 * n) == w;
        WordsModelled(saved, n);
        ghost var before := gpr[..];
        ExecRiscv();
        assert gpr[..] == Exec(before, w);
        if w != BREAK {
          assert ws[..n + 1][..n] == ws[..n] && ws[..n + 1][n] == w;
          n := n + 1;
        } else {
          BreakKeeps(before);
        }
      }
      assert ws[..62] == ws;
      RunEmitted(start, saved, 31);
    }

    /** Emitting at the program counter and running from there brings back what was saved. */
    method EmitAndRun() returns (ok: bool)
      requires Valid() && !brk && pc + 4 * 191 <= mem.Length && WordAt(mem[..], tohost) == 0
      requires tohost + 4 <= pc || pc + 4 * 191 <= tohost
      modifies `pc, `brk, gpr, mem
      ensures ok <==> AllEncodable(old(gpr[..]), 32)
      ensures ok ==> brk && gpr[..] == old(gpr[..])
    {
      hide Holds; hide Encodable; hide Int32; hide Program;
      ghost var saved := gpr[..];
      ok := Emit(pc);
      if ok {
        Run(pc, saved);
      }
    }
  }

  function Idle(n: nat): (ws: seq<nat>)
    ensures |ws| == n
  {
    seq(n, _ => OPIMM)
  }

  function Program(gpr: seq<int>): (ws: seq<nat>)
    requires |gpr| == 32
    ensures |ws| == 191
  {
    Emitted(gpr, 31) + [BREAK] + Idle(128)
  }

  lemma ProgramStarts(gpr: seq<int>)
    requires |gpr| == 32
    ensures Program(gpr)[..62] == Emitted(gpr, 31) && Program(gpr)[62] == BREAK
  {
    hide Emitted;
  }

  lemma WordsBounded(g: int, i: nat)
    requires Int32(g) && Encodable(g) && 0 < i < 32
    ensures Words(g, i)[0] < TWO32 && Words(g, i)[1] < TWO32
  {
    hide Words; hide Encodable;
    WordsLoad(Zero32(), g, i);
  }

  function Zero32(): (z: seq<int>)
    ensures |z| == 32
  {
    seq(32, _ => 0)
  }

  /** The word at position `n` of the code is a break exactly at its end. */
  lemma WordsModelled(saved: seq<int>, n: nat)
    requires |saved| == 32 && AllEncodable(saved, 32) && (forall i :: 0 <= i < 32 ==> Int32(saved[i])) && n <= 62
    ensures Modelled(Program(saved)[n]) && (Program(saved)[n] == BREAK <==> n == 62)
    ensures n < 62 ==> Program(saved)[n] == Emitted(saved, 31)[n]
  {
    hide Words; hide Encodable; hide Emitted; hide Modelled; hide Int32;
    ProgramStarts(saved);
    BreakModelled();
    if n < 62 {
      var i := n / 2 + 1;
      EmittedAt(saved, 31, i);
      WordsLoad(Zero32(), saved[i], i);
    }
  }

  lemma BreakKeeps(gpr: seq<int>)
    requires |gpr| == 32
    ensures Exec(gpr, BREAK) == gpr
  {
  }

  lemma BreakModelled()
    ensures Modelled(BREAK)
  {
  }

  function RunWords(gpr: seq<int>, ws: seq<nat>): (r: seq<int>)
    requires |gpr| == 32
    ensures |r| == 32
  {
    if ws == [] then gpr else Exec(RunWords(gpr, ws[..|ws| - 1]), ws[|ws| - 1])
  }

  /** The code for the first `n` registers loads exactly those. */
  lemma {:induction false} RunEmitted(start: seq<int>, saved: seq<int>, n: nat)
    requires |start| == |saved| == 32 && n < 32 && AllEncodable(saved, 32) && (forall i :: 0 <= i < 32 ==> Int32(saved[i]))
    ensures var r := RunWords(start, Emitted(saved, n));
      forall i :: 0 <= i < 32 ==> r[i] == if 0 < i <= n then saved[i] else start[i]
  {
    hide Words; hide Encodable; hide Exec; hide Int32;
    if n > 0 {
      RunEmitted(start, saved, n - 1);
      var before, two := Emitted(saved, n - 1), Words(saved[n], n);
      RunTwo(start, before, two);
      WordsLoad(RunWords(start, before), saved[n], n);
    }
  }

  lemma RunTwo(gpr: seq<int>, ws: seq<nat>, two: seq<nat>)
    requires |gpr| == 32 && |two| == 2
    ensures RunWords(gpr, ws + two) == Exec(Exec(RunWords(gpr, ws), two[0]), two[1])
  {
    hide Exec;
    assert (ws + two)[..|ws| + 1] == ws + [two[0]];
    assert (ws + [two[0]])[..|ws|] == ws;
  }

  lemma {:induction false} OrBound(x: nat, y: nat, k: nat)
    requires x < Pow2(k) && y < Pow2(k)
    ensures Or(x, y) < Pow2(k)
    decreases k
  {
    if k > 0 { OrBound(x / 2, y / 2, k - 1); }
  }

  lemma ResultInt32(gpr: seq<int>, w: nat)
    requires |gpr| == 32 && w < TWO32
    ensures Int32(Result(gpr, w))
  {
    hide Or; hide Pow2; hide Unsigned32; hide Opcode; hide Sel;
    Pow32();
    OrBound(Unsigned32(gpr[Rs1(w)]), Unsigned32(Imm(w)), 32);
  }

  lemma Pow32()
    ensures Pow2(32) == TWO32
  {
    Powers();
    Pow2Add(20, 12);
  }
}
