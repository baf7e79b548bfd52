/** Fetch sequencing of l1i.sv: the instruction cache, the group selection and re-steering.

    Predictions (direction, indirect target, return target) are inputs.  `code` is the memory
    behind the cache, which does not change while fetching. */
module Fetch {
  import opened Bits
  import opened FetchQueue

  const SETS: nat := 4096
  const WRAP: nat := 0x1_0000_0000

  type Insn = v: Bits | |v| == 32 witness Zeros(32)

  type Word = Fetched<Insn>

  // ---------------------------------------------------------------- predecode

  predicate IsLink(r: nat) {
    r == 1 || r == 5
  }

  /** 0 none, 1 conditional, 2 return, 3 jump, 4 indirect jump, 5 call, 6 indirect call. */
  function Predecode(v: Insn): (pd: nat)
    ensures pd <= 6
  {
    var opcode, rd, rs1 := Value(v[0..7]), Value(v[7..12]), Value(v[15..20]);
    if opcode == 0x63 then 1
    else if opcode == 0x67 then if rd == 0 then if IsLink(rs1) then 2 else 4 else 6
    else if opcode == 0x6f then if IsLink(rd) then 5 else 3
    else 0
  }

  function JumpOffset(v: Insn): int {
    Signed([false] + v[21..31] + [v[20]] + v[12..20] + [v[31]])
  }

  function BranchOffset(v: Insn): int {
    Signed([false] + v[8..12] + v[25..31] + [v[7]] + [v[31]])
  }

  const BRANCH_BITS: Bits := [true, true, false, false, false, true, true]
  const JALR_BITS: Bits := [true, true, true, false, false, true, true]
  const JAL_BITS: Bits := [true, true, true, true, false, true, true]

  /** Register 1 or register 5, bit by bit. */
  predicate LinkBits(r: Bits) {
    r == [true, false, false, false, false] || r == [true, false, true, false, false]
  }

  lemma SevenBits(v: Bits)
    requires |v| == 7
    ensures Value(v) == Bit(v[0]) + 2 * Bit(v[1]) + 4 * Bit(v[2]) + 8 * Bit(v[3]) + 16 * Bit(v[4]) + 32 * Bit(v[5]) + 64 * Bit(v[6])
  {
    FiveBits(v[..5]);
    assert v[..6][..5] == v[..5];
    ValueStep(v[..6]);
    ValueStep(v);
    assert Pow2(2) == 4 && Pow2(4) == 16 && Pow2(5) == 32 && Pow2(6) == 64;
  }

  lemma FiveBits(v: Bits)
    requires |v| == 5
    ensures Value(v) == Bit(v[0]) + 2 * Bit(v[1]) + 4 * Bit(v[2]) + 8 * Bit(v[3]) + 16 * Bit(v[4])
  {
    SmallPowers();
    hide Value; hide Pow2;
    assert v[..4][..3] == v[..3] && v[..3][..2] == v[..2] && v[..2][..1] == v[..1] && v[..1][..0] == [];
    ValueStep(v);
    ValueStep(v[..4]);
    ValueStep(v[..3]);
    ValueStep(v[..2]);
    ValueStep(v[..1]);
    ValueNil([]);
  }

  lemma SmallPowers()
    ensures Pow2(0) == 1 && Pow2(1) == 2 && Pow2(2) == 4 && Pow2(3) == 8 && Pow2(4) == 16
  {
    assert Pow2(2) == 4;
  }

  /** The predecode bits, by the encodings of section 2.5 of the RISC-V Unprivileged ISA and its
      hints for the return-address stack. */
  lemma PredecodedBits(v: Insn)
    ensures Predecode(v) == 1 <==> v[0..7] == BRANCH_BITS
    ensures Predecode(v) == 3 || Predecode(v) == 5 <==> v[0..7] == JAL_BITS
    ensures Predecode(v) == 5 <==> v[0..7] == JAL_BITS && LinkBits(v[7..12])
    ensures Predecode(v) == 2 || Predecode(v) == 4 || Predecode(v) == 6 <==> v[0..7] == JALR_BITS
    ensures Predecode(v) == 6 <==> v[0..7] == JALR_BITS && v[7..12] != Zeros(5)
    ensures Predecode(v) == 2 <==> v[0..7] == JALR_BITS && v[7..12] == Zeros(5) && LinkBits(v[15..20])
  {
    OpcodeBits(v[0..7]);
    LinkNumbers(v[7..12]);
    LinkNumbers(v[15..20]);
  }

  lemma OpcodeBits(op: Bits)
    requires |op| == 7
    ensures Value(op) == 0x63 <==> op == BRANCH_BITS
    ensures Value(op) == 0x67 <==> op == JALR_BITS
    ensures Value(op) == 0x6f <==> op == JAL_BITS
  {
    hide Value;
    SevenBits(op);
  }

  lemma LinkNumbers(r: Bits)
    requires |r| == 5
    ensures IsLink(Value(r)) <==> LinkBits(r)
    ensures Value(r) == 0 <==> r == Zeros(5)
  {
    hide Value;
    FiveBits(r);
  }

  lemma Join4(a: Bits, b: Bits, c: Bits, d: Bits)
    ensures Value(a + b + c + d) == Value(a) + Pow2(|a|) * Value(b) + Pow2(|a| + |b|) * Value(c) + Pow2(|a| + |b| + |c|) * Value(d)
  {
    hide Value; hide Pow2;
    ValueConcat(a, b);
    ValueConcat(a + b, c);
    ValueConcat(a + b + c, d);
  }

  lemma One(b: bool)
    ensures Value([b]) == Bit(b)
  {
    assert [b][..0] == [];
    ValueStep([b]);
  }

  lemma OffsetPowers()
    ensures Pow2(5) == 32 && Pow2(11) == 2048 && Pow2(12) == 4096 && Pow2(13) == 8192 && Pow2(20) == 0x10_0000 && Pow2(21) == 0x20_0000
    ensures Pow2(1) == 2
  {
    assert Pow2(3) == 8 && Pow2(5) == 32 && Pow2(7) == 128 && Pow2(9) == 512 && Pow2(11) == 2048 && Pow2(13) == 8192;
    assert Pow2(15) == 0x8000 && Pow2(17) == 0x2_0000 && Pow2(19) == 0x8_0000 && Pow2(21) == 0x20_0000;
  }

  /** The offset fields of jumps and branches, bit 31 counting negatively. */
  lemma JumpOffsetFields(v: Insn)
    ensures JumpOffset(v) ==
      2 * Value(v[21..31]) + 0x800 * Bit(v[20]) + 0x1000 * Value(v[12..20]) - 0x10_0000 * Bit(v[31])
  {
    hide Value; hide Pow2;
    OffsetPowers();
    var u := [false] + v[21..31] + [v[20]] + v[12..20];
    ValueDouble(v[21..31]);
    One(v[20]);
    Join4([false] + v[21..31], [v[20]], v[12..20], []);
    ValueNil([]);
    assert [false] + v[21..31] + [v[20]] + v[12..20] + [] == u;
    SignedStep(u + [v[31]]);
    assert (u + [v[31]])[..20] == u;
  }

  lemma BranchOffsetFields(v: Insn)
    ensures BranchOffset(v) == 2 * Value(v[8..12]) + 32 * Value(v[25..31]) + 0x800 * Bit(v[7]) - 0x1000 * Bit(v[31])
  {
    hide Value; hide Pow2;
    OffsetPowers();
    var u := [false] + v[8..12] + v[25..31] + [v[7]];
    ValueDouble(v[8..12]);
    One(v[7]);
    Join4([false] + v[8..12], v[25..31], [v[7]], []);
    ValueNil([]);
    assert [false] + v[8..12] + v[25..31] + [v[7]] + [] == u;
    SignedStep(u + [v[31]]);
    assert (u + [v[31]])[..12] == u;
  }

  // ---------------------------------------------------------------- addresses

  function Add(pc: nat, k: int): (r: nat)
    ensures r < WRAP
  {
    (pc + k) % WRAP
  }

  function Position(pc: nat): (r: nat)
    ensures r < 4
  {
    pc / 4 % 4
  }

  function SetOf(pc: nat): (r: nat)
    ensures r < SETS
  {
    pc / 16 % 4096
  }

  function TagOf(pc: nat): nat {
    pc / 65536
  }

  function NextSet(s: nat): (r: nat)
    ensures r < SETS
  {
    if s + 1 >= SETS then 0 else s + 1
  }

  lemma Split(pc: nat)
    ensures pc == 65536 * TagOf(pc) + 16 * SetOf(pc) + 4 * Position(pc) + pc % 4 && pc % 4 < 4
  {
    var a, b, c, d := pc / 65536, pc / 16 % 4096, pc / 4 % 4, pc % 4;
    var x, y := pc / 16, pc / 4;
    ModUnique(y, c, y / 4, 4);
    ModUnique(pc, 4 * c + d, y / 4, 16);
    ModUnique(pc, 16 * b + 4 * c + d, x / 4096, 65536);
  }

  lemma Joined(t: nat, s: nat, w: nat, o: nat)
    requires s < 4096 && w < 4 && o < 4
    ensures var pc := 65536 * t + 16 * s + 4 * w + o;
      TagOf(pc) == t && SetOf(pc) == s && Position(pc) == w && pc / 4 == (t * 4096 + s) * 4 + w && pc / 16 * 16 == pc - 4 * w - o
  {
    var pc := 65536 * t + 16 * s + 4 * w + o;
    ModUnique(pc, 16 * s + 4 * w + o, t, 65536);
    ModUnique(pc, 4 * w + o, 4096 * t + s, 16);
    ModUnique(4096 * t + s, s, t, 4096);
    ModUnique(pc, o, 16384 * t + 4 * s + w, 4);
    ModUnique(16384 * t + 4 * s + w, w, 4096 * t + s, 4);
  }

  lemma AddCases(pc: nat, k: nat)
    requires pc < WRAP && k <= WRAP
    ensures Add(pc, k) == if pc + k < WRAP then pc + k else pc + k - WRAP
  {
    if pc + k < WRAP { ModUnique(pc + k, pc + k, 0, WRAP); } else { ModUnique(pc + k, pc + k - WRAP, 1, WRAP); }
  }

  /** Stepping within a line changes the position only. */
  lemma WithinLine(pc: nat, n: nat)
    requires pc < WRAP && Position(pc) + n < 4
    ensures var p := Add(pc, 4 * n); p == pc + 4 * n && TagOf(p) == TagOf(pc) && SetOf(p) == SetOf(pc) && Position(p) == Position(pc) + n
  {
    hide TagOf; hide SetOf; hide Position; hide Add;
    Split(pc);
    TagBound(pc);
    AddCases(pc, 4 * n);
    Joined(TagOf(pc), SetOf(pc), Position(pc) + n, pc % 4);
  }

  lemma TagBound(pc: nat)
    requires pc < WRAP
    ensures TagOf(pc) < 65536
  {
  }

  /** Stepping to the end of a line reaches the next set. */
  lemma IntoNextLine(pc: nat, n: nat)
    requires pc < WRAP && Position(pc) + n == 4
    ensures SetOf(Add(pc, 4 * n)) == NextSet(SetOf(pc))
  {
    hide TagOf; hide SetOf; hide Position; hide Add;
    Split(pc);
    TagBound(pc);
    AddCases(pc, 4 * n);
    if SetOf(pc) + 1 < SETS {
      Joined(TagOf(pc), SetOf(pc) + 1, 0, pc % 4);
    } else if TagOf(pc) + 1 < 65536 {
      Joined(TagOf(pc) + 1, 0, 0, pc % 4);
    } else {
      Joined(0, 0, 0, pc % 4);
    }
  }

  lemma AddAdd(pc: nat, j: nat, k: nat)
    ensures Add(Add(pc, j), k) == Add(pc, j + k)
  {
  }

  // ---------------------------------------------------------------- paths

  /** Where fetch must go after `f`. */
  function Follow(f: Word): nat {
    if f.pred then f.target else Add(f.pc, 4)
  }

  function Expected(start: nat, pushed: seq<Word>): nat {
    if pushed == [] then start else Follow(pushed[|pushed| - 1])
  }

  /** The word is the one in memory, a redirection is one its opcode can make, and only plain
      instructions and untaken conditional branches fall through. */
  ghost predicate Truthful(f: Word, code: nat -> Insn) {
    var pd := Predecode(f.data);
    && f.data == code(f.pc / 4)
    && (if f.pred then pd != 0 else pd <= 1)
    && (f.pred && (pd == 3 || pd == 5) ==> f.target == Add(f.pc, JumpOffset(f.data)))
    && (f.pred && pd == 1 ==> f.target == Add(f.pc, BranchOffset(f.data)))
  }

  /** One unbroken predicted path from `start`. */
  ghost predicate IsPath(start: nat, pushed: seq<Word>, code: nat -> Insn) {
    forall j :: 0 <= j < |pushed| ==> pushed[j].pc == Expected(start, pushed[..j]) && Truthful(pushed[j], code)
  }

  lemma PathSnoc(start: nat, pushed: seq<Word>, f: Word, code: nat -> Insn)
    requires IsPath(start, pushed, code) && f.pc == Expected(start, pushed) && Truthful(f, code)
    ensures IsPath(start, pushed + [f], code) && Expected(start, pushed + [f]) == Follow(f)
  {
    hide Truthful; hide Expected;
    var longer := pushed + [f];
    forall j | 0 <= j < |longer| ensures longer[j].pc == Expected(start, longer[..j]) && Truthful(longer[j], code) {
      assert longer[..j] == pushed[..j];
      if j == |pushed| { assert pushed[..j] == pushed; }
    }
    LastFollows(start, pushed, f);
  }

  lemma LastFollows(start: nat, pushed: seq<Word>, f: Word)
    ensures Expected(start, pushed + [f]) == Follow(f)
  {
  }

  // ---------------------------------------------------------------- the cache

  datatype Line = Line(words: seq<Insn>, pds: seq<nat>)

  ghost predicate Four(l: Line) {
    |l.words| == 4 && |l.pds| == 4
  }

  /** The line holds what memory holds there, with the right predecode bits. */
  ghost predicate Coherent(l: Line, tag: nat, set_: nat, code: nat -> Insn) {
    && Four(l)
    && forall k :: 0 <= k < 4 ==> l.words[k] == code((tag * 4096 + set_) * 4 + k) && l.pds[k] == Predecode(l.words[k])
  }

  datatype Rams = Rams(valids: seq<bool>, tags: seq<nat>, lines: seq<Line>, outValid: bool, outTag: nat, outLine: Line)

  ghost predicate Sized(m: Rams) {
    && |m.valids| == |m.tags| == |m.lines| == SETS && Four(m.outLine)
    && forall k :: 0 <= k < SETS ==> Four(m.lines[k])
  }

  ghost predicate LinesOk(m: Rams, code: nat -> Insn) {
    Sized(m) && forall k :: 0 <= k < SETS && m.valids[k] ==> Coherent(m.lines[k], m.tags[k], k, code)
  }

  ghost predicate OutOk(m: Rams, idx: nat, code: nat -> Insn) {
    Four(m.outLine) && (m.outValid ==> Coherent(m.outLine, m.outTag, idx, code))
  }

  /** The output registers load from index `t`; a write in the same cycle is not seen. */
  function Read(m: Rams, t: nat): Rams
    requires |m.valids| == |m.tags| == |m.lines| == SETS && t < SETS
  {
    m.(outValid := m.valids[t], outTag := m.tags[t], outLine := m.lines[t])
  }

  // ---------------------------------------------------------------- group selection

  predicate Steers(pd: nat, taken: bool) {
    pd == 5 || pd == 3 || (pd == 1 && taken) || pd == 2 || pd == 4 || pd == 6
  }

  /** Bit `j` of the branch marker seen from position `p`: the word `j` places on is a control
      transfer, or the line ends there. */
  predicate Marked(pds: seq<nat>, p: nat, j: nat)
    requires |pds| == 4
  {
    if p + j < 4 then pds[p + j] != 0 else p + j == 4
  }

  /** The first marked place; an untaken conditional branch at the head does not count. */
  function FirstBranch(pds: seq<nat>, p: nat, taken: bool): (k: nat)
    requires |pds| == 4 && p < 4
    ensures p + k <= 4 && (forall j :: p < j < p + k ==> pds[j] == 0)
    ensures k == 0 ==> pds[p] != 0 && !(pds[p] == 1 && !taken)
    ensures k > 0 ==> pds[p] == 0 || (pds[p] == 1 && !taken)
    ensures k > 0 && p + k < 4 ==> pds[p + k] != 0
  {
    if Marked(pds, p, 0) && !(pds[p] == 1 && !taken) then 0
    else if Marked(pds, p, 1) then 1
    else if Marked(pds, p, 2) then 2
    else if Marked(pds, p, 3) then 3
    else 4
  }

  /** How many words go into the queue when the head falls through. */
  function GroupSize(first: nat, q: Queue<Insn>): (n: nat)
    requires Shaped(q)
    ensures 1 <= n <= 4 && (n > 1 ==> n == first)
  {
    if first == 4 && !Full4(q) then 4
    else if first == 3 && !Full3(q) then 3
    else if first == 2 && !Full2(q) then 2
    else 1
  }

  /** The whole group goes in if it fits, else its head alone; the queue never overflows. */
  lemma GroupFits(first: nat, q: Queue<Insn>)
    requires Ok(q) && !Full(q) && first <= 4
    ensures Count(q) + GroupSize(first, q) <= 8
    ensures GroupSize(first, q) == if first >= 2 && Count(q) + first <= 8 then first else 1
  {
    hide Count; hide Full2; hide Full3; hide Full4;
    FullExactly(q);
  }

  function Head(l: Line, pc: nat, target: nat, pred: bool): Word
    requires |l.words| == 4
  {
    Fetched(l.words[Position(pc)], pc, target, pred)
  }

  function Later(l: Line, pc: nat, k: nat): Word
    requires |l.words| == 4
  {
    Fetched(l.words[(Position(pc) + k) % 4], Add(pc, 4 * k), 0, false)
  }

  function Group(l: Line, pc: nat, target: nat, n: nat): (g: seq<Word>)
    requires |l.words| == 4 && 1 <= n <= 4
    ensures |g| == n
  {
    if n == 1 then [Head(l, pc, target, false)]
    else if n == 2 then [Head(l, pc, target, false), Later(l, pc, 1)]
    else if n == 3 then [Head(l, pc, target, false), Later(l, pc, 1), Later(l, pc, 2)]
    else [Head(l, pc, target, false), Later(l, pc, 1), Later(l, pc, 2), Later(l, pc, 3)]
  }

  /** A word of a coherent line is the word of its own address. */
  lemma WordOfLine(l: Line, pc: nat, k: nat, code: nat -> Insn)
    requires pc < WRAP && Coherent(l, TagOf(pc), SetOf(pc), code) && Position(pc) + k < 4
    ensures var p := Add(pc, 4 * k);
      l.words[(Position(pc) + k) % 4] == code(p / 4) && l.pds[Position(pc) + k] == Predecode(code(p / 4))
  {
    hide TagOf; hide SetOf; hide Position; hide Add; hide Predecode;
    WithinLine(pc, k);
    Split(Add(pc, 4 * k));
    Joined(TagOf(pc), SetOf(pc), Position(pc) + k, Add(pc, 4 * k) % 4);
  }

  /** A group continues the path one word at a time. */
  lemma GroupFollows(start: nat, pushed: seq<Word>, l: Line, pc: nat, target: nat, n: nat, taken: bool, code: nat -> Insn)
    requires IsPath(start, pushed, code) && pc == Expected(start, pushed) && pc < WRAP
    requires Coherent(l, TagOf(pc), SetOf(pc), code) && 1 <= n <= 4
    requires !Steers(l.pds[Position(pc)], taken) && (n > 1 ==> n == FirstBranch(l.pds, Position(pc), taken))
    ensures var longer := pushed + Group(l, pc, target, n);
      IsPath(start, longer, code) && Expected(start, longer) == Add(pc, 4 * n)
  {
    hide Predecode; hide JumpOffset; hide BranchOffset; hide IsPath; hide Expected; hide Add; hide Truthful;
    var all := Group(l, pc, target, n);
    HeadFollows(start, pushed, l, pc, target, taken, code);
    assert pushed + all[..1] == pushed + [all[0]];
    if n > 1 { LaterFollows(start, pushed + all[..1], l, pc, 1, code); assert pushed + all[..2] == pushed + all[..1] + [all[1]]; }
    if n > 2 { LaterFollows(start, pushed + all[..2], l, pc, 2, code); assert pushed + all[..3] == pushed + all[..2] + [all[2]]; }
    if n > 3 { LaterFollows(start, pushed + all[..3], l, pc, 3, code); assert pushed + all[..4] == pushed + all[..3] + [all[3]]; }
    assert all[..n] == all;
  }

  lemma HeadFollows(start: nat, pushed: seq<Word>, l: Line, pc: nat, target: nat, taken: bool, code: nat -> Insn)
    requires IsPath(start, pushed, code) && pc == Expected(start, pushed) && pc < WRAP
    requires Coherent(l, TagOf(pc), SetOf(pc), code) && !Steers(l.pds[Position(pc)], taken)
    ensures var f := Head(l, pc, target, false);
      IsPath(start, pushed + [f], code) && Expected(start, pushed + [f]) == Add(pc, 4)
  {
    hide Predecode; hide IsPath; hide Expected;
    WordOfLine(l, pc, 0, code);
    AddZero(pc);
    PathSnoc(start, pushed, Head(l, pc, target, false), code);
  }

  lemma AddZero(pc: nat)
    requires pc < WRAP
    ensures Add(pc, 4 * 0) == pc
  {
  }

  lemma LaterFollows(start: nat, pushed: seq<Word>, l: Line, pc: nat, k: nat, code: nat -> Insn)
    requires IsPath(start, pushed, code) && Add(pc, 4 * k) == Expected(start, pushed) && pc < WRAP
    requires Coherent(l, TagOf(pc), SetOf(pc), code) && Position(pc) + k < 4 && l.pds[Position(pc) + k] == 0
    ensures var f := Later(l, pc, k);
      IsPath(start, pushed + [f], code) && Expected(start, pushed + [f]) == Add(pc, 4 * (k + 1))
  {
    hide Predecode; hide IsPath; hide Expected;
    WordOfLine(l, pc, k, code);
    AddAdd(pc, 4 * k, 4);
    PathSnoc(start, pushed, Later(l, pc, k), code);
  }

  /** From the word at `pc` on there are `m` words up to the next control transfer or the end of
      the line; the first of them does not count. */
  ghost predicate PlainRun(pc: nat, m: nat, code: nat -> Insn) {
    && 1 <= m && Position(pc) + m <= 4
    && (forall k :: 1 <= k < m ==> Predecode(code(Add(pc, 4 * k) / 4)) == 0)
    && (Position(pc) + m < 4 ==> Predecode(code(Add(pc, 4 * m) / 4)) != 0)
  }

  /** What may be queued in one clock when there is room for `room` words, the predictors saying
      `i`.  The head is redirected if it is an unconditional transfer or a branch predicted
      taken, to the target its kind calls for.  Otherwise the plain words behind it go along, if
      all of them fit. */
  ghost predicate AsPredicted(g: seq<Word>, i: Input, room: int, code: nat -> Insn) {
    && g != []
    && var f, pd := g[0], Predecode(g[0].data);
    && (f.pred <==> pd >= 2 || (pd == 1 && i.taken))
    && (pd == 2 ==> f.target == i.ras)
    && (pd == 4 || pd == 6 ==> f.target == i.btb)
    && (forall k :: 1 <= k < |g| ==> !g[k].pred && Predecode(g[k].data) == 0)
    && (f.pred ==> |g| == 1)
    && (!f.pred ==> exists m: nat :: PlainRun(f.pc, m, code) && |g| == if m <= room then m else 1)
  }

  lemma RunOfLine(l: Line, pc: nat, taken: bool, code: nat -> Insn)
    requires pc < WRAP && Coherent(l, TagOf(pc), SetOf(pc), code) && !Steers(l.pds[Position(pc)], taken)
    ensures PlainRun(pc, FirstBranch(l.pds, Position(pc), taken), code)
  {
    hide TagOf; hide SetOf; hide Add; hide Predecode; hide FirstBranch;
    var p, m := Position(pc), FirstBranch(l.pds, Position(pc), taken);
    hide Position;
    PredecodedWithin(l);
    forall k | 1 <= k < m ensures Predecode(code(Add(pc, 4 * k) / 4)) == 0 { WordOfLine(l, pc, k, code); }
    if p + m < 4 { WordOfLine(l, pc, m, code); }
  }

  lemma PredecodedWithin(l: Line)
    requires Four(l)
    ensures forall pd, taken :: !Steers(pd, taken) && pd <= 6 ==> pd == 0 || (pd == 1 && !taken)
  {
  }

  lemma GroupAsPredicted(l: Line, pc: nat, target: nat, n: nat, i: Input, room: int, code: nat -> Insn)
    requires pc < WRAP && Coherent(l, TagOf(pc), SetOf(pc), code) && !Steers(l.pds[Position(pc)], i.taken) && 1 <= n <= 4
    requires n == var m := FirstBranch(l.pds, Position(pc), i.taken); if m >= 2 && m <= room then m else 1
    requires room >= 1
    ensures AsPredicted(Group(l, pc, target, n), i, room, code)
  {
    hide TagOf; hide SetOf; hide Add; hide Predecode; hide FirstBranch; hide Position; hide PlainRun;
    var g, m := Group(l, pc, target, n), FirstBranch(l.pds, Position(pc), i.taken);
    RunOfLine(l, pc, i.taken, code);
    PredecodedWithin(l);
    WordOfLine(l, pc, 0, code);
    AddZero(pc);
    forall k | 1 <= k < |g| ensures !g[k].pred && Predecode(g[k].data) == 0 {
      RunInside(pc, m, k, code);
      WordOfLine(l, pc, k, code);
    }
    assert PlainRun(g[0].pc, m, code);
    if m == 1 {} else { RunInside(pc, m, 1, code); }
  }

  lemma RunInside(pc: nat, m: nat, k: nat, code: nat -> Insn)
    requires PlainRun(pc, m, code)
    ensures Position(pc) + m <= 4 && m >= 1
    ensures 1 <= k < m ==> Predecode(code(Add(pc, 4 * k) / 4)) == 0
  {
  }

  lemma HeadAsPredicted(l: Line, pc: nat, i: Input, room: int, code: nat -> Insn)
    requires pc < WRAP && Coherent(l, TagOf(pc), SetOf(pc), code) && Steers(l.pds[Position(pc)], i.taken)
    ensures AsPredicted([Head(l, pc, Target(l, pc, i), true)], i, room, code)
  {
    hide TagOf; hide SetOf; hide Add; hide Position; hide JumpOffset; hide BranchOffset;
    WordOfLine(l, pc, 0, code);
    AddZero(pc);
  }

  // ---------------------------------------------------------------- the registers

  datatype State = Initialize | InitPht | Idle | Active | InjectReload | ReloadTurnaround | FlushCache | WaitForNotFull

  datatype Regs = Regs(state: State, pc: nat, missPc: nat, cachePc: nat, cacheIdx: nat, cacheTag: nat,
                       req: bool, bubble: bool, reqAddr: nat, restartReq: bool, flushReq: bool, phtIdx: nat)

  /** `taken`, `btb` and `ras` are the three predictors' outputs; `pops` is how many words decode
      takes. */
  datatype Input = Input(restart: bool, restartPc: nat, flush: bool, memRsp: bool, memWords: seq<Insn>,
                         taken: bool, btb: nat, ras: nat, pops: nat)

  const PHT_ENTRIES: nat := 65536

  function PredecodeAll(ws: seq<Insn>): (pds: seq<nat>)
    ensures |pds| == |ws|
  {
    seq(|ws|, k requires 0 <= k < |ws| => Predecode(ws[k]))
  }

  function LineBase(pc: nat): nat {
    pc / 16 * 16
  }

  /** Fetch runs between a restart and a flush. */
  predicate Running(s: State) {
    s == Active || s == InjectReload || s == ReloadTurnaround || s == WaitForNotFull
  }

  /** In every running state the registers agree on the word that comes next, `e`. */
  ghost predicate Aimed(r: Regs, e: nat) {
    && e < WRAP
    && match r.state
       case Active =>
         if r.bubble || !r.req then r.pc == e
         else r.cachePc == e && r.pc == Add(e, 4) && r.cacheIdx == SetOf(e) && r.cacheTag == TagOf(e)
       case InjectReload => r.missPc == e && r.pc == Add(e, 4) && r.reqAddr == LineBase(e)
       case ReloadTurnaround => r.missPc == e && r.pc == Add(e, 4)
       case WaitForNotFull => r.missPc == e && r.pc == Add(e, 4)
       case _ => true
  }

  /** The cache holds the line of the word at `pc`. */
  ghost predicate Present(m: Rams, pc: nat)
    requires |m.valids| == |m.tags| == SETS
  {
    m.valids[SetOf(pc)] && m.tags[SetOf(pc)] == TagOf(pc)
  }

  ghost predicate RamsOk(m: Rams, r: Regs, code: nat -> Insn) {
    && Sized(m) && r.cacheIdx < SETS
    && (Running(r.state) || r.state == Idle ==> LinesOk(m, code))
    && (Running(r.state) ==> OutOk(m, r.cacheIdx, code))
    && (r.state == ReloadTurnaround ==> Present(m, r.missPc))
    && (r.state == FlushCache ==> forall k :: 0 <= k < r.cacheIdx ==> !m.valids[k])
    && (r.state == Initialize || r.state == InitPht ==> r.cacheIdx == 0 && r.phtIdx < PHT_ENTRIES)
  }

  function Target(l: Line, pc: nat, i: Input): nat
    requires Four(l)
  {
    var pd, word := l.pds[Position(pc)], l.words[Position(pc)];
    if pd == 5 || pd == 3 then Add(pc, JumpOffset(word))
    else if pd == 1 then Add(pc, BranchOffset(word))
    else if pd == 2 then i.ras else i.btb
  }

  /** After a group of `n` words from `r.cachePc` the cache is read for the word behind it. */
  function AfterGroup(r: Regs, n: nat): Regs {
    var p := Position(r.cachePc);
    if n == 1 then
      r.(cachePc := r.pc, pc := Add(r.pc, 4), cacheIdx := SetOf(r.pc), cacheTag := TagOf(r.pc), req := true, bubble := false)
    else
      var next := Add(r.cachePc, 4 * n);
      var crosses := n == 4 || (n == 3 && p != 0) || (n == 2 && p == 2);
      r.(cachePc := next, pc := Add(r.cachePc, 4 * n + 4), cacheTag := TagOf(next), req := true, bubble := false,
         cacheIdx := if crosses then NextSet(r.cacheIdx) else SetOf(r.pc))
  }

  lemma AfterGroupAimed(r: Regs, n: nat)
    requires r.state == Active && r.req && !r.bubble && Aimed(r, r.cachePc)
    requires 1 <= n <= 4 && Position(r.cachePc) + n <= 4
    ensures Aimed(AfterGroup(r, n), Add(r.cachePc, 4 * n))
  {
    hide TagOf; hide SetOf; hide Position; hide Add;
    var pc, p := r.cachePc, Position(r.cachePc);
    AddAdd(pc, 4, 4);
    AddAdd(pc, 4 * n, 4);
    if n > 1 {
      WithinLine(pc, 1);
      if p + n == 4 { IntoNextLine(pc, n); } else { WithinLine(pc, n); }
    }
  }

  /** Everything about the group of one clock. */
  lemma GroupStep(start: nat, pushed: seq<Word>, l: Line, r: Regs, q: Queue<Insn>, n: nat, i: Input, code: nat -> Insn)
    requires IsPath(start, pushed, code) && r.state == Active && r.req && !r.bubble && Aimed(r, Expected(start, pushed))
    requires Coherent(l, TagOf(r.cachePc), SetOf(r.cachePc), code) && Ok(q) && !Full(q) && r.cacheIdx < SETS
    requires !Steers(l.pds[Position(r.cachePc)], i.taken) && n == GroupSize(FirstBranch(l.pds, Position(r.cachePc), i.taken), q)
    ensures var next := AfterGroup(r, n);
      var g := Group(l, r.cachePc, next.pc, n);
      && IsPath(start, pushed + g, code) && Aimed(next, Expected(start, pushed + g))
      && AsPredicted(g, i, 8 - Count(q), code) && |g| <= 4 && Count(q) + |g| <= 8
      && next.state == Active && next.req && !next.bubble && next.cacheIdx < SETS
  {
    assert Four(l);
    hide IsPath; hide Expected; hide Coherent; hide Group; hide AfterGroup; hide FirstBranch; hide Predecode;
    hide TagOf; hide SetOf; hide Position; hide Add; hide GroupSize; hide Steers; hide AsPredicted;
    var first := FirstBranch(l.pds, Position(r.cachePc), i.taken);
    GroupFits(first, q);
    RoomLeft(q);
    GroupFollows(start, pushed, l, r.cachePc, AfterGroup(r, n).pc, n, i.taken, code);
    GroupAsPredicted(l, r.cachePc, AfterGroup(r, n).pc, n, i, 8 - Count(q), code);
    AfterGroupAimed(r, n);
    AfterGroupFrame(r, n);
  }

  lemma RoomLeft(q: Queue<Insn>)
    requires Ok(q) && !Full(q)
    ensures Count(q) < 8
  {
    FullExactly(q);
  }

  lemma FilledLine(words: seq<Insn>, pc: nat, code: nat -> Insn)
    requires |words| == 4 && forall k :: 0 <= k < 4 ==> words[k] == code(LineBase(pc) / 4 + k)
    ensures SetOf(LineBase(pc)) == SetOf(pc) && TagOf(LineBase(pc)) == TagOf(pc)
    ensures Coherent(Line(words, PredecodeAll(words)), TagOf(pc), SetOf(pc), code)
  {
    hide Predecode; hide TagOf; hide SetOf; hide Position;
    Split(pc);
    Joined(TagOf(pc), SetOf(pc), Position(pc), pc % 4);
    assert LineBase(pc) == 65536 * TagOf(pc) + 16 * SetOf(pc) + 4 * 0 + 0;
    Joined(TagOf(pc), SetOf(pc), 0, 0);
  }

  lemma ReadOk(m: Rams, t: nat, code: nat -> Insn)
    requires LinesOk(m, code) && t < SETS
    ensures Sized(m) && Sized(Read(m, t)) && LinesOk(Read(m, t), code) && OutOk(Read(m, t), t, code)
  {
    hide Coherent;
  }

  lemma PathNil(start: nat, code: nat -> Insn)
    ensures IsPath(start, [], code) && Expected(start, []) == start
  {
  }

  // ---------------------------------------------------------------- the clocked block

  class L1i {
    ghost const code: nat -> Insn
    var ram: Rams
    var r: Regs
    var q: Queue<Insn>
    // since the last restart: where it went, what was queued, and what decode has taken
    ghost var start: nat
    ghost var pushed: seq<Word>
    ghost var taken: seq<Word>

    ghost predicate Valid()
      reads this
    {
      && RamsOk(ram, r, code) && Shaped(q)
      && (if Running(r.state) then Ok(q) else Empty(q))
      && (r.bubble ==> r.state == Active)
      && (Running(r.state) ==>
        Aimed(r, Expected(start, pushed)) && IsPath(start, pushed, code) && taken + Contents(q) == pushed)
    }

    constructor (contents: Rams, queue: seq<Word>, ghost memory: nat -> Insn)
      requires Sized(contents) && |queue| == 8
      ensures Valid() && r.state == Initialize && code == memory
    {
      code := memory;
      ram := contents;
      r := Regs(Initialize, 0, 0, 0, 0, 0, false, false, 0, false, false, 0);
      q := Queue(queue, 0, 1, 0, 1, 1, 1);
      start, pushed, taken := 0, [], [];
    }

    /** Memory answers while asked, with what it holds; addresses have 32 bits; decode takes no
        more than there is. */
    ghost predicate InputOk(i: Input)
      reads this
      requires Shaped(q)
    {
      && i.restartPc < WRAP && i.ras < WRAP && i.btb < WRAP && i.pops <= Count(q) && i.pops <= 2
      && (i.memRsp ==> r.state == InjectReload && |i.memWords| == 4)
      && (i.memRsp ==> forall k :: 0 <= k < 4 ==> i.memWords[k] == code(r.reqAddr / 4 + k))
    }

    predicate FlushAsked(i: Input)
      reads this
    {
      r.flushReq || i.flush
    }

    predicate RestartAsked(i: Input)
      reads this
    {
      r.restartReq || i.restart
    }

    predicate Hit()
      reads this
    {
      r.req && ram.outValid && ram.outTag == r.cacheTag
    }

    /** The queue registers of one clock. */
    method QueueClock(items: seq<Word>, pops: nat)
      requires Ok(q) && |items| <= 4 && Count(q) + |items| <= 8 && pops <= Count(q) && taken + Contents(q) == pushed
      modifies `q, `pushed, `taken
      ensures Ok(q) && taken + Contents(q) == pushed
      ensures pushed == old(pushed) + items && taken == old(taken) + old(Contents(q))[..pops]
      ensures items == [] ==> pushed == old(pushed)
    {
      hide Contents; hide Clocked;
      Accounted(q, items, pops, taken, pushed);
      taken, pushed := taken + Contents(q)[..pops], pushed + items;
      q := Clocked(q, items, pops);
    }
  
    /** The request latches, which hold a request until its state serves it. */
    function Latched(i: Input): Regs
      reads this
    {
      r.(restartReq := r.restartReq || i.restart, flushReq := r.flushReq || i.flush)
    }

    /** Requests for a flush or a restart stay latched. */
    twostate predicate Latches(i: Input)
      reads this
    {
      r.restartReq == old(RestartAsked(i)) && r.flushReq == old(FlushAsked(i))
    }

    /** Accepting a restart. */
    method Restart(i: Input, cachePc: nat, t: nat, tag: nat)
      requires Valid() && InputOk(i) && t < SETS && (Running(r.state) || r.state == Idle)
      modifies this
      ensures Valid() && r.state == Active && start == i.restartPc && pushed == [] && taken == []
      ensures !r.restartReq && r.flushReq == old(FlushAsked(i))
    {
      hide Coherent; hide Predecode; hide TagOf; hide SetOf; hide Position; hide Add; hide Present;
      hide LinesOk; hide OutOk; hide IsPath;
      ReadOk(ram, t, code);
      PathNil(i.restartPc, code);
      ram := Read(ram, t);
      r := Latched(i).(state := Active, pc := i.restartPc, cachePc := cachePc, cacheIdx := t, cacheTag := tag,
                       req := false, bubble := false, restartReq := false);
      q := Cleared(q);
      start, pushed, taken := i.restartPc, [], [];
      assert Contents(q) == [];
    }

    /** Accepting a flush; the restart latch stays. */
    method BeginFlush(i: Input, cachePc: nat, pc: nat, tag: nat, req: bool)
      requires Valid() && InputOk(i) && Running(r.state)
      modifies this
      ensures Valid() && r.state == FlushCache && !r.flushReq && r.restartReq == old(RestartAsked(i))
    {
      hide Coherent; hide Predecode; hide TagOf; hide SetOf; hide Position; hide Add;
      ram := Read(ram, 0);
      r := Latched(i).(state := FlushCache, pc := pc, cachePc := cachePc, cacheIdx := 0, cacheTag := tag,
                       req := req, bubble := false, flushReq := false);
      q := Cleared(q);
    }

    /** Reading for the word at `r.pc`: in the bubble after a redirection, and after a restart. */
    method ReadNext(i: Input)
      requires Valid() && InputOk(i) && r.state == Active && (r.bubble || !r.req)
      modifies `ram, `r, `q, `pushed, `taken
      ensures Valid() && Latches(i) && r.state == Active && pushed == old(pushed)
      ensures start == old(start) && taken == old(taken) + old(Contents(q))[..i.pops]
    {
      hide Coherent; hide Predecode; hide TagOf; hide SetOf; hide Position; hide Add; hide IsPath; hide Contents; hide Expected;
      QueueClock([], i.pops);
      ram := Read(ram, SetOf(r.pc));
      r := Latched(i).(cachePc := r.pc, pc := Add(r.pc, 4), cacheIdx := SetOf(r.pc), cacheTag := TagOf(r.pc),
                       req := true, bubble := false);
    }

    method Miss(i: Input)
      requires Valid() && InputOk(i) && r.state == Active && !r.bubble && r.req && !Hit()
      modifies `ram, `r, `q, `pushed, `taken
      ensures Valid() && Latches(i) && r.state == InjectReload && pushed == old(pushed)
      ensures start == old(start) && taken == old(taken) + old(Contents(q))[..i.pops]
    {
      hide Coherent; hide Predecode; hide TagOf; hide SetOf; hide Position; hide Add; hide IsPath; hide Contents; hide Expected;
      QueueClock([], i.pops);
      ram := Read(ram, SetOf(r.pc));
      r := Latched(i).(state := InjectReload, reqAddr := LineBase(r.cachePc), missPc := r.cachePc,
                       cachePc := r.pc, cacheIdx := SetOf(r.pc), cacheTag := TagOf(r.pc));
    }

    method Stall(i: Input)
      requires Valid() && InputOk(i) && r.state == Active && !r.bubble && Hit() && Full(q)
      modifies `ram, `r, `q, `pushed, `taken
      ensures Valid() && Latches(i) && r.state == WaitForNotFull && pushed == old(pushed)
      ensures start == old(start) && taken == old(taken) + old(Contents(q))[..i.pops]
    {
      hide Coherent; hide Predecode; hide TagOf; hide SetOf; hide Position; hide Add; hide IsPath; hide Contents; hide Expected;
      QueueClock([], i.pops);
      ram := Read(ram, SetOf(r.pc));
      r := Latched(i).(state := WaitForNotFull, missPc := r.cachePc, cachePc := r.pc,
                       cacheIdx := SetOf(r.pc), cacheTag := TagOf(r.pc));
    }

    /** A control transfer ends its group: the target is fetched after a bubble. */
    method Redirect(i: Input)
      requires Valid() && InputOk(i) && r.state == Active && !r.bubble && Hit() && !Full(q)
      requires Steers(ram.outLine.pds[Position(r.cachePc)], i.taken)
      modifies `ram, `r, `q, `pushed, `taken
      ensures Valid() && Latches(i) && r.state == Active
      ensures pushed == old(pushed) + [old(Head(ram.outLine, r.cachePc, Target(ram.outLine, r.cachePc, i), true))]
      ensures start == old(start) && taken == old(taken) + old(Contents(q))[..i.pops] && old(pushed) <= pushed
      ensures AsPredicted(pushed[|old(pushed)|..], i, 8 - old(Count(q)), code)
    {
      hide IsPath; hide Contents; hide Expected; hide Predecode; hide JumpOffset; hide BranchOffset; hide Truthful;
      hide Coherent; hide TagOf; hide SetOf; hide Position; hide Add; hide Steers; hide Target;
      var target := Target(ram.outLine, r.cachePc, i);
      var f := Head(ram.outLine, r.cachePc, target, true);
      TargetOk(ram.outLine, r.cachePc, i, code);
      HeadAsPredicted(ram.outLine, r.cachePc, i, 8 - Count(q), code);
      FullExactly(q);
      ghost var was, room := pushed, 8 - Count(q);
      hide AsPredicted;
      PathSnoc(start, pushed, f, code);
      QueueClock([f], i.pops);
      ram := Read(ram, SetOf(r.pc));
      r := Latched(i).(pc := target, cachePc := r.pc, cacheIdx := SetOf(r.pc), cacheTag := TagOf(r.pc),
                       req := true, bubble := true);
      assert pushed[|was|..] == [f];
    }

    /** A head that falls through takes the plain words behind it along. */
    method PushGroup(i: Input)
      requires Valid() && InputOk(i) && r.state == Active && !r.bubble && Hit() && !Full(q)
      requires !Steers(ram.outLine.pds[Position(r.cachePc)], i.taken)
      modifies `ram, `r, `q, `pushed, `taken
      ensures Valid() && Latches(i) && r.state == Active
      ensures start == old(start) && taken == old(taken) + old(Contents(q))[..i.pops] && old(pushed) <= pushed
      ensures AsPredicted(pushed[|old(pushed)|..], i, 8 - old(Count(q)), code)
    {
      hide IsPath; hide Contents; hide Expected; hide Coherent; hide Group; hide AfterGroup; hide FirstBranch; hide Predecode;
      hide TagOf; hide SetOf; hide Position; hide Add; hide GroupSize; hide Steers; hide AsPredicted;
      var n := GroupSize(FirstBranch(ram.outLine.pds, Position(r.cachePc), i.taken), q);
      ghost var before := pushed;
      var next := AfterGroup(r, n);
      var items := Group(ram.outLine, r.cachePc, next.pc, n);
      GroupStep(start, pushed, ram.outLine, r, q, n, i, code);
      QueueClock(items, i.pops);
      ram := Read(ram, next.cacheIdx);
      r := next.(restartReq := r.restartReq || i.restart, flushReq := r.flushReq || i.flush);
      assert pushed[|before|..] == items;
    }

    /** Waiting for memory; the answer fills the line and its predecode bits. */
    method AwaitLine(i: Input)
      requires Valid() && InputOk(i) && r.state == InjectReload
      modifies `ram, `r, `q, `pushed, `taken
      ensures Valid() && Latches(i) && r.state == (if i.memRsp then ReloadTurnaround else InjectReload) && pushed == old(pushed)
      ensures start == old(start) && taken == old(taken) + old(Contents(q))[..i.pops]
    {
      hide Predecode; hide PredecodeAll; hide IsPath; hide Contents; hide Expected; hide Coherent;
      QueueClock([], i.pops);
      ghost var before := ram;
      ram := Read(ram, 0);
      if i.memRsp {
        FilledLine(i.memWords, r.missPc, code);
        var k := SetOf(r.reqAddr);
        ram := ram.(valids := ram.valids[k := true], tags := ram.tags[k := TagOf(r.reqAddr)],
                    lines := ram.lines[k := Line(i.memWords, PredecodeAll(i.memWords))]);
      }
      r := Latched(i).(state := if i.memRsp then ReloadTurnaround else InjectReload,
                       cachePc := 0, cacheIdx := 0, cacheTag := 0, req := false);
    }

    /** Reading the missed or stalled word again, until there is room in the queue. */
    method ReadAgain(i: Input, cachePc: nat)
      requires Valid() && InputOk(i) && (r.state == ReloadTurnaround || r.state == WaitForNotFull)
      requires Full(q) || cachePc == r.missPc
      modifies `ram, `r, `q, `pushed, `taken
      ensures old(r.state) == ReloadTurnaround && !old(Full(q)) ==> Hit()
      ensures Valid() && Latches(i) && r.state == (if old(Full(q)) then old(r.state) else Active) && pushed == old(pushed)
      ensures start == old(start) && taken == old(taken) + old(Contents(q))[..i.pops]
    {
      hide Coherent; hide Predecode; hide TagOf; hide SetOf; hide Position; hide Add; hide IsPath; hide Contents; hide Expected;
      var full, t := Full(q), SetOf(r.missPc);
      QueueClock([], i.pops);
      ram := Read(ram, t);
      r := Latched(i).(state := if full then r.state else Active, cachePc := cachePc, cacheIdx := t,
                       cacheTag := TagOf(r.missPc), req := !full);
    }

    /** One set a clock is invalidated; when the last one is, no line is valid. */
    method FlushStep(i: Input)
      requires Valid() && InputOk(i) && r.state == FlushCache
      modifies `ram, `r
      ensures Valid() && Latches(i) && (r.state == FlushCache || r.state == Idle)
      ensures r.state == Idle <==> old(r.cacheIdx) == SETS - 1
      ensures Advances(old(r), r)
      ensures r.state == Idle ==> forall k :: 0 <= k < SETS ==> !ram.valids[k]
    {
      hide Coherent; hide Predecode; hide TagOf; hide SetOf; hide Position; hide Add;
      var k := r.cacheIdx;
      ram := Read(ram, NextSet(k)).(valids := ram.valids[k := false]);
      r := Latched(i).(state := if k == SETS - 1 then Idle else FlushCache, cachePc := 0, cacheIdx := NextSet(k),
                       cacheTag := 0, req := false);
    }

    /** From reset to the first flush, which clears the valid bits. */
    method Boot(i: Input)
      requires Valid() && InputOk(i) && (r.state == Initialize || r.state == InitPht)
      modifies `ram, `r
      ensures Advances(old(r), r)
      ensures Valid() && Latches(i) && !Running(r.state) && r.state != Idle
    {
      hide Coherent; hide Predecode; hide TagOf; hide SetOf; hide Position; hide Add;
      var next := if r.state == Initialize then InitPht else if r.phtIdx == PHT_ENTRIES - 1 then FlushCache else InitPht;
      var at := if r.state == InitPht then r.phtIdx + 1 else r.phtIdx;
      ram := Read(ram, 0);
      r := Latched(i).(state := next, phtIdx := at % PHT_ENTRIES, cachePc := 0, cacheIdx := 0, cacheTag := 0, req := false);
    }

    method StayIdle(i: Input)
      requires Valid() && InputOk(i) && r.state == Idle
      modifies `ram, `r
      ensures Valid() && Latches(i) && r.state == Idle
    {
      hide Coherent; hide Predecode; hide TagOf; hide SetOf; hide Position; hide Add;
      ram := Read(ram, 0);
      r := Latched(i).(cachePc := 0, cacheIdx := 0, cacheTag := 0, req := false);
    }

    lemma Shapes()
      requires Valid()
      ensures Shaped(q) && Four(ram.outLine)
    {
    }

    method ActiveClock(i: Input)
      requires Valid() && InputOk(i) && r.state == Active
      modifies this
      ensures Valid() && Accounts(i)
    {
      hide Valid; hide Contents; hide Group; hide Head; hide Target; hide AsPredicted; hide Count;
      Shapes();
      if r.bubble {
        ReadNext(i);
      } else if FlushAsked(i) {
        BeginFlush(i, r.pc, Add(r.pc, 4), TagOf(r.pc), true);
      } else if RestartAsked(i) {
        Restart(i, r.pc, SetOf(r.pc), TagOf(r.pc));
      } else if !r.req {
        ReadNext(i);
      } else if !Hit() {
        Miss(i);
      } else if Full(q) {
        Stall(i);
      } else if Steers(ram.outLine.pds[Position(r.cachePc)], i.taken) {
        Redirect(i);
      } else {
        PushGroup(i);
      }
    }

    /** A restart is accepted now. */
    predicate Restarts(i: Input)
      reads this
      requires Shaped(q)
    {
      RestartAsked(i) && (r.state == Idle || (!FlushAsked(i) && Interruptible()))
    }

    predicate Flushes(i: Input)
      reads this
      requires Shaped(q)
    {
      FlushAsked(i) && Interruptible()
    }

    predicate Interruptible()
      reads this
      requires Shaped(q)
    {
      (r.state == Active && !r.bubble) || r.state == ReloadTurnaround || (r.state == WaitForNotFull && Full(q))
    }

    /** The word wanted has been looked up, is there, and there is room for it. */
    predicate Fetching(i: Input)
      reads this
      requires Shaped(q)
    {
      r.state == Active && !r.bubble && !FlushAsked(i) && !RestartAsked(i) && Hit() && !Full(q)
    }

    /** Initialization and flushing go on set by set and entry by entry until they are done. */
    predicate Advances(before: Regs, after: Regs) {
      match before.state
      case Initialize => after.state == InitPht && after.phtIdx == before.phtIdx
      case InitPht =>
        if before.phtIdx == PHT_ENTRIES - 1 then after.state == FlushCache
        else after.state == InitPht && after.phtIdx == (before.phtIdx + 1) % PHT_ENTRIES
      case FlushCache =>
        if before.cacheIdx == SETS - 1 then after.state == Idle else after.state == FlushCache && after.cacheIdx == before.cacheIdx + 1
      case _ => after.state == Idle
    }

    /** What one clock does to the path: it starts over where a restart says, is abandoned for a
        flush, or grows by what the predictors ask for, whenever the word wanted is there, while
        decode takes the oldest queued words. */
    twostate predicate Accounts(i: Input)
      requires old(Shaped(q)) && i.pops <= old(Count(q))
      reads this
    {
      && r.restartReq == (old(RestartAsked(i)) && !old(Restarts(i)))
      && r.flushReq == (old(FlushAsked(i)) && !old(Flushes(i)))
      && (if old(Restarts(i)) then r.state == Active && start == i.restartPc && pushed == [] && taken == []
          else if old(Flushes(i)) then r.state == FlushCache
          else if old(Running(r.state)) then
            && Running(r.state) && start == old(start) && old(pushed) <= pushed
            && taken == old(taken) + old(Contents(q))[..i.pops]
            && (if old(Fetching(i)) then AsPredicted(pushed[|old(pushed)|..], i, 8 - old(Count(q)), code) else pushed == old(pushed))
            // after a fill the missed word is there
            && (old(r.state) == ReloadTurnaround && !old(Full(q)) ==> r.state == Active && Hit())
            && (old(r.state) == InjectReload && i.memRsp ==> r.state == ReloadTurnaround)
          else !Running(r.state) && Advances(old(r), r))
    }

    /** One clock of fetch.  `Valid` says that what was queued since the last restart is one
        unbroken predicted path and that decode has received it, or still will, in order. */
    method Clock(i: Input)
      requires Valid() && InputOk(i)
      modifies this
      ensures Valid() && Accounts(i)
    {
      hide Valid; hide Contents; hide AsPredicted; hide Count; hide Meets;
      Shapes();
      match r.state {
        case Initialize => Boot(i);
        case InitPht => Boot(i);
        case Idle => if RestartAsked(i) { Restart(i, 0, 0, 0); } else { StayIdle(i); }
        case Active => ActiveClock(i);
        case InjectReload => AwaitLine(i);
        case ReloadTurnaround =>
          if FlushAsked(i) { BeginFlush(i, 0, r.pc, TagOf(r.missPc), false); }
          else if RestartAsked(i) { Restart(i, 0, SetOf(r.missPc), TagOf(r.missPc)); }
          else { ReadAgain(i, if Full(q) then 0 else r.missPc); }
        case FlushCache => FlushStep(i);
        case WaitForNotFull =>
          if !Full(q) { ReadAgain(i, r.missPc); }
          else if FlushAsked(i) { BeginFlush(i, r.missPc, r.pc, TagOf(r.missPc), false); }
          else if RestartAsked(i) { Restart(i, r.missPc, SetOf(r.missPc), TagOf(r.missPc)); }
          else { ReadAgain(i, r.missPc); }
      }
    }
  }

  lemma AfterGroupFrame(r: Regs, n: nat)
    requires r.cacheIdx < SETS
    ensures var s := AfterGroup(r, n);
      s.state == r.state && s.req && !s.bubble && s.cacheIdx < SETS && s.restartReq == r.restartReq && s.flushReq == r.flushReq
  {
  }


  lemma TargetOk(l: Line, pc: nat, i: Input, code: nat -> Insn)
    requires pc < WRAP && Coherent(l, TagOf(pc), SetOf(pc), code) && Steers(l.pds[Position(pc)], i.taken)
    requires i.ras < WRAP && i.btb < WRAP
    ensures Target(l, pc, i) < WRAP && Truthful(Head(l, pc, Target(l, pc, i), true), code)
  {
    hide Predecode; hide JumpOffset; hide BranchOffset; hide Add;
    WordOfLine(l, pc, 0, code);
    AddZero(pc);
  }
}
