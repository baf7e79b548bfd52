/** The clocked rename tables, reorder buffer and recovery state machine of core.sv. */
module RenameTables {
  import opened RenameMachine
  import FFS = FindFirstSet
  import Bits

  const ROB: nat := 32

  datatype Option<T> = None | Some(value: T)

  /** The fields of a decoded uop that allocation looks at. */
  datatype Uop = Uop(dstValid: bool, dst: nat, srcA: nat, srcB: nat, isBr: bool, isRet: bool, isCall: bool,
                     isBreak: bool, folds: bool, illegal: bool, serializing: bool, monitor: bool,
                     hasStoreData: bool)

  datatype RobEntry = RobEntry(faulted: bool, isIllegal: bool, isBadAddr: bool, isRet: bool, isCall: bool,
                               isBr: bool, isBreak: bool, validDst: bool, ldst: nat, pdst: nat, oldPdst: nat)

  datatype Completion = Completion(robPtr: nat, complete: bool, faulted: bool, isIllegal: bool)

  datatype MemResponse = MemResponse(robPtr: nat, badAddr: bool)

  datatype State =
    | Active | Drain | CopyBack | AllocForSerialize | WaitForSerializeAndRestart
    | Other   // the halt, monitor and architectural-fault states

  /** Everything the block sees from outside in one cycle.  `queue` is the decode queue from
      its head; the memory side, the execution units and fetch are free to do anything. */
  datatype Input = Input(queue: seq<Uop>, uopQueueFull: bool, uopQueueNextFull: bool, bobFull: bool,
                         done1: Option<Completion>, done2: Option<Completion>, mem: Option<MemResponse>,
                         storeData: Option<nat>, restartAck: bool, drained: bool, externIrq: bool)

  datatype Control = Control(alloc: bool, allocTwo: bool, retire: bool, retireTwo: bool,
                             copyBack: bool, clearIrq: bool, next: State)

  /** What decode_riscv.sv guarantees of a uop: a destination is a logical register other than x0. */
  ghost predicate WellDecoded(u: Uop) {
    && u.dst < ARCH && u.srcA < ARCH && u.srcB < ARCH
    && (u.dstValid ==> u.dst != 0)
  }

  ghost predicate WellFormed(i: Input) {
    && (forall k :: 0 <= k < |i.queue| ==> WellDecoded(i.queue[k]))
    && (i.done1.Some? ==> i.done1.value.robPtr < ROB)
    && (i.done2.Some? ==> i.done2.value.robPtr < ROB)
    && (i.mem.Some? ==> i.mem.value.robPtr < ROB)
    && (i.storeData.Some? ==> i.storeData.value < ROB)
  }

  // ---------------------------------------------------------------- abstraction

  function Renamed(r: RobEntry): Entry {
    Entry(r.validDst, r.ldst, r.pdst, r.oldPdst)
  }

  /** The `n` entries from `head` on, oldest first. */
  function Live(rob: seq<RobEntry>, head: nat, n: nat): (es: seq<Entry>)
    requires |rob| == ROB
    ensures |es| == n
  {
    seq(n, k requires 0 <= k < n => Renamed(rob[Slot(head, k)]))
  }

  function SetOf(bits: seq<bool>): (s: set<nat>)
    ensures forall p: nat :: p in s <==> p < |bits| && bits[p]
  {
    set p: nat | p < |bits| && bits[p]
  }

  /** A six-bit pointer moved on by at most two. */
  function Advance(p: nat, k: nat): (q: nat)
    requires p < 64 && k <= 2
    ensures q < 64
  {
    if p + k < 64 then p + k else p + k - 64
  }

  /** Entries between two six-bit pointers. */
  function Distance(head: nat, tail: nat): (n: nat)
    requires head < 64 && tail < 64
    ensures n < 64 && (n == 0 <==> head == tail)
  {
    if head <= tail then tail - head else tail + 64 - head
  }

  /** Slot of the `k`-th live entry. */
  function Slot(head: nat, k: nat): (s: nat)
    ensures s < ROB
  {
    (head + k) % ROB
  }

  lemma LiveAppend(rob: seq<RobEntry>, head: nat, n: nat, r: RobEntry)
    requires |rob| == ROB && n < ROB
    ensures Live(rob[Slot(head, n) := r], head, n + 1) == Live(rob, head, n) + [Renamed(r)]
  {
    hide Slot; hide Renamed;
    forall k | 0 <= k < n ensures Slot(head, k) != Slot(head, n) { SlotsApart(head, k, n); }
  }

  lemma SlotsApart(head: nat, k: nat, n: nat)
    requires k < n < k + ROB
    ensures Slot(head, k) != Slot(head, n)
  {
    var a, b := head + k, head + n;
    assert b - a == 32 * (b / 32 - a / 32) + (b % 32 - a % 32);
  }

  lemma LiveDrop(rob: seq<RobEntry>, head: nat, n: nat)
    requires |rob| == ROB && 0 < n && head < 64
    ensures Live(rob, Advance(head, 1), n - 1) == Live(rob, head, n)[1..]
  {
    forall k {:trigger Slot(head, k + 1)} | 0 <= k < n - 1 ensures Slot(Advance(head, 1), k) == Slot(head, k + 1) {
      if head == 63 { assert (64 + k) % 32 == k % 32; }
    }
  }

  /** The bank masks of the allocator: the registers of one parity, the rest forced to zero. */
  function Bank(free: seq<bool>, even: bool): (b: seq<bool>)
    ensures |b| == |free|
    ensures forall p :: 0 <= p < |b| ==> b[p] == (free[p] && (p % 2 == 0) == even)
  {
    seq(|free|, p requires 0 <= p < |free| => free[p] && (p % 2 == 0) == even)
  }

  /** The selector output cut to six bits, as the source cuts it. */
  function Pick(bank: seq<bool>): (p: nat)
    requires |bank| == PRF
    ensures p < PRF
    ensures FFS.Any(bank) ==> FFS.IsHighest(bank, p)
    ensures !FFS.Any(bank) ==> p == 0
  {
    assert Bits.Pow2(6) == 64;
    FFS.Select(6, bank) % PRF
  }

  /** A completion overwrites status fields only. */
  function Reported(rob: seq<RobEntry>, d: Option<Completion>): (r: seq<RobEntry>)
    requires |rob| == ROB && (d.Some? ==> d.value.robPtr < ROB)
    ensures |r| == ROB
    ensures forall k :: 0 <= k < ROB ==> Renamed(r[k]) == Renamed(rob[k])
  {
    if d.None? then rob else rob[d.value.robPtr := rob[d.value.robPtr].(faulted := d.value.faulted, isIllegal := d.value.isIllegal)]
  }

  function Answered(rob: seq<RobEntry>, m: Option<MemResponse>): (r: seq<RobEntry>)
    requires |rob| == ROB && (m.Some? ==> m.value.robPtr < ROB)
    ensures |r| == ROB
    ensures forall k :: 0 <= k < ROB ==> Renamed(r[k]) == Renamed(rob[k])
  {
    if m.None? then rob else rob[m.value.robPtr := rob[m.value.robPtr].(faulted := m.value.badAddr, isBadAddr := m.value.badAddr)]
  }

  function Finish(rob: seq<RobEntry>, i: Input): (r: seq<RobEntry>)
    requires |rob| == ROB && WellFormed(i)
    ensures |r| == ROB
    ensures forall k :: 0 <= k < ROB ==> Renamed(r[k]) == Renamed(rob[k])
  {
    Answered(Reported(Reported(rob, i.done1), i.done2), i.mem)
  }

  /** Clearing the buffer drops the fault flags and leaves the rest of each entry behind. */
  function ClearFaults(rob: seq<RobEntry>): (r: seq<RobEntry>)
    requires |rob| == ROB
    ensures |r| == ROB
    ensures forall k :: 0 <= k < ROB ==> Renamed(r[k]) == Renamed(rob[k])
  {
    seq(ROB, k requires 0 <= k < ROB => rob[k].(faulted := false))
  }

  function FinishBits(complete: seq<bool>, i: Input): (r: seq<bool>)
    requires |complete| == ROB && WellFormed(i)
    ensures |r| == ROB
  {
    var a := if i.done1.None? then complete else complete[i.done1.value.robPtr := i.done1.value.complete];
    var b := if i.done2.None? then a else a[i.done2.value.robPtr := i.done2.value.complete];
    if i.mem.None? then b else b[i.mem.value.robPtr := true]
  }

  /** One bit per entry after up to two allocations. */
  function AllocatedBits(bits: seq<bool>, c: Control, slot1: nat, v1: bool, slot2: nat, v2: bool): (r: seq<bool>)
    requires |bits| == ROB && slot1 < ROB && slot2 < ROB
    ensures |r| == ROB
  {
    var a := if c.alloc then bits[slot1 := v1] else bits;
    if c.allocTwo then a[slot2 := v2] else a
  }

  predicate NoFault(i: Input) {
    !(i.done1.Some? && i.done1.value.faulted) && !(i.done2.Some? && i.done2.value.faulted)
  }

  predicate Folds(i: Input, k: nat) {
    k < |i.queue| && i.queue[k].folds
  }

  predicate NoStoreData(i: Input, k: nat) {
    k < |i.queue| && !i.queue[k].hasStoreData
  }

  /** The completion bits after a cycle: cleared by a recovery, set up by allocation, overwritten
      by the execution ports and the memory port. */
  function CompleteAfter(bits: seq<bool>, c: Control, i: Input, slot1: nat, slot2: nat): (r: seq<bool>)
    requires |bits| == ROB && slot1 < ROB && slot2 < ROB && WellFormed(i)
    ensures |r| == ROB
  {
    if c.copyBack then seq(ROB, _ => false)
    else FinishBits(AllocatedBits(bits, c, slot1, Folds(i, 0), slot2, Folds(i, 1)), i)
  }

  /** Likewise for the bits that say the store data has arrived, or that there is none. */
  function StoreDoneAfter(bits: seq<bool>, c: Control, i: Input, slot1: nat, slot2: nat): (r: seq<bool>)
    requires |bits| == ROB && slot1 < ROB && slot2 < ROB && WellFormed(i)
    ensures |r| == ROB
  {
    if c.copyBack then seq(ROB, _ => false)
    else
      var a := AllocatedBits(bits, c, slot1, NoStoreData(i, 0), slot2, NoStoreData(i, 1));
      if i.storeData.Some? then a[i.storeData.value := true] else a
  }

  /** Which uop of the queue, if any, fills slot `k`. */
  function FilledBy(c: Control, slot1: nat, slot2: nat, k: nat): Option<nat> {
    if c.allocTwo && k == slot2 then Some(1) else if c.alloc && k == slot1 then Some(0) else None
  }

  /** A slot is complete by its own completion, or when it was filled with a folded uop, and its
      store data is there when it arrives or none is wanted: what a slot held before never counts
      for a new instruction, and nothing reported for an instruction is lost. */
  lemma CompletionsAreOwn(done: seq<bool>, data: seq<bool>, c: Control, i: Input, slot1: nat, slot2: nat, k: nat)
    requires |done| == |data| == ROB && slot1 < ROB && slot2 < ROB && k < ROB && WellFormed(i)
    requires c.alloc ==> |i.queue| > 0
    requires c.allocTwo ==> c.alloc && |i.queue| > 1 && slot1 != slot2
    ensures CompleteAfter(done, c, i, slot1, slot2)[k] == (!c.copyBack && (
      if i.mem.Some? && i.mem.value.robPtr == k then true
      else if i.done2.Some? && i.done2.value.robPtr == k then i.done2.value.complete
      else if i.done1.Some? && i.done1.value.robPtr == k then i.done1.value.complete
      else match FilledBy(c, slot1, slot2, k) case Some(j) => i.queue[j].folds case None => done[k]))
    ensures StoreDoneAfter(data, c, i, slot1, slot2)[k] == (!c.copyBack && (
      i.storeData == Some(k)
      || match FilledBy(c, slot1, slot2, k) case Some(j) => !i.queue[j].hasStoreData case None => data[k]))
  {
  }

  function NewEntry(u: Uop, p: nat, prev: nat): RobEntry {
    RobEntry(u.folds && u.illegal, u.folds && u.illegal, false, u.isRet, u.isCall, u.isBr, u.isBreak,
             u.dstValid, if u.dstValid then u.dst else 0, if u.dstValid then p else 0, if u.dstValid then prev else 0)
  }

  /** The registers that carry the renaming, as one value. */
  datatype Tables = Tables(allocRat: Rat, retireRat: Rat, free: seq<bool>, retireFree: seq<bool>, rob: seq<RobEntry>)

  ghost predicate Sized(t: Tables) {
    |t.free| == PRF && |t.retireFree| == PRF && |t.rob| == ROB
  }

  ghost function ViewOf(t: Tables, head: nat, n: nat): View
    requires Sized(t)
  {
    View(t.retireRat, t.allocRat, SetOf(t.free), SetOf(t.retireFree), Live(t.rob, head, n))
  }

  /** Rename one uop into reorder-buffer slot `slot`. */
  function Allocate(t: Tables, slot: nat, u: Uop, p: nat, prev: nat): (r: Tables)
    requires Sized(t) && slot < ROB && WellDecoded(u) && p < PRF
    ensures Sized(r)
  {
    var t' := t.(rob := t.rob[slot := NewEntry(u, p, prev)]);
    if u.dstValid then t'.(allocRat := t.allocRat[u.dst := p], free := t.free[p := false]) else t'
  }

  /** What an entry says of its instruction comes from its uop and from its own reports. */
  lemma EntryIsOwn(t: Tables, tail: nat, c: Control, i: Input, p1: nat, p2: nat, k: nat)
    requires Sized(t) && tail < 64 && p1 < PRF && p2 < PRF && WellFormed(i) && k < ROB
    requires (c.alloc ==> |i.queue| > 0) && (c.allocTwo ==> c.alloc && |i.queue| > 1)
    ensures var e, was := Finish(AllocateUpToTwo(t, tail, c, i.queue, p1, p2).rob, i)[k], t.rob[k];
      var from := FilledBy(c, tail % 32, (tail + 1) % 32, k);
      && Flags(e) == (match from case Some(j) => UopFlags(i.queue[j]) case None => Flags(was))
      && e.faulted == (
        if i.mem.Some? && i.mem.value.robPtr == k then i.mem.value.badAddr
        else if i.done2.Some? && i.done2.value.robPtr == k then i.done2.value.faulted
        else if i.done1.Some? && i.done1.value.robPtr == k then i.done1.value.faulted
        else match from case Some(j) => i.queue[j].folds && i.queue[j].illegal case None => was.faulted)
      && e.isIllegal == (
        if i.done2.Some? && i.done2.value.robPtr == k then i.done2.value.isIllegal
        else if i.done1.Some? && i.done1.value.robPtr == k then i.done1.value.isIllegal
        else match from case Some(j) => i.queue[j].folds && i.queue[j].illegal case None => was.isIllegal)
      && e.isBadAddr == (
        if i.mem.Some? && i.mem.value.robPtr == k then i.mem.value.badAddr else from == None && was.isBadAddr)
  {
    FilledEntry(t, tail, c, i.queue, p1, p2, k);
    hide AllocateUpToTwo; hide WellFormed;
    FinishedEntry(AllocateUpToTwo(t, tail, c, i.queue, p1, p2).rob, i, k);
  }

  lemma FilledEntry(t: Tables, tail: nat, c: Control, queue: seq<Uop>, p1: nat, p2: nat, k: nat)
    requires Sized(t) && tail < 64 && p1 < PRF && p2 < PRF && (forall k :: 0 <= k < |queue| ==> WellDecoded(queue[k])) && k < ROB
    requires (c.alloc ==> |queue| > 0) && (c.allocTwo ==> c.alloc && |queue| > 1)
    ensures var e, was := AllocateUpToTwo(t, tail, c, queue, p1, p2).rob[k], t.rob[k];
      match FilledBy(c, tail % 32, (tail + 1) % 32, k)
      case Some(j) => Flags(e) == UopFlags(queue[j]) && e.faulted == e.isIllegal == (queue[j].folds && queue[j].illegal) && !e.isBadAddr
      case None => e == was
  {
    hide Bits.Pow2;
    AdvanceSlot(tail);
    hide Advance;
    assert c.alloc ==> WellDecoded(queue[0]);
    assert c.allocTwo ==> WellDecoded(queue[1]);
  }

  lemma AdvanceSlot(p: nat)
    requires p < 64
    ensures Advance(p, 1) % 32 == (p + 1) % 32
  {
  }

  lemma FinishedEntry(rob: seq<RobEntry>, i: Input, k: nat)
    requires |rob| == ROB && WellFormed(i) && k < ROB
    ensures var e, was := Finish(rob, i)[k], rob[k];
      && Flags(e) == Flags(was)
      && e.faulted == (
        if i.mem.Some? && i.mem.value.robPtr == k then i.mem.value.badAddr
        else if i.done2.Some? && i.done2.value.robPtr == k then i.done2.value.faulted
        else if i.done1.Some? && i.done1.value.robPtr == k then i.done1.value.faulted else was.faulted)
      && e.isIllegal == (
        if i.done2.Some? && i.done2.value.robPtr == k then i.done2.value.isIllegal
        else if i.done1.Some? && i.done1.value.robPtr == k then i.done1.value.isIllegal else was.isIllegal)
      && e.isBadAddr == (if i.mem.Some? && i.mem.value.robPtr == k then i.mem.value.badAddr else was.isBadAddr)
  {
    hide Reported; hide Answered;
    var a := Reported(rob, i.done1);
    ReportedEntry(rob, i.done1, k);
    ReportedEntry(a, i.done2, k);
    AnsweredEntry(Reported(a, i.done2), i.mem, k);
  }

  lemma ReportedEntry(rob: seq<RobEntry>, d: Option<Completion>, k: nat)
    requires |rob| == ROB && (d.Some? ==> d.value.robPtr < ROB) && k < ROB
    ensures var hit := d.Some? && d.value.robPtr == k;
      Reported(rob, d)[k] == if hit then rob[k].(faulted := d.value.faulted, isIllegal := d.value.isIllegal) else rob[k]
  {
  }

  lemma AnsweredEntry(rob: seq<RobEntry>, m: Option<MemResponse>, k: nat)
    requires |rob| == ROB && (m.Some? ==> m.value.robPtr < ROB) && k < ROB
    ensures var hit := m.Some? && m.value.robPtr == k;
      Answered(rob, m)[k] == if hit then rob[k].(faulted := m.value.badAddr, isBadAddr := m.value.badAddr) else rob[k]
  {
  }

  /** The kinds of instruction that matter at retirement: branch, return, call, break. */
  function Flags(e: RobEntry): (bool, bool, bool, bool) {
    (e.isBr, e.isRet, e.isCall, e.isBreak)
  }

  function UopFlags(u: Uop): (bool, bool, bool, bool) {
    (u.isBr, u.isRet, u.isCall, u.isBreak)
  }

  /** Commit the entry `h`, which sits at the head. */
  function Commit(t: Tables, h: RobEntry): (r: Tables)
    requires Sized(t)
    requires h.validDst ==> h.ldst < ARCH && h.pdst < PRF && h.oldPdst < PRF
    ensures Sized(r) && r.rob == t.rob
  {
    if h.validDst then
      t.(retireRat := t.retireRat[h.ldst := h.pdst],
         retireFree := t.retireFree[h.pdst := false][h.oldPdst := true],
         free := t.free[h.oldPdst := true])
    else t
  }

  lemma AllocateRefines(t: Tables, head: nat, n: nat, u: Uop, p: nat)
    requires Sized(t) && n < ROB && WellDecoded(u) && p < PRF
    ensures ViewOf(Allocate(t, Slot(head, n), u, p, t.allocRat[u.dst]), head, n + 1)
         == Step(ViewOf(t, head, n), Alloc(u.dstValid, u.dst, p))
  {
    LiveAppend(t.rob, head, n, NewEntry(u, p, t.allocRat[u.dst]));
  }

  lemma CommitRefines(t: Tables, head: nat, n: nat)
    requires Sized(t) && 0 < n && head < 64 && Inv(ViewOf(t, head, n))
    ensures var h := t.rob[head % 32];
      && (h.validDst ==> h.ldst < ARCH && h.pdst < PRF && h.oldPdst < PRF)
      && ViewOf(Commit(t, h), Advance(head, 1), n - 1) == Step(ViewOf(t, head, n), Retire)
  {
    var v := ViewOf(t, head, n);
    var h := t.rob[head % 32];
    assert v.live[0] == Renamed(h);
    assert Apply(v.retireRat, v.live[..0]) == v.retireRat;
    LiveDrop(t.rob, head, n);
  }

  /** `t`, read from `head` on, is the state the in-order machine reaches after `es`. */
  ghost predicate Follows(t: Tables, head: nat, n: nat, es: seq<Event>) {
    && Sized(t) && head < 64 && n <= ROB
    && Legal(Reset(), es)
    && ViewOf(t, head, n) == Run(Reset(), es)
  }

  lemma Extend(es: seq<Event>, e: Event)
    ensures Run(Reset(), es + [e]) == Step(Run(Reset(), es), e)
    ensures Legal(Reset(), es + [e]) <==> Legal(Reset(), es) && Enabled(Run(Reset(), es), e)
  {
    assert (es + [e])[..|es|] == es;
  }

  lemma AllocateFollows(t: Tables, head: nat, n: nat, es: seq<Event>, u: Uop, p: nat)
    requires Follows(t, head, n, es) && n < ROB && WellDecoded(u) && p < PRF
    requires u.dstValid ==> t.free[p]
    ensures Follows(Allocate(t, Slot(head, n), u, p, t.allocRat[u.dst]), head, n + 1,
                    es + [Alloc(u.dstValid, u.dst, p)])
  {
    AllocateRefines(t, head, n, u, p);
    Extend(es, Alloc(u.dstValid, u.dst, p));
  }

  lemma CommitFollows(t: Tables, head: nat, n: nat, es: seq<Event>)
    requires Follows(t, head, n, es) && 0 < n
    ensures var h := t.rob[head % 32];
      && (h.validDst ==> h.ldst < ARCH && h.pdst < PRF && h.oldPdst < PRF)
      && Follows(Commit(t, h), Advance(head, 1), n - 1, es + [Retire])
  {
    ReachableInv(es);
    CommitRefines(t, head, n);
    Extend(es, Retire);
  }

  function Allocs(c: Control): (n: nat)
    ensures n <= 2
  {
    (if c.alloc then 1 else 0) + (if c.allocTwo then 1 else 0)
  }

  function Retires(c: Control): (n: nat)
    ensures n <= 2
  {
    (if c.retire then 1 else 0) + (if c.retireTwo then 1 else 0)
  }

  /** Both allocations of a cycle; the second sees the register taken by the first. */
  function AllocateUpToTwo(t: Tables, tail: nat, c: Control, queue: seq<Uop>, p1: nat, p2: nat): (r: Tables)
    requires Sized(t) && tail < 64 && p1 < PRF && p2 < PRF && (forall k :: 0 <= k < |queue| ==> WellDecoded(queue[k]))
    requires (c.alloc ==> |queue| > 0) && (c.allocTwo ==> c.alloc && |queue| > 1)
    ensures Sized(r)
  {
    assert c.alloc ==> WellDecoded(queue[0]);
    assert c.allocTwo ==> WellDecoded(queue[1]);
    var a := if c.alloc then Allocate(t, tail % 32, queue[0], p1, t.allocRat[queue[0].dst]) else t;
    if c.allocTwo then
      var prev := if queue[0].dstValid && queue[0].dst == queue[1].dst then p1 else t.allocRat[queue[1].dst];
      Allocate(a, Advance(tail, 1) % 32, queue[1], p2, prev)
    else a
  }

  /** A source of the second uop, taken from the first uop's destination when they match. */
  function SecondSource(t: Tables, first: Uop, p1: nat, src: nat): nat
    requires src < ARCH
  {
    if first.dstValid && src == first.dst then p1 else t.allocRat[src]
  }

  /** Although both uops read the table of the same cycle, each sees program order: the second
      reads the mapping that the first one leaves behind. */
  lemma SourcesInOrder(t: Tables, slot: nat, first: Uop, p1: nat, src: nat)
    requires Sized(t) && slot < ROB && WellDecoded(first) && p1 < PRF && src < ARCH
    ensures SecondSource(t, first, p1, src) == Allocate(t, slot, first, p1, t.allocRat[first.dst]).allocRat[src]
  {
  }

  function AllocEvents(c: Control, queue: seq<Uop>, p1: nat, p2: nat): seq<Event>
    requires (c.alloc ==> |queue| > 0) && (c.allocTwo ==> c.alloc && |queue| > 1)
  {
    (if c.alloc then [Alloc(queue[0].dstValid, queue[0].dst, p1)] else [])
    + (if c.allocTwo then [Alloc(queue[1].dstValid, queue[1].dst, p2)] else [])
  }

  lemma SlotsDiffer(head: nat, tail: nat, n: nat, k: nat, a: nat)
    requires head < 64 && tail < 64 && n == Distance(head, tail) && k < n && a <= 1
    ensures n + a < ROB ==> Slot(head, k) != Advance(tail, a) % 32
  {
  }

  /** Allocation writes behind the tail only. */
  lemma AllocateKeepsLive(t: Tables, head: nat, n: nat, tail: nat, c: Control, queue: seq<Uop>, p1: nat, p2: nat, k: nat)
    requires Sized(t) && head < 64 && n <= ROB && tail < 64 && n == Distance(head, tail) && k < n
    requires p1 < PRF && p2 < PRF && (forall k :: 0 <= k < |queue| ==> WellDecoded(queue[k]))
    requires c.alloc ==> |queue| > 0 && n < ROB
    requires c.allocTwo ==> c.alloc && |queue| > 1 && n + 1 < ROB
    ensures AllocateUpToTwo(t, tail, c, queue, p1, p2).rob[Slot(head, k)] == t.rob[Slot(head, k)]
  {
    SlotsDiffer(head, tail, n, k, 0);
    SlotsDiffer(head, tail, n, k, 1);
  }

  lemma AllocateUpToTwoFollows(t: Tables, head: nat, n: nat, es: seq<Event>, tail: nat, c: Control,
                               queue: seq<Uop>, p1: nat, p2: nat)
    requires Follows(t, head, n, es) && tail < 64 && n == Distance(head, tail)
    requires p1 < PRF && p2 < PRF && (forall k :: 0 <= k < |queue| ==> WellDecoded(queue[k]))
    requires c.alloc ==> |queue| > 0 && n < ROB && (queue[0].dstValid ==> t.free[p1])
    requires c.allocTwo ==> c.alloc && |queue| > 1 && n + 1 < ROB && (queue[1].dstValid ==> t.free[p2] && (queue[0].dstValid ==> p1 != p2))
    ensures Follows(AllocateUpToTwo(t, tail, c, queue, p1, p2), head,
                    n + Allocs(c),
                    es + AllocEvents(c, queue, p1, p2))
  {
    hide Run; hide Legal; hide Reset; hide ViewOf;
    if c.alloc {
      var e := Alloc(queue[0].dstValid, queue[0].dst, p1);
      AllocateFollows(t, head, n, es, queue[0], p1);
      assert Slot(head, n) == tail % 32;
      var a := Allocate(t, tail % 32, queue[0], p1, t.allocRat[queue[0].dst]);
      if c.allocTwo {
        var e2 := Alloc(queue[1].dstValid, queue[1].dst, p2);
        AllocateFollows(a, head, n + 1, es + [e], queue[1], p2);
        assert Slot(head, n + 1) == Advance(tail, 1) % 32;
        assert es + [e] + [e2] == es + AllocEvents(c, queue, p1, p2);
      } else {
        assert es + [e] == es + AllocEvents(c, queue, p1, p2);
      }
    } else {
      assert es == es + AllocEvents(c, queue, p1, p2);
    }
  }

  /** Both retirements of a cycle; `h` and `h2` were read before either. */
  function CommitUpToTwo(t: Tables, c: Control, h: RobEntry, h2: RobEntry): (r: Tables)
    requires Sized(t)
    requires c.retire && h.validDst ==> h.ldst < ARCH && h.pdst < PRF && h.oldPdst < PRF
    requires c.retireTwo && h2.validDst ==> h2.ldst < ARCH && h2.pdst < PRF && h2.oldPdst < PRF
    ensures Sized(r) && r.rob == t.rob
  {
    var a := if c.retire then Commit(t, h) else t;
    if c.retireTwo then Commit(a, h2) else a
  }

  function RetireEvents(c: Control): seq<Event> {
    (if c.retire then [Retire] else []) + (if c.retireTwo then [Retire] else [])
  }

  lemma CommitUpToTwoFollows(t: Tables, head: nat, n: nat, es: seq<Event>, c: Control)
    requires Follows(t, head, n, es)
    requires (c.retire ==> n > 0) && (c.retireTwo ==> c.retire && n > 1)
    ensures var h, h2 := t.rob[head % 32], t.rob[Advance(head, 1) % 32];
      && (c.retire && h.validDst ==> h.ldst < ARCH && h.pdst < PRF && h.oldPdst < PRF)
      && (c.retireTwo && h2.validDst ==> h2.ldst < ARCH && h2.pdst < PRF && h2.oldPdst < PRF)
      && Follows(CommitUpToTwo(t, c, h, h2),
                 Advance(head, Retires(c)), n - Retires(c),
                 es + RetireEvents(c))
  {
    hide Run; hide Legal; hide Reset; hide ViewOf;
    if c.retire {
      CommitFollows(t, head, n, es);
      var a := Commit(t, t.rob[head % 32]);
      if c.retireTwo {
        CommitFollows(a, Advance(head, 1), n - 1, es + [Retire]);
        assert es + [Retire] + [Retire] == es + RetireEvents(c);
      } else {
        assert es + [Retire] == es + RetireEvents(c);
      }
    } else {
      assert es == es + RetireEvents(c);
    }
  }

  lemma RecoverFollows(t: Tables, head: nat, n: nat, es: seq<Event>)
    requires Follows(t, head, n, es)
    ensures Follows(t.(allocRat := t.retireRat, free := t.retireFree), 0, 0, es + [Recover])
  {
    Extend(es, Recover);
  }

  lemma FinishFollows(t: Tables, head: nat, n: nat, es: seq<Event>, rob: seq<RobEntry>)
    requires Follows(t, head, n, es)
    requires |rob| == ROB && forall k :: 0 <= k < ROB ==> Renamed(rob[k]) == Renamed(t.rob[k])
    ensures Follows(t.(rob := rob), head, n, es)
  {
    assert Live(rob, head, n) == Live(t.rob, head, n);
  }

  /** Allocation, retirement and completion of one cycle together. */
  lemma CycleFollows(t: Tables, head: nat, n: nat, es: seq<Event>, tail: nat, c: Control, i: Input, p1: nat, p2: nat)
    requires Follows(t, head, n, es) && Sized(t) && head < 64 && n <= ROB && tail < 64 && n == Distance(head, tail)
    requires p1 < PRF && p2 < PRF && WellFormed(i)
    requires c.alloc ==> |i.queue| > 0 && n < ROB && (i.queue[0].dstValid ==> t.free[p1])
    requires c.allocTwo ==> c.alloc && |i.queue| > 1 && n + 1 < ROB
    requires c.allocTwo && i.queue[1].dstValid ==> t.free[p2] && (i.queue[0].dstValid ==> p1 != p2)
    requires (c.retire ==> n > 0) && (c.retireTwo ==> c.retire && n > 1)
    ensures var h, h2 := t.rob[head % 32], t.rob[Advance(head, 1) % 32];
      && (c.retire && h.validDst ==> h.ldst < ARCH && h.pdst < PRF && h.oldPdst < PRF)
      && (c.retireTwo && h2.validDst ==> h2.ldst < ARCH && h2.pdst < PRF && h2.oldPdst < PRF)
      && var t' := CommitUpToTwo(AllocateUpToTwo(t, tail, c, i.queue, p1, p2), c, h, h2);
      Follows(t'.(rob := Finish(t'.rob, i)), Advance(head, Retires(c)), n + Allocs(c) - Retires(c),
              es + (AllocEvents(c, i.queue, p1, p2) + RetireEvents(c)))
  {
    hide Follows; hide Run; hide Legal; hide Reset; hide ViewOf; hide Live; hide Renamed;
    hide Finish; hide Allocate; hide Commit; hide AllocateUpToTwo; hide AllocEvents; hide RetireEvents;
    var al, re := AllocEvents(c, i.queue, p1, p2), RetireEvents(c);
    AllocateUpToTwoFollows(t, head, n, es, tail, c, i.queue, p1, p2);
    var a := AllocateUpToTwo(t, tail, c, i.queue, p1, p2);
    if c.retire { AllocateKeepsLive(t, head, n, tail, c, i.queue, p1, p2, 0); }
    if c.retireTwo { AllocateKeepsLive(t, head, n, tail, c, i.queue, p1, p2, 1); }
    CommitUpToTwoFollows(a, head, n + Allocs(c), es + al, c);
    var t' := CommitUpToTwo(a, c, t.rob[head % 32], t.rob[Advance(head, 1) % 32]);
    FinishFollows(t', Advance(head, Retires(c)), n + Allocs(c) - Retires(c), es + al + re, Finish(t'.rob, i));
    assert es + al + re == es + (al + re);
  }

  /** Register 0 is never free, so taking it is never a legal allocation. */
  lemma NotFree(es: seq<Event>, t: Tables, head: nat, n: nat, u: Uop)
    requires Follows(t, head, n, es) && u.dstValid
    ensures !Legal(Reset(), es + [Alloc(u.dstValid, u.dst, 0)])
  {
    ReachableInv(es);
    ImageHas(Run(Reset(), es).retireRat);
    Extend(es, Alloc(u.dstValid, u.dst, 0));
  }

  lemma PointerCount(head: nat, tail: nat, a: nat, r: nat)
    requires head < 64 && tail < 64 && a <= 2 && r <= 2
    requires 0 <= Distance(head, tail) + a - r <= ROB
    ensures Distance(Advance(head, r), Advance(tail, a)) == Distance(head, tail) + a - r
    ensures Advance(Advance(head, 1), r) == Advance(Advance(head, r), 1)
    ensures Advance(Advance(tail, 1), a) == Advance(Advance(tail, a), 1)
  {
  }

  // ---------------------------------------------------------------- what a cycle's events are

  function Retirements(es: seq<Event>): nat {
    if es == [] then 0 else Retirements(es[..|es| - 1]) + if es[|es| - 1].Retire? then 1 else 0
  }

  function Allocations(es: seq<Event>): nat {
    if es == [] then 0 else Allocations(es[..|es| - 1]) + if es[|es| - 1].Alloc? then 1 else 0
  }

  lemma CountSnoc(es: seq<Event>, e: Event)
    ensures Retirements(es + [e]) == Retirements(es) + if e.Retire? then 1 else 0
    ensures Allocations(es + [e]) == Allocations(es) + if e.Alloc? then 1 else 0
  {
    assert (es + [e])[..|es|] == es;
  }

  lemma EventCounts(c: Control, queue: seq<Uop>, p1: nat, p2: nat)
    requires (c.alloc ==> |queue| > 0) && (c.allocTwo ==> c.alloc && |queue| > 1)
    ensures var es := AllocEvents(c, queue, p1, p2) + RetireEvents(c);
      Allocations(es) == Allocs(c) && Retirements(es) == Retires(c) && |es| == Allocs(c) + Retires(c)
  {
    hide Retirements; hide Allocations;
    NoCounts([]);
    var es: seq<Event> := [];
    if c.alloc { var e := Alloc(queue[0].dstValid, queue[0].dst, p1); CountSnoc(es, e); es := es + [e]; }
    if c.allocTwo { var e := Alloc(queue[1].dstValid, queue[1].dst, p2); CountSnoc(es, e); es := es + [e]; }
    assert es == AllocEvents(c, queue, p1, p2);
    if c.retire { CountSnoc(es, Retire); es := es + [Retire]; }
    if c.retireTwo { CountSnoc(es, Retire); es := es + [Retire]; }
    assert es == AllocEvents(c, queue, p1, p2) + RetireEvents(c);
  }

  lemma NoCounts(es: seq<Event>)
    requires es == []
    ensures Allocations(es) == Retirements(es) == 0
  {
  }

  class RenameTables {
    var state: State
    var tables: Tables
    var bankSel: bool
    var robComplete: seq<bool>
    var robStoreDone: seq<bool>
    var head: nat
    var tail: nat
    var nextHead: nat
    var nextTail: nat
    var pendingFault: bool
    var irq: bool
    var gotAck: bool
    ghost var trace: seq<Event>   // every rename event since reset

    /** Number of entries between the six-bit pointers. */
    function Count(): nat
      reads this
      requires head < 64 && tail < 64
    {
      Distance(head, tail)
    }

    ghost predicate Shaped()
      reads this
    {
      && Sized(tables) && |robComplete| == ROB && |robStoreDone| == ROB
      && head < 64 && tail < 64
      && nextHead == Advance(head, 1) && nextTail == Advance(tail, 1)
      && Count() <= ROB
    }

    /** The registers are what the in-order machine computes from the events so far. */
    ghost predicate Valid()
      reads this
    {
      Shaped() && Follows(tables, head, Count(), trace)
    }

    constructor ()
      ensures Valid() && trace == [] && state == Active
      ensures head == tail == 0 && !bankSel && !pendingFault && !irq
    {
      state := Active;
      var high := seq(PRF, p => p >= 32);
      tables := Tables(Identity(), Identity(), high, high,
                       seq(ROB, k => RobEntry(false, false, false, false, false, false, false, false, 0, 0, 0)));
      bankSel := false;
      robComplete := seq(ROB, k => false);
      robStoreDone := seq(ROB, k => false);
      head, tail, nextHead, nextTail := 0, 0, 1, 1;
      pendingFault, irq, gotAck := false, false, false;
      trace := [];
    }

    predicate Empty()
      reads this
      requires Shaped()
      ensures Empty() <==> Count() == 0
    {
      head == tail
    }

    predicate NextEmpty()
      reads this
      requires Shaped()
      ensures NextEmpty() <==> Count() == 1
    {
      nextHead == tail
    }

    predicate Full()
      reads this
      requires Shaped()
      ensures Full() <==> Count() == ROB
    {
      head % 32 == tail % 32 && head != tail
    }

    predicate NextFull()
      reads this
      requires Shaped()
      ensures Count() < ROB ==> (NextFull() <==> Count() + 1 == ROB)
    {
      head % 32 == nextTail % 32 && head != nextTail
    }

    function FirstBank(): (b: seq<bool>)
      reads this
      requires Shaped()
      ensures |b| == PRF
    {
      Bank(tables.free, bankSel)
    }

    function SecondBank(): (b: seq<bool>)
      reads this
      requires Shaped()
      ensures |b| == PRF
    {
      Bank(tables.free, !bankSel)
    }

    function NextAck(i: Input): bool
      reads this
    {
      if state == Active then false else if !gotAck then i.restartAck else gotAck
    }

    predicate FirstFree()
      reads this
      requires Shaped()
      ensures FirstFree() <==> FirstBank()[Pick(FirstBank())]
    {
      assert FFS.Any(FirstBank()) <==> exists p :: 0 <= p < PRF && FirstBank()[p];
      exists p :: 0 <= p < PRF && FirstBank()[p]
    }

    predicate SecondFree()
      reads this
      requires Shaped()
      ensures SecondFree() <==> SecondBank()[Pick(SecondBank())]
    {
      assert FFS.Any(SecondBank()) <==> exists p :: 0 <= p < PRF && SecondBank()[p];
      exists p :: 0 <= p < PRF && SecondBank()[p]
    }

    /** Room for the first uop: buffer slot, queue slot, a register of the selected bank. */
    function RoomForOne(i: Input): (r: bool)
      reads this
      requires Shaped()
      ensures r ==> |i.queue| > 0 && Count() < ROB
      ensures r && i.queue[0].dstValid ==> FirstBank()[Pick(FirstBank())]
    {
      && |i.queue| > 0 && !Full() && !i.uopQueueFull
      && !(i.queue[0].dstValid && !FirstFree())
      && (i.queue[0].isBr ==> !i.bobFull)
    }

    /** Room for the second uop, given that the first is taken. */
    function RoomForTwo(i: Input): (r: bool)
      reads this
      requires Shaped()
      ensures r ==> |i.queue| > 1 && (Count() < ROB ==> Count() + 1 < ROB)
      ensures r && i.queue[1].dstValid ==> SecondBank()[Pick(SecondBank())]
    {
      && |i.queue| > 1 && !i.queue[0].isBr && !i.queue[1].serializing
      && !NextFull() && !i.uopQueueNextFull
      && !(i.queue[1].dstValid && !SecondFree())
    }

    /** The state machine: which of the datapath controls fire this cycle. */
    function Decide(i: Input): (c: Control)
      reads this
      requires Shaped()
    {
      var idle := Control(false, false, false, false, false, false, state);
      var h, h2 := tables.rob[head % 32], tables.rob[nextHead % 32];
      var headDone := robStoreDone[head % 32] && robComplete[head % 32];
      var nextDone := robStoreDone[nextHead % 32] && robComplete[nextHead % 32];
      var archFault := h.faulted && (h.isBreak || h.isIllegal || h.isBadAddr);
      match state
      case Active =>
        if irq && !Empty() then
          idle.(next := Drain, clearIrq := true)
        else if headDone && !Empty() then
          var alloc := !h.faulted && RoomForOne(i) && !i.queue[0].serializing && !pendingFault;
          var retireTwo := !NextEmpty() && !h.faulted && !h2.faulted && nextDone
            && !h.isBr && !h2.isRet && !h2.isCall;
          Control(alloc, alloc && RoomForTwo(i), !archFault, retireTwo, false, false,
                  if h.faulted then (if archFault then Other else Drain) else Active)
        else if |i.queue| > 0 then
          if i.queue[0].serializing then
            if Empty() then idle.(next := if i.queue[0].monitor then Other else AllocForSerialize) else idle
          else
            idle.(alloc := RoomForOne(i), allocTwo := RoomForOne(i) && RoomForTwo(i))
        else idle
      case Drain =>
        if i.drained then idle.(next := CopyBack) else idle
      case CopyBack =>
        idle.(copyBack := true, next := if NextAck(i) then Active else CopyBack)
      case AllocForSerialize =>
        var alloc := !Full() && !i.uopQueueFull && |i.queue| > 0 && exists p :: 0 <= p < PRF && tables.free[p];
        idle.(alloc := alloc, next := if alloc then WaitForSerializeAndRestart else AllocForSerialize)
      case WaitForSerializeAndRestart =>
        idle.(next := if headDone && NextAck(i) then Active else WaitForSerializeAndRestart)
      case Other => idle
    }

    /** The serializing path allocates without looking at the selected bank. */
    function BankMissed(i: Input): bool
      reads this
      requires Shaped()
    {
      state == AllocForSerialize && Decide(i).alloc && i.queue[0].dstValid && !FirstFree()
    }

    /** The rename events that the controls `c` ask for, allocation before retirement. */
    ghost function Events(c: Control, i: Input): seq<Event>
      reads this
      requires Shaped() && Supported(c, i)
    {
      if c.copyBack then [Recover] else
        AllocEvents(c, i.queue, Pick(FirstBank()), Pick(SecondBank())) + RetireEvents(c)
    }

    /** What the datapath needs of its controls: room for what is allocated, something to
        retire, and a recovery that happens alone. */
    ghost predicate Supported(c: Control, i: Input)
      reads this
      requires Shaped()
    {
      && (c.alloc ==> |i.queue| > 0 && Count() < ROB)
      && (c.allocTwo ==> c.alloc && |i.queue| > 1 && Count() + 1 < ROB)
      && (c.allocTwo && i.queue[1].dstValid ==> SecondBank()[Pick(SecondBank())])
      && (c.retire ==> Count() > 0)
      && (c.retireTwo ==> c.retire && Count() > 1)
      && (c.copyBack ==> !c.alloc && !c.retire)
    }

    lemma ControlsSupported(i: Input)
      requires Shaped()
      ensures Supported(Decide(i), i) && (Decide(i).clearIrq <==> state == Active && irq && Count() > 0)
      ensures Decide(i).alloc && i.queue[0].dstValid && !BankMissed(i) ==> FirstBank()[Pick(FirstBank())]
    {
      hide Pick; hide Bank;
    }

    // what a cycle does, said without the controls

    /** The entry in the buffer `k` places behind the head has completed, store data included. */
    predicate Finished(k: nat)
      reads this
      requires Shaped()
    {
      robComplete[(head + k) % 32] && robStoreDone[(head + k) % 32]
    }

    /** A fault that stops the machine instead of restarting it. */
    predicate Fatal(r: RobEntry) {
      r.faulted && (r.isBreak || r.isIllegal || r.isBadAddr)
    }

    /** Only finished instructions retire, in order, and never while draining; one that can
        retire does, and the one behind it goes along unless a fault, a branch ahead of it or the
        return stack is in the way. */
    ghost predicate RetiresFinished(es: seq<Event>)
      reads this
      requires Shaped()
    {
      RetiresFinishedBy(Retirements(es))
    }

    ghost predicate RetiresFinishedBy(n: nat)
      reads this
      requires Shaped()
    {
      var h, h2 := tables.rob[head % 32], tables.rob[(head + 1) % 32];
      var one := state == Active && !irq && Count() > 0 && Finished(0) && !Fatal(h);
      var two := one && Count() > 1 && Finished(1) && !h.faulted && !h2.faulted && !h.isBr && !h2.isRet && !h2.isCall;
      n == if two then 2 else if one then 1 else 0
    }

    ghost predicate HasFree(even: bool)
      reads this
      requires Sized(tables)
    {
      exists p :: 0 <= p < PRF && tables.free[p] && (p % 2 == 0) == even
    }

    /** The highest free register of a parity. */
    ghost predicate Highest(even: bool, p: nat)
      reads this
      requires Sized(tables)
    {
      && p < PRF && tables.free[p] && (p % 2 == 0) == even
      && forall q :: p < q < PRF && tables.free[q] ==> (q % 2 == 0) != even
    }

    /** The first uop of the queue can be renamed in the ordinary way. */
    ghost predicate FirstGoes(i: Input)
      reads this
      requires Shaped()
    {
      && state == Active && |i.queue| > 0 && !i.queue[0].serializing && !(irq && Count() > 0)
      && (Count() > 0 && Finished(0) ==> !tables.rob[head % 32].faulted && !pendingFault)
      && Count() < ROB && !i.uopQueueFull && (i.queue[0].dstValid ==> HasFree(bankSel)) && (i.queue[0].isBr ==> !i.bobFull)
    }

    /** A serializing uop at the head can be renamed, alone. */
    ghost predicate SerialGoes(i: Input)
      reads this
      requires Shaped()
    {
      state == AllocForSerialize && |i.queue| > 0 && Count() < ROB && !i.uopQueueFull && (HasFree(true) || HasFree(false))
    }

    /** It would be, but the selected bank has no register for it: the serializing path asks only
        whether any register is free. */
    ghost predicate SerialMisses(i: Input)
      reads this
      requires Shaped()
    {
      SerialGoes(i) && i.queue[0].dstValid && !HasFree(bankSel)
    }

    ghost predicate SecondGoes(i: Input)
      reads this
      requires Shaped()
    {
      && FirstGoes(i) && |i.queue| > 1 && !i.queue[0].isBr && !i.queue[1].serializing
      && Count() + 1 < ROB && !i.uopQueueNextFull && (i.queue[1].dstValid ==> HasFree(!bankSel))
    }

    /** The uops renamed are the first ones of the queue that fit; each gets the highest free
        register of its bank, or register 0 from an empty one. */
    ghost predicate AllocatesFitting(es: seq<Event>, i: Input)
      reads this
      requires Shaped()
    {
      && Allocations(es) == (if SecondGoes(i) then 2 else if FirstGoes(i) || SerialGoes(i) then 1 else 0)
      && Allocations(es) <= |es| && Allocations(es) <= |i.queue|
      && forall k {:trigger es[k]} :: 0 <= k < Allocations(es) ==>
        && es[k].Alloc? && es[k].validDst == i.queue[k].dstValid && es[k].ldst == i.queue[k].dst
        && (i.queue[k].dstValid ==>
          if HasFree(bankSel == (k == 0)) then Highest(bankSel == (k == 0), es[k].pdst) else es[k].pdst == 0)
    }

    /** Where the state machine goes. */
    ghost predicate MovesOn(next: State, i: Input)
      reads this
      requires Shaped()
    {
      var h, some, ack := tables.rob[head % 32], Count() > 0, gotAck || i.restartAck;
      var serial := !some && |i.queue| > 0 && i.queue[0].serializing;
      && (next == Drain <==>
        (state == Active && some && (irq || (Finished(0) && h.faulted && !Fatal(h)))) || (state == Drain && !i.drained))
      && (next == CopyBack <==> (state == Drain && i.drained) || (state == CopyBack && !ack))
      && (next == AllocForSerialize <==>
        (state == Active && serial && !i.queue[0].monitor) || (state == AllocForSerialize && !SerialGoes(i)))
      && (next == WaitForSerializeAndRestart <==>
        SerialGoes(i) || (state == WaitForSerializeAndRestart && !(Finished(0) && ack)))
      && (next == Other <==>
        || (state == Active && some && !irq && Finished(0) && Fatal(h))
        || (state == Active && serial && i.queue[0].monitor) || state == Other)
    }

    /** A serializing instruction has the machine to itself. */
    ghost predicate SerialAlone()
      reads this
      requires Shaped()
    {
      && (state == AllocForSerialize ==> Count() == 0)
      && (state == WaitForSerializeAndRestart ==> Count() == 1)
    }

    /** Which of the `m` uops renamed in this cycle, if any, fills slot `k`. */
    function Filled(k: nat, m: nat): Option<nat>
      reads this
    {
      if m == 2 && k == (tail + 1) % 32 then Some(1) else if m >= 1 && k == tail % 32 then Some(0) else None
    }

    /** An entry is complete, and its store data there, by its own doing only: the last report
        for it in this cycle, or else what filling it set, or else what it was. */
    ghost predicate BitsOwn(done: seq<bool>, data: seq<bool>, m: nat, i: Input)
      reads this
      requires Shaped()
    {
      |done| == |data| == ROB && m <= |i.queue| && forall k {:trigger Filled(k, m)} :: 0 <= k < ROB ==>
        && done[k] == (state != CopyBack && (
          if i.mem.Some? && i.mem.value.robPtr == k then true
          else if i.done2.Some? && i.done2.value.robPtr == k then i.done2.value.complete
          else if i.done1.Some? && i.done1.value.robPtr == k then i.done1.value.complete
          else match Filled(k, m) case Some(j) => i.queue[j].folds case None => robComplete[k]))
        && data[k] == (state != CopyBack && (
          i.storeData == Some(k) || match Filled(k, m) case Some(j) => !i.queue[j].hasStoreData case None => robStoreDone[k]))
    }

    /** What an entry says of its instruction comes from its uop and from its own reports. */
    ghost predicate EntriesOwn(rob: seq<RobEntry>, m: nat, i: Input)
      reads this
      requires Shaped()
    {
      |rob| == ROB && m <= |i.queue| && forall k {:trigger Filled(k, m)} :: 0 <= k < ROB ==>
        var e, was := rob[k], tables.rob[k];
        && Flags(e) == (match Filled(k, m) case Some(j) => UopFlags(i.queue[j]) case None => Flags(was))
        && e.faulted == (state != CopyBack && (
          if i.mem.Some? && i.mem.value.robPtr == k then i.mem.value.badAddr
          else if i.done2.Some? && i.done2.value.robPtr == k then i.done2.value.faulted
          else if i.done1.Some? && i.done1.value.robPtr == k then i.done1.value.faulted
          else match Filled(k, m) case Some(j) => i.queue[j].folds && i.queue[j].illegal case None => was.faulted))
        && (state != CopyBack ==>
          && e.isIllegal == (
            if i.done2.Some? && i.done2.value.robPtr == k then i.done2.value.isIllegal
            else if i.done1.Some? && i.done1.value.robPtr == k then i.done1.value.isIllegal
            else match Filled(k, m) case Some(j) => i.queue[j].folds && i.queue[j].illegal case None => was.isIllegal)
          && e.isBadAddr == (
            if i.mem.Some? && i.mem.value.robPtr == k then i.mem.value.badAddr
            else Filled(k, m) == None && was.isBadAddr))
    }

    lemma SlotsAtTail(c: Control, m: nat)
      requires Shaped() && (c.allocTwo ==> c.alloc) && m == Allocs(c)
      ensures nextTail % 32 == (tail + 1) % 32
      ensures forall k :: FilledBy(c, tail % 32, (tail + 1) % 32, k) == Filled(k, m)
    {
    }

    lemma BitsRight(c: Control, i: Input)
      requires Shaped() && WellFormed(i) && (c.copyBack <==> state == CopyBack)
      requires (c.alloc ==> |i.queue| > 0) && (c.allocTwo ==> c.alloc && |i.queue| > 1) && (c.copyBack ==> !c.alloc)
      ensures BitsOwn(CompleteAfter(robComplete, c, i, tail % 32, nextTail % 32),
                      StoreDoneAfter(robStoreDone, c, i, tail % 32, nextTail % 32), Allocs(c), i)
    {
      hide CompleteAfter; hide StoreDoneAfter; hide Filled; hide FilledBy; hide Advance; hide WellFormed;
      var m := Allocs(c);
      SlotsAtTail(c, m);
      forall k | 0 <= k < ROB ensures FilledBy(c, tail % 32, nextTail % 32, k) == Filled(k, m) {}
      FilledFits(c, i, m);
      assert nextTail % 32 != tail % 32;
      forall k: nat | k < ROB { CompletionsAreOwn(robComplete, robStoreDone, c, i, tail % 32, nextTail % 32, k); }
    }

    lemma FilledFits(c: Control, i: Input, m: nat)
      requires m == Allocs(c) && (c.alloc ==> |i.queue| > 0) && (c.allocTwo ==> c.alloc && |i.queue| > 1)
      ensures m <= |i.queue| && forall k :: Filled(k, m).Some? ==> Filled(k, m).value < |i.queue|
    {
    }

    lemma EntriesRight(c: Control, i: Input)
      requires Shaped() && WellFormed(i) && (c.copyBack <==> state == CopyBack)
      requires (c.alloc ==> |i.queue| > 0) && (c.allocTwo ==> c.alloc && |i.queue| > 1) && (c.copyBack ==> !c.alloc)
      ensures EntriesOwn(if c.copyBack then ClearFaults(tables.rob) else RobAfter(c, i), Allocs(c), i)
    {
      hide Pick; hide Bank; hide Filled; hide FilledBy; hide AllocateUpToTwo; hide Finish; hide Advance; hide WellFormed;
      var m := Allocs(c);
      SlotsAtTail(c, m);
      FilledFits(c, i, m);
      if c.copyBack {
        NoneFilled();
      } else {
        forall k: nat | k < ROB { EntryIsOwn(tables, tail, c, i, Pick(FirstBank()), Pick(SecondBank()), k); }
      }
    }

    lemma NoneFilled()
      ensures forall k :: Filled(k, 0) == None
    {
    }

    lemma SlotsBehindHead()
      requires Shaped()
      ensures nextHead % 32 == (head + 1) % 32
    {
    }

    lemma RetireDecisions(i: Input)
      requires Shaped()
      ensures RetiresFinishedBy(Retires(Decide(i)))
    {
      hide Pick; hide Bank; hide RoomForOne; hide RoomForTwo; hide SecondFree; hide FirstFree;
      SlotsBehindHead();
    }

    lemma RetiresRight(i: Input)
      requires Shaped() && Supported(Decide(i), i)
      ensures RetiresFinished(Events(Decide(i), i))
    {
      hide Decide; hide Events; hide Retirements; hide Allocations; hide Retires; hide Allocs;
      RetireDecisions(i);
      EventsCounted(i);
    }

    lemma MissedExactly(i: Input)
      requires Shaped()
      ensures BankMissed(i) <==> SerialMisses(i)
    {
      hide HasFree; hide Decide; hide FirstGoes; hide SecondGoes; hide FirstFree; hide Pick; hide Bank;
      AllocDecisions(i);
      Banks();
      FirstIsActive(i);
    }

    lemma FirstIsActive(i: Input)
      requires Shaped()
      ensures FirstGoes(i) ==> state == Active
    {
    }

    lemma RecoverCounts()
      ensures Retirements([Recover]) == Allocations([Recover]) == 0
    {
    }

    lemma Banks()
      requires Shaped()
      ensures FirstFree() <==> HasFree(bankSel)
      ensures SecondFree() <==> HasFree(!bankSel)
      ensures if FirstFree() then Highest(bankSel, Pick(FirstBank())) else Pick(FirstBank()) == 0
      ensures if SecondFree() then Highest(!bankSel, Pick(SecondBank())) else Pick(SecondBank()) == 0
    {
      BankSpec(bankSel);
      BankSpec(!bankSel);
    }

    lemma BankSpec(even: bool)
      requires Shaped()
      ensures var b := Bank(tables.free, even);
        && ((exists p :: 0 <= p < PRF && b[p]) <==> HasFree(even))
        && (if HasFree(even) then Highest(even, Pick(b)) else Pick(b) == 0)
    {
      hide Pick;
      var b := Bank(tables.free, even);
      if HasFree(even) {
        var p :| 0 <= p < PRF && tables.free[p] && (p % 2 == 0) == even;
        assert b[p];
      }
    }

    lemma AllocDecisions(i: Input)
      requires Shaped()
      ensures Decide(i).alloc <==> FirstGoes(i) || SerialGoes(i)
      ensures Decide(i).allocTwo <==> SecondGoes(i)
      ensures Decide(i).copyBack ==> !Decide(i).alloc && !Decide(i).allocTwo
    {
      hide Pick; hide Bank; hide HasFree; hide Highest; hide FirstFree; hide SecondFree;
      Banks();
      SomeFree();
    }

    lemma AllocatesRight(i: Input)
      requires Shaped() && Supported(Decide(i), i)
      ensures AllocatesFitting(Events(Decide(i), i), i)
    {
      hide Pick; hide Bank; hide Allocations; hide RetireEvents; hide HasFree; hide Highest; hide FirstFree; hide SecondFree;
      hide Decide; hide FirstGoes; hide SerialGoes; hide SecondGoes;
      var c := Decide(i);
      AllocDecisions(i);
      SecondNeedsFirst(i);
      Banks();
      if c.copyBack { RecoverCounts(); } else { EventCounts(c, i.queue, Pick(FirstBank()), Pick(SecondBank())); }
    }

    lemma SecondNeedsFirst(i: Input)
      requires Shaped()
      ensures SecondGoes(i) ==> FirstGoes(i)
      ensures SerialGoes(i) && i.queue[0].dstValid && !HasFree(bankSel) ==> state == AllocForSerialize
    {
    }

    lemma SomeFree()
      requires Shaped()
      ensures (exists p :: 0 <= p < PRF && tables.free[p]) <==> HasFree(true) || HasFree(false)
    {
      if p :| 0 <= p < PRF && tables.free[p] { assert HasFree(p % 2 == 0); }
    }

    lemma MovesRight(i: Input)
      requires Shaped()
      ensures MovesOn(Decide(i).next, i)
    {
      hide Pick; hide Bank; hide HasFree; hide Highest; hide RoomForOne; hide RoomForTwo; hide SecondFree;
      SomeFree();
    }

    /** The reorder buffer after the allocations and completions of a cycle. */
    function RobAfter(c: Control, i: Input): (r: seq<RobEntry>)
      reads this
      requires Shaped() && WellFormed(i)
      requires (c.alloc ==> |i.queue| > 0) && (c.allocTwo ==> c.alloc && |i.queue| > 1)
      ensures |r| == ROB
    {
      Finish(AllocateUpToTwo(tables, tail, c, i.queue, Pick(FirstBank()), Pick(SecondBank())).rob, i)
    }

    /** Copying the retirement tables back and emptying the buffer. */
    method CopyBackTables()
      requires Valid()
      modifies `tables, `head, `tail, `nextHead, `nextTail, `trace
      ensures Valid() && trace == old(trace) + [Recover] && head == tail == 0
      ensures tables.rob == ClearFaults(old(tables.rob))
    {
      hide Follows; hide Run; hide Legal; hide Reset; hide Renamed; hide ClearFaults;
      var t := tables.(allocRat := tables.retireRat, free := tables.retireFree);
      RecoverFollows(tables, head, Count(), trace);
      FinishFollows(t, 0, 0, trace + [Recover], ClearFaults(t.rob));
      tables := t.(rob := ClearFaults(t.rob));
      head, tail, nextHead, nextTail := 0, 0, 1, 1;
      trace := trace + [Recover];
    }

    /** Allocation, retirement and completion under given controls. */
    method Rename(c: Control, i: Input)
      requires Valid() && WellFormed(i) && Supported(c, i) && !c.copyBack
      requires c.alloc && i.queue[0].dstValid ==> FirstBank()[Pick(FirstBank())]
      modifies `tables, `head, `tail, `nextHead, `nextTail, `trace
      ensures Valid() && trace == old(trace + Events(c, i))
      ensures head == Advance(old(head), Retires(c)) && tail == Advance(old(tail), Allocs(c))
      ensures tables.rob == old(RobAfter(c, i))
    {
      hide Follows; hide Run; hide Legal; hide Reset; hide Renamed; hide Pick; hide Bank; hide Allocs; hide Retires;
      hide Finish; hide Allocate; hide Commit; hide AllocateUpToTwo; hide CommitUpToTwo; hide AllocEvents; hide RetireEvents;
      hide Advance; hide Distance;
      ghost var n := Count();
      var p1, p2 := Pick(FirstBank()), Pick(SecondBank());
      var h, h2 := tables.rob[head % 32], tables.rob[nextHead % 32];
      CountsFit(c, i);
      PointerCount(head, tail, Allocs(c), Retires(c));
      CycleFollows(tables, head, n, trace, tail, c, i, p1, p2);
      var t := AllocateUpToTwo(tables, tail, c, i.queue, p1, p2);
      t := CommitUpToTwo(t, c, h, h2);
      trace := trace + (AllocEvents(c, i.queue, p1, p2) + RetireEvents(c));
      tables := t.(rob := Finish(t.rob, i));
      head, nextHead := Advance(head, Retires(c)), Advance(nextHead, Retires(c));
      tail, nextTail := Advance(tail, Allocs(c)), Advance(nextTail, Allocs(c));
    }

    lemma CountsFit(c: Control, i: Input)
      requires Shaped() && Supported(c, i)
      ensures Allocs(c) <= 2 && Retires(c) <= 2 && 0 <= Count() + Allocs(c) - Retires(c) <= ROB
    {
    }

    /** The serializing path on an empty bank: the selector's answer, cut to six bits, is
        register 0, which is never free, so the tables no longer describe any legal run. */
    method RenameMissedBank(c: Control, i: Input)
      requires Valid() && WellFormed(i) && Supported(c, i) && !c.copyBack
      requires c.alloc && !c.allocTwo && !c.retire && i.queue[0].dstValid && !FirstFree()
      modifies `tables, `head, `tail, `nextHead, `nextTail, `trace
      ensures Shaped() && !Valid() && trace == old(trace + Events(c, i)) && tables.rob == old(RobAfter(c, i))
      ensures head == old(head) && tail == Advance(old(tail), 1)
    {
      hide Pick; hide Bank; hide Allocate; hide Run; hide Legal; hide Reset; hide Finish; hide Live; hide Renamed;
      var p1 := Pick(FirstBank());
      var u := i.queue[0];
      NotFree(trace, tables, head, Count(), u);
      var t := Allocate(tables, tail % 32, u, p1, tables.allocRat[u.dst]);
      trace := trace + [Alloc(u.dstValid, u.dst, p1)];
      tables := t.(rob := Finish(t.rob, i));
      tail, nextTail := Advance(tail, 1), Advance(nextTail, 1);
    }

    /** The completion bits of the buffer: set for folded uops, by the execution ports, and
        by the arrival of store data. */
    method UpdateCompletion(c: Control, i: Input, slot1: nat, slot2: nat)
      requires WellFormed(i) && |robComplete| == ROB && |robStoreDone| == ROB && slot1 < ROB && slot2 < ROB
      requires (c.alloc ==> |i.queue| > 0) && (c.allocTwo ==> |i.queue| > 1)
      modifies `robComplete, `robStoreDone
      ensures robComplete == CompleteAfter(old(robComplete), c, i, slot1, slot2)
      ensures robStoreDone == StoreDoneAfter(old(robStoreDone), c, i, slot1, slot2)
    {
      if c.copyBack {
        robComplete, robStoreDone := seq(ROB, k => false), seq(ROB, k => false);
      } else {
        if c.alloc {
          robComplete := robComplete[slot1 := i.queue[0].folds];
          robStoreDone := robStoreDone[slot1 := !i.queue[0].hasStoreData];
        }
        if c.allocTwo {
          robComplete := robComplete[slot2 := i.queue[1].folds];
          robStoreDone := robStoreDone[slot2 := !i.queue[1].hasStoreData];
        }
        robComplete := FinishBits(robComplete, i);
        if i.storeData.Some? { robStoreDone := robStoreDone[i.storeData.value := true]; }
      }
    }

    /** The registers of the state machine itself. */
    method UpdateState(c: Control, i: Input, ack: bool, restarted: bool)
      modifies `pendingFault, `irq, `gotAck, `bankSel, `state
      ensures state == c.next && bankSel == !old(bankSel) && gotAck == ack
      ensures irq == (!c.clearIrq && (old(irq) || i.externIrq))
      ensures pendingFault == ((old(pendingFault) || !NoFault(i)) && !(c.copyBack && ack) && !restarted)
    {
      pendingFault := (pendingFault || !NoFault(i)) && !(c.copyBack && ack) && !restarted;
      irq := if c.clearIrq then false else irq || i.externIrq;
      gotAck := ack;
      bankSel := !bankSel;
      state := c.next;
    }

    lemma EventsCounted(i: Input)
      requires Shaped() && Supported(Decide(i), i)
      ensures var c, es := Decide(i), Events(Decide(i), i);
        && (c.copyBack <==> state == CopyBack)
        && (if c.copyBack then es == [Recover] && Allocations(es) == Allocs(c) == 0 && Retirements(es) == Retires(c) == 0 else
            Allocations(es) == Allocs(c) && Retirements(es) == Retires(c) && |es| == Allocs(c) + Retires(c))
    {
      hide Pick; hide Bank; hide RoomForOne; hide RoomForTwo; hide Retirements; hide Allocations; hide AllocEvents; hide RetireEvents;
      var c := Decide(i);
      if c.copyBack { RecoverCounts(); } else { EventCounts(c, i.queue, Pick(FirstBank()), Pick(SecondBank())); }
    }

    /** What is live after a cycle, if a serializing instruction was alone before it. */
    lemma SerialStays(i: Input) returns (n: int)
      requires Shaped() && Supported(Decide(i), i)
      ensures n == if state == CopyBack then 0 else Count() + Allocs(Decide(i)) - Retires(Decide(i))
      ensures SerialAlone() && Decide(i).next == AllocForSerialize ==> n == 0
      ensures SerialAlone() && Decide(i).next == WaitForSerializeAndRestart ==> n == 1
    {
      hide Pick; hide Bank; hide RoomForOne; hide RoomForTwo;
      n := if state == CopyBack then 0 else Count() + Allocs(Decide(i)) - Retires(Decide(i));
    }

    /** What the controls do to the tables: copy back, or allocate, retire and complete. */
    method Datapath(c: Control, i: Input)
      requires Valid() && WellFormed(i) && c == Decide(i) && Supported(c, i)
      modifies `tables, `head, `tail, `nextHead, `nextTail, `trace
      ensures Shaped() && trace == old(trace + Events(c, i))
      ensures if c.copyBack then head == tail else head == Advance(old(head), Retires(c)) && tail == Advance(old(tail), Allocs(c))
      ensures tables.rob == old(if c.copyBack then ClearFaults(tables.rob) else RobAfter(c, i))
      ensures Valid() <==> !old(BankMissed(i))
    {
      hide Follows; hide AllocEvents; hide RetireEvents; hide RoomForOne; hide RoomForTwo; hide WellFormed; hide RobAfter;
      hide Pick; hide Bank; hide Advance;
      ControlsSupported(i);
      if c.copyBack {
        CopyBackTables();
      } else if BankMissed(i) {
        AdvanceNone(head);
        RenameMissedBank(c, i);
      } else {
        Rename(c, i);
      }
    }

    lemma AdvanceNone(p: nat)
      requires p < 64
      ensures Advance(p, 0) == p
    {
    }

    /** The registers of one clock, in terms of the controls. */
    method Step(c: Control, i: Input)
      requires Valid() && WellFormed(i) && c == Decide(i) && Supported(c, i)
      modifies this
      ensures Shaped() && state == c.next && bankSel == !old(bankSel) && gotAck == old(NextAck(i))
      ensures irq == (!c.clearIrq && (old(irq) || i.externIrq))
      ensures pendingFault == ((old(pendingFault) || !NoFault(i)) && !(c.copyBack && gotAck)
        && !(old(state) == WaitForSerializeAndRestart && old(Finished(0))))
      ensures robComplete == old(CompleteAfter(robComplete, c, i, tail % 32, nextTail % 32))
      ensures robStoreDone == old(StoreDoneAfter(robStoreDone, c, i, tail % 32, nextTail % 32))
      ensures if c.copyBack then head == tail else head == Advance(old(head), Retires(c)) && tail == Advance(old(tail), Allocs(c))
      ensures tables.rob == old(if c.copyBack then ClearFaults(tables.rob) else RobAfter(c, i))
      ensures trace == old(trace + Events(c, i))
      ensures Valid() <==> !old(BankMissed(i))
    {
      hide Follows; hide AllocEvents; hide RetireEvents; hide RoomForOne; hide RoomForTwo; hide WellFormed; hide RobAfter;
      hide CompleteAfter; hide StoreDoneAfter; hide Pick; hide Bank; hide Advance; hide Allocs; hide Retires;
      hide Decide; hide BankMissed; hide Events; hide ClearFaults; hide Distance;
      var ack := NextAck(i);
      var restarted := state == WaitForSerializeAndRestart && robStoreDone[head % 32] && robComplete[head % 32];
      var slot1, slot2 := tail % 32, nextTail % 32;
      Datapath(c, i);
      UpdateCompletion(c, i, slot1, slot2);
      UpdateState(c, i, ack, restarted);
    }

    /** One clock.

        Unless the serializing path allocates from an empty bank, the tables stay what the
        in-order machine computes from the events so far; if it does, they stop being so.
        The events appended are exactly what the state before and the inputs ask for. */
    method Clock(i: Input)
      requires Valid() && WellFormed(i)
      modifies this
      ensures Shaped() && bankSel == !old(bankSel)
      ensures Valid() <==> !old(SerialMisses(i))
      ensures old(trace) <= trace && var es := trace[|old(trace)|..];
        && old(RetiresFinished(es)) && old(AllocatesFitting(es, i))
        && (if old(state) == CopyBack then es == [Recover] else |es| == Allocations(es) + Retirements(es))
      ensures var es := trace[|old(trace)|..];
        if old(state) == CopyBack then head == tail
        else head == Advance(old(head), Retirements(es)) && tail == Advance(old(tail), Allocations(es))
      ensures var done, data, m := robComplete, robStoreDone, Allocations(trace[|old(trace)|..]); old(BitsOwn(done, data, m, i))
      ensures var rob, m := tables.rob, Allocations(trace[|old(trace)|..]); old(EntriesOwn(rob, m, i))
      // the state machine; a serializing instruction has the machine to itself
      ensures var next := state; old(MovesOn(next, i))
      ensures old(SerialAlone()) ==> SerialAlone()
      ensures gotAck == (old(state) != Active && (old(gotAck) || i.restartAck))
      ensures pendingFault == (
        && (old(pendingFault) || (i.done1.Some? && i.done1.value.faulted) || (i.done2.Some? && i.done2.value.faulted))
        && !(old(state) == CopyBack && gotAck) && !(old(state) == WaitForSerializeAndRestart && old(Finished(0))))
      // an interrupt stays latched until it starts a drain
      ensures irq == ((old(irq) || i.externIrq) && !(old(state) == Active && old(irq) && old(Count()) > 0))
    {
      hide Follows; hide AllocEvents; hide RetireEvents; hide RoomForOne; hide RoomForTwo; hide WellFormed; hide RobAfter;
      hide CompleteAfter; hide StoreDoneAfter; hide Pick; hide Bank; hide Advance; hide Allocs; hide Retires;
      hide Decide; hide BankMissed; hide Events; hide Retirements; hide Allocations; hide RetiresFinished; hide AllocatesFitting;
      hide MovesOn; hide Distance; hide ClearFaults; hide BitsOwn; hide EntriesOwn; hide SerialMisses;
      var c := Decide(i);
      MissedExactly(i);
      ControlsSupported(i);
      RetiresRight(i);
      AllocatesRight(i);
      MovesRight(i);
      EventsCounted(i);
      BitsRight(c, i);
      EntriesRight(c, i);
      CountsFit(c, i);
      PointerCount(head, tail, Allocs(c), Retires(c));
      ghost var alone := SerialStays(i);
      Step(c, i);
    }
  }
}
