/** The direct-mapped write-back second-level cache of l2.sv, in front of a memory.

    `Flat` is the memory the two first-level caches believe in.  Every clock either leaves it
    alone or applies the one store that was granted; every load is answered from it. */
module L2Cache {

  const SETS: nat := 16384

  type Line = s: seq<nat> | |s| == 4 witness [0, 0, 0, 0]

  /** A 32-bit address cut the way the cache cuts it; `bank` picks 16 of the 64 bytes. */
  datatype Addr = Addr(tag: nat, idx: nat, bank: nat)

  datatype Op = Load | Store

  datatype Port = Instruction | Data

  datatype Request = Request(port: Port, addr: Addr, op: Op, data: nat)

  datatype Option<T> = None | Some(value: T) {
    function GetOr(default: T): T {
      if Some? then value else default
    }
  }

  datatype State =
    | Initialize | Idle | CheckValidAndTag | CleanReload | DirtyStore | StoreTurnaround
    | WaitCleanReload | WaitStoreIdle | FlushStore | FlushWait | FlushTriage

  datatype Input = Input(l1dReq: bool, l1iReq: bool, l1dAddr: Addr, l1iAddr: Addr, l1dOp: Op, storeData: nat,
                         flushD: bool, flushI: bool, flushDDone: bool, flushIDone: bool,
                         memRsp: bool, loadData: Line)

  ghost predicate InRange(a: Addr) {
    a.idx < SETS && a.bank < 4
  }

  // ---------------------------------------------------------------- the RAMs

  /** Contents and output registers of the data, tag, valid and dirty RAMs. */
  datatype Rams = Rams(lines: seq<Line>, tags: seq<nat>, valids: seq<bool>, dirties: seq<bool>,
                       outLine: Line, outTag: nat, outValid: bool, outDirty: bool)

  /** Write data and enables of one cycle; each of the four data RAMs has its own enable. */
  datatype Writes = Writes(line: Line, banks: seq<bool>, tag: Option<nat>, valid: Option<bool>, dirty: Option<bool>)

  ghost predicate Sized(m: Rams) {
    |m.lines| == SETS && |m.tags| == SETS && |m.valids| == SETS && |m.dirties| == SETS
  }

  function Merge(before: Line, w: Line, banks: seq<bool>): Line
    requires |banks| == 4
  {
    [if banks[0] then w[0] else before[0], if banks[1] then w[1] else before[1],
     if banks[2] then w[2] else before[2], if banks[3] then w[3] else before[3]]
  }

  /** One clock edge at index `t`.  The RAMs are read-first: the outputs show the words from
      before the write. */
  function Clocked(m: Rams, t: nat, w: Writes): (r: Rams)
    requires Sized(m) && t < SETS && |w.banks| == 4
    ensures Sized(r)
  {
    Rams(m.lines[t := Merge(m.lines[t], w.line, w.banks)], m.tags[t := w.tag.GetOr(m.tags[t])],
         m.valids[t := w.valid.GetOr(m.valids[t])], m.dirties[t := w.dirty.GetOr(m.dirties[t])],
         m.lines[t], m.tags[t], m.valids[t], m.dirties[t])
  }

  function Read(m: Rams, t: nat): (r: Rams)
    requires Sized(m) && t < SETS
    ensures r == Clocked(m, t, Writes(m.outLine, [false, false, false, false], None, None, None))
  {
    assert Merge(m.lines[t], m.outLine, [false, false, false, false]) == m.lines[t];
    assert m.lines[t := m.lines[t]] == m.lines && m.tags[t := m.tags[t]] == m.tags;
    assert m.valids[t := m.valids[t]] == m.valids && m.dirties[t := m.dirties[t]] == m.dirties;
    m.(outLine := m.lines[t], outTag := m.tags[t], outValid := m.valids[t], outDirty := m.dirties[t])
  }

  // ---------------------------------------------------------------- the registers

  /** The main state machine and the request it serves. */
  datatype Regs = Regs(state: State, idx: nat, tag: nat, bank: nat, op: Op, storeData: nat,
                       memAddr: (nat, nat), saveAddr: (nat, nat), memReq: bool, memOp: Op, memStore: Line,
                       reload: bool, lastWasData: bool)

  /** The latched requests and responses of the two ports, and the flush request machine. */
  datatype Ports = Ports(dPending: bool, iPending: bool, dRsp: bool, iRsp: bool, flushReq: bool, flushComplete: bool,
                         waitingForL1: bool, needI: bool, needD: bool)

  type Memory = (nat, nat) -> Line

  ghost function Written(m: Memory, at: (nat, nat), line: Line): Memory {
    (t, i) => if (t, i) == at then line else m(t, i)
  }

  predicate Busy(s: State) {
    s == CheckValidAndTag || s == CleanReload || s == DirtyStore || s == StoreTurnaround || s == WaitCleanReload
  }

  /** A store that was acknowledged at its grant and has not reached the data RAM yet. */
  predicate PendingStore(r: Regs, a: Addr) {
    r.op == Store && a == Addr(r.tag, r.idx, r.bank) && Busy(r.state)
  }

  predicate Holds(m: Rams, t: nat, i: nat)
    requires |m.valids| == |m.tags| && i < |m.tags|
  {
    m.valids[i] && m.tags[i] == t
  }

  /** The 16 bytes at `a` as the first-level caches must see them. */
  ghost function Flat(m: Rams, r: Regs, mem: Memory, a: Addr): nat
    requires Sized(m) && InRange(a)
  {
    if PendingStore(r, a) then r.storeData
    else if r.state == Initialize then mem(a.tag, a.idx)[a.bank]
    else if r.state == FlushTriage && a.idx == r.idx && m.outValid && m.outTag == a.tag then m.outLine[a.bank]
    else if r.state == FlushStore && (a.tag, a.idx) == r.memAddr then r.memStore[a.bank]
    else if Holds(m, a.tag, a.idx) then m.lines[a.idx][a.bank]
    else mem(a.tag, a.idx)[a.bank]
  }

  ghost predicate SameMemory(m: Rams, r: Regs, mem: Memory, m': Rams, r': Regs, mem': Memory)
    requires Sized(m) && Sized(m')
  {
    forall a: Addr :: InRange(a) ==> Flat(m', r', mem', a) == Flat(m, r, mem, a)
  }

  /** The memory presented changes by the store in `g`, if there is one. */
  ghost predicate Applied(m: Rams, r: Regs, mem: Memory, m': Rams, r': Regs, mem': Memory, g: Option<Request>)
    requires Sized(m) && Sized(m')
  {
    forall a: Addr :: InRange(a) ==>
      Flat(m', r', mem', a) == if g.Some? && g.value.op == Store && g.value.addr == a then g.value.data else Flat(m, r, mem, a)
  }

  lemma NothingApplied(m: Rams, r: Regs, mem: Memory, m': Rams, r': Regs, mem': Memory)
    requires Sized(m) && Sized(m') && SameMemory(m, r, mem, m', r', mem')
    ensures Applied(m, r, mem, m', r', mem', None)
  {
    hide Flat;
  }

  // ---------------------------------------------------------------- the invariant

  /** Sets whose valid and dirty bits are already cleared. */
  ghost predicate Cleared(m: Rams, lo: nat, hi: nat)
    requires Sized(m) && hi <= SETS
  {
    forall i :: lo <= i < hi ==> !m.valids[i] && !m.dirties[i]
  }

  /** A valid clean line is a copy of memory, and only valid lines are dirty.  Neither has a
      converse: a refill leaves an old dirty bit standing. */
  ghost predicate LinesOk(m: Rams, mem: Memory)
    requires Sized(m)
  {
    && (forall i :: 0 <= i < SETS && m.dirties[i] ==> m.valids[i])
    && (forall i :: 0 <= i < SETS && m.valids[i] && !m.dirties[i] ==> m.lines[i] == mem(m.tags[i], i))
  }

  ghost predicate OutputsMatch(m: Rams, i: nat)
    requires Sized(m) && i < SETS
  {
    m.outLine == m.lines[i] && m.outTag == m.tags[i] && m.outValid == m.valids[i] && m.outDirty == m.dirties[i]
  }

  /** Nothing would be lost if the line in set `i` were overwritten. */
  ghost predicate Replaceable(m: Rams, mem: Memory, i: nat)
    requires Sized(m) && i < SETS
  {
    m.valids[i] ==> m.lines[i] == mem(m.tags[i], i)
  }

  ghost predicate StateOk(m: Rams, r: Regs, mem: Memory)
    requires Sized(m) && r.idx < SETS
  {
    match r.state
    case Initialize => Cleared(m, 1, r.idx + 1) && !r.reload
    case Idle => !r.reload
    case CheckValidAndTag =>
      OutputsMatch(m, r.idx) && r.memAddr == (r.tag, r.idx) && (r.reload ==> Holds(m, r.tag, r.idx))
    case DirtyStore =>
      r.memAddr == (m.tags[r.idx], r.idx) && r.memStore == m.lines[r.idx] && m.valids[r.idx]
      && !r.reload && r.memOp == Store
    case StoreTurnaround => Replaceable(m, mem, r.idx) && r.memAddr == (r.tag, r.idx) && !r.reload && r.memOp == Load
    case CleanReload => Replaceable(m, mem, r.idx) && r.memAddr == (r.tag, r.idx) && r.reload && r.memOp == Load
    case WaitCleanReload => Holds(m, r.tag, r.idx) && r.reload && r.memAddr == (r.tag, r.idx)
    case WaitStoreIdle => !r.reload
    case FlushWait => Cleared(m, 0, r.idx) && !r.reload
    case FlushTriage =>
      && Cleared(m, 0, r.idx + 1) && !r.reload
      && (m.outDirty ==> m.outValid) && (m.outValid && !m.outDirty ==> m.outLine == mem(m.outTag, r.idx))
    case FlushStore => Cleared(m, 0, r.idx + 1) && !r.reload && r.memAddr.1 == r.idx && r.memOp == Store
  }

  ghost predicate Inv(m: Rams, r: Regs, mem: Memory) {
    && Sized(m) && r.idx < SETS && r.bank < 4
    && (r.state != Initialize ==> LinesOk(m, mem))
    && StateOk(m, r, mem)
    && (Busy(r.state) ==> r.saveAddr == (r.tag, r.idx))
    && (r.memReq <==> r.state == DirtyStore || r.state == CleanReload || r.state == FlushStore)
  }

  /** With every line invalid the memory alone is what the cache presents. */
  lemma AllInMemory(m: Rams, r: Regs, mem: Memory)
    requires Sized(m) && Cleared(m, 0, SETS) && r.state == Idle
    ensures forall a: Addr :: InRange(a) ==> mem(a.tag, a.idx)[a.bank] == Flat(m, r, mem, a)
  {
  }

  /** Cycles until the request is answered, not counting waits for memory. */
  function Remaining(r: Regs): nat {
    match r.state
    case CheckValidAndTag => if r.reload then 1 else 6
    case DirtyStore => 5
    case StoreTurnaround => 4
    case CleanReload => 3
    case WaitCleanReload => 2
    case _ => 0
  }

  predicate Flushing(s: State) {
    s == FlushWait || s == FlushTriage || s == FlushStore
  }

  /** Cycles until a flush is over, not counting waits for memory. */
  function FlushLeft(r: Regs): int {
    match r.state
    case FlushWait => 3 * (SETS - r.idx)
    case FlushTriage => 3 * (SETS - r.idx) - 1
    case FlushStore => 3 * (SETS - r.idx) - 2
    case _ => 0
  }

  /** The memory answers only while asked, and a load returns what it holds. */
  ghost predicate MemoryOk(r: Regs, mem: Memory, i: Input) {
    i.memRsp ==> r.memReq && (r.memOp == Load ==> i.loadData == mem(r.memAddr.0, r.memAddr.1))
  }

  /** A first-level cache that has to flush has done so. */
  predicate DoneFlushing(need: bool, asked: bool, done: bool) {
    (need && done) || !(need || asked)
  }

  /** Both have, and the second level may start. */
  predicate FlushFires(p: Ports, i: Input) {
    p.waitingForL1 && DoneFlushing(p.needD, i.flushD, i.flushDDone) && DoneFlushing(p.needI, i.flushI, i.flushIDone)
  }

  /** Latching the requests, and the flush request machine: a flush starts once every first-level
      cache that asked for one has finished its own. */
  function Latched(p: Ports, i: Input): Ports {
    var fires := FlushFires(p, i);
    p.(needD := (p.needD || i.flushD) && !(p.waitingForL1 && p.needD && i.flushDDone),
       needI := (p.needI || i.flushI) && !(p.waitingForL1 && p.needI && i.flushIDone),
       waitingForL1 := if p.waitingForL1 then !fires else p.needD || i.flushD || p.needI || i.flushI,
       flushReq := p.flushReq || fires, flushComplete := false,
       iPending := p.iPending || i.l1iReq, dPending := p.dPending || i.l1dReq, iRsp := false, dRsp := false)
  }

  /** A port asks now, or asked before and has not been served. */
  predicate Wants(p: Ports, port: Port, i: Input) {
    if port == Instruction then p.iPending || i.l1iReq else p.dPending || i.l1dReq
  }

  /** The request granted this cycle: the ports alternate when both ask. */
  function Arbitrate(p: Ports, r: Regs, i: Input): (g: Option<Request>) {
    var wantsI, wantsD := p.iPending || i.l1iReq, p.dPending || i.l1dReq;
    if r.state != Idle || p.flushReq || FlushFires(p, i) || !(wantsI || wantsD) then None
    else if wantsI && (!wantsD || r.lastWasData) then Some(Request(Instruction, i.l1iAddr, Load, 0))
    else Some(Request(Data, i.l1dAddr, i.l1dOp, i.storeData))
  }

  predicate Starts(r: Regs, r': Regs) {
    !Busy(r.state) && Busy(r'.state)
  }

  /** What is granted in a clock, `q`, is what its own port drives; the ports alternate when both
      ask; an idle cache leaves no request waiting; and a request stays latched until granted. */
  ghost predicate GrantsRight(p: Ports, r: Regs, i: Input, p': Ports, r': Regs, q: Request) {
    var granted, asked := Starts(r, r'), Wants(p, Instruction, i) || Wants(p, Data, i);
    && (granted ==> r.state == Idle && !p'.flushReq && Wants(p, q.port, i))
    && (granted && q.port == Instruction ==> q.addr == i.l1iAddr && q.op == Load)
    && (granted && q.port == Data ==> q.addr == i.l1dAddr && q.op == i.l1dOp && q.data == i.storeData)
    && (granted && Wants(p, Instruction, i) && Wants(p, Data, i) ==> (q.port == Instruction <==> r.lastWasData))
    && (r.state == Idle && !p'.flushReq && asked ==> granted)
    && r'.lastWasData == (if granted then q.port == Data else r.lastWasData)
    && p'.iPending == (Wants(p, Instruction, i) && !(granted && q.port == Instruction))
    && p'.dPending == (Wants(p, Data, i) && !(granted && q.port == Data))
  }

  /** A flush comes due once each first-level cache that has to flush has done so; it begins from
      the idle state and comes nearer its end in every clock not spent waiting for memory. */
  ghost predicate FlushesRight(p: Ports, r: Regs, i: Input, p': Ports, r': Regs) {
    var doneD := (p.needD && i.flushDDone) || !(p.needD || i.flushD);
    var doneI := (p.needI && i.flushIDone) || !(p.needI || i.flushI);
    var fires := p.waitingForL1 && doneD && doneI;
    && p'.flushReq == ((p.flushReq || fires) && !(Flushing(r.state) && p'.flushComplete))
    && p'.waitingForL1 == (if p.waitingForL1 then !fires else p.needD || p.needI || i.flushD || i.flushI)
    && p'.needD == ((p.needD || i.flushD) && !(p.waitingForL1 && p.needD && i.flushDDone))
    && p'.needI == ((p.needI || i.flushI) && !(p.waitingForL1 && p.needI && i.flushIDone))
    && (r.state == Idle && p'.flushReq ==> r'.state == FlushWait)
    && (Flushing(r.state) && (i.memRsp || !r.memReq) ==> FlushLeft(r') < FlushLeft(r))
    && (r.state == Initialize ==> if r.idx == SETS - 1 then r'.state == Idle && p'.flushComplete else r'.state == Initialize && r'.idx == r.idx + 1)
  }

  /** What one clock after the latches does to the ports and to the flush, given the grant. */
  ghost predicate Stepped(g: Option<Request>, p: Ports, r: Regs, i: Input, p': Ports, r': Regs, q: Request) {
    && (g.Some? ==> q == g.value && Busy(r'.state) && r'.lastWasData == (q.port == Data))
    && (g.None? ==> (Busy(r'.state) ==> Busy(r.state)) && r'.lastWasData == r.lastWasData)
    && SameLatches(p.(iPending := p.iPending && !(g.Some? && g.value.port == Instruction),
                      dPending := p.dPending && !(g.Some? && g.value.port == Data)), p')
    && p'.flushReq == (p.flushReq && !(Flushing(r.state) && p'.flushComplete))
    && (g.None? && r.state == Idle && p'.flushReq ==> r'.state == FlushWait)
    && (Flushing(r.state) && (i.memRsp || !r.memReq) ==> FlushLeft(r') < FlushLeft(r))
    && (r.state == Initialize ==> if r.idx == SETS - 1 then r'.state == Idle && p'.flushComplete else r'.state == Initialize && r'.idx == r.idx + 1)
  }

  lemma SteppedRight(p: Ports, r: Regs, i: Input, p': Ports, r': Regs, q: Request)
    requires Stepped(Arbitrate(p, r, i), Latched(p, i), r, i, p', r', q)
    ensures GrantsRight(p, r, i, p', r', q) && FlushesRight(p, r, i, p', r')
    ensures Starts(r, r') <==> Arbitrate(p, r, i).Some?
    ensures Arbitrate(p, r, i).Some? ==> q == Arbitrate(p, r, i).value
  {
    hide FlushLeft;
  }

  lemma ArbitrateFacts(p: Ports, r: Regs, i: Input)
    ensures var g := Arbitrate(p, r, i);
      g.Some? ==> r.state == Idle && (g.value.port == Instruction ==> g.value.op == Load) && (g.value.addr == i.l1iAddr || g.value.addr == i.l1dAddr)
  {
  }

  lemma LatchedClears(p: Ports, i: Input)
    ensures !Latched(p, i).iRsp && !Latched(p, i).dRsp && !Latched(p, i).flushComplete
  {
  }

  lemma ServeSteps(p: Ports, r: Regs, i: Input, p': Ports, r': Regs, q: Request)
    requires Busy(r.state) && SameLatches(p, p') && r'.lastWasData == r.lastWasData && p'.flushReq == p.flushReq
    ensures Stepped(None, p, r, i, p', r', q)
  {
    hide FlushLeft; hide Remaining;
  }

  lemma MaintainSteps(p: Ports, r: Regs, i: Input, p': Ports, r': Regs, q: Request)
    requires !Busy(r.state) && !Busy(r'.state) && SameLatches(p, p') && r'.lastWasData == r.lastWasData
    requires p'.flushReq == (p.flushReq && !(Flushing(r.state) && p'.flushComplete)) && (r.state == Idle && p'.flushReq ==> r'.state == FlushWait)
    requires Flushing(r.state) && (i.memRsp || !r.memReq) ==> FlushLeft(r') < FlushLeft(r)
    requires r.state == Initialize ==> if r.idx == SETS - 1 then r'.state == Idle && p'.flushComplete else r'.state == Initialize && r'.idx == r.idx + 1
    ensures Stepped(None, p, r, i, p', r', q)
  {
  }

  lemma GrantSteps(p: Ports, r: Regs, i: Input, p': Ports, r': Regs, q: Request)
    requires r.state == Idle && Busy(r'.state) && r'.lastWasData == (q.port == Data)
    requires p' == p.(dRsp := q.op == Store, iPending := p.iPending && q.port == Data, dPending := p.dPending && q.port == Instruction)
    ensures Stepped(Some(q), p, r, i, p', r', q)
  {
  }

  predicate SameLatches(p: Ports, p': Ports) {
    p' == p.(iRsp := p'.iRsp, dRsp := p'.dRsp, flushReq := p'.flushReq, flushComplete := p'.flushComplete)
  }

  /** The registers after request `q` has been granted. */
  function Granted(r: Regs, q: Request): Regs {
    var line := (q.addr.tag, q.addr.idx);
    r.(state := CheckValidAndTag, idx := q.addr.idx, tag := q.addr.tag, bank := q.addr.bank, op := q.op,
       storeData := if q.port == Data then q.data else r.storeData,
       memAddr := line, saveAddr := line, lastWasData := q.port == Data)
  }

  lemma GrantOk(m: Rams, r: Regs, mem: Memory, q: Request)
    requires Inv(m, r, mem) && r.state == Idle && InRange(q.addr) && (q.port == Instruction ==> q.op == Load)
    ensures var m', r' := Read(m, q.addr.idx), Granted(r, q);
      && Inv(m', r', mem)
      && forall a: Addr :: InRange(a) ==>
        Flat(m', r', mem, a) == if q.op == Store && q.addr == a then q.data else Flat(m, r, mem, a)
  {
    hide Clocked;
  }

  /** Clearing a set's flags while its line is read out loses nothing: the line lives on in
      the output registers. */
  lemma FlushReadOk(m: Rams, r: Regs, mem: Memory, line: Line)
    requires Inv(m, r, mem) && r.state == FlushWait
    ensures var m' := Clocked(m, r.idx, Writes(line, [false, false, false, false], None, Some(false), Some(false)));
      && m'.lines == m.lines && m'.tags == m.tags
      && Inv(m', r.(state := FlushTriage), mem)
      && SameMemory(m, r, mem, m', r.(state := FlushTriage), mem)
  {
    assert Merge(m.lines[r.idx], line, [false, false, false, false]) == m.lines[r.idx];
    assert m.lines[r.idx := m.lines[r.idx]] == m.lines && m.tags[r.idx := m.tags[r.idx]] == m.tags;
  }

  // ---------------------------------------------------------------- the clocked block

  class L2 {
    var ram: Rams
    var r: Regs
    var p: Ports
    var rspData: nat
    // the memory behind the cache, the request being served, and how often it has missed
    ghost var mem: Memory
    ghost var serving: Request
    ghost var misses: nat

    ghost predicate ServingOk()
      reads this
    {
      Busy(r.state) ==>
        && serving.addr == Addr(r.tag, r.idx, r.bank)
        && serving.op == r.op && (r.op == Store ==> serving.data == r.storeData)
        && (serving.port == Data <==> r.lastWasData)
        && misses == if r.reload || r.state == DirtyStore || r.state == StoreTurnaround then 1 else 0
    }

    ghost predicate Valid()
      reads this
    {
      Inv(ram, r, mem) && ServingOk()
    }

    ghost function At(a: Addr): nat
      reads this
      requires Sized(ram) && InRange(a)
    {
      Flat(ram, r, mem, a)
    }

    /** Out of reset the RAM contents are arbitrary and nothing is presented from them. */
    constructor (contents: Rams, ghost memory: Memory)
      requires Sized(contents)
      ensures Valid() && r.state == Initialize && r.idx == 0 && mem == memory
    {
      ram := contents;
      r := Regs(Initialize, 0, 0, 0, Load, 0, (0, 0), (0, 0), false, Load, [0, 0, 0, 0], false, false);
      p := Ports(false, false, false, false, false, false, false, false, false);
      rspData := 0;
      mem, misses := memory, 0;
      serving := Request(Data, Addr(0, 0, 0), Load, 0);
    }

    /** The cache presents the same memory as before the method. */
    twostate predicate Unchanged()
      reads this
      requires old(Sized(ram)) && Sized(ram)
    {
      SameMemory(old(ram), old(r), old(mem), ram, r, mem)
    }

    /** The latched requests and whose turn it is are as before the method. */
    twostate predicate SameRequests()
      reads this
    {
      r.lastWasData == old(r.lastWasData) && SameLatches(old(p), p)
    }

    method InitializeStep(i: Input)
      requires Valid() && r.state == Initialize
      modifies `ram, `r, `p
      ensures Valid() && Unchanged() && SameRequests() && !Busy(r.state)
      ensures p.flushComplete ==> r.state == Idle && Cleared(ram, 0, SETS)
      ensures if old(r.idx) == SETS - 1 then r.state == Idle && p.flushComplete else r.state == Initialize && r.idx == old(r.idx) + 1
      ensures p.iRsp == old(p.iRsp) && p.dRsp == old(p.dRsp) && p.flushReq == old(p.flushReq)
    {
      var last := r.idx == SETS - 1;
      var t := if last then 0 else r.idx + 1;
      ram := Clocked(ram, t, Writes(i.loadData, [true, true, true, true], Some(r.tag), Some(false), Some(false)));
      r := r.(idx := t, state := if last then Idle else Initialize);
      p := p.(flushComplete := last);
    }

    /** The tag comparison. */
    function Hit(): bool
      reads this
    {
      ram.outValid && r.tag == ram.outTag
    }

    method HitLoadStep()
      requires Valid() && r.state == CheckValidAndTag && Hit() && r.op == Load
      modifies `ram, `r, `rspData, `p
      ensures Valid() && Unchanged() && SameRequests() && !Busy(r.state)
      ensures rspData == old(At(serving.addr))
      ensures p == old(p).(iRsp := old(p.iRsp) || serving.port == Instruction, dRsp := old(p.dRsp) || serving.port == Data)
    {
      rspData := ram.outLine[r.bank];
      p := if r.lastWasData then p.(dRsp := true) else p.(iRsp := true);
      ram := Read(ram, r.idx);
      r := r.(reload := false, state := Idle);
    }

    method HitStoreStep()
      requires Valid() && r.state == CheckValidAndTag && Hit() && r.op == Store
      modifies `ram, `r
      ensures Valid() && Unchanged() && SameRequests() && !Busy(r.state)
    {
      var line := [r.storeData, r.storeData, r.storeData, r.storeData];
      var bank := [r.bank == 0, r.bank == 1, r.bank == 2, r.bank == 3];
      ram := Clocked(ram, r.idx, Writes(line, bank, None, None, Some(true)));
      r := r.(reload := false, state := WaitStoreIdle);
    }

    method MissStep()
      requires Valid() && r.state == CheckValidAndTag && !Hit()
      modifies `ram, `r, `misses
      ensures Valid() && Unchanged() && SameRequests() && Busy(r.state) && Remaining(r) < old(Remaining(r))
      ensures old(misses) == 0 && misses == 1
    {
      if ram.outDirty {
        r := r.(memStore := ram.outLine, memAddr := (ram.outTag, r.idx), memOp := Store, memReq := true, state := DirtyStore);
      } else {
        r := r.(reload := true, memOp := Load, memReq := true, state := CleanReload);
      }
      misses := misses + 1;
      ram := Read(ram, r.idx);
    }

    method DirtyStoreStep(i: Input)
      requires Valid() && MemoryOk(r, mem, i) && r.state == DirtyStore
      modifies `ram, `r, `mem
      ensures Valid() && Unchanged() && SameRequests() && Busy(r.state)
      ensures Remaining(r) == old(Remaining(r)) - if i.memRsp then 1 else 0
    {
      if i.memRsp {
        mem := Written(mem, r.memAddr, r.memStore);
        r := r.(memAddr := r.saveAddr, memOp := Load, memReq := false, state := StoreTurnaround);
      }
      ram := Read(ram, r.idx);
    }

    method TurnaroundStep()
      requires Valid() && r.state == StoreTurnaround
      modifies `ram, `r
      ensures Valid() && Unchanged() && SameRequests() && Busy(r.state) && Remaining(r) < old(Remaining(r))
    {
      r := r.(state := CleanReload, reload := true, memReq := true);
      ram := Read(ram, r.idx);
    }

    method CleanReloadStep(i: Input)
      requires Valid() && MemoryOk(r, mem, i) && r.state == CleanReload
      modifies `ram, `r
      ensures Valid() && Unchanged() && SameRequests() && Busy(r.state)
      ensures Remaining(r) == old(Remaining(r)) - if i.memRsp then 1 else 0
    {
      if i.memRsp {
        ram := Clocked(ram, r.idx, Writes(i.loadData, [true, true, true, true], Some(r.tag), Some(true), None));
        r := r.(memReq := false, state := WaitCleanReload);
      } else {
        ram := Read(ram, r.idx);
      }
    }

    method WaitStep()
      requires Valid() && (r.state == WaitCleanReload || r.state == WaitStoreIdle)
      modifies `ram, `r
      ensures Valid() && Unchanged() && SameRequests() && Busy(r.state) == old(Busy(r.state))
      ensures Busy(r.state) ==> Remaining(r) < old(Remaining(r))
    {
      ram := Read(ram, r.idx);
      r := r.(state := if r.state == WaitCleanReload then CheckValidAndTag else Idle);
    }

    method FlushWaitStep(i: Input)
      requires Valid() && r.state == FlushWait
      modifies `ram, `r
      ensures Valid() && Unchanged() && SameRequests() && !Busy(r.state) && FlushLeft(r) < old(FlushLeft(r))
    {
      hide Flat; hide StateOk; hide LinesOk; hide Clocked; hide SameMemory;
      FlushReadOk(ram, r, mem, i.loadData);
      ram := Clocked(ram, r.idx, Writes(i.loadData, [false, false, false, false], None, Some(false), Some(false)));
      r := r.(state := FlushTriage);
    }

    /** Move on to the next set, or finish the flush after the last one. */
    method NextSet()
      requires Sized(ram) && r.idx < SETS && r.bank < 4 && LinesOk(ram, mem)
      requires Cleared(ram, 0, r.idx + 1) && !r.reload && !r.memReq && r.state != Initialize
      modifies `ram, `r, `p
      ensures Valid() && !Busy(r.state)
      ensures r.state == FlushWait || (r.state == Idle && Cleared(ram, 0, SETS))
      ensures SameRequests() && FlushLeft(r) <= 3 * (SETS - old(r.idx)) - 3 && p.flushReq == (old(p.flushReq) && r.state != Idle)
      ensures p.flushComplete == (r.state == Idle) && p.iRsp == old(p.iRsp) && p.dRsp == old(p.dRsp)
      ensures ram.lines == old(ram.lines) && ram.tags == old(ram.tags)
      ensures ram.valids == old(ram.valids) && ram.dirties == old(ram.dirties)
    {
      var last := r.idx == SETS - 1;
      var t := if last then 0 else r.idx + 1;
      ram := Read(ram, t);
      r := r.(idx := t, state := if last then Idle else FlushWait);
      p := p.(flushComplete := last, flushReq := p.flushReq && !last);
    }

    method FlushTriageStep()
      requires Valid() && r.state == FlushTriage && !p.flushComplete
      modifies `ram, `r, `p
      ensures Valid() && Unchanged() && SameRequests() && !Busy(r.state)
      ensures p.flushComplete ==> r.state == Idle && Cleared(ram, 0, SETS)
      ensures r.state == FlushStore <==> old(ram.outValid && ram.outDirty)
      ensures FlushLeft(r) < old(FlushLeft(r)) && p.flushReq == (old(p.flushReq) && !p.flushComplete)
      ensures p.iRsp == old(p.iRsp) && p.dRsp == old(p.dRsp)
    {
      if ram.outValid && ram.outDirty {
        r := r.(memStore := ram.outLine, memAddr := (ram.outTag, r.idx), memOp := Store, memReq := true, state := FlushStore);
        ram := Read(ram, r.idx);
      } else {
        NextSet();
      }
    }

    method FlushStoreStep(i: Input)
      requires Valid() && MemoryOk(r, mem, i) && r.state == FlushStore && !p.flushComplete
      modifies `ram, `r, `p, `mem
      ensures Valid() && Unchanged() && SameRequests() && !Busy(r.state)
      ensures p.flushComplete ==> r.state == Idle && Cleared(ram, 0, SETS)
      ensures (i.memRsp ==> FlushLeft(r) < old(FlushLeft(r))) && p.flushReq == (old(p.flushReq) && !p.flushComplete)
      ensures p.iRsp == old(p.iRsp) && p.dRsp == old(p.dRsp)
    {
      if i.memRsp {
        mem := Written(mem, r.memAddr, r.memStore);
        r := r.(memReq := false);
        NextSet();
      } else {
        ram := Read(ram, r.idx);
      }
    }

    method IdleStep()
      requires Valid() && r.state == Idle
      modifies `ram, `r
      ensures Valid() && Unchanged() && SameRequests() && !Busy(r.state)
      ensures r.state == if p.flushReq then FlushWait else Idle
    {
      ram := Read(ram, 0);
      r := r.(idx := 0, op := Load, state := if p.flushReq then FlushWait else Idle);
    }

    /** Start serving `q`.  A store is acknowledged here, before it has reached any RAM. */
    method GrantStep(q: Request)
      requires Valid() && r.state == Idle && InRange(q.addr) && (q.port == Instruction ==> q.op == Load)
      modifies `ram, `r, `p, `serving, `misses
      ensures Valid() && Busy(r.state) && Remaining(r) == 6 && serving == q && misses == 0 && r.lastWasData == (q.port == Data)
      ensures Applied(old(ram), old(r), old(mem), ram, r, mem, Some(q))
      ensures p == old(p).(dRsp := q.op == Store, iPending := old(p.iPending) && q.port == Data,
                           dPending := old(p.dPending) && q.port == Instruction)
    {
      GrantOk(ram, r, mem, q);
      hide Flat; hide Inv; hide Read;
      ram := Read(ram, q.addr.idx);
      r := Granted(r, q);
      p := p.(dPending := p.dPending && q.port != Data, iPending := p.iPending && q.port == Data,
              dRsp := q.op == Store && q.port == Data);
      serving, misses := q, 0;
    }

    /** One clock while a request is in service. */
    method ServeStep(i: Input)
      requires Valid() && MemoryOk(r, mem, i) && Busy(r.state) && !p.iRsp && !p.dRsp
      modifies `ram, `r, `rspData, `p, `misses, `mem
      ensures Valid() && Unchanged() && SameRequests()
      ensures p.flushComplete == old(p.flushComplete) && p.flushReq == old(p.flushReq)
      ensures p.iRsp == (serving.op == Load && serving.port == Instruction && !Busy(r.state))
      ensures p.dRsp == (serving.op == Load && serving.port == Data && !Busy(r.state))
      ensures serving.op == Load && !Busy(r.state) ==> rspData == old(At(serving.addr))
      ensures Busy(r.state) ==> misses <= 1
      ensures (i.memRsp || !old(r.memReq)) && Busy(r.state) ==> Remaining(r) < old(Remaining(r))
    {
      hide Flat; hide StateOk; hide LinesOk; hide Clocked; hide Read; hide SameMemory; hide Cleared;
      match r.state {
        case CheckValidAndTag =>
          if !Hit() { MissStep(); }
          else if r.op == Load { HitLoadStep(); }
          else { HitStoreStep(); }
        case DirtyStore => DirtyStoreStep(i);
        case StoreTurnaround => TurnaroundStep();
        case CleanReload => CleanReloadStep(i);
        case WaitCleanReload => WaitStep();
      }
    }

    /** One clock of reset, flush, or idling. */
    method MaintainStep(i: Input)
      requires Valid() && MemoryOk(r, mem, i) && !Busy(r.state) && !p.flushComplete
      modifies `ram, `r, `p, `mem
      ensures Valid() && Unchanged() && SameRequests() && !Busy(r.state)
      ensures p.flushComplete ==> r.state == Idle && Cleared(ram, 0, SETS)
      ensures old(r.state) == Initialize ==>
        if old(r.idx) == SETS - 1 then r.state == Idle && p.flushComplete else r.state == Initialize && r.idx == old(r.idx) + 1
      ensures old(r.state) == Idle && p.flushReq ==> r.state == FlushWait
      ensures old(Flushing(r.state)) && (i.memRsp || !old(r.memReq)) ==> FlushLeft(r) < old(FlushLeft(r))
      ensures p.flushReq == (old(p.flushReq) && !(old(Flushing(r.state)) && p.flushComplete))
      ensures p.iRsp == old(p.iRsp) && p.dRsp == old(p.dRsp)
    {
      hide Flat; hide StateOk; hide LinesOk; hide Clocked; hide Read; hide SameMemory; hide Cleared;
      match r.state {
        case Initialize => InitializeStep(i);
        case Idle => IdleStep();
        case WaitStoreIdle => WaitStep();
        case FlushWait => FlushWaitStep(i);
        case FlushTriage => FlushTriageStep();
        case FlushStore => FlushStoreStep(i);
      }
    }

    /** One clock after the latches without a grant. */
    method Proceed(i: Input)
      requires Valid() && MemoryOk(r, mem, i) && !p.iRsp && !p.dRsp && !p.flushComplete
      modifies `ram, `r, `rspData, `p, `misses, `mem
      ensures Valid() && Unchanged() && Stepped(None, old(p), old(r), i, p, r, serving)
      ensures p.iRsp <==> old(Busy(r.state)) && !Busy(r.state) && serving.op == Load && serving.port == Instruction
      ensures p.dRsp <==> old(Busy(r.state)) && !Busy(r.state) && serving.op == Load && serving.port == Data
      ensures old(Busy(r.state)) && !Busy(r.state) && serving.op == Load ==> rspData == old(At(serving.addr))
      ensures misses <= 1 || !Busy(r.state)
      ensures old(Busy(r.state)) && (i.memRsp || !old(r.memReq)) && Busy(r.state) ==> Remaining(r) < old(Remaining(r))
      ensures p.flushComplete ==> r.state == Idle && Cleared(ram, 0, SETS)
    {
      hide Flat; hide StateOk; hide LinesOk; hide Clocked; hide Read; hide PendingStore; hide Cleared;
      hide MemoryOk; hide InRange; hide Remaining; hide FlushLeft; hide SameMemory; hide SameLatches; hide Stepped;
      ghost var p0, r0 := p, r;
      if Busy(r.state) {
        ServeStep(i);
        ServeSteps(p0, r0, i, p, r, serving);
      } else {
        MaintainStep(i);
        MaintainSteps(p0, r0, i, p, r, serving);
      }
    }

    /** One clock of the whole block.  A grant shows as the start of service. */
    method Clock(i: Input)
      requires Valid() && MemoryOk(r, mem, i) && InRange(i.l1dAddr) && InRange(i.l1iAddr)
      modifies this
      ensures Valid()
      // what is granted, and when a flush comes due
      ensures GrantsRight(old(p), old(r), i, p, r, serving) && FlushesRight(old(p), old(r), i, p, r)
      ensures if Starts(old(r), r) then misses == 0 else serving == old(serving)
      // the memory presented changes only by the granted store
      ensures forall a: Addr :: InRange(a) ==>
        At(a) == if Starts(old(r), r) && serving.op == Store && serving.addr == a then serving.data else old(At(a))
      // a store is acknowledged as it is granted; a load is answered exactly when it leaves service, from that memory
      ensures p.iRsp <==> old(Busy(r.state) && serving.op == Load && serving.port == Instruction) && !Busy(r.state)
      ensures p.dRsp == ((Starts(old(r), r) && serving.op == Store)
                       || (old(Busy(r.state) && serving.op == Load && serving.port == Data) && !Busy(r.state)))
      ensures old(Busy(r.state) && serving.op == Load) && !Busy(r.state) ==> rspData == old(At(serving.addr))
      // at most one miss per request, and no waiting except for memory
      ensures misses <= 1 || !Busy(r.state)
      ensures old(Busy(r.state)) && (i.memRsp || !old(r.memReq)) && Busy(r.state) ==> Remaining(r) < old(Remaining(r))
      // a completed flush leaves everything in memory
      ensures p.flushComplete ==> r.state == Idle && Cleared(ram, 0, SETS)
      ensures p.flushComplete ==> forall a: Addr :: InRange(a) ==> mem(a.tag, a.idx)[a.bank] == At(a)
    {
      hide Flat; hide StateOk; hide LinesOk; hide Clocked; hide Read; hide PendingStore; hide Cleared; hide Stepped;
      hide MemoryOk; hide Remaining; hide FlushLeft; hide SameMemory; hide GrantsRight; hide FlushesRight; hide SameLatches;
      hide FlushFires; hide DoneFlushing; hide Arbitrate; hide Latched;
      ArbitrateFacts(p, r, i);
      LatchedClears(p, i);
      var g := Arbitrate(p, r, i);
      ghost var p0, r0 := p, r;
      p := Latched(p, i);
      if g.Some? {
        GrantStep(g.value);
        GrantSteps(Latched(p0, i), r0, i, p, r, serving);
      } else {
        Proceed(i);
        NothingApplied(old(ram), old(r), old(mem), ram, r, mem);
      }
      SteppedRight(p0, r0, i, p, r, serving);
      if p.flushComplete { AllInMemory(ram, r, mem); }
    }
  }
}
