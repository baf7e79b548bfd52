/** The first-level data cache of l1d.sv outside flushes: registers, inputs and one clock.

    Port 2 looks new requests up; what it cannot answer waits in the retry queue for port 1.
    `id` numbers the requests in the order they are accepted; it is not a register. */
module L1dMachine {

  const SETS: nat := 4096
  const ROB: nat := 32
  const LINE: nat := 16

  type Line = s: seq<nat> | |s| == 16 witness seq(16, _ => 0)

  /** A byte address; a line is named by tag and set. */
  datatype Addr = Addr(tag: nat, set_: nat, off: nat)

  datatype Req = Req(id: nat, isStore: bool, nop: bool, addr: Addr, size: nat, unaligned: bool, rob: nat, data: seq<nat>)

  datatype Option<T> = None | Some(value: T)

  /** The answer to a request, with the loaded bytes if it is a load that was looked up. */
  datatype Answer = Answer(id: nat, rob: nat, bytes: Option<seq<nat>>)

  datatype StoreData = StoreData(rob: nat, data: seq<nat>)

  datatype State = Active | InjectReload | WaitInjectReload | HandleReload

  /** Requests carry the alignment flag computed with the address. */
  predicate ReqOk(q: Req) {
    && q.addr.set_ < SETS && q.addr.off < LINE && q.rob < ROB
    && (q.size == 1 || q.size == 2 || q.size == 4) && (!q.unaligned ==> q.addr.off % q.size == 0)
  }

  predicate SameSet(u: Req, v: Req) {
    u.addr.set_ == v.addr.set_
  }

  predicate SameLine(u: Req, v: Req) {
    u.addr.set_ == v.addr.set_ && u.addr.tag == v.addr.tag
  }

  predicate SameWord(u: Req, v: Req) {
    SameLine(u, v) && u.addr.off / 4 == v.addr.off / 4
  }

  /** The bytes of a line an access touches; what would lie beyond the line is cut off. */
  function Last(q: Req): (n: nat)
    requires q.addr.off < LINE
    ensures n <= LINE
  {
    if q.addr.off + q.size <= LINE then q.addr.off + q.size else LINE
  }

  function Extract(l: Line, q: Req): seq<nat>
    requires q.addr.off < LINE
  {
    l[q.addr.off..if Last(q) < q.addr.off then q.addr.off else Last(q)]
  }

  /** The line with the bytes of store `q` replaced. */
  function Merge(l: Line, q: Req): (r: Line)
    requires q.addr.off < LINE
  {
    seq(16, k requires 0 <= k < 16 =>
      if q.addr.off <= k < Last(q) && k - q.addr.off < |q.data| then q.data[k - q.addr.off] else l[k])
  }

  // ---------------------------------------------------------------- registers

  datatype Rams = Rams(valid: seq<bool>, dirty: seq<bool>, tags: seq<nat>, lines: seq<Line>)

  /** What a read port latched from one set. */
  datatype Looked = Looked(valid: bool, dirty: bool, tag: nat, line: Line)

  /** Port 1: the request being retried, or executed again after a reload. */
  datatype Port1 = Port1(got: bool, req: Req, isRetry: bool, didReload: bool, busy: bool, out: Looked)

  /** Port 2: the request accepted last clock and how it compared with the queue. */
  datatype Port2 = Port2(got: bool, req: Req, busy: bool, wordBusy: bool, anyUnaligned: bool, forward: bool, out: Looked)

  /** The miss machine.  `prevWrite` and `prevSet` are last clock's port-1 store. */
  datatype Ctl = Ctl(state: State, lock: bool, inhibit: bool, ackEarly: bool, memStore: bool, memTag: nat, memSet: nat,
                     storeData: Line, prevWrite: bool, prevSet: nat)

  /** Per reorder-buffer entry: 0 no store, 1 store waiting to retire, 2 store retired. */
  datatype Regs = Regs(ctl: Ctl, p1: Port1, p2: Port2, queue: seq<Req>, ram: Rams, wrData: Line,
                       graduated: seq<nat>, robInflight: seq<bool>, nInflight: nat, memqEmpty: bool)

  /** One clock's inputs: a request, the head of the store-data queue, the answer of the next
      level, the drain signal with the dead entries, and up to two retirements. */
  datatype Input = Input(req: Option<Req>, data: Option<StoreData>, memRsp: bool, memLine: Line,
                         drain: bool, dead: seq<bool>, retire: set<nat>)

  ghost predicate SizedRams(m: Rams) {
    |m.valid| == |m.dirty| == |m.tags| == |m.lines| == SETS
  }

  ghost predicate Sized(s: Regs) {
    && SizedRams(s.ram) && |s.graduated| == |s.robInflight| == ROB && |s.queue| <= 8
    && ReqOk(s.p1.req) && ReqOk(s.p2.req) && (forall k :: 0 <= k < |s.queue| ==> ReqOk(s.queue[k]))
    && s.ctl.memSet < SETS
  }

  /** Store data is a word of four bytes. */
  ghost predicate SizedInput(i: Input) {
    && |i.dead| == ROB && (i.req.Some? ==> ReqOk(i.req.value)) && (forall r :: r in i.retire ==> r < ROB)
    && (i.data.Some? ==> |i.data.value.data| == 4)
  }

  function Look(m: Rams, k: nat): Looked
    requires SizedRams(m) && k < SETS
  {
    Looked(m.valid[k], m.dirty[k], m.tags[k], m.lines[k])
  }

  // ---------------------------------------------------------------- port 1

  predicate Hit1(s: Regs) {
    s.p1.got && s.p1.out.valid && s.p1.out.tag == s.p1.req.addr.tag
  }

  predicate Miss1(s: Regs) {
    s.p1.got && !Hit1(s)
  }

  /** A miss on a dirty line: it must be written back first. */
  predicate Evicts(s: Regs) {
    Miss1(s) && s.p1.out.valid && s.p1.out.dirty
  }

  /** The tests that let a miss go ahead. */
  predicate Proceeds(s: Regs) {
    (s.p1.busy && s.p1.isRetry) || !s.p1.busy || (!Evicts(s) && s.ctl.lock)
  }

  /** A write still on its way into the same set. */
  predicate MustWait(s: Regs) {
    s.ctl.prevSet == s.p1.req.addr.set_ && s.ctl.prevWrite
  }

  predicate Writes(s: Regs) {
    s.ctl.state == Active && Hit1(s) && s.p1.req.isStore && (s.p1.isRetry || s.p1.didReload)
  }

  predicate HeadBlocked(s: Regs)
    requires s.queue != []
  {
    s.p1.got && s.p1.req.isStore && SameSet(s.p1.req, s.queue[0])
  }

  predicate MayPop(s: Regs) {
    s.ctl.state == Active && s.queue != [] && !Miss1(s) && !s.ctl.lock && !HeadBlocked(s)
  }

  predicate PopsLoad(s: Regs) {
    MayPop(s) && !s.queue[0].isStore
  }

  /** A store leaves the queue for the cache once it has retired and its data is there. */
  predicate PopsStore(s: Regs, i: Input)
    requires Sized(s)
  {
    MayPop(s) && ReqOk(s.queue[0]) && s.queue[0].isStore && s.graduated[s.queue[0].rob] == 2 && i.data.Some? && i.data.value.rob == s.queue[0].rob
  }

  /** During a drain a dead store at the head is discarded. */
  predicate Drops(s: Regs, i: Input)
    requires Sized(s) && SizedInput(i)
  {
    MayPop(s) && s.queue[0].isStore && !PopsStore(s, i) && i.drain && i.dead[s.queue[0].rob]
  }

  predicate Pops(s: Regs, i: Input)
    requires Sized(s) && SizedInput(i)
  {
    PopsLoad(s) || PopsStore(s, i) || Drops(s, i)
  }

  // ---------------------------------------------------------------- port 2

  predicate Hit2(s: Regs) {
    s.p2.out.valid && s.p2.out.tag == s.p2.req.addr.tag
  }

  /** A looked-up load is answered at once if the line is present and no queued request can
      matter: none in its set, or, for a word load, none in its word and nothing unaligned. */
  predicate AnswersLoad2(s: Regs) {
    Hit2(s) && (!s.p2.busy || (s.p2.req.size == 4 && !s.p2.wordBusy && !s.p2.anyUnaligned))
  }

  predicate Ignored2(s: Regs, i: Input) {
    i.drain || s.p2.req.nop
  }

  predicate Pushes(s: Regs, i: Input) {
    s.ctl.state == Active && s.p2.got && !Ignored2(s, i) && (s.p2.req.isStore || !AnswersLoad2(s))
  }

  predicate Accepts(s: Regs, i: Input)
    requires Sized(s) && SizedInput(i)
  {
    && s.ctl.state == Active && i.req.Some? && !Miss1(s) && |s.queue| < 7 && !PopsLoad(s)
    && !(s.p2.got && s.p2.req.isStore && SameSet(s.p2.req, i.req.value) && !i.req.value.isStore)
    && !(Forwards(s, i.req.value) && !(s.p1.didReload || s.p1.isRetry))
    && !s.robInflight[i.req.value.rob]
  }

  predicate Forwards(s: Regs, q: Req) {
    s.p1.got && s.p1.req.isStore && SameLine(s.p1.req, q)
  }

  predicate BusySet(queue: seq<Req>, q: Req) {
    exists k :: 0 <= k < |queue| && !(!q.isStore && !queue[k].isStore) && SameSet(queue[k], q)
  }

  predicate AnySameSet(queue: seq<Req>, q: Req) {
    exists k :: 0 <= k < |queue| && SameSet(queue[k], q)
  }

  predicate BusyWord(queue: seq<Req>, q: Req) {
    exists k :: 0 <= k < |queue| && SameWord(queue[k], q)
  }

  predicate AnyUnaligned(queue: seq<Req>, q: Req) {
    q.unaligned || exists k :: 0 <= k < |queue| && queue[k].unaligned
  }

  // ---------------------------------------------------------------- answers

  function Line2(s: Regs): Line {
    if s.p2.forward then s.wrData else s.p2.out.line
  }

  /** Port 2's answer of this clock. */
  function Answer2(s: Regs, i: Input): Option<Answer>
    requires s.p2.req.addr.off < LINE
  {
    if s.ctl.state != Active || !s.p2.got then None
    else if Ignored2(s, i) || s.p2.req.isStore then Some(Answer(s.p2.req.id, s.p2.req.rob, None))
    else if AnswersLoad2(s) then Some(Answer(s.p2.req.id, s.p2.req.rob, Some(Extract(Line2(s), s.p2.req))))
    else None
  }

  /** A reload answers its load as the line arrives, unless a write-back came first. */
  predicate AcksEarly(s: Regs, i: Input) {
    s.ctl.state == InjectReload && i.memRsp && !(s.p1.req.isStore || s.ctl.lock)
  }

  /** Port 1's answer: a load that hits, or an early one. */
  function Answer1(s: Regs, i: Input): Option<Answer>
    requires s.p1.req.addr.off < LINE
  {
    if s.ctl.state == Active && Hit1(s) && !s.p1.req.isStore then
      Some(Answer(s.p1.req.id, s.p1.req.rob, Some(Extract(s.p1.out.line, s.p1.req))))
    else if AcksEarly(s, i) then Some(Answer(s.p1.req.id, s.p1.req.rob, Some(Extract(i.memLine, s.p1.req))))
    else None
  }

  /** The one answer wire: port 1 takes it when both speak. */
  function AnswerOf(s: Regs, i: Input): Option<Answer>
    requires s.p1.req.addr.off < LINE && s.p2.req.addr.off < LINE
  {
    if Answer1(s, i).Some? then Answer1(s, i) else Answer2(s, i)
  }

  // ---------------------------------------------------------------- next registers

  function NextQueue(s: Regs, i: Input): (q: seq<Req>)
    requires Sized(s) && SizedInput(i)
  {
    (if Pops(s, i) then s.queue[1..] else s.queue) + (if Pushes(s, i) then [s.p2.req] else [])
  }

  /** Port 1 loads from the queue head, or again after a reload. */
  function NextPort1(s: Regs, i: Input): Port1
    requires Sized(s) && SizedInput(i)
  {
    if PopsLoad(s) || PopsStore(s, i) then
      var q := if PopsLoad(s) then s.queue[0] else s.queue[0].(data := i.data.value.data);
      Port1(true, q, true, false, AnySameSet(s.queue[1..], q), Look(s.ram, q.addr.set_))
    else if s.ctl.state == HandleReload then
      Port1(s.p1.req.isStore || !s.ctl.ackEarly, s.p1.req, false, true, AnySameSet(s.queue, s.p1.req), Look(s.ram, s.p1.req.addr.set_))
    else
      s.p1.(got := false, isRetry := false, didReload := false)
  }

  /** A request accepted as number `id`. */
  function NextPort2(s: Regs, i: Input, id: nat): Port2
    requires Sized(s) && SizedInput(i)
  {
    if Accepts(s, i) then
      var q := i.req.value.(id := id);
      Port2(true, q, BusySet(s.queue, q), BusyWord(s.queue, q), AnyUnaligned(s.queue, q), Forwards(s, q), Look(s.ram, q.addr.set_))
    else
      s.p2.(got := false)
  }

  function NextRams(s: Regs, i: Input): (m: Rams)
    requires Sized(s)
    ensures SizedRams(m)
  {
    var m := s.ram;
    if s.ctl.state == InjectReload && i.memRsp then
      var k := s.ctl.memSet;
      Rams(m.valid[k := !s.ctl.inhibit], m.dirty[k := false], m.tags[k := s.ctl.memTag], m.lines[k := i.memLine])
    else if Writes(s) then
      var k := s.p1.req.addr.set_;
      m.(lines := m.lines[k := Merge(m.lines[k], s.p1.req)], dirty := m.dirty[k := true])
    else m
  }

  function NextCtl(s: Regs, i: Input): Ctl {
    var c := s.ctl.(ackEarly := AcksEarly(s, i), prevWrite := s.p1.got && s.p1.req.isStore, prevSet := s.p1.req.addr.set_);
    match s.ctl.state
    case Active =>
      if Evicts(s) then
        if Proceeds(s) then
          c.(memTag := s.p1.out.tag, memSet := s.p1.req.addr.set_, memStore := true, storeData := s.p1.out.line,
             lock := true, inhibit := true, state := if MustWait(s) then WaitInjectReload else InjectReload)
        else c.(inhibit := true)
      else if Miss1(s) then
        if !Proceeds(s) then c.(inhibit := false)
        else if MustWait(s) then
          c.(memTag := s.p1.out.tag, memSet := s.p1.req.addr.set_, memStore := true, lock := true, inhibit := false,
             state := WaitInjectReload)
        else
          c.(memTag := s.p1.req.addr.tag, memSet := s.p1.req.addr.set_, memStore := false, lock := false, inhibit := false,
             state := InjectReload)
      else c
    case WaitInjectReload => c.(state := InjectReload, storeData := s.p1.out.line)
    case InjectReload => if i.memRsp then c.(state := HandleReload, inhibit := false) else c
    case HandleReload => c.(state := Active)
  }

  /** Retirement, then a store entering the queue, a store written, a store dropped. */
  function NextGraduated(s: Regs, i: Input, r: nat): nat
    requires Sized(s) && SizedInput(i) && r < ROB
  {
    if Drops(s, i) && s.queue[0].rob == r then 0
    else if s.ctl.state == Active && Hit1(s) && s.p1.req.isStore && s.p1.req.rob == r then 0
    else if Pushes(s, i) && s.p2.req.isStore && s.p2.req.rob == r then 1
    else if r in i.retire && s.graduated[r] == 1 then 2
    else s.graduated[r]
  }

  function NextRobInflight(s: Regs, i: Input, r: nat): bool
    requires Sized(s) && SizedInput(i) && r < ROB
  {
    if Drops(s, i) && s.queue[0].rob == r then false
    else if (Hit1(s) || AcksEarly(s, i)) && s.p1.req.rob == r then false
    else if Pushes(s, i) && s.p2.req.rob == r then true
    else s.robInflight[r]
  }

  /** A four-bit counter. */
  function NextCount(s: Regs, i: Input): nat
    requires Sized(s) && SizedInput(i)
  {
    var answers := AnswerOf(s, i).Some?;
    if Accepts(s, i) && !answers then if s.nInflight == 15 then 0 else s.nInflight + 1
    else if !Accepts(s, i) && answers then if s.nInflight == 0 then 15 else s.nInflight - 1
    else s.nInflight
  }

  function Next(s: Regs, i: Input, id: nat): Regs
    requires Sized(s) && SizedInput(i)
  {
    var queue := NextQueue(s, i);
    Regs(NextCtl(s, i), NextPort1(s, i), NextPort2(s, i, id), queue, NextRams(s, i),
         if s.p1.req.isStore then Merge(s.p1.out.line, s.p1.req) else seq(16, _ => 0),
         seq(ROB, r requires 0 <= r < ROB && Sized(s) && SizedInput(i) => NextGraduated(s, i, r)),
         seq(ROB, r requires 0 <= r < ROB && Sized(s) && SizedInput(i) => NextRobInflight(s, i, r)),
         NextCount(s, i),
         s.queue == [] && i.drain && i.req.None? && !PopsLoad(s) && !Accepts(s, i) && !Pushes(s, i) && s.nInflight == 0
         && !(s.ctl.state == HandleReload && (s.p1.req.isStore || !s.ctl.ackEarly)))
  }

  lemma NextQueueSized(s: Regs, i: Input)
    requires Sized(s) && SizedInput(i) && (Pushes(s, i) ==> |s.queue| < 8)
    ensures |NextQueue(s, i)| <= 8 && forall k :: 0 <= k < |NextQueue(s, i)| ==> ReqOk(NextQueue(s, i)[k])
  {
    hide Pushes; hide PopsLoad; hide PopsStore; hide Drops; hide ReqOk;
    PopsNonEmpty(s, i);
    var q := NextQueue(s, i);
    forall k | 0 <= k < |q| ensures ReqOk(q[k]) {
      assert q[k] in s.queue || q[k] == s.p2.req;
    }
  }

  lemma NextPortsSized(s: Regs, i: Input, id: nat)
    requires Sized(s) && SizedInput(i)
    ensures ReqOk(NextPort1(s, i).req) && ReqOk(NextPort2(s, i, id).req)
  {
    hide PopsLoad; hide PopsStore; hide Drops; hide AnySameSet; hide BusySet; hide BusyWord; hide AnyUnaligned; hide Forwards;
    PopsNonEmpty(s, i);
  }

  lemma NextSized(s: Regs, i: Input, id: nat)
    requires Sized(s) && SizedInput(i) && (Pushes(s, i) ==> |s.queue| < 8)
    ensures Sized(Next(s, i, id))
  {
    hide Pushes; hide Pops; hide Merge; hide NextGraduated; hide NextRobInflight; hide NextQueue; hide NextPort1; hide NextPort2;
    hide AnswerOf; hide Evicts; hide Miss1; hide Hit1; hide ReqOk; hide NextRams; hide NextCount; hide Accepts;
    NextQueueSized(s, i);
    NextPortsSized(s, i, id);
    MemSetOk(s, i);
    hide NextCtl;
  }

  lemma MemSetOk(s: Regs, i: Input)
    requires Sized(s)
    ensures NextCtl(s, i).memSet < SETS
  {
  }

  lemma PopsNonEmpty(s: Regs, i: Input)
    requires Sized(s) && SizedInput(i)
    ensures Pops(s, i) ==> s.queue != []
  {
  }
}
