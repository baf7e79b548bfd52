/** What the first-level data cache presents: the memory as written so far, and loads that see
    every older store. */
module L1dCoherence {
  import opened L1dMachine

  type Memory = (nat, nat) -> Line

  /** The next level answers a fill with what it holds, and only while asked. */
  ghost predicate MemoryOk(s: Regs, mem: Memory, i: Input) {
    i.memRsp ==> s.ctl.state == InjectReload && (!s.ctl.memStore ==> i.memLine == mem(s.ctl.memTag, s.ctl.memSet))
  }

  /** The next level after a write-back. */
  ghost function NextMemory(s: Regs, mem: Memory, i: Input): Memory {
    if s.ctl.state == InjectReload && i.memRsp && s.ctl.memStore
    then (t, k) => if t == s.ctl.memTag && k == s.ctl.memSet then s.ctl.storeData else mem(t, k)
    else mem
  }

  predicate Cached(m: Rams, tag: nat, k: nat)
    requires |m.valid| == |m.tags| && k < |m.tags|
  {
    m.valid[k] && m.tags[k] == tag
  }

  /** The line as every store written so far has left it. */
  ghost function View(m: Rams, mem: Memory, tag: nat, k: nat): Line
    requires SizedRams(m) && k < SETS
  {
    if Cached(m, tag, k) then m.lines[k] else mem(tag, k)
  }

  // ---------------------------------------------------------------- the control invariant

  ghost predicate Control(s: Regs) {
    && Sized(s)
    && s.ctl.state != WaitInjectReload
    && (s.p2.got ==> s.ctl.state == Active && |s.queue| <= 7)
    && (s.p1.got ==> s.ctl.state == Active && (s.p1.isRetry || s.p1.didReload))
    && (s.p1.got && !s.p1.req.isStore ==> !s.p2.got)
    && (s.p1.got ==> !(s.ctl.prevWrite && s.ctl.prevSet == s.p1.req.addr.set_))
    && (s.p1.got && s.p1.isRetry ==> !s.ctl.lock)
    && (s.p1.got && !s.p1.isRetry ==> if s.ctl.lock then !s.p1.out.valid else Hit1(s))
    && (s.ctl.state == Active && s.ctl.lock ==> s.p1.got && !s.p1.isRetry)
    && (s.ctl.state == InjectReload ==>
      && s.ctl.lock == s.ctl.memStore == s.ctl.inhibit && s.ctl.memSet == s.p1.req.addr.set_
      && (!s.ctl.memStore ==> s.ctl.memTag == s.p1.req.addr.tag))
    && (s.ctl.ackEarly ==> s.ctl.state == HandleReload && !s.p1.req.isStore && !s.ctl.lock)
    && (forall k :: 0 <= k < |s.queue| ==> !s.queue[k].nop)
  }

  /** The contents of the set port 1 works on, in each state. */
  ghost predicate Data(s: Regs, mem: Memory) {
    var m, k := s.ram, s.p1.req.addr.set_;
    && Sized(s)
    && (forall j :: 0 <= j < SETS && m.valid[j] && !m.dirty[j] ==> m.lines[j] == mem(m.tags[j], j))
    && (s.p1.got ==> s.p1.out == Look(m, k))
    && (s.ctl.state == InjectReload && s.ctl.memStore ==>
      m.valid[s.ctl.memSet] && m.tags[s.ctl.memSet] == s.ctl.memTag && s.ctl.storeData == m.lines[s.ctl.memSet])
    && (s.ctl.state == InjectReload && !s.ctl.memStore ==>
      (m.valid[s.ctl.memSet] ==> m.tags[s.ctl.memSet] != s.ctl.memTag && !m.dirty[s.ctl.memSet]))
    && (s.ctl.state == HandleReload ==> if s.ctl.lock then !m.valid[k] else Cached(m, s.p1.req.addr.tag, k))
  }

  /** Every miss goes ahead: no request is lost, and the wait for an unfinished write is never
      needed. */
  lemma MissesProceed(s: Regs)
    requires Control(s) && s.ctl.state == Active && Miss1(s)
    ensures Proceeds(s) && !MustWait(s)
  {
  }

  lemma NextControl(s: Regs, mem: Memory, i: Input, id: nat)
    requires Control(s) && Data(s, mem) && SizedInput(i) && MemoryOk(s, mem, i)
    ensures Control(Next(s, i, id))
  {
    hide Control; hide Data; hide Next; hide MemoryOk;
    ControlState(s);
    match s.ctl.state
    case Active => ActiveControl(s, mem, i, id);
    case InjectReload => InjectControl(s, mem, i, id);
    case HandleReload => HandleControl(s, mem, i, id);
    case WaitInjectReload =>
  }

  lemma ControlState(s: Regs)
    requires Control(s)
    ensures s.ctl.state != WaitInjectReload && Sized(s)
  {
  }

  lemma ActiveControl(s: Regs, mem: Memory, i: Input, id: nat)
    requires Control(s) && Data(s, mem) && SizedInput(i) && MemoryOk(s, mem, i) && s.ctl.state == Active
    ensures Control(Next(s, i, id))
  {
    hide Merge; hide AnswersLoad2; hide NextGraduated; hide NextRobInflight; hide AnswerOf; hide AnySameSet; hide BusySet;
    hide BusyWord; hide AnyUnaligned; hide ReqOk; hide NextRams; hide NextCount; hide Forwards; hide NextQueue; hide Sized;
    hide Data; hide MemoryOk; hide Look;
    NextSized(s, i, id);
    NextQueueControl(s, i);
    PopsNonEmpty(s, i);
    if Miss1(s) { MissesProceed(s); }
  }

  lemma InjectControl(s: Regs, mem: Memory, i: Input, id: nat)
    requires Control(s) && Data(s, mem) && SizedInput(i) && MemoryOk(s, mem, i) && s.ctl.state == InjectReload
    ensures Control(Next(s, i, id))
  {
    hide Merge; hide AnswersLoad2; hide NextGraduated; hide NextRobInflight; hide AnswerOf; hide AnySameSet; hide BusySet;
    hide BusyWord; hide AnyUnaligned; hide ReqOk; hide NextRams; hide NextCount; hide Forwards; hide NextQueue;
    hide Data; hide MemoryOk;
    NextSized(s, i, id);
    NextQueueControl(s, i);
  }

  lemma HandleControl(s: Regs, mem: Memory, i: Input, id: nat)
    requires Control(s) && Data(s, mem) && SizedInput(i) && MemoryOk(s, mem, i) && s.ctl.state == HandleReload
    ensures Control(Next(s, i, id))
  {
    hide Merge; hide AnswersLoad2; hide NextGraduated; hide NextRobInflight; hide AnswerOf; hide AnySameSet; hide BusySet;
    hide BusyWord; hide AnyUnaligned; hide ReqOk; hide NextRams; hide NextCount; hide Forwards; hide NextQueue;
    NextSized(s, i, id);
    NextQueueControl(s, i);
  }

  lemma NextQueueControl(s: Regs, i: Input)
    requires Control(s) && SizedInput(i)
    ensures |NextQueue(s, i)| <= |s.queue| + (if Pushes(s, i) then 1 else 0)
    ensures forall k :: 0 <= k < |NextQueue(s, i)| ==> !NextQueue(s, i)[k].nop
  {
    var q := NextQueue(s, i);
    PopsNonEmpty(s, i);
    forall k | 0 <= k < |q| ensures !q[k].nop {
      assert q[k] in s.queue || (Pushes(s, i) && q[k] == s.p2.req);
    }
  }

  lemma NextData(s: Regs, mem: Memory, i: Input, id: nat)
    requires Control(s) && Data(s, mem) && SizedInput(i) && MemoryOk(s, mem, i)
    ensures Data(Next(s, i, id), NextMemory(s, mem, i))
  {
    hide Control; hide Data; hide Next; hide MemoryOk; hide NextMemory;
    ControlState(s);
    match s.ctl.state
    case Active => ActiveData(s, mem, i, id);
    case InjectReload => InjectData(s, mem, i, id);
    case HandleReload => HandleData(s, mem, i, id);
    case WaitInjectReload =>
  }

  lemma ActiveData(s: Regs, mem: Memory, i: Input, id: nat)
    requires Control(s) && Data(s, mem) && SizedInput(i) && MemoryOk(s, mem, i) && s.ctl.state == Active
    ensures Data(Next(s, i, id), NextMemory(s, mem, i))
  {
    hide Merge; hide AnswersLoad2; hide NextGraduated; hide NextRobInflight; hide AnswerOf; hide AnySameSet; hide BusySet;
    hide BusyWord; hide AnyUnaligned; hide NextCount; hide Forwards; hide NextQueue; hide NextPort2; hide Pushes;
    hide Accepts;
    NextSizedControl(s, i, id);
    PopsNonEmpty(s, i);
    if Miss1(s) { MissesProceed(s); }
  }

  lemma NextSizedControl(s: Regs, i: Input, id: nat)
    requires Control(s) && SizedInput(i)
    ensures Sized(Next(s, i, id))
  {
    hide Next;
    NextSized(s, i, id);
  }

  lemma InjectData(s: Regs, mem: Memory, i: Input, id: nat)
    requires Control(s) && Data(s, mem) && SizedInput(i) && MemoryOk(s, mem, i) && s.ctl.state == InjectReload
    ensures Data(Next(s, i, id), NextMemory(s, mem, i))
  {
    hide Merge; hide AnswersLoad2; hide NextGraduated; hide NextRobInflight; hide AnswerOf; hide AnySameSet; hide BusySet;
    hide BusyWord; hide AnyUnaligned; hide NextCount; hide Forwards; hide NextQueue; hide NextPort2; hide Pushes; hide ReqOk;
    NextSizedControl(s, i, id);
  }

  lemma HandleData(s: Regs, mem: Memory, i: Input, id: nat)
    requires Control(s) && Data(s, mem) && SizedInput(i) && MemoryOk(s, mem, i) && s.ctl.state == HandleReload
    ensures Data(Next(s, i, id), NextMemory(s, mem, i))
  {
    hide Merge; hide AnswersLoad2; hide NextGraduated; hide NextRobInflight; hide AnswerOf; hide AnySameSet; hide BusySet;
    hide BusyWord; hide AnyUnaligned; hide NextCount; hide Forwards; hide NextQueue; hide NextPort2; hide Pushes; hide ReqOk;
    NextSizedControl(s, i, id);
  }

  /** Steps until the request in port 1 is finished, not counting waits for the next level. */
  function Remaining(s: Regs): nat {
    match s.ctl.state
    case Active => if !s.p1.got then 0 else if Hit1(s) then 1 else if Evicts(s) then 7 else 4
    case InjectReload => if s.ctl.memStore then 6 else 3
    case HandleReload => if s.ctl.ackEarly then 0 else if s.ctl.lock then 5 else 2
    case WaitInjectReload => 0
  }

  /** A miss needs at most one write-back and one fill: each clock, except while waiting for the
      next level, brings the request closer to its hit. */
  lemma MissesFinish(s: Regs, mem: Memory, i: Input, id: nat)
    requires Control(s) && Data(s, mem) && SizedInput(i) && MemoryOk(s, mem, i)
    requires Remaining(s) > 1 && (s.ctl.state == InjectReload ==> i.memRsp)
    ensures Remaining(Next(s, i, id)) < Remaining(s)
    ensures Next(s, i, id).p1.req == s.p1.req
  {
    hide Merge; hide AnswersLoad2; hide NextGraduated; hide NextRobInflight; hide AnswerOf; hide AnySameSet; hide BusySet;
    hide BusyWord; hide AnyUnaligned; hide NextCount; hide Forwards; hide NextQueue; hide NextPort2; hide Pushes; hide NextRams;
    if s.ctl.state == Active && Miss1(s) { MissesProceed(s); }
  }

  /** The only thing that changes the memory presented is the store port 1 writes. */
  lemma ViewChanges(s: Regs, mem: Memory, i: Input, tag: nat, k: nat)
    requires Control(s) && Data(s, mem) && SizedInput(i) && MemoryOk(s, mem, i) && k < SETS
    ensures View(NextRams(s, i), NextMemory(s, mem, i), tag, k)
      == if Writes(s) && s.p1.req.addr.tag == tag && s.p1.req.addr.set_ == k then Merge(View(s.ram, mem, tag, k), s.p1.req)
         else View(s.ram, mem, tag, k)
  {
    hide Merge;
  }

  // ---------------------------------------------------------------- loads and pending stores

  /** Port 1 has a request it has not finished. */
  predicate Busy1(s: Regs) {
    s.p1.got || s.ctl.state == InjectReload || (s.ctl.state == HandleReload && !s.ctl.ackEarly)
  }

  /** What was accepted before the request in port 2 and is not finished, oldest first. */
  function Pending(s: Regs): seq<Req> {
    (if Busy1(s) then [s.p1.req] else []) + s.queue
  }

  /** The line after the stores among `qs`, in order. */
  function Apply(l: Line, tag: nat, k: nat, qs: seq<Req>): Line
    requires forall j :: 0 <= j < |qs| ==> qs[j].addr.off < LINE
  {
    if qs == [] then l
    else
      var before, q := Apply(l, tag, k, qs[..|qs| - 1]), qs[|qs| - 1];
      if q.isStore && q.addr.tag == tag && q.addr.set_ == k then Merge(before, q) else before
  }

  /** The access `q` leaves every byte of the access `l` alone. */
  predicate Disjoint(q: Req, l: Req)
    requires q.addr.off < LINE && l.addr.off < LINE
  {
    !SameLine(q, l) || Last(q) <= l.addr.off || Last(l) <= q.addr.off
  }

  lemma {:induction false} DisjointStores(line: Line, l: Req, qs: seq<Req>)
    requires l.addr.off < LINE && forall j :: 0 <= j < |qs| ==> qs[j].addr.off < LINE
    requires forall j :: 0 <= j < |qs| && qs[j].isStore ==> Disjoint(qs[j], l)
    ensures Extract(Apply(line, l.addr.tag, l.addr.set_, qs), l) == Extract(line, l)
    decreases |qs|
  {
    if qs != [] {
      var n := |qs| - 1;
      DisjointStores(line, l, qs[..n]);
      var before := Apply(line, l.addr.tag, l.addr.set_, qs[..n]);
      assert qs[n].isStore && SameLine(qs[n], l) ==> Extract(Merge(before, qs[n]), l) == Extract(before, l);
    }
  }

  /** Two aligned accesses, one of them a word, in different words of a line do not meet. */
  lemma DifferentWords(q: Req, l: Req)
    requires ReqOk(q) && ReqOk(l) && l.size == 4 && !q.unaligned && !l.unaligned && !SameWord(q, l)
    ensures Disjoint(q, l)
  {
  }

  /** A waiting store that a looked-up load was not compared with lies in another set. */
  ghost predicate Compared(q: Req, p: Port2) {
    && (!p.busy ==> !SameSet(q, p.req))
    && (!p.wordBusy && !p.anyUnaligned ==> !SameSet(q, p.req) || (!SameWord(q, p.req) && !q.unaligned && !p.req.unaligned))
  }

  /** The load in port 2 has the current line, and its comparison bits cover every store before
      it. */
  ghost predicate LookedUp(s: Regs)
    requires SizedRams(s.ram) && s.p2.req.addr.set_ < SETS
  {
    s.p2.got && !s.p2.req.isStore ==>
      && (Hit2(s) ==> Cached(s.ram, s.p2.req.addr.tag, s.p2.req.addr.set_) && Line2(s) == s.ram.lines[s.p2.req.addr.set_])
      && forall k :: 0 <= k < |Pending(s)| && Pending(s)[k].isStore ==> Compared(Pending(s)[k], s.p2)
  }

  lemma ForwardedLine(s: Regs, mem: Memory, i: Input, id: nat)
    requires Control(s) && Data(s, mem) && SizedInput(i) && Accepts(s, i)
    ensures var n := Next(s, i, id);
      Hit2(n) ==> Cached(n.ram, n.p2.req.addr.tag, n.p2.req.addr.set_) && Line2(n) == n.ram.lines[n.p2.req.addr.set_]
  {
    hide Merge; hide NextQueue; hide NextPort1; hide NextCtl; hide NextGraduated; hide NextRobInflight; hide AnswerOf;
    hide BusySet; hide BusyWord; hide AnyUnaligned; hide NextCount; hide Pushes;
  }

  /** Where the pending requests of the next clock come from. */
  lemma PendingFrom(s: Regs, i: Input, id: nat, k: nat) returns (j: nat)
    requires Control(s) && SizedInput(i) && Accepts(s, i) && k < |Pending(Next(s, i, id))|
    ensures var q := Pending(Next(s, i, id))[k];
      (j < |s.queue| && q == s.queue[j].(data := q.data)) || (j == |s.queue| && q == s.p2.req && Pushes(s, i))
  {
    hide Merge; hide NextRams; hide NextGraduated; hide NextRobInflight; hide AnswerOf; hide NextCount; hide ReqOk;
    hide BusySet; hide BusyWord; hide AnyUnaligned; hide AnySameSet; hide AnswersLoad2; hide Forwards;
    var n := Next(s, i, id);
    PopsNonEmpty(s, i);
    var popped, first := if Pops(s, i) then 1 else 0, if Busy1(n) then 1 else 0;
    if k < first {
      j := 0;
    } else {
      assert Pending(n)[k] == n.queue[k - first];
      j := if k - first < |s.queue| - popped then k - first + popped else |s.queue|;
    }
  }

  lemma ComparedNow(s: Regs, i: Input, id: nat, k: nat)
    requires Control(s) && SizedInput(i) && Accepts(s, i) && !i.req.value.isStore
    requires k < |Pending(Next(s, i, id))| && Pending(Next(s, i, id))[k].isStore
    ensures Compared(Pending(Next(s, i, id))[k], Next(s, i, id).p2)
  {
    var j := PendingFrom(s, i, id, k);
    var q, l := Pending(Next(s, i, id))[k], i.req.value.(id := id);
    assert Next(s, i, id).p2 == NextPort2(s, i, id);
    hide Next; hide Pending; hide Control; hide Merge; hide Look; hide Pushes;
    if j < |s.queue| {
      assert SameSet(s.queue[j], l) == SameSet(q, l) && SameWord(s.queue[j], l) == SameWord(q, l);
    }
  }

  lemma NextLookedUp(s: Regs, mem: Memory, i: Input, id: nat)
    requires Sized(s) && Control(s) && Data(s, mem) && SizedInput(i) && Sized(Next(s, i, id))
    ensures LookedUp(Next(s, i, id))
  {
    hide Control; hide Data; hide Compared; hide Pending; hide Hit2; hide Line2;
    var n := Next(s, i, id);
    assert n.p2 == NextPort2(s, i, id) by { Port2OfNext(s, i, id); }
    hide Next;
    if n.p2.got && !n.p2.req.isStore {
      ForwardedLine(s, mem, i, id);
      forall k | 0 <= k < |Pending(n)| && Pending(n)[k].isStore ensures Compared(Pending(n)[k], n.p2) {
        ComparedNow(s, i, id, k);
      }
    }
  }

  lemma Port2OfNext(s: Regs, i: Input, id: nat)
    requires Sized(s) && SizedInput(i)
    ensures Next(s, i, id).p2 == NextPort2(s, i, id)
  {
  }

  /** The same requests, with any data for the stores. */
  ghost predicate SameButData(qs: seq<Req>, ps: seq<Req>) {
    |qs| == |ps| && forall k :: 0 <= k < |ps| ==> qs[k] == ps[k].(data := qs[k].data)
  }

  /** A load answered by port 2 returns what it would return if every store before it had been
      written first, whatever their data. */
  lemma Load2SeesOlderStores(s: Regs, mem: Memory, i: Input, qs: seq<Req>)
    requires Control(s) && Data(s, mem) && LookedUp(s) && SameButData(qs, Pending(s))
    requires s.ctl.state == Active && s.p2.got && !s.p2.req.isStore && !Ignored2(s, i) && AnswersLoad2(s)
    ensures forall k :: 0 <= k < |qs| ==> qs[k].addr.off < LINE
    ensures var l := s.p2.req;
      Answer2(s, i) == Some(Answer(l.id, l.rob,
        Some(Extract(Apply(View(s.ram, mem, l.addr.tag, l.addr.set_), l.addr.tag, l.addr.set_, qs), l))))
  {
    hide Extract; hide Merge; hide Apply; hide Disjoint;
    var l := s.p2.req;
    forall k | 0 <= k < |qs| ensures ReqOk(qs[k]) && (qs[k].isStore ==> Disjoint(qs[k], l)) {
      var q := Pending(s)[k];
      assert ReqOk(q) && ReqOk(qs[k]);
      if q.isStore {
        assert Compared(q, s.p2);
        if SameSet(q, l) { DifferentWords(qs[k], l); } else { DifferentSets(qs[k], l); }
      }
    }
    DisjointStores(View(s.ram, mem, l.addr.tag, l.addr.set_), l, qs);
  }

  lemma DifferentSets(q: Req, l: Req)
    requires q.addr.off < LINE && l.addr.off < LINE && !SameSet(q, l)
    ensures Disjoint(q, l)
  {
  }

  /** A load answered by port 1, early or not, returns the memory as written so far. */
  lemma Load1SeesMemory(s: Regs, mem: Memory, i: Input)
    requires Control(s) && Data(s, mem) && SizedInput(i) && MemoryOk(s, mem, i) && Answer1(s, i).Some?
    ensures var l := s.p1.req;
      Answer1(s, i) == Some(Answer(l.id, l.rob, Some(Extract(View(s.ram, mem, l.addr.tag, l.addr.set_), l))))
  {
    hide Extract;
  }
}
