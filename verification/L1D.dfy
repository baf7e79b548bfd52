/** The clocked first-level data cache: what holds in every run, and one clock of it. */
module L1D {
  import opened L1dMachine
  import opened L1dCoherence
  import opened L1dOrder
  import opened L1dRequests

  ghost predicate Inv(s: Regs, mem: Memory, log: Log) {
    var ps, newest := Shadows(Pending(s)), Newest(s);
    && Control(s) && Data(s, mem) && LookedUp(s)
    && Ordered(ps, newest, log.nextId) && Accounted(ps, newest, log.nextId, log.answered)
    && s.nInflight == Outstanding(ps, newest)
    && Graduation(ps, newest, s.graduated, s.robInflight, log.retired, log.nextId)
    && Port1Retired(s, log.retired) && History(ps, newest, log) && Conserved(ps, log)
    && Recognized(ps, newest, log) && AllQueued(newest, log) && Port1Data(s) && WrittenData(log)
  }

  lemma NextInv(s: Regs, mem: Memory, i: Input, log: Log)
    requires Inv(s, mem, log) && SizedInput(i) && MemoryOk(s, mem, i) && CoreOk(s, i)
    ensures Inv(Next(s, i, log.nextId), NextMemory(s, mem, i), NextLog(s, i, log))
  {
    hide Control; hide Data; hide LookedUp; hide Ordered; hide Accounted; hide Graduation; hide Port1Retired; hide History;
    hide Conserved; hide Recognized; hide AllQueued; hide Port1Data; hide WrittenData; hide Next; hide Shadows; hide Pending; hide Outstanding; hide Newest; hide NextMemory; hide CoreOk; hide MemoryOk;
    hide RetiredNow; hide Answered; hide Accepts; hide Writes; hide Drops;
    var id := log.nextId;
    ControlSized(s);
    NextControl(s, mem, i, id);
    ControlSized(Next(s, i, id));
    NextData(s, mem, i, id);
    NextLookedUp(s, mem, i, id);
    NextOrdered(s, i, id);
    NextAccounted(s, i, id, log.answered);
    NextCounted(s, i, id);
    NextGraduation(s, i, id, log);
    NextPort1Retired(s, i, log);
    RetiredGrows(Next(s, i, id), log.retired, NextLog(s, i, log).retired);
    NextHistory(s, i, log);
    NextConserved(s, i, log);
    NextRecognized(s, i, log);
    NextAllQueued(s, i, log);
    NextPort1Data(s, i, id);
    NextWrittenData(s, i, log);
  }

  lemma ControlSized(s: Regs)
    requires Control(s)
    ensures Sized(s)
  {
  }

  lemma RetiredGrows(s: Regs, r: set<nat>, r': set<nat>)
    requires Port1Retired(s, r) && r <= r'
    ensures Port1Retired(s, r')
  {
  }

  /** The retry queue is never pushed when full. */
  lemma NeverOverflows(s: Regs, mem: Memory, i: Input, log: Log)
    requires Inv(s, mem, log) && Pushes(s, i)
    ensures |s.queue| < 8
  {
  }

  lemma LoadsApplyOlder(s: Regs, mem: Memory, start: Memory, i: Input, log: Log, a: Answer, l: Req, older: seq<Req>)
    requires Inv(s, mem, log) && Accumulated(s, mem, start, log.written) && SizedInput(i) && MemoryOk(s, mem, i)
    requires AnswerOf(s, i) == Some(a) && a.bytes.Some? && (l == s.p1.req || l == s.p2.req) && a.id == l.id
    requires if Answer1(s, i).Some? then l == s.p1.req && older == [] else l == s.p2.req && SameButData(older, Pending(s))
    ensures l.addr.set_ < SETS && l.addr.off < LINE
    ensures forall k :: 0 <= k < |log.written + older| ==> (log.written + older)[k].addr.off < LINE
    ensures var line := Apply(start(l.addr.tag, l.addr.set_), l.addr.tag, l.addr.set_, log.written + older);
      a.bytes == Some(Extract(line, l))
    ensures forall x: nat :: x in log.stores && x !in log.dropped ==> (x < l.id <==> Applies(log.written + older, x))
    ensures forall j, k :: 0 <= j < k < |log.written + older| ==> (log.written + older)[j].id < (log.written + older)[k].id
  {
    LoadsSeeOlder(s, mem, i, log, a, l, older);
    OnlyOlder(s, mem, i, log, l, older);
    hide Inv; hide Extract; hide Apply; hide AnswerOf; hide Answer1; hide View; hide MemoryOk;
    ApplyJoin(start(l.addr.tag, l.addr.set_), l.addr.tag, l.addr.set_, log.written, older);
  }

  /** `v` is what the memory of the start shows at byte `b` of the line after the stores `qs`. */
  ghost predicate Shows(v: nat, start: Memory, qs: seq<Req>, tag: nat, k: nat, b: nat)
    requires b < LINE
  {
    LastStored(v, start(tag, k)[b], qs, tag, k, b)
  }

  /** The stores waiting before the answered request, with any data: none if port 1 answers. */
  ghost predicate Before(s: Regs, i: Input, older: seq<Req>)
    requires Sized(s)
  {
    if Answer1(s, i).Some? then older == []
    else SameButData(older, Pending(s)) && forall k :: 0 <= k < |older| ==> |older[k].data| == 4
  }

  /** Every answer is for the request accepted under its number; a load, unless it is ignored,
      gets its bytes, and each of them is the byte of the last store before the load that covers
      it, or the byte the memory of the start has there.  The stores before the load are all those
      accepted before it, in that order, except the ones ignored or discarded; those that still
      wait are in `older`, and may have any data. */
  lemma LoadsAreSequential(s: Regs, mem: Memory, start: Memory, i: Input, log: Log, a: Answer, older: seq<Req>)
    requires Inv(s, mem, log) && Accumulated(s, mem, start, log.written) && SizedInput(i) && MemoryOk(s, mem, i)
    requires Sized(s) && AnswerOf(s, i) == Some(a) && Before(s, i, older)
    ensures a.id < |log.accepted| && a.rob == log.accepted[a.id].rob
    ensures log.accepted[a.id].isStore ==> a.bytes.None?
    ensures !log.accepted[a.id].isStore && !i.drain && !log.accepted[a.id].nop ==> a.bytes.Some?
    ensures a.bytes.Some? ==> var l, qs, bytes := log.accepted[a.id], log.written + older, a.bytes.value;
      && |bytes| == (if l.addr.off + l.size <= LINE then l.size else LINE - l.addr.off)
      && (forall j {:trigger bytes[j]} :: 0 <= j < |bytes| ==>
        l.addr.off + j < LINE && Shows(bytes[j], start, qs, l.addr.tag, l.addr.set_, l.addr.off + j))
      && (forall x: nat :: x < |log.accepted| && log.accepted[x].isStore && x !in log.ignored && x !in log.dropped ==>
        (x < a.id <==> Applies(qs, x)))
      && (forall j, k :: 0 <= j < k < |qs| ==> qs[j].id < qs[k].id)
      && (forall k :: 0 <= k < |qs| ==> qs[k].id < |log.accepted| && Shadow(qs[k]) == Shadow(log.accepted[qs[k].id]))
  {
    hide Inv; hide AnswerOf; hide Answer1; hide MemoryOk; hide Accumulated; hide Shows; hide SameButData; hide Before; hide Applies;
    hide Sized;
    AnswerIsFor(s, mem, i, log, a);
    BeforeRecognized(s, mem, i, log, older);
    if a.bytes.Some? {
      BytesShown(s, mem, start, i, log, a, older);
      StoresBefore(s, mem, start, i, log, a, older);
    }
  }

  lemma BytesShown(s: Regs, mem: Memory, start: Memory, i: Input, log: Log, a: Answer, older: seq<Req>)
    requires Inv(s, mem, log) && Accumulated(s, mem, start, log.written) && SizedInput(i) && MemoryOk(s, mem, i)
    requires Sized(s) && AnswerOf(s, i) == Some(a) && Before(s, i, older) && a.bytes.Some? && a.id < |log.accepted|
    ensures var l, qs, bytes := log.accepted[a.id], log.written + older, a.bytes.value;
      && |bytes| == (if l.addr.off + l.size <= LINE then l.size else LINE - l.addr.off)
      && (forall j {:trigger bytes[j]} :: 0 <= j < |bytes| ==>
        l.addr.off + j < LINE && Shows(bytes[j], start, qs, l.addr.tag, l.addr.set_, l.addr.off + j))
  {
    hide Inv; hide AnswerOf; hide Answer1; hide MemoryOk; hide Accumulated; hide SameButData; hide Before; hide Applies;
    hide Shows; hide Extract; hide Apply; hide Shadow; hide Loaded; hide SizedInput;
    var l := if Answer1(s, i).Some? then s.p1.req else s.p2.req;
    AnswerIsFor(s, mem, i, log, a);
    BeforeRecognized(s, mem, i, log, older);
    SameShadow(l, log.accepted[a.id]);
    BeforeCases(s, i, older);
    hide Sized;
    LoadsApplyOlder(s, mem, start, i, log, a, l, older);
    ExtractShows(start, log.written + older, l);
  }

  lemma SameShadow(u: Req, v: Req)
    requires Shadow(u) == Shadow(v)
    ensures u.addr == v.addr && u.size == v.size && u.isStore == v.isStore && u.id == v.id
  {
    assert Shadow(u).addr == u.addr && Shadow(u).size == u.size && Shadow(u).isStore == u.isStore && Shadow(u).id == u.id;
  }

  lemma BeforeCases(s: Regs, i: Input, older: seq<Req>)
    requires Sized(s) && Before(s, i, older)
    ensures if Answer1(s, i).Some? then older == [] else SameButData(older, Pending(s))
  {
  }

  lemma ExtractShows(start: Memory, qs: seq<Req>, l: Req)
    requires l.addr.off < LINE && forall k :: 0 <= k < |qs| ==> qs[k].addr.off < LINE && Loaded(qs[k])
    ensures var bytes := Extract(Apply(start(l.addr.tag, l.addr.set_), l.addr.tag, l.addr.set_, qs), l);
      && |bytes| == (if l.addr.off + l.size <= LINE then l.size else LINE - l.addr.off)
      && (forall j {:trigger bytes[j]} :: 0 <= j < |bytes| ==>
        l.addr.off + j < LINE && Shows(bytes[j], start, qs, l.addr.tag, l.addr.set_, l.addr.off + j))
  {
    hide Extract; hide Apply; hide LastStored;
    var line := start(l.addr.tag, l.addr.set_);
    assert forall k :: 0 <= k < |qs| ==> Loaded(qs[k]);
    var bytes := Extract(Apply(line, l.addr.tag, l.addr.set_, qs), l);
    ExtractedBytes(Apply(line, l.addr.tag, l.addr.set_, qs), l);
    forall j: nat | j < |bytes| ensures l.addr.off + j < LINE && Shows(bytes[j], start, qs, l.addr.tag, l.addr.set_, l.addr.off + j) {
      AppliedBytes(line, l.addr.tag, l.addr.set_, qs, l.addr.off + j);
    }
  }

  lemma StoresBefore(s: Regs, mem: Memory, start: Memory, i: Input, log: Log, a: Answer, older: seq<Req>)
    requires Inv(s, mem, log) && Accumulated(s, mem, start, log.written) && SizedInput(i) && MemoryOk(s, mem, i)
    requires Sized(s) && AnswerOf(s, i) == Some(a) && Before(s, i, older) && a.bytes.Some?
    ensures var qs := log.written + older;
      && (forall x: nat :: x < |log.accepted| && log.accepted[x].isStore && x !in log.ignored && x !in log.dropped ==>
        (x < a.id <==> Applies(qs, x)))
      && (forall j, k :: 0 <= j < k < |qs| ==> qs[j].id < qs[k].id)
  {
    var l := if Answer1(s, i).Some? then s.p1.req else s.p2.req;
    AnswerIsFor(s, mem, i, log, a);
    LoadsApplyOlder(s, mem, start, i, log, a, l, older);
    QueuedAre(s, mem, log);
    NewestNotBefore(s, mem, i, log, a, l, older);
    hide Inv; hide AnswerOf; hide Answer1; hide Extract; hide Apply; hide MemoryOk; hide Accumulated; hide SameButData;
    hide Before; hide Applies; hide Newest; hide Sized;
    var qs := log.written + older;
    forall x: nat | x < |log.accepted| && log.accepted[x].isStore && x !in log.ignored && x !in log.dropped
      ensures x < a.id <==> Applies(qs, x)
    {
      if x in log.stores { assert x < l.id <==> Applies(qs, x); }
    }
  }

  lemma QueuedAre(s: Regs, mem: Memory, log: Log)
    requires Inv(s, mem, log)
    ensures forall x: nat :: x in log.stores <==>
      (x < |log.accepted| && log.accepted[x].isStore && x !in log.ignored && !(Newest(s).Some? && Newest(s).value.id == x))
  {
  }

  /** The number, the entry and the kind of the request answered. */
  lemma AnswerIsFor(s: Regs, mem: Memory, i: Input, log: Log, a: Answer)
    requires Sized(s) && Inv(s, mem, log) && SizedInput(i) && AnswerOf(s, i) == Some(a)
    ensures var l := if Answer1(s, i).Some? then s.p1.req else s.p2.req;
      && a.id == l.id < |log.accepted| && a.rob == l.rob && Shadow(l) == Shadow(log.accepted[a.id])
      && (l.isStore ==> a.bytes.None?) && (!l.isStore && !i.drain && !l.nop ==> a.bytes.Some?)
  {
    Answers(s, i);
    if Answer1(s, i).Some? {
      FinishesBusy(s, i);
      assert Shadows(Pending(s))[0] == Shadow(s.p1.req);
    }
    hide Control; hide Data; hide LookedUp; hide Accounted; hide Graduation; hide History; hide Conserved; hide Extract; hide AnswersLoad2;
  }

  lemma BeforeRecognized(s: Regs, mem: Memory, i: Input, log: Log, older: seq<Req>)
    requires Sized(s) && Inv(s, mem, log) && Before(s, i, older)
    ensures var qs := log.written + older;
      forall k :: 0 <= k < |qs| ==> qs[k].id < |log.accepted| && Shadow(qs[k]) == Shadow(log.accepted[qs[k].id]) && Loaded(qs[k])
  {
    hide LookedUp; hide Accounted; hide Graduation; hide History; hide Conserved; hide Answer1; hide Ordered; hide Data;
    var qs := log.written + older;
    forall k | 0 <= k < |qs|
      ensures qs[k].id < |log.accepted| && Shadow(qs[k]) == Shadow(log.accepted[qs[k].id]) && Loaded(qs[k])
    {
      if k >= |log.written| {
        var p := Pending(s)[k - |log.written|];
        assert Shadows(Pending(s))[k - |log.written|] == Shadow(p);
        assert Shadow(qs[k]) == Shadow(p) && ReqOk(p);
      }
    }
  }

  /** A store still in port 2 is not among those before the load. */
  lemma NewestNotBefore(s: Regs, mem: Memory, i: Input, log: Log, a: Answer, l: Req, older: seq<Req>)
    requires Sized(s) && Inv(s, mem, log) && SizedInput(i) && AnswerOf(s, i) == Some(a) && a.bytes.Some? && Before(s, i, older)
    requires l == (if Answer1(s, i).Some? then s.p1.req else s.p2.req) && a.id == l.id
    ensures Newest(s).Some? && log.accepted[Newest(s).value.id].isStore ==>
      !(Newest(s).value.id < a.id) && !Applies(log.written + older, Newest(s).value.id)
  {
    hide LookedUp; hide Accounted; hide Graduation; hide Conserved; hide Extract; hide Data; hide Control;
    Answers(s, i);
    if Answer1(s, i).Some? {
      FinishesBusy(s, i);
      assert Shadows(Pending(s))[0] == Shadow(s.p1.req);
    }
  }

  /** The list contains the store `x`. */
  predicate Applies(qs: seq<Req>, x: nat) {
    exists k :: 0 <= k < |qs| && qs[k].isStore && qs[k].id == x
  }

  lemma LoadsSeeOlder(s: Regs, mem: Memory, i: Input, log: Log, a: Answer, l: Req, older: seq<Req>)
    requires Inv(s, mem, log) && SizedInput(i) && MemoryOk(s, mem, i)
    requires AnswerOf(s, i) == Some(a) && a.bytes.Some? && (l == s.p1.req || l == s.p2.req) && a.id == l.id
    requires if Answer1(s, i).Some? then l == s.p1.req && older == [] else l == s.p2.req && SameButData(older, Pending(s))
    ensures l.addr.set_ < SETS && l.addr.off < LINE && forall j :: 0 <= j < |older| ==> older[j].addr.off < LINE
    ensures a.bytes == Some(Extract(Apply(View(s.ram, mem, l.addr.tag, l.addr.set_), l.addr.tag, l.addr.set_, older), l))
  {
    Answers(s, i);
    if Answer1(s, i).Some? {
      Load1SeesMemory(s, mem, i);
    } else {
      Port2Answers(s, i);
      Load2SeesOlderStores(s, mem, i, older);
    }
  }

  lemma OnlyOlder(s: Regs, mem: Memory, i: Input, log: Log, l: Req, older: seq<Req>)
    requires Inv(s, mem, log) && AnswerOf(s, i).Some? && AnswerOf(s, i).value.bytes.Some?
    requires if Answer1(s, i).Some? then l == s.p1.req && older == [] else l == s.p2.req && SameButData(older, Pending(s))
    ensures forall x: nat :: x in log.stores && x !in log.dropped ==> (x < l.id <==> Applies(log.written + older, x))
    ensures forall j, k :: 0 <= j < k < |log.written + older| ==> (log.written + older)[j].id < (log.written + older)[k].id
  {
    Surrounds(s, mem, i, log, l, older);
    PastWritten(s, mem, i, log, l);
    hide AnswerOf; hide Answer1; hide Control; hide Data; hide LookedUp; hide Accounted; hide Graduation; hide Pending; hide Port1Retired;
    hide Outstanding; hide Conserved; hide SameButData;
    var ps := Shadows(Pending(s));
    forall x: nat | x in log.stores && x !in log.dropped ensures x < l.id <==> Applies(log.written + older, x) {
      ExactlyOlder(log, ps, older, l.id, x);
    }
    OlderOrdered(log, ps, Newest(s), older);
  }

  /** The requests waiting are all younger than the load, or they are all older, as `older` is. */
  ghost predicate OnOneSide(ps: seq<Req>, older: seq<Req>, id: nat) {
    || (older == [] && forall k :: 0 <= k < |ps| && ps[k].isStore ==> id < ps[k].id)
    || (|older| == |ps| && forall k :: 0 <= k < |ps| ==> older[k].id == ps[k].id < id && older[k].isStore == ps[k].isStore)
  }

  lemma Surrounds(s: Regs, mem: Memory, i: Input, log: Log, l: Req, older: seq<Req>)
    requires Inv(s, mem, log) && AnswerOf(s, i).Some? && AnswerOf(s, i).value.bytes.Some?
    requires if Answer1(s, i).Some? then l == s.p1.req && older == [] else l == s.p2.req && SameButData(older, Pending(s))
    ensures OnOneSide(Shadows(Pending(s)), older, l.id) && (Answer1(s, i).None? ==> s.p2.got)
  {
    if Answer1(s, i).Some? { Youngest(s, mem, i, log); } else { Port2Answers(s, i); Eldest(s, mem, log, older); }
    hide Inv; hide AnswerOf; hide Answer1; hide Pending;
    var ps := Shadows(Pending(s));
    assert forall k :: 0 <= k < |ps| ==> ps[k].id == Pending(s)[k].id && ps[k].isStore == Pending(s)[k].isStore;
  }

  lemma ExactlyOlder(log: Log, ps: seq<Req>, older: seq<Req>, id: nat, x: nat)
    requires Conserved(ps, log) && OnOneSide(ps, older, id) && x in log.stores && x !in log.dropped
    requires forall k :: 0 <= k < |log.written| ==> log.written[k].isStore && log.written[k].id < id
    ensures x < id <==> Applies(log.written + older, x)
  {
    var all := log.written + older;
    if IsWritten(log, x) {
      var k :| 0 <= k < |log.written| && log.written[k].id == x;
      assert all[k] == log.written[k];
    } else {
      var k :| 0 <= k < |ps| && ps[k].isStore && ps[k].id == x;
      if older != [] { assert all[|log.written| + k] == older[k]; }
    }
  }

  lemma OlderOrdered(log: Log, ps: seq<Req>, newest: Option<Req>, older: seq<Req>)
    requires History(ps, newest, log) && Ordered(ps, newest, log.nextId)
    requires older == [] || (|older| == |ps| && forall k :: 0 <= k < |ps| ==> older[k].id == ps[k].id)
    ensures forall j, k :: 0 <= j < k < |log.written + older| ==> (log.written + older)[j].id < (log.written + older)[k].id
  {
    hide Ordered;
    var all, n := log.written + older, |log.written|;
    forall j, k | 0 <= j < k < |all| ensures all[j].id < all[k].id {
      if j < n { assert Past(ps, newest, log.nextId, log.written[j].id); }
      if n <= j { OrderedPair(ps, newest, log.nextId, j - n, k - n); }
    }
  }

  lemma OrderedPair(ps: seq<Req>, newest: Option<Req>, id: nat, j: nat, k: nat)
    requires Ordered(ps, newest, id) && j < k < |ps|
    ensures ps[j].id < ps[k].id
  {
  }

  /** Everything written is older than the load. */
  lemma PastWritten(s: Regs, mem: Memory, i: Input, log: Log, l: Req)
    requires Inv(s, mem, log) && AnswerOf(s, i).Some?
    requires if Answer1(s, i).Some? then l == s.p1.req else s.p2.got && l == s.p2.req
    ensures forall k :: 0 <= k < |log.written| ==> log.written[k].isStore && log.written[k].id < l.id
    ensures forall k, j :: 0 <= k < |log.written| && 0 <= j < |Pending(s)| ==> log.written[k].id < Pending(s)[j].id
  {
  }

  /** The load port 1 answers is the oldest pending request. */
  lemma Youngest(s: Regs, mem: Memory, i: Input, log: Log)
    requires Inv(s, mem, log) && Answer1(s, i).Some?
    ensures forall k :: 0 <= k < |Pending(s)| && Pending(s)[k].isStore ==> s.p1.req.id < Pending(s)[k].id
  {
    hide Control; hide Data; hide LookedUp; hide Accounted; hide Graduation; hide History; hide Conserved;
    Answers(s, i);
    assert Busy1(s) by { FinishesBusy(s, i); }
    assert Shadows(Pending(s))[0] == Shadow(s.p1.req);
    forall k | 0 <= k < |Pending(s)| && Pending(s)[k].isStore ensures s.p1.req.id < Pending(s)[k].id {
      assert Shadows(Pending(s))[k] == Shadow(Pending(s)[k]);
    }
  }

  lemma FinishesBusy(s: Regs, i: Input)
    requires Finishes(s, i)
    ensures Busy1(s)
  {
  }

  lemma Eldest(s: Regs, mem: Memory, log: Log, older: seq<Req>)
    requires Inv(s, mem, log) && s.p2.got && SameButData(older, Pending(s))
    ensures forall k :: 0 <= k < |Pending(s)| ==> Pending(s)[k].id < s.p2.req.id && older[k].id == Pending(s)[k].id
  {
    hide Control; hide Data; hide LookedUp; hide Accounted; hide Graduation; hide History; hide Conserved; hide Pending;
    forall k | 0 <= k < |Pending(s)| ensures Pending(s)[k].id < s.p2.req.id && older[k].id == Pending(s)[k].id {
      assert Shadows(Pending(s))[k] == Shadow(Pending(s)[k]);
    }
  }

  lemma Port2Answers(s: Regs, i: Input)
    requires s.p2.req.addr.off < LINE && Answer2(s, i).Some? && Answer2(s, i).value.bytes.Some?
    ensures s.ctl.state == Active && s.p2.got && !s.p2.req.isStore && !Ignored2(s, i) && AnswersLoad2(s)
  {
    hide AnswersLoad2; hide Extract;
  }

  /** When the cache reports itself empty to a draining core, every accepted request has been
      answered and no waiting store can be discarded any more: only a retired one is left. */
  lemma RestartIsSafe(s: Regs, mem: Memory, i: Input, log: Log)
    requires Inv(s, mem, log) && SizedInput(i) && MemoryOk(s, mem, i) && CoreOk(s, i)
    requires Next(s, i, log.nextId).memqEmpty
    ensures var n, log' := Next(s, i, log.nextId), NextLog(s, i, log);
      && n.queue == [] && !n.p2.got && n.nInflight == 0
      && (forall x: nat :: x < log'.nextId ==> x in log'.answered)
      && (forall k :: 0 <= k < |Pending(n)| ==> Pending(n)[k].isStore && Pending(n)[k].id in log'.retired)
  {
    var n, log' := Next(s, i, log.nextId), NextLog(s, i, log);
    NextInv(s, mem, i, log);
    EmptyFacts(s, i, log.nextId);
    NothingOutstanding(s, mem, log);
    NothingOutstandingAfter(s, mem, i, log);
  }

  lemma EmptyFacts(s: Regs, i: Input, id: nat)
    requires Sized(s) && SizedInput(i) && Next(s, i, id).memqEmpty
    ensures s.queue == [] && s.nInflight == 0 && !Accepts(s, i) && !Pushes(s, i)
    ensures Next(s, i, id).queue == [] && !Next(s, i, id).p2.got
  {
    hide NextPort1; hide NextCtl; hide NextRams; hide NextGraduated; hide NextRobInflight; hide NextCount; hide Merge;
    hide PopsStore; hide Drops; hide Hit1; hide AnswersLoad2;
    PopsNonEmpty(s, i);
  }

  lemma NothingOutstanding(s: Regs, mem: Memory, log: Log)
    requires Inv(s, mem, log) && s.nInflight == 0
    ensures !s.p2.got && forall k :: 0 <= k < |Pending(s)| ==> Pending(s)[k].isStore
    ensures forall x: nat :: x < log.nextId ==> x in log.answered
  {
    hide Control; hide Data; hide LookedUp; hide Ordered; hide Graduation; hide History; hide Conserved; hide Pending;
    NoLoads(Shadows(Pending(s)));
    forall k | 0 <= k < |Pending(s)| ensures Pending(s)[k].isStore {
      assert Shadows(Pending(s))[k] == Shadow(Pending(s)[k]);
    }
  }

  lemma {:induction false} NoLoads(ps: seq<Req>)
    requires Loads(ps) == 0
    ensures forall k :: 0 <= k < |ps| ==> ps[k].isStore
    decreases |ps|
  {
    if ps != [] {
      NoLoads(ps[1..]);
      assert forall k :: 1 <= k < |ps| ==> ps[k] == ps[1..][k - 1];
    }
  }

  lemma NothingOutstandingAfter(s: Regs, mem: Memory, i: Input, log: Log)
    requires Inv(s, mem, log) && SizedInput(i) && s.queue == [] && s.nInflight == 0 && !Accepts(s, i) && !Pushes(s, i)
    requires Inv(Next(s, i, log.nextId), NextMemory(s, mem, i), NextLog(s, i, log)) && Next(s, i, log.nextId).queue == []
    ensures var n := Next(s, i, log.nextId);
      && n.nInflight == 0
      && (forall x: nat :: x < NextLog(s, i, log).nextId ==> x in NextLog(s, i, log).answered)
      && (forall k :: 0 <= k < |Pending(n)| ==> Pending(n)[k].isStore && Pending(n)[k].id in NextLog(s, i, log).retired)
  {
    NothingOutstanding(s, mem, log);
    Answers(s, i);
    CountOfNext(s, i, log.nextId);
    if Finishes(s, i) { FinishesBusy(s, i); assert Pending(s)[0] == s.p1.req; }
    hide AnswerOf; hide Answered; hide RetiredNow; hide NextMemory; hide Drops; hide Sized; hide SizedInput; hide Accounted;
    hide Finishes; hide Answer1; hide Answer2; hide Writes; hide Busy1; hide Port1Retired; hide Outstanding; hide Ordered; hide Shadows;
    hide Recognized; hide AllQueued; hide Port1Data; hide WrittenData; hide Data; hide LookedUp; hide Control; hide Graduation;
    hide History; hide Conserved; hide Next; hide Accepts; hide Pushes;
    NothingOutstanding(Next(s, i, log.nextId), NextMemory(s, mem, i), NextLog(s, i, log));
  }

  /** After the initial sweep nothing is valid and nothing is waiting. */
  lemma StartInv(s: Regs, mem: Memory)
    requires Sized(s) && s.ctl.state == Active && !s.ctl.lock && !s.ctl.ackEarly && !s.p1.got && !s.p2.got && s.queue == []
    requires s.nInflight == 0 && forall k :: 0 <= k < SETS ==> !s.ram.valid[k]
    ensures Inv(s, mem, Log(0, {}, {}, {}, [], {}, [], {}))
  {
    StartControl(s, mem);
    assert Shadows(Pending(s)) == [] && Newest(s) == None;
    StartLists(s.graduated, s.robInflight);
    hide Control; hide Data; hide LookedUp; hide Ordered; hide Accounted; hide Graduation; hide History; hide Conserved;
    hide Recognized; hide AllQueued; hide Pending; hide Newest; hide Sized;
  }

  lemma StartControl(s: Regs, mem: Memory)
    requires Sized(s) && s.ctl.state == Active && !s.ctl.lock && !s.ctl.ackEarly && !s.p1.got && !s.p2.got && s.queue == []
    requires forall k :: 0 <= k < SETS ==> !s.ram.valid[k]
    ensures Control(s) && Data(s, mem) && LookedUp(s) && !Busy1(s)
  {
  }

  lemma StartLists(grad: seq<nat>, inflight: seq<bool>)
    requires |grad| == |inflight| == ROB
    ensures var log := Log(0, {}, {}, {}, [], {}, [], {});
      && Ordered([], None, 0) && Accounted([], None, 0, {}) && Outstanding([], None) == 0
      && Graduation([], None, grad, inflight, {}, 0) && History([], None, log) && Conserved([], log)
      && Recognized([], None, log) && AllQueued(None, log) && WrittenData(log)
  {
  }

  class Cache {
    var s: Regs
    // numbers the requests
    var nextId: nat
    // the memory at the start, the next level, and the log of the run
    ghost const start: Memory
    ghost var mem: Memory
    ghost var log: Log

    ghost predicate Valid()
      reads this
    {
      Inv(s, mem, log) && log.nextId == nextId && Accumulated(s, mem, start, log.written)
    }

    constructor (swept: Regs, ghost memory: Memory)
      requires Sized(swept) && swept.ctl.state == Active && !swept.ctl.lock && !swept.ctl.ackEarly
      requires !swept.p1.got && !swept.p2.got && swept.queue == [] && swept.nInflight == 0
      requires forall k :: 0 <= k < SETS ==> !swept.ram.valid[k]
      ensures Valid() && start == memory && mem == memory && log == Log(0, {}, {}, {}, [], {}, [], {})
    {
      s, nextId := swept, 0;
      start, mem, log := memory, memory, Log(0, {}, {}, {}, [], {}, [], {});
      new;
      StartInv(s, mem);
    }

    /** The line with that tag and set as the stores written so far have left it. */
    ghost function At(tag: nat, k: nat): Line
      reads this
      requires SizedRams(s.ram) && k < SETS
    {
      View(s.ram, mem, tag, k)
    }

    /** One clock: the answer wire, then every register. */
    method Clock(i: Input) returns (answer: Option<Answer>)
      requires Valid() && SizedInput(i) && MemoryOk(s, mem, i) && CoreOk(s, i)
      modifies this
      ensures Valid() && s == Next(old(s), i, old(log).nextId) && log == NextLog(old(s), i, old(log))
      ensures answer == AnswerOf(old(s), i)
      ensures answer.Some? ==> answer.value.id !in old(log).answered && log.answered == old(log).answered + {answer.value.id}
      // what is presented changes only by the store written, which changes its own bytes to its data
      ensures forall tag: nat, k: nat, b: nat :: k < SETS && b < LINE ==>
        At(tag, k)[b] == if old(Writes(s)) && Covers(old(s).p1.req, tag, k, b) && b - old(s).p1.req.addr.off < |old(s).p1.req.data|
                         then old(s).p1.req.data[b - old(s).p1.req.addr.off] else old(At(tag, k))[b]
    {
      hide Inv; hide Next; hide NextLog; hide CoreOk; hide MemoryOk; hide View; hide Merge; hide Writes; hide AnswerOf; hide Accepts;
      hide Accounted; hide Ordered; hide Shadows; hide Pending; hide Newest; hide Control; hide Data; hide Accumulated;
      InvParts(s, mem, log);
      NextInv(s, mem, i, log);
      NextAccounted(s, i, nextId, log.answered);
      NextAccumulated(s, mem, start, i, log);
      LogOfNext(s, i, log);
      RamsOfNext(s, i, nextId);
      forall tag: nat, k: nat, b: nat | k < SETS && b < LINE
        ensures View(NextRams(s, i), NextMemory(s, mem, i), tag, k)[b]
          == if Writes(s) && Covers(s.p1.req, tag, k, b) && b - s.p1.req.addr.off < |s.p1.req.data|
             then s.p1.req.data[b - s.p1.req.addr.off] else View(s.ram, mem, tag, k)[b]
      {
        ByteChanges(s, mem, i, log, tag, k, b);
      }
      answer := AnswerOf(s, i);
      var next := NextRegs(s, i, nextId);
      ghost var mem', log' := NextMemory(s, mem, i), NextLog(s, i, log);
      nextId := if Accepts(s, i) then nextId + 1 else nextId;
      s, mem, log := next, mem', log';
    }

    static lemma ByteChanges(s: Regs, mem: Memory, i: Input, log: Log, tag: nat, k: nat, b: nat)
      requires Inv(s, mem, log) && SizedInput(i) && MemoryOk(s, mem, i) && k < SETS && b < LINE
      ensures View(NextRams(s, i), NextMemory(s, mem, i), tag, k)[b]
        == if Writes(s) && Covers(s.p1.req, tag, k, b) && b - s.p1.req.addr.off < |s.p1.req.data|
           then s.p1.req.data[b - s.p1.req.addr.off] else View(s.ram, mem, tag, k)[b]
    {
      hide Merge; hide View; hide NextRams; hide NextMemory; hide MemoryOk;
      ViewChanges(s, mem, i, tag, k);
      if Writes(s) { WritesBusy(s); MergedBytes(View(s.ram, mem, tag, k), s.p1.req, b); }
    }

    static lemma InvParts(s: Regs, mem: Memory, log: Log)
      requires Inv(s, mem, log)
      ensures Control(s) && Data(s, mem) && Sized(s) && Ordered(Shadows(Pending(s)), Newest(s), log.nextId)
      ensures Accounted(Shadows(Pending(s)), Newest(s), log.nextId, log.answered)
    {
    }

    static lemma LogOfNext(s: Regs, i: Input, log: Log)
      requires Sized(s) && SizedInput(i)
      ensures NextLog(s, i, log).answered == log.answered + Answered(s, i)
      ensures NextLog(s, i, log).nextId == if Accepts(s, i) then log.nextId + 1 else log.nextId
    {
    }

    static lemma RamsOfNext(s: Regs, i: Input, id: nat)
      requires Sized(s) && SizedInput(i)
      ensures Next(s, i, id).ram == NextRams(s, i)
    {
    }

    /** Every register of the block. */
    static method NextRegs(s: Regs, i: Input, id: nat) returns (n: Regs)
      requires Sized(s) && SizedInput(i)
      ensures n == Next(s, i, id)
    {
      hide Merge; hide AnswersLoad2; hide AnswerOf; hide NextGraduated; hide NextRobInflight; hide NextPort1; hide NextPort2;
      hide NextCtl; hide NextRams; hide NextCount; hide Accepts; hide Drops; hide PopsStore; hide PopsLoad; hide Pushes;
      PopsNonEmpty(s, i);
      var queue := s.queue;
      if Pops(s, i) { queue := queue[1..]; }
      if Pushes(s, i) { queue := queue + [s.p2.req]; }
      var g, f := EntryRegs(s, i);
      var empty := s.queue == [] && i.drain && i.req.None? && !PopsLoad(s) && !Accepts(s, i) && !Pushes(s, i) && s.nInflight == 0
        && !(s.ctl.state == HandleReload && (s.p1.req.isStore || !s.ctl.ackEarly));
      n := Regs(NextCtl(s, i), NextPort1(s, i), NextPort2(s, i, id), queue, NextRams(s, i),
                if s.p1.req.isStore then Merge(s.p1.out.line, s.p1.req) else seq(16, _ => 0), g, f, NextCount(s, i), empty);
    }

    /** The bits of each reorder-buffer entry are overwritten in the order of the source:
        retirements, a request that enters the queue, one that is finished, one that is dropped. */
    static method EntryRegs(s: Regs, i: Input) returns (g: seq<nat>, f: seq<bool>)
      requires Sized(s) && SizedInput(i)
      ensures |g| == |f| == ROB
      ensures forall r :: 0 <= r < ROB ==> g[r] == NextGraduated(s, i, r) && f[r] == NextRobInflight(s, i, r)
    {
      hide AnswersLoad2; hide PopsStore; hide PopsLoad; hide MayPop;
      if Drops(s, i) { DropsHead(s, i); }
      g, f := s.graduated, s.robInflight;
      for r := 0 to ROB
        invariant |g| == ROB
        invariant forall k :: 0 <= k < ROB ==> g[k] == if k < r && k in i.retire && s.graduated[k] == 1 then 2 else s.graduated[k]
      {
        if r in i.retire && g[r] == 1 { g := g[r := 2]; }
      }
      if Pushes(s, i) {
        f := f[s.p2.req.rob := true];
        if s.p2.req.isStore { g := g[s.p2.req.rob := 1]; }
      }
      if s.ctl.state == Active && Hit1(s) && s.p1.req.isStore { g := g[s.p1.req.rob := 0]; }
      if Hit1(s) || AcksEarly(s, i) { f := f[s.p1.req.rob := false]; }
      if Drops(s, i) { g, f := g[s.queue[0].rob := 0], f[s.queue[0].rob := false]; }
    }

    static lemma DropsHead(s: Regs, i: Input)
      requires Sized(s) && SizedInput(i) && Drops(s, i)
      ensures s.queue != [] && ReqOk(s.queue[0])
    {
    }
  }
}
