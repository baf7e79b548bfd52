/** What the requests of the first-level data cache are and mean: the ones the core sent, with the
    data the core sent for them, byte by byte. */
module L1dRequests {
  import opened L1dMachine
  import opened L1dCoherence
  import opened L1dOrder

  // ---------------------------------------------------------------- bytes

  /** A store that covers byte `b` of the line. */
  predicate Covers(q: Req, tag: nat, k: nat, b: nat) {
    q.isStore && q.addr.tag == tag && q.addr.set_ == k && q.addr.off <= b < q.addr.off + q.size
  }

  /** A store with its data: as many bytes as it covers, or more. */
  predicate Loaded(q: Req) {
    q.addr.off < LINE && q.size <= |q.data|
  }

  /** `v` is the byte of the last store of `qs` that covers byte `b`, or `was` if none does. */
  ghost predicate LastStored(v: nat, was: nat, qs: seq<Req>, tag: nat, k: nat, b: nat) {
    || ((forall j :: 0 <= j < |qs| ==> !Covers(qs[j], tag, k, b)) && v == was)
    || (exists j :: 0 <= j < |qs| && IsLast(v, qs, tag, k, b, j))
  }

  ghost predicate IsLast(v: nat, qs: seq<Req>, tag: nat, k: nat, b: nat, j: nat)
    requires j < |qs|
  {
    && Covers(qs[j], tag, k, b) && b - qs[j].addr.off < |qs[j].data| && v == qs[j].data[b - qs[j].addr.off]
    && forall m :: j < m < |qs| ==> !Covers(qs[m], tag, k, b)
  }

  /** A store changes its own bytes, to its data, and no others. */
  lemma MergedBytes(l: Line, q: Req, b: nat)
    requires Loaded(q) && b < LINE
    ensures Merge(l, q)[b] == if q.addr.off <= b < q.addr.off + q.size then q.data[b - q.addr.off] else l[b]
  {
    assert b < Last(q) <==> b < q.addr.off + q.size;
    if q.addr.off <= b < Last(q) { assert b - q.addr.off < |q.data|; }
  }

  /** A load takes its own bytes, up to the end of the line. */
  lemma ExtractedBytes(l: Line, q: Req)
    requires q.addr.off < LINE
    ensures |Extract(l, q)| == if q.addr.off + q.size <= LINE then q.size else LINE - q.addr.off
    ensures forall j :: 0 <= j < |Extract(l, q)| ==> Extract(l, q)[j] == l[q.addr.off + j]
  {
  }

  /** What is stored can be loaded again. */
  lemma StoredIsLoaded(l: Line, q: Req)
    requires Loaded(q) && q.addr.off + q.size <= LINE
    ensures Extract(Merge(l, q), q) == q.data[..q.size]
  {
    hide Merge; hide Extract;
    ExtractedBytes(Merge(l, q), q);
    forall j: nat | j < q.size ensures Extract(Merge(l, q), q)[j] == q.data[j] { MergedBytes(l, q, q.addr.off + j); }
  }

  lemma {:induction false} AppliedBytes(l: Line, tag: nat, k: nat, qs: seq<Req>, b: nat)
    requires b < LINE && (forall j :: 0 <= j < |qs| ==> qs[j].addr.off < LINE && (qs[j].isStore ==> Loaded(qs[j])))
    ensures LastStored(Apply(l, tag, k, qs)[b], l[b], qs, tag, k, b)
    decreases |qs|
  {
    hide Merge;
    if qs != [] {
      var n := |qs| - 1;
      AppliedBytes(l, tag, k, qs[..n], b);
      var before, q := Apply(l, tag, k, qs[..n]), qs[n];
      if q.isStore { MergedBytes(before, q, b); }
      if Covers(q, tag, k, b) {
        assert IsLast(Apply(l, tag, k, qs)[b], qs, tag, k, b, n);
      } else {
        StillLast(before[b], l[b], qs, tag, k, b);
      }
    }
  }

  lemma StillLast(v: nat, was: nat, qs: seq<Req>, tag: nat, k: nat, b: nat)
    requires qs != [] && !Covers(qs[|qs| - 1], tag, k, b) && LastStored(v, was, qs[..|qs| - 1], tag, k, b)
    ensures LastStored(v, was, qs, tag, k, b)
  {
    var n := |qs| - 1;
    if j :| 0 <= j < n && IsLast(v, qs[..n], tag, k, b, j) {
      assert Covers(qs[j], tag, k, b);
      forall m | j < m < |qs| ensures !Covers(qs[m], tag, k, b) { if m < n { assert qs[..n][m] == qs[m]; } }
      assert IsLast(v, qs, tag, k, b, j);
    } else {
      forall j | 0 <= j < |qs| ensures !Covers(qs[j], tag, k, b) { if j < n { assert qs[..n][j] == qs[j]; } }
    }
  }

  // ---------------------------------------------------------------- identity

  /** Requests in the cache, and stores that left it, are the ones accepted under their numbers;
      only the data of a store came later. */
  ghost predicate Recognized(ps: seq<Req>, newest: Option<Req>, log: Log) {
    && |log.accepted| == log.nextId && (forall k :: 0 <= k < |log.accepted| ==> log.accepted[k].id == k)
    && (forall k :: 0 <= k < |ps| ==> ps[k].id < |log.accepted| && ps[k] == Shadow(log.accepted[ps[k].id]))
    && (newest.Some? ==> newest.value.id < |log.accepted| && newest.value == Shadow(log.accepted[newest.value.id]))
    && (forall k :: 0 <= k < |log.written| ==>
      log.written[k].id < |log.accepted| && Shadow(log.written[k]) == Shadow(log.accepted[log.written[k].id]))
  }

  /** The stores queued are all the stores accepted, except those ignored and the one just accepted. */
  ghost predicate AllQueued(newest: Option<Req>, log: Log) {
    && (forall x: nat :: x in log.stores <==>
      (x < |log.accepted| && log.accepted[x].isStore && x !in log.ignored && !(newest.Some? && newest.value.id == x)))
    && (forall x :: x in log.ignored ==> x < |log.accepted| && !(newest.Some? && newest.value.id == x))
  }

  /** The store in port 1 has its data. */
  ghost predicate Port1Data(s: Regs) {
    Busy1(s) && s.p1.req.isStore ==> |s.p1.req.data| == 4
  }

  ghost predicate WrittenData(log: Log) {
    forall k :: 0 <= k < |log.written| ==> Loaded(log.written[k])
  }

  lemma RecognizedStep(ps: seq<Req>, newest: Option<Req>, d: nat, push: bool, newest': Option<Req>, write: seq<Req>, log: Log, log': Log)
    requires Recognized(ps, newest, log) && d <= |ps| && (push ==> newest.Some?)
    requires log'.nextId == |log'.accepted| && log'.written == log.written + write && |write| <= 1
    requires write != [] ==> ps != [] && Shadow(write[0]) == ps[0]
    requires log'.accepted == log.accepted || (newest'.Some? && |log'.accepted| == log.nextId + 1 && log'.accepted[..log.nextId] == log.accepted)
    requires newest'.Some? ==> |log'.accepted| > 0 && newest'.value.id == |log'.accepted| - 1 && newest'.value == Shadow(log'.accepted[|log'.accepted| - 1])
    ensures Recognized(ps[d..] + (if push then [newest.value] else []), newest', log')
  {
    var x := if push then [newest.value] else [];
    var ps' := ps[d..] + x;
    forall k | 0 <= k < |log.accepted| ensures log'.accepted[k] == log.accepted[k] {
      if log'.accepted != log.accepted { assert log'.accepted[..log.nextId][k] == log.accepted[k]; }
    }
    forall k | 0 <= k < |ps'| ensures ps'[k].id < |log'.accepted| && ps'[k] == Shadow(log'.accepted[ps'[k].id]) {
      assert ps'[k] == if k < |ps| - d then ps[k + d] else newest.value;
    }
    forall k | 0 <= k < |log'.written|
      ensures log'.written[k].id < |log'.accepted| && Shadow(log'.written[k]) == Shadow(log'.accepted[log'.written[k].id])
    {
      assert log'.written[k] == if k < |log.written| then log.written[k] else write[0];
      if k == |log.written| { assert Shadow(write[0]).id == write[0].id; }
    }
  }

  lemma LogOf(s: Regs, i: Input, log: Log)
    requires Sized(s) && SizedInput(i)
    ensures var n := NextLog(s, i, log);
      && n.nextId == (if Accepts(s, i) then log.nextId + 1 else log.nextId)
      && n.accepted == log.accepted + (if Accepts(s, i) then [i.req.value.(id := log.nextId)] else [])
      && n.written == log.written + (if Writes(s) then [s.p1.req] else [])
      && n.stores == log.stores + (if Pushes(s, i) && s.p2.req.isStore then {s.p2.req.id} else {})
      && n.ignored == log.ignored + (if s.p2.got && (i.drain || s.p2.req.nop) then {s.p2.req.id} else {})
  {
    hide Accepts; hide Answered; hide RetiredNow; hide Drops; hide Writes; hide Pushes;
  }

  lemma NextRecognized(s: Regs, i: Input, log: Log)
    requires Control(s) && SizedInput(i) && Recognized(Shadows(Pending(s)), Newest(s), log)
    ensures var n := Next(s, i, log.nextId); Recognized(Shadows(Pending(n)), Newest(n), NextLog(s, i, log))
  {
    var id := log.nextId;
    PendingNext(s, i, id);
    Step(s, i, id);
    PushedShadow(s, i);
    Answers(s, i);
    LogOf(s, i, log);
    hide Next; hide Pushes; hide Accepts; hide Control; hide Pending; hide Leaving; hide Finishes; hide Drops; hide Shadows;
    hide Answer1; hide Answer2; hide Writes; hide NextLog; hide Recognized;
    RecognizedSize(Shadows(Pending(s)), Newest(s), log);
    RecognizedStep(Shadows(Pending(s)), Newest(s), Leaving(s, i), Pushes(s, i), Newest(Next(s, i, id)),
                   if Writes(s) then [s.p1.req] else [], log, NextLog(s, i, log));
  }

  lemma RecognizedSize(ps: seq<Req>, newest: Option<Req>, log: Log)
    requires Recognized(ps, newest, log)
    ensures |log.accepted| == log.nextId
  {
  }

  lemma NextAllQueued(s: Regs, i: Input, log: Log)
    requires Control(s) && SizedInput(i) && Recognized(Shadows(Pending(s)), Newest(s), log) && AllQueued(Newest(s), log)
    ensures AllQueued(Newest(Next(s, i, log.nextId)), NextLog(s, i, log))
  {
    Step(s, i, log.nextId);
    LogOf(s, i, log);
    Port2Leaves(s, i);
    var newest := Newest(s);
    assert newest.Some? ==> newest.value.id == s.p2.req.id && newest.value.isStore == s.p2.req.isStore;
    hide Next; hide Pushes; hide Accepts; hide Control; hide Pending; hide Leaving; hide Finishes; hide Drops; hide Shadows; hide NextLog;
    hide Writes; hide AllQueued; hide Recognized;
    RecognizedNewest(Shadows(Pending(s)), newest, log);
    AllQueuedStep(newest, Newest(Next(s, i, log.nextId)), s.p2.got && (i.drain || s.p2.req.nop), log, NextLog(s, i, log));
  }

  lemma RecognizedNewest(ps: seq<Req>, newest: Option<Req>, log: Log)
    requires Recognized(ps, newest, log)
    ensures |log.accepted| == log.nextId
    ensures newest.Some? ==> newest.value.id < |log.accepted| && newest.value.isStore == log.accepted[newest.value.id].isStore
  {
  }

  lemma AllQueuedStep(newest: Option<Req>, newest': Option<Req>, ignore: bool, log: Log, log': Log)
    requires AllQueued(newest, log) && (ignore ==> newest.Some?) && |log.accepted| == log.nextId
    requires newest.Some? ==> newest.value.id < |log.accepted| && newest.value.isStore == log.accepted[newest.value.id].isStore
    requires if newest'.Some? then newest'.value.id == log.nextId && |log'.accepted| == log.nextId + 1
             else |log'.accepted| == log.nextId
    requires log.accepted <= log'.accepted
    requires log'.stores == log.stores + if newest.Some? && newest.value.isStore && !ignore then {newest.value.id} else {}
    requires log'.ignored == log.ignored + if ignore then {newest.value.id} else {}
    ensures AllQueued(newest', log')
  {
  }

  /** The request in port 2 is ignored, queued, or a load that was answered. */
  lemma Port2Leaves(s: Regs, i: Input)
    requires Control(s)
    ensures s.p2.got && s.p2.req.isStore ==> (Pushes(s, i) <==> !(i.drain || s.p2.req.nop))
    ensures Pushes(s, i) ==> s.p2.got && !(i.drain || s.p2.req.nop)
  {
    hide AnswersLoad2;
  }

  lemma NextPort1Data(s: Regs, i: Input, id: nat)
    requires Control(s) && SizedInput(i) && Port1Data(s)
    ensures Port1Data(Next(s, i, id))
  {
    TakesOwnData(s, i, id);
    Port1After(s, i, id);
    hide Next; hide Control; hide Busy1; hide Finishes;
  }

  /** A store goes to port 1 with the data that arrived for its own entry, and only once it has
      retired; nothing else about it changes, and a load goes as it is. */
  lemma TakesOwnData(s: Regs, i: Input, id: nat)
    requires Control(s) && SizedInput(i)
    ensures var n := Next(s, i, id);
      && (Takes(s, i) ==> s.queue != [])
      && (Takes(s, i) && !s.queue[0].isStore ==> n.p1.req == s.queue[0])
      && (Takes(s, i) && s.queue[0].isStore ==>
        && i.data.Some? && i.data.value.rob == s.queue[0].rob && s.graduated[s.queue[0].rob] == 2
        && n.p1.req == s.queue[0].(data := i.data.value.data))
    ensures !Takes(s, i) ==> Next(s, i, id).p1.req == s.p1.req
  {
    hide NextQueue; hide NextCtl; hide NextRams; hide NextGraduated; hide NextRobInflight; hide NextCount; hide NextPort2;
    hide Merge; hide Look; hide AnySameSet;
    assert Next(s, i, id).p1 == NextPort1(s, i);
    PopsNonEmpty(s, i);
  }

  lemma NextWrittenData(s: Regs, i: Input, log: Log)
    requires Control(s) && SizedInput(i) && Port1Data(s) && WrittenData(log)
    ensures WrittenData(NextLog(s, i, log))
  {
    LogOf(s, i, log);
    WritesBusy(s);
    assert Writes(s) ==> Loaded(s.p1.req);
    hide NextLog; hide Writes; hide Control;
  }

  // ---------------------------------------------------------------- progress

  /** A cache with nothing to do accepts any request whose buffer entry is not in use. */
  lemma IdleAccepts(s: Regs, i: Input)
    requires Control(s) && SizedInput(i) && s.ctl.state == Active && Pending(s) == [] && !s.p2.got
    requires i.req.Some? && !s.robInflight[i.req.value.rob]
    ensures Accepts(s, i)
  {
  }

  /** A load accepted with no store of its set in the queue, or a word load with nothing in its
      word and nothing unaligned in the queue, is answered as soon as it is looked up, if its line
      is there and the core means it. */
  lemma FreshLoadAnswered(s: Regs, i: Input, id: nat, next: Input)
    requires Control(s) && SizedInput(i) && SizedInput(next) && Accepts(s, i) && !i.req.value.isStore
    requires (forall k :: 0 <= k < |s.queue| && s.queue[k].isStore ==> !SameSet(s.queue[k], i.req.value))
      || (i.req.value.size == 4 && !i.req.value.unaligned &&
          forall k :: 0 <= k < |s.queue| ==> !s.queue[k].unaligned && !SameWord(s.queue[k], i.req.value))
    ensures var n := Next(s, i, id);
      n.p2.got && (Hit2(n) && n.ctl.state == Active && !next.drain && !n.p2.req.nop ==>
        n.p2.req.addr.off < LINE && Answer2(n, next).Some? && Answer2(n, next).value.bytes.Some?)
  {
    hide NextQueue; hide NextPort1; hide NextCtl; hide NextRams; hide NextGraduated; hide NextRobInflight; hide NextCount;
    hide Merge; hide Look; hide Extract;
    assert Next(s, i, id).p2 == NextPort2(s, i, id);
  }

  /** The head of the retry queue moves on as soon as port 1 is free of a miss and does not hold a
      store to the same set: a load, and a retired store with its data, go to port 1, and while
      the core drains a dead store that cannot go is discarded.  Nothing else is discarded. */
  lemma HeadMoves(s: Regs, i: Input, log: Log)
    requires Control(s) && SizedInput(i)
    ensures var dropped := NextLog(s, i, log).dropped;
      var free := s.ctl.state == Active && s.queue != [] && (!s.p1.got || (Hit1(s) && !(s.p1.req.isStore && SameSet(s.p1.req, s.queue[0]))));
      && (free && !s.queue[0].isStore ==> Takes(s, i))
      && (free && s.queue[0].isStore ==>
        var goes := s.graduated[s.queue[0].rob] == 2 && i.data.Some? && i.data.value.rob == s.queue[0].rob;
        && (goes ==> Takes(s, i))
        && (!goes && i.drain && i.dead[s.queue[0].rob] ==> s.queue[0].id in dropped))
      && (forall x :: x in dropped && x !in log.dropped ==>
        s.queue != [] && x == s.queue[0].id && s.queue[0].isStore && i.drain && i.dead[s.queue[0].rob])
  {
    hide Answered; hide RetiredNow; hide Pushes; hide Accepts; hide Writes;
  }

  /** A draining cache that has nothing left reports it. */
  lemma EmptyReports(s: Regs, i: Input, id: nat)
    requires Control(s) && SizedInput(i) && s.nInflight == Outstanding(Shadows(Pending(s)), Newest(s))
    requires Pending(s) == [] && !s.p2.got && i.drain && i.req.None?
    ensures Next(s, i, id).memqEmpty
  {
    hide NextQueue; hide NextPort1; hide NextPort2; hide NextCtl; hide NextRams; hide NextGraduated; hide NextRobInflight; hide NextCount;
    assert Shadows(Pending(s)) == [];
  }
}
