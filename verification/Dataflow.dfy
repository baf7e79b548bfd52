/** The values that flow through renaming, wakeup and bypass: every operand an instruction gets is
    the one program order gives it.

    The machine is that of `InFlight`; beside it runs a record of the results of the live
    instructions and of the architectural registers as the retired ones left them. */
module Dataflow {
  import opened RenameMachine
  import opened InFlight
  import W = Wakeup
  import Port = CompletionPort

  /** `last` is the last value produced for every physical register; `values` the result of every
      instruction that delivered one; `commit` the logical registers after the retired
      instructions. */
  datatype Data = Data(last: seq<int>, values: map<nat, int>, commit: seq<int>)

  /** The result of instruction `id`. */
  function ResultOf(d: Data, id: nat): int {
    if id in d.values then d.values[id] else 0
  }

  /** Program order: the value of logical register `l` before the `k`-th live instruction is the
      result of the youngest instruction before it that writes `l`, or what the retired ones left. */
  function ValueBefore(s: Side, d: Data, k: nat, l: nat): int
    requires k <= |s.v.live| && l < |d.commit|
  {
    if k == 0 then d.commit[l]
    else if s.v.live[k - 1].validDst && s.v.live[k - 1].ldst == l then ResultOf(d, s.base + k - 1)
    else ValueBefore(s, d, k - 1, l)
  }

  function Delivered1(values: map<nat, int>, res: W.Option<Result>): map<nat, int> {
    if res.Some? then values[res.value.id := res.value.value] else values
  }

  /** The results of a clock entered. */
  function WithResults(s: Side, d: Data, i: Input): Data {
    var values := Delivered1(Delivered1(Delivered1(Delivered1(Delivered1(d.values, i.int1), i.int2), i.mem), i.mul), i.div);
    Data(W.Recorded(d.last, Writes5(s, i)), values, d.commit)
  }

  function Writes5(s: Side, i: Input): seq<W.Write> {
    W.Listed(WriteOf(s, i.int1)) + W.Listed(WriteOf(s, i.int2)) + W.Listed(WriteOf(s, i.mem))
    + W.Listed(WriteOf(s, i.mul)) + W.Listed(WriteOf(s, i.div))
  }

  /** The oldest instruction retires. */
  function Commit1(s: Side, commit: seq<int>, d: Data): seq<int> {
    if s.v.live != [] && s.v.live[0].validDst && s.v.live[0].ldst < |commit|
    then commit[s.v.live[0].ldst := ResultOf(d, s.base)] else commit
  }

  function CommitMany(s: Side, d: Data, n: nat): (r: seq<int>)
    ensures |r| == |d.commit|
  {
    if n == 0 then d.commit else Commit1(Pop(s, n - 1), CommitMany(s, d, n - 1), d)
  }

  function NextData(m: Machine, i: Input, d: Data): Data {
    var e := WithResults(m.side, d, i);
    if i.recover then e else e.(commit := CommitMany(m.side, e, i.retires))
  }

  // ---------------------------------------------------------------- the invariant

  /** Each retired mapping holds its architectural value, and each finished live instruction's
      register its result. */
  ghost predicate DataOk(s: Side, d: Data) {
    && |d.last| == PRF && |d.commit| == ARCH
    && (forall l :: 0 <= l < ARCH ==> s.v.retireRat[l] < PRF && d.last[s.v.retireRat[l]] == d.commit[l])
    && (forall k :: 0 <= k < |s.v.live| ==> Finished(s, d, k))
  }

  ghost predicate Finished(s: Side, d: Data, k: nat)
    requires k < |s.v.live| && |d.last| == PRF
  {
    s.v.live[k].validDst && s.base + k !in s.open ==>
      s.base + k in d.values && s.v.live[k].pdst < PRF && d.last[s.v.live[k].pdst] == d.values[s.base + k]
  }

  /** Whatever a mapping names holds the value of program order, unless its writer is still to
      finish. */
  lemma {:induction false} MappedValue(s: Side, d: Data, k: nat, l: nat)
    requires DataOk(s, d) && k <= |s.v.live| && l < ARCH
    requires !Awaited(s, Apply(s.v.retireRat, s.v.live[..k])[l])
    ensures var p := Apply(s.v.retireRat, s.v.live[..k])[l];
      p < PRF && d.last[p] == ValueBefore(s, d, k, l)
    decreases k
  {
    hide Awaited; hide Finished; hide Apply;
    if k == 0 {
      ApplyNone(s.v.retireRat, s.v.live[..0]);
    } else {
      var e := s.v.live[k - 1];
      assert s.v.live[..k] == s.v.live[..k - 1] + [e];
      ApplyAppend(s.v.retireRat, s.v.live[..k - 1], e);
      if e.validDst && e.ldst == l {
        WriterDone(s, d, k - 1);
      } else {
        MappedValue(s, d, k - 1, l);
      }
    }
  }

  lemma ApplyNone(rat: Rat, es: seq<Entry>)
    requires es == []
    ensures Apply(rat, es) == rat
  {
  }

  lemma WriterDone(s: Side, d: Data, k: nat)
    requires DataOk(s, d) && k < |s.v.live| && s.v.live[k].validDst && !Awaited(s, s.v.live[k].pdst)
    ensures s.v.live[k].pdst < PRF && d.last[s.v.live[k].pdst] == ResultOf(d, s.base + k)
  {
    assert Writes(s, s.base + k, s.v.live[k].pdst);
    assert Finished(s, d, k);
  }

  // ---------------------------------------------------------------- its steps

  lemma PushData(s: Side, u: Uop, d: Data)
    requires SideOk(s) && DataOk(s, d) && Enabled(s.v, AllocOf(u)) && (u.validDst ==> u.pushed)
    ensures DataOk(PushOne(s, u), d)
  {
    hide Apply; hide Image;
    var t := PushOne(s, u);
    forall k | 0 <= k < |t.v.live| ensures Finished(t, d, k) {
      if k < |s.v.live| { assert Finished(s, d, k) && t.v.live[k] == s.v.live[k]; }
    }
  }

  lemma {:induction false} PushManyData(s: Side, us: seq<Uop>, d: Data)
    requires SideOk(s) && DataOk(s, d) && PushOk(s, us)
    ensures DataOk(Push(s, us), d)
    decreases |us|
  {
    hide DataOk; hide SideOk;
    if us != [] {
      PushManyData(s, us[..|us| - 1], d);
      PushManyOk(s, us[..|us| - 1]);
      PushData(Push(s, us[..|us| - 1]), us[|us| - 1], d);
    }
  }

  /** The value before an instruction does not depend on those renamed after it. */
  lemma PopData(s: Side, d: Data, commit: seq<int>)
    requires SideOk(s) && DataOk(s, d.(commit := commit)) && s.v.live != [] && s.base !in s.open
    ensures DataOk(PopOne(s), d.(commit := Commit1(s, commit, d)))
  {
    hide Apply; hide Image;
    var h, t := s.v.live[0], PopOne(s);
    assert Finished(s, d.(commit := commit), 0);
    forall k | 0 <= k < |t.v.live| ensures Finished(t, d.(commit := Commit1(s, commit, d)), k) {
      assert Finished(s, d.(commit := commit), k + 1) && t.v.live[k] == s.v.live[k + 1];
    }
  }

  lemma {:induction false} PopManyData(s: Side, d: Data, n: nat)
    requires SideOk(s) && DataOk(s, d) && n <= |s.v.live| && forall k :: s.base <= k < s.base + n ==> k !in s.open
    ensures DataOk(Pop(s, n), d.(commit := CommitMany(s, d, n)))
  {
    hide DataOk; hide SideOk; hide Commit1;
    if n == 0 {
      assert d.(commit := CommitMany(s, d, 0)) == d;
    } else {
      PopManyData(s, d, n - 1);
      PopManyOk(s, n - 1);
      var t := Pop(s, n - 1);
      assert t.v.live != [] && t.base !in t.open;
      PopData(t, d, CommitMany(s, d, n - 1));
    }
  }

  /** The results of a clock, each entered for its instruction and for its register. */
  lemma ResultsData(m: Machine, i: Input, d: Data, lat: nat, w: nat)
    requires Coupled(m, lat, w) && UnitsOk(m, i, w) && BlocksOk(m, i) && DataOk(m.side, d)
    ensures DataOk(Close(m.side, DoneIds(i), i.enter.Values), WithResults(m.side, d, i))
  {
    hide Inv; hide W.Inv; hide Port.Inv; hide Apply; hide Image; hide PushOk; hide Awaited; hide EntryOk; hide W.OperandReady;
    hide SideOk; hide W.Recorded; hide Writes5; hide DoneIds; hide ResultOk;
    var s, e := m.side, WithResults(m.side, d, i);
    WritesApart(m, i, lat, w);
    forall l | 0 <= l < ARCH ensures e.last[s.v.retireRat[l]] == d.commit[l] {
      RetiredNotWritten(m, i, l, lat, w);
      W.RecordedAt(d.last, Writes5(s, i), s.v.retireRat[l]);
    }
    var t := Close(s, DoneIds(i), i.enter.Values);
    forall k | 0 <= k < |t.v.live| ensures Finished(t, e, k) {
      if s.v.live[k].validDst && s.base + k !in t.open { FinishedAfter(m, i, d, k, lat, w); }
    }
  }

  /** The writes of a clock are to different registers. */
  lemma WritesApart(m: Machine, i: Input, lat: nat, w: nat)
    requires Coupled(m, lat, w) && UnitsOk(m, i, w) && BlocksOk(m, i)
    ensures var ws := Writes5(m.side, i); forall a, b :: 0 <= a < b < |ws| ==> ws[a].dst != ws[b].dst
    ensures Writes5(m.side, i) == W.Results(Seen(m, i))
  {
    hide Inv; hide W.Inv; hide Port.Inv; hide Apply; hide Image; hide PushOk; hide Awaited; hide EntryOk; hide W.OperandReady;
    hide SideOk; hide Coupled; hide UnitsOk; hide BlocksOk;
    SurroundingsHold(m, i, lat, w);
    W.ResultsApart(m.r, Seen(m, i));
  }

  /** A write of this clock belongs to an unfinished instruction that writes that register. */
  lemma WriteHasOwner(m: Machine, i: Input, j: nat, w: nat) returns (id: nat)
    requires UnitsOk(m, i, w) && j < |Writes5(m.side, i)|
    ensures id in m.side.open && id in DoneIds(i) && Writes(m.side, id, Writes5(m.side, i)[j].dst)
  {
    hide Writes; hide Port.Inv;
    var s, wr := m.side, Writes5(m.side, i)[j];
    id := 0;
    if wr in W.Listed(WriteOf(s, i.int1)) { id := i.int1.value.id; }
    else if wr in W.Listed(WriteOf(s, i.int2)) { id := i.int2.value.id; }
    else if wr in W.Listed(WriteOf(s, i.mem)) { id := i.mem.value.id; }
    else if wr in W.Listed(WriteOf(s, i.mul)) { id := i.mul.value.id; }
    else { id := i.div.value.id; }
  }

  lemma RetiredNotWritten(m: Machine, i: Input, l: nat, lat: nat, w: nat)
    requires Coupled(m, lat, w) && UnitsOk(m, i, w) && l < ARCH
    ensures var ws := Writes5(m.side, i); forall j :: 0 <= j < |ws| ==> ws[j].dst != m.side.v.retireRat[l]
  {
    hide Apply; hide UnitsOk; hide Writes5; hide W.Inv; hide Port.Inv;
    var ws := Writes5(m.side, i);
    ImageHas(m.side.v.retireRat);
    forall j | 0 <= j < |ws| ensures ws[j].dst != m.side.v.retireRat[l] {
      var id := WriteHasOwner(m, i, j, w);
    }
  }

  lemma FinishedAfter(m: Machine, i: Input, d: Data, k: nat, lat: nat, w: nat)
    requires Coupled(m, lat, w) && UnitsOk(m, i, w) && BlocksOk(m, i) && DataOk(m.side, d) && k < |m.side.v.live|
    requires m.side.v.live[k].validDst && !(m.side.base + k in m.side.open && m.side.base + k !in DoneIds(i))
    ensures var e := WithResults(m.side, d, i);
      m.side.base + k in e.values && m.side.v.live[k].pdst < PRF && e.last[m.side.v.live[k].pdst] == e.values[m.side.base + k]
  {
    hide Inv; hide W.Inv; hide Port.Inv; hide Apply; hide Image; hide PushOk; hide Awaited; hide EntryOk; hide W.OperandReady;
    hide W.Recorded; hide Writes5; hide DoneIds; hide SideOk;
    var s, p, id := m.side, m.side.v.live[k].pdst, m.side.base + k;
    WritesApart(m, i, lat, w);
    assert Writes(s, id, p);
    WrittenOnce(s, id, id, p);
    W.RecordedAt(d.last, Writes5(s, i), p);
    assert Finished(s, d, k);
    if id in s.open {
      var v := DoneIsWritten(m, i, d, id, p, lat, w);
      assert W.Write(p, v) in Writes5(s, i);
    } else {
      NotWrittenAgain(m, i, id, p, lat, w);
      NotDelivered(m, i, d, id, w);
    }
  }

  lemma NotDelivered(m: Machine, i: Input, d: Data, id: nat, w: nat)
    requires UnitsOk(m, i, w) && id !in m.side.open
    ensures var e := WithResults(m.side, d, i);
      (id in e.values <==> id in d.values) && (id in d.values ==> e.values[id] == d.values[id])
  {
    hide Writes;
  }

  /** The result of an instruction that is done goes to its register. */
  lemma DoneIsWritten(m: Machine, i: Input, d: Data, id: nat, p: nat, lat: nat, w: nat) returns (v: int)
    requires Coupled(m, lat, w) && UnitsOk(m, i, w) && BlocksOk(m, i) && id in DoneIds(i) && Writes(m.side, id, p)
    ensures var e := WithResults(m.side, d, i);
      id in e.values && e.values[id] == v && W.Write(p, v) in Writes5(m.side, i)
  {
    hide Inv; hide W.Inv; hide Apply; hide Image; hide PushOk; hide Awaited; hide EntryOk; hide W.OperandReady; hide SideOk; hide W.Recorded;
    Port.InvExclusive(m.port, Port.Input(i.candidate, m.flush), lat, w);
    hide Port.Inv; hide UnitsOk; hide BlocksOk;
    v := WithResults(m.side, d, i).values[id];
  }

  lemma NotWrittenAgain(m: Machine, i: Input, id: nat, p: nat, lat: nat, w: nat)
    requires Coupled(m, lat, w) && UnitsOk(m, i, w) && Writes(m.side, id, p) && id !in m.side.open
    ensures var ws := Writes5(m.side, i); forall j :: 0 <= j < |ws| ==> ws[j].dst != p
  {
    hide Apply; hide UnitsOk; hide Writes5; hide W.Inv; hide Port.Inv; hide SideOk; hide Writes;
    var ws := Writes5(m.side, i);
    forall j | 0 <= j < |ws| ensures ws[j].dst != p {
      var id2 := WriteHasOwner(m, i, j, w);
      if ws[j].dst == p { WrittenOnce(m.side, id, id2, p); }
    }
  }

  lemma NextDataOk(m: Machine, i: Input, d: Data, lat: nat, w: nat)
    requires Coupled(m, lat, w) && UnitsOk(m, i, w) && BlocksOk(m, i) && DataOk(m.side, d)
    ensures DataOk(NextSide(m.side, i), NextData(m, i, d))
  {
    hide DataOk; hide Coupled; hide UnitsOk; hide WithResults; hide SideOk; hide DoneIds; hide Commit1;
    ResultsData(m, i, d, lat, w);
    if i.recover {
      RecoverData(m, i, WithResults(m.side, d, i));
    } else {
      RetireAndRename(m, i, WithResults(m.side, d, i), lat, w);
    }
  }

  lemma RecoverData(m: Machine, i: Input, e: Data)
    requires DataOk(Close(m.side, DoneIds(i), i.enter.Values), e)
    ensures DataOk(Side(Step(m.side.v, Recover), m.side.base + |m.side.v.live|, {}, map[], m.side.uops), e)
  {
    hide DoneIds;
  }

  lemma RetireAndRename(m: Machine, i: Input, e: Data, lat: nat, w: nat)
    requires Coupled(m, lat, w) && BlocksOk(m, i) && DataOk(Close(m.side, DoneIds(i), i.enter.Values), e)
    ensures DataOk(Pop(Push(Close(m.side, DoneIds(i), i.enter.Values), i.uops), i.retires), e.(commit := CommitMany(m.side, e, i.retires)))
  {
    hide DataOk; hide SideOk; hide DoneIds; hide Commit1; hide Inv; hide W.Inv; hide Port.Inv; hide Awaited; hide EntryOk;
    hide W.OperandReady;
    var s, t := m.side, Close(m.side, DoneIds(i), i.enter.Values);
    CloseOk(s, DoneIds(i), i.enter.Values);
    PushAfterClose(s, t, i.uops);
    PushManyData(t, i.uops, e);
    PushManyOk(t, i.uops);
    PopManyData(Push(t, i.uops), e, i.retires);
    PushLive(t, i.uops);
    SameCommits(s, Push(t, i.uops), e, i.retires);
  }

  /** What retires was renamed before: the new instructions and the books do not matter. */
  lemma {:induction false} SameCommits(s: Side, q: Side, d: Data, n: nat)
    requires s.v.live <= q.v.live && s.base == q.base && n <= |s.v.live|
    ensures CommitMany(q, d, n) == CommitMany(s, d, n)
    decreases n
  {
    hide Pop; hide Commit1;
    if n > 0 {
      SameCommits(s, q, d, n - 1);
      SameHeads(s, q, n - 1);
      SameCommit1(Pop(s, n - 1), Pop(q, n - 1), CommitMany(s, d, n - 1), d);
    }
  }

  lemma SameHeads(s: Side, q: Side, n: nat)
    requires s.v.live <= q.v.live && s.base == q.base && n < |s.v.live|
    ensures var a, b := Pop(s, n), Pop(q, n);
      a.v.live != [] && b.v.live != [] && a.v.live[0] == b.v.live[0] && a.base == b.base
  {
    hide Pop;
    LiveAfter(s, n);
    LiveAfter(q, n);
  }

  lemma SameCommit1(p: Side, q: Side, commit: seq<int>, d: Data)
    requires p.v.live != [] && q.v.live != [] && p.v.live[0] == q.v.live[0] && p.base == q.base
    ensures Commit1(p, commit, d) == Commit1(q, commit, d)
  {
  }

  lemma {:induction false} LiveAfter(s: Side, n: nat)
    requires n <= |s.v.live|
    ensures Pop(s, n).v.live == s.v.live[n..] && Pop(s, n).base == s.base + n
  {
    if n > 0 { LiveAfter(s, n - 1); }
  }

  lemma {:induction false} PushLive(s: Side, us: seq<Uop>)
    ensures s.v.live <= Push(s, us).v.live && Push(s, us).base == s.base
    decreases |us|
  {
    if us != [] { PushLive(s, us[..|us| - 1]); }
  }

  // ---------------------------------------------------------------- the operands

  /** A register whose operand may be used is not awaited once the results of the clock are in. */
  lemma ReadyNotAwaited(m: Machine, i: Input, p: nat, lat: nat, w: nat)
    requires Coupled(m, lat, w) && UnitsOk(m, i, w) && BlocksOk(m, i) && !m.flush && p < PRF
    requires !m.r.inflight[p] || W.Bypassed(Seen(m, i), p)
    ensures !Awaited(Close(m.side, DoneIds(i), i.enter.Values), p)
  {
    hide Inv; hide W.Inv; hide Port.Inv; hide PushOk; hide EntryOk; hide W.OperandReady; hide SideOk; hide Writes; hide DoneIds;
    hide UnitsOk; hide BlocksOk; hide W.Hits;
    CloseOk(m.side, DoneIds(i), i.enter.Values);
    if id :| id in m.side.open && id !in DoneIds(i) && Writes(m.side, id, p) {
      assert Awaited(m.side, p);
      HitsAreDone(m, i, id, p, lat, w);
      assert false;
    }
  }

  /** The operand `o` of a selected instruction, the `k`-th live one, for its logical register `l`,
      is the value program order gives it. */
  lemma OperandValue(m: Machine, i: Input, d: Data, e: nat, k: nat, l: nat, o: W.Operand, lat: nat, w: nat)
    requires Coupled(m, lat, w) && UnitsOk(m, i, w) && BlocksOk(m, i) && !m.flush && e in i.pick
    requires DataOk(m.side, d) && W.Kept(m.r, d.last) && k <= |m.side.v.live| && l < ARCH && o.used
    requires e < |m.r.entries| && (o == m.r.entries[e].a || o == m.r.entries[e].b) && Named(m.side, m.side.base + k, l, o.src)
    ensures o.src < PRF && W.Delivered(m.r, Seen(m, i), o.src) == ValueBefore(m.side, WithResults(m.side, d, i), k, l)
  {
    hide Inv; hide W.Inv; hide Port.Inv; hide PushOk; hide EntryOk; hide W.OperandReady; hide SideOk; hide Writes; hide DoneIds;
    hide UnitsOk; hide W.Kept; hide W.Delivered; hide DataOk; hide W.Recorded; hide Writes5; hide Apply; hide Awaited;
    var s, x := m.side, Seen(m, i);
    SurroundingsHold(m, i, lat, w);
    PickedReady(m, i, e, o);
    NamedNotFree(s, s.base + k, l, o.src);
    W.ReadyExactly(m.r, x, e, o);
    W.DeliveredIsCurrent(m.r, x, o.src, d.last);
    WritesApart(m, i, lat, w);
    ReadyNotAwaited(m, i, o.src, lat, w);
    ResultsData(m, i, d, lat, w);
    var t, e' := Close(s, DoneIds(i), i.enter.Values), WithResults(s, d, i);
    assert t.v.live[..k] == s.v.live[..(s.base + k) - s.base];
    MappedValue(t, e', k, l);
    CommitSize(t, e');
    SameValue(s, t, e', k, l);
  }

  lemma PickedReady(m: Machine, i: Input, e: nat, o: W.Operand)
    requires BlocksOk(m, i) && e in i.pick && e < |m.r.entries| && (o == m.r.entries[e].a || o == m.r.entries[e].b)
    ensures m.r.entries[e].valid && W.OperandReady(m.r, Seen(m, i), o)
  {
  }

  lemma {:induction false} SameValue(s: Side, t: Side, d: Data, k: nat, l: nat)
    requires s.v == t.v && s.base == t.base && k <= |s.v.live| && l < |d.commit|
    ensures ValueBefore(s, d, k, l) == ValueBefore(t, d, k, l)
    decreases k
  {
    if k > 0 { SameValue(s, t, d, k - 1, l); }
  }

  /** Operand `o` of the `n`-th live instruction is there if it reads a register, `l`, and what is
      delivered for it is the value program order gives `l`, the results of this clock included. */
  ghost predicate GetsValue(m: Machine, i: Input, d: Data, n: nat, uses: bool, l: nat, o: W.Operand)
    requires n <= |m.side.v.live| && |d.commit| == ARCH
  {
    && (o.used <==> uses && l < ARCH)
    && (o.used ==> o.src < |m.r.rf| && W.Delivered(m.r, Seen(m, i), o.src) == ValueBefore(m.side, WithResults(m.side, d, i), n, l))
  }

  /** Every operand of every selected instruction is the value program order gives the logical
      register it reads. */
  lemma OperandsInProgramOrder(m: Machine, i: Input, d: Data, e: nat, lat: nat, w: nat)
    requires Coupled(m, lat, w) && UnitsOk(m, i, w) && BlocksOk(m, i) && !m.flush && e in i.pick
    requires DataOk(m.side, d) && W.Kept(m.r, d.last)
    ensures |d.commit| == ARCH && e < |m.owner| == |m.r.entries| && m.owner[e] in m.side.uops
    ensures m.side.base <= m.owner[e] < m.side.base + |m.side.v.live|
    ensures var x, u, n := m.r.entries[e], m.side.uops[m.owner[e]], m.owner[e] - m.side.base;
      GetsValue(m, i, d, n, u.usesA, u.a, x.a) && GetsValue(m, i, d, n, u.usesB, u.b, x.b)
  {
    hide Inv; hide W.Inv; hide Port.Inv; hide PushOk; hide W.OperandReady; hide Writes; hide DoneIds; hide Awaited; hide Named;
    hide UnitsOk; hide W.Kept; hide W.Delivered; hide DataOk; hide WithResults; hide ValueBefore;
    var x := m.r.entries[e];
    PickedReady(m, i, e, x.a);
    CommitSize(m.side, d);
    assert EntryOk(m.side, m.owner[e], x);
    var u, k := m.side.uops[m.owner[e]], m.owner[e] - m.side.base;
    if x.a.used { OperandValue(m, i, d, e, k, u.a, x.a, lat, w); }
    if x.b.used { OperandValue(m, i, d, e, k, u.b, x.b, lat, w); }
    RegisterCount(m, lat, w);
  }

  lemma RegisterCount(m: Machine, lat: nat, w: nat)
    requires Coupled(m, lat, w)
    ensures |m.r.rf| == PRF
  {
  }

  // ---------------------------------------------------------------- every run

  /** A run with its record of values, which starts from the register file of reset. */
  ghost predicate IsValueRun(start: seq<int>, slots: nat, lat: nat, w: nat, ms: seq<Machine>, inputs: seq<Input>, ds: seq<Data>) {
    && IsRun(start, slots, lat, w, ms, inputs) && |ds| == |ms|
    && ds[0] == Data(start[0 := 0], map[], seq(ARCH, l requires 0 <= l < ARCH && |start| == PRF => start[0 := 0][l]))
    && forall k :: 0 <= k < |inputs| ==> ds[k + 1] == NextData(ms[k], inputs[k], ds[k])
  }

  lemma StartData(start: seq<int>, slots: nat, lat: nat, w: nat)
    requires |start| == PRF && 0 < lat < w
    ensures var d := Data(start[0 := 0], map[], seq(ARCH, l requires 0 <= l < ARCH && |start| == PRF => start[0 := 0][l]));
      DataOk(Start(start, slots, lat, w).side, d) && W.Kept(Start(start, slots, lat, w).r, d.last)
  {
  }

  lemma {:induction false} EveryValue(start: seq<int>, slots: nat, lat: nat, w: nat, ms: seq<Machine>, inputs: seq<Input>, ds: seq<Data>, k: nat)
    requires IsValueRun(start, slots, lat, w, ms, inputs, ds) && k <= |inputs|
    ensures Coupled(ms[k], lat, w) && DataOk(ms[k].side, ds[k]) && W.Kept(ms[k].r, ds[k].last)
    ensures k < |inputs| ==> Defined(ms[k], inputs[k], lat, w) && W.Surroundings(ms[k].r, Seen(ms[k], inputs[k])) && W.Inv(ms[k].r)
  {
    hide DataOk; hide W.Kept; hide Coupled; hide UnitsOk; hide BlocksOk; hide W.Surroundings; hide W.Inv; hide NextData; hide Next; hide Start;
    hide Seen; hide Defined;
    EveryClock(start, slots, lat, w, ms, inputs, k);
    if k == 0 {
      StartData(start, slots, lat, w);
    } else {
      EveryValue(start, slots, lat, w, ms, inputs, ds, k - 1);
      NextDataOk(ms[k - 1], inputs[k - 1], ds[k - 1], lat, w);
      NextKeeps(ms[k - 1], inputs[k - 1], ds[k - 1], lat, w);
    }
    if k < |inputs| { DefinedHolds(ms[k], inputs[k], lat, w); }
  }

  lemma NextKeeps(m: Machine, i: Input, d: Data, lat: nat, w: nat)
    requires Coupled(m, lat, w) && UnitsOk(m, i, w) && BlocksOk(m, i) && W.Kept(m.r, d.last) && Defined(m, i, lat, w)
    ensures NextSide(m.side, i) == Next(m, i, lat, w).side && W.Kept(Next(m, i, lat, w).r, NextData(m, i, d).last)
  {
    hide SideOk; hide UnitsOk; hide BlocksOk; hide W.Inv; hide W.Kept; hide W.Surroundings; hide NextSide; hide W.Recorded; hide Writes5;
    hide CommitMany; hide Port.Next; hide W.Next; hide EntryOk; hide Defined; hide Awaited;
    SurroundingsHold(m, i, lat, w);
    WritesApart(m, i, lat, w);
    W.NextKept(m.r, Seen(m, i), d.last);
  }

  /** In every clock of every run from reset, every instruction selected for execution gets, for
      each logical register it reads, the result of the youngest instruction before it in program
      order that writes that register. */
  lemma EveryOperand(start: seq<int>, slots: nat, lat: nat, w: nat, ms: seq<Machine>, inputs: seq<Input>, ds: seq<Data>, k: nat, e: nat)
    requires IsValueRun(start, slots, lat, w, ms, inputs, ds) && k < |inputs| && e in inputs[k].pick && !ms[k].flush
    ensures var m := ms[k];
      && e < |m.owner| == |m.r.entries| && m.owner[e] in m.side.uops
      && m.side.base <= m.owner[e] < m.side.base + |m.side.v.live| && |ds[k].commit| == ARCH
    ensures var m, x, u, n := ms[k], ms[k].r.entries[e], ms[k].side.uops[ms[k].owner[e]], ms[k].owner[e] - ms[k].side.base;
      && GetsValue(m, inputs[k], ds[k], n, u.usesA, u.a, x.a) && GetsValue(m, inputs[k], ds[k], n, u.usesB, u.b, x.b)
  {
    hide Coupled; hide UnitsOk; hide BlocksOk; hide W.Kept; hide W.Delivered; hide DataOk; hide GetsValue;
    hide Next; hide NextData; hide Defined; hide W.Surroundings; hide W.Inv; hide Seen; hide Start;
    EveryValue(start, slots, lat, w, ms, inputs, ds, k);
    OperandsInProgramOrder(ms[k], inputs[k], ds[k], e, lat, w);
  }

  lemma CommitSize(s: Side, d: Data)
    requires DataOk(s, d)
    ensures |d.commit| == ARCH
  {
  }
}
