/** Rename, the schedulers' wakeup and the completion port clocked together.

    `Wakeup` relies on its surroundings: no register is handed out while an instruction that
    reads it waits, results arrive only for registers in flight, and one unit at a time claims the
    shared port.  Here all three blocks run side by side, and that is proved of every clock. */
module InFlight {
  import opened RenameMachine
  import W = Wakeup
  import Port = CompletionPort

  /** An instruction being renamed: its destination, the logical registers it reads, and whether
      it goes on to a queue of the execution units or is folded away. */
  datatype Uop = Uop(validDst: bool, ldst: nat, pdst: nat, usesA: bool, a: nat, usesB: bool, b: nat, pushed: bool)

  /** Instructions are numbered in program order, `base` being the oldest one still live.  `open`
      are those sent on that have not finished; `queued` holds the physical sources of those that
      no scheduler holds yet; `uops` is what each of them was renamed from. */
  datatype Side = Side(v: View, base: nat, open: set<nat>, queued: map<nat, W.Sources>, uops: map<nat, Uop>)

  /** `owner` names the instruction in each scheduler slot; `flush` is the drain signal. */
  datatype Machine = Machine(side: Side, r: W.Regs, owner: seq<nat>, port: Port.Regs, flush: bool)

  /** A result and the instruction it belongs to. */
  datatype Result = Result(id: nat, value: int)

  /** One clock: instructions renamed and retired; results of the five units; instructions
      without destination that finish; slots filled (with which instruction) and selected; the
      candidate for the shared port; and the course of a drain. */
  datatype Input = Input(uops: seq<Uop>, retires: nat,
                         int1: W.Option<Result>, int2: W.Option<Result>, mem: W.Option<Result>,
                         mul: W.Option<Result>, div: W.Option<Result>, finished: set<nat>,
                         enter: map<nat, nat>, pick: set<nat>, candidate: Port.Option<Port.Kind>,
                         startFlush: bool, recover: bool, endFlush: bool)

  // ---------------------------------------------------------------- the rename side

  function AllocOf(u: Uop): Event {
    Alloc(u.validDst, u.ldst, u.pdst)
  }

  /** The sources of an instruction, read from the speculative table as it is renamed. */
  function SourcesOf(rat: Rat, u: Uop): W.Sources {
    W.Sources(u.usesA && u.a < ARCH, if u.a < ARCH then rat[u.a] else 0, u.usesB && u.b < ARCH, if u.b < ARCH then rat[u.b] else 0)
  }

  function PushOne(s: Side, u: Uop): Side {
    var id := s.base + |s.v.live|;
    var v := Step(s.v, AllocOf(u));
    var t := s.(v := v, uops := s.uops[id := u]);
    if u.pushed then t.(open := s.open + {id}, queued := s.queued[id := SourcesOf(s.v.allocRat, u)]) else t
  }

  function Push(s: Side, us: seq<Uop>): Side {
    if us == [] then s else PushOne(Push(s, us[..|us| - 1]), us[|us| - 1])
  }

  /** The allocator's guarantees; a folded instruction writes no register. */
  ghost predicate PushOk(s: Side, us: seq<Uop>) {
    us == [] || (
      && PushOk(s, us[..|us| - 1])
      && Enabled(Push(s, us[..|us| - 1]).v, AllocOf(us[|us| - 1]))
      && (us[|us| - 1].validDst ==> us[|us| - 1].pushed))
  }

  function PopOne(s: Side): Side {
    s.(v := Step(s.v, Retire), base := s.base + 1)
  }

  function Pop(s: Side, n: nat): Side {
    if n == 0 then s else PopOne(Pop(s, n - 1))
  }

  function Close(s: Side, done: set<nat>, entered: set<nat>): Side {
    s.(open := s.open - done, queued := s.queued - done - entered)
  }

  // ---------------------------------------------------------------- its invariant

  /** `p` is the mapping of logical register `l` in force just before instruction `id`. */
  ghost predicate Named(s: Side, id: nat, l: nat, p: nat) {
    s.base <= id <= s.base + |s.v.live| && l < ARCH && p == Apply(s.v.retireRat, s.v.live[..id - s.base])[l]
  }

  ghost predicate SourcesNamed(s: Side, id: nat, u: Uop, src: W.Sources) {
    && (src.usesA <==> u.usesA && u.a < ARCH) && (src.usesA ==> Named(s, id, u.a, src.a))
    && (src.usesB <==> u.usesB && u.b < ARCH) && (src.usesB ==> Named(s, id, u.b, src.b))
  }

  ghost predicate Writes(s: Side, id: nat, p: nat) {
    s.base <= id < s.base + |s.v.live| && s.v.live[id - s.base].validDst && s.v.live[id - s.base].pdst == p
  }

  /** Some unfinished instruction is going to write `p`. */
  ghost predicate Awaited(s: Side, p: nat) {
    exists id :: id in s.open && Writes(s, id, p)
  }

  ghost predicate SideOk(s: Side) {
    && Inv(s.v)
    && (forall id :: id in s.open ==> s.base <= id < s.base + |s.v.live|)
    && (forall id :: id in s.queued ==> id in s.open && id in s.uops && SourcesNamed(s, id, s.uops[id], s.queued[id]))
    && (forall id :: id in s.uops ==> id < s.base + |s.v.live|)
  }

  lemma NamedNotFree(s: Side, id: nat, l: nat, p: nat)
    requires SideOk(s) && Named(s, id, l, p)
    ensures p !in s.v.free && p < PRF
  {
    SourcesNotFree(s.v, id - s.base, l);
  }

  lemma WrittenOnce(s: Side, id: nat, id2: nat, p: nat)
    requires SideOk(s) && Writes(s, id, p)
    ensures p !in s.v.free && 0 < p < PRF
    ensures Writes(s, id2, p) ==> id == id2
  {
    ImageHas(s.v.retireRat);
  }

  lemma FreeInRange(s: Side, p: nat)
    requires SideOk(s) && p in s.v.free
    ensures 0 < p < PRF
  {
    ImageHas(s.v.retireRat);
  }

  // ---------------------------------------------------------------- its steps

  lemma PushOneKeeps(s: Side, u: Uop, id: nat, l: nat, p: nat)
    requires SideOk(s) && Enabled(s.v, AllocOf(u))
    ensures Named(s, id, l, p) ==> Named(PushOne(s, u), id, l, p)
    ensures id < s.base + |s.v.live| ==> (Writes(PushOne(s, u), id, p) <==> Writes(s, id, p))
  {
    hide Apply; hide Image; hide Inv;
    var t := PushOne(s, u);
    if s.base <= id <= s.base + |s.v.live| {
      assert t.v.live[..id - s.base] == s.v.live[..id - s.base];
    }
  }

  lemma PushOneOk(s: Side, u: Uop)
    requires SideOk(s) && Enabled(s.v, AllocOf(u)) && (u.validDst ==> u.pushed)
    ensures SideOk(PushOne(s, u))
    ensures var id := s.base + |s.v.live|; id in PushOne(s, u).uops && PushOne(s, u).uops[id] == u && (u.pushed ==> id in PushOne(s, u).queued)
    ensures forall id :: id in s.uops ==> id in PushOne(s, u).uops && PushOne(s, u).uops[id] == s.uops[id]
    ensures forall p :: Awaited(PushOne(s, u), p) <==> Awaited(s, p) || (u.validDst && p == u.pdst)
  {
    hide Apply; hide Image; hide Inv; hide Named; hide Writes;
    var t, n := PushOne(s, u), s.base + |s.v.live|;
    StepInv(s.v, AllocOf(u));
    forall id | id in t.queued ensures id in t.open && id in t.uops && SourcesNamed(t, id, t.uops[id], t.queued[id]) {
      if id == n && u.pushed { FreshNamed(s, u); }
      PushOneKeeps(s, u, id, t.uops[id].a, t.queued[id].a);
      PushOneKeeps(s, u, id, t.uops[id].b, t.queued[id].b);
    }
    forall p ensures Awaited(t, p) <==> Awaited(s, p) || (u.validDst && p == u.pdst) {
      forall id | id in s.open ensures Writes(t, id, p) <==> Writes(s, id, p) { PushOneKeeps(s, u, id, 0, p); }
      LastWrites(s, u, p);
    }
  }

  /** The table that is read for the sources is the mapping in force before the instruction. */
  lemma FreshNamed(s: Side, u: Uop)
    requires Inv(s.v)
    ensures SourcesNamed(s, s.base + |s.v.live|, u, SourcesOf(s.v.allocRat, u))
  {
    assert s.v.live[..|s.v.live|] == s.v.live;
    ImageHas(s.v.allocRat);
  }

  lemma LastWrites(s: Side, u: Uop, p: nat)
    requires Enabled(s.v, AllocOf(u))
    ensures Writes(PushOne(s, u), s.base + |s.v.live|, p) <==> u.validDst && p == u.pdst
  {
  }

  ghost predicate Fetched(us: seq<Uop>, p: nat) {
    exists k :: 0 <= k < |us| && us[k].validDst && us[k].pdst == p
  }

  lemma FetchedSnoc(us: seq<Uop>, p: nat)
    requires us != []
    ensures Fetched(us, p) <==> Fetched(us[..|us| - 1], p) || (us[|us| - 1].validDst && us[|us| - 1].pdst == p)
  {
    var n := |us| - 1;
    if Fetched(us[..n], p) {
      var k :| 0 <= k < n && us[..n][k].validDst && us[..n][k].pdst == p;
      assert us[k].validDst && us[k].pdst == p;
    }
    if Fetched(us, p) {
      var k :| 0 <= k < |us| && us[k].validDst && us[k].pdst == p;
      if k < n { assert us[..n][k].validDst && us[..n][k].pdst == p; }
    }
  }

  lemma NothingFetched(us: seq<Uop>)
    requires us == []
    ensures forall p :: !Fetched(us, p)
  {
  }

  /** Renaming some instructions: what was awaited and what they write is awaited, and what they
      write was free. */
  lemma {:induction false} PushManyOk(s: Side, us: seq<Uop>)
    requires SideOk(s) && PushOk(s, us)
    ensures var t := Push(s, us);
      && SideOk(t) && t.base == s.base && |t.v.live| == |s.v.live| + |us| && t.v.free <= s.v.free && s.open <= t.open
    ensures forall id :: id in Push(s, us).open ==> id in s.open || id >= s.base + |s.v.live|
    ensures forall p :: Awaited(Push(s, us), p) <==> Awaited(s, p) || Fetched(us, p)
    ensures forall p :: Fetched(us, p) ==> p in s.v.free
    ensures forall id, l, p :: Named(s, id, l, p) ==> Named(Push(s, us), id, l, p)
    ensures forall id :: id in s.uops ==> id in Push(s, us).uops && Push(s, us).uops[id] == s.uops[id]
    decreases |us|
  {
    hide Apply; hide Image; hide Inv; hide Named; hide Writes; hide SideOk; hide Awaited; hide Fetched;
    if us == [] {
      NothingFetched(us);
    } else {
      var t, u := Push(s, us[..|us| - 1]), us[|us| - 1];
      PushManyOk(s, us[..|us| - 1]);
      PushOneOk(t, u);
      forall p ensures Fetched(us, p) <==> Fetched(us[..|us| - 1], p) || (u.validDst && u.pdst == p) { FetchedSnoc(us, p); }
      forall id, l, p | Named(t, id, l, p) ensures Named(PushOne(t, u), id, l, p) { PushOneKeeps(t, u, id, l, p); }
    }
  }

  lemma PopOneKeeps(s: Side, id: nat, l: nat, p: nat)
    requires Inv(s.v) && s.v.live != [] && id > s.base
    ensures Named(s, id, l, p) <==> Named(PopOne(s), id, l, p)
    ensures Writes(s, id, p) <==> Writes(PopOne(s), id, p)
  {
    hide Image;
    if id <= s.base + |s.v.live| {
      var older := s.v.live[..id - s.base];
      assert older[0] == s.v.live[0] && older[1..] == s.v.live[1..][..id - s.base - 1];
      ApplyFirst(s.v.retireRat, older);
      assert Apply(s.v.retireRat, older) == Apply(PopOne(s).v.retireRat, older[1..]);
    }
  }

  lemma PopOneOk(s: Side)
    requires SideOk(s) && s.v.live != [] && s.base !in s.open
    ensures SideOk(PopOne(s))
    ensures forall p :: Awaited(PopOne(s), p) <==> Awaited(s, p)
  {
    hide Apply; hide Image; hide Inv; hide Named; hide Writes;
    var t := PopOne(s);
    RetireInv(s.v);
    assert |t.v.live| == |s.v.live| - 1;
    forall id | id in t.queued ensures id in t.open && id in t.uops && SourcesNamed(t, id, t.uops[id], t.queued[id]) {
      PopOneKeeps(s, id, t.uops[id].a, t.queued[id].a);
      PopOneKeeps(s, id, t.uops[id].b, t.queued[id].b);
    }
    forall p, id | id in s.open ensures Writes(t, id, p) <==> Writes(s, id, p) { PopOneKeeps(s, id, 0, p); }
  }

  /** Retiring finished instructions changes nothing for those that remain. */
  lemma {:induction false} PopManyOk(s: Side, n: nat)
    requires SideOk(s) && n <= |s.v.live| && forall k :: s.base <= k < s.base + n ==> k !in s.open
    ensures var t := Pop(s, n);
      SideOk(t) && t.base == s.base + n && |t.v.live| == |s.v.live| - n && t.open == s.open && t.uops == s.uops
    ensures forall p :: Awaited(Pop(s, n), p) <==> Awaited(s, p)
    ensures forall id, l, p :: id >= s.base + n && Named(s, id, l, p) ==> Named(Pop(s, n), id, l, p)
  {
    hide Apply; hide Image; hide Inv; hide Named; hide Writes; hide SideOk; hide Awaited;
    if n > 0 {
      var t := Pop(s, n - 1);
      PopManyOk(s, n - 1);
      assert t.v.live != [] && t.base !in t.open;
      PopOneOk(t);
      assert Inv(t.v) by { SideInv(t); }
      forall id, l, p | id >= s.base + n && Named(s, id, l, p) ensures Named(PopOne(t), id, l, p) { PopOneKeeps(t, id, l, p); }
    }
  }

  lemma SideInv(s: Side)
    requires SideOk(s)
    ensures Inv(s.v)
  {
  }

  /** Instructions that finish, and those a scheduler takes, leave the books. */
  lemma CloseOk(s: Side, done: set<nat>, entered: set<nat>)
    requires SideOk(s)
    ensures var t := Close(s, done, entered);
      SideOk(t) && t.v == s.v && t.base == s.base && t.open == s.open - done && t.uops == s.uops
    ensures forall id, l, p :: Named(s, id, l, p) <==> Named(Close(s, done, entered), id, l, p)
    ensures forall p :: Awaited(Close(s, done, entered), p) <==> exists id :: id in s.open && id !in done && Writes(s, id, p)
  {
    hide Apply; hide Image; hide Inv; hide Writes;
    var t := Close(s, done, entered);
    forall id, p ensures Writes(t, id, p) <==> Writes(s, id, p) { SameWrites(s, t, id, p); }
  }

  lemma SameWrites(s: Side, t: Side, id: nat, p: nat)
    requires s.v == t.v && s.base == t.base
    ensures Writes(t, id, p) <==> Writes(s, id, p)
  {
  }

  // ---------------------------------------------------------------- the whole clock

  /** The register a result goes to. */
  function DstOf(s: Side, id: nat): nat {
    if s.base <= id < s.base + |s.v.live| then s.v.live[id - s.base].pdst else 0
  }

  function WriteOf(s: Side, res: W.Option<Result>): W.Option<W.Write> {
    if res.Some? then W.Some(W.Write(DstOf(s, res.value.id), res.value.value)) else W.None
  }

  function Pushed(us: seq<Uop>): set<nat> {
    set k | 0 <= k < |us| && us[k].validDst :: us[k].pdst
  }

  /** What the execution units see. */
  ghost function Seen(m: Machine, i: Input): W.Input {
    W.Input(WriteOf(m.side, i.int1), WriteOf(m.side, i.int2), WriteOf(m.side, i.mem), WriteOf(m.side, i.mul), WriteOf(m.side, i.div),
            Pushed(i.uops), map e | e in i.enter && i.enter[e] in m.side.queued :: m.side.queued[i.enter[e]], i.pick, m.flush)
  }

  predicate Different(x: W.Option<Result>, y: W.Option<Result>) {
    x.Some? && y.Some? ==> x.value.id != y.value.id
  }

  function IdOf(res: W.Option<Result>): set<nat> {
    if res.Some? then {res.value.id} else {}
  }

  /** The instructions done in this clock. */
  function DoneIds(i: Input): set<nat> {
    IdOf(i.int1) + IdOf(i.int2) + IdOf(i.mem) + IdOf(i.mul) + IdOf(i.div) + i.finished
  }

  /** A unit delivers the result of an instruction that has a destination and has not finished. */
  ghost predicate ResultOk(s: Side, res: W.Option<Result>) {
    res.Some? ==> res.value.id in s.open && Writes(s, res.value.id, DstOf(s, res.value.id))
  }

  /** What single blocks do, each on its own registers: units work on instructions given to them
      and claim the shared port as reserved, the schedulers fill free slots from the queues and
      select valid ready ones, retirement looks at the completion bits, and a recovery happens in
      a drain. */
  ghost predicate UnitsOk(m: Machine, i: Input, w: nat) {
    var s := m.side;
    && m.port.mul != []
    && ResultOk(s, i.int1) && ResultOk(s, i.int2) && ResultOk(s, i.mem) && ResultOk(s, i.mul) && ResultOk(s, i.div)
    && Different(i.int1, i.int2) && Different(i.int1, i.mem) && Different(i.int2, i.mem)
    && Different(i.mul, i.int2) && Different(i.mul, i.mem) && Different(i.div, i.int2) && Different(i.div, i.mem)
    && (i.int1.Some? ==> Port.AluClaims(m.port)) && (i.mul.Some? ==> Port.MulClaims(m.port))
    && (i.div.Some? ==> Port.DivClaims(m.port, w))
  }

  ghost predicate BlocksOk(m: Machine, i: Input) {
    var s, r := m.side, m.r;
    && PushOk(s, i.uops)
    && (forall id :: id in i.finished && s.base <= id < s.base + |s.v.live| ==> !s.v.live[id - s.base].validDst)
    && (forall e :: 0 <= e < |r.entries| && e < |m.owner| && r.entries[e].valid ==> m.owner[e] !in DoneIds(i))
    && (forall e :: e in i.enter ==> e < |r.entries| && !r.entries[e].valid && i.enter[e] in s.queued && i.enter[e] !in DoneIds(i))
    && (forall e :: e in i.pick ==>
      && e < |r.entries| && r.entries[e].valid
      && W.OperandReady(r, Seen(m, i), r.entries[e].a) && W.OperandReady(r, Seen(m, i), r.entries[e].b))
    && i.retires <= |s.v.live| && (forall k :: s.base <= k < s.base + i.retires ==> k !in s.open)
    && (m.flush ==> i.uops == [] && i.enter == map[] && i.retires == 0)
    && (i.recover ==> m.flush)
    && (i.endFlush ==> m.flush && (i.recover || s.v.live == []))
  }

  ghost function NextSide(s: Side, i: Input): Side {
    if i.recover then Side(Step(s.v, Recover), s.base + |s.v.live|, {}, map[], s.uops)
    else Pop(Push(Close(s, DoneIds(i), i.enter.Values), i.uops), i.retires)
  }

  /** The registers have their sizes and the indices that are used fit. */
  ghost predicate Defined(m: Machine, i: Input, lat: nat, w: nat) {
    && Port.Sized(m.port, lat, w) && |m.r.rf| == |m.r.inflight|
    && forall e :: e in Seen(m, i).alloc ==> W.SourcesOk(Seen(m, i).alloc[e], |m.r.inflight|)
  }

  ghost function Next(m: Machine, i: Input, lat: nat, w: nat): Machine
    requires Defined(m, i, lat, w)
  {
    Machine(NextSide(m.side, i), W.Next(m.r, Seen(m, i)),
            seq(|m.owner|, e requires 0 <= e < |m.owner| => if e in i.enter then i.enter[e] else m.owner[e]),
            Port.Next(m.port, Port.Input(i.candidate, m.flush), lat, w),
            (m.flush || i.startFlush) && !i.endFlush)
  }

  /** Operand `o` of instruction `id` is there if the instruction reads a register, `l`, and names
      the mapping of `l` in force before it. */
  ghost predicate OperandNamed(s: Side, id: nat, uses: bool, l: nat, o: W.Operand) {
    (o.used <==> uses && l < ARCH) && (o.used ==> Named(s, id, l, o.src))
  }

  /** A waiting instruction is unfinished, and reads mappings in force before it. */
  ghost predicate EntryOk(s: Side, id: nat, x: W.Entry) {
    x.valid ==>
      && id in s.open && id in s.uops
      && OperandNamed(s, id, s.uops[id].usesA, s.uops[id].a, x.a) && OperandNamed(s, id, s.uops[id].usesB, s.uops[id].b, x.b)
  }

  /** A register is in flight exactly while an unfinished instruction is going to write it. */
  ghost predicate Coupled(m: Machine, lat: nat, w: nat) {
    && SideOk(m.side) && W.Inv(m.r) && Port.Inv(m.port, lat, w)
    && |m.r.inflight| == PRF && |m.owner| == |m.r.entries|
    && (forall p: nat :: p < PRF && m.r.inflight[p] ==> Awaited(m.side, p))
    && (!m.flush ==> forall p: nat :: p < PRF && Awaited(m.side, p) ==> m.r.inflight[p])
    && (forall e :: 0 <= e < |m.owner| ==> EntryOk(m.side, m.owner[e], m.r.entries[e]))
  }

  // ---------------------------------------------------------------- the surroundings hold

  lemma ResultWrites(m: Machine, i: Input, res: W.Option<Result>, lat: nat, w: nat)
    requires Coupled(m, lat, w) && ResultOk(m.side, res)
    ensures W.WriteOk(m.r, Seen(m, i), WriteOf(m.side, res))
  {
    if res.Some? { WrittenOnce(m.side, res.value.id, res.value.id, DstOf(m.side, res.value.id)); }
  }

  lemma ResultsApart(m: Machine, x: W.Option<Result>, y: W.Option<Result>)
    requires SideOk(m.side) && ResultOk(m.side, x) && ResultOk(m.side, y) && Different(x, y)
    ensures W.Apart(WriteOf(m.side, x), WriteOf(m.side, y))
  {
    if x.Some? && y.Some? { WrittenOnce(m.side, x.value.id, y.value.id, DstOf(m.side, x.value.id)); }
  }

  lemma PushedFetched(us: seq<Uop>)
    ensures forall d :: d in Pushed(us) <==> Fetched(us, d)
  {
  }

  lemma AwaitedNotFree(s: Side, p: nat)
    requires SideOk(s) && Awaited(s, p)
    ensures p !in s.v.free
  {
    var id :| id in s.open && Writes(s, id, p);
    WrittenOnce(s, id, id, p);
  }

  /** A register handed out is not in flight, and nothing waiting or entering reads it. */
  lemma PushedUnused(m: Machine, i: Input, d: nat, lat: nat, w: nat)
    requires Coupled(m, lat, w) && d in m.side.v.free
    ensures 0 < d < PRF && !m.r.inflight[d]
    ensures forall e :: 0 <= e < |m.r.entries| && m.r.entries[e].valid ==>
      !W.Uses(m.r.entries[e].a, d) && !W.Uses(m.r.entries[e].b, d)
    ensures forall id :: id in m.side.queued ==>
      (m.side.queued[id].usesA ==> m.side.queued[id].a != d) && (m.side.queued[id].usesB ==> m.side.queued[id].b != d)
  {
    hide Named; hide Inv; hide W.Inv; hide Port.Inv; hide Awaited;
    FreeInRange(m.side, d);
    if Awaited(m.side, d) { AwaitedNotFree(m.side, d); }
    forall id: nat, l: nat | Named(m.side, id, l, d) ensures false { NamedNotFree(m.side, id, l, d); }
    forall e | 0 <= e < |m.r.entries| && m.r.entries[e].valid
      ensures !W.Uses(m.r.entries[e].a, d) && !W.Uses(m.r.entries[e].b, d)
    {
      assert EntryOk(m.side, m.owner[e], m.r.entries[e]);
    }
  }

  lemma QueuedOk(s: Side, id: nat)
    requires SideOk(s) && id in s.queued
    ensures W.SourcesOk(s.queued[id], PRF)
  {
    hide Named; hide Inv;
    assert SourcesNamed(s, id, s.uops[id], s.queued[id]);
    if s.queued[id].usesA { NamedNotFree(s, id, s.uops[id].a, s.queued[id].a); }
    if s.queued[id].usesB { NamedNotFree(s, id, s.uops[id].b, s.queued[id].b); }
  }

  /** Everything wakeup relies on holds in every clock. */
  lemma SurroundingsHold(m: Machine, i: Input, lat: nat, w: nat)
    requires Coupled(m, lat, w) && UnitsOk(m, i, w) && BlocksOk(m, i)
    ensures W.Surroundings(m.r, Seen(m, i))
  {
    hide Named; hide Writes; hide Inv; hide W.Inv; hide Port.Inv; hide Awaited; hide W.WriteOk; hide W.Apart; hide Fetched;
    hide W.OperandReady; hide PushOk; hide EntryOk; hide ResultOk; hide SideOk; hide W.Bypassed;
    var s, x := m.side, Seen(m, i);
    Port.InvExclusive(m.port, Port.Input(i.candidate, m.flush), lat, w);
    ResultWrites(m, i, i.int1, lat, w); ResultWrites(m, i, i.int2, lat, w); ResultWrites(m, i, i.mem, lat, w);
    ResultWrites(m, i, i.mul, lat, w); ResultWrites(m, i, i.div, lat, w);
    ResultsApart(m, i.int1, i.int2); ResultsApart(m, i.int1, i.mem); ResultsApart(m, i.int2, i.mem);
    ResultsApart(m, i.mul, i.int2); ResultsApart(m, i.mul, i.mem);
    ResultsApart(m, i.div, i.int2); ResultsApart(m, i.div, i.mem);
    PushManyOk(s, i.uops);
    PushedFetched(i.uops);
    forall d | d in x.push
      ensures 0 < d < PRF && !m.r.inflight[d]
      ensures forall e :: 0 <= e < |m.r.entries| && m.r.entries[e].valid ==> !W.Uses(m.r.entries[e].a, d) && !W.Uses(m.r.entries[e].b, d)
      ensures forall k :: k in x.alloc ==> (x.alloc[k].usesA ==> x.alloc[k].a != d) && (x.alloc[k].usesB ==> x.alloc[k].b != d)
    {
      PushedUnused(m, i, d, lat, w);
    }
    forall k | k in x.alloc ensures W.SourcesOk(x.alloc[k], |m.r.inflight|) { QueuedOk(s, i.enter[k]); }
  }

  // ---------------------------------------------------------------- and go on holding

  lemma NextSideOk(m: Machine, i: Input, lat: nat, w: nat)
    requires Coupled(m, lat, w) && BlocksOk(m, i) && !i.recover
    ensures var s, t := m.side, NextSide(m.side, i);
      && SideOk(t) && s.open - DoneIds(i) <= t.open
      && (forall p :: Awaited(t, p) <==> Fetched(i.uops, p) || exists id :: id in s.open && id !in DoneIds(i) && Writes(s, id, p))
      && (forall id, l, p :: id in s.open && Named(s, id, l, p) ==> Named(t, id, l, p))
      && (forall id :: id in s.uops ==> id in t.uops && t.uops[id] == s.uops[id])
      && (forall p :: Fetched(i.uops, p) ==> p in s.v.free)
  {
    hide Named; hide Writes; hide Inv; hide W.Inv; hide Port.Inv; hide Awaited; hide Fetched; hide W.OperandReady; hide EntryOk;
    hide DoneIds; hide SourcesNamed; hide Seen; hide Step;
    var s, t := m.side, Close(m.side, DoneIds(i), i.enter.Values);
    CloseOk(s, DoneIds(i), i.enter.Values);
    PushAfterClose(s, t, i.uops);
    PushManyOk(t, i.uops);
    PopManyOk(Push(t, i.uops), i.retires);
  }

  lemma {:induction false} PushAfterClose(s: Side, t: Side, us: seq<Uop>)
    requires PushOk(s, us) && s.v == t.v && s.base == t.base
    ensures PushOk(t, us) && Push(s, us).v == Push(t, us).v && Push(s, us).base == Push(t, us).base
    decreases |us|
  {
    if us != [] { PushAfterClose(s, t, us[..|us| - 1]); }
  }

  lemma HitWrites(s: Side, res: W.Option<Result>, p: nat)
    requires SideOk(s) && ResultOk(s, res)
    ensures W.Hits(WriteOf(s, res), p) <==> res.Some? && Writes(s, res.value.id, p)
  {
  }

  /** Some unit delivers to `p` exactly when the instruction that is to write `p` is done. */
  lemma HitsAreDone(m: Machine, i: Input, id: nat, p: nat, lat: nat, w: nat)
    requires Coupled(m, lat, w) && UnitsOk(m, i, w) && BlocksOk(m, i) && Writes(m.side, id, p)
    ensures var s, x := m.side, Seen(m, i);
      (W.Hits(x.int1, p) || W.Hits(x.int2, p) || W.Hits(x.mem, p) || W.Hits(x.mul, p) || W.Hits(x.div, p)) <==> id in DoneIds(i)
  {
    hide Inv; hide W.Inv; hide Port.Inv; hide Awaited; hide PushOk; hide W.OperandReady; hide EntryOk; hide W.Hits;
    hide ResultOk; hide Writes; hide SideOk;
    var s := m.side;
    HitOnly(s, i.int1, id, p); HitOnly(s, i.int2, id, p); HitOnly(s, i.mem, id, p); HitOnly(s, i.mul, id, p); HitOnly(s, i.div, id, p);
    if id in i.finished { NotFinished(s, id, p); }
  }

  lemma NotFinished(s: Side, id: nat, p: nat)
    requires Writes(s, id, p)
    ensures s.base <= id < s.base + |s.v.live| && s.v.live[id - s.base].validDst
  {
  }

  lemma HitOnly(s: Side, res: W.Option<Result>, id: nat, p: nat)
    requires SideOk(s) && ResultOk(s, res) && Writes(s, id, p)
    ensures W.Hits(WriteOf(s, res), p) <==> id in IdOf(res)
  {
    HitWrites(s, res, p);
    if res.Some? { WrittenOnce(s, id, res.value.id, p); }
  }

  lemma HitNotFree(s: Side, res: W.Option<Result>, p: nat)
    requires SideOk(s) && ResultOk(s, res) && p in s.v.free
    ensures !W.Hits(WriteOf(s, res), p)
  {
    HitWrites(s, res, p);
    if res.Some? && Writes(s, res.value.id, p) { WrittenOnce(s, res.value.id, res.value.id, p); }
  }

  /** The in-flight bit of a register after a clock without a drain. */
  lemma NextInflightIs(m: Machine, i: Input, p: nat, lat: nat, w: nat)
    requires Coupled(m, lat, w) && UnitsOk(m, i, w) && BlocksOk(m, i) && !m.flush && p < PRF
    requires Fetched(i.uops, p) ==> p in m.side.v.free
    ensures W.NextInflight(m.r, Seen(m, i), p) <==>
      (Fetched(i.uops, p) || exists id :: id in m.side.open && id !in DoneIds(i) && Writes(m.side, id, p))
  {
    hide Inv; hide W.Inv; hide PushOk; hide W.OperandReady; hide EntryOk; hide W.Hits; hide ResultOk; hide Writes; hide SideOk;
    hide Fetched; hide DoneIds; hide Port.Inv; hide WriteOf;
    var s, x := m.side, Seen(m, i);
    Port.InvExclusive(m.port, Port.Input(i.candidate, m.flush), lat, w);
    PushedFetched(i.uops);
    NoWrite(s, i.int1, p); NoWrite(s, i.mul, p); NoWrite(s, i.div, p);
    if p in s.v.free {
      HitNotFree(s, i.int1, p); HitNotFree(s, i.int2, p); HitNotFree(s, i.mem, p); HitNotFree(s, i.mul, p); HitNotFree(s, i.div, p);
    }
    forall id | id in s.open && Writes(s, id, p)
      ensures (W.Hits(x.int1, p) || W.Hits(x.int2, p) || W.Hits(x.mem, p) || W.Hits(x.mul, p) || W.Hits(x.div, p)) <==> id in DoneIds(i)
    {
      HitsAreDone(m, i, id, p, lat, w);
    }
  }

  lemma NoWrite(s: Side, res: W.Option<Result>, p: nat)
    ensures (WriteOf(s, res).Some? <==> res.Some?) && (res.None? ==> !W.Hits(WriteOf(s, res), p))
  {
  }

  lemma DefinedHolds(m: Machine, i: Input, lat: nat, w: nat)
    requires Coupled(m, lat, w) && W.Surroundings(m.r, Seen(m, i))
    ensures Defined(m, i, lat, w)
  {
    hide SideOk; hide Seen;
  }

  lemma NextEntryOk(m: Machine, i: Input, e: nat, lat: nat, w: nat)
    requires Coupled(m, lat, w) && BlocksOk(m, i) && W.Surroundings(m.r, Seen(m, i)) && !i.recover && e < |m.owner|
    ensures EntryOk(NextSide(m.side, i), Next(m, i, lat, w).owner[e], W.NextEntry(m.r, Seen(m, i), e))
  {
    hide Inv; hide W.Inv; hide PushOk; hide W.OperandReady; hide Writes; hide Fetched; hide DoneIds; hide Port.Inv; hide Named;
    hide W.Next; hide Port.Next; hide NextSide; hide Awaited; hide W.WriteOk; hide W.Apart;
    NextSideOk(m, i, lat, w);
    assert EntryOk(m.side, m.owner[e], m.r.entries[e]);
    if e in i.enter {
      var id := i.enter[e];
      assert e in Seen(m, i).alloc && SourcesNamed(m.side, id, m.side.uops[id], m.side.queued[id]);
    }
  }

  lemma RecoverOk(m: Machine, i: Input, lat: nat, w: nat)
    requires Coupled(m, lat, w) && BlocksOk(m, i) && i.recover && W.Surroundings(m.r, Seen(m, i))
    ensures SideOk(NextSide(m.side, i)) && forall p :: !Awaited(NextSide(m.side, i), p)
    ensures forall e :: 0 <= e < |m.owner| ==> !W.NextEntry(m.r, Seen(m, i), e).valid
  {
    hide Inv;
    RecoverInv(m.side.v);
  }

  /** The three blocks stay in step through every clock. */
  lemma NextCoupled(m: Machine, i: Input, lat: nat, w: nat)
    requires Coupled(m, lat, w) && UnitsOk(m, i, w) && BlocksOk(m, i)
    ensures W.Surroundings(m.r, Seen(m, i)) && Defined(m, i, lat, w) && Coupled(Next(m, i, lat, w), lat, w)
  {
    hide Inv; hide W.Inv; hide Port.Inv; hide Writes; hide PushOk; hide W.OperandReady; hide Named; hide DoneIds; hide SideOk;
    hide EntryOk; hide W.NextEntry; hide W.NextInflight; hide Port.Next; hide Fetched; hide Awaited;
    hide UnitsOk; hide BlocksOk; hide NextSide; hide Seen;
    SurroundingsHold(m, i, lat, w);
    DefinedHolds(m, i, lat, w);
    var n := Next(m, i, lat, w);
    W.NextInv(m.r, Seen(m, i));
    Port.NextInv(m.port, Port.Input(i.candidate, m.flush), lat, w);
    NextSideFacts(m, i, lat, w);
    NextFlightFacts(m, i, lat, w);
    forall e | 0 <= e < |n.owner| ensures EntryOk(n.side, n.owner[e], n.r.entries[e]) {
      assert n.r.entries[e] == W.NextEntry(m.r, Seen(m, i), e);
      EntriesOk(m, i, e, lat, w);
    }
  }

  lemma NextSideFacts(m: Machine, i: Input, lat: nat, w: nat)
    requires Coupled(m, lat, w) && UnitsOk(m, i, w) && BlocksOk(m, i) && W.Surroundings(m.r, Seen(m, i))
    ensures SideOk(NextSide(m.side, i))
  {
    hide SideOk; hide NextSide; hide UnitsOk; hide W.Surroundings; hide Inv;
    if i.recover { RecoverOk(m, i, lat, w); } else { NextSideOk(m, i, lat, w); }
  }

  lemma EntriesOk(m: Machine, i: Input, e: nat, lat: nat, w: nat)
    requires Coupled(m, lat, w) && UnitsOk(m, i, w) && BlocksOk(m, i) && W.Surroundings(m.r, Seen(m, i)) && e < |m.owner|
    ensures EntryOk(NextSide(m.side, i), Next(m, i, lat, w).owner[e], W.NextEntry(m.r, Seen(m, i), e))
  {
    hide SideOk; hide NextSide; hide UnitsOk; hide BlocksOk; hide W.Surroundings; hide Inv; hide Seen; hide W.NextEntry; hide Next;
    if i.recover { RecoverOk(m, i, lat, w); } else { NextEntryOk(m, i, e, lat, w); }
  }

  lemma NextFlightFacts(m: Machine, i: Input, lat: nat, w: nat)
    requires Coupled(m, lat, w) && UnitsOk(m, i, w) && BlocksOk(m, i) && W.Surroundings(m.r, Seen(m, i))
    ensures var n := Next(m, i, lat, w);
      && (forall p: nat :: p < PRF && n.r.inflight[p] ==> Awaited(n.side, p))
      && (!n.flush ==> forall p: nat :: p < PRF && Awaited(n.side, p) ==> n.r.inflight[p])
  {
    hide Inv; hide W.Inv; hide Port.Inv; hide Writes; hide PushOk; hide W.OperandReady; hide Named; hide DoneIds;
    hide W.Surroundings; hide EntryOk; hide W.NextEntry; hide Port.Next; hide Fetched; hide Awaited; hide W.Hits;
    hide UnitsOk; hide NextSide; hide ResultOk;
    DefinedHolds(m, i, lat, w);
    var n := Next(m, i, lat, w);
    assert forall p: nat :: p < PRF ==> n.r.inflight[p] == W.NextInflight(m.r, Seen(m, i), p);
    if i.recover {
      RecoverOk(m, i, lat, w);
    } else {
      NextSideOk(m, i, lat, w);
      if m.flush {
        NothingFetched(i.uops);
      } else {
        hide W.NextInflight;
        forall p: nat | p < PRF ensures n.r.inflight[p] <==> Awaited(n.side, p) { NextInflightIs(m, i, p, lat, w); }
      }
    }
  }

  // ---------------------------------------------------------------- every run

  /** Reset: nothing renamed, nothing in flight; the register file is arbitrary. */
  function Start(start: seq<int>, slots: nat, lat: nat, w: nat): Machine {
    var none := W.Operand(false, 0, true);
    Machine(Side(Reset(), 0, {}, map[], map[]),
            W.Regs(start, seq(|start|, _ => false), seq(slots, _ => W.Entry(false, none, none)), W.None, W.None),
            seq(slots, _ => 0), Port.Reset(lat, w), false)
  }

  lemma StartCoupled(start: seq<int>, slots: nat, lat: nat, w: nat)
    requires |start| == PRF && 0 < lat < w
    ensures Coupled(Start(start, slots, lat, w), lat, w)
  {
    hide Inv;
    ResetInv();
    Port.RunInv(lat, w, []);
  }

  /** A run from reset in which every block does what it may. */
  ghost predicate IsRun(start: seq<int>, slots: nat, lat: nat, w: nat, ms: seq<Machine>, inputs: seq<Input>) {
    && |start| == PRF && 0 < lat < w && |ms| == |inputs| + 1 && ms[0] == Start(start, slots, lat, w)
    && forall k :: 0 <= k < |inputs| ==>
      && UnitsOk(ms[k], inputs[k], w) && BlocksOk(ms[k], inputs[k])
      && (Defined(ms[k], inputs[k], lat, w) ==> ms[k + 1] == Next(ms[k], inputs[k], lat, w))
  }

  /** In every clock of every run the surroundings of wakeup hold, and so does its invariant. */
  lemma {:induction false} EveryClock(start: seq<int>, slots: nat, lat: nat, w: nat, ms: seq<Machine>, inputs: seq<Input>, k: nat)
    requires IsRun(start, slots, lat, w, ms, inputs) && k <= |inputs|
    ensures Coupled(ms[k], lat, w)
    ensures k < |inputs| ==> W.Surroundings(ms[k].r, Seen(ms[k], inputs[k])) && W.Inv(ms[k].r)
  {
    hide W.Surroundings; hide UnitsOk; hide BlocksOk; hide W.Inv; hide SideOk; hide Next; hide Seen; hide Start;
    if k == 0 {
      StartCoupled(start, slots, lat, w);
    } else {
      EveryClock(start, slots, lat, w, ms, inputs, k - 1);
      NextCoupled(ms[k - 1], inputs[k - 1], lat, w);
    }
    if k < |inputs| { NextCoupled(ms[k], inputs[k], lat, w); }
  }
}
