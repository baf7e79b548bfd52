/** Wakeup and bypass of exec.sv: the in-flight bits, the operand-ready bits of both schedulers,
    the registered multiplier and divider broadcasts, and the register file of rf6r3w.sv. */
module Wakeup {

  datatype Option<T> = None | Some(value: T)

  /** A source register of an instruction, if it has one, and whether it is marked ready. */
  datatype Operand = Operand(used: bool, src: nat, rdy: bool)

  datatype Entry = Entry(valid: bool, a: Operand, b: Operand)

  datatype Sources = Sources(usesA: bool, a: nat, usesB: bool, b: nat)

  datatype Write = Write(dst: nat, value: int)

  /** `mulDone` and `divDone` are the registered broadcasts: the register written last cycle. */
  datatype Regs = Regs(rf: seq<int>, inflight: seq<bool>, entries: seq<Entry>, mulDone: Option<nat>, divDone: Option<nat>)

  /** One cycle: results of the two ALUs, of memory, and of the multiplier and divider; the
      destinations entering the queues; the slots filled and selected; and the flush. */
  datatype Input = Input(int1: Option<Write>, int2: Option<Write>, mem: Option<Write>, mul: Option<Write>, div: Option<Write>,
                         push: set<nat>, alloc: map<nat, Sources>, pick: set<nat>, flush: bool)

  predicate Hits(w: Option<Write>, r: nat) {
    w.Some? && w.value.dst == r
  }

  /** Results that can be passed on in the cycle they appear. */
  predicate Bypassed(i: Input, src: nat) {
    Hits(i.mem, src) || Hits(i.int2, src) || Hits(i.int1, src)
  }

  predicate Announced(r: Regs, src: nat) {
    r.mulDone == Some(src) || r.divDone == Some(src)
  }

  /** The broadcast match of a waiting entry. */
  predicate Match(r: Regs, i: Input, o: Operand) {
    o.used && (Bypassed(i, o.src) || Announced(r, o.src))
  }

  predicate OperandReady(r: Regs, i: Input, o: Operand) {
    Match(r, i, o) || o.rdy
  }

  /** A new entry looks at the in-flight bit and the bypasses, but not at the broadcasts. */
  function NewOperand(r: Regs, i: Input, used: bool, src: nat): Operand
    requires used ==> src < |r.inflight|
  {
    Operand(used, src, if used then !r.inflight[src] || Bypassed(i, src) else true)
  }

  function NextEntry(r: Regs, i: Input, e: nat): Entry
    requires e < |r.entries|
    requires forall k :: k in i.alloc ==> SourcesOk(i.alloc[k], |r.inflight|)
  {
    var x := r.entries[e];
    if e in i.alloc then
      assert SourcesOk(i.alloc[e], |r.inflight|);
      Entry(!i.flush, NewOperand(r, i, i.alloc[e].usesA, i.alloc[e].a), NewOperand(r, i, i.alloc[e].usesB, i.alloc[e].b))
    else if e in i.pick then Entry(false, x.a.(rdy := false), x.b.(rdy := false))
    else if x.valid then Entry(!i.flush, x.a.(rdy := OperandReady(r, i, x.a)), x.b.(rdy := OperandReady(r, i, x.b)))
    else x
  }

  predicate SourcesOk(s: Sources, n: nat) {
    (s.usesA ==> s.a < n) && (s.usesB ==> s.b < n)
  }

  /** Set by the instructions entering the queues, cleared by the write ports, all cleared by a
      flush.  Port 0 clears for the ALU, else the multiplier, else the divider. */
  function NextInflight(r: Regs, i: Input, k: nat): bool
    requires k < |r.inflight|
  {
    var port0 := if i.int1.Some? then i.int1 else if i.mul.Some? then i.mul else i.div;
    !i.flush && (r.inflight[k] || k in i.push) && !Hits(i.mem, k) && !Hits(port0, k) && !Hits(i.int2, k)
  }

  /** Port 0 writes for the multiplier, else the divider, else the ALU; later ports win. */
  function NextReg(r: Regs, i: Input, k: nat): int
    requires k < |r.rf|
  {
    var port0 := if i.mul.Some? then i.mul else if i.div.Some? then i.div else i.int1;
    if Hits(i.int2, k) then i.int2.value.value
    else if Hits(i.mem, k) then i.mem.value.value
    else if Hits(port0, k) then port0.value.value
    else r.rf[k]
  }

  function Done(w: Option<Write>): Option<nat> {
    if w.Some? then Some(w.value.dst) else None
  }

  function Next(r: Regs, i: Input): (s: Regs)
    requires |r.rf| == |r.inflight| && forall k :: k in i.alloc ==> SourcesOk(i.alloc[k], |r.inflight|)
    ensures |s.rf| == |s.inflight| == |r.rf| && |s.entries| == |r.entries|
  {
    Regs(seq(|r.rf|, k requires 0 <= k < |r.rf| => NextReg(r, i, k)),
         seq(|r.inflight|, k requires 0 <= k < |r.inflight| => NextInflight(r, i, k)),
         seq(|r.entries|, e requires 0 <= e < |r.entries| && forall k :: k in i.alloc ==> SourcesOk(i.alloc[k], |r.inflight|)
           => NextEntry(r, i, e)),
         Done(i.mul), Done(i.div))
  }

  /** A read port: register zero always reads as zero, and a read sees the file before the
      writes of its cycle. */
  function Read(rf: seq<int>, k: nat): int
    requires k < |rf|
  {
    if k == 0 then 0 else rf[k]
  }

  /** What the ALU gets in the cycle after selection: a bypassed result if there was one for this
      register in the cycle of selection, else the word read in that cycle. */
  function Delivered(r: Regs, i: Input, src: nat): int
    requires src < |r.rf|
  {
    if Hits(i.int1, src) then i.int1.value.value
    else if Hits(i.int2, src) then i.int2.value.value
    else if Hits(i.mem, src) then i.mem.value.value
    else Read(r.rf, src)
  }

  // ---------------------------------------------------------------- the surroundings

  predicate Apart(u: Option<Write>, v: Option<Write>) {
    !(u.Some? && v.Some? && u.value.dst == v.value.dst)
  }

  ghost predicate WriteOk(r: Regs, i: Input, w: Option<Write>) {
    w.Some? ==> 0 < w.value.dst < |r.inflight| && (!i.flush ==> r.inflight[w.value.dst])
  }

  predicate Uses(o: Operand, k: nat) {
    o.used && o.src == k
  }

  /** What rename and the completion port guarantee, as `InFlight` proves: one claimant of port 0,
      results only for registers in flight and never two for one register, and no register put in
      flight while an instruction that reads its old value is waiting.  While a flush lasts nothing
      is pushed or allocated, and stale results may still arrive. */
  ghost predicate Surroundings(r: Regs, i: Input) {
    && !(i.int1.Some? && i.mul.Some?) && !(i.int1.Some? && i.div.Some?) && !(i.mul.Some? && i.div.Some?)
    && WriteOk(r, i, i.int1) && WriteOk(r, i, i.int2) && WriteOk(r, i, i.mem) && WriteOk(r, i, i.mul) && WriteOk(r, i, i.div)
    && Apart(i.int1, i.int2) && Apart(i.int1, i.mem) && Apart(i.int2, i.mem)
    && Apart(i.mul, i.int2) && Apart(i.mul, i.mem) && Apart(i.div, i.int2) && Apart(i.div, i.mem)
    && (forall d :: d in i.push ==>
      && 0 < d < |r.inflight| && !r.inflight[d]
      && (forall e :: 0 <= e < |r.entries| && r.entries[e].valid ==> !Uses(r.entries[e].a, d) && !Uses(r.entries[e].b, d))
      && (forall k :: k in i.alloc ==> (i.alloc[k].usesA ==> i.alloc[k].a != d) && (i.alloc[k].usesB ==> i.alloc[k].b != d)))
    && (forall k :: k in i.alloc ==> SourcesOk(i.alloc[k], |r.inflight|) && k < |r.entries| && !r.entries[k].valid)
    && (forall k :: k in i.pick ==>
      && k < |r.entries| && r.entries[k].valid
      && OperandReady(r, i, r.entries[k].a) && OperandReady(r, i, r.entries[k].b))
    && (i.flush ==> i.push == {} && i.alloc == map[])
  }

  // ---------------------------------------------------------------- the invariant

  /** A source not yet marked ready is in flight, or its broadcast is visible now; one marked
      ready is not in flight. */
  ghost predicate OperandOk(r: Regs, o: Operand) {
    o.used ==> o.src < |r.inflight| && (if o.rdy then !r.inflight[o.src] else r.inflight[o.src] || Announced(r, o.src))
  }

  ghost predicate Inv(r: Regs) {
    && |r.rf| == |r.inflight| > 0 && !r.inflight[0]
    && (forall e :: 0 <= e < |r.entries| && r.entries[e].valid ==> OperandOk(r, r.entries[e].a) && OperandOk(r, r.entries[e].b))
    && (forall k :: 0 <= k < |r.inflight| && Announced(r, k) ==> !r.inflight[k])
    && (forall e :: 0 <= e < |r.entries| && r.entries[e].valid ==>
      (!r.entries[e].a.used ==> r.entries[e].a.rdy) && (!r.entries[e].b.used ==> r.entries[e].b.rdy))
  }

  lemma KeptOperand(r: Regs, i: Input, o: Operand)
    requires Inv(r) && Surroundings(r, i) && !i.flush && OperandOk(r, o)
    requires forall d :: d in i.push ==> !Uses(o, d)
    ensures OperandOk(Next(r, i), o.(rdy := OperandReady(r, i, o)))
  {
    if o.used {
      assert Next(r, i).inflight[o.src] == NextInflight(r, i, o.src);
    }
  }

  lemma FreshOperand(r: Regs, i: Input, used: bool, src: nat)
    requires Inv(r) && Surroundings(r, i) && !i.flush && (used ==> src < |r.inflight| && src !in i.push)
    ensures OperandOk(Next(r, i), NewOperand(r, i, used, src))
  {
    if used {
      assert Next(r, i).inflight[src] == NextInflight(r, i, src);
    }
  }

  lemma NextInv(r: Regs, i: Input)
    requires Inv(r) && Surroundings(r, i)
    ensures Inv(Next(r, i))
  {
    var s := Next(r, i);
    hide OperandOk;
    forall e | 0 <= e < |s.entries| && s.entries[e].valid
      ensures OperandOk(s, s.entries[e].a) && OperandOk(s, s.entries[e].b)
    {
      assert s.entries[e] == NextEntry(r, i, e);
      if e in i.alloc {
        FreshOperand(r, i, i.alloc[e].usesA, i.alloc[e].a);
        FreshOperand(r, i, i.alloc[e].usesB, i.alloc[e].b);
      } else {
        KeptOperand(r, i, r.entries[e].a);
        KeptOperand(r, i, r.entries[e].b);
      }
    }
    forall k | 0 <= k < |s.inflight| && Announced(s, k) ensures !s.inflight[k] {
      assert s.inflight[k] == NextInflight(r, i, k);
    }
    assert s.inflight[0] == NextInflight(r, i, 0);
  }

  // ---------------------------------------------------------------- what the invariant gives

  /** No wakeup is lost and none is early: an operand may be used exactly when its register has
      left flight or its result is on a bypass now. */
  lemma ReadyExactly(r: Regs, i: Input, e: nat, o: Operand)
    requires Inv(r) && Surroundings(r, i) && e < |r.entries| && r.entries[e].valid
    requires (o == r.entries[e].a || o == r.entries[e].b) && o.used
    ensures OperandReady(r, i, o) <==> !r.inflight[o.src] || Bypassed(i, o.src)
  {
    assert OperandOk(r, o);
  }

  // ---------------------------------------------------------------- the values

  /** Every result of a clock reaches the register file, whichever unit it comes from, and a
      register without a result keeps its word. */
  lemma ResultsLand(r: Regs, i: Input, k: nat)
    requires Surroundings(r, i) && |r.rf| == |r.inflight| && k < |r.rf|
    ensures Hits(i.int1, k) ==> Next(r, i).rf[k] == i.int1.value.value
    ensures Hits(i.int2, k) ==> Next(r, i).rf[k] == i.int2.value.value
    ensures Hits(i.mem, k) ==> Next(r, i).rf[k] == i.mem.value.value
    ensures Hits(i.mul, k) ==> Next(r, i).rf[k] == i.mul.value.value
    ensures Hits(i.div, k) ==> Next(r, i).rf[k] == i.div.value.value
    ensures !Hits(i.int1, k) && !Hits(i.int2, k) && !Hits(i.mem, k) && !Hits(i.mul, k) && !Hits(i.div, k) ==>
      Next(r, i).rf[k] == r.rf[k]
  {
    hide NextEntry; hide NextInflight; hide WriteOk; hide OperandReady;
    assert Next(r, i).rf[k] == NextReg(r, i, k);
  }

  function Listed(w: Option<Write>): seq<Write> {
    if w.Some? then [w.value] else []
  }

  /** The results of a clock. */
  function Results(i: Input): seq<Write> {
    Listed(i.int1) + Listed(i.int2) + Listed(i.mem) + Listed(i.mul) + Listed(i.div)
  }

  /** The record of the last value produced for every register, with `ws` entered. */
  function Recorded(last: seq<int>, ws: seq<Write>): (r: seq<int>)
    ensures |r| == |last|
  {
    if ws == [] then last
    else
      var before, w := Recorded(last, ws[..|ws| - 1]), ws[|ws| - 1];
      if w.dst < |last| then before[w.dst := w.value] else before
  }

  lemma {:induction false} RecordedAt(last: seq<int>, ws: seq<Write>, k: nat)
    requires k < |last|
    requires forall a, b :: 0 <= a < b < |ws| ==> ws[a].dst != ws[b].dst
    ensures forall j :: 0 <= j < |ws| && ws[j].dst == k ==> Recorded(last, ws)[k] == ws[j].value
    ensures (forall j :: 0 <= j < |ws| ==> ws[j].dst != k) ==> Recorded(last, ws)[k] == last[k]
    decreases |ws|
  {
    if ws != [] {
      var n := |ws| - 1;
      RecordedAt(last, ws[..n], k);
      forall j | 0 <= j < |ws| && ws[j].dst == k ensures Recorded(last, ws)[k] == ws[j].value {
        if j < n { assert ws[..n][j] == ws[j]; }
      }
    }
  }

  /** The register file is that record; register 0 is kept apart and counts as zero. */
  ghost predicate Kept(r: Regs, last: seq<int>) {
    |last| == |r.rf| > 0 && last[0] == 0 && forall k :: 0 < k < |last| ==> r.rf[k] == last[k]
  }

  lemma NextKept(r: Regs, i: Input, last: seq<int>)
    requires Inv(r) && Surroundings(r, i) && Kept(r, last)
    ensures Kept(Next(r, i), Recorded(last, Results(i)))
  {
    hide Next; hide NextReg; hide OperandOk; hide OperandReady; hide WriteOk;
    NextSizes(r, i);
    forall k: nat | k < |last| ensures Recorded(last, Results(i))[k] == if k == 0 then 0 else Next(r, i).rf[k] {
      RecordIsFile(r, i, last, k);
    }
  }

  lemma NextSizes(r: Regs, i: Input)
    requires Inv(r) && Surroundings(r, i)
    ensures |Next(r, i).rf| == |r.rf| == |r.inflight| == |Next(r, i).inflight|
  {
  }

  lemma ResultsApart(r: Regs, i: Input)
    requires Surroundings(r, i)
    ensures var ws := Results(i);
      && (forall a, b :: 0 <= a < b < |ws| ==> ws[a].dst != ws[b].dst)
      && (forall a :: 0 <= a < |ws| ==> ws[a].dst > 0)
  {
    hide OperandReady;
  }

  lemma ResultsListed(i: Input, k: nat)
    ensures forall w :: w in [i.int1, i.int2, i.mem, i.mul, i.div] && Hits(w, k) ==> w.value in Results(i)
    ensures forall w :: w in Results(i) && w.dst == k ==>
      Hits(i.int1, k) || Hits(i.int2, k) || Hits(i.mem, k) || Hits(i.mul, k) || Hits(i.div, k)
  {
  }

  lemma RecordIsFile(r: Regs, i: Input, last: seq<int>, k: nat)
    requires Inv(r) && Surroundings(r, i) && Kept(r, last) && k < |last|
    ensures Recorded(last, Results(i))[k] == if k == 0 then 0 else Next(r, i).rf[k]
  {
    hide Next; hide NextReg; hide Recorded; hide OperandReady; hide Results; hide OperandOk;
    var ws := Results(i);
    ResultsApart(r, i);
    RecordedAt(last, ws, k);
    NextSizes(r, i);
    ResultsLand(r, i, k);
    ResultsListed(i, k);
    hide Surroundings;
    var all := [i.int1, i.int2, i.mem, i.mul, i.div];
    if w :| w in all && Hits(w, k) {
      assert w.value in ws;
    } else {
      assert forall n :: 0 <= n < 5 ==> all[n] in all;
      assert !Hits(all[0], k) && !Hits(all[1], k) && !Hits(all[2], k) && !Hits(all[3], k) && !Hits(all[4], k);
    }
  }

  /** Whenever a register has left flight or is on a bypass, what is delivered for it is the last
      value any unit produced for it, this clock included. */
  lemma DeliveredIsCurrent(r: Regs, i: Input, src: nat, last: seq<int>)
    requires Inv(r) && Surroundings(r, i) && !i.flush && src < |r.inflight| && Kept(r, last)
    requires !r.inflight[src] || Bypassed(i, src)
    ensures Delivered(r, i, src) == Recorded(last, Results(i))[src]
  {
    hide Next; hide Recorded; hide Results; hide OperandReady;
    RecordIsFile(r, i, last, src);
    ResultsLand(r, i, src);
  }

  /** Every operand of a selected instruction is the last value produced for its register. */
  lemma OperandsCurrent(r: Regs, i: Input, e: nat, last: seq<int>)
    requires Inv(r) && Surroundings(r, i) && !i.flush && e in i.pick && Kept(r, last)
    ensures var x := r.entries[e];
      && (x.a.used ==> x.a.src < |last| && Delivered(r, i, x.a.src) == Recorded(last, Results(i))[x.a.src])
      && (x.b.used ==> x.b.src < |last| && Delivered(r, i, x.b.src) == Recorded(last, Results(i))[x.b.src])
  {
    hide Delivered; hide Next; hide Recorded; hide Results;
    var x := r.entries[e];
    assert e < |r.entries| && x.valid && OperandReady(r, i, x.a) && OperandReady(r, i, x.b)
      && OperandOk(r, x.a) && OperandOk(r, x.b);
    if x.a.used { ReadyExactly(r, i, e, x.a); DeliveredIsCurrent(r, i, x.a.src, last); }
    if x.b.used { ReadyExactly(r, i, e, x.b); DeliveredIsCurrent(r, i, x.b.src, last); }
  }

  /** Entries come and go with their instructions: a slot is taken by what is put there, given up
      when selected or flushed, and keeps its sources meanwhile. */
  lemma EntriesTurnOver(r: Regs, i: Input, e: nat)
    requires Surroundings(r, i) && |r.rf| == |r.inflight| && e < |r.entries|
    ensures var x, y := r.entries[e], Next(r, i).entries[e];
      && (y.valid <==> !i.flush && (e in i.alloc || (x.valid && e !in i.pick)))
      && (e in i.alloc ==> var s := i.alloc[e];
        y.a.used == s.usesA && y.b.used == s.usesB && y.a.src == s.a && y.b.src == s.b)
      && (e !in i.alloc ==> y.a.used == x.a.used && y.b.used == x.b.used && y.a.src == x.a.src && y.b.src == x.b.src)
  {
    hide NextReg; hide NextInflight; hide WriteOk; hide OperandReady;
    assert Next(r, i).entries[e] == NextEntry(r, i, e);
  }

  // ---------------------------------------------------------------- the clocked block

  /** One operand read port: the word from the register file and the registered bypass selects. */
  datatype Port = Port(word: int, from1: bool, from2: bool, fromMem: bool)

  function ValueOr(w: Option<Write>, default: int): int {
    if w.Some? then w.value.value else default
  }

  class Operands {
    var r: Regs
    // two operands of each of the two ALUs
    var ports: seq<Port>
    var result1: int
    var result2: int
    var resultMem: int
    // the last value produced for every register
    ghost var last: seq<int>

    ghost predicate Valid()
      reads this
    {
      Inv(r) && |ports| == 4 && Kept(r, last)
    }

    /** Reset leaves nothing in flight and no entry valid; the register file is arbitrary. */
    constructor (start: seq<int>, slots: nat)
      requires |start| > 0
      ensures Valid() && last == start[0 := 0]
    {
      var empty := Operand(false, 0, true);
      r := Regs(start, seq(|start|, _ => false), seq(slots, _ => Entry(false, empty, empty)), None, None);
      ports := seq(4, _ => Port(0, false, false, false));
      result1, result2, resultMem := 0, 0, 0;
      last := start[0 := 0];
    }

    /** The operand multiplexer of port `k`. */
    function Muxed(k: nat): int
      reads this
      requires k < |ports|
    {
      if ports[k].from1 then result1 else if ports[k].from2 then result2
      else if ports[k].fromMem then resultMem else ports[k].word
    }

    /** One clock.  `srcs` are the sources of the instructions being selected; whichever of them
        may be used reaches its ALU with the last value that was produced for its register. */
    method Clock(i: Input, srcs: seq<nat>)
      requires Valid() && Surroundings(r, i) && |srcs| == 4 && forall k :: 0 <= k < 4 ==> srcs[k] < |r.rf|
      modifies this
      ensures Valid() && r == Next(old(r), i) && last == Recorded(old(last), Results(i))
      ensures forall k :: 0 <= k < 4 && !i.flush && (!old(r).inflight[srcs[k]] || Bypassed(i, srcs[k])) ==>
        Muxed(k) == last[srcs[k]]
    {
      hide Next; hide Recorded; hide Results; hide Kept;
      NextInv(r, i);
      NextKept(r, i, last);
      NextSizes(r, i);
      var next: seq<Port> := [];
      for k := 0 to 4
        invariant |next| == k
        invariant forall j :: 0 <= j < k ==>
          next[j] == Port(Read(r.rf, srcs[j]), Hits(i.int1, srcs[j]), Hits(i.int2, srcs[j]), Hits(i.mem, srcs[j]))
      {
        next := next + [Port(Read(r.rf, srcs[k]), Hits(i.int1, srcs[k]), Hits(i.int2, srcs[k]), Hits(i.mem, srcs[k]))];
      }
      ghost var before, known := r, last;
      assert |known| == |r.rf| by { KeptSize(r, last); }
      ports := next;
      result1, result2, resultMem := ValueOr(i.int1, result1), ValueOr(i.int2, result2), ValueOr(i.mem, resultMem);
      assert forall k :: 0 <= k < 4 ==> Muxed(k) == Delivered(before, i, srcs[k]);
      r := Next(r, i);
      last := Recorded(last, Results(i));
      forall k | 0 <= k < 4 && !i.flush && (!before.inflight[srcs[k]] || Bypassed(i, srcs[k])) ensures Muxed(k) == last[srcs[k]] {
        DeliveredIsCurrent(before, i, srcs[k], known);
      }
    }
  }

  lemma KeptSize(r: Regs, last: seq<int>)
    requires Kept(r, last)
    ensures |last| == |r.rf|
  {
  }
}
