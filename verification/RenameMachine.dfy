/** Register renaming as an in-order machine: what the tables of core.sv mean.

    One cycle of the core is a short sequence of the events below.  `RenameTables.dfy`
    holds the clocked registers and shows that every cycle is such a sequence. */
module RenameMachine {

  const ARCH: nat := 32   // logical registers
  const PRF: nat := 64    // physical registers

  type Rat = r: seq<nat> | |r| == 32 witness seq(32, i => 0)

  /** The part of a reorder-buffer entry that renaming reads and writes. */
  datatype Entry = Entry(validDst: bool, ldst: nat, pdst: nat, oldPdst: nat)

  datatype View = View(retireRat: Rat, allocRat: Rat, free: set<nat>, retireFree: set<nat>, live: seq<Entry>)

  datatype Event =
    | Alloc(validDst: bool, ldst: nat, pdst: nat)
    | Retire
    | Recover

  /** Physical registers `lo` up to but not including `hi`. */
  function Regs(lo: nat, hi: nat): (s: set<nat>)
    ensures forall p: nat :: p in s <==> lo <= p < hi
  {
    var numbers: seq<nat> := seq(hi, i => i);
    var s := set i: nat | lo <= i < hi :: numbers[i];
    assert forall p: nat :: lo <= p < hi ==> p in s by {
      forall p: nat | lo <= p < hi ensures p in s { assert numbers[p] == p; }
    }
    s
  }

  function AllRegs(): set<nat> {
    Regs(0, PRF)
  }

  function Image(rat: Rat): set<nat> {
    set l | 0 <= l < ARCH :: rat[l]
  }

  function Pdsts(es: seq<Entry>): set<nat> {
    set i | 0 <= i < |es| && es[i].validDst :: es[i].pdst
  }

  function Identity(): Rat {
    seq(ARCH, i => i)
  }

  function Reset(): View {
    View(Identity(), Identity(), Regs(ARCH, PRF), Regs(ARCH, PRF), [])
  }

  /** The mapping after the entries `es`, oldest first, have been renamed on top of `rat`. */
  function Apply(rat: Rat, es: seq<Entry>): Rat
    decreases |es|
  {
    if es == [] then rat else Apply(Write(rat, es[0]), es[1..])
  }

  function Write(rat: Rat, e: Entry): Rat {
    if e.validDst && e.ldst < ARCH then rat[e.ldst := e.pdst] else rat
  }

  function Step(v: View, e: Event): View {
    match e
    case Alloc(validDst, l, p) =>
      if validDst && l < ARCH then
        v.(allocRat := v.allocRat[l := p], free := v.free - {p},
           live := v.live + [Entry(true, l, p, v.allocRat[l])])
      else
        v.(live := v.live + [Entry(false, 0, 0, 0)])
    case Retire =>
      if v.live == [] then v else
        var h := v.live[0];
        if h.validDst && h.ldst < ARCH then
          View(v.retireRat[h.ldst := h.pdst], v.allocRat, v.free + {h.oldPdst},
               v.retireFree - {h.pdst} + {h.oldPdst}, v.live[1..])
        else
          v.(live := v.live[1..])
    case Recover =>
      v.(allocRat := v.retireRat, free := v.retireFree, live := [])
  }

  /** What the allocator and the reorder buffer guarantee before an event happens. */
  ghost predicate Enabled(v: View, e: Event) {
    match e
    case Alloc(validDst, l, p) => validDst ==> 1 <= l < ARCH && p in v.free
    case Retire => v.live != []
    case Recover => true
  }

  function Run(v: View, es: seq<Event>): View
    decreases |es|
  {
    if es == [] then v else Step(Run(v, es[..|es| - 1]), es[|es| - 1])
  }

  ghost predicate Legal(v: View, es: seq<Event>)
    decreases |es|
  {
    es == [] || (Legal(v, es[..|es| - 1]) && Enabled(Run(v, es[..|es| - 1]), es[|es| - 1]))
  }

  // ---------------------------------------------------------------- the invariant

  ghost predicate InRange(rat: Rat) {
    forall l :: 0 <= l < ARCH ==> rat[l] < PRF
  }

  ghost predicate Injective(rat: Rat) {
    forall i, j :: 0 <= i < j < ARCH ==> rat[i] != rat[j]
  }

  ghost predicate GoodEntries(rat: Rat, es: seq<Entry>) {
    && (forall i :: 0 <= i < |es| && es[i].validDst ==>
          1 <= es[i].ldst < ARCH && es[i].pdst < PRF && es[i].pdst !in Image(rat))
    && (forall i, j :: 0 <= i < j < |es| && es[i].validDst && es[j].validDst ==> es[i].pdst != es[j].pdst)
  }

  /** Each entry remembers the mapping in force just before it. */
  ghost predicate OldPdstsExact(rat: Rat, es: seq<Entry>) {
    forall i :: 0 <= i < |es| && es[i].validDst && es[i].ldst < ARCH ==>
      es[i].oldPdst == Apply(rat, es[..i])[es[i].ldst]
  }

  ghost predicate Inv(v: View) {
    && InRange(v.retireRat) && Injective(v.retireRat)
    && v.retireRat[0] == 0
    && v.retireFree == AllRegs() - Image(v.retireRat)
    && GoodEntries(v.retireRat, v.live)
    && v.free == AllRegs() - Image(v.retireRat) - Pdsts(v.live)
    && v.allocRat == Apply(v.retireRat, v.live)
    && OldPdstsExact(v.retireRat, v.live)
  }

  lemma {:induction false} ApplyAppend(rat: Rat, es: seq<Entry>, e: Entry)
    ensures Apply(rat, es + [e]) == Write(Apply(rat, es), e)
    decreases |es|
  {
    if es == [] {
      assert (es + [e])[1..] == [];
    } else {
      assert (es + [e])[1..] == es[1..] + [e];
      ApplyAppend(Write(rat, es[0]), es[1..], e);
    }
  }

  /** A mapped register was either mapped at the start or is the destination of an entry. */
  lemma {:induction false} ApplyImage(rat: Rat, es: seq<Entry>)
    ensures forall l :: 0 <= l < ARCH ==> Apply(rat, es)[l] in Image(rat) + Pdsts(es)
    decreases |es|
  {
    if es != [] {
      var rat' := Write(rat, es[0]);
      ApplyImage(rat', es[1..]);
      assert es[0] in es;
      forall l | 0 <= l < ARCH
        ensures Apply(rat, es)[l] in Image(rat) + Pdsts(es)
      {
        var p := Apply(rat', es[1..])[l];
        if p in Image(rat') {
          assert rat'[es[0].ldst % ARCH] == rat'[es[0].ldst % ARCH];
          if p !in Image(rat) { assert es[0].validDst && p == es[0].pdst; }
        } else {
          var i :| 0 <= i < |es[1..]| && es[1..][i].validDst && es[1..][i].pdst == p;
          assert es[i + 1].pdst == p;
        }
      }
    }
  }

  lemma ResetInv()
    ensures Inv(Reset())
  {
    assert Image(Identity()) == Regs(0, ARCH) by {
      forall p: nat | p < ARCH ensures p in Image(Identity()) { assert Identity()[p] == p; }
    }
    assert Pdsts([]) == {};
  }

  lemma PdstsAppend(es: seq<Entry>, e: Entry)
    ensures Pdsts(es + [e]) == Pdsts(es) + if e.validDst then {e.pdst} else {}
  {
    var fs := es + [e];
    assert fs[|es|] == e;
    forall i | 0 <= i < |es| && es[i].validDst ensures es[i].pdst in Pdsts(fs) { assert fs[i] == es[i]; }
  }

  lemma PdstsDrop(es: seq<Entry>)
    requires es != []
    ensures Pdsts(es) == Pdsts(es[1..]) + if es[0].validDst then {es[0].pdst} else {}
  {
    var rest := es[1..];
    forall i | 0 <= i < |rest| && rest[i].validDst ensures rest[i].pdst in Pdsts(es) { assert es[i + 1] == rest[i]; }
    forall i | 0 < i < |es| && es[i].validDst ensures es[i].pdst in Pdsts(rest) { assert rest[i - 1] == es[i]; }
  }

  lemma OldPdstsAppend(rat: Rat, es: seq<Entry>, e: Entry)
    requires OldPdstsExact(rat, es)
    requires e.validDst && e.ldst < ARCH ==> e.oldPdst == Apply(rat, es)[e.ldst]
    ensures OldPdstsExact(rat, es + [e])
  {
    var fs := es + [e];
    forall i | 0 <= i < |fs| && fs[i].validDst && fs[i].ldst < ARCH
      ensures fs[i].oldPdst == Apply(rat, fs[..i])[fs[i].ldst]
    {
      assert fs[..i] == if i < |es| then es[..i] else es;
    }
  }

  lemma OldPdstsDrop(rat: Rat, es: seq<Entry>)
    requires es != [] && OldPdstsExact(rat, es)
    ensures OldPdstsExact(Write(rat, es[0]), es[1..])
    ensures es[0].validDst && es[0].ldst < ARCH ==> es[0].oldPdst == rat[es[0].ldst]
  {
    var rest := es[1..];
    assert Apply(rat, es[..0]) == rat;
    forall i | 0 <= i < |rest| && rest[i].validDst && rest[i].ldst < ARCH
      ensures rest[i].oldPdst == Apply(Write(rat, es[0]), rest[..i])[rest[i].ldst]
    {
      assert es[..i + 1][1..] == rest[..i] && es[i + 1] == rest[i];
    }
  }

  lemma GoodEntriesAppend(rat: Rat, es: seq<Entry>, e: Entry)
    requires GoodEntries(rat, es)
    requires e.validDst ==> 1 <= e.ldst < ARCH && e.pdst < PRF && e.pdst !in Image(rat) && e.pdst !in Pdsts(es)
    ensures GoodEntries(rat, es + [e])
  {
    var fs := es + [e];
    forall i | 0 <= i < |es| && es[i].validDst ensures es[i].pdst in Pdsts(es) {}
    assert forall i :: 0 <= i < |es| ==> fs[i] == es[i];
  }

  lemma GoodEntriesDrop(rat: Rat, es: seq<Entry>)
    requires es != [] && GoodEntries(rat, es) && Injective(rat)
    ensures GoodEntries(Write(rat, es[0]), es[1..]) && Injective(Write(rat, es[0]))
    ensures es[0].validDst ==> Image(Write(rat, es[0])) == Image(rat) - {rat[es[0].ldst]} + {es[0].pdst}
    ensures es[0].validDst ==> es[0].pdst !in Pdsts(es[1..]) && rat[es[0].ldst] !in Pdsts(es)
  {
    var h, rest := es[0], es[1..];
    if h.validDst {
      ImageWrite(rat, h.ldst, h.pdst);
      assert rat[h.ldst] in Image(rat);
    }
    forall i | 0 <= i < |rest| && rest[i].validDst
      ensures h.validDst ==> rest[i].pdst != h.pdst
      ensures rest[i].pdst !in Image(Write(rat, h))
    {
      assert es[i + 1] == rest[i];
    }
    forall i, j | 0 <= i < j < |rest| && rest[i].validDst && rest[j].validDst ensures rest[i].pdst != rest[j].pdst {
      assert es[i + 1] == rest[i] && es[j + 1] == rest[j];
    }
  }

  lemma AllocInv(v: View, e: Event)
    requires Inv(v) && e.Alloc? && Enabled(v, e)
    ensures Inv(Step(v, e))
  {
    hide Apply; hide Pdsts; hide Image;
    var w := Step(v, e);
    var n := w.live[|v.live|];
    ApplyAppend(v.retireRat, v.live, n);
    PdstsAppend(v.live, n);
    OldPdstsAppend(v.retireRat, v.live, n);
    GoodEntriesAppend(v.retireRat, v.live, n);
  }

  lemma RetireInv(v: View)
    requires Inv(v) && Enabled(v, Retire)
    ensures Inv(Step(v, Retire))
  {
    hide Pdsts; hide Image; hide Apply;
    ApplyFirst(v.retireRat, v.live);
    PdstsDrop(v.live);
    OldPdstsDrop(v.retireRat, v.live);
    GoodEntriesDrop(v.retireRat, v.live);
    ImageHas(v.retireRat);
  }

  lemma ApplyFirst(rat: Rat, es: seq<Entry>)
    requires es != []
    ensures Apply(rat, es) == Apply(Write(rat, es[0]), es[1..])
  {
  }

  lemma ImageHas(rat: Rat)
    ensures forall l :: 0 <= l < ARCH ==> rat[l] in Image(rat)
  {
  }

  lemma ImageWrite(rat: Rat, l: nat, p: nat)
    requires l < ARCH && Injective(rat) && p !in Image(rat)
    ensures Image(rat[l := p]) == Image(rat) - {rat[l]} + {p}
    ensures Injective(rat[l := p])
  {
    var w := rat[l := p];
    forall q | q in Image(rat) && q != rat[l] ensures q in Image(w) {
      var k :| 0 <= k < ARCH && rat[k] == q;
      assert w[k] == q;
    }
    assert w[l] == p;
    forall k | 0 <= k < ARCH ensures rat[k] in Image(rat) {}
  }

  lemma RecoverInv(v: View)
    requires Inv(v)
    ensures Inv(Step(v, Recover))
  {
    assert Pdsts([]) == {};
  }

  lemma StepInv(v: View, e: Event)
    requires Inv(v) && Enabled(v, e)
    ensures Inv(Step(v, e))
  {
    match e
    case Alloc(_, _, _) => AllocInv(v, e);
    case Retire => RetireInv(v);
    case Recover => RecoverInv(v);
  }

  /** Every state any run can reach from reset satisfies the invariant. */
  lemma {:induction false} ReachableInv(es: seq<Event>)
    requires Legal(Reset(), es)
    ensures Inv(Run(Reset(), es))
    decreases |es|
  {
    if es == [] {
      ResetInv();
    } else {
      ReachableInv(es[..|es| - 1]);
      StepInv(Run(Reset(), es[..|es| - 1]), es[|es| - 1]);
    }
  }

  // ---------------------------------------------------------------- what it means

  /** Free registers, committed registers and in-flight destinations split the register
      file into three disjoint parts, in every reachable state. */
  lemma Partition(es: seq<Event>)
    requires Legal(Reset(), es)
    ensures var v := Run(Reset(), es);
      && v.free !! Image(v.retireRat) !! Pdsts(v.live)
      && v.free + Image(v.retireRat) + Pdsts(v.live) == AllRegs()
      && Injective(v.retireRat)
      && v.retireFree == AllRegs() - Image(v.retireRat)
  {
    ReachableInv(es);
  }

  function Dests(es: seq<Entry>): nat {
    if es == [] then 0 else Dests(es[..|es| - 1]) + if es[|es| - 1].validDst then 1 else 0
  }

  lemma {:induction false} DestsCount(es: seq<Entry>)
    requires forall i, j :: 0 <= i < j < |es| && es[i].validDst && es[j].validDst ==> es[i].pdst != es[j].pdst
    ensures |Pdsts(es)| == Dests(es)
    decreases |es|
  {
    if es != [] {
      var n := |es| - 1;
      DestsCount(es[..n]);
      assert es[..n] + [es[n]] == es;
      PdstsAppend(es[..n], es[n]);
    }
  }

  lemma {:induction false} RegsCount(lo: nat, hi: nat)
    requires lo <= hi
    ensures |Regs(lo, hi)| == hi - lo
    decreases hi
  {
    if lo < hi {
      RegsCount(lo, hi - 1);
      assert Regs(lo, hi) == Regs(lo, hi - 1) + {hi - 1};
    } else {
      assert Regs(lo, hi) == {};
    }
  }

  lemma {:induction false} ImageCount(rat: seq<nat>, n: nat)
    requires n <= |rat| && forall i, j :: 0 <= i < j < |rat| ==> rat[i] != rat[j]
    ensures |set l | 0 <= l < n :: rat[l]| == n
  {
    if n > 0 {
      ImageCount(rat, n - 1);
      assert (set l | 0 <= l < n :: rat[l]) == (set l | 0 <= l < n - 1 :: rat[l]) + {rat[n - 1]};
    }
  }

  /** Conservation: no physical register is ever lost or duplicated. */
  lemma FreeCount(es: seq<Event>)
    requires Legal(Reset(), es)
    ensures var v := Run(Reset(), es); |v.free| + Dests(v.live) == PRF - ARCH
  {
    var v := Run(Reset(), es);
    Partition(es);
    ReachableInv(es);
    DestsCount(v.live);
    ImageCount(v.retireRat, ARCH);
    RegsCount(0, PRF);
    var committed, inFlight := Image(v.retireRat), Pdsts(v.live);
    assert v.free + committed + inFlight == AllRegs();
    assert |v.free + committed + inFlight| == |v.free + committed| + |inFlight|;
    assert |v.free + committed| == |v.free| + |committed|;
  }

  /** The speculative map never names a free register and never names one register twice. */
  lemma SpeculativeMapSafe(es: seq<Event>)
    requires Legal(Reset(), es)
    ensures var v := Run(Reset(), es);
      Injective(v.allocRat) && Image(v.allocRat) !! v.free && v.allocRat[0] == 0
  {
    var v := Run(Reset(), es);
    ReachableInv(es);
    ApplyImage(v.retireRat, v.live);
    ApplyInjective(v.retireRat, v.live);
  }

  /** The map in force before each live instruction names no free register. */
  lemma SourcesNotFree(v: View, k: nat, l: nat)
    requires Inv(v) && k <= |v.live| && l < ARCH
    ensures Apply(v.retireRat, v.live[..k])[l] !in v.free && Apply(v.retireRat, v.live[..k])[l] < PRF
  {
    ApplyImage(v.retireRat, v.live[..k]);
    var p := Apply(v.retireRat, v.live[..k])[l];
    if p in Pdsts(v.live[..k]) {
      var i :| 0 <= i < k && v.live[..k][i].validDst && v.live[..k][i].pdst == p;
      assert v.live[i].validDst && v.live[i].pdst == p;
    }
  }

  /** No register that a live instruction reads can be handed out while it is live. */
  lemma SourcesNotReallocated(es: seq<Event>, k: nat, l: nat)
    requires Legal(Reset(), es) && k <= |Run(Reset(), es).live| && l < ARCH
    ensures var v := Run(Reset(), es); Apply(v.retireRat, v.live[..k])[l] !in v.free
  {
    ReachableInv(es);
    SourcesNotFree(Run(Reset(), es), k, l);
  }

  lemma {:induction false} ApplyInjective(rat: Rat, es: seq<Entry>)
    requires Injective(rat) && GoodEntries(rat, es)
    ensures Injective(Apply(rat, es)) && Apply(rat, es)[0] == rat[0]
    decreases |es|
  {
    if es != [] {
      var h := es[0];
      if h.validDst { ImageWrite(rat, h.ldst, h.pdst); }
      forall i | 0 <= i < |es[1..]| ensures es[1..][i] == es[i + 1] {}
      ApplyInjective(Write(rat, h), es[1..]);
    }
  }

  // ---------------------------------------------------------------- recovery

  /** The entries retired during a run, oldest first. */
  function Retired(v: View, es: seq<Event>): seq<Entry>
    decreases |es|
  {
    if es == [] then [] else
      var before := es[..|es| - 1];
      var w := Run(v, before);
      Retired(v, before) + if es[|es| - 1].Retire? && w.live != [] then [w.live[0]] else []
  }

  /** The run that renames only the instructions `rs` and retires each at once. */
  function Replay(rs: seq<Entry>): seq<Event>
    decreases |rs|
  {
    if rs == [] then [] else
      var h := rs[|rs| - 1];
      Replay(rs[..|rs| - 1]) + [Alloc(h.validDst, h.ldst, h.pdst), Retire]
  }

  lemma RunTwo(v: View, es: seq<Event>, a: Event, b: Event)
    ensures Run(v, es + [a, b]) == Step(Step(Run(v, es), a), b)
    ensures Legal(v, es) && Enabled(Run(v, es), a) && Enabled(Step(Run(v, es), a), b) ==> Legal(v, es + [a, b])
  {
    var fs := es + [a];
    assert (es + [a, b])[..|es| + 1] == fs && fs[..|es|] == es;
  }

  /** Copying the retirement tables back is the same as never having renamed the squashed
      instructions: the recovered state is the state of the run that saw only the retired ones. */
  lemma {:induction false} RecoveryIsReplay(es: seq<Event>)
    requires Legal(Reset(), es)
    ensures Legal(Reset(), Replay(Retired(Reset(), es)))
    ensures Step(Run(Reset(), es), Recover) == Run(Reset(), Replay(Retired(Reset(), es)))
    decreases |es|
  {
    if es != [] {
      var before, e := es[..|es| - 1], es[|es| - 1];
      var w := Run(Reset(), before);
      var rs := Retired(Reset(), before);
      RecoveryIsReplay(before);
      ReachableInv(before);
      if e.Retire? {
        var h := w.live[0];
        assert (rs + [h])[..|rs|] == rs;
        RetireReplay(w);
        RunTwo(Reset(), Replay(rs), Alloc(h.validDst, h.ldst, h.pdst), Retire);
      } else {
        assert Retired(Reset(), es) == rs;
      }
    }
  }

  lemma RetireReplay(w: View)
    requires Inv(w) && w.live != []
    ensures var h, q := w.live[0], Step(w, Recover);
      var a := Alloc(h.validDst, h.ldst, h.pdst);
      && Enabled(q, a) && Enabled(Step(q, a), Retire)
      && Step(Step(q, a), Retire) == Step(Step(w, Retire), Recover)
  {
    var h, q := w.live[0], Step(w, Recover);
    var a := Alloc(h.validDst, h.ldst, h.pdst);
    assert Apply(w.retireRat, w.live[..0]) == w.retireRat;
    var m := Step(q, a);
    assert m.live[1..] == [];
    assert m.live[0] == if h.validDst then h else Entry(false, 0, 0, 0);
    if h.validDst {
      assert q.free - {h.pdst} + {h.oldPdst} == w.retireFree - {h.pdst} + {h.oldPdst};
    }
  }

  // ---------------------------------------------------------------- an empty bank

  /** Rename logical registers 31 down to `k`, each to twice its number, retiring at once. */
  function Crowd(k: nat): seq<Event>
    requires 1 <= k <= ARCH
    decreases ARCH - k
  {
    if k == ARCH then [] else Crowd(k + 1) + [Alloc(true, k, 2 * k), Retire]
  }

  function Crowded(k: nat): Rat {
    seq(ARCH, l => if l < k then l else 2 * l)
  }

  /** Highest free even register: what the allocator picks while the even bank is selected. */
  ghost predicate HighestEven(free: set<nat>, p: nat) {
    p in free && p % 2 == 0 && forall q :: q in free && q % 2 == 0 ==> q <= p
  }

  /** The free list can be half full while one of its banks is empty: in this run every
      register is the allocator's own pick, and at its end no even register is free. */
  lemma {:induction false} CrowdRun(k: nat)
    requires 1 <= k <= ARCH
    ensures Legal(Reset(), Crowd(k))
    ensures var v := Run(Reset(), Crowd(k));
      && v.live == [] && v.retireRat == Crowded(k)
      && (k > 1 ==> HighestEven(v.free, 2 * (k - 1)))
      && (k == 1 ==> v.free != {} && forall p :: p in v.free ==> p % 2 == 1)
    decreases ARCH - k
  {
    hide HighestEven; hide Inv; hide Image;
    if k < ARCH {
      CrowdRun(k + 1);
      var u := Run(Reset(), Crowd(k + 1));
      RunTwo(Reset(), Crowd(k + 1), Alloc(true, k, 2 * k), Retire);
      CrowdStep(u, k);
    } else {
      assert Identity() == Crowded(ARCH);
    }
    ReachableInv(Crowd(k));
    CrowdedFree(Run(Reset(), Crowd(k)), k);
  }

  lemma CrowdStep(u: View, k: nat)
    requires 1 <= k < ARCH && u.live == [] && u.retireRat == Crowded(k + 1) && HighestEven(u.free, 2 * k)
    ensures var a := Alloc(true, k, 2 * k);
      && Enabled(u, a) && Enabled(Step(u, a), Retire)
      && Step(Step(u, a), Retire).live == []
      && Step(Step(u, a), Retire).retireRat == Crowded(k)
  {
    var m := Step(u, Alloc(true, k, 2 * k));
    assert m.live == [Entry(true, k, 2 * k, u.allocRat[k])] && m.live[1..] == [];
  }

  lemma CrowdedFree(v: View, k: nat)
    requires 1 <= k <= ARCH && Inv(v) && v.live == [] && v.retireRat == Crowded(k)
    ensures k > 1 ==> HighestEven(v.free, 2 * (k - 1))
    ensures k == 1 ==> v.free != {} && forall p :: p in v.free ==> p % 2 == 1
  {
    var rat := Crowded(k);
    assert Pdsts(v.live) == {};
    forall p: nat | p % 2 == 0 && 2 * k <= p < PRF ensures p in Image(rat) {
      assert rat[p / 2] == p;
    }
    if k > 1 {
      var top := 2 * (k - 1);
      forall l | 0 <= l < ARCH ensures rat[l] != top {}
      assert top in v.free;
    } else {
      assert rat[0] == 0;
      forall l | 0 <= l < ARCH ensures rat[l] != 1 {}
      assert 1 in v.free;
    }
  }
}
