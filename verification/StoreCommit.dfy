/** The core's side of committing stores: the drain signal, the retirements reported to the
    first-level data cache, and the queue of store data in exec.sv.

    It shows that a draining core reports no retirement, and that a retired store at the head
    always finds its data. */
module StoreCommit {
  import L1dMachine

  /** A store that the cache has not taken yet. */
  datatype Waiting = Waiting(rob: nat, ready: bool, retired: bool)

  /** `dsDone` and `drain` are the drain signal and its copy one clock later; `reported` the
      entries whose retirement was registered last clock; `order` the stores in program order and
      `data` the entries at the head of the store-data queue. */
  datatype Core = Core(dsDone: bool, drain: bool, reported: set<nat>, order: seq<Waiting>, data: seq<nat>)

  /** One clock: stores entering, whether the next store's data arrives, how many of the oldest
      unretired stores retire and which other entries do, whether the cache takes the head, and
      the ends of a drain. */
  datatype Input = Input(enter: seq<nat>, arrives: bool, retire: nat, others: set<nat>, take: bool, startDrain: bool, endDrain: bool)

  function Readies(order: seq<Waiting>): (n: nat)
    ensures n <= |order|
  {
    if order != [] && order[0].ready then 1 + Readies(order[1..]) else 0
  }

  function Retireds(order: seq<Waiting>): (n: nat)
    ensures n <= |order|
  {
    if order != [] && order[0].retired then 1 + Retireds(order[1..]) else 0
  }

  function Fresh(robs: seq<nat>): (ws: seq<Waiting>)
    ensures |ws| == |robs|
  {
    seq(|robs|, k requires 0 <= k < |robs| => Waiting(robs[k], false, false))
  }

  function Mark(order: seq<Waiting>, n: nat): (r: seq<Waiting>)
    requires n <= |order|
    ensures |r| == |order|
  {
    seq(|order|, k requires 0 <= k < |order| => if k < n then order[k].(retired := true) else order[k])
  }

  /** The order after data and retirements of this clock, before the head leaves. */
  function Updated(c: Core, i: Input): (r: seq<Waiting>)
    requires Enabled(c, i)
  {
    var arrived := if i.arrives then c.order[Readies(c.order) := c.order[Readies(c.order)].(ready := true)] else c.order;
    Mark(arrived, Retireds(c.order) + i.retire)
  }

  /** What the two sides test: retirement looks at the data bit of the entry and does not happen
      while draining; data arrives in store order; the cache takes a retired head whose entry is
      at the head of the data queue; a drain ends once the cache holds no retired store. */
  ghost predicate Enabled(c: Core, i: Input) {
    && (i.arrives ==> Readies(c.order) < |c.order|)
    && (c.dsDone ==> i.retire == 0 && i.others == {}) && Retireds(c.order) + i.retire <= Readies(c.order)
    && (i.take ==> c.order != [] && c.order[0].retired && c.data != [] && c.data[0] == c.order[0].rob)
    && (i.endDrain ==> c.dsDone && Retireds(c.order) == 0)
  }

  function RetiredNow(c: Core, n: nat): set<nat>
    requires Retireds(c.order) + n <= |c.order|
  {
    set k | Retireds(c.order) <= k < Retireds(c.order) + n :: c.order[k].rob
  }

  ghost function Next(c: Core, i: Input): Core
    requires Enabled(c, i)
  {
    var order := Updated(c, i) + Fresh(i.enter);
    var data := c.data + if i.arrives then [c.order[Readies(c.order)].rob] else [];
    var first := if i.take then 1 else 0;
    Core((c.dsDone || i.startDrain) && !i.endDrain, c.dsDone, RetiredNow(c, i.retire) + i.others,
         if i.endDrain then [] else order[first..], if i.endDrain then [] else if i.take then data[1..] else data)
  }

  /** Ready stores, and among them the retired ones, are the oldest; the data queue holds exactly
      the ready ones; a retirement is never reported to a cache that drains. */
  ghost predicate Inv(c: Core) {
    && (forall k :: 0 <= k < |c.order| ==> c.order[k].ready == (k < Readies(c.order)))
    && (forall k :: 0 <= k < |c.order| ==> c.order[k].retired == (k < Retireds(c.order)))
    && Retireds(c.order) <= Readies(c.order) == |c.data|
    && (forall k :: 0 <= k < |c.data| ==> c.data[k] == c.order[k].rob)
    && (c.drain ==> c.reported == {})
  }

  lemma {:induction false} ReadiesAre(order: seq<Waiting>, n: nat)
    requires n <= |order| && forall k :: 0 <= k < |order| ==> order[k].ready == (k < n)
    ensures Readies(order) == n
    decreases |order|
  {
    if n > 0 {
      assert forall k :: 0 <= k < |order[1..]| ==> order[1..][k] == order[k + 1];
      ReadiesAre(order[1..], n - 1);
    }
  }

  lemma {:induction false} RetiredsAre(order: seq<Waiting>, n: nat)
    requires n <= |order| && forall k :: 0 <= k < |order| ==> order[k].retired == (k < n)
    ensures Retireds(order) == n
    decreases |order|
  {
    if n > 0 {
      assert forall k :: 0 <= k < |order[1..]| ==> order[1..][k] == order[k + 1];
      RetiredsAre(order[1..], n - 1);
    }
  }

  lemma UpdatedFlags(c: Core, i: Input)
    requires Inv(c) && Enabled(c, i)
    ensures var u, ready := Updated(c, i), Readies(c.order) + if i.arrives then 1 else 0;
      && |u| == |c.order|
      && (forall k :: 0 <= k < |u| ==> u[k].ready == (k < ready) && u[k].rob == c.order[k].rob)
      && (forall k :: 0 <= k < |u| ==> u[k].retired == (k < Retireds(c.order) + i.retire))
  {
    hide Readies; hide Retireds;
  }

  /** Whatever enters behind and whatever leaves at the head, the flags stay on the oldest. */
  lemma FlagsShift(u: seq<Waiting>, enter: seq<nat>, first: nat, ready: nat, retired: nat)
    requires first <= retired <= ready <= |u|
    requires forall k :: 0 <= k < |u| ==> u[k].ready == (k < ready) && u[k].retired == (k < retired)
    ensures var o := (u + Fresh(enter))[first..];
      && Readies(o) == ready - first && Retireds(o) == retired - first
      && (forall k :: 0 <= k < |o| ==> o[k].ready == (k < ready - first) && o[k].retired == (k < retired - first))
      && (forall k :: 0 <= k < ready - first ==> o[k].rob == u[k + first].rob)
  {
    var o := (u + Fresh(enter))[first..];
    assert forall k :: 0 <= k < |o| ==> o[k] == if k + first < |u| then u[k + first] else Fresh(enter)[k + first - |u|];
    ReadiesAre(o, ready - first);
    RetiredsAre(o, retired - first);
  }

  lemma NextInv(c: Core, i: Input)
    requires Inv(c) && Enabled(c, i)
    ensures Inv(Next(c, i))
  {
    hide Readies; hide Retireds;
    if i.endDrain {
      ReadiesAre([], 0);
      RetiredsAre([], 0);
    } else {
      if i.take { TakesRetired(c, i); }
      UpdatedFlags(c, i);
      hide Updated;
      FlagsShift(Updated(c, i), i.enter, if i.take then 1 else 0,
                 Readies(c.order) + (if i.arrives then 1 else 0), Retireds(c.order) + i.retire);
    }
    NoneRetired(c);
  }

  lemma NoneRetired(c: Core)
    requires Inv(c)
    ensures RetiredNow(c, 0) == {}
  {
  }

  lemma TakesRetired(c: Core, i: Input)
    requires Inv(c) && Enabled(c, i) && i.take
    ensures Retireds(c.order) >= 1
  {
  }

  function Start(): Core {
    Core(false, false, {}, [], [])
  }

  ghost predicate Legal(ins: seq<Input>)
    decreases |ins|, 0
  {
    ins == [] || (Legal(ins[..|ins| - 1]) && Enabled(Run(ins[..|ins| - 1]), ins[|ins| - 1]))
  }

  ghost function Run(ins: seq<Input>): Core
    requires Legal(ins)
    decreases |ins|, 1
  {
    if ins == [] then Start() else Next(Run(ins[..|ins| - 1]), ins[|ins| - 1])
  }

  lemma {:induction false} RunInv(ins: seq<Input>)
    requires Legal(ins)
    ensures Inv(Run(ins))
    decreases |ins|
  {
    if ins != [] {
      RunInv(ins[..|ins| - 1]);
      NextInv(Run(ins[..|ins| - 1]), ins[|ins| - 1]);
    }
  }

  /** How the cache sees the core: the drain signal, the reported retirements and the head of the
      data queue are its inputs, and a retired store at the head of the retry queue is the oldest
      store not taken. */
  ghost predicate Wired(c: Core, s: L1dMachine.Regs, i: L1dMachine.Input) {
    && i.drain == c.drain && i.retire == c.reported
    && (c.data == [] ==> i.data.None?) && (c.data != [] ==> i.data.Some? && i.data.value.rob == c.data[0])
    && (s.queue != [] && s.queue[0].isStore && s.queue[0].rob < |s.graduated| && s.graduated[s.queue[0].rob] == 2 ==>
      c.order != [] && c.order[0].rob == s.queue[0].rob && c.order[0].retired)
  }

  /** In every run of the core, a drain comes without retirements, and a retired store at the head
      of the retry queue has its data. */
  lemma DataIsThere(ins: seq<Input>, s: L1dMachine.Regs, i: L1dMachine.Input)
    requires Legal(ins) && Wired(Run(ins), s, i)
    ensures i.drain ==> i.retire == {}
    ensures s.queue != [] && s.queue[0].isStore && s.queue[0].rob < |s.graduated| && s.graduated[s.queue[0].rob] == 2 ==>
      i.data.Some? && i.data.value.rob == s.queue[0].rob
  {
    RunInv(ins);
  }
}
