/** The matrix schedulers of exec.sv: `2^lgN` slots, one allocation and one selection a clock.

    Row `i` of the matrix marks the slots that were filled before slot `i`.  The same circuit is
    instantiated twice; the second one is never blocked by a busy unit, so all its `enabled`
    inputs are true. */
module Scheduler {
  import opened Bits
  import FindFirstSet

  datatype State = State(valid: Bits, matrix: seq<Bits>, rdyA: Bits, rdyB: Bits)

  /** One cycle's inputs.  `wakeA` and `wakeB` are the broadcast matches of every slot; `pop` asks
      for a slot for an instruction whose operands are ready as `newA` and `newB` say. */
  datatype Input = Input(pop: bool, newA: bool, newB: bool, wakeA: Bits, wakeB: Bits, enabled: Bits, flush: bool)

  ghost predicate Sized(s: State, n: nat) {
    |s.valid| == |s.matrix| == |s.rdyA| == |s.rdyB| == n && forall i :: 0 <= i < n ==> |s.matrix[i]| == n
  }

  ghost predicate SizedInput(i: Input, n: nat) {
    |i.wakeA| == |i.wakeB| == |i.enabled| == n
  }

  predicate OperandsReady(s: State, i: Input, e: nat)
    requires e < |s.rdyA| == |s.rdyB| == |i.wakeA| == |i.wakeB|
  {
    (i.wakeA[e] || s.rdyA[e]) && (i.wakeB[e] || s.rdyB[e])
  }

  /** `t_alu_entry_rdy`. */
  function Ready(s: State, i: Input, n: nat): (r: Bits)
    requires Sized(s, n) && SizedInput(i, n)
    ensures |r| == n
  {
    seq(n, e requires 0 <= e < n => s.valid[e] && i.enabled[e] && OperandsReady(s, i, e))
  }

  predicate Overlap(u: Bits, v: Bits)
    requires |u| == |v|
  {
    exists k :: 0 <= k < |u| && u[k] && v[k]
  }

  /** Ready slots with no ready slot before them. */
  function OldestReady(ready: Bits, matrix: seq<Bits>): (r: Bits)
    requires |matrix| == |ready| && forall i :: 0 <= i < |matrix| ==> |matrix[i]| == |ready|
    ensures |r| == |ready|
  {
    seq(|ready|, i requires 0 <= i < |ready| => ready[i] && !Overlap(ready, matrix[i]))
  }

  function Without(v: Bits, k: nat): (r: Bits)
    ensures |r| == |v|
  {
    if k < |v| then v[k := false] else v
  }

  /** The slot selected this cycle, if any slot is ready. */
  function Selected(lgN: nat, s: State, i: Input): (k: nat)
    requires lgN >= 2 && Sized(s, Pow2(lgN)) && SizedInput(i, Pow2(lgN))
  {
    FindFirstSet.Select(lgN, OldestReady(Ready(s, i, Pow2(lgN)), s.matrix))
  }

  predicate AnyReady(s: State, i: Input, n: nat)
    requires Sized(s, n) && SizedInput(i, n)
  {
    exists e :: 0 <= e < n && Ready(s, i, n)[e]
  }

  /** The slot an allocation takes: the highest free one. */
  function FreeSlot(lgN: nat, s: State): (k: nat)
    requires lgN >= 2 && Sized(s, Pow2(lgN))
  {
    FindFirstSet.Select(lgN, Not(s.valid))
  }

  predicate Full(s: State) {
    forall e :: 0 <= e < |s.valid| ==> s.valid[e]
  }

  predicate Allocates(s: State, i: Input) {
    i.pop && !i.flush && !Full(s)
  }

  // ---------------------------------------------------------------- age

  /** `born[e]` is the time slot `e` was last filled. */
  ghost predicate AgeOrder(s: State, born: seq<nat>, now: nat, n: nat) {
    && Sized(s, n) && |born| == n
    && (forall i, j :: 0 <= i < n && 0 <= j < n && s.valid[i] && s.valid[j] ==>
      s.matrix[i][j] == (born[j] < born[i]) && (born[i] == born[j] ==> i == j))
    && (forall i, j :: 0 <= i < n && 0 <= j < n && s.valid[i] && s.matrix[i][j] ==> s.valid[j])
    && (forall i :: 0 <= i < n && s.valid[i] ==> born[i] < now)
  }

  ghost predicate Earliest(ready: Bits, born: seq<nat>, k: nat)
    requires |ready| == |born|
  {
    k < |ready| && ready[k] && forall e :: 0 <= e < |ready| && ready[e] && e != k ==> born[k] < born[e]
  }

  lemma {:induction false} EarliestExists(ready: Bits, born: seq<nat>, n: nat, e: nat) returns (k: nat)
    requires |ready| == |born| && e < n <= |ready| && ready[e]
    requires forall i, j :: 0 <= i < |ready| && 0 <= j < |ready| && ready[i] && ready[j] && born[i] == born[j] ==> i == j
    ensures k < n && ready[k] && forall e :: 0 <= e < n && ready[e] && e != k ==> born[k] < born[e]
    decreases n
  {
    if forall j :: 0 <= j < n - 1 ==> !ready[j] {
      k := e;
    } else {
      var j :| 0 <= j < n - 1 && ready[j];
      k := EarliestExists(ready, born, n - 1, j);
      if ready[n - 1] && born[n - 1] < born[k] { k := n - 1; }
    }
  }

  /** The oldest-ready vector has exactly one bit, and the slot selected is the ready one that
      was filled first. */
  lemma SelectsEarliest(lgN: nat, s: State, born: seq<nat>, now: nat, i: Input)
    requires lgN >= 2 && AgeOrder(s, born, now, Pow2(lgN)) && SizedInput(i, Pow2(lgN)) && AnyReady(s, i, Pow2(lgN))
    ensures var ready, k := Ready(s, i, Pow2(lgN)), Selected(lgN, s, i);
      && Earliest(ready, born, k)
      && forall e :: 0 <= e < Pow2(lgN) ==> OldestReady(ready, s.matrix)[e] == (e == k)
  {
    hide Pow2;
    var n, ready := Pow2(lgN), Ready(s, i, Pow2(lgN));
    var e :| 0 <= e < n && ready[e];
    var k := EarliestExists(ready, born, n, e);
    var oldest := OldestReady(ready, s.matrix);
    forall x | 0 <= x < n ensures oldest[x] == (x == k) {
      if x == k {
        assert !Overlap(ready, s.matrix[k]);
      } else if ready[x] {
        assert ready[k] && s.matrix[x][k];
        assert Overlap(ready, s.matrix[x]);
      }
    }
    assert oldest[k] && FindFirstSet.Any(oldest);
  }

  // ---------------------------------------------------------------- one clock

  function NextRow(lgN: nat, s: State, i: Input, e: nat): (r: Bits)
    requires lgN >= 2 && Sized(s, Pow2(lgN)) && SizedInput(i, Pow2(lgN)) && e < Pow2(lgN)
    ensures |r| == Pow2(lgN)
  {
    var k := if AnyReady(s, i, Pow2(lgN)) then Selected(lgN, s, i) else Pow2(lgN);
    if i.flush then Zeros(Pow2(lgN))
    else if Allocates(s, i) && e == FreeSlot(lgN, s) then Without(s.valid, k)
    else Without(s.matrix[e], k)
  }

  function NextValid(lgN: nat, s: State, i: Input): (r: Bits)
    requires lgN >= 2 && Sized(s, Pow2(lgN)) && SizedInput(i, Pow2(lgN))
    ensures |r| == Pow2(lgN)
  {
    if i.flush then Zeros(Pow2(lgN))
    else
      var filled := if Allocates(s, i) && FreeSlot(lgN, s) < Pow2(lgN) then s.valid[FreeSlot(lgN, s) := true] else s.valid;
      if AnyReady(s, i, Pow2(lgN)) then Without(filled, Selected(lgN, s, i)) else filled
  }

  /** The operand-ready bits; they are not cleared by a flush. */
  function NextRdy(lgN: nat, s: State, i: Input, e: nat, rdy: bool, wake: bool, initial: bool): bool
    requires lgN >= 2 && Sized(s, Pow2(lgN)) && SizedInput(i, Pow2(lgN)) && e < Pow2(lgN)
  {
    if Allocates(s, i) && e == FreeSlot(lgN, s) then initial
    else if AnyReady(s, i, Pow2(lgN)) && e == Selected(lgN, s, i) then false
    else if s.valid[e] then rdy || wake
    else rdy
  }

  function Next(lgN: nat, s: State, i: Input): (r: State)
    requires lgN >= 2 && Sized(s, Pow2(lgN)) && SizedInput(i, Pow2(lgN))
    ensures Sized(r, Pow2(lgN))
  {
    var n := Pow2(lgN);
    State(NextValid(lgN, s, i),
          seq(n, e requires 0 <= e < n => NextRow(lgN, s, i, e)),
          seq(n, e requires 0 <= e < n => NextRdy(lgN, s, i, e, s.rdyA[e], i.wakeA[e], i.newA)),
          seq(n, e requires 0 <= e < n => NextRdy(lgN, s, i, e, s.rdyB[e], i.wakeB[e], i.newB)))
  }

  function NextBorn(lgN: nat, s: State, i: Input, born: seq<nat>, now: nat): (r: seq<nat>)
    requires lgN >= 2 && Sized(s, Pow2(lgN)) && |born| == Pow2(lgN)
    ensures |r| == Pow2(lgN)
  {
    if Allocates(s, i) && FreeSlot(lgN, s) < Pow2(lgN) then born[FreeSlot(lgN, s) := now] else born
  }

  /** The slot taken is free, and it is not the one selected. */
  lemma FreeSlotIsFree(lgN: nat, s: State)
    requires lgN >= 2 && Sized(s, Pow2(lgN)) && !Full(s)
    ensures FreeSlot(lgN, s) < Pow2(lgN) && !s.valid[FreeSlot(lgN, s)]
  {
    hide Pow2;
    var e :| 0 <= e < |s.valid| && !s.valid[e];
    assert Not(s.valid)[e];
  }

  lemma NextAgeOrder(lgN: nat, s: State, born: seq<nat>, now: nat, i: Input)
    requires lgN >= 2 && AgeOrder(s, born, now, Pow2(lgN)) && SizedInput(i, Pow2(lgN))
    ensures AgeOrder(Next(lgN, s, i), NextBorn(lgN, s, i, born, now), now + 1, Pow2(lgN))
  {
    hide Pow2; hide Selected; hide FreeSlot; hide Ready; hide Full; hide NextRdy; hide AnyReady;
    var n := Pow2(lgN);
    var k := if AnyReady(s, i, n) then Selected(lgN, s, i) else n;
    if AnyReady(s, i, n) { SelectsEarliest(lgN, s, born, now, i); SelectedIsValid(lgN, s, i); }
    if Allocates(s, i) { FreeSlotIsFree(lgN, s); }
    var s', born' := Next(lgN, s, i), NextBorn(lgN, s, i, born, now);
    var slot := if Allocates(s, i) then FreeSlot(lgN, s) else n;
    if !i.flush {
      assert forall e :: 0 <= e < n ==> s'.valid[e] == (e == slot || (s.valid[e] && e != k));
      assert forall e :: 0 <= e < n ==> s'.matrix[e] == Without(if e == slot then s.valid else s.matrix[e], k);
      AgeOrderAfter(s, s', born, born', now, n, k, slot);
    }
  }

  lemma SelectedIsValid(lgN: nat, s: State, i: Input)
    requires lgN >= 2 && Sized(s, Pow2(lgN)) && SizedInput(i, Pow2(lgN))
    ensures Selected(lgN, s, i) < Pow2(lgN) && OldestReady(Ready(s, i, Pow2(lgN)), s.matrix)[Selected(lgN, s, i)]
      ==> s.valid[Selected(lgN, s, i)]
  {
    hide Pow2; hide FindFirstSet.Select;
  }

  /** Freeing slot `k` and filling the free slot `slot` behind all others keeps the order. */
  lemma AgeOrderAfter(s: State, s': State, born: seq<nat>, born': seq<nat>, now: nat, n: nat, k: nat, slot: nat)
    requires AgeOrder(s, born, now, n) && Sized(s', n)
    requires slot < n ==> !s.valid[slot]
    requires k < n ==> s.valid[k]
    requires born' == if slot < n then born[slot := now] else born
    requires forall e :: 0 <= e < n ==> s'.valid[e] == (e == slot || (s.valid[e] && e != k))
    requires forall e :: 0 <= e < n ==> s'.matrix[e] == Without(if e == slot then s.valid else s.matrix[e], k)
    ensures AgeOrder(s', born', now + 1, n)
  {
  }

  // ---------------------------------------------------------------- what a clock does

  /** Slot `e` holds an instruction that can go: its unit is free and each operand has been woken
      or is being woken. */
  predicate CanGo(s: State, i: Input, e: nat)
    requires e < |s.valid| == |s.rdyA| == |s.rdyB| == |i.wakeA| == |i.wakeB| == |i.enabled|
  {
    s.valid[e] && i.enabled[e] && (s.rdyA[e] || i.wakeA[e]) && (s.rdyB[e] || i.wakeB[e])
  }

  /** The slot selected, if any can go: the one filled first of those that can. */
  ghost predicate GoesFirst(s: State, i: Input, born: seq<nat>, n: nat, start: bool, slot: nat)
    requires Sized(s, n) && SizedInput(i, n) && |born| == n
  {
    && (start <==> exists e :: 0 <= e < n && CanGo(s, i, e))
    && (start ==> slot < n && CanGo(s, i, slot) && forall e :: 0 <= e < n && CanGo(s, i, e) && e != slot ==> born[slot] < born[e])
  }

  /** Slot `e` keeps its instruction, which remembers its wakeups. */
  ghost predicate Stays(s: State, i: Input, s': State, e: nat)
    requires e < |s.valid| == |s.rdyA| == |s.rdyB| == |i.wakeA| == |i.wakeB| == |s'.valid| == |s'.rdyA| == |s'.rdyB|
  {
    s'.valid[e] && s'.rdyA[e] == (s.rdyA[e] || i.wakeA[e]) && s'.rdyB[e] == (s.rdyB[e] || i.wakeB[e])
  }

  /** Slot `e`, which was free, holds the new instruction. */
  ghost predicate Filled(s: State, i: Input, s': State, e: nat)
    requires e < |s.valid| == |s'.valid| == |s'.rdyA| == |s'.rdyB|
  {
    !s.valid[e] && s'.valid[e] && s'.rdyA[e] == i.newA && s'.rdyB[e] == i.newB
  }

  /** The selected slot is given up and a flush empties all; the others stay; and a new
      instruction takes one slot if one was free. */
  ghost predicate TurnsOver(s: State, i: Input, n: nat, start: bool, slot: nat, s': State)
    requires Sized(s, n) && SizedInput(i, n) && Sized(s', n)
  {
    && (forall e :: 0 <= e < n && s.valid[e] ==>
      if i.flush || (start && e == slot) then !s'.valid[e] else Stays(s, i, s', e))
    && (if i.pop && !i.flush && exists e :: 0 <= e < n && !s.valid[e] then
        exists f :: 0 <= f < n && Filled(s, i, s', f) && forall e :: 0 <= e < n && !s.valid[e] && e != f ==> !s'.valid[e]
        else forall e :: 0 <= e < n && !s.valid[e] ==> !s'.valid[e])
  }

  lemma SelectedGoesFirst(lgN: nat, s: State, born: seq<nat>, now: nat, i: Input)
    requires lgN >= 2 && AgeOrder(s, born, now, Pow2(lgN)) && SizedInput(i, Pow2(lgN))
    ensures GoesFirst(s, i, born, Pow2(lgN), AnyReady(s, i, Pow2(lgN)), Selected(lgN, s, i))
  {
    hide Pow2; hide Selected; hide OldestReady;
    var n := Pow2(lgN);
    forall e: nat | e < n ensures CanGo(s, i, e) == Ready(s, i, n)[e] {}
    if AnyReady(s, i, n) { SelectsEarliest(lgN, s, born, now, i); }
  }

  lemma NextTurnsOver(lgN: nat, s: State, born: seq<nat>, now: nat, i: Input)
    requires lgN >= 2 && AgeOrder(s, born, now, Pow2(lgN)) && SizedInput(i, Pow2(lgN))
    ensures TurnsOver(s, i, Pow2(lgN), AnyReady(s, i, Pow2(lgN)), Selected(lgN, s, i), Next(lgN, s, i))
  {
    hide Pow2; hide Selected; hide FreeSlot; hide NextRow; hide OldestReady; hide AnyReady; hide Ready;
    SelectedGoesFirst(lgN, s, born, now, i);
    var s', n := Next(lgN, s, i), Pow2(lgN);
    if Allocates(s, i) {
      FreeSlotIsFree(lgN, s);
      assert Filled(s, i, s', FreeSlot(lgN, s));
    }
  }

  lemma BornWhenFilled(lgN: nat, s: State, born: seq<nat>, now: nat, i: Input)
    requires lgN >= 2 && AgeOrder(s, born, now, Pow2(lgN)) && SizedInput(i, Pow2(lgN))
    ensures var s', born' := Next(lgN, s, i), NextBorn(lgN, s, i, born, now);
      forall e :: 0 <= e < Pow2(lgN) ==>
        (!s.valid[e] && s'.valid[e] ==> born'[e] == now) && (s.valid[e] ==> born'[e] == born[e])
  {
    hide Pow2; hide Selected; hide FreeSlot; hide NextRow; hide OldestReady; hide AnyReady; hide Ready; hide NextRdy;
    if Allocates(s, i) { FreeSlotIsFree(lgN, s); }
  }

  // ---------------------------------------------------------------- bounded wait

  function Count(v: Bits): nat {
    if v == [] then 0 else Count(v[..|v| - 1]) + Bit(v[|v| - 1])
  }

  lemma {:induction false} CountCleared(v: Bits, k: nat)
    requires k < |v| && v[k]
    ensures Count(v[k := false]) + 1 == Count(v)
    decreases |v|
  {
    var m := |v| - 1;
    if k == m {
      assert v[k := false][..m] == v[..m];
    } else {
      assert v[k := false][..m] == v[..m][k := false];
      CountCleared(v[..m], k);
    }
  }

  lemma {:induction false} CountBound(v: Bits)
    ensures Count(v) <= |v|
    ensures forall e :: 0 <= e < |v| && !v[e] ==> Count(v) < |v|
    decreases |v|
  {
    if v != [] {
      var m := |v| - 1;
      CountBound(v[..m]);
      forall e | 0 <= e < |v| && !v[e] ensures Count(v) < |v| {
        if e < m { assert !v[..m][e]; }
      }
    }
  }

  /** A ready slot that is passed over stays, stays ready, and has one slot fewer before it. */
  lemma PassedOver(lgN: nat, s: State, born: seq<nat>, now: nat, i: Input, e: nat)
    requires lgN >= 2 && AgeOrder(s, born, now, Pow2(lgN)) && SizedInput(i, Pow2(lgN)) && e < Pow2(lgN)
    requires s.valid[e] && !i.flush && Ready(s, i, Pow2(lgN))[e] && Selected(lgN, s, i) != e
    ensures var s' := Next(lgN, s, i);
      s'.valid[e] && Count(s'.matrix[e]) + 1 == Count(s.matrix[e]) && s'.rdyA[e] && s'.rdyB[e]
  {
    hide Pow2; hide Selected; hide FreeSlot; hide Full; hide Count;
    SelectsEarliest(lgN, s, born, now, i);
    if Allocates(s, i) { FreeSlotIsFree(lgN, s); }
    CountCleared(s.matrix[e], Selected(lgN, s, i));
  }

  function RunFrom(lgN: nat, s: State, inputs: seq<Input>): (r: State)
    requires lgN >= 2 && Sized(s, Pow2(lgN)) && forall k :: 0 <= k < |inputs| ==> SizedInput(inputs[k], Pow2(lgN))
    ensures Sized(r, Pow2(lgN))
    decreases |inputs|
  {
    if inputs == [] then s else RunFrom(lgN, Next(lgN, s, inputs[0]), inputs[1..])
  }

  /** Once the operands of a slot are ready it is selected within one cycle per slot filled before
      it, plus one, as long as its unit stays enabled and no flush comes. */
  lemma {:induction false} BoundedWait(lgN: nat, s: State, born: seq<nat>, now: nat, inputs: seq<Input>, e: nat) returns (t: nat)
    requires lgN >= 2 && AgeOrder(s, born, now, Pow2(lgN)) && e < Pow2(lgN) && s.valid[e]
    requires forall k :: 0 <= k < |inputs| ==> SizedInput(inputs[k], Pow2(lgN)) && inputs[k].enabled[e] && !inputs[k].flush
    requires |inputs| > Count(s.matrix[e]) && SizedInput(inputs[0], Pow2(lgN)) && OperandsReady(s, inputs[0], e)
    ensures t <= Count(s.matrix[e]) < Pow2(lgN)
    ensures var s' := RunFrom(lgN, s, inputs[..t]);
      Ready(s', inputs[t], Pow2(lgN))[e] && Selected(lgN, s', inputs[t]) == e
    decreases Count(s.matrix[e])
  {
    hide Pow2; hide Selected; hide Count; hide Next;
    assert Ready(s, inputs[0], Pow2(lgN))[e];
    CountBound(s.matrix[e]);
    if Selected(lgN, s, inputs[0]) == e {
      t := 0;
      assert inputs[..0] == [];
    } else {
      PassedOver(lgN, s, born, now, inputs[0], e);
      NextAgeOrder(lgN, s, born, now, inputs[0]);
      t := BoundedWait(lgN, Next(lgN, s, inputs[0]), NextBorn(lgN, s, inputs[0], born, now), now + 1, inputs[1..], e);
      assert inputs[..t + 1][1..] == inputs[1..][..t];
      t := t + 1;
    }
  }

  // ---------------------------------------------------------------- the clocked block

  class Matrix {
    const lgN: nat
    var s: State
    ghost var born: seq<nat>
    ghost var now: nat

    ghost predicate Valid()
      reads this
    {
      lgN >= 2 && AgeOrder(s, born, now, Pow2(lgN))
    }

    /** Reset clears everything. */
    constructor (lg: nat)
      requires lg >= 2
      ensures Valid() && lgN == lg && forall e :: 0 <= e < Pow2(lg) ==> !s.valid[e]
    {
      lgN := lg;
      var n, none := Pow2(lg), Zeros(Pow2(lg));
      s := State(none, seq(n, _ => none), none, none);
      born, now := seq(n, _ => 0), 0;
    }

    /** One clock.  What is selected is the ready instruction that waited longest. */
    method Clock(i: Input) returns (start: bool, slot: nat)
      requires Valid() && SizedInput(i, Pow2(lgN))
      modifies this
      ensures Valid() && now == old(now) + 1
      ensures s == Next(lgN, old(s), i) && born == NextBorn(lgN, old(s), i, old(born), old(now))
      ensures GoesFirst(old(s), i, old(born), Pow2(lgN), start, slot)
      ensures TurnsOver(old(s), i, Pow2(lgN), start, slot, s)
      ensures forall e :: 0 <= e < Pow2(lgN) && !old(s).valid[e] && s.valid[e] ==> born[e] == old(now)
      ensures forall e :: 0 <= e < Pow2(lgN) && old(s).valid[e] ==> born[e] == old(born[e])
    {
      hide Next; hide NextBorn; hide Pow2; hide Selected; hide AnyReady; hide Ready; hide FreeSlot; hide GoesFirst; hide TurnsOver;
      start, slot := AnyReady(s, i, Pow2(lgN)), Selected(lgN, s, i);
      SelectedGoesFirst(lgN, s, born, now, i);
      NextTurnsOver(lgN, s, born, now, i);
      BornWhenFilled(lgN, s, born, now, i);
      NextAgeOrder(lgN, s, born, now, i);
      ghost var born' := NextBorn(lgN, s, i, born, now);
      s := Advance(lgN, s, i);
      born, now := born', now + 1;
    }

    /** The registers of every slot, one slot after the other. */
    static method Advance(lgN: nat, s: State, i: Input) returns (r: State)
      requires lgN >= 2 && Sized(s, Pow2(lgN)) && SizedInput(i, Pow2(lgN))
      ensures r == Next(lgN, s, i)
    {
      hide NextRow; hide NextRdy; hide NextValid; hide Pow2;
      var n := Pow2(lgN);
      var rows, a, b := [], [], [];
      for e := 0 to n
        invariant |rows| == |a| == |b| == e
        invariant forall k :: 0 <= k < e ==> rows[k] == NextRow(lgN, s, i, k)
        invariant forall k :: 0 <= k < e ==> a[k] == NextRdy(lgN, s, i, k, s.rdyA[k], i.wakeA[k], i.newA)
        invariant forall k :: 0 <= k < e ==> b[k] == NextRdy(lgN, s, i, k, s.rdyB[k], i.wakeB[k], i.newB)
      {
        rows := rows + [NextRow(lgN, s, i, e)];
        a := a + [NextRdy(lgN, s, i, e, s.rdyA[e], i.wakeA[e], i.newA)];
        b := b + [NextRdy(lgN, s, i, e, s.rdyB[e], i.wakeB[e], i.newB)];
      }
      r := State(NextValid(lgN, s, i), rows, a, b);
    }
  }
}
