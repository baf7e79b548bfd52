/** The serializing path of core.sv reaches an empty register bank: the clocks that take the
    freshly reset core there, each one made by the clocked registers themselves. */
module EmptyBank {
  import opened RenameMachine
  import R = RenameTables
  import FFS = FindFirstSet

  function Idle(): R.Input {
    R.Input([], false, false, false, R.None, R.None, R.None, R.None, false, false, false)
  }

  /** An ordinary integer instruction that writes register `dst`. */
  function Plain(dst: nat): R.Uop {
    R.Uop(true, dst, 0, 0, false, false, false, false, false, false, false, false, false)
  }

  /** A serializing instruction with a destination, such as a read of a counter. */
  function Counter(dst: nat): R.Uop {
    Plain(dst).(serializing := true)
  }

  function Completed(slot: nat): R.Input {
    Idle().(done1 := R.Some(R.Completion(slot, true, false, false)))
  }

  /** Running normally, with `es` renamed so far and `n` entries live. */
  ghost predicate Calm(t: R.RenameTables, es: seq<Event>, n: nat)
    reads t
  {
    t.Valid() && t.state == R.Active && !t.irq && !t.pendingFault && t.Count() == n && t.trace == es
  }

  method Pass(t: R.RenameTables, ghost es: seq<Event>)
    requires Calm(t, es, 0)
    modifies t
    ensures Calm(t, es, 0) && t.bankSel == !old(t.bankSel)
  {
    hide R.Follows; hide R.Pick; hide R.Bank; hide R.RenameTables.RobAfter;
    t.Clock(Idle());
  }

  lemma Picked(t: R.RenameTables, p: nat)
    requires t.Valid() && t.bankSel && HighestEven(Run(Reset(), t.trace).free, p)
    ensures t.HasFree(true) && forall q :: t.Highest(true, q) ==> q == p
  {
    assert p in R.SetOf(t.tables.free);
    forall q: nat | q < PRF && t.tables.free[q] && q % 2 == 0 ensures q <= p { assert q in R.SetOf(t.tables.free); }
  }

  /** Renaming takes the highest free register of the selected bank. */
  method Issue(t: R.RenameTables, ghost es: seq<Event>, dst: nat, ghost p: nat)
    requires Calm(t, es, 0) && t.bankSel && 1 <= dst < ARCH
    requires HighestEven(Run(Reset(), es).free, p)
    modifies t
    ensures Calm(t, es + [Alloc(true, dst, p)], 1) && !t.bankSel
    ensures !t.robComplete[t.head % 32] && t.robStoreDone[t.head % 32]
  {
    hide R.Follows; hide R.Pick; hide R.Bank; hide R.RenameTables.HasFree; hide R.RenameTables.EntriesOwn;
    hide R.RenameTables.Decide; hide R.RenameTables.Highest; hide Run; hide Legal; hide Reset; hide HighestEven;
    Picked(t, p);
    assert t.Filled(t.head % 32, 1) == R.Some(0);
    t.Clock(Idle().(queue := [Plain(dst)]));
  }

  method Complete(t: R.RenameTables, ghost es: seq<Event>)
    requires Calm(t, es, 1) && !t.robComplete[t.head % 32] && t.robStoreDone[t.head % 32]
    modifies t
    ensures Calm(t, es, 1) && t.bankSel == !old(t.bankSel)
    ensures t.robComplete[t.head % 32] && t.robStoreDone[t.head % 32] && !t.tables.rob[t.head % 32].faulted
  {
    hide R.Follows; hide R.Pick; hide R.Bank;
    assert t.Filled(t.head % 32, 0) == R.None;
    t.Clock(Completed(t.head % 32));
  }

  method RetireOne(t: R.RenameTables, ghost es: seq<Event>)
    requires Calm(t, es, 1)
    requires t.robComplete[t.head % 32] && t.robStoreDone[t.head % 32] && !t.tables.rob[t.head % 32].faulted
    modifies t
    ensures Calm(t, es + [Retire], 0) && t.bankSel == !old(t.bankSel)
  {
    hide R.Follows; hide R.Pick; hide R.Bank; hide R.RenameTables.RobAfter;
    t.Clock(Idle());
  }

  /** Rename, complete and retire, one at a time and only while the even bank is selected,
      instructions that write registers 31 down to 1; then offer a serializing instruction.
      Its destination is about to be allocated from a bank that holds no free register. */
  method Reach() returns (t: R.RenameTables, i: R.Input)
    ensures fresh(t) && t.Valid() && R.WellFormed(i) && t.SerialMisses(i)
  {
    hide Run; hide Legal; hide Reset; hide HighestEven;
    t := new R.RenameTables();
    Pass(t, []);
    var k := 32;
    while k > 1
      invariant fresh(t) && 1 <= k <= 32 && Calm(t, Crowd(k), 0) && t.bankSel
    {
      k := k - 1;
      CrowdRun(k + 1);
      Issue(t, Crowd(k + 1), k, 2 * k);
      Complete(t, Crowd(k + 1) + [Alloc(true, k, 2 * k)]);
      RetireOne(t, Crowd(k + 1) + [Alloc(true, k, 2 * k)]);
      Pass(t, Crowd(k + 1) + [Alloc(true, k, 2 * k)] + [Retire]);
      assert Crowd(k) == Crowd(k + 1) + [Alloc(true, k, 2 * k)] + [Retire];
    }
    Pass(t, Crowd(1));
    i := Idle().(queue := [Counter(10)]);
    Offer(t, i);
  }

  /** Some registers are free, and only odd ones. */
  lemma OnlyOddFree(t: R.RenameTables)
    requires t.Valid() && t.trace == Crowd(1)
    ensures t.HasFree(false) && !t.HasFree(true)
  {
    CrowdRun(1);
    var free := Run(Reset(), Crowd(1)).free;
    assert R.SetOf(t.tables.free) == free;
    var p :| p in free;
    assert p < PRF && t.tables.free[p] && p % 2 == 1;
    forall q: nat | q < PRF && t.tables.free[q] ensures q % 2 == 1 { assert q in free; }
  }

  method Offer(t: R.RenameTables, i: R.Input)
    requires Calm(t, Crowd(1), 0) && !t.bankSel && i == Idle().(queue := [Counter(10)])
    modifies t
    ensures t.Valid() && R.WellFormed(i) && t.SerialMisses(i)
  {
    hide R.Follows; hide R.Bank; hide R.RenameTables.HasFree; hide R.RenameTables.EntriesOwn; hide R.RenameTables.BitsOwn;
    t.Clock(i);
    OnlyOddFree(t);
  }

  /** One more clock, and the tables no longer describe any legal run. */
  method Break() returns (t: R.RenameTables)
    ensures t.Shaped() && !t.Valid()
  {
    var i: R.Input;
    t, i := Reach();
    t.Clock(i);
  }
}
