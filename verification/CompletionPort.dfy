/** The first integer port of exec.sv: one result bus shared by the ALU, the multiplier and the
    divider, reserved through a shift register.

    The multiplier latency and the operand width are free. */
module CompletionPort {
  import Divider

  datatype Option<T> = None | Some(value: T)

  /** How an instruction uses the port. */
  datatype Kind = Alu | Mul | Div

  /** `wb` is `r_wb_bitvec`; `mul` the valid bits of the multiplier pipeline; `divAge` how far the
      divider is; `picked` the kind of instruction now in its execute cycle. */
  datatype Regs = Regs(wb: seq<bool>, mul: seq<bool>, divAge: nat, picked: Option<Kind>)

  /** One cycle's inputs: the instruction the scheduler would select, and the pipeline flush. */
  datatype Input = Input(candidate: Option<Kind>, flush: bool)

  ghost predicate Sized(r: Regs, lat: nat, w: nat) {
    0 < lat && lat < w && |r.wb| == w + 2 && |r.mul| == lat + 1
  }

  /** A flush in the execute cycle keeps the units from starting, but not the ALU from writing. */
  predicate Starts(r: Regs, i: Input, k: Kind) {
    r.picked == Some(k) && (k == Alu || !i.flush)
  }

  predicate AluClaims(r: Regs) {
    r.picked == Some(Alu)
  }

  predicate MulClaims(r: Regs)
    requires r.mul != []
  {
    r.mul[|r.mul| - 1]
  }

  predicate DivClaims(r: Regs, w: nat) {
    r.divAge == w + 2
  }

  /** The test made on a candidate before it may be selected. */
  predicate Selectable(r: Regs, i: Input, k: Kind, lat: nat, w: nat)
    requires |r.wb| == w + 2 && 0 < lat < w
  {
    match k
    case Alu => !r.wb[1]
    case Mul => !r.wb[lat + 2]
    case Div => r.divAge == 0 && !Starts(r, i, Div)
  }

  /** Bit `k` of the shift register stands for exactly one completion, `k` cycles from now. */
  ghost predicate Reserved(r: Regs, lat: nat, w: nat, k: nat)
    requires Sized(r, lat, w) && k < w + 2
  {
    var byMul, byDiv := k <= lat && r.mul[lat - k], r.divAge > 0 && r.divAge + k == w + 2;
    r.wb[k] == (byMul || byDiv) && !(byMul && byDiv)
  }

  ghost predicate Inv(r: Regs, lat: nat, w: nat) {
    && Sized(r, lat, w) && r.divAge <= w + 2
    && (forall k :: 0 <= k < w + 2 ==> Reserved(r, lat, w, k))
    && (r.picked == Some(Alu) ==> !r.wb[0])
    && (r.picked == Some(Mul) ==> !r.wb[lat + 1])
    && (r.picked == Some(Div) ==> r.divAge == 0)
  }

  /** At most one of the three drives the result bus and register write port 0, and the divider
      is idle whenever it is started. */
  ghost predicate Exclusive(r: Regs, i: Input, w: nat)
    requires r.mul != []
  {
    && !(AluClaims(r) && MulClaims(r)) && !(AluClaims(r) && DivClaims(r, w)) && !(MulClaims(r) && DivClaims(r, w))
    && (Starts(r, i, Div) ==> r.divAge == 0)
  }

  lemma InvExclusive(r: Regs, i: Input, lat: nat, w: nat)
    requires Inv(r, lat, w)
    ensures Exclusive(r, i, w) && (r.wb[0] <==> MulClaims(r) || DivClaims(r, w))
  {
    assert Reserved(r, lat, w, 0);
  }

  function Next(r: Regs, i: Input, lat: nat, w: nat): Regs
    requires Sized(r, lat, w)
  {
    var shifted := r.wb[1..] + [Starts(r, i, Div)];
    var chosen := match i.candidate
      case Some(k) => if Selectable(r, i, k, lat, w) && !i.flush then i.candidate else None
      case None => None;
    Regs(if Starts(r, i, Mul) then shifted[lat := true] else shifted,
         [Starts(r, i, Mul)] + r.mul[..lat],
         Divider.NextAge(r.divAge, Starts(r, i, Div), w),
         chosen)
  }

  lemma NextInv(r: Regs, i: Input, lat: nat, w: nat)
    requires Inv(r, lat, w)
    ensures Inv(Next(r, i, lat, w), lat, w)
  {
    var n := Next(r, i, lat, w);
    forall k | 0 <= k < w + 2 ensures Reserved(n, lat, w, k) {
      if k < w + 1 { assert Reserved(r, lat, w, k + 1); }
    }
  }

  /** A candidate is turned away only if its result would meet another one at the port, or if it
      is a division and the divider is taken: no free cycle of the port is lost. */
  lemma SelectedUnlessTaken(r: Regs, i: Input, lat: nat, w: nat)
    requires Inv(r, lat, w)
    ensures var n := Next(r, i, lat, w);
      && (n.picked == None || (n.picked == i.candidate && !i.flush))
      && (i.candidate == Some(Alu) && !i.flush ==> (n.picked == None <==> MulClaims(n) || DivClaims(n, w)))
      && (i.candidate == Some(Mul) && !i.flush ==> (n.picked == None <==> r.divAge > 0 && r.divAge + lat == w))
      && (i.candidate == Some(Div) && !i.flush ==> (n.picked == None <==> r.divAge > 0 || r.picked == Some(Div)))
  {
    NextInv(r, i, lat, w);
    InvExclusive(Next(r, i, lat, w), i, lat, w);
    assert Reserved(r, lat, w, lat + 2);
    assert Reserved(r, lat, w, 1);
  }

  /** The instruction in its execute cycle starts its unit unless a flush is on, and no other
      instruction does. */
  lemma StartsUnlessFlushed(r: Regs, i: Input, lat: nat, w: nat)
    requires Inv(r, lat, w)
    ensures var n := Next(r, i, lat, w);
      && (n.mul[0] <==> r.picked == Some(Mul) && !i.flush)
      && (n.divAge == 1 <==> r.picked == Some(Div) && !i.flush)
  {
  }

  function Reset(lat: nat, w: nat): Regs {
    Regs(seq(w + 2, _ => false), seq(lat + 1, _ => false), 0, None)
  }

  function Run(lat: nat, w: nat, inputs: seq<Input>): (r: Regs)
    requires 0 < lat < w
    ensures Sized(r, lat, w)
  {
    if inputs == [] then Reset(lat, w) else Next(Run(lat, w, inputs[..|inputs| - 1]), inputs[|inputs| - 1], lat, w)
  }

  lemma {:induction false} RunInv(lat: nat, w: nat, inputs: seq<Input>)
    requires 0 < lat < w
    ensures Inv(Run(lat, w, inputs), lat, w)
  {
    if inputs != [] {
      RunInv(lat, w, inputs[..|inputs| - 1]);
      NextInv(Run(lat, w, inputs[..|inputs| - 1]), inputs[|inputs| - 1], lat, w);
    }
  }

  /** Never two claimants, in any cycle of any run. */
  lemma NeverTwoClaimants(lat: nat, w: nat, inputs: seq<Input>, i: Input)
    requires 0 < lat < w
    ensures Exclusive(Run(lat, w, inputs), i, w)
  {
    hide Exclusive; hide Inv; hide Run;
    RunInv(lat, w, inputs);
    InvExclusive(Run(lat, w, inputs), i, lat, w);
  }

  /** A multiplication that starts claims the port `lat + 1` cycles later, whatever happens in
      between; a division `w + 2` cycles later. */
  lemma {:induction false} StartsComplete(lat: nat, w: nat, inputs: seq<Input>, s: nat)
    requires 0 < lat < w && s < |inputs|
    ensures var before, end := Run(lat, w, inputs[..s]), Run(lat, w, inputs);
      && (Starts(before, inputs[s], Mul) && |inputs| == s + lat + 1 ==> MulClaims(end))
      && (Starts(before, inputs[s], Div) && |inputs| == s + w + 2 ==> DivClaims(end, w))
  {
    var before, end := Run(lat, w, inputs[..s]), Run(lat, w, inputs);
    RunInv(lat, w, inputs[..s]);
    if Starts(before, inputs[s], Mul) && |inputs| == s + lat + 1 {
      MulAdvances(lat, w, inputs, s, |inputs|);
      assert inputs[..|inputs|] == inputs;
    }
    if Starts(before, inputs[s], Div) && |inputs| == s + w + 2 {
      DivAdvances(lat, w, inputs, s, |inputs|);
      assert inputs[..|inputs|] == inputs;
    }
  }

  lemma {:induction false} MulAdvances(lat: nat, w: nat, inputs: seq<Input>, s: nat, n: nat)
    requires 0 < lat < w && s < n <= |inputs| && n <= s + lat + 1
    requires Starts(Run(lat, w, inputs[..s]), inputs[s], Mul)
    ensures Run(lat, w, inputs[..n]).mul[n - s - 1]
    decreases n
  {
    assert inputs[..n][..n - 1] == inputs[..n - 1];
    if n > s + 1 { MulAdvances(lat, w, inputs, s, n - 1); }
  }

  lemma {:induction false} DivAdvances(lat: nat, w: nat, inputs: seq<Input>, s: nat, n: nat)
    requires 0 < lat < w && s < n <= |inputs| && n <= s + w + 2
    requires Starts(Run(lat, w, inputs[..s]), inputs[s], Div)
    ensures Run(lat, w, inputs[..n]).divAge == n - s
    decreases n
  {
    assert inputs[..n][..n - 1] == inputs[..n - 1];
    if n > s + 1 {
      DivAdvances(lat, w, inputs, s, n - 1);
    } else {
      RunInv(lat, w, inputs[..s]);
    }
  }

  class Port {
    const lat: nat
    const w: nat
    var r: Regs

    ghost predicate Valid()
      reads this
    {
      Inv(r, lat, w)
    }

    constructor (latency: nat, width: nat)
      requires 0 < latency < width
      ensures Valid() && lat == latency && w == width && r == Reset(latency, width)
    {
      lat, w := latency, width;
      r := Reset(latency, width);
    }

    method Clock(i: Input)
      requires Valid()
      modifies `r
      ensures Valid() && r == Next(old(r), i, lat, w) && Exclusive(old(r), i, w)
    {
      InvExclusive(r, i, lat, w);
      NextInv(r, i, lat, w);
      var wb := r.wb;
      for k := w + 1 downto 0
        invariant |wb| == w + 2 && forall j :: k <= j < w + 1 ==> wb[j] == r.wb[j + 1]
      {
        wb := wb[k := r.wb[k + 1]];
      }
      wb := wb[w + 1 := Starts(r, i, Div)];
      assert wb == r.wb[1..] + [Starts(r, i, Div)];
      if Starts(r, i, Mul) { wb := wb[lat := true]; }
      var chosen := i.candidate;
      if chosen.Some? && (i.flush || !Selectable(r, i, chosen.value, lat, w)) { chosen := None; }
      r := Regs(wb, [Starts(r, i, Mul)] + r.mul[..lat], Divider.NextAge(r.divAge, Starts(r, i, Div), w), chosen);
    }
  }
}
