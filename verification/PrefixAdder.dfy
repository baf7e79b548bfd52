/** The adder generators gen_ppa.py and gen_rca.py, and the meaning of the netlists they write. */
module PrefixAdder {
  import opened Bits

  // ---------------------------------------------------------------- netlists

  datatype Kind = Propagate | Generate | Carry

  /** `pp_3_pp_2` is the propagate wire with indices 3, 2. */
  datatype Name = Name(kind: Kind, ids: seq<nat>)

  datatype Expr =
    | A(i: nat) | B(i: nat) | Wire(n: Name)
    | Xor(l: Expr, r: Expr) | And(l: Expr, r: Expr) | Or(l: Expr, r: Expr)

  datatype Stmt = Declare(n: Name, e: Expr) | Assign(i: nat, e: Expr)

  datatype Option<T> = None | Some(value: T)

  datatype State = State(wires: map<Name, bool>, y: map<nat, bool>)

  predicate Defined(e: Expr, wires: map<Name, bool>, bits: nat) {
    match e
    case A(i) => i < bits
    case B(i) => i < bits
    case Wire(n) => n in wires
    case Xor(l, r) => Defined(l, wires, bits) && Defined(r, wires, bits)
    case And(l, r) => Defined(l, wires, bits) && Defined(r, wires, bits)
    case Or(l, r) => Defined(l, wires, bits) && Defined(r, wires, bits)
  }

  function Eval(e: Expr, wires: map<Name, bool>, a: Bits, b: Bits): bool
    requires |a| == |b| && Defined(e, wires, |a|)
  {
    match e
    case A(i) => a[i]
    case B(i) => b[i]
    case Wire(n) => wires[n]
    case Xor(l, r) => Eval(l, wires, a, b) != Eval(r, wires, a, b)
    case And(l, r) => Eval(l, wires, a, b) && Eval(r, wires, a, b)
    case Or(l, r) => Eval(l, wires, a, b) || Eval(r, wires, a, b)
  }

  /** Undeclared and doubly driven wires are errors. */
  function Step(s: State, t: Stmt, a: Bits, b: Bits): Option<State>
    requires |a| == |b|
  {
    if !Defined(t.e, s.wires, |a|) then None
    else match t
      case Declare(n, e) => if n in s.wires then None else Some(s.(wires := s.wires[n := Eval(e, s.wires, a, b)]))
      case Assign(i, e) => if i in s.y || i >= |a| then None else Some(s.(y := s.y[i := Eval(e, s.wires, a, b)]))
  }

  function Run(o: seq<Stmt>, a: Bits, b: Bits): Option<State>
    requires |a| == |b|
  {
    if o == [] then Some(State(map[], map[]))
    else match Run(o[..|o| - 1], a, b)
      case None => None
      case Some(s) => Step(s, o[|o| - 1], a, b)
  }

  lemma RunSnoc(o: seq<Stmt>, t: Stmt, a: Bits, b: Bits)
    requires |a| == |b| && Run(o, a, b).Some?
    ensures Run(o + [t], a, b) == Step(Run(o, a, b).value, t, a, b)
  {
    assert (o + [t])[..|o|] == o;
  }

  lemma RunDeclare(o: seq<Stmt>, n: Name, e: Expr, a: Bits, b: Bits)
    requires |a| == |b| && Run(o, a, b).Some?
    requires n !in Run(o, a, b).value.wires && Defined(e, Run(o, a, b).value.wires, |a|)
    ensures var s := Run(o, a, b).value;
      Run(o + [Declare(n, e)], a, b) == Some(s.(wires := s.wires[n := Eval(e, s.wires, a, b)]))
  {
    hide Run; hide Eval;
    RunSnoc(o, Declare(n, e), a, b);
  }

  lemma RunAssign(o: seq<Stmt>, i: nat, e: Expr, a: Bits, b: Bits)
    requires |a| == |b| && Run(o, a, b).Some? && i < |a|
    requires i !in Run(o, a, b).value.y && Defined(e, Run(o, a, b).value.wires, |a|)
    ensures var s := Run(o, a, b).value;
      Run(o + [Assign(i, e)], a, b) == Some(s.(y := s.y[i := Eval(e, s.wires, a, b)]))
  {
    hide Run; hide Eval;
    RunSnoc(o, Assign(i, e), a, b);
  }

  // ---------------------------------------------------------------- groups of bits

  /** Every position from `lo` to `i` passes a carry on. */
  predicate GroupPropagates(a: Bits, b: Bits, lo: nat, i: nat)
    requires lo <= i < |a| == |b|
    decreases i
  {
    a[i] != b[i] && (lo < i ==> GroupPropagates(a, b, lo, i - 1))
  }

  /** Positions `lo` to `i` produce a carry on their own. */
  predicate GroupGenerates(a: Bits, b: Bits, lo: nat, i: nat)
    requires lo <= i < |a| == |b|
    decreases i
  {
    (a[i] && b[i]) || (a[i] != b[i] && lo < i && GroupGenerates(a, b, lo, i - 1))
  }

  lemma {:induction false} GroupsJoin(a: Bits, b: Bits, lo: nat, m: nat, i: nat)
    requires lo < m <= i < |a| == |b|
    ensures GroupPropagates(a, b, lo, i) == (GroupPropagates(a, b, m, i) && GroupPropagates(a, b, lo, m - 1))
    ensures GroupGenerates(a, b, lo, i)
      == ((GroupGenerates(a, b, lo, m - 1) && GroupPropagates(a, b, m, i)) || GroupGenerates(a, b, m, i))
    decreases i
  {
    if m < i {
      GroupsJoin(a, b, lo, m, i - 1);
    }
  }

  /** What all positions up to `i` generate is the carry of the numbers below. */
  lemma {:induction false} GenerateIsCarry(a: Bits, b: Bits, i: nat)
    requires i < |a| == |b|
    ensures GroupGenerates(a, b, 0, i) <==> Value(a[..i + 1]) + Value(b[..i + 1]) >= Pow2(i + 1)
    decreases i
  {
    hide Value; hide Pow2;
    var x, y := a[..i + 1], b[..i + 1];
    ValueStep(x); ValueStep(y);
    assert x[..i] == a[..i] && y[..i] == b[..i];
    ValueBound(a[..i]); ValueBound(b[..i]);
    Pow2Step(i);
    if i > 0 {
      GenerateIsCarry(a, b, i - 1);
      assert a[..i - 1 + 1] == a[..i] && b[..i - 1 + 1] == b[..i];
    } else {
      ValueNil(a[..0]); ValueNil(b[..0]);
    }
  }

  /** The carry into position `i`. */
  predicate CarryInto(a: Bits, b: Bits, i: nat)
    requires i < |a| == |b|
  {
    i > 0 && GroupGenerates(a, b, 0, i - 1)
  }

  predicate SumBit(a: Bits, b: Bits, i: nat)
    requires i < |a| == |b|
  {
    (a[i] != b[i]) != CarryInto(a, b, i)
  }

  function SumBits(a: Bits, b: Bits, n: nat): (y: Bits)
    requires n <= |a| == |b|
    ensures |y| == n
  {
    seq(n, i requires 0 <= i < n => SumBit(a, b, i))
  }

  lemma {:induction false} SumBitsAdd(a: Bits, b: Bits, n: nat)
    requires 0 < n <= |a| == |b|
    ensures Value(SumBits(a, b, n)) + (if GroupGenerates(a, b, 0, n - 1) then Pow2(n) else 0)
      == Value(a[..n]) + Value(b[..n])
  {
    hide Value; hide Pow2;
    var y := SumBits(a, b, n);
    ValueStep(y); ValueStep(a[..n]); ValueStep(b[..n]);
    assert y[..n - 1] == SumBits(a, b, n - 1);
    assert a[..n][..n - 1] == a[..n - 1] && b[..n][..n - 1] == b[..n - 1];
    Pow2Step(n - 1);
    if n > 1 {
      SumBitsAdd(a, b, n - 1);
    } else {
      ValueNil(y[..0]); ValueNil(a[..0]); ValueNil(b[..0]);
    }
  }

  // ---------------------------------------------------------------- the prefix network

  function Lowest(i: nat, d: nat): (lo: nat)
    requires d > 0
    ensures lo <= i
  {
    if i + 1 >= d then i + 1 - d else 0
  }

  function Down(i: nat, lo: nat): (ids: seq<nat>)
    requires lo <= i
    ensures |ids| == i - lo + 1 && ids[0] == i
  {
    seq(i - lo + 1, k requires 0 <= k <= i - lo => i - k)
  }

  /** The name standing at position `i` when groups span `d` bits. */
  function NameAt(kind: Kind, i: nat, d: nat): Name
    requires d > 0
  {
    Name(kind, Down(i, Lowest(i, d)))
  }

  function Names(kind: Kind, bits: nat, d: nat): (ns: seq<Name>)
    requires d > 0
    ensures |ns| == bits && forall i :: 0 <= i < bits ==> ns[i] == NameAt(kind, i, d)
  {
    seq(bits, i requires 0 <= i < bits => NameAt(kind, i, d))
  }

  function Join(m: Name, n: Name): Name {
    Name(m.kind, m.ids + n.ids)
  }

  /** Appending the name `d` places below gives the name of the doubled group. */
  lemma NamesJoin(kind: Kind, i: nat, d: nat)
    requires d > 0
    ensures i < d ==> NameAt(kind, i, 2 * d) == NameAt(kind, i, d)
    ensures i >= d ==> NameAt(kind, i, 2 * d) == Join(NameAt(kind, i, d), NameAt(kind, i - d, d))
  {
    if i >= d {
      assert Down(i, Lowest(i, 2 * d)) == Down(i, Lowest(i, d)) + Down(i - d, Lowest(i - d, d));
    }
  }

  function FirstLevel(n: nat): seq<Stmt> {
    if n == 0 then []
    else FirstLevel(n - 1) + [Declare(NameAt(Propagate, n - 1, 1), Xor(A(n - 1), B(n - 1)))]
                           + [Declare(NameAt(Generate, n - 1, 1), And(A(n - 1), B(n - 1)))]
  }

  function JoinPropagate(i: nat, d: nat): Expr
    requires 0 < d <= i
  {
    And(Wire(NameAt(Propagate, i, d)), Wire(NameAt(Propagate, i - d, d)))
  }

  function JoinGenerate(i: nat, d: nat): Expr
    requires 0 < d <= i
  {
    Or(And(Wire(NameAt(Generate, i - d, d)), Wire(NameAt(Propagate, i, d))), Wire(NameAt(Generate, i, d)))
  }

  /** The first `n` positions of the level that doubles groups of `d` bits. */
  function Level(d: nat, n: nat): seq<Stmt>
    requires d > 0
  {
    if n == 0 then []
    else if n - 1 < d then Level(d, n - 1)
    else Level(d, n - 1) + [Declare(NameAt(Propagate, n - 1, 2 * d), JoinPropagate(n - 1, d))]
                         + [Declare(NameAt(Generate, n - 1, 2 * d), JoinGenerate(n - 1, d))]
  }

  function Levels(bits: nat, l: nat): seq<Stmt> {
    if l == 0 then FirstLevel(bits) else Levels(bits, l - 1) + Level(Pow2(l - 1), bits)
  }

  function OutputExpr(bits: nat, i: nat): Expr
    requires bits > 0
  {
    if i == 0 then Wire(NameAt(Propagate, 0, 1))
    else Xor(Wire(NameAt(Propagate, i, 1)), Wire(NameAt(Generate, i - 1, bits)))
  }

  function Outputs(bits: nat, n: nat): seq<Stmt>
    requires bits > 0
  {
    if n == 0 then [] else Outputs(bits, n - 1) + [Assign(n - 1, OutputExpr(bits, n - 1))]
  }

  function Network(lg: nat): seq<Stmt> {
    Levels(Pow2(lg), lg) + Outputs(Pow2(lg), Pow2(lg))
  }

  // ---------------------------------------------------------------- what the wires carry

  ghost predicate Carries(wires: map<Name, bool>, a: Bits, b: Bits, d: nat, i: nat)
    requires d > 0 && i < |a| == |b|
  {
    && NameAt(Propagate, i, d) in wires && NameAt(Generate, i, d) in wires
    && wires[NameAt(Propagate, i, d)] == GroupPropagates(a, b, Lowest(i, d), i)
    && wires[NameAt(Generate, i, d)] == GroupGenerates(a, b, Lowest(i, d), i)
  }

  /** Propagate and generate of the last `d` bits at every position below `n`. */
  ghost predicate Spans(wires: map<Name, bool>, a: Bits, b: Bits, d: nat, n: nat)
    requires d > 0 && n <= |a| == |b|
  {
    forall i :: 0 <= i < n ==> Carries(wires, a, b, d, i)
  }

  /** The names taken have at most `top` indices, and at most `d` from position `n` on. */
  ghost predicate Fresh(wires: map<Name, bool>, d: nat, top: nat, n: nat) {
    forall m :: m in wires ==> 0 < |m.ids| <= top && (|m.ids| <= d || m.ids[0] < n)
  }

  ghost predicate Extends(w: map<Name, bool>, w': map<Name, bool>) {
    forall m :: m in w ==> m in w' && w'[m] == w[m]
  }

  lemma SpansKept(w: map<Name, bool>, w': map<Name, bool>, a: Bits, b: Bits, d: nat, n: nat)
    requires d > 0 && n <= |a| == |b| && Spans(w, a, b, d, n) && Extends(w, w')
    ensures Spans(w', a, b, d, n)
  {
    forall i | 0 <= i < n ensures Carries(w', a, b, d, i) {
      assert Carries(w, a, b, d, i);
    }
  }

  /** Declaring the two wires of position `i`. */
  lemma DeclarePair(o: seq<Stmt>, i: nat, d: nat, e: Expr, f: Expr, a: Bits, b: Bits)
    requires |a| == |b| && i < |a| && d > 0 && Run(o, a, b).Some?
    requires var w := Run(o, a, b).value.wires;
      && NameAt(Propagate, i, d) !in w && NameAt(Generate, i, d) !in w
      && Defined(e, w, |a|) && Defined(f, w, |a|)
      && Eval(e, w, a, b) == GroupPropagates(a, b, Lowest(i, d), i)
      && Eval(f, w, a, b) == GroupGenerates(a, b, Lowest(i, d), i)
    ensures var s := Run(o, a, b).value;
      var r := Run(o + [Declare(NameAt(Propagate, i, d), e)] + [Declare(NameAt(Generate, i, d), f)], a, b);
      && r.Some? && r.value.y == s.y && Extends(s.wires, r.value.wires) && Carries(r.value.wires, a, b, d, i)
      && r.value.wires.Keys == s.wires.Keys + {NameAt(Propagate, i, d), NameAt(Generate, i, d)}
  {
    hide Run; hide GroupPropagates; hide GroupGenerates; hide Eval; hide Defined;
    var w, p, g := Run(o, a, b).value.wires, NameAt(Propagate, i, d), NameAt(Generate, i, d);
    RunDeclare(o, p, e, a, b);
    var w1 := w[p := Eval(e, w, a, b)];
    EvalKept(f, w, w1, a, b);
    RunDeclare(o + [Declare(p, e)], g, f, a, b);
  }

  lemma EvalKept(e: Expr, w: map<Name, bool>, w': map<Name, bool>, a: Bits, b: Bits)
    requires |a| == |b| && Defined(e, w, |a|) && Extends(w, w')
    ensures Defined(e, w', |a|) && Eval(e, w', a, b) == Eval(e, w, a, b)
  {
  }

  lemma FirstExprs(a: Bits, b: Bits, w: map<Name, bool>, i: nat)
    requires i < |a| == |b|
    ensures Defined(Xor(A(i), B(i)), w, |a|) && Eval(Xor(A(i), B(i)), w, a, b) == GroupPropagates(a, b, Lowest(i, 1), i)
    ensures Defined(And(A(i), B(i)), w, |a|) && Eval(And(A(i), B(i)), w, a, b) == GroupGenerates(a, b, Lowest(i, 1), i)
  {
    var p, q := A(i), B(i);
    assert Defined(p, w, |a|) && Defined(q, w, |a|) && Eval(p, w, a, b) == a[i] && Eval(q, w, a, b) == b[i];
  }

  lemma FirstLevelStep(n: nat)
    requires n > 0
    ensures FirstLevel(n) == FirstLevel(n - 1) + [Declare(NameAt(Propagate, n - 1, 1), Xor(A(n - 1), B(n - 1)))]
                                               + [Declare(NameAt(Generate, n - 1, 1), And(A(n - 1), B(n - 1)))]
  {
  }

  lemma FirstNamesFresh(w: map<Name, bool>, i: nat)
    requires Fresh(w, 0, 1, i)
    ensures forall kind :: NameAt(kind, i, 1) !in w && NameAt(kind, i, 1).ids == [i]
  {
    assert Down(i, i) == [i];
  }

  lemma FreshAfter(w: map<Name, bool>, w': map<Name, bool>, i: nat)
    requires Fresh(w, 0, 1, i) && w'.Keys == w.Keys + {NameAt(Propagate, i, 1), NameAt(Generate, i, 1)}
    ensures Fresh(w', 0, 1, i + 1)
  {
    FirstNamesFresh(w, i);
    hide NameAt;
    forall m | m in w' ensures 0 < |m.ids| <= 1 && (|m.ids| <= 0 || m.ids[0] < i + 1) {
      assert m in w || m == NameAt(Propagate, i, 1) || m == NameAt(Generate, i, 1);
    }
  }

  lemma {:induction false} FirstLevelRuns(a: Bits, b: Bits, n: nat)
    requires n <= |a| == |b|
    ensures var r := Run(FirstLevel(n), a, b);
      r.Some? && r.value.y == map[] && Spans(r.value.wires, a, b, 1, n) && Fresh(r.value.wires, 0, 1, n)
  {
    if n > 0 {
      hide Run; hide Eval; hide Defined; hide FirstLevel; hide NameAt; hide Carries; hide Fresh;
      var i := n - 1;
      FirstLevelRuns(a, b, i);
      var w := Run(FirstLevel(i), a, b).value.wires;
      FirstExprs(a, b, w, i);
      FirstNamesFresh(w, i);
      DeclarePair(FirstLevel(i), i, 1, Xor(A(i), B(i)), And(A(i), B(i)), a, b);
      FirstLevelStep(n);
      SpansKept(w, Run(FirstLevel(n), a, b).value.wires, a, b, 1, i);
      FreshAfter(w, Run(FirstLevel(n), a, b).value.wires, i);
    } else {
      assert FirstLevel(n) == [];
    }
  }

  lemma LevelStep(o: seq<Stmt>, d: nat, n: nat)
    requires 0 < d && 0 < n
    ensures n - 1 < d ==> Level(d, n) == Level(d, n - 1)
    ensures n - 1 >= d ==>
      o + Level(d, n) == o + Level(d, n - 1) + [Declare(NameAt(Propagate, n - 1, 2 * d), JoinPropagate(n - 1, d))]
                                             + [Declare(NameAt(Generate, n - 1, 2 * d), JoinGenerate(n - 1, d))]
  {
  }

  lemma JoinExprs(w: map<Name, bool>, a: Bits, b: Bits, d: nat, i: nat)
    requires 0 < d <= i < |a| == |b| && Carries(w, a, b, d, i) && Carries(w, a, b, d, i - d)
    ensures var e := JoinPropagate(i, d);
      Defined(e, w, |a|) && Eval(e, w, a, b) == GroupPropagates(a, b, Lowest(i, 2 * d), i)
    ensures var f := JoinGenerate(i, d);
      Defined(f, w, |a|) && Eval(f, w, a, b) == GroupGenerates(a, b, Lowest(i, 2 * d), i)
  {
    GroupsJoin(a, b, Lowest(i, 2 * d), Lowest(i, d), i);
    var below := And(Wire(NameAt(Generate, i - d, d)), Wire(NameAt(Propagate, i, d)));
    hide NameAt; hide GroupPropagates; hide GroupGenerates;
    assert Defined(below, w, |a|);
    assert Eval(below, w, a, b) == (w[NameAt(Generate, i - d, d)] && w[NameAt(Propagate, i, d)]);
  }

  /** One level doubles every span. */
  lemma {:induction false} LevelRuns(o: seq<Stmt>, a: Bits, b: Bits, d: nat, n: nat)
    requires d > 0 && n <= |a| == |b| && Run(o, a, b).Some?
    requires var s := Run(o, a, b).value;
      s.y == map[] && Spans(s.wires, a, b, d, |a|) && Fresh(s.wires, d, d, 0)
    ensures var s, r := Run(o, a, b).value, Run(o + Level(d, n), a, b);
      && r.Some? && r.value.y == map[] && Extends(s.wires, r.value.wires)
      && Spans(r.value.wires, a, b, 2 * d, n) && Fresh(r.value.wires, d, 2 * d, n)
  {
    hide Run; hide Eval; hide Defined; hide GroupPropagates; hide GroupGenerates;
    if n == 0 {
      assert o + Level(d, 0) == o;
    } else {
      var i := n - 1;
      LevelRuns(o, a, b, d, i);
      NamesJoin(Propagate, i, d);
      NamesJoin(Generate, i, d);
      LevelStep(o, d, n);
      hide Level; hide JoinPropagate; hide JoinGenerate;
      var s, w := Run(o, a, b).value, Run(o + Level(d, i), a, b).value.wires;
      SpansKept(s.wires, w, a, b, d, |a|);
      assert Carries(w, a, b, d, i);
      if i < d {
        assert Carries(w, a, b, 2 * d, i);
      } else {
        assert Carries(w, a, b, d, i - d);
        JoinExprs(w, a, b, d, i);
        DeclarePair(o + Level(d, i), i, 2 * d, JoinPropagate(i, d), JoinGenerate(i, d), a, b);
        SpansKept(w, Run(o + Level(d, n), a, b).value.wires, a, b, 2 * d, i);
      }
    }
  }

  lemma {:induction false} LevelsRun(a: Bits, b: Bits, l: nat)
    requires |a| == |b|
    ensures var r := Run(Levels(|a|, l), a, b);
      && r.Some? && r.value.y == map[]
      && Spans(r.value.wires, a, b, Pow2(l), |a|) && Spans(r.value.wires, a, b, 1, |a|)
      && Fresh(r.value.wires, Pow2(l), Pow2(l), 0)
  {
    hide Run; hide Level;
    if l == 0 {
      FirstLevelRuns(a, b, |a|);
    } else {
      LevelsRun(a, b, l - 1);
      var o, d := Levels(|a|, l - 1), Pow2(l - 1);
      LevelRuns(o, a, b, d, |a|);
      SpansKept(Run(o, a, b).value.wires, Run(o + Level(d, |a|), a, b).value.wires, a, b, 1, |a|);
    }
  }

  ghost predicate Drives(y: map<nat, bool>, a: Bits, b: Bits, n: nat)
    requires n <= |a| == |b|
  {
    (forall i: nat :: i in y <==> i < n) && forall i :: 0 <= i < n ==> y[i] == SumBit(a, b, i)
  }

  lemma {:induction false} OutputsRun(o: seq<Stmt>, a: Bits, b: Bits, n: nat)
    requires n <= |a| == |b| && |a| > 0 && Run(o, a, b).Some?
    requires var s := Run(o, a, b).value;
      s.y == map[] && Spans(s.wires, a, b, |a|, |a|) && Spans(s.wires, a, b, 1, |a|)
    ensures var r := Run(o + Outputs(|a|, n), a, b);
      r.Some? && Drives(r.value.y, a, b, n) && r.value.wires == Run(o, a, b).value.wires
  {
    hide Run; hide GroupGenerates;
    if n == 0 {
      assert o + Outputs(|a|, 0) == o;
    } else {
      var i := n - 1;
      OutputsRun(o, a, b, i);
      var w := Run(o, a, b).value.wires;
      assert Carries(w, a, b, 1, i);
      if i > 0 { assert Carries(w, a, b, |a|, i - 1); }
      assert o + Outputs(|a|, n) == o + Outputs(|a|, i) + [Assign(i, OutputExpr(|a|, i))];
      RunAssign(o + Outputs(|a|, i), i, OutputExpr(|a|, i), a, b);
    }
  }

  /** The module computes `A + B` modulo `2^bits`: every wire is driven once and used after its
      declaration, and every output bit is driven. */
  ghost predicate Adds(o: seq<Stmt>, bits: nat) {
    forall a: Bits, b: Bits :: |a| == |b| == bits ==>
      Run(o, a, b).Some? && Drives(Run(o, a, b).value.y, a, b, bits)
      && Value(SumBits(a, b, bits)) == (Value(a) + Value(b)) % Pow2(bits)
  }

  lemma SumBitsModulo(a: Bits, b: Bits)
    requires |a| == |b| > 0
    ensures Value(SumBits(a, b, |a|)) == (Value(a) + Value(b)) % Pow2(|a|)
  {
    hide Value; hide Pow2;
    var y := SumBits(a, b, |a|);
    SumBitsAdd(a, b, |a|);
    assert a[..|a|] == a && b[..|a|] == b;
    ValueBound(y);
    ModUnique(Value(a) + Value(b), Value(y), if GroupGenerates(a, b, 0, |a| - 1) then 1 else 0, Pow2(|a|));
  }

  lemma PrefixNetworkAdds(lg: nat)
    ensures Adds(Network(lg), Pow2(lg))
  {
    hide Run; hide Value; hide Pow2; hide Levels; hide Outputs;
    forall a: Bits, b: Bits | |a| == |b| == Pow2(lg)
      ensures Run(Network(lg), a, b).Some? && Drives(Run(Network(lg), a, b).value.y, a, b, Pow2(lg))
        && Value(SumBits(a, b, Pow2(lg))) == (Value(a) + Value(b)) % Pow2(Pow2(lg))
    {
      LevelsRun(a, b, lg);
      OutputsRun(Levels(|a|, lg), a, b, |a|);
      SumBitsModulo(a, b);
    }
  }

  // ---------------------------------------------------------------- ripple carry

  function CarryName(i: nat): Name {
    Name(Carry, [i])
  }

  function RippleCarry(i: nat): Expr {
    if i == 0 then And(A(0), B(0)) else Or(And(A(i), B(i)), And(Wire(CarryName(i - 1)), Xor(A(i), B(i))))
  }

  function RippleSum(i: nat): Expr {
    if i == 0 then Xor(A(0), B(0)) else Xor(Xor(A(i), B(i)), Wire(CarryName(i - 1)))
  }

  /** The statements for positions below `n`; the last position has no carry wire, except that
      position 0 always has one. */
  function Ripple(bits: nat, n: nat): seq<Stmt> {
    if n == 0 then []
    else
      var o := Ripple(bits, n - 1) + [Assign(n - 1, RippleSum(n - 1))];
      if n - 1 == 0 || n - 1 != bits - 1 then o + [Declare(CarryName(n - 1), RippleCarry(n - 1))] else o
  }

  lemma {:induction false} RippleRuns(a: Bits, b: Bits, n: nat)
    requires n <= |a| == |b| && |a| > 0
    ensures var r := Run(Ripple(|a|, n), a, b);
      && r.Some? && Drives(r.value.y, a, b, n)
      && (forall m :: m in r.value.wires ==> exists k: nat :: k < n && m == CarryName(k))
      && (0 < n && (n == 1 || n < |a|) ==>
        CarryName(n - 1) in r.value.wires && r.value.wires[CarryName(n - 1)] == GroupGenerates(a, b, 0, n - 1))
  {
    hide Run; hide Eval; hide Defined;
    if n == 0 {
      assert Run([], a, b) == Some(State(map[], map[])) by { RunNil(a, b); }
    } else {
      var i := n - 1;
      RippleRuns(a, b, i);
      var o, w := Ripple(|a|, i), Run(Ripple(|a|, i), a, b).value.wires;
      RippleExprs(w, a, b, i);
      hide RippleSum; hide RippleCarry; hide GroupGenerates;
      RunAssign(o, i, RippleSum(i), a, b);
      if i == 0 || i != |a| - 1 {
        RunDeclare(o + [Assign(i, RippleSum(i))], CarryName(i), RippleCarry(i), a, b);
      }
    }
  }

  lemma RippleExprs(w: map<Name, bool>, a: Bits, b: Bits, i: nat)
    requires i < |a| == |b|
    requires 0 < i ==> CarryName(i - 1) in w && w[CarryName(i - 1)] == GroupGenerates(a, b, 0, i - 1)
    ensures Defined(RippleSum(i), w, |a|) && Eval(RippleSum(i), w, a, b) == SumBit(a, b, i)
    ensures Defined(RippleCarry(i), w, |a|) && Eval(RippleCarry(i), w, a, b) == GroupGenerates(a, b, 0, i)
  {
    var x, p, q := Xor(A(i), B(i)), A(i), B(i);
    assert Defined(p, w, |a|) && Defined(q, w, |a|) && Eval(p, w, a, b) == a[i] && Eval(q, w, a, b) == b[i];
    assert Defined(x, w, |a|) && Eval(x, w, a, b) == (a[i] != b[i]);
    if i > 0 {
      var v := Wire(CarryName(i - 1));
      var c, g := And(v, x), And(p, q);
      assert Defined(v, w, |a|) && Eval(v, w, a, b) == w[CarryName(i - 1)];
      assert Defined(c, w, |a|) && Eval(c, w, a, b) == (w[CarryName(i - 1)] && a[i] != b[i]);
      assert Defined(g, w, |a|) && Eval(g, w, a, b) == (a[i] && b[i]);
    }
  }

  lemma RunNil(a: Bits, b: Bits)
    requires |a| == |b|
    ensures Run([], a, b) == Some(State(map[], map[]))
  {
  }

  lemma RippleNetworkAdds(bits: nat)
    requires bits > 0
    ensures Adds(Ripple(bits, bits), bits)
  {
    hide Run; hide Value; hide Pow2; hide Ripple;
    forall a: Bits, b: Bits | |a| == |b| == bits
      ensures Run(Ripple(bits, bits), a, b).Some? && Drives(Run(Ripple(bits, bits), a, b).value.y, a, b, bits)
        && Value(SumBits(a, b, bits)) == (Value(a) + Value(b)) % Pow2(bits)
    {
      RippleRuns(a, b, bits);
      SumBitsModulo(a, b);
    }
  }

  /** The two generated adders drive the same outputs for all operands. */
  lemma GeneratorsAgree(lg: nat, a: Bits, b: Bits)
    requires |a| == |b| == Pow2(lg)
    ensures var p, r := Run(Network(lg), a, b), Run(Ripple(Pow2(lg), Pow2(lg)), a, b);
      p.Some? && r.Some? && p.value.y == r.value.y
  {
    hide Run; hide Network; hide Ripple; hide Pow2;
    PrefixNetworkAdds(lg);
    RippleNetworkAdds(Pow2(lg));
  }

  // ---------------------------------------------------------------- the generators

  /** `write_rtl` of gen_ppa.py: the lists of names are rebuilt level by level, while `p` keeps
      the list of the first level. */
  method WriteRtl(lg: nat) returns (o: seq<Stmt>)
    ensures o == Network(lg) && Adds(o, Pow2(lg))
  {
    hide Run; hide Adds; hide NameAt; hide Pow2;
    var bits := Pow2(lg);
    o := [];
    var pp, gg := [], [];
    for i := 0 to bits
      invariant o == FirstLevel(i) && pp == Names(Propagate, i, 1) && gg == Names(Generate, i, 1)
    {
      var n, g := FirstName(Propagate, i), FirstName(Generate, i);
      pp, gg := pp + [n], gg + [g];
      o := o + [Declare(n, Xor(A(i), B(i)))] + [Declare(g, And(A(i), B(i)))];
    }
    var p := pp;
    var d := 1;
    Pow2Step(0);
    for l := 0 to lg
      invariant d == Pow2(l) && o == Levels(bits, l)
      invariant p == Names(Propagate, bits, 1) && pp == Names(Propagate, bits, d) && gg == Names(Generate, bits, d)
    {
      pp, gg, o := WriteLevel(bits, d, pp, gg, o);
      d := 2 * d;
      Pow2Step(l);
    }
    o := o + [Assign(0, Wire(p[0]))];
    ghost var network := Levels(bits, lg);
    for i := 1 to bits
      invariant o == network + Outputs(bits, i)
    {
      o := o + [Assign(i, Xor(Wire(p[i]), Wire(gg[i - 1])))];
    }
    PrefixNetworkAdds(lg);
  }

  function FirstName(kind: Kind, i: nat): (n: Name)
    ensures n == NameAt(kind, i, 1)
  {
    assert Down(i, Lowest(i, 1)) == [i];
    Name(kind, [i])
  }

  /** One pass of the outer loop. */
  method WriteLevel(bits: nat, d: nat, pp: seq<Name>, gg: seq<Name>, before: seq<Stmt>)
    returns (tpp: seq<Name>, tgg: seq<Name>, o: seq<Stmt>)
    requires d > 0 && pp == Names(Propagate, bits, d) && gg == Names(Generate, bits, d)
    ensures tpp == Names(Propagate, bits, 2 * d) && tgg == Names(Generate, bits, 2 * d)
    ensures o == before + Level(d, bits)
  {
    hide NameAt;
    tpp, tgg, o := [], [], before;
    for i := 0 to bits
      invariant tpp == Names(Propagate, i, 2 * d) && tgg == Names(Generate, i, 2 * d)
      invariant o == before + Level(d, i)
    {
      var n, g := pp[i], gg[i];
      NamesJoin(Propagate, i, d);
      NamesJoin(Generate, i, d);
      if i >= d {
        n, g := Join(n, pp[i - d]), Join(g, gg[i - d]);
        o := o + [Declare(n, And(Wire(pp[i]), Wire(pp[i - d])))]
               + [Declare(g, Or(And(Wire(gg[i - d]), Wire(pp[i])), Wire(gg[i])))];
      }
      tpp, tgg := tpp + [n], tgg + [g];
    }
  }

  /** `write_rtl` of gen_rca.py. */
  method WriteRipple(bits: nat) returns (o: seq<Stmt>)
    requires bits > 0
    ensures o == Ripple(bits, bits) && Adds(o, bits)
  {
    hide Run; hide Adds;
    o := [Assign(0, Xor(A(0), B(0)))] + [Declare(CarryName(0), And(A(0), B(0)))];
    assert o == Ripple(bits, 1);
    for i := 1 to bits
      invariant o == Ripple(bits, i)
    {
      o := o + [Assign(i, Xor(Xor(A(i), B(i)), Wire(CarryName(i - 1))))];
      if i != bits - 1 {
        o := o + [Declare(CarryName(i), Or(And(A(i), B(i)), And(Wire(CarryName(i - 1)), Xor(A(i), B(i)))))];
      }
    }
    RippleNetworkAdds(bits);
  }
}
