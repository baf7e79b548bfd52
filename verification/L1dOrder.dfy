/** Order and accounting in the first-level data cache: every request is answered once, every
    store is written once, in order and only after it retired. */
module L1dOrder {
  import opened L1dMachine
  import opened L1dCoherence

  /** Bookkeeping over a run: the next number, the requests answered, the stores queued and those
      retired, the stores written, in order and with their data, and those discarded; every request
      accepted, and those ignored because the core drained or did not mean them. */
  datatype Log = Log(nextId: nat, answered: set<nat>, stores: set<nat>, retired: set<nat>, written: seq<Req>, dropped: set<nat>,
                     accepted: seq<Req>, ignored: set<nat>)

  function Shadow(q: Req): Req {
    q.(data := [])
  }

  function Shadows(qs: seq<Req>): (r: seq<Req>)
    ensures |r| == |qs| && forall k :: 0 <= k < |qs| ==> r[k] == Shadow(qs[k])
  {
    seq(|qs|, k requires 0 <= k < |qs| => Shadow(qs[k]))
  }

  /** Port 1 finishes its request this clock. */
  predicate Finishes(s: Regs, i: Input) {
    (s.ctl.state == Active && Hit1(s)) || AcksEarly(s, i)
  }

  /** How many pending requests leave at the old end. */
  function Leaving(s: Regs, i: Input): nat
    requires Sized(s) && SizedInput(i)
  {
    (if Finishes(s, i) then 1 else 0) + if Drops(s, i) then 1 else 0
  }

  predicate Takes(s: Regs, i: Input)
    requires Sized(s) && SizedInput(i)
  {
    PopsLoad(s) || PopsStore(s, i)
  }

  /** What port 1 holds after this clock. */
  lemma Port1After(s: Regs, i: Input, id: nat)
    requires Control(s) && SizedInput(i)
    ensures var n := Next(s, i, id);
      if Takes(s, i) then s.queue != [] && Busy1(n) && Shadow(n.p1.req) == Shadow(s.queue[0]) && (Busy1(s) ==> Finishes(s, i))
      else Busy1(n) == (Busy1(s) && !Finishes(s, i)) && n.p1.req == s.p1.req
    ensures Finishes(s, i) ==> Busy1(s)
    ensures Drops(s, i) ==> s.queue != [] && !Takes(s, i) && (Busy1(s) ==> Finishes(s, i))
    ensures Pops(s, i) == (Takes(s, i) || Drops(s, i))
  {
    hide Merge; hide NextRams; hide NextGraduated; hide NextRobInflight; hide AnswerOf; hide NextCount; hide ReqOk;
    hide NextPort2; hide AnySameSet; hide AnswersLoad2; hide Look; hide NextQueue; hide Accepts; hide Pushes;
    PopsNonEmpty(s, i);
    if s.ctl.state == Active && Miss1(s) { MissesProceed(s); }
  }

  function If<T>(b: bool, x: T): seq<T> {
    if b then [x] else []
  }

  lemma TakeCase(b: bool, p: Req, q: seq<Req>, x: seq<Req>, p': Req)
    requires q != [] && Shadow(p') == Shadow(q[0])
    ensures Shadows([p'] + (q[1..] + x)) == Shadows(If(b, p) + q)[|If(b, p)|..] + Shadows(x)
  {
    hide Shadow;
  }

  lemma DropCase(b: bool, p: Req, q: seq<Req>, x: seq<Req>)
    requires q != []
    ensures Shadows(q[1..] + x) == Shadows(If(b, p) + q)[|If(b, p)| + 1..] + Shadows(x)
  {
    hide Shadow;
  }

  lemma KeepCase(b: bool, done: bool, p: Req, q: seq<Req>, x: seq<Req>)
    requires done ==> b
    ensures Shadows(If(b && !done, p) + (q + x)) == Shadows(If(b, p) + q)[|If(done, p)|..] + Shadows(x)
  {
    hide Shadow;
  }

  /** The list of this clock and of the next. */
  lemma PendingShape(s: Regs, i: Input, id: nat)
    requires Control(s) && SizedInput(i)
    ensures var n, x := Next(s, i, id), If(Pushes(s, i), s.p2.req);
      && Pending(s) == If(Busy1(s), s.p1.req) + s.queue
      && (Takes(s, i) ==> s.queue != [] && Pending(n) == [n.p1.req] + (s.queue[1..] + x))
      && (!Takes(s, i) && Drops(s, i) ==> s.queue != [] && Pending(n) == s.queue[1..] + x)
      && (!Takes(s, i) && !Drops(s, i) ==> Pending(n) == If(Busy1(s) && !Finishes(s, i), s.p1.req) + (s.queue + x))
  {
    Port1After(s, i, id);
    QueueOfNext(s, i, id);
    hide Next; hide Control; hide Drops; hide Takes; hide Finishes; hide Pushes; hide Busy1; hide Shadow; hide Pops;
  }

  /** The pending requests form a queue across the retry queue and port 1, whatever misses and
      reloads come between. */
  lemma PendingNext(s: Regs, i: Input, id: nat)
    requires Control(s) && SizedInput(i)
    ensures Leaving(s, i) <= |Pending(s)|
    ensures Shadows(Pending(Next(s, i, id)))
      == Shadows(Pending(s))[Leaving(s, i)..] + Shadows(If(Pushes(s, i), s.p2.req))
  {
    Port1After(s, i, id);
    PendingShape(s, i, id);
    LeavingCount(s, i, id);
    hide Next; hide Control; hide Drops; hide Takes; hide Finishes; hide Pushes; hide Busy1; hide Shadow; hide Pops; hide Shadows;
    hide Pending; hide Leaving; hide If;
    ListStep(Busy1(s), Finishes(s, i), Takes(s, i), Drops(s, i), s.p1.req, Next(s, i, id).p1.req, s.queue, If(Pushes(s, i), s.p2.req),
             Pending(s), Pending(Next(s, i, id)), Leaving(s, i));
  }

  lemma ListStep(busy: bool, done: bool, takes: bool, drops: bool, p: Req, p': Req, q: seq<Req>, x: seq<Req>,
                 pending: seq<Req>, pending': seq<Req>, leaving: nat)
    requires pending == If(busy, p) + q && leaving <= |pending| && (takes || drops ==> q != [])
    requires takes ==> Shadow(p') == Shadow(q[0]) && pending' == [p'] + (q[1..] + x) && leaving == |If(busy, p)|
    requires !takes && drops ==> pending' == q[1..] + x && leaving == |If(busy, p)| + 1
    requires !takes && !drops ==> pending' == If(busy && !done, p) + (q + x) && leaving == |If(done, p)| && (done ==> busy)
    ensures Shadows(pending') == Shadows(pending)[leaving..] + Shadows(x)
  {
    hide Shadow; hide Shadows; hide If;
    if takes {
      TakeCase(busy, p, q, x, p');
    } else if drops {
      DropCase(busy, p, q, x);
    } else {
      KeepCase(busy, done, p, q, x);
    }
  }

  lemma LeavingCount(s: Regs, i: Input, id: nat)
    requires Control(s) && SizedInput(i)
    ensures Leaving(s, i) <= |Pending(s)|
    ensures Takes(s, i) ==> Leaving(s, i) == |If(Busy1(s), s.p1.req)|
    ensures !Takes(s, i) && Drops(s, i) ==> Leaving(s, i) == |If(Busy1(s), s.p1.req)| + 1
    ensures !Takes(s, i) && !Drops(s, i) ==> Leaving(s, i) == |If(Finishes(s, i), s.p1.req)| && (Finishes(s, i) ==> Busy1(s))
  {
    Port1After(s, i, id);
    hide Next; hide Control; hide Drops; hide Takes; hide Finishes; hide Busy1;
  }

  lemma QueueOfNext(s: Regs, i: Input, id: nat)
    requires Sized(s) && SizedInput(i)
    ensures Pops(s, i) ==> s.queue != []
    ensures Next(s, i, id).queue
      == (if Pops(s, i) then s.queue[1..] else s.queue) + (if Pushes(s, i) then [s.p2.req] else [])
  {
    PopsNonEmpty(s, i);
  }

  // ---------------------------------------------------------------- the list view

  /** The request that was accepted last clock, if any. */
  function Newest(s: Regs): Option<Req> {
    if s.p2.got then Some(Shadow(s.p2.req)) else None
  }

  /** Strictly increasing numbers, oldest first, up to the next one to be given. */
  ghost predicate Ordered(ps: seq<Req>, newest: Option<Req>, nextId: nat) {
    && (forall j, k :: 0 <= j < k < |ps| ==> ps[j].id < ps[k].id)
    && (forall k :: 0 <= k < |ps| ==> ps[k].id < nextId && (newest.Some? ==> ps[k].id < newest.value.id))
    && (newest.Some? ==> newest.value.id < nextId)
  }

  /** What one clock does to the list of pending requests. */
  lemma Step(s: Regs, i: Input, id: nat)
    requires Control(s) && SizedInput(i)
    ensures var ps, n := Shadows(Pending(s)), Next(s, i, id);
      && (Finishes(s, i) ==> ps != [] && ps[0] == Shadow(s.p1.req))
      && (Drops(s, i) ==> s.queue != [] && Leaving(s, i) <= |ps| && ps[Leaving(s, i) - 1] == Shadow(s.queue[0]) && s.queue[0].isStore)
      && (Pushes(s, i) ==> s.p2.got)
      && Newest(n) == if Accepts(s, i) then Some(Shadow(i.req.value.(id := id))) else None
  {
    Port1After(s, i, id);
    QueueOfNext(s, i, id);
    hide NextQueue; hide NextPort1; hide NextCtl; hide NextRams; hide NextGraduated; hide NextRobInflight; hide NextCount;
    hide Merge; hide AnswerOf; hide Hit1; hide Miss1; hide Control; hide AnswersLoad2; hide BusySet; hide BusyWord; hide AnyUnaligned;
    hide Finishes; hide Busy1; hide Takes; hide AnySameSet;
  }

  lemma OrderedStep(ps: seq<Req>, newest: Option<Req>, d: nat, push: bool, newest': Option<Req>, id: nat)
    requires Ordered(ps, newest, id) && d <= |ps| && (push ==> newest.Some?)
    requires newest'.Some? ==> newest'.value.id == id
    ensures Ordered(ps[d..] + (if push then [newest.value] else []), newest', if newest'.Some? then id + 1 else id)
  {
    var rest := ps[d..];
    assert forall k :: 0 <= k < |rest| ==> rest[k] == ps[k + d];
  }

  lemma PushedShadow(s: Regs, i: Input)
    requires Pushes(s, i) ==> s.p2.got
    ensures Shadows(If(Pushes(s, i), s.p2.req)) == if Pushes(s, i) then [Newest(s).value] else []
  {
  }

  lemma NextOrdered(s: Regs, i: Input, id: nat)
    requires Control(s) && SizedInput(i) && Ordered(Shadows(Pending(s)), Newest(s), id)
    ensures var n := Next(s, i, id);
      Ordered(Shadows(Pending(n)), Newest(n), if Accepts(s, i) then id + 1 else id)
  {
    PendingNext(s, i, id);
    Step(s, i, id);
    PushedShadow(s, i);
    hide Next; hide Pushes; hide Accepts; hide Control; hide Pending; hide Leaving; hide Finishes; hide Drops; hide Shadows;
    hide Ordered;
    OrderedStep(Shadows(Pending(s)), Newest(s), Leaving(s, i), Pushes(s, i), Newest(Next(s, i, id)), id);
  }

  // ---------------------------------------------------------------- answers

  predicate AnswersTwo(s: Regs, i: Input)
    requires Sized(s)
  {
    Answer1(s, i).Some? && Answer2(s, i).Some?
  }

  /** Port 1 answers exactly when it finishes a load, port 2 unless it queues a load, and never
      both. */
  lemma Answers(s: Regs, i: Input)
    requires Control(s)
    ensures !AnswersTwo(s, i)
    ensures Answer1(s, i).Some? <==> Finishes(s, i) && !s.p1.req.isStore
    ensures Answer1(s, i).Some? ==> Answer1(s, i).value.id == s.p1.req.id
    ensures Answer2(s, i).Some? <==> s.p2.got && !(Pushes(s, i) && !s.p2.req.isStore)
    ensures Answer2(s, i).Some? ==> Answer2(s, i).value.id == s.p2.req.id
    ensures Writes(s) <==> Finishes(s, i) && s.p1.req.isStore
  {
    hide Extract; hide AnswersLoad2;
  }

  /** A load waiting in the list, or the request just accepted. */
  predicate Open(ps: seq<Req>, newest: Option<Req>, x: nat) {
    (newest.Some? && newest.value.id == x) || exists k :: 0 <= k < |ps| && !ps[k].isStore && ps[k].id == x
  }

  /** The requests answered are exactly those accepted that are not open. */
  ghost predicate Accounted(ps: seq<Req>, newest: Option<Req>, nextId: nat, answered: set<nat>) {
    forall x: nat :: x in answered <==> x < nextId && !Open(ps, newest, x)
  }

  function Loads(ps: seq<Req>): (n: nat)
    ensures n <= |ps|
  {
    if ps == [] then 0 else Loads(ps[1..]) + if ps[0].isStore then 0 else 1
  }

  lemma {:induction false} LoadsAppend(ps: seq<Req>, q: Req)
    ensures Loads(ps + [q]) == Loads(ps) + if q.isStore then 0 else 1
    decreases |ps|
  {
    if ps == [] {
      assert (ps + [q])[1..] == [];
    } else {
      assert (ps + [q])[1..] == ps[1..] + [q];
      LoadsAppend(ps[1..], q);
    }
  }

  function Answered(s: Regs, i: Input): set<nat>
    requires Sized(s)
  {
    if AnswerOf(s, i).Some? then {AnswerOf(s, i).value.id} else {}
  }

  /** The requests closed by the answers: a load that leaves the list, or the newest request
      unless it is a load that is queued. */
  ghost predicate Closes(ps: seq<Req>, newest: Option<Req>, d: nat, push: bool, x: nat)
    requires d <= |ps|
  {
    || (newest.Some? && newest.value.id == x && !(push && !newest.value.isStore))
    || exists k :: 0 <= k < d && !ps[k].isStore && ps[k].id == x
  }

  lemma AccountedStep(ps: seq<Req>, newest: Option<Req>, d: nat, push: bool, newest': Option<Req>, id: nat,
                      answered: set<nat>, closed: set<nat>)
    requires Ordered(ps, newest, id) && d <= |ps| && (push ==> newest.Some?) && (newest'.Some? ==> newest'.value.id == id)
    requires Accounted(ps, newest, id, answered)
    requires forall x: nat :: x in closed <==> Closes(ps, newest, d, push, x)
    ensures closed !! answered
    ensures Accounted(ps[d..] + (if push then [newest.value] else []), newest', if newest'.Some? then id + 1 else id, answered + closed)
  {
    var x := if push then [newest.value] else [];
    var ps' := ps[d..] + x;
    forall y: nat ensures y in answered + closed <==> y < (if newest'.Some? then id + 1 else id) && !Open(ps', newest', y) {
      OpenAfter(ps, newest, ps', newest', d, x, y);
      if y in closed {
        assert Closes(ps, newest, d, push, y);
        ClosedStaysClosed(ps, newest, d, push, y, id);
      } else if y < id && Open(ps, newest, y) {
        assert !Closes(ps, newest, d, push, y);
        if newest.Some? && newest.value.id == y {
          assert x[0] == newest.value;
        } else {
          var k :| 0 <= k < |ps| && !ps[k].isStore && ps[k].id == y;
          assert d <= k;
        }
      }
    }
    forall y | y in closed ensures y !in answered {
      assert Closes(ps, newest, d, push, y);
    }
  }

  lemma ClosedStaysClosed(ps: seq<Req>, newest: Option<Req>, d: nat, push: bool, y: nat, id: nat)
    requires Ordered(ps, newest, id) && d <= |ps| && Closes(ps, newest, d, push, y)
    ensures y < id && (forall k :: d <= k < |ps| ==> ps[k].id != y)
    ensures push && newest.Some? && !newest.value.isStore ==> newest.value.id != y
  {
  }

  lemma ClosedByAnswers(s: Regs, i: Input)
    requires Control(s) && SizedInput(i) && Leaving(s, i) <= |Pending(s)|
    requires Finishes(s, i) ==> Pending(s) != [] && Shadow(Pending(s)[0]) == Shadow(s.p1.req)
    requires Drops(s, i) ==> Pending(s)[Leaving(s, i) - 1].isStore
    ensures forall x: nat :: x in Answered(s, i) <==> Closes(Shadows(Pending(s)), Newest(s), Leaving(s, i), Pushes(s, i), x)
  {
    Answers(s, i);
    hide Pushes; hide Control; hide Pending; hide Finishes; hide Drops; hide Answer1; hide Answer2; hide Writes;
    var ps, d := Shadows(Pending(s)), Leaving(s, i);
    if Finishes(s, i) { assert ps[0] == Shadow(s.p1.req); }
  }

  /** Every answer is to an open request, which is then closed. */
  lemma NextAccounted(s: Regs, i: Input, id: nat, answered: set<nat>)
    requires Control(s) && SizedInput(i) && Ordered(Shadows(Pending(s)), Newest(s), id)
    requires Accounted(Shadows(Pending(s)), Newest(s), id, answered)
    ensures Answered(s, i) !! answered && |Answered(s, i)| <= 1
    ensures var n := Next(s, i, id);
      Accounted(Shadows(Pending(n)), Newest(n), if Accepts(s, i) then id + 1 else id, answered + Answered(s, i))
  {
    PendingNext(s, i, id);
    Step(s, i, id);
    PushedShadow(s, i);
    LeavingEnds(s, i, id);
    ClosedByAnswers(s, i);
    hide Next; hide Pushes; hide Accepts; hide Control; hide Pending; hide Finishes; hide Drops; hide AnswerOf;
    hide Leaving; hide Shadows; hide Accounted; hide Ordered; hide Closes;
    AccountedStep(Shadows(Pending(s)), Newest(s), Leaving(s, i), Pushes(s, i), Newest(Next(s, i, id)), id, answered, Answered(s, i));
  }

  lemma LeavingEnds(s: Regs, i: Input, id: nat)
    requires Control(s) && SizedInput(i)
    ensures Finishes(s, i) ==> Pending(s) != [] && Shadow(Pending(s)[0]) == Shadow(s.p1.req)
    ensures Leaving(s, i) <= |Pending(s)|
    ensures Drops(s, i) ==> Leaving(s, i) > 0 && Pending(s)[Leaving(s, i) - 1] == s.queue[0] && s.queue[0].isStore
  {
    Port1After(s, i, id);
    hide Next; hide Control; hide Finishes; hide Busy1; hide Takes; hide Pops; hide PopsStore;
  }

  lemma OpenAfter(ps: seq<Req>, newest: Option<Req>, ps': seq<Req>, newest': Option<Req>, d: nat, x: seq<Req>, y: nat)
    requires d <= |ps| && ps' == ps[d..] + x
    ensures Open(ps', newest', y) <==> (
      || (newest'.Some? && newest'.value.id == y)
      || (exists k :: d <= k < |ps| && !ps[k].isStore && ps[k].id == y)
      || (exists k :: 0 <= k < |x| && !x[k].isStore && x[k].id == y))
  {
    forall k | d <= k < |ps| ensures ps'[k - d] == ps[k] {}
    forall k | 0 <= k < |x| ensures ps'[|ps| - d + k] == x[k] {}
  }

  // ---------------------------------------------------------------- the outstanding count

  function Outstanding(ps: seq<Req>, newest: Option<Req>): nat {
    Loads(ps) + if newest.Some? then 1 else 0
  }

  lemma LoadsLeave(ps: seq<Req>, d: nat)
    requires d <= |ps| && d <= 2
    ensures Loads(ps) == Loads(ps[d..]) + (if d > 0 && !ps[0].isStore then 1 else 0) + (if d > 1 && !ps[1].isStore then 1 else 0)
  {
    if d == 2 { assert ps[1..][1..] == ps[2..]; }
  }

  /** What an answer and an acceptance do to the four-bit counter. */
  function Counted(n: nat, accept: bool, answer: bool): nat {
    if accept && !answer then if n == 15 then 0 else n + 1
    else if !accept && answer then if n == 0 then 15 else n - 1
    else n
  }

  lemma CountedStep(ps: seq<Req>, newest: Option<Req>, fin: bool, drop: bool, push: bool, newest': Option<Req>)
    requires var d := (if fin then 1 else 0) + (if drop then 1 else 0);
      d <= |ps| <= 9 && (push ==> newest.Some?) && (drop ==> ps[d - 1].isStore) && (fin && !ps[0].isStore ==> newest.None?)
    ensures var d := (if fin then 1 else 0) + (if drop then 1 else 0);
      var answer := (fin && !ps[0].isStore) || (newest.Some? && !(push && !newest.value.isStore));
      Outstanding(ps[d..] + (if push then [newest.value] else []), newest')
      == Counted(Outstanding(ps, newest), newest'.Some?, answer)
  {
    hide Loads;
    var d := (if fin then 1 else 0) + (if drop then 1 else 0);
    LoadsLeave(ps, d);
    if push { LoadsAppend(ps[d..], newest.value); } else { assert ps[d..] + [] == ps[d..]; }
  }

  /** The four-bit counter is exact. */
  lemma NextCounted(s: Regs, i: Input, id: nat)
    requires Control(s) && SizedInput(i) && s.nInflight == Outstanding(Shadows(Pending(s)), Newest(s))
    ensures var n := Next(s, i, id); n.nInflight == Outstanding(Shadows(Pending(n)), Newest(n))
  {
    PendingNext(s, i, id);
    Step(s, i, id);
    PushedShadow(s, i);
    LeavingEnds(s, i, id);
    Answers(s, i);
    CountOfNext(s, i, id);
    PendingLength(s);
    hide Next; hide Pushes; hide Accepts; hide Control; hide Finishes; hide Drops; hide Shadows; hide Answer1; hide Answer2;
    hide Writes; hide Outstanding; hide Pending;
    var ps := Shadows(Pending(s));
    if Drops(s, i) { assert ps[Leaving(s, i) - 1].isStore; }
    CountedStep(ps, Newest(s), Finishes(s, i), Drops(s, i), Pushes(s, i), Newest(Next(s, i, id)));
  }

  lemma CountOfNext(s: Regs, i: Input, id: nat)
    requires Sized(s) && SizedInput(i)
    ensures Next(s, i, id).nInflight == Counted(s.nInflight, Accepts(s, i), Answer1(s, i).Some? || Answer2(s, i).Some?)
  {
    hide Accepts; hide Answer1; hide Answer2; hide NextQueue; hide NextPort1; hide NextPort2; hide NextCtl; hide NextRams;
    hide NextGraduated; hide NextRobInflight;
  }

  lemma PendingLength(s: Regs)
    requires Sized(s)
    ensures |Pending(s)| <= 9
  {
  }

  // ---------------------------------------------------------------- graduation

  ghost predicate Graduation(ps: seq<Req>, newest: Option<Req>, grad: seq<nat>, inflight: seq<bool>, retired: set<nat>, id: nat) {
    && |grad| == |inflight| == ROB
    && (forall k :: 0 <= k < |ps| ==> ps[k].rob < ROB && inflight[ps[k].rob] && (newest.Some? ==> ps[k].rob != newest.value.rob))
    && (newest.Some? ==> newest.value.rob < ROB)
    && (forall j, k :: 0 <= j < k < |ps| ==> ps[j].rob != ps[k].rob)
    && (forall k :: 0 <= k < |ps| && ps[k].isStore ==> grad[ps[k].rob] == if ps[k].id in retired then 2 else 1)
    && (forall x :: x in retired ==> x < id && (newest.Some? ==> x < newest.value.id))
  }

  /** Pending stores whose reorder-buffer entry retires this clock. */
  function RetiredNow(ps: seq<Req>, retire: set<nat>): set<nat> {
    set k | 0 <= k < |ps| && ps[k].isStore && ps[k].rob in retire :: ps[k].id
  }

  /** How the per-entry bits of one clock follow the list. */
  lemma EntryBits(s: Regs, i: Input, id: nat, r: nat)
    requires Control(s) && SizedInput(i) && r < ROB
    ensures var ps, d, n := Shadows(Pending(s)), Leaving(s, i), Next(s, i, id);
      && d <= |ps|
      && ((forall k :: 0 <= k < d ==> ps[k].rob != r) && Pushes(s, i) && s.p2.req.rob == r ==>
        n.robInflight[r] && (s.p2.req.isStore ==> n.graduated[r] == 1))
      && ((forall k :: 0 <= k < d ==> ps[k].rob != r) && !(Pushes(s, i) && s.p2.req.rob == r) ==>
        (n.robInflight[r] == s.robInflight[r] && n.graduated[r] == if r in i.retire && s.graduated[r] == 1 then 2 else s.graduated[r]))
  {
    LeavingEnds(s, i, id);
    Answers(s, i);
    EntryBitsOfNext(s, i, id, r);
    hide Next; hide Pushes; hide Control; hide Drops; hide Pending; hide Answer1; hide Answer2; hide Writes;
    var ps := Shadows(Pending(s));
    if Finishes(s, i) { assert ps[0] == Shadow(s.p1.req) && ps[0].rob == s.p1.req.rob; }
    if Drops(s, i) { assert ps[Leaving(s, i) - 1].rob == s.queue[0].rob; }
    assert Hit1(s) ==> s.ctl.state == Active by { GotActive(s); }
  }

  lemma GotActive(s: Regs)
    requires Control(s)
    ensures Hit1(s) ==> s.ctl.state == Active
  {
  }

  lemma EntryBitsOfNext(s: Regs, i: Input, id: nat, r: nat)
    requires Sized(s) && SizedInput(i) && r < ROB
    ensures var n := Next(s, i, id);
      |n.graduated| == |n.robInflight| == ROB && n.graduated[r] == NextGraduated(s, i, r) && n.robInflight[r] == NextRobInflight(s, i, r)
  {
    hide NextGraduated; hide NextRobInflight; hide NextQueue; hide NextPort1; hide NextCtl; hide NextRams; hide NextPort2; hide NextCount;
  }

  /** What the core guarantees: no two requests with one reorder-buffer entry one after the other,
      no retirement while it drains, and store data for a retired store at the head by then.
      Which entries it calls dead is not restricted: a retired store may wait while its entry
      already belongs to a new, dead instruction. */
  ghost predicate CoreOk(s: Regs, i: Input)
    requires Sized(s) && SizedInput(i)
  {
    && (Accepts(s, i) && s.p2.got ==> i.req.value.rob != s.p2.req.rob)
    && (i.drain ==> i.retire == {})
    && (i.drain && s.queue != [] && s.queue[0].isStore && s.graduated[s.queue[0].rob] == 2 ==>
      i.data.Some? && i.data.value.rob == s.queue[0].rob)
  }

  /** A store is only discarded if it has not retired: a retired one at the head fires instead. */
  lemma DropsUnretired(s: Regs, i: Input, log: Log)
    requires Control(s) && SizedInput(i) && CoreOk(s, i) && Drops(s, i)
    requires Graduation(Shadows(Pending(s)), Newest(s), s.graduated, s.robInflight, log.retired, log.nextId)
    ensures s.queue[0].id !in log.retired && i.retire == {}
  {
    assert s.graduated[s.queue[0].rob] != 2;
    var k := |Pending(s)| - |s.queue|;
    assert Pending(s)[k] == s.queue[0];
    assert Shadows(Pending(s))[k] == Shadow(s.queue[0]);
    assert Shadows(Pending(s))[k].isStore && Shadows(Pending(s))[k].rob == s.queue[0].rob;
  }

  /** The bits of an entry that does not leave. */
  ghost predicate EntryOk(ps: seq<Req>, newest: Option<Req>, d: nat, push: bool, retire: set<nat>, grad: seq<nat>,
                          inflight: seq<bool>, grad': seq<nat>, inflight': seq<bool>, r: nat)
    requires d <= |ps| && (push ==> newest.Some?) && r < ROB
    requires |grad| == |inflight| == |grad'| == |inflight'| == ROB
  {
    (forall k :: 0 <= k < d ==> ps[k].rob != r) ==>
      if push && newest.value.rob == r then inflight'[r] && (newest.value.isStore ==> grad'[r] == 1)
      else inflight'[r] == inflight[r] && grad'[r] == if r in retire && grad[r] == 1 then 2 else grad[r]
  }

  lemma GraduationStep(ps: seq<Req>, newest: Option<Req>, d: nat, push: bool, newest': Option<Req>, retire: set<nat>,
                       grad: seq<nat>, inflight: seq<bool>, grad': seq<nat>, inflight': seq<bool>, retired: set<nat>, id: nat)
    requires d <= |ps| && (push ==> newest.Some?) && |grad'| == |inflight'| == ROB
    requires Ordered(ps, newest, id) && Graduation(ps, newest, grad, inflight, retired, id)
    requires forall r :: 0 <= r < ROB ==> EntryOk(ps, newest, d, push, retire, grad, inflight, grad', inflight', r)
    requires newest'.Some? ==> newest'.value.id == id && newest'.value.rob < ROB && !inflight[newest'.value.rob]
    requires newest'.Some? && newest.Some? ==> newest'.value.rob != newest.value.rob
    ensures Graduation(ps[d..] + (if push then [newest.value] else []), newest', grad', inflight',
                       retired + RetiredNow(ps, retire), if newest'.Some? then id + 1 else id)
  {
    var ps', all := ps[d..] + (if push then [newest.value] else []), retired + RetiredNow(ps, retire);
    forall k | 0 <= k < |ps'|
      ensures ps'[k].rob < ROB && inflight'[ps'[k].rob] && (newest'.Some? ==> ps'[k].rob != newest'.value.rob)
      ensures ps'[k].isStore ==> grad'[ps'[k].rob] == if ps'[k].id in all then 2 else 1
    {
      if k < |ps| - d {
        OldEntry(ps, newest, d, push, retire, grad, inflight, grad', inflight', retired, id, k + d);
      } else {
        assert ps'[k] == newest.value;
        assert EntryOk(ps, newest, d, push, retire, grad, inflight, grad', inflight', newest.value.rob);
      }
    }
    forall x | x in all ensures x < id {
      if x !in retired { var k :| 0 <= k < |ps| && ps[k].isStore && ps[k].id == x; }
    }
  }

  lemma OldEntry(ps: seq<Req>, newest: Option<Req>, d: nat, push: bool, retire: set<nat>, grad: seq<nat>, inflight: seq<bool>,
                 grad': seq<nat>, inflight': seq<bool>, retired: set<nat>, id: nat, k: nat)
    requires d <= k < |ps| && (push ==> newest.Some?) && |grad'| == |inflight'| == ROB
    requires Ordered(ps, newest, id) && Graduation(ps, newest, grad, inflight, retired, id)
    requires EntryOk(ps, newest, d, push, retire, grad, inflight, grad', inflight', ps[k].rob)
    ensures inflight'[ps[k].rob]
    ensures ps[k].isStore ==> grad'[ps[k].rob] == if ps[k].id in retired + RetiredNow(ps, retire) then 2 else 1
  {
    if ps[k].isStore {
      assert ps[k].id in RetiredNow(ps, retire) <==> ps[k].rob in retire by {
        if ps[k].id in RetiredNow(ps, retire) {
          var j :| 0 <= j < |ps| && ps[j].isStore && ps[j].rob in retire && ps[j].id == ps[k].id;
          assert j == k;
        }
      }
    }
  }

  lemma NextGraduation(s: Regs, i: Input, id: nat, log: Log)
    requires Control(s) && SizedInput(i) && CoreOk(s, i) && log.nextId == id
    requires Ordered(Shadows(Pending(s)), Newest(s), id)
    requires Graduation(Shadows(Pending(s)), Newest(s), s.graduated, s.robInflight, log.retired, id)
    ensures var n := Next(s, i, id);
      Graduation(Shadows(Pending(n)), Newest(n), n.graduated, n.robInflight,
                 log.retired + RetiredNow(Shadows(Pending(s)), i.retire), if Accepts(s, i) then id + 1 else id)
  {
    PendingNext(s, i, id);
    Step(s, i, id);
    PushedShadow(s, i);
    if Accepts(s, i) { AcceptedEntry(s, i); }
    var n, ps, d := Next(s, i, id), Shadows(Pending(s)), Leaving(s, i);
    forall r | 0 <= r < ROB ensures EntryOk(ps, Newest(s), d, Pushes(s, i), i.retire, s.graduated, s.robInflight, n.graduated, n.robInflight, r) {
      EntryBits(s, i, id, r);
      EntryBitsOfNext(s, i, id, r);
    }
    EntryBitsOfNext(s, i, id, 0);
    hide Next; hide Pushes; hide Accepts; hide Control; hide Pending; hide Leaving; hide Finishes; hide Drops; hide Shadows;
    hide EntryOk; hide Graduation; hide Ordered;
    GraduationStep(ps, Newest(s), d, Pushes(s, i), Newest(n), i.retire, s.graduated, s.robInflight, n.graduated, n.robInflight,
                   log.retired, id);
  }

  lemma AcceptedEntry(s: Regs, i: Input)
    requires Sized(s) && SizedInput(i) && Accepts(s, i)
    ensures i.req.value.rob < ROB && !s.robInflight[i.req.value.rob]
  {
  }

  // ---------------------------------------------------------------- stores written and discarded

  /** `x` is older than everything still waiting. */
  predicate Past(ps: seq<Req>, newest: Option<Req>, id: nat, x: nat) {
    x < id && (newest.Some? ==> x < newest.value.id) && forall k :: 0 <= k < |ps| ==> x < ps[k].id
  }

  /** Stores were written in acceptance order, each once and after it retired; those discarded had
      not retired. */
  ghost predicate History(ps: seq<Req>, newest: Option<Req>, log: Log) {
    && (forall j, k :: 0 <= j < k < |log.written| ==> log.written[j].id < log.written[k].id)
    && (forall k :: 0 <= k < |log.written| ==> log.written[k].isStore && Past(ps, newest, log.nextId, log.written[k].id))
    && (forall k :: 0 <= k < |log.written| ==> log.written[k].id in log.retired && log.written[k].id !in log.dropped)
    && (forall x :: x in log.dropped ==> x !in log.retired && Past(ps, newest, log.nextId, x))
  }

  function NextLog(s: Regs, i: Input, log: Log): Log
    requires Sized(s) && SizedInput(i)
  {
    Log(if Accepts(s, i) then log.nextId + 1 else log.nextId,
        log.answered + Answered(s, i),
        log.stores + if Pushes(s, i) && s.p2.req.isStore then {s.p2.req.id} else {},
        log.retired + RetiredNow(Shadows(Pending(s)), i.retire),
        log.written + If(Writes(s), s.p1.req),
        log.dropped + (if Drops(s, i) then {s.queue[0].id} else {}),
        log.accepted + (if Accepts(s, i) then [i.req.value.(id := log.nextId)] else []),
        log.ignored + if s.p2.got && (i.drain || s.p2.req.nop) then {s.p2.req.id} else {})
  }

  lemma PastStep(ps: seq<Req>, newest: Option<Req>, d: nat, push: bool, newest': Option<Req>, id: nat, x: nat)
    requires d <= |ps| && Ordered(ps, newest, id) && (push ==> newest.Some?) && (newest'.Some? ==> newest'.value.id == id)
    requires Past(ps, newest, id, x) || exists k :: 0 <= k < d && ps[k].id == x
    ensures Past(ps[d..] + (if push then [newest.value] else []), newest', if newest'.Some? then id + 1 else id, x)
  {
    var rest := ps[d..];
    assert forall k :: 0 <= k < |rest| ==> rest[k] == ps[k + d];
  }

  lemma PastNotPending(ps: seq<Req>, newest: Option<Req>, log: Log)
    requires History(ps, newest, log)
    ensures forall x, k :: x in log.dropped && 0 <= k < |ps| ==> ps[k].id != x
  {
    forall x, k | x in log.dropped && 0 <= k < |ps| ensures ps[k].id != x {
      assert Past(ps, newest, log.nextId, x);
    }
  }

  lemma NotRetiredNow(ps: seq<Req>, newest: Option<Req>, id: nat, j: nat, retire: set<nat>)
    requires Ordered(ps, newest, id) && j < |ps| && ps[j].rob !in retire
    ensures ps[j].id !in RetiredNow(ps, retire)
  {
    forall k | 0 <= k < |ps| && ps[k].id == ps[j].id ensures ps[k].rob !in retire {
      assert k == j;
    }
  }

  /** One store written and one discarded, both from the old end of the list. */
  lemma HistoryStep(ps: seq<Req>, newest: Option<Req>, d: nat, push: bool, newest': Option<Req>, log: Log, log': Log,
                    write: Option<Req>, drop: Option<nat>, retire: set<nat>)
    requires d <= |ps| && Ordered(ps, newest, log.nextId) && (push ==> newest.Some?) && History(ps, newest, log)
    requires newest'.Some? ==> newest'.value.id == log.nextId
    requires write.Some? ==> d > 0 && ps[0].id == write.value.id && write.value.isStore && write.value.id in log.retired
    requires drop.Some? ==> d > 0 && ps[d - 1].id == drop.value && (write.Some? ==> d == 2)
    requires drop.Some? ==> ps[d - 1].isStore && drop.value !in log.retired && ps[d - 1].rob !in retire
    requires log'.nextId == (if newest'.Some? then log.nextId + 1 else log.nextId)
    requires log'.retired == log.retired + RetiredNow(ps, retire)
    requires log'.written == log.written + (if write.Some? then [write.value] else [])
    requires log'.dropped == log.dropped + (if drop.Some? then {drop.value} else {})
    ensures History(ps[d..] + (if push then [newest.value] else []), newest', log')
  {
    var ps' := ps[d..] + (if push then [newest.value] else []);
    PastNotPending(ps, newest, log);
    if drop.Some? { NotRetiredNow(ps, newest, log.nextId, d - 1, retire); }
    forall k | 0 <= k < |log'.written|
      ensures log'.written[k].isStore && log'.written[k].id in log'.retired && log'.written[k].id !in log'.dropped
      ensures Past(ps', newest', log'.nextId, log'.written[k].id)
    {
      PastStep(ps, newest, d, push, newest', log.nextId, log'.written[k].id);
    }
    forall x | x in log'.dropped ensures x !in log'.retired && Past(ps', newest', log'.nextId, x) {
      PastStep(ps, newest, d, push, newest', log.nextId, x);
    }
  }

  /** The store in port 1 has retired. */
  ghost predicate Port1Retired(s: Regs, retired: set<nat>) {
    Busy1(s) && s.p1.req.isStore ==> s.p1.req.id in retired
  }

  lemma NextPort1Retired(s: Regs, i: Input, log: Log)
    requires Control(s) && SizedInput(i) && Port1Retired(s, log.retired)
    requires Graduation(Shadows(Pending(s)), Newest(s), s.graduated, s.robInflight, log.retired, log.nextId)
    ensures Port1Retired(Next(s, i, log.nextId), log.retired)
  {
    Port1After(s, i, log.nextId);
    hide Next; hide Control;
    if Takes(s, i) {
      assert Pending(s)[|Pending(s)| - |s.queue|] == s.queue[0];
      assert Shadows(Pending(s))[|Pending(s)| - |s.queue|] == Shadow(s.queue[0]);
    }
  }

  lemma NextHistory(s: Regs, i: Input, log: Log)
    requires Control(s) && SizedInput(i) && CoreOk(s, i) && Port1Retired(s, log.retired)
    requires Ordered(Shadows(Pending(s)), Newest(s), log.nextId) && History(Shadows(Pending(s)), Newest(s), log)
    requires Graduation(Shadows(Pending(s)), Newest(s), s.graduated, s.robInflight, log.retired, log.nextId)
    ensures var n := Next(s, i, log.nextId); History(Shadows(Pending(n)), Newest(n), NextLog(s, i, log))
  {
    var id := log.nextId;
    PendingNext(s, i, id);
    Step(s, i, id);
    PushedShadow(s, i);
    LeavingEnds(s, i, id);
    Answers(s, i);
    WritesBusy(s);
    DroppedFacts(s, i, log);
    hide CoreOk; hide Leaving; hide NextLog; hide Graduation;
    hide Next; hide Pushes; hide Accepts; hide Control; hide Finishes; hide Drops; hide Shadows; hide Answer1; hide Answer2;
    hide Writes; hide Pending; hide Ordered; hide History; hide Busy1; hide RetiredNow; hide Answered;
    HistoryStep(Shadows(Pending(s)), Newest(s), Leaving(s, i), Pushes(s, i), Newest(Next(s, i, id)), log, NextLog(s, i, log),
                if Writes(s) then Some(s.p1.req) else None, if Drops(s, i) then Some(s.queue[0].id) else None, i.retire);
  }

  /** What is written and what is discarded, in terms of the list. */
  lemma DroppedFacts(s: Regs, i: Input, log: Log)
    requires Control(s) && SizedInput(i) && CoreOk(s, i) && Port1Retired(s, log.retired)
    requires Graduation(Shadows(Pending(s)), Newest(s), s.graduated, s.robInflight, log.retired, log.nextId)
    ensures var ps, d, log' := Shadows(Pending(s)), Leaving(s, i), NextLog(s, i, log);
      && d <= |ps|
      && (Writes(s) ==> d > 0 && ps[0].id == s.p1.req.id && ps[0].isStore && s.p1.req.isStore && s.p1.req.id in log.retired)
      && (Drops(s, i) ==> d > 0 && ps[d - 1].id == s.queue[0].id && (Writes(s) ==> d == 2))
      && (Drops(s, i) ==> ps[d - 1].isStore && s.queue[0].id !in log.retired && ps[d - 1].rob !in i.retire)
      && log'.nextId == (if Accepts(s, i) then log.nextId + 1 else log.nextId)
      && log'.retired == log.retired + RetiredNow(ps, i.retire)
      && log'.written == log.written + (if Writes(s) then [s.p1.req] else [])
      && log'.dropped == log.dropped + (if Drops(s, i) then {s.queue[0].id} else {})
  {
    LeavingEnds(s, i, log.nextId);
    Answers(s, i);
    WritesBusy(s);
    if Drops(s, i) { DropsUnretired(s, i, log); }
    hide Pushes; hide Accepts; hide Control; hide Finishes; hide Drops; hide Answer1; hide Answer2; hide Writes; hide Pending;
    hide Busy1; hide Answered; hide Graduation; hide CoreOk;
    var ps := Shadows(Pending(s));
    if Finishes(s, i) { assert ps[0] == Shadow(Pending(s)[0]); }
    if Drops(s, i) { assert ps[Leaving(s, i) - 1] == Shadow(Pending(s)[Leaving(s, i) - 1]); }
  }

  lemma WritesBusy(s: Regs)
    ensures Writes(s) ==> Busy1(s)
  {
  }

  // ---------------------------------------------------------------- no retired store is lost

  predicate StillPending(ps: seq<Req>, x: nat) {
    exists k :: 0 <= k < |ps| && ps[k].isStore && ps[k].id == x
  }

  predicate IsWritten(log: Log, x: nat) {
    exists k :: 0 <= k < |log.written| && log.written[k].id == x
  }

  /** Every store ever queued has been written or discarded or is still waiting, and nothing else
      was written, discarded or retired. */
  ghost predicate Conserved(ps: seq<Req>, log: Log) {
    && (forall x: nat :: x in log.stores <==> IsWritten(log, x) || x in log.dropped || StillPending(ps, x))
    && log.retired <= log.stores
  }

  /** Hence a retired store has been written or is waiting to be: it is never discarded. */
  lemma RetiredKept(ps: seq<Req>, newest: Option<Req>, log: Log, x: nat)
    requires History(ps, newest, log) && Conserved(ps, log) && x in log.retired
    ensures IsWritten(log, x) || StillPending(ps, x)
  {
  }

  lemma ConservedStep(ps: seq<Req>, newest: Option<Req>, d: nat, x: seq<Req>, log: Log, log': Log, write: Option<Req>, drop: Option<nat>, retire: set<nat>)
    requires d <= |ps| && Conserved(ps, log)
    requires d == (if write.Some? || (d > 0 && !ps[0].isStore) then 1 else 0) + (if drop.Some? then 1 else 0)
    requires write.Some? ==> ps[0].id == write.value.id && ps[0].isStore
    requires drop.Some? ==> ps[d - 1].id == drop.value && ps[d - 1].isStore
    requires |x| <= 1 && log'.stores == log.stores + if x != [] && x[0].isStore then {x[0].id} else {}
    requires log'.retired == log.retired + RetiredNow(ps, retire)
    requires log'.written == log.written + (if write.Some? then [write.value] else [])
    requires log'.dropped == log.dropped + (if drop.Some? then {drop.value} else {})
    ensures Conserved(ps[d..] + x, log')
  {
    var ps' := ps[d..] + x;
    forall k | d <= k < |ps| ensures ps'[k - d] == ps[k] {}
    forall k | 0 <= k < |ps'| ensures ps'[k] == if k < |ps| - d then ps[k + d] else x[0] {}
    forall y: nat ensures y in log'.stores <==> IsWritten(log', y) || y in log'.dropped || StillPending(ps', y) {
      WrittenAfter(log, log', write, y);
      if StillPending(ps, y) {
        var k :| 0 <= k < |ps| && ps[k].isStore && ps[k].id == y;
        if d <= k { assert ps'[k - d].id == y; } else if k != d - 1 || drop.None? { assert write.Some? && k == 0; }
      }
      if StillPending(ps', y) {
        var k :| 0 <= k < |ps'| && ps'[k].isStore && ps'[k].id == y;
        if k < |ps| - d { assert ps[k + d].id == y; }
      }
      if x != [] && x[0].isStore && y == x[0].id { assert ps'[|ps| - d] == x[0]; }
      if drop == Some(y) { assert StillPending(ps, y); }
      if write.Some? && write.value.id == y { assert ps[0].id == y; assert StillPending(ps, y); }
    }
    forall y | y in RetiredNow(ps, retire) ensures y in log.stores {
      assert StillPending(ps, y);
    }
  }

  lemma WrittenAfter(log: Log, log': Log, write: Option<Req>, y: nat)
    requires log'.written == log.written + (if write.Some? then [write.value] else [])
    ensures IsWritten(log', y) <==> IsWritten(log, y) || (write.Some? && write.value.id == y)
  {
    forall k | 0 <= k < |log.written| ensures log'.written[k] == log.written[k] {}
    if write.Some? { assert log'.written[|log.written|] == write.value; }
  }

  lemma NextConserved(s: Regs, i: Input, log: Log)
    requires Control(s) && SizedInput(i) && CoreOk(s, i) && Port1Retired(s, log.retired)
    requires Graduation(Shadows(Pending(s)), Newest(s), s.graduated, s.robInflight, log.retired, log.nextId)
    requires Conserved(Shadows(Pending(s)), log)
    ensures Conserved(Shadows(Pending(Next(s, i, log.nextId))), NextLog(s, i, log))
  {
    var id := log.nextId;
    PendingNext(s, i, id);
    DroppedFacts(s, i, log);
    LeavingKinds(s, i, id);
    StoresOfLog(s, i, log);
    hide Next; hide Pushes; hide Accepts; hide Control; hide Finishes; hide Drops; hide Shadows; hide Answer1; hide Answer2;
    hide Writes; hide Pending; hide Conserved; hide Busy1; hide RetiredNow; hide Answered; hide CoreOk; hide NextLog;
    hide Leaving; hide Graduation;
    ConservedStep(Shadows(Pending(s)), Newest(s), Leaving(s, i), Shadows(If(Pushes(s, i), s.p2.req)), log, NextLog(s, i, log),
                  if Writes(s) then Some(s.p1.req) else None, if Drops(s, i) then Some(s.queue[0].id) else None, i.retire);
  }

  lemma StoresOfLog(s: Regs, i: Input, log: Log)
    requires Sized(s) && SizedInput(i)
    ensures var x := Shadows(If(Pushes(s, i), s.p2.req));
      |x| <= 1 && NextLog(s, i, log).stores == log.stores + if x != [] && x[0].isStore then {x[0].id} else {}
  {
    hide Pushes; hide Accepts; hide Answered; hide RetiredNow; hide Writes; hide Drops;
  }

  lemma LeavingKinds(s: Regs, i: Input, id: nat)
    requires Control(s) && SizedInput(i)
    ensures var ps, d := Shadows(Pending(s)), Leaving(s, i);
      && d <= |ps|
      && d == (if Writes(s) || (d > 0 && !ps[0].isStore) then 1 else 0) + (if Drops(s, i) then 1 else 0)
  {
    LeavingEnds(s, i, id);
    Answers(s, i);
    hide Control; hide Finishes; hide Drops; hide Answer1; hide Answer2; hide Writes; hide Pending;
    var ps := Shadows(Pending(s));
    if Finishes(s, i) { assert ps[0] == Shadow(Pending(s)[0]); }
    if Drops(s, i) { assert ps[Leaving(s, i) - 1] == Shadow(Pending(s)[Leaving(s, i) - 1]); }
  }

  // ---------------------------------------------------------------- the memory over a run

  /** The memory presented is the memory of the start with the stores written so far, in order. */
  ghost predicate Accumulated(s: Regs, mem: Memory, start: Memory, written: seq<Req>) {
    && SizedRams(s.ram) && (forall k :: 0 <= k < |written| ==> written[k].isStore && written[k].addr.off < LINE)
    && forall tag: nat, k: nat :: k < SETS ==> View(s.ram, mem, tag, k) == Apply(start(tag, k), tag, k, written)
  }

  lemma ApplySnoc(l: Line, tag: nat, k: nat, qs: seq<Req>, q: Req)
    requires (forall j :: 0 <= j < |qs| ==> qs[j].addr.off < LINE) && q.addr.off < LINE && q.isStore
    ensures var before := Apply(l, tag, k, qs);
      Apply(l, tag, k, qs + [q]) == if q.addr.tag == tag && q.addr.set_ == k then Merge(before, q) else before
  {
    assert (qs + [q])[..|qs|] == qs;
  }

  lemma NextAccumulated(s: Regs, mem: Memory, start: Memory, i: Input, log: Log)
    requires Control(s) && Data(s, mem) && SizedInput(i) && MemoryOk(s, mem, i)
    requires Accumulated(s, mem, start, log.written)
    ensures Accumulated(Next(s, i, log.nextId), NextMemory(s, mem, i), start, NextLog(s, i, log).written)
  {
    WrittenOfLog(s, i, log);
    hide Next; hide NextLog; hide Merge; hide View; hide Control; hide Data; hide MemoryOk; hide NextRams; hide NextMemory;
    hide Apply; hide Writes; hide SizedRams;
    var n, mem', w := Next(s, i, log.nextId), NextMemory(s, mem, i), NextLog(s, i, log).written;
    forall tag: nat, k: nat | k < SETS ensures View(n.ram, mem', tag, k) == Apply(start(tag, k), tag, k, w) {
      AccumulatedAt(s, mem, start, i, log, tag, k);
    }
  }

  lemma AccumulatedAt(s: Regs, mem: Memory, start: Memory, i: Input, log: Log, tag: nat, k: nat)
    requires Control(s) && Data(s, mem) && SizedInput(i) && MemoryOk(s, mem, i) && k < SETS
    requires Accumulated(s, mem, start, log.written)
    ensures var n, w := Next(s, i, log.nextId), NextLog(s, i, log).written;
      && SizedRams(n.ram) && (forall k :: 0 <= k < |w| ==> w[k].addr.off < LINE)
      && View(n.ram, NextMemory(s, mem, i), tag, k) == Apply(start(tag, k), tag, k, w)
  {
    WrittenOfLog(s, i, log);
    ViewChanges(s, mem, i, tag, k);
    hide Next; hide NextLog; hide Merge; hide View; hide Control; hide Data; hide MemoryOk; hide NextRams; hide NextMemory;
    hide Apply; hide Writes; hide SizedRams;
    assert View(s.ram, mem, tag, k) == Apply(start(tag, k), tag, k, log.written);
    if Writes(s) { ApplySnoc(start(tag, k), tag, k, log.written, s.p1.req); } else { assert log.written + [] == log.written; }
  }

  lemma WrittenOfLog(s: Regs, i: Input, log: Log)
    requires Control(s) && SizedInput(i)
    ensures var w := NextLog(s, i, log).written;
      w == log.written + (if Writes(s) then [s.p1.req] else []) && (Writes(s) ==> s.p1.req.isStore && s.p1.req.addr.off < LINE)
    ensures Next(s, i, log.nextId).ram == NextRams(s, i) && SizedRams(s.ram)
    ensures SizedRams(Next(s, i, log.nextId).ram)
  {
    hide NextRams; hide NextQueue; hide NextPort1; hide NextPort2; hide NextCtl; hide NextCount; hide Answered; hide RetiredNow;
    hide Drops; hide Pushes; hide Accepts; hide Hit1;
  }

  /** Applying one list of stores after another is applying them all. */
  lemma {:induction false} ApplyJoin(l: Line, tag: nat, k: nat, us: seq<Req>, vs: seq<Req>)
    requires forall j :: 0 <= j < |us| ==> us[j].addr.off < LINE
    requires forall j :: 0 <= j < |vs| ==> vs[j].addr.off < LINE
    ensures Apply(l, tag, k, us + vs) == Apply(Apply(l, tag, k, us), tag, k, vs)
    decreases |vs|
  {
    if vs == [] {
      assert us + vs == us;
    } else {
      var n := |vs| - 1;
      ApplyJoin(l, tag, k, us, vs[..n]);
      assert (us + vs)[..|us| + n] == us + vs[..n];
    }
  }
}
