/** The fetch queue of l1i.sv: eight entries between four-bit pointers, up to four pushed and two
    popped in one clock. */
module FetchQueue {

  /** A fetched instruction word (as its predecoder sees it) with its address and prediction. */
  datatype Fetched<T> = Fetched(data: T, pc: nat, target: nat, pred: bool)

  /** `tail2`, `tail3`, `tail4` are kept one, two and three past `tail`. */
  datatype Queue<T> = Queue(fq: seq<Fetched<T>>, head: nat, nextHead: nat, tail: nat, tail2: nat, tail3: nat, tail4: nat)

  /** Four-bit addition of a small constant. */
  function Plus(p: nat, k: nat): (r: nat)
    requires p < 16 && k < 16
    ensures r < 16
  {
    if p + k >= 16 then p + k - 16 else p + k
  }

  /** The three bits that index the array. */
  function Low(p: nat): (r: nat)
    requires p < 16
    ensures r < 8
  {
    if p >= 8 then p - 8 else p
  }

  ghost predicate Shaped<T>(q: Queue<T>) {
    && |q.fq| == 8 && q.head < 16 && q.nextHead < 16
    && q.tail < 16 && q.tail2 < 16 && q.tail3 < 16 && q.tail4 < 16
  }

  /** Entries in the queue: the four-bit difference of the pointers. */
  function Count<T>(q: Queue<T>): (c: nat)
    requires Shaped(q)
    ensures c < 16
  {
    if q.tail >= q.head then q.tail - q.head else q.tail + 16 - q.head
  }

  ghost predicate Ok<T>(q: Queue<T>) {
    && Shaped(q) && Count(q) <= 8
    && q.nextHead == Plus(q.head, 1)
    && q.tail2 == Plus(q.tail, 1) && q.tail3 == Plus(q.tail, 2) && q.tail4 == Plus(q.tail, 3)
  }

  predicate Meets<T>(q: Queue<T>, tail: nat)
    requires q.head < 16 && tail < 16
  {
    q.head != tail && Low(q.head) == Low(tail)
  }

  predicate Empty<T>(q: Queue<T>) {
    q.head == q.tail
  }

  predicate Full<T>(q: Queue<T>)
    requires Shaped(q)
  {
    Meets(q, q.tail)
  }

  predicate Full2<T>(q: Queue<T>)
    requires Shaped(q)
  {
    Meets(q, q.tail2) || Full(q)
  }

  predicate Full3<T>(q: Queue<T>)
    requires Shaped(q)
  {
    Meets(q, q.tail3) || Full2(q)
  }

  predicate Full4<T>(q: Queue<T>)
    requires Shaped(q)
  {
    Meets(q, q.tail4) || Full3(q)
  }

  /** The four tests say exactly whether one, two, three or four entries fit. */
  lemma FullExactly<T>(q: Queue<T>)
    requires Ok(q)
    ensures Empty(q) <==> Count(q) == 0
    ensures Full(q) <==> Count(q) + 1 > 8
    ensures Full2(q) <==> Count(q) + 2 > 8
    ensures Full3(q) <==> Count(q) + 3 > 8
    ensures Full4(q) <==> Count(q) + 4 > 8
  {
  }

  /** Where the entry `j` places behind the head lives. */
  function Slot(h: nat, j: nat): (r: nat)
    requires h < 16 && j < 16
    ensures r < 8
  {
    Low(Plus(h, j))
  }

  /** What decode will receive, oldest first. */
  function Contents<T>(q: Queue<T>): (s: seq<Fetched<T>>)
    requires Shaped(q)
    ensures |s| == Count(q)
  {
    seq(Count(q), j requires 0 <= j < Count(q) && Shaped(q) => q.fq[Slot(q.head, j)])
  }

  function WriteAt<T>(fq: seq<Fetched<T>>, at: nat, f: Fetched<T>): (r: seq<Fetched<T>>)
    requires |fq| == 8 && at < 16
    ensures |r| == 8
  {
    fq[Low(at) := f]
  }

  /** The array after a push of up to four entries. */
  function Written<T>(q: Queue<T>, fs: seq<Fetched<T>>): (r: seq<Fetched<T>>)
    requires Shaped(q) && |fs| <= 4
    ensures |r| == 8
  {
    var a := if |fs| > 0 then WriteAt(q.fq, q.tail, fs[0]) else q.fq;
    var b := if |fs| > 1 then WriteAt(a, q.tail2, fs[1]) else a;
    var c := if |fs| > 2 then WriteAt(b, q.tail3, fs[2]) else b;
    if |fs| > 3 then WriteAt(c, q.tail4, fs[3]) else c
  }

  /** One clock: `fs` go in at the tail while `pops` leave at the head. */
  function Clocked<T>(q: Queue<T>, fs: seq<Fetched<T>>, pops: nat): Queue<T>
    requires Shaped(q) && |fs| <= 4 && pops < 16
  {
    var n := |fs|;
    Queue(Written(q, fs), Plus(q.head, pops), Plus(q.nextHead, pops),
          Plus(q.tail, n), Plus(q.tail2, n), Plus(q.tail3, n), Plus(q.tail4, n))
  }

  function Cleared<T>(q: Queue<T>): Queue<T> {
    Queue(q.fq, 0, 1, 0, 1, 2, 3)
  }

  lemma WrittenAt<T>(q: Queue<T>, fs: seq<Fetched<T>>, j: nat)
    requires Ok(q) && |fs| <= 4 && Count(q) + |fs| <= 8 && j < Count(q) + |fs|
    ensures Written(q, fs)[Slot(q.head, j)] == if j < Count(q) then q.fq[Slot(q.head, j)] else fs[j - Count(q)]
  {
  }

  lemma PointersMove<T>(q: Queue<T>, fs: seq<Fetched<T>>, pops: nat)
    requires Ok(q) && |fs| <= 4 && Count(q) + |fs| <= 8 && pops <= Count(q)
    ensures Ok(Clocked(q, fs, pops)) && Count(Clocked(q, fs, pops)) == Count(q) + |fs| - pops
  {
    hide Written;
  }

  lemma SlotAfter(h: nat, pops: nat, j: nat)
    requires h < 16 && pops + j < 16
    ensures Slot(Plus(h, pops), j) == Slot(h, pops + j)
  {
  }

  /** Nothing is overwritten or reordered. */
  lemma ClockedContents<T>(q: Queue<T>, fs: seq<Fetched<T>>, pops: nat)
    requires Ok(q) && |fs| <= 4 && Count(q) + |fs| <= 8 && pops <= Count(q)
    ensures Ok(Clocked(q, fs, pops)) && Contents(Clocked(q, fs, pops)) == (Contents(q) + fs)[pops..]
  {
    hide Slot; hide Plus; hide Low; hide Written; hide Count;
    var q' := Clocked(q, fs, pops);
    PointersMove(q, fs, pops);
    forall j | 0 <= j < Count(q') ensures Contents(q')[j] == (Contents(q) + fs)[pops..][j] {
      SlotAfter(q.head, pops, j);
      WrittenAt(q, fs, pops + j);
    }
  }

  /** What left and what is still queued are, in order, what was ever queued. */
  lemma Accounted<T>(q: Queue<T>, fs: seq<Fetched<T>>, pops: nat, left: seq<Fetched<T>>, all: seq<Fetched<T>>)
    requires Ok(q) && |fs| <= 4 && Count(q) + |fs| <= 8 && pops <= Count(q) && left + Contents(q) == all
    ensures Ok(Clocked(q, fs, pops))
    ensures left + Contents(q)[..pops] + Contents(Clocked(q, fs, pops)) == all + fs
  {
    hide Contents; hide Clocked;
    ClockedContents(q, fs, pops);
    var c := Contents(q);
    assert c == c[..pops] + c[pops..] && (c + fs)[pops..] == c[pops..] + fs;
    assert left + c[..pops] + (c[pops..] + fs) == left + (c[..pops] + c[pops..]) + fs;
  }
}
