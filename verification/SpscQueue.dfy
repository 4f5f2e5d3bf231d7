/** The single-producer, single-consumer ring: every interleaving of one thread's index loads,
    slot accesses and index stores with the other's. */
module SpscQueue {
  import opened Itch
  import opened Modulo

  /** Capacities divide the index range, so they are the powers of two below 2^64. */
  predicate CapacityOk(n: nat) {
    0 < n < WRAP64 && WRAP64 % n == 0
  }

  /** Where a push stands: its own index loaded, found room, or value written. */
  datatype Producer<T> = Idle | Loaded(val: T, w: u64) | Cleared(val: T, w: u64) | Written(val: T, w: u64)

  /** Where a pop stands: its own index loaded, found a value, or value copied out. */
  datatype Consumer<T> = Resting | Reading(r: u64) | Ready(r: u64) | Copied(r: u64, val: T)

  datatype Queue<T> = Queue(writeIdx: u64, readIdx: u64, slots: seq<T>, prod: Producer<T>, cons: Consumer<T>)

  /** Completed pushes and pops, in order. */
  datatype History<T> = History(pushed: seq<T>, popped: seq<T>)

  /** One step of either thread; `Push` begins a push of a value. */
  datatype Event<T> = Push(val: T) | ProducerStep | Pop | ConsumerStep

  function Difference(w: u64, r: u64): nat {
    (w - r) % WRAP64
  }

  function Next<T>(q: Queue<T>, e: Event<T>): (q': Queue<T>)
    requires |q.slots| > 0
    ensures |q'.slots| == |q.slots|
  {
    var n := |q.slots|;
    match e
    case Push(val) => if q.prod.Idle? then q.(prod := Loaded(val, q.writeIdx)) else q
    case ProducerStep => (
      match q.prod
      case Idle => q
      case Loaded(val, w) => q.(prod := if Difference(w, q.readIdx) >= n then Idle else Cleared(val, w))
      case Cleared(val, w) => q.(slots := q.slots[w % n := val], prod := Written(val, w))
      case Written(_, w) => q.(writeIdx := (w + 1) % WRAP64, prod := Idle))
    case Pop => if q.cons.Resting? then q.(cons := Reading(q.readIdx)) else q
    case ConsumerStep => (
      match q.cons
      case Resting => q
      case Reading(r) => q.(cons := if r == q.writeIdx then Resting else Ready(r))
      case Ready(r) => q.(cons := Copied(r, q.slots[r % n]))
      case Copied(r, _) => q.(readIdx := (r + 1) % WRAP64, cons := Resting))
  }

  /** Pushes count when their index is stored, pops likewise. */
  function Record<T>(q: Queue<T>, h: History<T>, e: Event<T>): History<T> {
    if e == ProducerStep && q.prod.Written? then h.(pushed := h.pushed + [q.prod.val])
    else if e == ConsumerStep && q.cons.Copied? then h.(popped := h.popped + [q.cons.val])
    else h
  }

  ghost predicate Inv<T>(q: Queue<T>, h: History<T>) {
    var n, w, r := |q.slots|, |h.pushed|, |h.popped|;
    && CapacityOk(n) && r <= w <= r + n && h.popped == h.pushed[..r]
    && q.writeIdx == w % WRAP64 && q.readIdx == r % WRAP64
    && (forall i {:trigger h.pushed[i]} :: r <= i < w ==> q.slots[i % n] == h.pushed[i])
    && (match q.prod
        case Idle => true
        case Loaded(_, x) => x == q.writeIdx
        case Cleared(_, x) => x == q.writeIdx && w < r + n
        case Written(val, x) => x == q.writeIdx && w < r + n && q.slots[w % n] == val)
    && (match q.cons
        case Resting => true
        case Reading(x) => x == q.readIdx
        case Ready(x) => x == q.readIdx && r < w
        case Copied(x, val) => x == q.readIdx && r < w && val == h.pushed[r])
  }

  /** The wrapped difference of the indices is the number of values in the ring. */
  lemma Occupancy(w: nat, r: nat, n: nat)
    requires r <= w <= r + n && n < WRAP64
    ensures Difference(w % WRAP64, r % WRAP64) == w - r
  {
    var a, b := w / WRAP64, r / WRAP64;
    assert w == WRAP64 * a + w % WRAP64 && r == WRAP64 * b + r % WRAP64;
  }

  lemma ProducerEdge<T>(q: Queue<T>, h: History<T>)
    requires Inv(q, h)
    ensures Inv(Next(q, ProducerStep), Record(q, h, ProducerStep))
  {
    var n, w, r := |q.slots|, |h.pushed|, |h.popped|;
    WrapKeeps(w, WRAP64, n);
    Occupancy(w, r, n);
    match q.prod {
      case Idle =>
      case Loaded(_, _) =>
      case Cleared(val, x) =>
        forall i | r <= i < w ensures i % n != w % n { NoSharedPosition(i, w, n); }
      case Written(val, x) =>
        var pushed := h.pushed + [val];
        assert pushed[..r] == h.pushed[..r];
        NextIndex(w);
    }
  }

  lemma NextIndex(w: nat)
    ensures (w % WRAP64 + 1) % WRAP64 == (w + 1) % WRAP64
  {}

  lemma ConsumerEdge<T>(q: Queue<T>, h: History<T>)
    requires Inv(q, h)
    ensures Inv(Next(q, ConsumerStep), Record(q, h, ConsumerStep))
  {
    var n, w, r := |q.slots|, |h.pushed|, |h.popped|;
    WrapKeeps(r, WRAP64, n);
    Occupancy(w, r, n);
    match q.cons {
      case Resting =>
      case Reading(x) => if x == q.writeIdx { assert Difference(q.writeIdx, q.readIdx) == 0; }
      case Ready(_) => assert r < w ==> h.pushed[r] == q.slots[r % n];
      case Copied(x, val) =>
        assert h.pushed[..r] + [val] == h.pushed[..r + 1];
        NextIndex(r);
    }
  }

  /** Every step of every interleaving, including across index wraparound. */
  lemma EveryStep<T>(q: Queue<T>, h: History<T>, e: Event<T>)
    requires Inv(q, h)
    ensures Inv(Next(q, e), Record(q, h, e))
  {
    match e {
      case Push(_) =>
      case Pop =>
      case ProducerStep => ProducerEdge(q, h);
      case ConsumerStep => ConsumerEdge(q, h);
    }
  }

  // ---- main results -------------------------------------------------------------------------------

  /** Popped values are a prefix of pushed values in order; at most a ring full lies between. */
  lemma PoppedIsPrefix<T>(q: Queue<T>, h: History<T>)
    requires Inv(q, h)
    ensures h.popped <= h.pushed && |h.pushed| - |h.popped| <= |q.slots|
    ensures Difference(q.writeIdx, q.readIdx) == |h.pushed| - |h.popped|
  {
    Occupancy(|h.pushed|, |h.popped|, |q.slots|);
  }

  /** The producer never writes the slot the consumer is about to read, nor any unread one. */
  lemma NoOverwrite<T>(q: Queue<T>, h: History<T>, i: nat)
    requires Inv(q, h) && q.prod.Cleared? && |h.popped| <= i < |h.pushed|
    ensures q.prod.w % |q.slots| != i % |q.slots|
    ensures q.cons.Ready? ==> q.prod.w % |q.slots| != q.cons.r % |q.slots|
  {
    var n := |q.slots|;
    WrapKeeps(|h.pushed|, WRAP64, n);
    WrapKeeps(|h.popped|, WRAP64, n);
    NoSharedPosition(i, |h.pushed|, n);
    if q.cons.Ready? { NoSharedPosition(|h.popped|, |h.pushed|, n); }
  }

  /** A push is refused exactly when the ring is full at its load of the read index, a pop
      exactly when it is empty at its load of the write index. */
  lemma RefusedExactly<T>(q: Queue<T>, h: History<T>)
    requires Inv(q, h)
    ensures q.prod.Loaded? ==> (Next(q, ProducerStep).prod.Idle? <==> |h.pushed| - |h.popped| == |q.slots|)
    ensures q.cons.Reading? ==> (Next(q, ConsumerStep).cons.Resting? <==> |h.pushed| == |h.popped|)
  {
    Occupancy(|h.pushed|, |h.popped|, |q.slots|);
  }

  function RunAll<T>(q: Queue<T>, h: History<T>, es: seq<Event<T>>): (Queue<T>, History<T>)
    requires |q.slots| > 0
    decreases |es|
  {
    if es == [] then (q, h) else RunAll(Next(q, es[0]), Record(q, h, es[0]), es[1..])
  }

  lemma {:induction false} EveryInterleaving<T>(q: Queue<T>, h: History<T>, es: seq<Event<T>>)
    requires Inv(q, h)
    ensures var (q', h') := RunAll(q, h, es);
      Inv(q', h')
    decreases |es|
  {
    if es != [] {
      EveryStep(q, h, es[0]);
      EveryInterleaving(Next(q, es[0]), Record(q, h, es[0]), es[1..]);
    }
  }

  // ---- the queue ----------------------------------------------------------------------------------------

  class SPSCQueue<T> {
    var slots: seq<T>
    var writeIdx: u64
    var readIdx: u64

    /** No call in progress. */
    function View(): Queue<T>
      reads this
    {
      Queue(writeIdx, readIdx, slots, Idle, Resting)
    }

    constructor (storage: seq<T>)
      requires CapacityOk(|storage|)
      ensures slots == storage && Inv(View(), History([], []))
    {
      slots, writeIdx, readIdx := storage, 0, 0;
    }

    /** A push that runs uninterrupted takes exactly the producer's four steps. */
    method Enqueue(val: T, ghost h: History<T>) returns (ok: bool)
      requires Inv(View(), h)
      modifies this
      ensures View() == RunAll(old(View()), h, [Push(val), ProducerStep, ProducerStep, ProducerStep]).0
      ensures ok <==> |h.pushed| - |h.popped| < old(|slots|)
      ensures Inv(View(), if ok then h.(pushed := h.pushed + [val]) else h)
    {
      ghost var q := View();
      Occupancy(|h.pushed|, |h.popped|, |slots|);
      var w, r := writeIdx, readIdx;
      ok := Difference(w, r) < |slots|;
      if ok {
        slots := slots[w % |slots| := val];
        writeIdx := (w + 1) % WRAP64;
      }
      Four(q, h, Push(val), ProducerStep);
      EveryInterleaving(q, h, [Push(val), ProducerStep, ProducerStep, ProducerStep]);
    }

    /** A pop that runs uninterrupted takes exactly the consumer's four steps. */
    method Dequeue(ghost h: History<T>) returns (ok: bool, val: Option<T>)
      requires Inv(View(), h)
      modifies this
      ensures View() == RunAll(old(View()), h, [Pop, ConsumerStep, ConsumerStep, ConsumerStep]).0
      ensures ok <==> |h.popped| < |h.pushed|
      ensures ok ==> val == Some(h.pushed[|h.popped|]) && Inv(View(), h.(popped := h.popped + [h.pushed[|h.popped|]]))
      ensures !ok ==> val == None && Inv(View(), h)
    {
      ghost var q := View();
      Occupancy(|h.pushed|, |h.popped|, |slots|);
      WrapKeeps(|h.popped|, WRAP64, |slots|);
      var r, w := readIdx, writeIdx;
      if r == w {
        ok, val := false, None;
      } else {
        ok, val := true, Some(slots[r % |slots|]);
        readIdx := (r + 1) % WRAP64;
      }
      Four(q, h, Pop, ConsumerStep);
      EveryInterleaving(q, h, [Pop, ConsumerStep, ConsumerStep, ConsumerStep]);
    }
  }

  lemma Four<T>(q: Queue<T>, h: History<T>, a: Event<T>, b: Event<T>)
    requires |q.slots| > 0
    ensures var q1, h1 := Next(q, a), Record(q, h, a);
      var q2, h2 := Next(q1, b), Record(q1, h1, b);
      var q3, h3 := Next(q2, b), Record(q2, h2, b);
      RunAll(q, h, [a, b, b, b]) == (Next(q3, b), Record(q3, h3, b))
  {
    var q1, h1 := Next(q, a), Record(q, h, a);
    var q2, h2 := Next(q1, b), Record(q1, h1, b);
    var q3, h3 := Next(q2, b), Record(q2, h2, b);
    hide Next, Record;
    assert [a, b, b, b][1..] == [b, b, b] && [b, b, b][1..] == [b, b] && [b, b][1..] == [b] && [b][1..] == [];
    var q4, h4 := Next(q3, b), Record(q3, h3, b);
    assert RunAll(q4, h4, []) == (q4, h4);
    assert RunAll(q3, h3, [b]) == (q4, h4);
    assert RunAll(q2, h2, [b, b]) == (q4, h4);
    assert RunAll(q1, h1, [b, b, b]) == (q4, h4);
  }
}
