/** Open-addressing order-reference table with linear probing and backward-shift
    deletion (Knuth, The Art of Computer Programming vol. 3, section 6.4, Algorithm R).
    The hash is an arbitrary function; a power-of-two mask is written as a remainder. */
module OrderRefTable {
  import opened Itch
  import opened LiveOrders
  import opened Modulo

  const EMPTY_VALUE: Order := Order(0, 0, 0, 0 as char)

  // ---- the probe sequence on slot sequences ----------------------------------

  function Next(n: nat, i: nat): (j: nat)
    requires i < n
  {
    if i + 1 == n then 0 else i + 1
  }

  /** Slot j lies cyclically between home h and position i. */
  predicate OnPath(n: nat, h: nat, i: nat, j: nat)
    requires h < n && i < n && j < n
  {
    Dist(n, h, j) <= Dist(n, h, i)
  }

  ghost predicate Unique(ks: seq<u64>) {
    forall i, j :: 0 <= i < |ks| && 0 <= j < |ks| && ks[i] == ks[j] != 0 ==> i == j
  }

  ghost predicate Homes(home: u64 -> nat, n: nat) {
    forall k: u64 :: home(k) < n
  }

  lemma HomesBound(home: u64 -> nat, n: nat)
    requires Homes(home, n)
    ensures forall k: u64 :: home(k) < n
  {}

  /** Every slot from a key's home to its position, cyclically, is occupied. */
  ghost predicate NoGap(ks: seq<u64>, home: u64 -> nat)
    requires Homes(home, |ks|)
  {
    forall i, j :: 0 <= i < |ks| && 0 <= j < |ks| && ks[i] != 0 && OnPath(|ks|, home(ks[i]), i, j) ==> ks[j] != 0
  }

  /** The slots hold exactly the map m. */
  ghost predicate Holds(ks: seq<u64>, vs: seq<Order>, m: Orders)
    requires |ks| == |vs|
  {
    && (forall i :: 0 <= i < |ks| && ks[i] != 0 ==> ks[i] in m && m[ks[i]] == vs[i])
    && (forall k :: k in m ==> k != 0 && k in ks)
  }

  /** The first n probe steps from start meet neither the key nor an empty slot. */
  ghost predicate Passed(ks: seq<u64>, key: u64, start: nat, n: nat)
    requires start < |ks|
  {
    forall j :: 0 <= j < |ks| && Dist(|ks|, start, j) < n ==> ks[j] != 0 && ks[j] != key
  }

  /** An empty slot reached by the probe proves that the key is absent. */
  lemma EmptyMeansAbsent(ks: seq<u64>, home: u64 -> nat, key: u64, i: nat, n: nat)
    requires Homes(home, |ks|) && NoGap(ks, home) && key != 0
    requires i < |ks| && ks[i] == 0
    requires Passed(ks, key, home(key), n) && Dist(|ks|, home(key), i) <= n
    ensures key !in ks
  {
    forall p | 0 <= p < |ks| ensures ks[p] != key {
      assert Dist(|ks|, home(key), p) >= n ==> OnPath(|ks|, home(key), p, i);
    }
  }

  lemma PassOne(ks: seq<u64>, key: u64, start: nat, i: nat)
    requires start < |ks| && i < |ks| && ks[i] != 0 && ks[i] != key
    requires Passed(ks, key, start, Dist(|ks|, start, i))
    ensures Passed(ks, key, start, Dist(|ks|, start, i) + 1)
  {}

  lemma AllPassed(ks: seq<u64>, key: u64, start: nat, n: nat)
    requires start < |ks| <= n && Passed(ks, key, start, n)
    ensures 0 !in ks && key !in ks
  {
    forall j | 0 <= j < |ks| ensures ks[j] != 0 && ks[j] != key {
      assert Dist(|ks|, start, j) < n;
    }
  }

  /** A window at i without a hit and without an empty lane extends the passed prefix. */
  lemma PassWindow(ks: seq<u64>, key: u64, start: nat, i: nat, lanes: nat, n: nat)
    requires start < |ks| && i < |ks| && i + lanes <= |ks| && Passed(ks, key, start, n)
    requires i == start + n || i + |ks| == start + n
    requires forall j :: i <= j < i + lanes ==> ks[j] != 0 && ks[j] != key
    ensures Passed(ks, key, start, n + lanes)
  {}

  /** Window w, n steps after start, has an empty lane z and no hit up to it. */
  ghost predicate EmptyLane(ks: seq<u64>, key: u64, start: nat, w: nat, z: nat, n: nat) {
    && start < |ks| && w <= z < |ks| && ks[z] == 0 && Dist(|ks|, start, w) == n
    && forall j :: w <= j <= z ==> ks[j] != key
  }

  lemma EmptyLaneMeansAbsent(ks: seq<u64>, home: u64 -> nat, key: u64, w: nat, z: nat, n: nat)
    requires Homes(home, |ks|) && NoGap(ks, home) && key != 0
    requires EmptyLane(ks, key, home(key), w, z, n)
    requires Passed(ks, key, home(key), n)
    ensures key !in ks
  {
    assert forall p :: 0 <= p < |ks| && ks[p] == key ==> OnPath(|ks|, home(key), p, z);
  }

  /** Writing a fresh key into the empty slot its probe reached keeps the layout. */
  lemma FillSlot(ks: seq<u64>, vs: seq<Order>, home: u64 -> nat, m: Orders, i: nat, key: u64, v: Order, n: nat)
    requires |ks| == |vs| && Homes(home, |ks|) && Unique(ks) && NoGap(ks, home) && Holds(ks, vs, m)
    requires i < |ks| && ks[i] == 0 && key != 0 && key !in m
    requires Passed(ks, key, home(key), n) && Dist(|ks|, home(key), i) == n
    ensures Unique(ks[i := key]) && NoGap(ks[i := key], home)
    ensures Holds(ks[i := key], vs[i := v], m[key := v])
    ensures |m| < |ks|
  {
    var ks' := ks[i := key];
    Occupancy(ks, vs, m);
    forall k | k in m[key := v] ensures k in ks' {
      if k == key {
        assert ks'[i] == k;
      } else {
        var p :| 0 <= p < |ks| && ks[p] == k;
        assert ks'[p] == k;
      }
    }
  }

  lemma ReplaceSlot(ks: seq<u64>, vs: seq<Order>, m: Orders, i: nat, v: Order)
    requires |ks| == |vs| && Unique(ks) && Holds(ks, vs, m) && i < |ks| && ks[i] != 0
    ensures Holds(ks, vs[i := v], m[ks[i] := v]) && ks[i] in m
  {}

  ghost function Keys(ks: seq<u64>): set<u64> {
    set i | 0 <= i < |ks| && ks[i] != 0 :: ks[i]
  }

  /** Distinct keys fill the sequence exactly when no slot is empty. */
  lemma {:induction false} KeyCount(ks: seq<u64>)
    requires Unique(ks)
    ensures |Keys(ks)| <= |ks|
    ensures |Keys(ks)| == |ks| <==> 0 !in ks
  {
    if ks != [] {
      var n := |ks| - 1;
      var front := ks[..n];
      KeyCount(front);
      assert forall i :: 0 <= i < n ==> front[i] == ks[i];
      assert 0 in ks <==> 0 in front || ks[n] == 0;
      if ks[n] == 0 {
        assert Keys(ks) == Keys(front);
      } else {
        assert ks[n] !in Keys(front);
        assert Keys(ks) == Keys(front) + {ks[n]};
      }
    }
  }

  lemma Occupancy(ks: seq<u64>, vs: seq<Order>, m: Orders)
    requires |ks| == |vs| && Unique(ks) && Holds(ks, vs, m)
    ensures |m| <= |ks|
    ensures |m| < |ks| <==> 0 in ks
  {
    KeyCount(ks);
    assert m.Keys == Keys(ks);
    assert |m| == |m.Keys|;
  }

  // ---- backward-shift deletion ------------------------------------------------

  /** Slot i is a hole whose occupant is gone; only keys beyond j, counted from i,
      may still have their probe path broken by it. */
  ghost predicate HoleAt(ks: seq<u64>, home: u64 -> nat, i: nat, j: nat)
    requires Homes(home, |ks|) && i < |ks| && j < |ks|
  {
    && ks[i] == 0
    && forall p, q :: 0 <= p < |ks| && 0 <= q < |ks| && ks[p] != 0 && OnPath(|ks|, home(ks[p]), p, q) ==>
        ks[q] != 0 || (q == i && Dist(|ks|, i, j) < Dist(|ks|, i, p))
  }

  /** The source's test: home k lies cyclically in (i, j]. */
  predicate InGap(i: nat, j: nat, k: nat) {
    if i <= j then i < k <= j else i < k || k <= j
  }

  lemma HoleSkip(ks: seq<u64>, home: u64 -> nat, i: nat, j: nat)
    requires Homes(home, |ks|) && i < |ks| && j < |ks|
    requires HoleAt(ks, home, i, j) && Next(|ks|, j) != i
    requires InGap(i, Next(|ks|, j), home(ks[Next(|ks|, j)]))
    ensures HoleAt(ks, home, i, Next(|ks|, j))
  {}

  lemma HoleMove(ks: seq<u64>, home: u64 -> nat, i: nat, j: nat, moved: seq<u64>)
    requires Homes(home, |ks|) && i < |ks| && j < |ks|
    requires HoleAt(ks, home, i, j) && Unique(ks)
    requires var j' := Next(|ks|, j);
      j' != i && ks[j'] != 0 && !InGap(i, j', home(ks[j'])) && moved == ks[i := ks[j']][j' := 0]
    ensures var j' := Next(|ks|, j); HoleAt(moved, home, j', j') && Unique(moved)
  {
    var n := |ks|;
    var j' := Next(n, j);
    forall p, q | 0 <= p < n && 0 <= q < n && moved[p] != 0
      && OnPath(n, home(moved[p]), p, q) && moved[q] == 0
      ensures q == j' && Dist(n, j', j') < Dist(n, j', p)
    {
      assert q != i;
      if p == i {
        assert moved[p] == ks[j'];
        assert OnPath(n, home(ks[j']), j', q);
      } else {
        assert moved[p] == ks[p];
      }
    }
  }

  lemma HoleClosed(ks: seq<u64>, home: u64 -> nat, i: nat, j: nat)
    requires Homes(home, |ks|) && i < |ks| && j < |ks|
    requires HoleAt(ks, home, i, j) && Next(|ks|, j) != i && ks[Next(|ks|, j)] == 0
    ensures NoGap(ks, home)
  {
    var j' := Next(|ks|, j);
    assert forall p :: 0 <= p < |ks| && ks[p] != 0 && OnPath(|ks|, home(ks[p]), p, i) ==>
        Dist(|ks|, i, j) < Dist(|ks|, i, p) ==> OnPath(|ks|, home(ks[p]), p, j');
  }

  lemma OpenHole(ks: seq<u64>, vs: seq<Order>, home: u64 -> nat, m: Orders, i: nat)
    requires |ks| == |vs| && Homes(home, |ks|) && Unique(ks) && NoGap(ks, home) && Holds(ks, vs, m)
    requires i < |ks| && ks[i] != 0
    ensures Unique(ks[i := 0]) && HoleAt(ks[i := 0], home, i, i) && Holds(ks[i := 0], vs, m - {ks[i]})
  {
    forall k | k in m - {ks[i]} ensures k in ks[i := 0] {
      var p :| 0 <= p < |ks| && ks[p] == k;
      assert ks[i := 0][p] == k;
    }
  }

  /** Without the stale copy at i the slots hold m, with a hole at i. */
  ghost predicate Shifting(ks: seq<u64>, vs: seq<Order>, home: u64 -> nat, m: Orders, i: nat, j: nat) {
    && |ks| == |vs| && Homes(home, |ks|) && i < |ks| && j < |ks|
    && Unique(ks[i := 0]) && HoleAt(ks[i := 0], home, i, j) && Holds(ks[i := 0], vs, m)
  }

  lemma ShiftClosed(ks: seq<u64>, vs: seq<Order>, home: u64 -> nat, m: Orders, i: nat, j: nat)
    requires Shifting(ks, vs, home, m, i, j)
    requires Next(|ks|, j) != i && ks[Next(|ks|, j)] == 0
    ensures Unique(ks[i := 0]) && NoGap(ks[i := 0], home) && Holds(ks[i := 0], vs[i := EMPTY_VALUE], m)
  {
    HoleClosed(ks[i := 0], home, i, j);
  }

  lemma ShiftSkip(ks: seq<u64>, vs: seq<Order>, home: u64 -> nat, m: Orders, i: nat, j: nat)
    requires Shifting(ks, vs, home, m, i, j)
    requires var j' := Next(|ks|, j); j' != i && InGap(i, j', home(ks[j']))
    ensures Shifting(ks, vs, home, m, i, Next(|ks|, j))
  {
    HoleSkip(ks[i := 0], home, i, j);
  }

  lemma ShiftMove(ks: seq<u64>, vs: seq<Order>, home: u64 -> nat, m: Orders, i: nat, j: nat)
    requires Shifting(ks, vs, home, m, i, j)
    requires var j' := Next(|ks|, j); j' != i && ks[j'] != 0 && !InGap(i, j', home(ks[j']))
    ensures var j' := Next(|ks|, j); Shifting(ks[i := ks[j']], vs[i := vs[j']], home, m, j', j')
  {
    var j' := Next(|ks|, j);
    var moved := ks[i := ks[j']][j' := 0];
    assert moved == ks[i := 0][i := ks[j']][j' := 0];
    HoleMove(ks[i := 0], home, i, j, moved);
    forall k | k in m ensures k in moved {
      var p :| 0 <= p < |ks| && ks[i := 0][p] == k;
      assert moved[if p == j' then i else p] == k;
    }
  }

  // ---- vector probe -----------------------------------------------------------

  /** A whole number of 4- or 8-lane windows. */
  predicate Aligned(x: nat, lanes: nat) {
    if lanes == 4 then x % 4 == 0 else x % 8 == 0
  }

  lemma AlignedStep(x: nat, y: nat, lanes: nat)
    requires (lanes == 4 || lanes == 8) && x < y <= x + lanes && Aligned(x, lanes)
    ensures Aligned(y, lanes) <==> y == x + lanes
  {}

  /** The vector windows land exactly on the end of the array: the next tail read is
      one past the last slot. */
  ghost predicate RunsOffEnd(ks: seq<u64>, key: u64, start: nat, lanes: nat)
    requires start < |ks|
  {
    Aligned(|ks| - start, lanes) && forall j :: start <= j < |ks| ==> ks[j] != 0 && ks[j] != key
  }

  /** The vector probe at slot i after `scanned` steps: window by window up to the end of the
      array, then, unless the windows land on the end, on from slot 0. */
  ghost predicate Probing(ks: seq<u64>, key: u64, start: nat, lanes: nat, i: nat, scanned: nat) {
    var n := |ks|;
    && start < n && (lanes == 4 || lanes == 8) && scanned <= n + lanes && Passed(ks, key, start, scanned)
    && if i == start + scanned
       then Aligned(i - start, lanes) || (i < n < i + lanes && !Aligned(n - start, lanes))
       else !Aligned(n - start, lanes) && n <= start + scanned && (scanned <= n ==> i == start + scanned - n)
  }

  lemma ProbingStart(ks: seq<u64>, key: u64, start: nat, lanes: nat)
    requires start < |ks| && (lanes == 4 || lanes == 8)
    ensures Probing(ks, key, start, lanes, start, 0)
  {}

  /** A window without a hit or an empty lane. */
  lemma ProbingWindow(ks: seq<u64>, key: u64, start: nat, lanes: nat, i: nat, scanned: nat)
    requires Probing(ks, key, start, lanes, i, scanned) && scanned <= |ks| && i + lanes <= |ks|
    requires forall j :: i <= j < i + lanes ==> ks[j] != 0 && ks[j] != key
    ensures Probing(ks, key, start, lanes, i + lanes, scanned + lanes)
  {
    PassWindow(ks, key, start, i, lanes, scanned);
    if i == start + scanned { AlignedStep(i - start, i + lanes - start, lanes); }
    hide Aligned, Passed;
  }

  /** One slot of the tail behind the last whole window. */
  lemma ProbingTail(ks: seq<u64>, key: u64, start: nat, lanes: nat, i: nat, scanned: nat)
    requires Probing(ks, key, start, lanes, i, scanned) && scanned <= |ks| && i < |ks| < i + lanes
    requires ks[i] != 0 && ks[i] != key
    ensures Probing(ks, key, start, lanes, Next(|ks|, i), scanned + 1)
  {
    PassWindow(ks, key, start, i, 1, scanned);
    if i == start + scanned && Aligned(i - start, lanes) { AlignedStep(i - start, |ks| - start, lanes); }
    hide Aligned, Passed;
  }

  /** A hit or an empty slot z in the current window or tail slot. */
  lemma ProbingStops(ks: seq<u64>, key: u64, start: nat, lanes: nat, i: nat, scanned: nat, z: nat)
    requires Probing(ks, key, start, lanes, i, scanned) && scanned <= |ks| && i <= z < |ks| &&
      (ks[z] == 0 || ks[z] == key)
    ensures !RunsOffEnd(ks, key, start, lanes) && Passed(ks, key, start, scanned)
    ensures scanned < |ks| ==> Dist(|ks|, start, i) == scanned
  {
    hide Aligned, Passed;
  }

  lemma ProbingEnds(ks: seq<u64>, key: u64, start: nat, lanes: nat, scanned: nat)
    requires Probing(ks, key, start, lanes, |ks|, scanned) && scanned <= |ks|
    ensures RunsOffEnd(ks, key, start, lanes)
  {
    forall j | start <= j < |ks| ensures ks[j] != 0 && ks[j] != key { assert Dist(|ks|, start, j) < scanned; }
    hide Aligned, Passed;
  }

  /** Every slot scanned: the windows did not land on the end. */
  lemma ProbingOver(ks: seq<u64>, key: u64, start: nat, lanes: nat, i: nat, scanned: nat)
    requires Probing(ks, key, start, lanes, i, scanned) && |ks| < scanned && i <= |ks|
    ensures !RunsOffEnd(ks, key, start, lanes) && Passed(ks, key, start, scanned)
  {
    hide Aligned, Passed;
  }

  /** Five keys of home 4 in eight slots fill slots 4 to 7 and wrap to slot 0. */
  lemma FiveWrap(ks: seq<u64>, vs: seq<Order>, home: u64 -> nat, m: Orders)
    requires |ks| == |vs| == 8 && Homes(home, 8) && (forall k: u64 :: home(k) == 4)
    requires Unique(ks) && NoGap(ks, home) && Holds(ks, vs, m) && m.Keys == {1, 2, 3, 4, 5}
    ensures ks[0] in m && RunsOffEnd(ks, ks[0], home(ks[0]), 4)
  {
    if ks[0] == 0 {
      forall p | 0 <= p < 4 ensures ks[p] == 0 { assert OnPath(8, 4, p, 0); }
      hide NoGap, Unique, Holds, Homes;
      forall k: u64 | k in m ensures k in {ks[4], ks[5], ks[6], ks[7]} {
        var p :| 0 <= p < 8 && ks[p] == k;
        assert p in {4, 5, 6, 7};
      }
      assert false;
    }
    forall j | 4 <= j < 8 ensures ks[j] != 0 && ks[j] != ks[0] { assert OnPath(8, 4, 0, j); }
  }

  method InsertFive(t: OrderRefTable)
    requires t.Valid() && t.cap == 8 && t.Contents == map[]
    modifies t, t.keys, t.vals
    ensures t.Valid() && t.Contents.Keys == {1, 2, 3, 4, 5} && |t.Contents| == 5
  {
    hide OrderRefTable.Valid;
    var ok := t.Insert(1, EMPTY_VALUE);
    ok := t.Insert(2, EMPTY_VALUE);
    ok := t.Insert(3, EMPTY_VALUE);
    ok := t.Insert(4, EMPTY_VALUE);
    ok := t.Insert(5, EMPTY_VALUE);
  }

  /** A table on which the 4-lane probe leaves the array although the key is present, reached
      by five insertions into an empty table of eight slots. */
  method VectorProbeOverrun() returns (t: OrderRefTable, key: u64)
    ensures fresh(t) && t.Valid() && key in t.Contents && |t.Contents| < t.cap
    ensures RunsOffEnd(t.keys[..], key, t.home(key), 4)
  {
    hide Unique, NoGap, Holds, RunsOffEnd;
    assert TableSize(8) == RoundedUp(2, 8) == RoundedUp(4, 8) == 8;
    t := new OrderRefTable(8, _ => 4);
    ghost var home := t.home;
    assert forall k: u64 :: home(k) == 4;
    InsertFive(t);
    FiveWrap(t.keys[..], t.vals[..], home, t.Contents);
    key := t.keys[0];
  }

  /** The next power of two from n on. */
  function RoundedUp(n: nat, requested: nat): (r: nat)
    requires n > 0
    ensures r >= requested && (r == n || r < 2 * requested)
    decreases requested - n
  {
    if n >= requested then n else RoundedUp(2 * n, requested)
  }

  /** Slots of a table. */
  function TableSize(requested: nat): nat {
    RoundedUp(1, requested)
  }

  class OrderRefTable {
    const home: u64 -> nat   // hash, masked to the slot range
    const cap: nat
    const keys: array<u64>
    const vals: array<Order>
    var size: nat
    ghost var Contents: Orders

    ghost predicate Valid()
      reads this, keys, vals
    {
      && 0 < cap == keys.Length == vals.Length && Homes(home, cap)
      && size == |Contents|
      && Unique(keys[..]) && NoGap(keys[..], home)
      && Holds(keys[..], vals[..], Contents)
    }

    /** Capacity is rounded up to a power of two. Beyond 2^31 the source's 32-bit
        shift becomes zero and its rounding loop does not end. */
    constructor (requested: nat, hash: u64 -> nat)
      requires requested <= 0x8000_0000
      ensures Valid() && Contents == map[] && fresh(keys) && fresh(vals)
      ensures cap == TableSize(requested)
      ensures forall k: u64 :: home(k) == hash(k) % cap
    {
      var n := 1;
      while n < requested
        invariant 0 < n && RoundedUp(n, requested) == TableSize(requested)
        decreases requested - n
      {
        n := 2 * n;
      }
      home := (k: u64) => hash(k) % n;
      cap := n;
      keys := new u64[n](_ => 0);
      vals := new Order[n](_ => EMPTY_VALUE);
      size := 0;
      Contents := map[];
    }

    /** Insert or overwrite: fails only for the reserved key 0 or on a full table. */
    method Insert(ref: u64, v: Order) returns (ok: bool)
      requires Valid()
      modifies this, keys, vals
      ensures Valid()
      ensures ok <==> ref != 0 && (ref in old(Contents) || |old(Contents)| < cap)
      ensures Contents == if ok then old(Contents)[ref := v] else old(Contents)
    {
      if ref == 0 { return false; }
      ghost var ks, vs := keys[..], vals[..];
      var i, probes := ProbeForInsert(ref);
      Occupancy(ks, vs, Contents);
      if probes > cap {
        AllPassed(ks, ref, home(ref), cap);
        return false;
      }
      if keys[i] == ref {
        ReplaceSlot(ks, vs, Contents, i, v);
        vals[i] := v;
        Contents := Contents[ref := v];
        assert vals[..] == vs[i := v];
        return true;
      }
      EmptyMeansAbsent(ks, home, ref, i, probes - 1);
      FillSlot(ks, vs, home, Contents, i, ref, v, probes - 1);
      keys[i] := ref;
      vals[i] := v;
      size := size + 1;
      Contents := Contents[ref := v];
      assert keys[..] == ks[i := ref] && vals[..] == vs[i := v];
      return true;
    }

    /** The insertion probe: stops at the key, at an empty slot, or after cap slots. */
    method ProbeForInsert(ref: u64) returns (i: nat, probes: nat)
      requires ref != 0 && 0 < cap == keys.Length && Homes(home, cap)
      ensures 1 <= probes && i < cap
      ensures probes > cap ==> Passed(keys[..], ref, home(ref), cap)
      ensures probes <= cap ==>
        && (keys[i] == 0 || keys[i] == ref)
        && Dist(cap, home(ref), i) == probes - 1 && Passed(keys[..], ref, home(ref), probes - 1)
    {
      i, probes := home(ref), 1;
      while keys[i] != 0
        invariant 1 <= probes <= cap && i < cap
        invariant Dist(cap, home(ref), i) == probes - 1
        invariant Passed(keys[..], ref, home(ref), probes - 1)
        decreases cap - probes
      {
        if keys[i] == ref { return; }
        PassOne(keys[..], ref, home(ref), i);
        i := Next(cap, i);
        probes := probes + 1;
        if probes > cap { return; }
      }
    }

    /** Slot of `ref`, or -1: the scalar probe. */
    method FindIndex(ref: u64) returns (idx: int)
      requires Valid()
      ensures idx < 0 <==> ref !in Contents
      ensures idx >= 0 ==> idx < cap == keys.Length == vals.Length && keys[idx] == ref && vals[idx] == Contents[ref]
    {
      if ref == 0 { return -1; }
      idx := ProbeScalar(ref, home(ref));
    }

    method ProbeScalar(ref: u64, start: nat) returns (idx: int)
      requires Valid() && ref != 0 && start == home(ref)
      ensures idx < 0 <==> ref !in Contents
      ensures idx >= 0 ==> idx < cap == keys.Length == vals.Length && keys[idx] == ref && vals[idx] == Contents[ref]
    {
      ghost var ks := keys[..];
      var i: nat, n: nat := start, 0;
      while n <= cap
        invariant n <= cap + 1 && i < cap
        invariant n < cap ==> Dist(cap, start, i) == n
        invariant Passed(ks, ref, start, if n < cap then n else cap)
      {
        var k := keys[i];
        if k == ref { return i; }
        if k == 0 {
          EmptyMeansAbsent(ks, home, ref, i, if n < cap then n else cap);
          return -1;
        }
        if n < cap { PassOne(ks, ref, start, i); }
        i := Next(cap, i);
        n := n + 1;
      }
      AllPassed(ks, ref, start, cap);
      return -1;
    }

    /** One vector compare: the lowest lane of the window equal to k, or -1. */
    method LaneMatch(i: nat, lanes: nat, k: u64) returns (lane: int)
      requires i + lanes <= keys.Length
      ensures -1 <= lane < lanes
      ensures lane >= 0 ==> keys[i + lane] == k
      ensures lane < 0 ==> forall j :: i <= j < i + lanes ==> keys[j] != k
    {
      for l := 0 to lanes
        invariant forall j :: i <= j < i + l ==> keys[j] != k
      {
        if keys[i + l] == k { return l; }
      }
      return -1;
    }

    /** The 4- and 8-lane probes. Where the source would read one past the last slot the
        model stops and sets `overrun`; in every other case the scalar answer is returned. */
    method ProbeVector(ref: u64, start: nat, lanes: nat) returns (idx: int, overrun: bool)
      requires Valid() && ref != 0 && start == home(ref) && (lanes == 4 || lanes == 8)
      ensures overrun <==> RunsOffEnd(keys[..], ref, start, lanes)
      ensures !overrun ==> (idx < 0 <==> ref !in Contents)
      ensures !overrun && idx >= 0 ==> idx < cap && keys[idx] == ref && vals[idx] == Contents[ref]
    {
      ghost var w, z, n;
      idx, overrun, w, z, n := ProbeWindows(ref, start, lanes);
      if !overrun && idx < 0 {
        if n < cap {
          EmptyLaneMeansAbsent(keys[..], home, ref, w, z, n);
        } else {
          AllPassed(keys[..], ref, start, n);
        }
      }
    }

    /** The window loop. On a miss before the table is exhausted, window w has no hit and
        an empty lane at z, n steps after start. */
    method ProbeWindows(ref: u64, start: nat, lanes: nat)
      returns (idx: int, overrun: bool, ghost w: nat, ghost z: nat, ghost n: nat)
      requires ref != 0 && 0 < cap == keys.Length && start < cap && (lanes == 4 || lanes == 8)
      ensures overrun <==> RunsOffEnd(keys[..], ref, start, lanes)
      ensures !overrun && idx >= 0 ==> idx < cap && keys[idx] == ref
      ensures !overrun && idx < 0 ==> Passed(keys[..], ref, start, n)
      ensures !overrun && idx < 0 && n < cap ==> EmptyLane(keys[..], ref, start, w, z, n)
    {
      hide Probing, Passed, RunsOffEnd, Aligned, Dist;
      ghost var ks := keys[..];
      overrun, w, z, n := false, 0, 0, 0;
      var i: nat, scanned: nat := start, 0;
      ProbingStart(ks, ref, start, lanes);
      while scanned <= cap
        invariant i <= cap && n == scanned && Probing(ks, ref, start, lanes, i, scanned)
      {
        if i + lanes <= cap {
          var hit := LaneMatch(i, lanes, ref);
          var zero := LaneMatch(i, lanes, 0);
          if hit >= 0 || zero >= 0 {
            ProbingStops(ks, ref, start, lanes, i, scanned, i + if hit >= 0 then hit else zero);
            if hit >= 0 { return i + hit, false, 0, 0, 0; }
            return -1, false, i, i + zero, scanned;
          }
          ProbingWindow(ks, ref, start, lanes, i, scanned);
          i := i + lanes;
          scanned := scanned + lanes;
        } else if i == cap {
          ProbingEnds(ks, ref, start, lanes, scanned);
          return -1, true, 0, 0, 0;
        } else {
          var k := keys[i];
          if k == ref || k == 0 {
            ProbingStops(ks, ref, start, lanes, i, scanned, i);
            if k == ref { return i, false, 0, 0, 0; }
            return -1, false, i, i, scanned;
          }
          ProbingTail(ks, ref, start, lanes, i, scanned);
          i := Next(cap, i);
          scanned := scanned + 1;
        }
        n := scanned;
      }
      ProbingOver(ks, ref, start, lanes, i, scanned);
      return -1, false, 0, 0, n;
    }

    /** Backward-shift deletion. The source's loop stops only at an empty slot, so a full
        table makes it run for ever. */
    method Erase(ref: u64) returns (ok: bool)
      requires Valid()
      requires ref in Contents ==> |Contents| < cap
      modifies this, keys, vals
      ensures Valid()
      ensures ok <==> ref in old(Contents)
      ensures Contents == old(Contents) - {ref}
    {
      var found := FindIndex(ref);
      if found < 0 {
        assert Contents - {ref} == Contents;
        return false;
      }
      ghost var m := Contents - {ref};
      Occupancy(keys[..], vals[..], Contents);
      OpenHole(keys[..], vals[..], home, Contents, found);
      ShiftBack(found, m);
      size := size - 1;
      Contents := m;
      return true;
    }

    /** The shift loop: moves later chain members back until the hole may stay empty. */
    method ShiftBack(start: nat, ghost m: Orders)
      requires 0 < cap == keys.Length == vals.Length && Homes(home, cap) && start < cap
      requires Shifting(keys[..], vals[..], home, m, start, start)
      requires exists e :: 0 <= e < cap && e != start && keys[e] == 0
      modifies keys, vals
      ensures Unique(keys[..]) && NoGap(keys[..], home) && Holds(keys[..], vals[..], m)
    {
      hide Shifting, Unique, NoGap, Holds, Homes, InGap;
      ghost var e: nat :| e < cap && e != start && keys[e] == 0;
      assert forall k: u64 :: home(k) < cap by { HomesBound(home, cap); }
      var i: nat, j: nat := start, start;
      while true
        invariant i < cap && j < cap && e < cap && keys[e] == 0
        invariant Dist(cap, i, j) < Dist(cap, i, e)
        invariant Shifting(keys[..], vals[..], home, m, i, j)
        decreases Dist(cap, j, e)
      {
        ghost var prev := j;
        ghost var kb, vb := keys[..], vals[..];
        j := Next(cap, j);
        if keys[j] == 0 {
          ShiftClosed(kb, vb, home, m, i, prev);
          keys[i] := 0;
          vals[i] := EMPTY_VALUE;
          assert keys[..] == kb[i := 0] && vals[..] == vb[i := EMPTY_VALUE];
          return;
        }
        var k := home(keys[j]);
        if InGap(i, j, k) {
          ShiftSkip(kb, vb, home, m, i, prev);
          continue;
        }
        ShiftMove(kb, vb, home, m, i, prev);
        keys[i] := keys[j];
        vals[i] := vals[j];
        assert keys[..] == kb[i := kb[j]] && vals[..] == vb[i := vb[j]];
        i := j;
      }
    }

    /** In-place update of a found value's shares (the source writes through `find`). */
    method SetShares(idx: nat, shares: u32)
      requires Valid() && idx < cap && keys[idx] != 0
      modifies this, vals
      ensures Valid()
      ensures keys[idx] in old(Contents)
      ensures Contents == old(Contents)[keys[idx] := old(Contents)[keys[idx]].(shares := shares)]
    {
      ghost var vb := vals[..];
      ReplaceSlot(keys[..], vb, Contents, idx, vb[idx].(shares := shares));
      vals[idx] := vals[idx].(shares := shares);
      Contents := Contents[keys[idx] := vals[idx]];
      assert vals[..] == vb[idx := vals[idx]];
    }
  }
}
