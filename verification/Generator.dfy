/** The synthetic stream generator: whatever the random draws, every message it emits is
    accepted by the book, which never crosses. */
module Generator {
  import opened Itch
  import opened LiveOrders
  import opened BookSpec
  import opened RtlSpec
  import opened Wire
  import F = BandFilter
  import E = BookEngine
  import T = OrderRefTable

  /** mids: one price per symbol, symbol s trading under locate code s + 1. */
  datatype Config = Config(
    mids: seq<u32>, tick: u32, bandTicks: u32, minPrice: u32, maxPrice: u32, maxShares: u32, aggressProb: nat,
      tsScale: u64)

  /** Farthest an order rests from its mid. */
  function Reach(c: Config): nat {
    c.bandTicks * c.tick
  }

  /** Symbols fit the locate code, and every order price of every symbol lies within the limits. */
  predicate ConfigOk(c: Config) {
    && 0 < |c.mids| < 0x1_0000 && c.tick > 0 && c.bandTicks > 0 && c.maxShares > 0 && c.minPrice > 0
    && forall s :: 0 <= s < |c.mids| ==>
      c.minPrice + Reach(c) <= c.mids[s] && c.mids[s] + Reach(c) <= c.maxPrice
  }

  datatype LiveOrder = LiveOrder(ref: u64, order: Order)

  // ---- what an uncrossed book is ----------------------------------------------------------------

  /** The order rests on its side of its symbol's mid. */
  predicate OwnSide(o: Order, c: Config) {
    && 1 <= o.locate <= |c.mids| && ValidSide(o.side) && 0 < o.price <= c.maxPrice && 0 < o.shares <= c.maxShares
    && if o.side == SIDE_BUY then o.price < c.mids[o.locate - 1] else o.price > c.mids[o.locate - 1]
  }

  ghost predicate Separated(os: Orders, c: Config) {
    forall r :: r in os ==> r > 0 && OwnSide(os[r], c)
  }

  /** Every bid of a symbol is below every ask of it, with the mid strictly between. */
  lemma NeverCrossed(os: Orders, c: Config, bid: u64, ask: u64)
    requires Separated(os, c) && bid in os && ask in os && os[bid].locate == os[ask].locate
    requires os[bid].side == SIDE_BUY && os[ask].side == SIDE_SELL
    ensures os[bid].price < c.mids[os[bid].locate - 1] < os[ask].price
  {}

  // ---- room -----------------------------------------------------------------------------------------

  /** n orders of the largest size. */
  function AtMost(n: nat, most: nat): nat {
    n * most
  }

  lemma OneMore(n: nat, k: nat, most: nat)
    ensures AtMost(n + 1, most) == AtMost(n, most) + most && AtMost(0, most) == 0
    ensures n <= k ==> AtMost(n, most) <= AtMost(k, most)
  {
    assert (n + 1) * most == n * most + most;
    if n <= k { assert k * most == n * most + (k - n) * most && (k - n) * most >= 0; }
  }

  /** A level holds at most the largest order size times the number of live orders. */
  lemma {:induction false} LevelAtMost(os: Orders, most: nat, loc: u16, side: char, price: nat)
    requires forall r :: r in os ==> os[r].shares <= most
    ensures Shares(os, loc, side, price) <= AtMost(|os|, most)
    decreases |os|
  {
    hide AtMost;
    if os != map[] {
      var r :| r in os;
      var rest := os - {r};
      assert |rest| == |os| - 1 by { assert rest[r := os[r]] == os; }
      SumSplit(os, SharesAt(loc, side, price), r);
      LevelAtMost(rest, most, loc, side, price);
      OneMore(|rest|, 0, most);
    } else {
      SumZero(os, SharesAt(loc, side, price));
    }
  }

  /** The book the stream is replayed into, and the largest number of orders ever live. */
  datatype Target = Target(levels: nat, capacity: nat, most: nat)

  predicate TargetOk(c: Config, g: Target) {
    c.maxPrice < g.levels && g.most <= g.capacity && g.most < WRAP64 - 1 && AtMost(g.most, c.maxShares) <= U32_MAX
  }

  lemma AddAccepted(os: Orders, m: RtlMsg, c: Config, g: Target)
    requires ConfigOk(c) && TargetOk(c, g) && Separated(os, c) && |os| < g.most && IsAdd(m)
    requires 0 < m.orderRef && m.orderRef !in os && OwnSide(Order(m.price, m.shares, m.locate, m.side), c)
    ensures Outcome(os, m, g.levels, g.capacity) == Applied
    ensures Separated(After(os, m), c) && |After(os, m)| == |os| + 1
  {
    hide AtMost, ConfigOk;
    LevelAtMost(os, c.maxShares, m.locate, m.side, m.price);
    OneMore(|os|, 0, c.maxShares);
    OneMore(|os| + 1, g.most, c.maxShares);
  }

  lemma ReplaceAccepted(os: Orders, m: RtlMsg, c: Config, g: Target)
    requires ConfigOk(c) && TargetOk(c, g) && Separated(os, c) && |os| <= g.most && m.kind == OrderReplace
    requires m.orderRef in os && 0 < m.newOrderRef && m.newOrderRef !in os
    requires OwnSide(Order(m.price, m.shares, os[m.orderRef].locate, os[m.orderRef].side), c)
    ensures Outcome(os, m, g.levels, g.capacity) == Applied
    ensures Separated(After(os, m), c) && |After(os, m)| == |os|
  {
    hide AtMost, ConfigOk;
    var rest, o := os - {m.orderRef}, os[m.orderRef];
    assert rest[m.orderRef := o] == os;
    LevelAtMost(rest, c.maxShares, o.locate, o.side, m.price);
    OneMore(|rest|, 0, c.maxShares);
    OneMore(|rest| + 1, g.most, c.maxShares);
    assert After(os, m) == rest[m.newOrderRef := Order(m.price, m.shares, o.locate, o.side)];
  }

  lemma ReduceAccepted(os: Orders, m: RtlMsg, c: Config, g: Target)
    requires Separated(os, c) && m.orderRef in os
    requires (IsReduce(m) && 0 < m.shares <= os[m.orderRef].shares) || m.kind == OrderDelete
    ensures Outcome(os, m, g.levels, g.capacity) == Applied
    ensures Separated(After(os, m), c) && |After(os, m)| <= |os|
    ensures After(os, m) == if m.kind == OrderDelete || m.shares == os[m.orderRef].shares then os - {m.orderRef}
      else os[m.orderRef := os[m.orderRef].(shares := os[m.orderRef].shares - m.shares)]
  {
    hide OwnSide, Shares;
    var o := os[m.orderRef];
    assert (os - {m.orderRef})[m.orderRef := o] == os;
    if IsReduce(m) && m.shares < o.shares { SmallerOwnSide(o, o.shares - m.shares, c); }
  }

  lemma SmallerOwnSide(o: Order, left: u32, c: Config)
    requires OwnSide(o, c) && 0 < left <= o.shares
    ensures OwnSide(o.(shares := left), c)
  {}

  /** A message that erases finds a free slot. */
  ghost predicate Room(os: Orders, m: RtlMsg, g: Target) {
    Erases(os, m, g.levels, g.capacity) ==> |os| < g.capacity
  }

  // ---- streams ------------------------------------------------------------------------------------------

  /** Every message accepted in turn, with a free table slot whenever one must be erased, the
      book uncrossed after each, every reference new. */
  ghost predicate GoodStream(ms: seq<RtlMsg>, c: Config, g: Target) {
    ms == [] ||
    (var before, m := ms[..|ms| - 1], ms[|ms| - 1];
     && GoodStream(before, c, g) && Outcome(Run(before, g.levels, g.capacity), m, g.levels, g.capacity) == Applied
     && Room(Run(before, g.levels, g.capacity), m, g) && Separated(Run(ms, g.levels, g.capacity), c)
     && (IsAdd(m) ==> m.orderRef !in F.Introduced(before)) &&
         (m.kind == OrderReplace ==> m.newOrderRef !in F.Introduced(before)))
  }

  lemma {:induction false} GoodIsFresh(ms: seq<RtlMsg>, c: Config, g: Target)
    requires GoodStream(ms, c, g)
    ensures F.FreshRefs(ms)
    ensures forall m :: m in ms && (IsAdd(m) || m.kind == OrderReplace) ==> m.shares > 0
  {
    if ms != [] {
      var before, last := ms[..|ms| - 1], ms[|ms| - 1];
      GoodIsFresh(before, c, g);
      forall m | m in ms && (IsAdd(m) || m.kind == OrderReplace) ensures m.shares > 0 {
        assert m in before || m == last;
      }
    }
  }

  /** A larger table changes nothing. */
  lemma {:induction false} GoodAtLarger(ms: seq<RtlMsg>, c: Config, g: Target, cap: nat)
    requires GoodStream(ms, c, g) && g.capacity <= cap
    ensures GoodStream(ms, c, g.(capacity := cap)) && Run(ms, g.levels, cap) == Run(ms, g.levels, g.capacity)
  {
    hide After, Separated;
    if ms != [] { GoodAtLarger(ms[..|ms| - 1], c, g, cap); }
  }

  lemma {:induction false} GoodAt(ms: seq<RtlMsg>, i: nat, c: Config, g: Target)
    requires GoodStream(ms, c, g) && i < |ms|
    ensures var os := Run(ms[..i], g.levels, g.capacity);
      Outcome(os, ms[i], g.levels, g.capacity) == Applied && Room(os, ms[i], g)
    decreases |ms|
  {
    hide Outcome, Room, Separated;
    if i < |ms| - 1 {
      assert ms[..|ms| - 1][..i] == ms[..i];
      GoodAt(ms[..|ms| - 1], i, c, g);
    }
  }

  /** The generator's live set is the book's. */
  ghost predicate Mirrors(live: seq<LiveOrder>, os: Orders) {
    && (forall i :: 0 <= i < |live| ==> live[i].ref in os && os[live[i].ref] == live[i].order)
    && (forall i, j :: 0 <= i < j < |live| ==> live[i].ref != live[j].ref)
    && (forall r :: r in os ==> exists i :: 0 <= i < |live| && live[i].ref == r)
  }

  lemma MirrorsPush(live: seq<LiveOrder>, os: Orders, x: LiveOrder)
    requires Mirrors(live, os) && x.ref !in os
    ensures Mirrors(live + [x], os[x.ref := x.order])
  {
    var live', os' := live + [x], os[x.ref := x.order];
    forall r | r in os' ensures exists i :: 0 <= i < |live'| && live'[i].ref == r {
      if r == x.ref {
        assert live'[|live|].ref == r;
      } else {
        var i :| 0 <= i < |live| && live[i].ref == r;
        assert live'[i].ref == r;
      }
    }
  }

  lemma MirrorsSet(live: seq<LiveOrder>, os: Orders, i: nat, x: LiveOrder)
    requires Mirrors(live, os) && i < |live| && (x.ref == live[i].ref || x.ref !in os)
    ensures Mirrors(live[i := x], (os - {live[i].ref})[x.ref := x.order])
  {
    var live', os' := live[i := x], (os - {live[i].ref})[x.ref := x.order];
    forall r | r in os' ensures exists k :: 0 <= k < |live'| && live'[k].ref == r {
      if r == x.ref {
        assert live'[i].ref == r;
      } else {
        var k :| 0 <= k < |live| && live[k].ref == r;
        assert live'[k].ref == r;
      }
    }
  }

  /** Swapping the last order into the gap. */
  function Removed(live: seq<LiveOrder>, i: nat): seq<LiveOrder>
    requires i < |live|
  {
    live[i := live[|live| - 1]][..|live| - 1]
  }

  lemma MirrorsRemove(live: seq<LiveOrder>, os: Orders, i: nat)
    requires Mirrors(live, os) && i < |live|
    ensures Mirrors(Removed(live, i), os - {live[i].ref})
  {
    var live', last := Removed(live, i), |live| - 1;
    forall r | r in os - {live[i].ref} ensures exists k :: 0 <= k < |live'| && live'[k].ref == r {
      var k :| 0 <= k < |live| && live[k].ref == r;
      if k == last { assert live'[i].ref == r; } else { assert live'[k].ref == r; }
    }
  }

  /** The live set after a reduction. */
  function Reduced(live: seq<LiveOrder>, i: nat, qty: u32): seq<LiveOrder>
    requires i < |live| && qty <= live[i].order.shares
  {
    if qty == live[i].order.shares then Removed(live, i)
    else live[i := live[i].(order := live[i].order.(shares := live[i].order.shares - qty))]
  }

  lemma ReduceMirrors(live: seq<LiveOrder>, os: Orders, i: nat, m: RtlMsg)
    requires Mirrors(live, os) && i < |live| && m.orderRef == live[i].ref && IsReduce(m) &&
      0 < m.shares <= live[i].order.shares
    ensures Mirrors(Reduced(live, i, m.shares), After(os, m))
  {
    var x := live[i];
    assert os[x.ref] == x.order;
    if m.shares == x.order.shares {
      MirrorsRemove(live, os, i);
    } else {
      var left := x.(order := x.order.(shares := x.order.shares - m.shares));
      MirrorsSet(live, os, i, left);
      assert (os - {x.ref})[x.ref := left.order] == os[x.ref := left.order];
    }
  }

  lemma DeleteMirrors(live: seq<LiveOrder>, os: Orders, i: nat, m: RtlMsg)
    requires Mirrors(live, os) && i < |live| && m.orderRef == live[i].ref && m.kind == OrderDelete
    ensures Mirrors(Removed(live, i), After(os, m))
  {
    MirrorsRemove(live, os, i);
    assert live[i].ref in os;
  }

  lemma ReplaceMirrors(live: seq<LiveOrder>, os: Orders, i: nat, m: RtlMsg, x: LiveOrder)
    requires Mirrors(live, os) && i < |live| && m.orderRef == live[i].ref && m.kind == OrderReplace &&
      m.newOrderRef !in os
    requires x == LiveOrder(m.newOrderRef, live[i].order.(price := m.price, shares := m.shares))
    ensures Mirrors(live[i := x], After(os, m))
  {
    MirrorsSet(live, os, i, x);
    assert os[live[i].ref] == live[i].order;
  }

  lemma AddMirrors(live: seq<LiveOrder>, os: Orders, m: RtlMsg)
    requires Mirrors(live, os) && IsAdd(m) && m.orderRef !in os
    ensures Mirrors(live + [LiveOrder(m.orderRef, Order(m.price, m.shares, m.locate, m.side))], After(os, m))
  {
    MirrorsPush(live, os, LiveOrder(m.orderRef, Order(m.price, m.shares, m.locate, m.side)));
  }

  lemma GoodSnoc(ms: seq<RtlMsg>, m: RtlMsg, c: Config, g: Target)
    requires var os := Run(ms, g.levels, g.capacity);
      && GoodStream(ms, c, g) && Outcome(os, m, g.levels, g.capacity) == Applied
      && Room(os, m, g) && Separated(After(os, m), c)
    requires IsAdd(m) ==> m.orderRef !in F.Introduced(ms)
    requires m.kind == OrderReplace ==> m.newOrderRef !in F.Introduced(ms)
    ensures GoodStream(ms + [m], c, g)
    ensures Run(ms + [m], g.levels, g.capacity) == After(Run(ms, g.levels, g.capacity), m)
    ensures F.Introduced(ms + [m]) ==
      F.Introduced(ms) + if IsAdd(m) then {m.orderRef} else if m.kind == OrderReplace then {m.newOrderRef} else {}
  {
    hide Outcome, After, Separated;
    assert (ms + [m])[..|ms + [m]| - 1] == ms;
  }

  lemma SmallerStep(k: nat, c: Config)
    requires 1 <= k <= c.bandTicks && c.tick > 0
    ensures 0 < k * c.tick <= Reach(c)
  {
    var n, tick := c.bandTicks, c.tick;
    assert k * tick == tick + (k - 1) * tick && (k - 1) * tick >= 0;
    assert n * tick == k * tick + (n - k) * tick && (n - k) * tick >= 0;
  }

  // ---- what has been emitted ----------------------------------------------------------------------------

  /** The bytes hold the messages sent, all of them accepted; references below `next` are used. */
  ghost predicate Good(c: Config, g: Target, next: u64, sent: seq<RtlMsg>, bodies: seq<Bytes>, out: Bytes) {
    var os := Run(sent, g.levels, g.capacity);
    && ConfigOk(c) && TargetOk(c, g) && 1 <= next
    && GoodStream(sent, c, g) && Separated(os, c) && |os| < next
    && (forall r :: r in F.Introduced(sent) ==> r < next) && (forall r :: r in os ==> r < next)
    && Framable(bodies) && out == Framed(bodies) && Messages(bodies) == sent
  }

  /** The message may be sent now. */
  ghost predicate Sendable(c: Config, g: Target, next: u64, sent: seq<RtlMsg>, m: RtlMsg) {
    var os := Run(sent, g.levels, g.capacity);
    && Carried(m) == m && m.kind != Unknown
    && Outcome(os, m, g.levels, g.capacity) == Applied && Room(os, m, g)
    && Separated(After(os, m), c) && |After(os, m)| < next
    && (IsAdd(m) ==> m.orderRef !in F.Introduced(sent) && m.orderRef < next)
    && (m.kind == OrderReplace ==> m.newOrderRef !in F.Introduced(sent) && m.newOrderRef < next)
  }

  lemma EmitGood(c: Config, g: Target, next: u64, sent: seq<RtlMsg>, bodies: seq<Bytes>, out: Bytes, m: RtlMsg,
    x: Filler)
    requires Good(c, g, next, sent, bodies, out) && Sendable(c, g, next, sent, m) && FillerOk(x)
    ensures Good(c, g, next, sent + [m], bodies + [Encode(m, x)], out + Frame(Encode(m, x)))
    ensures Run(sent + [m], g.levels, g.capacity) == After(Run(sent, g.levels, g.capacity), m)
  {
    hide Encode, Frame, Framed, Messages, GoodStream, Run, F.Introduced, Deliverable, Decode, Carried, Outcome,
      ConfigOk, TargetOk, Separated;
    var body := Encode(m, x);
    DecodeEncode(m, x);
    GoodSnoc(sent, m, c, g);
    FramedSnoc(bodies, body);
    var os := Run(sent, g.levels, g.capacity);
    forall r | r in After(os, m) ensures r < next { AfterKeys(os, m, r); }
    hide After;
  }

  lemma AfterKeys(os: Orders, m: RtlMsg, r: u64)
    requires r in After(os, m)
    ensures r in os || (IsAdd(m) && r == m.orderRef) || (m.kind == OrderReplace && r == m.newOrderRef)
  {}

  /** Taking the next reference leaves it unused by anything sent. */
  lemma TakeRef(c: Config, g: Target, next: u64, sent: seq<RtlMsg>, bodies: seq<Bytes>, out: Bytes)
    requires Good(c, g, next, sent, bodies, out) && next <= g.most
    ensures Good(c, g, next + 1, sent, bodies, out)
    ensures next !in F.Introduced(sent) && next !in Run(sent, g.levels, g.capacity) && next > 0
    ensures |Run(sent, g.levels, g.capacity)| < next
  {
    hide GoodStream, Run, F.Introduced, Framed, Messages, ConfigOk, Separated;
  }

  lemma AddSendable(c: Config, g: Target, next: u64, sent: seq<RtlMsg>, bodies: seq<Bytes>, out: Bytes, m: RtlMsg)
    requires Good(c, g, next, sent, bodies, out) && next <= g.most && IsAdd(m) && m.orderRef == next && Carried(m) == m
    requires OwnSide(Order(m.price, m.shares, m.locate, m.side), c)
    ensures Sendable(c, g, next + 1, sent, m)
  {
    hide GoodStream, Run, F.Introduced, Framed, Messages, Outcome, OwnSide, AtMost, ConfigOk;
    AddAccepted(Run(sent, g.levels, g.capacity), m, c, g);
  }

  lemma ReplaceSendable(c: Config, g: Target, next: u64, sent: seq<RtlMsg>, bodies: seq<Bytes>, out: Bytes, m: RtlMsg)
    requires Good(c, g, next, sent, bodies, out) && next <= g.most && m.kind == OrderReplace &&
      m.newOrderRef == next && Carried(m) == m
    requires var os := Run(sent, g.levels, g.capacity);
      m.orderRef in os && OwnSide(Order(m.price, m.shares, os[m.orderRef].locate, os[m.orderRef].side), c)
    ensures Sendable(c, g, next + 1, sent, m)
  {
    hide GoodStream, Run, F.Introduced, Framed, Messages, Outcome, OwnSide, AtMost, ConfigOk;
    ReplaceAccepted(Run(sent, g.levels, g.capacity), m, c, g);
  }

  lemma ReduceSendable(c: Config, g: Target, next: u64, sent: seq<RtlMsg>, bodies: seq<Bytes>, out: Bytes, m: RtlMsg)
    requires Good(c, g, next, sent, bodies, out) && next <= g.most && Carried(m) == m
    requires var os := Run(sent, g.levels, g.capacity);
      m.orderRef in os && ((IsReduce(m) && 0 < m.shares <= os[m.orderRef].shares) || m.kind == OrderDelete)
    ensures Sendable(c, g, next, sent, m)
    ensures var os := Run(sent, g.levels, g.capacity);
      After(os, m) == if m.kind == OrderDelete || m.shares == os[m.orderRef].shares then os - {m.orderRef}
        else os[m.orderRef := os[m.orderRef].(shares := os[m.orderRef].shares - m.shares)]
  {
    hide GoodStream, Run, F.Introduced, Framed, Messages, Outcome, OwnSide, AtMost, ConfigOk;
    ReduceAccepted(Run(sent, g.levels, g.capacity), m, c, g);
  }

  lemma QuietSendable(c: Config, g: Target, next: u64, sent: seq<RtlMsg>, bodies: seq<Bytes>, out: Bytes, m: RtlMsg)
    requires Good(c, g, next, sent, bodies, out) && m.kind in {Trade, SystemEvent} && Carried(m) == m
    ensures Sendable(c, g, next, sent, m) && After(Run(sent, g.levels, g.capacity), m) ==
      Run(sent, g.levels, g.capacity)
  {
    hide GoodStream, Run, F.Introduced, Framed, Messages, OwnSide, AtMost, ConfigOk, TargetOk, Separated;
  }

  /** The live order at an index of the mirrored set. */
  lemma LiveFacts(c: Config, g: Target, next: u64, sent: seq<RtlMsg>, bodies: seq<Bytes>, out: Bytes,
    live: seq<LiveOrder>, i: nat)
    requires Good(c, g, next, sent, bodies, out) && Mirrors(live, Run(sent, g.levels, g.capacity)) && i < |live|
    ensures var os := Run(sent, g.levels, g.capacity);
      live[i].ref in os && os[live[i].ref] == live[i].order && OwnSide(live[i].order, c)
  {
    hide GoodStream, Run, F.Introduced, Framed, Messages, OwnSide, AtMost, ConfigOk, TargetOk;
  }

  lemma GoodConfig(c: Config, g: Target, next: u64, sent: seq<RtlMsg>, bodies: seq<Bytes>, out: Bytes)
    requires Good(c, g, next, sent, bodies, out)
    ensures ConfigOk(c) && TargetOk(c, g)
  {}

  function Limited(price: int, low: u32, high: u32): u32
    requires low <= high
  {
    if price < low then low else if price > high then high else price
  }

  // ---- the generator --------------------------------------------------------------------------------------

  class ItchGenerator {
    const cfg: Config
    const rng: nat -> u64
    var drawn: nat
    var live: seq<LiveOrder>
    var nextRef: u64
    var matchNo: u64
    var ts: u64
    var track: u16
    var out: Bytes
    ghost const target: Target
    ghost var sent: seq<RtlMsg>
    ghost var bodies: seq<Bytes>

    /** The book that replays everything sent so far. */
    ghost function Book(): Orders
      reads this
    {
      Run(sent, target.levels, target.capacity)
    }

    ghost predicate Streams()
      reads this
    {
      Good(cfg, target, nextRef, sent, bodies, out)
    }

    /** Between steps the live set is the book's. */
    ghost predicate Valid()
      reads this
    {
      Streams() && Mirrors(live, Book())
    }

    /** One step sent exactly one more message. */
    twostate predicate Sent1()
      reads this
    {
      |sent| == old(|sent|) + 1 && old(sent) <= sent
    }

    constructor (cfg: Config, rng: nat -> u64, ghost target: Target)
      requires ConfigOk(cfg) && TargetOk(cfg, target)
      ensures Valid() && this.cfg == cfg && this.target == target && sent == [] && nextRef == 1
    {
      this.cfg, this.rng, this.target := cfg, rng, target;
      drawn, live, nextRef, matchNo, ts, track, out := 0, [], 1, 1, 34200000000000, 0, [];
      sent, bodies := [], [];
    }

    method Draw(below: nat) returns (x: nat)
      requires below > 0
      modifies this`drawn
      ensures x < below
    {
      x := rng(drawn) % below;
      drawn := drawn + 1;
    }

    /** Distance from the mid: the smaller of two draws, so most orders rest near the touch. */
    method RandPrice(sym: nat, side: char) returns (p: u32)
      requires ConfigOk(cfg) && sym < |cfg.mids| && ValidSide(side)
      modifies this`drawn
      ensures 0 < p <= cfg.maxPrice && if side == SIDE_BUY then p < cfg.mids[sym] else p > cfg.mids[sym]
    {
      var a := Draw(cfg.bandTicks);
      var b := Draw(cfg.bandTicks);
      var k := 1 + if b < a then b else a;
      SmallerStep(k, cfg);
      hide Reach;
      var distance: int := k * cfg.tick;
      var mid: int := cfg.mids[sym];
      p := Limited(if side == SIDE_BUY then mid - distance else mid + distance, cfg.minPrice, cfg.maxPrice);
    }

    /** Appends one framed message. */
    method Emit(m: RtlMsg, matched: bool, event: u8)
      requires Streams() && Sendable(cfg, target, nextRef, sent, m)
      modifies this`out, this`track, this`matchNo, this`sent, this`bodies
      ensures Streams() && sent == old(sent) + [m] && Book() == After(old(Book()), m)
    {
      var digit := (0x30 + m.locate) % 0x100;
      var x := Filler(track, [0x53, 0x59, 0x4D, digit, 0x20, 0x20, 0x20, 0x20], matchNo, [0x4D, 0x4D, 0x30, digit],
        event);
      assert m.kind != Unknown;
      var body := Encode(m, x);
      EmitGood(cfg, target, nextRef, sent, bodies, out, m, x);
      hide Encode, Frame, Good, Sendable, After, Run;
      out := out + Frame(body);
      track := (track + 1) % 0x1_0000;
      if matched { matchNo := (matchNo + 1) % WRAP64; }
      bodies, sent := bodies + [body], sent + [m];
    }

    /** Timestamps are written six bytes wide. */
    function Stamp(): u64
      reads this
    {
      ts % 0x1_0000_0000_0000
    }

    method EmitSystem(event: char)
      requires event as int < 0x100
      requires Valid()
      modifies this
      ensures Valid() && nextRef == old(nextRef) && Sent1()
    {
      hide Good, Sendable, After, Run, Mirrors, Removed, Reach, TargetOk, Room;
      GoodConfig(cfg, target, nextRef, sent, bodies, out);
      var m := NO_MESSAGE.(kind := SystemEvent, timestamp := Stamp());
      QuietSendable(cfg, target, nextRef, sent, bodies, out, m);
      Emit(m, false, event as int);
    }

    /** A new order of a random symbol, side, price and size. */
    method EmitAdd(mpid: bool)
      requires Valid() && nextRef <= target.most
      modifies this
      ensures Valid() && nextRef == old(nextRef) + 1 && Sent1()
    {
      hide Good, Sendable, After, Run, Mirrors, Removed, Reach, TargetOk, Room;
      GoodConfig(cfg, target, nextRef, sent, bodies, out);
      var sym := Draw(|cfg.mids|);
      var odd := Draw(2);
      var side := if odd == 1 then SIDE_BUY else SIDE_SELL;
      var price := RandPrice(sym, side);
      var less := Draw(cfg.maxShares);
      var ref, order := nextRef, Order(price, 1 + less, sym + 1, side);
      var m := NO_MESSAGE.(kind := if mpid then AddOrderMpid else AddOrder, locate := order.locate,
        timestamp := Stamp(), orderRef := ref, side := side, shares := order.shares, price := price);
      AddSendable(cfg, target, nextRef, sent, bodies, out, m);
      TakeRef(cfg, target, nextRef, sent, bodies, out);
      AddMirrors(live, Book(), m);
      nextRef := nextRef + 1;
      Emit(m, false, 0);
      live := live + [LiveOrder(ref, order)];
    }

    /** Sends a reduction of a live order and takes it from the live set. */
    method Reduce(i: nat, m: RtlMsg, matched: bool)
      requires Valid() && nextRef <= target.most && i < |live| && Carried(m) == m && m.orderRef == live[i].ref
      requires IsReduce(m) && 0 < m.shares <= live[i].order.shares
      modifies this`out, this`track, this`matchNo, this`sent, this`bodies, this`live
      ensures Valid() && Sent1()
    {
      hide Good, Sendable, After, Run, Mirrors, Removed, Reach, TargetOk, Room;
      GoodConfig(cfg, target, nextRef, sent, bodies, out);
      LiveFacts(cfg, target, nextRef, sent, bodies, out, live, i);
      ReduceSendable(cfg, target, nextRef, sent, bodies, out, m);
      ReduceMirrors(live, Book(), i, m);
      Emit(m, matched, 0);
      var x := live[i];
      if x.order.shares == m.shares {
        live := Removed(live, i);
      } else {
        live := live[i := x.(order := x.order.(shares := x.order.shares - m.shares))];
      }
    }

    /** Executes between one share and the whole of a live order. */
    method ExecAt(i: nat, withPrice: bool)
      requires Valid() && nextRef <= target.most && i < |live|
      modifies this
      ensures Valid() && nextRef == old(nextRef) && Sent1()
    {
      hide Good, Sendable, After, Run, Mirrors, Removed, Reach, TargetOk, Room;
      GoodConfig(cfg, target, nextRef, sent, bodies, out);
      LiveFacts(cfg, target, nextRef, sent, bodies, out, live, i);
      var x := live[i];
      var less := Draw(x.order.shares);
      var m := NO_MESSAGE.(kind := OrderExecuted, locate := x.order.locate, timestamp := Stamp(), orderRef := x.ref,
        shares := 1 + less);
      if withPrice { m := m.(kind := OrderExecutedPrice, printable := true, price := x.order.price); }
      Reduce(i, m, true);
    }

    method EmitExecute(withPrice: bool)
      requires Valid() && nextRef <= target.most
      modifies this
      ensures Valid() && old(nextRef) <= nextRef <= old(nextRef) + 1 && Sent1()
    {
      hide Good, Sendable, After, Run, Mirrors, Removed, Reach, TargetOk, Room;
      GoodConfig(cfg, target, nextRef, sent, bodies, out);
      if live == [] {
        EmitAdd(false);
      } else {
        var i := Draw(|live|);
        ExecAt(i, withPrice);
      }
    }

    method EmitCancel()
      requires Valid() && nextRef <= target.most
      modifies this
      ensures Valid() && old(nextRef) <= nextRef <= old(nextRef) + 1 && Sent1()
    {
      hide Good, Sendable, After, Run, Mirrors, Removed, Reach, TargetOk, Room;
      GoodConfig(cfg, target, nextRef, sent, bodies, out);
      if live == [] {
        EmitAdd(false);
      } else {
        var i := Draw(|live|);
        LiveFacts(cfg, target, nextRef, sent, bodies, out, live, i);
        var x := live[i];
        var less := Draw(x.order.shares);
        var m := NO_MESSAGE.(kind := OrderCancel, locate := x.order.locate, timestamp := Stamp(), orderRef := x.ref,
          shares := 1 + less);
        Reduce(i, m, false);
      }
    }

    method EmitDelete()
      requires Valid() && nextRef <= target.most
      modifies this
      ensures Valid() && old(nextRef) <= nextRef <= old(nextRef) + 1 && Sent1()
    {
      hide Good, Sendable, After, Run, Mirrors, Removed, Reach, TargetOk, Room;
      GoodConfig(cfg, target, nextRef, sent, bodies, out);
      if live == [] {
        EmitAdd(false);
      } else {
        var i := Draw(|live|);
        var x := live[i];
        var m := NO_MESSAGE.(kind := OrderDelete, locate := x.order.locate, timestamp := Stamp(), orderRef := x.ref);
        LiveFacts(cfg, target, nextRef, sent, bodies, out, live, i);
        ReduceSendable(cfg, target, nextRef, sent, bodies, out, m);
        DeleteMirrors(live, Book(), i, m);
        Emit(m, false, 0);
        live := Removed(live, i);
      }
    }

    /** The replacement rests on the same side, at a fresh price and size, under the next reference. */
    method EmitReplace()
      requires Valid() && nextRef <= target.most
      modifies this
      ensures Valid() && nextRef == old(nextRef) + 1 && Sent1()
    {
      hide Good, Sendable, After, Run, Mirrors, Removed, Reach, TargetOk, Room;
      GoodConfig(cfg, target, nextRef, sent, bodies, out);
      if live == [] {
        EmitAdd(false);
      } else {
        var i := Draw(|live|);
        LiveFacts(cfg, target, nextRef, sent, bodies, out, live, i);
        var x := live[i];
        var price := RandPrice(x.order.locate - 1, x.order.side);
        var less := Draw(cfg.maxShares);
        var ref, order := nextRef, x.order.(price := price, shares := 1 + less);
        var m := NO_MESSAGE.(kind := OrderReplace, locate := order.locate, timestamp := Stamp(), orderRef := x.ref,
          newOrderRef := ref, shares := order.shares, price := price);
        ReplaceSendable(cfg, target, nextRef, sent, bodies, out, m);
        TakeRef(cfg, target, nextRef, sent, bodies, out);
        ReplaceMirrors(live, Book(), i, m, LiveOrder(ref, order));
        nextRef := nextRef + 1;
        Emit(m, false, 0);
        live := live[i := LiveOrder(ref, order)];
      }
    }

    /** A trade of hidden interest: no order is touched. */
    method EmitTrade()
      requires Valid()
      modifies this
      ensures Valid() && nextRef == old(nextRef) && Sent1()
    {
      hide Good, Sendable, After, Run, Mirrors, Removed, Reach, TargetOk, Room;
      GoodConfig(cfg, target, nextRef, sent, bodies, out);
      var sym := Draw(|cfg.mids|);
      var odd := Draw(2);
      var side := if odd == 1 then SIDE_BUY else SIDE_SELL;
      var price := RandPrice(sym, side);
      var less := Draw(cfg.maxShares);
      var m := NO_MESSAGE.(kind := Trade, locate := sym + 1, timestamp := Stamp(), side := side, shares := 1 + less,
        price := price);
      QuietSendable(cfg, target, nextRef, sent, bodies, out, m);
      Emit(m, true, 0);
    }

    /** On the same side of the same symbol, a stands before b in price-time priority. */
    predicate Beats(a: LiveOrder, b: LiveOrder) {
      && a.order.locate == b.order.locate && a.order.side == b.order.side
      && if a.order.price == b.order.price then a.ref < b.ref
         else if b.order.side == SIDE_BUY then a.order.price > b.order.price else a.order.price < b.order.price
    }

    /** The first order of one side of one symbol, or -1 when it is empty. */
    method FindTouch(locate: u16, side: char) returns (best: int)
      ensures best < 0 <==> forall i :: 0 <= i < |live| ==>
        !(live[i].order.locate == locate && live[i].order.side == side)
      ensures best >= 0 ==>
        && best < |live| && live[best].order.locate == locate && live[best].order.side == side
        && (forall i :: 0 <= i < |live| && live[i].order.locate == locate && live[i].order.side == side ==>
          var x, first := live[i], live[best];
          && (if side == SIDE_BUY then x.order.price <= first.order.price else x.order.price >= first.order.price)
          && (x.order.price == first.order.price ==> x.ref >= first.ref))
    {
      best := -1;
      for i := 0 to |live|
        invariant -1 <= best < i
        invariant best < 0 <==> forall k :: 0 <= k < i ==>
          !(live[k].order.locate == locate && live[k].order.side == side)
        invariant best >= 0 ==>
          && live[best].order.locate == locate && live[best].order.side == side
          && (forall k :: 0 <= k < i ==> !Beats(live[k], live[best]))
      {
        if live[i].order.locate == locate && live[i].order.side == side {
          if best < 0 || Beats(live[i], live[best]) { best := i; }
        }
      }
    }

    /** Executes the order at the touch, front of its queue first. */
    method EmitSweep()
      requires Valid() && nextRef <= target.most
      modifies this
      ensures Valid() && old(nextRef) <= nextRef <= old(nextRef) + 1 && Sent1()
    {
      hide Good, Sendable, After, Run, Mirrors, Removed, Reach, TargetOk, Room;
      GoodConfig(cfg, target, nextRef, sent, bodies, out);
      var sym := Draw(|cfg.mids|);
      var odd := Draw(2);
      var best := FindTouch(sym + 1, if odd == 1 then SIDE_BUY else SIDE_SELL);
      if best < 0 { EmitAdd(false); } else { ExecAt(best, false); }
    }

    /** One message, of a kind drawn at random. */
    method Step()
      requires Valid() && nextRef <= target.most
      modifies this
      ensures Valid() && old(nextRef) <= nextRef <= old(nextRef) + 1 && Sent1()
    {
      hide Good, Sendable, After, Run, Mirrors, Removed, Reach, TargetOk, Room;
      GoodConfig(cfg, target, nextRef, sent, bodies, out);
      var tick := Draw(50);
      ts := (ts + (1 + tick) * cfg.tsScale) % WRAP64;
      if cfg.aggressProb > 0 {
        var percent := Draw(100);
        if percent < cfg.aggressProb {
          EmitSweep();
          return;
        }
      }
      var roll := Draw(100);
      if |live| < 16 || roll < 45 { EmitAdd(roll % 7 == 0); }
      else if roll < 62 { EmitExecute(roll % 5 == 0); }
      else if roll < 74 { EmitCancel(); }
      else if roll < 86 { EmitDelete(); }
      else if roll < 96 { EmitReplace(); }
      else { EmitTrade(); }
    }

    /** The bytes hold the messages sent. */
    lemma BytesRead()
      requires Streams()
      ensures Messages(Frames(out)) == sent
    {
      FramesOfFramed(bodies, []);
      assert Framed(bodies) + [] == Framed(bodies) && bodies + Frames([]) == bodies;
    }

    lemma GoodIn(cap: nat)
      requires Valid() && target.capacity <= cap
      ensures GoodStream(sent, cfg, target.(capacity := cap)) && Run(sent, target.levels, cap) == Book()
      ensures Mirrors(live, Book()) && Separated(Book(), cfg) && ConfigOk(cfg)
    {
      GoodAtLarger(sent, cfg, target, cap);
    }

    /** n messages between the session events, for every random sequence; references are fresh
        and every arrival carries shares. */
    method Generate(n: nat)
      requires Valid() && sent == [] && nextRef == 1 && n <= target.most
      modifies this
      ensures Valid() && |sent| == n + 4 && Messages(Frames(out)) == sent
      ensures F.FreshRefs(sent) && forall m :: m in sent && (IsAdd(m) || m.kind == OrderReplace) ==> m.shares > 0
    {
      EmitSystem('O');
      EmitSystem('Q');
      for i := 0 to n
        invariant Valid() && nextRef <= i + 1 && |sent| == i + 2
      {
        Step();
      }
      EmitSystem('M');
      EmitSystem('C');
      BytesRead();
      GoodIsFresh(sent, cfg, target);
    }
  }

  /** Every best bid lies below its symbol's mid, every best ask above. */
  ghost predicate Uncrossed(e: E.BookEngine, c: Config)
    reads e, e.Repr
  {
    forall loc :: loc in e.books && 1 <= loc <= |c.mids| ==>
      && e.books[loc] in e.Repr && e.books[loc].bestBid < c.mids[loc - 1]
      && (e.books[loc].bestAsk > 0 ==> c.mids[loc - 1] < e.books[loc].bestAsk)
  }

  /** A displayed level is some live order's. */
  lemma LevelHasOrder(e: E.BookEngine, loc: u16, side: char, price: nat) returns (r: u64)
    requires e.Valid() && loc in e.books && ValidSide(side) && price < e.books[loc].levels
    requires e.books[loc].LevelAt(side, price).shares > 0
    ensures r in e.Orders() && Rests(e.Orders()[r], loc, side, price)
  {
    hide T.OrderRefTable.Valid, WellFormed;
    assert e.BookOk(loc, e.Orders());
    assert e.books[loc].LevelAt(side, price).shares == Shares(e.Orders(), loc, side, price);
    r := SumPositive(e.Orders(), SharesAt(loc, side, price));
  }

  lemma BookUncrossed(e: E.BookEngine, c: Config)
    requires e.Valid() && Separated(e.Orders(), c) && ConfigOk(c)
    ensures Uncrossed(e, c)
  {
    hide T.OrderRefTable.Valid, WellFormed, E.Shows;
    forall loc | loc in e.books && 1 <= loc <= |c.mids|
      ensures e.books[loc].bestBid < c.mids[loc - 1]
      ensures e.books[loc].bestAsk > 0 ==> c.mids[loc - 1] < e.books[loc].bestAsk
    {
      var b := e.books[loc];
      assert e.BookOk(loc, e.Orders());
      if b.bestBid > 0 { var _ := LevelHasOrder(e, loc, SIDE_BUY, b.bestBid); }
      if b.bestAsk > 0 { var _ := LevelHasOrder(e, loc, SIDE_SELL, b.bestAsk); }
    }
  }

  /** Replays the bytes of a generator into a new book with any hash: every message is applied,
      and the book ends uncrossed with exactly the generator's live orders. */
  method Replay(gen: ItchGenerator, levels: u32, capacity: nat, hash: u64 -> nat)
    returns (e: E.BookEngine, applied: nat)
    requires gen.Valid() && gen.target.levels == levels && gen.target.capacity == capacity <= 0x8000_0000
    ensures e.Valid() && e.Orders() == gen.Book() && Mirrors(gen.live, e.Orders())
    ensures applied == |gen.sent| == |Messages(Frames(gen.out))| && Uncrossed(e, gen.cfg)
  {
    hide E.BookEngine.Valid, GoodStream, Outcome, Step, Erases, Frames, Messages, Good, Mirrors,
      Separated, ConfigOk, Uncrossed, TargetOk;
    gen.BytesRead();
    var ms := Messages(Frames(gen.out));
    e := new E.BookEngine(levels, capacity, hash);
    applied := 0;
    ghost var g := gen.target.(capacity := e.refs.cap);
    gen.GoodIn(e.refs.cap);
    for i := 0 to |ms|
      invariant e.Valid() && fresh(e) && fresh(e.Repr) && e.priceLevels == levels && e.refs.cap == g.capacity
      invariant e.Orders() == Run(ms[..i], levels, g.capacity) && applied == i
    {
      GoodAt(ms, i, gen.cfg, g);
      assert ms[..i + 1][..i] == ms[..i];
      var _ := e.Apply(ms[i]);
      if e.lastStatus == Applied { applied := applied + 1; }
    }
    assert ms[..|ms|] == ms;
    BookUncrossed(e, gen.cfg);
  }
}
