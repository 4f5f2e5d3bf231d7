/** The simulation's golden book: ordered maps of levels, updated message by message. */
module RefModel {
  import opened Itch
  import opened LiveOrders
  import opened BookSpec
  import opened RtlSpec
  import opened Wire

  /** A level that counts more than its live orders can fall below zero later on. */
  datatype Level = Level(shares: int, count: nat)

  type Levels = map<u32, Level>

  /** A side's levels are exactly the live orders' sums; no empty level stays behind. */
  ghost predicate SideExact(levels: Levels, os: Orders, side: char) {
    && (forall p :: p in levels <==> 0 <= p < WRAP32 && LevelShares(os, side, p) > 0)
    && (forall p :: p in levels ==> levels[p] == Level(LevelShares(os, side, p), LevelCount(os, side, p)))
  }

  ghost predicate AllPositive(os: Orders) {
    forall r :: r in os ==> os[r].shares > 0 && ValidSide(os[r].side)
  }

  /** The arrival's reference is not live when it comes to rest, and it carries shares. */
  predicate Fresh(os: Orders, m: RtlMsg) {
    if IsAdd(m) then m.orderRef !in os && m.shares > 0
    else if m.kind == OrderReplace && m.orderRef in os then m.newOrderRef !in os - {m.orderRef} && m.shares > 0
    else true
  }

  /** Levels after an order entered, or shares left and perhaps an order with them. */
  function Entered(levels: Levels, price: u32, shares: u32): Levels {
    var l := if price in levels then levels[price] else Level(0, 0);
    levels[price := Level(l.shares + shares, l.count + 1)]
  }

  lemma EnteredExact(levels: Levels, os: Orders, os': Orders, side: char, price: u32, shares: u32)
    requires SideExact(levels, os, side) && Shift(os, os', side, price, shares, 1) && shares > 0 && AllPositive(os)
    ensures SideExact(Entered(levels, price, shares), os', side)
  {
    var levels' := Entered(levels, price, shares);
    if price !in levels { EmptyHasNone(os, side, price); }
    forall p ensures p in levels' <==> 0 <= p < WRAP32 && LevelShares(os', side, p) > 0 {
      assert p == price || (p in levels' <==> p in levels);
      if 0 <= p { assert LevelShares(os', side, p) >= LevelShares(os, side, p); }
    }
  }

  lemma EmptyHasNone(os: Orders, side: char, price: nat)
    requires AllPositive(os) && LevelShares(os, side, price) == 0
    ensures LevelCount(os, side, price) == 0
  {
    forall r | r in os ensures OneIf(os[r], side, price) == 0 {
      SumBounds(os, LevelW(side, price), r);
    }
    SumZero(os, LevelNW(side, price));
  }

  /** Levels after `amt` shares left a level; an emptied level is erased. */
  function Left(levels: Levels, price: u32, amt: u32, gone: bool): Levels
    requires price in levels
  {
    var was := levels[price];
    var l := Level(was.shares - amt, if gone && was.count > 0 then was.count - 1 else was.count);
    if gone && l.shares == 0 then levels - {price} else levels[price := l]
  }

  lemma LeftExact(levels: Levels, os: Orders, os': Orders, side: char, price: u32, amt: u32, gone: bool)
    requires SideExact(levels, os, side) && Shift(os, os', side, price, -(amt as int), if gone then -1 else 0)
    requires LevelShares(os, side, price) > 0 && LevelCount(os, side, price) > 0
    requires amt <= LevelShares(os, side, price) && (!gone ==> LevelShares(os', side, price) > 0)
    ensures SideExact(Left(levels, price, amt, gone), os', side)
  {
    var levels' := Left(levels, price, amt, gone);
    assert LevelShares(os', side, price) == LevelShares(os, side, price) - amt;
    forall p ensures p in levels' <==> 0 <= p < WRAP32 && LevelShares(os', side, p) > 0 {
      if 0 <= p && p != price { assert LevelShares(os', side, p) == LevelShares(os, side, p); }
    }
  }

  lemma OtherExact(levels: Levels, os: Orders, os': Orders, side: char, d: char, price: nat, x: int, y: int)
    requires SideExact(levels, os, side) && Shift(os, os', d, price, x, y) && d != side
    ensures SideExact(levels, os', side)
  {
    forall p | 0 <= p ensures LevelShares(os', side, p) == LevelShares(os, side, p) &&
      LevelCount(os', side, p) == LevelCount(os, side, p) {}
  }

  // ---- both sides together ------------------------------------------------------------------

  datatype Tables = Tables(bids: Levels, asks: Levels, totBid: int, totAsk: int)

  ghost predicate Holds(t: Tables, os: Orders) {
    && AllPositive(os) && SideExact(t.bids, os, SIDE_BUY) && SideExact(t.asks, os, SIDE_SELL)
    && t.totBid == SideVolume(os, SIDE_BUY) && t.totAsk == SideVolume(os, SIDE_SELL)
  }

  function Of(t: Tables, side: char): Levels {
    if side == SIDE_BUY then t.bids else t.asks
  }

  function Put(t: Tables, side: char, levels: Levels, shares: int): Tables {
    if side == SIDE_BUY then t.(bids := levels, totBid := t.totBid + shares)
    else t.(asks := levels, totAsk := t.totAsk + shares)
  }

  lemma AddHolds(t: Tables, os: Orders, ref: u64, o: Order)
    requires Holds(t, os) && ref !in os && o.shares > 0 && ValidSide(o.side)
    ensures Holds(Put(t, o.side, Entered(Of(t, o.side), o.price, o.shares), o.shares), os[ref := o])
  {
    var os' := os[ref := o];
    PutShift(os, ref, o);
    EnteredExact(Of(t, o.side), os, os', o.side, o.price, o.shares);
    assert AllPositive(os');
    hide Shift, SideExact, Entered, AllPositive, LevelShares, LevelCount, SideVolume;
    if o.side == SIDE_BUY {
      OtherExact(t.asks, os, os', SIDE_SELL, SIDE_BUY, o.price, o.shares, 1);
    } else {
      OtherExact(t.bids, os, os', SIDE_BUY, SIDE_SELL, o.price, o.shares, 1);
    }
    Volumes(os, os', o.side, o.price, o.shares, 1);
  }

  /** A live order's level is there and covers it; what remains of it keeps its level. */
  lemma LiveLevel(t: Tables, os: Orders, ref: u64, qty: u32)
    requires Holds(t, os) && ref in os && qty <= os[ref].shares
    ensures var o := os[ref];
      var levels := Of(t, o.side);
      && o.price in levels && LevelShares(os, o.side, o.price) >= o.shares && LevelCount(os, o.side, o.price) > 0
      && levels[o.price] == Level(LevelShares(os, o.side, o.price), LevelCount(os, o.side, o.price))
      && (qty < o.shares ==> LevelShares(Less(os, ref, qty), o.side, o.price) > 0)
  {
    var o := os[ref];
    SumBounds(os, LevelW(o.side, o.price), ref);
    SumBounds(os, LevelNW(o.side, o.price), ref);
    if qty < o.shares {
      SumBounds(Less(os, ref, qty), LevelW(o.side, o.price), ref);
    }
  }

  lemma TakeHolds(t: Tables, os: Orders, ref: u64, qty: u32)
    requires Holds(t, os) && ref in os && qty <= os[ref].shares
    ensures var o := os[ref];
      o.price in Of(t, o.side) &&
      Holds(Put(t, o.side, Left(Of(t, o.side), o.price, qty, qty == o.shares), -(qty as int)), Less(os, ref, qty))
  {
    hide Left, Less;
    var o, os' := os[ref], Less(os, ref, qty);
    var gone := qty == o.shares;
    LessShift(os, ref, qty);
    LiveLevel(t, os, ref, qty);
    StaysPositive(os, ref, qty);
    hide Shift, SideExact, AllPositive, LevelShares, LevelCount, SideVolume;
    LeftExact(Of(t, o.side), os, os', o.side, o.price, qty, gone);
    if o.side == SIDE_BUY {
      OtherExact(t.asks, os, os', SIDE_SELL, SIDE_BUY, o.price, -(qty as int), if gone then -1 else 0);
    } else {
      OtherExact(t.bids, os, os', SIDE_BUY, SIDE_SELL, o.price, -(qty as int), if gone then -1 else 0);
    }
    Volumes(os, os', o.side, o.price, -(qty as int), if gone then -1 else 0);
  }

  lemma StaysPositive(os: Orders, ref: u64, qty: u32)
    requires AllPositive(os) && ref in os && qty <= os[ref].shares
    ensures AllPositive(Less(os, ref, qty))
  {}

  lemma Volumes(os: Orders, os': Orders, side: char, price: nat, x: int, y: int)
    requires Shift(os, os', side, price, x, y)
    ensures forall s :: SideVolume(os', s) == SideVolume(os, s) + if s == side then x else 0
  {}

  /** An arrival that is not fresh leaves a level that counts shares no live order has. */
  lemma StaleBreaks(t: Tables, os: Orders, ref: u64, o: Order)
    requires Holds(t, os) && ValidSide(o.side) && !(ref !in os && o.shares > 0)
    ensures !Holds(Put(t, o.side, Entered(Of(t, o.side), o.price, o.shares), o.shares), os[ref := o])
  {
    if o.shares > 0 {
      var was := os[ref];
      RemoveShift(os, ref);
      PutShift(os - {ref}, ref, o);
      assert (os - {ref})[ref := o] == os[ref := o];
      hide SideExact, Entered, LevelShares, LevelCount;
      assert SideVolume(os[ref := o], o.side) ==
        SideVolume(os, o.side) - (if was.side == o.side then was.shares else 0) + o.shares;
      assert SideVolume(os[ref := o], was.side) ==
        SideVolume(os, was.side) - was.shares + if was.side == o.side then o.shares else 0;
      assert was.shares > 0 && ValidSide(was.side);
    } else {
      assert os[ref := o][ref].shares == 0;
    }
  }

  // ---- one message, whether or not the levels are exact ---------------------------------------

  datatype Contents = Contents(t: Tables, os: Orders)

  function Added(c: Contents, ref: u64, o: Order): Contents {
    Contents(Put(c.t, o.side, Entered(Of(c.t, o.side), o.price, o.shares), o.shares), c.os[ref := o])
  }

  /** A reduction whose level is missing changes nothing. */
  function Reduced(c: Contents, ref: u64, amt: u32): Contents {
    if ref !in c.os || c.os[ref].price !in Of(c.t, c.os[ref].side) then c
    else
      var o := c.os[ref];
      var qty := Min(amt, o.shares);
      Contents(Put(c.t, o.side, Left(Of(c.t, o.side), o.price, qty, qty == o.shares), -(qty as int)),
        Less(c.os, ref, qty))
  }

  /** A removal drops the order even when its level is missing. */
  function Removed(c: Contents, ref: u64): Contents {
    if ref in c.os && c.os[ref].price in Of(c.t, c.os[ref].side) then Reduced(c, ref, c.os[ref].shares)
    else c.(os := c.os - {ref})
  }

  function Updated(c: Contents, m: RtlMsg): Contents {
    match m.kind
    case AddOrder | AddOrderMpid => Added(c, m.orderRef, Order(m.price, m.shares, m.locate, m.side))
    case OrderExecuted | OrderExecutedPrice | OrderCancel => Reduced(c, m.orderRef, m.shares)
    case OrderDelete => Removed(c, m.orderRef)
    case OrderReplace =>
      if m.orderRef !in c.os then c
      else
        var o := c.os[m.orderRef];
        Added(Removed(c, m.orderRef), m.newOrderRef, Order(m.price, m.shares, o.locate, o.side))
    case Trade | SystemEvent | Unknown => c
  }

  lemma AddedHolds(c: Contents, ref: u64, o: Order)
    requires Holds(c.t, c.os) && ValidSide(o.side)
    ensures Added(c, ref, o).os == c.os[ref := o]
    ensures Holds(Added(c, ref, o).t, Added(c, ref, o).os) <==> ref !in c.os && o.shares > 0
  {
    hide Holds, Entered;
    if ref !in c.os && o.shares > 0 { AddHolds(c.t, c.os, ref, o); } else { StaleBreaks(c.t, c.os, ref, o); }
  }

  lemma ReducedHolds(c: Contents, ref: u64, amt: u32)
    requires Holds(c.t, c.os)
    ensures Holds(Reduced(c, ref, amt).t, Reduced(c, ref, amt).os)
    ensures Reduced(c, ref, amt).os == if ref in c.os then Less(c.os, ref, Min(amt, c.os[ref].shares)) else c.os
  {
    hide Holds, Left;
    if ref in c.os { TakeHolds(c.t, c.os, ref, Min(amt, c.os[ref].shares)); }
  }

  lemma RemovedHolds(c: Contents, ref: u64)
    requires Holds(c.t, c.os)
    ensures Holds(Removed(c, ref).t, Removed(c, ref).os) && Removed(c, ref).os == c.os - {ref}
  {
    hide Holds, Left;
    if ref in c.os {
      TakeHolds(c.t, c.os, ref, c.os[ref].shares);
      ReducedHolds(c, ref, c.os[ref].shares);
    } else {
      assert c.os - {ref} == c.os;
    }
  }

  /** From an exact state the live orders follow the message, and the levels stay exact exactly
      when an arrival is vacant and carries shares. */
  lemma UpdatedHolds(c: Contents, m: RtlMsg)
    requires Holds(c.t, c.os)
    ensures Updated(c, m).os == After(c.os, m)
    ensures Holds(Updated(c, m).t, Updated(c, m).os) <==> Fresh(c.os, m)
  {
    hide Holds, Added, Reduced, Removed;
    var ref := m.orderRef;
    match m.kind {
      case AddOrder | AddOrderMpid => AddedHolds(c, ref, Order(m.price, m.shares, m.locate, m.side));
      case OrderExecuted | OrderExecutedPrice | OrderCancel => ReducedHolds(c, ref, m.shares);
      case OrderDelete =>
        RemovedHolds(c, ref);
        assert ref !in c.os ==> c.os - {ref} == c.os;
      case OrderReplace =>
        if ref in c.os {
          SidesValid(c.t, c.os, ref);
          RemovedHolds(c, ref);
          AddedHolds(Removed(c, ref), m.newOrderRef, Order(m.price, m.shares, c.os[ref].locate, c.os[ref].side));
        }
      case Trade | SystemEvent | Unknown =>
    }
  }

  // ---- the book -------------------------------------------------------------------------------

  class RefBook {
    var bids: Levels
    var asks: Levels
    var orders: Orders
    var totBid: int
    var totAsk: int

    function View(): Tables
      reads this
    {
      Tables(bids, asks, totBid, totAsk)
    }

    /** The levels and totals are exactly those of the live orders. */
    ghost predicate Exact()
      reads this
    {
      Holds(View(), orders)
    }

    constructor ()
      ensures Exact() && orders == map[]
    {
      bids, asks, orders, totBid, totAsk := map[], map[], map[], 0, 0;
    }

    function All(): Contents
      reads this
    {
      Contents(View(), orders)
    }

    method AddOrder(ref: u64, o: Order)
      modifies this
      ensures All() == Added(old(All()), ref, o)
      ensures old(Exact()) && ValidSide(o.side) ==> (Exact() <==> ref !in old(orders) && o.shares > 0)
    {
      hide Holds, Entered;
      if Exact() && ValidSide(o.side) { AddedHolds(All(), ref, o); }
      orders := orders[ref := o];
      if o.side == SIDE_BUY {
        bids, totBid := Entered(bids, o.price, o.shares), totBid + o.shares;
      } else {
        asks, totAsk := Entered(asks, o.price, o.shares), totAsk + o.shares;
      }
    }

    /** Takes up to `amt` shares from an order; nothing when it is not live. */
    method ReduceOrder(ref: u64, amt: u32)
      modifies this
      ensures All() == Reduced(old(All()), ref, amt)
      ensures old(Exact()) ==> Exact() && orders == if ref in old(orders)
        then Less(old(orders), ref, Min(amt, old(orders)[ref].shares)) else old(orders)
    {
      hide Holds, Less, Left;
      if Exact() { ReducedHolds(All(), ref, amt); }
      if ref !in orders { return; }
      var o := orders[ref];
      var qty: u32 := if amt > o.shares then o.shares else amt;
      if o.side == SIDE_BUY {
        if o.price !in bids { return; }
        bids, totBid := Left(bids, o.price, qty, qty == o.shares), totBid - qty;
      } else {
        if o.price !in asks { return; }
        asks, totAsk := Left(asks, o.price, qty, qty == o.shares), totAsk - qty;
      }
      orders := Less(orders, ref, qty);
    }

    method RemoveOrder(ref: u64)
      modifies this
      ensures All() == Removed(old(All()), ref)
      ensures old(Exact()) ==> Exact() && orders == old(orders) - {ref}
    {
      hide Holds, Left;
      if Exact() { RemovedHolds(All(), ref); }
      if ref in orders {
        var o := orders[ref];
        if o.side == SIDE_BUY {
          if o.price in bids { bids, totBid := Left(bids, o.price, o.shares, true), totBid - o.shares; }
        } else {
          if o.price in asks { asks, totAsk := Left(asks, o.price, o.shares, true), totAsk - o.shares; }
        }
      }
      orders := orders - {ref};
    }

    /** One message, in any state. From an exact one the live orders follow it, and the levels
        stay exact exactly when an arrival is vacant and carries shares. */
    method Apply(m: RtlMsg)
      modifies this
      ensures All() == Updated(old(All()), m)
      ensures old(Exact()) ==> orders == After(old(orders), m) && (Exact() <==> Fresh(old(orders), m))
    {
      hide Holds, Added, Reduced, Removed, After, Fresh;
      if Exact() { UpdatedHolds(All(), m); }
      match m.kind {
        case AddOrder | AddOrderMpid => AddOrder(m.orderRef, Order(m.price, m.shares, m.locate, m.side));
        case OrderExecuted | OrderExecutedPrice | OrderCancel => ReduceOrder(m.orderRef, m.shares);
        case OrderDelete => RemoveOrder(m.orderRef);
        case OrderReplace =>
          if m.orderRef in orders {
            var o := orders[m.orderRef];
            RemoveOrder(m.orderRef);
            AddOrder(m.newOrderRef, Order(m.price, m.shares, o.locate, o.side));
          }
        case Trade | SystemEvent | Unknown =>
      }
    }
  }

  /** An Add under a live reference leaves a level that counts the order twice; an Add without
      shares leaves an empty level. */
  method RepeatedArrivals() returns (b: RefBook, c: RefBook)
    ensures !b.Exact() && !c.Exact()
  {
    hide Holds;
    b := new RefBook();
    c := new RefBook();
    b.AddOrder(1, Order(50, 10, 1, SIDE_BUY));
    b.AddOrder(1, Order(50, 10, 1, SIDE_BUY));
    c.AddOrder(1, Order(50, 0, 1, SIDE_BUY));
  }

  lemma SidesValid(t: Tables, os: Orders, ref: u64)
    requires Holds(t, os) && ref in os
    ensures ValidSide(os[ref].side)
  {}

  // ---- the golden decoder -----------------------------------------------------------------------

  /** Bytes read as one number, most significant first. */
  function Value(b: Bytes): nat {
    if b == [] then 0 else Value(b[..|b| - 1]) * 0x100 + b[|b| - 1]
  }

  datatype RefMsg = RefMsg(
    code: u8, isBid: bool, printable: bool, locate: nat, price: nat, shares: nat, orderRef: nat, newOrderRef: nat)

  /** The simulation's own decoding of a body, by byte ranges. */
  function DecodeBody(b: Bytes): RefMsg
    requires Deliverable(b)
  {
    var code: int := b[0];
    var m := RefMsg(b[0], false, false, Value(b[1..3]), 0, 0, 0, 0);
    if code == 'A' as int || code == 'F' as int || code == 'P' as int then
      m.(orderRef := Value(b[13..21]), isBid := b[21] == 'B' as int, shares := Value(b[22..26]),
         price := Value(b[34..38]))
    else if code == 'E' as int || code == 'X' as int then
      m.(orderRef := Value(b[13..21]), shares := Value(b[21..25]))
    else if code == 'C' as int then
      m.(orderRef := Value(b[13..21]), shares := Value(b[21..25]), printable := b[33] == 'Y' as int,
         price := Value(b[34..38]))
    else if code == 'D' as int then m.(orderRef := Value(b[13..21]))
    else if code == 'U' as int then
      m.(orderRef := Value(b[13..21]), newOrderRef := Value(b[21..29]), shares := Value(b[29..33]),
         price := Value(b[33..37]))
    else m
  }

  lemma ValueOne(x: u8)
    ensures Value([x]) == x
  {
    assert [x][..0] == [];
  }

  lemma {:induction false} ValueJoin(a: Bytes, b: Bytes)
    ensures |b| == 0 ==> Value(a + b) == Value(a)
    ensures |b| == 1 ==> Value(a + b) == Value(a) * 0x100 + Value(b)
    ensures |b| == 2 ==> Value(a + b) == Value(a) * 0x1_0000 + Value(b)
    ensures |b| == 4 ==> Value(a + b) == Value(a) * 0x1_0000_0000 + Value(b)
    decreases |b|
  {
    if b == [] {
      assert a + b == a;
    } else {
      var n := |b| - 1;
      assert (a + b)[..|a + b| - 1] == a + b[..n] && (a + b)[|a + b| - 1] == b[n];
      ValueJoin(a, b[..n]);
      if n == 3 {
        ValueJoin(a, b[..2]);
        assert (a + b[..3])[..|a| + 2] == a + b[..2] && b[..3][..2] == b[..2];
      }
    }
  }

  lemma TwoBytes(b: Bytes, k: nat)
    requires k + 2 <= |b|
    ensures Be16(b, k) == Value(b[k..k + 2])
  {
    ValueOne(b[k]);
    assert b[k..k + 2][..1] == [b[k]];
  }

  lemma FourBytes(b: Bytes, k: nat)
    requires k + 4 <= |b|
    ensures Be32(b, k) == Value(b[k..k + 4])
  {
    TwoBytes(b, k);
    TwoBytes(b, k + 2);
    assert b[k..k + 4] == b[k..k + 2] + b[k + 2..k + 4];
    ValueJoin(b[k..k + 2], b[k + 2..k + 4]);
  }

  /** Big-endian fields are the numbers their bytes spell. */
  lemma EightBytes(b: Bytes, k: nat)
    requires k + 8 <= |b|
    ensures Be64(b, k) == Value(b[k..k + 8])
  {
    FourBytes(b, k);
    FourBytes(b, k + 4);
    assert b[k..k + 8] == b[k..k + 4] + b[k + 4..k + 8];
    ValueJoin(b[k..k + 4], b[k + 4..k + 8]);
  }

  /** The hardware decoder and the golden one read the same message from every body that is
      delivered. */
  lemma DecodersAgree(b: Bytes)
    requires Deliverable(b)
    ensures var m, x := Decode(b), DecodeBody(b);
      && m.locate == x.locate && m.price == x.price && m.shares == x.shares && m.orderRef == x.orderRef
      && m.timestamp == Value(b[5..13]) && m.newOrderRef == x.newOrderRef && m.printable == x.printable
      && (m.side == SIDE_BUY <==> x.isBid)
      && m.kind == (
        if x.code == 'A' as int then AddOrder else if x.code == 'F' as int then AddOrderMpid
        else if x.code == 'E' as int then OrderExecuted else if x.code == 'C' as int then OrderExecutedPrice
        else if x.code == 'X' as int then OrderCancel else if x.code == 'D' as int then OrderDelete
        else if x.code == 'U' as int then OrderReplace else if x.code == 'P' as int then Trade else SystemEvent)
  {
    hide Be16, Be32, Be64, Value;
    TwoBytes(b, 1);
    EightBytes(b, 5);
    if |b| >= 21 { EightBytes(b, 13); }
    if |b| >= 25 { FourBytes(b, 21); }
    if |b| >= 37 {
      FourBytes(b, 22);
      FourBytes(b, 29);
      FourBytes(b, 33);
      EightBytes(b, 21);
    }
    if |b| >= 38 { FourBytes(b, 34); }
  }
}
