/** Queue-aware fill simulation for synthetic orders over the replicated book. The overlay
    reads the book and never changes it; it must see each message before the book does. */
module FillEngine {
  import opened Itch
  import opened LiveOrders
  import opened BookSpec
  import opened QueueSpec
  import opened QueueExact
  import opened QueueTheorems
  import opened QueuePriority
  import opened QueueLedger
  import B = OrderBook
  import E = BookEngine

  const OUR_REF_BIT: nat := 0x8000_0000_0000_0000

  /** Displayed levels of one side, empty when the symbol has no book yet. */
  function Displayed(e: E.BookEngine, loc: u16, side: char): seq<B.PriceLevel>
    reads e, if loc in e.books then {e.books[loc]} else {}
  {
    if loc !in e.books then [] else if side == SIDE_BUY then e.books[loc].bid else e.books[loc].ask
  }

  /** Best opposite price: the ask for a buy, the bid for a sell. */
  function Touch(e: E.BookEngine, loc: u16, up: bool): nat
    reads e, if loc in e.books then {e.books[loc]} else {}
  {
    if loc !in e.books then 0 else if up then e.books[loc].bestAsk else e.books[loc].bestBid
  }

  class FillEngine {
    const eng: E.BookEngine
    const locate: u16
    var nextRef: nat
    var nextSeq: nat
    var maxMarketRef: u64
    var open: seq<OpenOrder>
    var fills: seq<FillRec>
    ghost var ledger: Ledger

    function View(): Overlay
      reads this
    {
      Overlay(open, fills)
    }

    /** Arrival order, fresh references, and conservation of every share ever submitted. */
    ghost predicate Valid()
      reads this
    {
      && InOrder(open) && AllLive(open) && UniqueRefs(open)
      && Bounded(open, ledger, nextRef, nextSeq, maxMarketRef) && Conserved(View(), ledger)
    }

    /** Every queue position is exact for the book's live orders, all of which have been seen. */
    ghost predicate Tracks()
      reads this, eng, eng.refs
    {
      Exact(open, eng.Orders(), locate) && forall r :: r in eng.Orders() ==> r <= maxMarketRef
    }

    constructor (eng: E.BookEngine, locate: u16)
      requires eng.Valid()
      ensures Valid() && this !in eng.Repr && this.eng == eng && this.locate == locate && open == [] && fills == []
      ensures maxMarketRef == 0 && nextRef == OUR_REF_BIT + 1 && nextSeq == 0 && ledger == Ledger([], map[], map[])
      ensures eng.Orders() == map[] ==> Tracks()
    {
      this.eng := eng;
      this.locate := locate;
      nextRef := OUR_REF_BIT + 1;
      nextSeq, maxMarketRef := 0, 0;
      open, fills := [], [];
      ledger := Ledger([], map[], map[]);
    }

    /** The buy half of the sweep: ask levels upwards, with the 32-bit price counter. */
    method TakeAsks(b: B.OrderBook, side: char, price: u32, shares: u32, ts: u64, ref: nat) returns (remaining: u32)
      requires side == SIDE_BUY && b.Shape() && b.bestAsk <= U32_MAX
      modifies this`fills
      ensures var taker := Sweep(b.ask, b.bestAsk, price, side, shares, ts, ref);
        fills == old(fills) + taker && remaining == shares - Total(taker)
    {
      hide Total, Sweep;
      remaining := shares;
      var p: u32 := b.bestAsk;
      ghost var all := Sweep(b.ask, p, price, side, shares, ts, ref);
      while remaining > 0 && p != 0 && p <= price
        invariant fills + Sweep(b.ask, p, price, side, remaining, ts, ref) == old(fills) + all
        invariant remaining - Total(Sweep(b.ask, p, price, side, remaining, ts, ref)) == shares - Total(all)
        decreases if p == 0 then 0 else U32_MAX + 1 - p
      {
        var avail := b.SharesAt(SIDE_SELL, p);
        if avail > 0 {
          var f := Min(remaining, avail);
          SweepStep(b.ask, p, price, side, remaining, ts, ref);
          fills := fills + [FillRec(ts, ref, side, p, f, false)];
          remaining := remaining - f;
        } else {
          SweepSkip(b.ask, p, price, side, remaining, ts, ref);
        }
        if p == U32_MAX {
          SweepDone(b.ask, p + 1, price, side, remaining, ts, ref);
          SweepDone(b.ask, 0, price, side, remaining, ts, ref);
        }
        p := (p + 1) % 0x1_0000_0000;
      }
      SweepDone(b.ask, p, price, side, remaining, ts, ref);
    }

    method TakeBids(b: B.OrderBook, side: char, price: u32, shares: u32, ts: u64, ref: nat) returns (remaining: u32)
      requires side != SIDE_BUY && b.Shape() && b.bestBid <= U32_MAX
      modifies this`fills
      ensures var taker := Sweep(b.bid, b.bestBid, price, side, shares, ts, ref);
        fills == old(fills) + taker && remaining == shares - Total(taker)
    {
      hide Total, Sweep;
      remaining := shares;
      var p: u32 := b.bestBid;
      ghost var all := Sweep(b.bid, p, price, side, shares, ts, ref);
      while remaining > 0 && p != 0 && p >= price
        invariant fills + Sweep(b.bid, p, price, side, remaining, ts, ref) == old(fills) + all
        invariant remaining - Total(Sweep(b.bid, p, price, side, remaining, ts, ref)) == shares - Total(all)
      {
        var avail := b.SharesAt(SIDE_BUY, p);
        if avail > 0 {
          var f := Min(remaining, avail);
          SweepStep(b.bid, p, price, side, remaining, ts, ref);
          fills := fills + [FillRec(ts, ref, side, p, f, false)];
          remaining := remaining - f;
        } else {
          SweepSkip(b.bid, p, price, side, remaining, ts, ref);
        }
        p := p - 1;
      }
      SweepDone(b.bid, p, price, side, remaining, ts, ref);
    }

    /** Remaining shares of our own open orders at a level. */
    method OwnAhead(side: char, price: u32) returns (own: nat)
      ensures own == Own(open, |open|, side, price)
    {
      own := 0;
      for i := 0 to |open|
        invariant own == Own(open, i, side, price)
      {
        if open[i].side == side && open[i].price == price { own := own + open[i].remaining; }
      }
    }

    /** The marketable sweep: fills against displayed liquidity that stays in the book. */
    method TakeDisplayed(side: char, price: u32, shares: u32, ts: u64, ref: nat)
      returns (remaining: u32, displayed: u32)
      requires eng.Valid()
      modifies this`fills
      ensures Touch(eng, locate, Up(side)) <= U32_MAX
      ensures var taker := Taker(side, price, shares, ts, ref);
        fills == old(fills) + taker && remaining == shares - Total(taker)
      ensures displayed == At(Displayed(eng, locate, side), price)
    {
      if locate !in eng.books {
        SweepDone([], 0, price, side, shares, ts, ref);
        return shares, 0;
      }
      var b := eng.books[locate];
      assert eng.BookOk(locate, eng.Orders());
      if side == SIDE_BUY {
        remaining := TakeAsks(b, side, price, shares, ts, ref);
      } else {
        remaining := TakeBids(b, side, price, shares, ts, ref);
      }
      displayed := b.SharesAt(side, price);
    }

    ghost function Taker(side: char, price: u32, shares: u32, ts: u64, ref: nat): seq<FillRec>
      requires Touch(eng, locate, Up(side)) <= U32_MAX
      reads this, eng, if locate in eng.books then {eng.books[locate]} else {}
    {
      Sweep(Displayed(eng, locate, Opposite(side)), Touch(eng, locate, Up(side)), price, side, shares, ts, ref)
    }

    /** Sweeps what it crosses, rests the remainder behind everything displayed at its price
        and behind our own earlier orders there. */
    method SubmitLimit(side: char, price: u32, shares: u32, ts: u64) returns (ref: nat)
      requires eng.Valid() && this !in eng.Repr && Valid()
      modifies this
      ensures Valid() && ref == old(nextRef) && nextRef == ref + 1
      ensures Touch(eng, locate, Up(side)) <= U32_MAX
      ensures var taker := Taker(side, price, shares, ts, ref);
        var left := shares - Total(taker);
        && fills == old(fills) + taker && left >= 0
        && open == old(open) + (if left == 0 then [] else [OpenOrder(ref, side, price, left, shares,
            At(Displayed(eng, locate, side), price) + Own(old(open), |old(open)|, side, price),
            maxMarketRef, old(nextSeq))])
      ensures maxMarketRef == old(maxMarketRef)
      ensures nextSeq == old(nextSeq) + |open| - |old(open)|
      ensures ledger == old(ledger).(submitted := old(ledger).submitted[ref := shares])
      ensures old(Tracks()) && ValidSide(side) ==> Tracks()
    {
      hide E.BookEngine.Valid, InOrder, AllLive, UniqueRefs, Bounded, Conserved, Exact, Sweep, Given, Displayed,
        Touch, Own;
      ref := nextRef;
      FilledOnEntry(open, ledger, ref, nextSeq, maxMarketRef, shares);
      nextRef := nextRef + 1;
      ghost var st := View();
      ghost var touch, ls := Touch(eng, locate, Up(side)), Displayed(eng, locate, Opposite(side));
      var remaining, displayed := TakeDisplayed(side, price, shares, ts, ref);
      ghost var taker := Taker(side, price, shares, ts, ref);
      SweepTotal(ls, touch, price, side, shares, ts, ref);
      ghost var rest: seq<OpenOrder> := [];
      if remaining > 0 {
        var own := OwnAhead(side, price);
        var o := OpenOrder(ref, side, price, remaining, shares, displayed + own, maxMarketRef, nextSeq);
        RestInOrder(open, o, ledger, shares);
        RestTracks(eng, locate, open, o);
        rest := [o];
        open := open + [o];
        nextSeq := nextSeq + 1;
      }
      assert open == st.open + rest;
      SubmitConserves(st, ledger, ref, shares, taker, rest);
      ledger := ledger.(submitted := ledger.submitted[ref := shares]);
    }

    method ReduceLater(o: OpenOrder, amount: nat)
      modifies this`open
      ensures open == QueueSpec.ReduceLater(old(open), o, amount)
    {
      ghost var before := open;
      for i := 0 to |open|
        invariant |open| == |before|
        invariant open[..i] == QueueSpec.ReduceLater(before, o, amount)[..i] && open[i..] == before[i..]
      {
        var later := open[i];
        if later.seqNo > o.seqNo && OnLevel(later, o.side, o.price) {
          open := open[i := later.(queueAhead := later.queueAhead - Min(amount, later.queueAhead))];
        }
      }
    }

    method Fill(k: nat, shares: nat, ts: u64)
      requires k < |open| && shares <= open[k].remaining
      modifies this`open, this`fills
      ensures View() == QueueSpec.Fill(old(View()), k, shares, ts)
    {
      if shares == 0 { return; }
      var o := open[k];
      fills := fills + [FillRec(ts, o.ref, o.side, o.price, shares, true)];
      open := open[k := o.(remaining := o.remaining - shares)];
    }

    method EraseFilled()
      modifies this`open
      ensures open == QueueSpec.EraseFilled(old(open))
    {
      var kept: seq<OpenOrder> := [];
      for i := 0 to |open|
        invariant kept == QueueSpec.EraseFilled(open[..i])
      {
        assert open[..i + 1][..i] == open[..i];
        if open[i].remaining != 0 { kept := kept + [open[i]]; }
      }
      assert open[..|open|] == open;
      open := kept;
    }

    /** First pass of an execution: orders that price priority puts before it. */
    method FillSuperior(side: char, price: u32, q: u32, ts: u64)
      modifies this`open, this`fills
      ensures View() == PriceThrough(old(View()), 0, side, price, q, ts)
    {
      var budget: nat := q;
      for k := 0 to |open|
        invariant |open| == |old(open)| && budget <= q
        invariant PriceThrough(View(), k, side, price, budget, ts) == PriceThrough(old(View()), 0, side, price, q, ts)
      {
        var o := open[k];
        if o.side != side || o.remaining == 0 { continue; }
        var superior := if side == SIDE_BUY then o.price > price else o.price < price;
        if !superior { continue; }
        var f := Min(budget, o.remaining);
        Fill(k, f, ts);
        budget := budget - f;
        if f > 0 { ReduceLater(open[k], f); }
      }
    }

    /** Second pass: orders resting at the executed level. */
    method FillAtLevel(r: u64, side: char, price: u32, q: u32, ts: u64)
      modifies this`open, this`fills
      ensures View() == AtLevel(old(View()), 0, r, side, price, q, q, ts)
    {
      var through: nat := q;
      for k := 0 to |open|
        invariant |open| == |old(open)| && through <= q
        invariant AtLevel(View(), k, r, side, price, q, through, ts) ==
          AtLevel(old(View()), 0, r, side, price, q, q, ts)
      {
        var o := open[k];
        if o.side != side || o.price != price || o.remaining == 0 { continue; }
        if r <= o.watermark {
          var take := if q < o.queueAhead then q else o.queueAhead;
          open := open[k := o.(queueAhead := o.queueAhead - take)];
          Fill(k, Min(q - take, o.remaining), ts);
        } else {
          var f := Min(through, o.remaining);
          Fill(k, f, ts);
          through := through - f;
          if f > 0 { ReduceLater(open[k], f); }
        }
      }
    }

    method HandleExec(r: u64, side: char, price: u32, q: u32, ts: u64)
      modifies this`open, this`fills
      ensures View() == QueueSpec.HandleExec(old(View()), r, side, price, q, ts)
      ensures old(fills) <= fills && forall x :: x in fills[|old(fills)|..] ==>
        x.side == side && x.maker && x.ts == ts && if side == SIDE_BUY then x.price >= price else x.price <= price
    {
      FillsInPrices(View(), r, side, price, q, ts);
      hide QueueSpec.HandleExec, PriceThrough, AtLevel;
      ExecIsPasses(View(), r, side, price, q, ts);
      FillSuperior(side, price, q, ts);
      FillAtLevel(r, side, price, q, ts);
      EraseFilled();
    }

    method HandleRemove(r: u64, side: char, price: u32, x: u32)
      modifies this`open
      ensures open == QueueSpec.HandleRemove(old(open), r, side, price, x)
    {
      ghost var before := open;
      for i := 0 to |open|
        invariant |open| == |before|
        invariant open[..i] == QueueSpec.HandleRemove(before, r, side, price, x)[..i] && open[i..] == before[i..]
      {
        var o := open[i];
        if o.side == side && o.price == price && r <= o.watermark {
          open := open[i := o.(queueAhead := o.queueAhead - if x < o.queueAhead then x else o.queueAhead)];
        }
      }
    }

    /** Full cancel of the first open order with the reference; false when there is none. */
    method Cancel(ourRef: nat) returns (ok: bool)
      requires Valid()
      modifies this`open, this`ledger
      ensures Valid() && (old(Tracks()) ==> Tracks())
      ensures var i := IndexOf(old(open), ourRef);
        && (ok <==> i < |old(open)|)
        && open == (if ok then CancelAt(old(open), i) else old(open))
        && ledger == if !ok then old(ledger) else old(ledger).(cancelled :=
            old(ledger).cancelled[ourRef := GetNat(old(ledger).cancelled, ourRef) + old(open)[i].remaining])
    {
      hide InOrder, AllLive, UniqueRefs, Bounded, Conserved, Exact;
      var i := 0;
      while i < |open| && open[i].ref != ourRef
        invariant i <= |open|
        invariant forall j :: 0 <= j < i ==> open[j].ref != ourRef
      {
        i := i + 1;
      }
      assert i == IndexOf(open, ourRef);
      if i == |open| { return false; }
      var o := open[i];
      CancelConserves(View(), ledger, i);
      CancelInOrder(open, i, ledger, nextRef, nextSeq, maxMarketRef, GetNat(ledger.cancelled, ourRef) + o.remaining);
      if Exact(open, eng.Orders(), locate) { CancelExact(open, i, eng.Orders(), locate); }
      open := open[..i] + open[i + 1..];
      ReduceLater(o, o.remaining);
      ledger := ledger.(cancelled := ledger.cancelled[ourRef := GetNat(ledger.cancelled, ourRef) + o.remaining]);
      return true;
    }

    /** The book entry a message names, when it rests on our symbol. */
    method Resting(ref: u64) returns (found: bool, v: Order)
      requires eng.Valid()
      ensures found <==> ref in eng.Orders() && eng.Orders()[ref].locate == locate
      ensures found ==> v == eng.Orders()[ref]
    {
      var idx := eng.refs.FindIndex(ref);
      if idx < 0 { return false, Order(0, 0, 0, 0 as char); }
      v := eng.refs.vals[idx];
      found := v.locate == locate;
    }

    /** A market message, seen before the book applies it. */
    method OnMarketMessage(m: Message)
      requires eng.Valid() && this !in eng.Repr && Valid()
      modifies this`open, this`fills, this`maxMarketRef
      ensures Valid() && View() == OnMarket(old(View()), eng.Orders(), locate, m)
      ensures maxMarketRef == RaiseMark(old(maxMarketRef), m)
    {
      hide E.BookEngine.Valid, InOrder, AllLive, UniqueRefs, Bounded, Conserved;
      MarketKeepsShape(View(), eng.Orders(), locate, m, ledger, nextRef, nextSeq, maxMarketRef);
      MarketConserves(View(), ledger, eng.Orders(), locate, m);
      match m.kind {
        case AddOrder | AddOrderMpid =>
          if m.orderRef > maxMarketRef { maxMarketRef := m.orderRef; }
        case OrderExecuted | OrderExecutedPrice =>
          var found, v := Resting(m.orderRef);
          if found { HandleExec(m.orderRef, v.side, v.price, Min(m.shares, v.shares), m.timestamp); }
        case OrderCancel =>
          var found, v := Resting(m.orderRef);
          if found { HandleRemove(m.orderRef, v.side, v.price, Min(m.shares, v.shares)); }
        case OrderDelete =>
          var found, v := Resting(m.orderRef);
          if found { HandleRemove(m.orderRef, v.side, v.price, v.shares); }
        case OrderReplace =>
          var found, v := Resting(m.orderRef);
          if found { HandleRemove(m.orderRef, v.side, v.price, v.shares); }
          if m.newOrderRef > maxMarketRef { maxMarketRef := m.newOrderRef; }
        case Trade | SystemEvent | Unknown =>
      }
    }

    /** Fills accumulated since the last call. */
    method TakeFills() returns (out: seq<FillRec>)
      requires Valid()
      modifies this`fills, this`ledger
      ensures Valid() && out == old(fills) && fills == []
      ensures ledger == old(ledger).(taken := old(ledger).taken + out)
    {
      TakeConserves(View(), ledger);
      out := fills;
      fills := [];
      ledger := ledger.(taken := ledger.taken + out);
    }
  }

  /** One market message of a session: the overlay sees it, then the book applies it. Exact
      positions stay exact if and only if the message was faithful. */
  method Process(fe: FillEngine, m: Message) returns (out: E.ExecResult)
    requires fe.eng.Valid() && fe !in fe.eng.Repr && fe.Valid()
    requires Erases(fe.eng.Orders(), m, fe.eng.priceLevels, fe.eng.refs.cap) ==> |fe.eng.Orders()| < fe.eng.refs.cap
    modifies fe, fe.eng.Repr
    ensures fe.eng.Valid() && fresh(fe.eng.Repr - old(fe.eng.Repr)) && fe !in fe.eng.Repr && fe.Valid()
    ensures fe.eng.Orders() == Step(old(fe.eng.Orders()), m, fe.eng.priceLevels, fe.eng.refs.cap)
    ensures fe.View() == OnMarket(old(fe.View()), old(fe.eng.Orders()), fe.locate, m)
    ensures fe.maxMarketRef == RaiseMark(old(fe.maxMarketRef), m)
    ensures fe.ledger == old(fe.ledger) && fe.nextRef == old(fe.nextRef) && fe.nextSeq == old(fe.nextSeq)
    ensures old(fe.Tracks()) ==>
      (fe.Tracks() <==> Faithful(old(fe.open), old(fe.eng.Orders()), fe.locate, m, fe.eng.priceLevels, fe.eng.refs.cap))
  {
    hide E.BookEngine.Valid, InOrder, AllLive, UniqueRefs, Bounded, Conserved, Exact, Faithful, Outcome, Erases,
      WellFormed;
    ghost var st, os := fe.View(), fe.eng.Orders();
    assert WellFormed(os, fe.eng.priceLevels) by { EngineWellFormed(fe.eng); }
    if Exact(st.open, os, fe.locate) {
      PositionsStayExactIff(st, os, fe.locate, m, fe.eng.priceLevels, fe.eng.refs.cap);
    }
    fe.OnMarketMessage(m);
    out := fe.eng.Apply(m);
    if forall r :: r in os ==> r <= old(fe.maxMarketRef) {
      StepSeen(os, m, fe.eng.priceLevels, fe.eng.refs.cap, old(fe.maxMarketRef));
    }
  }

  lemma EngineWellFormed(e: E.BookEngine)
    requires e.Valid()
    ensures WellFormed(e.Orders(), e.priceLevels)
  {}

  lemma StepSeen(os: Orders, m: Message, levels: nat, cap: nat, mark: u64)
    requires forall r :: r in os ==> r <= mark
    ensures forall r :: r in Step(os, m, levels, cap) ==> r <= RaiseMark(mark, m)
  {}

  lemma RestTracks(e: E.BookEngine, loc: u16, open: seq<OpenOrder>, o: OpenOrder)
    requires e.Valid()
    requires o.queueAhead == At(Displayed(e, loc, o.side), o.price) + Own(open, |open|, o.side, o.price)
    ensures Exact(open, e.Orders(), loc) && ValidSide(o.side) && (forall r :: r in e.Orders() ==> r <= o.watermark)
      ==> Exact(open + [o], e.Orders(), loc)
  {
    if Exact(open, e.Orders(), loc) && ValidSide(o.side) && (forall r :: r in e.Orders() ==> r <= o.watermark) {
      DisplayedIsShares(e, loc, o.side, o.price);
      AheadOfAll(e.Orders(), loc, o.side, o.price, o.watermark);
      RestExact(open, o, e.Orders(), loc);
    }
  }

  lemma DisplayedIsShares(e: E.BookEngine, loc: u16, side: char, price: nat)
    requires e.Valid() && ValidSide(side)
    ensures At(Displayed(e, loc, side), price) == Shares(e.Orders(), loc, side, price)
  {
    if loc in e.books && price < e.books[loc].levels {
      assert e.BookOk(loc, e.Orders());
      assert e.books[loc].LevelAt(side, price).shares == Shares(e.Orders(), loc, side, price);
    } else {
      NoOrdersAt(e.Orders(), loc, side, price);
    }
  }

  function Opposite(side: char): char {
    if Up(side) then SIDE_SELL else SIDE_BUY
  }
}
