/** The queue position is exact: what every message does to it, exactly when it stays exact,
    and who is filled by an execution. */
module QueueExact {
  import opened Itch
  import opened LiveOrders
  import opened BookSpec
  import opened QueueSpec
  import opened QueueProofs

  // ---- the market side ----------------------------------------------------------

  lemma AheadPut(os: Orders, r: u64, o: Order, loc: u16, side: char, price: nat, mark: nat)
    requires r !in os
    ensures Ahead(os[r := o], loc, side, price, mark) ==
      Ahead(os, loc, side, price, mark) + SizeAhead(r, o, loc, side, price, mark)
  {
    SumPut(os, AheadOf(loc, side, price, mark), r, o);
    assert os - {r} == os;
  }

  lemma AheadLess(os: Orders, r: u64, qty: u32, loc: u16, side: char, price: nat, mark: nat)
    requires r in os && qty <= os[r].shares
    ensures Ahead(Less(os, r, qty), loc, side, price, mark) == Ahead(os, loc, side, price, mark)
      - if Rests(os[r], loc, side, price) && r <= mark then qty else 0
    ensures Rests(os[r], loc, side, price) && r <= mark ==> os[r].shares <= Ahead(os, loc, side, price, mark)
  {
    var w := AheadOf(loc, side, price, mark);
    SumRemove(os, w, r);
    SumBounds(os, w, r);
    if qty != os[r].shares { SumPut(os, w, r, os[r].(shares := os[r].shares - qty)); }
  }

  // ---- one execution --------------------------------------------------------------

  /** Exact for every order that still has shares. */
  ghost predicate ExactLive(open: seq<OpenOrder>, os: Orders, loc: u16) {
    forall i :: 0 <= i < |open| && open[i].remaining > 0 ==> open[i].queueAhead == Position(open, i, os, loc)
  }

  predicate AllLive(open: seq<OpenOrder>) {
    forall i :: 0 <= i < |open| ==> open[i].remaining > 0
  }

  lemma {:induction false} EraseKeeps(open: seq<OpenOrder>)
    ensures forall x :: x in EraseFilled(open) <==> x in open && x.remaining > 0
  {
    if open != [] { EraseKeeps(open[..|open| - 1]); }
  }

  lemma {:induction false} EraseInOrder(open: seq<OpenOrder>)
    requires InOrder(open)
    ensures InOrder(EraseFilled(open)) && AllLive(EraseFilled(open))
  {
    if open != [] {
      EraseInOrder(open[..|open| - 1]);
      EraseKeeps(open[..|open| - 1]);
    }
  }

  lemma {:induction false} OwnPrefix(open: seq<OpenOrder>, m: nat, n: nat, side: char, price: nat)
    requires n <= m <= |open|
    ensures Own(open[..m], n, side, price) == Own(open, n, side, price)
  {
    if n > 0 { OwnPrefix(open, m, n - 1, side, price); }
  }

  lemma {:induction false} EraseOwn(open: seq<OpenOrder>, side: char, price: nat)
    ensures Own(EraseFilled(open), |EraseFilled(open)|, side, price) == Own(open, |open|, side, price)
  {
    if open != [] {
      var n := |open| - 1;
      EraseOwn(open[..n], side, price);
      OwnPrefix(open, n, n, side, price);
      var e := EraseFilled(open);
      if open[n].remaining > 0 {
        assert e[..|e| - 1] == EraseFilled(open[..n]);
        OwnPrefix(e, |e| - 1, |e| - 1, side, price);
      }
    }
  }

  lemma {:induction false} EraseExact(open: seq<OpenOrder>, os: Orders, loc: u16)
    requires ExactLive(open, os, loc)
    ensures Exact(EraseFilled(open), os, loc)
  {
    if open != [] {
      var n := |open| - 1;
      var front, e := open[..n], EraseFilled(open);
      forall i | 0 <= i < n && front[i].remaining > 0
        ensures front[i].queueAhead == Position(front, i, os, loc)
      {
        OwnPrefix(open, n, i, open[i].side, open[i].price);
      }
      EraseExact(front, os, loc);
      if open[n].remaining > 0 {
        var f := EraseFilled(front);
        assert e == f + [open[n]] && e[..|f|] == f;
        forall i | 0 <= i < |e| ensures e[i].queueAhead == Position(e, i, os, loc) {
          OwnPrefix(e, |f|, i, e[i].side, e[i].price);
          if i == |f| {
            EraseOwn(front, e[i].side, e[i].price);
            OwnPrefix(open, n, n, e[i].side, e[i].price);
          }
        }
      }
    }
  }

  /** Who a budget fills: eligible orders in arrival order, each as far as the rest allows. */
  datatype Flow = Better(side: char, price: nat) | Behind(r: u64, side: char, price: nat)

  predicate Takes(c: Flow, o: OpenOrder) {
    match c
    case Better(side, price) => Superior(o, side, price)
    case Behind(r, side, price) => BehindAt(o, r, side, price)
  }

  function Fifo(open: seq<OpenOrder>, k: nat, c: Flow, budget: nat, ts: u64): seq<FillRec>
    decreases |open| - k
  {
    if k >= |open| then []
    else
      var o := open[k];
      if o.remaining == 0 || !Takes(c, o) then Fifo(open, k + 1, c, budget, ts)
      else
        var f := Min(budget, o.remaining);
        Record(o, f, ts) + Fifo(open, k + 1, c, budget - f, ts)
  }

  lemma {:induction false} FifoSame(open: seq<OpenOrder>, open': seq<OpenOrder>, k: nat, c: Flow, budget: nat, ts: u64)
    requires SameIdentity(open, open')
    requires forall i :: k <= i < |open| && Takes(c, open[i]) ==> open'[i].remaining == open[i].remaining
    ensures Fifo(open', k, c, budget, ts) == Fifo(open, k, c, budget, ts)
    decreases |open| - k
  {
    if k < |open| {
      var o := open[k];
      if o.remaining == 0 || !Takes(c, o) {
        FifoSame(open, open', k + 1, c, budget, ts);
      } else {
        FifoSame(open, open', k + 1, c, budget - Min(budget, o.remaining), ts);
      }
    }
  }

  function Record(o: OpenOrder, f: nat, ts: u64): seq<FillRec>
    requires f <= o.remaining
  {
    if f > 0 then [FillRec(ts, o.ref, o.side, o.price, f, true)] else []
  }

  lemma FillRecords(st: Overlay, k: nat, f: nat, ts: u64)
    requires k < |st.open| && f <= st.open[k].remaining
    ensures FillThrough(st, k, f, ts).fills == st.fills + Record(st.open[k], f, ts)
    ensures |FillThrough(st, k, f, ts).open| == |Fill(st, k, f, ts).open| == |st.open|
  {}

  lemma {:induction false} PriceThroughFills(st: Overlay, k: nat, side: char, price: nat, budget: nat, ts: u64)
    requires InOrder(st.open) && NonNegative(st.open)
    ensures PriceThrough(st, k, side, price, budget, ts).fills ==
      st.fills + Fifo(st.open, k, Better(side, price), budget, ts)
    decreases |st.open| - k
  {
    if k < |st.open| {
      var o := st.open[k];
      if o.remaining == 0 || !Superior(o, side, price) {
        PriceThroughFills(st, k + 1, side, price, budget, ts);
      } else {
        var f := Min(budget, o.remaining);
        var st' := FillThrough(st, k, f, ts);
        FillThroughKeeps(st, k, f, ts);
        FillRecords(st, k, f, ts);
        PriceThroughFills(st', k + 1, side, price, budget - f, ts);
        FifoSame(st.open, st'.open, k + 1, Better(side, price), budget - f, ts);
      }
    }
  }

  /** With enough queue ahead no excess is left over: only orders the market traded through
      are filled at the level. */
  lemma {:induction false} AtLevelFills(
    st: Overlay, k: nat, r: u64, side: char, price: nat, q: nat, through: nat, ts: u64)
    requires InOrder(st.open) && NonNegative(st.open)
    requires forall i :: k <= i < |st.open| && AheadAt(st.open[i], r, side, price) ==> Market(st.open, i) >= q
    ensures AtLevel(st, k, r, side, price, q, through, ts).fills ==
      st.fills + Fifo(st.open, k, Behind(r, side, price), through, ts)
    decreases |st.open| - k, 1
  {
    hide Market, FillThrough, Record;
    if k < |st.open| {
      var o := st.open[k];
      if !OnLevel(o, side, price) || o.remaining == 0 {
        AtLevelFills(st, k + 1, r, side, price, q, through, ts);
      } else if r <= o.watermark {
        AheadFills(st, k, r, side, price, q, through, ts);
      } else {
        BehindFills(st, k, r, side, price, q, through, ts);
      }
    }
  }

  lemma {:induction false} AheadFills(
    st: Overlay, k: nat, r: u64, side: char, price: nat, q: nat, through: nat, ts: u64)
    requires k < |st.open| && OnLevel(st.open[k], side, price) && st.open[k].remaining > 0 && r <= st.open[k].watermark
    requires InOrder(st.open) && NonNegative(st.open)
    requires forall i :: k <= i < |st.open| && AheadAt(st.open[i], r, side, price) ==> Market(st.open, i) >= q
    ensures AtLevel(st, k, r, side, price, q, through, ts).fills ==
      st.fills + Fifo(st.open, k, Behind(r, side, price), through, ts)
    decreases |st.open| - k, 0
  {
    hide Market, FillThrough, Record;
    var o := st.open[k];
    DrainKeeps(st.open, k, q);
    var st' := st.(open := st.open[k := o.(queueAhead := o.queueAhead - q)]);
    assert Fill(st', k, Min(0, o.remaining), ts) == st';
    AtLevelFills(st', k + 1, r, side, price, q, through, ts);
    FifoSame(st.open, st'.open, k + 1, Behind(r, side, price), through, ts);
  }

  lemma {:induction false} BehindFills(
    st: Overlay, k: nat, r: u64, side: char, price: nat, q: nat, through: nat, ts: u64)
    requires k < |st.open| && OnLevel(st.open[k], side, price) && st.open[k].remaining > 0 && r > st.open[k].watermark
    requires InOrder(st.open) && NonNegative(st.open)
    requires forall i :: k <= i < |st.open| && AheadAt(st.open[i], r, side, price) ==> Market(st.open, i) >= q
    ensures AtLevel(st, k, r, side, price, q, through, ts).fills ==
      st.fills + Fifo(st.open, k, Behind(r, side, price), through, ts)
    decreases |st.open| - k, 0
  {
    hide Market, FillThrough, Record;
    var o := st.open[k];
    var f := Min(through, o.remaining);
    var st' := FillThrough(st, k, f, ts);
    FillThroughKeeps(st, k, f, ts);
    FillRecords(st, k, f, ts);
    AtLevelFills(st', k + 1, r, side, price, q, through - f, ts);
    FifoSame(st.open, st'.open, k + 1, Behind(r, side, price), through - f, ts);
  }

  /** Some open order would count order k as ahead of it. */
  ghost predicate Watches(open: seq<OpenOrder>, k: u64, o: Order, loc: u16) {
    o.locate == loc && exists x :: x in open && OnLevel(x, o.side, o.price) && k <= x.watermark
  }

  /** Both passes together, before filled orders are erased. */
  function ExecPasses(st: Overlay, r: u64, side: char, price: nat, q: nat, ts: u64): Overlay {
    AtLevel(PriceThrough(st, 0, side, price, q, ts), 0, r, side, price, q, q, ts)
  }

  function Reached(open: seq<OpenOrder>, r: u64, side: char, price: nat): nat -> bool {
    (i: nat) => i < |open| && (Superior(open[i], side, price) || BehindAt(open[i], r, side, price))
  }

  lemma ExecMoves(st: Overlay, r: u64, side: char, price: nat, q: nat, ts: u64)
    requires InOrder(st.open) && AllLive(st.open) && NonNegative(st.open)
    requires forall i :: 0 <= i < |st.open| && AheadAt(st.open[i], r, side, price) ==> Market(st.open, i) >= q
    ensures var st' := ExecPasses(st, r, side, price, q, ts);
      && Moved(st.open, st'.open, Drained(st.open, 0, r, side, price, q), Reached(st.open, r, side, price))
      && st'.fills == st.fills + Fifo(st.open, 0, Better(side, price), q, ts)
        + Fifo(st.open, 0, Behind(r, side, price), q, ts)
  {
    hide Market, AtLevel, PriceThrough;
    var a := PriceThrough(st, 0, side, price, q, ts);
    PriceThroughKeeps(st, 0, side, price, q, ts);
    PriceThroughFills(st, 0, side, price, q, ts);
    AtLevelKeeps(a, 0, r, side, price, q, q, ts);
    AtLevelFills(a, 0, r, side, price, q, q, ts);
    FifoSame(st.open, a.open, 0, Behind(r, side, price), q, ts);
  }

  /** An execution of q shares of live order r keeps every position exact for the market
      without them; it fills the price-superior orders and the orders r was behind, each
      group out of its own budget q, and nobody else. */
  lemma ExecExact(st: Overlay, os: Orders, loc: u16, r: u64, q: u32, ts: u64)
    requires InOrder(st.open) && AllLive(st.open) && Exact(st.open, os, loc)
    requires r in os && os[r].locate == loc && q <= os[r].shares
    ensures var v := os[r];
      var st' := HandleExec(st, r, v.side, v.price, q, ts);
      && InOrder(st'.open) && AllLive(st'.open) && Exact(st'.open, Less(os, r, q), loc)
      && st'.fills == st.fills + Fifo(st.open, 0, Better(v.side, v.price), q, ts)
        + Fifo(st.open, 0, Behind(r, v.side, v.price), q, ts)
      && (Watches(st'.open, r, v, loc) <==> Watches(st.open, r, v, loc))
  {
    hide AtLevel, PriceThrough;
    var v := os[r];
    var b := ExecPasses(st, r, v.side, v.price, q, ts);
    forall i | 0 <= i < |st.open|
      ensures Market(st.open, i) >= 0
      ensures AheadAt(st.open[i], r, v.side, v.price) ==> Market(st.open, i) >= q
    {
      AheadLess(os, r, q, loc, st.open[i].side, st.open[i].price, st.open[i].watermark);
    }
    ExecMoves(st, r, v.side, v.price, q, ts);
    forall i | 0 <= i < |b.open| && b.open[i].remaining > 0
      ensures b.open[i].queueAhead == Position(b.open, i, Less(os, r, q), loc)
    {
      var o := st.open[i];
      AheadLess(os, r, q, loc, o.side, o.price, o.watermark);
      assert Market(b.open, i) == Market(st.open, i) - Drained(st.open, 0, r, v.side, v.price, q)(i);
    }
    EraseExact(b.open, Less(os, r, q), loc);
    EraseInOrder(b.open);
    EraseKeeps(b.open);
    WatchersStay(st.open, b.open, r, v, loc);
  }

  lemma WatchersStay(open: seq<OpenOrder>, open': seq<OpenOrder>, r: u64, v: Order, loc: u16)
    requires SameIdentity(open, open') && AllLive(open)
    requires forall i :: 0 <= i < |open| && !Reached(open, r, v.side, v.price)(i) ==>
      open'[i].remaining == open[i].remaining
    ensures Watches(EraseFilled(open'), r, v, loc) <==> Watches(open, r, v, loc)
  {
    hide EraseFilled;
    EraseKeeps(open');
    if Watches(open, r, v, loc) {
      var i :| 0 <= i < |open| && OnLevel(open[i], v.side, v.price) && r <= open[i].watermark;
      assert open'[i] in EraseFilled(open');
    }
    WatcherWas(open, open', r, v, loc);
  }

  lemma WatcherWas(open: seq<OpenOrder>, open': seq<OpenOrder>, r: u64, v: Order, loc: u16)
    requires SameIdentity(open, open')
    ensures Watches(EraseFilled(open'), r, v, loc) ==> Watches(open, r, v, loc)
  {
    hide EraseFilled, SameIdentity;
    EraseKeeps(open');
    if Watches(EraseFilled(open'), r, v, loc) {
      var x :| x in EraseFilled(open') && OnLevel(x, v.side, v.price) && r <= x.watermark;
      var i :| 0 <= i < |open'| && open'[i] == x;
      SameAt(open, open', i);
      assert open[i] in open;
    }
  }

  lemma SameAt(open: seq<OpenOrder>, open': seq<OpenOrder>, i: nat)
    requires SameIdentity(open, open') && i < |open'|
    ensures i < |open| && open'[i] == open[i].(remaining := open'[i].remaining, queueAhead := open'[i].queueAhead)
  {}
}
