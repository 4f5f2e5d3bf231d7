/** The queue-position overlay as functions on its open orders and fills, and the exact
    queue position those orders ought to have. */
module QueueSpec {
  import opened Itch
  import opened LiveOrders
  import opened BookSpec

  datatype OpenOrder = OpenOrder(
    ref: nat, side: char, price: u32, remaining: u32, original: u32,
    queueAhead: nat, watermark: u64, seqNo: nat)

  datatype FillRec = FillRec(ts: u64, ourRef: nat, side: char, price: u32, shares: u32, maker: bool)

  datatype Overlay = Overlay(open: seq<OpenOrder>, fills: seq<FillRec>)

  predicate OnLevel(o: OpenOrder, side: char, price: nat) {
    o.side == side && o.price == price
  }

  /** An order of ours that price priority puts before `price` on this side. */
  predicate Superior(o: OpenOrder, side: char, price: nat) {
    o.side == side && if side == SIDE_BUY then o.price > price else o.price < price
  }

  function Drain(o: OpenOrder, amount: nat): OpenOrder {
    o.(queueAhead := o.queueAhead - Min(amount, o.queueAhead))
  }

  // ---- the update rules ---------------------------------------------------------

  function Fill(st: Overlay, k: nat, shares: nat, ts: u64): Overlay
    requires k < |st.open| && shares <= st.open[k].remaining
  {
    var o := st.open[k];
    if shares == 0 then st
    else Overlay(st.open[k := o.(remaining := o.remaining - shares)],
                 st.fills + [FillRec(ts, o.ref, o.side, o.price, shares, true)])
  }

  /** Our later orders at o's level counted o's shares: they move up by `amount`. */
  function ReduceLater(open: seq<OpenOrder>, o: OpenOrder, amount: nat): (r: seq<OpenOrder>) {
    seq(|open|, i requires 0 <= i < |open| =>
      if open[i].seqNo <= o.seqNo || !OnLevel(open[i], o.side, o.price) then open[i] else Drain(open[i], amount))
  }

  /** Fill order k outside the maker path and move the later ones up. */
  function FillThrough(st: Overlay, k: nat, f: nat, ts: u64): Overlay
    requires k < |st.open| && f <= st.open[k].remaining
  {
    var st' := Fill(st, k, f, ts);
    if f > 0 then st'.(open := ReduceLater(st'.open, st'.open[k], f)) else st'
  }

  /** Price-through pass from order k on: superior orders share the budget first in, first out. */
  function PriceThrough(st: Overlay, k: nat, side: char, price: nat, budget: nat, ts: u64): (r: Overlay)
    ensures |r.open| == |st.open|
    decreases |st.open| - k
  {
    if k >= |st.open| then st
    else
      var o := st.open[k];
      if o.remaining == 0 || !Superior(o, side, price) then PriceThrough(st, k + 1, side, price, budget, ts)
      else
        var f := Min(budget, o.remaining);
        PriceThrough(FillThrough(st, k, f, ts), k + 1, side, price, budget - f, ts)
  }

  /** At-level pass from order k on: `r` ahead of an order drains its queue and fills the
      excess; `r` behind it means the market traded through, out of a shared budget. */
  function AtLevel(st: Overlay, k: nat, r: u64, side: char, price: nat, q: nat, through: nat, ts: u64): (res: Overlay)
    ensures |res.open| == |st.open|
    decreases |st.open| - k
  {
    if k >= |st.open| then st
    else
      var o := st.open[k];
      if !OnLevel(o, side, price) || o.remaining == 0 then AtLevel(st, k + 1, r, side, price, q, through, ts)
      else if r <= o.watermark then
        var take := Min(q, o.queueAhead);
        var st' := st.(open := st.open[k := o.(queueAhead := o.queueAhead - take)]);
        AtLevel(Fill(st', k, Min(q - take, o.remaining), ts), k + 1, r, side, price, q, through, ts)
      else
        var f := Min(through, o.remaining);
        AtLevel(FillThrough(st, k, f, ts), k + 1, r, side, price, q, through - f, ts)
  }

  function EraseFilled(open: seq<OpenOrder>): seq<OpenOrder> {
    if open == [] then []
    else
      var n := |open| - 1;
      if open[n].remaining == 0 then EraseFilled(open[..n]) else EraseFilled(open[..n]) + [open[n]]
  }

  function HandleExec(st: Overlay, r: u64, side: char, price: nat, q: nat, ts: u64): Overlay {
    var st' := AtLevel(PriceThrough(st, 0, side, price, q, ts), 0, r, side, price, q, q, ts);
    st'.(open := EraseFilled(st'.open))
  }

  function HandleRemove(open: seq<OpenOrder>, r: u64, side: char, price: nat, x: nat): (res: seq<OpenOrder>) {
    seq(|open|, i requires 0 <= i < |open| =>
      if OnLevel(open[i], side, price) && r <= open[i].watermark then Drain(open[i], x) else open[i])
  }

  /** The effect of a market message seen before the book applies it. */
  function OnMarket(st: Overlay, os: Orders, loc: u16, m: Message): Overlay {
    if m.orderRef !in os || os[m.orderRef].locate != loc || IsAdd(m) then st
    else
      var v := os[m.orderRef];
      if IsExec(m) then HandleExec(st, m.orderRef, v.side, v.price, Min(m.shares, v.shares), m.timestamp)
      else if m.kind == OrderCancel then
        st.(open := HandleRemove(st.open, m.orderRef, v.side, v.price, Min(m.shares, v.shares)))
      else if m.kind == OrderDelete || m.kind == OrderReplace then
        st.(open := HandleRemove(st.open, m.orderRef, v.side, v.price, v.shares))
      else st
  }

  function RaiseMark(mark: u64, m: Message): u64 {
    if IsAdd(m) && m.orderRef > mark then m.orderRef
    else if m.kind == OrderReplace && m.newOrderRef > mark then m.newOrderRef
    else mark
  }

  // ---- the exact queue position -------------------------------------------------

  function SizeAhead(r: u64, o: Order, loc: u16, side: char, price: nat, mark: nat): nat {
    if Rests(o, loc, side, price) && r <= mark then o.shares else 0
  }

  ghost function AheadOf(loc: u16, side: char, price: nat, mark: nat): Weight {
    (r: u64, o: Order) => SizeAhead(r, o, loc, side, price, mark)
  }

  /** Displayed market shares at the level that arrived no later than the watermark. */
  ghost function Ahead(os: Orders, loc: u16, side: char, price: nat, mark: nat): nat {
    Sum(os, AheadOf(loc, side, price, mark))
  }

  /** Remaining shares of our own first n open orders at the level. */
  function Own(open: seq<OpenOrder>, n: nat, side: char, price: nat): nat
    requires n <= |open|
  {
    if n == 0 then 0
    else Own(open, n - 1, side, price) + if OnLevel(open[n - 1], side, price) then open[n - 1].remaining else 0
  }

  /** The queue position the overlay ought to hold for open order i. */
  ghost function Position(open: seq<OpenOrder>, i: nat, os: Orders, loc: u16): nat
    requires i < |open|
  {
    Ahead(os, loc, open[i].side, open[i].price, open[i].watermark) + Own(open, i, open[i].side, open[i].price)
  }

  ghost predicate Exact(open: seq<OpenOrder>, os: Orders, loc: u16) {
    forall i :: 0 <= i < |open| ==> open[i].queueAhead == Position(open, i, os, loc)
  }

  /** Open orders are in arrival order, with watermarks that never fall. */
  predicate InOrder(open: seq<OpenOrder>) {
    forall i, j :: 0 <= i < j < |open| ==>
      open[i].seqNo < open[j].seqNo && open[i].watermark <= open[j].watermark
  }
}
