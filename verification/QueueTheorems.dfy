/** Main results about the queue-position overlay. */
module QueueTheorems {
  import opened Itch
  import opened LiveOrders
  import opened BookSpec
  import opened QueueSpec
  import opened QueueProofs
  import opened QueueExact

  // ---- exactness across one message --------------------------------------------------

  /** A cancel, delete or replace-out keeps every position exact for the smaller market. */
  lemma RemoveExact(open: seq<OpenOrder>, os: Orders, loc: u16, r: u64, x: u32)
    requires Exact(open, os, loc) && r in os && os[r].locate == loc && x <= os[r].shares
    ensures var open' := HandleRemove(open, r, os[r].side, os[r].price, x);
      && Exact(open', Less(os, r, x), loc) && SameIdentity(open, open')
      && forall i :: 0 <= i < |open| ==> open'[i].remaining == open[i].remaining
  {
    var v := os[r];
    var open' := HandleRemove(open, r, v.side, v.price, x);
    forall i | 0 <= i < |open| ensures open'[i].queueAhead == Position(open', i, Less(os, r, x), loc) {
      var o := open[i];
      OwnFill(open, open', 0, 0, i, o.side, o.price);
      AheadLess(os, r, x, loc, o.side, o.price, o.watermark);
    }
  }

  /** A new market order keeps every position exact precisely when no open order would
      count it as already there. */
  lemma PutExact(open: seq<OpenOrder>, os: Orders, loc: u16, k: u64, o: Order)
    requires Exact(open, os, loc) && k !in os && o.shares > 0
    ensures Exact(open, os[k := o], loc) <==> !Watches(open, k, o, loc)
  {
    forall i | 0 <= i < |open|
      ensures Position(open, i, os[k := o], loc) ==
        Position(open, i, os, loc) + SizeAhead(k, o, loc, open[i].side, open[i].price, open[i].watermark)
    {
      AheadPut(os, k, o, loc, open[i].side, open[i].price, open[i].watermark);
    }
    if Watches(open, k, o, loc) {
      var i :| 0 <= i < |open| && OnLevel(open[i], o.side, o.price) && k <= open[i].watermark;
      assert open[i].queueAhead != Position(open, i, os[k := o], loc);
    } else {
      forall i | 0 <= i < |open| ensures SizeAhead(k, o, loc, open[i].side, open[i].price, open[i].watermark) == 0 {
        assert open[i] in open;
      }
    }
  }

  /** The guard a caller can test before the message: an accepted arrival is behind every
      open order of ours at its level, and a rejected reduction or replacement names no
      order that one of ours counts. */
  ghost predicate Faithful(open: seq<OpenOrder>, os: Orders, loc: u16, m: Message, levels: nat, cap: nat) {
    if Outcome(os, m, levels, cap) == Applied then
      && (IsAdd(m) ==> !Watches(open, m.orderRef, After(os, m)[m.orderRef], loc))
      && (m.kind == OrderReplace ==> !Watches(open, m.newOrderRef, After(os, m)[m.newOrderRef], loc))
    else
      m.orderRef in os && (m.kind == OrderReplace || (IsReduce(m) && m.shares > 0)) ==>
        !Watches(open, m.orderRef, os[m.orderRef], loc)
  }

  /** The market the overlay believes in after its own step: the departing shares gone, the
      arriving order not yet there. */
  ghost function Believed(os: Orders, loc: u16, m: Message): Orders {
    if m.orderRef !in os || os[m.orderRef].locate != loc || IsAdd(m) then os
    else if IsReduce(m) then Less(os, m.orderRef, Min(m.shares, os[m.orderRef].shares))
    else if m.kind == OrderDelete || m.kind == OrderReplace then os - {m.orderRef}
    else os
  }

  lemma OnMarketBelieved(st: Overlay, os: Orders, loc: u16, m: Message)
    requires InOrder(st.open) && AllLive(st.open) && Exact(st.open, os, loc)
    ensures var st' := OnMarket(st, os, loc, m);
      && InOrder(st'.open) && AllLive(st'.open) && Exact(st'.open, Believed(os, loc, m), loc)
      && (m.orderRef in os ==> (Watches(st'.open, m.orderRef, os[m.orderRef], loc) <==>
                                Watches(st.open, m.orderRef, os[m.orderRef], loc)))
      && (!IsExec(m) ==> st'.fills == st.fills && SameIdentity(st.open, st'.open))
  {
    if m.orderRef in os && os[m.orderRef].locate == loc && !IsAdd(m) {
      var v := os[m.orderRef];
      if IsExec(m) {
        ExecExact(st, os, loc, m.orderRef, Min(m.shares, v.shares), m.timestamp);
      } else if m.kind == OrderCancel || m.kind == OrderDelete || m.kind == OrderReplace {
        var x := if m.kind == OrderCancel then Min(m.shares, v.shares) else v.shares;
        RemoveExact(st.open, os, loc, m.orderRef, x);
        var open' := OnMarket(st, os, loc, m).open;
        SameWatches(st.open, open', m.orderRef, v, loc);
      }
    }
  }

  lemma SameWatches(open: seq<OpenOrder>, open': seq<OpenOrder>, r: u64, v: Order, loc: u16)
    requires SameIdentity(open, open')
    ensures Watches(open', r, v, loc) <==> Watches(open, r, v, loc)
  {
    forall i | 0 <= i < |open| ensures open[i] in open && open'[i] in open' {}
    if Watches(open, r, v, loc) {
      var i :| 0 <= i < |open| && OnLevel(open[i], v.side, v.price) && r <= open[i].watermark;
      assert OnLevel(open'[i], v.side, v.price);
    }
  }

  lemma ExactElsewhere(open: seq<OpenOrder>, os: Orders, loc: u16, r: u64, qty: u32)
    requires Exact(open, os, loc) && r in os && os[r].locate != loc && qty <= os[r].shares
    ensures Exact(open, Less(os, r, qty), loc)
  {
    forall i | 0 <= i < |open| ensures open[i].queueAhead == Position(open, i, Less(os, r, qty), loc) {
      AheadLess(os, r, qty, loc, open[i].side, open[i].price, open[i].watermark);
    }
  }

  /** What is exact for the believed market is exact for the real one, precisely when the
      message was faithful. */
  lemma BelievedIsReal(open: seq<OpenOrder>, os: Orders, loc: u16, m: Message, levels: nat, cap: nat)
    requires WellFormed(os, levels) && Exact(open, Believed(os, loc, m), loc)
    ensures Exact(open, Step(os, m, levels, cap), loc) <==> Faithful(open, os, loc, m, levels, cap)
  {
    hide Exact;
    var r, b := m.orderRef, Believed(os, loc, m);
    var applied := Outcome(os, m, levels, cap) == Applied;
    if IsAdd(m) {
      if applied { PutExact(open, os, loc, r, After(os, m)[r]); }
    } else if r in os {
      var v := os[r];
      if v.locate != loc {
        ExactElsewhere(open, os, loc, r, v.shares);
        if IsReduce(m) && applied { ExactElsewhere(open, os, loc, r, m.shares); }
        if m.kind == OrderReplace && applied {
          PutExact(open, os - {r}, loc, m.newOrderRef, After(os, m)[m.newOrderRef]);
        }
      } else if m.kind == OrderReplace && applied {
        PutExact(open, b, loc, m.newOrderRef, After(os, m)[m.newOrderRef]);
      } else if IsReduce(m) && m.shares == 0 {
        assert b == os;
      } else if (IsReduce(m) || m.kind == OrderReplace) && !applied {
        assert b == os - {r} && b[r := v] == os;
        PutExact(open, b, loc, r, v);
      }
    }
  }

  /** One market message, seen by the overlay and then by the book: the positions are exact
      afterwards if and only if the message was faithful. */
  lemma PositionsStayExactIff(st: Overlay, os: Orders, loc: u16, m: Message, levels: nat, cap: nat)
    requires WellFormed(os, levels) && InOrder(st.open) && AllLive(st.open) && Exact(st.open, os, loc)
    ensures var open' := OnMarket(st, os, loc, m).open;
      InOrder(open') && AllLive(open') &&
      (Exact(open', Step(os, m, levels, cap), loc) <==> Faithful(st.open, os, loc, m, levels, cap))
  {
    hide Exact, InOrder, AllLive, OnMarket, WellFormed, Step;
    var st' := OnMarket(st, os, loc, m);
    OnMarketBelieved(st, os, loc, m);
    BelievedIsReal(st'.open, os, loc, m, levels, cap);
    if m.kind == OrderReplace && Outcome(os, m, levels, cap) == Applied {
      SameWatches(st.open, st'.open, m.newOrderRef, After(os, m)[m.newOrderRef], loc);
    }
  }

  /** The book rejects an execution of 11 shares of a 10-share order; the overlay takes the 10
      off our order's position all the same, and the position is exact no more. */
  lemma OversizedExecuteBreaks() returns (st: Overlay, os: Orders, m: Message)
    ensures WellFormed(os, 100) && InOrder(st.open) && AllLive(st.open) && Exact(st.open, os, 1)
    ensures Outcome(os, m, 100, 8) == InvalidEvent && !Exact(OnMarket(st, os, 1, m).open, Step(os, m, 100, 8), 1)
  {
    var v := Order(50, 10, 1, SIDE_BUY);
    os := map[7 := v];
    m := Message(OrderExecuted, SIDE_BUY, true, 1, 11, 0, 0, 7, 0);
    st := Overlay([OpenOrder(9, SIDE_BUY, 50, 5, 5, 10, 7, 0)], []);
    var none: Orders := map[];
    assert none[7 := v] == os && none - {7} == none;
    SumZero(none, AheadOf(1, SIDE_BUY, 50, 7));
    SumPut(none, AheadOf(1, SIDE_BUY, 50, 7), 7, v);
    PositionsStayExactIff(st, os, 1, m, 100, 8);
    assert OnLevel(st.open[0], v.side, v.price);
  }

  /** Feeds whose accepted arrivals carry ever higher references, and whose messages the book
      does not reject, are faithful. */
  lemma IncreasingAcceptedIsFaithful(open: seq<OpenOrder>, os: Orders, loc: u16, m: Message, levels: nat, cap: nat,
    mark: u64)
    requires forall x :: x in open ==> x.watermark <= mark
    requires Outcome(os, m, levels, cap) in {Applied, Ignored, MissingReference}
    requires IsAdd(m) ==> m.orderRef > mark
    requires m.kind == OrderReplace ==> m.newOrderRef > mark
    ensures Faithful(open, os, loc, m, levels, cap)
  {}

  // ---- who an execution fills --------------------------------------------------------

  function Total(fills: seq<FillRec>): nat {
    if fills == [] then 0 else fills[0].shares + Total(fills[1..])
  }

  /** Shares recorded for one of our references. */
  function Given(fills: seq<FillRec>, ref: nat): nat {
    if fills == [] then 0 else (if fills[0].ourRef == ref then fills[0].shares else 0) + Given(fills[1..], ref)
  }

  /** Remaining shares of the eligible orders from k on. */
  function Eligible(open: seq<OpenOrder>, k: nat, c: Flow): nat
    decreases |open| - k
  {
    if k >= |open| then 0
    else (if Takes(c, open[k]) then open[k].remaining else 0) + Eligible(open, k + 1, c)
  }

  /** A budget is spent in full or fills every eligible order: never more, never less. */
  lemma {:induction false} FifoTotal(open: seq<OpenOrder>, k: nat, c: Flow, budget: nat, ts: u64)
    ensures Total(Fifo(open, k, c, budget, ts)) == Min(budget, Eligible(open, k, c))
    decreases |open| - k
  {
    if k < |open| {
      var o := open[k];
      if o.remaining == 0 || !Takes(c, o) {
        FifoTotal(open, k + 1, c, budget, ts);
      } else {
        var f := Min(budget, o.remaining);
        FifoTotal(open, k + 1, c, budget - f, ts);
        var rest := Fifo(open, k + 1, c, budget - f, ts);
        if f > 0 { assert (Record(o, f, ts) + rest)[1..] == rest; } else { assert Record(o, f, ts) + rest == rest; }
      }
    }
  }

  predicate UniqueRefs(open: seq<OpenOrder>) {
    forall i, j :: 0 <= i < j < |open| ==> open[i].ref != open[j].ref
  }

  /** What order j gets is what the orders before it leave of the budget. */
  lemma {:induction false} FifoGiven(open: seq<OpenOrder>, k: nat, c: Flow, budget: nat, ts: u64, j: nat)
    requires UniqueRefs(open) && j < |open|
    ensures Given(Fifo(open, k, c, budget, ts), open[j].ref) ==
      if k <= j && Takes(c, open[j]) && budget > Eligible(open, k, c) - Eligible(open, j, c)
      then Min(open[j].remaining, budget - (Eligible(open, k, c) - Eligible(open, j, c))) else 0
    ensures k <= j ==> Eligible(open, j, c) <= Eligible(open, k, c)
    decreases |open| - k
  {
    hide Fifo, Given, Takes;
    if k < |open| {
      var f := if open[k].remaining == 0 || !Takes(c, open[k]) then 0 else Min(budget, open[k].remaining);
      FifoStep(open, k, c, budget, ts, open[j].ref);
      FifoGiven(open, k + 1, c, budget - f, ts, j);
    } else {
      FifoDone(open, k, c, budget, ts, open[j].ref);
    }
  }

  lemma FifoDone(open: seq<OpenOrder>, k: nat, c: Flow, budget: nat, ts: u64, ref: nat)
    requires k >= |open|
    ensures Given(Fifo(open, k, c, budget, ts), ref) == 0
  {}

  /** What one order contributes. */
  lemma FifoStep(open: seq<OpenOrder>, k: nat, c: Flow, budget: nat, ts: u64, ref: nat)
    requires k < |open|
    ensures var o := open[k];
      var f := if o.remaining == 0 || !Takes(c, o) then 0 else Min(budget, o.remaining);
      Given(Fifo(open, k, c, budget, ts), ref) ==
        (if o.ref == ref then f else 0) + Given(Fifo(open, k + 1, c, budget - f, ts), ref)
  {
    hide Takes;
    var o := open[k];
    var f := if o.remaining == 0 || !Takes(c, o) then 0 else Min(budget, o.remaining);
    GivenRecord(o, f, ts, Fifo(open, k + 1, c, budget - f, ts), ref);
    hide Given, Record;
  }

  lemma GivenRecord(o: OpenOrder, f: nat, ts: u64, rest: seq<FillRec>, ref: nat)
    requires f <= o.remaining
    ensures Given(Record(o, f, ts) + rest, ref) == (if o.ref == ref then f else 0) + Given(rest, ref)
  {
    if f > 0 { assert (Record(o, f, ts) + rest)[1..] == rest; } else { assert Record(o, f, ts) + rest == rest; }
  }

  /** Time priority: whoever is filled finds every earlier eligible order complete. */
  lemma TimePriority(open: seq<OpenOrder>, c: Flow, budget: nat, ts: u64, i: nat, j: nat)
    requires UniqueRefs(open) && i < j < |open| && Takes(c, open[i])
    requires Given(Fifo(open, 0, c, budget, ts), open[j].ref) > 0
    ensures Given(Fifo(open, 0, c, budget, ts), open[i].ref) == open[i].remaining
  {
    FifoGiven(open, 0, c, budget, ts, i);
    FifoGiven(open, 0, c, budget, ts, j);
    FifoGiven(open, i, c, budget, ts, j);
    FifoGiven(open, i + 1, c, budget, ts, j);
  }

  /** At one level every earlier order of ours is eligible whenever a later one is. */
  lemma EarlierIsEligible(open: seq<OpenOrder>, c: Flow, i: nat, j: nat)
    requires InOrder(open) && i < j < |open| && OnLevel(open[i], open[j].side, open[j].price) && Takes(c, open[j])
    ensures Takes(c, open[i])
  {}

  /** A quantity beyond the resting size acts as the resting size; a delete and the outgoing half
      of a replace act on the queue as a cancel of everything. */
  lemma BeyondIsWhole(st: Overlay, os: Orders, loc: u16, m: Message, cancel: Message)
    requires m.orderRef in os && cancel.orderRef == m.orderRef && cancel.kind == OrderCancel
    ensures IsReduce(m) && m.shares > os[m.orderRef].shares ==>
      OnMarket(st, os, loc, m) == OnMarket(st, os, loc, m.(shares := os[m.orderRef].shares))
    ensures m.kind in {OrderDelete, OrderReplace} && cancel.shares == os[m.orderRef].shares ==>
      OnMarket(st, os, loc, m) == OnMarket(st, os, loc, cancel)
  {}
}
