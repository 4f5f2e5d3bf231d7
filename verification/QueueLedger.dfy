/** Where shares go: the marketable sweep over displayed levels, cancels, and the
    conservation of every synthetic order's shares. */
module QueueLedger {
  import opened Itch
  import opened LiveOrders
  import opened BookSpec
  import opened QueueSpec
  import opened QueueProofs
  import opened QueueExact
  import opened QueueTheorems
  import opened QueuePriority
  import B = OrderBook

  // ---- marketable sweep ---------------------------------------------------------------

  function At(ls: seq<B.PriceLevel>, p: nat): u32 {
    if p < |ls| then ls[p].shares else 0
  }

  /** Price p lies before or at the limit of a sweep going up (buy) or down (sell). */
  predicate Within(p: nat, limit: nat, up: bool) {
    p > 0 && if up then p <= limit else p >= limit
  }

  function Beyond(p: nat, up: bool): nat
    requires p > 0
  {
    if up then p + 1 else p - 1
  }

  predicate Up(side: char) {
    side == SIDE_BUY
  }

  /** Taker fills from price p to the limit. */
  function Sweep(ls: seq<B.PriceLevel>, p: nat, limit: nat, side: char, rem: nat, ts: u64, ref: nat): seq<FillRec>
    requires rem <= U32_MAX && p <= U32_MAX + (if Up(side) then 1 else 0) && limit <= U32_MAX
    decreases if Up(side) then limit + 1 - p else p
  {
    if rem == 0 || !Within(p, limit, Up(side)) then []
    else
      var f := Min(rem, At(ls, p));
      (if f > 0 then [FillRec(ts, ref, side, p, f, false)] else [])
      + Sweep(ls, Beyond(p, Up(side)), limit, side, rem - f, ts, ref)
  }

  lemma SweepSkip(ls: seq<B.PriceLevel>, p: nat, limit: nat, side: char, rem: nat, ts: u64, ref: nat)
    requires 0 < rem <= U32_MAX && p <= U32_MAX && limit <= U32_MAX && Within(p, limit, Up(side)) && At(ls, p) == 0
    ensures Sweep(ls, p, limit, side, rem, ts, ref) == Sweep(ls, Beyond(p, Up(side)), limit, side, rem, ts, ref)
  {}

  /** One trading step of the sweep. */
  lemma SweepStep(ls: seq<B.PriceLevel>, p: nat, limit: nat, side: char, rem: nat, ts: u64, ref: nat)
    requires 0 < rem <= U32_MAX && p <= U32_MAX && limit <= U32_MAX && Within(p, limit, Up(side)) && At(ls, p) > 0
    ensures var f := Min(rem, At(ls, p));
      var x := FillRec(ts, ref, side, p, f, false);
      var rest := Sweep(ls, Beyond(p, Up(side)), limit, side, rem - f, ts, ref);
      && Sweep(ls, p, limit, side, rem, ts, ref) == [x] + rest
      && Total([x] + rest) == f + Total(rest)
  {
    var f := Min(rem, At(ls, p));
    var x := FillRec(ts, ref, side, p, f, false);
    var rest := Sweep(ls, Beyond(p, Up(side)), limit, side, rem - f, ts, ref);
    assert ([x] + rest)[1..] == rest;
  }

  /** Shares displayed from price p to the limit. */
  function Depth(ls: seq<B.PriceLevel>, p: nat, limit: nat, up: bool): nat
    decreases if up then limit + 1 - p else p
  {
    if !Within(p, limit, up) then 0 else At(ls, p) + Depth(ls, Beyond(p, up), limit, up)
  }

  /** A sweep takes everything displayed through its limit, up to its own size. */
  lemma {:induction false} SweepTotal(ls: seq<B.PriceLevel>, p: nat, limit: nat, side: char, rem: nat, ts: u64,
    ref: nat)
    requires rem <= U32_MAX && p <= U32_MAX + (if Up(side) then 1 else 0) && limit <= U32_MAX
    ensures Total(Sweep(ls, p, limit, side, rem, ts, ref)) == Min(rem, Depth(ls, p, limit, Up(side)))
    ensures Given(Sweep(ls, p, limit, side, rem, ts, ref), ref) == Total(Sweep(ls, p, limit, side, rem, ts, ref))
    ensures forall other :: other != ref ==> Given(Sweep(ls, p, limit, side, rem, ts, ref), other) == 0
    decreases if Up(side) then limit + 1 - p else p
  {
    if rem > 0 && Within(p, limit, Up(side)) {
      var f := Min(rem, At(ls, p));
      SweepTotal(ls, Beyond(p, Up(side)), limit, side, rem - f, ts, ref);
      var rest := Sweep(ls, Beyond(p, Up(side)), limit, side, rem - f, ts, ref);
      if f > 0 {
        assert Sweep(ls, p, limit, side, rem, ts, ref)[1..] == rest;
      } else {
        assert Sweep(ls, p, limit, side, rem, ts, ref) == rest;
      }
    }
  }

  lemma SweepDone(ls: seq<B.PriceLevel>, p: nat, limit: nat, side: char, rem: nat, ts: u64, ref: nat)
    requires rem <= U32_MAX && p <= U32_MAX + (if Up(side) then 1 else 0) && limit <= U32_MAX
    requires rem == 0 || !Within(p, limit, Up(side))
    ensures Sweep(ls, p, limit, side, rem, ts, ref) == [] && Total(Sweep(ls, p, limit, side, rem, ts, ref)) == 0
  {}

  /** Price priority: record i trades at a displayed price within the limit, for what is left
      of the size after every better price was taken whole. */
  lemma {:induction false} SweepRecord(
    ls: seq<B.PriceLevel>, p: nat, limit: nat, side: char, rem: nat, ts: u64, ref: nat, i: nat)
    requires rem <= U32_MAX && p <= U32_MAX + (if Up(side) then 1 else 0) && limit <= U32_MAX
    requires i < |Sweep(ls, p, limit, side, rem, ts, ref)|
    ensures var x := Sweep(ls, p, limit, side, rem, ts, ref)[i];
      && Within(x.price, limit, Up(side)) && !x.maker && x.ourRef == ref && x.ts == ts
      && var better := Depth(ls, p, limit, Up(side)) - Depth(ls, x.price, limit, Up(side));
        0 <= better < rem && x.shares == Min(At(ls, x.price), rem - better) && x.shares > 0
    decreases if Up(side) then limit + 1 - p else p
  {
    var f, p' := Min(rem, At(ls, p)), Beyond(p, Up(side));
    var all, rest := Sweep(ls, p, limit, side, rem, ts, ref), Sweep(ls, p', limit, side, rem - f, ts, ref);
    var first := FillRec(ts, ref, side, p, f, false);
    assert Depth(ls, p, limit, Up(side)) == At(ls, p) + Depth(ls, p', limit, Up(side));
    assert all == (if f > 0 then [first] else []) + rest;
    hide Sweep, Depth;
    if f == 0 {
      SweepRecord(ls, p', limit, side, rem, ts, ref, i);
    } else if i > 0 {
      assert all[i] == rest[i - 1];
      SweepRecord(ls, p', limit, side, rem - f, ts, ref, i - 1);
    }
  }

  /** Every taker fill lies between the touch and the limit, at a displayed price. */
  lemma {:induction false} SweepInPrices(
    ls: seq<B.PriceLevel>, p: nat, limit: nat, side: char, rem: nat, ts: u64, ref: nat, x: FillRec)
    requires rem <= U32_MAX && p <= U32_MAX + (if Up(side) then 1 else 0) && limit <= U32_MAX
    requires x in Sweep(ls, p, limit, side, rem, ts, ref)
    ensures x.price > 0 && if side == SIDE_BUY then p <= x.price <= limit else limit <= x.price <= p
    ensures 0 < x.shares <= At(ls, x.price) && x.side == side && x.ourRef == ref && x.ts == ts && !x.maker
    decreases if Up(side) then limit + 1 - p else p
  {
    if rem > 0 && Within(p, limit, Up(side)) {
      var f := Min(rem, At(ls, p));
      if x in Sweep(ls, Beyond(p, Up(side)), limit, side, rem - f, ts, ref) {
        SweepInPrices(ls, Beyond(p, Up(side)), limit, side, rem - f, ts, ref, x);
      }
    }
  }

  /** A sweep that is not filled whole took everything displayed at every price up to its limit. */
  lemma {:induction false} SweepTakesAll(
    ls: seq<B.PriceLevel>, p: nat, limit: nat, side: char, rem: nat, ts: u64, ref: nat, q: nat, at: nat -> bool)
    requires rem <= U32_MAX && p <= U32_MAX + (if Up(side) then 1 else 0) && limit <= U32_MAX
    requires q > 0 && (if side == SIDE_BUY then 0 < p <= q <= limit else limit <= q <= p)
    requires (forall x: nat :: at(x) <==> x == q) && Total(Sweep(ls, p, limit, side, rem, ts, ref)) < rem
    ensures Sold(Sweep(ls, p, limit, side, rem, ts, ref), at) == At(ls, q)
    decreases if Up(side) then limit + 1 - p else p
  {
    var f := Min(rem, At(ls, p));
    var first := if f > 0 then [FillRec(ts, ref, side, p, f, false)] else [];
    var rest := Sweep(ls, Beyond(p, Up(side)), limit, side, rem - f, ts, ref);
    assert Sweep(ls, p, limit, side, rem, ts, ref) == first + rest;
    SoldConcat(first, rest, at);
    TotalJoin(first, rest);
    assert Sold(first, at) == (if p == q then f else 0) && Total(first) == f by {
      if f > 0 { assert first[1..] == []; }
    }
    if p == q {
      forall x | x in rest ensures !at(x.price) {
        SweepInPrices(ls, Beyond(p, Up(side)), limit, side, rem - f, ts, ref, x);
      }
      SoldNone(rest, at);
    } else {
      SweepTakesAll(ls, Beyond(p, Up(side)), limit, side, rem - f, ts, ref, q, at);
    }
  }

  lemma {:induction false} TotalJoin(a: seq<FillRec>, b: seq<FillRec>)
    ensures Total(a + b) == Total(a) + Total(b)
  {
    if a == [] {
      assert a + b == b;
    } else {
      assert (a + b)[1..] == a[1..] + b;
      TotalJoin(a[1..], b);
    }
  }

  // ---- conservation --------------------------------------------------------------------

  /** Remaining shares of our open orders with this reference. */
  function Held(open: seq<OpenOrder>, ref: nat): nat {
    if open == [] then 0
    else Held(open[..|open| - 1], ref) + if open[|open| - 1].ref == ref then open[|open| - 1].remaining else 0
  }

  /** Filled plus remaining. */
  function Balance(st: Overlay, ref: nat): nat {
    Given(st.fills, ref) + Held(st.open, ref)
  }

  lemma {:induction false} GivenConcat(a: seq<FillRec>, b: seq<FillRec>, ref: nat)
    ensures Given(a + b, ref) == Given(a, ref) + Given(b, ref)
  {
    if a == [] {
      assert a + b == b;
    } else {
      GivenConcat(a[1..], b, ref);
      assert (a + b)[1..] == a[1..] + b;
    }
  }

  lemma {:induction false} HeldChange(open: seq<OpenOrder>, open': seq<OpenOrder>, k: nat, f: nat, ref: nat)
    requires |open| == |open'| && (k < |open| ==> f <= open[k].remaining)
    requires forall i :: 0 <= i < |open| ==>
      open'[i].ref == open[i].ref && open'[i].remaining == open[i].remaining - if i == k then f else 0
    ensures Held(open', ref) == Held(open, ref) - if k < |open| && open[k].ref == ref then f else 0
  {
    if open != [] {
      var n := |open| - 1;
      HeldChange(open[..n], open'[..n], k, f, ref);
    }
  }

  lemma FillBalance(st: Overlay, k: nat, f: nat, ts: u64, ref: nat)
    requires k < |st.open| && f <= st.open[k].remaining
    ensures Balance(Fill(st, k, f, ts), ref) == Balance(st, ref)
    ensures Balance(FillThrough(st, k, f, ts), ref) == Balance(st, ref)
  {
    var a, b := Fill(st, k, f, ts), FillThrough(st, k, f, ts);
    if f > 0 {
      GivenConcat(st.fills, Record(st.open[k], f, ts), ref);
      HeldChange(st.open, a.open, k, f, ref);
      HeldChange(a.open, b.open, |a.open|, 0, ref);
    }
  }

  lemma {:induction false} PriceThroughBalance(st: Overlay, k: nat, side: char, price: nat, budget: nat, ts: u64,
    ref: nat)
    ensures Balance(PriceThrough(st, k, side, price, budget, ts), ref) == Balance(st, ref)
    decreases |st.open| - k
  {
    hide Balance, FillThrough;
    if k < |st.open| {
      var o := st.open[k];
      if o.remaining == 0 || !Superior(o, side, price) {
        PriceThroughBalance(st, k + 1, side, price, budget, ts, ref);
      } else {
        var f := Min(budget, o.remaining);
        FillBalance(st, k, f, ts, ref);
        FillRecords(st, k, f, ts);
        PriceThroughBalance(FillThrough(st, k, f, ts), k + 1, side, price, budget - f, ts, ref);
      }
    }
  }

  lemma {:induction false} AtLevelBalance(
    st: Overlay, k: nat, r: u64, side: char, price: nat, q: nat, through: nat, ts: u64, ref: nat)
    ensures Balance(AtLevel(st, k, r, side, price, q, through, ts), ref) == Balance(st, ref)
    decreases |st.open| - k
  {
    hide FillThrough, Fill;
    if k < |st.open| {
      var o := st.open[k];
      if !OnLevel(o, side, price) || o.remaining == 0 {
        AtLevelBalance(st, k + 1, r, side, price, q, through, ts, ref);
      } else if r <= o.watermark {
        var take := Min(q, o.queueAhead);
        var st' := st.(open := st.open[k := o.(queueAhead := o.queueAhead - take)]);
        HeldChange(st.open, st'.open, k, 0, ref);
        FillBalance(st', k, Min(q - take, o.remaining), ts, ref);
        FillRecords(st', k, Min(q - take, o.remaining), ts);
        AtLevelBalance(Fill(st', k, Min(q - take, o.remaining), ts), k + 1, r, side, price, q, through, ts, ref);
      } else {
        var f := Min(through, o.remaining);
        FillBalance(st, k, f, ts, ref);
        FillRecords(st, k, f, ts);
        AtLevelBalance(FillThrough(st, k, f, ts), k + 1, r, side, price, q, through - f, ts, ref);
      }
    }
  }

  lemma {:induction false} EraseHeld(open: seq<OpenOrder>, ref: nat)
    ensures Held(EraseFilled(open), ref) == Held(open, ref)
  {
    if open != [] {
      var n := |open| - 1;
      EraseHeld(open[..n], ref);
      if open[n].remaining > 0 {
        var e := EraseFilled(open);
        assert e[..|e| - 1] == EraseFilled(open[..n]);
      }
    }
  }

  /** No market message creates or loses a share of ours, whatever the positions are. */
  lemma MarketBalance(st: Overlay, os: Orders, loc: u16, m: Message, ref: nat)
    ensures Balance(OnMarket(st, os, loc, m), ref) == Balance(st, ref)
  {
    if m.orderRef in os && os[m.orderRef].locate == loc && !IsAdd(m) {
      var v := os[m.orderRef];
      if IsExec(m) {
        var q := Min(m.shares, v.shares);
        var a := PriceThrough(st, 0, v.side, v.price, q, m.timestamp);
        PriceThroughBalance(st, 0, v.side, v.price, q, m.timestamp, ref);
        AtLevelBalance(a, 0, m.orderRef, v.side, v.price, q, q, m.timestamp, ref);
        EraseHeld(AtLevel(a, 0, m.orderRef, v.side, v.price, q, q, m.timestamp).open, ref);
      } else {
        HeldChange(st.open, OnMarket(st, os, loc, m).open, |st.open|, 0, ref);
      }
    }
  }

  // ---- cancel -----------------------------------------------------------------------------

  function CancelAt(open: seq<OpenOrder>, i: nat): seq<OpenOrder>
    requires i < |open|
  {
    ReduceLater(open[..i] + open[i + 1..], open[i], open[i].remaining)
  }

  lemma {:induction false} OwnWithout(open: seq<OpenOrder>, i: nat, n: nat, side: char, price: nat)
    requires i < |open| && n < |open|
    ensures Own(open[..i] + open[i + 1..], n, side, price) ==
      if n <= i then Own(open, n, side, price)
      else Own(open, n + 1, side, price) - if OnLevel(open[i], side, price) then open[i].remaining else 0
  {
    if n > 0 { OwnWithout(open, i, n - 1, side, price); }
  }

  lemma {:induction false} OwnSame(open: seq<OpenOrder>, open': seq<OpenOrder>, n: nat, side: char, price: nat)
    requires SameIdentity(open, open') && n <= |open|
    requires forall i :: 0 <= i < |open| ==> open'[i].remaining == open[i].remaining
    ensures Own(open', n, side, price) == Own(open, n, side, price)
  {
    if n > 0 { OwnSame(open, open', n - 1, side, price); }
  }

  /** Where order n of the remaining list stood before order i left. */
  function Former(i: nat, n: nat): nat {
    if n < i then n else n + 1
  }

  lemma CancelMarket(open: seq<OpenOrder>, i: nat, n: nat)
    requires InOrder(open) && NonNegative(open) && i < |open| && n < |open| - 1
    ensures var open' := CancelAt(open, i);
      && open'[n] == open[Former(i, n)].(queueAhead := open'[n].queueAhead)
      && Market(open', n) == Market(open, Former(i, n))
  {
    var rest := open[..i] + open[i + 1..];
    var open' := CancelAt(open, i);
    var j := Former(i, n);
    assert rest[n] == open[j] && SameIdentity(rest, open');
    OwnSame(rest, open', n, rest[n].side, rest[n].price);
    OwnWithout(open, i, n, open[j].side, open[j].price);
    assert Market(open, j) >= 0;
    if n >= i && OnLevel(open[i], open[j].side, open[j].price) {
      OwnHas(open, i, j, open[j].side, open[j].price);
    }
  }

  /** Cancelling one of our orders moves every later one at its level up by what it still
      had, and no other. */
  lemma CancelExact(open: seq<OpenOrder>, i: nat, os: Orders, loc: u16)
    requires InOrder(open) && i < |open| && Exact(open, os, loc)
    ensures Exact(CancelAt(open, i), os, loc)
  {
    var open' := CancelAt(open, i);
    assert forall j :: 0 <= j < |open| ==>
      Market(open, j) == Ahead(os, loc, open[j].side, open[j].price, open[j].watermark);
    forall n | 0 <= n < |open'| ensures open'[n].queueAhead == Position(open', n, os, loc) {
      CancelMarket(open, i, n);
    }
  }

  /** First open order with this reference, or the length. */
  function IndexOf(open: seq<OpenOrder>, ref: nat): (i: nat)
    ensures i <= |open| && (i < |open| ==> open[i].ref == ref)
    ensures forall j :: 0 <= j < i ==> open[j].ref != ref
  {
    if open == [] then 0 else if open[0].ref == ref then 0 else 1 + IndexOf(open[1..], ref)
  }

  lemma {:induction false} HeldWithout(open: seq<OpenOrder>, i: nat, ref: nat)
    requires i < |open|
    ensures Held(open[..i] + open[i + 1..], ref) ==
      Held(open, ref) - if open[i].ref == ref then open[i].remaining else 0
    ensures open[i].ref == ref ==> open[i].remaining <= Held(open, ref)
  {
    var n := |open| - 1;
    if i < n {
      HeldWithout(open[..n], i, ref);
      var rest := open[..i] + open[i + 1..];
      assert rest[..n - 1] == open[..n][..i] + open[..n][i + 1..];
      assert rest[n - 1] == open[n];
    } else {
      assert open[..i] + open[i + 1..] == open[..n];
    }
  }

  // ---- the ledger of all synthetic orders ---------------------------------------------------

  /** Fills handed out, sizes submitted and sizes returned by cancels, by reference. */
  datatype Ledger = Ledger(taken: seq<FillRec>, submitted: map<nat, nat>, cancelled: map<nat, nat>)

  function GetNat(m: map<nat, nat>, k: nat): nat {
    if k in m then m[k] else 0
  }

  ghost predicate Conserved(st: Overlay, l: Ledger) {
    forall ref: nat ::
      Given(l.taken, ref) + Balance(st, ref) + GetNat(l.cancelled, ref) == GetNat(l.submitted, ref)
  }

  ghost predicate Bounded(open: seq<OpenOrder>, l: Ledger, nextRef: nat, nextSeq: nat, mark: u64) {
    && (forall i :: 0 <= i < |open| ==> open[i].seqNo < nextSeq && open[i].watermark <= mark && open[i].ref < nextRef)
    && (forall ref :: ref in l.submitted || ref in l.cancelled ==> ref < nextRef)
  }

  lemma HeldTail(open: seq<OpenOrder>, o: OpenOrder, ref: nat)
    ensures Held(open + [o], ref) == Held(open, ref) + if o.ref == ref then o.remaining else 0
  {
    assert (open + [o])[..|open|] == open;
  }

  /** A submission's taker fills and rested remainder account for its whole size. */
  lemma SubmitConserves(st: Overlay, l: Ledger, ref: nat, shares: u32, taker: seq<FillRec>, rest: seq<OpenOrder>)
    requires Conserved(st, l) && ref !in l.submitted && ref !in l.cancelled
    requires Total(taker) <= shares && Given(taker, ref) == Total(taker)
    requires forall other :: other != ref ==> Given(taker, other) == 0
    requires (rest == [] && Total(taker) == shares)
      || (|rest| == 1 && rest[0].ref == ref && rest[0].remaining == shares - Total(taker))
    ensures Conserved(Overlay(st.open + rest, st.fills + taker), l.(submitted := l.submitted[ref := shares]))
  {
    var st' := Overlay(st.open + rest, st.fills + taker);
    forall r: nat ensures Balance(st', r) == Balance(st, r) + if r == ref then shares else 0 {
      GivenConcat(st.fills, taker, r);
      if rest == [] { assert st.open + rest == st.open; } else { HeldTail(st.open, rest[0], r); }
    }
  }

  lemma {:induction false} CancelConserves(st: Overlay, l: Ledger, i: nat)
    requires Conserved(st, l) && i < |st.open|
    ensures var o := st.open[i];
      Conserved(Overlay(CancelAt(st.open, i), st.fills),
        l.(cancelled := l.cancelled[o.ref := GetNat(l.cancelled, o.ref) + o.remaining]))
  {
    var rest := st.open[..i] + st.open[i + 1..];
    forall r: nat ensures Held(CancelAt(st.open, i), r) ==
      Held(st.open, r) - (if st.open[i].ref == r then st.open[i].remaining else 0)
    {
      HeldWithout(st.open, i, r);
      HeldChange(rest, CancelAt(st.open, i), |rest|, 0, r);
    }
  }

  lemma MarketConserves(st: Overlay, l: Ledger, os: Orders, loc: u16, m: Message)
    requires Conserved(st, l)
    ensures Conserved(OnMarket(st, os, loc, m), l)
  {
    forall r: nat ensures Balance(OnMarket(st, os, loc, m), r) == Balance(st, r) { MarketBalance(st, os, loc, m, r); }
  }

  lemma TakeConserves(st: Overlay, l: Ledger)
    requires Conserved(st, l)
    ensures Conserved(st.(fills := []), l.(taken := l.taken + st.fills))
  {
    forall r: nat ensures Given(l.taken + st.fills, r) == Given(l.taken, r) + Given(st.fills, r) {
      GivenConcat(l.taken, st.fills, r);
    }
  }

  // ---- resting ------------------------------------------------------------------------------

  /** Once every live order has been seen, all displayed shares are ahead of a new order. */
  lemma AheadOfAll(os: Orders, loc: u16, side: char, price: nat, mark: nat)
    requires forall r :: r in os ==> r <= mark
    ensures Ahead(os, loc, side, price, mark) == Shares(os, loc, side, price)
  {
    SumMonotone(os, AheadOf(loc, side, price, mark), SharesAt(loc, side, price));
    SumMonotone(os, SharesAt(loc, side, price), AheadOf(loc, side, price, mark));
  }

  lemma RestExact(open: seq<OpenOrder>, o: OpenOrder, os: Orders, loc: u16)
    requires Exact(open, os, loc)
    requires o.queueAhead == Ahead(os, loc, o.side, o.price, o.watermark) + Own(open, |open|, o.side, o.price)
    ensures Exact(open + [o], os, loc)
  {
    forall i | 0 <= i < |open + [o]| ensures (open + [o])[i].queueAhead == Position(open + [o], i, os, loc) {
      assert (open + [o])[..|open|] == open;
      var x := (open + [o])[i];
      OwnPrefix(open + [o], |open|, i, x.side, x.price);
    }
  }

  lemma CancelInOrder(open: seq<OpenOrder>, i: nat, l: Ledger, nextRef: nat, nextSeq: nat, mark: u64, c: nat)
    requires InOrder(open) && AllLive(open) && UniqueRefs(open) && i < |open|
    requires Bounded(open, l, nextRef, nextSeq, mark)
    ensures InOrder(CancelAt(open, i)) && AllLive(CancelAt(open, i)) && UniqueRefs(CancelAt(open, i))
    ensures Bounded(CancelAt(open, i), l.(cancelled := l.cancelled[open[i].ref := c]), nextRef, nextSeq, mark)
  {
    CancelFields(open, i);
    hide CancelAt;
  }

  /** Apart from the queue ahead, the remaining orders are as they were. */
  lemma CancelFields(open: seq<OpenOrder>, i: nat)
    requires i < |open|
    ensures |CancelAt(open, i)| == |open| - 1
    ensures forall n :: 0 <= n < |open| - 1 ==>
        CancelAt(open, i)[n] == open[Former(i, n)].(queueAhead := CancelAt(open, i)[n].queueAhead)
  {}

  lemma FilledOnEntry(open: seq<OpenOrder>, l: Ledger, ref: nat, nextSeq: nat, mark: u64, size: u32)
    requires Bounded(open, l, ref, nextSeq, mark)
    ensures Bounded(open, l.(submitted := l.submitted[ref := size]), ref + 1, nextSeq, mark)
    ensures ref !in l.submitted && ref !in l.cancelled
  {}

  lemma RestInOrder(open: seq<OpenOrder>, o: OpenOrder, l: Ledger, size: u32)
    requires InOrder(open) && AllLive(open) && UniqueRefs(open) && Bounded(open, l, o.ref, o.seqNo, o.watermark)
    requires o.remaining > 0
    ensures InOrder(open + [o]) && AllLive(open + [o]) && UniqueRefs(open + [o])
    ensures Bounded(open + [o], l.(submitted := l.submitted[o.ref := size]), o.ref + 1, o.seqNo + 1, o.watermark)
  {}

  // ---- market messages keep the shape of the overlay, exact or not ---------------------------

  lemma FillIdentity(st: Overlay, k: nat, f: nat, ts: u64)
    requires k < |st.open| && f <= st.open[k].remaining
    ensures SameIdentity(st.open, Fill(st, k, f, ts).open) && SameIdentity(st.open, FillThrough(st, k, f, ts).open)
  {}

  lemma {:induction false} PriceThroughIdentity(st: Overlay, k: nat, side: char, price: nat, budget: nat, ts: u64)
    ensures SameIdentity(st.open, PriceThrough(st, k, side, price, budget, ts).open)
    decreases |st.open| - k
  {
    hide Fill, FillThrough;
    if k < |st.open| {
      var o := st.open[k];
      if o.remaining == 0 || !Superior(o, side, price) {
        PriceThroughIdentity(st, k + 1, side, price, budget, ts);
      } else {
        var f := Min(budget, o.remaining);
        FillIdentity(st, k, f, ts);
        PriceThroughIdentity(FillThrough(st, k, f, ts), k + 1, side, price, budget - f, ts);
      }
    }
  }

  lemma {:induction false} AtLevelIdentity(
    st: Overlay, k: nat, r: u64, side: char, price: nat, q: nat, through: nat, ts: u64)
    ensures SameIdentity(st.open, AtLevel(st, k, r, side, price, q, through, ts).open)
    decreases |st.open| - k
  {
    hide Fill, FillThrough;
    if k < |st.open| {
      var o := st.open[k];
      if !OnLevel(o, side, price) || o.remaining == 0 {
        AtLevelIdentity(st, k + 1, r, side, price, q, through, ts);
      } else if r <= o.watermark {
        var take := Min(q, o.queueAhead);
        var st' := st.(open := st.open[k := o.(queueAhead := o.queueAhead - take)]);
        FillIdentity(st', k, Min(q - take, o.remaining), ts);
        AtLevelIdentity(Fill(st', k, Min(q - take, o.remaining), ts), k + 1, r, side, price, q, through, ts);
      } else {
        var f := Min(through, o.remaining);
        FillIdentity(st, k, f, ts);
        AtLevelIdentity(FillThrough(st, k, f, ts), k + 1, r, side, price, q, through - f, ts);
      }
    }
  }

  lemma {:induction false} EraseUnique(open: seq<OpenOrder>)
    requires UniqueRefs(open)
    ensures UniqueRefs(EraseFilled(open))
  {
    if open != [] {
      var front := open[..|open| - 1];
      EraseUnique(front);
      EraseKeeps(front);
    }
  }

  lemma MarketKeepsShape(
    st: Overlay, os: Orders, loc: u16, m: Message, l: Ledger, nextRef: nat, nextSeq: nat, mark: u64)
    requires InOrder(st.open) && AllLive(st.open) && UniqueRefs(st.open) && Bounded(st.open, l, nextRef, nextSeq, mark)
    ensures var open := OnMarket(st, os, loc, m).open;
      InOrder(open) && AllLive(open) && UniqueRefs(open) && Bounded(open, l, nextRef, nextSeq, RaiseMark(mark, m))
  {
    hide AtLevel, PriceThrough;
    if m.orderRef in os && os[m.orderRef].locate == loc && IsExec(m) {
      var v := os[m.orderRef];
      var q := Min(m.shares, v.shares);
      var a := PriceThrough(st, 0, v.side, v.price, q, m.timestamp);
      var b := AtLevel(a, 0, m.orderRef, v.side, v.price, q, q, m.timestamp);
      PriceThroughIdentity(st, 0, v.side, v.price, q, m.timestamp);
      AtLevelIdentity(a, 0, m.orderRef, v.side, v.price, q, q, m.timestamp);
      EraseInOrder(b.open);
      EraseUnique(b.open);
      EraseKeeps(b.open);
    }
  }
}
