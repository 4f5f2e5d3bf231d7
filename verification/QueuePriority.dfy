/** Price priority of the queue overlay, said in prices: whom an execution of the market fills,
    whom it leaves alone, and how much goes to better prices first. */
module QueuePriority {
  import opened Itch
  import opened QueueSpec
  import opened QueueProofs
  import opened QueueExact

  /** Shares of the records at the prices of a set. */
  function Sold(fills: seq<FillRec>, at: nat -> bool): nat {
    if fills == [] then 0 else (if at(fills[0].price) then fills[0].shares else 0) + Sold(fills[1..], at)
  }

  /** Shares our orders from k on still want on one side, at the prices of a set. */
  function Wanted(open: seq<OpenOrder>, k: nat, side: char, at: nat -> bool): nat
    decreases |open| - k
  {
    if k >= |open| then 0
    else (if open[k].side == side && at(open[k].price) then open[k].remaining else 0) + Wanted(open, k + 1, side, at)
  }

  lemma {:induction false} SoldConcat(a: seq<FillRec>, b: seq<FillRec>, at: nat -> bool)
    ensures Sold(a + b, at) == Sold(a, at) + Sold(b, at)
  {
    if a == [] {
      assert a + b == b;
    } else {
      assert (a + b)[1..] == a[1..] + b;
      SoldConcat(a[1..], b, at);
    }
  }

  lemma {:induction false} WantedSame(open: seq<OpenOrder>, open': seq<OpenOrder>, k: nat, side: char, at: nat -> bool)
    requires SameIdentity(open, open')
    requires forall i :: k <= i < |open| && open[i].side == side && at(open[i].price) ==>
      open'[i].remaining == open[i].remaining
    ensures Wanted(open', k, side, at) == Wanted(open, k, side, at)
    decreases |open| - k
  {
    if k < |open| { WantedSame(open, open', k + 1, side, at); }
  }

  /** Someone who still wants shares counts. */
  lemma {:induction false} WantedHas(open: seq<OpenOrder>, k: nat, i: nat, side: char, at: nat -> bool)
    requires k <= i < |open| && open[i].side == side && at(open[i].price)
    ensures Wanted(open, k, side, at) >= open[i].remaining
    decreases i - k
  {
    if k < i { WantedHas(open, k + 1, i, side, at); }
  }

  /** A fill of one of these orders, at its price, as a maker. */
  ghost predicate OfOurs(x: FillRec, open: seq<OpenOrder>, side: char, ts: u64) {
    && x.side == side && x.maker && x.ts == ts && x.shares > 0
    && exists i :: 0 <= i < |open| && open[i].ref == x.ourRef && open[i].side == side && open[i].price == x.price
  }

  lemma OfOursSame(x: FillRec, open: seq<OpenOrder>, open': seq<OpenOrder>, side: char, ts: u64)
    requires SameIdentity(open, open') && OfOurs(x, open', side, ts)
    ensures OfOurs(x, open, side, ts)
  {
    var i :| 0 <= i < |open'| && open'[i].ref == x.ourRef && open'[i].side == side && open'[i].price == x.price;
    assert open[i].ref == x.ourRef;
  }

  // ---- the first pass -----------------------------------------------------------------------------

  /** New fills of a pass, and who may have changed. */
  ghost predicate Passed(st: Overlay, res: Overlay, side: char, ts: u64, at: nat -> bool, k: nat) {
    && st.fills <= res.fills && SameIdentity(st.open, res.open)
    && (forall x :: x in res.fills[|st.fills|..] ==> OfOurs(x, st.open, side, ts) && at(x.price))
    && (forall i :: 0 <= i < |st.open| && !(k <= i && st.open[i].side == side && at(st.open[i].price)) ==>
      res.open[i].remaining == st.open[i].remaining)
  }

  lemma FillOne(st: Overlay, k: nat, f: nat, ts: u64, at: nat -> bool)
    requires k < |st.open| && f <= st.open[k].remaining && at(st.open[k].price)
    ensures var o, st' := st.open[k], FillThrough(st, k, f, ts);
      && Passed(st, st', o.side, ts, at, k) && |st'.open| == |Fill(st, k, f, ts).open| == |st.open|
      && Passed(st, Fill(st, k, f, ts), o.side, ts, at, k)
      && st'.open[k].remaining == o.remaining - f
      && (forall i :: 0 <= i < |st.open| && i != k ==> st'.open[i].remaining == st.open[i].remaining)
      && Sold(st'.fills[|st.fills|..], at) == f
  {
    var o := st.open[k];
    FillRecords(st, k, f, ts);
    var made := FillThrough(st, k, f, ts).fills[|st.fills|..];
    assert made == Record(o, f, ts);
    if f > 0 {
      assert made[1..] == [];
      assert OfOurs(made[0], st.open, o.side, ts);
      assert Fill(st, k, f, ts).fills[|st.fills|..] == made;
    }
  }

  lemma PassedTwice(a: Overlay, b: Overlay, c: Overlay, side: char, ts: u64, at: nat -> bool, k: nat)
    requires Passed(a, b, side, ts, at, k) && Passed(b, c, side, ts, at, k + 1)
    ensures Passed(a, c, side, ts, at, k)
    ensures Sold(c.fills[|a.fills|..], at) == Sold(b.fills[|a.fills|..], at) + Sold(c.fills[|b.fills|..], at)
  {
    var x1, x2 := b.fills[|a.fills|..], c.fills[|b.fills|..];
    assert c.fills[|a.fills|..] == x1 + x2;
    SoldConcat(x1, x2, at);
    forall x | x in c.fills[|a.fills|..] ensures OfOurs(x, a.open, side, ts) && at(x.price) {
      if x !in x1 { OfOursSame(x, a.open, b.open, side, ts); }
    }
    hide OfOurs;
  }

  /** The first pass fills our orders of the executed side at strictly better prices, in all as
      much as they want or as there is. */
  lemma {:induction false} BetterFirst(
    st: Overlay, k: nat, side: char, price: nat, budget: nat, ts: u64, at: nat -> bool)
    requires forall p: nat :: at(p) <==> if side == SIDE_BUY then p > price else p < price
    ensures var res := PriceThrough(st, k, side, price, budget, ts);
      && Passed(st, res, side, ts, at, k)
      && Sold(res.fills[|st.fills|..], at) == Min(budget, Wanted(st.open, k, side, at))
      && Wanted(res.open, k, side, at) == Wanted(st.open, k, side, at) - Sold(res.fills[|st.fills|..], at)
    decreases |st.open| - k
  {
    hide FillThrough, Passed, Fill;
    if k >= |st.open| {
      PassedNothing(st, side, ts, at, k);
    } else {
      var o := st.open[k];
      if o.remaining == 0 || !(o.side == side && at(o.price)) {
        BetterFirst(st, k + 1, side, price, budget, ts, at);
        var res := PriceThrough(st, k, side, price, budget, ts);
        SameBefore(st, res, side, ts, at, k);
        PassedEarlier(st, res, side, ts, at, k);
      } else {
        var f := Min(budget, o.remaining);
        var st' := FillThrough(st, k, f, ts);
        FillOne(st, k, f, ts, at);
        BetterFirst(st', k + 1, side, price, budget - f, ts, at);
        var res := PriceThrough(st', k + 1, side, price, budget - f, ts);
        PassedTwice(st, st', res, side, ts, at, k);
        SameBefore(st', res, side, ts, at, k);
        SameBefore(st, st', side, ts, at, k);
        WantedSame(st.open, st'.open, k + 1, side, at);
      }
    }
  }

  lemma PassedNothing(st: Overlay, side: char, ts: u64, at: nat -> bool, k: nat)
    ensures Passed(st, st, side, ts, at, k) && st.fills[|st.fills|..] == []
  {}

  lemma PassedEarlier(st: Overlay, res: Overlay, side: char, ts: u64, at: nat -> bool, k: nat)
    requires Passed(st, res, side, ts, at, k + 1)
    ensures Passed(st, res, side, ts, at, k)
  {}

  lemma SameBefore(st: Overlay, res: Overlay, side: char, ts: u64, at: nat -> bool, k: nat)
    requires k < |st.open|
    ensures Passed(st, res, side, ts, at, k) || Passed(st, res, side, ts, at, k + 1) ==> |res.open| == |st.open|
    ensures Passed(st, res, side, ts, at, k) || Passed(st, res, side, ts, at, k + 1) ==>
      SameIdentity(st.open, res.open) && res.open[k].side == st.open[k].side && res.open[k].price == st.open[k].price
    ensures Passed(st, res, side, ts, at, k + 1) ==> res.open[k].remaining == st.open[k].remaining
  {}

  // ---- the second pass ----------------------------------------------------------------------------

  /** The second pass fills orders at the executed price only. */
  lemma {:induction false} ThenLevel(
    st: Overlay, k: nat, r: u64, side: char, price: nat, q: nat, through: nat, ts: u64, at: nat -> bool)
    requires forall p: nat :: at(p) <==> p == price
    ensures Passed(st, AtLevel(st, k, r, side, price, q, through, ts), side, ts, at, k)
    decreases |st.open| - k
  {
    hide FillThrough, Passed, Fill;
    if k >= |st.open| {
      PassedNothing(st, side, ts, at, k);
    } else {
      var o := st.open[k];
      if !OnLevel(o, side, price) || o.remaining == 0 {
        ThenLevel(st, k + 1, r, side, price, q, through, ts, at);
        PassedEarlier(st, AtLevel(st, k, r, side, price, q, through, ts), side, ts, at, k);
      } else if r <= o.watermark {
        var take := Min(q, o.queueAhead);
        var st' := st.(open := st.open[k := o.(queueAhead := o.queueAhead - take)]);
        var b := Fill(st', k, Min(q - take, o.remaining), ts);
        FillOne(st', k, Min(q - take, o.remaining), ts, at);
        DrainPassed(st, st', b, side, ts, at, k);
        ThenLevel(b, k + 1, r, side, price, q, through, ts, at);
        PassedTwice(st, b, AtLevel(b, k + 1, r, side, price, q, through, ts), side, ts, at, k);
      } else {
        var f := Min(through, o.remaining);
        var b := FillThrough(st, k, f, ts);
        FillOne(st, k, f, ts, at);
        ThenLevel(b, k + 1, r, side, price, q, through - f, ts, at);
        PassedTwice(st, b, AtLevel(b, k + 1, r, side, price, q, through - f, ts), side, ts, at, k);
      }
    }
  }

  lemma DrainPassed(st: Overlay, st': Overlay, b: Overlay, side: char, ts: u64, at: nat -> bool, k: nat)
    requires k < |st.open| && st' == st.(open := st'.open) && SameIdentity(st.open, st'.open)
    requires forall i :: 0 <= i < |st.open| ==> st'.open[i].remaining == st.open[i].remaining
    requires Passed(st', b, side, ts, at, k)
    ensures Passed(st, b, side, ts, at, k)
  {
    forall x | x in b.fills[|st.fills|..] ensures OfOurs(x, st.open, side, ts) && at(x.price) {
      OfOursSame(x, st.open, st'.open, side, ts);
    }
    hide OfOurs;
  }

  /** On the other side, or at a price worse than the executed one. */
  predicate Spared(o: OpenOrder, side: char, price: nat) {
    o.side != side || if side == SIDE_BUY then o.price < price else o.price > price
  }

  // ---- an execution ---------------------------------------------------------------------------------

  /** Both passes in prices, before filled orders are erased. */
  lemma PassesInPrices(
    st: Overlay, r: u64, side: char, price: nat, q: nat, ts: u64, better: nat -> bool, level: nat -> bool)
    requires forall p: nat :: better(p) <==> if side == SIDE_BUY then p > price else p < price
    requires forall p: nat :: level(p) <==> p == price
    ensures var res := ExecPasses(st, r, side, price, q, ts);
      && st.fills <= res.fills && SameIdentity(st.open, res.open)
      && var made := res.fills[|st.fills|..];
      && (forall x :: x in made ==> OfOurs(x, st.open, side, ts) && (better(x.price) || level(x.price)))
      && (forall i :: 0 <= i < |st.open| && Spared(st.open[i], side, price) ==>
        res.open[i].remaining == st.open[i].remaining)
      && Sold(made, better) == Min(q, Wanted(st.open, 0, side, better))
      && Wanted(res.open, 0, side, better) == Wanted(st.open, 0, side, better) - Sold(made, better)
  {
    var a := PriceThrough(st, 0, side, price, q, ts);
    var res := AtLevel(a, 0, r, side, price, q, q, ts);
    BetterFirst(st, 0, side, price, q, ts, better);
    ThenLevel(a, 0, r, side, price, q, q, ts, level);
    var x1, x2 := a.fills[|st.fills|..], res.fills[|a.fills|..];
    assert res.fills[|st.fills|..] == x1 + x2;
    SoldConcat(x1, x2, better);
    SoldNone(x2, better);
    WantedSame(a.open, res.open, 0, side, better);
    hide PriceThrough, AtLevel;
    forall x | x in x2 ensures OfOurs(x, st.open, side, ts) { OfOursSame(x, st.open, a.open, side, ts); }
    hide OfOurs, Wanted, Sold;
  }

  lemma {:induction false} SoldNone(fills: seq<FillRec>, at: nat -> bool)
    requires forall x :: x in fills ==> !at(x.price)
    ensures Sold(fills, at) == 0
  {
    if fills != [] { SoldNone(fills[1..], at); }
  }

  lemma ExecIsPasses(st: Overlay, r: u64, side: char, price: nat, q: nat, ts: u64)
    ensures var passes := AtLevel(PriceThrough(st, 0, side, price, q, ts), 0, r, side, price, q, q, ts);
      HandleExec(st, r, side, price, q, ts) == passes.(open := EraseFilled(passes.open))
  {}

  /** Every new fill of one execution is of an order of ours on the executed side, at its own
      price and no worse than the executed one; orders at worse prices or on the other side keep
      their shares. */
  lemma FillsInPrices(st: Overlay, r: u64, side: char, price: nat, q: nat, ts: u64)
    ensures var res := HandleExec(st, r, side, price, q, ts);
      && st.fills <= res.fills
      && (forall x :: x in res.fills[|st.fills|..] ==>
        OfOurs(x, st.open, side, ts) && if side == SIDE_BUY then x.price >= price else x.price <= price)
      && (forall o :: o in st.open && o.remaining > 0 && Spared(o, side, price) ==>
        exists o' :: o' in res.open && o' == o.(queueAhead := o'.queueAhead))
  {
    var better := (p: nat) => if side == SIDE_BUY then p > price else p < price;
    var level := (p: nat) => p == price;
    var passes, res := ExecPasses(st, r, side, price, q, ts), HandleExec(st, r, side, price, q, ts);
    PassesInPrices(st, r, side, price, q, ts, better, level);
    assert res.fills == passes.fills && res.open == EraseFilled(passes.open);
    hide HandleExec, ExecPasses, OfOurs, Spared, Wanted, Sold, EraseFilled;
    EraseKeeps(passes.open);
    forall o | o in st.open && o.remaining > 0 && Spared(o, side, price)
      ensures exists o' :: o' in res.open && o' == o.(queueAhead := o'.queueAhead)
    {
      var i :| 0 <= i < |st.open| && st.open[i] == o;
      assert passes.open[i] in passes.open;
    }
  }

  /** Price priority: strictly better prices get all our orders there want, or all there is; while
      one of them is incomplete they were given exactly the executed quantity. */
  lemma PricePriority(st: Overlay, r: u64, side: char, price: nat, q: nat, ts: u64)
    ensures var res := HandleExec(st, r, side, price, q, ts);
      var better := (p: nat) => if side == SIDE_BUY then p > price else p < price;
      && st.fills <= res.fills
      && Sold(res.fills[|st.fills|..], better) == Min(q, Wanted(st.open, 0, side, better))
      && forall o :: o in res.open && o.side == side && better(o.price) ==> Sold(res.fills[|st.fills|..], better) == q
  {
    var better := (p: nat) => if side == SIDE_BUY then p > price else p < price;
    var level := (p: nat) => p == price;
    var passes, res := ExecPasses(st, r, side, price, q, ts), HandleExec(st, r, side, price, q, ts);
    PassesInPrices(st, r, side, price, q, ts, better, level);
    assert res.fills == passes.fills && res.open == EraseFilled(passes.open);
    hide HandleExec, ExecPasses, OfOurs, Spared, Wanted, Sold, EraseFilled;
    EraseKeeps(passes.open);
    forall o | o in res.open && o.side == side && better(o.price) ensures Sold(res.fills[|st.fills|..], better) == q {
      var i :| 0 <= i < |passes.open| && passes.open[i] == o;
      WantedHas(passes.open, 0, i, side, better);
    }
  }

  // ---- the queue in front ---------------------------------------------------------------------------

  /** An executed quantity first uses up the queue in front of an order, then fills it. */
  predicate Took(o: OpenOrder, o': OpenOrder, q: nat) {
    && o'.queueAhead <= o.queueAhead && o'.remaining <= o.remaining
    && (o.queueAhead - o'.queueAhead) + (o.remaining - o'.remaining) == Min(q, o.queueAhead + o.remaining)
    && (o'.remaining < o.remaining ==> o'.queueAhead == 0)
  }

  /** The first pass does not touch the executed level. */
  lemma {:induction false} ThroughSpares(
    st: Overlay, k: nat, side: char, price: nat, budget: nat, ts: u64, i: nat)
    requires i < |st.open| && st.open[i].price == price
    ensures PriceThrough(st, k, side, price, budget, ts).open[i] == st.open[i]
    decreases |st.open| - k
  {
    if k < |st.open| {
      var o := st.open[k];
      if o.remaining == 0 || !Superior(o, side, price) {
        ThroughSpares(st, k + 1, side, price, budget, ts, i);
      } else {
        var f := Min(budget, o.remaining);
        assert FillThrough(st, k, f, ts).open[i] == st.open[i];
        ThroughSpares(FillThrough(st, k, f, ts), k + 1, side, price, budget - f, ts, i);
      }
    }
  }

  /** Where the executed order was in front of all of ours, the second pass takes from each what
      the queue in front of it leaves. */
  lemma {:induction false} EachDrains(
    st: Overlay, k: nat, r: u64, side: char, price: nat, q: nat, through: nat, ts: u64, i: nat)
    requires k <= i < |st.open| && st.open[i].side == side && st.open[i].price == price && st.open[i].remaining > 0
    requires forall j :: k <= j < |st.open| && st.open[j].side == side && st.open[j].price == price ==>
      r <= st.open[j].watermark
    ensures var o, o' := st.open[i], AtLevel(st, k, r, side, price, q, through, ts).open[i];
      Took(o, o', q) && o' == o.(remaining := o'.remaining, queueAhead := o'.queueAhead)
    decreases |st.open| - k
  {
    var o := st.open[k];
    if !OnLevel(o, side, price) || o.remaining == 0 {
      EachDrains(st, k + 1, r, side, price, q, through, ts, i);
    } else {
      var take := Min(q, o.queueAhead);
      var st' := st.(open := st.open[k := o.(queueAhead := o.queueAhead - take)]);
      var b := Fill(st', k, Min(q - take, o.remaining), ts);
      assert forall j :: 0 <= j < |st.open| && j != k ==> b.open[j] == st.open[j];
      if k < i {
        EachDrains(b, k + 1, r, side, price, q, through, ts, i);
      } else {
        AlreadyPast(b, k + 1, r, side, price, q, through, ts, i);
      }
    }
  }

  lemma {:induction false} AlreadyPast(
    st: Overlay, k: nat, r: u64, side: char, price: nat, q: nat, through: nat, ts: u64, i: nat)
    requires i < |st.open| && i < k
    requires forall j :: k <= j < |st.open| && st.open[j].side == side && st.open[j].price == price ==>
      r <= st.open[j].watermark
    ensures AtLevel(st, k, r, side, price, q, through, ts).open[i] == st.open[i]
    decreases |st.open| - k
  {
    if k < |st.open| {
      var o := st.open[k];
      if !OnLevel(o, side, price) || o.remaining == 0 {
        AlreadyPast(st, k + 1, r, side, price, q, through, ts, i);
      } else {
        var take := Min(q, o.queueAhead);
        var st' := st.(open := st.open[k := o.(queueAhead := o.queueAhead - take)]);
        var b := Fill(st', k, Min(q - take, o.remaining), ts);
        assert forall j :: 0 <= j < |st.open| && j != k ==> b.open[j] == st.open[j];
        AlreadyPast(b, k + 1, r, side, price, q, through, ts, i);
      }
    }
  }

  /** An execution of an order that was in front of all of ours at its level: each of ours there
      first loses the queue in front of it, and is filled only with the rest. */
  lemma QueueFirst(st: Overlay, r: u64, side: char, price: nat, q: nat, ts: u64, i: nat) returns (o': OpenOrder)
    requires i < |st.open| && st.open[i].side == side && st.open[i].price == price && st.open[i].remaining > 0
    requires forall o :: o in st.open && o.side == side && o.price == price ==> r <= o.watermark
    ensures var o, res := st.open[i], HandleExec(st, r, side, price, q, ts);
      && Took(o, o', q) && o' == o.(remaining := o'.remaining, queueAhead := o'.queueAhead)
      && (o'.remaining > 0 ==> o' in res.open)
  {
    var a := PriceThrough(st, 0, side, price, q, ts);
    forall j | 0 <= j < |st.open| && a.open[j].side == side && a.open[j].price == price
      ensures r <= a.open[j].watermark
    {
      var better := (p: nat) => if side == SIDE_BUY then p > price else p < price;
      BetterFirst(st, 0, side, price, q, ts, better);
      assert st.open[j] in st.open;
    }
    ThroughSpares(st, 0, side, price, q, ts, i);
    EachDrains(a, 0, r, side, price, q, q, ts, i);
    o' := AtLevel(a, 0, r, side, price, q, q, ts).open[i];
    hide PriceThrough, AtLevel;
    EraseKeeps(AtLevel(a, 0, r, side, price, q, q, ts).open);
  }
}
