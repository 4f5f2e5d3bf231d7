/** Why the overlay's saturating subtractions never saturate: every step moves the market
    part of each queue position by exactly the shares that left the market. */
module QueueProofs {
  import opened Itch
  import opened QueueSpec

  /** What a queue position says about the market alone. */
  function Market(open: seq<OpenOrder>, i: nat): int
    requires i < |open|
  {
    open[i].queueAhead - Own(open, i, open[i].side, open[i].price)
  }

  ghost predicate SameIdentity(open: seq<OpenOrder>, open': seq<OpenOrder>) {
    |open'| == |open| && forall i :: 0 <= i < |open| ==>
      open'[i] == open[i].(remaining := open'[i].remaining, queueAhead := open'[i].queueAhead)
  }

  ghost predicate NonNegative(open: seq<OpenOrder>) {
    forall i :: 0 <= i < |open| ==> Market(open, i) >= 0
  }

  lemma {:induction false} OwnFill(open: seq<OpenOrder>, open': seq<OpenOrder>, k: nat, f: nat, n: nat, side: char,
    price: nat)
    requires SameIdentity(open, open') && k < |open| && n <= |open|
    requires forall i :: 0 <= i < |open| ==> open'[i].remaining == open[i].remaining - if i == k then f else 0
    ensures Own(open', n, side, price) ==
      Own(open, n, side, price) - if k < n && OnLevel(open[k], side, price) then f else 0
  {
    if n > 0 { OwnFill(open, open', k, f, n - 1, side, price); }
  }

  lemma {:induction false} OwnHas(open: seq<OpenOrder>, k: nat, n: nat, side: char, price: nat)
    requires k < n <= |open| && OnLevel(open[k], side, price)
    ensures Own(open, n, side, price) >= open[k].remaining
  {
    if k < n - 1 { OwnHas(open, k, n - 1, side, price); }
  }

  /** A pass changed only quantities, took `took(i)` shares from order i's market part and
      left the remaining shares of every order outside `fills` alone. */
  ghost predicate Moved(open: seq<OpenOrder>, open': seq<OpenOrder>, took: nat -> nat, fills: nat -> bool) {
    && SameIdentity(open, open')
    && (forall i :: 0 <= i < |open| ==> Market(open', i) == Market(open, i) - took(i))
    && (forall i :: 0 <= i < |open| && !fills(i) ==> open'[i].remaining == open[i].remaining)
  }

  lemma MovedTwice(
    a: seq<OpenOrder>, b: seq<OpenOrder>, c: seq<OpenOrder>, t: nat -> nat, f: nat -> bool,
    t': nat -> nat, f': nat -> bool, took: nat -> nat, fills: nat -> bool)
    requires Moved(a, b, t, f) && Moved(b, c, t', f')
    requires forall i :: 0 <= i < |a| ==> took(i) == t(i) + t'(i) && (f(i) || f'(i) ==> fills(i))
    ensures Moved(a, c, took, fills)
  {}

  /** A fill outside the maker path leaves every market part alone. */
  lemma FillThroughKeeps(st: Overlay, k: nat, f: nat, ts: u64)
    requires k < |st.open| && f <= st.open[k].remaining && InOrder(st.open) && NonNegative(st.open)
    ensures Moved(st.open, FillThrough(st, k, f, ts).open, _ => 0, i => i == k)
  {
    var open, open' := st.open, FillThrough(st, k, f, ts).open;
    assert SameIdentity(open, open');
    forall i | 0 <= i < |open| ensures Market(open', i) == Market(open, i) {
      OwnFill(open, open', k, f, i, open[i].side, open[i].price);
      if k < i && OnLevel(open[k], open[i].side, open[i].price) {
        OwnHas(open, k, i, open[i].side, open[i].price);
        assert Market(open, i) >= 0;
      }
    }
  }

  lemma {:induction false} PriceThroughKeeps(st: Overlay, k: nat, side: char, price: nat, budget: nat, ts: u64)
    requires k <= |st.open| && InOrder(st.open) && NonNegative(st.open)
    ensures Moved(st.open, PriceThrough(st, k, side, price, budget, ts).open, _ => 0,
      i => k <= i < |st.open| && Superior(st.open[i], side, price))
    decreases |st.open| - k
  {
    hide FillThrough, Market;
    if k < |st.open| {
      var o := st.open[k];
      if o.remaining == 0 || !Superior(o, side, price) {
        PriceThroughKeeps(st, k + 1, side, price, budget, ts);
      } else {
        var f := Min(budget, o.remaining);
        FillThroughKeeps(st, k, f, ts);
        PriceThroughKeeps(FillThrough(st, k, f, ts), k + 1, side, price, budget - f, ts);
      }
    }
  }

  /** The order was ahead of open order o at the level it left. */
  predicate AheadAt(o: OpenOrder, r: u64, side: char, price: nat) {
    OnLevel(o, side, price) && r <= o.watermark
  }

  predicate BehindAt(o: OpenOrder, r: u64, side: char, price: nat) {
    OnLevel(o, side, price) && o.watermark < r
  }

  function Drained(open: seq<OpenOrder>, k: nat, r: u64, side: char, price: nat, q: nat): nat -> nat {
    i => if k <= i < |open| && AheadAt(open[i], r, side, price) then q else 0
  }

  function Filled(open: seq<OpenOrder>, k: nat, r: u64, side: char, price: nat): nat -> bool {
    i => k <= i < |open| && BehindAt(open[i], r, side, price)
  }

  lemma DrainKeeps(open: seq<OpenOrder>, k: nat, q: nat)
    requires k < |open| && Market(open, k) >= q
    ensures open[k].queueAhead >= q
    ensures Moved(open, open[k := open[k].(queueAhead := open[k].queueAhead - q)],
      i => if i == k then q else 0, _ => false)
  {
    var open' := open[k := open[k].(queueAhead := open[k].queueAhead - q)];
    forall i | 0 <= i < |open| ensures Market(open', i) == Market(open, i) - if i == k then q else 0 {
      OwnFill(open, open', k, 0, i, open[i].side, open[i].price);
    }
  }

  lemma {:induction false} AtLevelKeeps(
    st: Overlay, k: nat, r: u64, side: char, price: nat, q: nat, through: nat, ts: u64)
    requires k <= |st.open| && InOrder(st.open) && NonNegative(st.open)
    requires forall i :: k <= i < |st.open| && OnLevel(st.open[i], side, price) ==> st.open[i].remaining > 0
    requires forall i :: k <= i < |st.open| && AheadAt(st.open[i], r, side, price) ==> Market(st.open, i) >= q
    ensures Moved(st.open, AtLevel(st, k, r, side, price, q, through, ts).open,
      Drained(st.open, k, r, side, price, q), Filled(st.open, k, r, side, price))
    decreases |st.open| - k, 1
  {
    hide FillThrough, Market;
    if k < |st.open| {
      var o := st.open[k];
      var res := AtLevel(st, k, r, side, price, q, through, ts).open;
      if !OnLevel(o, side, price) || o.remaining == 0 {
        AtLevelKeeps(st, k + 1, r, side, price, q, through, ts);
        MovedTwice(st.open, st.open, res, _ => 0, _ => false,
          Drained(st.open, k + 1, r, side, price, q), Filled(st.open, k + 1, r, side, price),
          Drained(st.open, k, r, side, price, q), Filled(st.open, k, r, side, price));
      } else if r <= o.watermark {
        AheadKeeps(st, k, r, side, price, q, through, ts);
      } else {
        BehindKeeps(st, k, r, side, price, q, through, ts);
      }
    }
  }

  /** Order k lies behind the executed order: the market ahead of it moved up. */
  lemma {:induction false} AheadKeeps(
    st: Overlay, k: nat, r: u64, side: char, price: nat, q: nat, through: nat, ts: u64)
    requires k < |st.open| && OnLevel(st.open[k], side, price) && r <= st.open[k].watermark
    requires InOrder(st.open) && NonNegative(st.open)
    requires forall i :: k <= i < |st.open| && OnLevel(st.open[i], side, price) ==> st.open[i].remaining > 0
    requires forall i :: k <= i < |st.open| && AheadAt(st.open[i], r, side, price) ==> Market(st.open, i) >= q
    ensures Moved(st.open, AtLevel(st, k, r, side, price, q, through, ts).open,
      Drained(st.open, k, r, side, price, q), Filled(st.open, k, r, side, price))
    decreases |st.open| - k, 0
  {
    hide FillThrough, Market;
    var o := st.open[k];
    var res := AtLevel(st, k, r, side, price, q, through, ts).open;
    assert o.remaining > 0;
    DrainKeeps(st.open, k, q);
    var st' := st.(open := st.open[k := o.(queueAhead := o.queueAhead - q)]);
    assert Fill(st', k, Min(0, o.remaining), ts) == st';
    AtLevelKeeps(st', k + 1, r, side, price, q, through, ts);
    MovedTwice(st.open, st'.open, res, i => if i == k then q else 0, _ => false,
      Drained(st'.open, k + 1, r, side, price, q), Filled(st'.open, k + 1, r, side, price),
      Drained(st.open, k, r, side, price, q), Filled(st.open, k, r, side, price));
  }

  /** Order k lies ahead of the executed order: the market traded through it. */
  lemma {:induction false} BehindKeeps(
    st: Overlay, k: nat, r: u64, side: char, price: nat, q: nat, through: nat, ts: u64)
    requires k < |st.open| && OnLevel(st.open[k], side, price) && r > st.open[k].watermark
    requires InOrder(st.open) && NonNegative(st.open)
    requires forall i :: k <= i < |st.open| && OnLevel(st.open[i], side, price) ==> st.open[i].remaining > 0
    requires forall i :: k <= i < |st.open| && AheadAt(st.open[i], r, side, price) ==> Market(st.open, i) >= q
    ensures Moved(st.open, AtLevel(st, k, r, side, price, q, through, ts).open,
      Drained(st.open, k, r, side, price, q), Filled(st.open, k, r, side, price))
    decreases |st.open| - k, 0
  {
    hide FillThrough, Market;
    var o := st.open[k];
    var res := AtLevel(st, k, r, side, price, q, through, ts).open;
    assert o.remaining > 0;
    var f := Min(through, o.remaining);
    var st' := FillThrough(st, k, f, ts);
    FillThroughKeeps(st, k, f, ts);
    AtLevelKeeps(st', k + 1, r, side, price, q, through - f, ts);
    MovedTwice(st.open, st'.open, res, _ => 0, i => i == k,
      Drained(st'.open, k + 1, r, side, price, q), Filled(st'.open, k + 1, r, side, price),
      Drained(st.open, k, r, side, price, q), Filled(st.open, k, r, side, price));
  }
}
