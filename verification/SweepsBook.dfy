/** What a marketable submission takes, said in the market's live orders: price by price, whatever
    rests on the other side within its limit, best prices first, as far as its size goes. */
module SweepsBook {
  import opened Itch
  import opened LiveOrders
  import opened BookSpec
  import opened QueueSpec
  import opened QueuePriority
  import opened QueueLedger
  import opened Session
  import E = BookEngine
  import F = FillEngine
  import B = OrderBook

  /** A live order on the other side at a price no worse than q for the submitter. */
  predicate Crosses(o: Order, loc: u16, side: char, q: nat) {
    && o.locate == loc
    && if side == SIDE_BUY then o.side == SIDE_SELL && o.price <= q else o.side == SIDE_BUY && o.price >= q
  }

  ghost function Crossing(loc: u16, side: char, q: nat): Weight {
    (r: u64, o: Order) => if Crosses(o, loc, side, q) then o.shares else 0
  }

  lemma {:induction false} SumAdds(m: Orders, u: Weight, v: Weight, w: Weight)
    requires forall r :: r in m ==> w(r, m[r]) == u(r, m[r]) + v(r, m[r])
    ensures Sum(m, w) == Sum(m, u) + Sum(m, v)
    decreases |m|
  {
    if m != map[] {
      var r :| r in m;
      SumSplit(m, u, r);
      SumSplit(m, v, r);
      SumSplit(m, w, r);
      SumAdds(m - {r}, u, v, w);
    }
  }

  // ---- the sweep up to a price ----------------------------------------------------------------------

  /** At or before q on the way of a sweep. */
  function UpTo(side: char, q: nat): nat -> bool {
    (p: nat) => if side == SIDE_BUY then p <= q else p >= q
  }

  /** What a sweep sells up to a price is what is displayed there, as far as its size goes. */
  lemma {:induction false} SoldUpTo(
    ls: seq<B.PriceLevel>, p: nat, limit: nat, side: char, rem: nat, ts: u64, ref: nat, q: nat)
    requires rem <= U32_MAX && p <= U32_MAX + (if Up(side) then 1 else 0) && limit <= U32_MAX
    requires if side == SIDE_BUY then q <= limit else q >= limit
    ensures Sold(Sweep(ls, p, limit, side, rem, ts, ref), UpTo(side, q)) == Min(rem, Depth(ls, p, q, Up(side)))
    decreases if Up(side) then limit + 1 - p else p
  {
    var at := UpTo(side, q);
    if !Within(p, q, Up(side)) {
      forall x | x in Sweep(ls, p, limit, side, rem, ts, ref) ensures !at(x.price) {
        SweepInPrices(ls, p, limit, side, rem, ts, ref, x);
      }
      SoldNone(Sweep(ls, p, limit, side, rem, ts, ref), at);
    } else if rem > 0 {
      var f := Min(rem, At(ls, p));
      var first := if f > 0 then [FillRec(ts, ref, side, p, f, false)] else [];
      var rest := Sweep(ls, Beyond(p, Up(side)), limit, side, rem - f, ts, ref);
      SoldUpTo(ls, Beyond(p, Up(side)), limit, side, rem - f, ts, ref, q);
      SoldConcat(first, rest, at);
      assert Sold(first, at) == f by {
        if f > 0 { assert first[1..] == []; }
      }
    }
  }

  // ---- displayed depth is resting size ----------------------------------------------------------------

  /** Resting size on one side between two prices. */
  ghost function Between(loc: u16, side: char, lo: nat, hi: nat): Weight {
    (r: u64, o: Order) => if o.locate == loc && o.side == side && lo <= o.price <= hi then o.shares else 0
  }

  ghost predicate Displays(ls: seq<B.PriceLevel>, os: Orders, loc: u16, side: char) {
    forall p: nat :: p > 0 ==> At(ls, p) == Shares(os, loc, side, p)
  }

  lemma {:induction false} DepthIsBetween(ls: seq<B.PriceLevel>, os: Orders, loc: u16, p: nat, q: nat, up: bool)
    requires Displays(ls, os, loc, if up then SIDE_SELL else SIDE_BUY)
    ensures Depth(ls, p, q, up) ==
      if p == 0 then 0
      else if up then Sum(os, Between(loc, SIDE_SELL, p, q))
      else Sum(os, Between(loc, SIDE_BUY, if q == 0 then 1 else q, p))
    decreases if up then q + 1 - p else p
  {
    var side, low := if up then SIDE_SELL else SIDE_BUY, if q == 0 then 1 else q;
    var all := if up then Between(loc, side, p, q) else Between(loc, side, low, p);
    if p > 0 && !Within(p, q, up) {
      SumZero(os, all);
    } else if p > 0 {
      DepthIsBetween(ls, os, loc, Beyond(p, up), q, up);
      if !up && p == 1 {
        SumAdds(os, SharesAt(loc, side, p), Nobody(), all);
        SumZero(os, Nobody());
      } else {
        var rest := if up then Between(loc, side, p + 1, q) else Between(loc, side, low, p - 1);
        SumAdds(os, SharesAt(loc, side, p), rest, all);
      }
    }
  }

  ghost function Nobody(): Weight {
    (r: u64, o: Order) => 0
  }

  /** What is displayed from the touch on is everything that crosses. */
  lemma DepthIsCrossing(os: Orders, loc: u16, levels: u32, side: char, q: nat)
    requires WellFormed(os, levels) && ValidSide(side)
    requires forall s: char, p: nat :: Shares(os, loc, s, p) <= U32_MAX
    ensures var other := if side == SIDE_BUY then SIDE_SELL else SIDE_BUY;
      var ls := Shown(os, loc, other, levels);
      Depth(ls, Nearest(ls, Up(side)), q, Up(side)) == Sum(os, Crossing(loc, side, q))
  {
    var other := if side == SIDE_BUY then SIDE_SELL else SIDE_BUY;
    var ls := Shown(os, loc, other, levels);
    var p := Nearest(ls, Up(side));
    ShownDisplays(os, loc, other, levels);
    DepthIsBetween(ls, os, loc, p, q, Up(side));
    forall r | r in os && Crosses(os[r], loc, side, q)
      ensures p > 0 && if Up(side) then p <= os[r].price else p >= os[r].price
    {
      SumBounds(os, SharesAt(loc, other, os[r].price), r);
      assert ls[os[r].price].shares == At(ls, os[r].price) > 0;
    }
    if p == 0 {
      SumZero(os, Crossing(loc, side, q));
    } else {
      var all := if Up(side) then Between(loc, other, p, q) else Between(loc, other, if q == 0 then 1 else q, p);
      SumAdds(os, all, Nobody(), Crossing(loc, side, q));
      SumZero(os, Nobody());
    }
  }

  lemma ShownDisplays(os: Orders, loc: u16, side: char, levels: u32)
    requires WellFormed(os, levels)
    requires forall s: char, p: nat :: Shares(os, loc, s, p) <= U32_MAX
    ensures Displays(Shown(os, loc, side, levels), os, loc, side)
    ensures |Shown(os, loc, side, levels)| == if levels > 0 then levels else 1
  {
    forall p: nat | p >= |Shown(os, loc, side, levels)| ensures Shares(os, loc, side, p) == 0 {
      SumZero(os, SharesAt(loc, side, p));
    }
  }

  // ---- submissions ------------------------------------------------------------------------------------

  /** For every price within the limit: the fills at prices no worse than it come to everything
      resting there on the other side, or to the whole size if that is less. */
  lemma TakesCrossing(os: Orders, loc: u16, levels: u32, a: Action, ref: nat, q: nat)
    requires WellFormed(os, levels) && a.Submit? && ValidSide(a.side)
    requires forall s: char, p: nat :: Shares(os, loc, s, p) <= U32_MAX
    requires if a.side == SIDE_BUY then q <= a.price else q >= a.price
    ensures Sold(Taken(os, loc, levels, a, ref), UpTo(a.side, q)) == Min(a.shares, Sum(os, Crossing(loc, a.side, q)))
    ensures forall x :: x in Taken(os, loc, levels, a, ref) ==> UpTo(a.side, a.price)(x.price)
  {
    var ls := Shown(os, loc, if a.side == SIDE_BUY then SIDE_SELL else SIDE_BUY, levels);
    var p := Nearest(ls, Up(a.side));
    SoldUpTo(ls, p, a.price, a.side, a.shares, a.ts, ref, q);
    DepthIsCrossing(os, loc, levels, a.side, q);
    forall x | x in Taken(os, loc, levels, a, ref) ensures UpTo(a.side, a.price)(x.price) {
      SweepInPrices(ls, p, a.price, a.side, a.shares, a.ts, ref, x);
    }
  }

  /** A book in order displays what its orders rest with. */
  lemma BookDisplays(e: E.BookEngine, loc: u16)
    requires e.Valid()
    ensures WellFormed(e.Orders(), e.priceLevels)
    ensures forall s: char, p: nat :: Shares(e.Orders(), loc, s, p) <= U32_MAX
  {
    F.EngineWellFormed(e);
    forall s: char, p: nat ensures Shares(e.Orders(), loc, s, p) <= U32_MAX {
      if !ValidSide(s) || p >= e.priceLevels {
        SumZero(e.Orders(), SharesAt(loc, s, p));
      } else if loc in e.books {
        assert e.BookOk(loc, e.Orders());
        assert e.books[loc].LevelAt(s, p).shares == Shares(e.Orders(), loc, s, p);
      } else {
        EmptyBook(e, loc, s);
      }
    }
  }
}
