/** One symbol's book: directly indexed price levels, incrementally kept best prices,
    and the scans (scalar and eight lanes wide) that find the next best level. */
module OrderBook {
  import opened Itch

  datatype PriceLevel = PriceLevel(shares: u32, count: u32)

  const EMPTY_LEVEL := PriceLevel(0, 0)

  /** Highest non-empty price <= s, or 0. */
  function NearestBelow(ls: seq<PriceLevel>, s: nat): (p: nat)
    requires s < |ls|
    ensures p <= s && (p > 0 ==> ls[p].shares > 0)
    ensures forall q :: p < q <= s ==> ls[q].shares == 0
  {
    if s == 0 || ls[s].shares > 0 then s else NearestBelow(ls, s - 1)
  }

  /** Lowest non-empty price >= s, or 0. */
  function NearestAbove(ls: seq<PriceLevel>, s: nat): (p: nat)
    requires s > 0
    ensures p != 0 ==> s <= p < |ls| && ls[p].shares > 0
    ensures forall q :: s <= q < |ls| && (p == 0 || q < p) ==> ls[q].shares == 0
    decreases |ls| - s
  {
    if s >= |ls| then 0 else if ls[s].shares > 0 then s else NearestAbove(ls, s + 1)
  }

  ghost predicate IsBestBid(ls: seq<PriceLevel>, b: nat) {
    && (b > 0 ==> b < |ls| && ls[b].shares > 0)
    && forall p :: b < p < |ls| ==> ls[p].shares == 0
  }

  ghost predicate IsBestAsk(ls: seq<PriceLevel>, b: nat) {
    && (b > 0 ==> b < |ls| && ls[b].shares > 0)
    && forall p :: 0 < p < |ls| && (b == 0 || p < b) ==> ls[p].shares == 0
  }

  /** A 32-bit pattern read as a signed number. */
  function Signed(x: u32): int {
    if x < 0x8000_0000 then x else x - 0x1_0000_0000
  }

  lemma SignedIs(x: u32)
    ensures -0x8000_0000 <= Signed(x) <= 0x7FFF_FFFF && Signed(x) % 0x1_0000_0000 == x
  {}

  /** The signed 32-bit compare of the vector scans. */
  predicate SignedPositive(l: PriceLevel) {
    Signed(l.shares) > 0
  }

  class OrderBook {
    const levels: nat
    var bid: seq<PriceLevel>
    var ask: seq<PriceLevel>
    var bestBid: nat
    var bestAsk: nat

    predicate Shape()
      reads this
    {
      0 < levels == |bid| == |ask|
    }

    ghost predicate Valid()
      reads this
      ensures Valid() ==> Shape()
    {
      Shape() && IsBestBid(bid, bestBid) && IsBestAsk(ask, bestAsk)
    }

    constructor (priceLevels: nat)
      ensures Valid() && levels == (if priceLevels > 0 then priceLevels else 1)
      ensures forall p :: 0 <= p < levels ==> bid[p] == ask[p] == EMPTY_LEVEL
    {
      var n := if priceLevels > 0 then priceLevels else 1;
      levels := n;
      bid := seq(n, _ => EMPTY_LEVEL);
      ask := seq(n, _ => EMPTY_LEVEL);
      bestBid, bestAsk := 0, 0;
    }

    function SharesAt(side: char, price: nat): nat
      requires Shape()
      reads this
    {
      if price >= levels then 0 else if side == SIDE_BUY then bid[price].shares else ask[price].shares
    }

    function LevelAt(side: char, price: nat): PriceLevel
      requires Shape() && price < levels
      reads this
    {
      if side == SIDE_BUY then bid[price] else ask[price]
    }

    predicate CanAdd(side: char, price: nat, shares: nat)
      requires Shape()
      reads this
    {
      && ValidSide(side) && 0 < price < levels && shares > 0
      && var l := LevelAt(side, price);
        (l.shares == 0) == (l.count == 0) && l.shares + shares <= U32_MAX && l.count != U32_MAX
    }

    predicate CanRemove(side: char, price: nat, shares: nat, gone: bool)
      requires Shape()
      reads this
    {
      && ValidSide(side) && 0 < price < levels && shares > 0
      && var l := LevelAt(side, price);
        && shares <= l.shares && (gone ==> l.count > 0)
        && (l.shares - shares == 0) == (l.count - (if gone then 1 else 0) == 0)
    }

    predicate CanReplace(side: char, oldPrice: nat, oldShares: nat, price: nat, shares: nat)
      requires Shape()
      reads this
    {
      && CanRemove(side, oldPrice, oldShares, true) && 0 < price < levels && shares > 0
      && if oldPrice != price then CanAdd(side, price, shares)
         else LevelAt(side, oldPrice).shares - oldShares + shares <= U32_MAX
    }

    /** Both sides of the book after one level of one side took a new value. */
    twostate predicate OnlyLevel(side: char, price: nat, l: PriceLevel)
      requires old(Shape()) && Shape() && 0 < price < levels && ValidSide(side)
      reads this
    {
      && bid == (if side == SIDE_BUY then old(bid)[price := l] else old(bid))
      && ask == (if side == SIDE_SELL then old(ask)[price := l] else old(ask))
    }

    method Add(side: char, price: nat, shares: u32) returns (ok: bool)
      requires Valid()
      modifies this
      ensures Valid() && ok == old(CanAdd(side, price, shares))
      ensures !ok ==> bid == old(bid) && ask == old(ask)
      ensures ok ==> var l := old(LevelAt(side, price));
        OnlyLevel(side, price, PriceLevel(l.shares + shares, l.count + 1))
    {
      if !CanAdd(side, price, shares) { return false; }
      ghost var l := LevelAt(side, price);
      if side == SIDE_BUY {
        bid := bid[price := PriceLevel(bid[price].shares + shares, bid[price].count + 1)];
        if price > bestBid { bestBid := price; }
      } else {
        ask := ask[price := PriceLevel(ask[price].shares + shares, ask[price].count + 1)];
        if bestAsk == 0 || price < bestAsk { bestAsk := price; }
      }
      assert OnlyLevel(side, price, PriceLevel(l.shares + shares, l.count + 1));
      return true;
    }

    /** A bid level shrinks; when the best one empties, the next best is scanned for. */
    method LowerBid(price: nat, l: PriceLevel)
      requires Valid() && 0 < price < levels && l.shares <= bid[price].shares
      modifies this`bid, this`bestBid
      ensures Valid() && bid == old(bid)[price := l]
    {
      bid := bid[price := l];
      if bid[price].shares == 0 && price == bestBid { bestBid := ScanDown(price - 1); }
    }

    method LowerAsk(price: nat, l: PriceLevel)
      requires Valid() && 0 < price < levels && l.shares <= ask[price].shares
      modifies this`ask, this`bestAsk
      ensures Valid() && ask == old(ask)[price := l]
    {
      ask := ask[price := l];
      if ask[price].shares == 0 && price == bestAsk { bestAsk := ScanUp(price + 1); }
    }

    method Remove(side: char, price: nat, shares: u32, gone: bool) returns (ok: bool)
      requires Valid()
      modifies this
      ensures Valid() && ok == old(CanRemove(side, price, shares, gone))
      ensures !ok ==> bid == old(bid) && ask == old(ask)
      ensures ok ==> var l := old(LevelAt(side, price));
        OnlyLevel(side, price, PriceLevel(l.shares - shares, l.count - (if gone then 1 else 0)))
    {
      hide IsBestBid, IsBestAsk;
      if !CanRemove(side, price, shares, gone) { return false; }
      ghost var l := LevelAt(side, price);
      var n := if gone then 1 else 0;
      if side == SIDE_BUY {
        LowerBid(price, PriceLevel(bid[price].shares - shares, bid[price].count - n));
      } else {
        LowerAsk(price, PriceLevel(ask[price].shares - shares, ask[price].count - n));
      }
      assert OnlyLevel(side, price, PriceLevel(l.shares - shares, l.count - n));
      return true;
    }

    /** Remove then add; can only fail as a whole. */
    method Replace(side: char, oldPrice: nat, oldShares: u32, price: nat, shares: u32) returns (ok: bool)
      requires Valid()
      modifies this
      ensures Valid() && ok == old(CanReplace(side, oldPrice, oldShares, price, shares))
      ensures !ok ==> bid == old(bid) && ask == old(ask)
      ensures ok ==> forall s, p :: ValidSide(s) && 0 <= p < levels ==>
        var l := old(LevelAt(s, p));
        var out := if s == side && p == oldPrice then 1 else 0;
        var into := if s == side && p == price then 1 else 0;
        && LevelAt(s, p).shares == l.shares - out * oldShares + into * shares
        && LevelAt(s, p).count == l.count - out + into
    {
      if !CanReplace(side, oldPrice, oldShares, price, shares) { return false; }
      var removed := Remove(side, oldPrice, oldShares, true);
      var added := Add(side, price, shares);
      return removed && added;
    }

    method ScanDown(start: nat) returns (p: nat)
      requires Shape()
      ensures p == NearestBelow(bid, if start >= levels then levels - 1 else start)
    {
      p := if start >= levels then levels - 1 else start;
      ghost var s := p;
      while p >= 1
        invariant p < levels && NearestBelow(bid, p) == NearestBelow(bid, s)
      {
        if bid[p].shares != 0 { return; }
        p := p - 1;
      }
    }

    method ScanUp(start: nat) returns (p: nat)
      requires Shape()
      ensures p == NearestAbove(ask, if start == 0 then 1 else start)
    {
      p := if start == 0 then 1 else start;
      ghost var s := p;
      while p < levels
        invariant p >= 1 && NearestAbove(ask, p) == NearestAbove(ask, s)
      {
        if ask[p].shares != 0 { return; }
        p := p + 1;
      }
      p := 0;
    }

    /** Eight levels per step, lane k at price p - k, signed compare. It finds the scalar
        answer exactly when that level is in the scalar tail or its total is below 2^31. */
    method ScanDownVector(start: nat) returns (p: nat)
      requires Shape()
      ensures var s := if start >= levels then levels - 1 else start;
        var q := NearestBelow(bid, s);
        p == q <==> q <= s % 8 || SignedPositive(bid[q])
    {
      p := if start >= levels then levels - 1 else start;
      ghost var s := p;
      while p >= 8
        invariant p <= s < levels && p % 8 == s % 8
        invariant forall k :: p < k <= s ==> !SignedPositive(bid[k])
      {
        for lane := 0 to 8
          invariant forall k :: p - lane < k <= s ==> !SignedPositive(bid[k])
        {
          if SignedPositive(bid[p - lane]) { return p - lane; }
        }
        p := p - 8;
      }
      ghost var tail := p;
      while p >= 1
        invariant p <= tail
        invariant forall k :: p < k <= tail ==> bid[k].shares == 0
      {
        if bid[p].shares != 0 { return; }
        p := p - 1;
      }
    }

    /** The upward scan; the vector part covers whole groups of eight from start. */
    method ScanUpVector(start: nat) returns (p: nat)
      requires Shape()
      ensures var s := if start == 0 then 1 else start;
        var q := NearestAbove(ask, s);
        p == q <==> q == 0 || q >= s + (levels - s) / 8 * 8 || SignedPositive(ask[q])
    {
      p := if start == 0 then 1 else start;
      ghost var s := p;
      while p + 8 <= levels
        invariant s <= p && (p == s || p <= levels) && (p - s) % 8 == 0
        invariant forall k :: s <= k < p ==> !SignedPositive(ask[k])
      {
        for lane := 0 to 8
          invariant forall k :: s <= k < p + lane ==> !SignedPositive(ask[k])
        {
          if SignedPositive(ask[p + lane]) { return p + lane; }
        }
        p := p + 8;
      }
      ghost var tail := p;
      if s <= levels { GroupEnd(s, levels, p); }
      while p < levels
        invariant tail <= p && (p == tail || p <= levels)
        invariant forall k :: tail <= k < p ==> ask[k].shares == 0
      {
        if ask[p].shares != 0 { return; }
        p := p + 1;
      }
      p := 0;
    }
  }

  /** Where whole groups of eight from s end. */
  lemma GroupEnd(s: nat, levels: nat, p: nat)
    requires s <= p <= levels < p + 8 && (p - s) % 8 == 0
    ensures p == s + (levels - s) / 8 * 8
  {}

  /** A level of 2^31 shares above the scalar tail is negative to the vector scans. */
  method VectorScansMiss() returns (b: OrderBook, down: nat, up: nat)
    ensures b.Shape() && b.levels == 16
    ensures NearestBelow(b.bid, 15) == 9 != down && NearestAbove(b.ask, 1) == 5 != up
  {
    b := new OrderBook(16);
    var _ := b.Add(SIDE_BUY, 9, 0x8000_0000);
    var _ := b.Add(SIDE_SELL, 5, 0x8000_0000);
    assert b.LevelAt(SIDE_BUY, 9).shares == b.LevelAt(SIDE_SELL, 5).shares == 0x8000_0000;
    assert forall p :: 0 <= p < 16 && p != 9 ==> b.LevelAt(SIDE_BUY, p).shares == 0;
    assert forall p :: 0 <= p < 16 && p != 5 ==> b.LevelAt(SIDE_SELL, p).shares == 0;
    down := b.ScanDownVector(15);
    up := b.ScanUpVector(1);
  }
}
