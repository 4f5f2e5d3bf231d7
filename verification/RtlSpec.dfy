/** What the hardware book must show. It serves one symbol, so its levels are sums over all
    live orders; it is banded, so arrivals priced outside the window never rest. */
module RtlSpec {
  import opened Itch
  import opened LiveOrders
  import opened BookSpec

  /** The decoder reduces the side byte to one bit; it is kept here as a valid side. */
  type RtlMsg = m: Message | ValidSide(m.side) witness NO_MESSAGE

  const NO_MESSAGE: Message := Message(Unknown, SIDE_SELL, false, 0, 0, 0, 0, 0, 0)

  // ---- sums over one side -------------------------------------------------------------

  function SizeIf(o: Order, side: char, price: nat): nat {
    if o.side == side && o.price == price then o.shares else 0
  }

  function OneIf(o: Order, side: char, price: nat): nat {
    if o.side == side && o.price == price then 1 else 0
  }

  ghost function LevelW(side: char, price: nat): Weight {
    (r: u64, o: Order) => SizeIf(o, side, price)
  }

  ghost function LevelNW(side: char, price: nat): Weight {
    (r: u64, o: Order) => OneIf(o, side, price)
  }

  ghost function SideW(side: char): Weight {
    (r: u64, o: Order) => SizeIf(o, side, o.price)
  }

  ghost function SideNW(side: char): Weight {
    (r: u64, o: Order) => OneIf(o, side, o.price)
  }

  ghost function LevelShares(os: Orders, side: char, price: nat): nat { Sum(os, LevelW(side, price)) }
  ghost function LevelCount(os: Orders, side: char, price: nat): nat { Sum(os, LevelNW(side, price)) }
  ghost function SideVolume(os: Orders, side: char): nat { Sum(os, SideW(side)) }
  ghost function SideCount(os: Orders, side: char): nat { Sum(os, SideNW(side)) }

  /** From os to os' one level of one side changed by so many shares and orders. */
  ghost predicate Shift(os: Orders, os': Orders, side: char, price: nat, dShares: int, dCount: int) {
    && (forall s, p :: LevelShares(os', s, p) == LevelShares(os, s, p) + if s == side && p == price then dShares else 0)
    && (forall s, p :: LevelCount(os', s, p) == LevelCount(os, s, p) + if s == side && p == price then dCount else 0)
    && (forall s :: SideVolume(os', s) == SideVolume(os, s) + if s == side then dShares else 0)
    && (forall s :: SideCount(os', s) == SideCount(os, s) + if s == side then dCount else 0)
  }

  lemma PutShift(os: Orders, r: u64, o: Order)
    requires r !in os
    ensures Shift(os, os[r := o], o.side, o.price, o.shares, 1)
  {
    assert os - {r} == os;
    forall s, p
      ensures LevelShares(os[r := o], s, p) == LevelShares(os, s, p) + SizeIf(o, s, p)
      ensures LevelCount(os[r := o], s, p) == LevelCount(os, s, p) + OneIf(o, s, p)
    {
      SumPut(os, LevelW(s, p), r, o);
      SumPut(os, LevelNW(s, p), r, o);
    }
    forall s
      ensures SideVolume(os[r := o], s) == SideVolume(os, s) + SizeIf(o, s, o.price)
      ensures SideCount(os[r := o], s) == SideCount(os, s) + OneIf(o, s, o.price)
    {
      SumPut(os, SideW(s), r, o);
      SumPut(os, SideNW(s), r, o);
    }
  }

  lemma RemoveShift(os: Orders, r: u64)
    requires r in os
    ensures Shift(os, os - {r}, os[r].side, os[r].price, -(os[r].shares as int), -1)
  {
    assert (os - {r})[r := os[r]] == os;
    PutShift(os - {r}, r, os[r]);
  }

  lemma LessShift(os: Orders, r: u64, qty: u32)
    requires r in os && qty <= os[r].shares
    ensures Shift(os, Less(os, r, qty), os[r].side, os[r].price, -(qty as int), if qty == os[r].shares then -1 else 0)
  {
    RemoveShift(os, r);
    if qty != os[r].shares {
      var o := os[r].(shares := os[r].shares - qty);
      assert (os - {r})[r := o] == Less(os, r, qty);
      PutShift(os - {r}, r, o);
    }
  }

  // ---- banding and one message -------------------------------------------------------------

  /** Level address of a price: the difference wraps to a large number below the base. */
  function Offset(price: u32, base: u32): nat {
    if price >= base then price - base else price - base + WRAP32
  }

  /** The offset cut to the address width of the level memories. */
  function Address(price: u32, base: u32, window: nat): nat
    requires window > 0
  {
    var offset := Offset(price, base);
    if offset < window then offset else offset % window
  }

  function PriceAt(addr: nat, base: u32): u32
    requires addr < WRAP32
  {
    if base + addr < WRAP32 then base + addr else base + addr - WRAP32
  }

  /** The live orders after one message: a duplicate or out-of-window arrival does not rest,
      an out-of-window replacement only removes, an oversized reduction is clamped. */
  function BandedAfter(os: Orders, m: Message, base: u32, window: nat): Orders {
    if IsAdd(m) then
      if Offset(m.price, base) < window && m.orderRef !in os then After(os, m) else os
    else if m.orderRef !in os then os
    else if m.kind == OrderReplace then
      if Offset(m.price, base) < window && m.newOrderRef !in os - {m.orderRef} then After(os, m) else os - {m.orderRef}
    else After(os, m)
  }

  /** Messages a banded book would drop, wholly or in part. */
  predicate Drops(os: Orders, m: RtlMsg, base: u32, window: nat) {
    && Offset(m.price, base) >= window
    && (IsAdd(m) || (m.kind == OrderReplace && m.orderRef in os))
  }

  /** Live orders of a banded book: in the window, with shares, on a real side. */
  ghost predicate Banded(os: Orders, base: u32, window: nat) {
    forall r :: r in os ==> Offset(os[r].price, base) < window && os[r].shares > 0 && ValidSide(os[r].side)
  }

  lemma BandedAfterBanded(os: Orders, m: RtlMsg, base: u32, window: nat)
    requires Banded(os, base, window) && (IsAdd(m) || m.kind == OrderReplace ==> m.shares > 0)
    ensures Banded(BandedAfter(os, m, base, window), base, window)
  {}

  /** Register widths suffice: 32-bit level totals and order counts, 64-bit volumes. */
  ghost predicate Fits(os: Orders) {
    && (forall s, p :: LevelShares(os, s, p) < WRAP32) && (forall s, p :: LevelCount(os, s, p) < WRAP32)
    && (forall s :: SideVolume(os, s) < WRAP64) && (forall s :: SideCount(os, s) < WRAP32)
  }

  /** An empty side has no shares anywhere; a side with orders has a level with shares. */
  lemma SideEmpty(os: Orders, base: u32, window: nat, side: char)
    requires Banded(os, base, window)
    ensures SideCount(os, side) == 0 ==> forall p :: LevelShares(os, side, p) == 0
    ensures SideCount(os, side) > 0 ==>
      exists r :: r in os && os[r].side == side && LevelShares(os, side, os[r].price) > 0
  {
    if SideCount(os, side) == 0 {
      forall p ensures LevelShares(os, side, p) == 0 {
        forall r | r in os ensures SizeIf(os[r], side, p) == 0 { SumBounds(os, SideNW(side), r); }
        SumZero(os, LevelW(side, p));
      }
    } else {
      var r := SumPositive(os, SideNW(side));
      SumBounds(os, LevelW(side, os[r].price), r);
    }
  }
}
