/** The map-based reference book, and when the fast book agrees with it. */
module ReferenceBook {
  import opened Itch
  import opened LiveOrders
  import opened BookSpec

  function Get(m: map<nat, u32>, price: nat): u32 {
    if price in m then m[price] else 0
  }

  /** One side: price to total shares, and price to resting order count, both 32 bits wide. */
  datatype Side = Side(shares: map<nat, u32>, orders: map<nat, u32>) {
    function Add(price: nat, qty: u32): Side {
      Side(shares[price := (Get(shares, price) + qty) % WRAP32], orders[price := (Get(orders, price) + 1) % WRAP32])
    }

    function Reduce(price: nat, qty: u32, gone: bool): Side {
      if price !in shares then this
      else
        var left := (shares[price] - qty) % WRAP32;
        var os := if gone && price in orders && orders[price] > 0 then orders[price := orders[price] - 1] else orders;
        if left == 0 then Side(shares - {price}, os - {price}) else Side(shares[price := left], os)
    }
  }

  datatype SymbolBook = SymbolBook(bid: Side, ask: Side) {
    function At(side: char): Side {
      if side == SIDE_BUY then bid else ask
    }

    function With(side: char, s: Side): SymbolBook {
      if side == SIDE_BUY then SymbolBook(s, ask) else SymbolBook(bid, s)
    }
  }

  const NO_BOOK := SymbolBook(Side(map[], map[]), Side(map[], map[]))

  ghost predicate SideShows(s: Side, os: Orders, loc: u16, side: char) {
    forall p: nat :: PriceShows(s, os, loc, side, p)
  }

  ghost predicate PriceShows(s: Side, os: Orders, loc: u16, side: char, p: nat) {
    && Get(s.shares, p) == Shares(os, loc, side, p) && Get(s.orders, p) == Count(os, loc, side, p)
    && (p in s.shares <==> Shares(os, loc, side, p) > 0) && (p in s.orders <==> Count(os, loc, side, p) > 0)
  }

  lemma SideAdd(s: Side, os: Orders, levels: nat, r: u64, o: Order)
    requires SideShows(s, os, o.locate, o.side) && r !in os && o.shares > 0
    requires WellFormed(os, levels) && Shares(os, o.locate, o.side, o.price) + o.shares <= U32_MAX
    ensures SideShows(s.Add(o.price, o.shares), os[r := o], o.locate, o.side)
  {
    EmptyTogether(os, levels, o.locate, o.side, o.price);
    LevelsPut(os, r, o);
    var s', os' := s.Add(o.price, o.shares), os[r := o];
    forall p: nat ensures PriceShows(s', os', o.locate, o.side, p) {
      assert PriceShows(s, os, o.locate, o.side, p);
    }
  }

  lemma SideReduce(s: Side, os: Orders, levels: nat, r: u64, qty: u32)
    requires r in os && WellFormed(os, levels) && SideShows(s, os, os[r].locate, os[r].side) && qty <= os[r].shares
    ensures SideShows(s.Reduce(os[r].price, qty, qty == os[r].shares), Less(os, r, qty), os[r].locate, os[r].side)
  {
    var o := os[r];
    OrderInLevel(os, levels, r);
    if qty == o.shares { LevelsRemove(os, r); } else { LevelsShrink(os, r, o.(shares := o.shares - qty)); }
    var s', os' := s.Reduce(o.price, qty, qty == o.shares), Less(os, r, qty);
    forall p: nat ensures PriceShows(s', os', o.locate, o.side, p) {
      assert PriceShows(s, os, o.locate, o.side, p);
      EmptyTogether(os, levels, o.locate, o.side, p);
    }
  }

  // ---- all symbols ---------------------------------------------------------------

  type Books = map<u16, SymbolBook>

  function Look(bs: Books, loc: u16): SymbolBook {
    if loc in bs then bs[loc] else NO_BOOK
  }

  function Put(bs: Books, loc: u16, side: char, s: Side): Books {
    bs[loc := Look(bs, loc).With(side, s)]
  }

  ghost predicate BooksShow(bs: Books, os: Orders) {
    forall loc, side :: ValidSide(side) ==> SideShows(Look(bs, loc).At(side), os, loc, side)
  }

  /** A one-side update that follows a one-order change keeps every side right. */
  lemma PutShows(bs: Books, os: Orders, os': Orders, loc: u16, side: char, s: Side)
    requires BooksShow(bs, os) && ValidSide(side) && SideShows(s, os', loc, side)
    requires forall l, d, p :: l != loc || d != side ==>
      Shares(os', l, d, p) == Shares(os, l, d, p) && Count(os', l, d, p) == Count(os, l, d, p)
    ensures BooksShow(Put(bs, loc, side, s), os')
  {
    var bs' := Put(bs, loc, side, s);
    forall l, d | ValidSide(d) ensures SideShows(Look(bs', l).At(d), os', l, d) {
      if l != loc || d != side {
        forall p: nat ensures PriceShows(Look(bs', l).At(d), os', l, d, p) {
          assert PriceShows(Look(bs, l).At(d), os, l, d, p);
        }
      }
    }
  }

  lemma AddShows(bs: Books, os: Orders, levels: nat, r: u64, o: Order)
    requires BooksShow(bs, os) && WellFormed(os, levels) && ValidSide(o.side) && r !in os && o.shares > 0
    requires Shares(os, o.locate, o.side, o.price) + o.shares <= U32_MAX
    ensures BooksShow(Put(bs, o.locate, o.side, Look(bs, o.locate).At(o.side).Add(o.price, o.shares)), os[r := o])
  {
    SideAdd(Look(bs, o.locate).At(o.side), os, levels, r, o);
    LevelsPut(os, r, o);
    PutShows(bs, os, os[r := o], o.locate, o.side, Look(bs, o.locate).At(o.side).Add(o.price, o.shares));
  }

  lemma ReduceShows(bs: Books, os: Orders, levels: nat, r: u64, qty: u32)
    requires BooksShow(bs, os) && WellFormed(os, levels) && r in os && qty <= os[r].shares
    ensures var o := os[r];
      var s := Look(bs, o.locate).At(o.side).Reduce(o.price, qty, qty == o.shares);
      BooksShow(Put(bs, o.locate, o.side, s), Less(os, r, qty))
  {
    var o := os[r];
    var s := Look(bs, o.locate).At(o.side);
    SideReduce(s, os, levels, r, qty);
    if qty == o.shares { LevelsRemove(os, r); } else { LevelsShrink(os, r, o.(shares := o.shares - qty)); }
    PutShows(bs, os, Less(os, r, qty), o.locate, o.side, s.Reduce(o.price, qty, qty == o.shares));
  }

  lemma SelfFits(bs: Books, os: Orders, r: u64)
    requires BooksShow(bs, os) && r in os && ValidSide(os[r].side)
    ensures Shares(os - {r}, os[r].locate, os[r].side, os[r].price) + os[r].shares <= U32_MAX
  {
    LevelsRemove(os, r);
    assert PriceShows(Look(bs, os[r].locate).At(os[r].side), os, os[r].locate, os[r].side, os[r].price);
  }

  /** A level that counts an order twice is wrong. */
  lemma RepeatBreaks(bs: Books, os: Orders, loc: u16, side: char, price: nat, qty: u32)
    requires BooksShow(bs, os) && ValidSide(side)
    ensures !BooksShow(Put(bs, loc, side, Look(bs, loc).At(side).Add(price, qty)), os)
  {
    var s := Look(bs, loc).At(side);
    assert PriceShows(s, os, loc, side, price);
    assert !PriceShows(s.Add(price, qty), os, loc, side, price);
    assert Look(Put(bs, loc, side, s.Add(price, qty)), loc).At(side) == s.Add(price, qty);
  }

  /** Rejections after which the reference book still agrees: reductions it cannot see or
      that take nothing, and a replacement of an order by itself. */
  ghost predicate Harmless(os: Orders, m: Message, levels: nat, cap: nat) {
    || Outcome(os, m, levels, cap) in {Applied, Ignored, MissingReference}
    || (IsReduce(m) && (m.orderRef == 0 || m.shares == 0))
    || (m.kind == OrderReplace && m.orderRef in os && m.newOrderRef == m.orderRef
        && m.price == os[m.orderRef].price && m.shares == os[m.orderRef].shares)
  }

  /** An Add repeating a live order word for word: same orders, but its level counts it twice. */
  predicate Repeats(os: Orders, m: Message) {
    IsAdd(m) && m.orderRef in os && os[m.orderRef] == Order(m.price, m.shares, m.locate, m.side)
  }

  /** Exactly which messages leave both books with the same live orders. */
  lemma OrdersAgree(os: Orders, m: Message, levels: nat, cap: nat)
    requires WellFormed(os, levels)
    ensures After(os, m) == Step(os, m, levels, cap) <==> Harmless(os, m, levels, cap) || Repeats(os, m)
  {
    if Outcome(os, m, levels, cap) != Applied && m.orderRef in os {
      var after := After(os, m);
      if IsAdd(m) {
        assert after[m.orderRef] == Order(m.price, m.shares, m.locate, m.side);
        if Repeats(os, m) { assert after == os; }
      } else if IsReduce(m) && m.shares > os[m.orderRef].shares {
        assert m.orderRef !in after;
      } else if IsReduce(m) {
        assert after == os;
      } else if m.kind == OrderReplace {
        if m.newOrderRef == m.orderRef {
          assert after[m.orderRef] == Order(m.price, m.shares, os[m.orderRef].locate, os[m.orderRef].side);
          if Harmless(os, m, levels, cap) { assert after == os; }
        } else {
          assert m.orderRef !in after;
        }
      }
    } else if IsAdd(m) && m.orderRef !in os {
      assert m.orderRef in After(os, m);
    }
  }

  class ReferenceBook {
    var books: Books
    var orders: Orders

    /** Every level of every symbol is the sum and the count of its live orders. */
    ghost predicate Exact(levels: nat)
      reads this
    {
      WellFormed(orders, levels) && BooksShow(books, orders)
    }

    constructor ()
      ensures orders == map[] && forall levels :: Exact(levels)
    {
      books := map[];
      orders := map[];
    }

    method OnAdd(m: Message, ghost levels: nat)
      requires IsAdd(m)
      modifies this
      ensures orders == After(old(orders), m)
      ensures old(Exact(levels)) && Fits(old(orders), m, levels) ==> Exact(levels)
      ensures old(Exact(levels)) && Repeats(old(orders), m) ==> !Exact(levels)
    {
      ghost var bs, os := books, orders;
      var o := Order(m.price, m.shares, m.locate, m.side);
      books := Put(books, m.locate, m.side, Look(books, m.locate).At(m.side).Add(m.price, m.shares));
      orders := orders[m.orderRef := o];
      if WellFormed(os, levels) && BooksShow(bs, os) {
        if Fits(os, m, levels) { AddShows(bs, os, levels, m.orderRef, o); }
        if Repeats(os, m) {
          assert orders == os;
          RepeatBreaks(bs, os, m.locate, m.side, m.price, m.shares);
        }
      }
    }

    /** Execute and Cancel: an oversized reduction is clamped. */
    method OnReduce(m: Message, ghost levels: nat)
      requires IsReduce(m)
      modifies this
      ensures orders == After(old(orders), m)
      ensures old(Exact(levels)) ==> Exact(levels)
    {
      if m.orderRef !in orders { return; }
      ghost var bs, os := books, orders;
      var o := orders[m.orderRef];
      var qty := if m.shares > o.shares then o.shares else m.shares;
      var gone := o.shares - qty == 0;
      books := Put(books, o.locate, o.side, Look(books, o.locate).At(o.side).Reduce(o.price, qty, gone));
      orders := if gone then orders - {m.orderRef} else orders[m.orderRef := o.(shares := o.shares - qty)];
      if WellFormed(os, levels) && BooksShow(bs, os) { ReduceShows(bs, os, levels, m.orderRef, qty); }
    }

    method OnDelete(m: Message, ghost levels: nat)
      requires m.kind == OrderDelete
      modifies this
      ensures orders == After(old(orders), m)
      ensures old(Exact(levels)) ==> Exact(levels)
    {
      if m.orderRef !in orders { return; }
      ghost var bs, os := books, orders;
      var o := orders[m.orderRef];
      books := Put(books, o.locate, o.side, Look(books, o.locate).At(o.side).Reduce(o.price, o.shares, true));
      orders := orders - {m.orderRef};
      if WellFormed(os, levels) && BooksShow(bs, os) { ReduceShows(bs, os, levels, m.orderRef, o.shares); }
    }

    method OnReplace(m: Message, ghost levels: nat)
      requires m.kind == OrderReplace
      modifies this
      ensures orders == After(old(orders), m)
      ensures old(Exact(levels)) && FitsReplace(old(orders), m, levels) ==> Exact(levels)
    {
      if m.orderRef !in orders { return; }
      ghost var bs, os := books, orders;
      var o := orders[m.orderRef];
      books := Put(books, o.locate, o.side, Look(books, o.locate).At(o.side).Reduce(o.price, o.shares, true));
      ghost var mid := books;
      books := Put(books, o.locate, o.side, Look(books, o.locate).At(o.side).Add(m.price, m.shares));
      var o' := Order(m.price, m.shares, o.locate, o.side);
      orders := (orders - {m.orderRef})[m.newOrderRef := o'];
      if WellFormed(os, levels) && BooksShow(bs, os) && FitsReplace(os, m, levels) {
        ReduceShows(bs, os, levels, m.orderRef, o.shares);
        AddShows(mid, os - {m.orderRef}, levels, m.newOrderRef, o');
      }
    }

    /** From an exact state the book stays exact with the engine's orders for precisely the
        harmless messages. */
    method Apply(m: Message, ghost levels: nat, ghost cap: nat)
      modifies this
      ensures orders == After(old(orders), m)
      ensures old(Exact(levels)) ==>
        (Exact(levels) && orders == Step(old(orders), m, levels, cap) <==> Harmless(old(orders), m, levels, cap))
    {
      ghost var os := orders;
      if WellFormed(os, levels) {
        OrdersAgree(os, m, levels, cap);
        if BooksShow(books, os) && m.orderRef in os { SelfFits(books, os, m.orderRef); }
      }
      match m.kind {
        case AddOrder | AddOrderMpid => OnAdd(m, levels);
        case OrderExecuted | OrderExecutedPrice | OrderCancel => OnReduce(m, levels);
        case OrderDelete => OnDelete(m, levels);
        case OrderReplace => OnReplace(m, levels);
        case Trade | SystemEvent | Unknown =>
      }
    }
  }

  ghost predicate Fits(os: Orders, m: Message, levels: nat) {
    && ValidSide(m.side) && m.orderRef != 0 && m.locate != 0 && 0 < m.price < levels && m.shares > 0
    && m.orderRef !in os && Shares(os, m.locate, m.side, m.price) + m.shares <= U32_MAX
  }

  /** Also met by a replacement of an order by itself, which the engine rejects. */
  ghost predicate FitsReplace(os: Orders, m: Message, levels: nat) {
    m.orderRef in os ==>
      && m.newOrderRef != 0 && m.newOrderRef !in os - {m.orderRef} && 0 < m.price < levels && m.shares > 0
      && Shares(os - {m.orderRef}, os[m.orderRef].locate, os[m.orderRef].side, m.price) + m.shares <= U32_MAX
  }

  /** An Add repeated word for word: the fast book rejects it and nothing changes, the reference
      book counts its level twice. */
  method RepeatedAdd() returns (b: ReferenceBook, m: Message)
    ensures IsAdd(m) && Outcome(b.orders, m, 100, 8) == DuplicateReference && !b.Exact(100)
  {
    b := new ReferenceBook();
    m := Message(AddOrder, SIDE_BUY, true, 1, 10, 50, 0, 7, 0);
    NoOrdersAt(map[], 1, SIDE_BUY, 50);
    b.OnAdd(m, 100);
    b.OnAdd(m, 100);
  }
}
