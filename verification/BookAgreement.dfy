/** The fast book and the reference book side by side over whole message streams. */
module BookAgreement {
  import opened Itch
  import opened LiveOrders
  import opened BookSpec
  import R = ReferenceBook
  import E = BookEngine
  import T = OrderRefTable

  /** Largest (or smallest) price of a reference side, or 0 for an empty one. */
  ghost predicate IsTop(s: R.Side, best: nat, highest: bool) {
    && (best == 0 <==> s.shares.Keys == {})
    && (best > 0 ==> best in s.shares && forall p :: p in s.shares ==> if highest then p <= best else best <= p)
  }

  /** Every query of both books has the same answer. */
  ghost predicate SameAnswers(e: E.BookEngine, r: R.ReferenceBook)
    reads e, e.Repr, r
  {
    && e.Valid() && r.orders == e.Orders()
    && (forall loc :: loc in e.books ==>
      && (forall side, p: nat :: ValidSide(side) ==>
        e.books[loc].SharesAt(side, p) == R.Get(R.Look(r.books, loc).At(side).shares, p))
      && IsTop(R.Look(r.books, loc).bid, e.books[loc].bestBid, true)
      && IsTop(R.Look(r.books, loc).ask, e.books[loc].bestAsk, false))
    && (forall loc, side :: loc !in e.books && ValidSide(side) ==> R.Look(r.books, loc).At(side).shares == map[])
  }

  lemma PricesInRange(e: E.BookEngine, r: R.ReferenceBook, loc: u16, side: char, p: nat)
    requires e.Valid() && r.Exact(e.priceLevels) && r.orders == e.Orders() && ValidSide(side)
    requires p in R.Look(r.books, loc).At(side).shares
    ensures loc in e.books && 0 < p < e.priceLevels
  {
    assert R.PriceShows(R.Look(r.books, loc).At(side), r.orders, loc, side, p);
    var k := SumPositive(r.orders, SharesAt(loc, side, p));
  }

  lemma SymbolAgrees(e: E.BookEngine, r: R.ReferenceBook, loc: u16)
    requires e.Valid() && r.Exact(e.priceLevels) && r.orders == e.Orders() && loc in e.books
    ensures forall side, p: nat :: ValidSide(side) ==>
      e.books[loc].SharesAt(side, p) == R.Get(R.Look(r.books, loc).At(side).shares, p)
    ensures IsTop(R.Look(r.books, loc).bid, e.books[loc].bestBid, true)
    ensures IsTop(R.Look(r.books, loc).ask, e.books[loc].bestAsk, false)
  {
    var b := e.books[loc];
    assert e.BookOk(loc, e.Orders());
    forall side, p: nat | ValidSide(side)
      ensures b.SharesAt(side, p) == R.Get(R.Look(r.books, loc).At(side).shares, p)
      ensures p in R.Look(r.books, loc).At(side).shares <==> b.SharesAt(side, p) > 0
    {
      assert R.PriceShows(R.Look(r.books, loc).At(side), r.orders, loc, side, p);
      if p < b.levels {
        assert b.LevelAt(side, p).shares == Shares(e.Orders(), loc, side, p);
      } else if p in R.Look(r.books, loc).At(side).shares {
        PricesInRange(e, r, loc, side, p);
      }
    }
    forall side, p: nat | ValidSide(side) && p in R.Look(r.books, loc).At(side).shares
      ensures 0 < p < b.levels && b.SharesAt(side, p) > 0
    {
      PricesInRange(e, r, loc, side, p);
    }
    assert R.Look(r.books, loc).bid == R.Look(r.books, loc).At(SIDE_BUY);
    assert R.Look(r.books, loc).ask == R.Look(r.books, loc).At(SIDE_SELL);
    assert b.bestBid > 0 ==> b.SharesAt(SIDE_BUY, b.bestBid) > 0;
    assert b.bestAsk > 0 ==> b.SharesAt(SIDE_SELL, b.bestAsk) > 0;
  }

  /** Equal live orders make every level and every best price equal. */
  lemma ExactBooksAgree(e: E.BookEngine, r: R.ReferenceBook)
    requires e.Valid() && r.Exact(e.priceLevels) && r.orders == e.Orders()
    ensures SameAnswers(e, r)
  {
    forall loc | loc in e.books ensures
      && (forall side, p: nat :: ValidSide(side) ==>
        e.books[loc].SharesAt(side, p) == R.Get(R.Look(r.books, loc).At(side).shares, p))
      && IsTop(R.Look(r.books, loc).bid, e.books[loc].bestBid, true)
      && IsTop(R.Look(r.books, loc).ask, e.books[loc].bestAsk, false)
    {
      SymbolAgrees(e, r, loc);
    }
    forall loc, side | loc !in e.books && ValidSide(side)
      ensures R.Look(r.books, loc).At(side).shares == map[]
    {
      forall p: nat ensures p !in R.Look(r.books, loc).At(side).shares {
        if p in R.Look(r.books, loc).At(side).shares { PricesInRange(e, r, loc, side, p); }
      }
    }
  }

  /** Replays one stream into both books: they answer alike at the end whenever every message
      was harmless and the table was never full when an entry had to be erased. */
  method ReplayBoth(ms: seq<Message>, levels: u32, capacity: nat, hash: u64 -> nat)
    returns (e: E.BookEngine, r: R.ReferenceBook)
    requires capacity <= 0x8000_0000
    requires var cap := T.TableSize(capacity);
      forall i :: 0 <= i < |ms| ==>
        && R.Harmless(Run(ms[..i], levels, cap), ms[i], levels, cap)
        && (Erases(Run(ms[..i], levels, cap), ms[i], levels, cap) ==> |Run(ms[..i], levels, cap)| < cap)
    ensures e.refs.cap == T.TableSize(capacity) && e.Valid() && e.Orders() == Run(ms, levels, e.refs.cap)
    ensures SameAnswers(e, r)
  {
    hide SameAnswers, R.ReferenceBook.Exact, Outcome, Step, Erases, R.Harmless, WellFormed, E.BookEngine.BookOk;
    e := new E.BookEngine(levels, capacity, hash);
    r := new R.ReferenceBook();
    for i := 0 to |ms|
      invariant e.Valid() && e.priceLevels == levels && e.refs.cap == T.TableSize(capacity) && fresh(e.Repr) && fresh(r)
      invariant r !in e.Repr
      invariant e.Orders() == Run(ms[..i], levels, e.refs.cap)
      invariant r.orders == e.Orders() && r.Exact(levels)
    {
      assert ms[..i + 1][..i] == ms[..i];
      r.Apply(ms[i], levels, e.refs.cap);
      var _ := e.Apply(ms[i]);
    }
    assert ms[..|ms|] == ms;
    ExactBooksAgree(e, r);
  }
}
