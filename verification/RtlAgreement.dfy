/** The hardware, fed bytes, and the golden book, fed the decoded messages, agree. */
module RtlAgreement {
  import opened Itch
  import opened LiveOrders
  import opened RtlSpec
  import opened Wire
  import opened BandFilter
  import P = RtlPipeline
  import B = RtlBookEngine
  import H = RtlBookTheorems
  import Q = RtlBookProofs
  import R = RefModel

  /** A level as the golden book answers a query: zero where it keeps none. */
  function LevelAt(levels: R.Levels, price: u32): R.Level {
    if price in levels then levels[price] else R.Level(0, 0)
  }

  /** The highest or lowest price of a side's levels. */
  ghost predicate IsTop(levels: R.Levels, side: char, price: u32) {
    price in levels && forall q :: q in levels ==> if side == SIDE_BUY then q <= price else price <= q
  }

  /** Every query the test bench compares: levels, totals and the best price of a side. */
  ghost predicate SideAgrees(b: B.Book, p: B.Params, levels: R.Levels, total: int, side: char)
    requires B.Lengths(b, p)
  {
    var s := B.At(b, side);
    && (forall price: u32 :: LevelAgrees(b, p, levels, side, price))
    && s.tot == total && (s.tracker.valid <==> levels != map[])
    && (s.tracker.valid ==> b.r.base + s.tracker.best < WRAP32 && IsTop(levels, side, b.r.base + s.tracker.best))
  }

  ghost predicate LevelAgrees(b: B.Book, p: B.Params, levels: R.Levels, side: char, price: u32)
    requires B.Lengths(b, p)
  {
    if Offset(price, b.r.base) < p.window then
      LevelAt(levels, price) ==
        R.Level(B.At(b, side).shares[Offset(price, b.r.base)], B.At(b, side).count[Offset(price, b.r.base)])
    else price !in levels
  }

  lemma SideShown(b: B.Book, p: B.Params, os: Orders, t: R.Tables, side: char)
    requires H.Shows(b, p, os) && R.Holds(t, os) && ValidSide(side)
    requires b.r.base + p.window <= WRAP32 || os == map[]
    ensures B.Lengths(b, p) && SideAgrees(b, p, R.Of(t, side), if side == SIDE_BUY then t.totBid else t.totAsk, side)
  {
    var levels, s := R.Of(t, side), B.At(b, side);
    assert R.SideExact(levels, os, side) && H.BestShown(b, p, os, side);
    forall price: u32 ensures LevelAgrees(b, p, levels, side, price) {
      assert H.LevelShown(b, p, os, side, price);
      if price !in levels { R.EmptyHasNone(os, side, price); }
    }
    if s.tracker.valid {
      assert PriceAt(s.tracker.best, b.r.base) in levels;
      assert H.LevelShown(b, p, os, side, PriceAt(s.tracker.best, b.r.base));
    }
    if levels != map[] {
      var q :| q in levels;
      assert LevelShares(os, side, q) > 0;
    }
  }

  /** Messages the golden book takes exactly: references are vacant and arrivals carry shares. */
  ghost predicate Takeable(ms: seq<RtlMsg>) {
    AllVacant(ms) && forall m :: m in ms ==> Q.Positive(m)
  }

  lemma {:induction false} TakeableAt(ms: seq<RtlMsg>, n: nat)
    requires n < |ms| && Takeable(ms)
    ensures R.Fresh(Unbanded(ms[..n]), ms[n])
    decreases |ms|
  {
    assert ms[n] in ms;
    if n < |ms| - 1 {
      var shorter := ms[..|ms| - 1];
      assert shorter[..n] == ms[..n] && forall m :: m in shorter ==> m in ms;
      TakeableAt(shorter, n);
    }
  }

  /** The golden book over a whole stream holds exactly its unbanded live orders. */
  method RunReference(ref: R.RefBook, ms: seq<RtlMsg>)
    requires ref.Exact() && ref.orders == map[] && Takeable(ms)
    modifies ref
    ensures ref.Exact() && ref.orders == Unbanded(ms)
  {
    for i := 0 to |ms|
      invariant ref.Exact() && ref.orders == Unbanded(ms[..i])
    {
      hide R.Fresh, R.Holds, AllVacant;
      TakeableAt(ms, i);
      assert ms[..i + 1][..i] == ms[..i];
      ref.Apply(ms[i]);
    }
    assert ms[..|ms|] == ms;
  }

  lemma {:induction false} FilterKeepsPositive(ms: seq<RtlMsg>, base: u32, window: nat)
    requires forall m :: m in ms ==> Q.Positive(m)
    ensures forall m :: m in Filter(ms, base, window) ==> Q.Positive(m)
  {
    if ms != [] {
      var m, before := ms[|ms| - 1], ms[..|ms| - 1];
      assert m in ms && forall x :: x in before ==> x in ms;
      FilterKeepsPositive(before, base, window);
    }
  }

  /** A banded book showing the raw stream agrees with the golden book of the filtered one on
      every level, total and best price. */
  lemma BandedShowsFiltered(b: B.Book, p: B.Params, t: R.Tables, ms: seq<RtlMsg>, base: u32)
    requires base + p.window <= WRAP32 && AllSettle(ms, base, p.window)
    requires var os := P.Replay(ms, base, p.window); H.Shows(b, p, os) && (b.r.base == base || os == map[])
    requires R.Holds(t, Unbanded(Filter(ms, base, p.window)))
    ensures B.Lengths(b, p)
    ensures SideAgrees(b, p, t.bids, t.totBid, SIDE_BUY) && SideAgrees(b, p, t.asks, t.totAsk, SIDE_SELL)
  {
    hide H.Shows, R.Holds, SideAgrees, P.Replay, Unbanded, Filter, AllSettle, AlwaysAgree;
    Commutes(ms, base, p.window);
    AgreeNow(ms, base, p.window);
    SideShown(b, p, P.Replay(ms, base, p.window), t, SIDE_BUY);
    SideShown(b, p, P.Replay(ms, base, p.window), t, SIDE_SELL);
  }

  /** The hardware plays the stream's raw bytes, the golden book the messages the band filter
      leaves of them. All outputs agree and are those of the stream's banded orders, for every
      pinned or centred window and every cut of the bytes into beats. */
  method Compare(chip: P.OrderBookTop, ref: R.RefBook, stream: Bytes, cut: nat -> nat) returns (ok: bool)
    requires chip.Wired() && P.Inv(chip.View(), chip.engine.p, P.F.Log([], [], [], []), [], stream, chip.pin, 0)
    requires P.Suits(stream, chip.engine.p, chip.pin)
    requires ref.Exact() && ref.orders == map[]
    requires var all := Messages(Frames(stream));
      var base, window := P.BandBase(all, chip.engine.p, chip.pin), chip.engine.p.window;
      base + window <= WRAP32 && AllVacant(Filter(all, base, window))
    modifies chip.framer, chip.decoder, chip.engine, chip.engine.tbl, chip.engine.bidTracker, chip.engine.askTracker,
      ref
    ensures !ok ==> chip.engine.tbl.fails > 0
    ensures var all := Messages(Frames(stream));
      var base, window := P.BandBase(all, chip.engine.p, chip.pin), chip.engine.p.window;
      ref.Exact() && ref.orders == Unbanded(Filter(all, base, window)) == P.Replay(all, base, window)
    ensures ok ==>
      && chip.Wired() && B.Lengths(chip.engine.View(), chip.engine.p)
      && SideAgrees(chip.engine.View(), chip.engine.p, ref.bids, ref.totBid, SIDE_BUY)
      && SideAgrees(chip.engine.View(), chip.engine.p, ref.asks, ref.totAsk, SIDE_SELL)
      && H.T.Holds(chip.engine.View().tbl.mem, ref.orders)
  {
    hide H.Shows, R.Holds, SideAgrees, P.Inv, P.StreamOk, P.Replay, P.BandBase, Unbanded, Filter, AllVacant,
      AllSettle, AlwaysAgree, Messages, Frames;
    var all := Messages(Frames(stream));
    var p := chip.engine.p;
    var base := P.BandBase(all, p, chip.pin);
    assert forall m :: m in all ==> Q.Positive(m) by { SuitsPositive(stream, p, chip.pin); }
    FilterKeepsPositive(all, base, p.window);
    RunReference(ref, Filter(all, base, p.window));
    VacantSettles(all, base, p.window);
    AgreeNow(all, base, p.window);
    ok := chip.Play(stream, cut);
    if ok {
      ghost var b, t := chip.engine.View(), ref.View();
      BandedShowsFiltered(b, p, t, all, base);
    }
  }

  lemma SuitsPositive(stream: Bytes, p: B.Params, pin: Option<u32>)
    requires P.Suits(stream, p, pin)
    ensures forall m :: m in Messages(Frames(stream)) ==> Q.Positive(m)
  {}
}
