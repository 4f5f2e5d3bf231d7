/** Whole trading sessions: market messages interleaved with submissions and cancels. */
module Session {
  import opened Itch
  import opened LiveOrders
  import opened BookSpec
  import opened QueueSpec
  import opened QueueTheorems
  import opened QueueLedger
  import E = BookEngine
  import F = FillEngine
  import B = OrderBook
  import T = OrderRefTable

  datatype Action =
    | Market(m: Message)
    | Submit(side: char, price: u32, shares: u32, ts: u64)
    | CancelOrder(ref: nat)
    | Poll

  // ---- the session on values ----------------------------------------------------------------

  /** The market's live orders, the overlay, the ledger and the counters. */
  datatype Sim = Sim(os: Orders, st: Overlay, ledger: Ledger, nextRef: nat, nextSeq: nat, mark: u64)

  /** The level array of one side for these live orders. */
  ghost function Shown(os: Orders, loc: u16, side: char, levels: u32): (ls: seq<B.PriceLevel>)
    ensures 0 < |ls| <= U32_MAX
  {
    seq(if levels > 0 then levels else 1, p requires p >= 0 =>
      B.PriceLevel(Min(Shares(os, loc, side, p), U32_MAX), Min(Count(os, loc, side, p), U32_MAX)))
  }

  /** Lowest ask, for a buy, or highest bid. */
  ghost function Nearest(ls: seq<B.PriceLevel>, up: bool): (p: nat)
    requires 0 < |ls|
    ensures p < |ls|
  {
    if up then B.NearestAbove(ls, 1) else B.NearestBelow(ls, |ls| - 1)
  }

  ghost function Taken(os: Orders, loc: u16, levels: u32, a: Action, ref: nat): seq<FillRec>
    requires a.Submit?
  {
    var ls := Shown(os, loc, F.Opposite(a.side), levels);
    Sweep(ls, Nearest(ls, Up(a.side)), a.price, a.side, a.shares, a.ts, ref)
  }

  /** A submission sweeps what it crosses and rests the remainder behind the displayed shares
      and our own earlier orders of its level. */
  ghost function Submitted(s: Sim, a: Action, loc: u16, levels: u32): Sim
    requires a.Submit?
  {
    var taker := Taken(s.os, loc, levels, a, s.nextRef);
    var left := if Total(taker) < a.shares then a.shares - Total(taker) else 0;
    var ahead := At(Shown(s.os, loc, a.side, levels), a.price) + Own(s.st.open, |s.st.open|, a.side, a.price);
    var rest := if left == 0 then []
      else [OpenOrder(s.nextRef, a.side, a.price, left, a.shares, ahead, s.mark, s.nextSeq)];
    s.(st := Overlay(s.st.open + rest, s.st.fills + taker),
       ledger := s.ledger.(submitted := s.ledger.submitted[s.nextRef := a.shares]),
       nextRef := s.nextRef + 1, nextSeq := s.nextSeq + |rest|)
  }

  ghost function Cancelled(s: Sim, ref: nat): Sim {
    var i := IndexOf(s.st.open, ref);
    if i == |s.st.open| then s
    else s.(st := s.st.(open := CancelAt(s.st.open, i)), ledger := s.ledger.(cancelled :=
      s.ledger.cancelled[ref := GetNat(s.ledger.cancelled, ref) + s.st.open[i].remaining]))
  }

  ghost function Acted(s: Sim, a: Action, loc: u16, levels: u32, cap: nat): Sim {
    match a
    case Market(m) => s.(os := Step(s.os, m, levels, cap), st := OnMarket(s.st, s.os, loc, m),
      mark := RaiseMark(s.mark, m))
    case Submit(_, _, _, _) => Submitted(s, a, loc, levels)
    case CancelOrder(ref) => Cancelled(s, ref)
    case Poll => s.(st := s.st.(fills := []), ledger := s.ledger.(taken := s.ledger.taken + s.st.fills))
  }

  ghost function Played(start: Sim, actions: seq<Action>, loc: u16, levels: u32, cap: nat): Sim {
    if actions == [] then start
    else Acted(Played(start, actions[..|actions| - 1], loc, levels, cap), actions[|actions| - 1], loc, levels, cap)
  }

  const START: Sim := Sim(map[], Overlay([], []), Ledger([], map[], map[]), F.OUR_REF_BIT + 1, 0, 0)

  /** Sizes submitted, in order; the k-th gets reference OUR_REF_BIT + 1 + k. */
  function Sizes(actions: seq<Action>): seq<u32> {
    if actions == [] then []
    else
      var last := actions[|actions| - 1];
      Sizes(actions[..|actions| - 1]) + if last.Submit? then [last.shares] else []
  }

  function SizeOf(actions: seq<Action>, ref: nat): nat {
    if F.OUR_REF_BIT < ref <= F.OUR_REF_BIT + |Sizes(actions)| then Sizes(actions)[ref - F.OUR_REF_BIT - 1] else 0
  }

  /** The ledger's submitted column is the submissions of the session. */
  lemma {:induction false} LedgerIsSizes(actions: seq<Action>, loc: u16, levels: u32, cap: nat)
    ensures var s := Played(START, actions, loc, levels, cap);
      && s.nextRef == F.OUR_REF_BIT + 1 + |Sizes(actions)|
      && (forall ref: nat :: GetNat(s.ledger.submitted, ref) == SizeOf(actions, ref))
  {
    hide OnMarket, Step, Sweep, Taken;
    if actions != [] { LedgerIsSizes(actions[..|actions| - 1], loc, levels, cap); }
  }

  /** Shares return to the cancelled column only by a cancel of that very order. */
  lemma {:induction false} NotCancelled(actions: seq<Action>, loc: u16, levels: u32, cap: nat, ref: nat)
    requires CancelOrder(ref) !in actions
    ensures GetNat(Played(START, actions, loc, levels, cap).ledger.cancelled, ref) == 0
  {
    hide OnMarket, Step, Sweep, Taken, CancelAt, IndexOf;
    if actions != [] {
      var n := |actions| - 1;
      assert actions[n] in actions && forall a :: a in actions[..n] ==> a in actions;
      NotCancelled(actions[..n], loc, levels, cap, ref);
    }
  }

  // ---- the session on objects -----------------------------------------------------------------

  ghost function State(fe: F.FillEngine): Sim
    reads fe, fe.eng, fe.eng.refs
  {
    Sim(fe.eng.Orders(), fe.View(), fe.ledger, fe.nextRef, fe.nextSeq, fe.maxMarketRef)
  }

  lemma ShownIsDisplayed(e: E.BookEngine, loc: u16, side: char)
    requires e.Valid() && ValidSide(side)
    ensures var ls := Shown(e.Orders(), loc, side, e.priceLevels);
      && (loc in e.books ==> F.Displayed(e, loc, side) == ls)
      && (forall p: nat :: At(F.Displayed(e, loc, side), p) == At(ls, p))
  {
    hide T.OrderRefTable.Valid, WellFormed;
    var ls, shown := Shown(e.Orders(), loc, side, e.priceLevels), F.Displayed(e, loc, side);
    if loc in e.books {
      assert e.BookOk(loc, e.Orders());
      forall p | 0 <= p < |ls| ensures shown[p] == ls[p] {
        assert e.books[loc].LevelAt(side, p).shares == Shares(e.Orders(), loc, side, p);
      }
    } else {
      EmptyBook(e, loc, side);
    }
  }

  lemma EmptyBook(e: E.BookEngine, loc: u16, side: char)
    requires e.Valid() && loc !in e.books
    ensures forall p: nat :: Shares(e.Orders(), loc, side, p) == 0
  {
    forall p: nat ensures Shares(e.Orders(), loc, side, p) == 0 { NoOrdersAt(e.Orders(), loc, side, p); }
  }

  lemma TouchIsNearest(e: E.BookEngine, loc: u16, up: bool)
    requires e.Valid()
    ensures F.Touch(e, loc, up) ==
      Nearest(Shown(e.Orders(), loc, if up then SIDE_SELL else SIDE_BUY, e.priceLevels), up)
  {
    var side := if up then SIDE_SELL else SIDE_BUY;
    ShownIsDisplayed(e, loc, side);
    hide T.OrderRefTable.Valid, WellFormed, Shown;
    if loc in e.books {
      assert e.BookOk(loc, e.Orders());
    } else {
      var ls := Shown(e.Orders(), loc, side, e.priceLevels);
      forall p | 0 <= p < |ls| ensures ls[p].shares == 0 { assert At(ls, p) == 0; }
    }
  }

  lemma TakerIsTaken(fe: F.FillEngine, a: Action, ref: nat)
    requires fe.eng.Valid() && a.Submit? && F.Touch(fe.eng, fe.locate, Up(a.side)) <= U32_MAX
    ensures fe.Taker(a.side, a.price, a.shares, a.ts, ref) ==
      Taken(fe.eng.Orders(), fe.locate, fe.eng.priceLevels, a, ref)
  {
    ShownIsDisplayed(fe.eng, fe.locate, F.Opposite(a.side));
    TouchIsNearest(fe.eng, fe.locate, Up(a.side));
    hide E.BookEngine.Valid, Shown, Nearest, F.Touch;
  }

  /** The market messages of a session, in order. */
  function Feed(actions: seq<Action>): seq<Message> {
    if actions == [] then []
    else
      var last := actions[|actions| - 1];
      Feed(actions[..|actions| - 1]) + if last.Market? then [last.m] else []
  }

  /** Highest reference the overlay has seen arrive. */
  function Mark(ms: seq<Message>): u64 {
    if ms == [] then 0 else RaiseMark(Mark(ms[..|ms| - 1]), ms[|ms| - 1])
  }

  /** Message i is not rejected with an effect, arrives with a new highest reference, and
      finds room in the table when it must erase. */
  ghost predicate GoodAt(ms: seq<Message>, i: nat, levels: nat, cap: nat)
    requires i < |ms|
  {
    var os, m := Run(ms[..i], levels, cap), ms[i];
    && Outcome(os, m, levels, cap) in {Applied, Ignored, MissingReference}
    && (Erases(os, m, levels, cap) ==> |os| < cap)
    && (IsAdd(m) ==> m.orderRef > Mark(ms[..i]))
    && (m.kind == OrderReplace ==> m.newOrderRef > Mark(ms[..i]))
  }

  lemma {:induction false} FeedPrefix(actions: seq<Action>, i: nat)
    requires i <= |actions|
    ensures Feed(actions[..i]) <= Feed(actions)
    decreases |actions|
  {
    if i < |actions| {
      FeedPrefix(actions[..|actions| - 1], i);
      assert actions[..|actions| - 1][..i] == actions[..i];
    } else {
      assert actions[..i] == actions;
    }
  }

  lemma FeedNext(actions: seq<Action>, i: nat)
    requires i < |actions|
    ensures Feed(actions[..i + 1]) == Feed(actions[..i]) + if actions[i].Market? then [actions[i].m] else []
    ensures actions[i].Market? ==> var n := |Feed(actions[..i])|;
      n < |Feed(actions)| && Feed(actions)[..n] == Feed(actions[..i]) && Feed(actions)[n] == actions[i].m
    ensures Mark(Feed(actions[..i + 1])) ==
      if actions[i].Market? then RaiseMark(Mark(Feed(actions[..i])), actions[i].m) else Mark(Feed(actions[..i]))
    ensures forall levels, cap ::
      Run(Feed(actions[..i + 1]), levels, cap) == if actions[i].Market?
        then Step(Run(Feed(actions[..i]), levels, cap), actions[i].m, levels, cap)
          else Run(Feed(actions[..i]), levels, cap)
  {
    assert actions[..i + 1][..i] == actions[..i];
    FeedPrefix(actions, i + 1);
    var ms, ms' := Feed(actions[..i]), Feed(actions[..i + 1]);
    if actions[i].Market? { assert ms'[..|ms|] == ms; } else { assert ms' == ms; }
  }

  lemma GoodIsFaithful(fe: F.FillEngine, ms: seq<Message>, n: nat, levels: nat, cap: nat)
    requires n < |ms| && GoodAt(ms, n, levels, cap) && fe.Valid() && fe.maxMarketRef == Mark(ms[..n])
    ensures Faithful(fe.open, Run(ms[..n], levels, cap), fe.locate, ms[n], levels, cap)
  {
    IncreasingAcceptedIsFaithful(fe.open, Run(ms[..n], levels, cap), fe.locate, ms[n], levels, cap, fe.maxMarketRef);
  }

  method PerformSubmit(fe: F.FillEngine, a: Action)
    requires fe.eng.Valid() && fe !in fe.eng.Repr && fe.Valid() && a.Submit? && ValidSide(a.side)
    modifies fe
    ensures fe.Valid() && (old(fe.Tracks()) ==> fe.Tracks())
    ensures State(fe) == Submitted(old(State(fe)), a, fe.locate, fe.eng.priceLevels)
  {
    hide E.BookEngine.Valid, F.FillEngine.Valid, F.FillEngine.Tracks, Taken, F.FillEngine.Taker, F.Touch,
      F.Displayed, Shown, Own;
    ShownIsDisplayed(fe.eng, fe.locate, a.side);
    var ref := fe.SubmitLimit(a.side, a.price, a.shares, a.ts);
    TakerIsTaken(fe, a, ref);
  }

  /** One action moves the simulation as specified; exact positions stay exact. */
  method Perform(fe: F.FillEngine, a: Action)
    requires fe.eng.Valid() && fe !in fe.eng.Repr && fe.Valid() && fe.Tracks()
    requires a.Market? ==>
      && Faithful(fe.open, fe.eng.Orders(), fe.locate, a.m, fe.eng.priceLevels, fe.eng.refs.cap)
      && (Erases(fe.eng.Orders(), a.m, fe.eng.priceLevels, fe.eng.refs.cap) ==> |fe.eng.Orders()| < fe.eng.refs.cap)
    requires a.Submit? ==> ValidSide(a.side)
    modifies fe, fe.eng.Repr
    ensures fe.eng.Valid() && fresh(fe.eng.Repr - old(fe.eng.Repr)) && fe !in fe.eng.Repr && fe.Valid() && fe.Tracks()
    ensures State(fe) == Acted(old(State(fe)), a, fe.locate, fe.eng.priceLevels, fe.eng.refs.cap)
  {
    hide E.BookEngine.Valid, F.FillEngine.Valid, Outcome, Erases, Step, Faithful, OnMarket, Submitted, Exact;
    match a {
      case Market(m) => var _ := F.Process(fe, m);
      case Submit(_, _, _, _) => PerformSubmit(fe, a);
      case CancelOrder(ref) => var _ := fe.Cancel(ref);
      case Poll => var _ := fe.TakeFills();
    }
  }

  /** Every session over a good feed, with any submissions, cancels and polls between its
      messages, plays as specified and ends with exact queue positions. Of every submitted size,
      fills, remainder and cancelled shares are the whole; without a cancel, fills and remainder. */
  method RunSession(actions: seq<Action>, locate: u16, levels: u32, capacity: nat, hash: u64 -> nat)
    returns (fe: F.FillEngine)
    requires capacity <= 0x8000_0000
    requires forall i :: 0 <= i < |Feed(actions)| ==> GoodAt(Feed(actions), i, levels, T.TableSize(capacity))
    requires forall a :: a in actions && a.Submit? ==> ValidSide(a.side)
    ensures fe.eng.Valid() && fe.Valid() && fe.Tracks()
    ensures State(fe) == Played(START, actions, locate, levels, T.TableSize(capacity))
    ensures fe.eng.Orders() == Run(Feed(actions), levels, T.TableSize(capacity))
    ensures forall k :: 0 <= k < |Sizes(actions)| ==> Accounted(fe, actions, k)
  {
    var eng := new E.BookEngine(levels, capacity, hash);
    fe := new F.FillEngine(eng, locate);
    ghost var cap := T.TableSize(capacity);
    hide E.BookEngine.Valid, F.FillEngine.Valid, F.FillEngine.Tracks, Outcome, Erases, Step, Faithful, Acted, OnMarket;
    for i := 0 to |actions|
      invariant fe.eng == eng && fe.locate == locate && fresh(eng) && fresh(fe) && fresh(eng.Repr) && fe !in eng.Repr
      invariant eng.Valid() && fe.Valid() && eng.priceLevels == levels && eng.refs.cap == cap
      invariant fe.Tracks() && fe.maxMarketRef == Mark(Feed(actions[..i]))
      invariant State(fe) == Played(START, actions[..i], locate, levels, cap)
      invariant eng.Orders() == Run(Feed(actions[..i]), levels, cap)
    {
      FeedNext(actions, i);
      assert actions[i] in actions && actions[..i + 1][..i] == actions[..i];
      if actions[i].Market? {
        ghost var ms, n := Feed(actions), |Feed(actions[..i])|;
        assert GoodAt(ms, n, levels, cap);
        GoodIsFaithful(fe, ms, n, levels, cap);
      }
      ActedMarket(State(fe), actions[i], locate, levels, cap);
      Perform(fe, actions[i]);
    }
    assert actions[..|actions|] == actions;
    forall k | 0 <= k < |Sizes(actions)| ensures Accounted(fe, actions, k) { Account(fe, actions, k, cap); }
  }

  lemma ActedMarket(s: Sim, a: Action, loc: u16, levels: u32, cap: nat)
    ensures var s' := Acted(s, a, loc, levels, cap);
      && s'.os == (if a.Market? then Step(s.os, a.m, levels, cap) else s.os)
      && s'.mark == (if a.Market? then RaiseMark(s.mark, a.m) else s.mark)
  {
    hide OnMarket, Step, Taken;
  }

  /** The k-th submission's size: fills, what remains open, and what was cancelled. */
  ghost predicate Accounted(fe: F.FillEngine, actions: seq<Action>, k: nat)
    requires k < |Sizes(actions)|
    reads fe
  {
    var ref := F.OUR_REF_BIT + 1 + k;
    var here := Given(fe.ledger.taken, ref) + Balance(fe.View(), ref);
    && here + GetNat(fe.ledger.cancelled, ref) == Sizes(actions)[k]
    && (CancelOrder(ref) !in actions ==> here == Sizes(actions)[k])
  }

  lemma Account(fe: F.FillEngine, actions: seq<Action>, k: nat, cap: nat)
    requires fe.Valid() && State(fe) == Played(START, actions, fe.locate, fe.eng.priceLevels, cap) &&
      k < |Sizes(actions)|
    ensures Accounted(fe, actions, k)
  {
    hide Played, Given, Balance;
    LedgerIsSizes(actions, fe.locate, fe.eng.priceLevels, cap);
    var ref := F.OUR_REF_BIT + 1 + k;
    assert Given(fe.ledger.taken, ref) + Balance(fe.View(), ref) + GetNat(fe.ledger.cancelled, ref) ==
      GetNat(fe.ledger.submitted, ref);
    if CancelOrder(ref) !in actions { NotCancelled(actions, fe.locate, fe.eng.priceLevels, cap, ref); }
  }

  /** Exact positions fit the source's 64-bit counter for any realistic number of orders. */
  lemma {:induction false} OwnBound(open: seq<OpenOrder>, n: nat, side: char, price: nat)
    requires n <= |open|
    ensures Own(open, n, side, price) <= n * U32_MAX
  {
    if n > 0 { OwnBound(open, n - 1, side, price); }
  }

  lemma PositionFits(e: E.BookEngine, open: seq<OpenOrder>, loc: u16, i: nat)
    requires e.Valid() && Exact(open, e.Orders(), loc) && i < |open| < 0xFFFF_FFFF && ValidSide(open[i].side)
    ensures open[i].queueAhead < 0x1_0000_0000_0000_0000
  {
    var o := open[i];
    OwnBound(open, i, o.side, o.price);
    SumMonotone(e.Orders(), AheadOf(loc, o.side, o.price, o.watermark), SharesAt(loc, o.side, o.price));
    F.DisplayedIsShares(e, loc, o.side, o.price);
  }
}
