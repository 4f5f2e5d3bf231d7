/** Main results about the hardware book. */
module RtlBookTheorems {
  import opened Itch
  import opened LiveOrders
  import opened RtlSpec
  import opened RtlBookEngine
  import opened RtlBookProofs
  import opened RtlBookSteps
  import T = RtlOrderRefTable
  import K = RtlBestTracker

  /** Committed orders after an edge: a message commits on the edge that raises `done`. */
  function Committed(b: Book, p: Params, os: Orders): Orders {
    if b.r.state == FINISH then Target(b, p, os) else os
  }

  /** Every edge of every run keeps the invariant, unless an insertion failed. */
  lemma EveryEdge(b: Book, p: Params, os: Orders, f0: nat, input: Input)
    requires Inv(b, p, os, f0) && Acceptable(b, p, os, input)
    ensures Shape(b, p) && Kept(Next(b, p, input), p, Committed(b, p, os), f0)
    ensures Next(b, p, input).r.done <==> b.r.state == FINISH
  {
    InvShape(b, p, os, f0);
    DoneEdge(b, p, input);
    hide Inv, Kept, Next, Shape;
    match b.r.state {
      case IDLE => StepIdle(b, p, os, f0, input);
      case ADD_TBL => StepAddTbl(b, p, os, f0, input);
      case ADD_LVL => StepAddLvl(b, p, os, f0, input);
      case LK => StepLookup(b, p, os, f0, input);
      case MOD_LVL => StepModLvl(b, p, os, f0, input);
      case MOD_TBL => StepModTbl(b, p, os, f0, input);
      case EMPTY => StepEmpty(b, p, os, f0, input);
      case EMPTY_WAIT => StepEmptyWait(b, p, os, f0, input);
      case RADD_TBL => StepReaddTbl(b, p, os, f0, input);
      case RADD_LVL => StepReaddLvl(b, p, os, f0, input);
      case FINISH => StepFinish(b, p, os, f0, input);
    }
  }

  lemma DoneEdge(b: Book, p: Params, input: Input)
    requires Shape(b, p)
    ensures Next(b, p, input).r.done <==> b.r.state == FINISH
  {
    var c := Children(b, p);
    hide FsmStep, Children, T.Shape, K.Shape;
    match b.r.state {
      case IDLE =>
        if input.Message? { LatchDone(c.r, p, input.m); }
        DoneIdle(b, c, p, input);
      case ADD_TBL | LK => DoneLook(b, c, p, input);
      case MOD_TBL | RADD_TBL => DoneStore(b, c, p, input);
      case EMPTY | EMPTY_WAIT => DoneScan(b, c, p, input);
      case _ => DoneMove(b, c, p, input);
    }
  }

  lemma DoneLook(b: Book, c: Book, p: Params, input: Input)
    requires Lengths(b, p) && Lengths(c, p) && !c.r.done && b.r.state in {ADD_TBL, LK}
    ensures FsmStep(b, c, p, input).r.done <==> b.r.state == FINISH
  {
    hide AddLevel, TakeLevel, Amount, AddCmd, ModCmd, ReaddCmd, AnyScanning, Offset, Address, Latch;
  }

  lemma DoneStore(b: Book, c: Book, p: Params, input: Input)
    requires Lengths(b, p) && Lengths(c, p) && !c.r.done && b.r.state in {MOD_TBL, RADD_TBL}
    ensures FsmStep(b, c, p, input).r.done <==> b.r.state == FINISH
  {
    hide AddLevel, TakeLevel, Amount, AddCmd, ModCmd, ReaddCmd, AnyScanning, Offset, Address, Latch;
  }

  lemma DoneScan(b: Book, c: Book, p: Params, input: Input)
    requires Lengths(b, p) && Lengths(c, p) && !c.r.done && b.r.state in {EMPTY, EMPTY_WAIT}
    ensures FsmStep(b, c, p, input).r.done <==> b.r.state == FINISH
  {
    hide AddLevel, TakeLevel, Amount, AddCmd, ModCmd, ReaddCmd, AnyScanning, Offset, Address, Latch;
  }

  lemma DoneMove(b: Book, c: Book, p: Params, input: Input)
    requires Lengths(b, p) && Lengths(c, p) && !c.r.done && b.r.state in {ADD_LVL, RADD_LVL, MOD_LVL, FINISH}
    ensures FsmStep(b, c, p, input).r.done <==> b.r.state == FINISH
  {
    hide AddLevel, TakeLevel, Amount, AddCmd, ModCmd, ReaddCmd, AnyScanning, Offset, Address, Latch;
  }

  lemma DoneIdle(b: Book, c: Book, p: Params, input: Input)
    requires Lengths(b, p) && Lengths(c, p) && !c.r.done && b.r.state == IDLE
    requires input.Message? ==> Latch(c.r, p, input.m).done == c.r.done
    ensures !FsmStep(b, c, p, input).r.done
  {
    hide Latch;
  }

  lemma LatchDone(r: Regs, p: Params, m: RtlMsg)
    ensures Latch(r, p, m).done == r.done
  {
    hide BaseFor, Offset;
  }

  // ---- whole runs -----------------------------------------------------------------------

  /** A run: the book and its committed orders after each cycle's decoder output. */
  ghost predicate GoodRun(b: Book, p: Params, os: Orders, inputs: seq<Input>, f0: nat)
    decreases |inputs|
  {
    inputs != [] && b.tbl.fails == f0 && Shape(b, p) ==>
      && Acceptable(b, p, os, inputs[0])
      && GoodRun(Next(b, p, inputs[0]), p, Committed(b, p, os), inputs[1..], f0)
  }

  ghost function Final(b: Book, p: Params, os: Orders, inputs: seq<Input>): (Book, Orders)
    decreases |inputs|
  {
    if inputs == [] || !Shape(b, p) then (b, os)
    else Final(Next(b, p, inputs[0]), p, Committed(b, p, os), inputs[1..])
  }

  lemma FailsOnlyGrow(b: Book, p: Params, input: Input)
    requires Shape(b, p)
    ensures Next(b, p, input).tbl.fails >= b.tbl.fails
  {
    assert Next(b, p, input).tbl == T.Next(b.tbl, p.home, b.cmd);
  }

  lemma {:induction false} FinalFails(b: Book, p: Params, os: Orders, inputs: seq<Input>)
    ensures Final(b, p, os, inputs).0.tbl.fails >= b.tbl.fails
    decreases |inputs|
  {
    if inputs != [] && Shape(b, p) {
      FailsOnlyGrow(b, p, inputs[0]);
      FinalFails(Next(b, p, inputs[0]), p, Committed(b, p, os), inputs[1..]);
    }
  }

  /** Whole runs: if no insertion ever failed, the invariant holds at the end for exactly the
      orders the completed messages leave. */
  lemma {:induction false} EveryRun(b: Book, p: Params, os: Orders, inputs: seq<Input>, f0: nat)
    requires Inv(b, p, os, f0) && GoodRun(b, p, os, inputs, f0)
    ensures var (b', os') := Final(b, p, os, inputs);
      b'.tbl.fails > f0 || Inv(b', p, os', f0)
    decreases |inputs|
  {
    InvFails(b, p, os, f0);
    InvShape(b, p, os, f0);
    hide Inv, Next, Shape, Acceptable;
    if inputs != [] {
      EveryEdge(b, p, os, f0, inputs[0]);
      var b' := Next(b, p, inputs[0]);
      if b'.tbl.fails > f0 {
        FinalFails(b', p, Committed(b, p, os), inputs[1..]);
      } else {
        EveryRun(b', p, Committed(b, p, os), inputs[1..], f0);
      }
    }
  }

  lemma InvFails(b: Book, p: Params, os: Orders, f0: nat)
    requires Inv(b, p, os, f0)
    ensures b.tbl.fails == f0
  {}

  // ---- what is visible when a message is done ---------------------------------------------

  /** A price inside the window shows its level; outside it there is nothing to show. */
  ghost predicate LevelShown(b: Book, p: Params, os: Orders, side: char, price: u32)
    requires Lengths(b, p)
  {
    if Offset(price, b.r.base) < p.window then
      && At(b, side).shares[Offset(price, b.r.base)] == LevelShares(os, side, price)
      && At(b, side).count[Offset(price, b.r.base)] == LevelCount(os, side, price)
    else LevelShares(os, side, price) == 0
  }

  /** The level, count, volume and best-price outputs for these live orders. */
  ghost predicate Shows(b: Book, p: Params, os: Orders) {
    && Lengths(b, p)
    && (forall side, price: u32 :: ValidSide(side) ==> LevelShown(b, p, os, side, price))
    && (forall side :: ValidSide(side) ==>
      At(b, side).cnt == SideCount(os, side) && At(b, side).tot == SideVolume(os, side))
    && BestShown(b, p, os, SIDE_BUY) && BestShown(b, p, os, SIDE_SELL)
  }

  /** The best price is the highest bid or lowest ask with shares, when there is one. */
  ghost predicate BestShown(b: Book, p: Params, os: Orders, side: char) {
    var t := At(b, side).tracker;
    && (t.valid <==> exists price: u32 :: LevelShares(os, side, price) > 0)
    && (t.valid ==>
      && t.best < WRAP32 && LevelShares(os, side, PriceAt(t.best, b.r.base)) > 0
      && (b.r.base + p.window <= WRAP32 ==> forall price: u32 :: LevelShares(os, side, price) > 0 ==>
        if side == SIDE_BUY then price <= b.r.base + t.best else b.r.base + t.best <= price))
  }

  lemma OutOfWindow(os: Orders, base: u32, window: nat, side: char, price: u32)
    requires Banded(os, base, window) && Offset(price, base) >= window
    ensures LevelShares(os, side, price) == 0
  {
    SumZero(os, LevelW(side, price));
  }

  lemma BestIsShown(b: Book, p: Params, os: Orders, side: char)
    requires Lengths(b, p) && Levels(b, p, os) && Banded(os, b.r.base, p.window) && ValidSide(side)
    requires K.Best(At(b, side).tracker, IsBid(side), At(b, side).shares)
    ensures BestShown(b, p, os, side)
  {
    var s, base := At(b, side), b.r.base;
    forall price: u32 | LevelShares(os, side, price) > 0
      ensures Offset(price, base) < p.window && s.shares[Offset(price, base)] > 0
    {
      if Offset(price, base) >= p.window { OutOfWindow(os, base, p.window, side, price); }
      assert PriceAt(Offset(price, base), base) == price;
    }
    if s.tracker.valid { assert s.shares[s.tracker.best] == LevelShares(os, side, PriceAt(s.tracker.best, base)); }
  }

  lemma LevelIsShown(b: Book, p: Params, os: Orders, side: char, price: u32)
    requires Lengths(b, p) && Levels(b, p, os) && Banded(os, b.r.base, p.window) && ValidSide(side)
    ensures LevelShown(b, p, os, side, price)
  {
    if Offset(price, b.r.base) < p.window {
      assert PriceAt(Offset(price, b.r.base), b.r.base) == price;
    } else {
      OutOfWindow(os, b.r.base, p.window, side, price);
    }
  }

  lemma QuietShows(b: Book, p: Params, os: Orders)
    requires Lengths(b, p) && Levels(b, p, os) && Banded(os, b.r.base, p.window) && Quiet(b)
    ensures Shows(b, p, os)
  {
    BestIsShown(b, p, os, SIDE_BUY);
    BestIsShown(b, p, os, SIDE_SELL);
    forall side, price: u32 | ValidSide(side) ensures LevelShown(b, p, os, side, price) {
      LevelIsShown(b, p, os, side, price);
    }
    hide BestShown, SideQuiet, Banded, LevelShown;
  }

  /** At every `engine_done` the outputs are those of the completed messages' live orders, and
      the reference table holds exactly those orders. */
  lemma DoneShows(b: Book, p: Params, os: Orders, f0: nat)
    requires Inv(b, p, os, f0) && b.r.state == IDLE
    ensures Shows(b, p, os) && T.Holds(b.tbl.mem, os)
  {
    hide Shows, Levels, Banded, Fits, SideQuiet, T.SlotsOk, T.Shape, T.Holds;
    QuietShows(b, p, os);
  }

  // ---- completion ---------------------------------------------------------------------------

  function TableLeft(b: Book): nat {
    if !b.r.tblReq then T.MAX_PROBE + 7
    else if b.cmd.Issue? then T.MAX_PROBE + 6
    else if b.tbl.state == T.IDLE then 0
    else 1 + T.Left(b.tbl)
  }

  function ScanLeft(b: Book, p: Params): nat {
    if b.bid.pulse.EmptiedAt? || b.ask.pulse.EmptiedAt? then p.window + 2
    else K.ScanLeft(b.bid.tracker, true, p.window) + K.ScanLeft(b.ask.tracker, false, p.window)
  }

  /** States in their order of visit, each worth more than any wait inside a later one. */
  function Stage(s: State, unit: nat): nat {
    match s
    case IDLE => 0 case FINISH => unit
    case ADD_LVL => 2 * unit case ADD_TBL => 3 * unit
    case RADD_LVL => 2 * unit case RADD_TBL => 3 * unit
    case EMPTY_WAIT => 4 * unit case EMPTY => 5 * unit
    case MOD_TBL => 6 * unit case MOD_LVL => 7 * unit case LK => 8 * unit
  }

  /** Cycles a message may still take. */
  function Work(b: Book, p: Params): nat {
    Stage(b.r.state, p.window + T.MAX_PROBE + 8) +
    match b.r.state
    case ADD_TBL | RADD_TBL | LK | MOD_TBL => TableLeft(b)
    case EMPTY_WAIT => ScanLeft(b, p) + if b.r.expectScan && !b.r.scanSeen then 1 else 0
    case _ => 0
  }

  /** A waiting edge shortens the wait. */
  lemma TableProgress(b: Book, p: Params, os: Orders, c: T.Cmd, f0: nat)
    requires Shape(b, p) && b.r.tblReq && !b.tbl.done && Waiting(true, b.cmd, b.tbl, p.home, os, c, f0)
    ensures var t' := T.Next(b.tbl, p.home, b.cmd);
      (if t'.state == T.IDLE then 0 else 1 + T.Left(t')) < TableLeft(b)
  {
    hide T.Next;
    if b.tbl.state == T.DONE {
      T.EdgeStep(b.tbl, p.home, T.MapAfter(c, os, false), b.cmd);
    } else {
      T.EdgeStep(b.tbl, p.home, os, b.cmd);
    }
  }

  lemma TableWork(b: Book, p: Params, os: Orders, f0: nat, input: Input)
    requires Inv(b, p, os, f0) && Shape(b, p) && b.r.state in {ADD_TBL, LK, MOD_TBL, RADD_TBL}
    ensures Work(Next(b, p, input), p) < Work(b, p)
  {
    hide Next, FsmStep, Children, Waiting, T.Next, T.Inv, Levels, Quiet, AfterTake, SideQuiet, Banded, Fits;
    match b.r.state {
      case ADD_TBL =>
        AddTblEdge(b, p, input);
        if b.r.tblReq && !b.tbl.done { TableProgress(b, p, os, AddCmd(b), f0); }
      case LK =>
        LookupEdge(b, p, input);
        if b.r.tblReq && !b.tbl.done {
          TableProgress(b, p, os, T.Cmd(T.LOOKUP, false, b.r.m.orderRef, T.NO_ORDER), f0);
        }
      case MOD_TBL =>
        ModTblEdge(b, p, input);
        if b.r.tblReq && !b.tbl.done { TableProgress(b, p, os, ModCmd(b), f0); }
      case RADD_TBL =>
        ReaddTblEdge(b, p, input);
        if b.r.tblReq && !b.tbl.done { TableProgress(b, p, Taken(os, b.r.m), ReaddCmd(b), f0); }
    }
  }

  lemma ScanWork(b: Book, p: Params, os: Orders, f0: nat, input: Input)
    requires Inv(b, p, os, f0) && Shape(b, p) && b.r.state == EMPTY_WAIT
    ensures Work(Next(b, p, input), p) < Work(b, p)
  {
    hide Next, FsmStep, Children, T.Next, T.Inv, Fits, LevelsOk, Banded;
    var d := b.r.rest.side;
    EmptyWaitEdge(b, p, input);
    SideKnown(os, b.r.m.orderRef, b.r.base, p.window);
    TakenBanded(os, b.r.m, b.r.base, p.window);
    CounterTells(At(b, d), Taken(os, b.r.m), d, b.r.base, p.window);
    if At(b, d).tracker.scanning {
      K.ScanStep(At(b, d).tracker, IsBid(d), At(b, d).pulse, At(b, d).cnt != 0, At(b, d).shares);
    }
  }

  /** The remaining states last one cycle each. */
  lemma OneCycleStates(b: Book, p: Params, input: Input)
    requires Shape(b, p) && b.r.state in {ADD_LVL, RADD_LVL, MOD_LVL, EMPTY, FINISH}
    ensures var s' := Next(b, p, input).r.state;
      match b.r.state
      case MOD_LVL => s' == MOD_TBL
      case EMPTY => s' == EMPTY_WAIT
      case FINISH => s' == IDLE
      case _ => s' == FINISH
    ensures b.r.state == MOD_LVL ==> Next(b, p, input).r.tblReq == b.r.tblReq
  {}

  /** No message hangs: every edge of a message in progress uses up some of a bounded amount
      of work, so `engine_done` comes; in particular EMPTY_WAIT always ends. */
  lemma EveryMessageCompletes(b: Book, p: Params, os: Orders, f0: nat, input: Input)
    requires Inv(b, p, os, f0) && b.r.state != IDLE
    ensures Shape(b, p) && (Next(b, p, input).tbl.fails > f0 || Work(Next(b, p, input), p) < Work(b, p))
  {
    InvShape(b, p, os, f0);
    hide Next, FsmStep, Children, Inv, Shape, Work;
    if b.r.state in {ADD_TBL, LK, MOD_TBL, RADD_TBL} {
      TableWork(b, p, os, f0, input);
    } else if b.r.state == EMPTY_WAIT {
      ScanWork(b, p, os, f0, input);
    } else {
      OneCycleWork(b, p, os, f0, input);
    }
  }

  lemma OneCycleWork(b: Book, p: Params, os: Orders, f0: nat, input: Input)
    requires Inv(b, p, os, f0) && Shape(b, p) && b.r.state in {ADD_LVL, RADD_LVL, MOD_LVL, EMPTY, FINISH}
    ensures Next(b, p, input).tbl.fails > f0 || Work(Next(b, p, input), p) < Work(b, p)
  {
    hide Next, FsmStep, Children, Inv, Shape, ScanLeft;
    OneCycleStates(b, p, input);
    if b.r.state == EMPTY {
      StepEmpty(b, p, os, f0, input);
      WaitWorkBound(Next(b, p, input), p, os, f0);
    }
  }

  lemma WaitWorkBound(b: Book, p: Params, os: Orders, f0: nat)
    requires b.r.state == EMPTY_WAIT && (b.tbl.fails > f0 || Inv(b, p, os, f0))
    ensures b.tbl.fails > f0 || ScanLeft(b, p) <= p.window + 2
  {}
}
