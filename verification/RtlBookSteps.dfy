/** Every clock edge of the hardware book keeps the invariant, state by state. */
module RtlBookSteps {
  import opened Itch
  import opened LiveOrders
  import opened BookSpec
  import opened RtlSpec
  import opened RtlBookEngine
  import opened RtlBookProofs
  import T = RtlOrderRefTable
  import K = RtlBestTracker

  /** The edge either met a failed insertion or keeps the invariant for these orders. */
  ghost predicate Kept(b: Book, p: Params, os: Orders, f0: nat) {
    b.tbl.fails > f0 || Inv(b, p, os, f0)
  }

  /** A side after one edge on which the FSM does not write it. */
  function Ticked(s: Side, isBid: bool): Side
    requires K.Shape(s.tracker, s.shares)
  {
    s.(tracker := K.Next(s.tracker, isBid, s.pulse, s.cnt != 0, s.shares), pulse := K.NoPulse)
  }

  /** What an edge leaves alone while the FSM neither accepts nor writes a level. */
  ghost predicate Carried(b: Book, b': Book, p: Params)
    requires Shape(b, p)
  {
    && b'.tbl == T.Next(b.tbl, p.home, b.cmd) && b'.bid == Ticked(b.bid, true) && b'.ask == Ticked(b.ask, false)
    && b'.r == b.r.(state := b'.r.state, addr := b'.r.addr, drops := b'.r.drops, tblReq := b'.r.tblReq,
        expectScan := b'.r.expectScan, scanSeen := b'.r.scanSeen, rest := b'.r.rest, done := false)
  }

  lemma QuietStays(b: Book, p: Params)
    requires Shape(b, p) && Quiet(b)
    ensures var c := Children(b, p);
      Quiet(c) && c.bid == b.bid && c.ask == b.ask && Settling(c.bid, true) && Settling(c.ask, false)
  {}

  lemma QuietTicks(b: Book, p: Params)
    requires Shape(b, p) && Quiet(b)
    ensures Ticked(b.bid, true) == b.bid && Ticked(b.ask, false) == b.ask
    ensures Settling(b.bid, true) && Settling(b.ask, false)
  {}

  lemma NoOrdersAnyBase(b: Book, p: Params, base: u32)
    requires Levels(b, p, map[])
    ensures Levels(b.(r := b.r.(base := base)), p, map[]) && Banded(map[], base, p.window)
  {
    EmptyLevelsAnyBase(b.bid, SIDE_BUY, b.r.base, base, p.window);
    EmptyLevelsAnyBase(b.ask, SIDE_SELL, b.r.base, base, p.window);
  }

  /** The base a message is judged by: an Add may centre the band. */
  function BaseUsed(b: Book, p: Params, m: RtlMsg): u32 {
    if IsAdd(m) then BaseFor(b.r, p, m.price) else b.r.base
  }

  /** Arrivals carry shares, and the registers are wide enough for the resulting orders. */
  ghost predicate Acceptable(b: Book, p: Params, os: Orders, input: Input) {
    b.r.state == IDLE && input.Message? ==>
      Positive(input.m) && Fits(BandedAfter(os, input.m, BaseUsed(b, p, input.m), p.window))
  }

  /** The latched registers at a glance. */
  lemma LatchRegs(r: Regs, p: Params, m: RtlMsg)
    ensures var base := if IsAdd(m) then BaseFor(r, p, m.price) else r.base;
      var enters := IsAdd(m) && Offset(m.price, base) < p.window;
      Latch(r, p, m) == r.(m := m, isReplace := m.kind == OrderReplace,
        base := if enters then base else r.base, bandValid := r.bandValid || enters,
        drops := r.drops + (if IsAdd(m) && !enters then 1 else 0),
        state := if enters then ADD_TBL
          else if IsAdd(m) || m.kind in {Trade, SystemEvent, Unknown} then FINISH else LK)
  {
    hide Offset;
  }

  lemma IdleEdge(b: Book, p: Params, input: Input)
    requires Shape(b, p) && b.r.state == IDLE
    ensures var b' := Next(b, p, input);
      && b'.tbl == T.Next(b.tbl, p.home, b.cmd) && b'.bid == Ticked(b.bid, true) && b'.ask == Ticked(b.ask, false)
      && b'.cmd == T.Nothing
      && (input.NoMessage? ==> b'.r == b.r.(done := false))
      && (input.Message? ==>
        var m := input.m;
        var base := BaseUsed(b, p, m);
        var enters := IsAdd(m) && Offset(m.price, base) < p.window;
        b'.r == b.r.(m := m, isReplace := m.kind == OrderReplace, done := false,
          base := if enters then base else b.r.base, bandValid := b.r.bandValid || enters,
          drops := b.r.drops + (if IsAdd(m) && !enters then 1 else 0),
          state := if enters then ADD_TBL
            else if IsAdd(m) || m.kind in {Trade, SystemEvent, Unknown} then FINISH else LK))
  {
    hide T.Next, K.Next, T.Shape, AddLevel, TakeLevel, Amount, AddCmd, ModCmd, ReaddCmd, Offset, Address, Latch;
    if input.Message? { LatchRegs(b.r.(done := false), p, input.m); }
  }

  lemma StepIdle(b: Book, p: Params, os: Orders, f0: nat, input: Input)
    requires Inv(b, p, os, f0) && b.r.state == IDLE && Shape(b, p)
    requires Acceptable(b, p, os, input)
    ensures Kept(Next(b, p, input), p, os, f0)
  {
    hide Next, FsmStep, Children, Shape, T.Inv, T.Next, K.Best, LevelsOk, Fits, Banded, Settling, SideQuiet, Ticked,
      InAddLvl, InModLvl, InModTbl, InEmpty, InEmptyWait, InRaddTbl, InRaddLvl;
    IdleEdge(b, p, input);
    QuietTicks(b, p);
    IdleStays(b.tbl, p.home, os, f0);
    if input.Message? && IsAdd(input.m) && p.autoBand && !b.r.bandValid {
      NoOrdersAnyBase(b, p, BaseFor(b.r, p, input.m.price));
    }
    assert Kept(Next(b, p, input), p, os, f0);
  }

  lemma AddTblEdge(b: Book, p: Params, input: Input)
    requires Shape(b, p) && b.r.state == ADD_TBL
    ensures var b' := Next(b, p, input);
      && Carried(b, b', p)
      && (!b.r.tblReq ==> b'.r.state == b.r.state && b'.r.tblReq && b'.cmd == T.Issue(AddCmd(b)))
      && (b.r.tblReq ==> b'.cmd == T.Nothing && b'.r.tblReq == !b.tbl.done)
      && b'.r == b.r.(tblReq := b'.r.tblReq, addr := b'.r.addr, done := false, state :=
          if !b.r.tblReq || !b.tbl.done then ADD_TBL else if b.tbl.found then ADD_LVL else FINISH)
      && (b'.r.state == ADD_LVL ==> b'.r.addr == Address(b.r.m.price, b.r.base, p.window))
      && b'.r.addr < p.window
  {}

  lemma StepAddTbl(b: Book, p: Params, os: Orders, f0: nat, input: Input)
    requires Inv(b, p, os, f0) && b.r.state == ADD_TBL && Shape(b, p)
    ensures Kept(Next(b, p, input), p, os, f0)
  {
    hide Waiting, Idle, Next, FsmStep, Children, T.Inv, T.Next, K.Best, LevelsOk, Fits, Banded, Settling,
      InIdle, InLk, InModLvl, InModTbl, InEmpty, InEmptyWait, InRaddTbl, InRaddLvl;
    AddTblEdge(b, p, input);
    QuietTicks(b, p);
    if !b.r.tblReq {
      WaitRaise(b.cmd, b.tbl, p.home, os, AddCmd(b), f0);
    } else if b.tbl.done {
      WaitAnswer(b.cmd, b.tbl, p.home, os, AddCmd(b), f0);
    } else {
      WaitStep(b.cmd, b.tbl, p.home, os, AddCmd(b), f0);
    }
  }

  lemma SideKnown(os: Orders, r: u64, base: u32, window: nat)
    requires Banded(os, base, window) && r in os
    ensures ValidSide(os[r].side) && Offset(os[r].price, base) < window && os[r].shares > 0
  {}

  lemma LookupEdge(b: Book, p: Params, input: Input)
    requires Shape(b, p) && b.r.state == LK
    ensures var b' := Next(b, p, input);
      && Carried(b, b', p)
      && (!b.r.tblReq ==> b'.cmd == T.Issue(T.Cmd(T.LOOKUP, false, b.r.m.orderRef, T.NO_ORDER)))
      && (!b.r.tblReq ==> b'.r.state == b.r.state && b'.r.tblReq)
      && (b.r.tblReq ==> b'.cmd == T.Nothing && b'.r.tblReq == !b.tbl.done)
      && b'.r == b.r.(tblReq := b'.r.tblReq, addr := b'.r.addr, rest := b'.r.rest, done := false, state :=
          if !b.r.tblReq || !b.tbl.done then LK else if b.tbl.found then MOD_LVL else FINISH)
      && (b'.r.state == MOD_LVL ==> b'.r.rest == b.tbl.res && b'.r.addr == Address(b.tbl.res.price, b.r.base, p.window))
      && b'.r.addr < p.window
  {}

  lemma StepLookup(b: Book, p: Params, os: Orders, f0: nat, input: Input)
    requires Inv(b, p, os, f0) && b.r.state == LK && Shape(b, p)
    ensures Kept(Next(b, p, input), p, os, f0)
  {
    hide Shape, Waiting, Idle, Next, FsmStep, Children, T.Inv, T.Next, K.Best, LevelsOk, Fits, Banded, Settling,
      InIdle, InAddTbl, InAddLvl, InModTbl, InEmpty, InEmptyWait, InRaddTbl, InRaddLvl;
    LookupEdge(b, p, input);
    QuietTicks(b, p);
    if !b.r.tblReq {
      WaitRaise(b.cmd, b.tbl, p.home, os, T.Cmd(T.LOOKUP, false, b.r.m.orderRef, T.NO_ORDER), f0);
    } else if b.tbl.done {
      if b.r.m.orderRef in os { SideKnown(os, b.r.m.orderRef, b.r.base, p.window); }
      WaitAnswer(b.cmd, b.tbl, p.home, os, T.Cmd(T.LOOKUP, false, b.r.m.orderRef, T.NO_ORDER), f0);
    } else {
      WaitStep(b.cmd, b.tbl, p.home, os, T.Cmd(T.LOOKUP, false, b.r.m.orderRef, T.NO_ORDER), f0);
    }
  }

  lemma ReaddTblEdge(b: Book, p: Params, input: Input)
    requires Shape(b, p) && b.r.state == RADD_TBL
    ensures var b' := Next(b, p, input);
      && Carried(b, b', p)
      && (!b.r.tblReq ==> b'.r.state == b.r.state && b'.r.tblReq && b'.cmd == T.Issue(ReaddCmd(b)))
      && (b.r.tblReq ==> b'.cmd == T.Nothing && b'.r.tblReq == !b.tbl.done)
      && b'.r == b.r.(tblReq := b'.r.tblReq, addr := b'.r.addr, done := false, state :=
          if !b.r.tblReq || !b.tbl.done then RADD_TBL else if b.tbl.found then RADD_LVL else FINISH)
      && (b'.r.state == RADD_LVL ==> b'.r.addr == Address(b.r.m.price, b.r.base, p.window))
      && b'.r.addr < p.window
  {}

  lemma StepReaddTbl(b: Book, p: Params, os: Orders, f0: nat, input: Input)
    requires Inv(b, p, os, f0) && b.r.state == RADD_TBL && Shape(b, p)
    ensures Kept(Next(b, p, input), p, os, f0)
  {
    hide Shape, Waiting, Idle, Next, FsmStep, Children, T.Inv, T.Next, K.Best, LevelsOk, Fits, Banded, Settling,
      InIdle, InAddTbl, InAddLvl, InLk, InModLvl, InModTbl, InEmpty, InEmptyWait;
    ReaddTblEdge(b, p, input);
    QuietTicks(b, p);
    var os1 := Taken(os, b.r.m);
    if !b.r.tblReq {
      WaitRaise(b.cmd, b.tbl, p.home, os1, ReaddCmd(b), f0);
    } else if b.tbl.done {
      WaitAnswer(b.cmd, b.tbl, p.home, os1, ReaddCmd(b), f0);
    } else {
      WaitStep(b.cmd, b.tbl, p.home, os1, ReaddCmd(b), f0);
    }
  }

  /** A new order reaches its level; its tracker has one pulse to come. */
  lemma AddSide(b: Book, p: Params, os: Orders, os': Orders, side: char, price: u32, shares: u32)
    requires Lengths(b, p) && Levels(b, p, os) && Quiet(b) && ValidSide(side)
    requires Offset(price, b.r.base) < p.window && b.r.addr == Offset(price, b.r.base) && shares > 0
    requires Shift(os, os', side, price, shares, 1) && Fits(os')
    ensures var b' := With(b, side, AddLevel(At(b, side), b.r.addr, shares));
      Lengths(b', p) && Levels(b', p, os') && Settling(b'.bid, true) && Settling(b'.ask, false)
  {
    AddLevelOk(At(b, side), os, os', side, b.r.base, p.window, price, shares);
    OtherSideOk(At(b, OtherSide(side)), os, os', OtherSide(side), b.r.base, p.window, side, price, shares, 1);
  }

  lemma StepAddLvl(b: Book, p: Params, os: Orders, f0: nat, input: Input)
    requires Inv(b, p, os, f0) && b.r.state == ADD_LVL && Shape(b, p)
    ensures Kept(Next(b, p, input), p, os, f0)
  {
    hide T.Inv, T.Next, K.Best, LevelsOk, Fits, Shift, AddLevel, Banded,
      InIdle, InAddTbl, InLk, InModLvl, InModTbl, InEmpty, InEmptyWait, InRaddTbl, InRaddLvl;
    QuietStays(b, p);
    var m, os' := b.r.m, After(os, b.r.m);
    PutShift(os, m.orderRef, Order(m.price, m.shares, m.locate, m.side));
    AddSide(Children(b, p), p, os, os', m.side, m.price, m.shares);
    IdleStays(b.tbl, p.home, os', f0);
  }

  lemma StepReaddLvl(b: Book, p: Params, os: Orders, f0: nat, input: Input)
    requires Inv(b, p, os, f0) && b.r.state == RADD_LVL && Shape(b, p)
    ensures Kept(Next(b, p, input), p, os, f0)
  {
    hide T.Inv, T.Next, K.Best, LevelsOk, Fits, Shift, AddLevel, Banded,
      InIdle, InAddTbl, InAddLvl, InLk, InModLvl, InModTbl, InEmpty, InEmptyWait, InRaddTbl;
    QuietStays(b, p);
    var m, os1, os' := b.r.m, Taken(os, b.r.m), After(os, b.r.m);
    assert ValidSide(b.r.rest.side) by { SideKnown(os, m.orderRef, b.r.base, p.window); }
    PutShift(os1, m.newOrderRef, Order(m.price, m.shares, b.r.rest.locate, b.r.rest.side));
    AddSide(Children(b, p), p, os1, os', b.r.rest.side, m.price, m.shares);
    IdleStays(b.tbl, p.home, os', f0);
  }

  /** The message's shares leave the resting order's level. */
  lemma TakeSide(b: Book, p: Params, os: Orders, m: RtlMsg, base: u32)
    requires Lengths(b, p) && Levels(b, p, os) && Quiet(b) && Banded(os, base, p.window) && Fits(os)
    requires base == b.r.base && m.orderRef in os && b.r.addr == Offset(os[m.orderRef].price, base)
    ensures var o := os[m.orderRef];
      var amt := if IsReduce(m) then Min(m.shares, o.shares) else o.shares;
      var s := TakeLevel(At(b, o.side), b.r.addr, amt, amt == o.shares);
      && Levels(With(b, o.side, s), p, Taken(os, m))
      && AfterTake(s, IsBid(o.side), s.shares[b.r.addr] == 0, b.r.addr)
  {
    var o := os[m.orderRef];
    var amt := if IsReduce(m) then Min(m.shares, o.shares) else o.shares;
    var os' := Taken(os, m);
    SideKnown(os, m.orderRef, base, p.window);
    assert os' == Less(os, m.orderRef, amt);
    LessShift(os, m.orderRef, amt);
    TakeLevelOk(At(b, o.side), os, os', o.side, base, p.window, o.price, amt, amt == o.shares);
    OtherSideOk(At(b, OtherSide(o.side)), os, os', OtherSide(o.side), base, p.window, o.side, o.price,
      -(amt as int), if amt == o.shares then -1 else 0);
    LevelAt(At(b, o.side), os, o.side, base, p.window, o.price);
    TakeTracks(At(b, o.side), IsBid(o.side), b.r.addr, amt, amt == o.shares);
  }

  lemma LevelAt(s: Side, os: Orders, side: char, base: u32, window: nat, price: u32)
    requires LevelsOk(s, os, side, base, window) && Offset(price, base) < window
    ensures s.shares[Offset(price, base)] == LevelShares(os, side, price)
  {
    assert PriceAt(Offset(price, base), base) == price;
  }

  lemma TakeTracks(s: Side, isBid: bool, addr: nat, amt: u32, gone: bool)
    requires SideQuiet(s, isBid) && addr < |s.shares| == |s.count| && amt <= s.shares[addr]
    ensures var s' := TakeLevel(s, addr, amt, gone);
      AfterTake(s', isBid, s'.shares[addr] == 0, addr)
  {}

  lemma StepModLvl(b: Book, p: Params, os: Orders, f0: nat, input: Input)
    requires Inv(b, p, os, f0) && b.r.state == MOD_LVL && Shape(b, p)
    ensures Kept(Next(b, p, input), p, os, f0)
  {
    hide T.Inv, T.Next, K.Best, LevelsOk, Fits, Shift, Banded, AfterTake,
      InIdle, InAddTbl, InAddLvl, InLk, InEmpty, InEmptyWait, InRaddTbl, InRaddLvl, InFinish;
    QuietStays(b, p);
    SideKnown(os, b.r.m.orderRef, b.r.base, p.window);
    TakeSide(Children(b, p), p, os, b.r.m, b.r.base);
    IdleStays(b.tbl, p.home, os, f0);
  }

  lemma AfterTakeStays(s: Side, isBid: bool, emptied: bool, addr: nat)
    requires AfterTake(s, isBid, emptied, addr) && K.Shape(s.tracker, s.shares)
    ensures K.Next(s.tracker, isBid, s.pulse, s.cnt != 0, s.shares) == s.tracker
  {}

  lemma QuietSideStays(s: Side, isBid: bool)
    requires SideQuiet(s, isBid) && K.Shape(s.tracker, s.shares)
    ensures K.Next(s.tracker, isBid, s.pulse, s.cnt != 0, s.shares) == s.tracker
  {}

  lemma ModTblEdge(b: Book, p: Params, input: Input)
    requires Shape(b, p) && b.r.state == MOD_TBL
    ensures var b' := Next(b, p, input);
      && Carried(b, b', p)
      && (!b.r.tblReq ==> b'.r.state == b.r.state && b'.r.tblReq && b'.cmd == T.Issue(ModCmd(b)))
      && (b.r.tblReq ==> b'.cmd == T.Nothing && b'.r.tblReq == !b.tbl.done)
      && b'.r == b.r.(
        state := if b.r.tblReq && b.tbl.done then EMPTY else MOD_TBL, tblReq := b'.r.tblReq, done := false)
      && ModCmd(b') == ModCmd(b) && Amount(b') == Amount(b)
  {}

  /** In MOD_TBL neither side moves. */
  lemma ModTblStill(b: Book, p: Params, os: Orders, f0: nat)
    requires Inv(b, p, os, f0) && b.r.state == MOD_TBL && Shape(b, p)
    ensures Ticked(b.bid, true) == b.bid && Ticked(b.ask, false) == b.ask
    ensures ValidSide(b.r.rest.side) && T.MapAfter(ModCmd(b), os, false) == Taken(os, b.r.m)
  {
    hide T.Inv, LevelsOk, Fits, Banded, Waiting;
    SideKnown(os, b.r.m.orderRef, b.r.base, p.window);
  }

  lemma ModTblWait(b: Book, p: Params, os: Orders, f0: nat, input: Input)
    requires Inv(b, p, os, f0) && b.r.state == MOD_TBL && Shape(b, p) && !(b.r.tblReq && b.tbl.done)
    ensures Kept(Next(b, p, input), p, os, f0)
  {
    hide Shape, Waiting, Idle, Next, FsmStep, Children, ModCmd, Amount, T.Inv, T.Next, T.MapAfter, K.Next, LevelsOk,
      Fits, Banded, AfterTake, SideQuiet, Taken, BandedAfter,
      InIdle, InAddTbl, InAddLvl, InLk, InModLvl, InEmpty, InEmptyWait, InRaddTbl, InRaddLvl, InFinish;
    ModTblStill(b, p, os, f0);
    ModTblEdge(b, p, input);
    if !b.r.tblReq {
      WaitRaise(b.cmd, b.tbl, p.home, os, ModCmd(b), f0);
    } else {
      WaitStep(b.cmd, b.tbl, p.home, os, ModCmd(b), f0);
    }
  }

  lemma ModTblDone(b: Book, p: Params, os: Orders, f0: nat, input: Input)
    requires Inv(b, p, os, f0) && b.r.state == MOD_TBL && Shape(b, p) && b.r.tblReq && b.tbl.done
    ensures Kept(Next(b, p, input), p, os, f0)
  {
    hide Shape, Waiting, Idle, Next, FsmStep, Children, ModCmd, Amount, T.Inv, T.Next, T.MapAfter, K.Next, LevelsOk,
      Fits, Banded, AfterTake, SideQuiet, Taken, BandedAfter,
      InIdle, InAddTbl, InAddLvl, InLk, InModLvl, InEmptyWait, InRaddTbl, InRaddLvl, InFinish;
    ModTblStill(b, p, os, f0);
    ModTblEdge(b, p, input);
    WaitAnswer(b.cmd, b.tbl, p.home, os, ModCmd(b), f0);
  }

  lemma StepModTbl(b: Book, p: Params, os: Orders, f0: nat, input: Input)
    requires Inv(b, p, os, f0) && b.r.state == MOD_TBL && Shape(b, p)
    ensures Kept(Next(b, p, input), p, os, f0)
  {
    hide Inv, Kept, Next, Shape;
    if b.r.tblReq && b.tbl.done {
      ModTblDone(b, p, os, f0, input);
    } else {
      ModTblWait(b, p, os, f0, input);
    }
  }

  predicate SameMemory(s: Side, s': Side) {
    s'.shares == s.shares && s'.count == s.count && s'.cnt == s.cnt && s'.tot == s.tot
  }

  lemma LevelsSame(b: Book, b': Book, p: Params, os: Orders)
    requires Levels(b, p, os) && SameMemory(b.bid, b'.bid) && SameMemory(b.ask, b'.ask) && b'.r.base == b.r.base
    ensures Levels(b', p, os)
  {}

  lemma EmptyEdge(b: Book, p: Params, input: Input)
    requires Shape(b, p) && b.r.state == EMPTY
    ensures var b', d := Next(b, p, input), b.r.rest.side;
      && b'.tbl == T.Next(b.tbl, p.home, b.cmd) && b'.cmd == T.Nothing
      && At(b', OtherSide(d)) == Ticked(At(b, OtherSide(d)), !IsBid(d))
      && At(b', d) == (if b.r.emptied then Ticked(At(b, d), IsBid(d)).(pulse := K.EmptiedAt(b.r.addr))
                       else Ticked(At(b, d), IsBid(d)))
      && b'.r == b.r.(state := EMPTY_WAIT, scanSeen := false, done := false, expectScan :=
          b.r.emptied && At(b, d).tracker.valid && b.r.addr == At(b, d).tracker.best && At(b, d).cnt != 0)
  {}

  lemma StepEmpty(b: Book, p: Params, os: Orders, f0: nat, input: Input)
    requires Inv(b, p, os, f0) && b.r.state == EMPTY && Shape(b, p)
    ensures Kept(Next(b, p, input), p, os, f0)
  {
    hide Shape, Next, FsmStep, Children, T.Inv, T.Next, K.Next, LevelsOk, Fits, Banded, Taken, BandedAfter,
      InIdle, InAddTbl, InAddLvl, InLk, InModLvl, InModTbl, InRaddTbl, InRaddLvl, InFinish;
    EmptyEdge(b, p, input);
    SideKnown(os, b.r.m.orderRef, b.r.base, p.window);
    var d := b.r.rest.side;
    AfterTakeStays(At(b, d), IsBid(d), b.r.emptied, b.r.addr);
    QuietSideStays(At(b, OtherSide(d)), !IsBid(d));
    IdleStays(b.tbl, p.home, Taken(os, b.r.m), f0);
    LevelsSame(b, Next(b, p, input), p, Taken(os, b.r.m));
  }

  lemma StepFinish(b: Book, p: Params, os: Orders, f0: nat, input: Input)
    requires Inv(b, p, os, f0) && b.r.state == FINISH && Shape(b, p)
    ensures Next(b, p, input).r.done && Next(b, p, input).r.state == IDLE
    ensures Kept(Next(b, p, input), p, Target(b, p, os), f0)
  {
    hide T.Inv, T.Next, LevelsOk, Fits,
      InAddTbl, InAddLvl, InLk, InModLvl, InModTbl, InEmpty, InEmptyWait, InRaddTbl, InRaddLvl;
    IdleStays(b.tbl, p.home, Target(b, p, os), f0);
    BandedAfterBanded(os, b.r.m, b.r.base, p.window);
    SettleSide(b.bid, true);
    SettleSide(b.ask, false);
    LevelsSame(b, Next(b, p, input), p, Target(b, p, os));
  }

  lemma SettleSide(s: Side, isBid: bool)
    requires Settling(s, isBid) && K.Shape(s.tracker, s.shares)
    ensures K.Best(K.Next(s.tracker, isBid, s.pulse, s.cnt != 0, s.shares), isBid, s.shares)
  {
    if s.pulse.AddAt? { K.AddStep(s.tracker, isBid, s.shares, s.pulse.addr, s.cnt != 0); }
  }

  // ---- waiting for a scan ------------------------------------------------------------------

  /** One cycle of EMPTY_WAIT on the resting side: an unneeded wait is over at once, a scan
      starts exactly when it is expected, runs while it must, and ends on the best level. */
  lemma ResolveSide(addr: nat, expectScan: bool, scanSeen: bool, s: Side, isBid: bool)
    requires Resolving(addr, expectScan, scanSeen, s, isBid) && (s.cnt != 0 <==> K.SomeLevel(s.shares))
    ensures K.Shape(s.tracker, s.shares)
    ensures if expectScan && !(scanSeen && !s.tracker.scanning)
      then Resolving(addr, expectScan, scanSeen || s.tracker.scanning, Ticked(s, isBid), isBid)
      else SideQuiet(Ticked(s, isBid), isBid)
  {
    if s.pulse.EmptiedAt? {
      K.EmptiedStep(s.tracker, isBid, s.shares, s.pulse.addr, s.cnt != 0);
    } else if s.tracker.scanning {
      K.ScanStep(s.tracker, isBid, s.pulse, s.cnt != 0, s.shares);
    }
  }

  /** Unless a replacement may still rest, the taken orders are the final ones. */
  lemma TargetIsTaken(b: Book, p: Params, os: Orders)
    requires Modifying(b, os) && (b.r.isReplace <==> b.r.m.kind == OrderReplace)
    ensures !b.r.isReplace || Offset(b.r.m.price, b.r.base) >= p.window || b.r.m.newOrderRef in Taken(os, b.r.m) ==>
      Target(b, p, os) == Taken(os, b.r.m)
  {}

  /** The edge of EMPTY_WAIT in terms of the registers it reads. */
  lemma EmptyWaitEdge(b: Book, p: Params, input: Input)
    requires Shape(b, p) && b.r.state == EMPTY_WAIT
    ensures var b' := Next(b, p, input);
      && Carried(b, b', p) && b'.cmd == T.Nothing && b'.r.tblReq == b.r.tblReq && b'.r.rest == b.r.rest
      && b'.r.addr == b.r.addr && b'.r.expectScan == b.r.expectScan
      && b'.r.scanSeen == (b.r.scanSeen || AnyScanning(b))
      && b'.r.drops == b.r.drops + (if b'.r.state == FINISH && b.r.isReplace then 1 else 0)
      && b'.r.state ==
        if b.r.expectScan && !(b.r.scanSeen && !AnyScanning(b)) then EMPTY_WAIT
        else if b.r.isReplace && Offset(b.r.m.price, b.r.base) < p.window then RADD_TBL
        else FINISH
  {}

  lemma StepEmptyWait(b: Book, p: Params, os: Orders, f0: nat, input: Input)
    requires Inv(b, p, os, f0) && b.r.state == EMPTY_WAIT && Shape(b, p)
    ensures Kept(Next(b, p, input), p, os, f0)
  {
    hide T.Inv, T.Next, K.Next, LevelsOk, Fits, Banded, Resolving, Taken, BandedAfter, Next, FsmStep, Children,
      InIdle, InAddTbl, InAddLvl, InLk, InModLvl, InModTbl, InEmpty, InRaddLvl;
    var d, os1 := b.r.rest.side, Taken(os, b.r.m);
    EmptyWaitEdge(b, p, input);
    SideKnown(os, b.r.m.orderRef, b.r.base, p.window);
    TakenBanded(os, b.r.m, b.r.base, p.window);
    CounterTells(At(b, d), os1, d, b.r.base, p.window);
    QuietSideStays(At(b, OtherSide(d)), !IsBid(d));
    ResolveSide(b.r.addr, b.r.expectScan, b.r.scanSeen, At(b, d), IsBid(d));
    TargetIsTaken(b, p, os);
    IdleStays(b.tbl, p.home, os1, f0);
    LevelsSame(b, Next(b, p, input), p, os1);
  }

  lemma TakenBanded(os: Orders, m: RtlMsg, base: u32, window: nat)
    requires Banded(os, base, window) && m.orderRef in os
    ensures Banded(Taken(os, m), base, window)
  {}
}
