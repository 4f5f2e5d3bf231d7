/** Refinement of the hardware book: what holds in every state of the FSM, cycle by cycle. */
module RtlBookProofs {
  import opened Itch
  import opened LiveOrders
  import opened BookSpec
  import opened RtlSpec
  import opened RtlBookEngine
  import T = RtlOrderRefTable
  import K = RtlBestTracker

  // ---- levels ---------------------------------------------------------------------------

  ghost predicate LevelsOk(s: Side, os: Orders, side: char, base: u32, window: nat) {
    && window < WRAP32 && |s.shares| == |s.count| == window
    && (forall a :: 0 <= a < window ==> s.shares[a] == LevelShares(os, side, PriceAt(a, base)))
    && (forall a :: 0 <= a < window ==> s.count[a] == LevelCount(os, side, PriceAt(a, base)))
    && s.cnt == SideCount(os, side) && s.tot == SideVolume(os, side)
  }

  lemma AddLevelOk(s: Side, os: Orders, os': Orders, side: char, base: u32, window: nat, price: u32, shares: u32)
    requires LevelsOk(s, os, side, base, window) && Offset(price, base) < window
    requires Shift(os, os', side, price, shares, 1) && Fits(os')
    ensures LevelsOk(AddLevel(s, Offset(price, base), shares), os', side, base, window)
    ensures AddLevel(s, Offset(price, base), shares).shares[Offset(price, base)] ==
      s.shares[Offset(price, base)] + shares
  {
    var a := Offset(price, base);
    assert LevelShares(os', side, price) < WRAP32 && LevelCount(os', side, price) < WRAP32;
    assert SideVolume(os', side) < WRAP64 && SideCount(os', side) < WRAP32;
    assert PriceAt(a, base) == price;
    var s' := AddLevel(s, a, shares);
    forall k | 0 <= k < window
      ensures s'.shares[k] == LevelShares(os', side, PriceAt(k, base))
      ensures s'.count[k] == LevelCount(os', side, PriceAt(k, base))
    {
      assert k != a ==> PriceAt(k, base) != price;
    }
  }

  lemma TakeLevelOk(s: Side, os: Orders, os': Orders, side: char, base: u32, window: nat, price: u32, amt: u32,
    gone: bool)
    requires LevelsOk(s, os, side, base, window) && Offset(price, base) < window
    requires Shift(os, os', side, price, -(amt as int), if gone then -1 else 0) && Fits(os)
    ensures LevelsOk(TakeLevel(s, Offset(price, base), amt, gone), os', side, base, window)
  {
    var a := Offset(price, base);
    assert LevelShares(os', side, price) >= 0 && LevelCount(os', side, price) >= 0;
    assert SideVolume(os', side) >= 0 && SideCount(os', side) >= 0;
    assert SideVolume(os, side) < WRAP64 && SideCount(os, side) < WRAP32 && LevelCount(os, side, price) < WRAP32;
    assert PriceAt(a, base) == price;
    var s' := TakeLevel(s, a, amt, gone);
    forall k | 0 <= k < window
      ensures s'.shares[k] == LevelShares(os', side, PriceAt(k, base))
      ensures s'.count[k] == LevelCount(os', side, PriceAt(k, base))
    {
      assert k != a ==> PriceAt(k, base) != price;
    }
  }

  lemma OtherSideOk(s: Side, os: Orders, os': Orders, side: char, base: u32, window: nat, d: char, price: nat,
    x: int, y: int)
    requires LevelsOk(s, os, side, base, window) && Shift(os, os', d, price, x, y) && d != side
    ensures LevelsOk(s, os', side, base, window)
  {}

  lemma EmptyLevelsAnyBase(s: Side, side: char, base: u32, base': u32, window: nat)
    requires LevelsOk(s, map[], side, base, window)
    ensures LevelsOk(s, map[], side, base', window)
  {}

  /** The side counter tells whether any level of the side has shares. */
  lemma CounterTells(s: Side, os: Orders, side: char, base: u32, window: nat)
    requires LevelsOk(s, os, side, base, window) && Banded(os, base, window)
    ensures s.cnt != 0 <==> K.SomeLevel(s.shares)
  {
    SideEmpty(os, base, window, side);
    if s.cnt != 0 {
      var r :| r in os && os[r].side == side && LevelShares(os, side, os[r].price) > 0;
      assert PriceAt(Offset(os[r].price, base), base) == os[r].price;
      assert s.shares[Offset(os[r].price, base)] != 0;
    }
  }

  // ---- waiting for the table ---------------------------------------------------------------

  ghost predicate Idle(t: T.Table, home: u64 -> nat, os: Orders, f0: nat) {
    t.state == T.IDLE && !t.done && t.fails == f0 && T.Inv(t, home, os)
  }

  /** The command has taken effect on the map, with the answer in the result registers. */
  ghost predicate Answered(t: T.Table, home: u64 -> nat, os: Orders, c: T.Cmd, f0: nat) {
    && t.fails == f0 && T.Inv(t, home, T.MapAfter(c, os, false))
    && if c.op == T.INSERT then t.found == !(c.oref in os && c.unique)
       else (t.found <==> c.oref in os) && (t.found ==> t.res == os[c.oref])
  }

  /** A request handshake: not yet raised, raised, working, or answered. */
  ghost predicate Waiting(raised: bool, cmd: T.Request, t: T.Table, home: u64 -> nat, os: Orders, c: T.Cmd, f0: nat) {
    if !raised then cmd == T.Nothing && Idle(t, home, os, f0)
    else
      || (cmd == T.Issue(c) && Idle(t, home, os, f0))
      || (cmd == T.Nothing && t.cmd == c && t.state in {T.HASH, T.HOME, T.PROBE} && !t.done && t.fails == f0
          && T.Inv(t, home, os))
      || (cmd == T.Nothing && (if t.state == T.IDLE then t.done else t.state == T.DONE && !t.done)
          && Answered(t, home, os, c, f0))
  }

  lemma IdleStays(t: T.Table, home: u64 -> nat, os: Orders, f0: nat)
    requires t.state == T.IDLE && t.fails == f0 && T.Inv(t, home, os)
    ensures Idle(T.Next(t, home, T.Nothing), home, os, f0)
  {
    T.EdgeStep(t, home, os, T.Nothing);
  }

  /** One cycle of waiting: closer to the answer, or an insertion failed. */
  lemma WaitStep(cmd: T.Request, t: T.Table, home: u64 -> nat, os: Orders, c: T.Cmd, f0: nat)
    requires Waiting(true, cmd, t, home, os, c, f0) && !t.done
    ensures var t' := T.Next(t, home, cmd);
      t'.fails > f0 || Waiting(true, T.Nothing, t', home, os, c, f0)
  {
    hide T.Inv, T.Next, T.Full;
    if t.state == T.DONE {
      T.EdgeStep(t, home, T.MapAfter(c, os, false), cmd);
    } else {
      T.EdgeStep(t, home, os, cmd);
    }
  }

  /** Raising the command. */
  lemma WaitRaise(cmd: T.Request, t: T.Table, home: u64 -> nat, os: Orders, c: T.Cmd, f0: nat)
    requires Waiting(false, cmd, t, home, os, c, f0)
    ensures Waiting(true, T.Issue(c), T.Next(t, home, cmd), home, os, c, f0)
  {
    IdleStays(t, home, os, f0);
  }

  /** Taking the answer leaves the table idle with the new map. */
  lemma WaitAnswer(cmd: T.Request, t: T.Table, home: u64 -> nat, os: Orders, c: T.Cmd, f0: nat)
    requires Waiting(true, cmd, t, home, os, c, f0) && t.done
    ensures Idle(T.Next(t, home, cmd), home, T.MapAfter(c, os, false), f0)
    ensures if c.op == T.INSERT then t.found == !(c.oref in os && c.unique)
      else (t.found <==> c.oref in os) && (t.found ==> t.res == os[c.oref])
  {
    IdleStays(t, home, T.MapAfter(c, os, false), f0);
  }

  // ---- the invariant ---------------------------------------------------------------------------

  ghost predicate SideQuiet(s: Side, isBid: bool) {
    s.pulse == K.NoPulse && K.Best(s.tracker, isBid, s.shares)
  }

  ghost predicate Quiet(b: Book) {
    SideQuiet(b.bid, true) && SideQuiet(b.ask, false)
  }

  /** Right, or with one pulse to come that makes it right. */
  ghost predicate Settling(s: Side, isBid: bool) {
    match s.pulse
    case NoPulse => K.Best(s.tracker, isBid, s.shares)
    case AddAt(a) => K.BestBut(s.tracker, isBid, s.shares, a)
    case EmptiedAt(a) => false
  }

  ghost predicate Levels(b: Book, p: Params, os: Orders) {
    LevelsOk(b.bid, os, SIDE_BUY, b.r.base, p.window) && LevelsOk(b.ask, os, SIDE_SELL, b.r.base, p.window)
  }

  /** The orders once the resting order lost what the message takes. */
  function Taken(os: Orders, m: RtlMsg): Orders
    requires m.orderRef in os
  {
    if IsReduce(m) then Less(os, m.orderRef, Min(m.shares, os[m.orderRef].shares)) else os - {m.orderRef}
  }

  function Target(b: Book, p: Params, os: Orders): Orders {
    BandedAfter(os, b.r.m, b.r.base, p.window)
  }

  predicate Positive(m: RtlMsg) {
    IsAdd(m) || m.kind == OrderReplace ==> m.shares > 0
  }

  /** The resting side: right, or stale at the level that was just emptied. */
  ghost predicate AfterTake(s: Side, isBid: bool, emptied: bool, addr: nat) {
    && s.pulse == K.NoPulse && addr < |s.shares| && (emptied <==> s.shares[addr] == 0)
    && if emptied then K.Stale(s.tracker, isBid, s.shares, addr) else K.Best(s.tracker, isBid, s.shares)
  }

  /** In EMPTY_WAIT: the pulse is out, or a scan runs, or all is settled. */
  ghost predicate Resolving(addr: nat, expectScan: bool, scanSeen: bool, s: Side, isBid: bool) {
    match s.pulse
    case EmptiedAt(a) =>
      && a == addr && K.Stale(s.tracker, isBid, s.shares, a) && !scanSeen
      && (expectScan <==> s.tracker.valid && a == s.tracker.best && s.cnt != 0)
    case AddAt(a) => false
    case NoPulse =>
      if s.tracker.scanning then expectScan && K.Scanning(s.tracker, isBid, s.shares)
      else K.Best(s.tracker, isBid, s.shares) && (expectScan ==> scanSeen)
  }

  function IsBid(side: char): bool {
    side == SIDE_BUY
  }

  function OtherSide(side: char): char {
    if side == SIDE_BUY then SIDE_SELL else SIDE_BUY
  }

  ghost predicate Modifying(b: Book, os: Orders) {
    && !IsAdd(b.r.m) && b.r.m.kind !in {Trade, SystemEvent, Unknown}
    && b.r.m.orderRef in os && b.r.rest == os[b.r.m.orderRef]
  }

  ghost predicate InIdle(b: Book, p: Params, os: Orders, f0: nat) {
    var r, m := b.r, b.r.m;
    b.cmd == T.Nothing && !r.tblReq && Idle(b.tbl, p.home, os, f0) && Levels(b, p, os) && Quiet(b)
  }

  ghost predicate InAddTbl(b: Book, p: Params, os: Orders, f0: nat) {
    var r, m := b.r, b.r.m;
    && IsAdd(m) && r.bandValid && Offset(m.price, r.base) < p.window
    && Waiting(r.tblReq, b.cmd, b.tbl, p.home, os, AddCmd(b), f0) && Levels(b, p, os) && Quiet(b)
  }

  ghost predicate InAddLvl(b: Book, p: Params, os: Orders, f0: nat) {
    var r, m := b.r, b.r.m;
    && IsAdd(m) && r.bandValid && Offset(m.price, r.base) < p.window && m.orderRef !in os &&
        r.addr == Offset(m.price, r.base)
    && b.cmd == T.Nothing && !r.tblReq && Idle(b.tbl, p.home, After(os, m), f0) && Levels(b, p, os) && Quiet(b)
  }

  ghost predicate InLk(b: Book, p: Params, os: Orders, f0: nat) {
    var r, m := b.r, b.r.m;
    && !IsAdd(m) && m.kind !in {Trade, SystemEvent, Unknown}
    && Waiting(r.tblReq, b.cmd, b.tbl, p.home, os, T.Cmd(T.LOOKUP, false, m.orderRef, T.NO_ORDER), f0)
    && Levels(b, p, os) && Quiet(b)
  }

  ghost predicate InModLvl(b: Book, p: Params, os: Orders, f0: nat) {
    var r, m := b.r, b.r.m;
    && Modifying(b, os) && r.addr == Offset(r.rest.price, r.base)
    && b.cmd == T.Nothing && !r.tblReq && Idle(b.tbl, p.home, os, f0) && Levels(b, p, os) && Quiet(b)
  }

  ghost predicate InModTbl(b: Book, p: Params, os: Orders, f0: nat) {
    var r, m := b.r, b.r.m;
    && Modifying(b, os) && r.newRem == r.rest.shares - Amount(b)
    && Waiting(r.tblReq, b.cmd, b.tbl, p.home, os, ModCmd(b), f0) && Levels(b, p, Taken(os, m))
    && AfterTake(At(b, r.rest.side), IsBid(r.rest.side), r.emptied, r.addr)
    && SideQuiet(At(b, OtherSide(r.rest.side)), !IsBid(r.rest.side))
  }

  ghost predicate InEmpty(b: Book, p: Params, os: Orders, f0: nat) {
    var r, m := b.r, b.r.m;
    && Modifying(b, os)
    && b.cmd == T.Nothing && !r.tblReq && Idle(b.tbl, p.home, Taken(os, m), f0) && Levels(b, p, Taken(os, m))
    && AfterTake(At(b, r.rest.side), IsBid(r.rest.side), r.emptied, r.addr)
    && SideQuiet(At(b, OtherSide(r.rest.side)), !IsBid(r.rest.side))
  }

  ghost predicate InEmptyWait(b: Book, p: Params, os: Orders, f0: nat) {
    var r, m := b.r, b.r.m;
    && Modifying(b, os)
    && b.cmd == T.Nothing && !r.tblReq && Idle(b.tbl, p.home, Taken(os, m), f0) && Levels(b, p, Taken(os, m))
    && Resolving(r.addr, r.expectScan, r.scanSeen, At(b, r.rest.side), IsBid(r.rest.side))
    && SideQuiet(At(b, OtherSide(r.rest.side)), !IsBid(r.rest.side))
  }

  ghost predicate InRaddTbl(b: Book, p: Params, os: Orders, f0: nat) {
    var r, m := b.r, b.r.m;
    && Modifying(b, os) && r.isReplace && Offset(m.price, r.base) < p.window
    && Waiting(r.tblReq, b.cmd, b.tbl, p.home, Taken(os, m), ReaddCmd(b), f0)
    && Levels(b, p, Taken(os, m)) && Quiet(b)
  }

  ghost predicate InRaddLvl(b: Book, p: Params, os: Orders, f0: nat) {
    var r, m := b.r, b.r.m;
    && Modifying(b, os) && r.isReplace && Offset(m.price, r.base) < p.window && r.addr == Offset(m.price, r.base)
    && m.newOrderRef !in Taken(os, m)
    && b.cmd == T.Nothing && !r.tblReq && Idle(b.tbl, p.home, After(os, m), f0)
    && Levels(b, p, Taken(os, m)) && Quiet(b)
  }

  ghost predicate InFinish(b: Book, p: Params, os: Orders, f0: nat) {
    var r, m := b.r, b.r.m;
    && b.cmd == T.Nothing && !r.tblReq && Idle(b.tbl, p.home, Target(b, p, os), f0) && Levels(b, p, Target(b, p, os))
    && Settling(b.bid, true) && Settling(b.ask, false)
    && (p.autoBand && !r.bandValid ==> Target(b, p, os) == map[])
  }

  ghost predicate AtState(b: Book, p: Params, os: Orders, f0: nat) {
    match b.r.state
    case IDLE => InIdle(b, p, os, f0)
    case ADD_TBL => InAddTbl(b, p, os, f0)
    case ADD_LVL => InAddLvl(b, p, os, f0)
    case LK => InLk(b, p, os, f0)
    case MOD_LVL => InModLvl(b, p, os, f0)
    case MOD_TBL => InModTbl(b, p, os, f0)
    case EMPTY => InEmpty(b, p, os, f0)
    case EMPTY_WAIT => InEmptyWait(b, p, os, f0)
    case RADD_TBL => InRaddTbl(b, p, os, f0)
    case RADD_LVL => InRaddLvl(b, p, os, f0)
    case FINISH => InFinish(b, p, os, f0)
  }

  /** os: the live orders before the message in progress; f0: failed inserts so far. */
  ghost predicate Inv(b: Book, p: Params, os: Orders, f0: nat) {
    && Lengths(b, p) && Banded(os, b.r.base, p.window) && Fits(os)
    && (p.autoBand && !b.r.bandValid ==> os == map[])
    && (b.r.state != IDLE ==>
        (b.r.isReplace <==> b.r.m.kind == OrderReplace) && Positive(b.r.m) && Fits(Target(b, p, os)))
    && AtState(b, p, os, f0)
  }

  lemma InvShape(b: Book, p: Params, os: Orders, f0: nat)
    requires Inv(b, p, os, f0)
    ensures Shape(b, p)
  {
    hide Fits, Banded, LevelsOk, Taken, BandedAfter, After, AddCmd, ModCmd, ReaddCmd, T.MapAfter;
  }
}
