/** The hardware book as a clocked object with its three sub-blocks. */
module RtlBookClass {
  import opened Itch
  import opened LiveOrders
  import opened BookSpec
  import opened RtlSpec
  import opened RtlBookEngine
  import opened RtlBookProofs
  import T = RtlOrderRefTable
  import K = RtlBestTracker

  class BookUpdateEngine {
    const p: Params
    const tbl: T.OrderRefTable
    const bidTracker: K.BestTracker
    const askTracker: K.BestTracker
    var r: Regs
    var cmd: T.Request
    var bidShares: seq<u32>
    var bidCount: seq<u32>
    var askShares: seq<u32>
    var askCount: seq<u32>
    var cntBid: nat
    var cntAsk: nat
    var totBid: nat
    var totAsk: nat
    var bidPulse: K.Pulse
    var askPulse: K.Pulse

    ghost predicate Wired() {
      && tbl.home == p.home && bidTracker.isBid && !askTracker.isBid && bidTracker != askTracker
    }

    function View(): Book
      reads this, tbl, bidTracker, askTracker
    {
      Book(r, cmd, tbl.View(),
        Side(bidShares, bidCount, cntBid, totBid, bidTracker.View(), bidPulse),
        Side(askShares, askCount, cntAsk, totAsk, askTracker.View(), askPulse))
    }

    /** Reset, and the host's band configuration when there is one before traffic. */
    constructor (p: Params, tableSize: nat, pin: Option<u32>)
      requires 0 < p.window < WRAP32 && T.MAX_PROBE <= tableSize && forall k: u64 :: p.home(k) < tableSize
      ensures Wired() && this.p == p && Inv(View(), p, map[], 0)
      ensures r.state == IDLE && r.drops == 0 && r.bandValid == pin.Some? && r.base == (if pin.Some? then pin.value else 0)
      ensures fresh(tbl) && fresh(bidTracker) && fresh(askTracker)
    {
      this.p := p;
      tbl := new T.OrderRefTable(tableSize, p.home);
      bidTracker := new K.BestTracker(true);
      askTracker := new K.BestTracker(false);
      r := Regs(IDLE, NO_MESSAGE, false, T.NO_ORDER, 0, false, 0, pin.Some?, if pin.Some? then pin.value else 0, 0,
        false, false, false, false);
      cmd := T.Nothing;
      bidShares, bidCount := seq(p.window, _ => 0), seq(p.window, _ => 0);
      askShares, askCount := seq(p.window, _ => 0), seq(p.window, _ => 0);
      cntBid, cntAsk, totBid, totAsk := 0, 0, 0, 0;
      bidPulse, askPulse := K.NoPulse, K.NoPulse;
      new;
      hide Inv, T.Inv;
      ResetOk(View(), p);
    }

    /** One posedge. Sub-block outputs are sampled first; every register then takes its new
        value from the sampled ones. */
    method Clock(input: Input)
      requires Wired() && Shape(View(), p)
      modifies this, tbl, bidTracker, askTracker
      ensures View() == Next(old(View()), p, input)
    {
      var tblDone, tblFound, tblRes := tbl.done, tbl.found, tbl.res;
      var scanning := bidTracker.scanning || askTracker.scanning;
      var bidBest, bidValid, askBest, askValid := bidTracker.best, bidTracker.valid, askTracker.best, askTracker.valid;
      ghost var b := View();
      TickBlocks();
      hide Shape, FsmStep, Children;
      assert r == b.r.(done := false) && cntBid == b.bid.cnt && cntAsk == b.ask.cnt;
      match r.state {
        case ADD_TBL | LK | MOD_TBL | RADD_TBL => TableStates(b, input, tblDone, tblFound, tblRes);
        case EMPTY => EmptyState(b, input, bidBest, bidValid, askBest, askValid);
        case EMPTY_WAIT => WaitState(b, input, scanning);
        case IDLE | ADD_LVL | MOD_LVL | RADD_LVL | FINISH => OtherStates(b, input);
      }
    }

    /** The sub-blocks see this edge's registered command and pulses, which then fall. */
    method TickBlocks()
      requires Wired() && Shape(View(), p)
      modifies this`r, this`cmd, this`bidPulse, this`askPulse, tbl, bidTracker, askTracker
      ensures View() == Children(old(View()), p) && Lengths(View(), p)
      ensures r == old(r).(done := false) && cmd == T.Nothing
    {
      hide T.Next, K.Next;
      tbl.Clock(cmd);
      bidTracker.Clock(bidPulse, cntBid != 0, bidShares);
      askTracker.Clock(askPulse, cntAsk != 0, askShares);
      r := r.(done := false);
      cmd, bidPulse, askPulse := T.Nothing, K.NoPulse, K.NoPulse;
    }

    /** The states that talk to the table. */
    method TableStates(ghost b: Book, input: Input, tblDone: bool, tblFound: bool, tblRes: Order)
      requires Lengths(b, p) && Lengths(View(), p) && r == b.r.(done := false) && cmd == T.Nothing
      requires r.state in {ADD_TBL, LK, MOD_TBL, RADD_TBL}
      requires tblDone == b.tbl.done && tblFound == b.tbl.found && tblRes == b.tbl.res
      modifies this`r, this`cmd
      ensures View() == FsmStep(b, old(View()), p, input)
    {
      hide T.OrderRefTable.View, K.BestTracker.View;
      match r.state {
        case ADD_TBL =>
          Request(T.Cmd(T.INSERT, true, r.m.orderRef, Order(r.m.price, r.m.shares, r.m.locate, r.m.side)),
            tblDone, if tblFound then ADD_LVL else FINISH,
              if tblFound then Address(r.m.price, r.base, p.window) else r.addr);
        case LK =>
          var raised := r.tblReq;
          Request(T.Cmd(T.LOOKUP, false, r.m.orderRef, T.NO_ORDER), tblDone, if tblFound then MOD_LVL else FINISH,
            if tblFound then Address(tblRes.price, r.base, p.window) else r.addr);
          if raised && tblDone && tblFound { r := r.(rest := tblRes); }
        case MOD_TBL =>
          Request(if r.newRem == 0 then T.Cmd(T.DELETE, false, r.m.orderRef, T.NO_ORDER)
            else T.Cmd(T.INSERT, false, r.m.orderRef, r.rest.(shares := r.newRem)), tblDone, EMPTY, r.addr);
        case RADD_TBL =>
          Request(T.Cmd(T.INSERT, true, r.m.newOrderRef, Order(r.m.price, r.m.shares, r.rest.locate, r.rest.side)),
            tblDone, if tblFound then RADD_LVL else FINISH,
              if tblFound then Address(r.m.price, r.base, p.window) else r.addr);
        case _ => assert false;
      }
    }

    /** An emptied level raises its pulse; a scan is expected if it was the best of a side with
        orders left. */
    method EmptyState(ghost b: Book, input: Input, bidBest: nat, bidValid: bool, askBest: nat, askValid: bool)
      requires Lengths(b, p) && Lengths(View(), p) && r == b.r.(done := false)
      requires r.state == EMPTY && cntBid == b.bid.cnt && cntAsk == b.ask.cnt
      requires bidBest == b.bid.tracker.best && bidValid == b.bid.tracker.valid
      requires askBest == b.ask.tracker.best && askValid == b.ask.tracker.valid
      modifies this`r, this`bidPulse, this`askPulse
      ensures View() == FsmStep(b, old(View()), p, input)
    {
      hide T.OrderRefTable.View, K.BestTracker.View;
      var best, valid, cnt := askBest, askValid, cntAsk;
      if r.rest.side == SIDE_BUY { best, valid, cnt := bidBest, bidValid, cntBid; }
      if r.emptied {
        if r.rest.side == SIDE_BUY { bidPulse := K.EmptiedAt(r.addr); } else { askPulse := K.EmptiedAt(r.addr); }
      }
      r := r.(expectScan := r.emptied && valid && r.addr == best && cnt != 0, scanSeen := false, state := EMPTY_WAIT);
    }

    /** Waits for an expected scan to begin and end. */
    method WaitState(ghost b: Book, input: Input, scanning: bool)
      requires Lengths(b, p) && Lengths(View(), p) && r == b.r.(done := false)
      requires r.state == EMPTY_WAIT && scanning == AnyScanning(b)
      modifies this`r
      ensures View() == FsmStep(b, old(View()), p, input)
    {
      hide T.OrderRefTable.View, K.BestTracker.View, AnyScanning, Offset;
      var over := !r.expectScan || (r.scanSeen && !scanning);
      r := r.(scanSeen := r.scanSeen || scanning);
      if over {
        if r.isReplace && Offset(r.m.price, r.base) < p.window {
          r := r.(state := RADD_TBL);
        } else {
          r := r.(drops := r.drops + (if r.isReplace then 1 else 0), state := FINISH);
        }
      }
    }

    /** Acceptance, the level updates and the end of a message. */
    method OtherStates(ghost b: Book, input: Input)
      requires Lengths(b, p) && Lengths(View(), p) && r == b.r.(done := false)
      requires r.state in {IDLE, ADD_LVL, MOD_LVL, RADD_LVL, FINISH}
      modifies this
      ensures View() == FsmStep(b, old(View()), p, input)
    {
      hide T.OrderRefTable.View, K.BestTracker.View, AddLevel, TakeLevel, Latch;
      match r.state {
        case IDLE => if input.Message? { Accept(input.m); }
        case ADD_LVL =>
          AddToLevel(r.m.side, r.m.shares);
          r := r.(state := FINISH);
        case MOD_LVL =>
          var amt := if r.m.kind == OrderDelete || r.isReplace then r.rest.shares else Min(r.m.shares, r.rest.shares);
          var newTotal := TakeFromLevel(r.rest.side, amt, amt == r.rest.shares);
          r := r.(newRem := r.rest.shares - amt, emptied := newTotal == 0, state := MOD_TBL);
        case RADD_LVL =>
          AddToLevel(r.rest.side, r.m.shares);
          r := r.(state := FINISH);
        case FINISH => r := r.(done := true, state := IDLE);
        case _ => assert false;
      }
    }

    /** Latching a message. */
    method Accept(m: RtlMsg)
      requires p.window > 0
      modifies this`r
      ensures r == Latch(old(r), p, m)
    {
      match m.kind {
        case AddOrder | AddOrderMpid => AcceptAdd(m);
        case OrderExecuted | OrderExecutedPrice | OrderCancel | OrderDelete =>
          r := r.(m := m, isReplace := false, state := LK);
        case OrderReplace => r := r.(m := m, isReplace := true, state := LK);
        case Trade | SystemEvent | Unknown => r := r.(m := m, isReplace := false, state := FINISH);
      }
    }

    /** The first Add may centre the band; an out-of-window Add is dropped whole. */
    method AcceptAdd(m: RtlMsg)
      requires p.window > 0 && IsAdd(m)
      modifies this`r
      ensures r == Latch(old(r), p, m)
    {
      hide Offset;
      var base := if r.bandValid || !p.autoBand then r.base
        else if m.price > p.window / 2 then m.price - p.window / 2 else 0;
      if Offset(m.price, base) < p.window {
        r := r.(m := m, isReplace := false, base := base, bandValid := true, state := ADD_TBL);
      } else {
        r := r.(m := m, isReplace := false, drops := r.drops + 1, state := FINISH);
      }
    }

    /** The table handshake: raise once, then move on when the table is done. */
    method Request(c: T.Cmd, tblDone: bool, next: State, addr: nat)
      modifies this`r, this`cmd
      ensures cmd == if old(r).tblReq then old(cmd) else T.Issue(c)
      ensures r == if !old(r).tblReq then old(r).(tblReq := true)
        else if tblDone then old(r).(tblReq := false, addr := addr, state := next) else old(r)
    {
      if !r.tblReq {
        cmd := T.Issue(c);
        r := r.(tblReq := true);
      } else if tblDone {
        r := r.(tblReq := false, addr := addr, state := next);
      }
    }

    method AddToLevel(side: char, shares: u32)
      requires Lengths(View(), p)
      modifies this`bidShares, this`bidCount, this`askShares, this`askCount, this`cntBid, this`cntAsk,
        this`totBid, this`totAsk, this`bidPulse, this`askPulse
      ensures var b := old(View()); View() == With(b, side, AddLevel(At(b, side), b.r.addr, shares))
    {
      hide T.OrderRefTable.View, K.BestTracker.View, AddLevel;
      if side == SIDE_BUY { AddToBid(shares); } else { AddToAsk(shares); }
    }

    method AddToBid(shares: u32)
      requires Lengths(View(), p)
      modifies this`bidShares, this`bidCount, this`cntBid, this`totBid, this`bidPulse
      ensures View() == old(View()).(bid := AddLevel(old(View()).bid, r.addr, shares))
    {
      hide T.OrderRefTable.View, K.BestTracker.View;
      var a := r.addr;
      bidShares := bidShares[a := (bidShares[a] + shares) % WRAP32];
      bidCount := bidCount[a := (bidCount[a] + 1) % WRAP32];
      cntBid, totBid, bidPulse := (cntBid + 1) % WRAP32, (totBid + shares) % WRAP64, K.AddAt(a);
    }

    method AddToAsk(shares: u32)
      requires Lengths(View(), p)
      modifies this`askShares, this`askCount, this`cntAsk, this`totAsk, this`askPulse
      ensures View() == old(View()).(ask := AddLevel(old(View()).ask, r.addr, shares))
    {
      hide T.OrderRefTable.View, K.BestTracker.View;
      var a := r.addr;
      askShares := askShares[a := (askShares[a] + shares) % WRAP32];
      askCount := askCount[a := (askCount[a] + 1) % WRAP32];
      cntAsk, totAsk, askPulse := (cntAsk + 1) % WRAP32, (totAsk + shares) % WRAP64, K.AddAt(a);
    }

    method TakeFromLevel(side: char, amt: u32, gone: bool) returns (newTotal: u32)
      requires Lengths(View(), p)
      modifies this`bidShares, this`bidCount, this`askShares, this`askCount, this`cntBid, this`cntAsk, this`totBid,
        this`totAsk
      ensures var b := old(View());
        var s := TakeLevel(At(b, side), b.r.addr, amt, gone);
        View() == With(b, side, s) && newTotal == s.shares[b.r.addr]
    {
      hide T.OrderRefTable.View, K.BestTracker.View;
      var a := r.addr;
      if side == SIDE_BUY {
        newTotal := (bidShares[a] - amt) % WRAP32;
        bidShares := bidShares[a := newTotal];
        if gone { bidCount, cntBid := bidCount[a := (bidCount[a] - 1) % WRAP32], (cntBid - 1) % WRAP32; }
        totBid := (totBid - amt) % WRAP64;
      } else {
        newTotal := (askShares[a] - amt) % WRAP32;
        askShares := askShares[a := newTotal];
        if gone { askCount, cntAsk := askCount[a := (askCount[a] - 1) % WRAP32], (cntAsk - 1) % WRAP32; }
        totAsk := (totAsk - amt) % WRAP64;
      }
    }
  }

  /** Reset: no orders, empty levels, nothing in flight. */
  lemma ResetOk(b: Book, p: Params)
    requires 0 < p.window < WRAP32 && Lengths(b, p) && b.r.state == IDLE && !b.r.tblReq
    requires b.cmd == T.Nothing && Idle(b.tbl, p.home, map[], 0)
    requires forall s :: s in {b.bid, b.ask} ==>
      s.cnt == s.tot == 0 && s.pulse == K.NoPulse && s.tracker == K.Tracker(false, false, 0, 0)
      && (forall i :: 0 <= i < p.window ==> s.shares[i] == 0) && (forall i :: 0 <= i < p.window ==> s.count[i] == 0)
    ensures Inv(b, p, map[], 0)
  {
    hide T.Inv;
    assert b.bid in {b.bid, b.ask} && b.ask in {b.bid, b.ask};
  }
}
