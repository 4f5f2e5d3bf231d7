/** The hardware book: one message FSM over two banded level memories, the reference table
    and two best-price trackers, as its registers and one clock edge. */
module RtlBookEngine {
  import opened Itch
  import opened LiveOrders
  import opened RtlSpec
  import T = RtlOrderRefTable
  import K = RtlBestTracker

  datatype State =
    | IDLE | ADD_TBL | ADD_LVL | LK | MOD_LVL | MOD_TBL | EMPTY | EMPTY_WAIT | RADD_TBL | RADD_LVL | FINISH

  /** Decoder output: nothing, or a message held until the engine latches it. */
  datatype Input = NoMessage | Message(m: RtlMsg)

  /** One side: level memories, counters, the tracker and its pending pulse. */
  datatype Side = Side(shares: seq<u32>, count: seq<u32>, cnt: nat, tot: nat, tracker: K.Tracker, pulse: K.Pulse)

  /** Engine registers. `m` is the latched message, `rest` the resting order from the lookup. */
  datatype Regs = Regs(
    state: State, m: RtlMsg, isReplace: bool, rest: Order, newRem: u32, emptied: bool, addr: nat,
    bandValid: bool, base: u32, drops: nat, tblReq: bool, expectScan: bool, scanSeen: bool, done: bool)

  datatype Book = Book(r: Regs, cmd: T.Request, tbl: T.Table, bid: Side, ask: Side)

  /** Build parameters: level window, and whether the first Add centres the band. */
  datatype Params = Params(home: u64 -> nat, window: nat, autoBand: bool)

  function At(b: Book, side: char): Side {
    if side == SIDE_BUY then b.bid else b.ask
  }

  function With(b: Book, side: char, s: Side): Book {
    if side == SIDE_BUY then b.(bid := s) else b.(ask := s)
  }

  function BaseFor(r: Regs, p: Params, price: u32): u32 {
    if r.bandValid || !p.autoBand then r.base
    else if price > p.window / 2 then price - p.window / 2 else 0
  }

  predicate Lengths(b: Book, p: Params) {
    && 0 < p.window < WRAP32 && b.r.addr < p.window
    && |b.bid.shares| == |b.bid.count| == |b.ask.shares| == |b.ask.count| == p.window
  }

  ghost predicate Shape(b: Book, p: Params) {
    && Lengths(b, p) && T.Shape(b.tbl, p.home)
    && K.Shape(b.bid.tracker, b.bid.shares) && K.Shape(b.ask.tracker, b.ask.shares)
  }

  predicate AnyScanning(b: Book) {
    b.bid.tracker.scanning || b.ask.tracker.scanning
  }

  /** A new order enters its level: shares and counts are 32 bits wide, the volume 64. */
  function AddLevel(s: Side, addr: nat, shares: u32): Side
    requires addr < |s.shares| == |s.count|
  {
    s.(shares := s.shares[addr := (s.shares[addr] + shares) % WRAP32],
       count := s.count[addr := (s.count[addr] + 1) % WRAP32],
       cnt := (s.cnt + 1) % WRAP32, tot := (s.tot + shares) % WRAP64, pulse := K.AddAt(addr))
  }

  /** `amt` shares leave a level; a completed order leaves the counts too. */
  function TakeLevel(s: Side, addr: nat, amt: u32, gone: bool): Side
    requires addr < |s.shares| == |s.count|
  {
    s.(shares := s.shares[addr := (s.shares[addr] - amt) % WRAP32],
       count := if gone then s.count[addr := (s.count[addr] - 1) % WRAP32] else s.count,
       cnt := if gone then (s.cnt - 1) % WRAP32 else s.cnt, tot := (s.tot - amt) % WRAP64)
  }

  // ---- one clock edge ----------------------------------------------------------------

  /** The trackers and the table step on the registered pulses and command; the pulses and
      the command fall unless the FSM raises them again. */
  function Children(b: Book, p: Params): Book
    requires Shape(b, p)
  {
    Book(b.r.(done := false), T.Nothing, T.Next(b.tbl, p.home, b.cmd),
      b.bid.(tracker := K.Next(b.bid.tracker, true, b.bid.pulse, b.bid.cnt != 0, b.bid.shares), pulse := K.NoPulse),
      b.ask.(tracker := K.Next(b.ask.tracker, false, b.ask.pulse, b.ask.cnt != 0, b.ask.shares), pulse := K.NoPulse))
  }

  /** Latching a message; an Add may centre the band, out of the window it is dropped whole. */
  function Latch(was: Regs, p: Params, m: RtlMsg): Regs {
    var r := was.(m := m, isReplace := false);
    var base := BaseFor(was, p, m.price);
    match m.kind
    case AddOrder | AddOrderMpid =>
      if Offset(m.price, base) < p.window then r.(base := base, bandValid := true, state := ADD_TBL)
      else r.(drops := r.drops + 1, state := FINISH)
    case OrderExecuted | OrderExecutedPrice | OrderCancel | OrderDelete => r.(state := LK)
    case OrderReplace => r.(isReplace := true, state := LK)
    case Trade | SystemEvent | Unknown => r.(state := FINISH)
  }

  /** A table request: raise the command once, then wait for `done`. */
  function Ask(c: Book, cmd: T.Cmd): Book {
    c.(cmd := T.Issue(cmd), r := c.r.(tblReq := true))
  }

  function AddCmd(b: Book): T.Cmd {
    T.Cmd(T.INSERT, true, b.r.m.orderRef, Order(b.r.m.price, b.r.m.shares, b.r.m.locate, b.r.m.side))
  }

  function ReaddCmd(b: Book): T.Cmd {
    T.Cmd(T.INSERT, true, b.r.m.newOrderRef, Order(b.r.m.price, b.r.m.shares, b.r.rest.locate, b.r.rest.side))
  }

  function ModCmd(b: Book): T.Cmd {
    if b.r.newRem == 0 then T.Cmd(T.DELETE, false, b.r.m.orderRef, T.NO_ORDER)
    else T.Cmd(T.INSERT, false, b.r.m.orderRef, b.r.rest.(shares := b.r.newRem))
  }

  /** Shares this message takes from its resting order. */
  function Amount(b: Book): u32 {
    if b.r.m.kind == OrderDelete || b.r.isReplace then b.r.rest.shares else Min(b.r.m.shares, b.r.rest.shares)
  }

  function FsmStep(b: Book, c: Book, p: Params, input: Input): Book
    requires Lengths(b, p) && Lengths(c, p)
  {
    var r := c.r;
    match b.r.state
    case IDLE => if input.Message? then c.(r := Latch(r, p, input.m)) else c
    case ADD_TBL =>
      if !b.r.tblReq then Ask(c, AddCmd(b))
      else if !b.tbl.done then c
      else if b.tbl.found
      then c.(r := r.(tblReq := false, addr := Address(b.r.m.price, b.r.base, p.window), state := ADD_LVL))
      else c.(r := r.(tblReq := false, state := FINISH))
    case ADD_LVL =>
      With(c, b.r.m.side, AddLevel(At(c, b.r.m.side), b.r.addr, b.r.m.shares)).(r := r.(state := FINISH))
    case LK =>
      if !b.r.tblReq then Ask(c, T.Cmd(T.LOOKUP, false, b.r.m.orderRef, T.NO_ORDER))
      else if !b.tbl.done then c
      else if !b.tbl.found then c.(r := r.(tblReq := false, state := FINISH))
      else c.(r := r.(tblReq := false, rest := b.tbl.res,
        addr := Address(b.tbl.res.price, b.r.base, p.window), state := MOD_LVL))
    case MOD_LVL =>
      var amt := Amount(b);
      var s := TakeLevel(At(c, b.r.rest.side), b.r.addr, amt, amt == b.r.rest.shares);
      With(c, b.r.rest.side, s).(r := r.(
        newRem := b.r.rest.shares - amt, emptied := s.shares[b.r.addr] == 0, state := MOD_TBL))
    case MOD_TBL =>
      if !b.r.tblReq then Ask(c, ModCmd(b))
      else if !b.tbl.done then c
      else c.(r := r.(tblReq := false, state := EMPTY))
    case EMPTY =>
      var s := At(b, b.r.rest.side);
      var scan := b.r.emptied && s.tracker.valid && b.r.addr == s.tracker.best && s.cnt != 0;
      var c' := c.(r := r.(expectScan := scan, scanSeen := false, state := EMPTY_WAIT));
      if b.r.emptied then With(c', b.r.rest.side, At(c', b.r.rest.side).(pulse := K.EmptiedAt(b.r.addr))) else c'
    case EMPTY_WAIT =>
      var seen := r.scanSeen || AnyScanning(b);
      if b.r.expectScan && !(b.r.scanSeen && !AnyScanning(b)) then c.(r := r.(scanSeen := seen))
      else if b.r.isReplace && Offset(b.r.m.price, b.r.base) < p.window
      then c.(r := r.(scanSeen := seen, state := RADD_TBL))
      else c.(r := r.(scanSeen := seen, drops := r.drops + (if b.r.isReplace then 1 else 0), state := FINISH))
    case RADD_TBL =>
      if !b.r.tblReq then Ask(c, ReaddCmd(b))
      else if !b.tbl.done then c
      else if b.tbl.found
      then c.(r := r.(tblReq := false, addr := Address(b.r.m.price, b.r.base, p.window), state := RADD_LVL))
      else c.(r := r.(tblReq := false, state := FINISH))
    case RADD_LVL =>
      With(c, b.r.rest.side, AddLevel(At(c, b.r.rest.side), b.r.addr, b.r.m.shares)).(r := r.(state := FINISH))
    case FINISH => c.(r := r.(done := true, state := IDLE))
  }

  ghost function Next(b: Book, p: Params, input: Input): Book
    requires Shape(b, p)
  {
    FsmStep(b, Children(b, p), p, input)
  }
}
