/** From bytes to book: framer, decoder and book engine on one clock. */
module RtlPipeline {
  import opened Itch
  import opened LiveOrders
  import opened BookSpec
  import opened RtlSpec
  import opened Wire
  import F = RtlFramer
  import B = RtlBookEngine
  import P = RtlBookProofs
  import S = RtlBookSteps
  import H = RtlBookTheorems
  import C = RtlBookClass
  import D = RtlDrops

  datatype Chip = Chip(front: F.Front, book: B.Book)

  /** The decoder's held message is the engine's input; the engine takes it when idle. */
  function Offered(x: Chip): B.Input {
    if x.front.d.valid then B.Message(x.front.d.dec) else B.NoMessage
  }

  predicate Takes(x: Chip) {
    x.book.r.state == B.IDLE && x.front.d.valid
  }

  ghost predicate Shape(x: Chip, p: B.Params) {
    |x.front.d.body| == MSG_MAX_BYTES && B.Shape(x.book, p)
  }

  ghost function Next(x: Chip, p: B.Params, beat: Bytes): Chip
    requires Shape(x, p)
  {
    Chip(F.Next(x.front, beat, Takes(x)), B.Next(x.book, p, Offered(x)))
  }

  // ---- what the book should hold -------------------------------------------------------------

  /** The live orders after a list of messages, banded. */
  function Replay(msgs: seq<RtlMsg>, base: u32, window: nat): Orders {
    if msgs == [] then map[]
    else BandedAfter(Replay(msgs[..|msgs| - 1], base, window), msgs[|msgs| - 1], base, window)
  }

  /** How many of the messages the band turns away. */
  function DropCount(msgs: seq<RtlMsg>, base: u32, window: nat): nat {
    if msgs == [] then 0
    else
      var n := |msgs| - 1;
      DropCount(msgs[..n], base, window) + if Drops(Replay(msgs[..n], base, window), msgs[n], base, window) then 1 else 0
  }

  predicate HasAdd(msgs: seq<RtlMsg>) {
    exists i :: 0 <= i < |msgs| && IsAdd(msgs[i])
  }

  /** Whether the window waits for the first Add: it does when the build centres itself and the
      host did not pin a base before traffic. */
  predicate Centres(p: B.Params, pin: Option<u32>) {
    p.autoBand && pin.None?
  }

  /** Where the window lies: at the pinned base, centred on the first Add, or at 0. */
  function BandBase(msgs: seq<RtlMsg>, p: B.Params, pin: Option<u32>): u32 {
    if pin.Some? then pin.value
    else if !p.autoBand || msgs == [] then 0
    else if IsAdd(msgs[0]) then if msgs[0].price > p.window / 2 then msgs[0].price - p.window / 2 else 0
    else BandBase(msgs[1..], p, pin)
  }

  /** A window that centres itself holds the first Add, half a window above its base unless the
      base is 0; a pinned one lies where it was pinned. */
  lemma {:induction false} BandLies(msgs: seq<RtlMsg>, p: B.Params, pin: Option<u32>, i: nat)
    requires 0 < p.window < WRAP32 && i < |msgs| && IsAdd(msgs[i]) && forall k :: 0 <= k < i ==> !IsAdd(msgs[k])
    ensures var base, price := BandBase(msgs, p, pin), msgs[i].price;
      && (pin.Some? ==> base == pin.value) && (pin.None? && !p.autoBand ==> base == 0)
      && (Centres(p, pin) ==> Offset(price, base) < p.window && (base == 0 || price - base == p.window / 2))
      && (Centres(p, pin) && base == 0 ==> price <= p.window / 2)
    decreases |msgs|
  {
    if Centres(p, pin) && i > 0 {
      forall k | 0 <= k < i - 1 ensures !IsAdd(msgs[1..][k]) { assert msgs[1..][k] == msgs[k + 1]; }
      BandLies(msgs[1..], p, pin, i - 1);
    }
  }

  lemma {:induction false} BandSettled(a: seq<RtlMsg>, b: seq<RtlMsg>, p: B.Params, pin: Option<u32>)
    requires a <= b && (Centres(p, pin) ==> HasAdd(a))
    ensures BandBase(a, p, pin) == BandBase(b, p, pin)
    decreases |a|
  {
    if Centres(p, pin) && !IsAdd(a[0]) {
      var i :| 0 <= i < |a| && IsAdd(a[i]);
      assert IsAdd(a[1..][i - 1]);
      BandSettled(a[1..], b[1..], p, pin);
    }
  }

  lemma {:induction false} BandFirst(a: seq<RtlMsg>, m: RtlMsg, p: B.Params, pin: Option<u32>)
    requires Centres(p, pin) && !HasAdd(a) && IsAdd(m)
    ensures BandBase(a + [m], p, pin) == if m.price > p.window / 2 then m.price - p.window / 2 else 0
    decreases |a|
  {
    if a != [] {
      assert !HasAdd(a[1..]);
      BandFirst(a[1..], m, p, pin);
      assert (a + [m])[1..] == a[1..] + [m];
    }
  }

  lemma {:induction false} NothingRests(msgs: seq<RtlMsg>, base: u32, window: nat)
    requires !HasAdd(msgs)
    ensures Replay(msgs, base, window) == map[] && DropCount(msgs, base, window) == 0
    decreases |msgs|
  {
    if msgs != [] {
      var n := |msgs| - 1;
      assert !IsAdd(msgs[n]);
      assert !HasAdd(msgs[..n]);
      NothingRests(msgs[..n], base, window);
    }
  }

  lemma ReplaySnoc(msgs: seq<RtlMsg>, m: RtlMsg, base: u32, window: nat)
    ensures Replay(msgs + [m], base, window) == BandedAfter(Replay(msgs, base, window), m, base, window)
    ensures DropCount(msgs + [m], base, window) ==
      DropCount(msgs, base, window) + if Drops(Replay(msgs, base, window), m, base, window) then 1 else 0
  {
    assert (msgs + [m])[..|msgs + [m]| - 1] == msgs;
  }

  /** A stream the registers can hold: arrivals carry shares, and after every prefix the level,
      volume and count registers are wide enough. */
  ghost predicate StreamOk(msgs: seq<RtlMsg>, base: u32, window: nat) {
    && (forall m :: m in msgs ==> P.Positive(m))
    && (forall k :: 0 <= k <= |msgs| ==> Fits(Replay(msgs[..k], base, window)))
  }

  /** Longer prefixes of a stream only add frames. */
  lemma {:induction false} FramesGrow(s: Bytes, t: Bytes)
    requires s <= t
    ensures Frames(s) <= Frames(t)
    decreases |s|
  {
    if |s| >= 2 && |s| >= 2 + Be16(s, 0) {
      var n := 2 + Be16(s, 0);
      assert s[2..n] == t[2..n];
      FramesGrow(s[n..], t[n..]);
    }
  }

  lemma MessagesGrow(s: Bytes, t: Bytes)
    requires s <= t
    ensures Messages(Frames(s)) <= Messages(Frames(t))
  {
    FramesGrow(s, t);
    var rest := Frames(t)[|Frames(s)|..];
    assert Frames(t) == Frames(s) + rest;
    MessagesJoin(Frames(s), rest);
  }

  // ---- the invariant -------------------------------------------------------------------------

  function Busy(b: B.Book): seq<RtlMsg> {
    if b.r.state == B.IDLE then [] else [b.r.m]
  }

  ghost predicate BandOk(b: B.Book, p: B.Params, taken: seq<RtlMsg>, pin: Option<u32>) {
    && (pin.Some? ==> b.r.bandValid)
    && if p.autoBand && !b.r.bandValid then !HasAdd(taken)
       else (Centres(p, pin) ==> HasAdd(taken)) && b.r.base == BandBase(taken, p, pin)
  }

  /** The book's live orders are those of the completed messages, which with the one in
      progress are the messages taken from the front. */
  ghost predicate BookOk(b: B.Book, p: B.Params, taken: seq<RtlMsg>, finished: seq<RtlMsg>, pin: Option<u32>, f0: nat) {
    && taken == finished + Busy(b) && BandOk(b, p, taken, pin)
    && P.Inv(b, p, Replay(finished, b.r.base, p.window), f0)
    && D.Counts(b, p, Replay(finished, b.r.base, p.window), DropCount(finished, b.r.base, p.window))
  }

  ghost predicate Inv(x: Chip, p: B.Params, log: F.Log, finished: seq<RtlMsg>, stream: Bytes, pin: Option<u32>,
    f0: nat) {
    F.Inv(x.front, log) && log.fed <= stream && BookOk(x.book, p, log.taken, finished, pin, f0)
  }

  function Finished(b: B.Book, finished: seq<RtlMsg>): seq<RtlMsg> {
    if b.r.state == B.FINISH then finished + [b.r.m] else finished
  }

  // ---- the book side of one edge -----------------------------------------------------------------

  ghost predicate Keeps(b: B.Book, b': B.Book) {
    && b'.r.m == b.r.m && b'.r.base == b.r.base && b'.r.bandValid == b.r.bandValid
    && (b'.r.state == B.IDLE <==> b.r.state == B.FINISH)
  }

  lemma LookKeeps(b: B.Book, c: B.Book, p: B.Params, input: B.Input)
    requires B.Lengths(b, p) && B.Lengths(c, p) && c.r == b.r.(done := false)
    requires b.r.state in {B.ADD_TBL, B.LK}
    ensures Keeps(b, B.FsmStep(b, c, p, input))
  {
    hide B.AddLevel, B.TakeLevel, B.Amount, B.AddCmd, B.ModCmd, B.ReaddCmd, B.AnyScanning, Offset, Address;
  }

  lemma StoreKeeps(b: B.Book, c: B.Book, p: B.Params, input: B.Input)
    requires B.Lengths(b, p) && B.Lengths(c, p) && c.r == b.r.(done := false)
    requires b.r.state in {B.MOD_TBL, B.RADD_TBL}
    ensures Keeps(b, B.FsmStep(b, c, p, input))
  {
    hide B.AddLevel, B.TakeLevel, B.Amount, B.AddCmd, B.ModCmd, B.ReaddCmd, B.AnyScanning, Offset, Address;
  }

  lemma ScanKeeps(b: B.Book, c: B.Book, p: B.Params, input: B.Input)
    requires B.Lengths(b, p) && B.Lengths(c, p) && c.r == b.r.(done := false)
    requires b.r.state in {B.EMPTY_WAIT}
    ensures Keeps(b, B.FsmStep(b, c, p, input))
  {
    hide B.AddLevel, B.TakeLevel, B.Amount, B.AddCmd, B.ModCmd, B.ReaddCmd, B.AnyScanning, Offset, Address;
  }

  lemma MoveKeeps(b: B.Book, c: B.Book, p: B.Params, input: B.Input)
    requires B.Lengths(b, p) && B.Lengths(c, p) && c.r == b.r.(done := false)
    requires b.r.state in {B.ADD_LVL, B.RADD_LVL, B.MOD_LVL, B.EMPTY, B.FINISH}
    ensures Keeps(b, B.FsmStep(b, c, p, input))
  {
    hide B.AddLevel, B.TakeLevel, B.Amount, B.AddCmd, B.ModCmd, B.ReaddCmd, B.AnyScanning, Offset, Address;
  }

  lemma BusyEdge(b: B.Book, p: B.Params, input: B.Input)
    requires B.Shape(b, p) && b.r.state != B.IDLE
    ensures Keeps(b, B.Next(b, p, input))
  {
    var c := B.Children(b, p);
    hide B.FsmStep, B.Children, B.Shape;
    match b.r.state {
      case ADD_TBL | LK => LookKeeps(b, c, p, input);
      case MOD_TBL | RADD_TBL => StoreKeeps(b, c, p, input);
      case EMPTY_WAIT => ScanKeeps(b, c, p, input);
      case _ => MoveKeeps(b, c, p, input);
    }
  }

  /** The next message of a good stream is one the engine may be given. */
  lemma NextAcceptable(b: B.Book, p: B.Params, taken: seq<RtlMsg>, pin: Option<u32>, f0: nat, m: RtlMsg,
    all: seq<RtlMsg>)
    requires BookOk(b, p, taken, taken, pin, f0) && b.r.state == B.IDLE
    requires taken + [m] <= all && StreamOk(all, BandBase(all, p, pin), p.window)
    ensures S.Acceptable(b, p, Replay(taken, b.r.base, p.window), B.Message(m))
    ensures P.Positive(m)
  {
    hide P.Inv, Fits, BandedAfter;
    assert m in all by { assert all[|taken|] == m; }
    var base := S.BaseUsed(b, p, m);
    assert all[..|taken| + 1] == taken + [m];
    ReplaySnoc(taken, m, base, p.window);
    if p.autoBand && !b.r.bandValid {
      NothingRests(taken, b.r.base, p.window);
      NothingRests(taken, base, p.window);
      if IsAdd(m) {
        BandFirst(taken, m, p, pin);
        assert IsAdd((taken + [m])[|taken|]);
        BandSettled(taken + [m], all, p, pin);
      } else {
        NoEffect(m, base, p.window);
        assert Fits(Replay(all[..0], BandBase(all, p, pin), p.window));
      }
    } else {
      BandSettled(taken, all, p, pin);
    }
  }

  lemma NoEffect(m: RtlMsg, base: u32, window: nat)
    requires !IsAdd(m)
    ensures BandedAfter(map[], m, base, window) == map[]
  {}

  lemma BandKept(b: B.Book, p: B.Params, taken: seq<RtlMsg>, pin: Option<u32>, m: RtlMsg, b': B.Book)
    requires BandOk(b, p, taken, pin) && p.window > 0
    requires var base := S.BaseUsed(b, p, m);
      var enters := IsAdd(m) && Offset(m.price, base) < p.window;
      b'.r.base == (if enters then base else b.r.base) && b'.r.bandValid == (b.r.bandValid || enters)
    requires P.Positive(m)
    ensures BandOk(b', p, taken + [m], pin)
    ensures b'.r.base != b.r.base ==> !HasAdd(taken)
  {
    if p.autoBand && !b.r.bandValid {
      if IsAdd(m) {
        BandFirst(taken, m, p, pin);
        assert IsAdd((taken + [m])[|taken|]);
      } else {
        assert !HasAdd(taken + [m]);
      }
    } else {
      BandSettled(taken, taken + [m], p, pin);
      if Centres(p, pin) {
        var i :| 0 <= i < |taken| && IsAdd(taken[i]);
        assert IsAdd((taken + [m])[i]);
      }
    }
  }

  lemma IdleTakes(b: B.Book, p: B.Params, taken: seq<RtlMsg>, pin: Option<u32>, f0: nat, m: RtlMsg, all: seq<RtlMsg>)
    requires BookOk(b, p, taken, taken, pin, f0) && b.r.state == B.IDLE && B.Shape(b, p)
    requires taken + [m] <= all && StreamOk(all, BandBase(all, p, pin), p.window)
    ensures var b' := B.Next(b, p, B.Message(m));
      b'.tbl.fails > f0 || BookOk(b', p, taken + [m], taken, pin, f0)
  {
    var input := B.Message(m);
    NextAcceptable(b, p, taken, pin, f0, m, all);
    S.IdleEdge(b, p, input);
    S.StepIdle(b, p, Replay(taken, b.r.base, p.window), f0, input);
    D.AcceptEdge(b, p, Replay(taken, b.r.base, p.window), input, DropCount(taken, b.r.base, p.window));
    var b' := B.Next(b, p, input);
    hide P.Inv, B.Next, B.Shape, BandOk, StreamOk, S.Acceptable, Replay, S.Ticked;
    BandKept(b, p, taken, pin, m, b');
    if b'.r.base != b.r.base {
      NothingRests(taken, b.r.base, p.window);
      NothingRests(taken, b'.r.base, p.window);
    }
  }

  lemma IdleWaits(b: B.Book, p: B.Params, taken: seq<RtlMsg>, pin: Option<u32>, f0: nat)
    requires BookOk(b, p, taken, taken, pin, f0) && b.r.state == B.IDLE && B.Shape(b, p)
    ensures var b' := B.Next(b, p, B.NoMessage);
      b'.tbl.fails > f0 || BookOk(b', p, taken, taken, pin, f0)
  {
    S.IdleEdge(b, p, B.NoMessage);
    S.StepIdle(b, p, Replay(taken, b.r.base, p.window), f0, B.NoMessage);
    D.AcceptEdge(b, p, Replay(taken, b.r.base, p.window), B.NoMessage, DropCount(taken, b.r.base, p.window));
    var b' := B.Next(b, p, B.NoMessage);
    hide P.Inv, B.Next, B.Shape, BandOk, Replay, S.BaseUsed, S.Ticked;
    assert b'.r == b.r.(done := false);
    BandSame(b, b', p, taken, pin);
  }

  lemma BandSame(b: B.Book, b': B.Book, p: B.Params, taken: seq<RtlMsg>, pin: Option<u32>)
    requires b'.r.base == b.r.base && b'.r.bandValid == b.r.bandValid && BandOk(b, p, taken, pin)
    ensures BandOk(b', p, taken, pin)
  {}

  lemma BusyStep(b: B.Book, p: B.Params, taken: seq<RtlMsg>, finished: seq<RtlMsg>, pin: Option<u32>, f0: nat,
    input: B.Input)
    requires BookOk(b, p, taken, finished, pin, f0) && b.r.state != B.IDLE && B.Shape(b, p)
    ensures var b' := B.Next(b, p, input);
      b'.tbl.fails > f0 || BookOk(b', p, taken, Finished(b, finished), pin, f0)
  {
    var os := Replay(finished, b.r.base, p.window);
    BusyEdge(b, p, input);
    H.EveryEdge(b, p, os, f0, input);
    D.EveryEdge(b, p, os, f0, input, DropCount(finished, b.r.base, p.window));
    var b' := B.Next(b, p, input);
    hide P.Inv, B.Next, B.Shape;
    BandSame(b, b', p, taken, pin);
    if b.r.state == B.FINISH { ReplaySnoc(finished, b.r.m, b.r.base, p.window); }
    hide BandOk;
  }

  // ---- every edge of the chip ---------------------------------------------------------------------

  /** The stream's messages, taken as one list, suit the book. */
  ghost predicate Suits(stream: Bytes, p: B.Params, pin: Option<u32>) {
    var all := Messages(Frames(stream));
    StreamOk(all, BandBase(all, p, pin), p.window)
  }

  lemma FrontEdge(x: F.Front, log: F.Log, beat: Bytes, accept: bool, stream: Bytes)
    requires F.Inv(x, log) && |beat| <= F.WORD_BYTES && (accept ==> x.d.valid) && log.fed + beat <= stream
    ensures var l := F.LogNext(x, log, beat, accept);
      F.Inv(F.Next(x, beat, accept), l) && l.fed <= stream &&
        l.taken == if accept then log.taken + [x.d.dec] else log.taken
    ensures accept ==> log.taken + [x.d.dec] <= Messages(Frames(stream))
  {
    F.EveryEdge(x, log, beat, accept);
    F.InOrder(x, log);
    MessagesGrow(log.fed, stream);
    hide F.Inv, F.Next, Messages, Frames;
  }

  lemma BookEdge(b: B.Book, p: B.Params, taken: seq<RtlMsg>, finished: seq<RtlMsg>, pin: Option<u32>, f0: nat,
    input: B.Input, all: seq<RtlMsg>)
    requires BookOk(b, p, taken, finished, pin, f0) && B.Shape(b, p) && StreamOk(all, BandBase(all, p, pin), p.window)
    requires b.r.state == B.IDLE && input.Message? ==> taken + [input.m] <= all
    ensures var b' := B.Next(b, p, input);
      var taken' := if b.r.state == B.IDLE && input.Message? then taken + [input.m] else taken;
      b'.tbl.fails > f0 || BookOk(b', p, taken', Finished(b, finished), pin, f0)
  {
    hide B.Next, P.Inv, StreamOk, B.Shape, BandOk, Replay;
    assert b.r.state == B.IDLE ==> taken == finished;
    hide BookOk;
    if b.r.state != B.IDLE {
      BusyStep(b, p, taken, finished, pin, f0, input);
    } else if input.Message? {
      IdleTakes(b, p, taken, pin, f0, input.m, all);
    } else {
      IdleWaits(b, p, taken, pin, f0);
    }
  }

  /** Every edge, whatever part of the stream the next beat carries. */
  lemma EveryEdge(x: Chip, p: B.Params, log: F.Log, finished: seq<RtlMsg>, stream: Bytes, pin: Option<u32>, f0: nat,
    beat: Bytes)
    requires Inv(x, p, log, finished, stream, pin, f0) && Shape(x, p) && Suits(stream, p, pin)
    requires |beat| <= F.WORD_BYTES && log.fed + beat <= stream
    ensures Next(x, p, beat).book.tbl.fails > f0 ||
      Inv(Next(x, p, beat), p, F.LogNext(x.front, log, beat, Takes(x)), Finished(x.book, finished), stream, pin, f0)
  {
    hide F.Inv, F.Next, F.LogNext, B.Next, BookOk, StreamOk, Messages, Frames, B.Shape;
    FrontEdge(x.front, log, beat, Takes(x), stream);
    BookEdge(x.book, p, log.taken, finished, pin, f0, Offered(x), Messages(Frames(stream)));
  }

  /** At rest: the front cannot move, no message is held, the book is idle. */
  predicate AtRest(x: Chip) {
    F.Stuck(x.front) && !x.front.d.valid && x.book.r.state == B.IDLE
  }

  /** At rest the outputs show the banded book of all messages of the bytes so far, however the
      bytes were cut into beats, and the table holds exactly its orders. */
  lemma RestShows(x: Chip, p: B.Params, log: F.Log, finished: seq<RtlMsg>, stream: Bytes, pin: Option<u32>, f0: nat)
    requires Inv(x, p, log, finished, stream, pin, f0) && AtRest(x)
    ensures var all := Messages(Frames(log.fed));
      var os := Replay(all, BandBase(all, p, pin), p.window);
      && H.Shows(x.book, p, os) && H.T.Holds(x.book.tbl.mem, os)
      && x.book.r.drops == DropCount(all, BandBase(all, p, pin), p.window)
      && (x.book.r.base == BandBase(all, p, pin) || os == map[])
  {
    F.StuckMeansDone(x.front, log);
    var all := Messages(Frames(log.fed));
    assert log.taken + [] == log.taken == finished == all;
    hide F.Inv, Messages, Frames, F.Stuck;
    if p.autoBand && !x.book.r.bandValid {
      NothingRests(all, x.book.r.base, p.window);
      NothingRests(all, BandBase(all, p, pin), p.window);
    }
    H.DoneShows(x.book, p, Replay(all, x.book.r.base, p.window), f0);
  }

  /** Cycles to rest, most significant first. */
  function Work(x: Chip, p: B.Params): (nat, nat, nat) {
    (F.Work(x.front), if x.front.d.valid then 1 else 0, H.Work(x.book, p))
  }

  predicate Below(a: (nat, nat, nat), b: (nat, nat, nat)) {
    a.0 < b.0 || (a.0 == b.0 && (a.1 < b.1 || (a.1 == b.1 && a.2 < b.2)))
  }

  lemma StuckEdge(x: F.Front, accept: bool)
    requires |x.d.body| == MSG_MAX_BYTES && F.Stuck(x)
    ensures var y := F.Next(x, [], accept);
      F.Work(y) == F.Work(x) && y.d.valid == (x.d.valid && !accept)
  {}

  /** Without input the chip always comes to rest: every edge uses up bounded work. */
  lemma ComesToRest(x: Chip, p: B.Params, log: F.Log, finished: seq<RtlMsg>, stream: Bytes, pin: Option<u32>, f0: nat)
    requires Inv(x, p, log, finished, stream, pin, f0) && Shape(x, p) && !AtRest(x)
    ensures Next(x, p, []).book.tbl.fails > f0 || Below(Work(Next(x, p, []), p), Work(x, p))
  {
    hide F.Next, B.Next, H.Work, F.Work, F.Inv, P.Inv, F.Stuck;
    if !F.Stuck(x.front) {
      F.MovesForward(x.front, log, Takes(x));
    } else {
      StuckEdge(x.front, Takes(x));
      if x.book.r.state != B.IDLE {
        H.EveryMessageCompletes(x.book, p, Replay(finished, x.book.r.base, p.window), f0, Offered(x));
      }
    }
  }

  // ---- the chip as objects ----------------------------------------------------------------------

  class OrderBookTop {
    const pin: Option<u32>
    const framer: F.ItchFramer
    const decoder: F.ItchDecoder
    const engine: C.BookUpdateEngine

    ghost predicate Wired()
      reads this, framer, decoder, engine
    {
      framer.Sized() && engine.Wired()
    }

    function View(): Chip
      requires framer.Sized()
      reads this, framer, decoder, engine, engine.tbl, engine.bidTracker, engine.askTracker
    {
      Chip(F.Front(framer.View(), decoder.View()), engine.View())
    }

    constructor (p: B.Params, tableSize: nat, pin: Option<u32>)
      requires 0 < p.window < WRAP32 && H.T.MAX_PROBE <= tableSize && forall k: u64 :: p.home(k) < tableSize
      ensures fresh(framer) && fresh(decoder) && fresh(engine)
      ensures fresh(engine.tbl) && fresh(engine.bidTracker) && fresh(engine.askTracker)
      ensures Wired() && engine.p == p && this.pin == pin
      ensures forall stream :: Inv(View(), p, F.Log([], [], [], []), [], stream, pin, 0)
    {
      this.pin := pin;
      framer := new F.ItchFramer();
      decoder := new F.ItchDecoder();
      engine := new C.BookUpdateEngine(p, tableSize, pin);
      new;
      assert F.Inv(F.RESET, F.Log([], [], [], []));
    }

    /** One posedge of the whole chip. */
    method Clock(beat: Bytes)
      requires Wired() && Shape(View(), engine.p) && |beat| <= F.WORD_BYTES
      modifies framer, decoder, engine, engine.tbl, engine.bidTracker, engine.askTracker
      ensures Wired() && View() == Next(old(View()), engine.p, beat)
      ensures engine.tbl.fails == View().book.tbl.fails
    {
      ghost var x := View();
      var offered := if decoder.valid then B.Message(decoder.dec) else B.NoMessage;
      var takes := engine.r.state == B.IDLE && decoder.valid;
      hide Shape, B.Shape, B.Next, F.Next;
      ShapeParts(x, engine.p);
      F.ClockFront(framer, decoder, beat, takes);
      engine.Clock(offered);
    }

    /** Offers the next bytes if the front is ready for them, and clocks. */
    method PlayCycle(stream: Bytes, sent: nat, size: nat, ghost log: F.Log, ghost finished: seq<RtlMsg>)
      returns (n: nat, ghost log': F.Log, ghost finished': seq<RtlMsg>)
      requires Wired() && sent <= |stream| && 1 <= size <= F.WORD_BYTES && Suits(stream, engine.p, pin)
      requires Playing(View(), engine.p, pin, log, finished, stream, sent) && (sent < |stream| || !AtRest(View()))
      modifies framer, decoder, engine, engine.tbl, engine.bidTracker, engine.askTracker
      ensures Wired() && sent + n <= |stream|
      ensures engine.tbl.fails > 0 || Playing(View(), engine.p, pin, log', finished', stream, sent + n)
      ensures engine.tbl.fails > 0 || n > 0 || Below(Work(View(), engine.p), old(Work(View(), engine.p)))
    {
      hide Inv, Suits, Next, Shape, AtRest, Work, Below, F.InReady, F.LogNext,
        C.BookUpdateEngine.View, F.ItchFramer.View, F.ItchDecoder.View;
      ghost var x := View();
      var beat := [];
      if sent < |stream| && F.InReady(framer.View()) {
        beat := if sent + size <= |stream| then stream[sent..sent + size] else stream[sent..];
      }
      BeatStep(x, engine.p, pin, log, finished, stream, sent, beat);
      log', finished' := F.LogNext(x.front, log, beat, Takes(x)), Finished(x.book, finished);
      Clock(beat);
      n := |beat|;
    }

    /** Clocks until the stream is sent and the chip rests, or an insertion failed. */
    method Drive(stream: Bytes, cut: nat -> nat) returns (ok: bool, ghost log: F.Log, ghost finished: seq<RtlMsg>)
      requires Wired() && Playing(View(), engine.p, pin, F.Log([], [], [], []), [], stream, 0) &&
        Suits(stream, engine.p, pin)
      modifies framer, decoder, engine, engine.tbl, engine.bidTracker, engine.askTracker
      ensures !ok ==> engine.tbl.fails > 0
      ensures ok ==> Wired() && AtRest(View()) && Playing(View(), engine.p, pin, log, finished, stream, |stream|)
    {
      hide Inv, Suits, AtRest, Work, Shape, Playing, C.BookUpdateEngine.View, F.ItchFramer.View, F.ItchDecoder.View;
      log, finished := F.Log([], [], [], []), [];
      var sent: nat := 0;
      while sent < |stream| || !AtRest(View())
        invariant Wired() && sent <= |stream| && Playing(View(), engine.p, pin, log, finished, stream, sent)
        decreases |stream| - sent, Work(View(), engine.p).0, Work(View(), engine.p).1, Work(View(), engine.p).2
      {
        var n;
        n, log, finished := PlayCycle(stream, sent, 1 + cut(sent) % F.WORD_BYTES, log, finished);
        if engine.tbl.fails > 0 { return false, log, finished; }
        sent := sent + n;
      }
      ok := true;
    }

    /** Plays a whole stream, cutting it into beats as told, then lets the chip come to rest.
        The result does not depend on the cuts. */
    method Play(stream: Bytes, cut: nat -> nat) returns (ok: bool)
      requires Wired() && Inv(View(), engine.p, F.Log([], [], [], []), [], stream, pin, 0) &&
        Suits(stream, engine.p, pin)
      modifies framer, decoder, engine, engine.tbl, engine.bidTracker, engine.askTracker
      ensures !ok ==> engine.tbl.fails > 0
      ensures ok ==>
        var all := Messages(Frames(stream));
        var os := Replay(all, BandBase(all, engine.p, pin), engine.p.window);
        && Wired() && H.Shows(engine.View(), engine.p, os) && H.T.Holds(engine.View().tbl.mem, os)
        && engine.View().r.drops == DropCount(all, BandBase(all, engine.p, pin), engine.p.window)
        && (engine.View().r.base == BandBase(all, engine.p, pin) || os == map[])
    {
      hide Inv, Suits, AtRest, H.Shows, H.T.Holds, Replay, BandBase, Messages, Frames, Shape,
        C.BookUpdateEngine.View, F.ItchFramer.View, F.ItchDecoder.View;
      ghost var log, finished;
      ok, log, finished := Drive(stream, cut);
      if ok {
        RestShows(View(), engine.p, log, finished, stream, pin, 0);
        assert stream[..|stream|] == stream;
      }
    }
  }

  ghost predicate Playing(x: Chip, p: B.Params, pin: Option<u32>, log: F.Log, finished: seq<RtlMsg>, stream: Bytes,
    sent: nat)
    requires sent <= |stream|
  {
    Inv(x, p, log, finished, stream, pin, 0) && log.fed == stream[..sent]
  }

  /** One cycle of playing a stream: the log follows, and a cycle without a beat is progress. */
  lemma BeatStep(x: Chip, p: B.Params, pin: Option<u32>, log: F.Log, finished: seq<RtlMsg>, stream: Bytes, sent: nat,
    beat: Bytes)
    requires sent <= |stream| && Playing(x, p, pin, log, finished, stream, sent) && Suits(stream, p, pin)
    requires |beat| <= F.WORD_BYTES && beat <= stream[sent..]
    requires sent < |stream| || !AtRest(x)
    requires beat == [] <==> sent == |stream| || !F.InReady(x.front.f)
    ensures Shape(x, p)
    ensures var y, l := Next(x, p, beat), F.LogNext(x.front, log, beat, Takes(x));
      y.book.tbl.fails > 0 ||
      (Playing(y, p, pin, l, Finished(x.book, finished), stream, sent + |beat|) &&
        (beat == [] ==> Below(Work(y, p), Work(x, p))))
  {
    P.InvShape(x.book, p, Replay(finished, x.book.r.base, p.window), 0);
    assert Shape(x, p);
    assert stream[..sent] + beat == stream[..sent + |beat|];
    hide P.Inv, F.Next, B.Next, BookOk, Suits;
    if beat == [] {
      if AtRest(x) {
        F.StuckMeansDone(x.front, log);
        assert false;
      }
      hide F.Inv, F.Stuck;
      ComesToRest(x, p, log, finished, stream, pin, 0);
    }
    hide F.Inv, Work, AtRest, Shape;
    EveryEdge(x, p, log, finished, stream, pin, 0, beat);
  }

  lemma ShapeParts(x: Chip, p: B.Params)
    requires Shape(x, p)
    ensures |x.front.d.body| == MSG_MAX_BYTES && B.Shape(x.book, p)
  {}
}
