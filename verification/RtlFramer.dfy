/** Message framing and field decoding, one clock edge at a time: a compacting window of
    packed beats feeds whole bodies to a decoder that holds one message for the book. */
module RtlFramer {
  import opened Itch
  import opened RtlSpec
  import opened Wire

  const WORD_BYTES: nat := 16
  const WIN_BYTES: nat := 32

  datatype State = HDR | BODY | SETTLE | DROP

  /** win holds the occupied front of the window, oldest byte first. */
  datatype Framer = Framer(state: State, win: Bytes, len: u16, remain: nat, widx: nat)

  datatype Decoder = Decoder(body: Bytes, dec: RtlMsg, valid: bool)

  datatype Front = Front(f: Framer, d: Decoder)

  const RESET: Front := Front(Framer(HDR, [], 0, 0, 0), Decoder(seq(MSG_MAX_BYTES, _ => 0), NO_MESSAGE, false))

  // ---- one edge ---------------------------------------------------------------------------

  /** Bytes taken from the front of the window at this edge. */
  function Consume(f: Framer): (c: nat)
    ensures c <= |f.win| && c <= WORD_BYTES
  {
    match f.state
    case HDR => if |f.win| >= 2 then 2 else 0
    case BODY | DROP =>
      if f.remain <= WORD_BYTES then if |f.win| >= f.remain then f.remain else 0
      else if |f.win| >= WORD_BYTES then WORD_BYTES else 0
    case SETTLE => 0
  }

  /** A beat is accepted only when sixteen bytes fit behind the surviving ones. */
  predicate InReady(f: Framer) {
    |f.win| - Consume(f) <= WIN_BYTES - WORD_BYTES
  }

  function Accepted(f: Framer, beat: Bytes): Bytes {
    if InReady(f) then beat else []
  }

  /** Body bytes presented to the decoder; none when no beat is valid. */
  function MsgBeat(f: Framer): Bytes {
    if f.state == BODY then f.win[..Consume(f)] else []
  }

  predicate MsgComplete(f: Framer, decPending: bool) {
    f.state == SETTLE && !decPending
  }

  function FramerNext(f: Framer, beat: Bytes, decPending: bool): Framer {
    var c := Consume(f);
    var g := f.(win := f.win[c..] + Accepted(f, beat));
    match f.state
    case HDR =>
      if c == 0 then g
      else
        var len := Be16(f.win, 0);
        Framer(if len == 0 then HDR else if len > MSG_MAX_BYTES then DROP else BODY, g.win, len, len, 0)
    case BODY =>
      if c == 0 then g
      else if f.remain <= WORD_BYTES then g.(remain := f.remain - c, state := SETTLE)
      else g.(remain := f.remain - c, widx := (f.widx + 1) % 4)
    case SETTLE => if decPending then g else g.(state := HDR)
    case DROP =>
      if c == 0 then g
      else g.(remain := f.remain - c, state := if f.remain <= WORD_BYTES then HDR else DROP)
  }

  /** The body buffer after a beat landed at this offset; bytes behind its end are lost. */
  function Land(body: Bytes, at: nat, data: Bytes): (b: Bytes)
    ensures |b| == |body|
  {
    seq(|body|, i requires 0 <= i < |body| => if at <= i < at + |data| then data[i - at] else body[i])
  }

  function DecoderNext(d: Decoder, data: Bytes, widx: nat, complete: bool, len: nat, accept: bool): Decoder
    requires |d.body| == MSG_MAX_BYTES
  {
    var e := d.(body := Land(d.body, WORD_BYTES * widx, data));
    if complete then
      var kind := KindOf(d.body[0]);
      if kind != Unknown && len == BodyLen(kind) then e.(dec := Decode(d.body), valid := true)
      else e.(dec := NO_MESSAGE, valid := false)
    else if accept then e.(valid := false)
    else e
  }

  /** Framer and decoder share the edge; the decoder's held message is the framer's backpressure. */
  function Next(x: Front, beat: Bytes, accept: bool): Front
    requires |x.d.body| == MSG_MAX_BYTES
  {
    Front(FramerNext(x.f, beat, x.d.valid),
      DecoderNext(x.d, MsgBeat(x.f), x.f.widx, MsgComplete(x.f, x.d.valid), x.f.len, accept))
  }

  // ---- what has happened so far ------------------------------------------------------------

  /** Bytes accepted, bodies of finished frames, consumed bytes of the current frame, and
      messages the book took. */
  datatype Log = Log(fed: Bytes, frames: seq<Bytes>, part: Bytes, taken: seq<RtlMsg>)

  function Pending(x: Front): seq<RtlMsg> {
    if x.d.valid then [x.d.dec] else []
  }

  function Fed(x: Front, log: Log, beat: Bytes, accept: bool): Log {
    log.(fed := log.fed + Accepted(x.f, beat), part := log.part + x.f.win[..Consume(x.f)],
      taken := log.taken + if accept then Pending(x) else [])
  }

  /** The body of a whole frame. */
  function BodyOf(frame: Bytes): Bytes {
    if |frame| < 2 then [] else frame[2..]
  }

  predicate FrameEnds(x: Front) {
    match x.f.state
    case HDR => Consume(x.f) == 2 && Be16(x.f.win, 0) == 0
    case BODY => false
    case SETTLE => !x.d.valid
    case DROP => Consume(x.f) != 0 && x.f.remain <= WORD_BYTES
  }

  function LogNext(x: Front, log: Log, beat: Bytes, accept: bool): Log {
    var l := Fed(x, log, beat, accept);
    if FrameEnds(x) then l.(frames := l.frames + [BodyOf(l.part)], part := []) else l
  }

  /** The consumed part of the current frame. */
  ghost predicate PartOk(x: Front, part: Bytes)
    requires |x.d.body| == MSG_MAX_BYTES
  {
    var f, d := x.f, x.d;
    match f.state
    case HDR => part == []
    case BODY =>
      && 1 <= f.remain <= f.len <= MSG_MAX_BYTES && f.len - f.remain == WORD_BYTES * f.widx
      && part == Put16(f.len) + d.body[..f.len - f.remain]
    case SETTLE => 1 <= f.len <= MSG_MAX_BYTES && part == Put16(f.len) + d.body[..f.len]
    case DROP =>
      && MSG_MAX_BYTES < f.len && 1 <= f.remain <= f.len
      && |part| == 2 + f.len - f.remain && part[..2] == Put16(f.len)
  }

  /** No byte is lost, duplicated or reordered on its way through the window, and the messages
      latched so far are exactly those of the finished frames. */
  ghost predicate Inv(x: Front, log: Log) {
    && |x.f.win| <= WIN_BYTES && |x.d.body| == MSG_MAX_BYTES
    && Framable(log.frames) && log.fed == Framed(log.frames) + log.part + x.f.win
    && PartOk(x, log.part)
    && Messages(log.frames) == log.taken + Pending(x)
  }

  /** What drives an edge: a beat of at most sixteen bytes (none when not valid), and the book
      taking a message only while one is held. */
  predicate Allowed(x: Front, beat: Bytes, accept: bool) {
    |beat| <= WORD_BYTES && (accept ==> x.d.valid)
  }

  // ---- every edge keeps the invariant --------------------------------------------------------

  lemma MoveBytes<T>(done: seq<T>, part: seq<T>, win: seq<T>, more: seq<T>, c: nat)
    requires c <= |win|
    ensures done + part + win + more == done + (part + win[..c]) + (win[c..] + more)
  {
    assert win == win[..c] + win[c..];
  }

  lemma WindowEdge(x: Front, log: Log, beat: Bytes, accept: bool)
    requires Inv(x, log) && |beat| <= WORD_BYTES
    ensures |FramerNext(x.f, beat, x.d.valid).win| <= WIN_BYTES
    ensures var l := Fed(x, log, beat, accept);
      l.fed == Framed(log.frames) + l.part + FramerNext(x.f, beat, x.d.valid).win
  {
    hide Framed, PartOk, Messages, Be16, Put16;
    MoveBytes(Framed(log.frames), log.part, x.f.win, Accepted(x.f, beat), Consume(x.f));
    hide Consume;
  }

  /** The consumed part of the frame stays as it should, up to a whole frame at its end. */
  ghost predicate PartEdge(x: Front, log: Log, beat: Bytes, accept: bool)
    requires |x.d.body| == MSG_MAX_BYTES
  {
    var y, part := Next(x, beat, accept), Fed(x, log, beat, accept).part;
    if FrameEnds(x) then PartOk(y, []) && |BodyOf(part)| < 0x1_0000 && part == Frame(BodyOf(part)) else PartOk(y, part)
  }

  lemma HeaderEdge(x: Front, log: Log, beat: Bytes, accept: bool)
    requires Inv(x, log) && Allowed(x, beat, accept) && x.f.state == HDR
    ensures PartEdge(x, log, beat, accept)
  {
    hide Framed, Messages;
    if Consume(x.f) == 2 { Write16(x.f.win, 0); }
  }

  lemma BodyEdge(x: Front, log: Log, beat: Bytes, accept: bool)
    requires Inv(x, log) && Allowed(x, beat, accept) && x.f.state == BODY
    ensures PartEdge(x, log, beat, accept)
  {
    hide Framed, Messages, Put16;
    var f, d, y := x.f, x.d, Next(x, beat, accept);
    var c := Consume(f);
    if c != 0 {
      LandAt(d.body, WORD_BYTES * f.widx, f.win[..c]);
      assert log.part + f.win[..c] == Put16(f.len) + (d.body[..f.len - f.remain] + f.win[..c]);
    } else {
      LandNone(d.body, WORD_BYTES * f.widx);
    }
    hide Land;
  }

  lemma LandAt(body: Bytes, at: nat, data: Bytes)
    requires at + |data| <= |body|
    ensures Land(body, at, data)[..at + |data|] == body[..at] + data
  {}

  lemma LandNone(body: Bytes, at: nat)
    ensures Land(body, at, []) == body
  {}

  lemma DropEdge(x: Front, log: Log, beat: Bytes, accept: bool)
    requires Inv(x, log) && Allowed(x, beat, accept) && x.f.state == DROP
    ensures PartEdge(x, log, beat, accept)
    ensures FrameEnds(x) ==> |Fed(x, log, beat, accept).part| > MSG_MAX_BYTES + 2
  {
    hide Framed, Messages, Put16, Land;
    var part := Fed(x, log, beat, accept).part;
    assert part[..2] == log.part[..2];
    assert part == part[..2] + part[2..];
  }

  lemma SettleEdge(x: Front, log: Log, beat: Bytes, accept: bool)
    requires Inv(x, log) && Allowed(x, beat, accept) && x.f.state == SETTLE
    ensures PartEdge(x, log, beat, accept)
    ensures FrameEnds(x) ==> BodyOf(Fed(x, log, beat, accept).part) == x.d.body[..x.f.len]
  {
    hide Framed, Messages, Put16;
    LandNone(x.d.body, WORD_BYTES * x.f.widx);
    hide Land;
    assert log.part + [] == log.part;
  }

  lemma PartStep(x: Front, log: Log, beat: Bytes, accept: bool)
    requires Inv(x, log) && Allowed(x, beat, accept)
    ensures PartEdge(x, log, beat, accept)
  {
    hide PartEdge, Inv, Allowed;
    match x.f.state {
      case HDR => HeaderEdge(x, log, beat, accept);
      case BODY => BodyEdge(x, log, beat, accept);
      case SETTLE => SettleEdge(x, log, beat, accept);
      case DROP => DropEdge(x, log, beat, accept);
    }
  }

  /** What the decoder holds after an edge: at the end of a frame, its message if it has one. */
  lemma LatchEdge(x: Front, log: Log, beat: Bytes, accept: bool)
    requires Inv(x, log) && Allowed(x, beat, accept)
    ensures var body := BodyOf(Fed(x, log, beat, accept).part);
      Pending(Next(x, beat, accept)) ==
        (if accept then [] else Pending(x)) + if FrameEnds(x) && Deliverable(body) then [Decode(body)] else []
  {
    hide Framed, Messages, Land, PartEdge, Decode, BodyLen;
    if FrameEnds(x) {
      match x.f.state {
        case HDR =>
        case DROP => DropEdge(x, log, beat, accept);
        case SETTLE =>
          SettleEdge(x, log, beat, accept);
          var body := x.d.body[..x.f.len];
          assert body[0] == x.d.body[0];
          if Deliverable(body) { OwnBytes(x.d.body, body); }
      }
    }
  }

  /** The bookkeeping of an edge: bytes, frames and messages stay accounted for. */
  lemma LogEdge(x: Front, log: Log, beat: Bytes, accept: bool)
    requires Inv(x, log) && Allowed(x, beat, accept) && PartEdge(x, log, beat, accept)
    ensures var y, l := Next(x, beat, accept), LogNext(x, log, beat, accept);
      && Framable(l.frames) && l.fed == Framed(l.frames) + l.part + y.f.win
      && Messages(l.frames) == l.taken + Pending(y) && PartOk(y, l.part)
  {
    hide Consume, FramerNext, DecoderNext, Messages, Framed, FrameEnds, PartOk, Deliverable, Decode, BodyOf, Frame,
      Accepted;
    var l := Fed(x, log, beat, accept);
    WindowEdge(x, log, beat, accept);
    LatchEdge(x, log, beat, accept);
    if FrameEnds(x) {
      FramedSnoc(log.frames, BodyOf(l.part));
      assert Framed(log.frames) + l.part == Framed(log.frames) + l.part + [];
    }
  }

  /** Every edge, whatever beat is offered and whether or not the book takes a message. */
  lemma EveryEdge(x: Front, log: Log, beat: Bytes, accept: bool)
    requires Inv(x, log) && Allowed(x, beat, accept)
    ensures Inv(Next(x, beat, accept), LogNext(x, log, beat, accept))
  {
    PartStep(x, log, beat, accept);
    LogEdge(x, log, beat, accept);
    WindowEdge(x, log, beat, accept);
    hide Consume, Messages, Framed, FrameEnds, PartOk, PartEdge, LogNext, FramerNext, Pending;
  }

  // ---- main results --------------------------------------------------------------------------

  /** The complete frames of the bytes accepted so far are the finished frames, then those
      still to come from the current part and the window. */
  lemma FramesSoFar(x: Front, log: Log)
    requires Inv(x, log)
    ensures Frames(log.fed) == log.frames + Frames(log.part + x.f.win)
  {
    hide PartOk, Frames, Framed;
    assert log.fed == Framed(log.frames) + (log.part + x.f.win);
    FramesOfFramed(log.frames, log.part + x.f.win);
  }

  /** Messages reach the book in stream order, once each, decoded from their own bytes: what
      it took, then what is held, begins the messages of the bytes accepted. */
  lemma InOrder(x: Front, log: Log)
    requires Inv(x, log)
    ensures log.taken + Pending(x) <= Messages(Frames(log.fed))
  {
    FramesSoFar(x, log);
    MessagesJoin(log.frames, Frames(log.part + x.f.win));
  }

  /** Nothing moves at this edge: no byte is consumed and no message completes. */
  predicate Stuck(x: Front) {
    Consume(x.f) == 0 && !MsgComplete(x.f, x.d.valid)
  }

  /** Without input the front can stop for two reasons only. Either a decoded message waits for
      the book behind another one, or every complete frame has been delivered; then the window
      has room for a beat. */
  lemma StuckMeansDone(x: Front, log: Log)
    requires Inv(x, log) && Stuck(x)
    ensures (x.f.state == SETTLE && x.d.valid) || (InReady(x.f) && log.taken + Pending(x) == Messages(Frames(log.fed)))
  {
    FramesSoFar(x, log);
    var s := log.part + x.f.win;
    if x.f.state != SETTLE {
      if |s| >= 2 && x.f.state != HDR {
        assert s[0..2] == Put16(x.f.len);
        Read16(s, 0, x.f.len);
      }
      assert Frames(s) == [];
      assert log.frames + [] == log.frames;
    }
  }

  /** Cycles the front can still move without input. */
  function Work(x: Front): nat {
    2 * |x.f.win| + if x.f.state == SETTLE then 1 else 0
  }

  lemma MovesForward(x: Front, log: Log, accept: bool)
    requires Inv(x, log) && !Stuck(x)
    ensures Work(Next(x, [], accept)) < Work(x)
  {}

  // ---- whole runs ----------------------------------------------------------------------------

  datatype Cycle = Cycle(beat: Bytes, accept: bool)

  ghost predicate GoodRun(x: Front, cycles: seq<Cycle>)
    decreases |cycles|
  {
    cycles != [] && |x.d.body| == MSG_MAX_BYTES ==>
      Allowed(x, cycles[0].beat, cycles[0].accept) && GoodRun(Next(x, cycles[0].beat, cycles[0].accept), cycles[1..])
  }

  function Final(x: Front, log: Log, cycles: seq<Cycle>): (Front, Log)
    decreases |cycles|
  {
    if cycles == [] || |x.d.body| != MSG_MAX_BYTES then (x, log)
    else
      var c := cycles[0];
      Final(Next(x, c.beat, c.accept), LogNext(x, log, c.beat, c.accept), cycles[1..])
  }

  lemma {:induction false} EveryRun(x: Front, log: Log, cycles: seq<Cycle>)
    requires Inv(x, log) && GoodRun(x, cycles)
    ensures var (x', log') := Final(x, log, cycles);
      Inv(x', log')
    decreases |cycles|
  {
    if cycles != [] {
      var c := cycles[0];
      EveryEdge(x, log, c.beat, c.accept);
      hide Inv, Next, LogNext, Allowed;
      assert |x.d.body| == MSG_MAX_BYTES;
      EveryRun(Next(x, c.beat, c.accept), LogNext(x, log, c.beat, c.accept), cycles[1..]);
    }
  }

  /** From reset, for every way of cutting a stream into beats and every acceptance schedule:
      what the book took depends on the accepted bytes alone, and is all of their messages once
      the front has come to rest with none held. */
  lemma EveryCutAndSchedule(cycles: seq<Cycle>)
    requires GoodRun(RESET, cycles)
    ensures var (x, log) := Final(RESET, Log([], [], [], []), cycles);
      && |x.f.win| <= WIN_BYTES && log.taken + Pending(x) <= Messages(Frames(log.fed))
      && (Stuck(x) && !x.d.valid ==> log.taken == Messages(Frames(log.fed)))
  {
    var log0 := Log([], [], [], []);
    assert Inv(RESET, log0);
    EveryRun(RESET, log0, cycles);
    var (x, log) := Final(RESET, log0, cycles);
    hide Final, GoodRun;
    InOrder(x, log);
    if Stuck(x) { StuckMeansDone(x, log); }
    hide Inv, Stuck, Frames, Messages;
  }

  // ---- the clocked blocks -----------------------------------------------------------------------

  class ItchFramer {
    var state: State
    var win: Bytes
    var cnt: nat
    var len: u16
    var remain: nat
    var widx: nat

    ghost predicate Sized()
      reads this
    {
      |win| == WIN_BYTES && cnt <= WIN_BYTES
    }

    function View(): Framer
      requires Sized()
      reads this
    {
      Framer(state, win[..cnt], len, remain, widx)
    }

    constructor ()
      ensures Sized() && View() == RESET.f
    {
      state, win, cnt, len, remain, widx := HDR, seq(WIN_BYTES, _ => 0), 0, 0, 0, 0;
    }

    /** Survivors shift down, an accepted beat appends behind them, the rest is unspecified. */
    method Compact(consume: nat, beat: Bytes) returns (next: Bytes)
      requires Sized() && consume <= cnt && cnt - consume + |beat| <= WIN_BYTES
      ensures |next| == WIN_BYTES
      ensures next[..cnt - consume + |beat|] == win[consume..cnt] + beat
    {
      var keep := cnt - consume;
      next := [];
      for i := 0 to WIN_BYTES
        invariant |next| == i
        invariant forall j :: 0 <= j < i && j < keep ==> next[j] == win[j + consume]
        invariant forall j :: keep <= j < i && j < keep + |beat| ==> next[j] == beat[j - keep]
      {
        next := next + [if i < keep then win[i + consume] else if i < keep + |beat| then beat[i - keep] else win[i]];
      }
    }

    /** One posedge. */
    method Clock(beat: Bytes, decPending: bool)
      requires Sized() && |beat| <= WORD_BYTES
      modifies this
      ensures Sized() && View() == FramerNext(old(View()), beat, decPending)
    {
      ghost var f := View();
      var consume := 0;
      match state {
        case HDR => if cnt >= 2 { consume := 2; }
        case BODY | DROP =>
          if remain <= WORD_BYTES {
            if cnt >= remain { consume := remain; }
          } else if cnt >= WORD_BYTES { consume := WORD_BYTES; }
        case SETTLE =>
      }
      assert consume == Consume(f);
      var ready := cnt - consume <= WIN_BYTES - WORD_BYTES;
      var taken := if ready then beat else [];
      var next := Compact(consume, taken);
      var lead: u16 := if cnt >= 2 then Be16(win, 0) else 0;
      win, cnt := next, cnt - consume + |taken|;
      assert win[..cnt] == f.win[consume..] + Accepted(f, beat);
      match state {
        case HDR => if consume != 0 {
          len, remain, widx := lead, lead, 0;
          state := if lead == 0 then HDR else if lead > MSG_MAX_BYTES then DROP else BODY;
        }
        case BODY => if consume != 0 {
          if remain <= WORD_BYTES { state := SETTLE; } else { widx := (widx + 1) % 4; }
          remain := remain - consume;
        }
        case SETTLE => if !decPending { state := HDR; }
        case DROP => if consume != 0 {
          if remain <= WORD_BYTES { state := HDR; }
          remain := remain - consume;
        }
      }
    }
  }

  class ItchDecoder {
    var body: Bytes
    var dec: RtlMsg
    var valid: bool

    function View(): Decoder
      reads this
    {
      Decoder(body, dec, valid)
    }

    constructor ()
      ensures View() == RESET.d
    {
      body, dec, valid := seq(MSG_MAX_BYTES, _ => 0), NO_MESSAGE, false;
    }

    /** One posedge: the decode sees the body as it stood before this edge's beat. */
    method Clock(data: Bytes, widx: nat, complete: bool, len: nat, accept: bool)
      requires |body| == MSG_MAX_BYTES && |data| <= WORD_BYTES
      modifies this
      ensures View() == DecoderNext(old(View()), data, widx, complete, len, accept)
    {
      if complete {
        var kind := KindOf(body[0]);
        if kind != Unknown && len == BodyLen(kind) {
          dec, valid := Decode(body), true;
        } else {
          dec, valid := NO_MESSAGE, false;
        }
      } else if accept {
        valid := false;
      }
      ghost var was := body;
      for i := 0 to WORD_BYTES
        invariant |body| == |was| && dec == DecoderNext(old(View()), data, widx, complete, len, accept).dec
        invariant valid == DecoderNext(old(View()), data, widx, complete, len, accept).valid
        invariant forall j :: 0 <= j < |was| ==>
          body[j] == if WORD_BYTES * widx <= j < WORD_BYTES * widx + i && j - WORD_BYTES * widx < |data|
            then data[j - WORD_BYTES * widx] else was[j]
      {
        if i < |data| && WORD_BYTES * widx + i < MSG_MAX_BYTES {
          body := body[WORD_BYTES * widx + i := data[i]];
        }
      }
      assert body == Land(was, WORD_BYTES * widx, data);
    }
  }

  /** Both blocks share one edge, each sampling the other's registers. */
  method ClockFront(framer: ItchFramer, decoder: ItchDecoder, beat: Bytes, accept: bool)
    requires framer.Sized() && |decoder.body| == MSG_MAX_BYTES && |beat| <= WORD_BYTES
    modifies framer, decoder
    ensures framer.Sized() && |decoder.body| == MSG_MAX_BYTES
    ensures var x := Front(old(framer.View()), old(decoder.View()));
      Front(framer.View(), decoder.View()) == Next(x, beat, accept)
  {
    var f, pending := framer.View(), decoder.valid;
    var data := MsgBeat(f);
    framer.Clock(beat, pending);
    decoder.Clock(data, f.widx, MsgComplete(f, pending), f.len, accept);
  }
}
