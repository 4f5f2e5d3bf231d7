/** MoldUDP64 packets in hardware: the header stripper beat by beat, its two-stage pipeline
    with backpressure, against a datagram-level meaning and the software parser. */
module MoldStripper {
  import opened Itch
  import opened Wire
  import opened MoldParser

  const WORD_BYTES: nat := 16

  /** One input beat of 1 to 16 bytes; `sop` on the first beat of a datagram. */
  datatype Beat = Beat(data: Bytes, sop: bool)

  predicate BeatOk(b: Beat) {
    1 <= |b.data| <= WORD_BYTES
  }

  /** Sequence tracking: the expected number, gap counters, end flag, and whether the payload
      of the current datagram is being discarded. */
  datatype Track = Track(seqInit: bool, expected: u64, gapEvents: nat, gapMsgs: nat, sessionEnd: bool, drop: bool)

  /** Sequence policy on a datagram's header. */
  function Decide(t: Track, seqNo: u64, count: u16): Track {
    if count == END_OF_SESSION then t.(sessionEnd := true, drop := true)
    else if !t.seqInit then t.(seqInit := true, expected := Advance(seqNo, count), drop := false)
    else if seqNo == t.expected then t.(expected := Advance(seqNo, count), drop := false)
    else if seqNo > t.expected then
      t.(gapEvents := (t.gapEvents + 1) % WRAP32, gapMsgs := (t.gapMsgs + seqNo - t.expected) % WRAP64,
         expected := Advance(seqNo, count), drop := false)
    else t.(drop := true)
  }

  // ---- the pipeline ---------------------------------------------------------------------------

  datatype State = STREAM | DECIDE

  /** hdr holds the header bytes so far; a is the registered beat, off what to skip of it; out
      is the output register. */
  datatype Stripper = Stripper(
    state: State, a: Option<Beat>, left: nat, hdr: Bytes, off: nat, seqNo: u64, count: u16, t: Track, out: Bytes)

  const RESET: Stripper :=
    Stripper(STREAM, None, 0, seq(HDR_BYTES, _ => 0), 0, 0, 0, Track(false, 0, 0, 0, false, false), [])

  /** Header bytes still missing; a first beat restarts the header. */
  function Left(s: Stripper): nat {
    if s.a.Some? && s.a.value.sop then HDR_BYTES else s.left
  }

  /** Header bytes the registered beat contributes. */
  function Share(s: Stripper): nat
    requires s.a.Some?
  {
    Min(Left(s), |s.a.value.data|)
  }

  /** The header with the beat's share merged in. */
  function Merged(s: Stripper): Bytes
    requires s.a.Some?
  {
    (if s.a.value.sop then [] else s.hdr) + s.a.value.data[..Share(s)]
  }

  predicate OutFree(s: Stripper, outReady: bool) {
    s.out == [] || outReady
  }

  predicate Consumes(s: Stripper, outReady: bool) {
    && s.state == STREAM && s.a.Some?
    && if Left(s) != 0 then !(Share(s) == Left(s) && |s.a.value.data| > Share(s))
       else s.t.drop || OutFree(s, outReady)
  }

  predicate InReady(s: Stripper, outReady: bool) {
    s.a.None? || Consumes(s, outReady)
  }

  /** Header bytes move over; the last of them latches the fields. */
  function TakeHeader(r: Stripper, data: Bytes, share: nat, missing: nat, merged: Bytes): Stripper
    requires share <= missing && |merged| + missing - share == HDR_BYTES
  {
    var r' := r.(hdr := merged, left := missing - share);
    if share < missing then r'
    else r'.(seqNo := Be64(merged, 10), count := Be16(merged, 18),
             off := if |data| > share then share else 0, state := DECIDE)
  }

  /** Registers other than stage A after one edge. */
  function Act(s: Stripper, outReady: bool): Stripper
    requires s.a.Some? ==> s.off <= |s.a.value.data|
    requires s.state == STREAM && s.a.Some? && Left(s) != 0 ==> |Merged(s)| + Left(s) - Share(s) == HDR_BYTES
  {
    var r := if outReady then s.(out := []) else s;
    match s.state
    case DECIDE => r.(t := Decide(s.t, s.seqNo, s.count), state := STREAM)
    case STREAM =>
      if s.a.None? then r
      else if Left(s) != 0 then
        TakeHeader(r, s.a.value.data, Share(s), Left(s), Merged(s))
      else if s.t.drop then r.(off := 0)
      else if OutFree(s, outReady) then r.(out := s.a.value.data[s.off..], off := 0)
      else r
  }

  function Accepted(s: Stripper, input: Option<Beat>, outReady: bool): Option<Beat> {
    if InReady(s, outReady) then input else None
  }

  /** One posedge; an accepted beat enters stage A, which otherwise empties when consumed. */
  function Next(s: Stripper, input: Option<Beat>, outReady: bool): Stripper
    requires s.a.Some? ==> s.off <= |s.a.value.data|
    requires s.state == STREAM && s.a.Some? && Left(s) != 0 ==> |Merged(s)| + Left(s) - Share(s) == HDR_BYTES
  {
    var r := Act(s, outReady);
    if Accepted(s, input, outReady).Some? then r.(a := input)
    else if Consumes(s, outReady) then r.(a := None)
    else r
  }

  /** Bytes handed downstream at this edge. */
  function Sent(s: Stripper, outReady: bool): Bytes {
    if outReady then s.out else []
  }

  // ---- meaning of a stream of beats --------------------------------------------------------------

  /** Header bytes so far and missing, tracking, and payload forwarded. */
  datatype Meaning = Meaning(left: nat, hdr: Bytes, t: Track, out: Bytes)

  const NOTHING: Meaning := Meaning(0, [], Track(false, 0, 0, 0, false, false), [])

  function Pay(m: Meaning, data: Bytes): Meaning {
    if m.t.drop then m else m.(out := m.out + data)
  }

  /** The header is complete: decide, and forget it. */
  function Complete(m: Meaning, hdr: Bytes): Meaning
    requires |hdr| == HDR_BYTES
  {
    Meaning(0, [], Decide(m.t, Be64(hdr, 10), Be16(hdr, 18)), m.out)
  }

  predicate Sound(m: Meaning) {
    m.left <= HDR_BYTES && (if m.left == 0 then m.hdr == [] else |m.hdr| + m.left == HDR_BYTES)
  }

  function Feed(m: Meaning, data: Bytes): (r: Meaning)
    requires Sound(m)
    ensures Sound(r)
  {
    if m.left == 0 then Pay(m, data)
    else if |data| < m.left then m.(left := m.left - |data|, hdr := m.hdr + data)
    else Pay(Complete(m, m.hdr + data[..m.left]), data[m.left..])
  }

  function Restart(m: Meaning): (r: Meaning)
    ensures Sound(r)
  {
    m.(left := HDR_BYTES, hdr := [])
  }

  function FeedBeat(m: Meaning, b: Beat): (r: Meaning)
    requires Sound(m)
    ensures Sound(r)
  {
    Feed(if b.sop then Restart(m) else m, b.data)
  }

  function FeedAll(m: Meaning, beats: seq<Beat>): (r: Meaning)
    requires Sound(m)
    ensures Sound(r)
    decreases |beats|
  {
    if beats == [] then m else FeedBeat(FeedAll(m, beats[..|beats| - 1]), beats[|beats| - 1])
  }

  // ---- refinement --------------------------------------------------------------------------------

  /** What the registers hold, before the registered beat. */
  function Base(s: Stripper, sent: Bytes): Meaning {
    Meaning(s.left, if s.left == 0 then [] else s.hdr, s.t, sent + s.out)
  }

  ghost predicate Inv(s: Stripper) {
    && |s.hdr| + s.left == HDR_BYTES
    && |s.out| <= WORD_BYTES && (s.a.Some? ==> BeatOk(s.a.value))
    && (s.state == DECIDE ==> s.left == 0)
    && (s.off > 0 ==> s.left == 0 && s.a.Some? && !s.a.value.sop && s.off < |s.a.value.data|)
  }

  /** The meaning once everything held has been worked off. */
  function Due(s: Stripper, sent: Bytes): Meaning
    requires Inv(s)
  {
    var m := Base(s, sent);
    var d := if s.state == DECIDE then m.(t := Decide(s.t, s.seqNo, s.count)) else m;
    if s.a.None? then d
    else if s.off > 0 then Pay(d, s.a.value.data[s.off..])
    else FeedBeat(d, s.a.value)
  }

  lemma ShapeHolds(s: Stripper)
    requires Inv(s)
    ensures s.a.Some? ==> s.off <= |s.a.value.data|
    ensures s.state == STREAM && s.a.Some? && Left(s) != 0 ==> |Merged(s)| + Left(s) - Share(s) == HDR_BYTES
  {}

  lemma KeepsInv(s: Stripper, input: Option<Beat>, outReady: bool)
    requires Inv(s) && (input.Some? ==> BeatOk(input.value))
    ensures s.a.Some? ==> s.off <= |s.a.value.data|
    ensures s.state == STREAM && s.a.Some? && Left(s) != 0 ==> |Merged(s)| + Left(s) - Share(s) == HDR_BYTES
    ensures Inv(Next(s, input, outReady))
  {
    ShapeHolds(s);
  }

  /** The deciding edge. */
  lemma DecideEdge(s: Stripper, sent: Bytes, outReady: bool)
    requires Inv(s) && s.state == DECIDE
    ensures Due(Next(s, None, outReady), sent + Sent(s, outReady)) == Due(s, sent)
  {
    hide Decide, Feed, Restart, Pay;
    Assoc(sent, [], s.out);
    Assoc(sent, s.out, []);
    Assoc(sent + s.out, [], []);
  }

  /** Header bytes move from the registered beat to the header. */
  lemma HeaderEdge(s: Stripper, sent: Bytes, outReady: bool)
    requires Inv(s) && s.state == STREAM && s.a.Some? && Left(s) != 0
    ensures Inv(Next(s, None, outReady)) && Due(Next(s, None, outReady), sent + Sent(s, outReady)) == Due(s, sent)
  {
    KeepsInv(s, None, outReady);
    hide Decide, Be64, Be16, Inv;
    HeaderFacts(s);
    var data := s.a.value.data;
    Assoc(sent, s.out, []);
    Assoc(sent, [], []);
    assert data[..|data|] == data;
    var d := Base(s, sent);
    var m := if s.a.value.sop then Restart(d) else d;
    assert Merged(s) == m.hdr + data[..Share(s)];
    if Share(s) == Left(s) {
      var e := Complete(m, Merged(s));
      Assoc(e.out, [], []);
      assert data[Share(s)..] == [] || |data| > Share(s);
    }
  }

  lemma HeaderFacts(s: Stripper)
    requires Inv(s) && s.state == STREAM && s.a.Some? && Left(s) != 0
    ensures s.left <= HDR_BYTES && (s.left > 0 ==> |s.hdr| + s.left == HDR_BYTES) && BeatOk(s.a.value) && s.off == 0
  {}

  /** Payload is forwarded, discarded, or waits for the output register. */
  lemma PayloadEdge(s: Stripper, sent: Bytes, outReady: bool)
    requires Inv(s) && s.state == STREAM && s.a.Some? && Left(s) == 0
    ensures Due(Next(s, None, outReady), sent + Sent(s, outReady)) == Due(s, sent)
  {
    hide Decide, Complete, Restart;
    var data := s.a.value.data;
    assert data[0..] == data;
    Assoc(sent, s.out, data[s.off..]);
    Assoc(sent, [], []);
    assert sent + [] + s.out == sent + s.out;
    assert sent + s.out + [] == sent + s.out;
  }

  /** An edge that takes no beat only works off what is held. */
  lemma WorkEdge(s: Stripper, sent: Bytes, outReady: bool)
    requires Inv(s)
    ensures Inv(Next(s, None, outReady)) && Due(Next(s, None, outReady), sent + Sent(s, outReady)) == Due(s, sent)
  {
    KeepsInv(s, None, outReady);
    if s.state == DECIDE {
      DecideEdge(s, sent, outReady);
    } else if s.a.None? {
      Assoc(sent, s.out, []);
      Assoc(sent, [], []);
    } else if Left(s) != 0 {
      HeaderEdge(s, sent, outReady);
    } else {
      PayloadEdge(s, sent, outReady);
    }
  }

  lemma AcceptEdge(s: Stripper, input: Option<Beat>, outReady: bool)
    requires Inv(s) && (input.Some? ==> BeatOk(input.value)) && Accepted(s, input, outReady).Some?
    ensures var n := Next(s, None, outReady);
      Next(s, input, outReady) == n.(a := input) && n.a.None? && n.off == 0
  {}

  /** Every edge works off part of what is held, or takes one beat: the meaning of everything
      received, forwarded bytes included, is never changed by how or when that happens. */
  lemma EveryEdge(s: Stripper, sent: Bytes, input: Option<Beat>, outReady: bool)
    requires Inv(s) && (input.Some? ==> BeatOk(input.value))
    ensures Inv(Next(s, input, outReady))
    ensures var b := Accepted(s, input, outReady);
      Due(Next(s, input, outReady), sent + Sent(s, outReady)) ==
        if b.Some? then FeedBeat(Due(s, sent), b.value) else Due(s, sent)
  {
    KeepsInv(s, input, outReady);
    WorkEdge(s, sent, outReady);
    hide FeedBeat, Decide, Sent;
    if Accepted(s, input, outReady).Some? {
      AcceptEdge(s, input, outReady);
      hide Next, Act, Accepted, Inv;
    } else {
      assert Next(s, input, outReady) == Next(s, None, outReady);
      hide Next, Act, Inv, Due;
    }
  }

  // ---- whole runs ------------------------------------------------------------------------------

  datatype Cycle = Cycle(input: Option<Beat>, outReady: bool)

  /** Registers, bytes handed downstream, and beats accepted. */
  datatype Run = Run(s: Stripper, sent: Bytes, beats: seq<Beat>)

  function Advanced(r: Run, c: Cycle): Run
    requires r.s.a.Some? ==> r.s.off <= |r.s.a.value.data|
    requires r.s.state == STREAM && r.s.a.Some? && Left(r.s) != 0 ==>
      |Merged(r.s)| + Left(r.s) - Share(r.s) == HDR_BYTES
  {
    var b := Accepted(r.s, c.input, c.outReady);
    Run(Next(r.s, c.input, c.outReady), r.sent + Sent(r.s, c.outReady),
      if b.Some? then r.beats + [b.value] else r.beats)
  }

  /** Everything forwarded and held is the meaning of the beats accepted. */
  ghost predicate Faithful(r: Run) {
    Inv(r.s) && Due(r.s, r.sent) == FeedAll(NOTHING, r.beats)
  }

  /** Kept by every cycle: whatever is offered, whether or not downstream is ready. */
  lemma EveryCycle(r: Run, c: Cycle)
    requires Faithful(r) && (c.input.Some? ==> BeatOk(c.input.value))
    ensures r.s.a.Some? ==> r.s.off <= |r.s.a.value.data|
    ensures r.s.state == STREAM && r.s.a.Some? && Left(r.s) != 0 ==> |Merged(r.s)| + Left(r.s) - Share(r.s) == HDR_BYTES
    ensures Faithful(Advanced(r, c))
  {
    EveryEdge(r.s, r.sent, c.input, c.outReady);
    ShapeHolds(r.s);
    hide Inv, Next, Due, Sent, FeedBeat;
    var b := Accepted(r.s, c.input, c.outReady);
    if b.Some? {
      var beats := r.beats + [b.value];
      assert beats[..|beats| - 1] == r.beats;
    }
  }

  lemma FromReset()
    ensures Faithful(Run(RESET, [], []))
  {}

  /** Any offers of beats, with any backpressure, cycle by cycle. */
  predicate Offers(cs: seq<Cycle>) {
    forall c :: c in cs && c.input.Some? ==> BeatOk(c.input.value)
  }

  /** The block after these cycles. */
  ghost function Ran(start: Run, cs: seq<Cycle>): Run {
    if cs == [] then start
    else
      var r := Ran(start, cs[..|cs| - 1]);
      if Inv(r.s) then Advanced(r, cs[|cs| - 1]) else r
  }

  lemma {:induction false} EveryRun(start: Run, cs: seq<Cycle>)
    requires Faithful(start) && Offers(cs)
    ensures Faithful(Ran(start, cs))
    decreases |cs|
  {
    hide Inv, Advanced, Due;
    if cs != [] {
      var n := |cs| - 1;
      EveryRun(start, cs[..n]);
      EveryCycle(Ran(start, cs[..n]), cs[n]);
    }
  }

  /** At any time, what went downstream begins the meaning of the beats accepted. */
  lemma SentBegins(r: Run)
    requires Faithful(r)
    ensures r.sent <= FeedAll(NOTHING, r.beats).out
  {
    var m := Base(r.s, r.sent);
    assert r.sent <= m.out;
    hide Decide, Be64, Be16;
  }

  /** Nothing is held any more. */
  predicate Drained(s: Stripper) {
    s.state == STREAM && s.a.None? && s.out == []
  }

  /** Once drained, what went downstream and the telemetry are those of the beats. */
  lemma DrainedMeans(r: Run)
    requires Faithful(r) && Drained(r.s)
    ensures r.sent == FeedAll(NOTHING, r.beats).out && r.s.t == FeedAll(NOTHING, r.beats).t
  {
    Assoc(r.sent, [], []);
  }

  /** Cycles a ready consumer needs to drain it. */
  function Work(s: Stripper): nat {
    (if s.a.None? then 0 else if Left(s) != 0 then 6 else 2) + (if s.state == DECIDE then 1 else 0)
    + if s.out == [] then 0 else 1
  }

  lemma Drains(s: Stripper)
    requires Inv(s) && !Drained(s)
    ensures s.a.Some? ==> s.off <= |s.a.value.data|
    ensures s.state == STREAM && s.a.Some? && Left(s) != 0 ==> |Merged(s)| + Left(s) - Share(s) == HDR_BYTES
    ensures Work(Next(s, None, true)) < Work(s)
  {
    ShapeHolds(s);
  }

  /** While downstream is not ready, it at least loses no ground. */
  lemma Holds(s: Stripper)
    requires Inv(s)
    ensures s.a.Some? ==> s.off <= |s.a.value.data|
    ensures s.state == STREAM && s.a.Some? && Left(s) != 0 ==> |Merged(s)| + Left(s) - Share(s) == HDR_BYTES
    ensures Work(Next(s, None, false)) <= Work(s)
    ensures Drained(s) ==> Next(s, None, true) == s
  {
    ShapeHolds(s);
  }

  // ---- datagrams ---------------------------------------------------------------------------------

  /** The beats of one datagram: its bytes in order, the first beat marked. */
  ghost predicate Carries(beats: seq<Beat>, datagram: Bytes)
    decreases |beats|
  {
    if |beats| == 1 then beats[0] == Beat(datagram, true)
    else
      && |beats| > 1 && var last := beats[|beats| - 1];
      && !last.sop && |last.data| <= |datagram|
      && last.data == datagram[|datagram| - |last.data|..]
      && Carries(beats[..|beats| - 1], datagram[..|datagram| - |last.data|])
  }

  /** Feeding bytes in two pieces or in one is the same. */
  lemma FeedJoin(m: Meaning, a: Bytes, b: Bytes)
    requires Sound(m)
    ensures Feed(Feed(m, a), b) == Feed(m, a + b)
  {
    hide Decide, Be64, Be16;
    if m.left == 0 {
      Assoc(m.out, a, b);
    } else if |a| < m.left {
      if |a + b| < m.left {
        Assoc(m.hdr, a, b);
      } else {
        var k := m.left - |a|;
        assert (a + b)[..m.left] == a + b[..k] && (a + b)[m.left..] == b[k..];
        Assoc(m.hdr, a, b[..k]);
      }
    } else {
      assert (a + b)[..m.left] == a[..m.left] && (a + b)[m.left..] == a[m.left..] + b;
      var c := Complete(m, m.hdr + a[..m.left]);
      Assoc(c.out, a[m.left..], b);
    }
  }

  lemma {:induction false} FeedAllJoin(m: Meaning, a: seq<Beat>, b: seq<Beat>)
    requires Sound(m)
    ensures FeedAll(m, a + b) == FeedAll(FeedAll(m, a), b)
    decreases |b|
  {
    hide FeedBeat;
    if b == [] {
      assert a + b == a;
    } else {
      var n := |b| - 1;
      FeedAllJoin(m, a, b[..n]);
      assert (a + b)[..|a| + n] == a + b[..n];
    }
  }

  /** More beats only forward more. */
  lemma {:induction false} FeedAllGrows(m: Meaning, a: seq<Beat>, b: seq<Beat>)
    requires Sound(m)
    ensures FeedAll(m, a).out <= FeedAll(m, a + b).out
    decreases |b|
  {
    if b == [] {
      assert a + b == a;
    } else {
      var n := |b| - 1;
      FeedAllGrows(m, a, b[..n]);
      assert (a + b)[..|a| + n] == a + b[..n];
      FeedGrows(FeedAll(m, a + b[..n]), b[n]);
      hide FeedBeat;
    }
  }

  lemma FeedGrows(m: Meaning, b: Beat)
    requires Sound(m)
    ensures m.out <= FeedBeat(m, b).out
  {
    hide Decide, Be64, Be16;
  }

  /** However a datagram is cut into beats. */
  lemma {:induction false} DatagramMeans(m: Meaning, beats: seq<Beat>, datagram: Bytes)
    requires Sound(m) && Carries(beats, datagram)
    ensures FeedAll(m, beats) == Feed(Restart(m), datagram)
    decreases |beats|
  {
    hide Feed, Restart;
    if |beats| == 1 {
      assert beats[..0] == [];
    } else {
      var last := beats[|beats| - 1];
      var k := |datagram| - |last.data|;
      DatagramMeans(m, beats[..|beats| - 1], datagram[..k]);
      FeedJoin(Restart(m), datagram[..k], last.data);
      assert datagram[..k] + last.data == datagram;
    }
  }

  // ---- the clocked block ----------------------------------------------------------------------------

  class MoldStripper {
    var state: State
    var a: Option<Beat>
    var left: nat
    var hdr: Bytes
    var off: nat
    var seqNo: u64
    var count: u16
    var t: Track
    var out: Bytes

    ghost predicate Sized()
      reads this
    {
      |hdr| == HDR_BYTES && left <= HDR_BYTES
    }

    function View(): Stripper
      requires Sized()
      reads this
    {
      Stripper(state, a, left, hdr[..HDR_BYTES - left], off, seqNo, count, t, out)
    }

    constructor ()
      ensures Sized() && View() == RESET
    {
      state, a, left, hdr, off, seqNo, count := STREAM, None, 0, seq(HDR_BYTES, _ => 0), 0, 0, 0;
      t, out := Track(false, 0, 0, 0, false, false), [];
    }

    /** The header buffer with the beat's bytes written behind those already there. */
    method Merge(data: Bytes, missing: nat, share: nat) returns (next: Bytes)
      requires Sized() && missing <= HDR_BYTES && share <= missing && share <= |data| && |data| <= WORD_BYTES
      ensures |next| == HDR_BYTES
      ensures next[..HDR_BYTES - missing + share] == hdr[..HDR_BYTES - missing] + data[..share]
    {
      next := hdr;
      var at := HDR_BYTES - missing;
      for i := 0 to WORD_BYTES
        invariant |next| == HDR_BYTES
        invariant forall j :: 0 <= j < HDR_BYTES ==>
          next[j] == if at <= j < at + i && j < at + share then data[j - at] else hdr[j]
      {
        if i < share && at + i < HDR_BYTES { next := next[at + i := data[i]]; }
      }
    }

    /** One posedge. */
    method Clock(input: Option<Beat>, outReady: bool)
      requires Sized() && Inv(View()) && (input.Some? ==> BeatOk(input.value))
      modifies this
      ensures old(View()).a.Some? ==> old(View()).off <= |old(View()).a.value.data|
      ensures var s := old(View());
        s.state == STREAM && s.a.Some? && Left(s) != 0 ==> |Merged(s)| + Left(s) - Share(s) == HDR_BYTES
      ensures Sized() && View() == Next(old(View()), input, outReady)
    {
      hide Decide, Be64, Be16, TakeHeader;
      ghost var s := View();
      ShapeHolds(s);
      var free := out == [] || outReady;
      var consume := false;
      if outReady { out := []; }
      match state {
        case DECIDE =>
          Policy();
          state := STREAM;
        case STREAM => if a.Some? {
          var data := a.value.data;
          var missing := if a.value.sop then HDR_BYTES else left;
          if missing != 0 {
            var share := Min(missing, |data|);
            consume := !(share == missing && |data| > share);
            Collect(data, missing, share, Merged(s));
          } else if t.drop {
            consume, off := true, 0;
          } else if free {
            consume, out, off := true, data[off..], 0;
          }
        }
      }
      if input.Some? && (a.None? || consume) { a := input; } else if consume { a := None; }
    }

    /** The header's next bytes are stored; the last of them latches its fields. */
    method Collect(data: Bytes, missing: nat, share: nat, ghost merged: Bytes)
      requires Sized() && missing <= HDR_BYTES && share <= missing && share <= |data| && |data| <= WORD_BYTES
      requires missing == left || missing == HDR_BYTES
      requires merged == hdr[..HDR_BYTES - missing] + data[..share]
      modifies this`hdr, this`left, this`seqNo, this`count, this`off, this`state
      ensures Sized() && View() == TakeHeader(old(View()), data, share, missing, merged)
    {
      hide Be64, Be16;
      hdr := Merge(data, missing, share);
      left := missing - share;
      assert hdr[..HDR_BYTES - left] == merged;
      if share == missing {
        assert hdr == merged;
        seqNo, count := Be64(hdr, 10), Be16(hdr, 18);
        off := if |data| > share then share else 0;
        state := DECIDE;
      }
    }

    /** The sequence policy, on the registered header fields. */
    method Policy()
      modifies this`t
      ensures t == Decide(old(t), seqNo, count)
    {
      if count == END_OF_SESSION {
        t := t.(sessionEnd := true, drop := true);
      } else if !t.seqInit {
        t := t.(seqInit := true, expected := Advance(seqNo, count), drop := false);
      } else if seqNo == t.expected {
        t := t.(expected := Advance(seqNo, count), drop := false);
      } else if seqNo > t.expected {
        t := t.(gapEvents := (t.gapEvents + 1) % WRAP32, gapMsgs := (t.gapMsgs + seqNo - t.expected) % WRAP64);
        t := t.(expected := Advance(seqNo, count), drop := false);
      } else {
        t := t.(drop := true);
      }
    }
  }
}
