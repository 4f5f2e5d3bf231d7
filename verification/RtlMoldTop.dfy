/** The whole ingest path on one clock: the MoldUDP64 stripper in front of framer, decoder and
    book, with the framer's readiness as the stripper's backpressure. */
module RtlMoldTop {
  import opened Itch
  import opened RtlSpec
  import opened Wire
  import opened MoldParser
  import S = MoldStripper
  import A = MoldAgreement
  import P = RtlPipeline
  import F = RtlFramer
  import B = RtlBookEngine
  import H = RtlBookTheorems

  /** Both blocks with what has gone through them so far. */
  datatype Top = Top(run: S.Run, x: P.Chip, log: F.Log, finished: seq<RtlMsg>)

  predicate Ready(y: Top) {
    F.InReady(y.x.front.f)
  }

  ghost predicate Shape(y: Top, p: B.Params) {
    S.Inv(y.run.s) && P.Shape(y.x, p)
  }

  /** One posedge: what the stripper holds out is the framer's input when the framer is ready. */
  ghost function Next(y: Top, p: B.Params, input: Option<S.Beat>): Top
    requires Shape(y, p)
  {
    var beat := S.Sent(y.run.s, Ready(y));
    Top(S.Advanced(y.run, S.Cycle(input, Ready(y))), P.Next(y.x, p, beat),
      F.LogNext(y.x.front, y.log, beat, P.Takes(y.x)), P.Finished(y.x.book, y.finished))
  }

  /** The book is on its way through what the parser outputs for the datagrams. */
  ghost predicate Inv(y: Top, p: B.Params, stream: Bytes, pin: Option<u32>) {
    && S.Faithful(y.run) && y.log.fed == y.run.sent
    && P.Inv(y.x, p, y.log, y.finished, stream, pin, 0)
  }

  lemma InvShape(y: Top, p: B.Params, stream: Bytes, pin: Option<u32>)
    requires Inv(y, p, stream, pin)
    ensures Shape(y, p)
  {
    hide P.P.Inv;
    P.P.InvShape(y.x.book, p, P.Replay(y.finished, y.x.book.r.base, p.window), 0);
    hide B.Shape;
  }

  /** Datagrams cut into beats, and the parser's output for them, which suits the book. */
  ghost predicate Plan(ds: seq<Bytes>, cuts: seq<seq<S.Beat>>, stream: Bytes, p: B.Params, pin: Option<u32>) {
    && A.Cut(cuts, ds) && (forall d :: d in ds ==> A.Exact(d))
    && stream == Walk(A.Joined(ds), 0, START).0 && P.Suits(stream, p, pin)
  }

  lemma HandedOver(y: Top, p: B.Params, input: Option<S.Beat>)
    requires Shape(y, p) && y.log.fed == y.run.sent
    ensures var y' := Next(y, p, input);
      y'.log.fed == y'.run.sent == y.log.fed + S.Sent(y.run.s, Ready(y))
    ensures |S.Sent(y.run.s, Ready(y))| <= F.WORD_BYTES
  {
    hide S.Next, P.Next, P.Shape, S.FeedAll;
  }

  /** Bytes handed over are a first part of the parser's output. */
  lemma SentInStream(r: S.Run, ds: seq<Bytes>, cuts: seq<seq<S.Beat>>, stream: Bytes, p: B.Params, pin: Option<u32>)
    requires S.Faithful(r) && Plan(ds, cuts, stream, p, pin) && r.beats <= A.Flat(cuts)
    ensures r.sent <= stream
    ensures r.beats == A.Flat(cuts) && S.Drained(r.s) ==> r.sent == stream
  {
    hide Walk, A.Exact, S.Carries, S.Faithful, A.FeedDatagrams, A.Joined, A.Flat, P.Suits;
    A.RunAgrees(r, cuts, ds);
  }

  /** Every edge, whatever beat is offered. */
  lemma EveryEdge(y: Top, p: B.Params, ds: seq<Bytes>, cuts: seq<seq<S.Beat>>, stream: Bytes, pin: Option<u32>,
    input: Option<S.Beat>)
    requires Plan(ds, cuts, stream, p, pin) && Inv(y, p, stream, pin) && (input.Some? ==> S.BeatOk(input.value))
    ensures Shape(y, p)
    ensures Next(y, p, input).run.beats <= A.Flat(cuts) ==>
      Next(y, p, input).x.book.tbl.fails > 0 || Inv(Next(y, p, input), p, stream, pin)
  {
    hide S.Faithful, S.Inv, P.Inv, P.Next, P.Shape, S.Advanced, S.Sent, F.LogNext, Plan;
    InvShape(y, p, stream, pin);
    var beat := S.Sent(y.run.s, Ready(y));
    var y' := Next(y, p, input);
    S.EveryCycle(y.run, S.Cycle(input, Ready(y)));
    HandedOver(y, p, input);
    if y'.run.beats <= A.Flat(cuts) {
      SentInStream(y'.run, ds, cuts, stream, p, pin);
      PlanSuits(ds, cuts, stream, p, pin);
      P.EveryEdge(y.x, p, y.log, y.finished, stream, pin, 0, beat);
    }
  }

  lemma PlanSuits(ds: seq<Bytes>, cuts: seq<seq<S.Beat>>, stream: Bytes, p: B.Params, pin: Option<u32>)
    requires Plan(ds, cuts, stream, p, pin)
    ensures P.Suits(stream, p, pin)
  {}

  predicate AtRest(y: Top) {
    S.Drained(y.run.s) && P.AtRest(y.x)
  }

  /** At rest, with all datagrams in, the outputs show the banded book of the messages the
      parser outputs for them. */
  lemma RestShows(y: Top, p: B.Params, ds: seq<Bytes>, cuts: seq<seq<S.Beat>>, stream: Bytes, pin: Option<u32>)
    requires Plan(ds, cuts, stream, p, pin) && Inv(y, p, stream, pin) && AtRest(y) && y.run.beats == A.Flat(cuts)
    ensures var all := Messages(Frames(stream));
      var os := P.Replay(all, P.BandBase(all, p, pin), p.window);
      && H.Shows(y.x.book, p, os) && H.T.Holds(y.x.book.tbl.mem, os)
  {
    hide S.Faithful, P.Inv, P.Shape, P.AtRest, H.Shows, H.T.Holds, P.Replay, Plan;
    SentInStream(y.run, ds, cuts, stream, p, pin);
    P.RestShows(y.x, p, y.log, y.finished, stream, pin, 0);
  }

  /** Without input everything comes to rest: the stripper drains whenever the framer is ready,
      and while it is not, the chip behind it moves on. */
  lemma ComesToRest(y: Top, p: B.Params, stream: Bytes, pin: Option<u32>)
    requires Inv(y, p, stream, pin) && !AtRest(y)
    ensures Shape(y, p)
    ensures var y' := Next(y, p, None);
      || y'.x.book.tbl.fails > 0 || S.Work(y'.run.s) < S.Work(y.run.s)
      || (S.Work(y'.run.s) == S.Work(y.run.s) && P.Below(P.Work(y'.x, p), P.Work(y.x, p)))
  {
    hide P.Inv, P.Shape, P.Work, P.Next, P.Below, F.LogNext, S.Next, S.Work, F.InReady, S.FeedAll, S.Due, S.Inv;
    InvShape(y, p, stream, pin);
    S.Holds(y.run.s);
    if Ready(y) && !S.Drained(y.run.s) {
      S.Drains(y.run.s);
    } else {
      RestIsReady(y, p, stream, pin);
      P.ComesToRest(y.x, p, y.log, y.finished, stream, pin, 0);
    }
  }

  lemma RestIsReady(y: Top, p: B.Params, stream: Bytes, pin: Option<u32>)
    requires Inv(y, p, stream, pin)
    ensures P.AtRest(y.x) ==> Ready(y)
  {
    if P.AtRest(y.x) { F.StuckMeansDone(y.x.front, y.log); }
  }

  // ---- whole runs ---------------------------------------------------------------------------------

  /** The path after these offers of beats, cycle by cycle. */
  ghost function Ran(start: Top, p: B.Params, inputs: seq<Option<S.Beat>>): Top {
    if inputs == [] then start
    else
      var y := Ran(start, p, inputs[..|inputs| - 1]);
      if Shape(y, p) then Next(y, p, inputs[|inputs| - 1]) else y
  }

  lemma Grows(y: Top, p: B.Params, input: Option<S.Beat>)
    requires Shape(y, p)
    ensures y.run.beats <= Next(y, p, input).run.beats
    ensures Next(y, p, input).x.book.tbl.fails >= y.x.book.tbl.fails
  {
    hide S.Next, B.Shape, B.Next, F.Next;
    H.FailsOnlyGrow(y.x.book, p, P.Offered(y.x));
  }

  /** From any good state, whatever the cut of the datagrams into beats and whenever they come:
      the book is on its way through the parser's output, unless an insertion failed. */
  lemma {:induction false} EveryRun(start: Top, p: B.Params, ds: seq<Bytes>, cuts: seq<seq<S.Beat>>, stream: Bytes,
    pin: Option<u32>, inputs: seq<Option<S.Beat>>)
    requires Plan(ds, cuts, stream, p, pin) && Inv(start, p, stream, pin)
    requires forall i :: 0 <= i < |inputs| && inputs[i].Some? ==> S.BeatOk(inputs[i].value)
    requires Ran(start, p, inputs).run.beats <= A.Flat(cuts)
    ensures var y := Ran(start, p, inputs);
      y.x.book.tbl.fails > 0 || Inv(y, p, stream, pin)
    decreases |inputs|
  {
    hide Plan, Inv, Next, Shape, A.Flat;
    if inputs != [] {
      var n := |inputs| - 1;
      var y := Ran(start, p, inputs[..n]);
      if Shape(y, p) { Grows(y, p, inputs[n]); }
      EveryRun(start, p, ds, cuts, stream, pin, inputs[..n]);
      if y.x.book.tbl.fails == 0 { EveryEdge(y, p, ds, cuts, stream, pin, inputs[n]); }
    }
  }

  /** From reset, once all datagrams are in and everything rests, the book outputs are those of
      the messages the software parser outputs for the same datagrams. */
  lemma DatagramsToBook(x: P.Chip, p: B.Params, ds: seq<Bytes>, cuts: seq<seq<S.Beat>>, pin: Option<u32>,
    inputs: seq<Option<S.Beat>>)
    requires var stream := Walk(A.Joined(ds), 0, START).0;
      Plan(ds, cuts, stream, p, pin) && P.Inv(x, p, F.Log([], [], [], []), [], stream, pin, 0)
    requires forall i :: 0 <= i < |inputs| && inputs[i].Some? ==> S.BeatOk(inputs[i].value)
    requires var y := Ran(Top(S.Run(S.RESET, [], []), x, F.Log([], [], [], []), []), p, inputs);
      y.run.beats == A.Flat(cuts) && AtRest(y)
    ensures var b := Ran(Top(S.Run(S.RESET, [], []), x, F.Log([], [], [], []), []), p, inputs).x.book;
      var all := Messages(Frames(Walk(A.Joined(ds), 0, START).0));
      var os := P.Replay(all, P.BandBase(all, p, pin), p.window);
      b.tbl.fails > 0 || (H.Shows(b, p, os) && H.T.Holds(b.tbl.mem, os))
  {
    hide Plan, P.Inv, Ran, AtRest, Walk, A.Joined, A.Flat, H.Shows, H.T.Holds, P.Replay, S.Faithful, Messages, Frames;
    var stream := Walk(A.Joined(ds), 0, START).0;
    var start := Top(S.Run(S.RESET, [], []), x, F.Log([], [], [], []), []);
    S.FromReset();
    EveryRun(start, p, ds, cuts, stream, pin, inputs);
    var y := Ran(start, p, inputs);
    if y.x.book.tbl.fails == 0 { RestShows(y, p, ds, cuts, stream, pin); }
  }
}
