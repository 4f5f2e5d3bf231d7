/** The hardware stripper and the software parser recover the same messages and count the
    same losses from the same datagrams. */
module MoldAgreement {
  import opened Itch
  import opened Wire
  import opened MoldParser
  import S = MoldStripper

  function Joined(ds: seq<Bytes>): Bytes {
    if ds == [] then [] else ds[0] + Joined(ds[1..])
  }

  predicate HasHeader(d: Bytes) {
    |d| >= HDR_BYTES
  }

  /** A datagram that holds exactly the blocks its header announces. */
  predicate Exact(d: Bytes) {
    && HasHeader(d) && Be16(d, 18) != END_OF_SESSION
    && TakeBlocks(d, HDR_BYTES, Be16(d, 18)) == Blocks(|d|, Be16(d, 18), true)
  }

  predicate EndsSession(d: Bytes) {
    HasHeader(d) && Be16(d, 18) == END_OF_SESSION
  }

  /** The stripper's meaning of whole datagrams, however each was cut into beats. */
  function FeedDatagrams(m: S.Meaning, ds: seq<Bytes>): (r: S.Meaning)
    requires S.Sound(m)
    ensures S.Sound(r)
    decreases |ds|
  {
    if ds == [] then m else FeedDatagrams(S.Feed(S.Restart(m), ds[0]), ds[1..])
  }

  /** Same expected number and losses; the hardware event counter is 32 bits wide. */
  predicate Agree(t: S.Track, st: MoldStats) {
    && t.seqInit == st.seqInit && t.expected == st.nextSeq && t.gapMsgs == st.gapMsgs
    && t.gapEvents == st.gapEvents % WRAP32 && t.sessionEnd == st.sessionEnd
  }

  // ---- one datagram -------------------------------------------------------------------------------

  lemma SliceAt(data: Bytes, o: nat, d: Bytes, i: nat)
    requires o + |d| <= |data| && data[o..o + |d|] == d && i < |d|
    ensures data[o + i] == d[i]
  {
    assert data[o..o + |d|][i] == d[i];
  }

  lemma SameFields(data: Bytes, o: nat, d: Bytes, k: nat)
    requires o + |d| <= |data| && data[o..o + |d|] == d
    ensures k + 2 <= |d| ==> Be16(data, o + k) == Be16(d, k)
    ensures k + 8 <= |d| ==> Be64(data, o + k) == Be64(d, k)
  {
    forall i | 0 <= i < |d| ensures data[o + i] == d[i] { SliceAt(data, o, d, i); }
  }

  lemma {:induction false} SameBlocks(data: Bytes, o: nat, d: Bytes, k: nat, n: nat)
    requires o + |d| <= |data| && data[o..o + |d|] == d && k <= |d| && TakeBlocks(d, k, n).whole
    ensures var b := TakeBlocks(d, k, n);
      TakeBlocks(data, o + k, n) == b.(end := o + b.end)
    decreases n
  {
    if n > 0 {
      SameFields(data, o, d, k);
      SameBlocks(data, o, d, k + 2 + Be16(d, k), n - 1);
    }
  }

  lemma StripOne(m: S.Meaning, d: Bytes)
    requires HasHeader(d)
    ensures S.Feed(S.Restart(m), d) ==
      S.Pay(S.Meaning(0, [], S.Decide(m.t, Be64(d, 10), Be16(d, 18)), m.out), d[HDR_BYTES..])
  {
    var hdr := [] + d[..HDR_BYTES];
    assert hdr == d[..HDR_BYTES];
    SameFields(hdr + d[HDR_BYTES..], 0, hdr, 10);
    assert d == hdr + d[HDR_BYTES..];
    assert Be64(hdr, 10) == Be64(d, 10) && Be16(hdr, 18) == Be16(d, 18);
  }

  /** Both decide alike on a header, and agree again after the datagram. */
  lemma DecideAlike(t: S.Track, st: MoldStats, seqNo: u64, count: u16)
    requires Agree(t, st) && count != END_OF_SESSION
    ensures Agree(S.Decide(t, seqNo, count), Close(Counted(st, seqNo, count), seqNo, count, Stale(st, seqNo)))
    ensures S.Decide(t, seqNo, count).drop == Stale(st, seqNo)
  {}

  /** The parser's walk over one exact datagram. */
  lemma WalkFirst(data: Bytes, o: nat, d: Bytes, st: MoldStats)
    requires o + |d| <= |data| && data[o..o + |d|] == d && Exact(d)
    ensures var seqNo, count := Be64(d, 10), Be16(d, 18);
      var st' := Close(Counted(st, seqNo, count), seqNo, count, Stale(st, seqNo));
      var w := Walk(data, o + |d|, st');
      Walk(data, o, st) == ((if Stale(st, seqNo) then [] else d[HDR_BYTES..]) + w.0, w.1)
  {
    hide Close, Counted, Be64, Be16, Stale;
    SameFields(data, o, d, 10);
    SameFields(data, o, d, 18);
    SameBlocks(data, o, d, HDR_BYTES, Be16(d, 18));
    assert data[o + HDR_BYTES..o + |d|] == data[o..o + |d|][HDR_BYTES..];
    hide TakeBlocks;
  }

  lemma WalkOne(data: Bytes, o: nat, d: Bytes, st: MoldStats, m: S.Meaning) returns (x: Bytes, st': MoldStats)
    requires o + |d| <= |data| && data[o..o + |d|] == d && Exact(d) && Agree(m.t, st)
    ensures var w := Walk(data, o + |d|, st');
      Walk(data, o, st) == (x + w.0, w.1)
    ensures var r := S.Feed(S.Restart(m), d);
      r.out == m.out + x && Agree(r.t, st') && st'.truncated == st.truncated
  {
    hide Walk, Close, Counted, Be64, Be16, TakeBlocks, S.Decide, S.Feed, S.Restart, Agree, Stale;
    var seqNo, count := Be64(d, 10), Be16(d, 18);
    WalkFirst(data, o, d, st);
    DecideAlike(m.t, st, seqNo, count);
    StripOne(m, d);
    StillWhole(st, seqNo, count);
    st' := Close(Counted(st, seqNo, count), seqNo, count, Stale(st, seqNo));
    x := if Stale(st, seqNo) then [] else d[HDR_BYTES..];
    assert m.out + [] == m.out;
  }

  lemma StillWhole(st: MoldStats, seqNo: u64, count: u16)
    ensures Close(Counted(st, seqNo, count), seqNo, count, Stale(st, seqNo)).truncated == st.truncated
  {}

  // ---- whole streams --------------------------------------------------------------------------------

  lemma {:induction false} WalkDatagrams(data: Bytes, o: nat, ds: seq<Bytes>, st: MoldStats, m: S.Meaning)
    returns (x: Bytes, st': MoldStats)
    requires o + |Joined(ds)| <= |data| && data[o..o + |Joined(ds)|] == Joined(ds)
    requires (forall d :: d in ds ==> Exact(d)) && Agree(m.t, st) && S.Sound(m)
    ensures var w := Walk(data, o + |Joined(ds)|, st');
      Walk(data, o, st) == (x + w.0, w.1)
    ensures var r := FeedDatagrams(m, ds);
      r.out == m.out + x && Agree(r.t, st') && st'.truncated == st.truncated
    decreases |ds|
  {
    hide Walk, Agree, Exact, S.Feed, S.Restart;
    if ds == [] {
      x, st' := [], st;
      assert m.out + [] == m.out;
      assert [] + Walk(data, o, st).0 == Walk(data, o, st).0;
    } else {
      var d, rest := ds[0], Joined(ds[1..]);
      assert Joined(ds) == d + rest;
      assert data[o..o + |d|] == data[o..o + |d + rest|][..|d|] == d;
      assert data[o + |d|..o + |d| + |rest|] == data[o..o + |d + rest|][|d|..] == rest;
      var x1, st1 := WalkOne(data, o, d, st, m);
      var m1 := S.Feed(S.Restart(m), d);
      var x2;
      x2, st' := WalkDatagrams(data, o + |d|, ds[1..], st1, m1);
      x := x1 + x2;
      Assoc(m.out, x1, x2);
      Assoc(x1, x2, Walk(data, o + |d| + |rest|, st').0);
    }
  }

  /** Datagrams fed to the stripper's meaning and to the parser. */
  lemma FoldAgrees(ds: seq<Bytes>)
    requires forall d :: d in ds ==> Exact(d)
    ensures var (out, st) := Walk(Joined(ds), 0, START);
      var r := FeedDatagrams(S.NOTHING, ds);
      r.out == out && Agree(r.t, st) && !st.truncated
  {
    var data := Joined(ds);
    assert data[0..0 + |data|] == data;
    var x, st := WalkDatagrams(data, 0, ds, START, S.NOTHING);
    assert x + [] == x && [] + x == x;
  }

  lemma FoldEnds(ds: seq<Bytes>, last: Bytes)
    requires (forall d :: d in ds ==> Exact(d)) && EndsSession(last)
    ensures var (out, st) := Walk(Joined(ds) + last, 0, START);
      var r := S.Feed(S.Restart(FeedDatagrams(S.NOTHING, ds)), last);
      r.out == out && Agree(r.t, st) && st.sessionEnd
  {
    var data := Joined(ds) + last;
    var o := |Joined(ds)|;
    assert data[0..0 + o] == Joined(ds) && data[o..o + |last|] == last;
    var x, st := WalkDatagrams(data, 0, ds, START, S.NOTHING);
    SameFields(data, o, last, 10);
    SameFields(data, o, last, 18);
    StripOne(FeedDatagrams(S.NOTHING, ds), last);
    hide FeedDatagrams, Joined, TakeBlocks, Exact, S.Feed, Be16, Be64;
    assert x + [] == x && [] + x == x;
  }

  // ---- runs of the stripper ---------------------------------------------------------------------------

  /** The beats of several datagrams, one datagram after the other. */
  function Flat(cuts: seq<seq<S.Beat>>): seq<S.Beat> {
    if cuts == [] then [] else cuts[0] + Flat(cuts[1..])
  }

  /** Each datagram cut into beats of its own. */
  ghost predicate Cut(cuts: seq<seq<S.Beat>>, ds: seq<Bytes>) {
    |cuts| == |ds| && forall i :: 0 <= i < |ds| ==> S.Carries(cuts[i], ds[i])
  }

  lemma {:induction false} FlatMeans(m: S.Meaning, cuts: seq<seq<S.Beat>>, ds: seq<Bytes>)
    requires S.Sound(m) && Cut(cuts, ds)
    ensures S.FeedAll(m, Flat(cuts)) == FeedDatagrams(m, ds)
    decreases |ds|
  {
    hide S.Feed, S.Restart, S.Carries;
    if ds != [] {
      S.DatagramMeans(m, cuts[0], ds[0]);
      FlatMeans(S.Feed(S.Restart(m), ds[0]), cuts[1..], ds[1..]);
      S.FeedAllJoin(m, cuts[0], Flat(cuts[1..]));
    }
  }

  lemma {:induction false} FeedDatagramsSnoc(m: S.Meaning, ds: seq<Bytes>, last: Bytes)
    requires S.Sound(m)
    ensures FeedDatagrams(m, ds + [last]) == S.Feed(S.Restart(FeedDatagrams(m, ds)), last)
    decreases |ds|
  {
    hide S.Feed, S.Restart;
    if ds == [] {
      assert ([] + [last])[1..] == [];
      assert FeedDatagrams(S.Feed(S.Restart(m), last), []) == S.Feed(S.Restart(m), last);
    } else {
      assert (ds + [last])[1..] == ds[1..] + [last];
      FeedDatagramsSnoc(S.Feed(S.Restart(m), ds[0]), ds[1..], last);
    }
  }

  lemma RunAgrees(r: S.Run, cuts: seq<seq<S.Beat>>, ds: seq<Bytes>)
    requires S.Faithful(r) && Cut(cuts, ds) && (forall d :: d in ds ==> Exact(d)) && r.beats <= Flat(cuts)
    ensures var (out, st) := Walk(Joined(ds), 0, START);
      && r.sent <= out && !st.truncated
      && (r.beats == Flat(cuts) && S.Drained(r.s) ==> r.sent == out && Agree(r.s.t, st))
  {
    hide Walk, Agree, Exact, S.Carries, S.Faithful, FeedDatagrams, Joined, Flat;
    FoldAgrees(ds);
    FlatMeans(S.NOTHING, cuts, ds);
    S.SentBegins(r);
    S.FeedAllGrows(S.NOTHING, r.beats, Flat(cuts)[|r.beats|..]);
    assert r.beats + Flat(cuts)[|r.beats|..] == Flat(cuts);
    if S.Drained(r.s) { S.DrainedMeans(r); }
  }

  /** For every run from reset, whatever the cut of the datagrams into beats, whenever beats are
      offered and whenever downstream is ready: at any time the stripper has forwarded a first
      part of what the parser outputs, and once all beats are in and nothing is held exactly
      that, with the same expected number, gap events and lost messages. */
  lemma SameMessages(reset: S.Run, cs: seq<S.Cycle>, cuts: seq<seq<S.Beat>>, ds: seq<Bytes>)
    requires reset == S.Run(S.RESET, [], []) && S.Offers(cs) && Cut(cuts, ds) && forall d :: d in ds ==> Exact(d)
    requires S.Ran(reset, cs).beats <= Flat(cuts)
    ensures var (out, st) := Walk(Joined(ds), 0, START);
      var r := S.Ran(reset, cs);
      && r.sent <= out && !st.truncated
      && (r.beats == Flat(cuts) && S.Drained(r.s) ==> r.sent == out && Agree(r.s.t, st))
  {
    hide S.Ran, Walk, Agree, Exact, S.Carries, S.Faithful, Joined, Flat;
    S.FromReset();
    S.EveryRun(reset, cs);
    RunAgrees(S.Ran(reset, cs), cuts, ds);
  }

  /** The same with an end-of-session packet last: neither forwards its payload, both raise
      the flag. */
  lemma SameEnd(reset: S.Run, cs: seq<S.Cycle>, cuts: seq<seq<S.Beat>>, ds: seq<Bytes>, last: Bytes)
    requires reset == S.Run(S.RESET, [], []) && S.Offers(cs) && Cut(cuts, ds + [last])
    requires (forall d :: d in ds ==> Exact(d)) && EndsSession(last)
    requires S.Ran(reset, cs).beats == Flat(cuts) && S.Drained(S.Ran(reset, cs).s)
    ensures var (out, st) := Walk(Joined(ds) + last, 0, START);
      var r := S.Ran(reset, cs);
      r.sent == out && Agree(r.s.t, st) && r.s.t.sessionEnd
  {
    hide S.Ran, Walk, Exact, S.Carries, S.Faithful, FeedDatagrams, Joined, Flat, S.Feed, S.Restart;
    S.FromReset();
    S.EveryRun(reset, cs);
    FoldEnds(ds, last);
    FlatMeans(S.NOTHING, cuts, ds + [last]);
    FeedDatagramsSnoc(S.NOTHING, ds, last);
    S.DrainedMeans(S.Ran(reset, cs));
  }
}
