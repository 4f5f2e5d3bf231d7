/** What the packet statistics count: the fate of every packet of a stream, told without the
    statistics, and the counters as sums over fates. */
module MoldCounts {
  import opened Itch
  import opened Wire
  import opened MoldParser
  import Modulo

  /** A packet is applied, skipped as stale, cut short by the end of its blocks, or ends the
      session. `ahead` is how far its sequence number lay beyond the expected one. */
  datatype Fate =
    | Applied(count: nat, bytes: Bytes, ahead: nat)
    | Skipped(count: nat)
    | Cut(count: nat, bytes: Bytes, ahead: nat)
    | Over

  /** How far a sequence number lies ahead of the expected one. */
  function Ahead(next: Option<u64>, seqNo: u64): nat {
    if next.Some? && seqNo > next.value then seqNo - next.value else 0
  }

  /** The fates of the packets from offset o on, when `next` is expected. */
  function Fates(data: Bytes, o: nat, next: Option<u64>): seq<Fate>
    requires o <= |data|
    decreases |data| - o
  {
    if o + HDR_BYTES > |data| then []
    else
      var seqNo, count, start := Be64(data, o + 10), Be16(data, o + 18), o + HDR_BYTES;
      var b := TakeBlocks(data, start, count);
      if count == 0xFFFF then [Over]
      else if next.Some? && seqNo < next.value then
        if b.whole then [Skipped(count)] + Fates(data, b.end, next) else [Cut(0, [], 0)]
      else if b.whole then
        [Applied(count, data[start..b.end], Ahead(next, seqNo))] + Fates(data, b.end, Some(Advance(seqNo, count)))
      else [Cut(b.count, data[start..b.end], Ahead(next, seqNo))]
  }

  function Output(f: Fate): Bytes {
    if f.Applied? || f.Cut? then f.bytes else []
  }

  function AllBytes(fs: seq<Fate>): Bytes {
    if fs == [] then [] else Output(fs[0]) + AllBytes(fs[1..])
  }

  /** How many packets of each fate, and how many messages they hold or skip over. */
  datatype Tally = Tally(
    applied: nat, skipped: nat, cut: nat, over: nat, messages: nat, empty: nat, gaps: nat, missed: nat)

  function TallyOf(f: Fate): Tally {
    match f
    case Applied(n, _, ahead) =>
      Tally(1, 0, 0, 0, n, if n == 0 then 1 else 0, if ahead > 0 then 1 else 0, ahead)
    case Skipped(n) => Tally(0, 1, 0, 0, 0, if n == 0 then 1 else 0, 0, 0)
    case Cut(n, _, ahead) => Tally(0, 0, 1, 0, n, 0, if ahead > 0 then 1 else 0, ahead)
    case Over => Tally(0, 0, 0, 1, 0, 0, 0, 0)
  }

  function Plus(a: Tally, b: Tally): Tally {
    Tally(a.applied + b.applied, a.skipped + b.skipped, a.cut + b.cut, a.over + b.over, a.messages + b.messages,
      a.empty + b.empty, a.gaps + b.gaps, a.missed + b.missed)
  }

  function TallyAll(fs: seq<Fate>): Tally {
    if fs == [] then Tally(0, 0, 0, 0, 0, 0, 0, 0) else Plus(TallyOf(fs[0]), TallyAll(fs[1..]))
  }

  lemma Cons(f: Fate, fs: seq<Fate>)
    ensures AllBytes([f] + fs) == Output(f) + AllBytes(fs) && TallyAll([f] + fs) == Plus(TallyOf(f), TallyAll(fs))
  {
    assert ([f] + fs)[1..] == fs;
  }

  /** The counters against the tally of what happened since. */
  ghost predicate Counts(a: Tally, st: MoldStats, last: MoldStats) {
    && last.packets == st.packets + a.applied + a.skipped + a.cut + a.over
    && last.messages == st.messages + a.messages && last.stalePackets == st.stalePackets + a.skipped
    && last.heartbeats == st.heartbeats + a.empty && last.gapEvents == st.gapEvents + a.gaps
    && last.gapMsgs == (st.gapMsgs + a.missed) % WRAP64
    && (last.truncated <==> st.truncated || a.cut > 0) && (last.sessionEnd <==> st.sessionEnd || a.over > 0)
    && a.cut + a.over <= 1
  }

  function Expected(st: MoldStats): Option<u64> {
    if st.seqInit then Some(st.nextSeq) else None
  }

  // ---- one packet -------------------------------------------------------------------------------------

  /** A packet whose blocks are all there. */
  lemma WholeCounts(st: MoldStats, seqNo: u64, count: u16, bytes: Bytes)
    requires st.gapMsgs < WRAP64
    ensures var stale := Stale(st, seqNo);
      var f := if stale then Skipped(count) else Applied(count, bytes, Ahead(Expected(st), seqNo));
      var mid := Close(Counted(st, seqNo, count), seqNo, count, stale);
      && Counts(TallyOf(f), st, mid) && mid.gapMsgs < WRAP64
      && Expected(mid) == if stale then Expected(st) else Some(Advance(seqNo, count))
  {}

  /** A packet cut short contributes its whole blocks, unless it is stale. */
  lemma CutCounts(st: MoldStats, seqNo: u64, n: nat, bytes: Bytes)
    requires st.gapMsgs < WRAP64
    ensures var f := if Stale(st, seqNo) then Cut(0, [], 0) else Cut(n, bytes, Ahead(Expected(st), seqNo));
      Counts(TallyOf(f), st, Counted(st, seqNo, n).(truncated := true))
  {}

  lemma ModAdd(x: nat, y: nat, n: nat)
    requires n > 0
    ensures (x % n + y) % n == (x + y) % n
  {
    var q, r := (x % n + y) / n, (x % n + y) % n;
    assert x == n * (x / n) + x % n;
    assert x + y == n * (x / n) + (n * q + r);
    assert n * (x / n + q) == n * (x / n) + n * q;
    Modulo.ModOf(n, x / n + q, r);
  }

  lemma Together(a: Tally, b: Tally, st: MoldStats, mid: MoldStats, last: MoldStats)
    requires Counts(a, st, mid) && Counts(b, mid, last) && a.cut + a.over == 0
    ensures Counts(Plus(a, b), st, last)
  {
    ModAdd(st.gapMsgs + a.missed, b.missed, WRAP64);
  }

  // ---- whole streams ----------------------------------------------------------------------------------

  lemma {:induction false} WalkCounts(data: Bytes, o: nat, st: MoldStats)
    requires o <= |data| && st.gapMsgs < WRAP64
    ensures var (out, last) := Walk(data, o, st);
      var fs := Fates(data, o, Expected(st));
      out == AllBytes(fs) && Counts(TallyAll(fs), st, last)
    decreases |data| - o
  {
    hide Be16, Be64, TakeBlocks, Close, Counted, Advance, Counts, Plus, TallyOf, TallyAll, AllBytes;
    if o + HDR_BYTES <= |data| {
      var seqNo, count, start := Be64(data, o + 10), Be16(data, o + 18), o + HDR_BYTES;
      if count == END_OF_SESSION {
        Alone(Over);
        OverCounts(st);
      } else {
        var b, stale := TakeBlocks(data, start, count), Stale(st, seqNo);
        var bytes := data[start..b.end];
        if b.whole {
          var f := if stale then Skipped(count) else Applied(count, bytes, Ahead(Expected(st), seqNo));
          var mid := Close(Counted(st, seqNo, count), seqNo, count, stale);
          WholeCounts(st, seqNo, count, bytes);
          WalkCounts(data, b.end, mid);
          var fs := Fates(data, b.end, Expected(mid));
          Cons(f, fs);
          NotLast(f);
          Together(TallyOf(f), TallyAll(fs), st, mid, Walk(data, b.end, mid).1);
        } else {
          Alone(if stale then Cut(0, [], 0) else Cut(b.count, bytes, Ahead(Expected(st), seqNo)));
          CutCounts(st, seqNo, b.count, bytes);
        }
      }
    } else {
      NothingCounts(st);
    }
  }

  lemma NothingCounts(st: MoldStats)
    requires st.gapMsgs < WRAP64
    ensures AllBytes([]) == [] && Counts(TallyAll([]), st, st)
  {}

  lemma OverCounts(st: MoldStats)
    requires st.gapMsgs < WRAP64
    ensures Counts(TallyOf(Over), st, st.(packets := st.packets + 1, sessionEnd := true))
  {}

  lemma NotLast(f: Fate)
    ensures f.Applied? || f.Skipped? ==> TallyOf(f).cut + TallyOf(f).over == 0
  {}

  lemma Alone(f: Fate)
    ensures AllBytes([f]) == Output(f) && TallyAll([f]) == TallyOf(f)
  {
    assert [f][1..] == [] && Output(f) + [] == Output(f);
  }

  // ---- blocks -------------------------------------------------------------------------------------------

  /** The bytes are exactly n whole blocks. */
  predicate BlocksOf(bytes: Bytes, n: nat) {
    TakeBlocks(bytes, 0, n) == Blocks(|bytes|, n, true)
  }

  /** Blocks taken from a stream are the same blocks when cut out of it, whatever follows. */
  lemma {:induction false} SameBlocks(data: Bytes, o: nat, n: nat, part: Bytes, k: nat)
    requires o <= |data| && k <= |part| && TakeBlocks(data, o, n).end - o <= |part| - k
    requires var len := TakeBlocks(data, o, n).end - o; part[k..k + len] == data[o..o + len]
    ensures var b := TakeBlocks(data, o, n);
      TakeBlocks(part, k, b.count) == Blocks(k + b.end - o, b.count, true)
    decreases n
  {
    if n > 0 && BlockAt(data, o) {
      var b, len := TakeBlocks(data, o, n), TakeBlocks(data, o, n).end - o;
      assert part[k] == part[k..k + len][0] == data[o..o + len][0] == data[o];
      assert part[k + 1] == part[k..k + len][1] == data[o..o + len][1] == data[o + 1];
      assert Be16(part, k) == Be16(data, o);
      var o', k' := o + 2 + Be16(data, o), k + 2 + Be16(data, o);
      assert part[k'..k' + b.end - o'] == part[k..k + len][k' - k..] && data[o'..b.end] == data[o..o + len][o' - o..];
      SameBlocks(data, o', n - 1, part, k');
    }
  }

  lemma {:induction false} BlocksJoin(s: Bytes, o: nat, n: nat, m: nat)
    requires o <= |s| && TakeBlocks(s, o, n).whole
    ensures TakeBlocks(s, o, n + m) == var b := TakeBlocks(s, TakeBlocks(s, o, n).end, m); b.(count := n + b.count)
    decreases n
  {
    if n > 0 { BlocksJoin(s, o + 2 + Be16(s, o), n - 1, m); }
  }

  lemma BlocksConcat(a: Bytes, n: nat, b: Bytes, m: nat)
    requires BlocksOf(a, n) && BlocksOf(b, m)
    ensures BlocksOf(a + b, n + m)
  {
    var s := a + b;
    assert s[0..|a|] == a[0..|a|] && s[|a|..|a| + |b|] == b[0..|b|];
    SameBlocks(a, 0, n, s, 0);
    SameBlocks(b, 0, m, s, |a|);
    BlocksJoin(s, 0, n, m);
  }

  lemma {:induction false} FatesAreBlocks(data: Bytes, o: nat, next: Option<u64>)
    requires o <= |data|
    ensures var fs := Fates(data, o, next); BlocksOf(AllBytes(fs), TallyAll(fs).messages)
    decreases |data| - o
  {
    hide Be16, Be64, TakeBlocks, BlocksOf, AllBytes, TallyAll;
    NoBlocks();
    if o + HDR_BYTES <= |data| {
      var seqNo, count, start := Be64(data, o + 10), Be16(data, o + 18), o + HDR_BYTES;
      if count == END_OF_SESSION {
        Alone(Over);
      } else {
        var b, stale := TakeBlocks(data, start, count), next.Some? && seqNo < next.value;
        var bytes := data[start..b.end];
        CutOut(data, start, count);
        if b.whole {
          var f := if stale then Skipped(count) else Applied(count, bytes, Ahead(next, seqNo));
          var next' := if stale then next else Some(Advance(seqNo, count));
          FatesAreBlocks(data, b.end, next');
          Cons(f, Fates(data, b.end, next'));
          BlocksConcat(Output(f), TallyOf(f).messages, AllBytes(Fates(data, b.end, next')),
            TallyAll(Fates(data, b.end, next')).messages);
        } else {
          Alone(if stale then Cut(0, [], 0) else Cut(b.count, bytes, Ahead(next, seqNo)));
        }
      }
    }
  }

  lemma NoBlocks()
    ensures BlocksOf([], 0) && AllBytes([]) == [] && TallyAll([]).messages == 0
  {}

  lemma CutOut(data: Bytes, start: nat, count: nat)
    requires start <= |data|
    ensures var b := TakeBlocks(data, start, count); BlocksOf(data[start..b.end], b.count)
  {
    var b := TakeBlocks(data, start, count);
    var part := data[start..b.end];
    assert part[0..0 + |part|] == data[start..start + |part|];
    SameBlocks(data, start, count, part, 0);
  }

  /** The statistics of a whole stream. The bytes returned are exactly `messages` blocks; every
      packet is applied, stale, cut short or ends the session, and only the last one is of the
      latter two kinds; only applied packets and the whole blocks of a cut one contribute. */
  lemma DecapCounts(data: Bytes)
    ensures var (out, st) := Walk(data, 0, START);
      var fs := Fates(data, 0, None);
      && BlocksOf(out, st.messages) && out == AllBytes(fs) && Counts(TallyAll(fs), START, st)
      && st.packets == TallyAll(fs).applied + st.stalePackets + (if st.truncated then 1 else 0)
        + (if st.sessionEnd then 1 else 0)
  {
    WalkCounts(data, 0, START);
    FatesAreBlocks(data, 0, None);
    hide Walk, Fates, TallyAll, AllBytes, BlocksOf;
  }
}
