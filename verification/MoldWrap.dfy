/** Wrapping a message stream into MoldUDP64 packets, some of which get lost, and what the
    parser recovers. */
module MoldWrap {
  import opened Itch
  import opened Wire
  import opened MoldParser

  /** A length-prefixed message, as it stands in the stream. */
  predicate IsBlock(b: Bytes) {
    |b| > 2 && |b| == 2 + Be16(b, 0)
  }

  type Block = b: Bytes | IsBlock(b) witness [0, 1, 0]

  function Concat(blocks: seq<Block>): Bytes {
    if blocks == [] then [] else blocks[0] + Concat(blocks[1..])
  }

  /** The whole blocks of a stream from an offset on; an empty or cut block ends the list. */
  function BlocksOf(s: Bytes, o: nat): seq<Block>
    requires o <= |s|
    decreases |s| - o
  {
    if !BlockAt(s, o) then []
    else
      var next := o + 2 + Be16(s, o);
      assert Be16(s[o..next], 0) == Be16(s, o);
      [s[o..next]] + BlocksOf(s, next)
  }

  // ---- packets ------------------------------------------------------------------------------

  /** One packet's messages, and whether it was sent or dropped. */
  datatype Packet = Packet(blocks: seq<Block>, kept: bool)

  function Chunks(blocks: seq<Block>, perPacket: nat, drop: set<nat>, index: nat): seq<Packet>
    requires perPacket > 0
    decreases |blocks|
  {
    if blocks == [] then []
    else
      var n := Min(perPacket, |blocks|);
      [Packet(blocks[..n], index !in drop)] + Chunks(blocks[n..], perPacket, drop, index + 1)
  }

  /** Packets are filled in turn: all but the last hold `perPacket` blocks, the last at least one,
      and a packet is kept exactly when its number was not drawn for dropping. */
  lemma {:induction false} ChunksFilled(blocks: seq<Block>, perPacket: nat, drop: set<nat>, index: nat, i: nat)
    requires perPacket > 0 && i < |Chunks(blocks, perPacket, drop, index)|
    ensures var ps := Chunks(blocks, perPacket, drop, index);
      && 0 < |ps[i].blocks| <= perPacket && (i < |ps| - 1 ==> |ps[i].blocks| == perPacket)
      && (ps[i].kept <==> index + i !in drop)
    decreases |blocks|
  {
    var n := Min(perPacket, |blocks|);
    if i > 0 { ChunksFilled(blocks[n..], perPacket, drop, index + 1, i - 1); }
  }

  const SESSION: Bytes := [0x4F, 0x42, 0x53, 0x45, 0x53, 0x53, 0x30, 0x30, 0x30, 0x31]

  function Header(seqNo: u64, count: u16): (h: Bytes)
    ensures |h| == HDR_BYTES
  {
    SESSION + Put64(seqNo) + Put16(count)
  }

  ghost predicate Sized(packets: seq<Packet>) {
    forall p :: p in packets ==> 0 < |p.blocks| < END_OF_SESSION
  }

  /** The packets sent; a dropped one still uses up its sequence numbers. */
  function Wrapped(packets: seq<Packet>, seqNo: u64): Bytes
    requires Sized(packets)
  {
    if packets == [] then []
    else
      var p := packets[0];
      (if p.kept then Header(seqNo, |p.blocks|) + Concat(p.blocks) else []) +
      Wrapped(packets[1..], Advance(seqNo, |p.blocks|))
  }

  function Total(packets: seq<Packet>): nat {
    if packets == [] then 0 else |packets[0].blocks| + Total(packets[1..])
  }

  // ---- the tool -------------------------------------------------------------------------------

  method Split(s: Bytes) returns (blocks: seq<Block>)
    ensures blocks == BlocksOf(s, 0)
  {
    blocks := [];
    var o: nat := 0;
    while o + 2 <= |s|
      invariant o <= |s| && BlocksOf(s, 0) == blocks + BlocksOf(s, o)
    {
      var len := Be16(s, o);
      if len == 0 || o + 2 + len > |s| { break; }
      assert Be16(s[o..o + 2 + len], 0) == len;
      blocks := blocks + [s[o..o + 2 + len]];
      o := o + 2 + len;
    }
  }

  method Wrap(input: Bytes, perPacket: nat, start: u64, drop: set<nat>, endPacket: bool) returns (out: Bytes)
    requires 0 < perPacket < END_OF_SESSION
    ensures var packets := Chunks(BlocksOf(input, 0), perPacket, drop, 0);
      Sized(packets) && out == Wrapped(packets, start) +
        if endPacket then Header(Advance(start, |BlocksOf(input, 0)|), END_OF_SESSION) else []
  {
    hide BlocksOf, Header, Concat, Chunks, Wrapped;
    var msgs := Split(input);
    var seqNo := start;
    assert Advance(start, 0) == start;
    var m, index: nat := 0, 0;
    out := [];
    ghost var all := Chunks(msgs, perPacket, drop, 0);
    ChunksSized(msgs, perPacket, drop, 0);
    assert msgs[0..] == msgs;
    Assoc(Wrapped(all, start), [], []);
    hide Sized, Advance;
    while m < |msgs|
      invariant m <= |msgs| && seqNo == Advance(start, m)
      invariant Sized(Chunks(msgs[m..], perPacket, drop, index))
      invariant Wrapped(all, start) == out + Wrapped(Chunks(msgs[m..], perPacket, drop, index), seqNo)
    {
      var n := Min(perPacket, |msgs| - m);
      ghost var before := out;
      WrappedStep(msgs, m, perPacket, drop, index, seqNo);
      ghost var sent := if index in drop then [] else Header(seqNo, n) + Concat(msgs[m..m + n]);
      if index !in drop { out := AppendPacket(out, seqNo, msgs[m..m + n]); }
      NextSeq(start, m, n);
      m, index, seqNo := m + n, index + 1, Advance(seqNo, n);
      Assoc(before, sent, Wrapped(Chunks(msgs[m..], perPacket, drop, index), seqNo));
      assert out == before + sent by { Assoc(before, [], []); }
    }
    NothingLeft(msgs[m..], perPacket, drop, index, seqNo);
    Assoc(out, [], []);
    if endPacket { out := out + Header(seqNo, END_OF_SESSION); }
  }

  lemma NothingLeft(msgs: seq<Block>, perPacket: nat, drop: set<nat>, index: nat, seqNo: u64)
    requires msgs == [] && perPacket > 0
    ensures Sized(Chunks(msgs, perPacket, drop, index)) && Wrapped(Chunks(msgs, perPacket, drop, index), seqNo) == []
  {}

  lemma WrappedStep(msgs: seq<Block>, m: nat, perPacket: nat, drop: set<nat>, index: nat, seqNo: u64)
    requires m < |msgs| && 0 < perPacket < END_OF_SESSION
    ensures var n := Min(perPacket, |msgs| - m);
      var now, rest := Chunks(msgs[m..], perPacket, drop, index), Chunks(msgs[m + n..], perPacket, drop, index + 1);
      && Sized(now) && Sized(rest)
      && Wrapped(now, seqNo) ==
        (if index in drop then [] else Header(seqNo, n) + Concat(msgs[m..m + n])) + Wrapped(rest, Advance(seqNo, n))
  {
    var n := Min(perPacket, |msgs| - m);
    assert msgs[m..][..n] == msgs[m..m + n] && msgs[m..][n..] == msgs[m + n..];
    ChunksSized(msgs[m..], perPacket, drop, index);
    ChunksSized(msgs[m + n..], perPacket, drop, index + 1);
    var now := Chunks(msgs[m..], perPacket, drop, index);
    assert now[1..] == Chunks(msgs[m + n..], perPacket, drop, index + 1);
    hide Header, Concat, Chunks;
  }

  lemma NextSeq(start: u64, m: nat, n: nat)
    ensures Advance(Advance(start, m), n) == Advance(start, m + n)
  {}

  method AppendPacket(before: Bytes, seqNo: u64, blocks: seq<Block>) returns (out: Bytes)
    requires |blocks| < END_OF_SESSION
    ensures out == before + (Header(seqNo, |blocks|) + Concat(blocks))
  {
    hide Header, Concat;
    out := before + Header(seqNo, |blocks|);
    out := Append(out, blocks);
    Assoc(before, Header(seqNo, |blocks|), Concat(blocks));
  }

  method Append(before: Bytes, blocks: seq<Block>) returns (out: Bytes)
    ensures out == before + Concat(blocks)
  {
    out := before;
    assert blocks[0..] == blocks;
    for i := 0 to |blocks|
      invariant before + Concat(blocks) == out + Concat(blocks[i..])
    {
      assert blocks[i..][1..] == blocks[i + 1..];
      Assoc(out, blocks[i], Concat(blocks[i + 1..]));
      out := out + blocks[i];
    }
    Assoc(out, [], []);
  }

  lemma {:induction false} ChunksSized(blocks: seq<Block>, perPacket: nat, drop: set<nat>, index: nat)
    requires 0 < perPacket < END_OF_SESSION
    ensures Sized(Chunks(blocks, perPacket, drop, index)) && Total(Chunks(blocks, perPacket, drop, index)) == |blocks|
    decreases |blocks|
  {
    if blocks != [] {
      var n := Min(perPacket, |blocks|);
      ChunksSized(blocks[n..], perPacket, drop, index + 1);
      var cs := Chunks(blocks, perPacket, drop, index);
      assert cs[1..] == Chunks(blocks[n..], perPacket, drop, index + 1);
    }
  }

  // ---- what a lossy channel leaves -------------------------------------------------------------

  function Kept(ps: seq<Packet>): Bytes {
    if ps == [] then [] else (if ps[0].kept then Concat(ps[0].blocks) else []) + Kept(ps[1..])
  }

  predicate AnyKept(ps: seq<Packet>) {
    ps != [] && (ps[0].kept || AnyKept(ps[1..]))
  }

  function KeptPackets(ps: seq<Packet>): nat {
    if ps == [] then 0 else (if ps[0].kept then 1 else 0) + KeptPackets(ps[1..])
  }

  function KeptMessages(ps: seq<Packet>): nat {
    if ps == [] then 0 else (if ps[0].kept then |ps[0].blocks| else 0) + KeptMessages(ps[1..])
  }

  /** Messages of dropped packets with a kept packet somewhere before and somewhere after. */
  function LostBetween(ps: seq<Packet>, started: bool): nat {
    if ps == [] then 0
    else if ps[0].kept then LostBetween(ps[1..], true)
    else (if started && AnyKept(ps[1..]) then |ps[0].blocks| else 0) + LostBetween(ps[1..], started)
  }

  /** Runs of dropped packets that end at a kept packet, after the first kept one. */
  function LossRuns(ps: seq<Packet>, started: bool, missing: bool): nat {
    if ps == [] then 0
    else if ps[0].kept then (if started && missing then 1 else 0) + LossRuns(ps[1..], true, false)
    else LossRuns(ps[1..], started, true)
  }

  /** Sequence number of the first kept packet, and the one following the last kept packet. */
  function FirstSeq(ps: seq<Packet>, seqNo: nat): nat {
    if ps == [] || ps[0].kept then seqNo else FirstSeq(ps[1..], seqNo + |ps[0].blocks|)
  }

  function EndSeq(ps: seq<Packet>, seqNo: nat, otherwise: nat): nat {
    if ps == [] then otherwise
    else
      var next := seqNo + |ps[0].blocks|;
      EndSeq(ps[1..], next, if ps[0].kept then next else otherwise)
  }

  // ---- the parser on such a stream ---------------------------------------------------------------

  /** The statistics after these packets, starting from given ones. */
  function Arrive(ps: seq<Packet>, seqNo: nat, st: MoldStats): MoldStats
    requires Sized(ps) && seqNo + Total(ps) < WRAP64
    decreases |ps|
  {
    if ps == [] then st
    else
      var n := |ps[0].blocks|;
      Arrive(ps[1..], seqNo + n, if ps[0].kept then Close(Counted(st, seqNo, n), seqNo, n, false) else st)
  }

  lemma {:induction false} BlocksTaken(data: Bytes, o: nat, blocks: seq<Block>)
    requires o + |Concat(blocks)| <= |data| && data[o..o + |Concat(blocks)|] == Concat(blocks)
    ensures TakeBlocks(data, o, |blocks|) == Blocks(o + |Concat(blocks)|, |blocks|, true)
    decreases |blocks|
  {
    if blocks != [] {
      var b, rest := blocks[0], Concat(blocks[1..]);
      var next := o + |b|;
      assert data[o..next + |rest|] == b + rest;
      assert data[o..next] == b by { assert data[o..next] == data[o..next + |rest|][..|b|]; }
      assert data[next..next + |rest|] == rest by { assert data[next..next + |rest|] == data[o..next + |rest|][|b|..]; }
      assert Be16(b, 0) == Be16(data, o) by { assert b[0] == data[o..next][0] && b[1] == data[o..next][1]; }
      BlocksTaken(data, next, blocks[1..]);
    }
  }

  lemma HeaderRead(data: Bytes, o: nat, seqNo: u64, count: u16)
    requires o + HDR_BYTES <= |data| && data[o..o + HDR_BYTES] == Header(seqNo, count)
    ensures Be64(data, o + 10) == seqNo && Be16(data, o + 18) == count
  {
    var h := Header(seqNo, count);
    hide Put64, Put16, Be64, Be16;
    assert h[10..18] == Put64(seqNo) && h[18..20] == Put16(count);
    hide Header;
    assert data[o + 10..o + 18] == data[o..o + HDR_BYTES][10..18];
    assert data[o + 18..o + 20] == data[o..o + HDR_BYTES][18..20];
    Read64(data, o + 10, seqNo);
    Read16(data, o + 18, count);
  }

  /** One kept packet goes through the parser whole. */
  lemma OnePacket(data: Bytes, o: nat, seqNo: nat, blocks: seq<Block>, st: MoldStats)
    requires 0 < |blocks| < END_OF_SESSION && seqNo + |blocks| < WRAP64 && (st.seqInit ==> st.nextSeq <= seqNo)
    requires var p := Header(seqNo, |blocks|) + Concat(blocks);
      o + |p| <= |data| && data[o..o + |p|] == p
    ensures var next := o + HDR_BYTES + |Concat(blocks)|;
      var w := Walk(data, next, Close(Counted(st, seqNo, |blocks|), seqNo, |blocks|, false));
      Walk(data, o, st) == (Concat(blocks) + w.0, w.1)
  {
    var start := o + HDR_BYTES;
    var next := start + |Concat(blocks)|;
    var p := Header(seqNo, |blocks|) + Concat(blocks);
    assert data[o..start] == data[o..next][..HDR_BYTES] == Header(seqNo, |blocks|);
    assert data[start..next] == data[o..next][HDR_BYTES..] == Concat(blocks);
    hide Header, Concat, TakeBlocks, Counted, Close, Be64, Be16;
    HeaderRead(data, o, seqNo, |blocks|);
    BlocksTaken(data, start, blocks);
  }

  lemma Slices(data: Bytes, o: nat, a: Bytes, b: Bytes)
    requires o + |a + b| <= |data| && data[o..o + |a + b|] == a + b
    ensures data[o..o + |a|] == a && data[o + |a|..o + |a| + |b|] == b
  {
    assert data[o..o + |a|] == data[o..o + |a + b|][..|a|];
    assert data[o + |a|..o + |a| + |b|] == data[o..o + |a + b|][|a|..];
  }

  /** A kept packet in front of packets the parser is known to recover. */
  lemma KeptInFront(data: Bytes, o: nat, seqNo: nat, blocks: seq<Block>, st: MoldStats, more: Bytes,
    w: (Bytes, MoldStats))
    requires 0 < |blocks| < END_OF_SESSION && seqNo + |blocks| < WRAP64 && (st.seqInit ==> st.nextSeq <= seqNo)
    requires var p := Header(seqNo, |blocks|) + Concat(blocks);
      && o + |p| <= |data| && data[o..o + |p|] == p
      && Walk(data, o + |p|, Close(Counted(st, seqNo, |blocks|), seqNo, |blocks|, false)) == (more + w.0, w.1)
    ensures Walk(data, o, st) == (Concat(blocks) + more + w.0, w.1)
  {
    hide Walk, Header, Concat, Close, Counted;
    var p := Header(seqNo, |blocks|) + Concat(blocks);
    assert o + HDR_BYTES + |Concat(blocks)| == o + |p|;
    OnePacket(data, o, seqNo, blocks, st);
    Assoc(Concat(blocks), more, w.0);
  }

  lemma NoPackets(ps: seq<Packet>, seqNo: nat, st: MoldStats)
    requires ps == [] && seqNo < WRAP64
    ensures Sized(ps) && Total(ps) == 0 && Wrapped(ps, seqNo) == [] && Kept(ps) == [] && Arrive(ps, seqNo, st) == st
  {}

  /** The first packet split off. */
  lemma FirstPacket(ps: seq<Packet>, seqNo: nat, st: MoldStats)
    requires ps != [] && Sized(ps) && seqNo + Total(ps) < WRAP64
    ensures var n, next := |ps[0].blocks|, seqNo + |ps[0].blocks|;
      var st' := if ps[0].kept then Close(Counted(st, seqNo, n), seqNo, n, false) else st;
      && Sized(ps[1..]) && next + Total(ps[1..]) < WRAP64 && 0 < n < END_OF_SESSION
      && Wrapped(ps, seqNo) ==
        (if ps[0].kept then Header(seqNo, n) + Concat(ps[0].blocks) else []) + Wrapped(ps[1..], next)
      && Kept(ps) == (if ps[0].kept then Concat(ps[0].blocks) else []) + Kept(ps[1..])
      && Arrive(ps, seqNo, st) == Arrive(ps[1..], next, st')
      && (ps[0].kept ==> st'.nextSeq == next)
  {
    assert Advance(seqNo, |ps[0].blocks|) == seqNo + |ps[0].blocks|;
  }

  lemma {:induction false} WalkWrapped(data: Bytes, o: nat, ps: seq<Packet>, seqNo: nat, st: MoldStats)
    requires Sized(ps) && seqNo + Total(ps) < WRAP64 && (st.seqInit ==> st.nextSeq <= seqNo)
    requires o + |Wrapped(ps, seqNo)| <= |data| && data[o..o + |Wrapped(ps, seqNo)|] == Wrapped(ps, seqNo)
    ensures var w := Walk(data, o + |Wrapped(ps, seqNo)|, Arrive(ps, seqNo, st));
      Walk(data, o, st) == (Kept(ps) + w.0, w.1)
    decreases |ps|
  {
    hide Walk, Wrapped, Header, Concat, Kept, Close, Counted, Advance, Arrive, Sized, Total;
    var w := Walk(data, o + |Wrapped(ps, seqNo)|, Arrive(ps, seqNo, st));
    if ps == [] {
      NoPackets(ps, seqNo, st);
      Assoc(w.0, [], []);
    } else {
      FirstPacket(ps, seqNo, st);
      var blocks, n := ps[0].blocks, |ps[0].blocks|;
      var rest := Wrapped(ps[1..], seqNo + n);
      if ps[0].kept {
        var p := Header(seqNo, n) + Concat(blocks);
        Slices(data, o, p, rest);
        WalkWrapped(data, o + |p|, ps[1..], seqNo + n, Close(Counted(st, seqNo, n), seqNo, n, false));
        KeptInFront(data, o, seqNo, blocks, st, Kept(ps[1..]), w);
      } else {
        assert [] + rest == rest && [] + Kept(ps[1..]) == Kept(ps[1..]);
        WalkWrapped(data, o, ps[1..], seqNo + n, st);
      }
    }
  }

  /** What a kept packet adds when no number wraps. */
  lemma KeptCounts(st: MoldStats, seqNo: nat, n: nat)
    requires seqNo + n < WRAP64 && 0 < n < END_OF_SESSION && (st.seqInit ==> st.nextSeq <= seqNo)
    requires st.gapMsgs + (if st.seqInit then seqNo - st.nextSeq else 0) < WRAP64
    ensures var gap := st.seqInit && st.nextSeq < seqNo;
      Close(Counted(st, seqNo, n), seqNo, n, false) == st.(
        packets := st.packets + 1, messages := st.messages + n, gapEvents := st.gapEvents + if gap then 1 else 0,
        gapMsgs := st.gapMsgs + (if gap then seqNo - st.nextSeq else 0), nextSeq := seqNo + n, seqInit := true)
  {}

  /** What the statistics say after a lossy run, in terms of what was kept and dropped. */
  lemma {:induction false} ArriveCounts(ps: seq<Packet>, seqNo: nat, st: MoldStats)
    requires Sized(ps) && seqNo + Total(ps) < WRAP64 && (st.seqInit ==> st.nextSeq <= seqNo)
    requires st.gapMsgs + (if st.seqInit then seqNo - st.nextSeq else 0) + Total(ps) < WRAP64
    ensures var open := if st.seqInit && AnyKept(ps) then seqNo - st.nextSeq else 0;
      EndSeq(ps, seqNo, st.nextSeq) < WRAP64 &&
      Arrive(ps, seqNo, st) == st.(
        packets := st.packets + KeptPackets(ps), messages := st.messages + KeptMessages(ps),
        gapEvents := st.gapEvents + LossRuns(ps, st.seqInit, st.seqInit && st.nextSeq < seqNo),
        gapMsgs := st.gapMsgs + open + LostBetween(ps, st.seqInit),
        nextSeq := EndSeq(ps, seqNo, st.nextSeq), seqInit := st.seqInit || AnyKept(ps))
    decreases |ps|
  {
    hide Close, Counted;
    if ps != [] {
      var n := |ps[0].blocks|;
      var st' := if ps[0].kept then Close(Counted(st, seqNo, n), seqNo, n, false) else st;
      KeptCounts(st, seqNo, n);
      ArriveCounts(ps[1..], seqNo + n, st');
    }
  }

  /** Kept and lost messages together are the sequence numbers from first to last. */
  lemma {:induction false} SequenceAccounted(ps: seq<Packet>, seqNo: nat, started: bool, from: nat)
    requires started || AnyKept(ps)
    ensures KeptMessages(ps) + LostBetween(ps, started) ==
      if !AnyKept(ps) then 0 else EndSeq(ps, seqNo, from) - if started then seqNo else FirstSeq(ps, seqNo)
    ensures !AnyKept(ps) ==> EndSeq(ps, seqNo, from) == from
    decreases |ps|
  {
    if ps != [] {
      var next := seqNo + |ps[0].blocks|;
      SequenceAccounted(ps[1..], next, started || ps[0].kept, if ps[0].kept then next else from);
    }
  }

  // ---- main results ------------------------------------------------------------------------------

  /** Nothing more, or an end-of-session packet. */
  lemma WalkEnd(out: Bytes, end: nat, seqNo: u64, endPacket: bool, st: MoldStats)
    requires end <= |out| && out[end..] == if endPacket then Header(seqNo, END_OF_SESSION) else []
    ensures Walk(out, end, st) == ([], if endPacket then st.(packets := st.packets + 1, sessionEnd := true) else st)
  {
    hide Header;
    if endPacket {
      assert out[end..end + HDR_BYTES] == out[end..];
      HeaderRead(out, end, seqNo, END_OF_SESSION);
    }
  }

  /** Wrapping, losing any packets and unwrapping yields exactly the messages of the packets
      that were kept, and the statistics account for every message in between. */
  lemma LossRoundTrip(input: Bytes, perPacket: nat, start: u64, drop: set<nat>, endPacket: bool, out: Bytes)
    requires 0 < perPacket < END_OF_SESSION && start + |BlocksOf(input, 0)| < WRAP64
    requires var ps := Chunks(BlocksOf(input, 0), perPacket, drop, 0);
      Sized(ps) && out == Wrapped(ps, start) +
        if endPacket then Header(Advance(start, |BlocksOf(input, 0)|), END_OF_SESSION) else []
    ensures var ps := Chunks(BlocksOf(input, 0), perPacket, drop, 0);
      var (bytes, st) := Walk(out, 0, START);
      && bytes == Kept(ps) && st.messages == KeptMessages(ps) && st.gapMsgs == LostBetween(ps, false)
      && st.gapEvents == LossRuns(ps, false, false) && st.packets == KeptPackets(ps) + (if endPacket then 1 else 0)
      && st.stalePackets == 0 && st.heartbeats == 0 && !st.truncated && st.sessionEnd == endPacket
      && (AnyKept(ps) ==> st.messages + st.gapMsgs == st.nextSeq - FirstSeq(ps, start))
  {
    var blocks := BlocksOf(input, 0);
    var ps := Chunks(blocks, perPacket, drop, 0);
    ChunksSized(blocks, perPacket, drop, 0);
    var end := |Wrapped(ps, start)|;
    assert out[..end] == Wrapped(ps, start) && out[0..0 + end] == out[..end];
    var seqNo := Advance(start, |blocks|);
    assert out[end..] == if endPacket then Header(seqNo, END_OF_SESSION) else [];
    hide Wrapped, Header, Advance, BlocksOf, Chunks, Walk;
    WalkWrapped(out, 0, ps, start, START);
    ArriveCounts(ps, start, START);
    if AnyKept(ps) { SequenceAccounted(ps, start, false, 0); }
    WalkEnd(out, end, seqNo, endPacket, Arrive(ps, start, START));
    Assoc(Kept(ps), [], []);
  }

  /** The packets partition the stream's messages; with nothing dropped the round trip is the
      identity on them. */
  lemma {:induction false} NothingDropped(blocks: seq<Block>, perPacket: nat, drop: set<nat>, index: nat)
    requires 0 < perPacket && (forall i :: i in drop ==> i < index)
    ensures Kept(Chunks(blocks, perPacket, drop, index)) == Concat(blocks)
    decreases |blocks|
  {
    if blocks != [] {
      var n := Min(perPacket, |blocks|);
      NothingDropped(blocks[n..], perPacket, drop, index + 1);
      var ps := Chunks(blocks, perPacket, drop, index);
      assert ps[0].blocks == blocks[..n] && ps[1..] == Chunks(blocks[n..], perPacket, drop, index + 1);
      ConcatSplit(blocks, n);
    }
  }

  lemma {:induction false} ConcatSplit(blocks: seq<Block>, n: nat)
    requires n <= |blocks|
    ensures Concat(blocks) == Concat(blocks[..n]) + Concat(blocks[n..])
    decreases n
  {
    if n == 0 {
      assert blocks[0..] == blocks;
    } else {
      ConcatSplit(blocks[1..], n - 1);
      assert blocks[..n][1..] == blocks[1..][..n - 1] && blocks[1..][n - 1..] == blocks[n..];
    }
  }

  /** The messages of a stream are its bytes, up to where framing breaks off. */
  lemma {:induction false} BlocksAreTheStream(s: Bytes, o: nat)
    requires o <= |s|
    ensures Concat(BlocksOf(s, o)) <= s[o..]
    ensures var end := o + |Concat(BlocksOf(s, o))|;
      end <= |s| && !BlockAt(s, end)
    decreases |s| - o
  {
    if BlockAt(s, o) {
      var next := o + 2 + Be16(s, o);
      BlocksAreTheStream(s, next);
      assert s[o..] == s[o..next] + s[next..];
      var bs := BlocksOf(s, o);
      assert bs[0] == s[o..next] && bs[1..] == BlocksOf(s, next);
    }
  }
}
