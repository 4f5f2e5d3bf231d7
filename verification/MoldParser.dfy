/** MoldUDP64 packets in software: the packet walk with its sequence accounting
    (MoldUDP64 specification, "Downstream Packet"). */
module MoldParser {
  import opened Itch
  import opened Wire

  const HDR_BYTES: nat := 20
  const END_OF_SESSION: u16 := 0xFFFF

  datatype MoldStats = MoldStats(
    packets: nat, heartbeats: nat, messages: nat, gapEvents: nat, gapMsgs: nat, stalePackets: nat,
    nextSeq: u64, seqInit: bool, sessionEnd: bool, truncated: bool)

  const START: MoldStats := MoldStats(0, 0, 0, 0, 0, 0, 0, false, false, false)

  // ---- what the walk computes ---------------------------------------------------------------

  /** Where up to n consecutive blocks end, how many are whole, and whether all n are. */
  datatype Blocks = Blocks(end: nat, count: nat, whole: bool)

  predicate BlockAt(data: Bytes, o: nat) {
    o + 2 <= |data| && Be16(data, o) != 0 && o + 2 + Be16(data, o) <= |data|
  }

  function TakeBlocks(data: Bytes, o: nat, n: nat): (b: Blocks)
    requires o <= |data|
    ensures o <= b.end <= |data| && b.count <= n && (b.whole ==> b.count == n)
    decreases n
  {
    if n == 0 then Blocks(o, 0, true)
    else if !BlockAt(data, o) then Blocks(o, 0, false)
    else
      var rest := TakeBlocks(data, o + 2 + Be16(data, o), n - 1);
      rest.(count := 1 + rest.count)
  }

  /** Sequence numbers are 64 bits wide. */
  function Advance(seqNo: u64, n: nat): u64 {
    (seqNo + n) % WRAP64
  }

  predicate Stale(st: MoldStats, seqNo: u64) {
    st.seqInit && seqNo < st.nextSeq
  }

  /** A header ahead of the expected sequence number is a gap. */
  function Gap(st: MoldStats, seqNo: u64): MoldStats {
    if st.seqInit && seqNo > st.nextSeq
    then st.(gapEvents := st.gapEvents + 1, gapMsgs := (st.gapMsgs + seqNo - st.nextSeq) % WRAP64)
    else st
  }

  /** After the blocks of a packet. */
  function Close(st: MoldStats, seqNo: u64, count: u16, stale: bool): MoldStats {
    var done := if stale then st.(stalePackets := st.stalePackets + 1)
      else st.(nextSeq := Advance(seqNo, count), seqInit := true);
    if count == 0 then done.(heartbeats := done.heartbeats + 1) else done
  }

  /** The statistics once a packet's blocks were walked. */
  function Counted(st: MoldStats, seqNo: u64, n: nat): MoldStats {
    var seen := Gap(st.(packets := st.packets + 1), seqNo);
    if Stale(st, seqNo) then seen else seen.(messages := seen.messages + n)
  }

  /** Bytes applied and statistics of the packets from offset o on. */
  function Walk(data: Bytes, o: nat, st: MoldStats): (Bytes, MoldStats)
    requires o <= |data|
    decreases |data| - o
  {
    if o + HDR_BYTES > |data| then ([], st)
    else
      var seqNo, count := Be64(data, o + 10), Be16(data, o + 18);
      var start := o + HDR_BYTES;
      if count == END_OF_SESSION then ([], st.(packets := st.packets + 1, sessionEnd := true))
      else
        var b := TakeBlocks(data, start, count);
        var out := if Stale(st, seqNo) then [] else data[start..b.end];
        var walked := Counted(st, seqNo, b.count);
        if !b.whole then (out, walked.(truncated := true))
        else
          var (more, last) := Walk(data, b.end, Close(walked, seqNo, count, Stale(st, seqNo)));
          (out + more, last)
  }

  // ---- the walk -------------------------------------------------------------------------------

  /** Walks the blocks of one packet, copying each unless the packet is stale. */
  method WalkBlocks(data: Bytes, start: nat, count: nat, stale: bool) returns (o: nat, out: Bytes, n: nat, whole: bool)
    requires start <= |data|
    ensures Blocks(o, n, whole) == TakeBlocks(data, start, count)
    ensures out == if stale then [] else data[start..o]
  {
    hide Be16;
    o, out, n, whole := start, [], 0, true;
    for i := 0 to count
      invariant start <= o <= |data| && n == i && whole && out == if stale then [] else data[start..o]
      invariant var b, r := TakeBlocks(data, start, count), TakeBlocks(data, o, count - i);
        b == r.(count := i + r.count)
    {
      if o + 2 > |data| { whole := false; return; }
      var len := Be16(data, o);
      if len == 0 || o + 2 + len > |data| { whole := false; return; }
      if !stale { out := out + data[o..o + 2 + len]; }
      n := n + 1;
      o := o + 2 + len;
    }
  }

  lemma Assoc<T>(a: seq<T>, b: seq<T>, c: seq<T>)
    ensures a + (b + c) == a + b + c && a + [] == a && [] + a == a
  {}

  /** Walks one packet; `over` when the walk ends with it. */
  method WalkPacket(data: Bytes, start: nat, before: MoldStats)
    returns (o: nat, blocks: Bytes, st: MoldStats, over: bool)
    requires start + HDR_BYTES <= |data|
    ensures start < o <= |data|
    ensures Walk(data, start, before) == if over then (blocks, st)
      else (blocks + Walk(data, o, st).0, Walk(data, o, st).1)
  {
    hide TakeBlocks, Be16, Be64;
    var seqNo, count := Be64(data, start + 10), Be16(data, start + 18);
    o, blocks, st, over := start + HDR_BYTES, [], before.(packets := before.packets + 1), false;
    if count == END_OF_SESSION {
      st, over := st.(sessionEnd := true), true;
      return;
    }
    var stale := st.seqInit && seqNo < st.nextSeq;
    if st.seqInit && seqNo > st.nextSeq {
      st := st.(gapEvents := st.gapEvents + 1, gapMsgs := (st.gapMsgs + seqNo - st.nextSeq) % WRAP64);
    }
    var n, whole;
    o, blocks, n, whole := WalkBlocks(data, o, count, stale);
    if !stale { st := st.(messages := st.messages + n); }
    assert st == Counted(before, seqNo, n);
    if !whole {
      st, over := st.(truncated := true), true;
      return;
    }
    if stale {
      st := st.(stalePackets := st.stalePackets + 1);
    } else {
      st := st.(nextSeq := Advance(seqNo, count), seqInit := true);
    }
    if count == 0 { st := st.(heartbeats := st.heartbeats + 1); }
    assert st == Close(Counted(before, seqNo, n), seqNo, count, stale);
  }

  /** Decapsulates a stream of packets to the plain length-prefixed messages applied. */
  method Decap(data: Bytes) returns (out: Bytes, st: MoldStats)
    ensures (out, st) == Walk(data, 0, START)
  {
    st, out := START, [];
    var o: nat := 0;
    Assoc(Walk(data, 0, START).0, [], []);
    while o + HDR_BYTES <= |data|
      invariant o <= |data|
      invariant Walk(data, 0, START) == (out + Walk(data, o, st).0, Walk(data, o, st).1)
    {
      hide Walk;
      var blocks, over;
      o, blocks, st, over := WalkPacket(data, o, st);
      Assoc(out, blocks, Walk(data, o, st).0);
      out := out + blocks;
      if over { return; }
    }
    Assoc(out, [], []);
  }
}
