/** ITCH bytes: big-endian fields, body layouts, and the stream of length-prefixed frames. */
module Wire {
  import opened Itch
  import opened RtlSpec

  type Bytes = seq<u8>

  // ---- big-endian integers ----------------------------------------------------------------

  function Be16(b: Bytes, k: nat): u16
    requires k + 2 <= |b|
  {
    var high: int := b[k];
    high * 0x100 + b[k + 1]
  }

  function Be32(b: Bytes, k: nat): u32
    requires k + 4 <= |b|
  {
    Be16(b, k) * 0x1_0000 + Be16(b, k + 2)
  }

  function Be64(b: Bytes, k: nat): u64
    requires k + 8 <= |b|
  {
    Be32(b, k) * 0x1_0000_0000 + Be32(b, k + 4)
  }

  function Put16(x: u16): (b: Bytes)
    ensures |b| == 2
  {
    [x / 0x100, x % 0x100]
  }

  function Put32(x: u32): (b: Bytes)
    ensures |b| == 4
  {
    Put16(x / 0x1_0000) + Put16(x % 0x1_0000)
  }

  function Put64(x: u64): (b: Bytes)
    ensures |b| == 8
  {
    Put32(x / 0x1_0000_0000) + Put32(x % 0x1_0000_0000)
  }

  lemma Read16(b: Bytes, k: nat, x: u16)
    requires k + 2 <= |b| && b[k..k + 2] == Put16(x)
    ensures Be16(b, k) == x
  {
    assert b[k] == b[k..k + 2][0] && b[k + 1] == b[k..k + 2][1];
  }

  lemma Read32(b: Bytes, k: nat, x: u32)
    requires k + 4 <= |b| && b[k..k + 4] == Put32(x)
    ensures Be32(b, k) == x
  {
    assert b[k..k + 2] == b[k..k + 4][..2] && b[k + 2..k + 4] == b[k..k + 4][2..];
    Read16(b, k, x / 0x1_0000);
    Read16(b, k + 2, x % 0x1_0000);
  }

  lemma Read64(b: Bytes, k: nat, x: u64)
    requires k + 8 <= |b| && b[k..k + 8] == Put64(x)
    ensures Be64(b, k) == x
  {
    assert b[k..k + 4] == b[k..k + 8][..4] && b[k + 4..k + 8] == b[k..k + 8][4..];
    Read32(b, k, x / 0x1_0000_0000);
    Read32(b, k + 4, x % 0x1_0000_0000);
  }

  /** A two-byte field and its value determine each other. */
  lemma Write16(b: Bytes, k: nat)
    requires k + 2 <= |b|
    ensures Put16(Be16(b, k)) == b[k..k + 2]
  {}

  // ---- bodies -----------------------------------------------------------------------------

  function Code(kind: MsgType): u8 {
    match kind
    case AddOrder => 'A' as int case AddOrderMpid => 'F' as int
    case OrderExecuted => 'E' as int case OrderExecutedPrice => 'C' as int
    case OrderCancel => 'X' as int case OrderDelete => 'D' as int
    case OrderReplace => 'U' as int case Trade => 'P' as int
    case SystemEvent => 'S' as int case Unknown => '?' as int
  }

  function KindOf(code: u8): MsgType {
    if code == 'A' as int then AddOrder else if code == 'F' as int then AddOrderMpid
    else if code == 'E' as int then OrderExecuted else if code == 'C' as int then OrderExecutedPrice
    else if code == 'X' as int then OrderCancel else if code == 'D' as int then OrderDelete
    else if code == 'U' as int then OrderReplace else if code == 'P' as int then Trade
    else if code == 'S' as int then SystemEvent else Unknown
  }

  const MSG_MAX_BYTES: nat := 48

  /** Body length of each message type; 0 for a type that is not supported. */
  function BodyLen(kind: MsgType): (n: nat)
    ensures n <= MSG_MAX_BYTES - 2 && (n == 0 <==> kind == Unknown)
  {
    match kind
    case AddOrder => 38 case AddOrderMpid => 42 case OrderExecuted => 33 case OrderExecutedPrice => 38
    case OrderCancel => 25 case OrderDelete => 21 case OrderReplace => 37 case Trade => 46
    case SystemEvent => 14 case Unknown => 0
  }

  /** A body that is handed to the book: its length is its type's. */
  predicate Deliverable(body: Bytes) {
    body != [] && KindOf(body[0]) != Unknown && |body| == BodyLen(KindOf(body[0]))
  }

  function SideOf(code: u8): char {
    if code == SIDE_BUY as int then SIDE_BUY else SIDE_SELL
  }

  /** Fields by fixed offset. The buffer may be longer than the body it holds. */
  function Decode(b: Bytes): RtlMsg
    requires b != [] && KindOf(b[0]) != Unknown && BodyLen(KindOf(b[0])) <= |b|
  {
    var kind := KindOf(b[0]);
    var m := NO_MESSAGE.(kind := kind, locate := Be16(b, 1), timestamp := Be64(b, 5));
    match kind
    case AddOrder | AddOrderMpid | Trade =>
      m.(orderRef := Be64(b, 13), side := SideOf(b[21]), shares := Be32(b, 22), price := Be32(b, 34))
    case OrderExecuted | OrderCancel => m.(orderRef := Be64(b, 13), shares := Be32(b, 21))
    case OrderExecutedPrice =>
      m.(orderRef := Be64(b, 13), shares := Be32(b, 21), printable := b[33] == 'Y' as int, price := Be32(b, 34))
    case OrderDelete => m.(orderRef := Be64(b, 13))
    case OrderReplace =>
      m.(orderRef := Be64(b, 13), newOrderRef := Be64(b, 21), shares := Be32(b, 29), price := Be32(b, 33))
    case SystemEvent => m
  }

  /** A message is read from its own bytes only: what lies behind its body in a larger
      buffer does not matter. */
  lemma OwnBytes(buffer: Bytes, body: Bytes)
    requires Deliverable(body) && body <= buffer
    ensures Decode(buffer) == Decode(body)
  {}

  // ---- frames -----------------------------------------------------------------------------

  function Frame(body: Bytes): Bytes
    requires |body| < 0x1_0000
  {
    Put16(|body|) + body
  }

  ghost predicate Framable(bodies: seq<Bytes>) {
    forall b :: b in bodies ==> |b| < 0x1_0000
  }

  function Framed(bodies: seq<Bytes>): Bytes
    requires Framable(bodies)
  {
    if bodies == [] then [] else Framed(bodies[..|bodies| - 1]) + Frame(bodies[|bodies| - 1])
  }

  /** The bodies of the complete frames of a byte stream, in order. */
  function Frames(s: Bytes): seq<Bytes>
    decreases |s|
  {
    if |s| < 2 || |s| < 2 + Be16(s, 0) then []
    else [s[2..2 + Be16(s, 0)]] + Frames(s[2 + Be16(s, 0)..])
  }

  lemma {:induction false} FramesOfFramed(bodies: seq<Bytes>, tail: Bytes)
    requires Framable(bodies)
    ensures Frames(Framed(bodies) + tail) == bodies + Frames(tail)
  {
    hide Put16, Be16;
    if bodies == [] {
      assert Framed(bodies) + tail == tail;
    } else {
      var n := |bodies| - 1;
      var body := bodies[n];
      var s := Frame(body) + tail;
      assert Framed(bodies) + tail == Framed(bodies[..n]) + s;
      FramesOfFramed(bodies[..n], s);
      assert s[0..2] == Put16(|body|);
      Read16(s, 0, |body|);
      assert s[2..2 + |body|] == body && s[2 + |body|..] == tail;
      assert bodies == bodies[..n] + [body];
    }
  }

  /** The messages a stream of bodies delivers. */
  function Messages(bodies: seq<Bytes>): seq<RtlMsg> {
    if bodies == [] then []
    else
      var body := bodies[|bodies| - 1];
      Messages(bodies[..|bodies| - 1]) + if Deliverable(body) then [Decode(body)] else []
  }

  lemma {:induction false} MessagesJoin(a: seq<Bytes>, b: seq<Bytes>)
    ensures Messages(a + b) == Messages(a) + Messages(b)
    decreases |b|
  {
    if b == [] {
      assert a + b == a;
    } else {
      var n := |b| - 1;
      assert (a + b)[..|a + b| - 1] == a + b[..n];
      MessagesJoin(a, b[..n]);
    }
  }

  lemma FramedSnoc(bodies: seq<Bytes>, body: Bytes)
    requires Framable(bodies) && |body| < 0x1_0000
    ensures Framable(bodies + [body]) && Framed(bodies + [body]) == Framed(bodies) + Frame(body)
    ensures Messages(bodies + [body]) == Messages(bodies) + if Deliverable(body) then [Decode(body)] else []
  {
    assert (bodies + [body])[..|bodies + [body]| - 1] == bodies;
  }

  // ---- encoding ---------------------------------------------------------------------------

  /** The parts of a message no book reads. */
  datatype Filler = Filler(track: u16, stock: Bytes, matchNumber: u64, mpid: Bytes, event: u8)

  predicate FillerOk(x: Filler) {
    |x.stock| == 8 && |x.mpid| == 4
  }

  function Header(m: Message, track: u16): (b: Bytes)
    ensures |b| == 13
  {
    [Code(m.kind)] + Put16(m.locate) + Put16(track) + Put64(m.timestamp)
  }

  /** The emitted body of a message. */
  function Encode(m: RtlMsg, x: Filler): (b: Bytes)
    requires m.kind != Unknown && FillerOk(x)
    ensures |b| == BodyLen(m.kind) && b[0] == Code(m.kind)
  {
    var side := [m.side as int];
    Header(m, x.track) +
    match m.kind
    case AddOrder => Put64(m.orderRef) + side + Put32(m.shares) + x.stock + Put32(m.price)
    case AddOrderMpid => Put64(m.orderRef) + side + Put32(m.shares) + x.stock + Put32(m.price) + x.mpid
    case Trade => Put64(m.orderRef) + side + Put32(m.shares) + x.stock + Put32(m.price) + Put64(x.matchNumber)
    case OrderExecuted => Put64(m.orderRef) + Put32(m.shares) + Put64(x.matchNumber)
    case OrderExecutedPrice =>
      Put64(m.orderRef) + Put32(m.shares) + Put64(x.matchNumber)
      + [if m.printable then 'Y' as int else 'N' as int] + Put32(m.price)
    case OrderCancel => Put64(m.orderRef) + Put32(m.shares)
    case OrderDelete => Put64(m.orderRef)
    case OrderReplace => Put64(m.orderRef) + Put64(m.newOrderRef) + Put32(m.shares) + Put32(m.price)
    case SystemEvent => [x.event]
  }

  /** What a message of this kind carries; the other fields are zero. */
  function Carried(m: RtlMsg): RtlMsg {
    var z := NO_MESSAGE.(kind := m.kind, locate := m.locate, timestamp := m.timestamp);
    match m.kind
    case AddOrder | AddOrderMpid | Trade => z.(orderRef := m.orderRef, side := m.side, shares := m.shares,
      price := m.price)
    case OrderExecuted | OrderCancel => z.(orderRef := m.orderRef, shares := m.shares)
    case OrderExecutedPrice => z.(orderRef := m.orderRef, shares := m.shares, printable := m.printable,
      price := m.price)
    case OrderDelete => z.(orderRef := m.orderRef)
    case OrderReplace => z.(orderRef := m.orderRef, newOrderRef := m.newOrderRef, shares := m.shares, price := m.price)
    case SystemEvent | Unknown => z
  }

  lemma HeaderRead(b: Bytes, m: Message, track: u16)
    requires Header(m, track) <= b
    ensures |b| >= 13 && b[0] == Code(m.kind) && Be16(b, 1) == m.locate && Be64(b, 5) == m.timestamp
  {
    var h := Header(m, track);
    assert b[..13] == h;
    assert b[1..3] == h[1..3] == Put16(m.locate);
    assert b[5..13] == h[5..13] == Put64(m.timestamp);
    Read16(b, 1, m.locate);
    Read64(b, 5, m.timestamp);
  }

  /** The RTL decoder reads back what the generator wrote, and accepts every body it wrote. */
  lemma DecodeEncode(m: RtlMsg, x: Filler)
    requires m.kind != Unknown && FillerOk(x)
    ensures Deliverable(Encode(m, x)) && Decode(Encode(m, x)) == Carried(m)
  {
    hide Put16, Put32, Put64, Be16, Be32, Be64, Header;
    var b := Encode(m, x);
    HeaderRead(b, m, x.track);
    if m.kind != SystemEvent {
      assert b[13..21] == Put64(m.orderRef);
      Read64(b, 13, m.orderRef);
    }
    match m.kind {
      case AddOrder | AddOrderMpid | Trade =>
        assert b[22..26] == Put32(m.shares) && b[34..38] == Put32(m.price) && b[21] == m.side as int;
        Read32(b, 22, m.shares);
        Read32(b, 34, m.price);
      case OrderExecuted | OrderCancel =>
        assert b[21..25] == Put32(m.shares);
        Read32(b, 21, m.shares);
      case OrderExecutedPrice =>
        assert b[21..25] == Put32(m.shares) && b[34..38] == Put32(m.price);
        assert b[33] == if m.printable then 'Y' as int else 'N' as int;
        Read32(b, 21, m.shares);
        Read32(b, 34, m.price);
      case OrderDelete =>
      case OrderReplace =>
        assert b[21..29] == Put64(m.newOrderRef) && b[29..33] == Put32(m.shares) && b[33..37] == Put32(m.price);
        Read64(b, 21, m.newOrderRef);
        Read32(b, 29, m.shares);
        Read32(b, 33, m.price);
      case SystemEvent =>
    }
  }
}
