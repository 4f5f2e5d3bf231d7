/** Fitting a stream into one price window, so that a banded book replays it without drops. */
module BandFilter {
  import opened Itch
  import opened LiveOrders
  import opened BookSpec
  import opened RtlSpec
  import opened Wire
  import P = RtlPipeline

  // ---- on messages ----------------------------------------------------------------------------

  predicate InBand(price: u32, base: u32, window: nat) {
    base <= price < base + window
  }

  /** The Delete a rewritten Replace becomes. */
  function AsDelete(m: RtlMsg): RtlMsg {
    NO_MESSAGE.(kind := OrderDelete, locate := m.locate, timestamp := m.timestamp, orderRef := m.orderRef)
  }

  function FilterOne(m: RtlMsg, base: u32, window: nat): seq<RtlMsg> {
    if IsAdd(m) && !InBand(m.price, base, window) then []
    else if m.kind == OrderReplace && !InBand(m.price, base, window) then [AsDelete(m)]
    else [m]
  }

  function Filter(ms: seq<RtlMsg>, base: u32, window: nat): seq<RtlMsg> {
    if ms == [] then [] else Filter(ms[..|ms| - 1], base, window) + FilterOne(ms[|ms| - 1], base, window)
  }

  /** The unbanded book of a stream. */
  function Unbanded(ms: seq<RtlMsg>): Orders {
    if ms == [] then map[] else After(Unbanded(ms[..|ms| - 1]), ms[|ms| - 1])
  }

  /** The arrival's reference is not live when it comes to rest. */
  predicate Vacant(os: Orders, m: RtlMsg) {
    && (IsAdd(m) ==> m.orderRef !in os)
    && (m.kind == OrderReplace && m.orderRef in os ==> m.newOrderRef !in os - {m.orderRef})
  }

  predicate AllVacant(ms: seq<RtlMsg>) {
    ms == [] || (AllVacant(ms[..|ms| - 1]) && Vacant(Unbanded(ms[..|ms| - 1]), ms[|ms| - 1]))
  }

  /** References the stream has brought in so far. */
  function Introduced(ms: seq<RtlMsg>): set<u64> {
    if ms == [] then {}
    else
      var m := ms[|ms| - 1];
      Introduced(ms[..|ms| - 1]) +
        if IsAdd(m) then {m.orderRef} else if m.kind == OrderReplace then {m.newOrderRef} else {}
  }

  /** Every reference is brought in at most once. */
  predicate FreshRefs(ms: seq<RtlMsg>) {
    ms == [] ||
    (var m, before := ms[|ms| - 1], ms[..|ms| - 1];
     FreshRefs(before) && (IsAdd(m) ==> m.orderRef !in Introduced(before))
     && (m.kind == OrderReplace ==> m.newOrderRef !in Introduced(before)))
  }

  /** References brought in once are vacant on arrival. */
  lemma {:induction false} FreshIsVacant(ms: seq<RtlMsg>)
    requires FreshRefs(ms)
    ensures AllVacant(ms) && Unbanded(ms).Keys <= Introduced(ms)
  {
    if ms != [] { FreshIsVacant(ms[..|ms| - 1]); }
  }

  /** The filter keeps an arrival as it is, or makes a message that brings nothing in. */
  lemma FreshJoin(f: seq<RtlMsg>, fm: RtlMsg, before: seq<RtlMsg>, m: RtlMsg)
    requires FreshRefs(f) && Introduced(f) <= Introduced(before) && FreshRefs(before + [m])
    requires fm == m || fm == AsDelete(m)
    ensures FreshRefs(f + [fm]) && Introduced(f + [fm]) <= Introduced(before + [m])
  {
    assert (f + [fm])[..|f + [fm]| - 1] == f && (before + [m])[..|before + [m]| - 1] == before;
  }

  /** Filtering keeps references fresh, so a feed that never reuses one suits the filter. */
  lemma {:induction false} FilterKeepsFresh(ms: seq<RtlMsg>, base: u32, window: nat)
    requires FreshRefs(ms)
    ensures FreshRefs(Filter(ms, base, window)) && Introduced(Filter(ms, base, window)) <= Introduced(ms)
  {
    if ms != [] {
      var m, before := ms[|ms| - 1], ms[..|ms| - 1];
      FilterKeepsFresh(before, base, window);
      var f, fm := Filter(before, base, window), FilterOne(m, base, window);
      assert before + [m] == ms;
      if fm == [] {
        assert f + fm == f;
      } else {
        FreshJoin(f, fm[0], before, m);
        assert fm == [fm[0]];
      }
    }
  }

  lemma FreshSuits(ms: seq<RtlMsg>, base: u32, window: nat)
    requires FreshRefs(ms)
    ensures AllVacant(Filter(ms, base, window))
  {
    FilterKeepsFresh(ms, base, window);
    FreshIsVacant(Filter(ms, base, window));
  }

  /** The tool compares whole numbers, the hardware a 32-bit difference: they agree on every
      price exactly when the window does not reach past the largest price. */
  lemma WindowsAgree(base: u32, window: nat)
    requires 0 < window <= WRAP32
    ensures (forall price: u32 :: InBand(price, base, window) <==> Offset(price, base) < window) <==>
      base + window <= WRAP32
  {
    if base + window > WRAP32 {
      assert !InBand(0, base, window) && Offset(0, base) < window;
    }
  }

  lemma UnbandedJoin(a: seq<RtlMsg>, m: RtlMsg)
    ensures Unbanded(a + [m]) == After(Unbanded(a), m)
  {
    assert (a + [m])[..|a + [m]| - 1] == a;
  }

  /** The unbanded book after what the filter makes of a message. */
  function FilteredAfter(os: Orders, m: RtlMsg, base: u32, window: nat): Orders {
    var f := FilterOne(m, base, window);
    if f == [] then os else After(os, f[0])
  }

  /** An in-window arrival that names a live reference repeats that very order. */
  predicate Settles(os: Orders, m: RtlMsg, base: u32, window: nat) {
    InBand(m.price, base, window) ==>
      && (IsAdd(m) && m.orderRef in os ==> os[m.orderRef] == Order(m.price, m.shares, m.locate, m.side))
      && (m.kind == OrderReplace && m.orderRef in os && m.newOrderRef in os - {m.orderRef} ==>
        os[m.newOrderRef] == Order(m.price, m.shares, os[m.orderRef].locate, os[m.orderRef].side))
  }

  /** One message: banding it is applying what the filter makes of it, if and only if it settles. */
  lemma CommuteStep(os: Orders, m: RtlMsg, base: u32, window: nat)
    requires base + window <= WRAP32
    ensures BandedAfter(os, m, base, window) == FilteredAfter(os, m, base, window) <==> Settles(os, m, base, window)
  {
    var banded, filtered := BandedAfter(os, m, base, window), FilteredAfter(os, m, base, window);
    if IsAdd(m) && InBand(m.price, base, window) {
      assert filtered[m.orderRef] == Order(m.price, m.shares, m.locate, m.side);
    } else if m.kind == OrderReplace && InBand(m.price, base, window) && m.orderRef in os {
      assert filtered[m.newOrderRef] == Order(m.price, m.shares, os[m.orderRef].locate, os[m.orderRef].side);
    }
  }

  /** A banded book makes nothing more of what the filter drops or rewrites. */
  lemma FilteredStep(os: Orders, m: RtlMsg, base: u32, window: nat)
    requires base + window <= WRAP32
    ensures var f := FilterOne(m, base, window);
      BandedAfter(os, m, base, window) == if f == [] then os else BandedAfter(os, f[0], base, window)
  {}

  /** Both books agree after every message of the stream. */
  predicate AlwaysAgree(ms: seq<RtlMsg>, base: u32, window: nat) {
    P.Replay(ms, base, window) == Unbanded(Filter(ms, base, window)) &&
    (ms == [] || AlwaysAgree(ms[..|ms| - 1], base, window))
  }

  predicate AllSettle(ms: seq<RtlMsg>, base: u32, window: nat) {
    ms == [] || (
      && AllSettle(ms[..|ms| - 1], base, window)
      && Settles(P.Replay(ms[..|ms| - 1], base, window), ms[|ms| - 1], base, window))
  }

  lemma UnbandedFiltered(ms: seq<RtlMsg>, base: u32, window: nat)
    requires ms != []
    ensures var n := |ms| - 1;
      Unbanded(Filter(ms, base, window)) == FilteredAfter(Unbanded(Filter(ms[..n], base, window)), ms[n], base, window)
  {
    hide After, FilterOne;
    var n := |ms| - 1;
    var f, fm := Filter(ms[..n], base, window), FilterOne(ms[n], base, window);
    FilterOneIsOne(ms[n], base, window);
    if fm == [] { assert f + fm == f; } else { UnbandedJoin(f, fm[0]); }
  }

  /** Banding and filtering commute: after every prefix the banded book on the raw stream holds
      what the unbanded book holds on the filtered one, if and only if every message settles. */
  lemma {:induction false} Commutes(ms: seq<RtlMsg>, base: u32, window: nat)
    requires base + window <= WRAP32
    ensures AlwaysAgree(ms, base, window) <==> AllSettle(ms, base, window)
  {
    hide BandedAfter, FilteredAfter, Settles, Filter;
    if ms == [] {
      assert Filter(ms, base, window) == [] by { FilterNothing(base, window); }
    } else {
      var n := |ms| - 1;
      Commutes(ms[..n], base, window);
      UnbandedFiltered(ms, base, window);
      CommuteStep(P.Replay(ms[..n], base, window), ms[n], base, window);
      if AlwaysAgree(ms[..n], base, window) { AgreeNow(ms[..n], base, window); }
    }
  }

  lemma FilterNothing(base: u32, window: nat)
    ensures Filter([], base, window) == []
  {}

  lemma AgreeNow(ms: seq<RtlMsg>, base: u32, window: nat)
    requires AlwaysAgree(ms, base, window)
    ensures P.Replay(ms, base, window) == Unbanded(Filter(ms, base, window))
  {}

  /** To a banded book the raw and the filtered stream are the same, whatever they reuse. */
  lemma {:induction false} FilterKeepsBanded(ms: seq<RtlMsg>, base: u32, window: nat)
    requires base + window <= WRAP32
    ensures P.Replay(Filter(ms, base, window), base, window) == P.Replay(ms, base, window)
  {
    hide BandedAfter, FilterOne;
    if ms != [] {
      var n := |ms| - 1;
      var f, fm := Filter(ms[..n], base, window), FilterOne(ms[n], base, window);
      FilterKeepsBanded(ms[..n], base, window);
      FilterOneIsOne(ms[n], base, window);
      FilteredStep(P.Replay(ms[..n], base, window), ms[n], base, window);
      if fm == [] { assert f + fm == f; } else { P.ReplaySnoc(f, fm[0], base, window); }
    }
  }

  /** Filtered arrivals that reuse no live reference settle. */
  lemma {:induction false} VacantSettles(ms: seq<RtlMsg>, base: u32, window: nat)
    requires base + window <= WRAP32 && AllVacant(Filter(ms, base, window))
    ensures AllSettle(ms, base, window) && AlwaysAgree(ms, base, window)
  {
    hide After, BandedAfter, FilteredAfter;
    if ms != [] {
      var n := |ms| - 1;
      var f, fm := Filter(ms[..n], base, window), FilterOne(ms[n], base, window);
      FilterOneIsOne(ms[n], base, window);
      if fm == [] { assert f + fm == f; } else { assert (f + fm)[..|f + fm| - 1] == f; }
      VacantSettles(ms[..n], base, window);
      AgreeNow(ms[..n], base, window);
    }
    Commutes(ms, base, window);
  }

  lemma FilterOneIsOne(m: RtlMsg, base: u32, window: nat)
    ensures var fm := FilterOne(m, base, window); fm == [] || fm == [fm[0]]
  {}

  /** A window past the largest price: the tool drops an Add at price 0, the hardware keeps it. */
  lemma WrappedWindowDiffers() returns (ms: seq<RtlMsg>, base: u32)
    ensures FreshRefs(ms) && P.Replay(ms, base, 2) != Unbanded(Filter(ms, base, 2))
  {
    var m: RtlMsg := NO_MESSAGE.(kind := AddOrder, orderRef := 1, shares := 10);
    ms, base := [m], U32_MAX;
    assert ms[..0] == [] && P.Replay([], base, 2) == map[] && Filter([], base, 2) == [];
    assert FreshRefs(ms[..0]) && Introduced(ms[..0]) == {};
    assert 1 in P.Replay(ms, base, 2) && Filter(ms, base, 2) == [];
  }

  /** An Add that reuses a live reference: the banded book keeps the first order, the unbanded
      book the second. */
  lemma ReusedReferenceDiffers() returns (ms: seq<RtlMsg>)
    ensures P.Replay(ms, 0, 100) != Unbanded(Filter(ms, 0, 100))
  {
    var a: RtlMsg := NO_MESSAGE.(kind := AddOrder, orderRef := 1, shares := 10);
    var b := a.(shares := 20);
    ms := [a, b];
    assert ms[..1] == [a] && [a][..0] == [];
    assert P.Replay([], 0, 100) == map[] && Unbanded([]) == map[] && Filter([], 0, 100) == [];
    assert P.Replay([a], 0, 100)[1].shares == 10 == P.Replay(ms, 0, 100)[1].shares;
    assert Filter([a], 0, 100) == [a] && Filter(ms, 0, 100) == ms;
    assert Unbanded(ms)[1].shares == 20;
  }

  /** On the filtered stream nothing is dropped. */
  lemma {:induction false} FilteredNeverDrops(ms: seq<RtlMsg>, base: u32, window: nat, m: RtlMsg, os: Orders)
    requires base + window <= WRAP32 && m in Filter(ms, base, window)
    ensures !Drops(os, m, base, window)
  {
    var last := ms[|ms| - 1];
    if m !in FilterOne(last, base, window) {
      FilteredNeverDrops(ms[..|ms| - 1], base, window, m, os);
    }
  }

  /** The band-drop counter stays at zero on a filtered stream. */
  lemma {:induction false} FilteredDropsNothing(ms: seq<RtlMsg>, base: u32, window: nat)
    requires base + window <= WRAP32
    ensures P.DropCount(Filter(ms, base, window), base, window) == 0
  {
    if ms != [] {
      var n := |ms| - 1;
      var f, fm := Filter(ms[..n], base, window), FilterOne(ms[n], base, window);
      FilteredDropsNothing(ms[..n], base, window);
      FilterOneIsOne(ms[n], base, window);
      if fm == [] { assert f + fm == f; } else { P.ReplaySnoc(f, fm[0], base, window); }
    }
  }

  /** A filtered stream passes the filter unchanged, so a book pinned at the filter's window
      shows the same for it as for the raw stream. */
  lemma {:induction false} FilterTwice(ms: seq<RtlMsg>, base: u32, window: nat)
    ensures Filter(Filter(ms, base, window), base, window) == Filter(ms, base, window)
  {
    if ms != [] {
      var f, fm := Filter(ms[..|ms| - 1], base, window), FilterOne(ms[|ms| - 1], base, window);
      FilterTwice(ms[..|ms| - 1], base, window);
      if fm == [] {
        assert f + fm == f;
      } else {
        assert fm == [fm[0]] && (f + fm)[..|f + fm| - 1] == f;
        assert FilterOne(fm[0], base, window) == fm;
      }
    }
  }

  /** A stream whose arrivals all lie in the window needs no banding at all. */
  lemma {:induction false} InWindowUnbanded(ms: seq<RtlMsg>, base: u32, window: nat)
    requires AllVacant(ms)
    requires forall m :: m in ms && (IsAdd(m) || m.kind == OrderReplace) ==> Offset(m.price, base) < window
    ensures P.Replay(ms, base, window) == Unbanded(ms)
  {
    if ms != [] { InWindowUnbanded(ms[..|ms| - 1], base, window); }
  }

  // ---- on bytes -------------------------------------------------------------------------------------

  /** What the tool writes for one body. A body too short for the price it should carry makes
      the tool fail. */
  function FilterBody(body: Bytes, base: u32, window: nat): seq<Bytes>
    requires PriceReadable(body)
  {
    var kind := if body == [] then Unknown else KindOf(body[0]);
    if kind in {AddOrder, AddOrderMpid} then if InBand(Be32(body, 34), base, window) then [body] else []
    else if kind == OrderReplace && !InBand(Be32(body, 33), base, window) then
      [[Code(OrderDelete)] + body[1..13] + body[13..21]]
    else [body]
  }

  predicate PriceReadable(body: Bytes) {
    body != [] ==>
      (KindOf(body[0]) in {AddOrder, AddOrderMpid} ==> |body| >= 38) &&
        (KindOf(body[0]) == OrderReplace ==> |body| >= 37)
  }

  function FilterBodies(bodies: seq<Bytes>, base: u32, window: nat): seq<Bytes>
    requires forall b :: b in bodies ==> PriceReadable(b)
  {
    if bodies == [] then []
    else FilterBodies(bodies[..|bodies| - 1], base, window) + FilterBody(bodies[|bodies| - 1], base, window)
  }

  /** A Replace longer than its type, priced outside the window: no book reads it, but the tool
      makes it a Delete that every book obeys. */
  predicate Stray(body: Bytes, base: u32, window: nat)
    requires PriceReadable(body)
  {
    && body != [] && KindOf(body[0]) == OrderReplace && |body| != BodyLen(OrderReplace)
    && !InBand(Be32(body, 33), base, window)
  }

  function Delivered(body: Bytes): seq<RtlMsg> {
    if Deliverable(body) then [Decode(body)] else []
  }

  lemma RewrittenDelete(body: Bytes)
    requires |body| >= 37 && KindOf(body[0]) == OrderReplace
    ensures var d := [Code(OrderDelete)] + body[1..13] + body[13..21];
      Deliverable(d) && (|body| == 37 ==> Decode(d) == AsDelete(Decode(body)))
  {
    var d := [Code(OrderDelete)] + body[1..13] + body[13..21];
    assert d[1..21] == body[1..21] by { assert body[1..21] == body[1..13] + body[13..21]; }
    forall i | 1 <= i < 21 ensures d[i] == body[i] { assert d[1..21][i - 1] == body[1..21][i - 1]; }
    assert KindOf(d[0]) == OrderDelete;
  }

  /** Filtering one body filters the message it delivers, if and only if it is no stray Replace;
      that one delivers a message where there was none. */
  lemma FilterBodyMessages(body: Bytes, base: u32, window: nat)
    requires PriceReadable(body)
    ensures var was, now := Delivered(body), Messages(FilterBody(body, base, window));
      && (now == (if was == [] then [] else FilterOne(was[0], base, window)) <==> !Stray(body, base, window))
      && (Stray(body, base, window) ==> was == [] && |now| == 1)
  {
    var out := FilterBody(body, base, window);
    if out != [] {
      assert out == [out[0]] && out[..0] == [];
      assert Messages(out) == Messages(out[..0]) + Delivered(out[0]);
      if out[0] != body { RewrittenDelete(body); }
    }
  }

  lemma FilterSnoc(ms: seq<RtlMsg>, x: seq<RtlMsg>, base: u32, window: nat)
    requires |x| <= 1
    ensures Filter(ms + x, base, window) ==
      Filter(ms, base, window) + if x == [] then [] else FilterOne(x[0], base, window)
  {
    if x == [] {
      assert ms + x == ms && Filter(ms, base, window) + [] == Filter(ms, base, window);
    } else {
      assert (ms + x)[..|ms + x| - 1] == ms;
    }
  }

  function Strays(bodies: seq<Bytes>, base: u32, window: nat): nat
    requires forall b :: b in bodies ==> PriceReadable(b)
  {
    if bodies == [] then 0
    else Strays(bodies[..|bodies| - 1], base, window) + if Stray(bodies[|bodies| - 1], base, window) then 1 else 0
  }

  /** Filtering the bodies filters the messages, if and only if none of them is a stray Replace:
      each one adds a message. */
  lemma {:induction false} FilterBytesFiltersMessages(bodies: seq<Bytes>, base: u32, window: nat)
    requires forall b :: b in bodies ==> PriceReadable(b)
    ensures var was, now := Filter(Messages(bodies), base, window), Messages(FilterBodies(bodies, base, window));
      |now| == |was| + Strays(bodies, base, window) && (now == was <==> Strays(bodies, base, window) == 0)
  {
    hide FilterBody, FilterOne, Stray, Deliverable, Decode, PriceReadable;
    if bodies != [] {
      var n := |bodies| - 1;
      assert bodies[n] in bodies && forall b :: b in bodies[..n] ==> b in bodies;
      FilterBytesFiltersMessages(bodies[..n], base, window);
      FilterBodyMessages(bodies[n], base, window);
      MessagesJoin(FilterBodies(bodies[..n], base, window), FilterBody(bodies[n], base, window));
      FilterSnoc(Messages(bodies[..n]), Delivered(bodies[n]), base, window);
    }
  }

  /** A 38-byte Replace out of the window: nothing to a book before, a Delete after. */
  lemma StrayRevives() returns (body: Bytes)
    ensures PriceReadable(body) && Messages([body]) == [] && Messages(FilterBody(body, 100, 10)) != []
  {
    body := [Code(OrderReplace)] + seq(37, _ => 0);
    assert [body][..0] == [];
    assert KindOf(body[0]) == OrderReplace && Be32(body, 33) == 0;
    FilterBodyMessages(body, 100, 10);
  }

  // ---- the tool ------------------------------------------------------------------------------------

  datatype Counts = Counts(kept: nat, addsDropped: nat, replacesRewritten: nat)

  /** The window around a centre price, not below zero. */
  function BaseFor(center: u32, window: nat): u32 {
    if center > window / 2 then center - window / 2 else 0
  }

  /** The centre lies in the window, half a window above its base unless the base is 0. */
  lemma CentreInBand(center: u32, window: nat)
    requires window > 0
    ensures var base := BaseFor(center, window);
      && InBand(center, base, window) && (base == 0 || center - base == window / 2)
      && (base == 0 ==> center <= window / 2)
  {}

  /** The bodies the tool sees: a zero-length frame ends the file for it. */
  function Pieces(s: Bytes): (bodies: seq<Bytes>)
    ensures forall b :: b in bodies ==> |b| < 0x1_0000
    decreases |s|
  {
    if |s| < 2 || Be16(s, 0) == 0 || |s| < 2 + Be16(s, 0) then []
    else [s[2..2 + Be16(s, 0)]] + Pieces(s[2 + Be16(s, 0)..])
  }

  /** The framer discards a zero-length frame and goes on: both split a stream alike if and only
      if it has none. */
  lemma {:induction false} PiecesAreFrames(s: Bytes)
    ensures Pieces(s) <= Frames(s) && [] !in Pieces(s)
    ensures Pieces(s) == Frames(s) <==> [] !in Frames(s)
    decreases |s|
  {
    hide Be16;
    if |s| >= 2 && |s| >= 2 + Be16(s, 0) {
      var rest := s[2 + Be16(s, 0)..];
      PiecesAreFrames(rest);
      assert Frames(s) == [s[2..2 + Be16(s, 0)]] + Frames(rest) && Frames(s)[0] in Frames(s);
      if Be16(s, 0) > 0 && Pieces(s) == Frames(s) {
        assert Pieces(rest) == Pieces(s)[1..] == Frames(s)[1..] == Frames(rest);
      }
    }
  }

  /** A message behind a zero-length frame reaches the book but not the tool. */
  lemma EmptyFrameStops(m: RtlMsg, x: Filler) returns (s: Bytes)
    requires m.kind != Unknown && FillerOk(x)
    ensures Pieces(s) == [] && |Messages(Frames(s))| == 1
  {
    var body, empty: Bytes := Encode(m, x), [];
    var bodies := [empty, body];
    s := Framed(bodies);
    DecodeEncode(m, x);
    assert [] + [empty] == [empty] && [empty] + [body] == bodies;
    FramedSnoc([], empty);
    FramedSnoc([empty], body);
    assert s[0] == 0 && s[1] == 0;
    FramesOfFramed(bodies, []);
    hide Encode, Decode, Framed, Frame;
    assert s + [] == s && bodies + Frames([]) == bodies;
  }

  lemma {:induction false} FilterFramable(bodies: seq<Bytes>, base: u32, window: nat)
    requires forall b :: b in bodies ==> PriceReadable(b) && |b| < 0x1_0000
    ensures Framable(FilterBodies(bodies, base, window)) && Framed([]) == []
  {
    if bodies != [] {
      FilterFramable(bodies[..|bodies| - 1], base, window);
      FilterOneFramable(bodies[|bodies| - 1], base, window);
      hide FilterBody;
    }
  }

  /** The whole tool, bytes to bytes: a book reads from its output the filtered messages of its
      input, when the input has no zero-length frame and no stray Replace. */
  lemma FileFiltersMessages(data: Bytes, base: u32, window: nat)
    requires forall b :: b in Pieces(data) ==> PriceReadable(b)
    ensures Framable(FilterBodies(Pieces(data), base, window))
    ensures var out := Framed(FilterBodies(Pieces(data), base, window));
      && (Messages(Frames(out)) == Filter(Messages(Pieces(data)), base, window)
        <==> Strays(Pieces(data), base, window) == 0)
      && ([] !in Frames(data) ==> Pieces(data) == Frames(data))
  {
    hide Pieces, Frames, Messages, Filter, FilterBodies, PriceReadable, Strays, Framed;
    var bodies := FilterBodies(Pieces(data), base, window);
    FilterFramable(Pieces(data), base, window);
    FramesOfFramed(bodies, []);
    assert Framed(bodies) + [] == Framed(bodies) && bodies + Frames([]) == bodies by { NoFrames(); }
    FilterBytesFiltersMessages(Pieces(data), base, window);
    PiecesAreFrames(data);
  }

  lemma NoFrames()
    ensures Frames([]) == []
  {}

  method Split(data: Bytes) returns (bodies: seq<Bytes>)
    ensures bodies == Pieces(data)
  {
    hide Be16;
    bodies := [];
    var o: nat := 0;
    assert data[0..] == data;
    while o + 2 <= |data|
      invariant o <= |data| && Pieces(data) == bodies + Pieces(data[o..])
      decreases |data| - o
    {
      var len := Be16(data, o);
      HeadOf(data, o);
      if len == 0 || o + 2 + len > |data| { return; }
      bodies := bodies + [data[o + 2..o + 2 + len]];
      o := o + 2 + len;
    }
  }

  lemma HeadOf(data: Bytes, o: nat)
    requires o + 2 <= |data|
    ensures Be16(data[o..], 0) == Be16(data, o)
    ensures var len := Be16(data, o);
      Pieces(data[o..]) ==
        if len == 0 || o + 2 + len > |data| then [] else [data[o + 2..o + 2 + len]] + Pieces(data[o + 2 + len..])
  {
    var len := Be16(data, o);
    if o + 2 + len <= |data| {
      assert data[o..][2..2 + len] == data[o + 2..o + 2 + len] && data[o..][2 + len..] == data[o + 2 + len..];
    }
  }

  /** What comes out for a body is another one. */
  predicate Altered(m: Bytes, base: u32, window: nat)
    requires PriceReadable(m)
  {
    FilterBody(m, base, window) != [] && FilterBody(m, base, window) != [m]
  }

  function AlteredCount(bodies: seq<Bytes>, base: u32, window: nat): nat
    requires forall b :: b in bodies ==> PriceReadable(b)
  {
    if bodies == [] then 0
    else
      var n := |bodies| - 1;
      AlteredCount(bodies[..n], base, window) + if Altered(bodies[n], base, window) then 1 else 0
  }

  /** One body: kept, dropped or rewritten. One too short for its price makes the tool fail. */
  method RewriteOne(m: Bytes, base: u32, window: nat) returns (ok: bool, out: seq<Bytes>, rewritten: bool)
    ensures ok <==> PriceReadable(m)
    ensures ok ==> out == FilterBody(m, base, window) && |out| <= 1
    ensures ok ==> (rewritten <==> Altered(m, base, window)) && (rewritten ==> out != [])
  {
    var kind := if m == [] then Unknown else KindOf(m[0]);
    ok, out, rewritten := true, [m], false;
    if kind in {AddOrder, AddOrderMpid} {
      if |m| < 38 { return false, [], false; }
      if !InBand(Be32(m, 34), base, window) { out := []; }
    } else if kind == OrderReplace {
      if |m| < 37 { return false, [], false; }
      if !InBand(Be32(m, 33), base, window) {
        out, rewritten := [[Code(OrderDelete)] + m[1..13] + m[13..21]], true;
      }
    }
  }

  lemma NoBodies(base: u32, window: nat)
    ensures FilterBodies([], base, window) == [] && AlteredCount([], base, window) == 0
  {}

  lemma NextBody(bodies: seq<Bytes>, m: Bytes, base: u32, window: nat)
    requires PriceReadable(m) && forall b :: b in bodies ==> PriceReadable(b)
    ensures forall b :: b in bodies + [m] ==> PriceReadable(b)
    ensures FilterBodies(bodies + [m], base, window) == FilterBodies(bodies, base, window) + FilterBody(m, base, window)
    ensures AlteredCount(bodies + [m], base, window) ==
      AlteredCount(bodies, base, window) + if Altered(m, base, window) then 1 else 0
  {
    assert (bodies + [m])[..|bodies|] == bodies;
  }

  /** The rewrite of a file. */
  method Rewrite(data: Bytes, center: u32, window: nat) returns (ok: bool, out: Bytes, stats: Counts)
    ensures ok <==> forall b :: b in Pieces(data) ==> PriceReadable(b)
    ensures ok ==>
      var bodies := FilterBodies(Pieces(data), BaseFor(center, window), window);
      && Framable(bodies) && out == Framed(bodies) && stats.kept == |bodies|
      && stats.kept + stats.addsDropped == |Pieces(data)|
      && stats.replacesRewritten == AlteredCount(Pieces(data), BaseFor(center, window), window)
  {
    hide Pieces, Framed, FilterBody, FilterBodies, PriceReadable, Frame, BaseFor, Altered, AlteredCount;
    var base := BaseFor(center, window);
    var bodies := Split(data);
    ok, out, stats := true, [], Counts(0, 0, 0);
    ghost var done: seq<Bytes> := [];
    FilterFramable([], base, window);
    NoBodies(base, window);
    for i := 0 to |bodies|
      invariant ok && forall b :: b in bodies[..i] ==> PriceReadable(b)
      invariant done == FilterBodies(bodies[..i], base, window) && Framable(done) && out == Framed(done)
      invariant stats.kept == |done| && stats.kept + stats.addsDropped == i
      invariant stats.replacesRewritten == AlteredCount(bodies[..i], base, window)
    {
      var m := bodies[i];
      assert bodies[..i + 1] == bodies[..i] + [m] && m in bodies;
      var readable, piece, rewritten := RewriteOne(m, base, window);
      if !readable { return false, [], stats; }
      FilterOneFramable(m, base, window);
      NextBody(bodies[..i], m, base, window);
      if piece == [] {
        stats := stats.(addsDropped := stats.addsDropped + 1);
        assert done + [] == done;
      } else {
        assert piece == [piece[0]] && piece[0] in piece;
        FramedSnoc(done, piece[0]);
        out := out + Frame(piece[0]);
        stats := stats.(kept := stats.kept + 1,
          replacesRewritten := stats.replacesRewritten + if rewritten then 1 else 0);
        done := done + piece;
      }
    }
    assert bodies[..|bodies|] == bodies;
  }

  lemma FilterOneFramable(body: Bytes, base: u32, window: nat)
    requires PriceReadable(body) && |body| < 0x1_0000
    ensures forall b :: b in FilterBody(body, base, window) ==> |b| < 0x1_0000
  {}
}
