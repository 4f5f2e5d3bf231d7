/** What a book must show for a set of live orders, and what one message does to that set. */
module BookSpec {
  import opened Itch
  import opened LiveOrders

  // ---- levels as sums of live orders -------------------------------------------

  predicate Rests(o: Order, loc: u16, side: char, price: nat) {
    o.locate == loc && o.side == side && o.price == price
  }

  function Size(o: Order): nat {
    o.shares
  }

  ghost function SharesAt(loc: u16, side: char, price: nat): Weight {
    (r: u64, o: Order) => if Rests(o, loc, side, price) then Size(o) else 0
  }

  ghost function CountAt(loc: u16, side: char, price: nat): Weight {
    (r: u64, o: Order) => if Rests(o, loc, side, price) then 1 else 0
  }

  ghost function Shares(m: Orders, loc: u16, side: char, price: nat): nat {
    Sum(m, SharesAt(loc, side, price))
  }

  ghost function Count(m: Orders, loc: u16, side: char, price: nat): nat {
    Sum(m, CountAt(loc, side, price))
  }

  /** Every level of every other symbol is unchanged. */
  ghost predicate SameElsewhere(m: Orders, m': Orders, loc: u16) {
    forall l, side, p :: l != loc ==>
      Shares(m', l, side, p) == Shares(m, l, side, p) && Count(m', l, side, p) == Count(m, l, side, p)
  }

  lemma LevelsPut(m: Orders, r: u64, o: Order)
    requires r !in m
    ensures forall loc, side, p ::
      Shares(m[r := o], loc, side, p) == Shares(m, loc, side, p) + (if Rests(o, loc, side, p) then Size(o) else 0)
    ensures forall loc, side, p ::
      Count(m[r := o], loc, side, p) == Count(m, loc, side, p) + (if Rests(o, loc, side, p) then 1 else 0)
    ensures SameElsewhere(m, m[r := o], o.locate)
  {
    assert m - {r} == m;
    forall loc, side, p
      ensures Shares(m[r := o], loc, side, p) ==
        Shares(m, loc, side, p) + (if Rests(o, loc, side, p) then Size(o) else 0)
      ensures Count(m[r := o], loc, side, p) ==
        Count(m, loc, side, p) + (if Rests(o, loc, side, p) then 1 else 0)
    {
      SumPut(m, SharesAt(loc, side, p), r, o);
      SumPut(m, CountAt(loc, side, p), r, o);
    }
  }

  lemma LevelsRemove(m: Orders, r: u64)
    requires r in m
    ensures forall loc, side, p ::
      Shares(m - {r}, loc, side, p) == Shares(m, loc, side, p) - (if Rests(m[r], loc, side, p) then Size(m[r]) else 0)
    ensures forall loc, side, p ::
      Count(m - {r}, loc, side, p) == Count(m, loc, side, p) - (if Rests(m[r], loc, side, p) then 1 else 0)
    ensures SameElsewhere(m, m - {r}, m[r].locate)
  {
    assert (m - {r})[r := m[r]] == m;
    LevelsPut(m - {r}, r, m[r]);
  }

  lemma LevelsShrink(m: Orders, r: u64, o: Order)
    requires r in m && o == m[r].(shares := o.shares)
    ensures forall loc, side, p ::
      Shares(m[r := o], loc, side, p) ==
        Shares(m, loc, side, p) - (if Rests(o, loc, side, p) then Size(m[r]) - Size(o) else 0)
    ensures forall loc, side, p :: Count(m[r := o], loc, side, p) == Count(m, loc, side, p)
    ensures SameElsewhere(m, m[r := o], o.locate)
  {
    assert (m - {r})[r := o] == m[r := o];
    LevelsRemove(m, r);
    LevelsPut(m - {r}, r, o);
  }

  lemma LevelsSwap(m: Orders, r: u64, r': u64, o': Order)
    requires r in m && r' !in m && o'.locate == m[r].locate
    ensures SameElsewhere(m, (m - {r})[r' := o'], o'.locate)
  {
    LevelsRemove(m, r);
    LevelsPut(m - {r}, r', o');
  }

  ghost predicate WellFormed(m: Orders, levels: nat) {
    forall r :: r in m ==>
      r != 0 && m[r].shares > 0 && 0 < m[r].price < levels && ValidSide(m[r].side) && m[r].locate != 0
  }

  /** A level is empty of shares exactly when it is empty of orders. */
  lemma EmptyTogether(m: Orders, levels: nat, loc: u16, side: char, price: nat)
    requires WellFormed(m, levels)
    ensures Shares(m, loc, side, price) == 0 <==> Count(m, loc, side, price) == 0
    ensures Count(m, loc, side, price) <= Shares(m, loc, side, price)
  {
    SumMonotone(m, CountAt(loc, side, price), SharesAt(loc, side, price));
    if Shares(m, loc, side, price) > 0 {
      var r := SumPositive(m, SharesAt(loc, side, price));
      SumBounds(m, CountAt(loc, side, price), r);
    }
  }

  /** The level of a live order holds at least that order, and nothing else exactly when
      its shares are all there is. */
  lemma OrderInLevel(m: Orders, levels: nat, r: u64)
    requires WellFormed(m, levels) && r in m
    ensures var o := m[r];
      && o.shares <= Shares(m, o.locate, o.side, o.price) && 1 <= Count(m, o.locate, o.side, o.price)
      && (o.shares == Shares(m, o.locate, o.side, o.price) <==> 1 == Count(m, o.locate, o.side, o.price))
  {
    var o := m[r];
    LevelsRemove(m, r);
    EmptyTogether(m - {r}, levels, o.locate, o.side, o.price);
  }

  lemma NoOrdersAt(m: Orders, loc: u16, side: char, price: nat)
    requires forall r :: r in m ==> !Rests(m[r], loc, side, price)
    ensures Shares(m, loc, side, price) == 0 == Count(m, loc, side, price)
  {
    SumZero(m, SharesAt(loc, side, price));
    SumZero(m, CountAt(loc, side, price));
  }

  /** The orders after r lost qty shares. */
  function Less(os: Orders, r: u64, qty: u32): Orders
    requires r in os && qty <= os[r].shares
  {
    if qty == os[r].shares then os - {r} else os[r := os[r].(shares := os[r].shares - qty)]
  }

  // ---- one message ------------------------------------------------------------------

  datatype Status =
    | Ignored | Applied | InvalidEvent | DuplicateReference
    | MissingReference | ReferenceTableFull | ResyncRequired

  predicate IsAdd(m: Message) {
    m.kind == AddOrder || m.kind == AddOrderMpid
  }

  predicate IsExec(m: Message) {
    m.kind == OrderExecuted || m.kind == OrderExecutedPrice
  }

  predicate IsReduce(m: Message) {
    IsExec(m) || m.kind == OrderCancel
  }

  /** What the software book answers to a message when its live orders are `os`. */
  ghost function Outcome(os: Orders, m: Message, levels: nat, cap: nat): Status {
    if IsAdd(m) then
      if !ValidSide(m.side) || m.orderRef == 0 || m.locate == 0 || m.price == 0 || m.price >= levels || m.shares == 0
      then InvalidEvent
      else if m.orderRef in os then DuplicateReference
      else if Shares(os, m.locate, m.side, m.price) + m.shares > U32_MAX then InvalidEvent
      else if |os| >= cap then ReferenceTableFull
      else Applied
    else if IsReduce(m) then
      if m.orderRef == 0 || m.shares == 0 then InvalidEvent
      else if m.orderRef !in os then MissingReference
      else if m.shares > os[m.orderRef].shares then InvalidEvent
      else Applied
    else if m.kind == OrderDelete then
      if m.orderRef !in os then MissingReference else Applied
    else if m.kind == OrderReplace then
      if m.orderRef !in os then MissingReference
      else if m.newOrderRef == 0 || m.newOrderRef == m.orderRef || m.price == 0 || m.price >= levels || m.shares == 0
      then InvalidEvent
      else if m.newOrderRef in os then DuplicateReference
      else
        var o := os[m.orderRef];
        if Shares(os - {m.orderRef}, o.locate, o.side, m.price) + m.shares > U32_MAX then InvalidEvent
        else Applied
    else if m.kind == Trade || m.kind == SystemEvent then Applied
    else Ignored
  }

  /** The live orders after an accepted message. */
  function After(os: Orders, m: Message): (r: Orders) {
    if IsAdd(m) then os[m.orderRef := Order(m.price, m.shares, m.locate, m.side)]
    else if m.orderRef !in os then os
    else
      var o := os[m.orderRef];
      if IsReduce(m) then
        if m.shares >= o.shares then os - {m.orderRef}
        else os[m.orderRef := o.(shares := o.shares - m.shares)]
      else if m.kind == OrderDelete then os - {m.orderRef}
      else if m.kind == OrderReplace then
        (os - {m.orderRef})[m.newOrderRef := Order(m.price, m.shares, o.locate, o.side)]
      else os
  }

  ghost function Step(os: Orders, m: Message, levels: nat, cap: nat): Orders {
    if Outcome(os, m, levels, cap) == Applied then After(os, m) else os
  }

  /** The message makes the engine erase a table entry, which never returns on a full table. */
  ghost predicate Erases(os: Orders, m: Message, levels: nat, cap: nat) {
    && Outcome(os, m, levels, cap) == Applied && m.orderRef in os
    && (m.kind == OrderDelete || m.kind == OrderReplace || (IsReduce(m) && m.shares == os[m.orderRef].shares))
  }

  /** Live orders after a stream. */
  ghost function Run(ms: seq<Message>, levels: nat, cap: nat): Orders {
    if ms == [] then map[] else Step(Run(ms[..|ms| - 1], levels, cap), ms[|ms| - 1], levels, cap)
  }

  // ---- what a message does, seen on the levels ----------------------------------------

  /** Share and order counts a message adds to one level, less what it takes from it. */
  ghost predicate Moves(os: Orders, os': Orders, loc: u16, side: char, p: nat, shares: int, count: int) {
    && Shares(os', loc, side, p) == Shares(os, loc, side, p) + shares
    && Count(os', loc, side, p) == Count(os, loc, side, p) + count
  }

  /** An Add puts its shares and one order on its level, and touches nothing else. */
  lemma AddMoves(os: Orders, m: Message, levels: nat, cap: nat, loc: u16, side: char, p: nat)
    requires IsAdd(m) && Outcome(os, m, levels, cap) == Applied
    ensures var os' := After(os, m);
      && m.orderRef in os' && os' - {m.orderRef} == os
      && var here := loc == m.locate && side == m.side && p == m.price;
        Moves(os, os', loc, side, p, if here then m.shares else 0, if here then 1 else 0)
  {
    LevelsPut(os, m.orderRef, Order(m.price, m.shares, m.locate, m.side));
  }

  /** An execution or cancel takes its shares from the level the order rests on, and the order
      itself when nothing is left of it. A Delete takes all that is left. */
  lemma ReduceMoves(os: Orders, m: Message, levels: nat, cap: nat, loc: u16, side: char, p: nat)
    requires (IsReduce(m) || m.kind == OrderDelete) && Outcome(os, m, levels, cap) == Applied
    ensures m.orderRef in os
    ensures var os', o := After(os, m), os[m.orderRef];
      var x := if m.kind == OrderDelete then o.shares else m.shares;
      && x <= o.shares && (m.orderRef in os' <==> x < o.shares) && os' - {m.orderRef} == os - {m.orderRef}
      && var here := loc == o.locate && side == o.side && p == o.price;
        Moves(os, os', loc, side, p, if here then -(x as int) else 0, if here && x == o.shares then -1 else 0)
  {
    var o := os[m.orderRef];
    if m.kind == OrderDelete || m.shares == o.shares {
      LevelsRemove(os, m.orderRef);
    } else {
      LevelsShrink(os, m.orderRef, o.(shares := o.shares - m.shares));
      assert os[m.orderRef := o.(shares := o.shares - m.shares)] - {m.orderRef} == os - {m.orderRef};
    }
  }

  /** A Replace takes the old order from its level and puts the new shares on the new price, on
      the same side of the same book. */
  lemma ReplaceMoves(os: Orders, m: Message, levels: nat, cap: nat, loc: u16, side: char, p: nat)
    requires m.kind == OrderReplace && Outcome(os, m, levels, cap) == Applied
    ensures m.orderRef in os
    ensures var os', o := After(os, m), os[m.orderRef];
      && m.orderRef !in os' && m.newOrderRef in os' && os' - {m.newOrderRef} == os - {m.orderRef}
      && var was := loc == o.locate && side == o.side && p == o.price;
        var here := loc == o.locate && side == o.side && p == m.price;
        Moves(os, os', loc, side, p, (if here then m.shares else 0) - (if was then o.shares else 0),
          (if here then 1 else 0) - (if was then 1 else 0))
  {
    var o := os[m.orderRef];
    LevelsRemove(os, m.orderRef);
    LevelsPut(os - {m.orderRef}, m.newOrderRef, Order(m.price, m.shares, o.locate, o.side));
  }

  /** A message is applied exactly when it makes sense and the book after it can be shown: levels
      of 32 bits, references within the table. */
  lemma AppliedExactly(os: Orders, m: Message, levels: nat, cap: nat)
    ensures IsAdd(m) ==> (Outcome(os, m, levels, cap) == Applied <==>
      && m.side in {'B', 'S'} && m.orderRef > 0 && m.locate > 0 && 0 < m.price < levels && m.shares > 0
      && m.orderRef !in os && |After(os, m)| <= cap
      && Shares(After(os, m), m.locate, m.side, m.price) < 0x1_0000_0000)
    ensures m.kind == OrderReplace ==> (Outcome(os, m, levels, cap) == Applied <==>
      && m.orderRef in os && m.newOrderRef > 0 && m.newOrderRef !in os && 0 < m.price < levels && m.shares > 0
      && Shares(After(os, m), os[m.orderRef].locate, os[m.orderRef].side, m.price) < 0x1_0000_0000)
    ensures IsReduce(m) ==> (Outcome(os, m, levels, cap) == Applied <==>
      m.orderRef > 0 && m.orderRef in os && 0 < m.shares <= os[m.orderRef].shares)
    ensures m.kind == OrderDelete ==> (Outcome(os, m, levels, cap) == Applied <==> m.orderRef in os)
  {
    if IsAdd(m) && m.orderRef !in os {
      LevelsPut(os, m.orderRef, Order(m.price, m.shares, m.locate, m.side));
    } else if m.kind == OrderReplace && m.orderRef in os && m.newOrderRef !in os {
      var o := os[m.orderRef];
      LevelsPut(os - {m.orderRef}, m.newOrderRef, Order(m.price, m.shares, o.locate, o.side));
    }
  }
}
