/** The fast book: one reference table and one price-indexed book per symbol. */
module BookEngine {
  import opened Itch
  import opened LiveOrders
  import opened BookSpec
  import R = OrderRefTable
  import B = OrderBook

  datatype ExecResult = ExecResult(contributes: bool, price: u32, shares: u32, locate: u16)

  const NO_EXEC := ExecResult(false, 0, 0, 0)

  /** The trade print of an applied message: E at the resting price, C at its own price
      when printable, P as it stands. */
  ghost function Print(os: Orders, m: Message): ExecResult {
    if m.kind == Trade then ExecResult(true, m.price, m.shares, m.locate)
    else if IsExec(m) && m.orderRef in os then
      var o := os[m.orderRef];
      if m.kind == OrderExecutedPrice then ExecResult(m.printable, m.price, m.shares, o.locate)
      else ExecResult(true, o.price, m.shares, o.locate)
    else NO_EXEC
  }

  /** Where and how an applied message prints, seen on the levels. An execution of type E prints
      at the resting price: the level there loses exactly the printed shares. One of type C prints
      its own price, a Trade prints as it stands, and nothing else contributes. */
  ghost predicate Prints(os: Orders, os': Orders, m: Message, out: ExecResult) {
    && (out.contributes ==> IsExec(m) || m.kind == Trade)
    && (IsExec(m) && m.orderRef in os ==>
      var o := os[m.orderRef];
      var level := if m.kind == OrderExecuted then out.price else o.price;
      && out.shares == m.shares
      && Shares(os', out.locate, o.side, level) == Shares(os, out.locate, o.side, level) - out.shares)
    && (m.kind == OrderExecuted ==> out.contributes)
    && (m.kind == OrderExecutedPrice ==> out.price == m.price && (out.contributes <==> m.printable))
    && (m.kind == Trade ==>
      out.contributes && out.price == m.price && out.shares == m.shares && out.locate == m.locate)
  }

  lemma PrintLaws(os: Orders, m: Message, levels: nat, cap: nat)
    requires Outcome(os, m, levels, cap) == Applied
    ensures Prints(os, After(os, m), m, Print(os, m))
  {
    if IsExec(m) {
      var o := os[m.orderRef];
      if m.shares == o.shares {
        LevelsRemove(os, m.orderRef);
      } else {
        LevelsShrink(os, m.orderRef, o.(shares := o.shares - m.shares));
      }
    }
  }

  /** What a status tells about the message and the book. */
  lemma StatusLaws(os: Orders, m: Message, levels: nat, cap: nat)
    ensures var status := Outcome(os, m, levels, cap);
      var arriving := if m.kind == OrderReplace then m.newOrderRef else m.orderRef;
      && (status == Ignored <==> m.kind == Unknown)
      && (status == MissingReference ==> m.orderRef !in os && !IsAdd(m))
      && (status == DuplicateReference ==> arriving in os && (IsAdd(m) || m.kind == OrderReplace))
      && (status == ReferenceTableFull ==> |os| >= cap && IsAdd(m))
      && status != ResyncRequired
      && (m.orderRef !in os && (m.kind in {OrderDelete, OrderReplace} || (IsReduce(m) && m.orderRef > 0 && m.shares > 0))
        ==> status == MissingReference)
      && (IsReduce(m) && m.orderRef in os && m.orderRef > 0 ==>
        (status == Applied <==> 0 < m.shares <= os[m.orderRef].shares))
  {}

  lemma NoPrint(os: Orders, m: Message)
    requires !IsExec(m) && m.kind != Trade
    ensures Print(os, m) == NO_EXEC
  {}

  lemma Quiet(os: Orders, m: Message, levels: nat, cap: nat)
    requires m.kind == Trade || m.kind == SystemEvent || m.kind == Unknown
    ensures After(os, m) == os
    ensures Outcome(os, m, levels, cap) == (if m.kind == Unknown then Ignored else Applied)
    ensures Print(os, m) == if m.kind == Trade then ExecResult(true, m.price, m.shares, m.locate) else NO_EXEC
  {}

  /** Every level of the book is the sum and the count of its live orders. */
  ghost predicate Shows(b: B.OrderBook, os: Orders, loc: u16)
    requires b.Shape()
    reads b
  {
    forall side, p :: ValidSide(side) && 0 <= p < b.levels ==>
      && b.LevelAt(side, p).shares == Shares(os, loc, side, p)
      && b.LevelAt(side, p).count == Count(os, loc, side, p)
  }

  /** The level operations of the book, told as what they do to the orders it shows. */
  method AddShown(b: B.OrderBook, ghost os: Orders, ghost levels: nat, r: u64, o: Order) returns (ok: bool)
    requires b.Valid() && Shows(b, os, o.locate) && WellFormed(os, levels) && r !in os
    requires 0 < o.price < levels <= b.levels && o.shares > 0 && ValidSide(o.side)
    requires Shares(os, o.locate, o.side, o.price) + o.shares <= U32_MAX
    modifies b
    ensures b.Valid() && ok && Shows(b, os[r := o], o.locate)
  {
    EmptyTogether(os, levels, o.locate, o.side, o.price);
    LevelsPut(os, r, o);
    ok := b.Add(o.side, o.price, o.shares);
  }

  method RemoveShown(b: B.OrderBook, ghost os: Orders, ghost levels: nat, r: u64, o: Order, qty: u32, gone: bool)
    returns (ok: bool)
    requires b.Valid() && WellFormed(os, levels) && r in os && o == os[r] && Shows(b, os, o.locate)
    requires levels <= b.levels && 0 < qty <= o.shares && gone == (qty == o.shares)
    modifies b
    ensures b.Valid() && ok
    ensures Shows(b, if gone then os - {r} else os[r := o.(shares := o.shares - qty)], o.locate)
  {
    OrderInLevel(os, levels, r);
    ghost var o' := o.(shares := o.shares - qty);
    ghost var os' := if gone then os - {r} else os[r := o'];
    if gone { LevelsRemove(os, r); } else { LevelsShrink(os, r, o'); }
    ok := b.Remove(o.side, o.price, qty, gone);
    forall side, p | ValidSide(side) && 0 <= p < b.levels
      ensures b.LevelAt(side, p).shares == Shares(os', o.locate, side, p)
      ensures b.LevelAt(side, p).count == Count(os', o.locate, side, p)
    {
      assert old(b.LevelAt(side, p)).shares == Shares(os, o.locate, side, p);
    }
  }

  method ReplaceShown(b: B.OrderBook, ghost os: Orders, ghost levels: nat, r: u64, o: Order, r': u64, o': Order)
    returns (ok: bool)
    requires b.Valid() && WellFormed(os, levels) && r in os && o == os[r] && Shows(b, os, o.locate)
    requires r' !in os && o'.locate == o.locate && o'.side == o.side
    requires b.CanReplace(o.side, o.price, o.shares, o'.price, o'.shares)
    modifies b
    ensures b.Valid() && ok && Shows(b, (os - {r})[r' := o'], o.locate)
  {
    LevelsRemove(os, r);
    LevelsPut(os - {r}, r', o');
    ok := b.Replace(o.side, o.price, o.shares, o'.price, o'.shares);
  }

  /** The book's own guard accepts exactly the additions that fit the level. */
  lemma AddGuard(b: B.OrderBook, os: Orders, levels: nat, loc: u16, side: char, price: nat, shares: nat)
    requires b.Shape() && Shows(b, os, loc) && WellFormed(os, levels)
    requires ValidSide(side) && 0 < price < b.levels && shares > 0
    ensures b.CanAdd(side, price, shares) <==> Shares(os, loc, side, price) + shares <= U32_MAX
  {
    EmptyTogether(os, levels, loc, side, price);
  }

  lemma ReplaceGuard(b: B.OrderBook, os: Orders, levels: nat, r: u64, price: nat, shares: nat)
    requires b.Shape() && WellFormed(os, levels) && r in os && Shows(b, os, os[r].locate) && levels <= b.levels
    requires 0 < price < b.levels && shares > 0
    ensures var o := os[r];
      b.CanReplace(o.side, o.price, o.shares, price, shares)
      <==> Shares(os - {r}, o.locate, o.side, price) + shares <= U32_MAX
  {
    OrderInLevel(os, levels, r);
    LevelsRemove(os, r);
    EmptyTogether(os, levels, os[r].locate, os[r].side, price);
  }

  /** The answers to a Replace, case by case. */
  lemma ReplaceCases(os: Orders, m: Message, levels: nat, cap: nat)
    requires m.kind == OrderReplace
    ensures var malformed := m.newOrderRef == 0 || m.newOrderRef == m.orderRef || m.price == 0 ||
      m.price >= levels || m.shares == 0;
      Outcome(os, m, levels, cap) ==
        if m.orderRef !in os then MissingReference
        else if malformed then InvalidEvent
        else if m.newOrderRef in os then DuplicateReference
        else if Shares(os - {m.orderRef}, os[m.orderRef].locate, os[m.orderRef].side, m.price) + m.shares > U32_MAX
        then InvalidEvent
        else Applied
    ensures Outcome(os, m, levels, cap) == Applied ==>
      var o := os[m.orderRef];
      && Erases(os, m, levels, cap)
      && After(os, m) == (os - {m.orderRef})[m.newOrderRef := Order(m.price, m.shares, o.locate, o.side)]
  {}

  lemma ReduceCases(os: Orders, m: Message, levels: nat, cap: nat)
    requires IsReduce(m)
    ensures Outcome(os, m, levels, cap) ==
        if m.orderRef == 0 || m.shares == 0 then InvalidEvent
        else if m.orderRef !in os then MissingReference
        else if m.shares > os[m.orderRef].shares then InvalidEvent
        else Applied
    ensures Outcome(os, m, levels, cap) == Applied ==>
      && After(os, m) == Less(os, m.orderRef, m.shares)
      && (Erases(os, m, levels, cap) <==> m.shares == os[m.orderRef].shares)
  {}

  class BookEngine {
    const priceLevels: u32
    const refs: R.OrderRefTable
    var books: map<u16, B.OrderBook>
    var lastStatus: Status

    ghost var Repr: set<object>

    ghost function Orders(): Orders
      reads refs
    {
      refs.Contents
    }

    ghost predicate Separate()
      reads this`books, this`Repr
    {
      && {this, refs, refs.keys, refs.vals} <= Repr
      && (forall l :: l in books ==> books[l] in Repr)
      && (forall l, k :: l in books && k in books && l != k ==> books[l] != books[k])
    }

    ghost predicate BookOk(l: u16, os: Orders)
      requires l in books
      reads this`books, books[l]
    {
      && books[l].Valid() && books[l].levels == (if priceLevels > 0 then priceLevels else 1)
      && Shows(books[l], os, l)
    }

    ghost predicate Valid()
      reads this, Repr
      ensures Valid() ==> Separate()
    {
      && Separate()
      && refs.Valid() && WellFormed(Orders(), priceLevels)
      && (forall r :: r in Orders() ==> Orders()[r].locate in books)
      && (forall l :: l in books ==> books[l] in Repr && BookOk(l, Orders()))
    }

    constructor (priceLevels: u32, refCapacity: nat, hash: u64 -> nat)
      requires refCapacity <= 0x8000_0000
      ensures Valid() && fresh(Repr) && Orders() == map[] && books == map[]
      ensures this.priceLevels == priceLevels && refs.cap == R.TableSize(refCapacity)
    {
      this.priceLevels := priceLevels;
      refs := new R.OrderRefTable(refCapacity, hash);
      books := map[];
      lastStatus := Ignored;
      new;
      Repr := {this, refs, refs.keys, refs.vals};
    }

    method GetOrMake(loc: u16) returns (b: B.OrderBook)
      requires Valid()
      modifies this`books, this`Repr
      ensures Valid() && loc in books && books[loc] == b
      ensures books == old(books)[loc := b]
      ensures loc in old(books) ==> b == old(books)[loc]
      ensures fresh(Repr - old(Repr))
    {
      hide R.OrderRefTable.Valid, B.OrderBook.Valid, WellFormed;
      if loc in books {
        assert books == books[loc := books[loc]];
        return books[loc];
      }
      b := new B.OrderBook(priceLevels);
      forall side, p | ValidSide(side) && 0 <= p < b.levels
        ensures Shares(Orders(), loc, side, p) == 0 == Count(Orders(), loc, side, p)
      {
        NoOrdersAt(Orders(), loc, side, p);
      }
      assert Shows(b, Orders(), loc);
      books := books[loc := b];
      Repr := Repr + {b};
      assert BookOk(loc, Orders());
      assert forall l :: l in old(books) ==> BookOk(l, Orders()) by {
        forall l | l in old(books) ensures BookOk(l, Orders()) { assert old(BookOk(l, Orders())); }
      }
    }

    /** In the middle of a message: the table holds `held`, the symbol's book shows `shown`, and
        every other book still shows `os`. */
    ghost predicate Moving(loc: u16, os: Orders, held: Orders, shown: Orders)
      reads this, Repr
    {
      && Separate() && loc in books && refs.Valid() && Orders() == held && BookOk(loc, shown)
      && (forall l :: l in books && l != loc ==> books[l] in Repr && BookOk(l, os))
    }

    lemma Begin(loc: u16)
      requires Valid() && (loc in books || exists r :: r in Orders() && Orders()[r].locate == loc)
      ensures Moving(loc, Orders(), Orders(), Orders()) && SameElsewhere(Orders(), Orders(), loc)
      ensures Separate() && Fitting(Orders())
    {
      hide R.OrderRefTable.Valid, WellFormed;
    }

    /** Once table and book of the symbol have moved to the new orders, the engine is valid. */
    lemma Commit(loc: u16, os: Orders, os': Orders)
      requires Moving(loc, os, os', os') && SameElsewhere(os, os', loc)
      requires Fitting(os')
      ensures Valid()
    {
      hide R.OrderRefTable.Valid, B.OrderBook.Valid, WellFormed;
      forall l | l in books ensures BookOk(l, os') {
        if l != loc { assert BookOk(l, os); }
      }
    }

    /** The orders after one accepted change are well formed, and their symbols have books. */
    ghost predicate Fitting(os: Orders)
      reads this`books
    {
      WellFormed(os, priceLevels) && forall r :: r in os ==> os[r].locate in books
    }

    lemma FittingPut(os: Orders, r: u64, o: Order)
      requires Fitting(os) && r != 0 && o.locate != 0 && o.locate in books
      requires ValidSide(o.side) && 0 < o.price < priceLevels && o.shares > 0
      ensures Fitting(os[r := o])
    {}

    lemma LevelsEnter(os: Orders, r: u64, o: Order)
      requires r !in os
      ensures SameElsewhere(os, os[r := o], o.locate)
    {
      LevelsPut(os, r, o);
    }

    lemma LevelsLess(os: Orders, r: u64, qty: u32)
      requires r in os && qty <= os[r].shares
      ensures SameElsewhere(os, Less(os, r, qty), os[r].locate)
    {
      if qty == os[r].shares {
        LevelsRemove(os, r);
      } else {
        LevelsShrink(os, r, os[r].(shares := os[r].shares - qty));
      }
    }

    lemma FittingSwap(os: Orders, r: u64, r': u64, o': Order)
      requires Fitting(os) && r in os && r' != 0 && o'.locate == os[r].locate && o'.side == os[r].side
      requires 0 < o'.price < priceLevels && o'.shares > 0
      ensures Fitting((os - {r})[r' := o']) && os[r].locate in books
    {}

    lemma FittingLess(os: Orders, r: u64, qty: u32)
      requires Fitting(os) && r in os && qty <= os[r].shares
      ensures Fitting(Less(os, r, qty)) && os[r].locate in books
    {}

    method EnterEntry(ghost loc: u16, ghost os: Orders, ghost shown: Orders, r: u64, o: Order) returns (ok: bool)
      requires Moving(loc, os, Orders(), shown)
      modifies refs, refs.keys, refs.vals
      ensures ok <==> r != 0 && (r in old(Orders()) || |old(Orders())| < refs.cap)
      ensures Orders() == if ok then old(Orders())[r := o] else old(Orders())
      ensures Moving(loc, os, Orders(), shown)
    {
      hide R.OrderRefTable.Valid, B.OrderBook.Valid, Shows;
      ok := refs.Insert(r, o);
    }

    method EraseEntry(ghost loc: u16, ghost os: Orders, ghost shown: Orders, r: u64)
      requires Moving(loc, os, Orders(), shown) && r in Orders() && |Orders()| < refs.cap
      modifies refs, refs.keys, refs.vals
      ensures Orders() == old(Orders()) - {r} && Moving(loc, os, Orders(), shown)
    {
      hide R.OrderRefTable.Valid, B.OrderBook.Valid, Shows;
      var _ := refs.Erase(r);
    }

    method SetEntry(ghost loc: u16, ghost os: Orders, ghost shown: Orders, idx: nat, r: u64, left: u32)
      requires Moving(loc, os, Orders(), shown) && idx < refs.cap && refs.keys[idx] == r && r in Orders()
      modifies refs, refs.vals
      ensures Orders() == old(Orders())[r := old(Orders())[r].(shares := left)] && Moving(loc, os, Orders(), shown)
    {
      hide B.OrderBook.Valid, Shows;
      refs.SetShares(idx, left);
      hide R.OrderRefTable.Valid;
    }

    method AddToLevel(b: B.OrderBook, ghost os: Orders, r: u64, o: Order)
      requires Moving(o.locate, os, Orders(), os) && b == books[o.locate] && Fitting(os) && r !in os
      requires 0 < o.price < priceLevels && o.shares > 0 && ValidSide(o.side)
      requires Shares(os, o.locate, o.side, o.price) + o.shares <= U32_MAX
      modifies b
      ensures Moving(o.locate, os, Orders(), os[r := o]) && Orders() == old(Orders())
    {
      hide R.OrderRefTable.Valid, B.OrderBook.Valid, Shows, WellFormed;
      var added := AddShown(b, os, priceLevels, r, o);
      if !added { assert false; }   // the source's rollback and ResyncRequired
    }

    method TakeFromLevel(b: B.OrderBook, ghost os: Orders, r: u64, o: Order, qty: u32)
      requires Moving(o.locate, os, Orders(), os) && b == books[o.locate] && Fitting(os)
      requires r in os && o == os[r] && 0 < qty <= o.shares
      modifies b
      ensures Moving(o.locate, os, Orders(), Less(os, r, qty)) && Orders() == old(Orders())
    {
      hide R.OrderRefTable.Valid, B.OrderBook.Valid, Shows, WellFormed;
      var removed := RemoveShown(b, os, priceLevels, r, o, qty, qty == o.shares);
      if !removed { assert false; }   // the source's ResyncRequired
    }

    method MoveLevels(b: B.OrderBook, ghost os: Orders, r: u64, o: Order, r': u64, o': Order)
      requires Moving(o.locate, os, Orders(), os) && b == books[o.locate] && Fitting(os)
      requires r in os && o == os[r] && r' !in os && o'.locate == o.locate && o'.side == o.side
      requires b.CanReplace(o.side, o.price, o.shares, o'.price, o'.shares)
      modifies b
      ensures Moving(o.locate, os, Orders(), (os - {r})[r' := o']) && Orders() == old(Orders())
    {
      hide R.OrderRefTable.Valid, B.OrderBook.Valid, Shows, WellFormed, B.OrderBook.CanReplace;
      var replaced := ReplaceShown(b, os, priceLevels, r, o, r', o');
      if !replaced { assert false; }   // the source's second rollback and ResyncRequired
    }

    /** The second half of an accepted Add: table first, then the level. */
    method Enter(b: B.OrderBook, r: u64, o: Order) returns (status: Status)
      requires Valid() && o.locate in books && b == books[o.locate]
      requires r != 0 && r !in Orders() && o.locate != 0
      requires ValidSide(o.side) && 0 < o.price < priceLevels && o.shares > 0
      requires Shares(Orders(), o.locate, o.side, o.price) + o.shares <= U32_MAX
      modifies Repr
      ensures Valid() && Repr == old(Repr)
      ensures status == if |old(Orders())| >= refs.cap then ReferenceTableFull else Applied
      ensures Orders() == if status == Applied then old(Orders())[r := o] else old(Orders())
    {
      hide Moving, Fitting, SameElsewhere, Valid, Shares, Rests, WellFormed, BookOk, B.OrderBook.CanReplace;
      ghost var os := Orders();
      Begin(o.locate);
      LevelsEnter(os, r, o);
      FittingPut(os, r, o);
      var inserted := EnterEntry(o.locate, os, os, r, o);
      if !inserted {
        Commit(o.locate, os, os);
        return ReferenceTableFull;
      }
      AddToLevel(b, os, r, o);
      Commit(o.locate, os, os[r := o]);
      return Applied;
    }

    method OnAdd(m: Message) returns (status: Status)
      requires Valid() && IsAdd(m)
      modifies Repr
      ensures Valid() && fresh(Repr - old(Repr))
      ensures status == Outcome(old(Orders()), m, priceLevels, refs.cap)
      ensures Orders() == if status == Applied then After(old(Orders()), m) else old(Orders())
    {
      hide Shares, R.OrderRefTable.Valid, B.OrderBook.Valid, Shows, B.OrderBook.CanAdd;
      if !ValidSide(m.side) || m.orderRef == 0 || m.locate == 0 || m.price == 0
         || m.price >= priceLevels || m.shares == 0 {
        return InvalidEvent;
      }
      var found := refs.FindIndex(m.orderRef);
      if found >= 0 { return DuplicateReference; }
      var b := GetOrMake(m.locate);
      assert BookOk(m.locate, Orders());
      AddGuard(b, Orders(), priceLevels, m.locate, m.side, m.price, m.shares);
      if !b.CanAdd(m.side, m.price, m.shares) { return InvalidEvent; }
      status := Enter(b, m.orderRef, Order(m.price, m.shares, m.locate, m.side));
    }

    /** The second half of an accepted Execute, Cancel or Delete: level first, then table. */
    method Reduce(b: B.OrderBook, idx: nat, r: u64, o: Order, qty: u32)
      requires Valid() && r in Orders() && o == Orders()[r] && b == books[o.locate]
      requires idx < refs.cap && refs.keys[idx] == r
      requires 0 < qty <= o.shares && (qty == o.shares ==> |Orders()| < refs.cap)
      modifies Repr
      ensures Valid() && Repr == old(Repr)
      ensures Orders() == Less(old(Orders()), r, qty)
    {
      hide Moving, Fitting, SameElsewhere, Valid, Shares, Rests, WellFormed, BookOk, B.OrderBook.CanReplace;
      ghost var os := Orders();
      ghost var os' := Less(os, r, qty);
      Begin(o.locate);
      LevelsLess(os, r, qty);
      FittingLess(os, r, qty);
      TakeFromLevel(b, os, r, o, qty);
      SetEntry(o.locate, os, os', idx, r, o.shares - qty);
      if qty == o.shares {
        EraseEntry(o.locate, os, os', r);
        assert os[r := o.(shares := 0)] - {r} == os - {r};
      }
      Commit(o.locate, os, os');
    }

    method OnReduce(m: Message, isExec: bool) returns (status: Status, out: ExecResult)
      requires Valid() && IsReduce(m) && isExec == IsExec(m)
      requires Erases(Orders(), m, priceLevels, refs.cap) ==> |Orders()| < refs.cap
      modifies Repr
      ensures Valid() && fresh(Repr - old(Repr))
      ensures status == Outcome(old(Orders()), m, priceLevels, refs.cap)
      ensures Orders() == if status == Applied then After(old(Orders()), m) else old(Orders())
      ensures out == if status == Applied then Print(old(Orders()), m) else NO_EXEC
    {
      hide R.OrderRefTable.Valid, B.OrderBook.Valid, BookOk, WellFormed, Outcome, After, Erases, Less;
      ReduceCases(Orders(), m, priceLevels, refs.cap);
      if m.orderRef == 0 || m.shares == 0 { return InvalidEvent, NO_EXEC; }
      var found := refs.FindIndex(m.orderRef);
      if found < 0 { return MissingReference, NO_EXEC; }
      var v := refs.vals[found];
      if m.shares > v.shares { return InvalidEvent, NO_EXEC; }
      var b := GetOrMake(v.locate);
      var printable := if m.kind == OrderExecutedPrice then m.printable else true;
      var price := if m.kind == OrderExecutedPrice then m.price else v.price;
      Reduce(b, found, m.orderRef, v, m.shares);
      return Applied, if isExec then ExecResult(printable, price, m.shares, v.locate) else NO_EXEC;
    }

    method OnDelete(m: Message) returns (status: Status)
      requires Valid() && m.kind == OrderDelete
      requires Erases(Orders(), m, priceLevels, refs.cap) ==> |Orders()| < refs.cap
      modifies Repr
      ensures Valid() && fresh(Repr - old(Repr))
      ensures status == Outcome(old(Orders()), m, priceLevels, refs.cap)
      ensures Orders() == if status == Applied then After(old(Orders()), m) else old(Orders())
    {
      hide R.OrderRefTable.Valid, BookOk;
      var found := refs.FindIndex(m.orderRef);
      if found < 0 { return MissingReference; }
      var v := refs.vals[found];
      var b := GetOrMake(v.locate);
      Reduce(b, found, m.orderRef, v, v.shares);
      return Applied;
    }

    /** The second half of an accepted Replace: table, then both levels. */
    method Swap(b: B.OrderBook, r: u64, o: Order, r': u64, o': Order)
      requires Valid() && r in Orders() && o == Orders()[r] && b == books[o.locate]
      requires r' != 0 && r' !in Orders() && o'.locate == o.locate && o'.side == o.side
      requires 0 < o'.price < priceLevels && o'.shares > 0 && |Orders()| < refs.cap
      requires b.CanReplace(o.side, o.price, o.shares, o'.price, o'.shares)
      modifies Repr
      ensures Valid() && Repr == old(Repr)
      ensures Orders() == (old(Orders()) - {r})[r' := o']
    {
      hide Moving, Fitting, SameElsewhere, Valid, Shares, Rests, WellFormed, BookOk, B.OrderBook.CanReplace;
      ghost var os := Orders();
      Begin(o.locate);
      LevelsSwap(os, r, r', o');
      FittingSwap(os, r, r', o');
      EraseEntry(o.locate, os, os, r);
      var inserted := EnterEntry(o.locate, os, os, r', o');
      if !inserted { assert false; }   // the source's first rollback
      MoveLevels(b, os, r, o, r', o');
      Commit(o.locate, os, (os - {r})[r' := o']);
    }

    lemma GuardOk(r: u64, price: u32, shares: u32)
      requires Valid() && r in Orders() && 0 < price < priceLevels && shares > 0
      ensures var o := Orders()[r];
        && o.locate in books && price < books[o.locate].levels && books[o.locate].Shape()
        && (books[o.locate].CanReplace(o.side, o.price, o.shares, price, shares)
          <==> Shares(Orders() - {r}, o.locate, o.side, price) + shares <= U32_MAX)
    {
      hide R.OrderRefTable.Valid, Shows, B.OrderBook.CanReplace;
      var o := Orders()[r];
      assert BookOk(o.locate, Orders());
      ReplaceGuard(books[o.locate], Orders(), priceLevels, r, price, shares);
    }

    method OnReplace(m: Message) returns (status: Status)
      requires Valid() && m.kind == OrderReplace
      requires Erases(Orders(), m, priceLevels, refs.cap) ==> |Orders()| < refs.cap
      modifies Repr
      ensures Valid() && fresh(Repr - old(Repr))
      ensures status == Outcome(old(Orders()), m, priceLevels, refs.cap)
      ensures Orders() == if status == Applied then After(old(Orders()), m) else old(Orders())
    {
      hide R.OrderRefTable.Valid, B.OrderBook.Valid, BookOk, WellFormed, B.OrderBook.CanReplace, Outcome, After,
        Erases, Shares;
      ReplaceCases(Orders(), m, priceLevels, refs.cap);
      var found := refs.FindIndex(m.orderRef);
      if found < 0 { return MissingReference; }
      var o := refs.vals[found];
      if m.newOrderRef == 0 || m.newOrderRef == m.orderRef || m.price == 0 || m.price >= priceLevels || m.shares == 0 {
        return InvalidEvent;
      }
      var taken := refs.FindIndex(m.newOrderRef);
      if taken >= 0 { return DuplicateReference; }
      var b := GetOrMake(o.locate);
      GuardOk(m.orderRef, m.price, m.shares);
      if !b.CanReplace(o.side, o.price, o.shares, m.price, m.shares) { return InvalidEvent; }
      Swap(b, m.orderRef, o, m.newOrderRef, Order(m.price, m.shares, o.locate, o.side));
      return Applied;
    }

    /** Applies one message. The live orders move exactly as the specification says, and
        `Valid` pins every level and best price to them. */
    method Apply(m: Message) returns (out: ExecResult)
      requires Valid()
      requires Erases(Orders(), m, priceLevels, refs.cap) ==> |Orders()| < refs.cap
      modifies Repr
      ensures Valid() && fresh(Repr - old(Repr))
      ensures lastStatus == Outcome(old(Orders()), m, priceLevels, refs.cap)
      ensures Orders() == Step(old(Orders()), m, priceLevels, refs.cap)
      ensures out == if lastStatus == Applied then Print(old(Orders()), m) else NO_EXEC
      ensures lastStatus == Applied ==> Prints(old(Orders()), Orders(), m, out)
    {
      hide R.OrderRefTable.Valid, BookOk, WellFormed, Outcome, After, Erases, Print, Prints;
      if !IsExec(m) && m.kind != Trade { NoPrint(Orders(), m); }
      if Outcome(Orders(), m, priceLevels, refs.cap) == Applied { PrintLaws(Orders(), m, priceLevels, refs.cap); }
      out := NO_EXEC;
      var status := Ignored;
      match m.kind {
        case AddOrder | AddOrderMpid => status := OnAdd(m);
        case OrderExecuted | OrderExecutedPrice => status, out := OnReduce(m, true);
        case OrderCancel => status, out := OnReduce(m, false);
        case OrderDelete => status := OnDelete(m);
        case OrderReplace => status := OnReplace(m);
        case Trade =>
          Quiet(Orders(), m, priceLevels, refs.cap);
          status := Applied;
          out := ExecResult(true, m.price, m.shares, m.locate);
        case SystemEvent =>
          Quiet(Orders(), m, priceLevels, refs.cap);
          status := Applied;
        case Unknown => Quiet(Orders(), m, priceLevels, refs.cap);
      }
      lastStatus := status;
    }
  }
}
