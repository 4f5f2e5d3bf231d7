/** Live orders as a finite map, and sums over them. Every derived quantity of a book
    (level shares, level counts, side volume, shares ahead of a queue position) is
    one `Sum` with a different weight, so one set of update lemmas serves them all. */
module LiveOrders {
  import opened Itch

  datatype Order = Order(price: u32, shares: u32, locate: u16, side: char)

  type Orders = map<u64, Order>
  type Weight = (u64, Order) -> nat

  ghost function Sum(m: Orders, w: Weight): nat {
    if m == map[] then 0 else var r :| r in m; w(r, m[r]) + Sum(m - {r}, w)
  }

  /** The arbitrary choice in `Sum` does not matter: any order can be split off. */
  lemma {:induction false} SumSplit(m: Orders, w: Weight, r: u64)
    requires r in m
    ensures Sum(m, w) == w(r, m[r]) + Sum(m - {r}, w)
    decreases |m|
  {
    var s :| s in m && Sum(m, w) == w(s, m[s]) + Sum(m - {s}, w);
    if s != r {
      assert r in m - {s} && s in m - {r};
      SumSplit(m - {s}, w, r);
      SumSplit(m - {r}, w, s);
      assert m - {s} - {r} == m - {r} - {s};
    }
  }

  lemma SumPut(m: Orders, w: Weight, r: u64, o: Order)
    ensures Sum(m[r := o], w) == w(r, o) + Sum(m - {r}, w)
  {
    SumSplit(m[r := o], w, r);
    assert m[r := o] - {r} == m - {r};
  }

  lemma SumRemove(m: Orders, w: Weight, r: u64)
    ensures Sum(m - {r}, w) == Sum(m, w) - (if r in m then w(r, m[r]) else 0)
  {
    if r in m {
      SumSplit(m, w, r);
    } else {
      assert m - {r} == m;
    }
  }

  /** No weighted order is lost in the sum; a zero sum means every weight is zero. */
  lemma SumBounds(m: Orders, w: Weight, r: u64)
    requires r in m
    ensures w(r, m[r]) <= Sum(m, w)
  {
    SumSplit(m, w, r);
  }

  lemma {:induction false} SumZero(m: Orders, w: Weight)
    requires forall r :: r in m ==> w(r, m[r]) == 0
    ensures Sum(m, w) == 0
    decreases |m|
  {
    if m != map[] {
      var r :| r in m;
      SumSplit(m, w, r);
      SumZero(m - {r}, w);
    }
  }

  lemma {:induction false} SumMonotone(m: Orders, v: Weight, w: Weight)
    requires forall r :: r in m ==> v(r, m[r]) <= w(r, m[r])
    ensures Sum(m, v) <= Sum(m, w)
    decreases |m|
  {
    if m != map[] {
      var r :| r in m;
      SumSplit(m, v, r);
      SumSplit(m, w, r);
      SumMonotone(m - {r}, v, w);
    }
  }

  /** Some order carries weight exactly when the sum is positive. */
  lemma SumPositive(m: Orders, w: Weight) returns (r: u64)
    requires Sum(m, w) > 0
    ensures r in m && w(r, m[r]) > 0
  {
    if forall r :: r in m ==> w(r, m[r]) == 0 {
      SumZero(m, w);
    }
    r :| r in m && w(r, m[r]) > 0;
  }
}
