/** The hardware reference table: one probe per cycle, tombstones on delete, a probe budget,
    and inserts that reuse the first tombstone they passed. */
module RtlOrderRefTable {
  import opened Itch
  import opened LiveOrders
  import opened Modulo

  const MAX_PROBE: nat := 64

  /** A slot: never used, deleted, or live (valid and tomb bits of the source). */
  datatype Slot = Empty | Tomb | Live(oref: u64, o: Order)

  datatype Op = INSERT | LOOKUP | DELETE

  datatype Cmd = Cmd(op: Op, unique: bool, oref: u64, o: Order)

  datatype Request = Nothing | Issue(cmd: Cmd)

  datatype State = IDLE | HASH | HOME | PROBE | DONE

  const NO_ORDER := Order(0, 0, 0, 'S')

  /** All registers; `cmd` is the latched command. */
  datatype Table = Table(
    state: State, cmd: Cmd, hash: nat, idx: nat, probes: nat, haveTomb: bool, tombIdx: nat,
    mem: seq<Slot>, done: bool, found: bool, res: Order, fails: nat)

  // ---- one clock edge ------------------------------------------------------------

  function Wrap(t: Table): nat
    requires |t.mem| > 0
  {
    if t.idx + 1 == |t.mem| then 0 else t.idx + 1
  }

  function ProbeInsert(t: Table): Table
    requires t.idx < |t.mem| && (t.haveTomb ==> t.tombIdx < |t.mem|)
  {
    var cur, c := t.mem[t.idx], t.cmd;
    var entry := Live(c.oref, c.o);
    if cur.Live? && cur.oref == c.oref then
      if c.unique then t.(found := false, state := DONE)
      else t.(mem := t.mem[t.idx := entry], found := true, state := DONE)
    else if cur.Empty? then
      t.(mem := t.mem[(if t.haveTomb then t.tombIdx else t.idx) := entry], found := true, state := DONE)
    else
      var remembered := t.(
        haveTomb := t.haveTomb || cur.Tomb?,
        tombIdx := if cur.Tomb? && !t.haveTomb then t.idx else t.tombIdx,
        idx := Wrap(t), probes := t.probes + 1);
      if t.probes < MAX_PROBE then remembered
      else if t.haveTomb then remembered.(mem := t.mem[t.tombIdx := entry], found := true, state := DONE)
      else remembered.(fails := t.fails + 1, state := DONE)
  }

  function ProbeFind(t: Table): Table
    requires t.idx < |t.mem|
  {
    var cur, c := t.mem[t.idx], t.cmd;
    if cur.Live? && cur.oref == c.oref then
      t.(found := true, res := cur.o, mem := if c.op == DELETE then t.mem[t.idx := Tomb] else t.mem, state := DONE)
    else if cur.Empty? then t.(found := false, state := DONE)
    else
      var moved := t.(idx := Wrap(t), probes := t.probes + 1);
      if t.probes < MAX_PROBE then moved else moved.(found := false, state := DONE)
  }

  ghost predicate Shape(t: Table, home: u64 -> nat) {
    && MAX_PROBE <= |t.mem| && (forall k: u64 :: home(k) < |t.mem|)
    && t.hash < |t.mem| && t.idx < |t.mem| && t.tombIdx < |t.mem|
  }

  function Next(t: Table, home: u64 -> nat, req: Request): Table
    requires t.idx < |t.mem| && t.tombIdx < |t.mem|
  {
    var d := t.(done := false);
    match t.state
    case IDLE => if req.Issue? then d.(cmd := req.cmd, state := HASH) else d
    case HASH => d.(hash := home(t.cmd.oref), state := HOME)
    case HOME => d.(idx := t.hash, probes := 1, haveTomb := false, state := PROBE)
    case PROBE => if t.cmd.op == INSERT then ProbeInsert(d) else ProbeFind(d)
    case DONE => d.(done := true, state := IDLE)
  }

  // ---- the finite map it implements ---------------------------------------------------

  ghost predicate UniqueLive(mem: seq<Slot>) {
    forall i, j :: 0 <= i < |mem| && 0 <= j < |mem| && mem[i].Live? && mem[j].Live? && mem[i].oref == mem[j].oref ==>
      i == j
  }

  /** Every live key is within the probe budget of its home, with no true empty before it. */
  ghost predicate Reachable(mem: seq<Slot>, home: u64 -> nat)
    requires forall k: u64 :: home(k) < |mem|
  {
    forall i :: 0 <= i < |mem| && mem[i].Live? ==>
      && Dist(|mem|, home(mem[i].oref), i) < MAX_PROBE
      && forall j :: 0 <= j < |mem| && Dist(|mem|, home(mem[i].oref), j) < Dist(|mem|, home(mem[i].oref), i) ==>
        !mem[j].Empty?
  }

  ghost predicate SlotsOk(mem: seq<Slot>, home: u64 -> nat) {
    (forall k: u64 :: home(k) < |mem|) && UniqueLive(mem) && Reachable(mem, home)
  }

  ghost predicate HasKey(mem: seq<Slot>, k: u64) {
    exists i :: 0 <= i < |mem| && mem[i].Live? && mem[i].oref == k
  }

  /** The live slots hold exactly the map m. */
  ghost predicate Holds(mem: seq<Slot>, m: Orders) {
    && (forall i :: 0 <= i < |mem| && mem[i].Live? ==> mem[i].oref in m && m[mem[i].oref] == mem[i].o)
    && (forall k :: k in m ==> HasKey(mem, k))
  }

  /** The first n probed slots hold neither the key nor a true empty. */
  ghost predicate Passed(mem: seq<Slot>, key: u64, h: nat, n: nat)
    requires h < |mem|
  {
    forall j :: 0 <= j < |mem| && Dist(|mem|, h, j) < n ==> !mem[j].Empty? && (mem[j].Live? ==> mem[j].oref != key)
  }

  /** An insert of an absent key fails exactly when its 64-slot window has no true empty and
      the first 63 of those slots have no tombstone: a tombstone in the last is missed. */
  ghost predicate Full(mem: seq<Slot>, h: nat)
    requires h < |mem|
  {
    forall j :: 0 <= j < |mem| && Dist(|mem|, h, j) < MAX_PROBE ==>
      !mem[j].Empty? && (mem[j].Tomb? ==> Dist(|mem|, h, j) == MAX_PROBE - 1)
  }

  ghost predicate Inv(t: Table, home: u64 -> nat, m: Orders) {
    && Shape(t, home) && SlotsOk(t.mem, home) && Holds(t.mem, m)
    && (t.state == HOME ==> t.hash == home(t.cmd.oref))
    && (t.state == PROBE ==> Probing(t, home))
  }

  ghost predicate Probing(t: Table, home: u64 -> nat)
    requires Shape(t, home)
  {
    var h := home(t.cmd.oref);
    && 1 <= t.probes <= MAX_PROBE && Dist(|t.mem|, h, t.idx) == t.probes - 1
    && Passed(t.mem, t.cmd.oref, h, t.probes - 1)
    && (t.cmd.op == INSERT ==>
      if t.haveTomb then t.mem[t.tombIdx].Tomb? && Dist(|t.mem|, h, t.tombIdx) < t.probes - 1
      else NoTomb(t.mem, h, t.probes - 1))
  }

  ghost predicate NoTomb(mem: seq<Slot>, h: nat, n: nat)
    requires h < |mem|
  {
    forall j :: 0 <= j < |mem| && Dist(|mem|, h, j) < n ==> !mem[j].Tomb?
  }

  lemma AbsentAfter(mem: seq<Slot>, home: u64 -> nat, m: Orders, key: u64, n: nat, e: nat)
    requires SlotsOk(mem, home) && Holds(mem, m) && Passed(mem, key, home(key), n) && e < |mem|
    requires n >= MAX_PROBE || (mem[e].Empty? && Dist(|mem|, home(key), e) == n)
    ensures key !in m
  {
    assert forall i :: 0 <= i < |mem| && mem[i].Live? && i != e ==>
        Dist(|mem|, home(key), i) < n || Dist(|mem|, home(key), i) > n || n >= MAX_PROBE;
    assert !HasKey(mem, key);
  }

  lemma WriteKeepsMap(mem: seq<Slot>, home: u64 -> nat, m: Orders, i: nat, key: u64, o: Order)
    requires SlotsOk(mem, home) && Holds(mem, m) && i < |mem|
    requires if mem[i].Live? then mem[i].oref == key else key !in m
    ensures Holds(mem[i := Live(key, o)], m[key := o]) && UniqueLive(mem[i := Live(key, o)])
  {
    hide Reachable;
    var mem' := mem[i := Live(key, o)];
    forall k | k in m[key := o] ensures HasKey(mem', k) {
      if k == key {
        assert mem'[i].oref == k;
      } else {
        var j :| 0 <= j < |mem| && mem[j].Live? && mem[j].oref == k;
        assert mem'[j].oref == k;
      }
    }
  }

  /** Writing a live entry over the key itself, a tombstone or the empty slot that ended the
      probe keeps every key reachable and adds exactly that key. */
  lemma WriteSlot(mem: seq<Slot>, home: u64 -> nat, m: Orders, i: nat, key: u64, o: Order, n: nat)
    requires SlotsOk(mem, home) && Holds(mem, m) && i < |mem|
    requires Passed(mem, key, home(key), n) && Dist(|mem|, home(key), i) <= n && Dist(|mem|, home(key), i) < MAX_PROBE
    requires if mem[i].Live? then mem[i].oref == key else key !in m
    ensures SlotsOk(mem[i := Live(key, o)], home) && Holds(mem[i := Live(key, o)], m[key := o])
  {
    WriteKeepsMap(mem, home, m, i, key, o);
    hide Holds, UniqueLive;
  }

  lemma BurySlot(mem: seq<Slot>, home: u64 -> nat, m: Orders, i: nat)
    requires SlotsOk(mem, home) && Holds(mem, m) && i < |mem| && mem[i].Live?
    ensures SlotsOk(mem[i := Tomb], home) && Holds(mem[i := Tomb], m - {mem[i].oref})
  {
    var mem' := mem[i := Tomb];
    forall k | k in m - {mem[i].oref} ensures HasKey(mem', k) {
      var j :| 0 <= j < |mem| && mem[j].Live? && mem[j].oref == k;
      assert mem'[j].oref == k;
    }
  }

  /** The map after command c on map m, when the insert window is full or not. */
  function MapAfter(c: Cmd, m: Orders, full: bool): Orders {
    match c.op
    case LOOKUP => m
    case DELETE => m - {c.oref}
    case INSERT => if (c.oref in m && c.unique) || (c.oref !in m && full) then m else m[c.oref := c.o]
  }

  /** What the finished command reported, given its map before. */
  ghost predicate Reported(c: Cmd, m: Orders, full: bool, t: Table, t': Table) {
    match c.op
    case INSERT =>
      if c.oref in m then t'.fails == t.fails && t'.found == !c.unique
      else if full then t'.fails == t.fails + 1 && t'.found == t.found
      else t'.fails == t.fails && t'.found
    case _ => t'.fails == t.fails && (t'.found <==> c.oref in m) && (t'.found ==> t'.res == m[c.oref])
  }

  /** One probe cycle: either the next slot, or the command is finished with its effect. */
  ghost predicate ProbeResult(t: Table, t': Table, home: u64 -> nat, m: Orders)
    requires Inv(t, home, m)
  {
    var full := Full(t.mem, home(t.cmd.oref));
    && t'.cmd == t.cmd && t'.done == t.done
    && if t'.state == PROBE then
         Inv(t', home, m) && t'.mem == t.mem && t'.probes == t.probes + 1 && t'.fails == t.fails &&
           t'.found == t.found && t'.res == t.res
       else
         t'.state == DONE && Inv(t', home, MapAfter(t.cmd, m, full)) && Reported(t.cmd, m, full, t, t')
  }

  /** A slot that is neither the key nor a true empty extends the passed prefix. */
  lemma PassOne(mem: seq<Slot>, key: u64, h: nat, i: nat)
    requires h < |mem| && i < |mem| && !mem[i].Empty? && (mem[i].Live? ==> mem[i].oref != key)
    requires Passed(mem, key, h, Dist(|mem|, h, i))
    ensures Passed(mem, key, h, Dist(|mem|, h, i) + 1)
    ensures NoTomb(mem, h, Dist(|mem|, h, i)) && !mem[i].Tomb? ==> NoTomb(mem, h, Dist(|mem|, h, i) + 1)
  {}

  /** The slot that ends the probe decides whether the window was full. */
  lemma FullOrNot(t: Table, home: u64 -> nat, m: Orders)
    requires Inv(t, home, m) && t.state == PROBE && t.cmd.op == INSERT
    ensures t.mem[t.idx].Empty? ==> !Full(t.mem, home(t.cmd.oref))
    ensures t.probes == MAX_PROBE && !t.mem[t.idx].Empty? ==> (Full(t.mem, home(t.cmd.oref)) <==> !t.haveTomb)
  {
    var h := home(t.cmd.oref);
    if t.probes == MAX_PROBE && !t.mem[t.idx].Empty? && !t.haveTomb {
      forall j | 0 <= j < |t.mem| && Dist(|t.mem|, h, j) < MAX_PROBE
        ensures !t.mem[j].Empty? && (t.mem[j].Tomb? ==> Dist(|t.mem|, h, j) == MAX_PROBE - 1)
      {
        assert Dist(|t.mem|, h, j) == MAX_PROBE - 1 ==> j == t.idx;
      }
    }
  }

  lemma HitIsKnown(t: Table, home: u64 -> nat, m: Orders)
    requires Inv(t, home, m) && t.mem[t.idx].Live?
    ensures t.mem[t.idx].oref in m && m[t.mem[t.idx].oref] == t.mem[t.idx].o
  {}

  lemma InsertHit(t: Table, home: u64 -> nat, m: Orders)
    requires Inv(t, home, m) && t.state == PROBE && t.cmd.op == INSERT
    requires t.mem[t.idx].Live? && t.mem[t.idx].oref == t.cmd.oref
    ensures ProbeResult(t, ProbeInsert(t), home, m)
  {
    hide SlotsOk, Holds, Full, Passed, NoTomb;
    HitIsKnown(t, home, m);
    WriteSlot(t.mem, home, m, t.idx, t.cmd.oref, t.cmd.o, t.probes - 1);
  }

  lemma InsertEmpty(t: Table, home: u64 -> nat, m: Orders)
    requires Inv(t, home, m) && t.state == PROBE && t.cmd.op == INSERT && t.mem[t.idx].Empty?
    ensures ProbeResult(t, ProbeInsert(t), home, m)
  {
    hide SlotsOk, Holds, Full, Passed, NoTomb;
    FullOrNot(t, home, m);
    AbsentAfter(t.mem, home, m, t.cmd.oref, t.probes - 1, t.idx);
    WriteSlot(t.mem, home, m, if t.haveTomb then t.tombIdx else t.idx, t.cmd.oref, t.cmd.o, t.probes - 1);
  }

  lemma InsertOn(t: Table, home: u64 -> nat, m: Orders)
    requires Inv(t, home, m) && t.state == PROBE && t.cmd.op == INSERT && !t.mem[t.idx].Empty?
    requires t.mem[t.idx].Live? ==> t.mem[t.idx].oref != t.cmd.oref
    ensures ProbeResult(t, ProbeInsert(t), home, m)
  {
    hide SlotsOk, Holds, Full, Passed, NoTomb;
    PassOne(t.mem, t.cmd.oref, home(t.cmd.oref), t.idx);
    if t.probes == MAX_PROBE {
      FullOrNot(t, home, m);
      AbsentAfter(t.mem, home, m, t.cmd.oref, MAX_PROBE, 0);
      if t.haveTomb { WriteSlot(t.mem, home, m, t.tombIdx, t.cmd.oref, t.cmd.o, t.probes - 1); }
    }
  }

  lemma FindHit(t: Table, home: u64 -> nat, m: Orders)
    requires Inv(t, home, m) && t.state == PROBE && t.cmd.op != INSERT
    requires t.mem[t.idx].Live? && t.mem[t.idx].oref == t.cmd.oref
    ensures ProbeResult(t, ProbeFind(t), home, m)
  {
    hide SlotsOk, Holds, Full, Passed, NoTomb;
    HitIsKnown(t, home, m);
    BurySlot(t.mem, home, m, t.idx);
  }

  lemma FindMiss(t: Table, home: u64 -> nat, m: Orders)
    requires Inv(t, home, m) && t.state == PROBE && t.cmd.op != INSERT
    requires !(t.mem[t.idx].Live? && t.mem[t.idx].oref == t.cmd.oref)
    ensures ProbeResult(t, ProbeFind(t), home, m)
  {
    hide SlotsOk, Holds, Full, Passed, NoTomb;
    var key, n := t.cmd.oref, t.probes - 1;
    if t.mem[t.idx].Empty? {
      AbsentAfter(t.mem, home, m, key, n, t.idx);
      assert m - {key} == m;
    } else {
      PassOne(t.mem, key, home(key), t.idx);
      if t.probes == MAX_PROBE {
        AbsentAfter(t.mem, home, m, key, MAX_PROBE, 0);
        assert m - {key} == m;
      }
    }
  }

  lemma FindStep(t: Table, home: u64 -> nat, m: Orders)
    requires Inv(t, home, m) && t.state == PROBE && t.cmd.op != INSERT
    ensures ProbeResult(t, ProbeFind(t), home, m)
  {
    hide ProbeResult, ProbeFind, SlotsOk, Holds, Full, Passed, NoTomb;
    if t.mem[t.idx].Live? && t.mem[t.idx].oref == t.cmd.oref {
      FindHit(t, home, m);
    } else {
      FindMiss(t, home, m);
    }
  }

  /** Every probe cycle of every command. */
  lemma ProbeStep(t: Table, home: u64 -> nat, m: Orders)
    requires Inv(t, home, m) && t.state == PROBE
    ensures ProbeResult(t, if t.cmd.op == INSERT then ProbeInsert(t) else ProbeFind(t), home, m)
  {
    hide SlotsOk, Holds, ProbeResult, ProbeInsert, ProbeFind;
    if t.cmd.op != INSERT {
      FindStep(t, home, m);
    } else if t.mem[t.idx].Empty? {
      InsertEmpty(t, home, m);
    } else if t.mem[t.idx].Live? && t.mem[t.idx].oref == t.cmd.oref {
      InsertHit(t, home, m);
    } else {
      InsertOn(t, home, m);
    }
  }

  /** Cycles a command may still take, counted from its state. */
  function Left(t: Table): nat {
    match t.state
    case IDLE => 0
    case HASH => MAX_PROBE + 4
    case HOME => MAX_PROBE + 3
    case PROBE => if t.probes <= MAX_PROBE then MAX_PROBE + 2 - t.probes else 1
    case DONE => 1
  }

  /** One clock edge of the whole table: an idle table takes a command, a probing one finishes
      or moves on, and the last cycle only raises `done`. */
  lemma EdgeStep(t: Table, home: u64 -> nat, m: Orders, req: Request)
    requires Inv(t, home, m)
    ensures var t', full := Next(t, home, req), Full(t.mem, home(t.cmd.oref));
      match t.state {
        case IDLE => Inv(t', home, m) && t'.mem == t.mem && t'.fails == t.fails && t'.res == t.res &&
          t'.found == t.found && !t'.done
          && if req.Issue? then t'.state == HASH && t'.cmd == req.cmd else t'.state == IDLE
        case HASH | HOME => Inv(t', home, m) && t'.fails == t.fails && t'.cmd == t.cmd && t'.mem == t.mem
          && t'.found == t.found && !t'.done && t'.state == if t.state == HASH then HOME else PROBE
        case PROBE => ProbeResult(t.(done := false), t', home, m) && !t'.done
        case DONE => Inv(t', home, m) && t' == t.(done := true, state := IDLE)
      }
    ensures t.state != IDLE ==> Left(Next(t, home, req)) < Left(t)
  {
    hide SlotsOk, Holds, Full, ProbeInsert, ProbeFind, Passed;
    if t.state == PROBE { ProbeStep(t.(done := false), home, m); }
    if t.state == HOME { NothingPassed(t.mem, t.cmd.oref, t.hash); }
  }

  lemma NothingPassed(mem: seq<Slot>, key: u64, h: nat)
    requires h < |mem|
    ensures Passed(mem, key, h, 0) && NoTomb(mem, h, 0)
  {}

  /** The table as a clocked process. */
  class OrderRefTable {
    const home: u64 -> nat
    var state: State
    var cmd: Cmd
    var hash: nat
    var idx: nat
    var probes: nat
    var haveTomb: bool
    var tombIdx: nat
    var mem: seq<Slot>
    var done: bool
    var found: bool
    var res: Order
    var fails: nat

    function View(): Table
      reads this
    {
      Table(state, cmd, hash, idx, probes, haveTomb, tombIdx, mem, done, found, res, fails)
    }

    constructor (size: nat, home: u64 -> nat)
      requires MAX_PROBE <= size && forall k: u64 :: home(k) < size
      ensures this.home == home && state == IDLE && !done && fails == 0 && Inv(View(), home, map[])
      ensures |mem| == size && idx == tombIdx == 0 && forall i :: 0 <= i < size ==> mem[i] == Slot.Empty
    {
      this.home := home;
      state, cmd := IDLE, Cmd(LOOKUP, false, 0, NO_ORDER);
      hash, idx, probes, haveTomb, tombIdx := 0, 0, 0, false, 0;
      mem := seq(size, _ => Slot.Empty);
      done, found, res, fails := false, false, NO_ORDER, 0;
    }

    method Clock(req: Request)
      requires idx < |mem| && tombIdx < |mem|
      modifies this
      ensures View() == Next(old(View()), home, req)
    {
      done := false;
      match state {
        case IDLE => if req.Issue? { cmd, state := req.cmd, HASH; }
        case HASH => hash, state := home(cmd.oref), HOME;
        case HOME => idx, probes, haveTomb, state := hash, 1, false, PROBE;
        case PROBE => if cmd.op == INSERT { StepInsert(); } else { StepFind(); }
        case DONE => done, state := true, IDLE;
      }
    }

    method StepInsert()
      requires idx < |mem| && tombIdx < |mem|
      modifies this
      ensures View() == ProbeInsert(old(View()))
    {
      var cur, entry := mem[idx], Live(cmd.oref, cmd.o);
      if cur.Live? && cur.oref == cmd.oref {
        if cmd.unique {
          found := false;
        } else {
          mem, found := mem[idx := entry], true;
        }
        state := DONE;
      } else if cur.Empty? {
        mem := mem[(if haveTomb then tombIdx else idx) := entry];
        found, state := true, DONE;
      } else {
        // nonblocking: the budget test below reads the old haveTomb
        var had, tomb, budget := haveTomb, tombIdx, probes;
        if cur.Tomb? && !haveTomb { haveTomb, tombIdx := true, idx; }
        idx := if idx + 1 == |mem| then 0 else idx + 1;
        probes := probes + 1;
        if budget >= MAX_PROBE {
          if had {
            mem, found := mem[tomb := entry], true;
          } else {
            fails := fails + 1;
          }
          state := DONE;
        }
      }
    }

    method StepFind()
      requires idx < |mem|
      modifies this
      ensures View() == ProbeFind(old(View()))
    {
      var cur := mem[idx];
      if cur.Live? && cur.oref == cmd.oref {
        found, res := true, cur.o;
        if cmd.op == DELETE { mem := mem[idx := Tomb]; }
        state := DONE;
      } else if cur.Empty? {
        found, state := false, DONE;
      } else {
        var budget := probes;
        idx := if idx + 1 == |mem| then 0 else idx + 1;
        probes := probes + 1;
        if budget >= MAX_PROBE { found, state := false, DONE; }
      }
    }

    /** A whole command, clocked to completion: a finite-map operation within 69 cycles. */
    method Execute(c: Cmd, ghost m: Orders) returns (cycles: nat)
      requires state == IDLE && Inv(View(), home, m)
      modifies this
      ensures state == IDLE && done && cycles <= MAX_PROBE + 5
      ensures var full := Full(old(mem), home(c.oref));
        Inv(View(), home, MapAfter(c, m, full)) && Reported(c, m, full, old(View()), View())
    {
      hide SlotsOk, Holds, Full, Next;
      ghost var t0 := View();
      EdgeStep(t0, home, m, Issue(c));
      Clock(Issue(c));
      cycles := 1;
      ghost var full := Full(t0.mem, home(c.oref));
      while state != IDLE
        invariant cmd == c && cycles + Left(View()) <= MAX_PROBE + 5
        invariant state !in {IDLE, DONE} ==>
          Inv(View(), home, m) && mem == t0.mem && fails == t0.fails && found == t0.found
        invariant state == DONE || state == IDLE ==>
          Inv(View(), home, MapAfter(c, m, full)) && Reported(c, m, full, t0, View())
        invariant state == IDLE ==> done
        decreases Left(View())
      {
        ghost var t := View();
        EdgeStep(t, home, if state == DONE then MapAfter(c, m, full) else m, Nothing);
        Clock(Nothing);
        cycles := cycles + 1;
      }
    }
  }

  // ---- a free slot that is missed -----------------------------------------------------------------

  /** Key i + 1 sits in slot i of the first n slots; the rest were never used. */
  ghost predicate Filled(mem: seq<Slot>, n: nat) {
    && n <= MAX_PROBE && |mem| == MAX_PROBE + 1
    && (forall i :: 0 <= i < n ==> mem[i] == Live(i + 1, NO_ORDER)) && (forall i :: n <= i < |mem| ==> mem[i] == Empty)
  }

  /** Clocks a command past the first n slots, all of them live with other keys. */
  method ProbePast(t: OrderRefTable, c: Cmd, n: nat)
    requires t.state == IDLE && n < MAX_PROBE < |t.mem| && t.tombIdx < |t.mem| && t.idx < |t.mem| && t.home(c.oref) == 0
    requires forall i :: 0 <= i < n ==> t.mem[i].Live? && t.mem[i].oref != c.oref
    modifies t
    ensures t.state == PROBE && t.cmd == c && t.idx == n && t.probes == n + 1 && !t.haveTomb
    ensures t.mem == old(t.mem) && t.tombIdx == old(t.tombIdx) && t.fails == old(t.fails) && t.found == old(t.found)
  {
    t.Clock(Issue(c));
    t.Clock(Nothing);
    t.Clock(Nothing);
    for i := 0 to n
      invariant t.state == PROBE && t.cmd == c && t.idx == i && t.probes == i + 1 && !t.haveTomb
      invariant t.mem == old(t.mem) && t.tombIdx == old(t.tombIdx) && t.fails == old(t.fails) && t.found == old(t.found)
    {
      t.Clock(Nothing);
    }
  }

  method FillNext(t: OrderRefTable, n: nat)
    requires t.state == IDLE && n < MAX_PROBE && Filled(t.mem, n) && t.tombIdx < |t.mem| && t.idx < |t.mem|
    requires t.home(n + 1) == 0
    modifies t
    ensures t.state == IDLE && Filled(t.mem, n + 1) && t.fails == old(t.fails) && t.tombIdx < |t.mem| && t.idx < |t.mem|
  {
    ProbePast(t, Cmd(INSERT, true, n + 1, NO_ORDER), n);
    t.Clock(Nothing);
    t.Clock(Nothing);
  }

  /** Sixty-four keys of one home fill their window. */
  method FillWindow() returns (t: OrderRefTable)
    ensures fresh(t) && t.state == IDLE && Filled(t.mem, MAX_PROBE) && t.fails == 0
    ensures t.tombIdx < |t.mem| && t.idx < |t.mem| && forall k: u64 :: t.home(k) == 0
  {
    t := new OrderRefTable(MAX_PROBE + 1, _ => 0);
    for n := 0 to MAX_PROBE
      invariant fresh(t) && t.state == IDLE && Filled(t.mem, n) && t.fails == 0
      invariant t.tombIdx < |t.mem| && t.idx < |t.mem| && forall k: u64 :: t.home(k) == 0
    {
      FillNext(t, n);
    }
  }

  /** From an empty table: 64 insertions with one home, then a deletion in the last slot of the
      window. The next insertion fails although that slot is free. */
  method LastTombstoneMissed() returns (t: OrderRefTable)
    ensures fresh(t) && t.fails == 1 && t.state == IDLE && t.done && forall k: u64 :: t.home(k) == 0
    ensures |t.mem| == 65 && t.mem[63] == Tomb && t.mem[64] == Empty && Full(t.mem, 0)
  {
    t := FillWindow();
    ProbePast(t, Cmd(DELETE, false, MAX_PROBE, NO_ORDER), MAX_PROBE - 1);
    t.Clock(Nothing);
    t.Clock(Nothing);
    ProbePast(t, Cmd(INSERT, true, MAX_PROBE + 1, NO_ORDER), MAX_PROBE - 1);
    t.Clock(Nothing);
    t.Clock(Nothing);
  }
}
