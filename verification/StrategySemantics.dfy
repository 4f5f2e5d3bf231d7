/** What each bytecode instruction does to the machine, and why accepted programs are safe. */
module StrategySemantics {
  import opened Itch
  import opened StrategyProgram
  import opened StrategyWindows

  datatype Signals = Signals(fired: map<Signal, bool>, stop: real, tp: real, trail: real, size: real)

  const NO_SIGNALS: Signals :=
    Signals(map[EnterLong := false, ExitLong := false, EnterShort := false, ExitShort := false], 0.0, 0.0, 0.0, 1.0)

  datatype Machine = Machine(stack: seq<real>, state: seq<real>, locals: seq<real>, sig: Signals)

  datatype Bars = Bars(o: seq<real>, h: seq<real>, l: seq<real>, c: seq<real>, v: seq<real>)

  datatype Ctx = Ctx(position: real, entryPx: real, equity: real)

  /** Everything an instruction reads but never writes. */
  datatype Env = Env(p: Program, params: seq<real>, bars: Bars, t: nat, ctx: Ctx, maths: Maths)

  ghost predicate EnvOk(e: Env) {
    && Accepted(e.p) && |e.params| == |e.p.defaults|
    && e.t < |e.bars.o| == |e.bars.h| == |e.bars.l| == |e.bars.c| == |e.bars.v|
  }

  function SeriesOf(b: Bars, id: nat): seq<real> {
    if id == 0 then b.o else if id == 1 then b.h else if id == 2 then b.l else if id == 3 then b.c else b.v
  }

  // ---- arithmetic -------------------------------------------------------------------------------

  function Flag(b: bool): real {
    if b then 1.0 else 0.0
  }

  function Apply(b: Arith, x: real, y: real): real {
    match b
    case Add => x + y case Sub => x - y case Mul => x * y
    case Div => if y != 0.0 then x / y else 0.0
    case Min2 => if x < y then x else y case Max2 => if x > y then x else y
    case Gt => Flag(x > y) case Lt => Flag(x < y) case Ge => Flag(x >= y) case Le => Flag(x <= y)
    case Eq => Flag(x == y) case Ne => Flag(x != y)
    case And => Flag(x != 0.0 && y != 0.0) case Or => Flag(x != 0.0 || y != 0.0)
  }

  function AbsOf(x: real): real {
    if x < 0.0 then -x else x
  }

  function Apply1(u: Single, x: real, maths: Maths): real {
    match u
    case Neg => -x case Abs => AbsOf(x)
    case Sqrt => if x > 0.0 then maths.sqrt(x) else 0.0
    case Log => if x > 0.0 then maths.log(x) else 0.0
    case Not => Flag(x == 0.0)
  }

  // ---- indicator state -----------------------------------------------------------------------------

  predicate Stores(s: Slot) {
    0 <= s.kind < |KINDS| && KINDS[s.kind] != KRaw
  }

  /** A whole number: what the count in front of a slot always is. */
  predicate Natural(x: real) {
    x >= 0.0 && x == Trunc(x) as real
  }

  lemma NaturalNext(x: real)
    requires Natural(x)
    ensures Natural(x + 1.0) && Natural((Trunc(x) + 1) as real) && Trunc(x) >= 0
  {
    var n := Trunc(x);
    assert x + 1.0 == (n + 1) as real;
  }

  ghost predicate StateOk(p: Program, state: seq<real>) {
    && |state| == p.stateFloats
    && forall s :: s in p.slots && Stores(s) ==> 0 <= s.off < |state| && Natural(state[s.off])
  }

  /** The floats a slot owns, and the state with them replaced. */
  function Block(state: seq<real>, s: Slot): seq<real>
    requires SlotFits(s, |state|)
  {
    state[s.off..s.off + StateSize(KINDS[s.kind], s.cap)]
  }

  function WithBlock(state: seq<real>, s: Slot, block: seq<real>): (r: seq<real>)
    requires SlotFits(s, |state|) && |block| == StateSize(KINDS[s.kind], s.cap)
    ensures |r| == |state|
  {
    state[..s.off] + block + state[s.off + |block|..]
  }

  function TrueRange(b: Bars, t: nat): real
    requires t < |b.h| == |b.l| == |b.c|
  {
    if t == 0 then b.h[t] - b.l[t]
    else
      var a, b1, c1 := b.h[t] - b.l[t], AbsOf(b.h[t] - b.c[t - 1]), AbsOf(b.l[t] - b.c[t - 1]);
      var m := if b1 > c1 then b1 else c1;
      if a > m then a else m
  }

  function Smoothed(old': real, x: real, n: real): real {
    old' + (x - old') / (Clamp1(n) as real)
  }

  /** Window parameters below one count as one. */
  function Clamp1(n: real): (k: int)
    ensures k >= 1
  {
    if Trunc(n) < 1 then 1 else Trunc(n)
  }

  /** Exponential average: a window of n weighs the new value by 2 / (n + 1). */
  function Blended(old': real, x: real, n: real): real {
    old' + 2.0 / ((Clamp1(n) + 1) as real) * (x - old')
  }

  /** Relative strength of average gains and losses. */
  function Strength(gain: real, loss: real): real {
    if gain + loss == 0.0 then 50.0 else 100.0 * (gain / (gain + loss))
  }

  /** New block and pushed value of an instruction that keeps state; x is the value below the
      window parameter n, where there is one. */
  function Indicator(e: Env, op: Op, s: Slot, st: seq<real>, x: real, n: real): (r: (seq<real>, real))
    requires UsesSlot(op) && !op.Raw? && !op.DelayRaw? && KindIs(s, ExpectedKind(op)) && SlotFits(s, e.p.stateFloats)
    requires |st| == StateSize(ExpectedKind(op), s.cap) && Natural(st[0])
    requires e.t < |e.bars.h| == |e.bars.l| == |e.bars.c|
    ensures |r.0| == |st| && Natural(r.0[0])
  {
    NaturalNext(st[0]);
    var count := Trunc(st[0]);
    match op
    case Ema =>
      var value := if st[0] == 0.0 then x else Blended(st[1], x, n);
      ([st[0] + 1.0, value], value)
    case Atr =>
      var tr := TrueRange(e.bars, e.t);
      var value := if st[0] == 0.0 then tr else Smoothed(st[1], tr, n);
      ([st[0] + 1.0, value], value)
    case Rsi =>
      var delta := x - st[1];
      var gain, loss := if delta > 0.0 then delta else 0.0, if -delta > 0.0 then -delta else 0.0;
      var ag := if count == 0 then st[2] else if count == 1 then gain else Smoothed(st[2], gain, n);
      var al := if count == 0 then st[3] else if count == 1 then loss else Smoothed(st[3], loss, n);
      ([(count + 1) as real, x, ag, al], if count == 0 then 50.0 else Strength(ag, al))
    case Ring(w) =>
      var st' := RingPush(st, s.cap, x);
      assert Trunc(st'[0]) == count + 1;
      (st', Aggregate(w, RingWindow(st', s.cap, Length(n, s.cap, count + 1)), e.maths.sqrt))
    case Delay =>
      var st' := RingPush(st, s.cap, x);
      (st', st'[RingIndex(count - Back(n, s.cap, count + 1), s.cap)])
    case CrossOver => ([(count + 1) as real, x, n], Flag(count >= 1 && x > n && st[1] <= st[2]))
    case CrossUnder => ([(count + 1) as real, x, n], Flag(count >= 1 && x < n && st[1] >= st[2]))
  }

  /** Value of a raw window instruction, which keeps no state. */
  function RawValue(e: Env, op: Op, s: Slot, n: real): real
    requires (op.Raw? || op.DelayRaw?) && KindIs(s, KRaw) && SlotFits(s, e.p.stateFloats)
    requires e.t < |e.bars.o| == |e.bars.h| == |e.bars.l| == |e.bars.c| == |e.bars.v|
  {
    var series, lag := SeriesOf(e.bars, s.aux / 0x1_0000), s.aux % 0x1_0000;
    if op.Raw? then Aggregate(op.w, RawWindow(series, e.t, lag, Length(n, s.cap, e.t + 1)), e.maths.sqrt)
    else Lagged(series, e.t - Back(n, s.cap, e.t + 1), lag)
  }

  // ---- one instruction ----------------------------------------------------------------------------------

  function Top(m: Machine): real
    requires m.stack != []
  {
    m.stack[|m.stack| - 1]
  }

  function Below(m: Machine): real
    requires |m.stack| >= 2
  {
    m.stack[|m.stack| - 2]
  }

  /** The machine with some values popped and one pushed. */
  function Swap(m: Machine, pops: nat, x: real): Machine
    requires pops <= |m.stack|
  {
    m.(stack := m.stack[..|m.stack| - pops] + [x])
  }

  function Drop(m: Machine): Machine
    requires m.stack != []
  {
    m.(stack := m.stack[..|m.stack| - 1])
  }

  function Sunk(sig: Signals, k: Sink, x: real): Signals {
    match k
    case Stop => sig.(stop := x) case TakeProfit => sig.(tp := x) case Trail => sig.(trail := x)
    case Size => sig.(size := if x < 0.0 then 0.0 else if x > 1.0 then 1.0 else x)
  }

  predicate Fired(sig: Signals, s: Signal) {
    s in sig.fired && sig.fired[s]
  }

  /** The short-circuit in the signal instructions: once fired, nothing is popped. */
  predicate Skips(m: Machine, op: Op) {
    op.Fire? && Fired(m.sig, op.s)
  }

  ghost predicate Ready(e: Env, m: Machine, word: u32) {
    && OperandOk(e.p, OpOf(word), ArgOf(word)) && RequiredStack(OpOf(word)) <= |m.stack|
    && StateOk(e.p, m.state) && |m.locals| >= e.p.nLocals
  }

  /** An indicator updates its own slot and pushes its value. */
  ghost function Keep(e: Env, m: Machine, op: Op, s: Slot, x: real, pops: nat): Machine
    requires EnvOk(e) && StateOk(e.p, m.state) && s in e.p.slots && 1 <= pops <= |m.stack|
    requires UsesSlot(op) && !op.Raw? && !op.DelayRaw? && KindIs(s, ExpectedKind(op))
  {
    assert Stores(s);
    var (block, value) := Indicator(e, op, s, Block(m.state, s), x, Top(m));
    Swap(m, pops, value).(state := WithBlock(m.state, s, block))
  }

  ghost function Exec(e: Env, m: Machine, word: u32): Machine
    requires EnvOk(e) && Ready(e, m, word)
  {
    var op, arg := OpOf(word), ArgOf(word);
    match op
    case PushConst => Swap(m, 0, e.maths.value(e.p.consts[arg]))
    case PushParam => Swap(m, 0, e.params[arg])
    case PushSeries => Swap(m, 0, SeriesOf(e.bars, arg)[e.t])
    case PushSeriesLag => Swap(m, 0, Lagged(SeriesOf(e.bars, arg / 0x1_0000), e.t, arg % 0x1_0000))
    case PushCtx =>
      Swap(m, 0, if arg == 0 then e.t as real else if arg == 1 then e.ctx.position
        else if arg == 2 then e.ctx.entryPx else e.ctx.equity)
    case Load => Swap(m, 0, m.locals[arg])
    case Store => Drop(m).(locals := m.locals[arg := Top(m)])
    case Binary(b) => Swap(m, 2, Apply(b, Below(m), Top(m)))
    case Unary(u) => Swap(m, 1, Apply1(u, Top(m), e.maths))
    case Atr => Keep(e, m, op, e.p.slots[arg], 0.0, 1)
    case Ema | Rsi | Ring(_) | Delay | CrossOver | CrossUnder => Keep(e, m, op, e.p.slots[arg], Below(m), 2)
    case Raw(_) | DelayRaw =>
      var s := e.p.slots[arg];
      assert s in e.p.slots;
      Swap(m, 1, RawValue(e, op, s, Top(m)))
    case Fire(s) => if Fired(m.sig, s) then m else Drop(m).(sig := m.sig.(fired := m.sig.fired[s := Top(m) != 0.0]))
    case Set(k) => Drop(m).(sig := Sunk(m.sig, k, Top(m)))
    case Halt => m
  }

  // ---- each instruction keeps to its own ------------------------------------------------------------

  /** The state offsets an instruction may write. */
  ghost predicate MayWrite(p: Program, word: u32, i: int) {
    var op, arg := OpOf(word), ArgOf(word);
    UsesSlot(op) && arg < |p.slots| && Owns(p.slots[arg], i)
  }

  lemma KeepStays(e: Env, m: Machine, op: Op, s: Slot, x: real, pops: nat)
    requires EnvOk(e) && StateOk(e.p, m.state) && s in e.p.slots && 1 <= pops <= |m.stack|
    requires UsesSlot(op) && !op.Raw? && !op.DelayRaw? && KindIs(s, ExpectedKind(op))
    ensures var m' := Keep(e, m, op, s, x, pops);
      && |m'.stack| == |m.stack| - pops + 1 && m'.locals == m.locals && m'.sig == m.sig
      && StateOk(e.p, m'.state)
      && forall i :: 0 <= i < |m.state| && !Owns(s, i) ==> m'.state[i] == m.state[i]
  {
    assert Stores(s);
    var (block, value) := Indicator(e, op, s, Block(m.state, s), x, Top(m));
    var state' := WithBlock(m.state, s, block);
    hide Indicator;
    forall u | u in e.p.slots && Stores(u) ensures Natural(state'[u.off]) {
      if u != s {
        assert Owns(u, u.off);
        SlotsApart(e.p, s, u, u.off);
      }
    }
  }

  lemma SlotsApart(p: Program, s: Slot, u: Slot, i: int)
    requires Accepted(p) && s in p.slots && u in p.slots && s != u && Owns(u, i)
    ensures !Owns(s, i)
  {
    var a :| 0 <= a < |p.slots| && p.slots[a] == s;
    var b :| 0 <= b < |p.slots| && p.slots[b] == u;
    assert if a < b then Apart(s, u) else Apart(u, s);
  }

  /** Stack height follows the validator's count, plus one when a signal skipped its pop; the
      state invariant holds; no other slot, no other local, is touched. */
  lemma ExecStays(e: Env, m: Machine, word: u32)
    requires EnvOk(e) && Ready(e, m, word)
    ensures var m' := Exec(e, m, word);
      && |m'.stack| == |m.stack| + StackDelta(OpOf(word)) + (if Skips(m, OpOf(word)) then 1 else 0)
      && StateOk(e.p, m'.state) && |m'.locals| == |m.locals|
      && (forall i :: 0 <= i < |m.state| && !MayWrite(e.p, word, i) ==> m'.state[i] == m.state[i])
      && (forall i :: 0 <= i < |m.locals| && !(OpOf(word) == Store && i == ArgOf(word)) ==> m'.locals[i] == m.locals[i])
  {
    var op, arg := OpOf(word), ArgOf(word);
    hide Accepted, OpOf, ArgOf, Keep, RawValue, Apply, Apply1, Lagged, SeriesOf, StateOk;
    match op {
      case Atr => KeepStays(e, m, op, e.p.slots[arg], 0.0, 1);
      case Ema | Rsi | Ring(_) | Delay | CrossOver | CrossUnder => KeepStays(e, m, op, e.p.slots[arg], Below(m), 2);
      case _ =>
    }
  }

  // ---- whole bars --------------------------------------------------------------------------------------

  /** The machine before instruction i of a bar. */
  ghost function Before(e: Env, m: Machine, i: nat): Machine
    requires EnvOk(e) && i <= |e.p.code|
  {
    if i == 0 then m
    else
      var prior := Before(e, m, i - 1);
      if Ready(e, prior, e.p.code[i - 1]) then Exec(e, prior, e.p.code[i - 1]) else prior
  }

  /** Signal instructions that skipped their pop so far. */
  ghost function Skipped(e: Env, m: Machine, i: nat): nat
    requires EnvOk(e) && i <= |e.p.code|
  {
    if i == 0 then 0
    else Skipped(e, m, i - 1) + if Skips(Before(e, m, i - 1), OpOf(e.p.code[i - 1])) then 1 else 0
  }

  /** How a bar starts: empty stack, no signals, state as the last bar left it. */
  ghost predicate BarStart(e: Env, m: Machine) {
    m.stack == [] && m.sig == NO_SIGNALS && StateOk(e.p, m.state) && |m.locals| >= e.p.nLocals
  }

  predicate NoRepeatedSignal(code: seq<u32>) {
    forall i, j :: 0 <= i < j < |code| && OpOf(code[i]).Fire? ==> OpOf(code[i]) != OpOf(code[j])
  }

  /** Safety on every bar and every input: at each instruction of an accepted program the stack
      height is the validator's depth plus the skipped pops, and all operands are in range. */
  lemma {:induction false} StackFollowsDepth(e: Env, m: Machine, i: nat)
    requires EnvOk(e) && BarStart(e, m) && i <= |e.p.code|
    ensures var b := Before(e, m, i);
      && |b.stack| == Depth(e.p.code, i) + Skipped(e, m, i)
      && StateOk(e.p, b.state) && |b.locals| == |m.locals|
      && (i < |e.p.code| ==> Ready(e, b, e.p.code[i]))
  {
    hide Exec, StateOk, OperandOk, OpOf, ArgOf, RequiredStack, StackDelta, MayWrite;
    assert i < |e.p.code| ==> InsOk(e.p, i);
    if i > 0 {
      StackFollowsDepth(e, m, i - 1);
      ExecStays(e, Before(e, m, i - 1), e.p.code[i - 1]);
      hide Accepted;
    }
  }

  /** A signal that has fired was raised by an earlier instruction. */
  lemma {:induction false} FiredBefore(e: Env, m: Machine, i: nat, s: Signal) returns (j: nat)
    requires EnvOk(e) && BarStart(e, m) && i <= |e.p.code| && Fired(Before(e, m, i).sig, s)
    ensures j < i && OpOf(e.p.code[j]) == Fire(s)
  {
    hide OpOf, ArgOf, OperandOk, StateOk, Exec, Depth, RequiredStack, Accepted;
    assert i > 0;
    var b := Before(e, m, i - 1);
    StackFollowsDepth(e, m, i - 1);
    if OpOf(e.p.code[i - 1]) == Fire(s) {
      j := i - 1;
    } else {
      assert Fired(b.sig, s) by { OnlyFireRaises(e, b, e.p.code[i - 1], s); }
      j := FiredBefore(e, m, i - 1, s);
    }
  }

  lemma OnlyFireRaises(e: Env, m: Machine, word: u32, s: Signal)
    requires EnvOk(e) && Ready(e, m, word) && OpOf(word) != Fire(s)
    ensures Fired(Exec(e, m, word).sig, s) <==> Fired(m.sig, s)
  {
    hide Accepted, OpOf, ArgOf, RawValue, Apply, Apply1, Lagged, SeriesOf, StateOk, Indicator;
  }

  /** Without a repeated signal instruction nothing is ever skipped: the stack height is the
      validator's depth at every instruction, and within the stack. */
  lemma {:induction false} NeverSkips(e: Env, m: Machine, i: nat)
    requires EnvOk(e) && BarStart(e, m) && NoRepeatedSignal(e.p.code) && i <= |e.p.code|
    ensures Skipped(e, m, i) == 0
    ensures |Before(e, m, i).stack| == Depth(e.p.code, i) <= VM_MAX_STACK
  {
    hide OpOf, Exec, StateOk, OperandOk, Ready, RequiredStack;
    if i > 0 {
      NeverSkips(e, m, i - 1);
      var op := OpOf(e.p.code[i - 1]);
      if Skips(Before(e, m, i - 1), op) {
        var j := FiredBefore(e, m, i - 1, op.s);
        assert false;
      }
    }
    StackFollowsDepth(e, m, i);
    hide Before;
    assert Depth(e.p.code, i) <= e.p.maxStack;
  }

  /** The signal instruction at j also stands earlier in the code. */
  predicate RepeatAt(code: seq<u32>, j: nat)
    requires j < |code|
  {
    OpOf(code[j]).Fire? && exists k :: 0 <= k < j && OpOf(code[k]) == OpOf(code[j])
  }

  /** Repeated signal instructions among the first i. */
  function Repeats(code: seq<u32>, i: nat): nat
    requires i <= |code|
  {
    if i == 0 then 0 else Repeats(code, i - 1) + if RepeatAt(code, i - 1) then 1 else 0
  }

  /** A test on the code alone: the validator's depth leaves room for every repeated signal. */
  predicate Roomy(code: seq<u32>) {
    forall i :: 0 <= i <= |code| ==> Depth(code, i) + Repeats(code, i) <= VM_MAX_STACK
  }

  /** Only repeated signal instructions skip their pop. */
  lemma {:induction false} SkipsAreRepeats(e: Env, m: Machine, i: nat)
    requires EnvOk(e) && BarStart(e, m) && i <= |e.p.code|
    ensures Skipped(e, m, i) <= Repeats(e.p.code, i)
  {
    hide OpOf, Exec, StateOk, OperandOk, Ready, Accepted;
    if i > 0 {
      SkipsAreRepeats(e, m, i - 1);
      var op := OpOf(e.p.code[i - 1]);
      if Skips(Before(e, m, i - 1), op) {
        var j := FiredBefore(e, m, i - 1, op.s);
        assert OpOf(e.p.code[j]) == op;
      }
    }
  }

  /** Every bar of a roomy program stays inside the stack. */
  lemma RoomyStaysInside(e: Env, m: Machine, i: nat)
    requires EnvOk(e) && BarStart(e, m) && Roomy(e.p.code) && i <= |e.p.code|
    ensures |Before(e, m, i).stack| <= VM_MAX_STACK
  {
    hide Before, Skipped, Depth, Repeats;
    StackFollowsDepth(e, m, i);
    SkipsAreRepeats(e, m, i);
  }

  lemma {:induction false} NoneRepeated(p: Program, i: nat)
    requires Accepted(p) && NoRepeatedSignal(p.code) && i <= |p.code|
    ensures Repeats(p.code, i) == 0 && Depth(p.code, i) <= VM_MAX_STACK
  {
    hide OpOf, InsOk, StackDelta;
    if i > 0 { NoneRepeated(p, i - 1); }
  }

  /** Accepted programs that repeat no signal are roomy. */
  lemma PlainIsRoomy(p: Program)
    requires Accepted(p) && NoRepeatedSignal(p.code)
    ensures Roomy(p.code)
  {
    hide Accepted;
    forall i | 0 <= i <= |p.code| ensures Depth(p.code, i) + Repeats(p.code, i) <= VM_MAX_STACK { NoneRepeated(p, i); }
  }

  /** Every signal instruction of the bar finds its signal raised or raises it. */
  ghost predicate AllFire(e: Env, m: Machine)
    requires EnvOk(e)
  {
    forall j, s :: 0 <= j < |e.p.code| && OpOf(e.p.code[j]) == Fire(s) ==> Fired(Before(e, m, j + 1).sig, s)
  }

  lemma {:induction false} FiredStays(e: Env, m: Machine, j: nat, i: nat, s: Signal)
    requires EnvOk(e) && BarStart(e, m) && j <= i <= |e.p.code| && Fired(Before(e, m, j).sig, s)
    ensures Fired(Before(e, m, i).sig, s)
  {
    hide OpOf, ArgOf, OperandOk, StateOk, Depth, RequiredStack, Accepted, Indicator, RawValue, Apply, Apply1, Lagged,
      SeriesOf;
    if j < i {
      FiredStays(e, m, j, i - 1, s);
      StackFollowsDepth(e, m, i - 1);
      var b := Before(e, m, i - 1);
      if OpOf(e.p.code[i - 1]) != Fire(s) { OnlyFireRaises(e, b, e.p.code[i - 1], s); }
    }
  }

  lemma RepeatSkips(e: Env, m: Machine, i: nat)
    requires EnvOk(e) && BarStart(e, m) && AllFire(e, m) && i < |e.p.code| && RepeatAt(e.p.code, i)
    ensures Skips(Before(e, m, i), OpOf(e.p.code[i]))
  {
    hide OpOf, StateOk, Accepted, Before, EnvOk;
    var s := OpOf(e.p.code[i]).s;
    var k :| 0 <= k < i && OpOf(e.p.code[k]) == Fire(s);
    FiredStays(e, m, k + 1, i, s);
  }

  /** When every signal fires, every repeated instruction skips its pop: the bar then stays
      inside the stack if and only if the program is roomy. */
  lemma {:induction false} RepeatsAreSkips(e: Env, m: Machine, i: nat)
    requires EnvOk(e) && BarStart(e, m) && AllFire(e, m) && i <= |e.p.code|
    ensures Skipped(e, m, i) == Repeats(e.p.code, i)
    ensures |Before(e, m, i).stack| == Depth(e.p.code, i) + Repeats(e.p.code, i)
  {
    hide OpOf, Accepted, Before, Depth, EnvOk, BarStart, AllFire, RepeatAt, Skips;
    StackFollowsDepth(e, m, i);
    SkipsAreRepeats(e, m, i);
    if i > 0 {
      RepeatsAreSkips(e, m, i - 1);
      if RepeatAt(e.p.code, i - 1) { RepeatSkips(e, m, i - 1); }
    }
  }

  lemma EndsEmpty(e: Env, m: Machine)
    requires EnvOk(e) && BarStart(e, m) && NoRepeatedSignal(e.p.code)
    ensures Before(e, m, |e.p.code|).stack == []
  {
    NeverSkips(e, m, |e.p.code|);
    hide Before, Skipped;
  }

  // ---- what repeated signals do ------------------------------------------------------------------------

  const FIRE_EL: u32 := 41 * 0x100_0000
  const HALT_WORD: u32 := 49 * 0x100_0000
  const ROUNDS: nat := 34

  /** Pushes the first constant and fires the same signal, over and over. */
  function Repeating(): (code: seq<u32>)
    ensures |code| == 2 * ROUNDS + 1
  {
    seq(2 * ROUNDS + 1, i => if i == 2 * ROUNDS then HALT_WORD else if i % 2 == 0 then 0 else FIRE_EL)
  }

  function RepeatingProgram(one: u32): Program {
    Program(Repeating(), [one], [], [], 0, 0, 1)
  }

  lemma Words()
    ensures OpOf(0) == PushConst && ArgOf(0) == 0 && OpOf(FIRE_EL) == Fire(EnterLong) && OpOf(HALT_WORD) == Halt
  {}

  lemma {:induction false} RepeatingDepth(i: nat)
    requires i <= 2 * ROUNDS + 1
    ensures Depth(Repeating(), i) == if i % 2 == 1 && i < 2 * ROUNDS then 1 else 0
  {
    Words();
    hide OpOf;
    if i > 0 { RepeatingDepth(i - 1); }
  }

  lemma RepeatingAccepted(one: u32)
    requires Finite(one)
    ensures Accepted(RepeatingProgram(one))
  {
    var p := RepeatingProgram(one);
    Words();
    hide OpOf, ArgOf, Finite;
    forall i | 0 <= i < |p.code| ensures InsOk(p, i) {
      RepeatingDepth(i);
      RepeatingDepth(i + 1);
    }
    forall i | 0 <= i <= |p.code| ensures Depth(p.code, i) <= p.maxStack { RepeatingDepth(i); }
    RepeatingDepth(1);
    RepeatingDepth(|p.code|);
  }

  /** The validator's depth never exceeds 1, yet the stack outgrows its 32 places: every firing
      after the first leaves its value behind. */
  lemma RepeatedSignalOverflows(e: Env, m: Machine, one: u32)
    requires EnvOk(e) && e.p == RepeatingProgram(one) && BarStart(e, m) && e.maths.value(one) != 0.0
    ensures |Before(e, m, 2 * ROUNDS - 1).stack| > VM_MAX_STACK
  {
    RepeatingRun(e, m, one, 2 * ROUNDS - 1);
  }

  lemma RepeatingStep(e: Env, b: Machine, one: u32, i: nat)
    requires EnvOk(e) && e.p == RepeatingProgram(one) && i < 2 * ROUNDS && Ready(e, b, e.p.code[i])
    ensures var b' := Exec(e, b, e.p.code[i]);
      if i % 2 == 0 then b' == Swap(b, 0, e.maths.value(one))
      else if Fired(b.sig, EnterLong) then b' == b
      else b.stack != [] && b' == Drop(b).(sig := b.sig.(fired := b.sig.fired[EnterLong := Top(b) != 0.0]))
  {
    Words();
    hide OpOf, ArgOf, Accepted, StateOk, Keep, RawValue;
    assert e.p.code[i] == if i % 2 == 0 then 0 else FIRE_EL;
  }

  lemma HalfStep(i: nat)
    requires i > 0
    ensures i % 2 == 0 ==> (i - 1) % 2 == 1 && (i - 1) / 2 == i / 2 - 1
    ensures i % 2 == 1 ==> (i - 1) % 2 == 0 && (i - 1) / 2 == i / 2
  {}

  lemma {:induction false} RepeatingRun(e: Env, m: Machine, one: u32, i: nat)
    requires EnvOk(e) && e.p == RepeatingProgram(one) && BarStart(e, m) && e.maths.value(one) != 0.0 && i < 2 * ROUNDS
    ensures var b := Before(e, m, i);
      && |b.stack| == (if i < 2 then i else if i % 2 == 0 then i / 2 - 1 else i / 2)
      && (i % 2 == 1 ==> b.stack != [] && Top(b) == e.maths.value(one)) && (Fired(b.sig, EnterLong) <==> i >= 2)
  {
    hide StateOk, Accepted, Depth, Ready, Exec, OpOf, EnvOk, Repeating;
    if i > 0 {
      RepeatingRun(e, m, one, i - 1);
      StackFollowsDepth(e, m, i - 1);
      RepeatingStep(e, Before(e, m, i - 1), one, i - 1);
      HalfStep(i);
    }
  }
}
