/** Whole runs of a strategy, bar after bar: a window instruction that keeps its values in a ring
    computes at every bar what its raw form reads from the series. */
module StrategyRuns {
  import opened Itch
  import opened StrategyProgram
  import opened StrategyWindows
  import opened StrategySemantics
  import V = StrategyVM

  /** What a run reads: the context may change from bar to bar. */
  datatype Setup = Setup(p: Program, params: seq<real>, bars: Bars, ctx: nat -> Ctx, maths: Maths)

  function EnvOf(r: Setup, t: nat): Env {
    Env(r.p, r.params, r.bars, t, r.ctx(t), r.maths)
  }

  function BarCount(r: Setup): nat {
    |r.bars.o|
  }

  ghost predicate SetupOk(r: Setup) {
    && Accepted(r.p) && |r.params| == |r.p.defaults|
    && |r.bars.o| == |r.bars.h| == |r.bars.l| == |r.bars.c| == |r.bars.v|
  }

  /** A fresh machine before the first bar. */
  ghost predicate Fresh(r: Setup, m: Machine) {
    && SetupOk(r) && m.stack == [] && m.sig == NO_SIGNALS && StateOk(r.p, m.state) && |m.locals| >= r.p.nLocals
    && forall i :: 0 <= i < |m.state| ==> m.state[i] == 0.0
  }

  /** The machine at the start of bar t: state and locals stay, stack and signals start anew. */
  ghost function AtBar(r: Setup, m: Machine, t: nat): Machine
    requires SetupOk(r) && t <= BarCount(r)
  {
    if t == 0 then m
    else
      var end := Before(EnvOf(r, t - 1), AtBar(r, m, t - 1), |r.p.code|);
      m.(state := end.state, locals := end.locals)
  }

  lemma {:induction false} EveryBarStarts(r: Setup, m: Machine, t: nat)
    requires Fresh(r, m) && t <= BarCount(r)
    ensures var b := AtBar(r, m, t);
      b.stack == [] && b.sig == NO_SIGNALS && StateOk(r.p, b.state) && |b.locals| >= r.p.nLocals
  {
    hide Before, StateOk, Accepted;
    if t > 0 {
      EveryBarStarts(r, m, t - 1);
      StackFollowsDepth(EnvOf(r, t - 1), AtBar(r, m, t - 1), |r.p.code|);
    }
  }

  // ---- one slot, one instruction ----------------------------------------------------------------

  /** The instruction keeps state between bars. */
  predicate Keeps(op: Op) {
    UsesSlot(op) && !op.Raw? && !op.DelayRaw?
  }

  /** Instruction j keeps its state in a slot no other instruction uses. */
  ghost predicate Alone(p: Program, j: nat) {
    && j < |p.code| && Keeps(OpOf(p.code[j]))
    && forall i :: 0 <= i < |p.code| && i != j && UsesSlot(OpOf(p.code[i])) ==> ArgOf(p.code[i]) != ArgOf(p.code[j])
  }

  ghost predicate OwnSlot(p: Program, s: Slot) {
    s in p.slots && Stores(s) && SlotFits(s, p.stateFloats)
  }

  /** The slot of instruction j. */
  lemma SlotOf(p: Program, j: nat) returns (s: Slot)
    requires Accepted(p) && Alone(p, j)
    ensures ArgOf(p.code[j]) < |p.slots| && s == p.slots[ArgOf(p.code[j])] && OwnSlot(p, s)
    ensures KindIs(s, ExpectedKind(OpOf(p.code[j])))
  {
    assert InsOk(p, j);
    s := p.slots[ArgOf(p.code[j])];
    assert s in p.slots;
  }

  lemma NotItsSlot(p: Program, j: nat, i: nat, k: int)
    requires Accepted(p) && Alone(p, j) && i < |p.code| && i != j && MayWrite(p, p.code[i], k)
    requires ArgOf(p.code[j]) < |p.slots|
    ensures !Owns(p.slots[ArgOf(p.code[j])], k)
  {
    var a, b := ArgOf(p.code[i]), ArgOf(p.code[j]);
    assert if a < b then Apart(p.slots[a], p.slots[b]) else Apart(p.slots[b], p.slots[a]);
  }

  /** Every other instruction leaves the ring alone. */
  lemma OthersKeep(e: Env, m: Machine, j: nat, i: nat)
    requires EnvOk(e) && BarStart(e, m) && Alone(e.p, j) && i < |e.p.code| && i != j
    requires ArgOf(e.p.code[j]) < |e.p.slots| && OwnSlot(e.p, e.p.slots[ArgOf(e.p.code[j])])
    ensures var s, b, b' := e.p.slots[ArgOf(e.p.code[j])], Before(e, m, i), Before(e, m, i + 1);
      |b.state| == |b'.state| == e.p.stateFloats && Block(b'.state, s) == Block(b.state, s)
  {
    hide Exec, Accepted, Depth, RequiredStack, OperandOk, MayWrite, OpOf, ArgOf;
    var s, b, b' := e.p.slots[ArgOf(e.p.code[j])], Before(e, m, i), Before(e, m, i + 1);
    StackFollowsDepth(e, m, i);
    StackFollowsDepth(e, m, i + 1);
    ExecStays(e, b, e.p.code[i]);
    forall k | s.off <= k < s.off + StateSize(KINDS[s.kind], s.cap) ensures b'.state[k] == b.state[k] {
      if MayWrite(e.p, e.p.code[i], k) { NotItsSlot(e.p, j, i, k); }
    }
  }

  lemma {:induction false} KeptUntil(e: Env, m: Machine, j: nat, from: nat, to: nat)
    requires EnvOk(e) && BarStart(e, m) && Alone(e.p, j) && from <= to <= |e.p.code| && (to <= j || from > j)
    requires ArgOf(e.p.code[j]) < |e.p.slots| && OwnSlot(e.p, e.p.slots[ArgOf(e.p.code[j])])
    ensures var s, b, b' := e.p.slots[ArgOf(e.p.code[j])], Before(e, m, from), Before(e, m, to);
      |b.state| == |b'.state| == e.p.stateFloats && Block(b'.state, s) == Block(b.state, s)
  {
    hide Before, Accepted, Alone, OpOf, ArgOf, StateOk, Block;
    if from < to {
      KeptUntil(e, m, j, from, to - 1);
      OthersKeep(e, m, j, to - 1);
    } else {
      StackFollowsDepth(e, m, from);
      assert |Before(e, m, from).state| == e.p.stateFloats by { SameLength(e, Before(e, m, from)); }
    }
  }

  lemma SameLength(e: Env, b: Machine)
    requires StateOk(e.p, b.state)
    ensures |b.state| == e.p.stateFloats
  {}

  // ---- the operands ------------------------------------------------------------------------------

  /** The two instructions before j push a lagged series and a window length. */
  predicate FedBy(p: Program, j: nat, id: nat, lag: nat) {
    && 2 <= j < |p.code| && OpOf(p.code[j - 2]) == PushSeriesLag && ArgOf(p.code[j - 2]) == id * 0x1_0000 + lag
    && id < N_SERIES && lag < 0x1_0000
    && OpOf(p.code[j - 1]) in {PushConst, PushParam, PushCtx, Load}
  }

  lemma LaggedPush(e: Env, b: Machine, word: u32, id: nat, lag: nat)
    requires EnvOk(e) && Ready(e, b, word) && OpOf(word) == PushSeriesLag
    requires ArgOf(word) == id * 0x1_0000 + lag && id < N_SERIES && lag < 0x1_0000
    ensures Exec(e, b, word) == Swap(b, 0, Lagged(SeriesOf(e.bars, id), e.t, lag))
  {
    hide Accepted, StateOk, OpOf, ArgOf, Lagged, SeriesOf, Indicator;
    assert (id * 0x1_0000 + lag) / 0x1_0000 == id && (id * 0x1_0000 + lag) % 0x1_0000 == lag;
  }

  lemma PlainPush(e: Env, b: Machine, word: u32)
    requires EnvOk(e) && Ready(e, b, word) && OpOf(word) in {PushConst, PushParam, PushCtx, Load}
    ensures var b' := Exec(e, b, word);
      |b'.stack| == |b.stack| + 1 && b'.stack[..|b.stack|] == b.stack
  {
    hide Accepted, StateOk, OpOf, ArgOf, Lagged, SeriesOf, Indicator;
  }

  /** On every bar the instruction finds the lagged value below the window length. */
  lemma Operands(e: Env, m: Machine, j: nat, id: nat, lag: nat)
    requires EnvOk(e) && BarStart(e, m) && FedBy(e.p, j, id, lag)
    ensures var b := Before(e, m, j);
      |b.stack| >= 2 && StrategySemantics.Below(b) == Lagged(SeriesOf(e.bars, id), e.t, lag)
  {
    hide Exec, Accepted, StateOk, OpOf, ArgOf, Depth, RequiredStack, OperandOk, Lagged, SeriesOf, Ready;
    var a := Before(e, m, j - 2);
    StackFollowsDepth(e, m, j - 2);
    StackFollowsDepth(e, m, j - 1);
    LaggedPush(e, a, e.p.code[j - 2], id, lag);
    PlainPush(e, Before(e, m, j - 1), e.p.code[j - 1]);
  }

  // ---- a slot from bar to bar ----------------------------------------------------------------------

  /** The machine before and after instruction j on bar t. */
  ghost function Pre(r: Setup, m: Machine, j: nat, t: nat): Machine
    requires SetupOk(r) && t < BarCount(r) && j < |r.p.code|
  {
    Before(EnvOf(r, t), AtBar(r, m, t), j)
  }

  ghost function Post(r: Setup, m: Machine, j: nat, t: nat): Machine
    requires SetupOk(r) && t < BarCount(r) && j < |r.p.code|
  {
    Before(EnvOf(r, t), AtBar(r, m, t), j + 1)
  }

  /** Until the instruction's turn its slot is what it was at the start of the bar. */
  lemma SlotStarts(r: Setup, m: Machine, j: nat, s: Slot, t: nat)
    requires Fresh(r, m) && t < BarCount(r) && Alone(r.p, j)
    requires ArgOf(r.p.code[j]) < |r.p.slots| && s == r.p.slots[ArgOf(r.p.code[j])] && OwnSlot(r.p, s)
    ensures |Pre(r, m, j, t).state| == r.p.stateFloats == |AtBar(r, m, t).state|
    ensures Block(Pre(r, m, j, t).state, s) == Block(AtBar(r, m, t).state, s)
  {
    hide Accepted, Before, OpOf, ArgOf, StateOk, AtBar;
    EveryBarStarts(r, m, t);
    KeptUntil(EnvOf(r, t), AtBar(r, m, t), j, 0, j);
    BeforeStart(EnvOf(r, t), AtBar(r, m, t));
  }

  /** From its turn on its slot is what the next bar starts with. */
  lemma SlotEnds(r: Setup, m: Machine, j: nat, s: Slot, t: nat)
    requires Fresh(r, m) && t < BarCount(r) && Alone(r.p, j)
    requires ArgOf(r.p.code[j]) < |r.p.slots| && s == r.p.slots[ArgOf(r.p.code[j])] && OwnSlot(r.p, s)
    ensures |Post(r, m, j, t).state| == r.p.stateFloats == |AtBar(r, m, t + 1).state|
    ensures Block(AtBar(r, m, t + 1).state, s) == Block(Post(r, m, j, t).state, s)
  {
    hide Accepted, Before, OpOf, ArgOf, StateOk;
    EveryBarStarts(r, m, t);
    KeptUntil(EnvOf(r, t), AtBar(r, m, t), j, j + 1, |r.p.code|);
  }

  /** The state of a slot before a bar's instruction is what the bar before left, zeros at first. */
  lemma SlotCarries(r: Setup, m: Machine, j: nat, s: Slot, t: nat)
    requires Fresh(r, m) && t < BarCount(r) && Alone(r.p, j)
    requires ArgOf(r.p.code[j]) < |r.p.slots| && s == r.p.slots[ArgOf(r.p.code[j])] && OwnSlot(r.p, s)
    ensures |Pre(r, m, j, t).state| == r.p.stateFloats == |AtBar(r, m, t).state|
    ensures t > 0 ==> |Post(r, m, j, t - 1).state| == r.p.stateFloats
    ensures t > 0 ==> Block(Pre(r, m, j, t).state, s) == Block(Post(r, m, j, t - 1).state, s)
    ensures t == 0 ==>
      forall i :: 0 <= i < StateSize(KINDS[s.kind], s.cap) ==> Block(Pre(r, m, j, 0).state, s)[i] == 0.0
    ensures Block(Pre(r, m, j, t).state, s) == Block(AtBar(r, m, t).state, s)
  {
    hide Accepted, Alone, Pre, Post, OpOf, ArgOf, StateOk;
    SlotStarts(r, m, j, s, t);
    if t > 0 { SlotEnds(r, m, j, s, t - 1); }
  }

  lemma BeforeStart(e: Env, m: Machine)
    requires EnvOk(e)
    ensures Before(e, m, 0) == m
  {}

  /** The operands of an instruction that keeps state; the true range has no input operand. */
  function InputOf(op: Op, b: Machine): real
    requires |b.stack| >= 2 || (op == Atr && b.stack != [])
  {
    if op == Atr then 0.0 else StrategySemantics.Below(b)
  }

  /** One bar of an instruction that keeps state, as its indicator. */
  lemma SlotBar(r: Setup, m: Machine, j: nat, s: Slot, t: nat)
    requires Fresh(r, m) && t < BarCount(r) && Alone(r.p, j) && KindIs(s, ExpectedKind(OpOf(r.p.code[j])))
    requires ArgOf(r.p.code[j]) < |r.p.slots| && s == r.p.slots[ArgOf(r.p.code[j])] && OwnSlot(r.p, s)
    ensures var op, b, b' := OpOf(r.p.code[j]), Pre(r, m, j, t), Post(r, m, j, t);
      && |b.state| == |b'.state| == r.p.stateFloats && |b.stack| >= (if op == Atr then 1 else 2) && b'.stack != []
      && var st := Block(b.state, s);
      && |st| == StateSize(ExpectedKind(op), s.cap) > 0 && Natural(st[0])
      && (Block(b'.state, s), Top(b')) == Indicator(EnvOf(r, t), op, s, st, InputOf(op, b), Top(b))
  {
    hide Accepted, OpOf, ArgOf, Indicator, Exec, Depth, RequiredStack, OperandOk, Top, StrategySemantics.Below;
    var e, a := EnvOf(r, t), AtBar(r, m, t);
    var b, word := Before(e, a, j), r.p.code[j];
    EveryBarStarts(r, m, t);
    StackFollowsDepth(e, a, j);
    V.SlotFacts(e, b, word);
    var st, op := Block(b.state, s), OpOf(word);
    assert st[0] == b.state[s.off];
    var (block, value) := Indicator(e, op, s, st, InputOf(op, b), Top(b));
    V.SlotExec(e, b, word, s, InputOf(op, b), block, value);
    BlockWritten(b.state, s, block);
    SwapTop(b, if op == Atr then 1 else 2, value, WithBlock(b.state, s, block));
  }

  // ---- one bar -------------------------------------------------------------------------------------

  /** Value the instruction pushes once its ring holds this bar's value. */
  function RingValue(op: Op, st: seq<real>, cap: nat, n: real, sqrt: real -> real): real
    requires (op.Ring? || op == Delay) && 0 < cap && |st| == 1 + cap && Trunc(st[0]) >= 1
  {
    var count := Trunc(st[0]);
    if op.Ring? then Aggregate(op.w, RingWindow(st, cap, Length(n, cap, count)), sqrt)
    else st[RingIndex(count - 1 - Back(n, cap, count), cap)]
  }

  lemma RingIndicator(e: Env, op: Op, s: Slot, st: seq<real>, x: real, n: real)
    requires (op.Ring? || op == Delay) && KindIs(s, KRing) && SlotFits(s, e.p.stateFloats)
    requires |st| == 1 + s.cap && Natural(st[0]) && e.t < |e.bars.h| == |e.bars.l| == |e.bars.c|
    ensures Trunc(st[0]) >= 0 && |RingPush(st, s.cap, x)| == 1 + s.cap
    ensures Trunc(RingPush(st, s.cap, x)[0]) == Trunc(st[0]) + 1
    ensures Indicator(e, op, s, st, x, n) ==
      (RingPush(st, s.cap, x), RingValue(op, RingPush(st, s.cap, x), s.cap, n, e.maths.sqrt))
  {
    hide Aggregate, RingWindow, StrategyWindows.Length, Back;
    NaturalNext(st[0]);
    assert Trunc((Trunc(st[0]) + 1) as real) == Trunc(st[0]) + 1;
  }

  lemma BlockWritten(state: seq<real>, s: Slot, block: seq<real>)
    requires SlotFits(s, |state|) && |block| == StateSize(KINDS[s.kind], s.cap)
    ensures Block(WithBlock(state, s, block), s) == block
  {}

  lemma SwapTop(b: Machine, pops: nat, x: real, state: seq<real>)
    requires pops <= |b.stack|
    ensures var b' := Swap(b, pops, x).(state := state); b'.stack != [] && Top(b') == x
  {}

  /** At the start of every bar the ring holds the lagged series up to the bar before. */
  lemma {:induction false} RingHolds(r: Setup, m: Machine, j: nat, id: nat, lag: nat, s: Slot, t: nat)
    requires Fresh(r, m) && t < BarCount(r) && RingAlone(r.p, j, s) && FedBy(r.p, j, id, lag)
    ensures |Pre(r, m, j, t).state| == r.p.stateFloats
    ensures Pushed(Block(Pre(r, m, j, t).state, s), s.cap, Series(SeriesOf(r.bars, id), t, lag))
    decreases t
  {
    hide Accepted, Before, Alone, FedBy, OpOf, ArgOf, RingValue, Pre, Post;
    SlotCarries(r, m, j, s, t);
    if t > 0 {
      RingHolds(r, m, j, id, lag, s, t - 1);
      RingAt(r, m, j, id, lag, s, t - 1);
    }
  }

  ghost predicate RingAlone(p: Program, j: nat, s: Slot) {
    && Accepted(p) && Alone(p, j) && (OpOf(p.code[j]).Ring? || OpOf(p.code[j]) == Delay)
    && ArgOf(p.code[j]) < |p.slots| && s == p.slots[ArgOf(p.code[j])] && OwnSlot(p, s) && KindIs(s, KRing)
  }

  /** Instruction j on bar t, when the ring holds the series before it. */
  lemma RingAt(r: Setup, m: Machine, j: nat, id: nat, lag: nat, s: Slot, t: nat)
    requires Fresh(r, m) && t < BarCount(r) && RingAlone(r.p, j, s) && FedBy(r.p, j, id, lag)
    requires |Pre(r, m, j, t).state| == r.p.stateFloats
    requires Pushed(Block(Pre(r, m, j, t).state, s), s.cap, Series(SeriesOf(r.bars, id), t, lag))
    ensures var b, b' := Pre(r, m, j, t), Post(r, m, j, t);
      && |b'.state| == r.p.stateFloats && Pushed(Block(b'.state, s), s.cap, Series(SeriesOf(r.bars, id), t + 1, lag))
      && b.stack != [] && b'.stack != [] && Trunc(Block(b'.state, s)[0]) == t + 1
      && Top(b') == RingValue(OpOf(r.p.code[j]), Block(b'.state, s), s.cap, Top(b), r.maths.sqrt)
  {
    hide Accepted, OpOf, ArgOf, RingValue, Lagged, RingPush, Block, Pushed, Indicator, FedBy;
    var e, series := EnvOf(r, t), SeriesOf(r.bars, id);
    EveryBarStarts(r, m, t);
    SlotBar(r, m, j, s, t);
    Operands(e, AtBar(r, m, t), j, id, lag);
    var b := Pre(r, m, j, t);
    RingIndicator(e, OpOf(r.p.code[j]), s, Block(b.state, s), StrategySemantics.Below(b), Top(b));
    PushedPush(Block(b.state, s), s.cap, Series(series, t, lag), Lagged(series, t, lag));
    SeriesNext(series, t, lag);
    CountIs(Block(Post(r, m, j, t).state, s), s.cap, Series(series, t + 1, lag));
  }

  lemma CountIs(st: seq<real>, cap: nat, xs: seq<real>)
    requires Pushed(st, cap, xs)
    ensures |st| == 1 + cap && Trunc(st[0]) == |xs|
  {
    assert Trunc(|xs| as real) == |xs|;
  }

  /** On every bar of every run, the value a window or delay instruction pushes from its ring is
      the one its raw form computes from the series, for every capacity, window and lag. */
  lemma EveryBarIsRaw(r: Setup, m: Machine, j: nat, id: nat, lag: nat, raw: Slot, t: nat)
    requires Fresh(r, m) && t < BarCount(r) && Alone(r.p, j) && FedBy(r.p, j, id, lag)
    requires OpOf(r.p.code[j]).Ring? || OpOf(r.p.code[j]) == Delay
    requires KindIs(raw, KRaw) && SlotFits(raw, r.p.stateFloats) && raw.aux == id * 0x1_0000 + lag
    requires ArgOf(r.p.code[j]) < |r.p.slots| && raw.cap == r.p.slots[ArgOf(r.p.code[j])].cap
    ensures var op, b, b' := OpOf(r.p.code[j]), Pre(r, m, j, t), Post(r, m, j, t);
      b.stack != [] && b'.stack != [] &&
      Top(b') == RawValue(EnvOf(r, t), if op.Ring? then Raw(op.w) else DelayRaw, raw, Top(b))
  {
    hide Block, Alone, Accepted, OpOf, ArgOf, Lagged, Aggregate, RingWindow, RawWindow, StrategyWindows.Length, Back;
    hide Pushed, Pre, Post;
    var s := SlotOf(r.p, j);
    RingHolds(r, m, j, id, lag, s, t);
    RingAt(r, m, j, id, lag, s, t);
    var b, b' := Pre(r, m, j, t), Post(r, m, j, t);
    RingReadsSeries(Block(b'.state, s), s.cap, SeriesOf(r.bars, id), t, lag, Top(b));
    assert (id * 0x1_0000 + lag) / 0x1_0000 == id && (id * 0x1_0000 + lag) % 0x1_0000 == lag;
  }

  /** A ring holding the series up to bar t reads what the raw forms read. */
  lemma RingReadsSeries(st: seq<real>, cap: nat, s: seq<real>, t: nat, lag: nat, n: real)
    requires 0 < cap && t < |s| && Pushed(st, cap, Series(s, t + 1, lag))
    ensures Trunc(st[0]) == t + 1 && |st| == 1 + cap
    ensures var k := Length(n, cap, t + 1); RingWindow(st, cap, k) == RawWindow(s, t, lag, k)
    ensures var back := Back(n, cap, t + 1); st[RingIndex(t - back, cap)] == Lagged(s, t - back, lag)
  {
    CountIs(st, cap, Series(s, t + 1, lag));
    WindowOfPushed(st, cap, Series(s, t + 1, lag), Length(n, cap, t + 1));
    RawIsSeries(s, t, lag, Length(n, cap, t + 1));
    assert Series(s, t + 1, lag)[t - Back(n, cap, t + 1)] == Lagged(s, t - Back(n, cap, t + 1), lag);
    hide RingWindow, RawWindow;
  }

  // ---- the interpreter ----------------------------------------------------------------------------

  /** Steps the interpreter through the first n bars: it goes through the machines above, or
      leaves its stack on the first bar whose heights pass it. */
  method RunBars(vm: V.StrategyVM, bars: Bars, ctx: nat -> Ctx, n: nat) returns (overflow: bool)
    requires vm.Valid() && |bars.o| == |bars.h| == |bars.l| == |bars.c| == |bars.v| && n <= |bars.o|
    modifies vm
    ensures var r := Setup(vm.prog, vm.params, bars, ctx, vm.maths);
      && SetupOk(r)
      && (!overflow ==> vm.Valid() && vm.Start() == AtBar(r, old(vm.Start()), n))
      && (overflow ==> exists t :: 0 <= t < n && V.Outgrows(EnvOf(r, t), AtBar(r, old(vm.Start()), t)))
    ensures Roomy(vm.prog.code) || NoRepeatedSignal(vm.prog.code) ==> !overflow
  {
    hide Before, Accepted, StateOk, Roomy, NoRepeatedSignal;
    ghost var r := Setup(vm.prog, vm.params, bars, ctx, vm.maths);
    for t := 0 to n
      invariant vm.Valid() && SetupOk(r) && vm.Start() == AtBar(r, old(vm.Start()), t)
    {
      assert vm.EnvAt(bars, t, ctx(t)) == EnvOf(r, t);
      var sig;
      sig, overflow := vm.Step(bars, t, ctx(t));
      if overflow { return; }
    }
    overflow := false;
  }
}
