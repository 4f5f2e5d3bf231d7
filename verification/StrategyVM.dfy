/** The stepping machine: a fixed stack of 32 places, indicator state kept between bars. */
module StrategyVM {
  import opened Itch
  import opened StrategyProgram
  import opened StrategyWindows
  import opened StrategySemantics

  class StrategyVM {
    const prog: Program
    const params: seq<real>
    const maths: Maths
    var state: seq<real>
    var locals: seq<real>

    /** Between bars. */
    ghost predicate Valid()
      reads this
    {
      && Accepted(prog) && |params| == |prog.defaults| && StateOk(prog, state) && |locals| >= prog.nLocals
    }

    /** No parameters means the program's defaults. */
    constructor (prog: Program, given: seq<real>, maths: Maths)
      requires Accepted(prog) && (given == [] || |given| == |prog.defaults|)
      ensures Valid() && this.prog == prog && this.maths == maths
      ensures forall i :: 0 <= i < |state| ==> state[i] == 0.0
    {
      this.prog := prog;
      this.maths := maths;
      params := if given == [] then seq(|prog.defaults|,
        i requires 0 <= i < |prog.defaults| => maths.value(prog.defaults[i])) else given;
      state := seq(prog.stateFloats, _ => 0.0);
      locals := seq(if prog.nLocals > 0 then prog.nLocals else 1, _ => 0.0);
      new;
      forall s | s in prog.slots && Stores(s) ensures 0 <= s.off < |state| && Natural(state[s.off]) {
        assert SlotFits(s, prog.stateFloats);
      }
    }

    ghost function EnvAt(bars: Bars, t: nat, ctx: Ctx): Env {
      Env(prog, params, bars, t, ctx, maths)
    }

    ghost function Start(): Machine
      reads this
    {
      Machine([], state, locals, NO_SIGNALS)
    }

    // ---- folding a window ------------------------------------------------------------------------

    method Total(xs: seq<real>) returns (acc: real)
      ensures acc == Sum(xs)
    {
      acc := 0.0;
      for i := 0 to |xs|
        invariant acc == Sum(xs[..i])
      {
        assert xs[..i + 1][..i] == xs[..i];
        acc := acc + xs[i];
      }
      assert xs[..|xs|] == xs;
    }

    method Squares(xs: seq<real>, mean: real) returns (ss: real)
      ensures ss == SquaredDiffs(xs, mean)
    {
      ss := 0.0;
      for i := 0 to |xs|
        invariant ss == SquaredDiffs(xs[..i], mean)
      {
        assert xs[..i + 1][..i] == xs[..i];
        var d := xs[i] - mean;
        ss := ss + d * d;
      }
      assert xs[..|xs|] == xs;
    }

    method Farthest(xs: seq<real>, highest: bool) returns (acc: real)
      requires xs != []
      ensures acc == Extreme(xs, highest)
    {
      acc := xs[0];
      for i := 1 to |xs|
        invariant acc == Extreme(xs[..i], highest)
      {
        assert xs[..i + 1][..i] == xs[..i];
        if highest { if xs[i] > acc { acc := xs[i]; } } else if xs[i] < acc { acc := xs[i]; }
      }
      assert xs[..|xs|] == xs;
    }

    /** Mean, extreme or two-pass deviation of a window. */
    method Fold(w: Window, xs: seq<real>) returns (r: real)
      requires xs != []
      ensures r == Aggregate(w, xs, maths.sqrt)
    {
      match w {
        case Sma =>
          var acc := Total(xs);
          r := acc / (|xs| as real);
        case Highest => r := Farthest(xs, true);
        case Lowest => r := Farthest(xs, false);
        case Stddev =>
          var acc := Total(xs);
          var ss := Squares(xs, acc / (|xs| as real));
          var variance := ss / (|xs| as real);
          r := if variance > 0.0 then maths.sqrt(variance) else 0.0;
      }
    }

    // ---- instructions -------------------------------------------------------------------------------

    /** Instructions that push one value and touch nothing else. */
    method PushIns(stack: array<real>, sp: nat, word: u32, ghost sig: Signals, bars: Bars, t: nat, ctx: Ctx)
      returns (sp': nat, overflow: bool)
      requires stack.Length == VM_MAX_STACK && sp <= VM_MAX_STACK && EnvOk(EnvAt(bars, t, ctx))
      requires Ready(EnvAt(bars, t, ctx), Machine(stack[..sp], state, locals, sig), word)
      requires OpOf(word) in {PushConst, PushParam, PushSeries, PushSeriesLag, PushCtx, Load}
      modifies stack
      ensures var m' := Exec(EnvAt(bars, t, ctx), old(Machine(stack[..sp], state, locals, sig)), word);
        && (overflow <==> |m'.stack| > VM_MAX_STACK)
        && (!overflow ==> sp' <= VM_MAX_STACK && Machine(stack[..sp'], state, locals, sig) == m')
    {
      var arg := ArgOf(word);
      if sp == VM_MAX_STACK { return sp, true; }
      var x: real;
      match OpOf(word) {
        case PushConst => x := maths.value(prog.consts[arg]);
        case PushParam => x := params[arg];
        case PushSeries => x := SeriesOf(bars, arg)[t];
        case PushSeriesLag =>
          var series, idx := SeriesOf(bars, arg / 0x1_0000), t - arg % 0x1_0000;
          x := series[if idx > 0 then idx else 0];
        case PushCtx =>
          x := if arg == 0 then t as real else if arg == 1 then ctx.position else if arg == 2 then ctx.entryPx
            else ctx.equity;
        case Load => x := locals[arg];
      }
      stack[sp] := x;
      assert stack[..sp + 1] == old(stack[..sp]) + [x];
      assert old(stack[..sp])[..sp] == old(stack[..sp]);
      return sp + 1, false;
    }

    /** Arithmetic, comparison and logic: the operands give way to the result. */
    method ArithIns(stack: array<real>, sp: nat, word: u32, ghost sig: Signals, ghost e: Env) returns (sp': nat)
      requires stack.Length == VM_MAX_STACK && sp <= VM_MAX_STACK && EnvOk(e) && e.p == prog && e.maths == maths
      requires Ready(e, Machine(stack[..sp], state, locals, sig), word)
      requires OpOf(word).Binary? || OpOf(word).Unary?
      modifies stack
      ensures sp' <= sp
      ensures Machine(stack[..sp'], state, locals, sig) == Exec(e, old(Machine(stack[..sp], state, locals, sig)), word)
    {
      match OpOf(word) {
        case Binary(b) =>
          var y := stack[sp - 1];
          sp' := sp - 1;
          stack[sp' - 1] := Apply(b, stack[sp' - 1], y);
          assert stack[..sp'] == old(stack[..sp])[..sp - 2] + [stack[sp' - 1]];
        case Unary(u) =>
          sp' := sp;
          stack[sp - 1] := Apply1(u, stack[sp - 1], maths);
          assert stack[..sp'] == old(stack[..sp])[..sp - 1] + [stack[sp - 1]];
      }
    }

    /** Stores and sinks: one value leaves the stack, unless a fired signal keeps it there. */
    method SinkIns(stack: array<real>, sp: nat, word: u32, sig: Signals, ghost e: Env) returns (sp': nat, sig': Signals)
      requires stack.Length == VM_MAX_STACK && sp <= VM_MAX_STACK && EnvOk(e) && e.p == prog
      requires Ready(e, Machine(stack[..sp], state, locals, sig), word)
      requires OpOf(word) == Store || OpOf(word).Fire? || OpOf(word).Set? || OpOf(word) == Halt
      modifies this`locals
      ensures sp' <= sp
      ensures Machine(stack[..sp'], state, locals, sig') == Exec(e, old(Machine(stack[..sp], state, locals, sig)), word)
    {
      sp', sig' := sp, sig;
      match OpOf(word) {
        case Store =>
          sp' := sp - 1;
          locals := locals[ArgOf(word) := stack[sp']];
        case Fire(s) =>
          if !(s in sig.fired && sig.fired[s]) {
            sp' := sp - 1;
            sig' := sig.(fired := sig.fired[s := stack[sp'] != 0.0]);
          }
        case Set(k) =>
          sp' := sp - 1;
          sig' := Sunk(sig, k, stack[sp']);
        case Halt =>
      }
      assert stack[..sp'] == stack[..sp][..sp'];
    }

    /** Raw windows read the bar series back from the current bar. */
    method RawIns(stack: array<real>, sp: nat, word: u32, ghost sig: Signals, bars: Bars, t: nat, ctx: Ctx)
      requires stack.Length == VM_MAX_STACK && sp <= VM_MAX_STACK && EnvOk(EnvAt(bars, t, ctx))
      requires Ready(EnvAt(bars, t, ctx), Machine(stack[..sp], state, locals, sig), word)
      requires OpOf(word).Raw? || OpOf(word) == DelayRaw
      modifies stack
      ensures Machine(stack[..sp], state, locals, sig) ==
        Exec(EnvAt(bars, t, ctx), old(Machine(stack[..sp], state, locals, sig)), word)
    {
      hide OpAt, Aggregate, Length, Back;
      var s, n := prog.slots[ArgOf(word)], stack[sp - 1];
      assert s in prog.slots;
      var series, lag := SeriesOf(bars, s.aux / 0x1_0000), s.aux % 0x1_0000;
      match OpOf(word) {
        case Raw(w) =>
          var r := Fold(w, RawWindow(series, t, lag, Length(n, s.cap, t + 1)));
          stack[sp - 1] := r;
        case DelayRaw => stack[sp - 1] := Lagged(series, t - Back(n, s.cap, t + 1), lag);
      }
      assert stack[..sp] == old(stack[..sp])[..sp - 1] + [stack[sp - 1]];
    }

    /** Indicators update the floats of their own slot. */
    method SlotIns(stack: array<real>, sp: nat, word: u32, ghost sig: Signals, bars: Bars, t: nat, ctx: Ctx)
      returns (sp': nat)
      requires stack.Length == VM_MAX_STACK && sp <= VM_MAX_STACK && EnvOk(EnvAt(bars, t, ctx))
      requires Ready(EnvAt(bars, t, ctx), Machine(stack[..sp], state, locals, sig), word)
      requires OpOf(word) in {Ema, Rsi, Atr, Delay, CrossOver, CrossUnder} || OpOf(word).Ring?
      modifies stack, this`state
      ensures sp' <= sp
      ensures Machine(stack[..sp'], state, locals, sig) ==
        Exec(EnvAt(bars, t, ctx), old(Machine(stack[..sp], state, locals, sig)), word)
    {
      hide Indicator, Exec, OpAt, OpOf, Ready, EnvOk, SlotFits, KindIs, Natural, StateSize, UsesSlot, ExpectedKind;
      ghost var e, m := EnvAt(bars, t, ctx), Machine(stack[..sp], state, locals, sig);
      SlotFacts(e, m, word);
      var op, s, n := OpOf(word), prog.slots[ArgOf(word)], stack[sp - 1];
      var st := state[s.off..s.off + StateSize(KINDS[s.kind], s.cap)];
      var x := if op == Atr then 0.0 else stack[sp - 2];
      var st', value := Update(op, s, st, x, n, bars, t, ctx);
      SlotExec(e, m, word, s, x, st', value);
      state := state[..s.off] + st' + state[s.off + |st'|..];
      sp' := if op == Atr then sp else sp - 1;
      stack[sp' - 1] := value;
      assert stack[..sp'] == old(stack[..sp])[..sp' - 1] + [value];
    }

    /** New slot contents and the indicator's value. */
    method Update(op: Op, s: Slot, st: seq<real>, x: real, n: real, bars: Bars, t: nat, ctx: Ctx)
      returns (st': seq<real>, value: real)
      requires EnvOk(EnvAt(bars, t, ctx)) && SlotFits(s, prog.stateFloats)
      requires UsesSlot(op) && !op.Raw? && !op.DelayRaw? && KindIs(s, ExpectedKind(op))
      requires |st| == StateSize(ExpectedKind(op), s.cap) && Natural(st[0])
      ensures (st', value) == Indicator(EnvAt(bars, t, ctx), op, s, st, x, n)
    {
      hide Indicator, EnvOk, SlotFits, StateSize, Natural, KindIs;
      match op {
        case Ema | Atr => st', value := UpdateAverage(op, s, st, x, n, bars, t, ctx);
        case Rsi => st', value := UpdateStrength(op, s, st, x, n, bars, t, ctx);
        case Ring(_) | Delay => st', value := UpdateWindow(op, s, st, x, n, bars, t, ctx);
        case CrossOver | CrossUnder => st', value := UpdateCross(op, s, st, x, n, bars, t, ctx);
      }
    }

    /** Exponential averages of a value or of the true range. */
    method UpdateAverage(op: Op, s: Slot, st: seq<real>, x: real, n: real, bars: Bars, t: nat, ctx: Ctx)
      returns (st': seq<real>, value: real)
      requires EnvOk(EnvAt(bars, t, ctx)) && SlotFits(s, prog.stateFloats) && (op == Ema || op == Atr)
      requires KindIs(s, ExpectedKind(op)) && |st| == StateSize(ExpectedKind(op), s.cap) && Natural(st[0])
      ensures (st', value) == Indicator(EnvAt(bars, t, ctx), op, s, st, x, n)
    {
      hide Aggregate, Smoothed, Blended, Strength, TrueRange, RingWindow, Length, Back, Accepted;
      NaturalNext(st[0]);
      var y := if op == Ema then x else TrueRange(bars, t);
      st' := st[1 := if st[0] == 0.0 then y else if op == Ema then Blended(st[1], y, n) else Smoothed(st[1], y, n)];
      st' := st'[0 := st[0] + 1.0];
      value := st'[1];
      assert st' == [st[0] + 1.0, value];
    }

    /** Relative strength: averages of gains and losses against the last value. */
    method UpdateStrength(op: Op, s: Slot, st: seq<real>, x: real, n: real, bars: Bars, t: nat, ctx: Ctx)
      returns (st': seq<real>, value: real)
      requires EnvOk(EnvAt(bars, t, ctx)) && SlotFits(s, prog.stateFloats) && op == Rsi
      requires KindIs(s, ExpectedKind(op)) && |st| == StateSize(ExpectedKind(op), s.cap) && Natural(st[0])
      ensures (st', value) == Indicator(EnvAt(bars, t, ctx), op, s, st, x, n)
    {
      hide Aggregate, Smoothed, Blended, Strength, TrueRange, RingWindow, Length, Back, Accepted;
      NaturalNext(st[0]);
      var count := Trunc(st[0]);
      st' := st;
      if count == 0 {
        value := 50.0;
      } else {
        var delta := x - st[1];
        var gain, loss := if delta > 0.0 then delta else 0.0, if -delta > 0.0 then -delta else 0.0;
        if count == 1 {
          st' := st'[2 := gain][3 := loss];
        } else {
          st' := st'[2 := Smoothed(st[2], gain, n)][3 := Smoothed(st[3], loss, n)];
        }
        value := Strength(st'[2], st'[3]);
      }
      st' := st'[1 := x][0 := (count + 1) as real];
      assert st' == [(count + 1) as real, x, st'[2], st'[3]];
    }

    /** A value enters the ring; the window or the delayed value is read back. */
    method UpdateWindow(op: Op, s: Slot, st: seq<real>, x: real, n: real, bars: Bars, t: nat, ctx: Ctx)
      returns (st': seq<real>, value: real)
      requires EnvOk(EnvAt(bars, t, ctx)) && SlotFits(s, prog.stateFloats) && (op.Ring? || op == Delay)
      requires KindIs(s, ExpectedKind(op)) && |st| == StateSize(ExpectedKind(op), s.cap) && Natural(st[0])
      ensures (st', value) == Indicator(EnvAt(bars, t, ctx), op, s, st, x, n)
    {
      hide Aggregate, Smoothed, Blended, Strength, TrueRange, Back, Accepted;
      NaturalNext(st[0]);
      var count := Trunc(st[0]);
      st' := RingPush(st, s.cap, x);
      assert Trunc(st'[0]) == count + 1;
      match op {
        case Ring(w) => value := Fold(w, RingWindow(st', s.cap, Length(n, s.cap, count + 1)));
        case Delay => value := st'[RingIndex(count - Back(n, s.cap, count + 1), s.cap)];
      }
    }

    /** Crossings compare this pair of values with the last one. */
    method UpdateCross(op: Op, s: Slot, st: seq<real>, x: real, n: real, bars: Bars, t: nat, ctx: Ctx)
      returns (st': seq<real>, value: real)
      requires EnvOk(EnvAt(bars, t, ctx)) && SlotFits(s, prog.stateFloats) && (op == CrossOver || op == CrossUnder)
      requires KindIs(s, ExpectedKind(op)) && |st| == StateSize(ExpectedKind(op), s.cap) && Natural(st[0])
      ensures (st', value) == Indicator(EnvAt(bars, t, ctx), op, s, st, x, n)
    {
      hide Aggregate, Smoothed, Blended, Strength, TrueRange, RingWindow, Length, Back, Accepted;
      NaturalNext(st[0]);
      var count := Trunc(st[0]);
      value := Flag(count >= 1 && if op == CrossOver then x > n && st[1] <= st[2] else x < n && st[1] >= st[2]);
      st' := st[1 := x][2 := n][0 := (count + 1) as real];
      assert st' == [(count + 1) as real, x, n];
    }

    // ---- a bar --------------------------------------------------------------------------------------

    /** Runs the program once for bar t. The run stays inside the stack exactly when no depth plus
        skipped pops exceeds it. Programs whose depth leaves room for their repeated signal
        instructions always do. */
    method Step(bars: Bars, t: nat, ctx: Ctx) returns (sig: Signals, overflow: bool)
      requires Valid() && EnvOk(EnvAt(bars, t, ctx))
      modifies this`state, this`locals
      ensures overflow <==> Outgrows(EnvAt(bars, t, ctx), old(Start()))
      ensures !overflow ==> Valid() && Ends(Before(EnvAt(bars, t, ctx), old(Start()), |prog.code|), state, locals, sig)
      ensures Roomy(prog.code) || NoRepeatedSignal(prog.code) ==> !overflow
    {
      ghost var e, m := EnvAt(bars, t, ctx), Start();
      hide Accepted, Exec, StateOk, OperandOk, EnvOk, Ready, OpOf, Roomy, NoRepeatedSignal;
      var stack := new real[VM_MAX_STACK](_ => 0.0);
      var sp: nat := 0;
      sig, overflow := NO_SIGNALS, false;
      if NoRepeatedSignal(prog.code) { PlainIsRoomy(prog); }
      if Roomy(prog.code) {
        forall i | 0 <= i <= |prog.code| ensures |Before(e, m, i).stack| <= VM_MAX_STACK { RoomyStaysInside(e, m, i); }
      }
      for pc := 0 to |prog.code|
        invariant fresh(stack) && stack.Length == VM_MAX_STACK && sp <= VM_MAX_STACK
        invariant Machine(stack[..sp], state, locals, sig) == Before(e, m, pc)
        invariant forall i :: 0 <= i <= pc ==> |Before(e, m, i).stack| <= VM_MAX_STACK
      {
        StackFollowsDepth(e, m, pc);
        sp, sig, overflow := Execute(stack, sp, prog.code[pc], sig, bars, t, ctx);
        assert Before(e, m, pc + 1) == Exec(e, Before(e, m, pc), prog.code[pc]);
        if overflow { return; }
      }
      StackFollowsDepth(e, m, |prog.code|);
    }

    /** One instruction. */
    method Execute(stack: array<real>, sp: nat, word: u32, sig: Signals, bars: Bars, t: nat, ctx: Ctx)
      returns (sp': nat, sig': Signals, overflow: bool)
      requires stack.Length == VM_MAX_STACK && sp <= VM_MAX_STACK && EnvOk(EnvAt(bars, t, ctx))
      requires Ready(EnvAt(bars, t, ctx), Machine(stack[..sp], state, locals, sig), word)
      modifies stack, this`state, this`locals
      ensures var m' := Exec(EnvAt(bars, t, ctx), old(Machine(stack[..sp], state, locals, sig)), word);
        && (overflow <==> |m'.stack| > VM_MAX_STACK)
        && (!overflow ==> sp' <= VM_MAX_STACK && Machine(stack[..sp'], state, locals, sig') == m')
    {
      ghost var e := EnvAt(bars, t, ctx);
      hide Exec, Ready, EnvOk, OpAt;
      sp', sig', overflow := sp, sig, false;
      match OpOf(word) {
        case PushConst | PushParam | PushSeries | PushSeriesLag | PushCtx | Load =>
          sp', overflow := PushIns(stack, sp, word, sig, bars, t, ctx);
        case Binary(_) | Unary(_) => sp' := ArithIns(stack, sp, word, sig, e);
        case Ema | Rsi | Atr | Ring(_) | Delay | CrossOver | CrossUnder =>
          sp' := SlotIns(stack, sp, word, sig, bars, t, ctx);
        case Raw(_) | DelayRaw => RawIns(stack, sp, word, sig, bars, t, ctx);
        case Store | Fire(_) | Set(_) | Halt => sp', sig' := SinkIns(stack, sp, word, sig, e);
        case Bad => assert false by { NotBad(e, Machine(stack[..sp], state, locals, sig), word); }
      }
    }
  }

  /** The stack passes its 32 places somewhere in the bar. */
  ghost predicate Outgrows(e: Env, m: Machine)
    requires EnvOk(e)
  {
    exists i :: 0 <= i <= |e.p.code| && |Before(e, m, i).stack| > VM_MAX_STACK
  }

  /** The machine's state, locals and signals at the end of a bar. */
  predicate Ends(m: Machine, state: seq<real>, locals: seq<real>, sig: Signals) {
    m.state == state && m.locals == locals && m.sig == sig
  }

  lemma SlotFacts(e: Env, m: Machine, word: u32)
    requires EnvOk(e) && Ready(e, m, word)
    requires OpOf(word) in {Ema, Rsi, Atr, Delay, CrossOver, CrossUnder} || OpOf(word).Ring?
    ensures var op := OpOf(word);
      && ArgOf(word) < |e.p.slots| && var s := e.p.slots[ArgOf(word)];
      && s in e.p.slots && Stores(s) && SlotFits(s, |m.state|) && |m.state| == e.p.stateFloats &&
          Natural(m.state[s.off])
      && UsesSlot(op) && !op.Raw? && !op.DelayRaw? && KindIs(s, ExpectedKind(op)) && KINDS[s.kind] == ExpectedKind(op)
      && s.off >= 0 && StateSize(KINDS[s.kind], s.cap) > 0 && s.off + StateSize(KINDS[s.kind], s.cap) <= |m.state|
      && |m.stack| >= if op == Atr then 1 else 2
  {
    hide OpAt;
    assert e.p.slots[ArgOf(word)] in e.p.slots;
  }

  /** An indicator instruction spelled out. */
  lemma SlotExec(e: Env, m: Machine, word: u32, s: Slot, x: real, block: seq<real>, value: real)
    requires EnvOk(e) && Ready(e, m, word)
    requires OpOf(word) in {Ema, Rsi, Atr, Delay, CrossOver, CrossUnder} || OpOf(word).Ring?
    requires s == e.p.slots[ArgOf(word)] && x == (if OpOf(word) == Atr then 0.0 else Below(m))
    requires s in e.p.slots && Stores(s) && SlotFits(s, |m.state|) && Natural(m.state[s.off])
    requires (block, value) == Indicator(e, OpOf(word), s, Block(m.state, s), x, Top(m))
    ensures var pops := if OpOf(word) == Atr then 1 else 2;
      Exec(e, m, word) == Swap(m, pops, value).(state := WithBlock(m.state, s, block))
  {
    hide Indicator, OpAt;
  }

  lemma NotBad(e: Env, m: Machine, word: u32)
    requires Ready(e, m, word)
    ensures OpOf(word) != Bad
  {}
}
