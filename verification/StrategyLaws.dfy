/** What the instructions mean: laws of their results on the stack, of the indicators from bar to
    bar, and of the windows. */
module StrategyLaws {
  import opened Itch
  import opened StrategyProgram
  import opened StrategyWindows
  import opened StrategySemantics
  import opened StrategyRuns

  /** The value an instruction leaves on top. */
  ghost function Result(e: Env, m: Machine, word: u32): real
    requires EnvOk(e) && Ready(e, m, word)
  {
    var m' := Exec(e, m, word);
    if m'.stack == [] then 0.0 else Top(m')
  }

  // ---- arithmetic -----------------------------------------------------------------------------------

  /** Arithmetic replaces its operands by one value and touches nothing else. */
  lemma ArithKeeps(e: Env, m: Machine, word: u32)
    requires EnvOk(e) && Ready(e, m, word) && (OpOf(word).Binary? || OpOf(word).Unary?)
    ensures var n := if OpOf(word).Binary? then 2 else 1;
      && |m.stack| >= n
      && Exec(e, m, word) == m.(stack := m.stack[..|m.stack| - n] + [Result(e, m, word)])
  {
    hide Accepted, StateOk, Apply, Apply1, Indicator, RawValue, Lagged, SeriesOf;
  }

  lemma QuotientBack(x: real, y: real)
    requires y != 0.0
    ensures x / y * y == x && x * y / y == x
  {}

  lemma ApplyLaws(b: Arith, x: real, y: real)
    ensures var z := Apply(b, x, y);
      && (b == Add ==> z - x == y)
      && (b == Sub ==> z + y == x)
      && (b == Mul ==> if y == 0.0 then z == 0.0 else z / y == x)
      && (b == Div ==> if y == 0.0 then z == 0.0 else z * y == x)
      && (b == Min2 ==> z in {x, y} && z <= x && z <= y)
      && (b == Max2 ==> z in {x, y} && z >= x && z >= y)
  {
    if y != 0.0 { QuotientBack(x, y); }
  }

  lemma IsApplied(e: Env, m: Machine, word: u32, b: Arith)
    requires EnvOk(e) && Ready(e, m, word) && OpOf(word) == Binary(b)
    ensures |m.stack| >= 2 && Result(e, m, word) == Apply(b, StrategySemantics.Below(m), Top(m))
  {
    hide Accepted, StateOk, Apply, Apply1, Indicator, RawValue, Lagged, SeriesOf, OpOf, ArgOf;
  }

  /** Sums, differences, products and quotients undo each other; a quotient by zero is zero. */
  lemma ArithLaws(e: Env, m: Machine, word: u32, b: Arith)
    requires EnvOk(e) && Ready(e, m, word) && OpOf(word) == Binary(b)
    ensures |m.stack| >= 2
    ensures var x, y, z := StrategySemantics.Below(m), Top(m), Result(e, m, word);
      && (b == Add ==> z - x == y)
      && (b == Sub ==> z + y == x)
      && (b == Mul ==> if y == 0.0 then z == 0.0 else z / y == x)
      && (b == Div ==> if y == 0.0 then z == 0.0 else z * y == x)
      && (b == Min2 ==> z in {x, y} && z <= x && z <= y)
      && (b == Max2 ==> z in {x, y} && z >= x && z >= y)
  {
    hide Result, EnvOk, Ready, Apply, OpOf;
    IsApplied(e, m, word, b);
    ApplyLaws(b, StrategySemantics.Below(m), Top(m));
  }

  /** Comparisons agree with the sign of the difference. */
  lemma CompareLaws(e: Env, m: Machine, word: u32, b: Arith, sub: u32)
    requires EnvOk(e) && Ready(e, m, word) && OpOf(word) == Binary(b) && Ready(e, m, sub) && OpOf(sub) == Binary(Sub)
    ensures var z, d := Result(e, m, word), Result(e, m, sub);
      && (b in {Gt, Lt, Ge, Le, Eq, Ne} ==> z == 0.0 || z == 1.0)
      && (b == Gt ==> (z == 1.0 <==> d > 0.0)) && (b == Le ==> (z == 0.0 <==> d > 0.0))
      && (b == Lt ==> (z == 1.0 <==> d < 0.0)) && (b == Ge ==> (z == 0.0 <==> d < 0.0))
      && (b == Eq ==> (z == 1.0 <==> d == 0.0)) && (b == Ne ==> (z == 0.0 <==> d == 0.0))
  {
    hide Accepted, StateOk, Apply1, Indicator, RawValue, Lagged, SeriesOf, OpOf, ArgOf;
  }

  /** Truth values: zero is false, and the connectives obey De Morgan's law. */
  lemma LogicLaws(e: Env, m: Machine, and: u32, or: u32, not: u32)
    requires EnvOk(e) && |m.stack| >= 2 && Ready(e, m, and) && Ready(e, m, or) && Ready(e, m, not)
    requires OpOf(and) == Binary(And) && OpOf(or) == Binary(Or) && OpOf(not) == Unary(Not)
    ensures var x, y := StrategySemantics.Below(m), Top(m);
      && (Result(e, m, and) == 1.0 || Result(e, m, and) == 0.0) && (Result(e, m, or) == 1.0 || Result(e, m, or) == 0.0)
      && (Result(e, m, and) == 1.0 <==> !(x == 0.0) && !(y == 0.0))
      && (Result(e, m, not) == 1.0 <==> y == 0.0) && (Result(e, m, not) == 0.0 <==> y != 0.0)
    ensures var below := m.(stack := m.stack[..|m.stack| - 1]);
      && Ready(e, below, not) && Ready(e, Exec(e, m, and), not)
      && var both := m.(stack := m.stack[..|m.stack| - 2] + [Result(e, below, not), Result(e, m, not)]);
      && Ready(e, both, or)
      && Exec(e, Exec(e, m, and), not) == Exec(e, both, or)
  {
    hide Accepted, StateOk, Indicator, RawValue, Lagged, SeriesOf, OpOf, ArgOf;
    var n := |m.stack| - 2;
    var below := m.(stack := m.stack[..n + 1]);
    var both := m.(stack := m.stack[..n] + [Result(e, below, not), Result(e, m, not)]);
    assert both.stack[..n] == m.stack[..n] && Exec(e, m, and).stack[..n] == m.stack[..n];
  }

  /** Negation, magnitude, and the guarded root and logarithm. */
  lemma UnaryLaws(e: Env, m: Machine, word: u32, u: Single)
    requires EnvOk(e) && Ready(e, m, word) && OpOf(word) == Unary(u)
    ensures |m.stack| >= 1
    ensures var y, z := Top(m), Result(e, m, word);
      && (u == Neg ==> z + y == 0.0)
      && (u == Abs ==> z >= 0.0 && (z == y || z + y == 0.0))
      && (u == Sqrt ==> if y <= 0.0 then z == 0.0 else e.maths.sqrt(y) == z)
      && (u == Log ==> if y <= 0.0 then z == 0.0 else e.maths.log(y) == z)
      && (u == Not ==> if y == 0.0 then z == 1.0 else z == 0.0)
  {
    hide Accepted, StateOk, Apply, Indicator, RawValue, Lagged, SeriesOf, OpOf, ArgOf;
  }

  // ---- sources and sinks ----------------------------------------------------------------------------

  /** Series are the bar's open, high, low, close and volume; a lag reaches back, at most to the
      first bar. */
  lemma PushLaws(e: Env, m: Machine, word: u32)
    requires EnvOk(e) && Ready(e, m, word)
    ensures var z, arg := Result(e, m, word), ArgOf(word);
      && (OpOf(word) == PushSeries ==>
        z == [e.bars.o[e.t], e.bars.h[e.t], e.bars.l[e.t], e.bars.c[e.t], e.bars.v[e.t]][arg])
      && (OpOf(word) == PushSeriesLag ==>
        var lag := arg % 0x1_0000;
        var back := if lag <= e.t then e.t - lag else 0;
        z == [e.bars.o[back], e.bars.h[back], e.bars.l[back], e.bars.c[back], e.bars.v[back]][arg / 0x1_0000])
      && (OpOf(word) == PushCtx ==> z == [e.t as real, e.ctx.position, e.ctx.entryPx, e.ctx.equity][arg])
      && (OpOf(word) == Load ==> z == m.locals[arg])
      && (OpOf(word) == PushParam ==> z == e.params[arg])
      && (OpOf(word) == PushConst ==> z == e.maths.value(e.p.consts[arg]))
      && (OpOf(word) in {PushConst, PushParam, PushSeries, PushSeriesLag, PushCtx, Load} ==>
        Exec(e, m, word) == m.(stack := m.stack + [z]))
  {
    hide Accepted, StateOk, Apply, Apply1, Indicator, RawValue, OpOf, ArgOf;
  }

  /** A store moves the top of the stack to its local. */
  lemma StoreLaws(e: Env, m: Machine, word: u32)
    requires EnvOk(e) && Ready(e, m, word) && OpOf(word) == Store
    ensures |m.stack| >= 1 && ArgOf(word) < |m.locals|
    ensures Exec(e, m, word) == m.(stack := m.stack[..|m.stack| - 1], locals := m.locals[ArgOf(word) := Top(m)])
  {
    hide Accepted, StateOk, Apply, Apply1, Indicator, RawValue, Lagged, SeriesOf, OpOf, ArgOf;
  }

  /** A sink sets its own field of the signals to the popped value and no other; a size outside 0
      to 1 becomes the bound it passed. */
  lemma SinkLaws(e: Env, m: Machine, word: u32, k: Sink)
    requires EnvOk(e) && Ready(e, m, word) && OpOf(word) == Set(k)
    ensures |m.stack| >= 1
    ensures var y, was, now := Top(m), m.sig, Exec(e, m, word).sig;
      && now.fired == was.fired && |Exec(e, m, word).stack| == |m.stack| - 1
      && (if k == Stop then now.stop == y else now.stop == was.stop)
      && (if k == TakeProfit then now.tp == y else now.tp == was.tp)
      && (if k == Trail then now.trail == y else now.trail == was.trail)
      && (k != Size ==> now.size == was.size)
      && (k == Size ==> 0.0 <= now.size <= 1.0)
      && (k == Size ==> now.size == y || (y < 0.0 && now.size == 0.0) || (y > 1.0 && now.size == 1.0))
  {
    hide Accepted, StateOk, Apply, Apply1, Indicator, RawValue, Lagged, SeriesOf, OpOf, ArgOf;
  }

  /** A signal not yet raised is raised exactly by a non-zero value; no other signal changes. */
  lemma FireLaws(e: Env, m: Machine, word: u32, s: Signal)
    requires EnvOk(e) && Ready(e, m, word) && OpOf(word) == Fire(s)
    ensures |m.stack| >= 1
    ensures var m' := Exec(e, m, word);
      && (Fired(m'.sig, s) <==> Fired(m.sig, s) || Top(m) != 0.0)
      && (forall u :: u != s ==> (Fired(m'.sig, u) <==> Fired(m.sig, u)))
      && m'.sig == m.sig.(fired := m'.sig.fired) && m'.locals == m.locals
  {
    hide Accepted, StateOk, Apply, Apply1, Indicator, RawValue, Lagged, SeriesOf, OpOf, ArgOf;
  }

  /** Nothing but signals and sinks touches what a bar signals. */
  lemma SigKept(e: Env, m: Machine, word: u32)
    requires EnvOk(e) && Ready(e, m, word) && !OpOf(word).Fire? && !OpOf(word).Set?
    ensures Exec(e, m, word).sig == m.sig
  {
    hide Accepted, StateOk, Apply, Apply1, Indicator, RawValue, Lagged, SeriesOf, OpOf, ArgOf;
  }

  ghost predicate Has(p: Program, i: nat, op: Op)
    requires i <= |p.code|
  {
    exists j :: 0 <= j < i && OpOf(p.code[j]) == op
  }

  /** A bar starts with nothing raised, no stops and full size; what no instruction sets stays so. */
  lemma {:induction false} UnsetSignals(e: Env, m: Machine, i: nat)
    requires EnvOk(e) && BarStart(e, m) && i <= |e.p.code|
    ensures var sig := Before(e, m, i).sig;
      && (forall s :: Fired(sig, s) ==> Has(e.p, i, Fire(s)))
      && (sig.stop == 0.0 || Has(e.p, i, Set(Stop))) && (sig.tp == 0.0 || Has(e.p, i, Set(TakeProfit)))
      && (sig.trail == 0.0 || Has(e.p, i, Set(Trail))) && (sig.size == 1.0 || Has(e.p, i, Set(Size)))
  {
    hide Exec, Accepted, StateOk, Depth, RequiredStack, OperandOk, OpOf, Ready;
    if i > 0 {
      var b, word := Before(e, m, i - 1), e.p.code[i - 1];
      UnsetSignals(e, m, i - 1);
      StackFollowsDepth(e, m, i - 1);
      assert forall op :: Has(e.p, i, op) <==> Has(e.p, i - 1, op) || op == OpOf(word);
      hide Has;
      match OpOf(word) {
        case Fire(s) => FireLaws(e, b, word, s);
        case Set(k) => SinkLaws(e, b, word, k);
        case _ => SigKept(e, b, word);
      }
    }
  }

  /** Whatever an instruction does, the stack below its operands stays. */
  lemma RestKept(e: Env, m: Machine, word: u32)
    requires EnvOk(e) && Ready(e, m, word)
    ensures var k := |m.stack| - RequiredStack(OpOf(word));
      0 <= k <= |Exec(e, m, word).stack| && Exec(e, m, word).stack[..k] == m.stack[..k]
  {
    hide Accepted, StateOk, Apply, Apply1, Indicator, RawValue, Lagged, SeriesOf, OpOf, ArgOf;
  }

  /** The validator's stack counts: what an instruction needs, less what it leaves behind, and only
      stores, signals, sinks and the end leave nothing. */
  lemma StackCounts(op: Op)
    requires op != Bad
    ensures RequiredStack(op) + StackDelta(op) == if op in {Store, Halt} || op.Fire? || op.Set? then 0 else 1
  {}

  // ---- rounding and smoothing -----------------------------------------------------------------------

  /** Truncation is the whole number next to a value on the way to zero; a window length below
      one counts as one. */
  lemma TruncLaws(x: real)
    ensures x >= 0.0 ==> x - 1.0 < Trunc(x) as real <= x
    ensures x <= 0.0 ==> x <= Trunc(x) as real < x + 1.0
    ensures Clamp1(x) == if x < 2.0 then 1 else Trunc(x)
  {}

  /** Wilder's smoothing moves a share 1 / n of the way, the exponential average 2 / (n + 1). */
  lemma SmoothingLaws(old': real, x: real, n: real)
    ensures (Smoothed(old', x, n) - old') * (Clamp1(n) as real) == x - old'
    ensures (Blended(old', x, n) - old') * ((Clamp1(n) + 1) as real) == 2.0 * (x - old')
  {
    var k, k1 := Clamp1(n) as real, (Clamp1(n) + 1) as real;
    assert (x - old') / k * k == x - old';
    assert 2.0 / k1 * (x - old') * k1 == 2.0 * (x - old') by {
      var q := 2.0 / k1;
      assert q * k1 == 2.0;
      assert q * (x - old') * k1 == (q * k1) * (x - old');
    }
  }

  lemma SmoothedNonNegative(old': real, x: real, n: real)
    requires old' >= 0.0 && x >= 0.0
    ensures Smoothed(old', x, n) >= 0.0
  {
    var k, v := Clamp1(n) as real, Smoothed(old', x, n);
    SmoothingLaws(old', x, n);
    assert v * k == old' * (k - 1.0) + x;
    assert old' * (k - 1.0) >= 0.0;
    hide Smoothed;
    assert v < 0.0 ==> v * k < 0.0;
  }

  /** The true range is the widest of the bar's range and its distances from the last close. */
  lemma TrueRangeLaws(b: Bars, t: nat)
    requires t < |b.h| == |b.l| == |b.c|
    ensures var tr, h, l := TrueRange(b, t), b.h[t], b.l[t];
      && (t == 0 ==> tr == h - l)
      && (t > 0 ==> var c := b.c[t - 1];
        && tr >= h - l && tr >= h - c && tr >= c - h && tr >= l - c && tr >= c - l
        && tr in {h - l, h - c, c - h, l - c, c - l})
  {}

  /** Relative strength lies between 0 and 100, above 50 exactly when gains outweigh losses. */
  lemma StrengthLaws(gain: real, loss: real)
    requires gain >= 0.0 && loss >= 0.0
    ensures var v := Strength(gain, loss);
      && 0.0 <= v <= 100.0 && (v > 50.0 <==> gain > loss) && (v < 50.0 <==> gain < loss)
      && v * (gain + loss) == (if gain + loss == 0.0 then 0.0 else 100.0 * gain)
  {
    if gain + loss > 0.0 {
      PercentOf(gain, gain + loss);
      PercentSides(Strength(gain, loss), gain, loss);
      hide Strength;
    }
  }

  lemma PercentSides(v: real, gain: real, loss: real)
    requires gain >= 0.0 && loss >= 0.0 && gain + loss > 0.0 && v * (gain + loss) == 100.0 * gain
    ensures 0.0 <= v <= 100.0 && (v > 50.0 <==> gain > loss) && (v < 50.0 <==> gain < loss)
  {
    SideOf(v, 0.0, gain + loss, 100.0 * gain);
    SideOf(v, 50.0, gain + loss, 100.0 * gain);
    SideOf(v, 100.0, gain + loss, 100.0 * gain);
  }

  lemma SideOf(v: real, at: real, s: real, p: real)
    requires s > 0.0 && p == v * s
    ensures v > at <==> p > at * s
    ensures v < at <==> p < at * s
  {
    SignOf(v, at, s);
  }

  lemma PercentOf(part: real, s: real)
    requires s > 0.0
    ensures 100.0 * (part / s) * s == 100.0 * part
  {
    var q := part / s;
    QuotientBack(part, s);
    assert 100.0 * q * s == 100.0 * (q * s);
  }

  lemma Positive(d: real, s: real)
    requires s > 0.0
    ensures d > 0.0 ==> d * s > 0.0
    ensures d < 0.0 ==> d * s < 0.0
    ensures d == 0.0 ==> d * s == 0.0
  {
    if d < 0.0 { assert (-d) * s > 0.0; }
  }

  /** A product with a positive number has the sign of the other factor. */
  lemma SignOf(v: real, at: real, s: real)
    requires s > 0.0
    ensures v > at <==> v * s > at * s
    ensures v < at <==> v * s < at * s
  {
    var d := v - at;
    Positive(d, s);
    assert v * s == (at + d) * s == at * s + d * s;
  }

  // ---- indicators from bar to bar -------------------------------------------------------------------

  /** Instruction j keeps state alone, in slot s. */
  ghost predicate Owner(r: Setup, m: Machine, j: nat, s: Slot) {
    && Fresh(r, m) && Alone(r.p, j) && ArgOf(r.p.code[j]) < |r.p.slots| && s == r.p.slots[ArgOf(r.p.code[j])]
    && OwnSlot(r.p, s) && KindIs(s, ExpectedKind(OpOf(r.p.code[j])))
  }

  /** On bar t: operands, pushed value, and the slot before and after. */
  datatype Reading = Reading(x: real, n: real, value: real, was: seq<real>, now: seq<real>)

  ghost function At(r: Setup, m: Machine, j: nat, s: Slot, t: nat): (d: Reading)
    requires Owner(r, m, j, s) && t < BarCount(r)
    ensures |d.was| == StateSize(ExpectedKind(OpOf(r.p.code[j])), s.cap) > 0 && Natural(d.was[0])
    ensures (d.now, d.value) == Indicator(EnvOf(r, t), OpOf(r.p.code[j]), s, d.was, d.x, d.n)
  {
    SlotBar(r, m, j, s, t);
    var b, b' := Pre(r, m, j, t), Post(r, m, j, t);
    Reading(InputOf(OpOf(r.p.code[j]), b), Top(b), Top(b'), Block(b.state, s), Block(b'.state, s))
  }

  lemma Carried(r: Setup, m: Machine, j: nat, s: Slot, t: nat)
    requires Owner(r, m, j, s) && t < BarCount(r)
    ensures t > 0 ==> At(r, m, j, s, t).was == At(r, m, j, s, t - 1).now
    ensures t == 0 ==> forall i :: 0 <= i < |At(r, m, j, s, 0).was| ==> At(r, m, j, s, 0).was[i] == 0.0
  {
    hide Pre, Post, OpOf, ArgOf, Block, Indicator, Fresh, Top, InputOf;
    SlotCarries(r, m, j, s, t);
  }

  lemma IndicatorCounts(e: Env, op: Op, s: Slot, st: seq<real>, x: real, n: real)
    requires Keeps(op) && KindIs(s, ExpectedKind(op)) && SlotFits(s, e.p.stateFloats)
    requires |st| == StateSize(ExpectedKind(op), s.cap) && Natural(st[0]) && e.t < |e.bars.h| == |e.bars.l| == |e.bars.c|
    ensures Indicator(e, op, s, st, x, n).0[0] == st[0] + 1.0
  {
    hide Aggregate, RingWindow, StrategyWindows.Length, Back, TrueRange, Smoothed, Blended, Strength;
  }

  /** A slot counts the bars before. */
  lemma {:induction false} CountsBars(r: Setup, m: Machine, j: nat, s: Slot, t: nat)
    requires Owner(r, m, j, s) && t < BarCount(r)
    ensures At(r, m, j, s, t).was[0] == t as real && Trunc(At(r, m, j, s, t).was[0]) == t
  {
    hide Indicator, At, OpOf, ArgOf, StateOk, Accepted;
    Carried(r, m, j, s, t);
    if t > 0 {
      CountsBars(r, m, j, s, t - 1);
      var d := At(r, m, j, s, t - 1);
      IndicatorCounts(EnvOf(r, t - 1), OpOf(r.p.code[j]), s, d.was, d.x, d.n);
    }
  }

  /** EMA: the first value as it is; then each value moves 2 / (n + 1) of the way. */
  lemma EmaLaw(r: Setup, m: Machine, j: nat, s: Slot, t: nat)
    requires Owner(r, m, j, s) && t < BarCount(r) && OpOf(r.p.code[j]) == Ema
    ensures var d := At(r, m, j, s, t);
      && (t == 0 ==> d.value == d.x)
      && (t > 0 ==> var last := At(r, m, j, s, t - 1).value;
        (d.value - last) * ((Clamp1(d.n) + 1) as real) == 2.0 * (d.x - last))
  {
    hide At, Alone, Fresh, OpOf, ArgOf, Blended, Clamp1;
    CountsBars(r, m, j, s, t);
    Carried(r, m, j, s, t);
    if t > 0 { SmoothingLaws(At(r, m, j, s, t - 1).value, At(r, m, j, s, t).x, At(r, m, j, s, t).n); }
  }

  /** ATR: the first true range as it is; then each value moves 1 / n of the way. */
  lemma AtrLaw(r: Setup, m: Machine, j: nat, s: Slot, t: nat)
    requires Owner(r, m, j, s) && t < BarCount(r) && OpOf(r.p.code[j]) == Atr && SetupOk(r)
    ensures var d, tr := At(r, m, j, s, t), TrueRange(r.bars, t);
      && (t == 0 ==> d.value == tr)
      && (t > 0 ==> var last := At(r, m, j, s, t - 1).value; (d.value - last) * (Clamp1(d.n) as real) == tr - last)
  {
    hide At, Alone, Fresh, OpOf, ArgOf, Smoothed, Clamp1, TrueRange;
    CountsBars(r, m, j, s, t);
    Carried(r, m, j, s, t);
    if t > 0 { SmoothingLaws(At(r, m, j, s, t - 1).value, TrueRange(r.bars, t), At(r, m, j, s, t).n); }
  }

  /** A crossing fires on a bar exactly when the values stand one way and stood the other way, or
      met, on the bar before; never on the first. */
  lemma CrossLaw(r: Setup, m: Machine, j: nat, s: Slot, t: nat)
    requires Owner(r, m, j, s) && t < BarCount(r) && OpOf(r.p.code[j]) in {CrossOver, CrossUnder}
    ensures var d := At(r, m, j, s, t);
      && (d.value == 0.0 || d.value == 1.0)
      && (t == 0 ==> d.value == 0.0)
      && (t > 0 ==> var last := At(r, m, j, s, t - 1);
        d.value == 1.0 <==> if OpOf(r.p.code[j]) == CrossOver then d.x > d.n && last.x <= last.n
          else d.x < d.n && last.x >= last.n)
  {
    hide At, Alone, Fresh, OpOf, ArgOf;
    CountsBars(r, m, j, s, t);
    Carried(r, m, j, s, t);
  }

  /** RSI: 50 on the first bar, then from averages of gains and losses that move 1 / n of the way
      and start with the first change; always between 0 and 100, above 50 exactly when gains
      outweigh losses. */
  lemma {:induction false} RsiLaw(r: Setup, m: Machine, j: nat, s: Slot, t: nat)
    requires Owner(r, m, j, s) && t < BarCount(r) && OpOf(r.p.code[j]) == Rsi
    ensures var d := At(r, m, j, s, t);
      && |d.now| == 4 && d.now[1] == d.x && d.now[2] >= 0.0 && d.now[3] >= 0.0
      && 0.0 <= d.value <= 100.0 && (t == 0 ==> d.value == 50.0)
      && (t > 0 ==> RsiStep(At(r, m, j, s, t - 1), d, t == 1))
  {
    hide At, Alone, StateOk, Accepted, OpOf, ArgOf, Smoothed, Strength;
    CountsBars(r, m, j, s, t);
    Carried(r, m, j, s, t);
    if t > 0 {
      RsiLaw(r, m, j, s, t - 1);
      RsiBar(EnvOf(r, t), s, At(r, m, j, s, t - 1), At(r, m, j, s, t), t);
    }
  }

  /** From one bar to the next: averages now[2] of gains and now[3] of losses. */
  ghost predicate RsiStep(last: Reading, d: Reading, first: bool)
    requires |last.now| == |d.now| == 4
  {
    var up, down := if d.x > last.x then d.x - last.x else 0.0, if d.x < last.x then last.x - d.x else 0.0;
    var gain, loss := d.now[2], d.now[3];
    && (first ==> gain == up && loss == down)
    && (!first ==> (gain - last.now[2]) * (Clamp1(d.n) as real) == up - last.now[2])
    && (!first ==> (loss - last.now[3]) * (Clamp1(d.n) as real) == down - last.now[3])
    && (d.value > 50.0 <==> gain > loss) && (d.value < 50.0 <==> gain < loss)
    && d.value * (gain + loss) == if gain + loss == 0.0 then 0.0 else 100.0 * gain
  }

  lemma RsiBar(e: Env, s: Slot, last: Reading, d: Reading, t: nat)
    requires t > 0 && KindIs(s, ExpectedKind(Rsi)) && SlotFits(s, e.p.stateFloats)
    requires e.t < |e.bars.h| == |e.bars.l| == |e.bars.c|
    requires |d.was| == 4 == |last.now| && d.was == last.now && d.was[0] == t as real && Trunc(d.was[0]) == t
    requires last.now[1] == last.x && last.now[2] >= 0.0 && last.now[3] >= 0.0
    requires (d.now, d.value) == Indicator(e, Rsi, s, d.was, d.x, d.n)
    ensures |d.now| == 4 && d.now[1] == d.x && d.now[2] >= 0.0 && d.now[3] >= 0.0 && 0.0 <= d.value <= 100.0
    ensures RsiStep(last, d, t == 1)
  {
    hide Smoothed, Strength, Clamp1;
    var delta := d.x - last.x;
    var up, down := if delta > 0.0 then delta else 0.0, if -delta > 0.0 then -delta else 0.0;
    SmoothingLaws(last.now[2], up, d.n);
    SmoothingLaws(last.now[3], down, d.n);
    SmoothedNonNegative(last.now[2], up, d.n);
    SmoothedNonNegative(last.now[3], down, d.n);
    StrengthLaws(d.now[2], d.now[3]);
  }

  // ---- windows --------------------------------------------------------------------------------------

  /** A window is the longest the parameter, the slot and the bars so far allow, at least one. */
  lemma LengthLaws(n: real, cap: nat, count: nat, q: nat)
    requires 0 < cap && 0 < count
    ensures var k := StrategyWindows.Length(n, cap, count);
      && 1 <= k <= cap && k <= count && (k as real <= n || k == 1)
      && (q <= cap && q <= count && q as real <= n ==> q <= k)
  {
    TruncLaws(n);
  }

  /** A delay reaches back as far as the parameter, the slot and the bars so far allow. */
  lemma BackLaws(n: real, cap: nat, count: nat, q: nat)
    requires 0 < cap && 0 < count
    ensures var b := Back(n, cap, count);
      && b < cap && b < count && (b as real <= n || b == 0)
      && (q < cap && q < count && q as real <= n ==> q <= b)
  {
    TruncLaws(n);
  }

  lemma {:induction false} SumLaws(a: seq<real>, b: seq<real>, x: real)
    ensures Sum([x]) == x && Sum(a + b) == Sum(a) + Sum(b)
    decreases |b|
  {
    assert [x][..0] == [];
    if b == [] {
      assert a + b == a;
    } else {
      var n := |b| - 1;
      assert (a + b)[..|a + b| - 1] == a + b[..n] && (a + b)[|a + b| - 1] == b[n];
      SumLaws(a, b[..n], x);
    }
  }

  function Square(x: real): real {
    x * x
  }

  lemma {:induction false} SquaresLaws(a: seq<real>, b: seq<real>, x: real, mean: real)
    ensures SquaredDiffs([x], mean) == Square(x - mean) == Square(mean - x)
    ensures SquaredDiffs(a + b, mean) == SquaredDiffs(a, mean) + SquaredDiffs(b, mean)
    decreases |b|
  {
    hide SquaredDiffs;
    NoSquares(mean);
    SquaresSnoc([], x, mean);
    assert [] + [x] == [x];
    if b == [] {
      assert a + b == a;
    } else {
      var n := |b| - 1;
      assert a + b == a + b[..n] + [b[n]] && b == b[..n] + [b[n]];
      SquaresLaws(a, b[..n], x, mean);
      SquaresSnoc(a + b[..n], b[n], mean);
      SquaresSnoc(b[..n], b[n], mean);
      hide Square;
    }
  }

  lemma NoSquares(mean: real)
    ensures SquaredDiffs([], mean) == 0.0
  {}

  lemma SquaresSnoc(xs: seq<real>, x: real, mean: real)
    ensures SquaredDiffs(xs + [x], mean) == SquaredDiffs(xs, mean) + Square(x - mean)
  {
    assert (xs + [x])[..|xs|] == xs && (xs + [x])[|xs|] == x;
  }

  /** The mean times the length is the sum; the extremes are extreme. */
  lemma AggregateLaws(xs: seq<real>, sqrt: real -> real)
    requires xs != []
    ensures Aggregate(Sma, xs, sqrt) * (|xs| as real) == Sum(xs)
    ensures Aggregate(Highest, xs, sqrt) in xs && forall x :: x in xs ==> x <= Aggregate(Highest, xs, sqrt)
    ensures Aggregate(Lowest, xs, sqrt) in xs && forall x :: x in xs ==> Aggregate(Lowest, xs, sqrt) <= x
  {
    hide Sum, SquaredDiffs, Extreme;
    ExtremeIsExtreme(xs, true);
    ExtremeIsExtreme(xs, false);
    assert Sum(xs) / (|xs| as real) * (|xs| as real) == Sum(xs);
  }

  /** The deviation's square times the length is the sum of squared distances from the mean,
      where roots are exact. */
  lemma DeviationLaw(xs: seq<real>, sqrt: real -> real)
    requires xs != [] && forall y :: y > 0.0 ==> sqrt(y) * sqrt(y) == y
    ensures var z := Aggregate(Stddev, xs, sqrt);
      z * z * (|xs| as real) == SquaredDiffs(xs, Aggregate(Sma, xs, sqrt))
  {
    hide Sum, SquaredDiffs, Extreme;
    var k, mean := |xs| as real, Aggregate(Sma, xs, sqrt);
    SquaresNonNegative(xs, mean);
    var v := SquaredDiffs(xs, mean) / k;
    assert v * k == SquaredDiffs(xs, mean);
    SignOf(v, 0.0, k);
    var z := Aggregate(Stddev, xs, sqrt);
    assert z == if v > 0.0 then sqrt(v) else 0.0;
    assert z * z == v;
  }

  lemma {:induction false} SquaresNonNegative(xs: seq<real>, mean: real)
    ensures SquaredDiffs(xs, mean) >= 0.0
  {
    if xs != [] {
      SquaresNonNegative(xs[..|xs| - 1], mean);
      assert (xs[|xs| - 1] - mean) * (xs[|xs| - 1] - mean) >= 0.0;
    }
  }

  // ---- what the validator takes ---------------------------------------------------------------------

  const ONE: u32 := 0x3F80_0000
  const LARGEST: u32 := 0xFF7F_FFFF
  const INFINITE: u32 := 0x7F80_0000

  /** Constants at both ends of the finite range, a full state with a window of the largest size,
      the last series with the largest lag: all this is accepted. */
  function LimitProgram(): Program {
    Program([0, FIRE_EL, HALT_WORD], [ONE, LARGEST], [
        Slot(3, 0, VM_MAX_WINDOW, 0), Slot(3, VM_MAX_WINDOW + 1, VM_MAX_WINDOW - 2, 0),
        Slot(5, 0, VM_MAX_WINDOW, 4 * 0x1_0000 + 0xFFFF)
      ], [ONE], 0, VM_MAX_STATE_FLOATS, 1)
  }

  lemma LimitsAccepted()
    ensures Accepted(LimitProgram())
  {
    hide OpOf, ArgOf, Finite, CodeOk, SlotFits, Disjoint;
    FiniteIsBelow(ONE);
    FiniteIsBelow(LARGEST);
    LimitSlots(LimitProgram());
    LimitCode(LimitProgram());
  }

  lemma LimitSlots(p: Program)
    requires p == LimitProgram()
    ensures (forall s :: s in p.slots ==> SlotFits(s, p.stateFloats)) && Disjoint(p.slots)
  {}

  lemma LimitCode(p: Program)
    requires p == LimitProgram()
    ensures CodeOk(p)
  {
    Words();
    hide OpOf, ArgOf;
    assert Depth(p.code, 0) == 0 && Depth(p.code, 1) == 1 && Depth(p.code, 2) == 0 && Depth(p.code, 3) == 0;
    forall i | 0 <= i < 3 ensures InsOk(p, i) { assert i in {0, 1, 2}; }
  }

  /** An infinite constant or default is refused. */
  lemma InfiniteRefused(p: Program)
    requires INFINITE in p.consts || INFINITE in p.defaults
    ensures !Accepted(p)
  {
    hide CodeOk, SlotFits, Disjoint;
    FiniteIsBelow(INFINITE);
  }

  /** One step beyond any limit is refused. */
  lemma BeyondLimitsRefused(p: Program, s: Slot)
    requires p.maxStack > 32 || p.stateFloats > 8192 || |p.code| > 6144 || p.code == []
      || (s in p.slots && s.kind in {3, 5} && !(1 <= s.cap <= 4096))
      || (s in p.slots && s.kind == 5 && (s.aux < 0 || s.aux >= 5 * 0x1_0000))
      || (s in p.slots && s.kind == 3 && (s.off < 0 || s.off + 1 + s.cap > p.stateFloats))
    ensures !Accepted(p)
  {
    hide CodeOk, Disjoint, Finite;
  }

  // ---- numbering ------------------------------------------------------------------------------------

  /** The compiler's operation codes. */
  function CodeOf(op: Op): nat
    requires op != Bad
  {
    match op
    case PushConst => 0 case PushParam => 1 case PushSeries => 2 case PushSeriesLag => 3 case PushCtx => 4
    case Load => 5 case Store => 6
    case Binary(b) => (match b
      case Add => 7 case Sub => 8 case Mul => 9 case Div => 10 case Min2 => 13 case Max2 => 14
      case Gt => 17 case Lt => 18 case Ge => 19 case Le => 20 case Eq => 21 case Ne => 22 case And => 23 case Or => 24)
    case Unary(u) => (match u case Neg => 11 case Abs => 12 case Sqrt => 15 case Log => 16 case Not => 25)
    case Ring(w) => (match w case Sma => 26 case Highest => 30 case Lowest => 31 case Stddev => 32)
    case Ema => 27 case Rsi => 28 case Atr => 29 case Delay => 33 case CrossOver => 34 case CrossUnder => 35
    case Raw(w) => (match w case Sma => 36 case Highest => 37 case Lowest => 38 case Stddev => 39)
    case DelayRaw => 40
    case Fire(s) => (match s case EnterLong => 41 case ExitLong => 42 case EnterShort => 43 case ExitShort => 44)
    case Set(k) => (match k case Stop => 45 case TakeProfit => 46 case Trail => 47 case Size => 48)
    case Halt => 49
  }

  /** Assembling and disassembling: a word with an operation's code and any operand means that
      operation, and no other code means one. */
  lemma WordLaws(op: Op, arg: nat)
    requires op != Bad && arg < 0x100_0000
    ensures var word := CodeOf(op) * 0x100_0000 + arg;
      CodeOf(op) < 50 && OpOf(word) == op && ArgOf(word) == arg
  {
    var word := CodeOf(op) * 0x100_0000 + arg;
    assert word / 0x100_0000 == CodeOf(op) && word % 0x100_0000 == arg;
  }

  lemma CodesEnd(code: nat)
    ensures OpAt(code) == Bad <==> code >= 50
    ensures code < 50 ==> CodeOf(OpAt(code)) == code
  {}

  lemma SlotKinds(s: Slot)
    ensures KindIs(s, KEma) <==> s.kind == 0
    ensures KindIs(s, KWilder1) <==> s.kind == 1
    ensures KindIs(s, KWilder2) <==> s.kind == 2
    ensures KindIs(s, KRing) <==> s.kind == 3
    ensures KindIs(s, KPrev2) <==> s.kind == 4
    ensures KindIs(s, KRaw) <==> s.kind == 5
  {}
}
