/** Strategy bytecode: its instructions and the static validator. */
module StrategyProgram {
  import opened Itch

  const VM_MAX_STACK: nat := 32
  const VM_MAX_CODE: nat := 6144
  const VM_MAX_STATE_FLOATS: nat := 8192
  const VM_MAX_WINDOW: nat := 4096
  const N_SERIES: nat := 5
  const N_CTX: nat := 4

  datatype Arith = Add | Sub | Mul | Div | Min2 | Max2 | Gt | Lt | Ge | Le | Eq | Ne | And | Or
  datatype Single = Neg | Abs | Sqrt | Log | Not
  datatype Window = Sma | Highest | Lowest | Stddev
  datatype Signal = EnterLong | ExitLong | EnterShort | ExitShort
  datatype Sink = Stop | TakeProfit | Trail | Size

  datatype Op =
    | PushConst | PushParam | PushSeries | PushSeriesLag | PushCtx | Load | Store
    | Binary(b: Arith) | Unary(u: Single)
    | Ema | Rsi | Atr | Ring(w: Window) | Delay | CrossOver | CrossUnder | Raw(w: Window) | DelayRaw
    | Fire(s: Signal) | Set(k: Sink) | Halt | Bad

  /** The instruction with this operation code, in the order of the enumeration. */
  function OpAt(code: nat): Op {
    match code
    case 0 => PushConst case 1 => PushParam case 2 => PushSeries case 3 => PushSeriesLag case 4 => PushCtx
    case 5 => Load case 6 => Store case 7 => Binary(Add) case 8 => Binary(Sub) case 9 => Binary(Mul)
    case 10 => Binary(Div) case 11 => Unary(Neg) case 12 => Unary(Abs) case 13 => Binary(Min2) case 14 => Binary(Max2)
    case 15 => Unary(Sqrt) case 16 => Unary(Log) case 17 => Binary(Gt) case 18 => Binary(Lt) case 19 => Binary(Ge)
    case 20 => Binary(Le) case 21 => Binary(Eq) case 22 => Binary(Ne) case 23 => Binary(And) case 24 => Binary(Or)
    case 25 => Unary(Not) case 26 => Ring(Sma) case 27 => Ema case 28 => Rsi case 29 => Atr
    case 30 => Ring(Highest) case 31 => Ring(Lowest) case 32 => Ring(Stddev) case 33 => Delay case 34 => CrossOver
    case 35 => CrossUnder case 36 => Raw(Sma) case 37 => Raw(Highest) case 38 => Raw(Lowest) case 39 => Raw(Stddev)
    case 40 => DelayRaw
    case 41 => Fire(EnterLong) case 42 => Fire(ExitLong) case 43 => Fire(EnterShort) case 44 => Fire(ExitShort)
    case 45 => Set(Stop) case 46 => Set(TakeProfit) case 47 => Set(Trail) case 48 => Set(Size) case 49 => Halt
    case _ => Bad
  }

  function OpOf(word: u32): Op {
    OpAt(word / 0x100_0000)
  }

  function ArgOf(word: u32): nat {
    word % 0x100_0000
  }

  datatype Kind = KEma | KWilder1 | KWilder2 | KRing | KPrev2 | KRaw

  const KINDS: seq<Kind> := [KEma, KWilder1, KWilder2, KRing, KPrev2, KRaw]

  /** One row of the four state arrays, as read: 32-bit signed numbers. */
  datatype Slot = Slot(kind: int, off: int, cap: int, aux: int)

  /** Constants and parameter defaults are kept as their 32-bit patterns. */
  datatype Program = Program(
    code: seq<u32>, consts: seq<u32>, slots: seq<Slot>, defaults: seq<u32>, nLocals: u32, stateFloats: u32,
      maxStack: u32)

  // ---- static facts about an instruction -----------------------------------------------------

  function RequiredStack(op: Op): nat {
    match op
    case PushConst | PushParam | PushSeries | PushSeriesLag | PushCtx | Load | Halt => 0
    case Store | Unary(_) | Atr | Raw(_) | DelayRaw | Fire(_) | Set(_) => 1
    case Binary(_) | Ema | Rsi | Ring(_) | Delay | CrossOver | CrossUnder | Bad => 2
  }

  function StackDelta(op: Op): int {
    match op
    case PushConst | PushParam | PushSeries | PushSeriesLag | PushCtx | Load => 1
    case Store | Fire(_) | Set(_) => -1
    case Binary(_) | Ema | Rsi | Ring(_) | Delay | CrossOver | CrossUnder => -1
    case Unary(_) | Atr | Raw(_) | DelayRaw | Halt | Bad => 0
  }

  predicate UsesSlot(op: Op) {
    op in {Ema, Rsi, Atr, Delay, CrossOver, CrossUnder, DelayRaw} || op.Ring? || op.Raw?
  }

  function ExpectedKind(op: Op): Kind
    requires UsesSlot(op)
  {
    match op
    case Ema => KEma case Atr => KWilder1 case Rsi => KWilder2
    case Ring(_) | Delay => KRing
    case CrossOver | CrossUnder => KPrev2
    case Raw(_) | DelayRaw => KRaw
  }

  /** Floats a slot of this kind needs. */
  function StateSize(kind: Kind, cap: int): int {
    match kind
    case KEma | KWilder1 => 2 case KWilder2 => 4 case KRing => 1 + cap case KPrev2 => 3 case KRaw => 0
  }

  predicate OperandOk(p: Program, op: Op, arg: nat) {
    match op
    case PushConst => arg < |p.consts|
    case PushParam => arg < |p.defaults|
    case PushSeries => arg < N_SERIES
    case PushSeriesLag => arg / 0x1_0000 < N_SERIES
    case PushCtx => arg < N_CTX
    case Load | Store => arg < p.nLocals
    case Bad => false
    case _ => UsesSlot(op) ==> arg < |p.slots| && KindIs(p.slots[arg], ExpectedKind(op))
  }

  predicate KindIs(s: Slot, kind: Kind) {
    0 <= s.kind < |KINDS| && KINDS[s.kind] == kind
  }

  // ---- what an accepted program is ---------------------------------------------------------------

  predicate SlotFits(s: Slot, stateFloats: nat) {
    && 0 <= s.kind < |KINDS|
    && (KINDS[s.kind] in {KRing, KRaw} ==> 0 < s.cap <= VM_MAX_WINDOW)
    && 0 <= s.off && s.off + StateSize(KINDS[s.kind], s.cap) <= stateFloats
    && (KINDS[s.kind] == KRaw ==> 0 <= s.aux && s.aux / 0x1_0000 < N_SERIES)
  }

  /** The offsets a slot owns. */
  predicate Owns(s: Slot, i: int) {
    0 <= s.kind < |KINDS| && s.off <= i < s.off + StateSize(KINDS[s.kind], s.cap)
  }

  ghost predicate Apart(s: Slot, u: Slot) {
    forall i :: Owns(s, i) ==> !Owns(u, i)
  }

  ghost predicate Disjoint(slots: seq<Slot>) {
    forall a, b :: 0 <= a < b < |slots| ==> Apart(slots[a], slots[b])
  }

  /** Exponent bits not all ones: neither an infinity nor a NaN. */
  predicate Finite(bits: u32) {
    (bits / 0x80_0000) % 0x100 != 0xFF
  }

  /** Infinities and NaNs are the largest patterns once the sign bit is cleared. */
  lemma FiniteIsBelow(bits: u32)
    ensures Finite(bits) <==> bits % 0x8000_0000 < 0x7F80_0000
  {
    var rest := bits % 0x8000_0000;
    assert (bits / 0x80_0000) % 0x100 == rest / 0x80_0000;
  }

  /** An operand is refused only when what the instruction reads or writes is not there. */
  lemma OperandRefused(p: Program, op: Op, arg: nat)
    requires !OperandOk(p, op, arg) && op != Bad
    ensures op in {PushConst, PushParam, PushSeries, PushSeriesLag, PushCtx, Load, Store} || UsesSlot(op)
    ensures op == PushConst ==> arg >= |p.consts|
    ensures op == PushParam ==> arg >= |p.defaults|
    ensures op == PushSeries ==> arg > 4
    ensures op == PushSeriesLag ==> arg > 4 * 0x1_0000 + 0xFFFF
    ensures op == PushCtx ==> arg > 3
    ensures op in {Load, Store} ==> arg >= p.nLocals
    ensures UsesSlot(op) ==> arg >= |p.slots| || !KindIs(p.slots[arg], ExpectedKind(op))
  {}

  /** The validator's stack depth before instruction i. */
  function Depth(code: seq<u32>, i: nat): int
    requires i <= |code|
  {
    if i == 0 then 0 else Depth(code, i - 1) + StackDelta(OpOf(code[i - 1]))
  }

  predicate InsOk(p: Program, i: nat)
    requires i < |p.code|
  {
    var op := OpOf(p.code[i]);
    && OperandOk(p, op, ArgOf(p.code[i]))
    && RequiredStack(op) <= Depth(p.code, i) && Depth(p.code, i + 1) <= VM_MAX_STACK
    && (op == Halt <==> i == |p.code| - 1)
  }

  ghost predicate Accepted(p: Program) {
    && 0 < |p.code| <= VM_MAX_CODE && p.stateFloats <= VM_MAX_STATE_FLOATS && |p.defaults| <= 65535
    && (forall s :: s in p.slots ==> SlotFits(s, p.stateFloats)) && Disjoint(p.slots)
    && (forall x :: x in p.consts ==> Finite(x)) && (forall x :: x in p.defaults ==> Finite(x))
    && p.maxStack <= VM_MAX_STACK && CodeOk(p)
  }

  /** Every instruction is in order, the stack ends empty, and the declared maximum is met. */
  ghost predicate CodeOk(p: Program) {
    && (forall i :: 0 <= i < |p.code| ==> InsOk(p, i))
    && Depth(p.code, |p.code|) == 0
    && (exists i :: 0 <= i <= |p.code| && Depth(p.code, i) == p.maxStack)
    && (forall i :: 0 <= i <= |p.code| ==> Depth(p.code, i) <= p.maxStack)
  }

  // ---- the validator --------------------------------------------------------------------------------

  /** Marks each slot's offsets; false on a slot that does not fit or overlaps an earlier one. */
  method CheckSlots(p: Program) returns (ok: bool)
    ensures ok <==> (forall s :: s in p.slots ==> SlotFits(s, p.stateFloats)) && Disjoint(p.slots)
  {
    var occupied := new bool[p.stateFloats](_ => false);
    for a := 0 to |p.slots|
      invariant forall k :: 0 <= k < a ==> SlotFits(p.slots[k], p.stateFloats)
      invariant Disjoint(p.slots[..a])
      invariant forall i :: 0 <= i < p.stateFloats ==> (occupied[i] <==> exists k :: 0 <= k < a && Owns(p.slots[k], i))
    {
      var s := p.slots[a];
      assert s in p.slots;
      if !SlotFits(s, p.stateFloats) { return false; }
      var size := StateSize(KINDS[s.kind], s.cap);
      assert size >= 0;
      ghost var was := occupied[..];
      var clash := Mark(occupied, s.off, size);
      if clash >= 0 {
        ghost var k :| 0 <= k < a && Owns(p.slots[k], clash);
        assert Owns(s, clash) && !Apart(p.slots[k], s);
        return false;
      }
      forall k | 0 <= k < a ensures Apart(p.slots[k], s) {
        forall i | Owns(p.slots[k], i) ensures !Owns(s, i) {
          assert 0 <= i < p.stateFloats && was[i];
        }
      }
    }
    assert p.slots[..|p.slots|] == p.slots;
    ok := true;
  }

  /** Marks a range free so far, or returns an offset already taken. */
  method Mark(occupied: array<bool>, off: nat, size: nat) returns (clash: int)
    requires off + size <= occupied.Length
    modifies occupied
    ensures clash >= 0 ==> off <= clash < off + size && old(occupied[clash])
    ensures clash < 0 ==> forall i :: 0 <= i < occupied.Length ==>
      occupied[i] == (old(occupied[i]) || off <= i < off + size)
    ensures clash < 0 ==> forall i :: off <= i < off + size ==> !old(occupied[i])
  {
    for j := 0 to size
      invariant forall i :: 0 <= i < occupied.Length ==> occupied[i] == (old(occupied[i]) || off <= i < off + j)
      invariant forall i :: off <= i < off + j ==> !old(occupied[i])
    {
      if occupied[off + j] { return off + j; }
      occupied[off + j] := true;
    }
    clash := -1;
  }

  /** Walks the code once with a running depth. */
  method CheckCode(p: Program) returns (ok: bool)
    requires 0 < |p.code|
    ensures ok <==> CodeOk(p)
  {
    hide OpAt;
    if OpOf(p.code[|p.code| - 1]) != Halt {
      assert !InsOk(p, |p.code| - 1);
      return false;
    }
    var depth, highest := 0, 0;
    for i := 0 to |p.code|
      invariant depth == Depth(p.code, i)
      invariant forall k :: 0 <= k < i ==> InsOk(p, k)
      invariant exists k :: 0 <= k <= i && Depth(p.code, k) == highest
      invariant forall k :: 0 <= k <= i ==> Depth(p.code, k) <= highest
    {
      var op := OpOf(p.code[i]);
      assert Depth(p.code, i + 1) == depth + StackDelta(op);
      if !OperandOk(p, op, ArgOf(p.code[i])) || depth < RequiredStack(op) || depth + StackDelta(op) > VM_MAX_STACK
        || (op == Halt && i + 1 != |p.code|) {
        assert !InsOk(p, i);
        return false;
      }
      depth := depth + StackDelta(op);
      if depth > highest { highest := depth; }
    }
    ok := depth == 0 && p.maxStack == highest;
  }

  method AllFinite(xs: seq<u32>) returns (ok: bool)
    ensures ok <==> forall x :: x in xs ==> Finite(x)
  {
    for i := 0 to |xs|
      invariant forall k :: 0 <= k < i ==> Finite(xs[k])
    {
      assert xs[i] in xs;
      if !Finite(xs[i]) { return false; }
    }
    ok := true;
  }

  /** The validator accepts exactly the accepted programs. */
  method Validate(p: Program) returns (ok: bool)
    ensures ok <==> Accepted(p)
  {
    if p.maxStack > VM_MAX_STACK || |p.code| == 0 || |p.code| > VM_MAX_CODE || p.stateFloats > VM_MAX_STATE_FLOATS
      || |p.defaults| > 65535 {
      return false;
    }
    var slots := CheckSlots(p);
    var consts := AllFinite(p.consts);
    var defaults := AllFinite(p.defaults);
    var code := CheckCode(p);
    hide SlotFits, Finite, Disjoint, CodeOk;
    ok := slots && consts && defaults && code;
  }
}
