/** The band-drop counter of the hardware book: it counts exactly the messages the band turns away. */
module RtlDrops {
  import opened LiveOrders
  import opened RtlSpec
  import opened RtlBookEngine
  import opened RtlBookProofs
  import opened RtlBookSteps
  import opened RtlBookTheorems
  import T = RtlOrderRefTable

  /** A message about to finish has been counted if it is one the band turns away. */
  ghost predicate Counts(b: Book, p: Params, os: Orders, n: nat) {
    b.r.drops == n + if b.r.state == FINISH && Drops(os, b.r.m, b.r.base, p.window) then 1 else 0
  }

  /** The same message goes on, uncounted, and finishes only if the band did not turn it away. */
  ghost predicate GoesOn(b: Book, b': Book, p: Params, os: Orders) {
    && b'.r.m == b.r.m && b'.r.base == b.r.base && b'.r.drops == b.r.drops
    && (b'.r.state == FINISH ==> !Drops(os, b.r.m, b.r.base, p.window))
  }

  lemma LevelKeeps(b: Book, c: Book, p: Params, input: Input)
    requires Lengths(b, p) && Lengths(c, p) && c.r == b.r.(done := false)
    requires b.r.state in {ADD_LVL, RADD_LVL, MOD_LVL, EMPTY, FINISH}
    ensures var b' := FsmStep(b, c, p, input);
      && b'.r.m == b.r.m && b'.r.base == b.r.base && b'.r.drops == b.r.drops
      && (b'.r.state == FINISH ==> b.r.state in {ADD_LVL, RADD_LVL}) && (b'.r.state == IDLE <==> b.r.state == FINISH)
  {
    hide AddLevel, TakeLevel, Amount, AddCmd, ModCmd, ReaddCmd, AnyScanning, Offset, Address;
  }

  lemma LevelEdge(b: Book, p: Params, os: Orders, f0: nat, input: Input)
    requires Inv(b, p, os, f0) && Shape(b, p) && b.r.state in {ADD_LVL, RADD_LVL, MOD_LVL, EMPTY}
    ensures GoesOn(b, Next(b, p, input), p, os)
  {
    hide FsmStep, Children, T.Inv, Levels, Quiet, Fits, Banded, Waiting, Idle, AfterTake, SideQuiet, Shape;
    ShapeLengths(b, p);
    LevelKeeps(b, Children(b, p), p, input);
  }

  lemma ShapeLengths(b: Book, p: Params)
    requires Shape(b, p)
    ensures Lengths(b, p) && Lengths(Children(b, p), p) && Children(b, p).r == b.r.(done := false)
  {}

  lemma TableEdge(b: Book, p: Params, os: Orders, f0: nat, input: Input)
    requires Inv(b, p, os, f0) && Shape(b, p) && b.r.state in {ADD_TBL, RADD_TBL, MOD_TBL}
    ensures GoesOn(b, Next(b, p, input), p, os)
  {
    hide Next, FsmStep, Children, T.Inv, T.Next, Levels, Quiet, Fits, Banded, Waiting, Idle, AfterTake, SideQuiet, Shape,
      AddCmd, ModCmd, ReaddCmd, Amount, Address, Offset;
    match b.r.state {
      case ADD_TBL => AddTblEdge(b, p, input);
      case RADD_TBL => ReaddTblEdge(b, p, input);
      case MOD_TBL => ModTblEdge(b, p, input);
    }
  }

  /** A lookup that misses finishes a message the band has nothing to do with. */
  lemma MissEdge(b: Book, p: Params, os: Orders, f0: nat, input: Input)
    requires Inv(b, p, os, f0) && Shape(b, p) && b.r.state == LK
    ensures GoesOn(b, Next(b, p, input), p, os)
  {
    hide Next, FsmStep, Children, T.Inv, T.Next, Levels, Quiet, Fits, Banded, Waiting, Idle, Shape, Address, Offset;
    LookupEdge(b, p, input);
    if b.r.tblReq && b.tbl.done {
      WaitAnswer(b.cmd, b.tbl, p.home, os, T.Cmd(T.LOOKUP, false, b.r.m.orderRef, T.NO_ORDER), f0);
    }
  }

  /** Every edge counts the message that finishes, once, exactly when the band turns it away. */
  lemma EveryEdge(b: Book, p: Params, os: Orders, f0: nat, input: Input, n: nat)
    requires Inv(b, p, os, f0) && b.r.state != IDLE && Counts(b, p, os, n)
    ensures Shape(b, p)
    ensures var d := if b.r.state == FINISH && Drops(os, b.r.m, b.r.base, p.window) then 1 else 0;
      Counts(Next(b, p, input), p, Committed(b, p, os), n + d)
  {
    InvShape(b, p, os, f0);
    hide Next, FsmStep, Children, T.Inv, T.Next, Levels, Quiet, Fits, Banded, Waiting, Idle, Shape, Target;
    match b.r.state {
      case ADD_TBL | RADD_TBL | MOD_TBL => TableEdge(b, p, os, f0, input);
      case LK => MissEdge(b, p, os, f0, input);
      case EMPTY_WAIT => EmptyWaitEdge(b, p, input);
      case FINISH => FinishEdge(b, p, input);
      case _ => LevelEdge(b, p, os, f0, input);
    }
  }

  lemma FinishEdge(b: Book, p: Params, input: Input)
    requires Shape(b, p) && b.r.state == FINISH
    ensures Next(b, p, input).r.state == IDLE && Next(b, p, input).r.drops == b.r.drops
  {
    hide FsmStep, Children, Shape;
    ShapeLengths(b, p);
    LevelKeeps(b, Children(b, p), p, input);
  }

  /** Acceptance counts an out-of-window Add at once. */
  lemma AcceptEdge(b: Book, p: Params, os: Orders, input: Input, n: nat)
    requires Shape(b, p) && b.r.state == IDLE && Counts(b, p, os, n)
    ensures Counts(Next(b, p, input), p, os, n)
  {
    hide Next, Shape;
    ShapeLengths(b, p);
    IdleEdge(b, p, input);
  }
}
