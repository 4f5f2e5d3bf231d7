/** Best price of one side in level-address space: one-cycle updates on add, and a scan of
    one level per cycle when the best level was emptied and the side still has orders. */
module RtlBestTracker {
  import opened Itch

  datatype Tracker = Tracker(scanning: bool, valid: bool, best: nat, scanIdx: nat)

  /** One-cycle pulses from the engine. */
  datatype Pulse = NoPulse | AddAt(addr: nat) | EmptiedAt(addr: nat)

  predicate Beats(isBid: bool, a: nat, b: nat) {
    if isBid then a > b else a < b
  }

  /** The neighbouring address away from the touch, wrapping in the address width. */
  function Inward(isBid: bool, a: nat, window: nat): nat
    requires a < window
  {
    if isBid then (if a == 0 then window - 1 else a - 1) else if a + 1 == window then 0 else a + 1
  }

  predicate AtEdge(isBid: bool, a: nat, window: nat) {
    if isBid then a == 0 else a + 1 == window
  }

  function Next(t: Tracker, isBid: bool, pulse: Pulse, sideNonempty: bool, shares: seq<u32>): Tracker
    requires t.best < |shares| && t.scanIdx < |shares|
  {
    if t.scanning then
      if shares[t.scanIdx] != 0 then t.(best := t.scanIdx, valid := true, scanning := false)
      else if AtEdge(isBid, t.scanIdx, |shares|) then t.(valid := false, scanning := false)
      else t.(scanIdx := Inward(isBid, t.scanIdx, |shares|))
    else
      match pulse
      case NoPulse => t
      case AddAt(a) => if !t.valid || Beats(isBid, a, t.best) then t.(best := a, valid := true) else t
      case EmptiedAt(a) =>
        if t.valid && a == t.best then
          if !sideNonempty then t.(valid := false)
          else t.(scanIdx := Inward(isBid, t.best, |shares|), scanning := true)
        else t
  }

  // ---- correctness ---------------------------------------------------------------------

  /** Address x lies strictly nearer the touch than a. */
  predicate Nearer(isBid: bool, x: nat, a: nat) {
    Beats(isBid, x, a)
  }

  ghost predicate Shape(t: Tracker, shares: seq<u32>) {
    t.best < |shares| && t.scanIdx < |shares|
  }

  /** Idle and right: the best level has shares and no nearer level does. */
  ghost predicate Best(t: Tracker, isBid: bool, shares: seq<u32>) {
    && Shape(t, shares) && !t.scanning
    && if t.valid then
         shares[t.best] != 0 && forall a :: 0 <= a < |shares| && Nearer(isBid, a, t.best) ==> shares[a] == 0
       else forall a :: 0 <= a < |shares| ==> shares[a] == 0
  }

  /** Right but for a level that was just filled. */
  ghost predicate BestBut(t: Tracker, isBid: bool, shares: seq<u32>, x: nat) {
    && Shape(t, shares) && !t.scanning && x < |shares| && shares[x] != 0
    && (t.valid ==> shares[t.best] != 0)
    && forall a :: 0 <= a < |shares| && a != x && (t.valid ==> Nearer(isBid, a, t.best)) ==> shares[a] == 0
  }

  /** Right but for a level that was just emptied. */
  ghost predicate Stale(t: Tracker, isBid: bool, shares: seq<u32>, x: nat) {
    && Shape(t, shares) && !t.scanning && x < |shares| && shares[x] == 0
    && (t.valid && t.best != x ==> shares[t.best] != 0)
    && forall a :: 0 <= a < |shares| && (t.valid ==> Nearer(isBid, a, t.best)) ==> shares[a] == 0
  }

  ghost predicate SomeLevel(shares: seq<u32>) {
    exists a :: 0 <= a < |shares| && shares[a] != 0
  }

  /** A scan in progress has passed only empty levels, and a level with shares lies ahead. */
  ghost predicate Scanning(t: Tracker, isBid: bool, shares: seq<u32>) {
    && Shape(t, shares) && t.scanning && SomeLevel(shares)
    && forall a :: 0 <= a < |shares| && Nearer(isBid, a, t.scanIdx) ==> shares[a] == 0
  }

  lemma AddStep(t: Tracker, isBid: bool, shares: seq<u32>, x: nat, nonempty: bool)
    requires BestBut(t, isBid, shares, x)
    ensures Best(Next(t, isBid, AddAt(x), nonempty, shares), isBid, shares)
  {}

  /** A scan starts exactly when the emptied level was the best one and the side has orders;
      otherwise the tracker is right after this one cycle. */
  lemma EmptiedStep(t: Tracker, isBid: bool, shares: seq<u32>, x: nat, nonempty: bool)
    requires Stale(t, isBid, shares, x) && (nonempty <==> SomeLevel(shares))
    ensures var t' := Next(t, isBid, EmptiedAt(x), nonempty, shares);
      if t.valid && x == t.best && nonempty then Scanning(t', isBid, shares) else Best(t', isBid, shares)
  {}

  /** Levels still to be visited by a scan. */
  function ScanLeft(t: Tracker, isBid: bool, window: nat): nat {
    if !t.scanning then 0 else if isBid then t.scanIdx + 1 else if t.scanIdx < window then window - t.scanIdx else 1
  }

  /** A scan never reaches its boundary branch or wraps: it ends on the nearest level with
      shares, one level per cycle. */
  lemma ScanStep(t: Tracker, isBid: bool, pulse: Pulse, nonempty: bool, shares: seq<u32>)
    requires Scanning(t, isBid, shares)
    ensures var t' := Next(t, isBid, pulse, nonempty, shares);
      && (shares[t.scanIdx] == 0 ==> !AtEdge(isBid, t.scanIdx, |shares|) && Nearer(isBid, t.scanIdx, t'.scanIdx))
      && (if shares[t.scanIdx] != 0 then Best(t', isBid, shares) && t'.valid else Scanning(t', isBid, shares))
      && ScanLeft(t', isBid, |shares|) < ScanLeft(t, isBid, |shares|)
  {}

  class BestTracker {
    const isBid: bool
    var scanning: bool
    var valid: bool
    var best: nat
    var scanIdx: nat

    function View(): Tracker
      reads this
    {
      Tracker(scanning, valid, best, scanIdx)
    }

    constructor (isBid: bool)
      ensures this.isBid == isBid && View() == Tracker(false, false, 0, 0)
    {
      this.isBid := isBid;
      scanning, valid, best, scanIdx := false, false, 0, 0;
    }

    method Clock(pulse: Pulse, sideNonempty: bool, shares: seq<u32>)
      requires best < |shares| && scanIdx < |shares|
      modifies this
      ensures View() == Next(old(View()), isBid, pulse, sideNonempty, shares)
    {
      if scanning {
        if shares[scanIdx] != 0 {
          best, valid, scanning := scanIdx, true, false;
        } else if AtEdge(isBid, scanIdx, |shares|) {
          valid, scanning := false, false;
        } else {
          scanIdx := Inward(isBid, scanIdx, |shares|);
        }
      } else {
        match pulse {
          case NoPulse =>
          case AddAt(a) => if !valid || Beats(isBid, a, best) { best, valid := a, true; }
          case EmptiedAt(a) =>
            if valid && a == best {
              if !sideNonempty {
                valid := false;
              } else {
                scanIdx, scanning := Inward(isBid, best, |shares|), true;
              }
            }
        }
      }
    }
  }
}
