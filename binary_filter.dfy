/** The two-state prosthetic controller: a one-pole smoother feeding a
    hysteresis rule with separate opening and closing thresholds. */
module BinaryFilter {
  import opened Smoothing

  /** The controller's two states, as the integers the controller reports. */
  const Closed: int := 0
  const Open: int := 1

  /** The hysteresis rule: a closed controller opens only above `upper`, an
      open one closes only below `lower`, and nothing else changes the state. */
  function NextState(state: int, output: real, upper: real, lower: real): (s: int)
    ensures (state == Closed && s == Open) <==> (state == Closed && output > upper)
    ensures (state == Open && s == Closed) <==> (state == Open && output < lower)
    ensures s == state || (state == Closed && s == Open) || (state == Open && s == Closed)
    ensures lower <= output <= upper ==> s == state
  {
    if state == Closed && output > upper then Open
    else if state == Open && output < lower then Closed
    else state
  }

  /** What one controller cycle reads and writes: the smoothed output and
      the state. */
  datatype Snapshot = Snapshot(output: real, state: int)

  /** One control cycle on input `p`: smooth, then apply hysteresis to the
      new output. */
  function Step(alpha: real, upper: real, lower: real, s: Snapshot, p: real): Snapshot
  {
    var o := Blend(alpha, p, s.output);
    Snapshot(o, NextState(s.state, o, upper, lower))
  }

  /** The snapshot after the inputs `ps` have been fed, in order, from `s`. */
  function Run(alpha: real, upper: real, lower: real, s: Snapshot, ps: seq<real>): Snapshot
    decreases |ps|
  {
    if ps == [] then s
    else Step(alpha, upper, lower, Run(alpha, upper, lower, s, ps[..|ps| - 1]), ps[|ps| - 1])
  }

  /** A run never leaves the two states. */
  lemma {:induction false} RunStaysBinary(alpha: real, upper: real, lower: real, s: Snapshot, ps: seq<real>)
    requires s.state == Closed || s.state == Open
    ensures Run(alpha, upper, lower, s, ps).state == Closed || Run(alpha, upper, lower, s, ps).state == Open
    decreases |ps|
  {
    if ps != [] {
      RunStaysBinary(alpha, upper, lower, s, ps[..|ps| - 1]);
    }
  }

  lemma PrefixOfPrefix(ps: seq<real>, j: nat)
    requires j < |ps|
    ensures ps[..|ps| - 1][..j] == ps[..j]
  {
  }

  /** No chatter: as long as every smoothed output of a run stays inside the
      band `[lower, upper]`, the state at the end is the state at the start.
      `ps[..j]` for `0 < j <= |ps|` are the inputs up to and including the
      `j`-th cycle. */
  lemma {:induction false} BandKeepsState(alpha: real, upper: real, lower: real, s: Snapshot, ps: seq<real>)
    requires forall j :: 0 < j <= |ps| ==>
      lower <= Run(alpha, upper, lower, s, ps[..j]).output <= upper
    ensures Run(alpha, upper, lower, s, ps).state == s.state
    decreases |ps|
  {
    if ps != [] {
      var init := ps[..|ps| - 1];
      forall j | 0 < j <= |init|
        ensures lower <= Run(alpha, upper, lower, s, init[..j]).output <= upper
      {
        PrefixOfPrefix(ps, j);
      }
      BandKeepsState(alpha, upper, lower, s, init);
      assert ps[..|ps|] == ps;
    }
  }

  /** A run that starts closed and ends open passed through an output above
      `upper`. */
  lemma {:induction false} OpeningNeedsHighOutput(alpha: real, upper: real, lower: real, s: Snapshot, ps: seq<real>)
    requires s.state == Closed
    requires Run(alpha, upper, lower, s, ps).state == Open
    ensures exists j :: 0 < j <= |ps| && Run(alpha, upper, lower, s, ps[..j]).output > upper
    decreases |ps|
  {
    if ps == [] {
      assert false;
    }
    var init := ps[..|ps| - 1];
    if Run(alpha, upper, lower, s, init).state == Open {
      OpeningNeedsHighOutput(alpha, upper, lower, s, init);
      var j :| 0 < j <= |init| && Run(alpha, upper, lower, s, init[..j]).output > upper;
      PrefixOfPrefix(ps, j);
    } else {
      RunStaysBinary(alpha, upper, lower, s, init);
      assert ps[..|ps|] == ps;
    }
  }

  /** A run that starts open and ends closed passed through an output below
      `lower`. */
  lemma {:induction false} ClosingNeedsLowOutput(alpha: real, upper: real, lower: real, s: Snapshot, ps: seq<real>)
    requires s.state == Open
    requires Run(alpha, upper, lower, s, ps).state == Closed
    ensures exists j :: 0 < j <= |ps| && Run(alpha, upper, lower, s, ps[..j]).output < lower
    decreases |ps|
  {
    if ps == [] {
      assert false;
    }
    var init := ps[..|ps| - 1];
    if Run(alpha, upper, lower, s, init).state == Closed {
      ClosingNeedsLowOutput(alpha, upper, lower, s, init);
      var j :| 0 < j <= |init| && Run(alpha, upper, lower, s, init[..j]).output < lower;
      PrefixOfPrefix(ps, j);
    } else {
      RunStaysBinary(alpha, upper, lower, s, init);
      assert ps[..|ps|] == ps;
    }
  }

  /** `SmoothProstheticController`: smoothed output, configuration and the
      0/1 state, all updated in place. */
  class SmoothProstheticController {
    var output: real
    var alpha: real
    var upper: real
    var lower: real
    var state: int

    ghost predicate Valid()
      reads this
    {
      state == Closed || state == Open
    }

    function Snap(): Snapshot
      reads this
    {
      Snapshot(output, state)
    }

    /** The output starts at the midpoint of the two thresholds; the
        state starts closed. */
    constructor (alpha: real := 0.3, uThreshold: real := 0.9, lThreshold: real := 0.1)
      ensures Valid()
      ensures output == (uThreshold + lThreshold) / 2.0 && state == Closed
      ensures this.alpha == alpha && upper == uThreshold && lower == lThreshold
    {
      output := (uThreshold + lThreshold) / 2.0;
      this.alpha := alpha;
      upper := uThreshold;
      lower := lThreshold;
      state := Closed;
    }

    /** One control cycle: smooth the input into the output, apply the
        hysteresis rule to the new output and report the new state. */
    method Update(inputProb: real) returns (s: int)
      requires Valid()
      modifies this`output, this`state
      ensures Valid()
      ensures output == Blend(alpha, inputProb, old(output))
      ensures state == NextState(old(state), output, upper, lower)
      ensures Snap() == Step(alpha, upper, lower, old(Snap()), inputProb)
      ensures alpha == old(alpha) && upper == old(upper) && lower == old(lower)
      ensures s == state
    {
      output := alpha * inputProb + (1.0 - alpha) * output;
      if state == Closed && output > upper {
        state := Open;
      } else if state == Open && output < lower {
        state := Closed;
      }
      s := state;
    }

    /** Back to output 0.5 (the literal, not the threshold midpoint) and
        closed, whatever happened before. */
    method Reset()
      modifies this`output, this`state
      ensures Valid()
      ensures output == 0.5 && state == Closed
      ensures alpha == old(alpha) && upper == old(upper) && lower == old(lower)
    {
      output := 0.5;
      state := Closed;
    }
  }

  /** Feeds the inputs `ps` to a controller one `Update` at a time, as its
      caller does once per control cycle: the controller ends in the snapshot
      that `Run` predicts, so every lemma about `Run` holds of the object. */
  method Drive(c: SmoothProstheticController, ps: seq<real>) returns (states: seq<int>)
    requires c.Valid()
    modifies c`output, c`state
    ensures c.Valid()
    ensures c.Snap() == Run(c.alpha, c.upper, c.lower, old(c.Snap()), ps)
    ensures c.alpha == old(c.alpha) && c.upper == old(c.upper) && c.lower == old(c.lower)
    ensures |states| == |ps|
    ensures forall j :: 0 < j <= |ps| ==> states[j - 1] == Run(c.alpha, c.upper, c.lower, old(c.Snap()), ps[..j]).state
  {
    ghost var s0 := c.Snap();
    states := [];
    for i := 0 to |ps|
      invariant c.Valid()
      invariant c.alpha == old(c.alpha) && c.upper == old(c.upper) && c.lower == old(c.lower)
      invariant c.Snap() == Run(c.alpha, c.upper, c.lower, s0, ps[..i])
      invariant |states| == i
      invariant forall j :: 0 < j <= i ==> states[j - 1] == Run(c.alpha, c.upper, c.lower, s0, ps[..j]).state
    {
      var s := c.Update(ps[i]);
      assert ps[..i + 1][..i] == ps[..i];
      states := states + [s];
    }
    assert ps[..|ps|] == ps;
  }
}
