/** Concrete control-cycle sequences for both controllers, checked against
    the contracts of their `Update` and `Reset` methods alone. */
module Scenarios {
  import opened Smoothing
  import opened BinaryFilter
  import opened MultiClassFilter

  /** alpha 0.3, thresholds 0.9/0.1, a steady input of 1.0: the output
      climbs 0.65, 0.755, 0.8285, 0.87995, 0.915965 and the controller opens
      on the fifth cycle, then stays open on inputs that keep the output in
      the band. */
  method BinaryOpensOnSustainedInput()
  {
    var c := new SmoothProstheticController(0.3, 0.9, 0.1);
    assert c.output == 0.5;
    var s := c.Update(1.0);
    assert c.output == 0.65 && s == Closed;
    s := c.Update(1.0);
    assert c.output == 0.755 && s == Closed;
    s := c.Update(1.0);
    assert c.output == 0.8285 && s == Closed;
    s := c.Update(1.0);
    assert c.output == 0.87995 && s == Closed;
    s := c.Update(1.0);
    assert c.output == 0.915965 && s == Open;
    s := c.Update(0.5);
    assert 0.1 <= c.output <= 0.9 && s == Open;
    s := c.Update(0.0);
    assert 0.1 <= c.output <= 0.9 && s == Open;
  }

  /** Reset gives output 0.5 and the closed state whatever came before, so
      a second reset changes nothing; a controller built with thresholds
      whose midpoint is not 0.5 does not return to its initial output. */
  method BinaryResetIsIdempotent(alpha: real, u: real, l: real, ps: seq<real>)
    requires u + l != 1.0
  {
    var c := new SmoothProstheticController(alpha, u, l);
    var initial := c.output;
    for i := 0 to |ps|
      invariant c.Valid()
    {
      var _ := c.Update(ps[i]);
    }
    c.Reset();
    var once := c.Snap();
    c.Reset();
    assert c.Snap() == once == Snapshot(0.5, Closed);
    assert c.output != initial;
  }

  /** Three classes, alpha 1.0, threshold 0.9: a confident class 0 latches,
      a vector with no value over the threshold keeps it, and a confident
      class 2 takes over. */
  method MultiClassLatchesAndSwitches()
  {
    var c := new MultiClassSmoothController(3, 1.0, 0.9);
    var s := c.Update([0.95, 0.03, 0.02]);
    assert c.output == [0.95, 0.03, 0.02];
    assert c.output[0] > 0.9;
    assert s == 0;
    s := c.Update([0.3, 0.3, 0.4]);
    assert c.output == [0.3, 0.3, 0.4];
    assert s == 0;
    s := c.Update([0.0, 0.0, 1.0]);
    assert c.output == [0.0, 0.0, 1.0];
    assert c.output[2] > 0.9;
    assert s == 2;
  }

  /** With two classes tied at the maximum the lower index is selected. */
  method MultiClassTieGoesToLowerIndex()
  {
    var c := new MultiClassSmoothController(3, 1.0, 0.4);
    var s := c.Update([0.1, 0.45, 0.45]);
    assert c.output == [0.1, 0.45, 0.45];
    assert c.output[1] > 0.4;
    assert s == 1;
  }

  /** Reset restores the uniform vector and class 0 after any history. */
  method MultiClassResetRestoresUniform(vs: seq<seq<real>>)
    requires forall i :: 0 <= i < |vs| ==> |vs[i]| == 4
  {
    var c := new MultiClassSmoothController(4, 0.3, 0.9);
    for i := 0 to |vs|
      invariant c.Valid() && c.n == 4
    {
      var _ := c.Update(vs[i]);
    }
    c.Reset();
    assert c.output == [0.25, 0.25, 0.25, 0.25] && c.state == 0;
  }
}
