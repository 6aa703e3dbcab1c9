// Sliding-window helpers over a plotted series: which of the newest Y values
// each helper reads, in which order, and under which length guard.
module AnomalyDetection {
  import Ratios

  /** A plotted point; only its Y value is ever read. */
  datatype XY = XY(X: real, Y: real)

  /** The Y values of a series, in order. */
  function Ys(xys: seq<XY>): (ys: seq<real>)
    ensures |ys| == |xys|
    ensures forall t :: 0 <= t < |xys| ==> ys[t] == xys[t].Y
  {
    seq(|xys|, t requires 0 <= t < |xys| => xys[t].Y)
  }

  /** What onWindow hands to its callback: the last windowSize Y values, oldest first, followed by
      one slot that is never written and so keeps the zero it was allocated with. */
  function Window(xys: seq<XY>, windowSize: nat): (w: seq<real>)
    requires windowSize <= |xys|
    ensures |w| == windowSize + 1 && w[windowSize] == 0.0
    ensures forall t :: 0 <= t < windowSize ==> w[t] == xys[|xys| - windowSize + t].Y
  {
    Ys(xys[|xys| - windowSize..]) + [0.0]
  }

  /** Appending a point slides the window one place: its oldest value drops out and the new Y
      value enters just before the zero slot. */
  lemma WindowSlide(xys: seq<XY>, windowSize: nat, p: XY)
    requires 1 <= windowSize <= |xys|
    ensures Window(xys + [p], windowSize) == Window(xys, windowSize)[1..windowSize] + [p.Y, 0.0]
  {
    var w := Window(xys, windowSize);
    var w' := Window(xys + [p], windowSize);
    var n := |xys|;
    assert |w'| == windowSize + 1;
    forall t | 0 <= t < windowSize + 1
      ensures w'[t] == (w[1..windowSize] + [p.Y, 0.0])[t]
    {
      if t < windowSize - 1 {
        assert w'[t] == (xys + [p])[n + 1 - windowSize + t].Y;
        assert w[t + 1] == xys[n - windowSize + t + 1].Y;
      }
    }
  }

  /** onWindow: zero when the series is shorter than the window; otherwise the callback applied to
      an array of windowSize + 1 slots filled, by a descending loop, with the last windowSize Y
      values oldest first. */
  method OnWindow(windowSize: nat, xys: seq<XY>, fn: seq<real> --> real) returns (r: real)
    requires windowSize <= |xys| ==> fn.requires(Window(xys, windowSize))
    ensures |xys| < windowSize ==> r == 0.0
    ensures windowSize <= |xys| ==> r == fn(Window(xys, windowSize))
  {
    var i := |xys|;
    if i < windowSize {
      return 0.0;
    }
    var attr := new real[windowSize + 1](_ => 0.0);
    var j := windowSize;
    while j > 0
      invariant 0 <= j <= windowSize
      invariant forall t :: 0 <= t < windowSize - j ==> attr[t] == xys[i - windowSize + t].Y
      invariant forall t :: windowSize - j <= t <= windowSize ==> attr[t] == 0.0
    {
      attr[windowSize - j] := xys[i - j].Y;
      j := j - 1;
    }
    assert attr[..] == Window(xys, windowSize);
    r := fn(attr[..]);
  }

  /** The sum of the Y values of a series. */
  function SumY(xys: seq<XY>): real {
    if xys == [] then 0.0 else xys[0].Y + SumY(xys[1..])
  }

  /** sumH: the sum of the last windowSize Y values, read newest first, but only when the index of
      the last point is at least windowSize; a series of exactly windowSize points gives 0. */
  method SumH(windowSize: nat, xys: seq<XY>) returns (sum: real)
    ensures |xys| - 1 >= windowSize ==> sum == SumY(xys[|xys| - windowSize..])
    ensures |xys| - 1 < windowSize ==> sum == 0.0
  {
    var i := |xys| - 1;
    sum := 0.0;
    if i >= windowSize {
      for j := 0 to windowSize
        invariant sum == SumY(xys[i + 1 - j..])
      {
        assert xys[i - j..] == [xys[i - j]] + xys[i + 1 - j..];
        sum := sum + xys[i - j].Y;
      }
    }
  }

  /** avgH: the mean of the same window under the same guard, and 0 otherwise. With a zero window
      and a non-empty series avgH divides 0 by 0, so that case is excluded. */
  method AvgH(windowSize: nat, xys: seq<XY>) returns (avg: real)
    requires windowSize > 0 || |xys| == 0
    ensures |xys| - 1 >= windowSize ==> avg == SumY(xys[|xys| - windowSize..]) / windowSize as real
    ensures |xys| - 1 < windowSize ==> avg == 0.0
  {
    var i := |xys| - 1;
    avg := 0.0;
    if i >= windowSize {
      var agg := 0.0;
      for j := 0 to windowSize
        invariant agg == SumY(xys[i + 1 - j..])
      {
        assert xys[i - j..] == [xys[i - j]] + xys[i + 1 - j..];
        agg := agg + xys[i - j].Y;
      }
      avg := agg / windowSize as real;
    }
  }

  /** changeH: the difference of the last two Y values, but only from three points on. */
  function ChangeH(xys: seq<XY>): (r: real)
    ensures |xys| > 2 ==> xys[|xys| - 2].Y + r == xys[|xys| - 1].Y
    ensures |xys| <= 2 ==> r == 0.0
  {
    var i := |xys| - 1;
    if i > 1 then xys[i].Y - xys[i - 1].Y else 0.0
  }

  /** Appending a point to a series of at least two points makes the change the step from the old
      last value to the new one; shorter series give no change at all. */
  lemma ChangeHAppend(xys: seq<XY>, p: XY)
    ensures |xys| >= 2 ==> ChangeH(xys + [p]) == p.Y - xys[|xys| - 1].Y
    ensures |xys| < 2 ==> ChangeH(xys + [p]) == 0.0
  {
  }

  /** The squashing map 1 - 1/(1 + y) used by normalise and expAvg; it is y/(1 + y), sends 0 to 0
      and maps the non-negative reals into [0, 1). */
  function Squash(y: real): (r: real)
    requires y != -1.0
    ensures r == y / (1.0 + y)
    ensures y >= 0.0 ==> 0.0 <= r < 1.0
    ensures y == 0.0 ==> r == 0.0
  {
    1.0 - (1.0 / (1.0 + y))
  }

  /** None of the values is the pole of Squash. */
  predicate NoPole(ys: seq<real>) {
    forall t :: 0 <= t < |ys| ==> ys[t] != -1.0
  }

  /** The accumulating loop of the expAvg callback: the squashed values added up. */
  function SquashSum(ys: seq<real>): real
    requires NoPole(ys)
  {
    if ys == [] then 0.0 else Squash(ys[0]) + SquashSum(ys[1..])
  }

  /** The zero slot at the end of a window adds nothing to the squashed sum. */
  lemma {:induction false} SquashSumZeroSlot(ys: seq<real>)
    requires NoPole(ys)
    ensures NoPole(ys + [0.0])
    ensures SquashSum(ys + [0.0]) == SquashSum(ys)
  {
    if ys != [] {
      assert (ys + [0.0])[1..] == ys[1..] + [0.0];
      SquashSumZeroSlot(ys[1..]);
    }
  }

  /** Squashed values of non-negative inputs make a non-negative sum below the count. */
  lemma {:induction false} SquashSumBounds(ys: seq<real>)
    requires forall t :: 0 <= t < |ys| ==> ys[t] >= 0.0
    ensures NoPole(ys)
    ensures 0.0 <= SquashSum(ys) <= |ys| as real
    ensures ys != [] ==> SquashSum(ys) < |ys| as real
  {
    if ys != [] {
      SquashSumBounds(ys[1..]);
    }
  }

  /** normalise: 0 for an empty series, otherwise the squashed last Y value. A last value of -1
      would divide by zero. */
  method Normalise(xys: seq<XY>) returns (r: real)
    requires |xys| > 0 ==> xys[|xys| - 1].Y != -1.0
    ensures |xys| == 0 ==> r == 0.0
    ensures |xys| > 0 ==> r == Squash(xys[|xys| - 1].Y)
    ensures |xys| > 0 && xys[|xys| - 1].Y >= 0.0 ==> 0.0 <= r < 1.0
  {
    if |xys| >= 1 {
      assert Window(xys, 1)[0] == xys[|xys| - 1].Y;
    }
    r := OnWindow(1, xys, ys requires |ys| >= 1 && ys[0] != -1.0 => Squash(ys[0]));
  }

  /** expAvg: 0 while the series is shorter than the window; otherwise the squashed values of the
      whole callback array summed and divided by windowSize. The zero slot contributes nothing, so
      the result is the mean of the squashed last windowSize values. */
  method ExpAvg(windowSize: nat, xys: seq<XY>) returns (r: real)
    requires windowSize > 0
    requires windowSize <= |xys| ==> NoPole(Ys(xys[|xys| - windowSize..]))
    ensures |xys| < windowSize ==> r == 0.0
    ensures windowSize <= |xys| ==>
      r == SquashSum(Ys(xys[|xys| - windowSize..])) / windowSize as real
  {
    var fn := ys requires NoPole(ys) => SquashSum(ys) / windowSize as real;
    if windowSize <= |xys| {
      SquashSumZeroSlot(Ys(xys[|xys| - windowSize..]));
    }
    r := OnWindow(windowSize, xys, fn);
  }

  /** For non-negative values the exponential average stays in [0, 1). */
  lemma ExpAvgRange(windowSize: nat, xys: seq<XY>)
    requires 0 < windowSize <= |xys|
    requires forall t :: |xys| - windowSize <= t < |xys| ==> xys[t].Y >= 0.0
    ensures NoPole(Ys(xys[|xys| - windowSize..]))
    ensures 0.0 <= SquashSum(Ys(xys[|xys| - windowSize..])) / windowSize as real < 1.0
  {
    var ys := Ys(xys[|xys| - windowSize..]);
    SquashSumBounds(ys);
    Ratios.QuotientRange(SquashSum(ys), windowSize as real);
  }
}
