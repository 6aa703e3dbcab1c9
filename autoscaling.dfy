// The auto-scaling decision rule: leave the instance count alone while the CPU
// utilisation is inside a no-op band, otherwise add or remove as many instances
// as it takes to bring the utilisation back to the level to maintain.
module Autoscaling {

  /** A closed band of percentages. */
  datatype Range = Range(Min: real, Max: real) {
    /** Range.Contains: false as soon as the value lies below Min or above Max. */
    predicate Contains(v: real)
      ensures Contains(v) <==> Min <= v <= Max
    {
      !(Min > v || Max < v)
    }
  }

  /** The inputs of one scaling decision. */
  datatype Context = Context(
    CPUNoopRange: Range,
    MaintainsCPUAvg: real,
    CPUUtilisation: real,
    Instances: int)

  /** The outcome handed to the operator: how many instances to add and how many to remove. */
  datatype Recommendation = Recommendation(ScaleUp: nat, ScaleDown: nat)

  /** Go's math.Ceil, written through Dafny's floor. */
  function Ceil(x: real): (c: int)
    ensures c as real - 1.0 < x <= c as real
  {
    -((-x).Floor)
  }

  /** An integer bracketing a real as the ceiling does is that ceiling. */
  lemma CeilUnique(x: real, c: int)
    requires c as real - 1.0 < x <= c as real
    ensures Ceil(x) == c
  {
    var d := Ceil(x);
    assert d as real - 1.0 < x <= d as real;
    assert (d - c) as real < 1.0 && (c - d) as real < 1.0;
  }

  /** ScaleInstances: the smallest whole change of instances that brings the utilisation per
      instance to at most the level to maintain, assuming the load spreads evenly. The truncating
      conversion to int is exact because its argument is already a whole number. */
  function ScaleInstances(instances: real, utilisation: real, maintain: real): (r: int)
    requires maintain != 0.0
    ensures r as real - 1.0 < instances * utilisation / maintain - instances <= r as real
  {
    Ceil(instances * utilisation / maintain - instances)
  }

  /** Over-utilisation always asks for at least one more instance, under-utilisation never asks
      for more, and utilisation exactly at the level to maintain asks for nothing. */
  lemma ScaleInstancesSign(instances: real, utilisation: real, maintain: real)
    requires instances > 0.0 && maintain > 0.0
    ensures utilisation > maintain ==> ScaleInstances(instances, utilisation, maintain) >= 1
    ensures utilisation <= maintain ==> ScaleInstances(instances, utilisation, maintain) <= 0
    ensures utilisation == maintain ==> ScaleInstances(instances, utilisation, maintain) == 0
  {
    var x := instances * utilisation / maintain - instances;
    assert x == instances * (utilisation - maintain) / maintain;
    ProductSign(instances, utilisation - maintain);
    QuotientSign(instances * (utilisation - maintain), maintain);
    if utilisation == maintain {
      CeilUnique(x, 0);
    }
  }

  lemma ProductSign(a: real, b: real)
    requires a > 0.0
    ensures b > 0.0 ==> a * b > 0.0
    ensures b <= 0.0 ==> a * b <= 0.0
    ensures b == 0.0 ==> a * b == 0.0
  {
  }

  lemma QuotientSign(p: real, m: real)
    requires m > 0.0
    ensures p > 0.0 ==> p / m > 0.0
    ensures p <= 0.0 ==> p / m <= 0.0
    ensures p == 0.0 ==> p / m == 0.0
  {
  }

  /** With a non-negative utilisation the rule never removes more instances than there are. */
  lemma ScaleInstancesBounded(instances: real, utilisation: real, maintain: real)
    requires instances >= 0.0 && utilisation >= 0.0 && maintain > 0.0
    ensures ScaleInstances(instances, utilisation, maintain) as real >= -instances
  {
    assert instances * utilisation / maintain >= 0.0;
  }

  /** The precondition of CPUScale: it divides by the level to maintain only outside the no-op band. */
  predicate CanScale(ctx: Context) {
    !ctx.CPUNoopRange.Contains(ctx.CPUUtilisation) ==> ctx.MaintainsCPUAvg != 0.0
  }

  /** CPUScale: zero inside the no-op band, otherwise the change ScaleInstances asks for. */
  function CPUScale(ctx: Context): (r: int)
    requires CanScale(ctx)
    ensures ctx.CPUNoopRange.Contains(ctx.CPUUtilisation) ==> r == 0
    ensures !ctx.CPUNoopRange.Contains(ctx.CPUUtilisation) ==>
      r == ScaleInstances(ctx.Instances as real, ctx.CPUUtilisation, ctx.MaintainsCPUAvg)
  {
    if ctx.CPUNoopRange.Contains(ctx.CPUUtilisation) then 0
    else ScaleInstances(ctx.Instances as real, ctx.CPUUtilisation, ctx.MaintainsCPUAvg)
  }

  /** toRecommendation: a negative change becomes a scale-down, a positive one a scale-up. */
  method ToRecommendation(candidate: int) returns (result: Recommendation)
    ensures result.ScaleUp == 0 || result.ScaleDown == 0
    ensures result.ScaleUp as int - result.ScaleDown as int == candidate
  {
    result := Recommendation(0, 0);
    if candidate < 0 {
      result := result.(ScaleDown := -candidate);
    } else if candidate > 0 {
      result := result.(ScaleUp := candidate);
    }
  }

  /** The two properties of ToRecommendation pin its result down completely. */
  lemma RecommendationUnique(r1: Recommendation, r2: Recommendation)
    requires r1.ScaleUp == 0 || r1.ScaleDown == 0
    requires r2.ScaleUp == 0 || r2.ScaleDown == 0
    requires r1.ScaleUp as int - r1.ScaleDown as int == r2.ScaleUp as int - r2.ScaleDown as int
    ensures r1 == r2
  {
  }

  /** One case of the test table: the recommendation for a context. */
  method Recommend(ctx: Context) returns (result: Recommendation)
    requires CanScale(ctx)
    ensures result.ScaleUp == 0 || result.ScaleDown == 0
    ensures result.ScaleUp as int - result.ScaleDown as int == CPUScale(ctx)
  {
    result := ToRecommendation(CPUScale(ctx));
  }

  /** The contexts of the test table: a no-op band of 80 to 90 percent and a level of 85 to maintain. */
  function TableContext(utilisation: real, instances: int): Context {
    Context(Range(80.0, 90.0), 85.0, utilisation, instances)
  }

  /** The scaling decisions of the five table cases, in exact arithmetic. */
  lemma TableScales()
    ensures CPUScale(TableContext(85.0, 3)) == 0
    ensures CPUScale(TableContext(91.0, 3)) == 1
    ensures CPUScale(TableContext(99.0, 30)) == 5
    ensures CPUScale(TableContext(67.0, 4)) == 0
    ensures CPUScale(TableContext(71.0, 33)) == -5
  {
    CeilUnique(3.0 * 91.0 / 85.0 - 3.0, 1);
    CeilUnique(30.0 * 99.0 / 85.0 - 30.0, 5);
    CeilUnique(4.0 * 67.0 / 85.0 - 4.0, 0);
    CeilUnique(33.0 * 71.0 / 85.0 - 33.0, -5);
  }

  /** The test table: each context gives the expected recommendation. */
  method AutoScalingByTable() returns (results: seq<Recommendation>)
    ensures results == [
      Recommendation(0, 0),  // maintain
      Recommendation(1, 0),  // scale up, small
      Recommendation(5, 0),  // scale up, big
      Recommendation(0, 0),  // scale down, small
      Recommendation(0, 5)]  // scale down, big
  {
    TableScales();
    var r1 := Recommend(TableContext(85.0, 3));
    var r2 := Recommend(TableContext(91.0, 3));
    var r3 := Recommend(TableContext(99.0, 30));
    var r4 := Recommend(TableContext(67.0, 4));
    var r5 := Recommend(TableContext(71.0, 33));
    results := [r1, r2, r3, r4, r5];
  }

  /** The instance-update step of the visualisation loop: set the utilisation, then add the
      scaling decision to the instance count. */
  function Step(ctx: Context, utilisation: real): (next: Context)
    requires CanScale(ctx.(CPUUtilisation := utilisation))
    ensures next.Instances == ctx.Instances + CPUScale(ctx.(CPUUtilisation := utilisation))
    ensures next.CPUUtilisation == utilisation
    ensures next.CPUNoopRange == ctx.CPUNoopRange && next.MaintainsCPUAvg == ctx.MaintainsCPUAvg
  {
    var c := ctx.(CPUUtilisation := utilisation);
    c.(Instances := c.Instances + CPUScale(c))
  }

  /** The context after one Step per utilisation, in order, from ctx. */
  function Run(ctx: Context, utilisations: seq<real>): (last: Context)
    requires ctx.MaintainsCPUAvg != 0.0
    ensures last.CPUNoopRange == ctx.CPUNoopRange && last.MaintainsCPUAvg == ctx.MaintainsCPUAvg
    ensures utilisations != [] ==> last.CPUUtilisation == utilisations[|utilisations| - 1]
    decreases |utilisations|
  {
    if utilisations == [] then ctx
    else Step(Run(ctx, utilisations[..|utilisations| - 1]), utilisations[|utilisations| - 1])
  }

  /** One more tick of Run is one more Step. */
  lemma RunSnoc(ctx: Context, utilisations: seq<real>, i: nat)
    requires ctx.MaintainsCPUAvg != 0.0 && i < |utilisations|
    ensures Run(ctx, utilisations[..i + 1]) == Step(Run(ctx, utilisations[..i]), utilisations[i])
  {
    assert utilisations[..i + 1][..i] == utilisations[..i];
  }

  /** With a positive level to maintain, a non-negative start and non-negative utilisations, the
      instance count is non-negative after every tick. */
  lemma {:induction false} RunNonNegative(ctx: Context, utilisations: seq<real>)
    requires ctx.MaintainsCPUAvg > 0.0 && ctx.Instances >= 0
    requires forall i :: 0 <= i < |utilisations| ==> utilisations[i] >= 0.0
    ensures Run(ctx, utilisations).Instances >= 0
    decreases |utilisations|
  {
    if utilisations != [] {
      var n := |utilisations| - 1;
      RunNonNegative(ctx, utilisations[..n]);
      var probe := Run(ctx, utilisations[..n]).(CPUUtilisation := utilisations[n]);
      if !probe.CPUNoopRange.Contains(probe.CPUUtilisation) {
        ScaleInstancesBounded(probe.Instances as real, probe.CPUUtilisation, probe.MaintainsCPUAvg);
      }
    }
  }

  /** The visualisation loop without its plotting: feed one utilisation per tick, record the
      scaling decision of the tick (the plotted series) and add it to the instance count. */
  method Visualize(ctx: Context, utilisations: seq<real>) returns (final: Context, changes: seq<int>)
    requires ctx.MaintainsCPUAvg > 0.0 && ctx.Instances >= 0
    requires forall i :: 0 <= i < |utilisations| ==> utilisations[i] >= 0.0
    ensures final == Run(ctx, utilisations)
    ensures |changes| == |utilisations|
    ensures forall i :: 0 <= i < |changes| ==>
      changes[i] == CPUScale(Run(ctx, utilisations[..i]).(CPUUtilisation := utilisations[i]))
    ensures forall i :: 0 <= i <= |utilisations| ==> Run(ctx, utilisations[..i]).Instances >= 0
    ensures final.Instances == ctx.Instances + SumOf(changes)
  {
    final := ctx;
    changes := [];
    for i := 0 to |utilisations|
      invariant final == Run(ctx, utilisations[..i])
      invariant |changes| == i
      invariant forall j :: 0 <= j < i ==>
        changes[j] == CPUScale(Run(ctx, utilisations[..j]).(CPUUtilisation := utilisations[j]))
      invariant final.Instances == ctx.Instances + SumOf(changes)
    {
      var scale := CPUScale(final.(CPUUtilisation := utilisations[i]));
      SumOfAppend(changes, scale);
      RunSnoc(ctx, utilisations, i);
      final := Step(final, utilisations[i]);
      ghost var before := changes;
      changes := changes + [scale];
      forall j | 0 <= j < i + 1
        ensures changes[j] == CPUScale(Run(ctx, utilisations[..j]).(CPUUtilisation := utilisations[j]))
      {
        if j < i {
          assert changes[j] == before[j];
        }
      }
    }
    assert utilisations[..|utilisations|] == utilisations;
    forall i | 0 <= i <= |utilisations|
      ensures Run(ctx, utilisations[..i]).Instances >= 0
    {
      RunNonNegative(ctx, utilisations[..i]);
    }
  }

  /** The sum of a sequence of instance changes. */
  function SumOf(s: seq<int>): int {
    if s == [] then 0 else SumOf(s[..|s| - 1]) + s[|s| - 1]
  }

  lemma SumOfAppend(s: seq<int>, x: int)
    ensures SumOf(s + [x]) == SumOf(s) + x
  {
    assert (s + [x])[..|s + [x]| - 1] == s;
  }
}
