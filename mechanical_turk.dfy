// The Mechanical Turk consensus simulation: n tasks, each answered k times by
// workers who pick one of four decisions uniformly at random; the degree of
// consensus of a task is the largest number of workers that agree. The
// uniform draws in [0, 1) are an input: draws[i][w] is worker w's draw on task i.
module MechanicalTurk {
  import Ratios

  /** The decision a draw stands for: four equal slices of [0, 1), closed on the right. */
  function Bucket(d: real): (b: nat)
    ensures b < 4
    ensures b == 0 <==> d <= 0.25
    ensures b == 1 <==> 0.25 < d <= 0.5
    ensures b == 2 <==> 0.5 < d <= 0.75
    ensures b == 3 <==> 0.75 < d
  {
    if d <= 0.25 then 0
    else if d <= 0.5 then 1
    else if d <= 0.75 then 2
    else 3
  }

  /** How many of the draws fall into bucket b. */
  function CountBucket(ds: seq<real>, b: nat): (c: nat)
    ensures c <= |ds|
  {
    if ds == [] then 0
    else CountBucket(ds[..|ds| - 1], b) + (if Bucket(ds[|ds| - 1]) == b then 1 else 0)
  }

  /** The four vote counters of one task after all its workers have answered. */
  function Votes(ds: seq<real>): (v: seq<int>)
    ensures |v| == 4
    ensures forall b :: 0 <= b < 4 ==> 0 <= v[b] == CountBucket(ds, b)
    ensures v[0] + v[1] + v[2] + v[3] == |ds|
  {
    VotesSum(ds);
    [CountBucket(ds, 0), CountBucket(ds, 1), CountBucket(ds, 2), CountBucket(ds, 3)]
  }

  /** Every draw lands in exactly one of the four buckets, so the counters add up to the number of
      workers. */
  lemma {:induction false} VotesSum(ds: seq<real>)
    ensures CountBucket(ds, 0) + CountBucket(ds, 1) + CountBucket(ds, 2) + CountBucket(ds, 3) == |ds|
  {
    if ds != [] {
      VotesSum(ds[..|ds| - 1]);
    }
  }

  /** The running maximum computed by max, starting from 0. */
  function MaxOf(xs: seq<int>): int {
    if xs == [] then 0
    else if xs[|xs| - 1] > MaxOf(xs[..|xs| - 1]) then xs[|xs| - 1]
    else MaxOf(xs[..|xs| - 1])
  }

  /** The result of max is at least 0 and at least every element, and for a non-empty list of
      non-negative values it is one of them. */
  lemma {:induction false} MaxOfIsMaximum(xs: seq<int>)
    ensures MaxOf(xs) >= 0
    ensures forall j :: 0 <= j < |xs| ==> xs[j] <= MaxOf(xs)
    ensures MaxOf(xs) > 0 ==> MaxOf(xs) in xs
    ensures xs != [] && (forall j :: 0 <= j < |xs| ==> xs[j] >= 0) ==> MaxOf(xs) in xs
  {
    if xs != [] {
      var init := xs[..|xs| - 1];
      MaxOfIsMaximum(init);
      assert forall j :: 0 <= j < |init| ==> xs[j] == init[j];
      if init != [] && (forall j :: 0 <= j < |xs| ==> xs[j] >= 0) && MaxOf(init) == 0 {
        assert init[0] == xs[0];
      }
    }
  }

  /** max: the loop with a running result that starts at 0. */
  method Max(xs: seq<int>) returns (result: int)
    ensures result == MaxOf(xs)
    ensures result >= 0
    ensures forall j :: 0 <= j < |xs| ==> xs[j] <= result
    ensures xs != [] && (forall j :: 0 <= j < |xs| ==> xs[j] >= 0) ==> result in xs
  {
    result := 0;
    for j := 0 to |xs|
      invariant result == MaxOf(xs[..j])
    {
      assert xs[..j + 1][..j] == xs[..j];
      if xs[j] > result {
        result := xs[j];
      }
    }
    assert xs[..|xs|] == xs;
    MaxOfIsMaximum(xs);
  }

  /** consensusReached: the degree of consensus of one task. */
  function Degree(ds: seq<real>): (r: int)
    ensures CountBucket(ds, 0) <= r && CountBucket(ds, 1) <= r && CountBucket(ds, 2) <= r
         && CountBucket(ds, 3) <= r
    ensures r == CountBucket(ds, 0) || r == CountBucket(ds, 1) || r == CountBucket(ds, 2)
         || r == CountBucket(ds, 3)
  {
    MaxOfIsMaximum(Votes(ds));
    assert Votes(ds) == [CountBucket(ds, 0), CountBucket(ds, 1), CountBucket(ds, 2), CountBucket(ds, 3)];
    MaxOf(Votes(ds))
  }

  /** The degree lies in 0..k, so it indexes the k + 1 counters of degrees; with at least one
      worker it is at least 1. */
  lemma DegreeRange(ds: seq<real>)
    ensures 0 <= Degree(ds) <= |ds|
    ensures |ds| >= 1 ==> Degree(ds) >= 1
  {
    var v := Votes(ds);
    VotesSum(ds);
    MaxOfIsMaximum(v);
    assert forall j :: 0 <= j < 4 ==> v[j] >= 0;
    assert Degree(ds) in v;
    assert v[0] <= Degree(ds) && v[1] <= Degree(ds) && v[2] <= Degree(ds) && v[3] <= Degree(ds);
  }

  /** The counters of three answers, written out. */
  lemma CountBucketThree(ds: seq<real>, b: nat)
    requires |ds| == 3
    ensures CountBucket(ds, b) ==
      (if Bucket(ds[0]) == b then 1 else 0) + (if Bucket(ds[1]) == b then 1 else 0) + (if Bucket(ds[2]) == b then 1 else 0)
  {
    var d01 := ds[..2];
    assert d01[..1] == [ds[0]] && d01[1] == ds[1];
    assert [ds[0]][..0] == [];
    assert CountBucket([ds[0]], b) == (if Bucket(ds[0]) == b then 1 else 0);
    assert CountBucket(d01, b) == CountBucket([ds[0]], b) + (if Bucket(ds[1]) == b then 1 else 0);
    assert CountBucket(ds, b) == CountBucket(d01, b) + (if Bucket(ds[2]) == b then 1 else 0);
  }

  /** With three workers, degree 1 means all three decisions differ and degree 3 means all three
      are the same. */
  lemma DegreeOfThree(ds: seq<real>)
    requires |ds| == 3
    ensures Degree(ds) == 1 <==>
      Bucket(ds[0]) != Bucket(ds[1]) && Bucket(ds[0]) != Bucket(ds[2]) && Bucket(ds[1]) != Bucket(ds[2])
    ensures Degree(ds) == 3 <==> Bucket(ds[0]) == Bucket(ds[1]) == Bucket(ds[2])
  {
    CountBucketThree(ds, 0);
    CountBucketThree(ds, 1);
    CountBucketThree(ds, 2);
    CountBucketThree(ds, 3);
    var b0, b1, b2 := Bucket(ds[0]), Bucket(ds[1]), Bucket(ds[2]);
    assert CountBucket(ds, b0) <= Degree(ds) && CountBucket(ds, b1) <= Degree(ds)
        && CountBucket(ds, b2) <= Degree(ds);
  }

  /** How many of the tasks reached degree d. */
  function CountDegree(tasks: seq<seq<real>>, d: int): (c: nat)
    ensures c <= |tasks|
  {
    if tasks == [] then 0
    else CountDegree(tasks[..|tasks| - 1], d) + (if Degree(tasks[|tasks| - 1]) == d then 1 else 0)
  }

  /** The sum of the first m counters of the degree histogram. */
  function HistogramSum(tasks: seq<seq<real>>, m: nat): nat {
    if m == 0 then 0 else HistogramSum(tasks, m - 1) + CountDegree(tasks, m - 1)
  }

  /** Each task reaches exactly one degree, and all degrees lie in 0..k, so the k + 1 counters add
      up to the number of tasks. */
  lemma {:induction false} HistogramTotal(tasks: seq<seq<real>>, k: nat)
    requires forall i :: 0 <= i < |tasks| ==> |tasks[i]| == k
    ensures HistogramSum(tasks, k + 1) == |tasks|
  {
    if tasks != [] {
      var init := tasks[..|tasks| - 1];
      assert forall i :: 0 <= i < |init| ==> init[i] == tasks[i];
      HistogramTotal(init, k);
      assert |tasks[|tasks| - 1]| == k;
      DegreeRange(tasks[|tasks| - 1]);
      HistogramStep(tasks, k + 1);
      assert |init| + 1 == |tasks|;
    } else {
      HistogramEmpty(tasks, k + 1);
    }
  }

  lemma {:induction false} HistogramEmpty(tasks: seq<seq<real>>, m: nat)
    requires tasks == []
    ensures HistogramSum(tasks, m) == 0
  {
    if m > 0 {
      HistogramEmpty(tasks, m - 1);
    }
  }

  /** Adding a task to the histogram adds one to the counter of its degree, if that counter is
      among the first m. */
  lemma {:induction false} HistogramStep(tasks: seq<seq<real>>, m: nat)
    requires tasks != []
    ensures HistogramSum(tasks, m) == HistogramSum(tasks[..|tasks| - 1], m) +
      (if 0 <= Degree(tasks[|tasks| - 1]) < m then 1 else 0)
  {
    if m > 0 {
      HistogramStep(tasks, m - 1);
    }
  }

  /** The sum of the probabilities d/n for the first m degrees. */
  function ProbabilitySum(ps: seq<real>): real {
    if ps == [] then 0.0 else ProbabilitySum(ps[..|ps| - 1]) + ps[|ps| - 1]
  }

  /** The probability of each degree: its counter divided by the number of tasks. */
  function Probabilities(tasks: seq<seq<real>>, k: nat): (ps: seq<real>)
    requires |tasks| > 0
  {
    seq(k + 1, d requires 0 <= d <= k => CountDegree(tasks, d) as real / |tasks| as real)
  }

  /** With exact arithmetic the probabilities of the k + 1 degrees add up to one. */
  lemma ProbabilitiesSumToOne(tasks: seq<seq<real>>, k: nat)
    requires |tasks| > 0
    requires forall i :: 0 <= i < |tasks| ==> |tasks[i]| == k
    ensures ProbabilitySum(Probabilities(tasks, k)) == 1.0
  {
    var ps := Probabilities(tasks, k);
    PrefixSum(tasks, k, k + 1);
    assert ps[..k + 1] == ps;
    HistogramTotal(tasks, k);
    Ratios.SelfQuotient(|tasks| as real);
  }

  lemma {:induction false} PrefixSum(tasks: seq<seq<real>>, k: nat, m: nat)
    requires |tasks| > 0 && m <= k + 1
    ensures ProbabilitySum(Probabilities(tasks, k)[..m]) == HistogramSum(tasks, m) as real / |tasks| as real
  {
    var ps := Probabilities(tasks, k);
    if m > 0 {
      PrefixSum(tasks, k, m - 1);
      assert ps[..m][..m - 1] == ps[..m - 1];
      assert ps[..m][m - 1] == ps[m - 1];
      Ratios.DivAdd(HistogramSum(tasks, m - 1) as real, CountDegree(tasks, m - 1) as real, |tasks| as real);
    }
  }

  /** The inner loop of one task: every worker adds one to the counter of the decision its draw
      falls into. */
  method CastVotes(ds: seq<real>) returns (v: seq<int>)
    ensures v == Votes(ds)
  {
    var votes := new int[4](_ => 0);
    for w := 0 to |ds|
      invariant forall b :: 0 <= b < 4 ==> votes[b] == CountBucket(ds[..w], b)
    {
      var decision := ds[w];
      assert ds[..w + 1][..w] == ds[..w];
      if decision <= 0.25 {
        votes[0] := votes[0] + 1;
      } else if decision <= 0.5 {
        votes[1] := votes[1] + 1;
      } else if decision <= 0.75 {
        votes[2] := votes[2] + 1;
      } else {
        votes[3] := votes[3] + 1;
      }
    }
    assert ds[..|ds|] == ds;
    v := votes[..];
  }

  /** The body of the outer loop for one task: cast its votes and take their maximum. */
  method Consensus(ds: seq<real>) returns (degree: nat)
    ensures degree == Degree(ds) && degree <= |ds|
  {
    var votes := CastVotes(ds);
    var consensusReached := Max(votes);
    DegreeRange(ds);
    degree := consensusReached;
  }

  /** The outer loop: one more task at a time, add one to the counter of the degree of consensus it
      reached. */
  method Histogram(draws: seq<seq<real>>, k: nat) returns (h: seq<nat>)
    requires forall i :: 0 <= i < |draws| ==> |draws[i]| == k
    ensures |h| == k + 1
    ensures forall d :: 0 <= d <= k ==> h[d] == CountDegree(draws, d)
  {
    var consensusDegrees := new nat[k + 1](_ => 0);
    for i := 0 to |draws|
      invariant forall d :: 0 <= d <= k ==> consensusDegrees[d] == CountDegree(draws[..i], d)
    {
      var consensusReached := Consensus(draws[i]);
      CountDegreeSnoc(draws, i, k);
      consensusDegrees[consensusReached] := consensusDegrees[consensusReached] + 1;
    }
    assert draws[..|draws|] == draws;
    h := consensusDegrees[..];
  }

  /** The counters over one more task differ only at that task's degree. */
  lemma CountDegreeSnoc(draws: seq<seq<real>>, i: nat, k: nat)
    requires i < |draws|
    ensures forall d :: 0 <= d <= k ==>
      CountDegree(draws[..i + 1], d) == CountDegree(draws[..i], d) + (if Degree(draws[i]) == d then 1 else 0)
  {
    assert draws[..i + 1][..i] == draws[..i];
    assert draws[..i + 1][i] == draws[i];
  }

  /** mTurkMonteCarlo: bucket every draw of every task, record the degree of consensus of each task
      and turn the k + 1 counters into probabilities. */
  method MTurkMonteCarlo(n: nat, k: nat, draws: seq<seq<real>>) returns (consensusProbability: seq<real>)
    requires n > 0
    requires |draws| == n
    requires forall i :: 0 <= i < n ==> |draws[i]| == k
    ensures consensusProbability == Probabilities(draws, k)
    ensures |consensusProbability| == k + 1
    ensures forall d :: 0 <= d <= k ==> consensusProbability[d] == CountDegree(draws, d) as real / n as real
    ensures ProbabilitySum(consensusProbability) == 1.0
  {
    var consensusDegrees := Histogram(draws, k);
    var probability := new real[k + 1](_ => 0.0);
    for d := 0 to k + 1
      invariant forall e :: 0 <= e < d ==> probability[e] == consensusDegrees[e] as real / n as real
    {
      probability[d] := consensusDegrees[d] as real / n as real;
    }
    consensusProbability := probability[..];
    assert forall d :: 0 <= d <= k ==> consensusProbability[d] == Probabilities(draws, k)[d];
    ProbabilitiesSumToOne(draws, k);
  }
}
