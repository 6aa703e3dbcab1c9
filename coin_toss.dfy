// The coin-toss Monte Carlo test: each uniform draw in [0, 1) at or below
// one half is a head, any other a tail. The draws are an input sequence; the
// band assertions on the two estimates are statistical and not modelled.
module CoinToss {
  import Ratios

  /** The number of draws that land on heads (draw <= 0.5). */
  function CountHeads(draws: seq<real>): (h: nat)
    ensures h <= |draws|
  {
    if draws == [] then 0
    else CountHeads(draws[..|draws| - 1]) + (if draws[|draws| - 1] <= 0.5 then 1 else 0)
  }

  /** Appending one more head (or tail) to the draws moves the count by exactly that one draw. */
  lemma {:induction false} CountHeadsAppend(draws: seq<real>, d: real)
    ensures CountHeads(draws + [d]) == CountHeads(draws) + (if d <= 0.5 then 1 else 0)
  {
    assert (draws + [d])[..|draws + [d]| - 1] == draws;
  }

  /** The counting loop of the test followed by the two estimates. */
  method CoinTossMonteCarlo(draws: seq<real>)
    returns (heads: nat, tails: nat, headProbability: real, tailProbability: real)
    requires |draws| > 0
    ensures heads + tails == |draws|
    ensures heads == CountHeads(draws)
    ensures tails == |draws| - CountHeads(draws)
    ensures headProbability == heads as real / |draws| as real
    ensures tailProbability == tails as real / |draws| as real
    ensures 0.0 <= headProbability <= 1.0 && 0.0 <= tailProbability <= 1.0
    ensures headProbability + tailProbability == 1.0
  {
    var n := |draws|;
    heads, tails := 0, 0;
    var i := 0;
    while i < n
      invariant 0 <= i <= n
      invariant heads == CountHeads(draws[..i])
      invariant heads + tails == i
    {
      CountHeadsAppend(draws[..i], draws[i]);
      assert draws[..i + 1] == draws[..i] + [draws[i]];
      if draws[i] <= 0.5 {
        heads := heads + 1;
      } else {
        tails := tails + 1;
      }
      i := i + 1;
    }
    assert draws[..n] == draws;
    headProbability := heads as real / n as real;
    tailProbability := tails as real / n as real;
    ProbabilitiesSum(heads, tails, n);
  }

  /** Two counts that add up to n split the unit probability between them. */
  lemma ProbabilitiesSum(heads: nat, tails: nat, n: nat)
    requires n > 0 && heads + tails == n
    ensures heads as real / n as real + tails as real / n as real == 1.0
    ensures 0.0 <= heads as real / n as real <= 1.0
    ensures 0.0 <= tails as real / n as real <= 1.0
  {
    var x := n as real;
    assert heads as real + tails as real == x;
    Ratios.DivAdd(heads as real, tails as real, x);
    Ratios.SelfQuotient(x);
    Ratios.QuotientRange(heads as real, x);
    Ratios.QuotientRange(tails as real, x);
  }
}
