// The Monte Carlo birthday problem: in each of `samples` groups of k people,
// draw a birthday out of n days for one person after another and stop at the
// first day already taken. The day draws are an input: draws[i][w] is the day
// of person w of group i. The closed-form estimates are not part of this model.
module Birthday {
  import Ratios

  /** Two of the draws fall on the same day. */
  predicate HasRepeat(ds: seq<nat>) {
    exists i, j :: 0 <= i < j < |ds| && ds[i] == ds[j]
  }

  /** All draws lie in [0, n), as rand.Intn(n) promises. */
  predicate InDays(ds: seq<nat>, n: nat) {
    forall w :: 0 <= w < |ds| ==> ds[w] < n
  }

  /** The number of groups whose first k draws share a day. */
  function CountSuccesses(groups: seq<seq<nat>>, k: nat): (c: nat)
    requires forall i :: 0 <= i < |groups| ==> |groups[i]| >= k
    ensures c <= |groups|
  {
    if groups == [] then 0
    else CountSuccesses(groups[..|groups| - 1], k) + (if HasRepeat(groups[|groups| - 1][..k]) then 1 else 0)
  }

  /** A repeat after one more draw is an old repeat or the new day seen before. */
  lemma AppendRepeat(s: seq<nat>, x: nat)
    ensures HasRepeat(s + [x]) <==> HasRepeat(s) || x in s
  {
    var t := s + [x];
    if HasRepeat(t) {
      var i, j :| 0 <= i < j < |t| && t[i] == t[j];
      if j < |s| {
        assert s[i] == s[j];
      } else {
        assert s[i] == x;
      }
    }
    if x in s {
      var e :| 0 <= e < |s| && s[e] == x;
      assert t[e] == t[|s|];
    }
    if HasRepeat(s) {
      var i, j :| 0 <= i < j < |s| && s[i] == s[j];
      assert t[i] == t[j];
    }
  }

  /** A repeat among the first m draws is a repeat among all of them. */
  lemma PrefixRepeat(s: seq<nat>, m: nat)
    requires m <= |s|
    ensures HasRepeat(s[..m]) ==> HasRepeat(s)
  {
    if HasRepeat(s[..m]) {
      var i, j :| 0 <= i < j < m && s[..m][i] == s[..m][j];
      assert s[i] == s[j];
    }
  }

  /** The days of a list of draws. */
  function DaysOf(ds: seq<nat>): set<nat> {
    set w | 0 <= w < |ds| :: ds[w]
  }

  /** The set of days in a list of pairwise distinct draws has one day per draw. */
  lemma {:induction false} DistinctCard(ds: seq<nat>)
    requires !HasRepeat(ds)
    ensures |DaysOf(ds)| == |ds|
  {
    if ds != [] {
      var init, last := ds[..|ds| - 1], ds[|ds| - 1];
      assert ds == init + [last];
      AppendRepeat(init, last);
      DistinctCard(init);
      assert DaysOf(ds) == DaysOf(init) + {last};
      assert last !in DaysOf(init);
    }
  }

  /** The days 0, 1, ..., n - 1. */
  function Days(n: nat): (s: set<nat>)
    ensures forall d: nat :: d in s <==> d < n
  {
    if n == 0 then {} else Days(n - 1) + {n - 1}
  }

  /** There are exactly n days in the year. */
  lemma {:induction false} DaysCard(n: nat)
    ensures |Days(n)| == n
  {
    if n > 0 {
      var before := Days(n - 1);
      DaysCard(n - 1);
      assert n - 1 !in before;
    }
  }

  lemma SubsetCard(a: set<nat>, b: set<nat>)
    requires a <= b
    ensures |a| <= |b|
  {
    assert b == a + (b - a);
  }

  /** Pigeonhole: more than n draws out of n days must repeat a day. */
  lemma Pigeonhole(ds: seq<nat>, n: nat)
    requires InDays(ds, n)
    ensures |ds| > n ==> HasRepeat(ds)
  {
    if !HasRepeat(ds) {
      DistinctCard(ds);
      DaysCard(n);
      SubsetCard(DaysOf(ds), Days(n));
    }
  }

  /** Groups of at most one person never share a day; groups larger than the year always do. */
  lemma {:induction false} CountSuccessesExtremes(groups: seq<seq<nat>>, n: nat, k: nat)
    requires forall i :: 0 <= i < |groups| ==> |groups[i]| >= k && InDays(groups[i][..k], n)
    ensures k <= 1 ==> CountSuccesses(groups, k) == 0
    ensures k > n ==> CountSuccesses(groups, k) == |groups|
  {
    if groups != [] {
      var init := groups[..|groups| - 1];
      assert forall i :: 0 <= i < |init| ==> init[i] == groups[i];
      CountSuccessesExtremes(init, n, k);
      var last := groups[|groups| - 1][..k];
      if k > n {
        Pigeonhole(last, n);
      }
    }
  }

  /** birthdayProblemMonteCarlo: the fraction of groups in which some day comes up twice. Within a
      group the boolean array marks the days drawn so far; the first draw of a marked day counts
      the group as a success and ends it. */
  method BirthdayProblemMonteCarlo(samples: nat, n: nat, k: nat, draws: seq<seq<nat>>) returns (p: real)
    requires samples > 0
    requires |draws| == samples
    requires forall i :: 0 <= i < samples ==> |draws[i]| >= k && InDays(draws[i][..k], n)
    ensures p == CountSuccesses(draws, k) as real / samples as real
    ensures 0.0 <= p <= 1.0
    ensures k <= 1 ==> p == 0.0
    ensures k > n ==> p == 1.0
  {
    var success: nat := 0;
    for i := 0 to samples
      invariant success == CountSuccesses(draws[..i], k)
    {
      var ds := draws[i];
      var peopleWithBirthday := new bool[n](_ => false);
      ghost var repeated := false;
      var w := 0;
      while w < k
        invariant 0 <= w <= k
        invariant forall d :: 0 <= d < n ==> (peopleWithBirthday[d] <==> d in ds[..w])
        invariant !HasRepeat(ds[..w])
        invariant !repeated
        invariant success == CountSuccesses(draws[..i], k)
      {
        var day := ds[w];
        assert ds[..w + 1] == ds[..w] + [day];
        AppendRepeat(ds[..w], day);
        if peopleWithBirthday[day] {
          assert ds[..k][..w + 1] == ds[..w + 1];
          PrefixRepeat(ds[..k], w + 1);
          success := success + 1;
          repeated := true;
          break;
        } else {
          peopleWithBirthday[day] := true;
        }
        w := w + 1;
      }
      assert !repeated ==> ds[..k] == ds[..w];
      assert repeated <==> HasRepeat(ds[..k]);
      assert draws[..i + 1][..i] == draws[..i];
      assert success == CountSuccesses(draws[..i], k) + (if repeated then 1 else 0);
    }
    assert draws[..samples] == draws;
    p := success as real / samples as real;
    CountSuccessesExtremes(draws, n, k);
    Ratios.QuotientRange(success as real, samples as real);
  }
}
