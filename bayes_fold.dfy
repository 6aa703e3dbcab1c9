// The sequential posterior fold of the spam filter in closed form: after the known words of a
// query, the posterior of a class is its product of word shares over the sum of both classes'
// products. Since a product does not depend on the order of its factors, neither does the fold.
module BayesFold {
  import opened SpamFilter
  import Ratios

  /** The factor a query word contributes to the likelihood of a class: its share in the class
      when the word was seen in training, and 1 for a word the fold skips. */
  ghost function Factor(mine: Table, other: Table, w: string): (f: real)
    requires Sum(mine) > 0
    ensures f >= 0.0
  {
    if Known(mine, other, w) then
      Ratios.QuotientRange(Count(mine, w) as real, Sum(mine) as real);
      Count(mine, w) as real / Sum(mine) as real
    else 1.0
  }

  /** The factors of a query's words, in order. */
  ghost function Factors(mine: Table, other: Table, words: seq<string>): (fs: seq<real>)
    requires Sum(mine) > 0
    ensures |fs| == |words|
    decreases |words|
  {
    if words == [] then []
    else Factors(mine, other, words[..|words| - 1]) + [Factor(mine, other, words[|words| - 1])]
  }

  /** The factors of two queries put together are the factors of each in turn. */
  lemma {:induction false} FactorsAppend(mine: Table, other: Table, a: seq<string>, b: seq<string>)
    requires Sum(mine) > 0
    ensures Factors(mine, other, a + b) == Factors(mine, other, a) + Factors(mine, other, b)
    decreases |b|
  {
    if b == [] {
      assert a + b == a;
    } else {
      var b', y := b[..|b| - 1], b[|b| - 1];
      assert (a + b)[..|a + b| - 1] == a + b' && (a + b)[|a + b| - 1] == y;
      FactorsAppend(mine, other, a, b');
    }
  }

  /** Queries with the same words, counted with multiplicity, have factors with the same
      multiset. */
  lemma {:induction false} FactorsPermutation(mine: Table, other: Table, words: seq<string>, words': seq<string>)
    requires Sum(mine) > 0 && multiset(words) == multiset(words')
    ensures multiset(Factors(mine, other, words)) == multiset(Factors(mine, other, words'))
    decreases |words'|
  {
    if words' != [] {
      var n := |words'| - 1;
      var init', last := words'[..n], words'[n];
      var i := MatchLast(words, words');
      var front, back := words[..i], words[i + 1..];
      FactorsPermutation(mine, other, front + back, init');
      FactorsSplit(mine, other, front, last, back);
      FactorsAppend(mine, other, front, back);
      var fs, f, bs := Factors(mine, other, front), Factor(mine, other, last), Factors(mine, other, back);
      MultisetRemove(fs, f, bs);
      assert Factors(mine, other, words') == Factors(mine, other, init') + [f];
      MultisetCancel(multiset(fs + [f] + bs), multiset(Factors(mine, other, init') + [f]),
        multiset(fs + bs), multiset(Factors(mine, other, init')), f);
    } else {
      assert |words| == |multiset(words)| == 0;
    }
  }

  /** The factors of a query with one word singled out. */
  lemma FactorsSplit(mine: Table, other: Table, front: seq<string>, w: string, back: seq<string>)
    requires Sum(mine) > 0
    ensures Factors(mine, other, front + [w] + back)
      == Factors(mine, other, front) + [Factor(mine, other, w)] + Factors(mine, other, back)
  {
    FactorsAppend(mine, other, front + [w], back);
    assert (front + [w])[..|front|] == front;
  }

  lemma MultisetRemove<T>(front: seq<T>, x: T, back: seq<T>)
    ensures multiset(front + [x] + back) == multiset(front + back) + multiset{x}
  {
  }

  lemma MultisetCancel<T>(whole: multiset<T>, whole': multiset<T>, rest: multiset<T>, init: multiset<T>, x: T)
    requires whole == rest + multiset{x} && rest == init && whole' == init + multiset{x}
    ensures whole == whole'
  {
  }

  /** Multiplication of reals under a name of its own, so that the steps below relate products
      of likelihoods and factors as terms. */
  function Times(a: real, b: real): real {
    a * b
  }

  /** The product of a sequence of reals, multiplying from the left. */
  ghost function Product(xs: seq<real>): real
    decreases |xs|
  {
    if xs == [] then 1.0 else Times(Product(xs[..|xs| - 1]), xs[|xs| - 1])
  }

  lemma ProductSnoc(xs: seq<real>, x: real)
    ensures Product(xs + [x]) == Times(Product(xs), x)
  {
    assert (xs + [x])[..|xs|] == xs;
  }

  /** Taking any one entry out of a product divides it out. */
  lemma {:induction false} ProductRemove(front: seq<real>, x: real, back: seq<real>)
    ensures Product(front + [x] + back) == Times(x, Product(front + back))
    decreases |back|
  {
    if back == [] {
      assert front + [x] + back == front + [x];
      assert front + back == front;
      ProductSnoc(front, x);
      Commute(Product(front + [x]), Product(front), x);
    } else {
      var back', y := back[..|back| - 1], back[|back| - 1];
      var p, q := front + [x] + back', front + back';
      assert front + [x] + back == p + [y];
      assert front + back == q + [y];
      ProductRemove(front, x, back');
      ProductSnoc(p, y);
      ProductSnoc(q, y);
      Rearrange(Product(p + [y]), Product(p), Product(q), Product(q + [y]), x, y);
    }
  }

  /** A product depends only on the multiset of its entries. */
  lemma {:induction false} ProductPermutation(xs: seq<real>, ys: seq<real>)
    requires multiset(xs) == multiset(ys)
    ensures Product(xs) == Product(ys)
    decreases |ys|
  {
    if ys != [] {
      var n := |ys| - 1;
      var i := MatchLast(xs, ys);
      var front, back := xs[..i], xs[i + 1..];
      ProductPermutation(front + back, ys[..n]);
      assert xs == front + [ys[n]] + back;
      ProductRemove(front, ys[n], back);
      assert ys == ys[..n] + [ys[n]];
      ProductSnoc(ys[..n], ys[n]);
      Cancel(Product(xs), Product(ys), Product(front + back), Product(ys[..n]), ys[n]);
    } else {
      assert |xs| == |multiset(xs)| == 0;
    }
  }

  /** For two sequences with the same multiset, a position of the first holding the last entry
      of the second; without them the two rests still have the same multiset. */
  lemma MatchLast<T>(xs: seq<T>, ys: seq<T>) returns (i: nat)
    requires multiset(xs) == multiset(ys) && ys != []
    ensures i < |xs| && xs[i] == ys[|ys| - 1] && xs == xs[..i] + [ys[|ys| - 1]] + xs[i + 1..]
    ensures multiset(xs[..i] + xs[i + 1..]) == multiset(ys[..|ys| - 1])
  {
    var n := |ys| - 1;
    assert ys == ys[..n] + [ys[n]];
    assert ys[n] in multiset(xs);
    i :| 0 <= i < |xs| && xs[i] == ys[n];
    assert xs == xs[..i] + [xs[i]] + xs[i + 1..];
    assert multiset(xs[..i] + xs[i + 1..]) == multiset(xs) - multiset{ys[n]};
    assert multiset(ys[..n]) == multiset(ys) - multiset{ys[n]};
  }

  lemma MulNonNegative(a: real, b: real)
    requires a >= 0.0 && b >= 0.0
    ensures Times(a, b) >= 0.0
  {
  }

  lemma Commute(whole: real, a: real, b: real)
    requires whole == Times(a, b)
    ensures whole == Times(b, a)
  {
  }

  /** The arithmetic of taking a factor f out of a product whose last factor is g. */
  lemma Rearrange(whole: real, init: real, rest: real, restLast: real, f: real, g: real)
    requires whole == Times(init, g) && init == Times(f, rest) && restLast == Times(rest, g)
    ensures whole == Times(f, restLast)
  {
    assert whole == (f * rest) * g;
  }

  lemma Cancel(whole: real, whole': real, rest: real, init: real, f: real)
    requires whole == Times(f, rest) && rest == init && whole' == Times(init, f)
    ensures whole == whole'
  {
  }

  /** The likelihood of a class for a query: the product of the factors of its words. */
  ghost function Likelihood(mine: Table, other: Table, words: seq<string>): real
    requires Sum(mine) > 0
  {
    Product(Factors(mine, other, words))
  }

  /** The likelihood of a query with one more word. */
  lemma LikelihoodSnoc(mine: Table, other: Table, words: seq<string>, w: string)
    requires Sum(mine) > 0
    ensures Likelihood(mine, other, words + [w]) == Times(Likelihood(mine, other, words), Factor(mine, other, w))
  {
    assert (words + [w])[..|words|] == words;
    assert Factors(mine, other, words + [w]) == Factors(mine, other, words) + [Factor(mine, other, w)];
    ProductSnoc(Factors(mine, other, words), Factor(mine, other, w));
  }

  /** A likelihood is never negative. */
  lemma {:induction false} LikelihoodNonNegative(mine: Table, other: Table, words: seq<string>)
    requires Sum(mine) > 0
    ensures Likelihood(mine, other, words) >= 0.0
    decreases |words|
  {
    if words != [] {
      var init, w := words[..|words| - 1], words[|words| - 1];
      assert words == init + [w];
      LikelihoodNonNegative(mine, other, init);
      LikelihoodSnoc(mine, other, init, w);
      MulNonNegative(Likelihood(mine, other, init), Factor(mine, other, w));
    }
  }

  /** The likelihood depends only on the multiset of the query's words. */
  lemma LikelihoodPermutation(mine: Table, other: Table, words: seq<string>, words': seq<string>)
    requires Sum(mine) > 0 && multiset(words) == multiset(words')
    ensures Likelihood(mine, other, words) == Likelihood(mine, other, words')
  {
    FactorsPermutation(mine, other, words, words');
    ProductPermutation(Factors(mine, other, words), Factors(mine, other, words'));
  }

  /** The posterior of a class from the two likelihoods with equal priors: NaN when both are
      zero. */
  ghost function Normalised(A: real, B: real): (r: Prob)
    ensures A >= 0.0 && B >= 0.0 ==> (r.NaN? <==> A == 0.0 && B == 0.0)
    ensures A >= 0.0 && B >= 0.0 && r.Value? ==> 0.0 <= r.p <= 1.0
  {
    if A + B == 0.0 then NaN
    else if A >= 0.0 && B >= 0.0 then
      Ratios.QuotientRange(A, A + B);
      Value(A / (A + B))
    else Value(A / (A + B))
  }

  /** One Bayes step in terms of the likelihoods reached so far: with x = A/(A + B), the update
      by the shares a and b has a zero denominator exactly when A*a + B*b is zero, and otherwise
      gives A*a/(A*a + B*b). */
  lemma BayesStep(A: real, B: real, a: real, b: real)
    requires A >= 0.0 && B >= 0.0 && A + B != 0.0
    ensures var x := A / (A + B); var d := x * a + (1.0 - x) * b;
      (d == 0.0 <==> A * a + B * b == 0.0) &&
      (d != 0.0 ==> x * a / d == (A * a) / (A * a + B * b))
  {
    var s := A + B;
    var x := A / s;
    var d := x * a + (1.0 - x) * b;
    assert x * s == A;
    assert (1.0 - x) * s == B;
    assert d * s == (x * s) * a + ((1.0 - x) * s) * b;
    assert d * s == A * a + B * b;
    if d != 0.0 {
      var q := x * a / d;
      assert q * d == x * a;
      assert q * (d * s) == (q * d) * s;
      assert q * (A * a + B * b) == A * a;
    }
  }

  /** One known word in closed form: if the fold so far is the closed form of A0 and B0 and the
      shares are a and b, the updated fold is the closed form of A = A0*a and B = B0*b. */
  lemma FoldStep(A0: real, B0: real, a: real, b: real, A: real, B: real, before: Prob, pc: Prob, po: Prob)
    requires A0 >= 0.0 && B0 >= 0.0 && 0.0 <= a && 0.0 <= b
    requires A == Times(A0, a) && B == Times(B0, b)
    requires before == Normalised(A0, B0)
    requires before.Value? ==> 0.0 <= before.p <= 1.0
    requires pc == Value(a) && po == Value(b)
    ensures Update(before, pc, po) == Normalised(A, B)
  {
    MulNonNegative(A0, a);
    MulNonNegative(B0, b);
    if A0 + B0 != 0.0 {
      BayesStep(A0, B0, a, b);
    }
  }

  /** The share of a word seen in training is its factor. */
  lemma ShareFactor(mine: Table, other: Table, w: string)
    requires Sum(mine) > 0 && Known(mine, other, w)
    ensures Share(mine, w) == Value(Factor(mine, other, w))
  {
  }

  /** What a known word does to both likelihoods, and its shares as factors. */
  lemma KnownFactors(mine: Table, other: Table, init: seq<string>, w: string)
    requires Sum(mine) > 0 && Sum(other) > 0 && Known(mine, other, w)
    ensures Likelihood(mine, other, init) >= 0.0 && Likelihood(other, mine, init) >= 0.0
    ensures Likelihood(mine, other, init + [w]) == Times(Likelihood(mine, other, init), Factor(mine, other, w))
    ensures Likelihood(other, mine, init + [w]) == Times(Likelihood(other, mine, init), Factor(other, mine, w))
    ensures Share(mine, w) == Value(Factor(mine, other, w)) && Share(other, w) == Value(Factor(other, mine, w))
  {
    LikelihoodNonNegative(mine, other, init);
    LikelihoodNonNegative(other, mine, init);
    LikelihoodSnoc(mine, other, init, w);
    LikelihoodSnoc(other, mine, init, w);
    ShareFactor(mine, other, w);
    ShareFactor(other, mine, w);
  }

  /** A word the fold skips contributes the factor 1 to both likelihoods. */
  lemma UnknownStep(mine: Table, other: Table, init: seq<string>, w: string)
    requires Sum(mine) > 0 && Sum(other) > 0 && !Known(mine, other, w)
    ensures Likelihood(mine, other, init + [w]) == Likelihood(mine, other, init)
    ensures Likelihood(other, mine, init + [w]) == Likelihood(other, mine, init)
  {
    LikelihoodSnoc(mine, other, init, w);
    LikelihoodSnoc(other, mine, init, w);
    assert !Known(other, mine, w);
  }

  /** With both classes holding counts, the posterior fold over a query is NaN exactly when the
      two likelihoods are both zero, and otherwise the class's likelihood over their sum, as a
      one-shot product-of-likelihoods Bayes computation with equal priors gives. */
  lemma {:induction false} FoldClosedForm(mine: Table, other: Table, words: seq<string>)
    requires Sum(mine) > 0 && Sum(other) > 0
    ensures Fold(mine, other, words) == Normalised(Likelihood(mine, other, words), Likelihood(other, mine, words))
    decreases |words|
  {
    if words == [] {
      assert Factors(mine, other, words) == [] && Factors(other, mine, words) == [];
      assert Fold(mine, other, words) == Value(0.5);
    } else {
      var init, w := words[..|words| - 1], words[|words| - 1];
      assert words == init + [w];
      FoldClosedForm(mine, other, init);
      FoldSnoc(mine, other, init, w);
      if Known(mine, other, w) {
        KnownFactors(mine, other, init, w);
        FoldStep(Likelihood(mine, other, init), Likelihood(other, mine, init),
          Factor(mine, other, w), Factor(other, mine, w),
          Likelihood(mine, other, words), Likelihood(other, mine, words),
          Fold(mine, other, init), Share(mine, w), Share(other, w));
      } else {
        UnknownStep(mine, other, init, w);
      }
    }
  }

  /** A query has no known words exactly when none of its words was seen in training. */
  lemma {:induction false} KnownWordsEmpty(mine: Table, other: Table, words: seq<string>)
    ensures KnownWords(mine, other, words) == [] <==> forall w :: w in words ==> !Known(mine, other, w)
    decreases |words|
  {
    if words != [] {
      var init, w := words[..|words| - 1], words[|words| - 1];
      assert words == init + [w];
      KnownWordsEmpty(mine, other, init);
    }
  }

  /** The order of the query's words does not change the posterior: two queries with the same
      words, counted with multiplicity, give the same fold, NaN included. */
  lemma FoldPermutation(mine: Table, other: Table, words: seq<string>, words': seq<string>)
    requires multiset(words) == multiset(words')
    ensures Fold(mine, other, words) == Fold(mine, other, words')
  {
    if Sum(mine) > 0 && Sum(other) > 0 {
      FoldClosedForm(mine, other, words);
      FoldClosedForm(mine, other, words');
      LikelihoodPermutation(mine, other, words, words');
      LikelihoodPermutation(other, mine, words, words');
    } else {
      KnownWordsEmpty(mine, other, words);
      KnownWordsEmpty(mine, other, words');
      assert forall w :: w in words <==> w in words' by {
        forall w ensures w in words <==> w in words' {
          assert w in words <==> w in multiset(words);
          assert w in words' <==> w in multiset(words');
        }
      }
      FoldEmptyClass(mine, other, words);
      FoldEmptyClass(mine, other, words');
      FoldKnownOnly(mine, other, words);
      FoldKnownOnly(mine, other, words');
    }
  }

  /** In particular, swapping two adjacent words keeps the posterior. */
  lemma FoldSwap(mine: Table, other: Table, front: seq<string>, u: string, v: string, back: seq<string>)
    ensures Fold(mine, other, front + [u, v] + back) == Fold(mine, other, front + [v, u] + back)
  {
    assert multiset(front + [u, v] + back) == multiset(front + [v, u] + back);
    FoldPermutation(mine, other, front + [u, v] + back, front + [v, u] + back);
  }
}
