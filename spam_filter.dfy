// A naive Bayes spam filter: a bag of words per class (spam or ham) counts how
// often each word occurs in the training texts, and the posterior probability of
// a class for a query text is obtained by folding Bayes' rule over its words,
// skipping words that occur in neither class.
module SpamFilter {
  import Ratios

  /** The counts of a bag of words, one per word seen. */
  type Table = map<string, nat>

  /** The count of a word, zero for a word never seen. */
  function Count(t: Table, w: string): (r: nat)
    ensures w in t ==> r == t[w]
    ensures w !in t ==> r == 0
  {
    if w in t then t[w] else 0
  }

  /** The table after one more occurrence of a word. */
  function Bump(t: Table, w: string): (t': Table)
    ensures Count(t', w) == Count(t, w) + 1
    ensures forall v :: v != w ==> Count(t', v) == Count(t, v)
    ensures t'.Keys == t.Keys + {w}
  {
    t[w := Count(t, w) + 1]
  }

  /** Every word present has been counted at least once. */
  predicate Positive(t: Table) {
    forall w :: w in t ==> t[w] >= 1
  }

  /** The sum of all counts. Go ranges over the map in no fixed order; the sum does not depend on
      the order, so one word is picked at a time. */
  ghost function Sum(t: Table): (s: nat)
    ensures t == map[] ==> s == 0
    ensures forall w :: Count(t, w) <= s
    decreases |t|
  {
    if t == map[] then 0
    else
      var k :| k in t;
      assert |t - {k}| < |t| by { assert (t - {k}).Keys == t.Keys - {k}; }
      assert forall w :: w != k ==> Count(t - {k}, w) == Count(t, w);
      t[k] + Sum(t - {k})
  }

  /** Any word can be taken out of the sum first. */
  lemma {:induction false} SumRemove(t: Table, k: string)
    requires k in t
    ensures Sum(t) == t[k] + Sum(t - {k})
    decreases |t|
  {
    var j :| j in t && Sum(t) == t[j] + Sum(t - {j});
    if j != k {
      assert (t - {j}).Keys == t.Keys - {j};
      SumRemove(t - {j}, k);
      assert (t - {j}) - {k} == (t - {k}) - {j};
      assert (t - {k}).Keys == t.Keys - {k};
      SumRemove(t - {k}, j);
    }
  }

  /** One more occurrence of a word raises the sum by exactly one. */
  lemma SumBump(t: Table, w: string)
    ensures Sum(Bump(t, w)) == Sum(t) + 1
  {
    var t' := Bump(t, w);
    SumRemove(t', w);
    assert t' - {w} == t - {w};
    if w in t {
      SumRemove(t, w);
    } else {
      assert t - {w} == t;
    }
  }

  /** A table of positive counts sums to zero exactly when it is empty. */
  lemma SumZero(t: Table)
    requires Positive(t)
    ensures Sum(t) == 0 <==> t == map[]
  {
    if t != map[] {
      var k :| k in t;
    }
  }

  /** BoW: a word-to-count map updated in place. */
  class BoW {
    var counts: Table

    /** Every stored count is at least one, since a word enters the map with one. */
    ghost predicate Valid()
      reads this
    {
      Positive(counts)
    }

    constructor ()
      ensures counts == map[] && Valid()
    {
      counts := map[];
    }

    /** BoW.Inc: add one to a word present, store one for a word absent. */
    method Inc(w: string)
      requires Valid()
      modifies this
      ensures Valid()
      ensures counts == Bump(old(counts), w)
    {
      if w in counts {
        counts := counts[w := counts[w] + 1];
      } else {
        counts := counts[w := 1];
      }
    }

    /** BoW.Val: the stored count, or zero for an absent word; in a valid table zero means absent. */
    function Val(w: string): (r: nat)
      reads this
      ensures w in counts ==> r == counts[w]
      ensures w !in counts ==> r == 0
      ensures Valid() ==> (r == 0 <==> w !in counts)
    {
      Count(counts, w)
    }

    /** BoW.Total: the counts added up in the order the map yields them. */
    method Total() returns (result: nat)
      ensures result == Sum(counts)
    {
      result := 0;
      var rest := counts;
      while rest != map[]
        invariant result + Sum(rest) == Sum(counts)
        decreases |rest|
      {
        var w :| w in rest;
        SumRemove(rest, w);
        assert (rest - {w}).Keys == rest.Keys - {w};
        result := result + rest[w];
        rest := rest - {w};
      }
    }
  }

  /** BowClass: one bag of words per class, true for spam and false for ham; a class has a bag only
      once a word of it has been counted. */
  class BowClass {
    var tables: map<bool, BoW>

    /** Each bag is valid and the two classes do not share one bag. */
    ghost predicate Valid()
      reads this, tables.Values
    {
      (forall c :: c in tables ==> tables[c].Valid())
      && (true in tables && false in tables ==> tables[true] != tables[false])
    }

    /** The counts of a class, empty for a class never observed. */
    ghost function CountsOf(c: bool): Table
      reads this, tables.Values
    {
      if c in tables then tables[c].counts else map[]
    }

    constructor ()
      ensures tables == map[] && Valid()
    {
      tables := map[];
    }

    /** BowClass.Inc: count the word in the bag of its class, creating the bag on first use; the
        other class is left alone. */
    method Inc(c: bool, w: string)
      requires Valid()
      modifies this, tables.Values
      ensures Valid()
      ensures CountsOf(c) == Bump(old(CountsOf(c)), w)
      ensures CountsOf(!c) == old(CountsOf(!c))
      ensures tables.Keys == old(tables.Keys) + {c}
      ensures Has(w)
      ensures forall b :: b in tables.Values ==> b in old(tables.Values) || fresh(b)
    {
      if c in tables {
        var b := tables[c];
        b.Inc(w);
      } else {
        var b := new BoW();
        tables := tables[c := b];
        b.Inc(w);
      }
    }

    /** BowClass.Val: the count of the word in its class, zero for a class never observed. */
    function Val(c: bool, w: string): (r: nat)
      reads this, tables.Values
      ensures c !in tables ==> r == 0
      ensures r == Count(CountsOf(c), w)
    {
      if c in tables then tables[c].Val(w) else 0
    }

    /** BowClass.Has: the word has a non-zero count in the spam or in the ham class, that is, it
        was seen in training. */
    predicate Has(w: string)
      reads this, tables.Values
      ensures Valid() ==> (Has(w) <==> w in CountsOf(true) || w in CountsOf(false))
    {
      if Val(true, w) != 0 then true
      else if Val(false, w) != 0 then true
      else false
    }

    /** BowClass.Total: the sum of the counts of a class, zero for a class never observed. */
    method Total(c: bool) returns (result: nat)
      ensures c !in tables ==> result == 0
      ensures result == Sum(CountsOf(c))
    {
      if c in tables {
        result := tables[c].Total();
      } else {
        result := 0;
      }
    }

    /** BowClass.Proportion: the count of a word in a class divided by the total of the class. Go
        divides without a check, so a class with no counts gives 0/0, that is NaN. */
    method Proportion(c: bool, w: string) returns (p: Prob)
      ensures p == Share(CountsOf(c), w)
    {
      var total := Total(c);
      assert Count(CountsOf(c), w) <= Sum(CountsOf(c));
      p := Divide(Val(c, w) as real, total as real);
    }
  }

  /** A float64 as the posterior computes it: a value, or NaN once a division 0/0 has happened
      (NaN then stays NaN through every further step). */
  datatype Prob = Value(p: real) | NaN

  /** Go's float64 division where a zero divisor comes only with a zero dividend: the quotient,
      or NaN for 0/0. */
  function Divide(a: real, b: real): (r: Prob)
    requires b == 0.0 ==> a == 0.0
    ensures b != 0.0 ==> r.Value? && r.p * b == a
    ensures b == 0.0 ==> r.NaN?
  {
    if b == 0.0 then NaN else Value(a / b)
  }

  /** The share of a word among the counts of a table: a frequency in [0, 1], zero exactly for a
      word never counted, and NaN for a table without counts. */
  ghost function Share(t: Table, w: string): (r: Prob)
    ensures r.NaN? <==> Sum(t) == 0
    ensures r.Value? ==> 0.0 <= r.p <= 1.0
    ensures r.Value? ==> (r.p == 0.0 <==> Count(t, w) == 0)
    ensures r.Value? && Count(t, w) == Sum(t) ==> r.p == 1.0
  {
    assert Count(t, w) <= Sum(t);
    if Sum(t) > 0 then
      Ratios.QuotientRange(Count(t, w) as real, Sum(t) as real);
      Divide(Count(t, w) as real, Sum(t) as real)
    else
      Divide(Count(t, w) as real, Sum(t) as real)
  }

  /** strings.Split(s, " "): the pieces between single spaces, with an empty piece wherever two
      spaces meet or the text starts or ends with one; the empty text gives one empty piece. */
  function Split(s: string): (parts: seq<string>)
    ensures |parts| >= 1
    decreases |s|
  {
    if s == [] then [[]]
    else
      var rest := Split(s[1..]);
      if s[0] == ' ' then [[]] + rest
      else [[s[0]] + rest[0]] + rest[1..]
  }

  /** No piece contains a space. */
  lemma {:induction false} SplitPieces(s: string)
    ensures forall i :: 0 <= i < |Split(s)| ==> ' ' !in Split(s)[i]
    decreases |s|
  {
    if s != [] {
      SplitPieces(s[1..]);
    }
  }

  /** strings.Join(parts, " "). */
  function Join(parts: seq<string>): string
    requires |parts| >= 1
  {
    if |parts| == 1 then parts[0] else parts[0] + [' '] + Join(parts[1..])
  }

  /** Joining the pieces with spaces gives back the text. */
  lemma {:induction false} JoinSplit(s: string)
    ensures Join(Split(s)) == s
    decreases |s|
  {
    if s != [] {
      var rest := Split(s[1..]);
      JoinSplit(s[1..]);
      if s[0] == ' ' {
        assert ([[]] + rest)[1..] == rest;
      } else {
        var parts := [[s[0]] + rest[0]] + rest[1..];
        if |rest| == 1 {
          assert parts == [[s[0]] + rest[0]];
        } else {
          assert parts[1..] == rest[1..];
          assert s == [s[0]] + s[1..];
        }
      }
    }
  }

  /** One training sample: its class and its text. */
  datatype Sample = Sample(spam: bool, text: string)

  /** The table after counting the words one after another. */
  function CountWords(t: Table, words: seq<string>): (r: Table)
    ensures t.Keys <= r.Keys
    ensures Positive(t) ==> Positive(r)
    decreases |words|
  {
    if words == [] then t else CountWords(Bump(t, words[0]), words[1..])
  }

  /** Counting a list of words raises the sum by its length. */
  lemma {:induction false} SumCountWords(t: Table, words: seq<string>)
    ensures Sum(CountWords(t, words)) == Sum(t) + |words|
    decreases |words|
  {
    if words != [] {
      SumBump(t, words[0]);
      SumCountWords(Bump(t, words[0]), words[1..]);
    }
  }

  /** Counting a list of words adds to each word's count its number of occurrences in the list. */
  lemma {:induction false} CountCountWords(t: Table, words: seq<string>, v: string)
    ensures Count(CountWords(t, words), v) == Count(t, v) + multiset(words)[v]
    decreases |words|
  {
    if words != [] {
      var init, w := words[..|words| - 1], words[|words| - 1];
      assert words == init + [w];
      CountWordsAppend(t, init, w);
      CountCountWords(t, init, v);
    }
  }

  /** Counting more words after a prefix continues from the prefix's table. */
  lemma {:induction false} CountWordsAppend(t: Table, words: seq<string>, w: string)
    ensures CountWords(t, words + [w]) == Bump(CountWords(t, words), w)
    decreases |words|
  {
    if words == [] {
      assert CountWords(Bump(t, w), []) == Bump(t, w);
    } else {
      assert (words + [w])[1..] == words[1..] + [w];
      CountWordsAppend(Bump(t, words[0]), words[1..], w);
    }
  }

  /** The table of a class after training on the samples in order. */
  function Trained(samples: seq<Sample>, c: bool): (r: Table)
    ensures Positive(r)
    decreases |samples|
  {
    if samples == [] then map[]
    else
      var before := Trained(samples[..|samples| - 1], c);
      var last := samples[|samples| - 1];
      if last.spam == c then CountWords(before, Split(last.text)) else before
  }

  /** The words of the samples of a class, in training order. */
  function ClassWords(samples: seq<Sample>, c: bool): seq<string>
    decreases |samples|
  {
    if samples == [] then []
    else
      var last := samples[|samples| - 1];
      ClassWords(samples[..|samples| - 1], c) + (if last.spam == c then Split(last.text) else [])
  }

  /** After training, the bag of a class counts every word exactly as often as it occurs among the
      words of that class, and its counts add up to the number of those words. */
  lemma TrainedCounts(samples: seq<Sample>, c: bool)
    ensures Sum(Trained(samples, c)) == |ClassWords(samples, c)|
    ensures forall v :: Count(Trained(samples, c), v) == multiset(ClassWords(samples, c))[v]
  {
    TrainedSum(samples, c);
    forall v
      ensures Count(Trained(samples, c), v) == multiset(ClassWords(samples, c))[v]
    {
      TrainedCount(samples, c, v);
    }
  }

  /** Each training word of the class adds one to the sum of its bag. */
  lemma {:induction false} TrainedSum(samples: seq<Sample>, c: bool)
    ensures Sum(Trained(samples, c)) == |ClassWords(samples, c)|
    decreases |samples|
  {
    if samples != [] {
      var init := samples[..|samples| - 1];
      var last := samples[|samples| - 1];
      TrainedSum(init, c);
      if last.spam == c {
        SumCountWords(Trained(init, c), Split(last.text));
      }
    }
  }

  /** The count of one word in the bag of a class is its number of occurrences among the class's
      training words. */
  lemma {:induction false} TrainedCount(samples: seq<Sample>, c: bool, v: string)
    ensures Count(Trained(samples, c), v) == multiset(ClassWords(samples, c))[v]
    decreases |samples|
  {
    if samples != [] {
      var init := samples[..|samples| - 1];
      var last := samples[|samples| - 1];
      TrainedCount(init, c, v);
      if last.spam == c {
        CountCountWords(Trained(init, c), Split(last.text), v);
      } else {
        assert ClassWords(samples, c) == ClassWords(init, c) + [];
      }
    }
  }

  /** The inner loop of training: count each word of one sample in the bag of its class. */
  method Learn(bowc: BowClass, c: bool, words: seq<string>)
    requires bowc.Valid()
    modifies bowc, bowc.tables.Values
    ensures bowc.Valid()
    ensures bowc.CountsOf(c) == CountWords(old(bowc.CountsOf(c)), words)
    ensures bowc.CountsOf(!c) == old(bowc.CountsOf(!c))
    ensures forall b :: b in bowc.tables.Values ==> b in old(bowc.tables.Values) || fresh(b)
  {
    ghost var start := bowc.CountsOf(c);
    for j := 0 to |words|
      invariant bowc.Valid()
      invariant forall b :: b in bowc.tables.Values ==> b in old(bowc.tables.Values) || fresh(b)
      invariant bowc.CountsOf(c) == CountWords(start, words[..j])
      invariant bowc.CountsOf(!c) == old(bowc.CountsOf(!c))
    {
      assert words[..j + 1] == words[..j] + [words[j]];
      CountWordsAppend(start, words[..j], words[j]);
      bowc.Inc(c, words[j]);
    }
    assert words[..|words|] == words;
  }

  /** The training loop: a fresh BowClass counts every space-separated word of every sample in the
      bag of the sample's class. Together the two classes hold one count per training word. */
  method Train(samples: seq<Sample>) returns (bowc: BowClass)
    ensures fresh(bowc) && bowc.Valid()
    ensures bowc.CountsOf(true) == Trained(samples, true)
    ensures bowc.CountsOf(false) == Trained(samples, false)
    ensures Sum(bowc.CountsOf(true)) + Sum(bowc.CountsOf(false)) == |AllWords(samples)|
  {
    bowc := new BowClass();
    for i := 0 to |samples|
      invariant bowc.Valid()
      invariant forall b :: b in bowc.tables.Values ==> fresh(b)
      invariant bowc.CountsOf(true) == Trained(samples[..i], true)
      invariant bowc.CountsOf(false) == Trained(samples[..i], false)
    {
      var sample := samples[i];
      assert samples[..i + 1][..i] == samples[..i];
      Learn(bowc, sample.spam, Split(sample.text));
    }
    assert samples[..|samples|] == samples;
    TrainedCounts(samples, true);
    TrainedCounts(samples, false);
    ClassWordsBoth(samples);
  }

  /** All the words of all the samples, in training order. */
  function AllWords(samples: seq<Sample>): seq<string>
    decreases |samples|
  {
    if samples == [] then []
    else AllWords(samples[..|samples| - 1]) + Split(samples[|samples| - 1].text)
  }

  /** Every training word belongs to exactly one class. */
  lemma {:induction false} ClassWordsBoth(samples: seq<Sample>)
    ensures |ClassWords(samples, true)| + |ClassWords(samples, false)| == |AllWords(samples)|
    decreases |samples|
  {
    if samples != [] {
      ClassWordsBoth(samples[..|samples| - 1]);
    }
  }

  /** One step of Bayes' rule: prior * pc / (prior * pc + (1 - prior) * po), where pc is the share
      of the word in the class and po its share in the other class. A NaN operand makes the result
      NaN; with a prior in [0, 1] and shares that are not negative, a zero denominator forces a zero
      numerator, which is 0/0. */
  function Update(prior: Prob, pc: Prob, po: Prob): (r: Prob)
    requires prior.Value? ==> 0.0 <= prior.p <= 1.0
    requires pc.Value? ==> pc.p >= 0.0
    requires po.Value? ==> po.p >= 0.0
    ensures r.NaN? <==>
      (prior.NaN? || pc.NaN? || po.NaN? || prior.p * pc.p + (1.0 - prior.p) * po.p == 0.0)
    ensures r.Value? ==> 0.0 <= r.p <= 1.0
    ensures r.Value? ==> r.p * (prior.p * pc.p + (1.0 - prior.p) * po.p) == prior.p * pc.p
    ensures prior.Value? && r.Value? && pc == po ==> r == prior
  {
    if prior.NaN? || pc.NaN? || po.NaN? then NaN
    else
      var x, a, b := prior.p, pc.p, po.p;
      var numerator := x * a;
      var denominator := x * a + (1.0 - x) * b;
      WeightsNonNegative(x, a, b);
      BayesRange(numerator, denominator, a, b, x);
      Divide(numerator, denominator)
  }

  lemma WeightsNonNegative(x: real, pc: real, po: real)
    requires 0.0 <= x <= 1.0 && pc >= 0.0 && po >= 0.0
    ensures x * pc >= 0.0 && (1.0 - x) * po >= 0.0
  {
  }

  lemma BayesRange(numerator: real, denominator: real, pc: real, po: real, x: real)
    requires numerator == x * pc && denominator == x * pc + (1.0 - x) * po
    requires 0.0 <= x <= 1.0 && pc >= 0.0 && po >= 0.0
    ensures denominator != 0.0 ==> 0.0 <= numerator / denominator <= 1.0
    ensures denominator != 0.0 && pc == po ==> numerator / denominator == x
  {
    WeightsNonNegative(x, pc, po);
    if denominator != 0.0 {
      var q := numerator / denominator;
      assert q * denominator == numerator;
      if pc == po {
        assert denominator == pc;
      }
    }
  }

  /** The words of a query that were seen in training, in either class. */
  predicate Known(mine: Table, other: Table, w: string) {
    w in mine || w in other
  }

  /** The posterior fold for one class: start at 0.5 and apply Bayes' rule for every known word of
      the query, in order, with the shares in this class and in the other one. */
  ghost function Fold(mine: Table, other: Table, words: seq<string>): (r: Prob)
    ensures r.Value? ==> 0.0 <= r.p <= 1.0
    decreases |words|
  {
    if words == [] then Value(0.5)
    else
      var before := Fold(mine, other, words[..|words| - 1]);
      var w := words[|words| - 1];
      if !Known(mine, other, w) then before
      else Update(before, Share(mine, w), Share(other, w))
  }

  /** The known words of a query, in order. */
  function KnownWords(mine: Table, other: Table, words: seq<string>): (ks: seq<string>)
    ensures forall i :: 0 <= i < |ks| ==> Known(mine, other, ks[i])
    decreases |words|
  {
    if words == [] then []
    else
      var ks := KnownWords(mine, other, words[..|words| - 1]);
      if Known(mine, other, words[|words| - 1]) then ks + [words[|words| - 1]] else ks
  }

  /** Unknown words do not move the posterior: the fold over a query is the fold over its known
      words alone, and a query without known words keeps the prior 0.5. */
  lemma {:induction false} FoldKnownOnly(mine: Table, other: Table, words: seq<string>)
    ensures Fold(mine, other, words) == Fold(mine, other, KnownWords(mine, other, words))
    ensures KnownWords(mine, other, words) == [] ==> Fold(mine, other, words) == Value(0.5)
    decreases |words|
  {
    if words != [] {
      var init := words[..|words| - 1];
      var w := words[|words| - 1];
      FoldKnownOnly(mine, other, init);
      var ks := KnownWords(mine, other, init);
      if Known(mine, other, w) {
        assert (ks + [w])[..|ks|] == ks;
      }
    }
  }

  /** The ham fold is the spam fold's complement: at every step the posterior of the other class is
      one minus this one, and both become NaN together. */
  lemma {:induction false} FoldComplement(mine: Table, other: Table, words: seq<string>)
    ensures Fold(mine, other, words).NaN? <==> Fold(other, mine, words).NaN?
    ensures Fold(mine, other, words).Value? ==>
      Fold(other, mine, words) == Value(1.0 - Fold(mine, other, words).p)
    decreases |words|
  {
    if words != [] {
      var init := words[..|words| - 1];
      var w := words[|words| - 1];
      FoldComplement(mine, other, init);
      var a := Fold(mine, other, init);
      if Known(mine, other, w) && a.Value? {
        UpdateComplement(a.p, Share(mine, w), Share(other, w));
      }
    }
  }

  /** Bayes' rule for the complement: updating 1 - x with the shares swapped gives one minus the
      update of x, and one is NaN exactly when the other is. */
  lemma UpdateComplement(x: real, pc: Prob, po: Prob)
    requires 0.0 <= x <= 1.0
    requires pc.Value? ==> pc.p >= 0.0
    requires po.Value? ==> po.p >= 0.0
    ensures Update(Value(x), pc, po).NaN? <==> Update(Value(1.0 - x), po, pc).NaN?
    ensures Update(Value(x), pc, po).Value? ==>
      Update(Value(1.0 - x), po, pc) == Value(1.0 - Update(Value(x), pc, po).p)
  {
    UpdateComplementNaN(x, pc, po);
    UpdateComplementValue(x, pc, po);
  }

  /** The NaN half of UpdateComplement. */
  lemma UpdateComplementNaN(x: real, pc: Prob, po: Prob)
    requires 0.0 <= x <= 1.0
    requires pc.Value? ==> pc.p >= 0.0
    requires po.Value? ==> po.p >= 0.0
    ensures Update(Value(x), pc, po).NaN? <==> Update(Value(1.0 - x), po, pc).NaN?
  {
    if pc.Value? && po.Value? {
      ComplementQuotient(x, pc.p, po.p);
    }
  }

  /** The value half of UpdateComplement. */
  lemma UpdateComplementValue(x: real, pc: Prob, po: Prob)
    requires 0.0 <= x <= 1.0
    requires pc.Value? ==> pc.p >= 0.0
    requires po.Value? ==> po.p >= 0.0
    ensures Update(Value(x), pc, po).Value? ==>
      Update(Value(1.0 - x), po, pc) == Value(1.0 - Update(Value(x), pc, po).p)
  {
    if pc.Value? && po.Value? {
      ComplementQuotient(x, pc.p, po.p);
    }
  }

  /** The arithmetic of UpdateComplement: both updates share one denominator, and their quotients
      add up to one. */
  lemma ComplementQuotient(x: real, a: real, b: real)
    ensures (1.0 - x) * b + (1.0 - (1.0 - x)) * a == x * a + (1.0 - x) * b
    ensures x * a + (1.0 - x) * b != 0.0 ==>
      (1.0 - x) * b / (x * a + (1.0 - x) * b) == 1.0 - x * a / (x * a + (1.0 - x) * b)
  {
    var d := x * a + (1.0 - x) * b;
    if d != 0.0 {
      Ratios.DivAdd(x * a, (1.0 - x) * b, d);
      Ratios.SelfQuotient(d);
    }
  }

  /** A class without any counts makes its shares NaN, so as soon as the query holds a word seen in
      training both posteriors are NaN. */
  lemma {:induction false} FoldEmptyClass(mine: Table, other: Table, words: seq<string>)
    requires Sum(mine) == 0 || Sum(other) == 0
    ensures KnownWords(mine, other, words) != [] ==> Fold(mine, other, words).NaN?
    decreases |words|
  {
    if words != [] {
      FoldEmptyClass(mine, other, words[..|words| - 1]);
    }
  }

  /** The posterior fold of the test for one class (the spam fold with cls true, the ham fold with
      cls false): skip words seen in neither class, and otherwise update the posterior with the
      word's shares in the class and in the other class. */
  method Posterior(bowc: BowClass, cls: bool, text: string) returns (pr: Prob)
    requires bowc.Valid()
    ensures pr == Fold(bowc.CountsOf(cls), bowc.CountsOf(!cls), Split(text))
  {
    ghost var mine, other := bowc.CountsOf(cls), bowc.CountsOf(!cls);
    pr := Value(0.5);
    var words := Split(text);
    for i := 0 to |words|
      invariant pr == Fold(mine, other, words[..i])
    {
      assert words[..i + 1][..i] == words[..i];
      var w := words[i];
      if !bowc.Has(w) {
        continue;
      }
      var pc := bowc.Proportion(cls, w);
      var po := bowc.Proportion(!cls, w);
      pr := Update(pr, pc, po);
    }
    assert words[..|words|] == words;
  }

  /** The training samples of the toy case. */
  function ToySamples(): seq<Sample> {
    [Sample(true, "send me your password"),
     Sample(false, "send me your picture"),
     Sample(true, "what is your password"),
     Sample(false, "what is your name")]
  }

  /** The query of the toy case. */
  function ToyQuery(): string {
    "what is your password"
  }

  /** A text without spaces is a single piece. */
  lemma {:induction false} SplitWordOnly(wd: string)
    requires ' ' !in wd
    ensures Split(wd) == [wd]
    decreases |wd|
  {
    if wd != [] {
      SplitWordOnly(wd[1..]);
      assert [wd[0]] + wd[1..] == wd;
    }
  }

  /** A leading word followed by a space splits off as the first piece. */
  lemma {:induction false} SplitWordFirst(wd: string, rest: string)
    requires ' ' !in wd
    ensures Split(wd + [' '] + rest) == [wd] + Split(rest)
    decreases |wd|
  {
    var s := wd + [' '] + rest;
    if wd == [] {
      assert s[1..] == rest;
    } else {
      assert s[1..] == wd[1..] + [' '] + rest;
      SplitWordFirst(wd[1..], rest);
      assert [wd[0]] + wd[1..] == wd;
    }
  }

  /** Two, three and four words separated by single spaces split into those words. */
  lemma SplitTwo(c: string, d: string)
    requires ' ' !in c && ' ' !in d
    ensures Split(c + [' '] + d) == [c, d]
  {
    SplitWordOnly(d);
    SplitWordFirst(c, d);
  }

  lemma SplitThree(b: string, c: string, d: string)
    requires ' ' !in b && ' ' !in c && ' ' !in d
    ensures Split(b + [' '] + (c + [' '] + d)) == [b, c, d]
  {
    SplitTwo(c, d);
    SplitWordFirst(b, c + [' '] + d);
  }

  lemma SplitFour(a: string, b: string, c: string, d: string)
    requires ' ' !in a && ' ' !in b && ' ' !in c && ' ' !in d
    ensures Split(a + [' '] + (b + [' '] + (c + [' '] + d))) == [a, b, c, d]
  {
    SplitThree(b, c, d);
    SplitWordFirst(a, b + [' '] + (c + [' '] + d));
  }

  /** The words of the four toy texts, one text at a time. */
  lemma ToySplits()
    ensures Split("send me your password") == ["send", "me", "your", "password"]
    ensures Split("send me your picture") == ["send", "me", "your", "picture"]
    ensures Split("what is your password") == ["what", "is", "your", "password"]
    ensures Split("what is your name") == ["what", "is", "your", "name"]
  {
    ToyWords0();
    ToyWords1();
    ToyWords2();
    ToyWords3();
  }

  lemma ToyWords0()
    ensures Split("send me your password") == ["send", "me", "your", "password"]
  {
    SplitFour("send", "me", "your", "password");
    assert "send me your password" == "send" + [' '] + ("me" + [' '] + ("your" + [' '] + "password"));
  }

  lemma ToyWords1()
    ensures Split("send me your picture") == ["send", "me", "your", "picture"]
  {
    SplitFour("send", "me", "your", "picture");
    assert "send me your picture" == "send" + [' '] + ("me" + [' '] + ("your" + [' '] + "picture"));
  }

  lemma ToyWords2()
    ensures Split("what is your password") == ["what", "is", "your", "password"]
  {
    SplitFour("what", "is", "your", "password");
    assert "what is your password" == "what" + [' '] + ("is" + [' '] + ("your" + [' '] + "password"));
  }

  lemma ToyWords3()
    ensures Split("what is your name") == ["what", "is", "your", "name"]
  {
    SplitFour("what", "is", "your", "name");
    assert "what is your name" == "what" + [' '] + ("is" + [' '] + ("your" + [' '] + "name"));
  }

  /** One more sample adds its words to its own class only. */
  lemma ClassWordsSnoc(samples: seq<Sample>, x: Sample, c: bool)
    ensures ClassWords(samples + [x], c)
      == ClassWords(samples, c) + (if x.spam == c then Split(x.text) else [])
  {
    assert (samples + [x])[..|samples|] == samples;
  }

  /** The class words of samples of the classes spam, ham, spam, ham, in that order. */
  lemma ClassWordsFour(t0: string, t1: string, t2: string, t3: string)
    ensures ClassWords([Sample(true, t0), Sample(false, t1), Sample(true, t2), Sample(false, t3)], true)
      == Split(t0) + Split(t2)
    ensures ClassWords([Sample(true, t0), Sample(false, t1), Sample(true, t2), Sample(false, t3)], false)
      == Split(t1) + Split(t3)
  {
    var p1 := [Sample(true, t0)];
    var p2 := p1 + [Sample(false, t1)];
    var p3 := p2 + [Sample(true, t2)];
    var p4 := p3 + [Sample(false, t3)];
    assert p4 == [Sample(true, t0), Sample(false, t1), Sample(true, t2), Sample(false, t3)];
    assert ClassWords(p1, true) == Split(t0) && ClassWords(p1, false) == [] by {
      ClassWordsSnoc([], Sample(true, t0), true);
      ClassWordsSnoc([], Sample(true, t0), false);
      assert [] + [Sample(true, t0)] == p1;
    }
    assert ClassWords(p2, true) == Split(t0) && ClassWords(p2, false) == Split(t1) by {
      ClassWordsSnoc(p1, Sample(false, t1), true);
      ClassWordsSnoc(p1, Sample(false, t1), false);
    }
    assert ClassWords(p3, true) == Split(t0) + Split(t2) && ClassWords(p3, false) == Split(t1) by {
      ClassWordsSnoc(p2, Sample(true, t2), true);
      ClassWordsSnoc(p2, Sample(true, t2), false);
    }
    ClassWordsSnoc(p3, Sample(false, t3), true);
    ClassWordsSnoc(p3, Sample(false, t3), false);
  }

  /** The words of the spam texts and of the ham texts of the toy case. */
  lemma ToyClassWords()
    ensures ClassWords(ToySamples(), true) == ["send", "me", "your", "password"] + ["what", "is", "your", "password"]
    ensures ClassWords(ToySamples(), false) == ["send", "me", "your", "picture"] + ["what", "is", "your", "name"]
  {
    ToySplits();
    ClassWordsFour("send me your password", "send me your picture", "what is your password", "what is your name");
  }

  /** Eight words in each class: "what" and "is" once in both, "your" twice in both, and
      "password" twice in spam and never in ham. */
  lemma ToyOccurrences(spam: seq<string>, ham: seq<string>)
    requires spam == ["send", "me", "your", "password"] + ["what", "is", "your", "password"]
    requires ham == ["send", "me", "your", "picture"] + ["what", "is", "your", "name"]
    ensures |spam| == 8 && |ham| == 8
    ensures multiset(spam)["what"] == 1 && multiset(ham)["what"] == 1
    ensures multiset(spam)["is"] == 1 && multiset(ham)["is"] == 1
    ensures multiset(spam)["your"] == 2 && multiset(ham)["your"] == 2
    ensures multiset(spam)["password"] == 2 && multiset(ham)["password"] == 0
  {
  }

  /** The fold over one more word. */
  lemma FoldSnoc(mine: Table, other: Table, words: seq<string>, w: string)
    ensures Fold(mine, other, words + [w])
      == if Known(mine, other, w) then Update(Fold(mine, other, words), Share(mine, w), Share(other, w))
         else Fold(mine, other, words)
  {
    assert (words + [w])[..|words|] == words;
  }

  /** On bags with the counts of the toy case the spam fold over the toy query ends at 1 and the
      ham fold at 0: "what", "is" and "your" are equally frequent in both classes and leave 0.5
      alone, and "password" never occurs in ham. */
  lemma ToyBagsFold(spam: Table, ham: Table)
    requires Sum(spam) == 8 && Sum(ham) == 8
    requires Count(spam, "what") == 1 && Count(ham, "what") == 1
    requires Count(spam, "is") == 1 && Count(ham, "is") == 1
    requires Count(spam, "your") == 2 && Count(ham, "your") == 2
    requires Count(spam, "password") == 2 && Count(ham, "password") == 0
    ensures Fold(spam, ham, ["what", "is", "your", "password"]) == Value(1.0)
    ensures Fold(ham, spam, ["what", "is", "your", "password"]) == Value(0.0)
  {
    var q3 := ["what", "is", "your"];
    var q4 := q3 + ["password"];
    assert q4 == ["what", "is", "your", "password"];
    ToyBagsShared(spam, ham);
    FoldSnoc(spam, ham, q3, "password");
    assert Share(spam, "password") == Value(2.0 / 8.0) && Share(ham, "password") == Value(0.0);
    assert Fold(spam, ham, q4) == Update(Value(0.5), Value(2.0 / 8.0), Value(0.0));
    FoldComplement(spam, ham, q4);
  }

  /** The three words the toy bags share in equal proportion leave the prior of 0.5 alone. */
  lemma ToyBagsShared(spam: Table, ham: Table)
    requires Sum(spam) == 8 && Sum(ham) == 8
    requires Count(spam, "what") == 1 && Count(ham, "what") == 1
    requires Count(spam, "is") == 1 && Count(ham, "is") == 1
    requires Count(spam, "your") == 2 && Count(ham, "your") == 2
    ensures Fold(spam, ham, ["what", "is", "your"]) == Value(0.5)
  {
    var q1 := [] + ["what"];
    var q2 := q1 + ["is"];
    var q3 := q2 + ["your"];
    assert q3 == ["what", "is", "your"];
    FoldSnoc(spam, ham, [], "what");
    assert Share(spam, "what") == Value(1.0 / 8.0) == Share(ham, "what");
    assert Fold(spam, ham, q1) == Value(0.5);
    FoldSnoc(spam, ham, q1, "is");
    assert Share(spam, "is") == Value(1.0 / 8.0) == Share(ham, "is");
    assert Fold(spam, ham, q2) == Value(0.5);
    FoldSnoc(spam, ham, q2, "your");
    assert Share(spam, "your") == Value(2.0 / 8.0) == Share(ham, "your");
  }

  /** The toy case as the test runs it: the bags trained on its four samples and the words of its
      query give a spam posterior of 1 and a ham posterior of 0. */
  lemma ToyFold()
    ensures Fold(Trained(ToySamples(), true), Trained(ToySamples(), false), Split(ToyQuery())) == Value(1.0)
    ensures Fold(Trained(ToySamples(), false), Trained(ToySamples(), true), Split(ToyQuery())) == Value(0.0)
  {
    var spam, ham := ClassWords(ToySamples(), true), ClassWords(ToySamples(), false);
    TrainedCounts(ToySamples(), true);
    TrainedCounts(ToySamples(), false);
    ToyClassWords();
    ToyOccurrences(spam, ham);
    ToyWords2();
    ToyBagsFold(Trained(ToySamples(), true), Trained(ToySamples(), false));
  }

  /** The toy case end to end: train, then fold for spam and for ham. */
  method SpamFilteringToy() returns (pSpam: Prob, pHam: Prob)
    ensures pSpam == Value(1.0)
    ensures pHam == Value(0.0)
  {
    var bowc := Train(ToySamples());
    ToyFold();
    pSpam := Posterior(bowc, true, ToyQuery());
    pHam := Posterior(bowc, false, ToyQuery());
  }
}
