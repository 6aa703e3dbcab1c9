// The Monty Hall simulation: before every game the prize (the 1 among three
// gates) and the player's order of preference over the gates are shuffled in
// place; the player picks the first gate of that order, the host opens another
// gate without the prize, and the player either sticks or switches to the gate
// left closed. The random shuffles are an input: each shuffle is the list of
// swaps that rand.Shuffle asks its swap closure to perform.
module MontyHall {

  /** All swap positions lie inside a slice of the given length. */
  predicate SwapsIn(swaps: seq<(nat, nat)>, len: nat) {
    forall t :: 0 <= t < |swaps| ==> swaps[t].0 < len && swaps[t].1 < len
  }

  /** The swap closure: exchange the entries at i and j. */
  function Swapped(s: seq<int>, i: nat, j: nat): (r: seq<int>)
    requires i < |s| && j < |s|
    ensures |r| == |s| && r[i] == s[j] && r[j] == s[i]
    ensures forall t :: 0 <= t < |s| && t != i && t != j ==> r[t] == s[t]
  {
    s[i := s[j]][j := s[i]]
  }

  /** The slice after the closure has performed the given swaps in order. */
  function Shuffled(s: seq<int>, swaps: seq<(nat, nat)>): (r: seq<int>)
    requires SwapsIn(swaps, |s|)
    ensures |r| == |s|
    decreases |swaps|
  {
    if swaps == [] then s
    else
      var s' := Swapped(s, swaps[0].0, swaps[0].1);
      assert forall t :: 0 <= t < |swaps[1..]| ==> swaps[1..][t] == swaps[t + 1];
      Shuffled(s', swaps[1..])
  }

  /** The closure only exchanges two entries, so a shuffle keeps the length and permutes the
      contents. */
  lemma {:induction false} ShuffledPermutes(s: seq<int>, swaps: seq<(nat, nat)>)
    requires SwapsIn(swaps, |s|)
    ensures |Shuffled(s, swaps)| == |s|
    ensures multiset(Shuffled(s, swaps)) == multiset(s)
    decreases |swaps|
  {
    if swaps != [] {
      var (i, j) := swaps[0];
      var s' := Swapped(s, i, j);
      assert forall t :: 0 <= t < |swaps[1..]| ==> swaps[1..][t] == swaps[t + 1];
      ShuffledPermutes(s', swaps[1..]);
      SwapPermutes(s, i, j);
    }
  }

  lemma SwapPermutes(s: seq<int>, i: nat, j: nat)
    requires i < |s| && j < |s|
    ensures multiset(Swapped(s, i, j)) == multiset(s)
  {
    var t := s[i := s[j]];
    assert multiset(t) == multiset(s) - multiset{s[i]} + multiset{s[j]};
    assert multiset(t[j := s[i]]) == multiset(t) - multiset{t[j]} + multiset{s[i]};
  }

  /** rand.Shuffle over a slice, with the closure's swaps given in the order it performs them. */
  method Shuffle(a: array<int>, swaps: seq<(nat, nat)>)
    requires SwapsIn(swaps, a.Length)
    modifies a
    ensures a[..] == Shuffled(old(a[..]), swaps)
  {
    for t := 0 to |swaps|
      invariant SwapsIn(swaps[t..], a.Length)
      invariant Shuffled(old(a[..]), swaps) == Shuffled(a[..], swaps[t..])
    {
      var (i, j) := swaps[t];
      assert swaps[t..][1..] == swaps[t + 1..];
      a[i], a[j] := a[j], a[i];
    }
  }

  /** Three gates, exactly one of which (the 1) hides the prize. */
  predicate GatesOk(g: seq<int>) {
    |g| == 3 && multiset(g) == multiset{1, 0, 0}
  }

  /** The player's order of preference: each of the three gate numbers once. */
  predicate DecisionsOk(d: seq<int>) {
    |d| == 3 && multiset(d) == multiset{0, 1, 2}
  }

  /** What one game decides. */
  datatype Game = Game(selected: int, revealed: int, switchTo: int, stickWins: bool, switchWins: bool)

  /** One game: the player selects decisions[0]; of the two remaining gates the host reveals the
      first unless it hides the prize, in which case he reveals the second; switching goes to the
      gate not revealed. */
  function Play(gates: seq<int>, decisions: seq<int>): (g: Game)
    requires |gates| == 3 && |decisions| == 3
    requires forall t :: 0 <= t < 3 ==> 0 <= decisions[t] < 3
    ensures g.selected == decisions[0]
    ensures (g.revealed, g.switchTo) == (decisions[1], decisions[2])
         || (g.revealed, g.switchTo) == (decisions[2], decisions[1])
    ensures gates[g.revealed] == 1 ==> gates[g.switchTo] == 1
    ensures g.stickWins <==> gates[g.selected] == 1
    ensures g.switchWins <==> gates[g.switchTo] == 1
  {
    var selectedGate := decisions[0];
    var remainingDecisions := decisions[1..];
    var swapped := gates[remainingDecisions[0]] == 1;
    var revealedGate := if swapped then remainingDecisions[1] else remainingDecisions[0];
    var switchToGate := if swapped then remainingDecisions[0] else remainingDecisions[1];
    Game(selectedGate, revealedGate, switchToGate, gates[selectedGate] == 1, gates[switchToGate] == 1)
  }

  /** A slice equal as a multiset to {0, 1, 2} and of length 3 is one of the six orders of 0, 1, 2. */
  lemma DecisionsInRange(d: seq<int>)
    requires DecisionsOk(d)
    ensures forall t :: 0 <= t < 3 ==> 0 <= d[t] < 3
    ensures d[0] != d[1] && d[0] != d[2] && d[1] != d[2]
  {
    assert d == [d[0], d[1], d[2]];
    assert multiset(d) == multiset{d[0], d[1], d[2]};
    assert d[0] in multiset(d) && d[1] in multiset(d) && d[2] in multiset(d);
  }

  /** The gates hold one prize: exactly one entry is 1 and the others are 0. */
  lemma GatesShape(g: seq<int>)
    requires GatesOk(g)
    ensures (g[0] == 1 && g[1] == 0 && g[2] == 0) || (g[0] == 0 && g[1] == 1 && g[2] == 0)
         || (g[0] == 0 && g[1] == 0 && g[2] == 1)
  {
    assert g == [g[0], g[1], g[2]];
    assert multiset(g) == multiset{g[0], g[1], g[2]};
    assert g[0] in multiset(g) && g[1] in multiset(g) && g[2] in multiset(g);
  }

  /** With one prize and a true order of preference, the host never reveals the prize (the
      assumption the comment at line 36 of the Monty Hall test states), the selected, revealed
      and switch-to gates are three different gates, and exactly one of sticking and switching
      wins. */
  lemma PlayFair(gates: seq<int>, decisions: seq<int>)
    requires GatesOk(gates) && DecisionsOk(decisions)
    ensures forall t :: 0 <= t < 3 ==> 0 <= decisions[t] < 3
    ensures gates[Play(gates, decisions).revealed] != 1
    ensures Play(gates, decisions).selected != Play(gates, decisions).revealed
    ensures Play(gates, decisions).selected != Play(gates, decisions).switchTo
    ensures Play(gates, decisions).revealed != Play(gates, decisions).switchTo
    ensures Play(gates, decisions).stickWins != Play(gates, decisions).switchWins
  {
    DecisionsInRange(decisions);
    GatesShape(gates);
  }

  /** The body of one game over the two slices: the selected gate wins when it hides the prize;
      otherwise the host reveals the first remaining gate unless it is the prize, and the gate
      left closed is the one a switching player takes. */
  method PlayGame(gates: array<int>, decisions: array<int>) returns (stickWins: bool, switchWins: bool)
    requires gates.Length == 3 && decisions.Length == 3
    requires forall t :: 0 <= t < 3 ==> 0 <= decisions[t] < 3
    ensures stickWins == Play(gates[..], decisions[..]).stickWins
    ensures switchWins == Play(gates[..], decisions[..]).switchWins
  {
    var selectedGate := decisions[0];
    stickWins := gates[selectedGate] == 1;
    var remainingDecisions := decisions[1..];
    var revealedGate := remainingDecisions[0];
    var switchToGate := remainingDecisions[1];
    if gates[revealedGate] == 1 {
      revealedGate := remainingDecisions[1];
      switchToGate := remainingDecisions[0];
    }
    switchWins := gates[switchToGate] == 1;
  }

  /** One shuffle of the gates and one of the decisions per game, each inside the three gates. */
  predicate Schedules(gateSwaps: seq<seq<(nat, nat)>>, decisionSwaps: seq<seq<(nat, nat)>>) {
    |gateSwaps| == |decisionSwaps| &&
    forall i :: 0 <= i < |gateSwaps| ==> SwapsIn(gateSwaps[i], 3) && SwapsIn(decisionSwaps[i], 3)
  }

  /** The games after the first still have their shuffles. */
  lemma SchedulesTail(gateSwaps: seq<seq<(nat, nat)>>, decisionSwaps: seq<seq<(nat, nat)>>)
    requires Schedules(gateSwaps, decisionSwaps) && |gateSwaps| > 0
    ensures SwapsIn(gateSwaps[0], 3) && SwapsIn(decisionSwaps[0], 3)
    ensures Schedules(gateSwaps[1..], decisionSwaps[1..])
  {
    assert forall i :: 0 <= i < |gateSwaps[1..]| ==> gateSwaps[1..][i] == gateSwaps[i + 1];
    assert forall i :: 0 <= i < |decisionSwaps[1..]| ==> decisionSwaps[1..][i] == decisionSwaps[i + 1];
  }

  /** The stick and switch successes of the games that follow, starting from the given slices;
      before each game both slices are shuffled in place. */
  function Tally(gates: seq<int>, decisions: seq<int>, gateSwaps: seq<seq<(nat, nat)>>,
                 decisionSwaps: seq<seq<(nat, nat)>>): (r: (nat, nat))
    requires GatesOk(gates) && DecisionsOk(decisions)
    requires Schedules(gateSwaps, decisionSwaps)
    ensures r.0 <= |gateSwaps| && r.1 <= |gateSwaps|
    decreases |gateSwaps|
  {
    if gateSwaps == [] then (0, 0)
    else
      var g := Shuffled(gates, gateSwaps[0]);
      var d := Shuffled(decisions, decisionSwaps[0]);
      ShuffleKeepsGame(gates, decisions, gateSwaps[0], decisionSwaps[0]);
      SchedulesTail(gateSwaps, decisionSwaps);
      Plus(Wins(Play(g, d)), Tally(g, d, gateSwaps[1..], decisionSwaps[1..]))
  }

  /** The successes one game adds: one for the strategy that wins. */
  function Wins(game: Game): (nat, nat) {
    (if game.stickWins then 1 else 0, if game.switchWins then 1 else 0)
  }

  /** Two pairs of counts added component-wise. */
  function Plus(a: (nat, nat), b: (nat, nat)): (nat, nat) {
    (a.0 + b.0, a.1 + b.1)
  }

  /** One game of the tally: shuffle both slices, play, and count the outcome. */
  lemma TallyStep(gates: seq<int>, decisions: seq<int>, gateSwaps: seq<seq<(nat, nat)>>,
                  decisionSwaps: seq<seq<(nat, nat)>>)
    requires GatesOk(gates) && DecisionsOk(decisions)
    requires Schedules(gateSwaps, decisionSwaps) && |gateSwaps| > 0
    ensures GatesOk(Shuffled(gates, gateSwaps[0])) && DecisionsOk(Shuffled(decisions, decisionSwaps[0]))
    ensures forall t :: 0 <= t < 3 ==> 0 <= Shuffled(decisions, decisionSwaps[0])[t] < 3
    ensures var g, d := Shuffled(gates, gateSwaps[0]), Shuffled(decisions, decisionSwaps[0]);
      Tally(gates, decisions, gateSwaps, decisionSwaps)
        == Plus(Wins(Play(g, d)), Tally(g, d, gateSwaps[1..], decisionSwaps[1..]))
  {
    ShuffleKeepsGame(gates, decisions, gateSwaps[0], decisionSwaps[0]);
    SchedulesTail(gateSwaps, decisionSwaps);
  }

  /** Shuffling keeps one prize among the gates and a true order of preference. */
  lemma ShuffleKeepsGame(gates: seq<int>, decisions: seq<int>, gs: seq<(nat, nat)>, ds: seq<(nat, nat)>)
    requires GatesOk(gates) && DecisionsOk(decisions)
    requires SwapsIn(gs, 3) && SwapsIn(ds, 3)
    ensures GatesOk(Shuffled(gates, gs)) && DecisionsOk(Shuffled(decisions, ds))
    ensures forall t :: 0 <= t < 3 ==> 0 <= Shuffled(decisions, ds)[t] < 3
  {
    ShuffledPermutes(gates, gs);
    ShuffledPermutes(decisions, ds);
    DecisionsInRange(Shuffled(decisions, ds));
  }

  /** In every game exactly one strategy wins, so the two counts add up to the number of games. */
  lemma {:induction false} TallyTotal(gates: seq<int>, decisions: seq<int>, gateSwaps: seq<seq<(nat, nat)>>,
                                      decisionSwaps: seq<seq<(nat, nat)>>)
    requires GatesOk(gates) && DecisionsOk(decisions)
    requires Schedules(gateSwaps, decisionSwaps)
    ensures Tally(gates, decisions, gateSwaps, decisionSwaps).0 + Tally(gates, decisions, gateSwaps, decisionSwaps).1
         == |gateSwaps|
    decreases |gateSwaps|
  {
    if gateSwaps != [] {
      var g := Shuffled(gates, gateSwaps[0]);
      var d := Shuffled(decisions, decisionSwaps[0]);
      SchedulesTail(gateSwaps, decisionSwaps);
      ShuffleKeepsGame(gates, decisions, gateSwaps[0], decisionSwaps[0]);
      PlayFair(g, d);
      TallyTotal(g, d, gateSwaps[1..], decisionSwaps[1..]);
    }
  }

  /** The loop over the games, on the two slices it shuffles in place. */
  method PlayGames(gates: array<int>, decisions: array<int>, gateSwaps: seq<seq<(nat, nat)>>,
                   decisionSwaps: seq<seq<(nat, nat)>>)
    returns (nonSwitchSuccesses: nat, switchSuccesses: nat)
    requires gates != decisions
    requires GatesOk(gates[..]) && DecisionsOk(decisions[..])
    requires Schedules(gateSwaps, decisionSwaps)
    modifies gates, decisions
    ensures (nonSwitchSuccesses, switchSuccesses) == Tally(old(gates[..]), old(decisions[..]), gateSwaps, decisionSwaps)
    ensures GatesOk(gates[..]) && DecisionsOk(decisions[..])
  {
    nonSwitchSuccesses, switchSuccesses := 0, 0;
    ghost var total := Tally(gates[..], decisions[..], gateSwaps, decisionSwaps);
    assert gateSwaps[0..] == gateSwaps && decisionSwaps[0..] == decisionSwaps;
    for i := 0 to |gateSwaps|
      invariant GatesOk(gates[..]) && DecisionsOk(decisions[..])
      invariant Schedules(gateSwaps[i..], decisionSwaps[i..])
      invariant total.0 == nonSwitchSuccesses + Tally(gates[..], decisions[..], gateSwaps[i..], decisionSwaps[i..]).0
      invariant total.1 == switchSuccesses + Tally(gates[..], decisions[..], gateSwaps[i..], decisionSwaps[i..]).1
    {
      ghost var g0, d0 := gates[..], decisions[..];
      TallyStep(g0, d0, gateSwaps[i..], decisionSwaps[i..]);
      SchedulesTail(gateSwaps[i..], decisionSwaps[i..]);
      assert gateSwaps[i..][1..] == gateSwaps[i + 1..] && decisionSwaps[i..][1..] == decisionSwaps[i + 1..];
      Shuffle(gates, gateSwaps[i]);
      Shuffle(decisions, decisionSwaps[i]);
      var stickWins, switchWins := PlayGame(gates, decisions);
      if stickWins {
        nonSwitchSuccesses := nonSwitchSuccesses + 1;
      }
      if switchWins {
        switchSuccesses := switchSuccesses + 1;
      }
    }
    assert gateSwaps[|gateSwaps|..] == [] && decisionSwaps[|gateSwaps|..] == [];
    assert Tally(gates[..], decisions[..], [], []) == (0, 0);
    assert total.0 == nonSwitchSuccesses && total.1 == switchSuccesses;
  }

  /** TestMontyHallCarlo_switch_gates without its statistical band checks: n games over the slices
      [1, 0, 0] and [0, 1, 2], shuffled in place before each game. */
  method MontyHallSwitchGates(n: nat, gateSwaps: seq<seq<(nat, nat)>>, decisionSwaps: seq<seq<(nat, nat)>>)
    returns (nonSwitchSuccesses: nat, switchSuccesses: nat)
    requires |gateSwaps| == n && |decisionSwaps| == n
    requires forall i :: 0 <= i < n ==> SwapsIn(gateSwaps[i], 3) && SwapsIn(decisionSwaps[i], 3)
    ensures (nonSwitchSuccesses, switchSuccesses) == Tally([1, 0, 0], [0, 1, 2], gateSwaps, decisionSwaps)
    ensures nonSwitchSuccesses + switchSuccesses == n
  {
    var gates := new int[3](t => if t == 0 then 1 else 0);
    var decisions := new int[3](t => t);
    assert gates[..] == [1, 0, 0] && decisions[..] == [0, 1, 2];
    nonSwitchSuccesses, switchSuccesses := PlayGames(gates, decisions, gateSwaps, decisionSwaps);
    TallyTotal([1, 0, 0], [0, 1, 2], gateSwaps, decisionSwaps);
  }
}
