# Probability playground in Dafny

This project models the simulations and small estimators of
probability-playground, a Go repository of Monte Carlo experiments and a naive
Bayes spam filter, and proves what each of them computes:

- **Between** — the tolerance check `between(value, min, max, epsilon)`: the
  value, widened by epsilon on both sides, must reach into the band.
- **CoinToss** — the coin-toss loop: a draw at or below 0.5 is a head, and the
  two estimates are the counts divided by the number of draws.
- **Autoscaling** — the CPU auto-scaling rule: `Range.Contains`, `CPUScale`,
  `ScaleInstances` (a ceiling of the relative change of instances),
  `toRecommendation`, the five cases of the test table, and the
  instance-update loop of the visualisation.
- **AnomalyDetection** — the sliding-window helpers `onWindow`, `sumH`,
  `avgH`, `changeH`, `normalise` and `expAvg`: which of the newest Y values
  each one reads, in which order, and under which length guard.
- **MechanicalTurk** — the consensus simulation: four decision buckets per
  draw, a vote counter per bucket, `max` as the degree of consensus, the
  degree histogram, and its normalisation into probabilities that sum to one.
- **Birthday** — the Monte Carlo birthday problem: a group counts as a success
  exactly when two of its first k draws share a day, which is forced once k
  exceeds the number of days (pigeonhole).
- **MontyHall** — the Monty Hall game loop: both slices are shuffled in place
  before every game, the host never opens the prize gate, and exactly one of
  the two strategies wins each game, so the two counts add up to the number of
  games.
- **SpamFilter** — the bag-of-words classes `BoW` and `BowClass` (maps updated
  in place), the training loop, and the two posterior folds of Bayes' rule
  over the query words. A fold starts at 0.5 and skips words never seen in
  training. The ham fold is proved to be one minus the spam fold. `bayes_fold.dfy`
  proves the fold equal to the one-shot formula of Bayes' rule. That formula
  takes the product of the known words' proportions in spam and divides it
  by the sum of that product and the ham one. It follows that the order of
  the query words does not change the posterior. On the toy
  case of the test the folds end at 1 for spam and at 0 for ham. The test
  lists 0 and 0 as its expected values but never compares against them.

Randomness becomes input. The uniform draws of the coin toss and of the
Mechanical Turk workers are sequences of reals. The birthday draws are
sequences of days. Each `rand.Shuffle` call is the sequence of swaps it asks
its swap closure to perform, which covers every shuffle the library may
choose. Go's `float64` arithmetic is modelled as exact real arithmetic.
Whole-number float counters (votes, heads, successes, bag-of-words counts)
are natural numbers. The posterior is a `Prob`: a value, or NaN once a 0/0
division has happened, as Go's floats behave.

`ratios.dfy` holds three facts about quotients of reals that the estimators
share.

## Model

| member | source | states |
|---|---|---|
| Between.Max | example/between.go:9 | math.Max: the result is one of the two arguments and at least both |
| Between.Min | example/between.go:10 | math.Min: the result is one of the two arguments and at most both |
| Between.Lower | example/between.go:9 | the lower test value is never below the value, and is value + epsilon exactly for a non-negative epsilon |
| Between.Upper | example/between.go:10 | the upper test value is never above the value, and is value - epsilon exactly for a non-negative epsilon |
| Between.Accepts | example/between.go:8-16 | the check passes iff value + epsilon >= min and value - epsilon <= max (epsilon >= 0); for epsilon <= 0 it passes iff min <= value <= max; a value inside the band always passes |
| Between.AcceptsBand | example/between.go:11 | for any epsilon, the accepted values are exactly [min - max(epsilon, 0), max + max(epsilon, 0)] |
| Between.AcceptsMonotone | example/between.go:8-16 | a larger tolerance never rejects a value a smaller one accepted |
| CoinToss.CountHeads | example/coin_toss_monte_carlo_test.go:13-19 | the number of heads never exceeds the number of draws |
| CoinToss.CountHeadsAppend | example/coin_toss_monte_carlo_test.go:14-18 | one more draw adds one head exactly when it is at most 0.5 |
| CoinToss.CoinTossMonteCarlo | example/coin_toss_monte_carlo_test.go:9-22 | heads + tails is the number of draws and heads is the number of draws <= 0.5; both estimates lie in [0, 1] and add up to 1 |
| CoinToss.ProbabilitiesSum | example/coin_toss_monte_carlo_test.go:21-22 | two counts that add up to n give shares in [0, 1] that add up to one |
| Autoscaling.Range.Contains | example/autoscaling_by_test.go:22-28 | Contains(v) holds iff Min <= v <= Max |
| Autoscaling.Ceil | example/autoscaling_by_test.go:55 | math.Ceil: the least integer at or above x |
| Autoscaling.CeilUnique | example/autoscaling_by_test.go:55 | any integer c with c - 1 < x <= c is the ceiling of x |
| Autoscaling.ScaleInstances | example/autoscaling_by_test.go:53-57 | the result r satisfies r - 1 < instances * utilisation / maintain - instances <= r |
| Autoscaling.ScaleInstancesSign | example/autoscaling_by_test.go:53-57 | over-utilisation asks for at least one more instance, under-utilisation for none more, and the exact level for no change |
| Autoscaling.ScaleInstancesBounded | example/autoscaling_by_test.go:53-57 | with non-negative utilisation the rule never removes more instances than exist |
| Autoscaling.CPUScale | example/autoscaling_by_test.go:42-48 | zero inside the no-op band, otherwise the ScaleInstances change |
| Autoscaling.ToRecommendation | example/autoscaling_by_test.go:64-73 | at most one of ScaleUp and ScaleDown is non-zero and ScaleUp - ScaleDown equals the candidate |
| Autoscaling.RecommendationUnique | example/autoscaling_by_test.go:64-73 | those two properties determine the recommendation uniquely |
| Autoscaling.Recommend | example/autoscaling_by_test.go:158 | the recommendation of a context has net change CPUScale(ctx) and one zero direction |
| Autoscaling.TableScales | example/autoscaling_by_test.go:80-154 | the five table contexts scale by 0, 1, 5, 0 and -5 instances |
| Autoscaling.AutoScalingByTable | example/autoscaling_by_test.go:75-162 | each table case yields its expected recommendation |
| Autoscaling.Step | example/autoscaling_by_test.go:221-224 | one tick sets the utilisation and adds the CPUScale decision to the instances; band and level are kept |
| Autoscaling.Run | example/autoscaling_by_test.go:221-224 | the context after one tick per utilisation keeps the no-op band and the level to maintain, and holds the last utilisation fed |
| Autoscaling.RunNonNegative | example/autoscaling_by_test.go:221-224 | with a positive level to maintain, a non-negative start and non-negative utilisations, the instance count is never negative |
| Autoscaling.Visualize | example/autoscaling_by_test.go:194-244 | the final context is Run over the utilisations; the change recorded at tick i (the plotted series) is CPUScale of the context after ticks 0..i-1 with utilisation i; the instance count is non-negative after every tick and ends at the start plus the sum of the changes |
| AnomalyDetection.Ys | example/anomaly_detecion_test.go:192 | the Y values of a series, element by element |
| AnomalyDetection.Window | example/anomaly_detecion_test.go:190-193 | windowSize + 1 slots: slot t holds the Y of the point windowSize - t from the end, and the last slot stays 0 |
| AnomalyDetection.OnWindow | example/anomaly_detecion_test.go:184-195 | zero for a series shorter than the window; otherwise the callback applied to the last windowSize Y values, oldest first, followed by one zero slot |
| AnomalyDetection.WindowSlide | example/anomaly_detecion_test.go:184-195 | appending a point drops the oldest window value and enters the new Y just before the zero slot |
| AnomalyDetection.SumH | example/anomaly_detecion_test.go:162-172 | the sum of the last windowSize Y values when the last index is at least windowSize, and 0 otherwise |
| AnomalyDetection.AvgH | example/anomaly_detecion_test.go:148-160 | that sum divided by windowSize under the same guard, and 0 otherwise |
| AnomalyDetection.ChangeH | example/anomaly_detecion_test.go:174-182 | from three points on, the change that takes the second last Y to the last Y; 0 for shorter series |
| AnomalyDetection.ChangeHAppend | example/anomaly_detecion_test.go:174-182 | after appending to a series of at least two points the change is the new Y minus the old last Y; shorter series give 0 |
| AnomalyDetection.Squash | example/anomaly_detecion_test.go:199 | 1 - 1/(1 + y) equals y/(1 + y), maps 0 to 0 and non-negative values into [0, 1) |
| AnomalyDetection.SquashSum | example/anomaly_detecion_test.go:205-208 | the callback's accumulator: the squashed values added up; its contract is given by SquashSumZeroSlot and SquashSumBounds |
| AnomalyDetection.SquashSumZeroSlot | example/anomaly_detecion_test.go:190 | the zero slot of the callback array adds nothing to the squashed sum |
| AnomalyDetection.SquashSumBounds | example/anomaly_detecion_test.go:206-208 | squashed non-negative values sum to at least 0 and to less than their count |
| AnomalyDetection.Normalise | example/anomaly_detecion_test.go:197-201 | 0 for an empty series, otherwise the squashed last Y, which lies in [0, 1) when that Y is non-negative |
| AnomalyDetection.ExpAvg | example/anomaly_detecion_test.go:203-212 | 0 for a series shorter than the window, otherwise the mean of the squashed last windowSize values |
| AnomalyDetection.ExpAvgRange | example/anomaly_detecion_test.go:203-212 | for non-negative values that mean lies in [0, 1) |
| MechanicalTurk.Bucket | example/aws_mechanical_turk_probability_of_consensus_monte_carlo_test.go:53-61 | the decision is 0, 1, 2 or 3 according to the quarter of [0, 1] the draw falls in, each quarter closed on the right |
| MechanicalTurk.CountBucket | example/aws_mechanical_turk_probability_of_consensus_monte_carlo_test.go:51-62 | a vote counter never exceeds the number of workers |
| MechanicalTurk.Votes | example/aws_mechanical_turk_probability_of_consensus_monte_carlo_test.go:49-62 | four counters, counter b the number of draws in bucket b, adding up to the number of workers |
| MechanicalTurk.VotesSum | example/aws_mechanical_turk_probability_of_consensus_monte_carlo_test.go:49-62 | the four counters add up to the number of workers |
| MechanicalTurk.MaxOf | example/aws_mechanical_turk_probability_of_consensus_monte_carlo_test.go:78-87 | the running result of max, starting at 0; its contract is MaxOfIsMaximum |
| MechanicalTurk.MaxOfIsMaximum | example/aws_mechanical_turk_probability_of_consensus_monte_carlo_test.go:78-87 | max is at least 0 and at least every element; a positive result, and any result for non-empty non-negative input, is one of the elements |
| MechanicalTurk.Max | example/aws_mechanical_turk_probability_of_consensus_monte_carlo_test.go:78-87 | the loop returns that maximum |
| MechanicalTurk.Degree | example/aws_mechanical_turk_probability_of_consensus_monte_carlo_test.go:64 | the degree of consensus is the largest of the four vote counters: at least each of them and equal to one of them |
| MechanicalTurk.DegreeRange | example/aws_mechanical_turk_probability_of_consensus_monte_carlo_test.go:64-65 | the degree of consensus lies in 0..k, so it indexes the k + 1 counters; with one worker or more it is at least 1 |
| MechanicalTurk.DegreeOfThree | example/aws_mechanical_turk_probability_of_consensus_monte_carlo_test.go:24-27 | with three workers, degree 1 iff all three decisions differ and degree 3 iff all three agree |
| MechanicalTurk.CountDegree | example/aws_mechanical_turk_probability_of_consensus_monte_carlo_test.go:48-66 | a degree counter never exceeds the number of tasks |
| MechanicalTurk.HistogramTotal | example/aws_mechanical_turk_probability_of_consensus_monte_carlo_test.go:44-66 | the k + 1 degree counters add up to the number of tasks |
| MechanicalTurk.HistogramStep | example/aws_mechanical_turk_probability_of_consensus_monte_carlo_test.go:65 | one more task raises the sum of the first m degree counters by one exactly when its degree is below m, and leaves it unchanged otherwise |
| MechanicalTurk.Probabilities | example/aws_mechanical_turk_probability_of_consensus_monte_carlo_test.go:71-73 | the k + 1 counters each divided by the number of tasks; its contract is ProbabilitiesSumToOne |
| MechanicalTurk.ProbabilitiesSumToOne | example/aws_mechanical_turk_probability_of_consensus_monte_carlo_test.go:71-73 | the k + 1 probabilities add up to one |
| MechanicalTurk.CastVotes | example/aws_mechanical_turk_probability_of_consensus_monte_carlo_test.go:49-62 | the inner loop leaves each counter at the number of draws in its bucket |
| MechanicalTurk.Consensus | example/aws_mechanical_turk_probability_of_consensus_monte_carlo_test.go:49-64 | casting a task's votes and taking their max yields its degree of consensus, at most the number of workers |
| MechanicalTurk.Histogram | example/aws_mechanical_turk_probability_of_consensus_monte_carlo_test.go:44-66 | the outer loop leaves counter d at the number of tasks of degree d |
| MechanicalTurk.MTurkMonteCarlo | example/aws_mechanical_turk_probability_of_consensus_monte_carlo_test.go:43-76 | k + 1 probabilities, the one of degree d being the count of tasks with degree d over n, summing to one |
| Birthday.CountSuccesses | example/birthday_problem_calo_test.go:29-44 | the number of successful groups never exceeds the number of groups |
| Birthday.AppendRepeat | example/birthday_problem_calo_test.go:36-42 | a repeat after one more draw is an old repeat or a day already marked |
| Birthday.PrefixRepeat | example/birthday_problem_calo_test.go:39 | breaking at the first repeat is sound: a repeat among the first draws is a repeat of the group |
| Birthday.Pigeonhole | example/birthday_problem_calo_test.go:30-43 | more than n draws among n days always repeat a day |
| Birthday.CountSuccessesExtremes | example/birthday_problem_calo_test.go:26-47 | groups of at most one person never succeed; groups larger than the year always do |
| Birthday.BirthdayProblemMonteCarlo | example/birthday_problem_calo_test.go:26-47 | the estimate is the number of groups whose first k draws repeat a day, over samples; it lies in [0, 1], is 0 for k <= 1 and 1 for k > n |
| MontyHall.Shuffled | example/monty_hall_carlo_test.go:18-24 | the slice after the closure performs the swaps in order keeps its length; ShuffledPermutes proves the multiset is kept |
| MontyHall.ShuffledPermutes | example/monty_hall_carlo_test.go:18-24 | any sequence of swaps keeps the length and the multiset of the slice |
| MontyHall.Swapped | example/monty_hall_carlo_test.go:18-20 | the swap closure: the entries at i and j are exchanged, the length and every other entry are kept; SwapPermutes proves the multiset is kept |
| MontyHall.SwapPermutes | example/monty_hall_carlo_test.go:19 | one swap keeps the multiset |
| MontyHall.Shuffle | example/monty_hall_carlo_test.go:18-20 | the array afterwards is the slice with the swaps applied in order |
| MontyHall.DecisionsInRange | example/monty_hall_carlo_test.go:14 | a permutation of 0, 1, 2 has three distinct entries, each a valid gate |
| MontyHall.GatesShape | example/monty_hall_carlo_test.go:13 | a permutation of 1, 0, 0 holds the prize at exactly one position |
| MontyHall.Play | example/monty_hall_carlo_test.go:26-48 | the selected gate is the first decision; the revealed and switch-to gates are the other two decisions in some order; the host reveals the prize only when the switch-to gate hides it too; sticking wins iff the selected gate hides the prize and switching wins iff the switch-to gate does |
| MontyHall.PlayFair | example/monty_hall_carlo_test.go:36-48 | the host never reveals the prize gate, the chosen, revealed and switch-to gates are distinct, and exactly one of sticking and switching wins |
| MontyHall.PlayGame | example/monty_hall_carlo_test.go:26-48 | the game body reports the stick and switch wins of Play on the current slices |
| MontyHall.ShuffleKeepsGame | example/monty_hall_carlo_test.go:18-24 | after shuffling, the gates still hold one prize and the decisions still order the three gates |
| MontyHall.Tally | example/monty_hall_carlo_test.go:16-49 | the stick and switch successes over the remaining games, each at most the number of games |
| MontyHall.TallyStep | example/monty_hall_carlo_test.go:16-49 | the tally over the games is the first game's wins plus the tally of the rest on the shuffled slices |
| MontyHall.TallyTotal | example/monty_hall_carlo_test.go:16-49 | stick successes plus switch successes equal the number of games |
| MontyHall.PlayGames | example/monty_hall_carlo_test.go:16-49 | the in-place loop returns the tally of its slices and swap schedules, and leaves the slices holding one prize and an order of the three gates |
| MontyHall.MontyHallSwitchGates | example/monty_hall_carlo_test.go:9-50 | starting from [1, 0, 0] and [0, 1, 2], the two counters are the tally, and they add up to n |
| SpamFilter.Count | example/spam_filtering_bayes_test.go:98-104 | the stored count of a word, zero for a word never stored |
| SpamFilter.Bump | example/spam_filtering_bayes_test.go:90-96 | one more occurrence raises the word's count by one, leaves every other count alone and adds the word to the keys |
| SpamFilter.SumRemove | example/spam_filtering_bayes_test.go:106-115 | any word can be added into the total first, so the total does not depend on map order |
| SpamFilter.SumBump | example/spam_filtering_bayes_test.go:90-96 | one more occurrence raises the total by one |
| SpamFilter.Sum | example/spam_filtering_bayes_test.go:106-115 | the total of the counts: 0 for an empty bag, and no single count exceeds it |
| SpamFilter.SumZero | example/spam_filtering_bayes_test.go:106-115 | a bag of positive counts has total zero exactly when it is empty |
| SpamFilter.BoW.constructor | example/spam_filtering_bayes_test.go:123 | a new bag is empty |
| SpamFilter.BoW.Inc | example/spam_filtering_bayes_test.go:90-96 | the counts afterwards are the old counts with the word bumped, and every count stays positive |
| SpamFilter.BoW.Val | example/spam_filtering_bayes_test.go:98-104 | the stored count or 0; in a valid bag 0 means the word is absent |
| SpamFilter.BoW.Total | example/spam_filtering_bayes_test.go:106-115 | the order-independent sum of the counts |
| SpamFilter.BowClass.constructor | example/spam_filtering_bayes_test.go:40 | a new BowClass holds no bag |
| SpamFilter.BowClass.Inc | example/spam_filtering_bayes_test.go:119-126 | afterwards Has(w) holds; the class's counts are bumped at the word, the other class is unchanged, the class gains a bag on first use, and the two bags stay distinct |
| SpamFilter.BowClass.Val | example/spam_filtering_bayes_test.go:128-134 | the count of the word in the class, 0 for a class without a bag |
| SpamFilter.BowClass.Has | example/spam_filtering_bayes_test.go:136-145 | true iff the word was counted in spam or in ham |
| SpamFilter.BowClass.Total | example/spam_filtering_bayes_test.go:147-153 | the total of the class, 0 for a class without a bag |
| SpamFilter.BowClass.Proportion | example/spam_filtering_bayes_test.go:155-157 | the share of the word in the class, NaN for a class without counts |
| SpamFilter.Divide | example/spam_filtering_bayes_test.go:156 | float division: a quotient q with q * b == a for b != 0, and NaN for 0/0 |
| SpamFilter.Share | example/spam_filtering_bayes_test.go:155-157 | NaN iff the class has no counts; otherwise a frequency in [0, 1], zero iff the word was never counted, and one when all of the class's counts belong to this word |
| SpamFilter.Split | example/spam_filtering_bayes_test.go:42 | strings.Split on a single space always yields at least one piece |
| SpamFilter.SplitPieces | example/spam_filtering_bayes_test.go:42 | no piece contains a space |
| SpamFilter.JoinSplit | example/spam_filtering_bayes_test.go:42 | joining the pieces with single spaces gives back the text |
| SpamFilter.CountWords | example/spam_filtering_bayes_test.go:43-45 | counting words keeps every word already present and keeps every count positive |
| SpamFilter.SumCountWords | example/spam_filtering_bayes_test.go:43-45 | counting a list of words raises the total by its length |
| SpamFilter.CountCountWords | example/spam_filtering_bayes_test.go:43-45 | counting a list of words raises each word's count by its number of occurrences in the list |
| SpamFilter.CountWordsAppend | example/spam_filtering_bayes_test.go:43-45 | counting one more word bumps the table reached so far |
| SpamFilter.Trained | example/spam_filtering_bayes_test.go:40-46 | the table of a class after training holds only positive counts, as a BoW does |
| SpamFilter.TrainedSum | example/spam_filtering_bayes_test.go:40-46 | after training, a class's total is its number of training words |
| SpamFilter.TrainedCount | example/spam_filtering_bayes_test.go:40-46 | after training, a word's count in a class is its number of occurrences in that class's texts |
| SpamFilter.TrainedCounts | example/spam_filtering_bayes_test.go:40-46 | both of the above for every word |
| SpamFilter.Learn | example/spam_filtering_bayes_test.go:43-45 | the inner loop counts the sample's words in its class and leaves the other class unchanged |
| SpamFilter.Train | example/spam_filtering_bayes_test.go:40-46 | the trained bags are the per-class tables of the samples, and the two totals add up to the number of training words |
| SpamFilter.ClassWordsBoth | example/spam_filtering_bayes_test.go:41-46 | every training word belongs to exactly one class |
| SpamFilter.Update | example/spam_filtering_bayes_test.go:61 | one Bayes step: NaN exactly when an operand is NaN or the denominator x*pc + (1-x)*po is 0; a value result r lies in [0, 1] and solves r * (x*pc + (1-x)*po) = x*pc; equal shares leave the prior unchanged |
| SpamFilter.BayesRange | example/spam_filtering_bayes_test.go:61 | a non-zero denominator gives a posterior in [0, 1], equal to the prior when both shares agree |
| SpamFilter.Fold | example/spam_filtering_bayes_test.go:53-68 | the posterior after the query's words, when a value, lies in [0, 1] |
| SpamFilter.Known | example/spam_filtering_bayes_test.go:57-59 | the combined Has test: the word is a key of either class; FoldKnownOnly proves that words failing it leave the posterior unchanged |
| SpamFilter.KnownWords | example/spam_filtering_bayes_test.go:57-59 | the query words that survive the !Has skip are all known |
| SpamFilter.FoldKnownOnly | example/spam_filtering_bayes_test.go:56-59 | skipping unknown words changes nothing: the fold equals the fold over the known words, and a query with no known word keeps 0.5 |
| SpamFilter.UpdateComplement | example/spam_filtering_bayes_test.go:61 | updating 1 - x with swapped shares gives one minus the update of x, NaN together |
| SpamFilter.FoldComplement | example/spam_filtering_bayes_test.go:53-81 | the ham posterior is one minus the spam posterior, and NaN exactly when it is |
| SpamFilter.FoldEmptyClass | example/spam_filtering_bayes_test.go:57-61 | if either class has no counts, a query with a known word has a NaN posterior |
| SpamFilter.FoldSnoc | example/spam_filtering_bayes_test.go:56-61 | one more query word updates the fold if known and leaves it alone otherwise |
| SpamFilter.Posterior | example/spam_filtering_bayes_test.go:53-81 | the posterior loop of the test, for either class, returns the fold over the words of the query |
| BayesFold.Factor | example/spam_filtering_bayes_test.go:155-157 | the factor a query word contributes to a class's likelihood is never negative |
| BayesFold.ShareFactor | example/spam_filtering_bayes_test.go:155-157 | for a word that passes Has, its Proportion in a class with counts is a value: its factor |
| BayesFold.LikelihoodSnoc | example/spam_filtering_bayes_test.go:56-61 | one more query word multiplies a class's likelihood by that word's factor |
| BayesFold.LikelihoodNonNegative | example/spam_filtering_bayes_test.go:56-61 | a class's likelihood, the product of its factors, is never negative |
| BayesFold.UnknownStep | example/spam_filtering_bayes_test.go:57-59 | a word that fails Has leaves both likelihoods unchanged |
| BayesFold.Normalised | example/spam_filtering_bayes_test.go:49-51 | Bayes' rule with equal priors from two non-negative likelihoods: NaN exactly when both are zero, otherwise a value in [0, 1] |
| BayesFold.BayesStep | example/spam_filtering_bayes_test.go:61 | with x = A/(A+B), the step's denominator x*a + (1-x)*b is zero exactly when A*a + B*b is, and otherwise the step gives A*a/(A*a + B*b) |
| BayesFold.FoldStep | example/spam_filtering_bayes_test.go:57-61 | a known word takes a posterior in closed form for likelihoods A0, B0 to the closed form for A0*a, B0*b, a and b being the word's proportions |
| BayesFold.KnownFactors | example/spam_filtering_bayes_test.go:57-61 | a known word multiplies each class's likelihood by its Proportion there, and both likelihoods so far are non-negative |
| BayesFold.FoldClosedForm | example/spam_filtering_bayes_test.go:53-61 | with counts in both classes, the sequential fold equals the one-shot Bayes formula: NaN exactly when both likelihoods are zero, otherwise the spam likelihood over the sum of both |
| BayesFold.FactorsPermutation | example/spam_filtering_bayes_test.go:55-56 | queries with the same words, counted with multiplicity, have the same multiset of factors |
| BayesFold.LikelihoodPermutation | example/spam_filtering_bayes_test.go:55-61 | a class's likelihood depends only on the multiset of the query's words |
| BayesFold.KnownWordsEmpty | example/spam_filtering_bayes_test.go:57-59 | a query has no known word exactly when every one of its words fails Has |
| BayesFold.FoldPermutation | example/spam_filtering_bayes_test.go:53-61 | two queries with the same words, counted with multiplicity, give the same posterior, NaN included, whatever the training |
| BayesFold.FoldSwap | example/spam_filtering_bayes_test.go:53-61 | swapping two adjacent query words leaves the posterior unchanged |
| SpamFilter.ToySplits | example/spam_filtering_bayes_test.go:24-31 | the four training texts and the query split into their four words |
| SpamFilter.ToyClassWords | example/spam_filtering_bayes_test.go:24-29 | the spam words of the toy case are those of samples 1 and 3, the ham words those of samples 2 and 4 |
| SpamFilter.ToyOccurrences | example/spam_filtering_bayes_test.go:24-29 | eight words per class; "what" and "is" once in each, "your" twice in each, "password" twice in spam and never in ham |
| SpamFilter.ToyBagsFold | example/spam_filtering_bayes_test.go:53-81 | on bags with those counts, the spam fold over the query ends at 1 and the ham fold at 0 |
| SpamFilter.ToyBagsShared | example/spam_filtering_bayes_test.go:53-68 | the query words "what", "is" and "your", equally frequent in both toy bags, leave the spam posterior at 0.5 |
| SpamFilter.ToyFold | example/spam_filtering_bayes_test.go:23-81 | the bags trained on the toy samples give spam posterior 1 and ham posterior 0 for the toy query |
| SpamFilter.SpamFilteringToy | example/spam_filtering_bayes_test.go:23-84 | the toy case end to end: train, then fold, giving pSpam = 1 and pHam = 0 |

## Left out

- Randomness: `rand.Float32`, `rand.Intn` and `rand.Shuffle` are replaced by input sequences, and `rand.Seed` is dropped. The band checks on the estimates are statistical and are not modelled.
- Floating point: `float64` is modelled as exact reals, without rounding, infinities or `float32` draws. NaN is modelled only for the 0/0 of the spam filter.
- Integer width: Go's `int` is unbounded here. The `uint` conversions in toRecommendation cannot overflow for the values the model admits.
- Reporting and output: `t.Logf`, `t.Errorf`, the plots, the PNG files and the `gonumutil` tick marker are left out. `between` returns its verdict as a boolean.
- The instance-change inputs of the visualisation loop are arbitrary non-negative utilisations, not the fixed schedule 80, 91, 90, ... of the test.
- The closed-form birthday formulas (`birthdayProblemTheoretical`, `birthdayProblemTheoretical2`, built on `math.Log`, `math.Exp` and `math.Lgamma`) and the binomial-distribution file are not part of this model.
- The anomaly test body is not modelled: it plots `math.Abs(math.Sin(...))` points with random noise. Only its helpers are.
- The mechanical-turk plot test, which calls `mTurkMonteCarlo` for 0 to 36 workers and draws the results, is not modelled.
- BoW.Total: Go ranges over the map in an unspecified order. The model sums by picking any remaining key and proves the sum does not depend on that choice.
- MontyHall.Shuffle: `rand.Shuffle` is modelled by the swap sequence it performs, not by its Fisher–Yates choice of swaps. Every permutation is therefore possible, but the uniform distribution is not modelled.
- Birthday.BirthdayProblemMonteCarlo: requires samples > 0, because Go returns NaN (0/0) for zero samples. The draws of a group after the first repeat are not consumed from the random source.
- MechanicalTurk.MTurkMonteCarlo, Birthday.BirthdayProblemMonteCarlo: the counts are natural numbers, while Go takes signed `int`s. In `mTurkMonteCarlo`, k = -1 makes an empty slice whose first increment panics, k < -1 panics in `make`, and n < 0 returns negative zeros. In `birthdayProblemMonteCarlo`, n < 0 panics in `make` once a group is drawn, and a negative samples or k skips the loops. No caller passes negative values.
- MechanicalTurk.MTurkMonteCarlo: requires n > 0, because Go returns NaN (0/0) for every degree when there are no tasks.
- CoinToss.CoinTossMonteCarlo: requires at least one draw. The test fixes n = 1000, and zero draws would give 0/0.
- AnomalyDetection.AvgH: a zero window over a non-empty series divides 0 by 0 in Go, so that case is excluded.
- AnomalyDetection.ExpAvg: requires a positive window, because a zero window gives 0/0 in Go. Values of -1, the pole of the squashing map, are excluded in the window.
- AnomalyDetection.Normalise: a last value of -1 gives 1 - 1/0 (minus infinity) in Go, so that case is excluded.
- AnomalyDetection.OnWindow, AnomalyDetection.SumH, AnomalyDetection.AvgH, AnomalyDetection.ExpAvg: the window size is a natural number, while Go takes a signed `int`. For a negative window Go's `sumH` and `avgH` return 0, `onWindow(-1, ...)` calls the callback on an empty slice, and smaller windows make `make` panic. No caller passes a negative window.
- AnomalyDetection.OnWindow: the Go callback receives a variadic slice. It is modelled as a partial function on the window sequence.
- Autoscaling.CPUScale: requires a non-zero level to maintain outside the no-op band. Go would divide by zero and convert an infinity or NaN to `int`, which is implementation-defined.
- Autoscaling.ScaleInstances: the truncating `int(...)` conversion is exact because its argument is already whole, once `math.Ceil` has been applied.
- SpamFilter: `strings.Split` is modelled for the single-space separator only, the one the test uses. The `useCases` map of the test holds one case, and its iteration order is irrelevant.
- BayesFold.FoldClosedForm: requires counts in both classes, since a class's proportions are only defined then. When a class is empty, FoldEmptyClass shows the posterior is NaN as soon as a query word is known.
- SpamFilter.Fold: infinities cannot arise, because counts are never negative and a class with no counts has a zero count for every word. NaN is the only special value needed.
