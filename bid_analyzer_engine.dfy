/**
 * The bidding-strategy engine (`BidAnalyzer`): competitor profiling at
 * construction, the single-price grid search over bid rates and the
 * multi-price strategy search. Every random draw of the original (the
 * number of active competitors, the weighted choice of table rows, the
 * normal win-rate samples, the competitors' price-level picks) is an input,
 * and what is proved holds for every draw.
 */
module BidAnalyzerEngine {
  import opened Wrappers
  import opened Numeric
  import DataHandler
  import opened Profiling
  import opened Subsets
  import opened ValueCounts

  // ===== construction =====

  /** The prepared frame as profiling reads it: bidder and win rate of each row. */
  function RecordsOf(rows: seq<DataHandler.Row>): (records: seq<BidRecord>)
    requires forall r :: r in rows ==> r.bidder.Some? && r.winRate.Some?
    ensures |records| == |rows|
    ensures forall i :: 0 <= i < |rows| ==>
      records[i].bidder == rows[i].bidder.value && records[i].winRate == rows[i].winRate.value
  {
    seq(|rows|, i requires 0 <= i < |rows| => BidRecord(rows[i].bidder.value, rows[i].winRate.value))
  }

  // ===== single preliminary price: the grid search =====

  /** Lower and upper bound of `np.random.randint(5, 15)`, the number of active competitors. */
  const MinActive := 5
  const MaxActiveExclusive := 15

  /**
   * The random draws behind one candidate rate: the competitor-table rows
   * picked by the weighted `sample` (as many as `randint(5, 15)` gave) and,
   * for each, the win rate drawn by `norm.rvs`.
   */
  datatype RateDraw = RateDraw(picks: seq<nat>, sampledWinRates: seq<real>)

  /**
   * A draw the source can make: 5 to 14 rows of the competitor table, one
   * sampled win rate each. `norm.rvs` (line 58) raises on a NaN scale, so
   * every picked competitor must have a defined spread.
   */
  predicate ValidRateDraw(d: RateDraw, stats: seq<CompetitorStat>)
  {
    MinActive <= |d.picks| < MaxActiveExclusive &&
    |d.sampledWinRates| == |d.picks| &&
    forall i :: 0 <= i < |d.picks| ==> d.picks[i] < |stats| && stats[d.picks[i]].winRateVariance.Some?
  }

  /** One row of the single-price result frame. */
  datatype RateResult = RateResult(rate: real, winProbability: real, expectedProfit: real)

  /** The simulated competitor bids (lines 58-61): each sampled win rate times the base price. */
  function CompetitorBids(stats: seq<CompetitorStat>, d: RateDraw, basePrice: real): (bids: seq<real>)
    requires ValidRateDraw(d, stats)
    ensures |bids| == |d.picks| >= MinActive
  {
    seq(|d.picks|, i requires 0 <= i < |d.picks| => d.sampledWinRates[i] * basePrice)
  }

  /** `competitor_bids.max()`: the greatest bid, which is one of the bids. */
  function MaxBid(bids: seq<real>): (top: real)
    requires |bids| > 0
    ensures forall i :: 0 <= i < |bids| ==> bids[i] <= top
    ensures exists i :: 0 <= i < |bids| && bids[i] == top
  {
    if |bids| == 1 then bids[0]
    else
      var prior := MaxBid(bids[..|bids| - 1]);
      var last := bids[|bids| - 1];
      assert forall i :: 0 <= i < |bids| - 1 ==> bids[..|bids| - 1][i] == bids[i];
      if last > prior then last else prior
  }

  /** Line 63: `my_bid > competitor_bids.max()`. */
  predicate OutBids(myBid: real, bids: seq<real>)
    requires |bids| > 0
  {
    myBid > MaxBid(bids)
  }

  /** Own bid beats the maximum exactly when it is strictly above every competitor bid. */
  lemma OutBidsEvery(myBid: real, bids: seq<real>)
    requires |bids| > 0
    ensures OutBids(myBid, bids) <==> forall i :: 0 <= i < |bids| ==> myBid > bids[i]
  {
  }

  /** The outcome of one candidate rate (lines 50-68): one trial, used as the win probability. */
  function RateOutcome(stats: seq<CompetitorStat>, basePrice: real, rate: real, d: RateDraw): RateResult
    requires ValidRateDraw(d, stats)
  {
    var win := if OutBids(basePrice * rate, CompetitorBids(stats, d, basePrice)) then 1.0 else 0.0;
    RateResult(rate, win, (basePrice * rate - basePrice) * win)
  }

  /**
   * The win indicator of a rate is 1 exactly when the own bid, base price
   * times rate, is strictly above every simulated competitor bid, and 0
   * otherwise; the expected profit is the margin over the base price when
   * won and exactly 0 when lost.
   */
  lemma RateOutcomeSpec(stats: seq<CompetitorStat>, basePrice: real, rate: real, d: RateDraw)
    requires ValidRateDraw(d, stats)
    ensures RateOutcome(stats, basePrice, rate, d).rate == rate
    ensures RateOutcome(stats, basePrice, rate, d).winProbability in {0.0, 1.0}
    ensures RateOutcome(stats, basePrice, rate, d).winProbability == 1.0 <==>
      forall i :: 0 <= i < |d.picks| ==> basePrice * rate > CompetitorBids(stats, d, basePrice)[i]
    ensures RateOutcome(stats, basePrice, rate, d).winProbability == 0.0 ==>
      RateOutcome(stats, basePrice, rate, d).expectedProfit == 0.0
    ensures RateOutcome(stats, basePrice, rate, d).winProbability == 1.0 ==>
      RateOutcome(stats, basePrice, rate, d).expectedProfit == basePrice * rate - basePrice
  {
    OutBidsEvery(basePrice * rate, CompetitorBids(stats, d, basePrice));
  }

  /**
   * Every competitor's spread is defined exactly when the history holds at
   * least two records. With a single record every spread is NaN, so no draw
   * is valid: `norm.rvs` would raise on the first rate.
   */
  lemma SpreadsDefinedExactly(records: seq<BidRecord>, d: RateDraw)
    ensures forall i :: 0 <= i < |AnalyzeCompetitors(records)| ==>
      (AnalyzeCompetitors(records)[i].winRateVariance.Some? <==> |records| >= 2)
    ensures |records| < 2 ==> !ValidRateDraw(d, AnalyzeCompetitors(records))
  {
    var stats := AnalyzeCompetitors(records);
    forall i | 0 <= i < |stats| ensures stats[i].winRateVariance.Some? <==> |records| >= 2 {
      SpreadBackfilled(records, i);
    }
    if |records| < 2 && |d.picks| > 0 && d.picks[0] < |stats| {
      assert stats[d.picks[0]].winRateVariance.None?;
    }
  }

  /** `idxmax`: the position of the first maximum. */
  function FirstArgMax(xs: seq<real>): (k: nat)
    requires |xs| > 0
    ensures k < |xs|
    ensures forall j :: 0 <= j < |xs| ==> xs[j] <= xs[k]
    ensures forall j :: 0 <= j < k ==> xs[j] < xs[k]
  {
    if |xs| == 1 then 0
    else
      var k := FirstArgMax(xs[..|xs| - 1]);
      if xs[|xs| - 1] > xs[k] then |xs| - 1 else k
  }

  function Profits(results: seq<RateResult>): (ps: seq<real>)
    ensures |ps| == |results|
    ensures forall i :: 0 <= i < |results| ==> ps[i] == results[i].expectedProfit
  {
    seq(|results|, i requires 0 <= i < |results| => results[i].expectedProfit)
  }

  /** Row `k` has the greatest expected profit, and no earlier row has as much. */
  predicate FirstMostProfitable(results: seq<RateResult>, k: int)
  {
    0 <= k < |results| &&
    (forall j :: 0 <= j < |results| ==> results[j].expectedProfit <= results[k].expectedProfit) &&
    (forall j :: 0 <= j < k ==> results[j].expectedProfit < results[k].expectedProfit)
  }

  // ===== multiple preliminary prices: the strategy search =====

  /** Line 91: N preliminary prices evenly spread over 98%..102% of the base amount. */
  function PrelimPrices(baseAmount: real, n: nat): (prices: seq<real>)
    ensures |prices| == n
  {
    Linspace(baseAmount * 0.98, baseAmount * 1.02, n)
  }

  /** A competitor's `np.random.choice(n, k, replace=False)`: k distinct levels below n. */
  predicate ValidPick(p: seq<nat>, k: nat, n: nat)
  {
    |p| == k &&
    (forall i :: 0 <= i < |p| ==> p[i] < n) &&
    (forall i, j :: 0 <= i < j < |p| ==> p[i] != p[j])
  }

  /** The competitors' picks of every trial of one strategy: `trials[t][c]` is competitor c's in trial t. */
  predicate ValidTrials(trials: seq<seq<seq<nat>>>, simulations: nat, competitors: nat, k: nat, n: nat)
  {
    |trials| == simulations &&
    forall t :: 0 <= t < |trials| ==>
      |trials[t]| == competitors && forall c :: 0 <= c < |trials[t]| ==> ValidPick(trials[t][c], k, n)
  }

  /** Lines 100-103: the own choice followed by every competitor's pick. */
  function TrialChoices(myChoice: seq<nat>, picks: seq<seq<nat>>): seq<nat>
  {
    if picks == [] then myChoice else TrialChoices(myChoice, picks[..|picks| - 1]) + picks[|picks| - 1]
  }

  /** Line 107: the mean price of the selected levels, NaN (None) when none were selected. */
  function FinalBasePrice(prices: seq<real>, top: seq<nat>): Option<real>
    requires forall i :: 0 <= i < |top| ==> top[i] < |prices|
  {
    if top == [] then None else Some(Mean(seq(|top|, i requires 0 <= i < |top| => prices[top[i]])))
  }

  /** Lines 105-107 for one trial. */
  function TrialFinalPrice(prices: seq<real>, myChoice: seq<nat>, picks: seq<seq<nat>>, m: nat): Option<real>
  {
    var top := TopLevels(Tally(TrialChoices(myChoice, picks), |prices|), m);
    TopLevelsBelow(Tally(TrialChoices(myChoice, picks), |prices|), m);
    FinalBasePrice(prices, top)
  }

  lemma TopLevelsBelow(counts: seq<nat>, m: nat)
    ensures forall i :: 0 <= i < |TopLevels(counts, m)| ==> TopLevels(counts, m)[i] < |counts|
  {
    var top := TopLevels(counts, m);
    ValueCountOrderSpec(counts);
    forall i | 0 <= i < |top| ensures top[i] < |counts| {
      assert top[i] in ValueCountOrder(counts);
    }
  }

  /** Line 113: own bid in the half-open interval [0.88 * final, final); never against NaN. */
  predicate TrialWon(myBidPrice: real, finalPrice: Option<real>)
  {
    finalPrice.Some? && myBidPrice >= finalPrice.value * 0.88 && myBidPrice < finalPrice.value
  }

  /**
   * Seen from the final price: the own bid wins exactly when the final price
   * lies in (bid, bid / 0.88], a band that is empty for a bid of 0 or less;
   * a NaN final price is never won.
   */
  lemma TrialWonBand(myBidPrice: real, finalPrice: Option<real>)
    ensures TrialWon(myBidPrice, finalPrice) <==>
      finalPrice.Some? && myBidPrice < finalPrice.value <= myBidPrice / 0.88
    ensures myBidPrice <= 0.0 ==> !TrialWon(myBidPrice, finalPrice)
  {
  }

  /** The realized final prices of a strategy's trials, in trial order. */
  function FinalPrices(prices: seq<real>, myChoice: seq<nat>, trials: seq<seq<seq<nat>>>, m: nat): (finals: seq<Option<real>>)
    ensures |finals| == |trials|
  {
    if trials == [] then []
    else FinalPrices(prices, myChoice, trials[..|trials| - 1], m) + [TrialFinalPrice(prices, myChoice, trials[|trials| - 1], m)]
  }

  function WinCount(myBidPrice: real, finals: seq<Option<real>>): nat
  {
    if finals == [] then 0
    else WinCount(myBidPrice, finals[..|finals| - 1]) + (if TrialWon(myBidPrice, finals[|finals| - 1]) then 1 else 0)
  }

  /** `np.mean(simulated_final_prices)`: NaN (None) as soon as one price is NaN. */
  function AverageFinalPrice(finals: seq<Option<real>>): Option<real>
  {
    if |finals| > 0 && forall i :: 0 <= i < |finals| ==> finals[i].Some? then
      Some(Mean(seq(|finals|, i requires 0 <= i < |finals| => finals[i].value)))
    else None
  }

  /** One row of the multi-price result frame. */
  datatype StrategyResult = StrategyResult(choice: seq<nat>, winProbability: real, avgFinalPrice: Option<real>)

  /** Lines 116-123: a strategy's row from the final prices its trials realized. */
  function OutcomeOf(myChoice: seq<nat>, myBidPrice: real, finals: seq<Option<real>>): StrategyResult
    requires |finals| > 0
  {
    StrategyResult(myChoice, (WinCount(myBidPrice, finals) as real) / (|finals| as real), AverageFinalPrice(finals))
  }

  /** Lines 96-123 for one strategy. */
  function StrategyOutcome(baseAmount: real, myBiddingRate: real, n: nat, m: nat,
                           myChoice: seq<nat>, trials: seq<seq<seq<nat>>>): StrategyResult
    requires |trials| > 0
  {
    OutcomeOf(myChoice, baseAmount * myBiddingRate, FinalPrices(PrelimPrices(baseAmount, n), myChoice, trials, m))
  }

  predicate ValidStrategyDraws(draws: seq<seq<seq<seq<nat>>>>, strategies: nat,
                               simulations: nat, competitors: nat, k: nat, n: nat)
  {
    |draws| == strategies &&
    forall s :: 0 <= s < |draws| ==> ValidTrials(draws[s], simulations, competitors, k, n)
  }

  /** Every strategy simulated at least once: the draws that make each row defined. */
  predicate EveryStrategySimulated(strategies: seq<seq<nat>>, draws: seq<seq<seq<seq<nat>>>>)
  {
    |draws| == |strategies| && forall s :: 0 <= s < |draws| ==> |draws[s]| > 0
  }

  /** The rows of the given strategies, each over its own draws, in order. */
  function StrategyRows(baseAmount: real, myBiddingRate: real, n: nat, m: nat,
                        strategies: seq<seq<nat>>, draws: seq<seq<seq<seq<nat>>>>): (rows: seq<StrategyResult>)
    requires EveryStrategySimulated(strategies, draws)
    ensures |rows| == |strategies|
  {
    if strategies == [] then []
    else
      StrategyRows(baseAmount, myBiddingRate, n, m, strategies[..|strategies| - 1], draws[..|draws| - 1]) +
      [StrategyOutcome(baseAmount, myBiddingRate, n, m, strategies[|strategies| - 1], draws[|draws| - 1])]
  }

  lemma StrategyRowsSnoc(baseAmount: real, myBiddingRate: real, n: nat, m: nat,
                         strategies: seq<seq<nat>>, draws: seq<seq<seq<seq<nat>>>>, s: nat)
    requires EveryStrategySimulated(strategies, draws) && s < |strategies|
    ensures EveryStrategySimulated(strategies[..s], draws[..s])
    ensures EveryStrategySimulated(strategies[..s + 1], draws[..s + 1])
    ensures StrategyRows(baseAmount, myBiddingRate, n, m, strategies[..s + 1], draws[..s + 1]) ==
      StrategyRows(baseAmount, myBiddingRate, n, m, strategies[..s], draws[..s]) +
      [StrategyOutcome(baseAmount, myBiddingRate, n, m, strategies[s], draws[s])]
  {
    assert strategies[..s + 1][..s] == strategies[..s];
    assert draws[..s + 1][..s] == draws[..s];
  }

  lemma {:induction false} StrategyRowsAt(baseAmount: real, myBiddingRate: real, n: nat, m: nat,
                                          strategies: seq<seq<nat>>, draws: seq<seq<seq<seq<nat>>>>, s: nat)
    requires EveryStrategySimulated(strategies, draws) && s < |strategies|
    ensures StrategyRows(baseAmount, myBiddingRate, n, m, strategies, draws)[s] ==
      StrategyOutcome(baseAmount, myBiddingRate, n, m, strategies[s], draws[s])
  {
    if s < |strategies| - 1 {
      var init, initDraws := strategies[..|strategies| - 1], draws[..|draws| - 1];
      assert EveryStrategySimulated(init, initDraws);
      StrategyRowsAt(baseAmount, myBiddingRate, n, m, init, initDraws, s);
    }
  }

  /** The unsorted result frame: one row per strategy, in enumeration order. */
  function StrategyTable(baseAmount: real, myBiddingRate: real, n: nat, k: nat, m: nat,
                         simulations: nat, competitors: nat, draws: seq<seq<seq<seq<nat>>>>): (table: seq<StrategyResult>)
    requires simulations >= 1
    requires ValidStrategyDraws(draws, |Combinations(n, k)|, simulations, competitors, k, n)
    ensures |table| == |Combinations(n, k)|
  {
    assert EveryStrategySimulated(Combinations(n, k), draws);
    StrategyRows(baseAmount, myBiddingRate, n, m, Combinations(n, k), draws)
  }

  /** Row s of the table is the outcome of strategy s over its own draws. */
  lemma StrategyTableAt(baseAmount: real, myBiddingRate: real, n: nat, k: nat, m: nat,
                        simulations: nat, competitors: nat, draws: seq<seq<seq<seq<nat>>>>, s: nat)
    requires simulations >= 1
    requires ValidStrategyDraws(draws, |Combinations(n, k)|, simulations, competitors, k, n)
    requires s < |Combinations(n, k)|
    ensures StrategyTable(baseAmount, myBiddingRate, n, k, m, simulations, competitors, draws)[s] ==
      StrategyOutcome(baseAmount, myBiddingRate, n, m, Combinations(n, k)[s], draws[s])
  {
    assert EveryStrategySimulated(Combinations(n, k), draws);
    StrategyRowsAt(baseAmount, myBiddingRate, n, m, Combinations(n, k), draws, s);
  }

  // ----- what one trial and one strategy satisfy -----

  lemma {:induction false} TrialChoicesLength(myChoice: seq<nat>, picks: seq<seq<nat>>, k: nat)
    requires |myChoice| == k
    requires forall c :: 0 <= c < |picks| ==> |picks[c]| == k
    ensures |TrialChoices(myChoice, picks)| == k + |picks| * k
  {
    if picks != [] {
      TrialChoicesLength(myChoice, picks[..|picks| - 1], k);
    }
  }

  lemma {:induction false} TrialChoicesBelow(myChoice: seq<nat>, picks: seq<seq<nat>>, n: nat)
    requires forall i :: 0 <= i < |myChoice| ==> myChoice[i] < n
    requires forall c, i :: 0 <= c < |picks| && 0 <= i < |picks[c]| ==> picks[c][i] < n
    ensures forall i :: 0 <= i < |TrialChoices(myChoice, picks)| ==> TrialChoices(myChoice, picks)[i] < n
  {
    if picks != [] {
      var init, last := picks[..|picks| - 1], picks[|picks| - 1];
      TrialChoicesBelow(myChoice, init, n);
      var front := TrialChoices(myChoice, init);
      forall i | 0 <= i < |front + last| ensures (front + last)[i] < n {
        if i >= |front| {
          assert (front + last)[i] == picks[|picks| - 1][i - |front|];
        }
      }
    }
  }

  /**
   * Each trial tallies the own k levels and every competitor's k levels:
   * k + C*k selections, all below N, which the tally counts exactly once.
   */
  lemma TrialSelections(myChoice: seq<nat>, picks: seq<seq<nat>>, k: nat, n: nat)
    requires ValidPick(myChoice, k, n)
    requires forall c :: 0 <= c < |picks| ==> ValidPick(picks[c], k, n)
    ensures |TrialChoices(myChoice, picks)| == k + |picks| * k
    ensures forall i :: 0 <= i < |TrialChoices(myChoice, picks)| ==> TrialChoices(myChoice, picks)[i] < n
    ensures CountTotal(Tally(TrialChoices(myChoice, picks), n)) == k + |picks| * k
  {
    TrialChoicesLength(myChoice, picks, k);
    TrialChoicesBelow(myChoice, picks, n);
    TallyTotal(TrialChoices(myChoice, picks), n);
  }

  /**
   * A trial's final base price is NaN exactly when M is 0 (no level is
   * selected), and otherwise, for a non-negative base amount, it lies
   * between 98% and 102% of the base amount.
   */
  lemma TrialFinalPriceSpec(baseAmount: real, n: nat, k: nat, m: nat, myChoice: seq<nat>, picks: seq<seq<nat>>)
    requires k >= 1
    requires ValidPick(myChoice, k, n)
    requires forall c :: 0 <= c < |picks| ==> ValidPick(picks[c], k, n)
    ensures TrialFinalPrice(PrelimPrices(baseAmount, n), myChoice, picks, m).Some? <==> m >= 1
    ensures var f := TrialFinalPrice(PrelimPrices(baseAmount, n), myChoice, picks, m);
      f.Some? && baseAmount >= 0.0 ==> baseAmount * 0.98 <= f.value <= baseAmount * 1.02
  {
    var prices := PrelimPrices(baseAmount, n);
    var counts := Tally(TrialChoices(myChoice, picks), n);
    var top := TopLevels(counts, m);
    TrialTopLevels(myChoice, picks, k, n, m);
    TopLevelsBelow(counts, m);
    assert TrialFinalPrice(prices, myChoice, picks, m) == FinalBasePrice(prices, top);
    if top != [] && baseAmount >= 0.0 {
      var lo, hi := baseAmount * 0.98, baseAmount * 1.02;
      LinspaceBounds(lo, hi, n);
      LevelMeanWithin(prices, top, lo, hi);
    }
  }

  /** A trial selects some level exactly when M is at least 1: the own choice is never empty. */
  lemma TrialTopLevels(myChoice: seq<nat>, picks: seq<seq<nat>>, k: nat, n: nat, m: nat)
    requires k >= 1
    requires ValidPick(myChoice, k, n)
    requires forall c :: 0 <= c < |picks| ==> ValidPick(picks[c], k, n)
    ensures |TopLevels(Tally(TrialChoices(myChoice, picks), n), m)| > 0 <==> m >= 1
  {
    var choices := TrialChoices(myChoice, picks);
    TrialSelections(myChoice, picks, k, n);
    var top := TopLevels(Tally(choices, n), m);
    TopLevelsSize(choices, n, m, top);
    MyChoiceFirst(myChoice, picks);
    assert choices[0] in (set x: nat | x in choices);
  }

  /** The mean price of a non-empty selection of levels whose prices lie in [lo, hi] lies in [lo, hi]. */
  lemma LevelMeanWithin(prices: seq<real>, top: seq<nat>, lo: real, hi: real)
    requires top != [] && forall i :: 0 <= i < |top| ==> top[i] < |prices|
    requires forall i :: 0 <= i < |prices| ==> lo <= prices[i] <= hi
    ensures FinalBasePrice(prices, top).Some?
    ensures lo <= FinalBasePrice(prices, top).value <= hi
  {
    var levelPrices := seq(|top|, i requires 0 <= i < |top| => prices[top[i]]);
    MeanWithin(levelPrices, lo, hi);
  }

  lemma {:induction false} MyChoiceFirst(myChoice: seq<nat>, picks: seq<seq<nat>>)
    requires |myChoice| > 0
    ensures |TrialChoices(myChoice, picks)| > 0 && TrialChoices(myChoice, picks)[0] == myChoice[0]
  {
    if picks != [] {
      MyChoiceFirst(myChoice, picks[..|picks| - 1]);
    }
  }

  lemma {:induction false} FinalPricesAt(prices: seq<real>, myChoice: seq<nat>, trials: seq<seq<seq<nat>>>, m: nat, t: nat)
    requires t < |trials|
    ensures FinalPrices(prices, myChoice, trials, m)[t] == TrialFinalPrice(prices, myChoice, trials[t], m)
  {
    if t < |trials| - 1 {
      FinalPricesAt(prices, myChoice, trials[..|trials| - 1], m, t);
    }
  }

  lemma WinCountSnoc(myBidPrice: real, finals: seq<Option<real>>, f: Option<real>)
    ensures WinCount(myBidPrice, finals + [f]) == WinCount(myBidPrice, finals) + if TrialWon(myBidPrice, f) then 1 else 0
  {
    assert (finals + [f])[..|finals|] == finals;
  }

  lemma {:induction false} WinCountBound(myBidPrice: real, finals: seq<Option<real>>)
    ensures WinCount(myBidPrice, finals) <= |finals|
  {
    if finals != [] {
      WinCountBound(myBidPrice, finals[..|finals| - 1]);
    }
  }

  /** The trials, by index, whose realized final price the own bid wins against. */
  ghost function WonTrials(myBidPrice: real, finals: seq<Option<real>>): set<int>
  {
    set t | 0 <= t < |finals| && TrialWon(myBidPrice, finals[t])
  }

  lemma WonTrialsSnoc(myBidPrice: real, finals: seq<Option<real>>, init: seq<Option<real>>)
    requires finals != [] && init == finals[..|finals| - 1]
    ensures WonTrials(myBidPrice, finals) ==
      WonTrials(myBidPrice, init) + (if TrialWon(myBidPrice, finals[|init|]) then {|init|} else {})
  {
    var n := |init|;
    var extra := if TrialWon(myBidPrice, finals[n]) then {n} else {};
    forall t | t in WonTrials(myBidPrice, finals) ensures t in WonTrials(myBidPrice, init) + extra {
      if t < n {
        assert finals[t] == init[t];
      }
    }
    forall t | t in WonTrials(myBidPrice, init) + extra ensures t in WonTrials(myBidPrice, finals) {
      if t < n {
        assert finals[t] == init[t];
      }
    }
  }

  /** `wins` (lines 110-114) counts exactly the trials the own bid wins, each once. */
  lemma {:induction false} WinCountCountsWins(myBidPrice: real, finals: seq<Option<real>>)
    ensures WinCount(myBidPrice, finals) == |WonTrials(myBidPrice, finals)|
  {
    if finals == [] {
      assert WonTrials(myBidPrice, finals) == {};
    } else {
      var init := finals[..|finals| - 1];
      WinCountCountsWins(myBidPrice, init);
      WonTrialsSnoc(myBidPrice, finals, init);
      assert |init| !in WonTrials(myBidPrice, init);
    }
  }

  /**
   * A row built from realized prices that are all numbers or all NaN: the
   * win probability is a fraction in [0, 1], 0 or 1 after a single trial,
   * and the average is a number exactly when the prices are.
   */
  lemma OutcomeOfSpec(myChoice: seq<nat>, myBidPrice: real, finals: seq<Option<real>>, defined: bool)
    requires |finals| >= 1
    requires forall t :: 0 <= t < |finals| ==> (finals[t].Some? <==> defined)
    ensures var r := OutcomeOf(myChoice, myBidPrice, finals);
      r.choice == myChoice &&
      0.0 <= r.winProbability <= 1.0 &&
      (|finals| == 1 ==> r.winProbability == 0.0 || r.winProbability == 1.0) &&
      (r.avgFinalPrice.Some? <==> defined)
  {
    WinCountBound(myBidPrice, finals);
    FractionWithinUnit(WinCount(myBidPrice, finals) as real, |finals| as real);
    if !defined {
      assert finals[0].None?;
    }
  }

  /** The average of realized prices that lie in [lo, hi] lies in [lo, hi]. */
  lemma OutcomeOfBounded(myChoice: seq<nat>, myBidPrice: real, finals: seq<Option<real>>, lo: real, hi: real)
    requires |finals| >= 1
    requires forall t :: 0 <= t < |finals| ==> finals[t].Some? ==> lo <= finals[t].value <= hi
    ensures var avg := OutcomeOf(myChoice, myBidPrice, finals).avgFinalPrice;
      avg.Some? ==> lo <= avg.value <= hi
  {
    var avg := OutcomeOf(myChoice, myBidPrice, finals).avgFinalPrice;
    if avg.Some? {
      var realized := seq(|finals|, i requires 0 <= i < |finals| => finals[i].value);
      MeanWithin(realized, lo, hi);
    }
  }

  /** Every realized final price is NaN exactly when M is 0, and otherwise within 98%..102% of a non-negative base amount. */
  lemma FinalPricesSpec(baseAmount: real, n: nat, k: nat, m: nat, myChoice: seq<nat>,
                        trials: seq<seq<seq<nat>>>, competitors: nat)
    requires k >= 1
    requires ValidPick(myChoice, k, n)
    requires ValidTrials(trials, |trials|, competitors, k, n)
    ensures forall t :: 0 <= t < |trials| ==>
      (FinalPrices(PrelimPrices(baseAmount, n), myChoice, trials, m)[t].Some? <==> m >= 1)
    ensures forall t :: 0 <= t < |trials| && baseAmount >= 0.0 ==>
      var f := FinalPrices(PrelimPrices(baseAmount, n), myChoice, trials, m)[t];
      f.Some? ==> baseAmount * 0.98 <= f.value <= baseAmount * 1.02
  {
    var prices := PrelimPrices(baseAmount, n);
    var finals := FinalPrices(prices, myChoice, trials, m);
    forall t | 0 <= t < |finals|
      ensures finals[t].Some? <==> m >= 1
      ensures finals[t].Some? && baseAmount >= 0.0 ==> baseAmount * 0.98 <= finals[t].value <= baseAmount * 1.02
    {
      FinalPricesAt(prices, myChoice, trials, m, t);
      TrialFinalPriceSpec(baseAmount, n, k, m, myChoice, trials[t]);
    }
  }

  /**
   * A strategy's row: its win probability lies in [0, 1] (and, with a single
   * simulation, is 0 or 1); its average final price is NaN exactly when M is
   * 0, and otherwise lies between 98% and 102% of a non-negative base amount.
   */
  lemma StrategyOutcomeSpec(baseAmount: real, myBiddingRate: real, n: nat, k: nat, m: nat,
                            myChoice: seq<nat>, trials: seq<seq<seq<nat>>>, competitors: nat)
    requires k >= 1 && |trials| >= 1
    requires ValidPick(myChoice, k, n)
    requires ValidTrials(trials, |trials|, competitors, k, n)
    ensures StrategyOutcome(baseAmount, myBiddingRate, n, m, myChoice, trials).choice == myChoice
    ensures RowBounds(StrategyOutcome(baseAmount, myBiddingRate, n, m, myChoice, trials), baseAmount, m)
    ensures |trials| == 1 ==> StrategyOutcome(baseAmount, myBiddingRate, n, m, myChoice, trials).winProbability in {0.0, 1.0}
  {
    var finals := FinalPrices(PrelimPrices(baseAmount, n), myChoice, trials, m);
    assert |finals| >= 1;
    FinalPricesSpec(baseAmount, n, k, m, myChoice, trials, competitors);
    assert forall t :: 0 <= t < |finals| ==> (finals[t].Some? <==> m >= 1);
    OutcomeOfSpec(myChoice, baseAmount * myBiddingRate, finals, m >= 1);
    if baseAmount >= 0.0 {
      OutcomeOfBounded(myChoice, baseAmount * myBiddingRate, finals, baseAmount * 0.98, baseAmount * 1.02);
    }
  }

  /**
   * What every row of the result frame satisfies: a win probability in
   * [0, 1], and an average final price that is NaN exactly when M is 0 and
   * otherwise within 98%..102% of a non-negative base amount.
   */
  predicate RowBounds(r: StrategyResult, baseAmount: real, m: nat)
  {
    0.0 <= r.winProbability <= 1.0 &&
    (r.avgFinalPrice.Some? <==> m >= 1) &&
    (r.avgFinalPrice.Some? && baseAmount >= 0.0 ==>
       baseAmount * 0.98 <= r.avgFinalPrice.value <= baseAmount * 1.02)
  }

  /**
   * The result frame has one row per size-k subset of the N levels, C(N, k)
   * rows in all, every row of the shape `StrategyOutcomeSpec` states.
   */
  lemma StrategyTableSpec(baseAmount: real, myBiddingRate: real, n: nat, k: nat, m: nat,
                          simulations: nat, competitors: nat, draws: seq<seq<seq<seq<nat>>>>,
                          table: seq<StrategyResult>)
    requires 1 <= k <= n && simulations >= 1
    requires ValidStrategyDraws(draws, |Combinations(n, k)|, simulations, competitors, k, n)
    requires table == StrategyTable(baseAmount, myBiddingRate, n, k, m, simulations, competitors, draws)
    ensures |table| == Binomial(n, k)
    ensures forall s :: 0 <= s < |table| ==> table[s].choice == Combinations(n, k)[s]
    ensures forall c :: IsCombination(c, 0, n, k) <==> exists s :: 0 <= s < |table| && table[s].choice == c
    ensures forall s :: 0 <= s < |table| ==> RowBounds(table[s], baseAmount, m)
  {
    var strategies := Combinations(n, k);
    CombinationsExactly(n, k);
    forall s | 0 <= s < |table|
      ensures table[s].choice == strategies[s]
      ensures RowBounds(table[s], baseAmount, m)
    {
      assert strategies[s] in strategies;
      StrategyTableAt(baseAmount, myBiddingRate, n, k, m, simulations, competitors, draws, s);
      StrategyOutcomeSpec(baseAmount, myBiddingRate, n, k, m, strategies[s], draws[s], competitors);
    }
    forall c | IsCombination(c, 0, n, k)
      ensures exists s :: 0 <= s < |table| && table[s].choice == c
    {
      var s :| 0 <= s < |strategies| && strategies[s] == c;
      StrategyTableAt(baseAmount, myBiddingRate, n, k, m, simulations, competitors, draws, s);
      assert table[s].choice == c;
    }
  }

  /** Any reordering of the result frame has C(N, k) rows, one per strategy, each bounded as above. */
  lemma RankedRowsSpec(ranked: seq<StrategyResult>, baseAmount: real, myBiddingRate: real, n: nat, k: nat, m: nat,
                       simulations: nat, competitors: nat, draws: seq<seq<seq<seq<nat>>>>)
    requires 1 <= k <= n && simulations >= 1
    requires ValidStrategyDraws(draws, |Combinations(n, k)|, simulations, competitors, k, n)
    requires multiset(ranked) == multiset(StrategyTable(baseAmount, myBiddingRate, n, k, m, simulations, competitors, draws))
    ensures |ranked| == Binomial(n, k)
    ensures forall r :: r in ranked ==> IsCombination(r.choice, 0, n, k) && RowBounds(r, baseAmount, m)
  {
    var table := StrategyTable(baseAmount, myBiddingRate, n, k, m, simulations, competitors, draws);
    StrategyTableSpec(baseAmount, myBiddingRate, n, k, m, simulations, competitors, draws, table);
    CombinationsExactly(n, k);
    assert |ranked| == |multiset(ranked)| == |multiset(table)| == |table|;
    forall r | r in ranked
      ensures IsCombination(r.choice, 0, n, k) && RowBounds(r, baseAmount, m)
    {
      assert r in multiset(table);
      var s :| 0 <= s < |table| && table[s] == r;
      assert Combinations(n, k)[s] in Combinations(n, k);
    }
  }

  // ----- line 127: sort_values(by=win probability, ascending=False) -----

  predicate RankedByWin(rows: seq<StrategyResult>)
  {
    forall i, j :: 0 <= i < j < |rows| ==> rows[i].winProbability >= rows[j].winProbability
  }

  function InsertByWin(r: StrategyResult, rows: seq<StrategyResult>): seq<StrategyResult>
  {
    if rows == [] then [r]
    else if r.winProbability >= rows[0].winProbability then [r] + rows
    else [rows[0]] + InsertByWin(r, rows[1..])
  }

  /** Every row of `rows` has win probability at most `p`. */
  predicate AtMost(rows: seq<StrategyResult>, p: real)
  {
    forall i :: 0 <= i < |rows| ==> rows[i].winProbability <= p
  }

  /** A row put in front of a ranked table, at least as likely as all of it, keeps it ranked. */
  lemma ConsRanked(r: StrategyResult, rows: seq<StrategyResult>)
    requires RankedByWin(rows) && AtMost(rows, r.winProbability)
    ensures RankedByWin([r] + rows)
  {
    var out := [r] + rows;
    forall i, j | 0 <= i < j < |out| ensures out[i].winProbability >= out[j].winProbability {
      assert out[j] == rows[j - 1];
      if i > 0 {
        assert out[i] == rows[i - 1];
      }
    }
  }

  lemma {:induction false} InsertByWinAtMost(r: StrategyResult, rows: seq<StrategyResult>, p: real)
    requires AtMost(rows, p) && r.winProbability <= p
    ensures AtMost(InsertByWin(r, rows), p)
  {
    if rows != [] && r.winProbability < rows[0].winProbability {
      InsertByWinAtMost(r, rows[1..], p);
      var rest := InsertByWin(r, rows[1..]);
      assert forall i :: 0 < i < |rest| + 1 ==> ([rows[0]] + rest)[i] == rest[i - 1];
    }
  }

  /** Inserting into a ranked table keeps it ranked. */
  lemma {:induction false} InsertByWinRanked(r: StrategyResult, rows: seq<StrategyResult>)
    requires RankedByWin(rows)
    ensures RankedByWin(InsertByWin(r, rows))
  {
    if rows == [] {
    } else if r.winProbability >= rows[0].winProbability {
      ConsRanked(r, rows);
    } else {
      var tail := rows[1..];
      assert RankedByWin(tail) by {
        forall i, j | 0 <= i < j < |tail| ensures tail[i].winProbability >= tail[j].winProbability {
          assert tail[i] == rows[i + 1] && tail[j] == rows[j + 1];
        }
      }
      InsertByWinRanked(r, tail);
      assert AtMost(tail, rows[0].winProbability) by {
        forall i | 0 <= i < |tail| ensures tail[i].winProbability <= rows[0].winProbability {
          assert tail[i] == rows[i + 1];
        }
      }
      InsertByWinAtMost(r, tail, rows[0].winProbability);
      ConsRanked(rows[0], InsertByWin(r, tail));
    }
  }

  /** Inserting adds exactly the one row. */
  lemma {:induction false} InsertByWinPermutes(r: StrategyResult, rows: seq<StrategyResult>)
    ensures multiset(InsertByWin(r, rows)) == multiset(rows) + multiset{r}
  {
    if rows != [] {
      assert rows == [rows[0]] + rows[1..];
      if r.winProbability < rows[0].winProbability {
        InsertByWinPermutes(r, rows[1..]);
      }
    }
  }

  /**
   * A stable descending sort on the win probability: the result is a
   * permutation of the rows, non-increasing in win probability (rows of
   * equal probability keep their enumeration order).
   */
  function SortByWinProbability(rows: seq<StrategyResult>): (out: seq<StrategyResult>)
    ensures RankedByWin(out)
    ensures multiset(out) == multiset(rows)
  {
    if rows == [] then []
    else
      assert rows == [rows[0]] + rows[1..];
      InsertByWinRanked(rows[0], SortByWinProbability(rows[1..]));
      InsertByWinPermutes(rows[0], SortByWinProbability(rows[1..]));
      InsertByWin(rows[0], SortByWinProbability(rows[1..]))
  }

  // ===== the analyzer =====

  class BidAnalyzer {
    /** `self.df`: the prepared history. */
    const records: seq<BidRecord>
    /** `self.competitor_stats`: computed once, at construction. */
    const competitorStats: seq<CompetitorStat>

    /** Lines 23-28. */
    constructor (frame: seq<DataHandler.Row>)
      requires forall r :: r in frame ==> r.bidder.Some? && r.winRate.Some?
      ensures records == RecordsOf(frame)
      ensures competitorStats == AnalyzeCompetitors(records)
    {
      records := RecordsOf(frame);
      competitorStats := AnalyzeCompetitors(RecordsOf(frame));
    }

    /**
     * `find_optimal_bid` (lines 41-74): one result row per grid rate, in grid
     * order, and the first row of greatest expected profit.
     */
    method FindOptimalBid(basePrice: real, startRate: real, endRate: real, steps: nat, draws: seq<RateDraw>)
      returns (optimal: RateResult, results: seq<RateResult>)
      requires |competitorStats| > 0
      requires steps >= 1
      requires |draws| == steps && forall i :: 0 <= i < steps ==> ValidRateDraw(draws[i], competitorStats)
      ensures |results| == steps
      ensures forall i :: 0 <= i < steps ==>
        results[i] == RateOutcome(competitorStats, basePrice, Linspace(startRate, endRate, steps)[i], draws[i])
      ensures exists k :: FirstMostProfitable(results, k) && optimal == results[k]
    {
      var bidRates := Linspace(startRate, endRate, steps);
      results := [];
      var i := 0;
      while i < steps
        invariant 0 <= i <= steps
        invariant |results| == i
        invariant forall j :: 0 <= j < i ==> results[j] == RateOutcome(competitorStats, basePrice, bidRates[j], draws[j])
      {
        var row := EvaluateRate(basePrice, bidRates[i], draws[i]);
        results := results + [row];
        i := i + 1;
      }
      var profits := Profits(results);
      var best := FirstArgMax(profits);
      optimal := results[best];
      assert FirstMostProfitable(results, best);
    }

    /** Lines 50-68, the body of the loop over rates: one trial of one candidate rate. */
    method EvaluateRate(basePrice: real, rate: real, draw: RateDraw) returns (row: RateResult)
      requires ValidRateDraw(draw, competitorStats)
      ensures row == RateOutcome(competitorStats, basePrice, rate, draw)
    {
      var wins := 0;
      var competitorBids := CompetitorBids(competitorStats, draw, basePrice);
      var myBid := basePrice * rate;
      if OutBids(myBid, competitorBids) {
        wins := wins + 1;
      }
      var winProbability := (wins as real) / 1.0;
      var expectedProfit := (basePrice * rate - basePrice) * winProbability;
      row := RateResult(rate, winProbability, expectedProfit);
    }

    /**
     * Lines 96-123, the body of the loop over strategies: `numSimulations`
     * trials of one own choice, folded into its win probability and average
     * final price.
     */
    method SimulateStrategy(baseAmount: real, myBiddingRate: real, prelimPrices: seq<real>, m: nat,
                            numCompetitors: nat, numSimulations: nat,
                            myChoice: seq<nat>, trials: seq<seq<seq<nat>>>)
      returns (row: StrategyResult)
      requires numSimulations >= 1
      requires |trials| == numSimulations && forall t :: 0 <= t < |trials| ==> |trials[t]| == numCompetitors
      ensures row == OutcomeOf(myChoice, baseAmount * myBiddingRate, FinalPrices(prelimPrices, myChoice, trials, m))
    {
      var myBidPrice := baseAmount * myBiddingRate;
      ghost var finals := FinalPrices(prelimPrices, myChoice, trials, m);
      var wins := 0;
      var simulatedFinalPrices: seq<Option<real>> := [];
      var t := 0;
      while t < numSimulations
        invariant 0 <= t <= numSimulations
        invariant |simulatedFinalPrices| == t
        invariant forall j :: 0 <= j < t ==> simulatedFinalPrices[j] == finals[j]
        invariant wins == WinCount(myBidPrice, simulatedFinalPrices)
      {
        var finalBasePrice := SimulateTrial(prelimPrices, myChoice, trials[t], m, numCompetitors, trials, t);
        WinCountSnoc(myBidPrice, simulatedFinalPrices, finalBasePrice);
        simulatedFinalPrices := simulatedFinalPrices + [finalBasePrice];
        if finalBasePrice.Some? && myBidPrice >= finalBasePrice.value * 0.88 && myBidPrice < finalBasePrice.value {
          wins := wins + 1;
        }
        t := t + 1;
      }
      assert simulatedFinalPrices == finals;
      var winProbability := (wins as real) / (numSimulations as real);
      var avgFinalPrice := AverageFinalPrice(simulatedFinalPrices);
      row := StrategyResult(myChoice, winProbability, avgFinalPrice);
      assert row == OutcomeOf(myChoice, myBidPrice, simulatedFinalPrices);
    }

    /**
     * Lines 100-108, one trial: the own choice and every competitor's pick
     * are tallied and the prices of the M most chosen levels averaged. The
     * result is stated as entry `t` of the strategy's final prices, where
     * `picks` is trial `t`; `FinalPricesAt` equates that entry with
     * `TrialFinalPrice` of these picks.
     */
    method SimulateTrial(prelimPrices: seq<real>, myChoice: seq<nat>, picks: seq<seq<nat>>, m: nat, numCompetitors: nat,
                         ghost trials: seq<seq<seq<nat>>>, ghost t: nat)
      returns (finalBasePrice: Option<real>)
      requires |picks| == numCompetitors
      requires t < |trials| && trials[t] == picks
      ensures finalBasePrice == FinalPrices(prelimPrices, myChoice, trials, m)[t]
    {
      var allChoices := myChoice;
      var c := 0;
      while c < numCompetitors
        invariant 0 <= c <= numCompetitors
        invariant allChoices == TrialChoices(myChoice, picks[..c])
      {
        assert picks[..c + 1][..c] == picks[..c];
        allChoices := allChoices + picks[c];
        c := c + 1;
      }
      assert picks[..numCompetitors] == picks;
      var choiceCounts := Tally(allChoices, |prelimPrices|);
      var topChoices := TopLevels(choiceCounts, m);
      TopLevelsBelow(choiceCounts, m);
      finalBasePrice := FinalBasePrice(prelimPrices, topChoices);
      FinalPricesAt(prelimPrices, myChoice, trials, m, t);
    }

    /**
     * Lines 91-123: the preliminary prices, the enumeration of own choices
     * and the simulation of each, giving the unsorted result frame.
     */
    method SimulateAllStrategies(
      baseAmount: real, myBiddingRate: real,
      totalPrelimPrices: nat, numToChooseByBidder: nat, numToAverage: nat,
      numCompetitors: nat, numSimulations: nat,
      draws: seq<seq<seq<seq<nat>>>>)
      returns (simulationResults: seq<StrategyResult>)
      requires numSimulations >= 1
      requires ValidStrategyDraws(draws, |Combinations(totalPrelimPrices, numToChooseByBidder)|,
                                  numSimulations, numCompetitors, numToChooseByBidder, totalPrelimPrices)
      ensures simulationResults == StrategyTable(baseAmount, myBiddingRate, totalPrelimPrices,
        numToChooseByBidder, numToAverage, numSimulations, numCompetitors, draws)
    {
      var n, k, m := totalPrelimPrices, numToChooseByBidder, numToAverage;
      var prelimPrices := PrelimPrices(baseAmount, n);
      var myPossibleChoices := Combinations(n, k);
      assert EveryStrategySimulated(myPossibleChoices, draws);
      simulationResults := [];
      var s := 0;
      while s < |myPossibleChoices|
        invariant 0 <= s <= |myPossibleChoices|
        invariant EveryStrategySimulated(myPossibleChoices[..s], draws[..s])
        invariant simulationResults == StrategyRows(baseAmount, myBiddingRate, n, m, myPossibleChoices[..s], draws[..s])
      {
        assert ValidTrials(draws[s], numSimulations, numCompetitors, k, n);
        var row := SimulateStrategy(baseAmount, myBiddingRate, prelimPrices, m, numCompetitors, numSimulations,
                                    myPossibleChoices[s], draws[s]);
        StrategyRowsSnoc(baseAmount, myBiddingRate, n, m, myPossibleChoices, draws, s);
        simulationResults := simulationResults + [row];
        s := s + 1;
      }
      assert myPossibleChoices[..s] == myPossibleChoices && draws[..s] == draws;
    }

    /**
     * `find_optimal_multi_price_strategy` (lines 77-127): every strategy's
     * row, ranked by win probability.
     */
    method FindOptimalMultiPriceStrategy(
      baseAmount: real, myBiddingRate: real,
      totalPrelimPrices: nat, numToChooseByBidder: nat, numToAverage: nat,
      numCompetitors: nat, numSimulations: nat,
      draws: seq<seq<seq<seq<nat>>>>)
      returns (ranked: seq<StrategyResult>)
      requires 1 <= numToChooseByBidder <= totalPrelimPrices
      requires numSimulations >= 1
      requires ValidStrategyDraws(draws, |Combinations(totalPrelimPrices, numToChooseByBidder)|,
                                  numSimulations, numCompetitors, numToChooseByBidder, totalPrelimPrices)
      ensures multiset(ranked) == multiset(StrategyTable(baseAmount, myBiddingRate, totalPrelimPrices,
        numToChooseByBidder, numToAverage, numSimulations, numCompetitors, draws))
      ensures RankedByWin(ranked)
      ensures |ranked| == Binomial(totalPrelimPrices, numToChooseByBidder)
      ensures forall r :: r in ranked ==>
        IsCombination(r.choice, 0, totalPrelimPrices, numToChooseByBidder) && RowBounds(r, baseAmount, numToAverage)
    {
      var simulationResults := SimulateAllStrategies(baseAmount, myBiddingRate, totalPrelimPrices, numToChooseByBidder,
                                                     numToAverage, numCompetitors, numSimulations, draws);
      ranked := SortByWinProbability(simulationResults);
      RankedRowsSpec(ranked, baseAmount, myBiddingRate, totalPrelimPrices, numToChooseByBidder, numToAverage,
                     numSimulations, numCompetitors, draws);
    }
  }
}
