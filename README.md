# Bid analyzer: a verified model

This project models the analysis core of a public-procurement bidding
assistant. Two parts are modelled:

- **Data preparation** (`load_and_prepare_data`). It checks that the three
  required columns are present: base amount (기초금액), winning bid (낙찰가)
  and bidder name (입찰자상호). It coerces the two amounts to numbers and
  drops rows missing a required value. It keeps only rows whose base amount
  is positive, then adds the win-rate column (낙찰률 = winning bid / base
  amount).
- **The bid analyzer** (`BidAnalyzer`). It has three parts:
  - Construction profiles every competitor: the mean, sample standard
    deviation and count of their win rates, grouped by bidder. A missing
    spread is back-filled with the spread of the whole history.
  - `find_optimal_bid` runs a grid search over bid rates. Each rate gets one
    Monte-Carlo trial against 5 to 14 sampled competitors. The result is the
    first rate of greatest expected profit, together with the whole result
    table.
  - `find_optimal_multi_price_strategy` handles multi-price bidding. N
    preliminary prices are spread evenly over 98%–102% of the base amount.
    Every own choice of k of them is simulated: each trial adds C
    competitors' k-level picks, tallies the choices, averages the prices of
    the M most chosen levels into the final base price, and counts a win
    when the own bid lies in [88% of that price, that price). The table of
    win probabilities and average final prices is returned sorted by win
    probability, highest first.

Every random draw becomes an explicit input of the model, and what is
proved holds for every draw. The draws are:

- `randint(5, 15)`;
- the weighted row `sample`;
- the `norm.rvs` samples;
- each competitor's `np.random.choice`.

Floating-point numbers are modelled as `real`. NaN is modelled as `None`,
and the model propagates it where numpy and pandas do:

- the standard deviation of a single value is NaN;
- a comparison with NaN is false;
- the mean of an empty selection is NaN.

Modules:

- `Wrappers`: `Option`.
- `Numeric`: sum, mean, sample variance and `np.linspace`.
- `DataHandler`: cells, rows, numeric coercion, the cleaning steps, the
  in-place `BidFrame` and `LoadAndPrepareData`.
- `Profiling`: the groupby with sorted keys and the per-bidder statistics.
- `Subsets`: `itertools.combinations(range(n), k)`.
- `ValueCounts`: the tally of one trial and its first M levels.
- `BidAnalyzerEngine`: the analyzer class, its two searches, the
  specification functions they are proved against, and the stable
  descending sort.

Behaviour the model follows as the code has it, including where a reader
would expect otherwise:

- **A single-record history.** With one record, every bidder's standard
  deviation is NaN, and so is the back-fill (the standard deviation of one
  value). `norm.rvs` rejects a NaN scale with a ValueError, so
  `find_optimal_bid` fails on its first rate rather than falling back to
  some usable spread. The model states that crash as a precondition:
  every sampled competitor must have a defined spread.
  `SpreadsDefinedExactly` proves that this holds exactly when the history
  has at least two records.
- **The back-fill writes through.** Line 37 fills the spread column with
  a chained `fillna(..., inplace=True)`. The model follows pandas without
  copy-on-write (the 2.x default), where the fill reaches the competitor
  table. Under copy-on-write (pandas 3.x) the chained call does not write
  back: the NaN spreads of one-record bidders stay, and `norm.rvs` raises
  whenever such a bidder is sampled.
- **No parameter validation.** The code does not check its parameters
  and raises no configuration error of its own. Where a bad parameter
  makes the code crash (k > N, k = 0, steps = 0, no simulation), the
  model has a precondition standing for that crash. Where it does not,
  the model computes the ordinary result: with M > N, `head(M)` keeps
  every chosen level (`TopLevelsSize`), and with M = 0 the final prices
  and their average are NaN (`TrialFinalPriceSpec`).
- **No check at construction.** An empty history is not rejected when the
  analyzer is built. It fails later, when `sample` draws from an empty
  table.
- **Sorted groups.** Grouping sorts the bidder keys (`groupby` sorts by
  default), so the competitor table's order is fixed, not arbitrary. The
  model sorts the keys by code point.

## Model

| member | source | states |
|---|---|---|
| Numeric.MeanWithin | bid_analyzer_engine.py:107 | the mean of a non-empty sequence whose values all lie in [lo, hi] lies in [lo, hi] |
| Numeric.SampleVarianceNonNegative | bid_analyzer_engine.py:35-37 | the sample variance (ddof 1) of two or more values is never negative |
| Numeric.Linspace | bid_analyzer_engine.py:46 | `np.linspace(a, b, n)` has exactly n points |
| Numeric.LinspaceEndpoints | bid_analyzer_engine.py:46 | the first point is a; with n >= 2 the last is b; with n == 1 the grid is just [a] |
| Numeric.LinspaceEvenlySpaced | bid_analyzer_engine.py:46 | consecutive points differ by exactly (b - a) / (n - 1) |
| Numeric.LinspaceBounds | bid_analyzer_engine.py:91 | for a <= b every point lies in [a, b]; for a < b the points strictly increase |
| DataHandler.ParseNumber | data_handler.py:24-25 | the numerals `pd.to_numeric` reads (sign, digits, one decimal point); `ParseNumberOfDigits`, `DecimalPointForms` and `ForeignCharacterNotNumber` state what it accepts and rejects |
| DataHandler.DecimalPointForms | data_handler.py:24-25 | a point may open (".5") or close ("5.") a numeral, with or without a sign; a point alone is missing |
| DataHandler.CoerceCell | data_handler.py:24-25 | numbers stay, numerals become numbers, anything else becomes missing |
| DataHandler.ParseNumberOfDigits | data_handler.py:24-25 | a natural number written in decimal is coerced back to that number |
| DataHandler.ForeignCharacterNotNumber | data_handler.py:24-25 | text holding a character that belongs to no numeral is not a number, so it is coerced to missing |
| DataHandler.HasRequiredColumns | data_handler.py:16-21 | all three required columns are present; `LoadAndPrepareData` returns None exactly when it fails |
| DataHandler.CoerceRows | data_handler.py:24-25 | one output row per input row, in order, each the input row with both numeric cells coerced |
| DataHandler.DropIncomplete | data_handler.py:28 | the rows kept are rows of the input, and each has a bidder and numeric base amount and winning bid |
| DataHandler.KeepPositiveBase | data_handler.py:32 | the rows kept are rows of the input, and each has a base amount greater than zero |
| DataHandler.AddWinRate | data_handler.py:33 | the win-rate column; `AddWinRateRowwise` states each row's value |
| DataHandler.AddWinRateRowwise | data_handler.py:33 | one output row per input row, in order, each the input row with win rate = winning bid / base amount |
| DataHandler.PreparedRowsAreSurvivors | data_handler.py:24-33 | the four cleaning steps applied in turn equal a row-by-row description: each input row, in order, either is dropped or appears prepared |
| DataHandler.SurvivorsWellFormed | data_handler.py:28-33 | every prepared row has a bidder, numeric amounts, a positive base amount and win rate == winning bid / base amount |
| DataHandler.PrepareKeepsFields | data_handler.py:24-33 | preparing a row changes only the two coerced cells and the win rate; bidder, other columns and numbers that were already numbers are unchanged |
| DataHandler.SurvivorsExactly | data_handler.py:28-32 | every input row that passes both filters appears prepared in the output, and every output row comes from such an input row |
| DataHandler.SurvivorsCount | data_handler.py:28-32 | the output has as many rows as input rows pass both filters, never more rows than the input |
| DataHandler.NonNumericRowDropped | data_handler.py:24-28 | a row with a non-numeral text amount, an empty amount or no bidder is dropped |
| DataHandler.NonPositiveBaseDropped | data_handler.py:32 | a row whose base amount is zero or negative is dropped |
| DataHandler.BidFrame.CoerceNumericColumns | data_handler.py:24-25 | the frame's rows become their coercion; the columns are unchanged |
| DataHandler.BidFrame.DropIncompleteRows | data_handler.py:28 | the frame's rows become the complete ones; the columns are unchanged |
| DataHandler.BidFrame.KeepPositiveBaseRows | data_handler.py:32 | the frame's rows become those with a positive base amount; the columns are unchanged |
| DataHandler.BidFrame.AddWinRateColumn | data_handler.py:33 | the win-rate column is added and every row gets winning bid / base amount |
| DataHandler.LoadAndPrepareData | data_handler.py:16-33 | the result is None exactly when a required column is missing; otherwise it is the input columns plus the win rate, and exactly the surviving rows in input order |
| Profiling.AnalyzeCompetitors | bid_analyzer_engine.py:33-39 | `_analyze_competitors`: one row per group key; `OneRowPerBidder`, `SpreadBackfilled` and `MeanOfOwnRates` state what each row holds |
| Profiling.StatOf | bid_analyzer_engine.py:35-37 | a bidder's row: mean, spread (back-filled) and count of that bidder's rates; `SpreadBackfilled` and `MeanOfOwnRates` state its fields |
| Profiling.AllRates | bid_analyzer_engine.py:37 | the whole win-rate column: one entry per history record, entry i the win rate of record i |
| Profiling.TableVariance | bid_analyzer_engine.py:37 | the back-fill value, `std` of the whole win-rate column (`AllRates`); `SpreadBackfilled` states where it is used and that it is NaN exactly with fewer than two records |
| Profiling.GroupKeys | bid_analyzer_engine.py:35 | the group keys strictly ascend and are exactly the bidders that occur in the history |
| Profiling.OneRowPerBidder | bid_analyzer_engine.py:35-36 | the competitor table has one row per distinct bidder, in ascending bidder order, and every bidder has a row |
| Profiling.ParticipationSumsToRecords | bid_analyzer_engine.py:35 | the participation counts add up to the number of history records |
| Profiling.RatesOfExactly | bid_analyzer_engine.py:35 | the rates grouped under a bidder are exactly the win rates of that bidder's records: one entry per record of the bidder, and each rate as often as the bidder's records carry it |
| Profiling.MeanOfOwnRates | bid_analyzer_engine.py:35-36 | a bidder's mean win rate is the arithmetic mean of that bidder's own win rates (which `RatesOfExactly` ties to its records), so it lies within any bounds that hold for all of them |
| Profiling.SpreadBackfilled | bid_analyzer_engine.py:35-37 | count == number of the bidder's records (>= 1); with >= 2 records the spread is their sample variance; with one it is the whole history's; it is NaN exactly when the history has fewer than 2 records, and otherwise non-negative |
| Subsets.Combinations | bid_analyzer_engine.py:92 | `combinations(range(n), k)` in lexicographic order; `CombinationsExactly` states what it enumerates |
| Subsets.CombinationsExactly | bid_analyzer_engine.py:92 | the enumerated choices are exactly the strictly increasing k-subsets of 0..n-1, each once, C(n, k) of them |
| Subsets.FiveChooseTwo | bid_analyzer_engine.py:92 | choosing 2 of 5 levels gives 10 strategies |
| ValueCounts.Tally | bid_analyzer_engine.py:105 | one count per level 0..n-1; `ChosenLevels` and `TallyTotal` state what the counts are |
| ValueCounts.TallyTotal | bid_analyzer_engine.py:105 | when every choice is below n, the tally's counts add up to the number of choices |
| ValueCounts.ValueCountOrder | bid_analyzer_engine.py:105 | `value_counts().index`; `ValueCountOrderSpec` and `ValueCountOrderSize` state its order and contents |
| ValueCounts.TopLevels | bid_analyzer_engine.py:106 | `.head(M).index`; `TopLevelsDominate` and `TopLevelsSize` state what it keeps |
| ValueCounts.InsertLevelSpec | bid_analyzer_engine.py:105 | inserting a level not yet listed keeps the list in value_counts order, adds exactly that level and grows it by one |
| ValueCounts.ChosenBelowSpec | bid_analyzer_engine.py:105 | the order built from levels 0..m-1 lists exactly those with a positive count, by count descending (ties by ascending level) |
| ValueCounts.ValueCountOrderSpec | bid_analyzer_engine.py:105 | the order lists each level with a positive count exactly once, by count descending (ties by ascending level) |
| ValueCounts.ChosenLevels | bid_analyzer_engine.py:105 | a level has a positive count, and is listed, exactly when it was chosen |
| ValueCounts.ValueCountOrderSize | bid_analyzer_engine.py:105 | as many levels are listed as distinct levels were chosen |
| ValueCounts.TopLevelsDominate | bid_analyzer_engine.py:105-106 | a level in the first M has a higher count than any level left out, or an equal count and a lower index |
| ValueCounts.TopLevelsSize | bid_analyzer_engine.py:105-106 | the first M levels are distinct chosen levels below n, min(M, distinct chosen) of them; all chosen levels are kept when there are no more than M |
| BidAnalyzerEngine.CompetitorBids | bid_analyzer_engine.py:58-61 | one simulated bid per sampled competitor, and there are at least five of them |
| BidAnalyzerEngine.MaxBid | bid_analyzer_engine.py:63 | `competitor_bids.max()` is at least every bid and is one of the bids |
| BidAnalyzerEngine.OutBids | bid_analyzer_engine.py:63 | the win test `my_bid > competitor_bids.max()`; `OutBidsEvery` states what it means |
| BidAnalyzerEngine.OutBidsEvery | bid_analyzer_engine.py:63 | the own bid beats `competitor_bids.max()` exactly when it is strictly above every competitor bid |
| BidAnalyzerEngine.RateOutcome | bid_analyzer_engine.py:50-68 | one rate's result row; `RateOutcomeSpec` states its win indicator and profit |
| BidAnalyzerEngine.RateOutcomeSpec | bid_analyzer_engine.py:49-68 | a rate's win probability is 1 exactly when the own bid is above every simulated bid, and 0 otherwise; the expected profit is the margin over the base price when won and 0 when lost |
| BidAnalyzerEngine.SpreadsDefinedExactly | bid_analyzer_engine.py:35-58 | a competitor's spread is defined exactly when the history has at least two records; with fewer, no draw of `norm.rvs` arguments is valid, since a NaN scale raises |
| BidAnalyzerEngine.FirstArgMax | bid_analyzer_engine.py:71 | `idxmax` returns a position whose value is the maximum, and no earlier position reaches it |
| BidAnalyzerEngine.BidAnalyzer.EvaluateRate | bid_analyzer_engine.py:50-68 | one rate's trial (sample, simulated bids, the win test and the profit) computes that rate's row of the specification table |
| BidAnalyzerEngine.BidAnalyzer.FindOptimalBid | bid_analyzer_engine.py:41-74 | one result row per grid rate, in grid order, each the outcome of that rate's draws; the optimum is the first row of greatest expected profit |
| BidAnalyzerEngine.PrelimPrices | bid_analyzer_engine.py:91 | N preliminary prices; `LinspaceEndpoints` and `LinspaceBounds` place them from 98% to 102% of the base amount |
| BidAnalyzerEngine.TrialChoices | bid_analyzer_engine.py:100-103 | the own choice followed by every competitor's pick; `TrialSelections` states its length, range and tally |
| BidAnalyzerEngine.TrialSelections | bid_analyzer_engine.py:100-105 | a trial tallies k + C*k selections, all below N, and the tally counts each exactly once |
| BidAnalyzerEngine.FinalBasePrice | bid_analyzer_engine.py:107 | the mean price of the selected levels, NaN when none is selected; `LevelMeanWithin` bounds it |
| BidAnalyzerEngine.LevelMeanWithin | bid_analyzer_engine.py:107 | the mean price of a non-empty selection of levels is a number within any bounds that hold for every price |
| BidAnalyzerEngine.TrialFinalPrice | bid_analyzer_engine.py:100-107 | one trial's final base price; `TrialFinalPriceSpec` states when it is NaN and its bounds |
| BidAnalyzerEngine.TrialTopLevels | bid_analyzer_engine.py:105-106 | a trial keeps at least one level exactly when M >= 1 |
| BidAnalyzerEngine.TrialFinalPriceSpec | bid_analyzer_engine.py:105-107 | a trial's final base price is NaN exactly when M is 0; otherwise, for a non-negative base amount, it lies in [0.98, 1.02] times the base amount |
| BidAnalyzerEngine.TrialWon | bid_analyzer_engine.py:110-113 | the win test of one trial; `TrialWonBand` states what it means |
| BidAnalyzerEngine.TrialWonBand | bid_analyzer_engine.py:110-113 | the own bid wins a trial exactly when the final price lies in (bid, bid / 0.88]; a NaN final price, or a bid of 0 or less, never wins |
| BidAnalyzerEngine.FinalPrices | bid_analyzer_engine.py:97-108 | `simulated_final_prices`: one price per trial; `FinalPricesAt` and `FinalPricesSpec` state its entries |
| BidAnalyzerEngine.FinalPricesAt | bid_analyzer_engine.py:99-108 | entry t of a strategy's final prices is the final base price of trial t |
| BidAnalyzerEngine.FinalPricesSpec | bid_analyzer_engine.py:99-108 | every trial's final price is NaN exactly when M is 0, and otherwise lies in [0.98, 1.02] times a non-negative base amount |
| BidAnalyzerEngine.WinCount | bid_analyzer_engine.py:96-114 | `wins`; `WinCountCountsWins` states what it counts |
| BidAnalyzerEngine.WinCountCountsWins | bid_analyzer_engine.py:96-114 | the win count is the number of trials whose final price the own bid wins, each trial counted once |
| BidAnalyzerEngine.AverageFinalPrice | bid_analyzer_engine.py:117 | `np.mean(simulated_final_prices)`; `OutcomeOfSpec` and `OutcomeOfBounded` state when it is NaN and its bounds |
| BidAnalyzerEngine.OutcomeOf | bid_analyzer_engine.py:116-123 | a strategy's row from its realized prices; `OutcomeOfSpec` and `OutcomeOfBounded` state it |
| BidAnalyzerEngine.OutcomeOfSpec | bid_analyzer_engine.py:113-117 | the row keeps the own choice; the win probability lies in [0, 1], and is 0 or 1 with one trial; the average final price is NaN exactly when the trials' prices are NaN |
| BidAnalyzerEngine.OutcomeOfBounded | bid_analyzer_engine.py:117 | the average of realized prices that all lie in [lo, hi] lies in [lo, hi] |
| BidAnalyzerEngine.StrategyOutcome | bid_analyzer_engine.py:96-117 | one strategy's row over its trials; `StrategyOutcomeSpec` states its bounds |
| BidAnalyzerEngine.StrategyOutcomeSpec | bid_analyzer_engine.py:95-117 | a strategy's win probability lies in [0, 1] (0 or 1 with one simulation); its average final price is NaN exactly when M is 0, and otherwise lies in [0.98, 1.02] times a non-negative base amount |
| BidAnalyzerEngine.StrategyTable | bid_analyzer_engine.py:92-123 | one row per enumerated combination; `StrategyTableAt` and `StrategyTableSpec` state its rows |
| BidAnalyzerEngine.StrategyTableAt | bid_analyzer_engine.py:95-123 | row s of the result table is the outcome of combination s simulated with its own draws |
| BidAnalyzerEngine.StrategyTableSpec | bid_analyzer_engine.py:92-123 | the result table has C(N, k) rows; a choice appears in it exactly when it is a k-subset of the N levels; every row is bounded as above |
| BidAnalyzerEngine.RankedRowsSpec | bid_analyzer_engine.py:126-127 | any reordering of the result table keeps its C(N, k) rows, each a valid combination and bounded as above |
| BidAnalyzerEngine.InsertByWinRanked | bid_analyzer_engine.py:127 | inserting a row into a table ranked by win probability keeps it ranked |
| BidAnalyzerEngine.InsertByWinPermutes | bid_analyzer_engine.py:127 | inserting a row adds exactly that row to the table's multiset of rows |
| BidAnalyzerEngine.SortByWinProbability | bid_analyzer_engine.py:127 | the sorted table is a permutation of its input, with win probabilities in non-increasing order |
| BidAnalyzerEngine.BidAnalyzer.SimulateTrial | bid_analyzer_engine.py:100-108 | the loop over competitors and the tally compute that trial's final base price, entry t of the specification's final prices |
| BidAnalyzerEngine.BidAnalyzer.SimulateStrategy | bid_analyzer_engine.py:96-117 | the loop over trials computes that strategy's row: the win count over its final prices divided by the trials, and their average |
| BidAnalyzerEngine.BidAnalyzer.SimulateAllStrategies | bid_analyzer_engine.py:91-123 | the loop over own choices computes the specification table, one row per combination in enumeration order |
| BidAnalyzerEngine.BidAnalyzer.FindOptimalMultiPriceStrategy | bid_analyzer_engine.py:77-127 | the result is a permutation of the specification table, ranked by win probability; it has C(N, k) rows, each a k-subset choice, with win probability in [0, 1] and an average final price that is NaN exactly when M is 0 and otherwise within [0.98, 1.02] times a non-negative base amount |
| BidAnalyzerEngine.BidAnalyzer.constructor | bid_analyzer_engine.py:23-28 | the analyzer holds the prepared history and the competitor table computed from it |

## Left out

- Reading the spreadsheet, its try/except, the progress prints and the
  font setup are not modelled. The model starts from the columns and rows
  already read.
- `report_visualizer.py` is not part of this model.
- The random sources are inputs. No distributional fact is proved: not the
  weighting by participation count, not the normal distribution, and not
  the uniform choice.
- Square roots are not modelled. The profiled spread is carried as the
  sample variance, because `sqrt` is outside exact real arithmetic. Every
  fact stated about it (NaN or not, non-negative) holds equally for the
  standard deviation.
- Floating-point rounding is not modelled. Arithmetic is exact over the
  reals.
- Not every input `pd.to_numeric` accepts is modelled. Coercion reads an
  optional sign, digits and at most one decimal point, with digits on at
  least one side of it (".5", "5." and "5.5" are numbers). It does not
  model surrounding whitespace, exponents, "inf"/"nan" text or boolean
  cells; such text becomes missing in the model and the row is dropped.
- Bidder names that are not text are not modelled. A bidder is text or
  missing.
- Crashes are modelled as preconditions. The model does not describe the
  crash itself. The cases are:
  - steps >= 1, since with no rates the result frame has no columns and
    `results_df['기대수익']` (line 71) raises a KeyError;
  - a non-empty competitor table, since `sample` from an empty table raises;
  - 1 <= k <= N, since k > N makes the sort raise a KeyError on an empty
    frame and k = 0 fails on the index type;
  - at least one simulation, since the win probability divides by it;
  - competitor picks of k distinct levels below N, since
    `np.random.choice` raises otherwise;
  - every sampled competitor has a defined spread, since `norm.rvs`
    raises a ValueError on a NaN scale. With a one-record history no
    competitor has one, so `find_optimal_bid` always fails there
    (`SpreadsDefinedExactly`).
- Negative counts are not modelled. `num_to_average` and
  `num_simulations` are natural numbers in the model. In the source,
  `head(-M)` keeps every level except the last M, and a negative
  `num_simulations` runs no trial and gives a win probability of -0.0 and
  a NaN average without raising.
- Tie orders are the model's choice. Among equal counts, `value_counts`
  orders levels by ascending index in this model, where pandas leaves the
  order open.
- SortByWinProbability: it is proved a sorted permutation. The order among
  rows of equal win probability (the sort is stable by construction) is
  not stated.
- BidAnalyzerEngine.StrategyOutcomeSpec: the price bounds are stated only
  for a non-negative base amount; for a negative one the interval is
  reversed.
- BidAnalyzerEngine.TrialFinalPriceSpec: the price bounds are stated only
  for a non-negative base amount.
- BidAnalyzerEngine.StrategyTableSpec: the price bounds are stated only for
  a non-negative base amount.
- BidAnalyzerEngine.BidAnalyzer.FindOptimalMultiPriceStrategy: the price
  bounds are stated only for a non-negative base amount.
- Default argument values are not modelled. Every parameter is an input
  of the model, so the defaults (`start_rate=0.95`, `end_rate=1.15`,
  `steps=100` at line 41; N = 15, k = 4, M = 4, 10 competitors and 5000
  simulations at lines 81-85) are one admissible choice among others.
- The result frames' column labels and the `reset_index`/rename of the
  competitor table are not modelled. Rows are records with named fields.
