/**
 * Competitor profiling (`BidAnalyzer._analyze_competitors`): the bid
 * history grouped by bidder, with each bidder's mean win rate, the spread
 * of its win rates and its number of records. The spread is carried as the
 * sample variance, the square of pandas' `std`.
 */
module Profiling {
  import opened Wrappers
  import opened Numeric

  /** One prepared history row, reduced to what profiling reads. */
  datatype BidRecord = BidRecord(bidder: string, winRate: real)

  /**
   * One row of the competitor table. `winRateVariance` is the square of the
   * `std` column; None stands for NaN.
   */
  datatype CompetitorStat = CompetitorStat(
    bidder: string,
    meanWinRate: real,
    winRateVariance: Option<real>,
    participationCount: nat)

  // ----- the order in which `groupby` lists its keys -----

  /** Code-point lexicographic order on names (Python's `<` on `str`). */
  predicate Below(a: string, b: string)
  {
    if a == [] then b != []
    else if b == [] then false
    else if a[0] != b[0] then a[0] < b[0]
    else Below(a[1..], b[1..])
  }

  lemma {:induction false} BelowIrreflexive(a: string)
    ensures !Below(a, a)
  {
    if a != [] {
      BelowIrreflexive(a[1..]);
    }
  }

  lemma {:induction false} BelowTransitive(a: string, b: string, c: string)
    requires Below(a, b) && Below(b, c)
    ensures Below(a, c)
  {
    if a != [] && b != [] && c != [] && a[0] == b[0] && b[0] == c[0] {
      BelowTransitive(a[1..], b[1..], c[1..]);
    }
  }

  lemma {:induction false} BelowTotal(a: string, b: string)
    requires a != b
    ensures Below(a, b) || Below(b, a)
  {
    if a != [] && b != [] && a[0] == b[0] {
      assert a == [a[0]] + a[1..] && b == [b[0]] + b[1..];
      BelowTotal(a[1..], b[1..]);
    }
  }

  predicate StrictlyAscending(keys: seq<string>)
  {
    forall i, j :: 0 <= i < j < |keys| ==> Below(keys[i], keys[j])
  }

  /** `b` into an ascending key list, unless it is already there. */
  function InsertKey(b: string, keys: seq<string>): (r: seq<string>)
    requires StrictlyAscending(keys)
    ensures StrictlyAscending(r)
    ensures forall x :: x in r <==> x == b || x in keys
  {
    if keys == [] then [b]
    else if b == keys[0] then keys
    else if Below(b, keys[0]) then
      assert forall j :: 0 <= j < |keys| ==> Below(b, keys[j]) by {
        forall j | 0 <= j < |keys| ensures Below(b, keys[j]) {
          if j > 0 { BelowTransitive(b, keys[0], keys[j]); }
        }
      }
      [b] + keys
    else
      BelowTotal(b, keys[0]);
      var rest := InsertKey(b, keys[1..]);
      assert forall j :: 0 <= j < |rest| ==> Below(keys[0], rest[j]) by {
        forall j | 0 <= j < |rest| ensures Below(keys[0], rest[j]) {
          assert rest[j] in rest;
        }
      }
      [keys[0]] + rest
  }

  predicate IsBidder(records: seq<BidRecord>, b: string)
  {
    exists i :: 0 <= i < |records| && records[i].bidder == b
  }

  /** The distinct bidders, in ascending order, as `groupby` lists them. */
  function GroupKeys(records: seq<BidRecord>): (keys: seq<string>)
    ensures StrictlyAscending(keys)
    ensures forall b :: b in keys <==> IsBidder(records, b)
  {
    if records == [] then []
    else
      var init := records[..|records| - 1];
      var keys := InsertKey(records[|records| - 1].bidder, GroupKeys(init));
      assert forall b :: IsBidder(records, b) <==> IsBidder(init, b) || b == records[|records| - 1].bidder by {
        forall b | IsBidder(init, b) ensures IsBidder(records, b) {
          var i :| 0 <= i < |init| && init[i].bidder == b;
          assert records[i] == init[i];
        }
      }
      keys
  }

  // ----- the aggregates -----

  /** The win rates of bidder `b`, in record order. */
  function RatesOf(records: seq<BidRecord>, b: string): seq<real>
  {
    if records == [] then []
    else
      var r := records[|records| - 1];
      RatesOf(records[..|records| - 1], b) + (if r.bidder == b then [r.winRate] else [])
  }

  /** The whole win-rate column. */
  function AllRates(records: seq<BidRecord>): (rates: seq<real>)
    ensures |rates| == |records|
    ensures forall i :: 0 <= i < |records| ==> rates[i] == records[i].winRate
  {
    if records == [] then [] else AllRates(records[..|records| - 1]) + [records[|records| - 1].winRate]
  }

  /** Line 37's fill value: `std` of the whole column, NaN with fewer than two records. */
  function TableVariance(records: seq<BidRecord>): Option<real>
  {
    if |records| >= 2 then Some(SampleVariance(AllRates(records))) else None
  }

  /** The statistics row of one bidder (lines 35-37). */
  function StatOf(records: seq<BidRecord>, b: string): CompetitorStat
    requires |RatesOf(records, b)| > 0
  {
    var rates := RatesOf(records, b);
    CompetitorStat(
      b,
      Mean(rates),
      if |rates| >= 2 then Some(SampleVariance(rates)) else TableVariance(records),
      |rates|)
  }

  lemma {:induction false} RatesOfBidder(records: seq<BidRecord>, b: string)
    ensures |RatesOf(records, b)| > 0 <==> IsBidder(records, b)
  {
    if records != [] {
      var init := records[..|records| - 1];
      RatesOfBidder(init, b);
      if IsBidder(init, b) {
        var i :| 0 <= i < |init| && init[i].bidder == b;
        assert records[i] == init[i];
      }
      if IsBidder(records, b) && records[|records| - 1].bidder != b {
        var i :| 0 <= i < |records| && records[i].bidder == b;
        assert init[i] == records[i];
      }
    }
  }

  /** `_analyze_competitors`: one statistics row per group key, in key order. */
  function AnalyzeCompetitors(records: seq<BidRecord>): (stats: seq<CompetitorStat>)
    ensures |stats| == |GroupKeys(records)|
  {
    var keys := GroupKeys(records);
    seq(|keys|, i requires 0 <= i < |keys| =>
      RatesOfBidder(records, keys[i]);
      StatOf(records, keys[i]))
  }

  // ----- what the table satisfies -----

  /**
   * One row per distinct bidder: the rows' bidders strictly ascend (so no
   * bidder appears twice), and a name has a row exactly when it bids in
   * the history.
   */
  lemma OneRowPerBidder(records: seq<BidRecord>, stats: seq<CompetitorStat>)
    requires stats == AnalyzeCompetitors(records)
    ensures forall i, j :: 0 <= i < j < |stats| ==> Below(stats[i].bidder, stats[j].bidder) && stats[i].bidder != stats[j].bidder
    ensures forall b :: IsBidder(records, b) <==> exists i :: 0 <= i < |stats| && stats[i].bidder == b
  {
    var keys := GroupKeys(records);
    forall i, j | 0 <= i < j < |stats|
      ensures Below(stats[i].bidder, stats[j].bidder) && stats[i].bidder != stats[j].bidder
    {
      BelowIrreflexive(keys[i]);
    }
    forall b | IsBidder(records, b)
      ensures exists i :: 0 <= i < |stats| && stats[i].bidder == b
    {
      var i :| 0 <= i < |keys| && keys[i] == b;
      assert stats[i].bidder == b;
    }
  }

  /** Number of positions of `keys` holding `x`. */
  function KeyHits(keys: seq<string>, x: string): nat
  {
    if keys == [] then 0 else KeyHits(keys[..|keys| - 1], x) + (if keys[|keys| - 1] == x then 1 else 0)
  }

  predicate Distinct(keys: seq<string>)
  {
    forall i, j :: 0 <= i < j < |keys| ==> keys[i] != keys[j]
  }

  lemma {:induction false} KeyHitsOnce(keys: seq<string>, x: string)
    requires Distinct(keys)
    ensures KeyHits(keys, x) == if x in keys then 1 else 0
  {
    if keys != [] {
      var init := keys[..|keys| - 1];
      KeyHitsOnce(init, x);
      assert keys == init + [keys[|keys| - 1]];
      if keys[|keys| - 1] == x {
        assert x !in init by {
          forall j | 0 <= j < |init| ensures init[j] != x {
            assert keys[j] != keys[|keys| - 1];
          }
        }
      }
    }
  }

  /** The record counts of the bidders listed in `keys`, added up. */
  function CountSum(records: seq<BidRecord>, keys: seq<string>): nat
  {
    if keys == [] then 0 else CountSum(records, keys[..|keys| - 1]) + |RatesOf(records, keys[|keys| - 1])|
  }

  lemma {:induction false} CountSumSnoc(init: seq<BidRecord>, r: BidRecord, keys: seq<string>)
    ensures CountSum(init + [r], keys) == CountSum(init, keys) + KeyHits(keys, r.bidder)
  {
    assert (init + [r])[..|init|] == init;
    if keys != [] {
      CountSumSnoc(init, r, keys[..|keys| - 1]);
    }
  }

  lemma {:induction false} CountSumCovers(records: seq<BidRecord>, keys: seq<string>)
    requires Distinct(keys)
    requires forall b :: IsBidder(records, b) ==> b in keys
    ensures CountSum(records, keys) == |records|
  {
    if records == [] {
      CountSumEmpty(keys);
    } else {
      var init, r := records[..|records| - 1], records[|records| - 1];
      forall b | IsBidder(init, b) ensures b in keys {
        IsBidderOfPrefix(records, b);
      }
      CountSumCovers(init, keys);
      CountSumSnoc(init, r, keys);
      assert records == init + [r];
      assert IsBidder(records, r.bidder) by {
        assert records[|records| - 1].bidder == r.bidder;
      }
      KeyHitsOnce(keys, r.bidder);
    }
  }

  lemma IsBidderOfPrefix(records: seq<BidRecord>, b: string)
    requires records != [] && IsBidder(records[..|records| - 1], b)
    ensures IsBidder(records, b)
  {
    var init := records[..|records| - 1];
    var i :| 0 <= i < |init| && init[i].bidder == b;
    assert records[i] == init[i];
  }

  lemma {:induction false} CountSumEmpty(keys: seq<string>)
    ensures CountSum([], keys) == 0
  {
    if keys != [] {
      CountSumEmpty(keys[..|keys| - 1]);
    }
  }

  /** The participation column, added up. */
  function TotalParticipation(stats: seq<CompetitorStat>): nat
  {
    if stats == [] then 0 else TotalParticipation(stats[..|stats| - 1]) + stats[|stats| - 1].participationCount
  }

  lemma {:induction false} TotalParticipationIsCountSum(records: seq<BidRecord>, keys: seq<string>, stats: seq<CompetitorStat>)
    requires |stats| == |keys|
    requires forall i :: 0 <= i < |keys| ==> stats[i].participationCount == |RatesOf(records, keys[i])|
    ensures TotalParticipation(stats) == CountSum(records, keys)
  {
    if keys != [] {
      TotalParticipationIsCountSum(records, keys[..|keys| - 1], stats[..|stats| - 1]);
    }
  }

  /** The participation counts add up to the number of records. */
  lemma ParticipationSumsToRecords(records: seq<BidRecord>)
    ensures TotalParticipation(AnalyzeCompetitors(records)) == |records|
  {
    var keys := GroupKeys(records);
    assert Distinct(keys) by {
      forall i, j | 0 <= i < j < |keys| ensures keys[i] != keys[j] {
        BelowIrreflexive(keys[i]);
      }
    }
    TotalParticipationIsCountSum(records, keys, AnalyzeCompetitors(records));
    CountSumCovers(records, keys);
  }

  /** The positions of the bidder's records. */
  ghost function OwnIndices(records: seq<BidRecord>, b: string): set<int>
  {
    set i | 0 <= i < |records| && records[i].bidder == b
  }

  /** The positions of the bidder's records that carry win rate `x`. */
  ghost function RateIndices(records: seq<BidRecord>, b: string, x: real): set<int>
  {
    set i | 0 <= i < |records| && records[i].bidder == b && records[i].winRate == x
  }

  /**
   * `RatesOf` holds one entry per record of the bidder, each that record's
   * win rate: as many entries as the bidder has records, and each rate as
   * often as the bidder's records carry it.
   */
  lemma RatesOfExactly(records: seq<BidRecord>, b: string)
    ensures forall x :: x in RatesOf(records, b) ==> exists i :: 0 <= i < |records| && records[i].bidder == b && records[i].winRate == x
    ensures forall i :: 0 <= i < |records| && records[i].bidder == b ==> records[i].winRate in RatesOf(records, b)
    ensures |RatesOf(records, b)| == |OwnIndices(records, b)|
    ensures forall x :: multiset(RatesOf(records, b))[x] == |RateIndices(records, b, x)|
  {
    RatesOfMembers(records, b);
    RatesOfLength(records, b);
    forall x ensures multiset(RatesOf(records, b))[x] == |RateIndices(records, b, x)| {
      RatesOfMultiplicity(records, b, x);
    }
  }

  lemma {:induction false} RatesOfMembers(records: seq<BidRecord>, b: string)
    ensures forall x :: x in RatesOf(records, b) ==> exists i :: 0 <= i < |records| && records[i].bidder == b && records[i].winRate == x
    ensures forall i :: 0 <= i < |records| && records[i].bidder == b ==> records[i].winRate in RatesOf(records, b)
  {
    if records != [] {
      var init := records[..|records| - 1];
      RatesOfMembers(init, b);
      forall x | x in RatesOf(records, b)
        ensures exists i :: 0 <= i < |records| && records[i].bidder == b && records[i].winRate == x
      {
        if x in RatesOf(init, b) {
          var i :| 0 <= i < |init| && init[i].bidder == b && init[i].winRate == x;
          assert records[i] == init[i];
        } else {
          assert records[|records| - 1].bidder == b && records[|records| - 1].winRate == x;
        }
      }
      forall i | 0 <= i < |records| && records[i].bidder == b
        ensures records[i].winRate in RatesOf(records, b)
      {
        if i < |init| {
          assert init[i] == records[i];
        }
      }
    }
  }

  /** Appending a record adds its position exactly when it is the bidder's. */
  lemma OwnIndicesSnoc(records: seq<BidRecord>, init: seq<BidRecord>, b: string)
    requires records != [] && init == records[..|records| - 1]
    ensures OwnIndices(records, b) ==
      OwnIndices(init, b) + (if records[|init|].bidder == b then {|init|} else {})
  {
    var n := |init|;
    var extra := if records[n].bidder == b then {n} else {};
    forall i | i in OwnIndices(records, b) ensures i in OwnIndices(init, b) + extra {
      if i < n {
        assert records[i] == init[i];
      }
    }
    forall i | i in OwnIndices(init, b) + extra ensures i in OwnIndices(records, b) {
      if i < n {
        assert records[i] == init[i];
      }
    }
  }

  /** The same for the bidder's records that carry win rate `x`. */
  lemma RateIndicesSnoc(records: seq<BidRecord>, init: seq<BidRecord>, b: string, x: real)
    requires records != [] && init == records[..|records| - 1]
    ensures RateIndices(records, b, x) ==
      RateIndices(init, b, x) + (if records[|init|].bidder == b && records[|init|].winRate == x then {|init|} else {})
  {
    var n := |init|;
    var extra := if records[n].bidder == b && records[n].winRate == x then {n} else {};
    forall i | i in RateIndices(records, b, x) ensures i in RateIndices(init, b, x) + extra {
      if i < n {
        assert records[i] == init[i];
      }
    }
    forall i | i in RateIndices(init, b, x) + extra ensures i in RateIndices(records, b, x) {
      if i < n {
        assert records[i] == init[i];
      }
    }
  }

  lemma {:induction false} RatesOfLength(records: seq<BidRecord>, b: string)
    ensures |RatesOf(records, b)| == |OwnIndices(records, b)|
  {
    if records == [] {
      assert OwnIndices(records, b) == {};
    } else {
      var init := records[..|records| - 1];
      RatesOfLength(init, b);
      OwnIndicesSnoc(records, init, b);
      assert |init| !in OwnIndices(init, b);
    }
  }

  lemma {:induction false} RatesOfMultiplicity(records: seq<BidRecord>, b: string, x: real)
    ensures multiset(RatesOf(records, b))[x] == |RateIndices(records, b, x)|
  {
    if records == [] {
      assert RateIndices(records, b, x) == {};
    } else {
      var init, last := records[..|records| - 1], records[|records| - 1];
      RatesOfMultiplicity(init, b, x);
      RateIndicesSnoc(records, init, b, x);
      assert |init| !in RateIndices(init, b, x);
      var tail := if last.bidder == b then [last.winRate] else [];
      assert RatesOf(records, b) == RatesOf(init, b) + tail;
      assert multiset(RatesOf(records, b)) == multiset(RatesOf(init, b)) + multiset(tail);
    }
  }

  /**
   * A bidder's mean win rate is the mean of its own win rates (which
   * `RatesOfExactly` ties to the bidder's records): it lies between any
   * bounds that all of that bidder's own win rates respect.
   */
  lemma MeanOfOwnRates(records: seq<BidRecord>, i: nat, lo: real, hi: real)
    requires i < |AnalyzeCompetitors(records)|
    requires forall j :: 0 <= j < |records| && records[j].bidder == AnalyzeCompetitors(records)[i].bidder ==>
      lo <= records[j].winRate <= hi
    ensures |RatesOf(records, AnalyzeCompetitors(records)[i].bidder)| > 0
      && AnalyzeCompetitors(records)[i].meanWinRate == Mean(RatesOf(records, AnalyzeCompetitors(records)[i].bidder))
    ensures lo <= AnalyzeCompetitors(records)[i].meanWinRate <= hi
  {
    var b := GroupKeys(records)[i];
    var rates := RatesOf(records, b);
    RatesOfBidder(records, b);
    RatesOfExactly(records, b);
    forall k | 0 <= k < |rates| ensures lo <= rates[k] <= hi {
      assert rates[k] in rates;
    }
    MeanWithin(rates, lo, hi);
  }

  /**
   * The spread column: a bidder with two records or more gets the sample
   * variance of its own rates; a bidder with one record gets that of the
   * whole column. The spread is defined (not NaN) exactly when the history
   * has two records or more, and it is never negative.
   */
  lemma SpreadBackfilled(records: seq<BidRecord>, i: nat)
    requires i < |AnalyzeCompetitors(records)|
    ensures var st := AnalyzeCompetitors(records)[i];
      var rates := RatesOf(records, st.bidder);
      st.participationCount == |rates| >= 1 &&
      (st.participationCount >= 2 ==> st.winRateVariance == Some(SampleVariance(rates))) &&
      (st.participationCount == 1 ==> st.winRateVariance == TableVariance(records)) &&
      (st.winRateVariance.Some? <==> |records| >= 2) &&
      (st.winRateVariance.Some? ==> st.winRateVariance.value >= 0.0)
  {
    var b := GroupKeys(records)[i];
    var rates := RatesOf(records, b);
    RatesOfBidder(records, b);
    RatesOfCount(records, b);
    if |rates| >= 2 {
      SampleVarianceNonNegative(rates);
    }
    if |records| >= 2 {
      SampleVarianceNonNegative(AllRates(records));
    }
  }

  lemma {:induction false} RatesOfCount(records: seq<BidRecord>, b: string)
    ensures |RatesOf(records, b)| <= |records|
  {
    if records != [] {
      RatesOfCount(records[..|records| - 1], b);
    }
  }
}
