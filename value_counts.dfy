/**
 * The tally of one multi-price trial (`pd.Series(all_choices).value_counts()`)
 * and its first M entries (`.head(M).index`). Levels are ordered by count,
 * most frequent first; pandas leaves the order among equal counts open, and
 * this model breaks such ties by ascending level index.
 */
module ValueCounts {

  /** How often level `v` was chosen. */
  function Occurrences(choices: seq<nat>, v: nat): nat
  {
    if choices == [] then 0
    else Occurrences(choices[..|choices| - 1], v) + (if choices[|choices| - 1] == v then 1 else 0)
  }

  /** The tally of levels 0..n-1. */
  function Tally(choices: seq<nat>, n: nat): (counts: seq<nat>)
    ensures |counts| == n
  {
    seq(n, v requires 0 <= v < n => Occurrences(choices, v))
  }

  /** The counts of levels 0..n-1, added up. */
  function CountTotal(counts: seq<nat>): nat
  {
    if counts == [] then 0 else CountTotal(counts[..|counts| - 1]) + counts[|counts| - 1]
  }

  lemma {:induction false} OccurrencesSnoc(choices: seq<nat>, x: nat, v: nat)
    ensures Occurrences(choices + [x], v) == Occurrences(choices, v) + (if x == v then 1 else 0)
  {
    assert (choices + [x])[..|choices|] == choices;
  }

  lemma {:induction false} TallySnocTotal(choices: seq<nat>, x: nat, n: nat)
    ensures CountTotal(Tally(choices + [x], n)) == CountTotal(Tally(choices, n)) + (if x < n then 1 else 0)
  {
    if n > 0 {
      TallySnocTotal(choices, x, n - 1);
      OccurrencesSnoc(choices, x, n - 1);
      assert Tally(choices + [x], n)[..n - 1] == Tally(choices + [x], n - 1);
      assert Tally(choices, n)[..n - 1] == Tally(choices, n - 1);
    }
  }

  /** Every selection is tallied once: when all levels are below n, the counts add up to the selections. */
  lemma {:induction false} TallyTotal(choices: seq<nat>, n: nat)
    requires forall i :: 0 <= i < |choices| ==> choices[i] < n
    ensures CountTotal(Tally(choices, n)) == |choices|
  {
    if choices == [] {
      TallyEmpty(n);
    } else {
      var init, x := choices[..|choices| - 1], choices[|choices| - 1];
      assert choices == init + [x];
      TallyTotal(init, n);
      TallySnocTotal(init, x, n);
    }
  }

  lemma {:induction false} TallyEmpty(n: nat)
    ensures CountTotal(Tally([], n)) == 0
  {
    if n > 0 {
      TallyEmpty(n - 1);
      assert Tally([], n)[..n - 1] == Tally([], n - 1);
    }
  }

  lemma {:induction false} OccurrencesPositive(choices: seq<nat>, v: nat)
    ensures Occurrences(choices, v) > 0 <==> v in choices
  {
    if choices != [] {
      var init := choices[..|choices| - 1];
      OccurrencesPositive(init, v);
      assert choices == init + [choices[|choices| - 1]];
    }
  }

  // ----- the value_counts order -----

  /** Level `a` is listed before level `b`: it was chosen more often, or as often with a smaller index. */
  predicate Ahead(counts: seq<nat>, a: nat, b: nat)
  {
    a < |counts| && b < |counts| &&
    (counts[a] > counts[b] || (counts[a] == counts[b] && a < b))
  }

  predicate Listed(counts: seq<nat>, order: seq<nat>)
  {
    (forall i :: 0 <= i < |order| ==> order[i] < |counts|) &&
    (forall i, j :: 0 <= i < j < |order| ==> Ahead(counts, order[i], order[j]))
  }

  /** Puts `v` in front of the first entry it is ahead of. */
  function InsertLevel(counts: seq<nat>, v: nat, order: seq<nat>): seq<nat>
  {
    if order == [] then [v]
    else if Ahead(counts, v, order[0]) then [v] + order
    else [order[0]] + InsertLevel(counts, v, order[1..])
  }

  /** A level ahead of every listed level can be put in front. */
  lemma ConsListed(counts: seq<nat>, a: nat, order: seq<nat>)
    requires a < |counts| && Listed(counts, order)
    requires forall j :: 0 <= j < |order| ==> Ahead(counts, a, order[j])
    ensures Listed(counts, [a] + order)
  {
    var r := [a] + order;
    forall i, j | 0 <= i < j < |r| ensures Ahead(counts, r[i], r[j]) {
      if i == 0 {
        assert r[j] == order[j - 1];
      } else {
        assert r[i] == order[i - 1] && r[j] == order[j - 1];
      }
    }
  }

  /** Inserting a level that is not yet listed keeps the order and adds exactly that level. */
  lemma {:induction false} InsertLevelSpec(counts: seq<nat>, v: nat, order: seq<nat>)
    requires v < |counts| && v !in order && Listed(counts, order)
    ensures Listed(counts, InsertLevel(counts, v, order))
    ensures forall x :: x in InsertLevel(counts, v, order) <==> x == v || x in order
    ensures |InsertLevel(counts, v, order)| == |order| + 1
  {
    if order == [] {
    } else if Ahead(counts, v, order[0]) {
      forall j | 0 <= j < |order| ensures Ahead(counts, v, order[j]) {
        if j > 0 {
          assert Ahead(counts, order[0], order[j]);
        }
      }
      ConsListed(counts, v, order);
    } else {
      var rest := InsertLevel(counts, v, order[1..]);
      InsertLevelSpec(counts, v, order[1..]);
      forall j | 0 <= j < |rest| ensures Ahead(counts, order[0], rest[j]) {
        assert rest[j] in rest;
        if rest[j] != v {
          var k :| 0 <= k < |order[1..]| && order[1..][k] == rest[j];
          assert order[k + 1] == rest[j];
        }
      }
      ConsListed(counts, order[0], rest);
      assert order == [order[0]] + order[1..];
    }
  }

  /** The chosen levels among 0..m-1, in value_counts order. */
  function ChosenBelow(counts: seq<nat>, m: nat): seq<nat>
    requires m <= |counts|
  {
    if m == 0 then []
    else
      var prior := ChosenBelow(counts, m - 1);
      if counts[m - 1] > 0 then InsertLevel(counts, m - 1, prior) else prior
  }

  lemma {:induction false} ChosenBelowSpec(counts: seq<nat>, m: nat)
    requires m <= |counts|
    ensures Listed(counts, ChosenBelow(counts, m))
    ensures forall x: nat :: x in ChosenBelow(counts, m) <==> x < m && counts[x] > 0
  {
    if m > 0 {
      ChosenBelowSpec(counts, m - 1);
      if counts[m - 1] > 0 {
        InsertLevelSpec(counts, m - 1, ChosenBelow(counts, m - 1));
      }
    }
  }

  /** `value_counts().index`: every chosen level once, most frequent first. */
  function ValueCountOrder(counts: seq<nat>): seq<nat>
  {
    ChosenBelow(counts, |counts|)
  }

  /** The order lists exactly the levels with a positive count, each ahead of the ones after it. */
  lemma ValueCountOrderSpec(counts: seq<nat>)
    ensures Listed(counts, ValueCountOrder(counts))
    ensures forall x: nat :: x in ValueCountOrder(counts) <==> x < |counts| && counts[x] > 0
  {
    ChosenBelowSpec(counts, |counts|);
  }

  /** `.head(m).index`: the first m entries, or all when fewer levels were chosen. */
  function TopLevels(counts: seq<nat>, m: nat): seq<nat>
  {
    var order := ValueCountOrder(counts);
    if |order| <= m then order else order[..m]
  }

  lemma {:induction false} DistinctCardinality(xs: seq<nat>)
    requires forall i, j :: 0 <= i < j < |xs| ==> xs[i] != xs[j]
    ensures |set x: nat | x in xs| == |xs|
  {
    if xs != [] {
      var init, last := xs[..|xs| - 1], xs[|xs| - 1];
      DistinctCardinality(init);
      assert (set x: nat | x in xs) == (set x: nat | x in init) + {last};
      assert last !in (set x: nat | x in init) by {
        forall j | 0 <= j < |init| ensures init[j] != last {
          assert xs[j] != xs[|xs| - 1];
        }
      }
    }
  }

  /** The tally of a level is positive exactly when the level was chosen. */
  lemma ChosenLevels(choices: seq<nat>, n: nat)
    requires forall i :: 0 <= i < |choices| ==> choices[i] < n
    ensures forall x: nat :: x < n ==> (Tally(choices, n)[x] > 0 <==> x in choices)
    ensures forall x: nat :: x in ValueCountOrder(Tally(choices, n)) <==> x in choices
  {
    forall x: nat | x < n ensures Tally(choices, n)[x] > 0 <==> x in choices {
      OccurrencesPositive(choices, x);
    }
    ValueCountOrderSpec(Tally(choices, n));
  }

  /** `value_counts()` lists as many levels as were distinctly chosen. */
  lemma ValueCountOrderSize(choices: seq<nat>, n: nat)
    requires forall i :: 0 <= i < |choices| ==> choices[i] < n
    ensures |ValueCountOrder(Tally(choices, n))| == |set x: nat | x in choices|
  {
    var order := ValueCountOrder(Tally(choices, n));
    ChosenLevels(choices, n);
    ValueCountOrderSpec(Tally(choices, n));
    assert (set x: nat | x in choices) == (set x: nat | x in order);
    assert forall i, j :: 0 <= i < j < |order| ==> order[i] != order[j];
    DistinctCardinality(order);
  }

  /**
   * Each level `.head(m)` keeps was chosen at least as often as any level it
   * leaves out, and on equal counts has the smaller index.
   */
  lemma TopLevelsDominate(counts: seq<nat>, m: nat, a: nat, b: nat)
    requires a in TopLevels(counts, m) && b < |counts| && b !in TopLevels(counts, m)
    ensures a < |counts|
    ensures counts[a] > counts[b] || (counts[a] == counts[b] && a < b)
  {
    var order := ValueCountOrder(counts);
    ValueCountOrderSpec(counts);
    var top := TopLevels(counts, m);
    var i :| 0 <= i < |top| && top[i] == a;
    assert order[i] == a;
    if b in order {
      var j :| 0 <= j < |order| && order[j] == b;
      assert j >= |top|;
    }
  }

  /**
   * What `.head(m)` keeps of one trial's tally of `choices` over levels
   * 0..n-1: only levels that were chosen, none twice; exactly m of them, or
   * every chosen level when fewer than m distinct levels were chosen.
   */
  lemma TopLevelsSize(choices: seq<nat>, n: nat, m: nat, top: seq<nat>)
    requires forall i :: 0 <= i < |choices| ==> choices[i] < n
    requires top == TopLevels(Tally(choices, n), m)
    ensures forall i :: 0 <= i < |top| ==> top[i] < n && top[i] in choices
    ensures forall i, j :: 0 <= i < j < |top| ==> top[i] != top[j]
    ensures |top| == if |set x: nat | x in choices| <= m then |set x: nat | x in choices| else m
    ensures |set x: nat | x in choices| <= m ==> forall x :: x in choices ==> x in top
  {
    var order := ValueCountOrder(Tally(choices, n));
    ChosenLevels(choices, n);
    ValueCountOrderSpec(Tally(choices, n));
    ValueCountOrderSize(choices, n);
    forall i | 0 <= i < |top| ensures top[i] < n && top[i] in choices {
      assert top[i] in order;
    }
  }
}
