/**
 * The dashboard's classification rules: the sentiment CASE of the pie charts, the KPI counters,
 * the year buckets of the KPI query and the per-account positive and negative counters.
 * Scores are compared as reals; SQL `NULL` is `None`, for which every comparison fails.
 */
module Classification {
  import opened Wrappers
  import opened Cells

  const PositiveThreshold: real := 0.05
  const NegativeThreshold: real := -0.05

  datatype Label = Positive | Negative | Neutral

  /**
   * `CASE WHEN sentiment >= 0.05 THEN 'positive' WHEN sentiment <= -0.05 THEN 'negative'
   * ELSE 'neutral' END`: a `NULL` score falls through to `'neutral'`.
   */
  function PieLabel(sentiment: Option<real>): (l: Label)
    ensures l == Positive <==> sentiment.Some? && sentiment.value >= PositiveThreshold
    ensures l == Negative <==> sentiment.Some? && sentiment.value <= NegativeThreshold
    ensures l == Neutral <==> sentiment.None? || NegativeThreshold < sentiment.value < PositiveThreshold
  {
    if sentiment.Some? && sentiment.value >= PositiveThreshold then Positive
    else if sentiment.Some? && sentiment.value <= NegativeThreshold then Negative
    else Neutral
  }

  /** The KPI counters' three predicates (`count_pos`, `count_neg`, `count_neu`). */
  predicate CountsPositive(s: Option<real>) { s.Some? && s.value >= PositiveThreshold }
  predicate CountsNegative(s: Option<real>) { s.Some? && s.value <= NegativeThreshold }
  predicate CountsNeutral(s: Option<real>) { s.Some? && s.value < PositiveThreshold && s.value > NegativeThreshold }

  /** Every non-null score satisfies exactly one KPI predicate, and the pie agrees with them. */
  lemma KpiPredicatesPartition(s: real)
    ensures CountsPositive(Some(s)) || CountsNegative(Some(s)) || CountsNeutral(Some(s))
    ensures !(CountsPositive(Some(s)) && CountsNegative(Some(s)))
    ensures !(CountsPositive(Some(s)) && CountsNeutral(Some(s)))
    ensures !(CountsNegative(Some(s)) && CountsNeutral(Some(s)))
    ensures PieLabel(Some(s)) == Positive <==> CountsPositive(Some(s))
    ensures PieLabel(Some(s)) == Negative <==> CountsNegative(Some(s))
    ensures PieLabel(Some(s)) == Neutral <==> CountsNeutral(Some(s))
  {
  }

  /** A `NULL` score is a neutral slice of the pie but no KPI counter's. */
  lemma NullScoreDisagreement()
    ensures PieLabel(None) == Neutral
    ensures !CountsPositive(None) && !CountsNegative(None) && !CountsNeutral(None)
  {
  }

  /** The KPI counters of one group: the three `SUM(CASE …)` columns and `COUNT(*)`. */
  datatype Kpi = Kpi(pos: nat, neg: nat, neu: nat, total: nat)

  function Tally(scores: seq<Option<real>>): (k: Kpi)
    ensures k.total == |scores|
    ensures k.pos + k.neg + k.neu <= k.total
  {
    if scores == [] then Kpi(0, 0, 0, 0)
    else
      var rest := Tally(scores[1..]);
      var s := scores[0];
      Kpi(rest.pos + (if CountsPositive(s) then 1 else 0),
          rest.neg + (if CountsNegative(s) then 1 else 0),
          rest.neu + (if CountsNeutral(s) then 1 else 0),
          rest.total + 1)
  }

  /** How many scores are `NULL`. */
  function Nulls(scores: seq<Option<real>>): nat {
    if scores == [] then 0 else (if scores[0].None? then 1 else 0) + Nulls(scores[1..])
  }

  /**
   * The counters add up: `count_pos + count_neg + count_neu` is `count_total` less the `NULL`
   * scores, and so equals it when no score is `NULL`.
   */
  lemma {:induction false} TallyAddsUp(scores: seq<Option<real>>)
    ensures Tally(scores).total == |scores|
    ensures Tally(scores).pos + Tally(scores).neg + Tally(scores).neu + Nulls(scores) == Tally(scores).total
    ensures (forall k :: 0 <= k < |scores| ==> scores[k].Some?) ==>
      Tally(scores).pos + Tally(scores).neg + Tally(scores).neu == Tally(scores).total
  {
    if scores != [] {
      TallyAddsUp(scores[1..]);
      if scores[0].Some? {
        KpiPredicatesPartition(scores[0].value);
      }
      NullsZero(scores);
    }
  }

  lemma {:induction false} NullsZero(scores: seq<Option<real>>)
    ensures (forall k :: 0 <= k < |scores| ==> scores[k].Some?) ==> Nulls(scores) == 0
  {
    if scores != [] {
      NullsZero(scores[1..]);
      assert forall k :: 1 <= k < |scores| ==> scores[1..][k - 1] == scores[k];
    }
  }

  // ---------------------------------------------------------------------------------------
  // Year buckets of the KPI query

  /** `x BETWEEN lo AND hi`, both ends included. */
  predicate Between(t: DateTime, lo: DateTime, hi: DateTime) {
    NotAfter(lo, t) && NotAfter(t, hi)
  }

  /** The two year-to-date windows: `'2023-01-01'` to `'2023-07-21'` and the same dates in 2022. */
  predicate InWindow2023(t: DateTime) { Between(t, Midnight(2023, 1, 1), Midnight(2023, 7, 21)) }
  predicate InWindow2022(t: DateTime) { Between(t, Midnight(2022, 1, 1), Midnight(2022, 7, 21)) }

  /** The `Year` CASE: its windows tried in the source's order, 2023 first; `NULL` gets `'N/A'`. */
  function YearLabel(createdAt: Option<DateTime>): (year: string)
    ensures year == "2023" || year == "2022" || year == "N/A"
    ensures year == "2023" ==> createdAt.Some? && createdAt.value.year == 2023
    ensures year == "2022" ==> createdAt.Some? && createdAt.value.year == 2022
    ensures createdAt.None? ==> year == "N/A"
  {
    if createdAt.Some? && InWindow2023(createdAt.value) then "2023"
    else if createdAt.Some? && InWindow2022(createdAt.value) then "2022"
    else "N/A"
  }

  /** The `HAVING Year IN ('2022', '2023')` test. */
  predicate KeptYear(year: string) { year == "2022" || year == "2023" }

  /**
   * The windows are disjoint, so the order of the CASE does not matter, and each timestamp gets
   * the label of the window that contains it, or `'N/A'`.
   */
  lemma YearLabelExact(createdAt: Option<DateTime>)
    ensures createdAt.Some? ==> !(InWindow2022(createdAt.value) && InWindow2023(createdAt.value))
    ensures YearLabel(createdAt) == "2023" <==> createdAt.Some? && InWindow2023(createdAt.value)
    ensures YearLabel(createdAt) == "2022" <==> createdAt.Some? && InWindow2022(createdAt.value)
    ensures YearLabel(createdAt) == "N/A" <==> !KeptYear(YearLabel(createdAt))
    ensures YearLabel(createdAt) ==
      (if createdAt.Some? && InWindow2022(createdAt.value) then "2022"
       else if createdAt.Some? && InWindow2023(createdAt.value) then "2023"
       else "N/A")
  {
    if createdAt.Some? {
      var t := createdAt.value;
      if InWindow2022(t) {
        assert t.year == 2022;
      }
      if InWindow2023(t) {
        assert t.year == 2023;
      }
    }
  }

  /** A tweet joined with its account, as the dashboard queries see it. */
  datatype Post = Post(createdAt: Option<DateTime>, sentiment: Option<real>, party: Option<string>, accountType: Option<string>)

  /** `accounts.party IN ('D', 'R')`. */
  predicate MajorParty(p: Post) { p.party == Some("D") || p.party == Some("R") }

  /** The scores of the posts of a major party in the `year` group, in order. */
  function YearGroup(posts: seq<Post>, year: string): seq<Option<real>> {
    if posts == [] then []
    else
      var head := if MajorParty(posts[0]) && YearLabel(posts[0].createdAt) == year then [posts[0].sentiment] else [];
      head + YearGroup(posts[1..], year)
  }

  /**
   * The KPI query: the `WHERE`, the `GROUP BY Year`, the `HAVING`. A group exists only for a
   * year some post falls in.
   */
  function KpisByYear(posts: seq<Post>): (kpis: map<string, Kpi>)
    ensures forall y :: y in kpis ==> KeptYear(y) && kpis[y].total > 0
  {
    map y | y in {"2022", "2023"} && YearGroup(posts, y) != [] :: Tally(YearGroup(posts, y))
  }

  /** A post is in the group of `year` exactly when it is of a major party and labelled `year`. */
  lemma {:induction false} YearGroupMembers(posts: seq<Post>, year: string)
    ensures YearGroup(posts, year) != [] <==>
      exists k :: 0 <= k < |posts| && MajorParty(posts[k]) && YearLabel(posts[k].createdAt) == year
    ensures |YearGroup(posts, year)| <= |posts|
  {
    if posts != [] {
      YearGroupMembers(posts[1..], year);
      assert forall k :: 1 <= k < |posts| ==> posts[1..][k - 1] == posts[k];
    }
  }

  /**
   * The KPI result has no `'N/A'` group; a year is present exactly when some major-party post
   * falls in its window, and its counters add up to its `count_total` less its `NULL` scores.
   */
  lemma KpisByYearShape(posts: seq<Post>, year: string)
    ensures year in KpisByYear(posts) ==> KeptYear(year)
    ensures KeptYear(year) ==>
      (year in KpisByYear(posts) <==> exists k :: 0 <= k < |posts| && MajorParty(posts[k]) && YearLabel(posts[k].createdAt) == year)
    ensures year in KpisByYear(posts) ==>
      KpisByYear(posts)[year].pos + KpisByYear(posts)[year].neg + KpisByYear(posts)[year].neu
        + Nulls(YearGroup(posts, year)) == KpisByYear(posts)[year].total
  {
    YearGroupMembers(posts, year);
    if year in KpisByYear(posts) {
      assert KpisByYear(posts)[year] == Tally(YearGroup(posts, year));
      TallyAddsUp(YearGroup(posts, year));
    }
  }

  // ---------------------------------------------------------------------------------------
  // Per-account counters

  /** `count_negative` and `pct_negative` as written: `sentiment <= 0.05`. */
  predicate AccountNegative(s: Option<real>)
    ensures CountsNegative(s) || CountsNeutral(s) ==> AccountNegative(s)
    ensures AccountNegative(s) ==> s.Some?
  {
    s.Some? && s.value <= PositiveThreshold
  }

  /** The same counter with the pie's negative rule, `sentiment <= -0.05`. */
  predicate AccountNegativeCorrected(s: Option<real>) { CountsNegative(s) }

  /**
   * The per-account negative rule is not the pie's: it takes in every neutral score and the
   * positive boundary 0.05, which is then both positive (`count_positive`) and negative.
   */
  lemma AccountNegativeOverlaps(s: real)
    ensures AccountNegative(Some(s)) <==> PieLabel(Some(s)) != Positive || s == PositiveThreshold
    ensures AccountNegative(Some(PositiveThreshold)) && CountsPositive(Some(PositiveThreshold))
    ensures AccountNegative(Some(0.0)) && PieLabel(Some(0.0)) == Neutral
  {
  }

  /** With the corrected rule the per-account counters classify each score as the pie does. */
  lemma AccountNegativeCorrectedAgrees(s: Option<real>)
    ensures AccountNegativeCorrected(s) <==> s.Some? && PieLabel(s) == Negative
    ensures !(AccountNegativeCorrected(s) && CountsPositive(s))
  {
  }

  /** `SUM(CASE WHEN p(sentiment) THEN 1 ELSE 0 END)` over a group, for the three per-account rules. */
  function CountPositive(scores: seq<Option<real>>): (n: nat)
    ensures n + Nulls(scores) <= |scores|
  {
    if scores == [] then 0 else (if CountsPositive(scores[0]) then 1 else 0) + CountPositive(scores[1..])
  }

  function CountNegative(scores: seq<Option<real>>): (n: nat)
    ensures n + Nulls(scores) <= |scores|
  {
    if scores == [] then 0 else (if AccountNegative(scores[0]) then 1 else 0) + CountNegative(scores[1..])
  }

  function CountNegativeCorrected(scores: seq<Option<real>>): nat {
    if scores == [] then 0 else (if AccountNegativeCorrected(scores[0]) then 1 else 0) + CountNegativeCorrected(scores[1..])
  }

  /** How many scores are exactly the positive boundary 0.05. */
  function CountAtBoundary(scores: seq<Option<real>>): nat {
    if scores == [] then 0 else (if scores[0] == Some(PositiveThreshold) then 1 else 0) + CountAtBoundary(scores[1..])
  }

  /**
   * As written, `count_negative` is the pie's negatives plus its neutrals plus the scores at
   * 0.05, and `count_positive + count_negative` exceeds the non-null count by the latter.
   */
  lemma {:induction false} CountNegativeOvercounts(scores: seq<Option<real>>)
    ensures CountNegative(scores) == Tally(scores).neg + Tally(scores).neu + CountAtBoundary(scores)
    ensures CountPositive(scores) + CountNegative(scores) == |scores| - Nulls(scores) + CountAtBoundary(scores)
  {
    if scores != [] {
      CountNegativeOvercounts(scores[1..]);
      TallyAddsUp(scores);
      TallyAddsUp(scores[1..]);
      PositiveIsKpi(scores);
    }
  }

  lemma {:induction false} PositiveIsKpi(scores: seq<Option<real>>)
    ensures CountPositive(scores) == Tally(scores).pos
  {
    if scores != [] {
      PositiveIsKpi(scores[1..]);
    }
  }

  /**
   * With the corrected rule the per-account counters agree with the KPI ones, so positives,
   * negatives and the remaining neutrals and `NULL`s add up to the group's size.
   */
  lemma {:induction false} CountNegativeCorrectedPartition(scores: seq<Option<real>>)
    ensures CountNegativeCorrected(scores) == Tally(scores).neg
    ensures CountPositive(scores) + CountNegativeCorrected(scores) + Tally(scores).neu + Nulls(scores) == |scores|
  {
    if scores != [] {
      CountNegativeCorrectedPartition(scores[1..]);
    }
    PositiveIsKpi(scores);
    TallyAddsUp(scores);
  }
}
