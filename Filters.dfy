/**
 * The page filters of the dashboard: the year range and the members-only switch of the sidebar,
 * the date literals and account-type list spliced into every filtered query, and the `WHERE`
 * clause they make up. The date literal is cast to a timestamp, that is to midnight of that day.
 */
module Filters {
  import opened Wrappers
  import opened Cells
  import opened Classification

  /** The sidebar's choices: `begin_year`, `end_year`, `show_members_only`. */
  datatype PageOptions = PageOptions(beginYear: string, endYear: string, showMembersOnly: bool)

  /** The years the range slider offers. */
  const SliderYears: seq<string> := ["2017", "2018", "2019", "2020", "2021", "2022", "2023"]

  /** `begin_date`, the literal for 1 January of the first year: midnight of that day once cast. */
  function BeginDate(options: PageOptions): (date: string)
    ensures IsYear(options.beginYear) ==> DateLiteral(date) == Some(Midnight(DigitsValue(options.beginYear), 1, 1))
  {
    var date := options.beginYear + "-01-01";
    if IsYear(options.beginYear) then BeginLiteral(options.beginYear); date else date
  }

  /** `end_date`, the literal for 31 December of the last year: midnight of that day once cast. */
  function EndDate(options: PageOptions): (date: string)
    ensures IsYear(options.endYear) ==> DateLiteral(date) == Some(Midnight(DigitsValue(options.endYear), 12, 31))
  {
    var date := options.endYear + "-12-31";
    if IsYear(options.endYear) then EndLiteral(options.endYear); date else date
  }

  /** The account types the filter admits, and the SQL list text the queries splice in. */
  const MemberTypes: seq<string> := ["member"]
  const AllTypes: seq<string> := ["committee", "member", "caucus", "party"]

  function AccountTypes(options: PageOptions): seq<string> {
    if options.showMembersOnly then MemberTypes else AllTypes
  }

  /** The list text the queries splice in: exactly the quoted list of the admitted types. */
  function AccountTypesSql(options: PageOptions): (sql: string)
    ensures sql == SqlList(AccountTypes(options))
  {
    if options.showMembersOnly then "'member'"
    else AllTypesRendered(); "'committee', 'member', 'caucus', 'party'"
  }

  /** A list of SQL string literals separated by `", "`. */
  function SqlList(items: seq<string>): string {
    if items == [] then ""
    else if |items| == 1 then "'" + items[0] + "'"
    else "'" + items[0] + "', " + SqlList(items[1..])
  }

  /** The full type list, quoted and joined, is the literal the queries splice in. */
  lemma AllTypesRendered()
    ensures SqlList(AllTypes) == "'committee', 'member', 'caucus', 'party'"
  {
    var p := ["party"];
    var cp := ["caucus"] + p;
    var mcp := ["member"] + cp;
    assert AllTypes == ["committee"] + mcp;
    assert SqlList(p) == "'party'";
    SqlListCons("caucus", p);
    SplitCaucus();
    SqlListCons("member", cp);
    SplitMember();
    SqlListCons("committee", mcp);
    SplitCommittee();
  }

  // The literal's suffixes, each split at its first item. They are separate lemmas because the
  // solver compares literal strings character by character, and the three together in one proof
  // exceed its resource budget.
  lemma SplitCaucus()
    ensures "'caucus', 'party'" == "'" + "caucus" + "', " + "'party'"
  {
  }

  lemma SplitMember()
    ensures "'member', 'caucus', 'party'" == "'" + "member" + "', " + "'caucus', 'party'"
  {
  }

  lemma SplitCommittee()
    ensures "'committee', 'member', 'caucus', 'party'" == "'" + "committee" + "', " + "'member', 'caucus', 'party'"
  {
  }

  lemma {:induction false} SqlListCons(item: string, rest: seq<string>)
    requires rest != []
    ensures SqlList([item] + rest) == "'" + item + "', " + SqlList(rest)
  {
    assert ([item] + rest)[1..] == rest;
  }

  /** Switching members-only on narrows the admitted types to `member`, which the full list contains. */
  lemma MembersOnlyNarrows(beginYear: string, endYear: string)
    ensures AccountTypes(PageOptions(beginYear, endYear, true)) == ["member"]
    ensures forall t :: t in AccountTypes(PageOptions(beginYear, endYear, true)) ==>
      t in AccountTypes(PageOptions(beginYear, endYear, false))
    ensures "committee" in AccountTypes(PageOptions(beginYear, endYear, false))
      && "committee" !in AccountTypes(PageOptions(beginYear, endYear, true))
  {
  }

  // ---------------------------------------------------------------------------------------
  // Date literals

  predicate IsDigit(c: char) { '0' <= c <= '9' }

  predicate AllDigits(s: string) { forall i :: 0 <= i < |s| ==> IsDigit(s[i]) }

  /** The decimal value of a digit string. */
  function DigitsValue(s: string): nat
    requires AllDigits(s)
  {
    if s == [] then 0 else DigitsValue(s[..|s| - 1]) * 10 + (s[|s| - 1] - '0') as nat
  }

  predicate IsLeapYear(year: int) { year % 4 == 0 && (year % 100 != 0 || year % 400 == 0) }

  function DaysInMonth(year: int, month: int): int {
    if month == 2 then (if IsLeapYear(year) then 29 else 28)
    else if month in {4, 6, 9, 11} then 30
    else 31
  }

  /** A well-formed time of a real calendar day. */
  predicate ValidDateTime(t: DateTime) {
    1 <= t.month <= 12 && 1 <= t.day <= DaysInMonth(t.year, t.month)
    && 0 <= t.hour < 24 && 0 <= t.minute < 60 && 0 <= t.second < 60
  }

  /**
   * A `'YYYY-MM-DD'` literal cast to a timestamp: midnight of that day, or `None` where the
   * database would refuse the conversion.
   */
  function DateLiteral(s: string): (r: Option<DateTime>)
    ensures r.Some? ==> ValidDateTime(r.value) && r.value.hour == 0 && r.value.minute == 0 && r.value.second == 0
  {
    if |s| == 10 && AllDigits(s[..4]) && s[4] == '-' && AllDigits(s[5..7]) && s[7] == '-' && AllDigits(s[8..])
      && 1 <= DigitsValue(s[5..7]) <= 12
      && 1 <= DigitsValue(s[8..]) <= DaysInMonth(DigitsValue(s[..4]), DigitsValue(s[5..7]))
    then Some(Midnight(DigitsValue(s[..4]), DigitsValue(s[5..7]), DigitsValue(s[8..])))
    else None
  }

  /** A year the slider can deliver: four digits. */
  predicate IsYear(year: string) { |year| == 4 && AllDigits(year) }

  lemma SliderYearsAreYears()
    ensures forall y :: y in SliderYears ==> IsYear(y)
  {
  }

  /** The two literals of the date filter, as timestamps. */
  function DateBounds(options: PageOptions): Option<(DateTime, DateTime)> {
    var lo := DateLiteral(BeginDate(options));
    var hi := DateLiteral(EndDate(options));
    if lo.Some? && hi.Some? then Some((lo.value, hi.value)) else None
  }

  lemma {:induction false} DigitsOfDate(year: string, tail: string)
    requires IsYear(year)
    ensures (year + tail)[..4] == year
  {
    assert (year + tail)[..4] == year[..4];
  }

  /**
   * For four-digit years the filter runs from midnight of 1 January of the first year to
   * midnight of 31 December of the last: not to the end of that day.
   */
  lemma DateBoundsOfYears(options: PageOptions)
    requires IsYear(options.beginYear) && IsYear(options.endYear)
    ensures DateBounds(options) ==
      Some((Midnight(DigitsValue(options.beginYear), 1, 1), Midnight(DigitsValue(options.endYear), 12, 31)))
  {
  }

  lemma BeginLiteral(year: string)
    requires IsYear(year)
    ensures DateLiteral(year + "-01-01") == Some(Midnight(DigitsValue(year), 1, 1))
  {
    var b := year + "-01-01";
    DigitsOfDate(year, "-01-01");
    assert b[5..7] == "01" && b[8..] == "01";
    assert DigitsValue("01") == 1;
  }

  lemma EndLiteral(year: string)
    requires IsYear(year)
    ensures DateLiteral(year + "-12-31") == Some(Midnight(DigitsValue(year), 12, 31))
  {
    var e := year + "-12-31";
    DigitsOfDate(year, "-12-31");
    assert e[5..7] == "12" && e[8..] == "31";
    assert DigitsValue("12") == 12;
    assert DigitsValue("31") == 31;
  }

  /**
   * `created_at BETWEEN begin_date AND end_date` as written: both literals as timestamps,
   * both ends included; a `NULL` timestamp admits nothing. A literal that does not cast makes
   * DuckDB raise a conversion error for the whole query; the model then admits nothing, a case
   * the slider's four-digit years never reach. What it admits lies in the intended year range.
   */
  predicate InDateRange(createdAt: Option<DateTime>, options: PageOptions)
    ensures InDateRange(createdAt, options) ==> InYearRange(createdAt, options)
  {
    var bounds := DateBounds(options);
    createdAt.Some? && bounds.Some? && Between(createdAt.value, bounds.value.0, bounds.value.1)
  }

  /**
   * The full `WHERE` clause of the per-party queries: party, date range, account type. A
   * selected post is of that party and of one of the four account types, and lies in the
   * selected years.
   */
  predicate Selected(post: Post, options: PageOptions, party: string)
    ensures Selected(post, options, party) ==>
      post.party == Some(party) && post.accountType.Some? && post.accountType.value in AllTypes
      && InYearRange(post.createdAt, options)
  {
    post.party == Some(party) && InDateRange(post.createdAt, options)
    && post.accountType.Some? && post.accountType.value in AccountTypes(options)
  }

  /** Members-only selects a subset of what the full type list selects. */
  lemma MembersOnlySelectsFewer(post: Post, beginYear: string, endYear: string, party: string)
    ensures Selected(post, PageOptions(beginYear, endYear, true), party) ==>
      Selected(post, PageOptions(beginYear, endYear, false), party)
  {
  }

  /**
   * Under the as-written filter a timestamp of a valid day is admitted exactly when its year
   * lies in the range and it is not later than midnight on 31 December of the last year.
   */
  lemma InDateRangeExact(t: DateTime, options: PageOptions)
    requires IsYear(options.beginYear) && IsYear(options.endYear)
    requires ValidDateTime(t)
    ensures InDateRange(Some(t), options) <==>
      DigitsValue(options.beginYear) <= t.year <= DigitsValue(options.endYear)
      && !(t.year == DigitsValue(options.endYear) && t.month == 12 && t.day == 31 && t != Midnight(t.year, 12, 31))
  {
    DateBoundsOfYears(options);
  }

  /** The afternoon of the last day of the range is left out, though its year is selected. */
  lemma LastDayExcluded(options: PageOptions)
    requires IsYear(options.beginYear) && IsYear(options.endYear)
    requires DigitsValue(options.beginYear) <= DigitsValue(options.endYear)
    ensures !InDateRange(Some(DateTime(DigitsValue(options.endYear), 12, 31, 12, 0, 0)), options)
    ensures InYearRange(Some(DateTime(DigitsValue(options.endYear), 12, 31, 12, 0, 0)), options)
  {
    DateBoundsOfYears(options);
  }

  /**
   * The evidently intended filter: every time of every day of the selected years, that is
   * from midnight of 1 January of the first year up to, not including, midnight of 1 January
   * after the last.
   */
  predicate InYearRange(createdAt: Option<DateTime>, options: PageOptions) {
    var lo := DateLiteral(BeginDate(options));
    var hi := DateLiteral(EndDate(options));
    createdAt.Some? && lo.Some? && hi.Some?
    && NotAfter(lo.value, createdAt.value) && !NotAfter(Midnight(hi.value.year + 1, 1, 1), createdAt.value)
  }

  /** The intended filter admits a valid timestamp exactly when its year is in the range. */
  lemma InYearRangeExact(t: DateTime, options: PageOptions)
    requires IsYear(options.beginYear) && IsYear(options.endYear)
    requires ValidDateTime(t)
    ensures InYearRange(Some(t), options) <==>
      DigitsValue(options.beginYear) <= t.year <= DigitsValue(options.endYear)
    ensures InDateRange(Some(t), options) ==> InYearRange(Some(t), options)
  {
    DateBoundsOfYears(options);
  }

  // ---------------------------------------------------------------------------------------
  // The pie query

  /** `COUNT(*)` of the selected posts of `party` in the `slice` slice. */
  function SliceCount(posts: seq<Post>, options: PageOptions, party: string, slice: Label): (n: nat)
    ensures n <= SelectedCount(posts, options, party)
  {
    if posts == [] then 0
    else
      var head := if Selected(posts[0], options, party) && PieLabel(posts[0].sentiment) == slice then 1 else 0;
      head + SliceCount(posts[1..], options, party, slice)
  }

  /** How many posts the filter selects for `party`. */
  function SelectedCount(posts: seq<Post>, options: PageOptions, party: string): (n: nat)
    ensures n <= |posts|
  {
    if posts == [] then 0
    else (if Selected(posts[0], options, party) then 1 else 0) + SelectedCount(posts[1..], options, party)
  }

  /** The three slices of a party's pie account for each of its selected posts exactly once. */
  lemma {:induction false} SlicesPartition(posts: seq<Post>, options: PageOptions, party: string)
    ensures SliceCount(posts, options, party, Positive) + SliceCount(posts, options, party, Negative)
      + SliceCount(posts, options, party, Neutral) == SelectedCount(posts, options, party)
  {
    if posts != [] {
      SlicesPartition(posts[1..], options, party);
    }
  }
}
