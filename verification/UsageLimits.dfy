/**
 UTC usage windows, usage sums and limit checks of src/services/ai-usage-logic.ts and
 src/services/ai-usage-tracker.ts.  Times are milliseconds since 1970-01-01 UTC.
 */
module UsageLimits {
  import opened Options

  // ----- calendar -----

  const DAY_MS := 86_400_000

  function DayOf(now: nat): nat { now / DAY_MS }

  /** Days since Monday; 1970-01-01 was a Thursday, weekday 4 counted from Sunday. */
  function DaysSinceMonday(day: nat): nat {
    var weekday := (day + 4) % 7;
    (weekday + 6) % 7
  }

  predicate IsLeap(year: nat) {
    year % 4 == 0 && (year % 100 != 0 || year % 400 == 0)
  }

  /** Days of a month counted from 0 for January. */
  function DaysIn(month: nat, leap: bool): (d: nat)
    ensures 28 <= d <= 31
  {
    if month == 1 then (if leap then 29 else 28)
    else if month == 3 || month == 5 || month == 8 || month == 10 then 30
    else 31
  }

  /** Length of the month that is k months after January 1970. */
  function MonthLength(k: nat): (d: nat)
    ensures 28 <= d <= 31
  {
    DaysIn(k % 12, IsLeap(1970 + k / 12))
  }

  /** Day on which that month begins. */
  function FirstDay(k: nat): nat {
    if k == 0 then 0 else FirstDay(k - 1) + MonthLength(k - 1)
  }

  /** The month a day lies in, searched upwards from month k. */
  function MonthFrom(day: nat, k: nat): (m: nat)
    requires FirstDay(k) <= day
    ensures m >= k && FirstDay(m) <= day < FirstDay(m + 1)
    decreases day - FirstDay(k)
  {
    if day < FirstDay(k + 1) then k else MonthFrom(day, k + 1)
  }

  function MonthOf(day: nat): (m: nat)
    ensures FirstDay(m) <= day < FirstDay(m + 1)
  {
    MonthFrom(day, 0)
  }

  lemma MonthEnds(y: nat, month: nat)
    requires month < 12
    ensures FirstDay(12 * y + month + 1) == FirstDay(12 * y + month) + DaysIn(month, IsLeap(1970 + y))
  {
    assert (12 * y + month) / 12 == y && (12 * y + month) % 12 == month;
  }

  /** Twelve months make a year of 365 days, or 366 in a leap year. */
  lemma YearLength(y: nat)
    ensures FirstDay(12 * (y + 1)) == FirstDay(12 * y) + (if IsLeap(1970 + y) then 366 else 365)
  {
    hide FirstDay, IsLeap;
    MonthEnds(y, 0);
    MonthEnds(y, 1);
    MonthEnds(y, 2);
    MonthEnds(y, 3);
    MonthEnds(y, 4);
    MonthEnds(y, 5);
    MonthEnds(y, 6);
    MonthEnds(y, 7);
    MonthEnds(y, 8);
    MonthEnds(y, 9);
    MonthEnds(y, 10);
    MonthEnds(y, 11);
  }

  lemma {:induction false} FirstDaysAscend(j: nat, k: nat)
    requires j <= k
    ensures FirstDay(j) <= FirstDay(k)
    decreases k
  {
    if j < k { FirstDaysAscend(j, k - 1); }
  }

  lemma MonthIsUnique(day: nat, m: nat)
    requires FirstDay(m) <= day < FirstDay(m + 1)
    ensures MonthOf(day) == m
  {
    hide FirstDay, MonthFrom;
    var found := MonthOf(day);
    if found < m { FirstDaysAscend(found + 1, m); }
    if m < found { FirstDaysAscend(m + 1, found); }
  }

  /** Days in the years before a year that begins in March, counted from year 0. */
  function DaysBeforeYear(y: nat): nat {
    365 * y + y / 4 - y / 100 + y / 400
  }

  /** Days before a month in a year that begins in March. */
  function DaysBeforeMonth(m: nat): nat {
    (153 * m + 2) / 5
  }

  /** The civil calendar in closed form: the day since 1970-01-01 on which a month begins. */
  function CivilDay(year: nat, month: nat): int
    requires 1970 <= year && month < 12
  {
    if month >= 2 then DaysBeforeYear(year) + DaysBeforeMonth(month - 2) - 719_468
    else DaysBeforeYear(year - 1) + DaysBeforeMonth(month + 10) - 719_468
  }

  /** Month lengths and leap years add up to the civil calendar. */
  lemma {:induction false} FirstDayIsCivil(y: nat, month: nat)
    requires month < 12
    ensures FirstDay(12 * y + month) == CivilDay(1970 + y, month)
    decreases y, month
  {
    hide FirstDay, CivilDay, DaysIn, IsLeap;
    if month > 0 {
      FirstDayIsCivil(y, month - 1);
      MonthEnds(y, month - 1);
      CivilStep(1970 + y, month - 1);
    } else if y > 0 {
      FirstDayIsCivil(y - 1, 11);
      MonthEnds(y - 1, 11);
      CivilStep(1970 + (y - 1), 11);
    } else {
      Epoch();
    }
  }

  lemma Epoch()
    ensures FirstDay(0) == CivilDay(1970, 0) == 0
  {
    assert DaysBeforeYear(1969) == 719_162 && DaysBeforeMonth(10) == 306;
  }

  lemma CivilStep(year: nat, month: nat)
    requires 1970 <= year && month < 12
    ensures CivilDay(if month == 11 then year + 1 else year, if month == 11 then 0 else month + 1)
            == CivilDay(year, month) + DaysIn(month, IsLeap(year))
  {
    hide DaysBeforeYear, DaysBeforeMonth, IsLeap;
    MonthTable();
    LeapDay(year);
  }

  lemma MonthTable()
    ensures DaysBeforeMonth(0) == 0 && DaysBeforeMonth(1) == 31 && DaysBeforeMonth(2) == 61 && DaysBeforeMonth(3) == 92
    ensures DaysBeforeMonth(4) == 122 && DaysBeforeMonth(5) == 153 && DaysBeforeMonth(6) == 184 && DaysBeforeMonth(7) == 214
    ensures DaysBeforeMonth(8) == 245 && DaysBeforeMonth(9) == 275 && DaysBeforeMonth(10) == 306 && DaysBeforeMonth(11) == 337
  {
  }

  lemma LeapDay(year: nat)
    requires year >= 1
    ensures DaysBeforeYear(year) == DaysBeforeYear(year - 1) + if IsLeap(year) then 366 else 365
  {
    Fourths(year);
    Hundredths(year);
    FourHundredths(year);
    Divisible(year);
  }

  lemma Fourths(n: nat)
    requires n >= 1
    ensures n / 4 == (n - 1) / 4 + if n % 4 == 0 then 1 else 0
  {
  }

  lemma Hundredths(n: nat)
    requires n >= 1
    ensures n / 100 == (n - 1) / 100 + if n % 100 == 0 then 1 else 0
  {
  }

  lemma FourHundredths(n: nat)
    requires n >= 1
    ensures n / 400 == (n - 1) / 400 + if n % 400 == 0 then 1 else 0
  {
  }

  lemma Divisible(n: nat)
    ensures n % 100 == 0 ==> n % 4 == 0
    ensures n % 400 == 0 ==> n % 100 == 0
  {
    if n % 100 == 0 { FourTimes(n, 25 * (n / 100)); }
    if n % 400 == 0 { HundredTimes(n, 4 * (n / 400)); }
  }

  lemma FourTimes(n: nat, m: nat)
    requires n == 4 * m
    ensures n % 4 == 0
  {
  }

  lemma HundredTimes(n: nat, m: nat)
    requires n == 100 * m
    ensures n % 100 == 0
  {
  }

  // ----- windows -----

  datatype Window = Day | Week | Month

  function Start(w: Window, now: nat): int {
    var day := DayOf(now);
    match w
    case Day => day * DAY_MS
    case Week => (day - DaysSinceMonday(day)) * DAY_MS
    case Month => FirstDay(MonthOf(day)) * DAY_MS
  }

  /** The moment the window rolls over. */
  function End(w: Window, now: nat): int {
    match w
    case Day => Start(Day, now) + DAY_MS
    case Week => Start(Week, now) + 7 * DAY_MS
    case Month => FirstDay(MonthOf(DayOf(now)) + 1) * DAY_MS
  }

  lemma StartBeforeNow(w: Window, now: nat)
    ensures Start(w, now) <= Start(Day, now) <= now < End(Day, now) <= End(w, now)
  {
  }

  /** The window is the same exactly until it rolls over. */
  lemma WindowLastsUntilItsEnd(w: Window, now: nat, later: nat)
    requires now <= later
    ensures later < End(w, now) <==> Start(w, later) == Start(w, now)
    ensures later >= End(w, now) ==> Start(w, later) >= End(w, now)
  {
    var d, e := DayOf(now), DayOf(later);
    assert d <= e && e * DAY_MS <= later < (e + 1) * DAY_MS;
    match w
    case Day =>
    case Week => WeekLasts(d, e);
    case Month => MonthLasts(d, e);
  }

  lemma WeekLasts(d: nat, e: nat)
    requires d <= e
    ensures e < d - DaysSinceMonday(d) + 7 <==> e - DaysSinceMonday(e) == d - DaysSinceMonday(d)
    ensures e >= d - DaysSinceMonday(d) + 7 ==> e - DaysSinceMonday(e) >= d - DaysSinceMonday(d) + 7
  {
    hide DaysSinceMonday;
    MondayOf(d);
    MondayOf(e);
  }

  lemma MondayOf(day: nat)
    ensures day - DaysSinceMonday(day) == 7 * ((day + 3) / 7) - 3
    ensures DaysSinceMonday(day) <= 6
  {
  }

  lemma MonthLasts(d: nat, e: nat)
    requires d <= e
    ensures e < FirstDay(MonthOf(d) + 1) <==> FirstDay(MonthOf(e)) == FirstDay(MonthOf(d))
    ensures e >= FirstDay(MonthOf(d) + 1) ==> FirstDay(MonthOf(e)) >= FirstDay(MonthOf(d) + 1)
  {
    hide FirstDay, MonthFrom;
    var m := MonthOf(d);
    if e < FirstDay(m + 1) {
      MonthIsUnique(e, m);
    } else {
      var k := MonthOf(e);
      if k <= m { FirstDaysAscend(k + 1, m + 1); }
      FirstDaysAscend(m + 1, k);
    }
  }

  /** A week begins on a Monday; 1970-01-05 was one. */
  lemma WeeksBeginOnMonday(now: nat)
    ensures exists weeks :: Start(Week, now) == (4 + 7 * weeks) * DAY_MS
  {
    MondayOf(DayOf(now));
    var weeks := (DayOf(now) + 3) / 7 - 1;
    assert Start(Week, now) == (4 + 7 * weeks) * DAY_MS;
  }

  /** Days begin at midnight, and months on the first of the civil month, at midnight. */
  lemma DaysAndMonthsBegin(now: nat)
    ensures Start(Day, now) % 86_400_000 == 0 && now - Start(Day, now) < 86_400_000
    ensures exists y: nat, m: nat :: BeginsOnTheFirst(now, y, m)
  {
    var k := MonthOf(DayOf(now));
    var y, m := k / 12, k % 12;
    assert k == 12 * y + m;
    FirstDayIsCivil(y, m);
    Multiple(DayOf(now));
    hide CivilDay, FirstDay, MonthOf;
    assert BeginsOnTheFirst(now, y, m);
  }

  ghost predicate BeginsOnTheFirst(now: nat, y: nat, m: nat) {
    m < 12 && Start(Month, now) == CivilDay(1970 + y, m) * 86_400_000
  }

  lemma Multiple(day: nat)
    ensures (day * 86_400_000) % 86_400_000 == 0
  {
  }

  // ----- usage -----

  datatype Record = Record(org: string, user: string, createdAt: int, tokens: nat, isStory: bool)

  datatype Measure = Tokens | Requests | Stories

  function Amount(r: Record, m: Measure): nat {
    match m case Tokens => r.tokens case Requests => 1 case Stories => if r.isStory then 1 else 0
  }

  /** What the user's records since a moment add up to. */
  function UsedSince(records: seq<Record>, org: string, user: string, since: int, m: Measure): nat {
    if records == [] then 0
    else
      var r := records[|records| - 1];
      UsedSince(records[..|records| - 1], org, user, since, m)
      + (if r.org == org && r.user == user && r.createdAt >= since then Amount(r, m) else 0)
  }

  /** The user's records from a moment on. */
  ghost function Counted(records: seq<Record>, org: string, user: string, since: int): set<nat> {
    set i: nat | i < |records| && records[i].org == org && records[i].user == user && since <= records[i].createdAt
  }

  ghost function CountedStories(records: seq<Record>, org: string, user: string, since: int): set<nat> {
    set i: nat | i < |records| && records[i].org == org && records[i].user == user && since <= records[i].createdAt && records[i].isStory
  }

  lemma OneMoreCounted(records: seq<Record>, org: string, user: string, since: int)
    requires records != []
    ensures var n := |records| - 1;
            var r := records[n];
            var counts := r.org == org && r.user == user && since <= r.createdAt;
            && Counted(records, org, user, since) == Counted(records[..n], org, user, since) + (if counts then {n} else {})
            && CountedStories(records, org, user, since)
               == CountedStories(records[..n], org, user, since) + (if counts && r.isStory then {n} else {})
            && n !in Counted(records[..n], org, user, since) && n !in CountedStories(records[..n], org, user, since)
  {
  }

  /** Requests used are the user's records since then, and stories those of them that generated a story. */
  lemma {:induction false} RequestsAreRecords(records: seq<Record>, org: string, user: string, since: int)
    ensures UsedSince(records, org, user, since, Requests) == |Counted(records, org, user, since)|
    ensures UsedSince(records, org, user, since, Stories) == |CountedStories(records, org, user, since)|
  {
    if records == [] {
      assert Counted(records, org, user, since) == {} && CountedStories(records, org, user, since) == {};
    } else {
      RequestsAreRecords(records[..|records| - 1], org, user, since);
      OneMoreCounted(records, org, user, since);
      hide Counted, CountedStories;
    }
  }

  /** Tokens used add up: those of two lists together are the sum of both, and one record brings its own if it counts. */
  lemma {:induction false} TokensAddUp(a: seq<Record>, b: seq<Record>, r: Record, org: string, user: string, since: int)
    ensures UsedSince(a + b, org, user, since, Tokens) == UsedSince(a, org, user, since, Tokens) + UsedSince(b, org, user, since, Tokens)
    ensures r.org == org && r.user == user && since <= r.createdAt ==> UsedSince([r], org, user, since, Tokens) == r.tokens
    ensures r.org != org || r.user != user || r.createdAt < since ==> UsedSince([r], org, user, since, Tokens) == 0
    ensures UsedSince([], org, user, since, Tokens) == 0
    decreases |b|
  {
    assert [r][..0] == [];
    if b == [] {
      assert a + b == a;
    } else {
      TokensAddUp(a, b[..|b| - 1], r, org, user, since);
      assert (a + b)[..|a + b| - 1] == a + b[..|b| - 1];
    }
  }

  function Usage(records: seq<Record>, org: string, user: string, now: nat, w: Window, m: Measure): nat {
    UsedSince(records, org, user, Start(w, now), m)
  }

  lemma {:induction false} EarlierStartCountsMore(records: seq<Record>, org: string, user: string, since: int, earlier: int, m: Measure)
    requires earlier <= since
    ensures UsedSince(records, org, user, since, m) <= UsedSince(records, org, user, earlier, m)
  {
    if records != [] { EarlierStartCountsMore(records[..|records| - 1], org, user, since, earlier, m); }
  }

  lemma {:induction false} AppendingCountsMore(records: seq<Record>, more: seq<Record>, org: string, user: string, since: int, m: Measure)
    ensures UsedSince(records, org, user, since, m) <= UsedSince(records + more, org, user, since, m)
  {
    if more == [] {
      assert records + more == records;
    } else {
      var n := |more| - 1;
      AppendingCountsMore(records, more[..n], org, user, since, m);
      assert (records + more)[..|records + more| - 1] == records + more[..n];
    }
  }

  lemma {:induction false} NothingSince(records: seq<Record>, org: string, user: string, since: int, m: Measure)
    requires forall i :: 0 <= i < |records| ==> records[i].createdAt < since
    ensures UsedSince(records, org, user, since, m) == 0
  {
    if records != [] { NothingSince(records[..|records| - 1], org, user, since, m); }
  }

  /** A day's usage never exceeds the week's or the month's. */
  lemma DailyWithinLonger(records: seq<Record>, org: string, user: string, now: nat, w: Window, m: Measure)
    ensures Usage(records, org, user, now, Day, m) <= Usage(records, org, user, now, w, m)
  {
    StartBeforeNow(w, now);
    EarlierStartCountsMore(records, org, user, Start(Day, now), Start(w, now), m);
  }

  // ----- limits -----

  datatype Limits = Limits(
    tokensPerWeek: Option<int>, tokensPerDay: Option<int>, tokensPerMonth: Option<int>,
    requestsPerWeek: Option<int>, requestsPerDay: Option<int>, requestsPerMonth: Option<int>,
    storiesPerWeek: Option<int>, storiesPerMonth: Option<int>)

  const UNLIMITED := Limits(None, None, None, None, None, None, None, None)

  /** The user's own limit row, else the organization's default, else no limits. */
  function EffectiveLimits(own: Option<Limits>, default: Option<Limits>): Limits {
    if own.Some? then own.value else if default.Some? then default.value else UNLIMITED
  }

  datatype Reason = Reason(measure: Measure, window: Window)

  function LimitFor(l: Limits, r: Reason): Option<int> {
    match r.measure
    case Tokens => (match r.window case Week => l.tokensPerWeek case Day => l.tokensPerDay case Month => l.tokensPerMonth)
    case Requests => (match r.window case Week => l.requestsPerWeek case Day => l.requestsPerDay case Month => l.requestsPerMonth)
    case Stories => (match r.window case Week => l.storiesPerWeek case Day => None case Month => l.storiesPerMonth)
  }

  predicate Reached(records: seq<Record>, org: string, user: string, now: nat, l: Limits, r: Reason) {
    LimitFor(l, r).Some? && Usage(records, org, user, now, r.window, r.measure) >= LimitFor(l, r).value
  }

  /** The usage the source sums up before it checks. */
  datatype UsageSummary = UsageSummary(
    dailyTokens: nat, weeklyTokens: nat, monthlyTokens: nat, dailyRequests: nat, weeklyRequests: nat, monthlyRequests: nat,
    weeklyStories: nat, monthlyStories: nat)

  function CurrentUsage(records: seq<Record>, org: string, user: string, now: nat): UsageSummary {
    UsageSummary(Usage(records, org, user, now, Day, Tokens), Usage(records, org, user, now, Week, Tokens), Usage(records, org, user, now, Month, Tokens),
                 Usage(records, org, user, now, Day, Requests), Usage(records, org, user, now, Week, Requests), Usage(records, org, user, now, Month, Requests),
                 Usage(records, org, user, now, Week, Stories), Usage(records, org, user, now, Month, Stories))
  }

  /** Each number is what the user's records since the start of its window add up to. */
  lemma SummaryCounts(records: seq<Record>, org: string, user: string, now: nat)
    ensures var u := CurrentUsage(records, org, user, now);
            && u.dailyRequests == |Counted(records, org, user, Start(Day, now))|
            && u.weeklyRequests == |Counted(records, org, user, Start(Week, now))|
            && u.monthlyRequests == |Counted(records, org, user, Start(Month, now))|
            && u.weeklyStories == |CountedStories(records, org, user, Start(Week, now))|
            && u.monthlyStories == |CountedStories(records, org, user, Start(Month, now))|
            && u.dailyTokens == UsedSince(records, org, user, Start(Day, now), Tokens)
            && u.weeklyTokens == UsedSince(records, org, user, Start(Week, now), Tokens)
            && u.monthlyTokens == UsedSince(records, org, user, Start(Month, now), Tokens)
  {
    hide UsedSince, Counted, CountedStories, Start;
    RequestsAreRecords(records, org, user, Start(Day, now));
    RequestsAreRecords(records, org, user, Start(Week, now));
    RequestsAreRecords(records, org, user, Start(Month, now));
  }

  /** None when allowed, else the first limit that is reached. */
  function EvaluateLimitStatus(u: UsageSummary, l: Limits): Option<Reason> {
    if l.tokensPerWeek.Some? && u.weeklyTokens >= l.tokensPerWeek.value then Some(Reason(Tokens, Week))
    else if l.tokensPerDay.Some? && u.dailyTokens >= l.tokensPerDay.value then Some(Reason(Tokens, Day))
    else if l.tokensPerMonth.Some? && u.monthlyTokens >= l.tokensPerMonth.value then Some(Reason(Tokens, Month))
    else if l.requestsPerWeek.Some? && u.weeklyRequests >= l.requestsPerWeek.value then Some(Reason(Requests, Week))
    else if l.requestsPerDay.Some? && u.dailyRequests >= l.requestsPerDay.value then Some(Reason(Requests, Day))
    else if l.requestsPerMonth.Some? && u.monthlyRequests >= l.requestsPerMonth.value then Some(Reason(Requests, Month))
    else if l.storiesPerWeek.Some? && u.weeklyStories >= l.storiesPerWeek.value then Some(Reason(Stories, Week))
    else if l.storiesPerMonth.Some? && u.monthlyStories >= l.storiesPerMonth.value then Some(Reason(Stories, Month))
    else None
  }

  /** The limits in the order in which they are checked. */
  const CHECKS := [Reason(Tokens, Week), Reason(Tokens, Day), Reason(Tokens, Month), Reason(Requests, Week), Reason(Requests, Day),
                   Reason(Requests, Month), Reason(Stories, Week), Reason(Stories, Month)]

  /** The reason given is the first limit of that order that is reached. */
  lemma ReasonIsTheFirst(records: seq<Record>, org: string, user: string, now: nat, l: Limits, i: nat)
    requires i < |CHECKS|
    ensures EvaluateLimitStatus(CurrentUsage(records, org, user, now), l) == Some(CHECKS[i]) <==>
            Reached(records, org, user, now, l, CHECKS[i]) && forall j :: 0 <= j < i ==> !Reached(records, org, user, now, l, CHECKS[j])
  {
    hide Usage;
    assert CHECKS[0] == Reason(Tokens, Week) && CHECKS[1] == Reason(Tokens, Day) && CHECKS[2] == Reason(Tokens, Month);
    assert CHECKS[3] == Reason(Requests, Week) && CHECKS[4] == Reason(Requests, Day) && CHECKS[5] == Reason(Requests, Month);
    assert CHECKS[6] == Reason(Stories, Week) && CHECKS[7] == Reason(Stories, Month);
  }

  /** A user is refused exactly when some limit is reached, and the reason given is one of those. */
  lemma RefusedIffReached(records: seq<Record>, org: string, user: string, now: nat, l: Limits)
    ensures var status := EvaluateLimitStatus(CurrentUsage(records, org, user, now), l);
            && (status.Some? ==> Reached(records, org, user, now, l, status.value))
            && (status.Some? <==> exists r :: Reached(records, org, user, now, l, r))
  {
    hide Usage;
    var status := EvaluateLimitStatus(CurrentUsage(records, org, user, now), l);
    if r :| Reached(records, org, user, now, l, r) {
      assert status.Some?;
    }
  }

  /**
   While the limits stand and records are only added, a user refused for a window's limit stays refused until that
   window rolls over.
   */
  lemma RefusalLastsUntilRollover(records: seq<Record>, more: seq<Record>, org: string, user: string, now: nat, later: nat, l: Limits, r: Reason)
    requires EvaluateLimitStatus(CurrentUsage(records, org, user, now), l) == Some(r)
    requires now <= later < End(r.window, now)
    ensures EvaluateLimitStatus(CurrentUsage(records + more, org, user, later), l).Some?
  {
    RefusedIffReached(records, org, user, now, l);
    WindowLastsUntilItsEnd(r.window, now, later);
    AppendingCountsMore(records, more, org, user, Start(r.window, now), r.measure);
    assert Reached(records + more, org, user, later, l, r);
    RefusedIffReached(records + more, org, user, later, l);
  }

  /** Once it has rolled over, old records no longer count against that limit. */
  lemma RolloverClearsTheWindow(records: seq<Record>, org: string, user: string, now: nat, later: nat, l: Limits, r: Reason)
    requires forall i :: 0 <= i < |records| ==> records[i].createdAt <= now
    requires now <= later && later >= End(r.window, now)
    ensures Reached(records, org, user, later, l, r) <==> LimitFor(l, r).Some? && LimitFor(l, r).value <= 0
  {
    StartBeforeNow(r.window, now);
    WindowLastsUntilItsEnd(r.window, now, later);
    NothingSince(records, org, user, Start(r.window, later), r.measure);
  }

  lemma NothingToReach(records: seq<Record>, org: string, user: string, now: nat)
    ensures forall r :: !Reached(records, org, user, now, Limits(None, None, None, None, None, None, None, None), r)
  {
  }

  /** The tracker: usage rows are only appended. */
  class Tracker {
    var records: seq<Record>

    method RecordUsage(record: Record)
      modifies this
      ensures records == old(records) + [record]
    {
      records := records + [record];
    }

    /** Throws exactly when a limit is reached. */
    method EnforceLimit(org: string, user: string, now: nat, own: Option<Limits>, default: Option<Limits>) returns (refused: Option<Reason>)
      ensures refused.Some? <==> exists r :: Reached(records, org, user, now, EffectiveLimits(own, default), r)
      ensures refused.Some? ==> Reached(records, org, user, now, EffectiveLimits(own, default), refused.value)
      ensures own.Some? ==> (refused.Some? <==> exists r :: Reached(records, org, user, now, own.value, r))
      ensures own.None? && default.Some? ==> (refused.Some? <==> exists r :: Reached(records, org, user, now, default.value, r))
      ensures own.None? && default.None? ==> refused.None?
    {
      hide Reached, CurrentUsage;
      var limits := EffectiveLimits(own, default);
      refused := EvaluateLimitStatus(CurrentUsage(records, org, user, now), limits);
      RefusedIffReached(records, org, user, now, limits);
      NothingToReach(records, org, user, now);
    }
  }
}
