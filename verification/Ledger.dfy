/** The usage ledger: per-day totals that must always say what adding up the
    requests themselves would say. */
module Ledger {
  import opened Options

  // Civil days

  datatype Date = Date(y: nat, m: nat, d: nat) {
    predicate Valid() {
      y >= 1 && 1 <= m <= 12 && 1 <= d <= MonthLength(y, m)
    }

    predicate Before(other: Date) {
      y < other.y || (y == other.y && (m < other.m || (m == other.m && d < other.d)))
    }
  }

  type Day = date: Date | date.Valid() witness Date(1, 1, 1)

  predicate Leap(y: nat) {
    y % 4 == 0 && (y % 100 != 0 || y % 400 == 0)
  }

  function MonthLength(y: nat, m: nat): nat {
    if m == 2 then if Leap(y) then 29 else 28
    else if m == 4 || m == 6 || m == 9 || m == 11 then 30
    else 31
  }

  function YearLength(y: nat): nat {
    if Leap(y) then 366 else 365
  }

  function DaysBeforeYear(y: nat): nat
    requires y >= 1
  {
    if y == 1 then 0 else DaysBeforeYear(y - 1) + YearLength(y - 1)
  }

  function DaysBeforeMonth(y: nat, m: nat): nat
    requires 1 <= m
  {
    if m == 1 then 0 else DaysBeforeMonth(y, m - 1) + MonthLength(y, m - 1)
  }

  /** Days counted from Monday the first of January of year one, which is day 1. */
  function DayNumber(date: Day): nat {
    DaysBeforeYear(date.y) + DaysBeforeMonth(date.y, date.m) + date.d
  }

  lemma {:induction false} YearsGrow(y: nat, z: nat)
    requires 1 <= y < z
    ensures DaysBeforeYear(y) + YearLength(y) <= DaysBeforeYear(z)
    decreases z
  {
    if z > y + 1 {
      YearsGrow(y, z - 1);
    }
  }

  lemma {:induction false} MonthsGrow(y: nat, m: nat, n: nat)
    requires 1 <= m < n
    ensures DaysBeforeMonth(y, m) + MonthLength(y, m) <= DaysBeforeMonth(y, n)
    decreases n
  {
    if n > m + 1 {
      MonthsGrow(y, m, n - 1);
    }
  }

  /** The days before each month. */
  lemma MonthsTable(y: nat)
    ensures DaysBeforeMonth(y, 1) == 0 && DaysBeforeMonth(y, 2) == 31
    ensures var leap := if Leap(y) then 1 else 0;
      && DaysBeforeMonth(y, 3) == 59 + leap && DaysBeforeMonth(y, 4) == 90 + leap
      && DaysBeforeMonth(y, 5) == 120 + leap && DaysBeforeMonth(y, 6) == 151 + leap
      && DaysBeforeMonth(y, 7) == 181 + leap && DaysBeforeMonth(y, 8) == 212 + leap
      && DaysBeforeMonth(y, 9) == 243 + leap && DaysBeforeMonth(y, 10) == 273 + leap
      && DaysBeforeMonth(y, 11) == 304 + leap && DaysBeforeMonth(y, 12) == 334 + leap
  {
    assert DaysBeforeMonth(y, 2) == 31;
    assert DaysBeforeMonth(y, 3) == 31 + MonthLength(y, 2);
    assert DaysBeforeMonth(y, 4) == DaysBeforeMonth(y, 3) + 31;
    assert DaysBeforeMonth(y, 5) == DaysBeforeMonth(y, 4) + 30;
    assert DaysBeforeMonth(y, 6) == DaysBeforeMonth(y, 5) + 31;
    assert DaysBeforeMonth(y, 7) == DaysBeforeMonth(y, 6) + 30;
    assert DaysBeforeMonth(y, 8) == DaysBeforeMonth(y, 7) + 31;
    assert DaysBeforeMonth(y, 9) == DaysBeforeMonth(y, 8) + 31;
    assert DaysBeforeMonth(y, 10) == DaysBeforeMonth(y, 9) + 30;
    assert DaysBeforeMonth(y, 11) == DaysBeforeMonth(y, 10) + 31;
    assert DaysBeforeMonth(y, 12) == DaysBeforeMonth(y, 11) + 30;
  }

  lemma WholeYear(y: nat)
    ensures DaysBeforeMonth(y, 12) + MonthLength(y, 12) == YearLength(y)
  {
    MonthsTable(y);
  }

  lemma CenturyDivides(y: nat)
    ensures y % 400 == 0 ==> y % 100 == 0
    ensures y % 100 == 0 ==> y % 4 == 0
  {
    if y % 400 == 0 {
      assert y == 100 * (4 * (y / 400));
    }
    if y % 100 == 0 {
      assert y == 4 * (25 * (y / 100));
    }
  }

  lemma Quotient4(n: nat)
    ensures (n + 1) / 4 == n / 4 + if (n + 1) % 4 == 0 then 1 else 0
  {
  }

  lemma Quotient100(n: nat)
    ensures (n + 1) / 100 == n / 100 + if (n + 1) % 100 == 0 then 1 else 0
  {
  }

  lemma Quotient400(n: nat)
    ensures (n + 1) / 400 == n / 400 + if (n + 1) % 400 == 0 then 1 else 0
  {
  }

  /** The days before a year: every fourth year is a leap year, save the centuries
      that 400 does not divide. */
  lemma {:induction false} YearsClosed(y: nat)
    requires y >= 1
    ensures DaysBeforeYear(y) == 365 * (y - 1) + (y - 1) / 4 - (y - 1) / 100 + (y - 1) / 400
  {
    if y > 1 {
      YearsClosed(y - 1);
      CenturyDivides(y - 1);
      Quotient4(y - 2);
      Quotient100(y - 2);
      Quotient400(y - 2);
    }
  }

  /** The calendar repeats itself every 400 years, which are a whole number of weeks. */
  lemma Era(y: nat)
    requires y >= 1
    ensures DaysBeforeYear(y + 400) == DaysBeforeYear(y) + 146097 == DaysBeforeYear(y) + 7 * 20871
  {
    YearsClosed(y);
    YearsClosed(y + 400);
    var n := y - 1;
    assert (n + 400) / 4 == n / 4 + 100 && (n + 400) / 100 == n / 100 + 4 && (n + 400) / 400 == n / 400 + 1;
  }

  /** Day numbers follow the calendar. */
  lemma EarlierIsSmaller(a: Day, b: Day)
    requires a.Before(b)
    ensures DayNumber(a) < DayNumber(b)
  {
    if a.y < b.y {
      YearsGrow(a.y, b.y);
      WholeYear(a.y);
      if a.m < 12 {
        MonthsGrow(a.y, a.m, 12);
      }
    } else if a.m < b.m {
      MonthsGrow(a.y, a.m, b.m);
    }
  }

  lemma CalendarOrder(a: Day, b: Day)
    ensures DayNumber(a) < DayNumber(b) <==> a.Before(b)
    ensures DayNumber(a) == DayNumber(b) <==> a == b
  {
    if a.Before(b) {
      EarlierIsSmaller(a, b);
    } else if b.Before(a) {
      EarlierIsSmaller(b, a);
    }
  }

  // The periods

  datatype Period = Current | Week | Month | Ytd | All

  /** Sunday is 0, as the clock numbers them. */
  function Weekday(day: Day): nat {
    DayNumber(day) % 7
  }

  function PeriodsFor(day: Day, now: Day): set<Period> {
    var n, today := DayNumber(day), DayNumber(now);
    var weekday := if Weekday(now) == 0 then 7 else Weekday(now);
    var monday := today - (weekday - 1);
    var firstOfMonth := DayNumber(Date(now.y, now.m, 1));
    var firstOfYear := DayNumber(Date(now.y, 1, 1));
    {All}
    + (if n == today then {Current} else {})
    + (if n >= monday then {Week} else {})
    + (if n >= firstOfMonth then {Month} else {})
    + (if n >= firstOfYear then {Ytd} else {})
  }

  /** Which Monday-to-Sunday week a day is in (section 2.2.8 of ISO 8601:2004). */
  function WeekOf(day: Day): int {
    (DayNumber(day) - 1) / 7
  }

  /** What each period is meant to cover. No period ends today: a day later than
      now, on a clock that was set back, counts in all but the first. */
  predicate InWindow(p: Period, day: Day, now: Day) {
    match p
    case Current => day == now
    case Week => WeekOf(day) >= WeekOf(now)
    case Month => day.y > now.y || (day.y == now.y && day.m >= now.m)
    case Ytd => day.y >= now.y
    case All => true
  }

  lemma Remainder4(n: nat)
    ensures (n + 400) % 4 == n % 4
  {
  }

  lemma Remainder100(n: nat)
    ensures (n + 400) % 100 == n % 100
  {
  }

  lemma Remainder400(n: nat)
    ensures (n + 400) % 400 == n % 400
  {
  }

  lemma SameYears(y: nat)
    ensures Leap(y + 400) <==> Leap(y)
  {
    Remainder4(y);
    Remainder100(y);
    Remainder400(y);
  }

  lemma WeekdaysRepeat(day: Day, later: Day)
    requires later == day.(y := day.y + 400)
    ensures Weekday(later) == Weekday(day)
  {
    Era(day.y);
    SameYears(day.y);
    MonthsTable(day.y);
    MonthsTable(later.y);
    assert DayNumber(later) == DayNumber(day) + 7 * 20871;
  }

  /** The first of January 2000 was a Saturday, the fifth of January 2026 a Monday. */
  lemma KnownDays()
    ensures Weekday(Date(2000, 1, 1)) == 6
    ensures Weekday(Date(2026, 1, 5)) == 1
    ensures InWindow(Week, Date(2026, 1, 5), Date(2026, 1, 5)) && !InWindow(Week, Date(2026, 1, 4), Date(2026, 1, 5))
  {
    YearsClosed(2000);
    YearsClosed(2026);
    assert DayNumber(Date(2000, 1, 1)) == 730120;
    assert DayNumber(Date(2026, 1, 5)) == 739621;
    assert DayNumber(Date(2026, 1, 4)) == 739620;
  }

  /** What counts on Monday the fifth of January 2026. */
  lemma KnownWindows()
    ensures var now: Day := Date(2026, 1, 5);
      && !InWindow(Current, Date(2026, 1, 4), now) && InWindow(Current, now, now)
      && !InWindow(Current, Date(2026, 1, 6), now)
      && !InWindow(Month, Date(2025, 12, 31), now) && InWindow(Month, Date(2026, 1, 1), now)
      && !InWindow(Month, Date(2025, 1, 5), now) && InWindow(Month, Date(2026, 2, 1), now)
      && !InWindow(Ytd, Date(2025, 12, 31), now) && InWindow(Ytd, Date(2026, 1, 1), now)
      && InWindow(All, Date(1, 1, 1), now)
  {
  }

  lemma WeekBegins(n: nat, today: nat)
    requires n >= 1 && today >= 1
    ensures n >= today - ((if today % 7 == 0 then 7 else today % 7) - 1) <==> (n - 1) / 7 >= (today - 1) / 7
  {
    assert today == 7 * (today / 7) + today % 7;
    assert n - 1 == 7 * ((n - 1) / 7) + (n - 1) % 7;
  }

  lemma PeriodsAreWindows(p: Period, day: Day, now: Day)
    ensures p in PeriodsFor(day, now) <==> InWindow(p, day, now)
  {
    match p
    case Current => CalendarOrder(day, now);
    case Week => WeekBegins(DayNumber(day), DayNumber(now));
    case Month => CalendarOrder(day, Date(now.y, now.m, 1));
    case Ytd => CalendarOrder(day, Date(now.y, 1, 1));
    case All =>
  }

  /** A day counts in the week if it is no earlier than the Monday that now is in the
      week of. */
  lemma WeekFromMonday(day: Day, now: Day, monday: Day)
    requires Weekday(monday) == 1 && DayNumber(monday) <= DayNumber(now) < DayNumber(monday) + 7
    ensures InWindow(Week, day, now) <==> DayNumber(day) >= DayNumber(monday)
  {
    MondayOf(DayNumber(day), DayNumber(now), DayNumber(monday));
  }

  lemma MondayOf(n: nat, today: nat, monday: nat)
    requires n >= 1 && monday >= 1 && monday % 7 == 1 && monday <= today < monday + 7
    ensures (n - 1) / 7 >= (today - 1) / 7 <==> n >= monday
  {
    assert monday - 1 == 7 * (monday / 7);
  }

  // The request log

  datatype Usage = Usage(input: int, output: int, cost: real) {
    function Plus(other: Usage): Usage {
      Usage(input + other.input, output + other.output, cost + other.cost)
    }

    predicate AtMost(other: Usage) {
      input <= other.input && output <= other.output && cost <= other.cost
    }
  }

  const NOTHING: Usage := Usage(0, 0, 0.0)

  /** A key of the ledger file. Whatever does not parse as a day is `Other`. */
  datatype Key = On(day: Day) | Other(text: nat)

  datatype Entry = Entry(key: Key, usage: Usage)

  /** The sum over the entries whose key is one of `keys`. */
  function SumOver(log: seq<Entry>, keys: set<Key>): Usage {
    if log == [] then NOTHING
    else
      var e := log[|log| - 1];
      SumOver(log[..|log| - 1], keys).Plus(if e.key in keys then e.usage else NOTHING)
  }

  predicate Counts(key: Key, p: Period, now: Day) {
    key.On? && InWindow(p, key.day, now)
  }

  /** The sum over the requests whose day lies in the window of p. */
  function SumWindow(log: seq<Entry>, p: Period, now: Day): Usage {
    if log == [] then NOTHING
    else
      var e := log[|log| - 1];
      SumWindow(log[..|log| - 1], p, now).Plus(if Counts(e.key, p, now) then e.usage else NOTHING)
  }

  function KeysOf(log: seq<Entry>): set<Key> {
    set e <- log :: e.key
  }

  /** The buckets the log amounts to. */
  function Buckets(log: seq<Entry>): map<Key, Usage> {
    map k <- KeysOf(log) :: SumOver(log, {k})
  }

  function At<K>(m: map<K, Usage>, k: K): Usage {
    if k in m then m[k] else NOTHING
  }

  lemma PlusPlus(a: Usage, b: Usage, x: Usage)
    ensures a.Plus(x).Plus(b) == a.Plus(b).Plus(x) == a.Plus(b.Plus(x))
    ensures a.Plus(NOTHING) == a == NOTHING.Plus(a)
  {
  }

  lemma {:induction false} SumAdds(log: seq<Entry>, keys: set<Key>, k: Key)
    requires k !in keys
    ensures SumOver(log, keys + {k}) == SumOver(log, keys).Plus(SumOver(log, {k}))
  {
    if log != [] {
      var e, rest := log[|log| - 1], log[..|log| - 1];
      SumAdds(rest, keys, k);
      PlusPlus(SumOver(rest, keys), SumOver(rest, {k}), e.usage);
      PlusPlus(SumOver(rest, keys), NOTHING, e.usage);
      PlusPlus(SumOver(rest, {k}), NOTHING, e.usage);
      PlusPlus(SumOver(rest, keys + {k}), NOTHING, e.usage);
    }
  }

  /** Totals add up, each for itself, */
  lemma {:induction false} SumConcat(a: seq<Entry>, b: seq<Entry>, p: Period, now: Day)
    ensures var x, y, z := SumWindow(a, p, now), SumWindow(b, p, now), SumWindow(a + b, p, now);
      z.input == x.input + y.input && z.output == x.output + y.output && z.cost == x.cost + y.cost
  {
    if b == [] {
      assert a + b == a;
    } else {
      SumConcat(a, b[..|b| - 1], p, now);
      assert (a + b)[..|a + b| - 1] == a + b[..|b| - 1];
    }
  }

  lemma {:induction false} SumNone(log: seq<Entry>, keys: set<Key>)
    requires keys !! KeysOf(log)
    ensures SumOver(log, keys) == NOTHING
  {
    if log != [] {
      assert log[|log| - 1].key in KeysOf(log);
      SumNone(log[..|log| - 1], keys);
    }
  }

  lemma {:induction false} SumIsWindow(log: seq<Entry>, p: Period, now: Day, keys: set<Key>)
    requires forall k <- KeysOf(log) :: k in keys <==> Counts(k, p, now)
    ensures SumOver(log, keys) == SumWindow(log, p, now)
  {
    if log != [] {
      assert log[|log| - 1].key in KeysOf(log);
      SumIsWindow(log[..|log| - 1], p, now, keys);
    }
  }

  lemma RecordBuckets(log: seq<Entry>, e: Entry)
    ensures Buckets(log + [e]) == Buckets(log)[e.key := At(Buckets(log), e.key).Plus(e.usage)]
  {
    var log' := log + [e];
    assert log'[..|log|] == log;
    assert KeysOf(log') == KeysOf(log) + {e.key};
    if e.key !in KeysOf(log) {
      SumNone(log, {e.key});
    }
    forall k <- KeysOf(log) | k != e.key
      ensures SumOver(log', {k}) == SumOver(log, {k})
    {
      PlusPlus(SumOver(log, {k}), NOTHING, NOTHING);
    }
  }

  /** Every ledger is the ledger of some log, so what holds of all logs holds of
      a store that starts from any file. */
  lemma {:induction false} LogOf(days: map<Key, Usage>) returns (log: seq<Entry>)
    ensures Buckets(log) == days
    decreases |days|
  {
    if days == map[] {
      log := [];
    } else {
      var k :| k in days;
      var rest := days - {k};
      assert days.Keys == rest.Keys + {k};
      var front := LogOf(rest);
      log := front + [Entry(k, days[k])];
      RecordBuckets(front, Entry(k, days[k]));
    }
  }

  /** Usage is never negative. */
  ghost predicate Used(log: seq<Entry>) {
    forall e <- log :: NOTHING.AtMost(e.usage)
  }

  lemma {:induction false} WiderSumsMore(log: seq<Entry>, p: Period, q: Period, now: Day)
    requires Used(log)
    requires forall day: Day :: InWindow(p, day, now) ==> InWindow(q, day, now)
    ensures SumWindow(log, p, now).AtMost(SumWindow(log, q, now))
  {
    if log != [] {
      WiderSumsMore(log[..|log| - 1], p, q, now);
    }
  }

  /** For usage that is never negative the periods are ordered as their windows are. */
  lemma PeriodsOrdered(log: seq<Entry>, now: Day)
    requires Used(log)
    ensures SumWindow(log, Current, now).AtMost(SumWindow(log, Week, now))
    ensures SumWindow(log, Week, now).AtMost(SumWindow(log, All, now))
    ensures SumWindow(log, Current, now).AtMost(SumWindow(log, Month, now))
    ensures SumWindow(log, Month, now).AtMost(SumWindow(log, Ytd, now))
    ensures SumWindow(log, Ytd, now).AtMost(SumWindow(log, All, now))
  {
    WiderSumsMore(log, Current, Week, now);
    WiderSumsMore(log, Week, All, now);
    WiderSumsMore(log, Current, Month, now);
    WiderSumsMore(log, Month, Ytd, now);
    WiderSumsMore(log, Ytd, All, now);
  }

  lemma NewYearsEve(y: nat)
    requires y >= 1
    ensures DayNumber(Date(y, 12, 31)) + 1 == DayNumber(Date(y + 1, 1, 1))
  {
    WholeYear(y);
  }

  lemma SumOne(e: Entry, p: Period, now: Day)
    ensures SumWindow([e], p, now) == if Counts(e.key, p, now) then e.usage else NOTHING
  {
    var log := [e];
    assert log[..|log| - 1] == [];
    assert SumWindow([], p, now) == NOTHING;
    PlusPlus(if Counts(e.key, p, now) then e.usage else NOTHING, NOTHING, NOTHING);
  }

  /** The first day of the calendar period that q stands for. */
  function FirstDay(q: Period, now: Day): Day
    requires q == Month || q == Ytd
  {
    if q == Month then Date(now.y, now.m, 1) else Date(now.y, 1, 1)
  }

  lemma FromFirstDay(q: Period, day: Day, now: Day)
    requires q == Month || q == Ytd
    ensures InWindow(q, day, now) <==> DayNumber(FirstDay(q, now)) <= DayNumber(day)
    ensures DayNumber(FirstDay(q, now)) <= DayNumber(now)
  {
    CalendarOrder(day, FirstDay(q, now));
    CalendarOrder(now, FirstDay(q, now));
  }

  lemma DayBefore(first: Day) returns (eve: Day)
    requires first.d == 1 && DayNumber(first) > 1
    ensures DayNumber(eve) + 1 == DayNumber(first)
  {
    if first.m == 1 {
      eve := Date(first.y - 1, 12, 31);
      NewYearsEve(eve.y);
    } else {
      eve := Date(first.y, first.m - 1, MonthLength(first.y, first.m - 1));
    }
  }

  /** The week reaches back before a day unless that day is a Monday, or lies in an
      earlier week. */
  lemma WeekReaches(first: nat, now: nat, day: nat)
    requires 1 <= first <= now && day >= 1
    ensures (first % 7 == 1 || (first - 1) / 7 < (now - 1) / 7) && (day - 1) / 7 >= (now - 1) / 7 ==> day >= first
    ensures first % 7 != 1 && (first - 1) / 7 == (now - 1) / 7 && day + 1 == first ==> (day - 1) / 7 == (now - 1) / 7
  {
    WeekBegins(day, now);
    WeekBegins(day, first);
  }

  /** A day of the week that the other period leaves out. */
  lemma WeekSticksOut(q: Period, now: Day, first: Day, eve: Day)
    requires (q == Month || q == Ytd) && first == FirstDay(q, now) && DayNumber(eve) + 1 == DayNumber(first)
    requires WeekOf(first) == WeekOf(now) && Weekday(first) != 1
    ensures InWindow(Week, eve, now) && !InWindow(q, eve, now)
  {
    FromFirstDay(q, eve, now);
    WeekReaches(DayNumber(first), DayNumber(now), DayNumber(eve));
  }

  lemma OneRequest(p: Period, now: Day, e: Entry, log: seq<Entry>)
    requires log == [e]
    ensures Counts(e.key, p, now) ==> SumWindow(log, p, now) == e.usage
    ensures !Counts(e.key, p, now) ==> SumWindow(log, p, now) == NOTHING
  {
    SumOne(e, p, now);
  }

  /** and a request counts for what it used, on the days of the period. */
  lemma SumSingle(e: Entry, p: Period, now: Day, log: seq<Entry>)
    requires log == [e]
    ensures var z := SumWindow(log, p, now);
      && (Counts(e.key, p, now) ==>
            z.input == e.usage.input && z.output == e.usage.output && z.cost == e.usage.cost)
      && (!Counts(e.key, p, now) ==> z.input == 0 && z.output == 0 && z.cost == 0.0)
  {
    OneRequest(p, now, e, log);
  }

  lemma DaysCount(day: Day, text: nat, p: Period, now: Day)
    ensures Counts(On(day), p, now) <==> InWindow(p, day, now)
    ensures !Counts(Other(text), p, now)
  {
  }

  lemma NotAtMost(q: Period, now: Day, e: Entry, log: seq<Entry>)
    requires Counts(e.key, Week, now) && !Counts(e.key, q, now) && e.usage.input > 0 && log == [e]
    ensures !SumWindow(log, Week, now).AtMost(SumWindow(log, q, now))
  {
    OneRequest(Week, now, e, log);
    OneRequest(q, now, e, log);
  }

  lemma WeekStaysIn(q: Period, now: Day, log: seq<Entry>)
    requires (q == Month || q == Ytd) && Used(log)
    requires WeekOf(FirstDay(q, now)) < WeekOf(now) || Weekday(FirstDay(q, now)) == 1
    ensures SumWindow(log, Week, now).AtMost(SumWindow(log, q, now))
  {
    var first := FirstDay(q, now);
    forall day: Day | InWindow(Week, day, now) ensures InWindow(q, day, now) {
      FromFirstDay(q, day, now);
      WeekReaches(DayNumber(first), DayNumber(now), DayNumber(day));
    }
    WiderSumsMore(log, Week, q, now);
  }

  lemma NotTheFirst(first: Day)
    requires Weekday(first) != 1
    ensures DayNumber(first) > 1
  {
  }

  lemma SameWeek(first: Day, now: Day)
    requires DayNumber(first) <= DayNumber(now) && WeekOf(first) >= WeekOf(now)
    ensures WeekOf(first) == WeekOf(now)
  {
  }

  lemma WeekGetsOut(q: Period, now: Day, first: Day, u: Usage)
    requires (q == Month || q == Ytd) && first == FirstDay(q, now)
    requires WeekOf(first) >= WeekOf(now) && Weekday(first) != 1
    requires NOTHING.AtMost(u) && u.input > 0
    ensures exists log :: Used(log) && !SumWindow(log, Week, now).AtMost(SumWindow(log, q, now))
  {
    FromFirstDay(q, now, now);
    SameWeek(first, now);
    NotTheFirst(first);
    var eve := DayBefore(first);
    WeekSticksOut(q, now, first, eve);
    var e := Entry(On(eve), u);
    var log := [e];
    NotAtMost(q, now, e, log);
    assert Used(log);
  }

  /** The week is not bounded by the month or the year: for usage never negative it
      is, whatever the log, exactly when the month or the year began on a Monday or
      in an earlier week. */
  lemma WeekBounded(q: Period, now: Day)
    requires q == Month || q == Ytd
    ensures (forall log | Used(log) :: SumWindow(log, Week, now).AtMost(SumWindow(log, q, now))) <==>
            WeekOf(FirstDay(q, now)) < WeekOf(now) || Weekday(FirstDay(q, now)) == 1
  {
    if WeekOf(FirstDay(q, now)) < WeekOf(now) || Weekday(FirstDay(q, now)) == 1 {
      forall log | Used(log) ensures SumWindow(log, Week, now).AtMost(SumWindow(log, q, now)) {
        WeekStaysIn(q, now, log);
      }
    } else {
      WeekGetsOut(q, now, FirstDay(q, now), Usage(1, 0, 0.0));
    }
  }

  // Saves and restarts

  /** `disk` is the ledger file, which is replaced whole or not at all. A disabled
      store holds nothing. */
  datatype Store = Store(enabled: bool, days: map<Key, Usage>, disk: map<Key, Usage>)

  /** `saved` is whether the write that goes with the event succeeds; `read`, on
      opening, whether the file could be read. */
  datatype Event =
    | Record(entry: Entry, saved: bool)
    | Restart(read: bool, saved: bool)
    | Close(saved: bool)

  function Step(s: Store, e: Event): Store {
    match e
    case Record(entry, saved) =>
      if !s.enabled then s
      else
        var days := s.days[entry.key := At(s.days, entry.key).Plus(entry.usage)];
        Store(true, days, if saved then days else s.disk)
    case Restart(read, saved) =>
      if read && saved then Store(true, s.disk, s.disk) else Store(false, map[], s.disk)
    case Close(saved) =>
      if s.enabled && saved then s.(disk := s.days) else s
  }

  function Replay(disk: map<Key, Usage>, run: seq<Event>): Store {
    if run == [] then Store(true, disk, disk)
    else Step(Replay(disk, run[..|run| - 1]), run[|run| - 1])
  }

  /** Whether the last store opened before event n was enabled. */
  function EnabledAt(run: seq<Event>, n: nat): bool
    requires n <= |run|
  {
    if n == 0 then true
    else if run[n - 1].Restart? then run[n - 1].read && run[n - 1].saved
    else EnabledAt(run, n - 1)
  }

  predicate RecordedAt(run: seq<Event>, i: nat)
    requires i < |run|
  {
    run[i].Record? && EnabledAt(run, i)
  }

  predicate SavedAt(run: seq<Event>, j: nat)
    requires j < |run|
  {
    !run[j].Restart? && run[j].saved && EnabledAt(run, j)
  }

  /** The request recorded at i outlives the first n events if it was saved, by
      its own or a later record or on closing, before each restart that came after. */
  ghost predicate Survives(run: seq<Event>, n: nat, i: nat)
    requires i < n <= |run|
  {
    && RecordedAt(run, i)
    && forall r | i < r < n && run[r].Restart? :: exists j :: i <= j < r && SavedAt(run, j)
  }

  /** What is left, after n events, of the first k. */
  ghost function Survivors(base: seq<Entry>, run: seq<Event>, n: nat, k: nat): seq<Entry>
    requires k <= n <= |run|
  {
    if k == 0 then base
    else Survivors(base, run, n, k - 1) + if Survives(run, n, k - 1) then [run[k - 1].entry] else []
  }

  /** How many events the last save covers. */
  function Covered(run: seq<Event>, n: nat): (c: nat)
    requires n <= |run|
    ensures c <= n && (c > 0 ==> SavedAt(run, c - 1))
    ensures forall j | c <= j < n :: !SavedAt(run, j)
  {
    if n == 0 then 0 else if SavedAt(run, n - 1) then n else Covered(run, n - 1)
  }

  lemma {:induction false} SurvivorsNoRestart(base: seq<Entry>, run: seq<Event>, n: nat, k: nat)
    requires k <= n < |run| && !run[n].Restart?
    ensures Survivors(base, run, n + 1, k) == Survivors(base, run, n, k)
  {
    if k > 0 {
      SurvivorsNoRestart(base, run, n, k - 1);
      assert Survives(run, n + 1, k - 1) == Survives(run, n, k - 1);
    }
  }

  lemma {:induction false} SurvivorsRestart(base: seq<Entry>, run: seq<Event>, n: nat, k: nat)
    requires k <= n < |run| && run[n].Restart?
    ensures var c := Covered(run, n);
      Survivors(base, run, n + 1, k) == Survivors(base, run, n, if k < c then k else c)
  {
    var c := Covered(run, n);
    if k > 0 {
      SurvivorsRestart(base, run, n, k - 1);
      if k <= c {
        assert Survives(run, n + 1, k - 1) == Survives(run, n, k - 1) by {
          assert SavedAt(run, c - 1);
        }
      } else {
        assert !Survives(run, n + 1, k - 1);
      }
    }
  }

  ghost predicate Keeps(base: seq<Entry>, run: seq<Event>, n: nat)
    requires n <= |run|
  {
    var s := Replay(Buckets(base), run[..n]);
    && s.enabled == EnabledAt(run, n)
    && s.days == (if s.enabled then Buckets(Survivors(base, run, n, n)) else map[])
    && s.disk == Buckets(Survivors(base, run, n, Covered(run, n)))
  }

  lemma ReplayStep(disk: map<Key, Usage>, run: seq<Event>, n: nat)
    requires n < |run|
    ensures Replay(disk, run[..n + 1]) == Step(Replay(disk, run[..n]), run[n])
  {
    assert run[..n + 1][..n] == run[..n];
  }

  lemma SurvivorsStep(base: seq<Entry>, run: seq<Event>, n: nat)
    requires n < |run|
    ensures Survivors(base, run, n + 1, n + 1) ==
            Survivors(base, run, n + 1, n) + if RecordedAt(run, n) then [run[n].entry] else []
  {
    assert Survives(run, n + 1, n) == RecordedAt(run, n);
  }

  /** With the store disabled nothing is recorded or saved. */
  lemma KeepsDisabled(base: seq<Entry>, run: seq<Event>, n: nat)
    requires n < |run| && !run[n].Restart? && !EnabledAt(run, n) && Keeps(base, run, n)
    ensures Keeps(base, run, n + 1)
  {
    ReplayStep(Buckets(base), run, n);
    SurvivorsNoRestart(base, run, n, Covered(run, n));
  }

  lemma KeepsRecord(base: seq<Entry>, run: seq<Event>, n: nat)
    requires n < |run| && RecordedAt(run, n) && Keeps(base, run, n)
    ensures Keeps(base, run, n + 1)
  {
    ReplayStep(Buckets(base), run, n);
    SurvivorsStep(base, run, n);
    SurvivorsNoRestart(base, run, n, n);
    var s, c := Replay(Buckets(base), run[..n]), Covered(run, n);
    var log := Survivors(base, run, n, n);
    RecordBuckets(log, run[n].entry);
    assert Step(s, run[n]).days == Buckets(log + [run[n].entry]);
    if !SavedAt(run, n) {
      SurvivorsNoRestart(base, run, n, c);
    }
  }

  lemma KeepsClose(base: seq<Entry>, run: seq<Event>, n: nat)
    requires n < |run| && run[n].Close? && EnabledAt(run, n) && Keeps(base, run, n)
    ensures Keeps(base, run, n + 1)
  {
    ReplayStep(Buckets(base), run, n);
    SurvivorsStep(base, run, n);
    SurvivorsNoRestart(base, run, n, n);
    assert Survivors(base, run, n + 1, n + 1) == Survivors(base, run, n, n);
    if !SavedAt(run, n) {
      SurvivorsNoRestart(base, run, n, Covered(run, n));
    }
  }

  lemma KeepsRestart(base: seq<Entry>, run: seq<Event>, n: nat)
    requires n < |run| && run[n].Restart? && Keeps(base, run, n)
    ensures Keeps(base, run, n + 1)
  {
    var c, left := Covered(run, n), Survivors(base, run, n, Covered(run, n));
    var enabled := run[n].read && run[n].saved;
    assert Replay(Buckets(base), run[..n + 1]) ==
           Store(enabled, if enabled then Buckets(left) else map[], Buckets(left)) by {
      ReplayStep(Buckets(base), run, n);
    }
    assert Survivors(base, run, n + 1, n + 1) == left by {
      SurvivorsStep(base, run, n);
      SurvivorsRestart(base, run, n, n);
    }
    assert Covered(run, n + 1) == c;
    assert Survivors(base, run, n + 1, c) == left by {
      SurvivorsRestart(base, run, n, c);
    }
  }

  /** After any run of records, closes and restarts, with saves that fail and stores
      that come up disabled, from any ledger file, an enabled store's ledger is that
      of the requests that survive, and the file is that of the survivors among the
      events the last save covered. */
  lemma {:induction false} ReplayKeeps(base: seq<Entry>, run: seq<Event>, n: nat)
    requires n <= |run|
    ensures Keeps(base, run, n)
  {
    if n > 0 {
      ReplayKeeps(base, run, n - 1);
      if run[n - 1].Restart? {
        KeepsRestart(base, run, n - 1);
      } else if !EnabledAt(run, n - 1) {
        KeepsDisabled(base, run, n - 1);
      } else if run[n - 1].Record? {
        KeepsRecord(base, run, n - 1);
      } else {
        KeepsClose(base, run, n - 1);
      }
    }
  }

  function Recorded(base: seq<Entry>, run: seq<Event>): seq<Entry> {
    if run == [] then base
    else Recorded(base, run[..|run| - 1]) +
         if run[|run| - 1].Record? then [run[|run| - 1].entry] else []
  }

  /** While every file is read and every save succeeds nothing is lost. */
  lemma {:induction false} NothingLost(base: seq<Entry>, run: seq<Event>, k: nat)
    requires k <= |run| && forall e <- run :: e.saved && (e.Restart? ==> e.read)
    ensures Survivors(base, run, |run|, k) == Recorded(base, run[..k]) && EnabledAt(run, k)
  {
    if k > 0 {
      NothingLost(base, run, k - 1);
      assert run[..k][..k - 1] == run[..k - 1];
      assert run[k - 1] in run;
      if run[k - 1].Record? {
        assert SavedAt(run, k - 1);
      }
    }
  }

  /** A close that saves makes up for every save that failed while the store was up. */
  lemma CloseSavesAll(base: seq<Entry>, run: seq<Event>, n: nat)
    requires n < |run| && run[n].Close? && run[n].saved && EnabledAt(run, n)
    ensures var s := Replay(Buckets(base), run[..n + 1]);
      s.disk == s.days == Replay(Buckets(base), run[..n]).days
  {
    ReplayStep(Buckets(base), run, n);
    ReplayKeeps(base, run, n);
  }

  // The store

  function Chosen(keys: set<Key>, p: Period, now: Day): set<Key> {
    set k <- keys | Counts(k, p, now)
  }

  lemma ChosenAdds(log: seq<Entry>, done: set<Key>, key: Key, p: Period, now: Day)
    requires key !in done && key in KeysOf(log)
    ensures SumOver(log, Chosen(done + {key}, p, now)) ==
            if Counts(key, p, now) then SumOver(log, Chosen(done, p, now)).Plus(Buckets(log)[key])
            else SumOver(log, Chosen(done, p, now))
  {
    if Counts(key, p, now) {
      assert Chosen(done + {key}, p, now) == Chosen(done, p, now) + {key};
      SumAdds(log, Chosen(done, p, now), key);
    } else {
      assert Chosen(done + {key}, p, now) == Chosen(done, p, now);
    }
  }

  ghost predicate Summed(log: seq<Entry>, totals: map<Period, Usage>, keys: set<Key>, now: Day) {
    forall p :: At(totals, p) == SumOver(log, Chosen(keys, p, now))
  }

  lemma NothingSummed(log: seq<Entry>, totals: map<Period, Usage>, keys: set<Key>, now: Day)
    requires totals == map[] && keys == {}
    ensures Summed(log, totals, keys, now)
  {
    forall p ensures SumOver(log, Chosen(keys, p, now)) == NOTHING {
      SumNone(log, Chosen(keys, p, now));
    }
  }

  lemma SummedAdds(log: seq<Entry>, before: map<Period, Usage>, after: map<Period, Usage>,
                   done: set<Key>, key: Key, now: Day)
    requires Summed(log, before, done, now) && key !in done && key in KeysOf(log)
    requires forall p ::
      At(after, p) == if Counts(key, p, now) then At(before, p).Plus(Buckets(log)[key]) else At(before, p)
    ensures Summed(log, after, done + {key}, now)
  {
    forall p ensures At(after, p) == SumOver(log, Chosen(done + {key}, p, now)) {
      ChosenAdds(log, done, key, p, now);
    }
  }

  lemma {:induction false} ChosenSame(log: seq<Entry>, log': seq<Entry>, keys: set<Key>, p: Period, now: Day)
    requires Buckets(log) == Buckets(log') && keys <= KeysOf(log)
    ensures SumOver(log, Chosen(keys, p, now)) == SumOver(log', Chosen(keys, p, now))
  {
    if keys == {} {
      SumNone(log, Chosen(keys, p, now));
      SumNone(log', Chosen(keys, p, now));
    } else {
      var k :| k in keys;
      assert keys - {k} + {k} == keys;
      assert KeysOf(log) == Buckets(log).Keys == Buckets(log').Keys == KeysOf(log');
      ChosenSame(log, log', keys - {k}, p, now);
      ChosenAdds(log, keys - {k}, k, p, now);
      ChosenAdds(log', keys - {k}, k, p, now);
    }
  }

  /** The buckets of a log determine its period totals. */
  lemma SameSums(log: seq<Entry>, log': seq<Entry>, p: Period, now: Day)
    requires Buckets(log) == Buckets(log')
    ensures SumOver(log, Chosen(KeysOf(log), p, now)) == SumWindow(log', p, now)
  {
    assert KeysOf(log) == Buckets(log).Keys == Buckets(log').Keys == KeysOf(log');
    ChosenSame(log, log', KeysOf(log), p, now);
    SumIsWindow(log', p, now, Chosen(KeysOf(log'), p, now));
  }

  class LedgerFile {
    var days: map<Key, Usage>

    constructor ()
      ensures days == map[]
    {
      days := map[];
    }
  }

  class UsageStore {
    const file: LedgerFile
    const enabled: bool
    var days: map<Key, Usage>

    /** A store that cannot read its file, or cannot write it back, is disabled. */
    constructor Open(file: LedgerFile, read: bool, saved: bool)
      ensures this.file == file
      ensures forall was: Store | was.disk == old(file.days) :: State() == Step(was, Restart(read, saved))
      ensures enabled == (read && saved) && days == if read && saved then file.days else map[]
    {
      this.file := file;
      enabled := read && saved;
      days := if read && saved then file.days else map[];
    }

    function State(): Store
      reads this, file
    {
      Store(enabled, days, file.days)
    }

    method RecordUsageOn(day: Day, input: int, output: int, cost: Option<real>, saved: bool)
      modifies this, file
      ensures var usage := Usage(input, output, if cost.Some? then cost.value else 0.0);
        State() == Step(old(State()), Record(Entry(On(day), usage), saved))
      ensures enabled ==> On(day) in days
      ensures enabled ==>
        var was, now := At(old(days), On(day)), days[On(day)];
        && now.input == was.input + input && now.output == was.output + output
        && now.cost == was.cost + (if cost.Some? then cost.value else 0.0)
      ensures enabled ==> forall k <- old(days) | k != On(day) :: k in days && days[k] == old(days)[k]
      ensures file.days == if enabled && saved then days else old(file.days)
    {
      if !enabled {
        return;
      }
      var dollars := 0.0;
      if cost.Some? {
        dollars := cost.value;
      }
      var key := On(day);
      var total := if key in days then days[key] else NOTHING;
      total := total.(input := total.input + input);
      total := total.(output := total.output + output);
      total := total.(cost := total.cost + dollars);
      days := days[key := total];
      if saved {
        file.days := days;
      }
    }

    method Flush(saved: bool)
      modifies file
      ensures State() == Step(old(State()), Close(saved))
      ensures file.days == if enabled && saved then days else old(file.days)
    {
      if enabled && saved {
        file.days := days;
      }
    }

    /** Whatever log the ledger is that of, each total is the sum over the
        requests of that log whose day lies in the period. */
    method Aggregate(now: Day) returns (totals: map<Period, Usage>)
      ensures !enabled ==> totals == map[]
      ensures enabled ==> forall log, p | Buckets(log) == days :: At(totals, p) == SumWindow(log, p, now)
    {
      if !enabled {
        totals := map[];
        return;
      }
      ghost var log := LogOf(days);
      totals := AddUp(log, now);
      forall log', p | Buckets(log') == days
        ensures At(totals, p) == SumWindow(log', p, now)
      {
        SameSums(log, log', p, now);
      }
    }

    method AddUp(ghost log: seq<Entry>, now: Day) returns (totals: map<Period, Usage>)
      requires Buckets(log) == days
      ensures forall p :: At(totals, p) == SumOver(log, Chosen(KeysOf(log), p, now))
    {
      totals := map[];
      var left := days.Keys;
      assert days.Keys == KeysOf(log);
      NothingSummed(log, totals, {}, now);
      assert KeysOf(log) - left == {};
      while left != {}
        invariant left <= KeysOf(log)
        invariant Summed(log, totals, KeysOf(log) - left, now)
        decreases left
      {
        var key :| key in left;
        ghost var done, was := KeysOf(log) - left, totals;
        if key.On? {
          totals := AddDay(totals, key.day, days[key], now);
        }
        SummedAdds(log, was, totals, done, key, now);
        left := left - {key};
        assert KeysOf(log) - left == done + {key};
      }
      assert KeysOf(log) - {} == KeysOf(log);
    }

    method AddDay(totals: map<Period, Usage>, day: Day, usage: Usage, now: Day)
      returns (r: map<Period, Usage>)
      ensures forall p ::
        At(r, p) == if InWindow(p, day, now) then At(totals, p).Plus(usage) else At(totals, p)
    {
      forall p ensures p in PeriodsFor(day, now) <==> InWindow(p, day, now) {
        PeriodsAreWindows(p, day, now);
      }
      r := AddTo(totals, PeriodsFor(day, now), usage);
    }

    method AddTo(totals: map<Period, Usage>, periods: set<Period>, usage: Usage)
      returns (r: map<Period, Usage>)
      ensures forall p :: At(r, p) == if p in periods then At(totals, p).Plus(usage) else At(totals, p)
    {
      r := totals;
      var left := periods;
      while left != {}
        invariant left <= periods
        invariant forall p :: At(r, p) == if p in periods - left then At(totals, p).Plus(usage) else At(totals, p)
        decreases left
      {
        var p :| p in left;
        r := r[p := At(r, p).Plus(usage)];
        left := left - {p};
      }
    }
  }
}
