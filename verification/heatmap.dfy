/** The reading heatmap: a window of days ending today with the number of
    sessions logged on each, an intensity bucket per day, the month view's
    rows of seven days, and the year view's per-month totals. The calendar is
    the parameter `dateOf`, which gives the `YYYY-MM-DD` string of the day
    that many days before today. */
module Heatmap {
  import opened Common
  import opened GameTypes

  datatype TimeFilter = MonthView | YearView

  function DaysToShow(f: TimeFilter): nat {
    match f
    case MonthView => 35
    case YearView => 365
  }

  datatype Day = Day(date: string, count: nat)

  /** Sessions logged on a date. */
  function CountOn(sessions: seq<SessionRecord>, date: string): (n: nat)
    ensures n <= |sessions|
    ensures n == 0 <==> forall k :: 0 <= k < |sessions| ==> sessions[k].date != date
    decreases |sessions|
  {
    if sessions == [] then 0
    else (if sessions[0].date == date then 1 else 0) + CountOn(sessions[1..], date)
  }

  /** The window, oldest day first and today last, each day with its count. */
  function HeatmapDays(sessions: seq<SessionRecord>, f: TimeFilter, dateOf: nat -> string): (days: seq<Day>)
    ensures |days| == DaysToShow(f)
    ensures forall k :: 0 <= k < |days| ==> days[k].date == dateOf(DaysToShow(f) - 1 - k)
    ensures forall k :: 0 <= k < |days| ==> days[k].count == CountOn(sessions, days[k].date)
    ensures days[|days| - 1].date == dateOf(0)
  {
    var n := DaysToShow(f);
    seq(n, k requires 0 <= k < n => Day(dateOf(n - 1 - k), CountOn(sessions, dateOf(n - 1 - k))))
  }

  /** A day's count is at most the number of sessions, and the counts of
      distinct dates together never exceed it. */
  lemma {:induction false} CountsOfTwoDates(sessions: seq<SessionRecord>, d1: string, d2: string)
    requires d1 != d2
    ensures CountOn(sessions, d1) + CountOn(sessions, d2) <= |sessions|
    decreases |sessions|
  {
    if sessions != [] {
      CountsOfTwoDates(sessions[1..], d1, d2);
    }
  }

  datatype Intensity = Muted | Light | Medium | Full

  function Rank(i: Intensity): nat {
    match i
    case Muted => 0
    case Light => 1
    case Medium => 2
    case Full => 3
  }

  /** `getIntensityClass`: no session, one, two, three or more. */
  function IntensityOf(count: nat): (i: Intensity)
    ensures i == Muted <==> count == 0
    ensures i == Full <==> count >= 3
    ensures Rank(i) == Min(count, 3)
  {
    if count == 0 then Muted
    else if count == 1 then Light
    else if count == 2 then Medium
    else Full
  }

  /** More sessions never show a paler cell. */
  lemma IntensityMonotone(a: nat, b: nat)
    requires a <= b
    ensures Rank(IntensityOf(a)) <= Rank(IntensityOf(b))
  {
  }

  /** The month view's rows: consecutive runs of seven days, the last row
      possibly shorter. */
  function Weeks(days: seq<Day>): (rows: seq<seq<Day>>)
    ensures forall k :: 0 <= k < |rows| ==> 0 < |rows[k]| <= 7
    ensures forall k :: 0 <= k < |rows| - 1 ==> |rows[k]| == 7
    ensures |rows| == (|days| + 6) / 7
    ensures |days| % 7 == 0 ==> forall k :: 0 <= k < |rows| ==> |rows[k]| == 7
    decreases |days|
  {
    if |days| == 0 then []
    else if |days| <= 7 then [days]
    else [days[..7]] + Weeks(days[7..])
  }

  function Flatten(rows: seq<seq<Day>>): seq<Day>
    decreases |rows|
  {
    if rows == [] then [] else rows[0] + Flatten(rows[1..])
  }

  /** Reading the rows left to right, top to bottom gives back the window. */
  lemma {:induction false} WeeksFlatten(days: seq<Day>)
    ensures Flatten(Weeks(days)) == days
    decreases |days|
  {
    if |days| > 7 {
      WeeksFlatten(days[7..]);
      assert days[..7] + days[7..] == days;
    } else if |days| > 0 {
      assert Weeks(days) == [days];
      assert Flatten([days]) == days + Flatten([]);
    }
  }

  /** The 35-day month view has five full weeks. */
  lemma MonthViewIsFiveWeeks(sessions: seq<SessionRecord>, dateOf: nat -> string)
    ensures var rows := Weeks(HeatmapDays(sessions, MonthView, dateOf));
            |rows| == 5 && forall k :: 0 <= k < 5 ==> |rows[k]| == 7
  {
  }

  // ---------------------------------------------------------------------
  // The year view

  /** A month key (`YYYY-MM`) with its running total, in first-seen order as
      `Object.entries` lists string keys. */
  datatype MonthTotal = MonthTotal(key: string, count: int)

  predicate HasKey(groups: seq<MonthTotal>, key: string) {
    exists i :: 0 <= i < |groups| && groups[i].key == key
  }

  function SumCounts(groups: seq<MonthTotal>): int
    decreases |groups|
  {
    if groups == [] then 0 else groups[0].count + SumCounts(groups[1..])
  }

  function SumDays(days: seq<Day>): int
    decreases |days|
  {
    if days == [] then 0 else SumDays(days[..|days| - 1]) + days[|days| - 1].count
  }

  predicate DistinctKeys(groups: seq<MonthTotal>) {
    forall i, j :: 0 <= i < j < |groups| ==> groups[i].key != groups[j].key
  }

  /** `months[key] = (months[key] || 0) + count`. */
  function AddTo(groups: seq<MonthTotal>, key: string, count: int): (r: seq<MonthTotal>)
    decreases |groups|
  {
    if groups == [] then [MonthTotal(key, count)]
    else if groups[0].key == key then [MonthTotal(key, groups[0].count + count)] + groups[1..]
    else [groups[0]] + AddTo(groups[1..], key, count)
  }

  /** Adding under a key adds exactly that key to the bars' months. */
  lemma {:induction false} AddToKeys(groups: seq<MonthTotal>, key: string, count: int)
    ensures forall k :: HasKey(AddTo(groups, key, count), k) <==> HasKey(groups, k) || k == key
    decreases |groups|
  {
    var r := AddTo(groups, key, count);
    if groups == [] {
      assert r[0].key == key;
    } else if groups[0].key == key {
      HasKeyCons(groups[0], groups[1..]);
      HasKeyCons(r[0], groups[1..]);
      assert groups == [groups[0]] + groups[1..];
    } else {
      AddToKeys(groups[1..], key, count);
      HasKeyCons(groups[0], groups[1..]);
      HasKeyCons(groups[0], AddTo(groups[1..], key, count));
      assert groups == [groups[0]] + groups[1..];
    }
  }

  /** The total grows by exactly the count added. */
  lemma {:induction false} AddToSum(groups: seq<MonthTotal>, key: string, count: int)
    ensures SumCounts(AddTo(groups, key, count)) == SumCounts(groups) + count
    decreases |groups|
  {
    var r := AddTo(groups, key, count);
    if groups == [] {
      assert SumCounts(r) == count + SumCounts([]);
    } else if groups[0].key == key {
      assert r[1..] == groups[1..];
    } else {
      AddToSum(groups[1..], key, count);
      assert r[1..] == AddTo(groups[1..], key, count);
    }
  }

  /** Months stay distinct: an existing month is updated in place, a new one
      is appended once. */
  lemma {:induction false} AddToDistinct(groups: seq<MonthTotal>, key: string, count: int)
    requires DistinctKeys(groups)
    ensures DistinctKeys(AddTo(groups, key, count))
    decreases |groups|
  {
    var r := AddTo(groups, key, count);
    if groups == [] {
    } else if groups[0].key == key {
      assert forall i :: 0 <= i < |groups| ==> r[i].key == groups[i].key;
    } else {
      var rest := AddTo(groups[1..], key, count);
      AddToDistinct(groups[1..], key, count);
      AddToKeys(groups[1..], key, count);
      HasKeyCons(groups[0], groups[1..]);
      assert groups == [groups[0]] + groups[1..];
      assert !HasKey(groups[1..], groups[0].key);
      assert !HasKey(rest, groups[0].key);
      assert forall i :: 0 <= i < |rest| ==> HasKey(rest, rest[i].key);
      assert r == [groups[0]] + rest;
    }
  }

  lemma HasKeyCons(x: MonthTotal, rest: seq<MonthTotal>)
    ensures forall k :: HasKey([x] + rest, k) <==> x.key == k || HasKey(rest, k)
  {
    var r := [x] + rest;
    forall k | HasKey(r, k) && k != x.key ensures HasKey(rest, k) {
      var i :| 0 <= i < |r| && r[i].key == k;
      assert rest[i - 1].key == k;
    }
    forall k | HasKey(rest, k) ensures HasKey(r, k) {
      var i :| 0 <= i < |rest| && rest[i].key == k;
      assert r[i + 1].key == k;
    }
    assert r[0].key == x.key;
  }

  /** `date.substring(0, 7)`: the `YYYY-MM` month of a day. */
  function MonthOf(d: Day): string {
    Take(d.date, 7)
  }

  /** The sessions of the window's days that fall in month `key`. */
  function MonthSum(days: seq<Day>, key: string): int
    decreases |days|
  {
    if days == [] then 0
    else MonthSum(days[..|days| - 1], key) + (if MonthOf(days[|days| - 1]) == key then days[|days| - 1].count else 0)
  }

  /** The position of the first day of month `key` in the window, or the
      window's length when no day falls in it. */
  function FirstDay(days: seq<Day>, key: string): (f: nat)
    ensures f <= |days|
    ensures f < |days| ==> MonthOf(days[f]) == key
    ensures forall e :: 0 <= e < f && e < |days| ==> MonthOf(days[e]) != key
    decreases |days|
  {
    if days == [] then 0
    else
      var f := FirstDay(days[..|days| - 1], key);
      if f < |days| - 1 then f
      else if MonthOf(days[|days| - 1]) == key then |days| - 1
      else |days|
  }

  /** The shape of `AddTo` on distinct months: an existing month's total
      grows in place, a new month is appended last. */
  lemma {:induction false} AddToShape(groups: seq<MonthTotal>, key: string, count: int)
    requires DistinctKeys(groups)
    ensures HasKey(groups, key) ==>
              var r := AddTo(groups, key, count);
              && |r| == |groups|
              && forall g :: 0 <= g < |r| ==>
                   r[g].key == groups[g].key
                   && r[g].count == groups[g].count + (if groups[g].key == key then count else 0)
    ensures !HasKey(groups, key) ==> AddTo(groups, key, count) == groups + [MonthTotal(key, count)]
    decreases |groups|
  {
    if groups != [] {
      HasKeyCons(groups[0], groups[1..]);
      assert groups == [groups[0]] + groups[1..];
      if groups[0].key != key {
        AddToShape(groups[1..], key, count);
      } else {
        assert !HasKey(groups[1..], key);
      }
    }
  }

  /** One step of the fold, for the totals: each bar still holds its
      month's sessions once the last day is added. */
  lemma StepCounts(days: seq<Day>, init: seq<MonthTotal>)
    requires |days| > 0
    requires DistinctKeys(init)
    requires forall g :: 0 <= g < |init| ==> init[g].count == MonthSum(days[..|days| - 1], init[g].key)
    requires forall k :: FirstDay(days[..|days| - 1], k) < |days| - 1 ==> HasKey(init, k)
    ensures var r := AddTo(init, MonthOf(days[|days| - 1]), days[|days| - 1].count);
            forall g :: 0 <= g < |r| ==> r[g].count == MonthSum(days, r[g].key)
  {
    var key, n, c := MonthOf(days[|days| - 1]), |days| - 1, days[|days| - 1].count;
    var r := AddTo(init, key, c);
    AddToShape(init, key, c);
    forall g | 0 <= g < |init| ensures init[g].count + (if init[g].key == key then c else 0) == MonthSum(days, init[g].key) {
      SnocFacts(days, init[g].key);
    }
    if !HasKey(init, key) {
      SnocFacts(days, key);
      assert FirstDay(days[..n], key) == n;
      MonthSumAbsent(days[..n], key);
      assert r[|init|] == MonthTotal(key, c);
    }
  }

  /** One step of the fold, for the bars' months: every bar's month occurs
      in the window, and every month that occurs has a bar. */
  lemma StepCovers(days: seq<Day>, init: seq<MonthTotal>)
    requires |days| > 0
    requires DistinctKeys(init)
    requires forall g :: 0 <= g < |init| ==> FirstDay(days[..|days| - 1], init[g].key) < |days| - 1
    requires forall k :: FirstDay(days[..|days| - 1], k) < |days| - 1 ==> HasKey(init, k)
    ensures var r := AddTo(init, MonthOf(days[|days| - 1]), days[|days| - 1].count);
            && (forall g :: 0 <= g < |r| ==> FirstDay(days, r[g].key) < |days|)
            && (forall k :: FirstDay(days, k) < |days| ==> HasKey(r, k))
  {
    var key, n, c := MonthOf(days[|days| - 1]), |days| - 1, days[|days| - 1].count;
    var r := AddTo(init, key, c);
    AddToShape(init, key, c);
    AddToKeys(init, key, c);
    forall g | 0 <= g < |init| ensures FirstDay(days, init[g].key) < |days| {
      SnocFacts(days, init[g].key);
    }
    forall k | FirstDay(days, k) < |days| ensures HasKey(r, k) {
      SnocFacts(days, k);
    }
    if !HasKey(init, key) {
      SnocFacts(days, key);
      assert r[|init|].key == key;
    }
  }

  /** One step of the fold, for the order: bars stay in the order their
      months first appear, a new month coming last. */
  lemma StepOrder(days: seq<Day>, init: seq<MonthTotal>)
    requires |days| > 0
    requires DistinctKeys(init)
    requires forall g :: 0 <= g < |init| ==> FirstDay(days[..|days| - 1], init[g].key) < |days| - 1
    requires forall k :: FirstDay(days[..|days| - 1], k) < |days| - 1 ==> HasKey(init, k)
    requires forall g, h :: 0 <= g < h < |init| ==>
               FirstDay(days[..|days| - 1], init[g].key) < FirstDay(days[..|days| - 1], init[h].key)
    ensures var r := AddTo(init, MonthOf(days[|days| - 1]), days[|days| - 1].count);
            forall g, h :: 0 <= g < h < |r| ==> FirstDay(days, r[g].key) < FirstDay(days, r[h].key)
  {
    var key, n, c := MonthOf(days[|days| - 1]), |days| - 1, days[|days| - 1].count;
    var r := AddTo(init, key, c);
    AddToShape(init, key, c);
    if HasKey(init, key) {
      forall g, h | 0 <= g < h < |r| ensures FirstDay(days, r[g].key) < FirstDay(days, r[h].key) {
        assert r[g].key == init[g].key && r[h].key == init[h].key;
        FirstDayStable(days, init[g].key);
        FirstDayStable(days, init[h].key);
      }
    } else {
      FirstDayStable(days, key);
      assert FirstDay(days[..n], key) == n;
      forall g, h | 0 <= g < h < |r| ensures FirstDay(days, r[g].key) < FirstDay(days, r[h].key) {
        assert r[g] == init[g];
        FirstDayStable(days, init[g].key);
        if h < |init| {
          assert r[h] == init[h];
          FirstDayStable(days, init[h].key);
        } else {
          assert r[h].key == key;
        }
      }
    }
  }

  /** A month already seen keeps its first day when a day is added; a month
      not yet seen gets the added day when it is in it. */
  lemma FirstDayStable(days: seq<Day>, k: string)
    requires |days| > 0
    ensures FirstDay(days[..|days| - 1], k) < |days| - 1 ==> FirstDay(days, k) == FirstDay(days[..|days| - 1], k)
    ensures FirstDay(days[..|days| - 1], k) == |days| - 1 && MonthOf(days[|days| - 1]) == k ==>
              FirstDay(days, k) == |days| - 1
  {
  }

  /** What adding the last day changes: a month's first day stays where it
      was, or is the last day when the month is new; its sessions grow by
      the last day's when the day is in it. */
  lemma SnocFacts(days: seq<Day>, k: string)
    requires |days| > 0
    ensures var n := |days| - 1;
            FirstDay(days, k) == if FirstDay(days[..n], k) < n then FirstDay(days[..n], k)
                                 else if MonthOf(days[n]) == k then n else n + 1
    ensures var n := |days| - 1;
            MonthSum(days, k) == MonthSum(days[..n], k) + (if MonthOf(days[n]) == k then days[n].count else 0)
  {
  }

  /** A month with no day in the window has no sessions. */
  lemma {:induction false} MonthSumAbsent(days: seq<Day>, key: string)
    requires FirstDay(days, key) == |days|
    ensures MonthSum(days, key) == 0
    decreases |days|
  {
    if days != [] {
      var n := |days| - 1;
      assert FirstDay(days[..n], key) == n;
      MonthSumAbsent(days[..n], key);
    }
  }

  /** Folds the days, oldest first, into month totals: one bar per month of
      the window, each holding that month's sessions, in the order the
      months first appear. */
  function MonthTotals(days: seq<Day>): (groups: seq<MonthTotal>)
    ensures DistinctKeys(groups)
    ensures SumCounts(groups) == SumDays(days)
    ensures forall g :: 0 <= g < |groups| ==> groups[g].count == MonthSum(days, groups[g].key)
    ensures forall g :: 0 <= g < |groups| ==> FirstDay(days, groups[g].key) < |days|
    ensures forall k :: FirstDay(days, k) < |days| ==> HasKey(groups, k)
    ensures forall g, h :: 0 <= g < h < |groups| ==> FirstDay(days, groups[g].key) < FirstDay(days, groups[h].key)
    decreases |days|
  {
    if days == [] then []
    else
      var init, last := MonthTotals(days[..|days| - 1]), days[|days| - 1];
      AddToDistinct(init, MonthOf(last), last.count);
      AddToSum(init, MonthOf(last), last.count);
      StepCounts(days, init);
      StepCovers(days, init);
      StepOrder(days, init);
      AddTo(init, MonthOf(last), last.count)
  }

  /** Each bar belongs to a month some day of the window falls in, and every
      such month has a bar. */
  lemma MonthKeys(days: seq<Day>)
    ensures forall k :: HasKey(MonthTotals(days), k) <==> exists d :: 0 <= d < |days| && Take(days[d].date, 7) == k
  {
    forall k ensures HasKey(MonthTotals(days), k) <==> exists d :: 0 <= d < |days| && Take(days[d].date, 7) == k {
      if exists d :: 0 <= d < |days| && Take(days[d].date, 7) == k {
        var d :| 0 <= d < |days| && Take(days[d].date, 7) == k;
        assert MonthOf(days[d]) == k;
        assert FirstDay(days, k) <= d;
      }
      if HasKey(MonthTotals(days), k) {
        var g :| 0 <= g < |MonthTotals(days)| && MonthTotals(days)[g].key == k;
        assert MonthOf(days[FirstDay(days, k)]) == k;
      }
    }
  }

  /** `groups.slice(-12)`: at most the last twelve months. */
  function LastTwelve(groups: seq<MonthTotal>): (r: seq<MonthTotal>)
    ensures |r| == Min(|groups|, 12)
    ensures r == groups[|groups| - |r|..]
  {
    if |groups| <= 12 then groups else groups[|groups| - 12..]
  }

  /** The year view never shows more than twelve bars, and when nothing is
      cut its bars add up to every session counted in the window. */
  lemma YearViewTotals(sessions: seq<SessionRecord>, dateOf: nat -> string)
    ensures var days := HeatmapDays(sessions, YearView, dateOf);
            var bars := LastTwelve(MonthTotals(days));
            |bars| <= 12
            && (|MonthTotals(days)| <= 12 ==> SumCounts(bars) == SumDays(days))
            && (forall b :: 0 <= b < |bars| ==> bars[b].count == MonthSum(days, bars[b].key))
            && (forall b, c :: 0 <= b < c < |bars| ==> FirstDay(days, bars[b].key) < FirstDay(days, bars[c].key))
  {
    var days := HeatmapDays(sessions, YearView, dateOf);
    LastTwelveKeepsMonths(days, MonthTotals(days));
  }

  /** The bars kept are a suffix of the month totals, so each still holds its
      month's sessions and they keep their order. */
  lemma LastTwelveKeepsMonths(days: seq<Day>, groups: seq<MonthTotal>)
    requires forall g :: 0 <= g < |groups| ==> groups[g].count == MonthSum(days, groups[g].key)
    requires forall g, h :: 0 <= g < h < |groups| ==> FirstDay(days, groups[g].key) < FirstDay(days, groups[h].key)
    ensures var bars := LastTwelve(groups);
            && (forall b :: 0 <= b < |bars| ==> bars[b].count == MonthSum(days, bars[b].key))
            && (forall b, c :: 0 <= b < c < |bars| ==> FirstDay(days, bars[b].key) < FirstDay(days, bars[c].key))
  {
    var bars := LastTwelve(groups);
    var off := |groups| - |bars|;
    assert forall b :: 0 <= b < |bars| ==> bars[b] == groups[off + b];
  }
}
