/**
 The range trim applied to the daily series before charting: a trailing window
 of one day, one month or one year ending at the last point's date, or the whole
 series. Calendar month and year arithmetic is left to the host date library and
 enters the model as a `Calendar` value.
 */
module RangeFilter {
  import opened Trades
  import opened Valuation
  import ValuationProperties

  datatype TimeRange = OneDay | OneMonth | OneYear | Max

  /** The day one month before, and the day one year before, a given day. */
  datatype Calendar = Calendar(monthBefore: int -> int, yearBefore: int -> int)

  /** The calendar moves back (or stays put) from day `d`. */
  predicate StepsBack(calendar: Calendar, d: int)
  {
    calendar.monthBefore(d) <= d && calendar.yearBefore(d) <= d
  }

  /** First day of the window of `range` that ends on day `last`. */
  function WindowStart(range: TimeRange, last: int, calendar: Calendar): (r: int)
    requires range != Max
  {
    match range
    case OneDay => last - 1
    case OneMonth => calendar.monthBefore(last)
    case OneYear => calendar.yearBefore(last)
  }

  /** The points dated on or after `start`, in their original order. */
  function KeepFrom(data: seq<DailyPoint>, start: int): (r: seq<DailyPoint>)
    ensures |r| <= |data|
  {
    if data == [] then []
    else (if data[0].date >= start then [data[0]] else []) + KeepFrom(data[1..], start)
  }

  /** A point survives the trim exactly when it is in the series and dated on or after `start`. */
  lemma {:induction false} KeepFromMembers(data: seq<DailyPoint>, start: int)
    ensures forall p :: p in KeepFrom(data, start) <==> p in data && p.date >= start
  {
    if data != [] {
      KeepFromMembers(data[1..], start);
      assert forall p :: p in data <==> p == data[0] || p in data[1..];
    }
  }

  /**
   The window of `range` ending at the last point: the whole series for `Max` or
   an empty series, else the points dated no earlier than the window start.
   */
  function GetFilteredData(data: seq<DailyPoint>, range: TimeRange, calendar: Calendar): (r: seq<DailyPoint>)
    ensures range == Max || data == [] ==> r == data
    ensures range != Max && data != [] ==>
      forall p :: p in r <==> p in data && p.date >= WindowStart(range, data[|data| - 1].date, calendar)
  {
    if range == Max || |data| == 0 then data
    else
      var start := WindowStart(range, data[|data| - 1].date, calendar);
      KeepFromMembers(data, start);
      KeepFrom(data, start)
  }

  ghost predicate Ascending(data: seq<DailyPoint>)
  {
    forall i, j :: 0 <= i < j < |data| ==> data[i].date <= data[j].date
  }

  /** Trimming distributes over concatenation, so it keeps the relative order of the points. */
  lemma {:induction false} KeepFromAppend(a: seq<DailyPoint>, b: seq<DailyPoint>, start: int)
    ensures KeepFrom(a + b, start) == KeepFrom(a, start) + KeepFrom(b, start)
  {
    if a == [] {
      assert a + b == b;
    } else {
      KeepFromAppend(a[1..], b, start);
      var head := if a[0].date >= start then [a[0]] else [];
      calc {
        KeepFrom(a + b, start);
        { assert (a + b)[0] == a[0]; assert (a + b)[1..] == a[1..] + b; }
        head + KeepFrom(a[1..] + b, start);
        head + (KeepFrom(a[1..], start) + KeepFrom(b, start));
        { assert head + (KeepFrom(a[1..], start) + KeepFrom(b, start))
              == (head + KeepFrom(a[1..], start)) + KeepFrom(b, start); }
        KeepFrom(a, start) + KeepFrom(b, start);
      }
    }
  }

  /** A series entirely inside the window is kept whole. */
  lemma {:induction false} KeepAll(data: seq<DailyPoint>, start: int)
    requires forall i :: 0 <= i < |data| ==> data[i].date >= start
    ensures KeepFrom(data, start) == data
  {
    if data != [] {
      KeepAll(data[1..], start);
      assert data == [data[0]] + data[1..];
    }
  }

  /** A series entirely before the window is dropped whole. */
  lemma {:induction false} KeepNone(data: seq<DailyPoint>, start: int)
    requires forall i :: 0 <= i < |data| ==> data[i].date < start
    ensures KeepFrom(data, start) == []
  {
    if data != [] {
      KeepNone(data[1..], start);
    }
  }

  /** On a date-ordered series the kept points are a contiguous suffix. */
  lemma {:induction false} KeepFromSuffix(data: seq<DailyPoint>, start: int)
    requires Ascending(data)
    ensures KeepFrom(data, start) == data[|data| - |KeepFrom(data, start)|..]
  {
    if data != [] {
      if data[0].date >= start {
        KeepAll(data, start);
      } else {
        KeepFromSuffix(data[1..], start);
        assert data[1..][|data| - 1 - |KeepFrom(data[1..], start)|..]
            == data[|data| - |KeepFrom(data, start)|..];
      }
    }
  }

  /** Trimming twice with the same start trims once. */
  lemma {:induction false} KeepFromTwice(data: seq<DailyPoint>, start: int)
    ensures KeepFrom(KeepFrom(data, start), start) == KeepFrom(data, start)
  {
    var r := KeepFrom(data, start);
    KeepFromMembers(data, start);
    forall i | 0 <= i < |r| ensures r[i].date >= start {
      assert r[i] in r;
    }
    KeepAll(r, start);
  }

  /** When the calendar steps back, the last point is kept and is still last. */
  lemma LastKept(data: seq<DailyPoint>, range: TimeRange, calendar: Calendar)
    requires data != [] && StepsBack(calendar, data[|data| - 1].date)
    ensures var r := GetFilteredData(data, range, calendar);
      r != [] && r[|r| - 1] == data[|data| - 1]
  {
    if range != Max {
      var n := |data|;
      var start := WindowStart(range, data[n - 1].date, calendar);
      assert data == data[..n - 1] + [data[n - 1]];
      KeepFromAppend(data[..n - 1], [data[n - 1]], start);
      assert KeepFrom([data[n - 1]], start) == [data[n - 1]];
    }
  }

  /** Choosing the same range again changes nothing: the window is anchored at the same last point. */
  lemma FilterIdempotent(data: seq<DailyPoint>, range: TimeRange, calendar: Calendar)
    requires data != [] ==> StepsBack(calendar, data[|data| - 1].date)
    ensures GetFilteredData(GetFilteredData(data, range, calendar), range, calendar)
         == GetFilteredData(data, range, calendar)
  {
    if range != Max && data != [] {
      LastKept(data, range, calendar);
      KeepFromTwice(data, WindowStart(range, data[|data| - 1].date, calendar));
    }
  }

  /** On a series of consecutive days, the one-day window holds the last two points (the last one if there is only one). */
  lemma OneDayWindow(data: seq<DailyPoint>, calendar: Calendar)
    requires data != []
    requires forall i :: 0 <= i < |data| ==> data[i].date == data[0].date + i
    ensures GetFilteredData(data, OneDay, calendar) == if |data| >= 2 then data[|data| - 2..] else data
  {
    var n := |data|;
    var start := data[n - 1].date - 1;
    var cut := if n >= 2 then n - 2 else 0;
    assert data == data[..cut] + data[cut..];
    KeepFromAppend(data[..cut], data[cut..], start);
    KeepNone(data[..cut], start);
    KeepAll(data[cut..], start);
  }

  /** The one-day view of a valuation series shows its last two days, or its only day. */
  lemma SeriesOneDayWindow(transactions: seq<Trade>, calendar: Calendar)
    requires transactions != []
    ensures var points := DailySeries(transactions).points;
      GetFilteredData(points, OneDay, calendar) == if |points| >= 2 then points[|points| - 2..] else points
  {
    ValuationProperties.DailyCoverage(transactions);
    OneDayWindow(DailySeries(transactions).points, calendar);
  }
}
