/**
  `LearningService.get_weekly_activities`: the per-day activity counts of
  the last seven days, with every day of the span present. Days are day
  numbers (the `YYYY-MM-DD` strings the source uses as keys name one day
  each); the span runs from the day seven days before the end instant to the
  end day itself, eight days in all.
 */
module Weekly {
  import opened Activities

  const SpanDays: nat := 7

  /** One row of the grouped query: a day and its number of activities. */
  datatype DayCount = DayCount(day: int, count: int)

  /** The dictionary the row loop builds: later rows overwrite earlier ones. */
  function RowsToMap(rows: seq<DayCount>): (m: map<int, int>)
    ensures forall d :: d in m <==> exists i :: 0 <= i < |rows| && rows[i].day == d
  {
    if |rows| == 0 then map[]
    else
      var last := rows[|rows| - 1];
      var m := RowsToMap(rows[..|rows| - 1]);
      assert forall i :: 0 <= i < |rows| - 1 ==> rows[..|rows| - 1][i] == rows[i];
      m[last.day := last.count]
  }

  /** The count kept for a day is the one of the last row for that day. */
  lemma {:induction false} LastRowWins(rows: seq<DayCount>, i: nat)
    requires i < |rows|
    requires forall j :: i < j < |rows| ==> rows[j].day != rows[i].day
    ensures rows[i].day in RowsToMap(rows) && RowsToMap(rows)[rows[i].day] == rows[i].count
    decreases |rows|
  {
    if i < |rows| - 1 {
      var init := rows[..|rows| - 1];
      assert init[i] == rows[i];
      LastRowWins(init, i);
    }
  }

  /** Whether day `d` lies in the span ending at `endDay`. */
  predicate InSpan(d: int, endDay: int) {
    endDay - SpanDays <= d <= endDay
  }

  /** `get_weekly_activities`; a failed query gives the empty map. */
  method WeeklyActivities(rows: Query<DayCount>, endDay: int) returns (weekly: map<int, int>)
    ensures rows.Raised? ==> weekly == map[]
    ensures rows.Rows? ==> forall d :: d in weekly <==> InSpan(d, endDay) || d in RowsToMap(rows.rows)
    ensures rows.Rows? ==> forall d :: d in RowsToMap(rows.rows) ==> weekly[d] == RowsToMap(rows.rows)[d]
    ensures rows.Rows? ==> forall d :: InSpan(d, endDay) && d !in RowsToMap(rows.rows) ==> weekly[d] == 0
  {
    if rows.Raised? {
      return map[];
    }
    var rs := rows.rows;
    weekly := map[];
    var i := 0;
    while i < |rs|
      invariant 0 <= i <= |rs|
      invariant weekly == RowsToMap(rs[..i])
    {
      assert rs[..i + 1][..i] == rs[..i];
      weekly := weekly[rs[i].day := rs[i].count];
      i := i + 1;
    }
    assert rs[..|rs|] == rs;
    var counted := weekly;
    var day := endDay - SpanDays;
    while day <= endDay
      invariant endDay - SpanDays <= day <= endDay + 1
      invariant forall d :: d in weekly <==> d in counted || endDay - SpanDays <= d < day
      invariant forall d :: d in counted ==> weekly[d] == counted[d]
      invariant forall d :: endDay - SpanDays <= d < day && d !in counted ==> weekly[d] == 0
    {
      if day !in weekly {
        weekly := weekly[day := 0];
      }
      day := day + 1;
    }
  }
}
