/**
 * `groupby("data")["valor"].sum()`: the daily totals of the filtered table,
 * one per date that occurs in it, in ascending date order.
 */
module Daily {
  import opened Ledger
  import opened Views

  /** One bar of the daily chart. */
  datatype DayTotal = DayTotal(date: int, total: real)

  predicate DatesAscending(days: seq<DayTotal>)
  {
    forall i, j :: 0 <= i < j < |days| ==> days[i].date < days[j].date
  }

  /** The sum of every row's amount. */
  function SumAmounts(rows: seq<Entry>): real
  {
    if rows == [] then 0.0 else SumAmounts(rows[..|rows| - 1]) + rows[|rows| - 1].amount
  }

  /** The sum of the amounts of the rows dated `d`. */
  function SumOnDate(rows: seq<Entry>, d: int): real
  {
    if rows == [] then 0.0
    else SumOnDate(rows[..|rows| - 1], d) + (if rows[|rows| - 1].date == d then rows[|rows| - 1].amount else 0.0)
  }

  /** The dates the rows carry. */
  function RowDates(rows: seq<Entry>): set<int>
  {
    if rows == [] then {} else RowDates(rows[..|rows| - 1]) + {rows[|rows| - 1].date}
  }

  /** The sum of every daily total. */
  function SumTotals(days: seq<DayTotal>): real
  {
    if days == [] then 0.0 else days[0].total + SumTotals(days[1..])
  }

  /** The dates that have a bar. */
  function DayDates(days: seq<DayTotal>): set<int>
  {
    if days == [] then {} else {days[0].date} + DayDates(days[1..])
  }

  /** The total of the first bar dated `d`, or zero when there is none. */
  function TotalOn(days: seq<DayTotal>, d: int): real
  {
    if days == [] then 0.0
    else if days[0].date == d then days[0].total
    else TotalOn(days[1..], d)
  }

  /** Adds one row's amount to its date's bar, opening the bar in date order when the date is new. */
  function AddDay(days: seq<DayTotal>, d: int, amount: real): seq<DayTotal>
  {
    if days == [] then [DayTotal(d, amount)]
    else if days[0].date == d then [DayTotal(d, days[0].total + amount)] + days[1..]
    else if d < days[0].date then [DayTotal(d, amount)] + days
    else [days[0]] + AddDay(days[1..], d, amount)
  }

  /** The daily totals of `rows`, accumulated row by row. */
  function GroupByDate(rows: seq<Entry>): (days: seq<DayTotal>)
    ensures DatesAscending(days)
  {
    if rows == [] then []
    else
      var last := rows[|rows| - 1];
      var prev := GroupByDate(rows[..|rows| - 1]);
      AddDayAscending(prev, last.date, last.amount);
      AddDay(prev, last.date, last.amount)
  }

  lemma AscendingTail(days: seq<DayTotal>)
    requires days != [] && DatesAscending(days)
    ensures DatesAscending(days[1..])
  {
    var rest := days[1..];
    forall i, j | 0 <= i < j < |rest| ensures rest[i].date < rest[j].date {
      assert rest[i] == days[i + 1] && rest[j] == days[j + 1];
    }
  }

  /** Adding a row opens at most the bar for its own date. */
  lemma {:induction false} AddDayDates(days: seq<DayTotal>, d: int, amount: real)
    ensures DayDates(AddDay(days, d, amount)) == DayDates(days) + {d}
  {
    if days != [] {
      var rest := days[1..];
      if days[0].date == d {
        assert ([DayTotal(d, days[0].total + amount)] + rest)[1..] == rest;
      } else if d < days[0].date {
        assert ([DayTotal(d, amount)] + days)[1..] == days;
      } else {
        AddDayDates(rest, d, amount);
        assert ([days[0]] + AddDay(rest, d, amount))[1..] == AddDay(rest, d, amount);
      }
    }
  }

  /** Adding a row keeps the bars in strictly ascending date order. */
  lemma {:induction false} AddDayAscending(days: seq<DayTotal>, d: int, amount: real)
    requires DatesAscending(days)
    ensures DatesAscending(AddDay(days, d, amount))
  {
    if days != [] && days[0].date != d {
      if d < days[0].date {
        var r := [DayTotal(d, amount)] + days;
        forall i, j | 0 <= i < j < |r| ensures r[i].date < r[j].date {
          if i > 0 {
            assert r[i] == days[i - 1];
          }
          assert r[j] == days[j - 1];
        }
      } else {
        var rest := days[1..];
        AscendingTail(days);
        AscendingHeadFirst(days);
        AddDayAscending(rest, d, amount);
        AddDayDates(rest, d, amount);
        var tail := AddDay(rest, d, amount);
        var r := [days[0]] + tail;
        forall i, j | 0 <= i < j < |r| ensures r[i].date < r[j].date {
          assert r[j] == tail[j - 1];
          if i > 0 {
            assert r[i] == tail[i - 1];
          } else {
            DayDatesMember(tail, j - 1);
          }
        }
      }
    }
  }

  /** Adding a row raises the sum of all bars by its amount. */
  lemma {:induction false} AddDaySum(days: seq<DayTotal>, d: int, amount: real)
    ensures SumTotals(AddDay(days, d, amount)) == SumTotals(days) + amount
  {
    if days != [] {
      var rest := days[1..];
      if days[0].date == d {
        assert ([DayTotal(d, days[0].total + amount)] + rest)[1..] == rest;
      } else if d < days[0].date {
        assert ([DayTotal(d, amount)] + days)[1..] == days;
      } else {
        AddDaySum(rest, d, amount);
        assert ([days[0]] + AddDay(rest, d, amount))[1..] == AddDay(rest, d, amount);
      }
    }
  }

  /** Adding a row raises its own date's total by its amount and leaves every other date's total alone. */
  lemma {:induction false} AddDayTotals(days: seq<DayTotal>, d: int, amount: real)
    requires DatesAscending(days)
    ensures forall e :: TotalOn(AddDay(days, d, amount), e) == TotalOn(days, e) + (if e == d then amount else 0.0)
  {
    if days != [] {
      var rest := days[1..];
      if days[0].date == d {
        AscendingHeadFirst(days);
        assert ([DayTotal(d, days[0].total + amount)] + rest)[1..] == rest;
      } else if d < days[0].date {
        AscendingHeadFirst(days);
        assert d !in DayDates(days);
        TotalOnAbsent(days, d);
        assert ([DayTotal(d, amount)] + days)[1..] == days;
      } else {
        AscendingTail(days);
        AddDayTotals(rest, d, amount);
        assert ([days[0]] + AddDay(rest, d, amount))[1..] == AddDay(rest, d, amount);
      }
    }
  }

  lemma {:induction false} DayDatesMember(days: seq<DayTotal>, k: nat)
    requires k < |days|
    ensures days[k].date in DayDates(days)
  {
    if k > 0 {
      DayDatesMember(days[1..], k - 1);
    }
  }

  /** In ascending order the first bar's date is below every date of the others, and has no second bar. */
  lemma {:induction false} AscendingHeadFirst(days: seq<DayTotal>)
    requires days != [] && DatesAscending(days)
    ensures forall e :: e in DayDates(days[1..]) ==> days[0].date < e
    ensures TotalOn(days[1..], days[0].date) == 0.0
  {
    var rest := days[1..];
    forall e | e in DayDates(rest) ensures days[0].date < e {
      var k := DayDatesIndex(rest, e);
      assert rest[k] == days[k + 1];
    }
    TotalOnAbsent(rest, days[0].date);
  }

  lemma {:induction false} DayDatesIndex(days: seq<DayTotal>, e: int) returns (k: nat)
    requires e in DayDates(days)
    ensures k < |days| && days[k].date == e
  {
    if days[0].date == e {
      k := 0;
    } else {
      var k' := DayDatesIndex(days[1..], e);
      k := k' + 1;
    }
  }

  lemma {:induction false} TotalOnAbsent(days: seq<DayTotal>, d: int)
    requires d !in DayDates(days)
    ensures TotalOn(days, d) == 0.0
  {
    if days != [] {
      TotalOnAbsent(days[1..], d);
    }
  }

  /**
   * The grouping lists its dates strictly ascending, has a bar for exactly
   * the dates the rows carry (none zero-filled in between), gives each date
   * the sum of that date's amounts, and loses no amount overall.
   */
  lemma {:induction false} GroupByDateFacts(rows: seq<Entry>)
    ensures DatesAscending(GroupByDate(rows))
    ensures DayDates(GroupByDate(rows)) == RowDates(rows)
    ensures forall d :: TotalOn(GroupByDate(rows), d) == SumOnDate(rows, d)
    ensures SumTotals(GroupByDate(rows)) == SumAmounts(rows)
  {
    if rows != [] {
      var last := rows[|rows| - 1];
      var days := GroupByDate(rows[..|rows| - 1]);
      GroupByDateFacts(rows[..|rows| - 1]);
      AddDayAscending(days, last.date, last.amount);
      AddDayDates(days, last.date, last.amount);
      AddDaySum(days, last.date, last.amount);
      AddDayTotals(days, last.date, last.amount);
    }
  }

  /** Strictly ascending dates are distinct, so there are as many bars as dates. */
  lemma {:induction false} AscendingCount(days: seq<DayTotal>)
    requires DatesAscending(days)
    ensures |DayDates(days)| == |days|
  {
    if days != [] {
      AscendingHeadFirst(days);
      var rest := days[1..];
      AscendingTail(days);
      AscendingCount(rest);
      assert days[0].date !in DayDates(rest);
    }
  }

  /** Each bar's total is the sum of the amounts of the rows carrying its date. */
  lemma {:induction false} TotalOnAt(days: seq<DayTotal>, k: nat)
    requires DatesAscending(days) && k < |days|
    ensures TotalOn(days, days[k].date) == days[k].total
  {
    if k > 0 {
      AscendingHeadFirst(days);
      var rest := days[1..];
      AscendingTail(days);
      assert days[k] == rest[k - 1];
      TotalOnAt(rest, k - 1);
    }
  }

  /**
   * One bar per distinct date of the rows, each holding the sum of that
   * date's amounts.
   */
  lemma OneBarPerDate(rows: seq<Entry>)
    ensures |GroupByDate(rows)| == |RowDates(rows)|
    ensures forall k :: 0 <= k < |GroupByDate(rows)| ==>
      GroupByDate(rows)[k].total == SumOnDate(rows, GroupByDate(rows)[k].date)
  {
    var days := GroupByDate(rows);
    GroupByDateFacts(rows);
    AscendingCount(days);
    forall k | 0 <= k < |days| ensures days[k].total == SumOnDate(rows, days[k].date) {
      TotalOnAt(days, k);
    }
  }

  /**
   * With the view the sidebar opens with, the chart's bars add up to the
   * total of the whole expense table.
   */
  lemma DefaultChartCoversLedger(ledger: seq<Entry>)
    requires ledger != []
    ensures SumTotals(GroupByDate(FilterRows(ledger, MinDate(ledger), MaxDate(ledger), PaymentMethods(ledger))))
      == SumAmounts(ledger)
  {
    DefaultViewKeepsLedger(ledger);
    GroupByDateFacts(ledger);
  }
}
