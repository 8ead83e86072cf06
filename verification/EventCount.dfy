/** Counting events into the calendar grid. */
module EventCount {
  import opened Calendar

  /** An event's start: the n-th day of its own year. */
  datatype Date = Date(year: Year, n: int) {
    predicate Valid() {
      IsDate(year, n)
    }

    function Cell(): Index
      requires Valid()
    {
      WeekAndDayOfYear(year, n)
    }
  }

  predicate AllValid(events: seq<Date>) {
    forall i :: 0 <= i < |events| ==> events[i].Valid()
  }

  /** Events that belong in the cell. */
  function CountAt(events: seq<Date>, cell: Index): nat
    requires AllValid(events)
  {
    if events == [] then 0
    else CountAt(events[..|events| - 1], cell) + if events[|events| - 1].Cell() == cell then 1 else 0
  }

  /** Events of the n-th day of the year. */
  function EventsOn(events: seq<Date>, y: Year, n: int): nat {
    if events == [] then 0
    else EventsOn(events[..|events| - 1], y, n) + if events[|events| - 1] == Date(y, n) then 1 else 0
  }

  /** Events of other years that land on the n-th day of this one. */
  function Strays(events: seq<Date>, y: Year, n: int): nat
    requires AllValid(events)
  {
    if events == [] then 0
    else
      var e := events[|events| - 1];
      Strays(events[..|events| - 1], y, n) + if e.year != y && Flat(e.Cell()) == y.originDay + n - 1 then 1 else 0
  }

  lemma {:induction false} CountOfDay(events: seq<Date>, y: Year, n: int)
    requires AllValid(events) && IsDate(y, n)
    ensures CountAt(events, WeekAndDayOfYear(y, n)) == EventsOn(events, y, n) + Strays(events, y, n)
  {
    IndexIsSequential(y, n);
    if events != [] {
      var e := events[|events| - 1];
      CountOfDay(events[..|events| - 1], y, n);
      IndexIsSequential(e.year, e.n);
      if e.year == y && e.Cell() == WeekAndDayOfYear(y, n) {
        IndexIsInjective(y, e.n, n);
      }
    }
  }

  lemma {:induction false} NoStrays(events: seq<Date>, y: Year, n: int)
    requires AllValid(events)
    ensures Strays(events, y, n) == 0 <==>
            forall i :: 0 <= i < |events| && events[i].year != y ==> Flat(events[i].Cell()) != y.originDay + n - 1
  {
    if events != [] {
      NoStrays(events[..|events| - 1], y, n);
    }
  }

  /** A cell shows the number of events of its day if and only if no event of another year lands
      there; with events of the selected year alone it always does. */
  lemma WhenTheCountIsRight(events: seq<Date>, y: Year, n: int)
    requires AllValid(events) && IsDate(y, n)
    ensures CountAt(events, WeekAndDayOfYear(y, n)) == EventsOn(events, y, n) <==>
            forall i :: 0 <= i < |events| && events[i].year != y ==> Flat(events[i].Cell()) != y.originDay + n - 1
    ensures (forall i :: 0 <= i < |events| ==> events[i].year == y) ==>
              CountAt(events, WeekAndDayOfYear(y, n)) == EventsOn(events, y, n)
  {
    CountOfDay(events, y, n);
    NoStrays(events, y, n);
  }

  /** The years 2020, 2021 and 2000: 31 December 2020 is counted on 30 December 2021, and 31 December
      2000 has no cell in 2021. */
  lemma StrayAndMissing(milli2020: int, milli2021: int, milli2000: int)
    ensures var y2020, y2021, y2000 := Year(3, true, milli2020), Year(5, false, milli2021), Year(6, true, milli2000);
            var events := [Date(y2020, 366)];
            && AllValid(events) && InGrid(y2021, events[0].Cell())
            && CountAt(events, WeekAndDayOfYear(y2021, 364)) == 1 && EventsOn(events, y2021, 364) == 0
            && Date(y2000, 366).Valid() && !InGrid(y2021, Date(y2000, 366).Cell())
  {
    var y2020, y2021 := Year(3, true, milli2020), Year(5, false, milli2021);
    var events := [Date(y2020, 366)];
    assert events[..0] == [];
    IndexIsSequential(y2020, 366);
    IndexIsSequential(y2021, 364);
    WhenTheCellIsMissing(y2021, Date(Year(6, true, milli2000), 366));
  }

  /** Adds one to the cell of every event in turn.  A cell outside the grid raises an exception,
      which leaves the rest of the list uncounted. */
  method FillEventCount(y: Year, weeks: array2<int>, events: seq<Date>) returns (ok: bool)
    requires y.Valid() && weeks.Length0 == y.WeekCount() && weeks.Length1 == 7
    requires forall w, d :: 0 <= w < weeks.Length0 && 0 <= d < 7 ==> weeks[w, d] == 0
    requires AllValid(events)
    modifies weeks
    ensures ok <==> forall i :: 0 <= i < |events| ==> InGrid(y, events[i].Cell())
    ensures ok ==> forall w, d :: 0 <= w < weeks.Length0 && 0 <= d < 7 ==>
                     weeks[w, d] == CountAt(events, Index(w, d))
    ensures ok ==> forall n :: IsDate(y, n) ==>
                     var Index(w, d) := WeekAndDayOfYear(y, n);
                     InGrid(y, Index(w, d)) && weeks[w, d] == EventsOn(events, y, n) + Strays(events, y, n)
  {
    for k := 0 to |events|
      invariant forall i :: 0 <= i < k ==> InGrid(y, events[i].Cell())
      invariant forall w, d :: 0 <= w < weeks.Length0 && 0 <= d < 7 ==>
                  weeks[w, d] == CountAt(events[..k], Index(w, d))
    {
      IndexIsSequential(events[k].year, events[k].n);
      var Index(week, day) := events[k].Cell();
      assert events[..k + 1][..k] == events[..k];
      if week >= y.WeekCount() {
        return false;
      }
      weeks[week, day] := weeks[week, day] + 1;
    }
    assert events[..|events|] == events;
    ok := true;
    forall n | IsDate(y, n)
      ensures var Index(w, d) := WeekAndDayOfYear(y, n);
              InGrid(y, Index(w, d)) && weeks[w, d] == EventsOn(events, y, n) + Strays(events, y, n)
    {
      IndexIsSequential(y, n);
      CountOfDay(events, y, n);
    }
  }

  /** An event of the selected year always has a cell; one of another year has none exactly when it
      falls on the last day of a year with 54 rows and the selected year has 53. */
  lemma WhenTheCellIsMissing(y: Year, e: Date)
    requires y.Valid() && e.Valid()
    ensures e.year == y ==> InGrid(y, e.Cell())
    ensures !InGrid(y, e.Cell()) <==> y.WeekCount() == 53 && e.year.WeekCount() == 54 && e.n == 366
  {
    IndexIsSequential(e.year, e.n);
  }

  // ------------------------------------------------------------- conservation

  /** The sum of the first k cells in reading order. */
  function CellSum(events: seq<Date>, k: nat): nat
    requires AllValid(events)
  {
    if k == 0 then 0 else CellSum(events, k - 1) + CountAt(events, Index((k - 1) / 7, (k - 1) % 7))
  }

  lemma {:induction false} OneMoreEvent(events: seq<Date>, e: Date, k: nat)
    requires AllValid(events) && e.Valid()
    ensures CellSum(events + [e], k) == CellSum(events, k) + if Flat(e.Cell()) < k then 1 else 0
  {
    IndexIsSequential(e.year, e.n);
    if k != 0 {
      OneMoreEvent(events, e, k - 1);
      assert (events + [e])[..|events|] == events;
      assert e.Cell() == Index((k - 1) / 7, (k - 1) % 7) <==> Flat(e.Cell()) == k - 1;
    }
  }

  /** The whole grid adds up to the number of events. */
  lemma {:induction false} GridTotal(y: Year, events: seq<Date>)
    requires y.Valid() && AllValid(events)
    requires forall i :: 0 <= i < |events| ==> InGrid(y, events[i].Cell())
    ensures CellSum(events, 7 * y.WeekCount()) == |events|
  {
    if events == [] {
      EmptyTotal(7 * y.WeekCount());
    } else {
      var front, e := events[..|events| - 1], events[|events| - 1];
      GridTotal(y, front);
      assert events == front + [e];
      OneMoreEvent(front, e, 7 * y.WeekCount());
    }
  }

  lemma {:induction false} EmptyTotal(k: nat)
    ensures CellSum([], k) == 0
  {
    if k != 0 {
      EmptyTotal(k - 1);
    }
  }

  /** Cells that belong to no day of the selected year stay 0 when all events are of that year. */
  lemma {:induction false} PaddingStaysZero(y: Year, events: seq<Date>, cell: Index)
    requires y.Valid() && AllValid(events) && forall i :: 0 <= i < |events| ==> events[i].year == y
    requires InGrid(y, cell) && !IsDate(y, Flat(cell) - y.originDay + 1)
    ensures CountAt(events, cell) == 0
  {
    if events != [] {
      PaddingStaysZero(y, events[..|events| - 1], cell);
      CellOfDay(y, cell);
    }
  }

  // ------------------------------------------------------------- order

  lemma {:induction false} CountWithout(events: seq<Date>, j: nat, cell: Index)
    requires AllValid(events) && j < |events|
    ensures AllValid(events[..j] + events[j + 1..])
    ensures CountAt(events, cell)
         == CountAt(events[..j] + events[j + 1..], cell) + if events[j].Cell() == cell then 1 else 0
  {
    var n := |events| - 1;
    var less := events[..j] + events[j + 1..];
    forall i | 0 <= i < |less| ensures less[i].Valid() {
      assert less[i] == events[if i < j then i else i + 1];
    }
    if j == n {
      assert less == events[..n];
    } else {
      CountWithout(events[..n], j, cell);
      assert less[..n - 1] == events[..n][..j] + events[..n][j + 1..];
      assert less[n - 1] == events[n];
    }
  }

  lemma MultisetWithout(events: seq<Date>, j: nat)
    requires j < |events|
    ensures multiset(events) == multiset(events[..j] + events[j + 1..]) + multiset{events[j]}
  {
    assert events == events[..j] + [events[j]] + events[j + 1..];
  }

  lemma Cancel(x: multiset<Date>, y: multiset<Date>, e: Date)
    requires x + multiset{e} == y + multiset{e}
    ensures x == y
  {
    assert x == (x + multiset{e}) - multiset{e};
    assert y == (y + multiset{e}) - multiset{e};
  }

  /** The order of the list has no bearing on any count. */
  lemma {:induction false} OrderDoesNotMatter(a: seq<Date>, b: seq<Date>, cell: Index)
    requires AllValid(a) && AllValid(b) && multiset(a) == multiset(b)
    ensures CountAt(a, cell) == CountAt(b, cell)
  {
    if a == [] {
      assert |multiset(b)| == 0;
    } else {
      var n := |a| - 1;
      assert a[n] in multiset(b);
      var j :| 0 <= j < |b| && b[j] == a[n];
      CountWithout(b, j, cell);
      MultisetWithout(a, n);
      MultisetWithout(b, j);
      assert a[..n] + a[n + 1..] == a[..n];
      Cancel(multiset(a[..n]), multiset(b[..j] + b[j + 1..]), a[n]);
      OrderDoesNotMatter(a[..n], b[..j] + b[j + 1..], cell);
    }
  }
}
