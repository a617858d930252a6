/** What the dashboard computes from the normalised table for the selected
    year, gender and region (streamlit_app.py lines 56-67): the bar-chart
    rows, the line-chart rows and their per-year sums, and the key figures
    (this year's population, the change from the year before, its arrow). */
module Dashboard {
  import opened Wrappers
  import opened Seqs
  import opened Text
  import opened Decimal
  import opened Normaliser

  /** The region label of the nationwide aggregate row. */
  const Nationwide: string := "전국"

  const Up: string := "↑"
  const Down: string := "↓"
  const Flat: string := "-"

  // ---- lines 56-57: bar chart ----

  /** Rows of the selected year and gender, then without the nationwide row. */
  function BarRecords(table: seq<Record>, year: string, gender: string): seq<Record>
  {
    var selected := Filter((x: Record) => x.year == year && x.gender == gender, table);
    Filter((x: Record) => x.region != Nationwide, selected)
  }

  /** The bar chart shows exactly the regional rows of the selected year and gender. */
  lemma BarMembers(table: seq<Record>, year: string, gender: string, x: Record)
    ensures x in BarRecords(table, year, gender) <==>
      x in table && x.year == year && x.gender == gender && x.region != Nationwide
  {
    var selected := Filter((x: Record) => x.year == year && x.gender == gender, table);
    if x in table && x.year == year && x.gender == gender && x.region != Nationwide {
      FilterComplete((x: Record) => x.year == year && x.gender == gender, table, x);
      FilterComplete((x: Record) => x.region != Nationwide, selected, x);
    }
  }

  // ---- line 59: line chart ----

  function LineRecords(table: seq<Record>, gender: string, region: string): seq<Record>
  {
    Filter((x: Record) => x.gender == gender && x.region == region, table)
  }

  /** The line chart uses exactly the rows of the selected gender and region. */
  lemma LineMembers(table: seq<Record>, gender: string, region: string, x: Record)
    ensures x in LineRecords(table, gender, region) <==> x in table && x.gender == gender && x.region == region
  {
    if x in table && x.gender == gender && x.region == region {
      FilterComplete((x: Record) => x.gender == gender && x.region == region, table, x);
    }
  }

  /** The line rows of one year (lines 63, 65 and 100). */
  function YearRecords(line: seq<Record>, year: string): seq<Record>
  {
    Filter((x: Record) => x.year == year, line)
  }

  // ---- pandas `sum` over the population column ----

  /** A missing population adds nothing to a sum. */
  function Population(x: Record): int
  {
    match x.population
    case None => 0
    case Some(n) => n
  }

  /** pandas' sum of the population column: NaN is skipped and the empty sum is 0. */
  function SumPopulation(s: seq<Record>): int
  {
    if s == [] then 0 else SumPopulation(s[..|s| - 1]) + Population(s[|s| - 1])
  }

  predicate Present(x: Record)
  {
    x.population.Some?
  }

  /** The sum is the sum of the present populations alone. */
  lemma {:induction false} SumSkipsMissing(s: seq<Record>)
    ensures SumPopulation(s) == SumPopulation(Filter(Present, s))
  {
    if s != [] {
      var n := |s| - 1;
      SumSkipsMissing(s[..n]);
      if Present(s[n]) {
        SumAppendOne(Filter(Present, s[..n]), s[n]);
      } else {
        assert SumPopulation(s) == SumPopulation(s[..n]) + Population(s[n]);
        assert Population(s[n]) == 0;
        assert Filter(Present, s) == Filter(Present, s[..n]) + [];
        assert Filter(Present, s[..n]) + [] == Filter(Present, s[..n]);
      }
    }
  }

  /** A year that does not occur sums to 0. */
  lemma AbsentYearSum(line: seq<Record>, year: string)
    requires forall k :: 0 <= k < |line| ==> line[k].year != year
    ensures SumPopulation(YearRecords(line, year)) == 0
  {
    FilterNone((x: Record) => x.year == year, line);
  }

  // ---- line 60: groupby("연도")["인구수"].sum() ----

  /** One row of the grouped line series. */
  datatype YearTotal = YearTotal(year: string, total: int)

  /** `groupby` sorts its keys: years strictly ascending in Python's order. */
  predicate SortedYears(g: seq<YearTotal>)
  {
    forall a, b :: 0 <= a < b < |g| ==> StrLess(g[a].year, g[b].year)
  }

  function Years(g: seq<YearTotal>): set<string>
  {
    set e | e in g :: e.year
  }

  function YearsOf(line: seq<Record>): set<string>
  {
    set x | x in line :: x.year
  }

  /** The total for `year`, or 0 when the series has no such year. */
  function Lookup(g: seq<YearTotal>, year: string): int
  {
    if g == [] then 0 else if g[0].year == year then g[0].total else Lookup(g[1..], year)
  }

  function SumTotals(g: seq<YearTotal>): int
  {
    if g == [] then 0 else g[0].total + SumTotals(g[1..])
  }

  /** A year below the first of a sorted series is below all of it. */
  lemma {:induction false} BelowAll(g: seq<YearTotal>, year: string)
    requires SortedYears(g) && g != [] && StrLess(year, g[0].year)
    ensures forall e :: e in g ==> StrLess(year, e.year)
  {
    forall e | e in g ensures StrLess(year, e.year) {
      var k :| 0 <= k < |g| && g[k] == e;
      if k > 0 {
        StrLessTransitive(year, g[0].year, e.year);
      }
    }
  }

  lemma YearsCons(h: YearTotal, g: seq<YearTotal>)
    ensures Years([h] + g) == {h.year} + Years(g)
  {
    forall y | y in Years([h] + g) ensures y in {h.year} + Years(g) {
      var e :| e in [h] + g && e.year == y;
      if e != h {
        assert e in g;
      }
    }
    forall y | y in Years(g) ensures y in Years([h] + g) {
      var e :| e in g && e.year == y;
      assert e in [h] + g;
    }
  }

  lemma SortedCons(h: YearTotal, g: seq<YearTotal>)
    requires SortedYears(g) && forall e :: e in g ==> StrLess(h.year, e.year)
    ensures SortedYears([h] + g)
  {
    var r := [h] + g;
    forall a, b | 0 <= a < b < |r| ensures StrLess(r[a].year, r[b].year) {
      if a > 0 {
        assert r[a] == g[a - 1] && r[b] == g[b - 1];
      } else {
        assert r[b] in g;
      }
    }
  }

  /** A sorted series stays sorted, with the same years, when its first
      total changes. */
  lemma ReplaceHead(g: seq<YearTotal>, total: int)
    requires SortedYears(g) && g != []
    ensures SortedYears([YearTotal(g[0].year, total)] + g[1..])
    ensures Years([YearTotal(g[0].year, total)] + g[1..]) == Years(g)
  {
    assert g == [g[0]] + g[1..];
    YearsCons(g[0], g[1..]);
    YearsCons(YearTotal(g[0].year, total), g[1..]);
    SortedCons(YearTotal(g[0].year, total), g[1..]);
  }

  /** A year below the first of a sorted series can be put in front of it. */
  lemma PrependBelow(g: seq<YearTotal>, year: string, amount: int)
    requires SortedYears(g) && g != [] && StrLess(year, g[0].year)
    ensures SortedYears([YearTotal(year, amount)] + g)
    ensures Years([YearTotal(year, amount)] + g) == Years(g) + {year}
  {
    BelowAll(g, year);
    SortedCons(YearTotal(year, amount), g);
    YearsCons(YearTotal(year, amount), g);
  }

  /** The first entry of a sorted series can be put back in front of the
      rest once `year` (above it) has been added there. */
  lemma KeepHead(g: seq<YearTotal>, year: string, rest: seq<YearTotal>)
    requires SortedYears(g) && g != [] && StrLess(g[0].year, year)
    requires SortedYears(rest) && Years(rest) == Years(g[1..]) + {year}
    ensures SortedYears([g[0]] + rest)
    ensures Years([g[0]] + rest) == Years(g) + {year}
  {
    assert g == [g[0]] + g[1..];
    forall e | e in rest ensures StrLess(g[0].year, e.year) {
      assert e.year in Years(rest);
      if e.year != year {
        var f :| f in g[1..] && f.year == e.year;
        var k :| 0 <= k < |g[1..]| && g[1..][k] == f;
        assert g[k + 1] == f;
      }
    }
    SortedCons(g[0], rest);
    YearsCons(g[0], rest);
    YearsCons(g[0], g[1..]);
  }

  /** Adds `amount` to the total of `year`, inserting the year in order
      when it is new. */
  function AddTo(g: seq<YearTotal>, year: string, amount: int): (r: seq<YearTotal>)
    requires SortedYears(g)
    ensures SortedYears(r)
    ensures Years(r) == Years(g) + {year}
  {
    if g == [] then [YearTotal(year, amount)]
    else if g[0].year == year then
      ReplaceHead(g, g[0].total + amount);
      [YearTotal(year, g[0].total + amount)] + g[1..]
    else if StrLess(year, g[0].year) then
      PrependBelow(g, year, amount);
      [YearTotal(year, amount)] + g
    else
      StrLessTotal(year, g[0].year);
      var rest := AddTo(g[1..], year, amount);
      KeepHead(g, year, rest);
      [g[0]] + rest
  }

  /** The grouped line series: the sum of each year's populations. */
  function GroupByYear(line: seq<Record>): (g: seq<YearTotal>)
    ensures SortedYears(g)
    ensures Years(g) == YearsOf(line)
  {
    if line == [] then []
    else
      var n := |line| - 1;
      assert line == line[..n] + [line[n]];
      AddTo(GroupByYear(line[..n]), line[n].year, Population(line[n]))
  }

  lemma {:induction false} LookupAbsent(g: seq<YearTotal>, year: string)
    requires year !in Years(g)
    ensures Lookup(g, year) == 0
  {
    if g != [] {
      assert g[0] in g;
      assert Years(g[1..]) <= Years(g) by {
        forall y | y in Years(g[1..]) ensures y in Years(g) {
          var e :| e in g[1..] && e.year == y;
          assert e in g;
        }
      }
      LookupAbsent(g[1..], year);
    }
  }

  lemma {:induction false} AddToLookup(g: seq<YearTotal>, year: string, amount: int, q: string)
    requires SortedYears(g)
    ensures Lookup(AddTo(g, year, amount), q) == Lookup(g, q) + (if q == year then amount else 0)
  {
    if g != [] && g[0].year != year {
      if StrLess(year, g[0].year) {
        if q == year {
          BelowAll(g, year);
          StrLessIrreflexive(year);
          LookupAbsent(g, year);
        }
      } else if q != g[0].year {
        AddToLookup(g[1..], year, amount, q);
      }
    }
  }

  lemma {:induction false} AddToTotal(g: seq<YearTotal>, year: string, amount: int)
    requires SortedYears(g)
    ensures SumTotals(AddTo(g, year, amount)) == SumTotals(g) + amount
  {
    if g != [] && g[0].year != year && !StrLess(year, g[0].year) {
      AddToTotal(g[1..], year, amount);
    }
  }

  lemma {:induction false} LookupAt(g: seq<YearTotal>, k: nat)
    requires SortedYears(g) && k < |g|
    ensures Lookup(g, g[k].year) == g[k].total
  {
    if k > 0 {
      StrLessIrreflexive(g[0].year);
      LookupAt(g[1..], k - 1);
    }
  }

  lemma SumAppendOne(s: seq<Record>, x: Record)
    ensures SumPopulation(s + [x]) == SumPopulation(s) + Population(x)
  {
    assert (s + [x])[..|s|] == s;
  }

  /** The series' value for any year is the sum of that year's populations
      (0 for a year that does not occur). */
  lemma {:induction false} GroupTotals(line: seq<Record>, q: string)
    ensures Lookup(GroupByYear(line), q) == SumPopulation(YearRecords(line, q))
  {
    if line != [] {
      var n := |line| - 1;
      GroupTotals(line[..n], q);
      AddToLookup(GroupByYear(line[..n]), line[n].year, Population(line[n]), q);
      var before := YearRecords(line[..n], q);
      if line[n].year == q {
        SumAppendOne(before, line[n]);
      } else {
        assert YearRecords(line, q) == before;
      }
    }
  }

  /** One entry per distinct year of the line rows, holding that year's sum. */
  lemma GroupEntries(line: seq<Record>)
    ensures forall a, b :: 0 <= a < b < |GroupByYear(line)| ==> GroupByYear(line)[a].year != GroupByYear(line)[b].year
    ensures forall e :: e in GroupByYear(line) ==> e.year in YearsOf(line)
    ensures forall y :: y in YearsOf(line) ==> exists e :: e in GroupByYear(line) && e.year == y
    ensures forall e :: e in GroupByYear(line) ==> e.total == SumPopulation(YearRecords(line, e.year))
  {
    var g := GroupByYear(line);
    forall a, b | 0 <= a < b < |g| ensures g[a].year != g[b].year {
      StrLessIrreflexive(g[a].year);
    }
    forall e | e in g ensures e.total == SumPopulation(YearRecords(line, e.year)) {
      var k :| 0 <= k < |g| && g[k] == e;
      LookupAt(g, k);
      GroupTotals(line, e.year);
    }
    forall y | y in YearsOf(line) ensures exists e :: e in g && e.year == y {
      assert y in Years(g);
    }
  }

  /** The series adds up to the sum over all line rows. */
  lemma {:induction false} GroupConserves(line: seq<Record>)
    ensures SumTotals(GroupByYear(line)) == SumPopulation(line)
  {
    if line != [] {
      var n := |line| - 1;
      GroupConserves(line[..n]);
      AddToTotal(GroupByYear(line[..n]), line[n].year, Population(line[n]));
    }
  }

  // ---- lines 63-67: key figures ----

  /** The direction indicator of a change. */
  function Arrow(delta: int): (a: string)
    ensures a == Up <==> delta > 0
    ensures a == Down <==> delta < 0
    ensures a == Flat <==> delta == 0
  {
    if delta > 0 then Up else if delta < 0 then Down else Flat
  }

  datatype Kpi = Kpi(current: int, previousYear: string, previous: int, delta: int, arrow: string)

  /** `int(selected_year)` raises on a label that is not an integer. */
  datatype KpiError = YearNotInteger(selected: string)

  /** Whether some line row has the given year (the membership test of line 65). */
  predicate HasYear(line: seq<Record>, year: string)
  {
    exists k | 0 <= k < |line| :: line[k].year == year
  }

  /** The key figures for the selected year over the line rows. */
  function ComputeKpi(line: seq<Record>, selectedYear: string): (r: Result<Kpi, KpiError>)
    ensures r.Err? <==> ParseInteger(selectedYear).None?
    ensures r.Ok? ==> r.value.previousYear == IntToString(ParseInteger(selectedYear).value - 1)
    ensures r.Ok? ==> ParseInteger(r.value.previousYear) == Some(ParseInteger(selectedYear).value - 1)
    ensures r.Ok? ==> r.value.current == SumPopulation(YearRecords(line, selectedYear))
    ensures r.Ok? ==> r.value.previous == SumPopulation(YearRecords(line, r.value.previousYear))
    ensures r.Ok? ==> r.value.delta == r.value.current - r.value.previous
    ensures r.Ok? ==> r.value.arrow == Arrow(r.value.delta)
  {
    match ParseInteger(selectedYear)
    case None => Err(YearNotInteger(selectedYear))
    case Some(year) =>
      var current := SumPopulation(YearRecords(line, selectedYear));
      var previousYear := IntToString(year - 1);
      IntRoundTrip(year - 1);
      var previous := if HasYear(line, previousYear) then SumPopulation(YearRecords(line, previousYear)) else 0;
      assert !HasYear(line, previousYear) ==> SumPopulation(YearRecords(line, previousYear)) == 0 by {
        if !HasYear(line, previousYear) {
          AbsentYearSum(line, previousYear);
        }
      }
      var delta := current - previous;
      Ok(Kpi(current, previousYear, previous, delta, Arrow(delta)))
  }

  /** With no row for the year before, the change is this year's whole sum. */
  lemma PreviousYearAbsent(line: seq<Record>, selectedYear: string)
    requires ComputeKpi(line, selectedYear).Ok?
    requires !HasYear(line, ComputeKpi(line, selectedYear).value.previousYear)
    ensures ComputeKpi(line, selectedYear).value.previous == 0
    ensures ComputeKpi(line, selectedYear).value.delta == ComputeKpi(line, selectedYear).value.current
  {
    AbsentYearSum(line, ComputeKpi(line, selectedYear).value.previousYear);
  }
}
