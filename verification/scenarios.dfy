/**
 * A three-record CSV file, every record born in "UTC": the fields after one pass and the
 * report that follows from them.
 */
module Scenarios {
  import opened Wrappers
  import opened Aggregation
  import Calendar
  import TimeZones
  import FileUtils
  import Service
  import Runner

  function Row(siblings: int, food: string, timestamp: int): Person {
    Person(None, None, siblings, food, "UTC", timestamp)
  }

  /** Born at the epoch, 31 days later and 5,000,000 seconds later. */
  const Rows: seq<Person> := [Row(2, "Pizza", 0), Row(0, "Pizza", 2678400000), Row(4, "Tacos", 5000000000)]

  lemma UtcIsGreenwich()
    ensures TimeZones.ZoneOf("UTC") == Some(TimeZones.Fixed(0))
  {
    assert TimeZones.StartsWith("UTC", "UTC");
  }

  /** A record born in "UTC" has the month of the calendar day its instant falls on. */
  lemma UtcMonth(p: Person, d: Calendar.Date, rules: TimeZones.ZoneRules)
    requires p.birthTimezone == "UTC"
    requires Calendar.ValidDate(d) && Calendar.EpochDay(d) == TimeZones.EpochSecond(p.birthTimestamp) / 86400
    ensures MonthOf(p, Service.ZoneResolver(rules)) == Some(d.month)
  {
    UtcIsGreenwich();
    Calendar.FromEpochDayOfDate(d);
  }

  lemma FirstRowMonth(rules: TimeZones.ZoneRules)
    ensures MonthOf(Rows[0], Service.ZoneResolver(rules)) == Some(1)
  {
    assert Calendar.YearStart(1970) == 0;
    UtcMonth(Rows[0], Calendar.Date(1970, 1, 1), rules);
  }

  lemma SecondRowMonth(rules: TimeZones.ZoneRules)
    ensures MonthOf(Rows[1], Service.ZoneResolver(rules)) == Some(2)
  {
    assert Calendar.YearStart(1970) == 0;
    assert TimeZones.EpochSecond(2678400000) == 2678400;
    UtcMonth(Rows[1], Calendar.Date(1970, 2, 1), rules);
  }

  lemma ThirdRowMonth(rules: TimeZones.ZoneRules)
    ensures MonthOf(Rows[2], Service.ZoneResolver(rules)) == Some(2)
  {
    assert Calendar.YearStart(1970) == 0;
    assert TimeZones.EpochSecond(5000000000) == 5000000;
    UtcMonth(Rows[2], Calendar.Date(1970, 2, 27), rules);
  }

  /** Three records that resolve to January, February and February, with the scenario's siblings and foods. */
  predicate ShapedLikeScenario(rows: seq<Person>, resolve: Resolver) {
    && |rows| == 3
    && MonthOf(rows[0], resolve) == Some(1) && rows[0].siblings == 2 && rows[0].favouriteFood == "Pizza"
    && MonthOf(rows[1], resolve) == Some(2) && rows[1].siblings == 0 && rows[1].favouriteFood == "Pizza"
    && MonthOf(rows[2], resolve) == Some(2) && rows[2].siblings == 4 && rows[2].favouriteFood == "Tacos"
  }

  lemma ShapedFirst(rows: seq<Person>, resolve: Resolver)
    requires |rows| == 3 && MonthOf(rows[0], resolve) == Some(1)
    requires rows[0].siblings == 2 && rows[0].favouriteFood == "Pizza"
    ensures Tally(Empty, rows[..1], resolve) == Totals(0, 2, map["Pizza" := 1], map["Jan" := 1])
  {
    TallyObserve(Empty, rows, 0, 1, resolve);
    assert rows[..0] == [];
  }

  lemma ShapedSecond(rows: seq<Person>, resolve: Resolver)
    requires |rows| == 3 && MonthOf(rows[1], resolve) == Some(2)
    requires rows[1].siblings == 0 && rows[1].favouriteFood == "Pizza"
    requires Tally(Empty, rows[..1], resolve) == Totals(0, 2, map["Pizza" := 1], map["Jan" := 1])
    ensures Tally(Empty, rows[..2], resolve) == Totals(0, 2, map["Pizza" := 2], map["Jan" := 1, "Feb" := 1])
  {
    TallyObserve(Empty, rows, 1, 2, resolve);
  }

  lemma ShapedThird(rows: seq<Person>, resolve: Resolver)
    requires |rows| == 3 && MonthOf(rows[2], resolve) == Some(2)
    requires rows[2].siblings == 4 && rows[2].favouriteFood == "Tacos"
    requires Tally(Empty, rows[..2], resolve) == Totals(0, 2, map["Pizza" := 2], map["Jan" := 1, "Feb" := 1])
    ensures Tally(Empty, rows, resolve) == Totals(0, 6, map["Pizza" := 2, "Tacos" := 1], map["Jan" := 1, "Feb" := 2])
  {
    TallyObserve(Empty, rows, 2, 2, resolve);
    assert rows[..3] == rows;
  }

  lemma ShapedResolve(rows: seq<Person>, resolve: Resolver)
    requires |rows| == 3
    requires MonthOf(rows[0], resolve).Some? && MonthOf(rows[1], resolve).Some? && MonthOf(rows[2], resolve).Some?
    ensures AllResolve(rows, resolve)
  {
  }

  lemma ShapedTotals(rows: seq<Person>, resolve: Resolver)
    requires ShapedLikeScenario(rows, resolve)
    ensures AllResolve(rows, resolve)
    ensures Aggregate(rows, resolve) == Totals(3, 6, map["Pizza" := 2, "Tacos" := 1], map["Jan" := 1, "Feb" := 2])
  {
    ShapedResolve(rows, resolve);
    ShapedFirst(rows, resolve);
    ShapedSecond(rows, resolve);
    ShapedThird(rows, resolve);
  }

  /** The three records of the file are shaped as above, whatever rules the named zones follow. */
  lemma RowsShaped(rules: TimeZones.ZoneRules)
    ensures ShapedLikeScenario(Rows, Service.ZoneResolver(rules))
  {
    FirstRowMonth(rules);
    SecondRowMonth(rules);
    ThirdRowMonth(rules);
  }

  /** Average 6 / 3 = 2; Pizza (2) before Tacos (1) whatever order the table is streamed in. */
  lemma ScenarioFigures(order: seq<string>)
    requires IsEnumeration(order, map["Pizza" := 2, "Tacos" := 1])
    ensures AverageSiblings(6, 3) == 2
    ensures TopFoods(map["Pizza" := 2, "Tacos" := 1], order) == [("Pizza", 2), ("Tacos", 1)]
  {
    var m := map["Pizza" := 2, "Tacos" := 1];
    TopFoodsLength(m, order);
    TopFoodsEntries(m, order);
    var r := TopFoods(m, order);
    assert |m| == 2 by { assert m.Keys == {"Pizza", "Tacos"}; }
    assert r[0].1 >= r[1].1 && r[0].0 != r[1].0;
  }

  lemma ScenarioCells()
    ensures MonthCells(map["Jan" := 1, "Feb" := 2]) ==
      [Some(1), Some(2), None, None, None, None, None, None, None, None, None, None]
  {
    var cells := MonthCells(map["Jan" := 1, "Feb" := 2]);
    forall i | 2 <= i < 12
      ensures cells[i] == None
    {
      assert MonthNames[i] != "Jan" && MonthNames[i] != "Feb";
    }
  }

  /** The whole run of generateReport on a CSV file of such records (Rows among them). */
  method ScenarioRun(rows: seq<Person>, rules: TimeZones.ZoneRules) returns (r: Result<Service.Report, Service.ReportError>)
    requires ShapedLikeScenario(rows, Service.ZoneResolver(rules))
    ensures r == Success(Service.Report(2, [("Pizza", 2), ("Tacos", 1)],
      [Some(1), Some(2), None, None, None, None, None, None, None, None, None, None]))
  {
    var summary := new Service.SummaryData("csv", FileUtils.File("people.csv", true));
    ShapedTotals(rows, Service.ZoneResolver(rules));
    assert Runner.IsSupported("csv");
    r := summary.GenerateReport(rows, rules);
    ghost var order :| IsEnumeration(order, summary.foodMap) && r.value.topFoods == TopFoods(summary.foodMap, order);
    ScenarioFigures(order);
    ScenarioCells();
  }
}
