/**
 * SummaryData: the object that resets its four running fields, feeds every record of the
 * input through the update step and reports the average, the favourite foods and the
 * birth months.  Reading and parsing the file (CSV, JSON, gzip) is not modelled: the
 * records the parser yields are the parameter `rows`.
 */
module Service {
  import opened Wrappers
  import opened Aggregation
  import TimeZones
  import FileUtils
  import Runner

  /** The birth month of a record in its own zone (updateBirthMonths), None where ZoneId.of throws. */
  function RecordMonth(p: Person, rules: TimeZones.ZoneRules): (r: Option<Month>)
    ensures r.Some? <==> TimeZones.BirthMonth(p.birthTimezone, p.birthTimestamp, rules).Some?
    ensures r.Some? ==> r.value == TimeZones.BirthMonth(p.birthTimezone, p.birthTimestamp, rules).value
  {
    var m := TimeZones.BirthMonth(p.birthTimezone, p.birthTimestamp, rules);
    if m.None? then None else Some(m.value)
  }

  /** The resolver the aggregation runs with: zones resolved by ZoneId.of, named regions by rules. */
  function ZoneResolver(rules: TimeZones.ZoneRules): Resolver {
    p => RecordMonth(p, rules)
  }

  lemma ZoneResolverAt(rules: TimeZones.ZoneRules, p: Person)
    ensures MonthOf(p, ZoneResolver(rules)) == RecordMonth(p, rules)
  {
  }

  /**
   * The four fields generateReport leaves behind: nothing counted for an unsupported file
   * type, the aggregate of the records when every zone resolves, and otherwise the counts of
   * the records before the failing one with the failing record's siblings added and the
   * record count still 0.
   */
  function ReportFields(fileType: string, rows: seq<Person>, rules: TimeZones.ZoneRules): (t: Totals)
    ensures !Runner.IsSupported(fileType) ==> t == Empty
    ensures t.records == if Runner.IsSupported(fileType) && AllResolve(rows, ZoneResolver(rules)) then |rows| else 0
    ensures Runner.IsSupported(fileType) && AllResolve(rows, ZoneResolver(rules)) ==> t.siblings == SumSiblings(rows)
    ensures Runner.IsSupported(fileType) && !AllResolve(rows, ZoneResolver(rules)) ==>
      t.siblings == SumSiblings(rows[..FirstUnresolved(rows, ZoneResolver(rules)) + 1])
  {
    var resolve := ZoneResolver(rules);
    if !Runner.IsSupported(fileType) then Empty
    else if AllResolve(rows, resolve) then Aggregate(rows, resolve)
    else
      var k := FirstUnresolved(rows, resolve);
      var before := Tally(Empty, rows[..k], resolve);
      TallySiblings(Empty, rows[..k], resolve);
      assert rows[..k + 1][..k] == rows[..k];
      Totals(0, before.siblings + rows[k].siblings, before.foods, before.months)
  }

  /** What generateReport prints, as values. */
  datatype Report = Report(
    averageSiblings: int,
    topFoods: seq<(string, int)>,
    birthMonths: seq<Option<int>>)

  /** The DateTimeException of ZoneId.of, which ends the run. */
  datatype ReportError = TimezoneError(zone: string)

  class SummaryData {
    var fileType: string
    var file: FileUtils.File
    var records: int
    var numOfSiblings: int
    var monthsBirthMap: Counts
    var foodMap: Counts

    /** The four running fields as one value. */
    function State(): Totals
      reads this
    {
      Totals(records, numOfSiblings, foodMap, monthsBirthMap)
    }

    constructor (fileType: string, file: FileUtils.File)
      ensures this.fileType == fileType && this.file == file
      ensures State() == Empty
    {
      this.fileType := fileType;
      this.file := file;
      records, numOfSiblings := 0, 0;
      monthsBirthMap, foodMap := map[], map[];
    }

    method Reset()
      modifies this`records, this`numOfSiblings, this`monthsBirthMap, this`foodMap
      ensures State() == Empty
    {
      records := 0;
      numOfSiblings := 0;
      monthsBirthMap := map[];
      foodMap := map[];
    }

    method UpdateFoodMap(foodName: string)
      modifies this`foodMap
      ensures foodMap == Bump(old(foodMap), foodName)
    {
      if foodName in foodMap {
        foodMap := foodMap[foodName := foodMap[foodName] + 1];
      } else {
        foodMap := foodMap[foodName := 1];
      }
    }

    /** ok is false where ZoneId.of throws, and then nothing has changed. */
    method UpdateBirthMonths(zone: string, timestamp: int, rules: TimeZones.ZoneRules) returns (ok: bool)
      modifies this`monthsBirthMap
      ensures ok == TimeZones.BirthMonth(zone, timestamp, rules).Some?
      ensures ok ==> monthsBirthMap == Bump(old(monthsBirthMap), MonthName(TimeZones.BirthMonth(zone, timestamp, rules).value))
      ensures !ok ==> monthsBirthMap == old(monthsBirthMap)
    {
      var month := TimeZones.BirthMonth(zone, timestamp, rules);
      if month.None? {
        return false;
      }
      var name := MonthName(month.value);
      if name in monthsBirthMap {
        monthsBirthMap := monthsBirthMap[name := monthsBirthMap[name] + 1];
      } else {
        monthsBirthMap := monthsBirthMap[name := 1];
      }
      ok := true;
    }

    /**
     * The body of the per-record loop: add the siblings, count the birth month, count the
     * favourite food.  ok is false where the month lookup throws, after the siblings were added.
     */
    method Accept(p: Person, rules: TimeZones.ZoneRules) returns (ok: bool)
      modifies this`numOfSiblings, this`monthsBirthMap, this`foodMap
      ensures ok == RecordMonth(p, rules).Some?
      ensures ok ==> State() == Observe(old(State()), p, RecordMonth(p, rules).value)
      ensures !ok ==> State() == old(State()).(siblings := old(numOfSiblings) + p.siblings)
    {
      numOfSiblings := numOfSiblings + p.siblings;
      ok := UpdateBirthMonths(p.birthTimezone, p.birthTimestamp, rules);
      if ok {
        UpdateFoodMap(p.favouriteFood);
      }
    }

    /**
     * The loop of processCSVFile and processJsonUsingJackson: the update step for every
     * record, then records set to the number of records.  When a zone cannot be resolved
     * the run stops inside that record's step, after its siblings were added.
     */
    method ProcessRows(rows: seq<Person>, rules: TimeZones.ZoneRules) returns (ok: bool)
      modifies this`records, this`numOfSiblings, this`monthsBirthMap, this`foodMap
      ensures ok == AllResolve(rows, ZoneResolver(rules))
      ensures ok ==> State() == Tally(old(State()), rows, ZoneResolver(rules)).(records := |rows|)
      ensures !ok ==>
        var k := FirstUnresolved(rows, ZoneResolver(rules));
        var before := Tally(old(State()), rows[..k], ZoneResolver(rules));
        && records == old(records)
        && numOfSiblings == before.siblings + rows[k].siblings
        && foodMap == before.foods
        && monthsBirthMap == before.months
    {
      ghost var start, resolve := State(), ZoneResolver(rules);
      var i := 0;
      while i < |rows|
        invariant 0 <= i <= |rows|
        invariant AllResolve(rows[..i], resolve)
        invariant State() == Tally(start, rows[..i], resolve).(records := start.records)
      {
        ghost var before := State();
        var resolved := Accept(rows[i], rules);
        ZoneResolverAt(rules, rows[i]);
        if !resolved {
          FirstUnresolvedAt(rows, resolve, i);
          return false;
        }
        PrefixStep(start, rows, i, resolve, before, RecordMonth(rows[i], rules).value, before.records);
        i := i + 1;
      }
      assert rows[..i] == rows;
      records := |rows|;
      ok := true;
    }

    /** The loop of processJsonUsingGson: the same step, but records counts up one record at a time. */
    method ProcessRowsStreaming(rows: seq<Person>, rules: TimeZones.ZoneRules) returns (ok: bool)
      modifies this`records, this`numOfSiblings, this`monthsBirthMap, this`foodMap
      ensures ok == AllResolve(rows, ZoneResolver(rules))
      ensures ok ==> State() == Tally(old(State()), rows, ZoneResolver(rules)).(records := old(records) + |rows|)
      ensures !ok ==>
        var k := FirstUnresolved(rows, ZoneResolver(rules));
        var before := Tally(old(State()), rows[..k], ZoneResolver(rules));
        && records == old(records) + k
        && numOfSiblings == before.siblings + rows[k].siblings
        && foodMap == before.foods
        && monthsBirthMap == before.months
    {
      ghost var start, resolve := State(), ZoneResolver(rules);
      var i := 0;
      while i < |rows|
        invariant 0 <= i <= |rows|
        invariant AllResolve(rows[..i], resolve)
        invariant State() == Tally(start, rows[..i], resolve).(records := start.records + i)
      {
        ghost var before := State();
        var resolved := Accept(rows[i], rules);
        ZoneResolverAt(rules, rows[i]);
        if !resolved {
          FirstUnresolvedAt(rows, resolve, i);
          return false;
        }
        PrefixStep(start, rows, i, resolve, before, RecordMonth(rows[i], rules).value, before.records);
        records := records + 1;
        i := i + 1;
      }
      assert rows[..i] == rows;
      ok := true;
    }

    /** The order in which the food table's entries are streamed: every key once, in an order the model leaves open. */
    static method IterationOrder(m: Counts) returns (order: seq<string>)
      ensures IsEnumeration(order, m)
    {
      order := [];
      var rest := m.Keys;
      while rest != {}
        invariant rest <= m.Keys
        invariant NoDuplicates(order) && KeysIn(order, m)
        invariant forall k :: k in m ==> (k in order <==> k !in rest)
        decreases |rest|
      {
        var k :| k in rest;
        order := order + [k];
        rest := rest - {k};
      }
    }

    /**
     * generateReport: reset, process the records when the file type is one of the four
     * supported ones ("Unsupported file" otherwise, with nothing processed), then compute
     * the three report lines.  rows are the records of the file, after decompression for
     * the gzip types.  The resulting fields do not depend on anything before the call, so
     * generating the report twice gives the same fields and the same numbers.
     */
    method GenerateReport(rows: seq<Person>, rules: TimeZones.ZoneRules) returns (r: Result<Report, ReportError>)
      modifies this`records, this`numOfSiblings, this`monthsBirthMap, this`foodMap
      ensures State() == ReportFields(fileType, rows, rules)
      ensures Runner.IsSupported(fileType) ==> (r.Success? <==> AllResolve(rows, ZoneResolver(rules)))
      ensures Runner.IsSupported(fileType) && r.Success? ==> State() == Aggregate(rows, ZoneResolver(rules))
      ensures r.Failure? ==> !AllResolve(rows, ZoneResolver(rules)) && r.error == TimezoneError(rows[FirstUnresolved(rows, ZoneResolver(rules))].birthTimezone)
      ensures !Runner.IsSupported(fileType) ==> r.Success? && State() == Empty
      ensures r.Success? ==> r.value.averageSiblings == AverageSiblings(numOfSiblings, records)
      ensures r.Success? ==> r.value.birthMonths == MonthCells(monthsBirthMap)
      ensures r.Success? ==> exists order :: IsEnumeration(order, foodMap) && r.value.topFoods == TopFoods(foodMap, order)
    {
      Reset();
      if Runner.IsSupported(fileType) {
        var ok := ProcessRows(rows, rules);
        if !ok {
          return Failure(TimezoneError(rows[FirstUnresolved(rows, ZoneResolver(rules))].birthTimezone));
        }
      }
      var order := IterationOrder(foodMap);
      r := Success(Report(AverageSiblings(numOfSiblings, records), TopFoods(foodMap, order), MonthCells(monthsBirthMap)));
    }
  }

  /**
   * Generating the report twice on the same records leaves the same fields and gives the
   * same outcome: the same error, or the same average, month line and counts on the foods
   * line.  Foods with equal counts may trade places between the two runs.
   */
  method ReportTwice(s: SummaryData, rows: seq<Person>, rules: TimeZones.ZoneRules)
    returns (first: Result<Report, ReportError>, second: Result<Report, ReportError>, fields: Totals)
    modifies s`records, s`numOfSiblings, s`monthsBirthMap, s`foodMap
    ensures fields == ReportFields(s.fileType, rows, rules) && s.State() == fields
    ensures first.Success? <==> second.Success?
    ensures first.Failure? ==> first == second
    ensures first.Success? ==> first.value.averageSiblings == second.value.averageSiblings
    ensures first.Success? ==> first.value.birthMonths == second.value.birthMonths
    ensures first.Success? ==> |first.value.topFoods| == |second.value.topFoods|
    ensures first.Success? ==> forall i :: 0 <= i < |first.value.topFoods| ==>
      first.value.topFoods[i].1 == second.value.topFoods[i].1
  {
    first := s.GenerateReport(rows, rules);
    fields := s.State();
    second := s.GenerateReport(rows, rules);
    if first.Success? {
      var o1 :| IsEnumeration(o1, fields.foods) && first.value.topFoods == TopFoods(fields.foods, o1);
      var o2 :| IsEnumeration(o2, fields.foods) && second.value.topFoods == TopFoods(fields.foods, o2);
      TopFoodsCountsAgree(fields.foods, o1, o2);
    }
  }
}
