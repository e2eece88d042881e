/**
 * The aggregation that SummaryData performs, stated on values: the record type, the
 * update step applied to each record, the totals a whole list of records leaves behind,
 * the rounded average, the three favourite foods and the twelve month cells of the report.
 * The class in service.dfy is proved to compute exactly these.
 */
module Aggregation {
  import opened Wrappers

  /** One parsed row or JSON object (model/People.java); the timestamp is already a number. */
  datatype Person = Person(
    firstName: Option<string>,
    lastName: Option<string>,
    siblings: int,
    favouriteFood: string,
    birthTimezone: string,
    birthTimestamp: int)

  /** The abbreviations the "MMM" pattern prints, January first. */
  const MonthNames: seq<string> :=
    ["Jan", "Feb", "Mar", "Apr", "May", "Jun", "Jul", "Aug", "Sep", "Oct", "Nov", "Dec"]

  function MonthName(month: int): (name: string)
    requires 1 <= month <= 12
    ensures name in MonthNames && |name| == 3
  {
    MonthNames[month - 1]
  }

  lemma MonthNamesDistinct(m1: int, m2: int)
    requires 1 <= m1 <= 12 && 1 <= m2 <= 12 && m1 != m2
    ensures MonthName(m1) != MonthName(m2)
  {
  }

  /** A frequency table, as the HashMap<String, Integer> fields hold them. */
  type Counts = map<string, int>

  /** The count of key in m, reading a missing key as 0. */
  function Lookup(m: Counts, key: string): int {
    if key in m then m[key] else 0
  }

  /** Raise the count of key by one, inserting it at 1 when absent (updateFoodMap, and the same for months). */
  function Bump(m: Counts, key: string): (r: Counts)
    ensures r.Keys == m.Keys + {key}
    ensures r[key] == Lookup(m, key) + 1
    ensures forall k :: k in m && k != key ==> r[k] == m[k]
  {
    if key in m then m[key := m[key] + 1] else m[key := 1]
  }

  lemma BumpCommutes(m: Counts, a: string, b: string)
    ensures Bump(Bump(m, a), b) == Bump(Bump(m, b), a)
  {
    var l, r := Bump(Bump(m, a), b), Bump(Bump(m, b), a);
    assert l.Keys == r.Keys;
    forall k | k in l
      ensures l[k] == r[k]
    {
      assert l[k] == Lookup(m, k) + (if k == a then 1 else 0) + (if k == b then 1 else 0);
    }
  }

  /** A month number, January being 1. */
  type Month = m: int | 1 <= m <= 12 witness 1

  /**
   * How a record's birth month is found: None where its zone cannot be resolved.  The
   * service instantiates it with the zone and calendar computation of time_zones.dfy.
   */
  type Resolver = Person -> Option<Month>

  /** The birth month of a record, or None when its zone cannot be resolved. */
  function MonthOf(p: Person, resolve: Resolver): (r: Option<int>)
    ensures r.Some? ==> 1 <= r.value <= 12
  {
    resolve(p)
  }

  predicate AllResolve(rows: seq<Person>, resolve: Resolver) {
    forall i :: 0 <= i < |rows| ==> MonthOf(rows[i], resolve).Some?
  }

  /** The position of the first record whose zone cannot be resolved. */
  function FirstUnresolved(rows: seq<Person>, resolve: Resolver): (k: nat)
    requires !AllResolve(rows, resolve)
    ensures k < |rows| && MonthOf(rows[k], resolve).None? && AllResolve(rows[..k], resolve)
  {
    if MonthOf(rows[0], resolve).None? then 0
    else
      var k := FirstUnresolved(rows[1..], resolve);
      assert rows[..k + 1] == [rows[0]] + rows[1..][..k];
      k + 1
  }

  /** A record that fails while all before it resolve is the first unresolved one. */
  lemma FirstUnresolvedAt(rows: seq<Person>, resolve: Resolver, k: nat)
    requires k < |rows| && AllResolve(rows[..k], resolve) && MonthOf(rows[k], resolve).None?
    ensures FirstUnresolved(rows, resolve) == k
  {
    var j := FirstUnresolved(rows, resolve);
    forall i | 0 <= i < k
      ensures MonthOf(rows[i], resolve).Some?
    {
      assert rows[..k][i] == rows[i];
    }
    forall i | 0 <= i < j
      ensures MonthOf(rows[i], resolve).Some?
    {
      assert rows[..j][i] == rows[i];
    }
  }

  /** The four running fields of SummaryData. */
  datatype Totals = Totals(records: int, siblings: int, foods: Counts, months: Counts)

  /** The fields right after reset. */
  const Empty := Totals(0, 0, map[], map[])

  /** One record's update step: add its siblings, count its birth month and its favourite food. */
  function Observe(t: Totals, p: Person, month: int): (r: Totals)
    requires 1 <= month <= 12
    ensures r.records == t.records && r.siblings == t.siblings + p.siblings
    ensures r.foods.Keys == t.foods.Keys + {p.favouriteFood}
    ensures r.foods[p.favouriteFood] == Lookup(t.foods, p.favouriteFood) + 1
    ensures r.months.Keys == t.months.Keys + {MonthName(month)}
    ensures r.months[MonthName(month)] == Lookup(t.months, MonthName(month)) + 1
  {
    Totals(t.records, t.siblings + p.siblings, Bump(t.foods, p.favouriteFood), Bump(t.months, MonthName(month)))
  }

  /** The step touches no other food's count and no other month's count. */
  lemma ObserveOthers(t: Totals, p: Person, month: int, food: string, name: string)
    requires 1 <= month <= 12
    ensures food != p.favouriteFood ==> Lookup(Observe(t, p, month).foods, food) == Lookup(t.foods, food)
    ensures name != MonthName(month) ==> Lookup(Observe(t, p, month).months, name) == Lookup(t.months, name)
  {
  }

  /**
   * The update step of one record, with its resolved birth month.  A record whose zone
   * cannot be resolved stops the whole run before any report, so it never reaches a
   * completed pass; here it leaves the totals as they are.
   */
  function Step(t: Totals, p: Person, resolve: Resolver): Totals {
    match MonthOf(p, resolve)
    case Some(month) => Observe(t, p, month)
    case None => t
  }

  /** The update step applied to the records in order, starting from t; the record count is not touched. */
  function Tally(t: Totals, rows: seq<Person>, resolve: Resolver): (r: Totals)
    ensures r.records == t.records
  {
    if rows == [] then t else Step(Tally(t, rows[..|rows| - 1], resolve), rows[|rows| - 1], resolve)
  }

  /** Extending the processed prefix by one record applies one more update step. */
  lemma TallyNext(t: Totals, rows: seq<Person>, i: nat, resolve: Resolver)
    requires i < |rows|
    ensures Tally(t, rows[..i + 1], resolve) == Step(Tally(t, rows[..i], resolve), rows[i], resolve)
  {
    assert rows[..i + 1][..i] == rows[..i];
  }

  /** One more record whose month is known is one more Observe. */
  lemma TallyObserve(t: Totals, rows: seq<Person>, i: nat, month: int, resolve: Resolver)
    requires i < |rows| && 1 <= month <= 12 && MonthOf(rows[i], resolve) == Some(month)
    ensures Tally(t, rows[..i + 1], resolve) == Observe(Tally(t, rows[..i], resolve), rows[i], month)
  {
    TallyNext(t, rows, i, resolve);
  }

  lemma AllResolveNext(rows: seq<Person>, i: nat, resolve: Resolver)
    requires i < |rows| && AllResolve(rows[..i], resolve) && MonthOf(rows[i], resolve).Some?
    ensures AllResolve(rows[..i + 1], resolve)
  {
    assert forall j :: 0 <= j < i ==> rows[..i][j] == rows[j];
  }

  /** One loop iteration of the class: the resolved record extends the processed prefix. */
  lemma PrefixStep(start: Totals, rows: seq<Person>, i: nat, resolve: Resolver, before: Totals, month: int, records: int)
    requires i < |rows| && 1 <= month <= 12 && MonthOf(rows[i], resolve) == Some(month)
    requires AllResolve(rows[..i], resolve)
    requires before == Tally(start, rows[..i], resolve).(records := records)
    ensures AllResolve(rows[..i + 1], resolve)
    ensures Observe(before, rows[i], month) == Tally(start, rows[..i + 1], resolve).(records := records)
  {
    TallyObserve(start, rows, i, month, resolve);
    AllResolveNext(rows, i, resolve);
  }

  /** The fields after reset and one pass over a list whose zones all resolve. */
  function Aggregate(rows: seq<Person>, resolve: Resolver): (r: Totals)
    requires AllResolve(rows, resolve)
    ensures r.records == |rows| && r.siblings == SumSiblings(rows)
  {
    TallySiblings(Empty, rows, resolve);
    Tally(Empty, rows, resolve).(records := |rows|)
  }

  // ---------------------------------------------------------------------------------------
  // What the totals mean

  function SumSiblings(rows: seq<Person>): int {
    if rows == [] then 0 else SumSiblings(rows[..|rows| - 1]) + rows[|rows| - 1].siblings
  }

  /** How many records name food as their favourite. */
  function CountFood(rows: seq<Person>, food: string): nat {
    if rows == [] then 0
    else CountFood(rows[..|rows| - 1], food) + (if rows[|rows| - 1].favouriteFood == food then 1 else 0)
  }

  /** How many records were born in the month abbreviated name. */
  function CountMonth(rows: seq<Person>, name: string, resolve: Resolver): nat {
    if rows == [] then 0
    else
      var n := |rows| - 1;
      var month := MonthOf(rows[n], resolve);
      CountMonth(rows[..n], name, resolve) + (if month.Some? && MonthName(month.value) == name then 1 else 0)
  }

  /** The record step leaves the record count alone and adds each record's siblings. */
  lemma {:induction false} TallySiblings(t: Totals, rows: seq<Person>, resolve: Resolver)
    requires AllResolve(rows, resolve)
    ensures Tally(t, rows, resolve).records == t.records
    ensures Tally(t, rows, resolve).siblings == t.siblings + SumSiblings(rows)
  {
    if rows != [] {
      TallySiblings(t, rows[..|rows| - 1], resolve);
    }
  }

  /** The record step adds one per record to its favourite food. */
  lemma {:induction false} TallyFoods(t: Totals, rows: seq<Person>, resolve: Resolver)
    requires AllResolve(rows, resolve)
    ensures var r := Tally(t, rows, resolve).foods;
      forall f :: (f in r <==> f in t.foods || CountFood(rows, f) > 0) && Lookup(r, f) == Lookup(t.foods, f) + CountFood(rows, f)
  {
    if rows != [] {
      TallyFoods(t, rows[..|rows| - 1], resolve);
    }
  }

  /** The record step adds one per record to its birth month. */
  lemma {:induction false} TallyMonths(t: Totals, rows: seq<Person>, resolve: Resolver)
    requires AllResolve(rows, resolve)
    ensures var r := Tally(t, rows, resolve).months;
      forall name :: (name in r <==> name in t.months || CountMonth(rows, name, resolve) > 0)
        && Lookup(r, name) == Lookup(t.months, name) + CountMonth(rows, name, resolve)
  {
    if rows != [] {
      TallyMonths(t, rows[..|rows| - 1], resolve);
    }
  }

  /** The sum of the counts of a table. */
  ghost function SumValues(m: Counts): int
    decreases |m|
  {
    if m == map[] then 0
    else
      var k :| k in m;
      m[k] + SumValues(m - {k})
  }

  /** The sum does not depend on which key is taken out first. */
  lemma {:induction false} SumValuesRemove(m: Counts, key: string)
    requires key in m
    ensures SumValues(m) == m[key] + SumValues(m - {key})
    decreases |m|
  {
    var k :| k in m && SumValues(m) == m[k] + SumValues(m - {k});
    if k != key {
      SumValuesRemove(m - {k}, key);
      SumValuesRemove(m - {key}, k);
      assert m - {k} - {key} == m - {key} - {k};
    }
  }

  lemma SumValuesBump(m: Counts, key: string)
    ensures SumValues(Bump(m, key)) == SumValues(m) + 1
  {
    var r := Bump(m, key);
    SumValuesRemove(r, key);
    if key in m {
      SumValuesRemove(m, key);
      assert r - {key} == m - {key};
    } else {
      assert r - {key} == m;
    }
  }

  /** Each record adds exactly one to the food table and one to the month table. */
  lemma {:induction false} TallySums(t: Totals, rows: seq<Person>, resolve: Resolver)
    requires AllResolve(rows, resolve)
    ensures SumValues(Tally(t, rows, resolve).foods) == SumValues(t.foods) + |rows|
    ensures SumValues(Tally(t, rows, resolve).months) == SumValues(t.months) + |rows|
  {
    if rows != [] {
      var n := |rows| - 1;
      var s := Tally(t, rows[..n], resolve);
      TallySums(t, rows[..n], resolve);
      SumValuesBump(s.foods, rows[n].favouriteFood);
      SumValuesBump(s.months, MonthName(MonthOf(rows[n], resolve).value));
      assert AllResolve(rows[..n], resolve);
    }
  }

  /** Counts are positive, and month keys are the twelve abbreviations. */
  ghost predicate WellFormed(t: Totals) {
    && (forall f :: f in t.foods ==> t.foods[f] >= 1)
    && (forall name :: name in t.months ==> t.months[name] >= 1 && name in MonthNames)
  }

  lemma {:induction false} TallyWellFormed(t: Totals, rows: seq<Person>, resolve: Resolver)
    requires AllResolve(rows, resolve) && WellFormed(t)
    ensures WellFormed(Tally(t, rows, resolve))
  {
    if rows != [] {
      TallyWellFormed(t, rows[..|rows| - 1], resolve);
    }
  }

  /** After a whole pass the food table holds, for every food named, the number of records naming it. */
  lemma AggregateFoods(rows: seq<Person>, resolve: Resolver)
    requires AllResolve(rows, resolve)
    ensures var foods := Aggregate(rows, resolve).foods;
      forall f :: (f in foods <==> CountFood(rows, f) > 0) && Lookup(foods, f) == CountFood(rows, f)
  {
    TallyFoods(Empty, rows, resolve);
  }

  /** After a whole pass the month table holds, for every month seen, the number of records born in it. */
  lemma AggregateMonths(rows: seq<Person>, resolve: Resolver)
    requires AllResolve(rows, resolve)
    ensures var months := Aggregate(rows, resolve).months;
      forall name :: (name in months <==> CountMonth(rows, name, resolve) > 0)
        && Lookup(months, name) == CountMonth(rows, name, resolve)
  {
    TallyMonths(Empty, rows, resolve);
  }

  /** After a whole pass both tables add up to the number of records, and their entries are well formed. */
  lemma AggregateTotals(rows: seq<Person>, resolve: Resolver)
    requires AllResolve(rows, resolve)
    ensures var a := Aggregate(rows, resolve);
      && SumValues(a.foods) == a.records
      && SumValues(a.months) == a.records
      && WellFormed(a)
  {
    TallySums(Empty, rows, resolve);
    TallyWellFormed(Empty, rows, resolve);
  }

  // ---------------------------------------------------------------------------------------
  // Order independence

  lemma ObserveCommutes(t: Totals, p: Person, q: Person, mp: int, mq: int)
    requires 1 <= mp <= 12 && 1 <= mq <= 12
    ensures Observe(Observe(t, p, mp), q, mq) == Observe(Observe(t, q, mq), p, mp)
  {
    BumpCommutes(t.foods, p.favouriteFood, q.favouriteFood);
    BumpCommutes(t.months, MonthName(mp), MonthName(mq));
  }

  lemma StepCommutes(t: Totals, p: Person, q: Person, resolve: Resolver)
    ensures Step(Step(t, p, resolve), q, resolve) == Step(Step(t, q, resolve), p, resolve)
  {
    if resolve(p).Some? && resolve(q).Some? {
      ObserveCommutes(t, p, q, resolve(p).value, resolve(q).value);
    }
  }

  /** Appending one record applies one more update step. */
  lemma TallySnoc(t: Totals, rows: seq<Person>, y: Person, resolve: Resolver)
    ensures Tally(t, rows + [y], resolve) == Step(Tally(t, rows, resolve), y, resolve)
  {
    assert (rows + [y])[..|rows|] == rows;
  }

  /** A record may be moved from anywhere to the end without changing the totals. */
  lemma {:induction false} MoveToEnd(t: Totals, p: seq<Person>, x: Person, q: seq<Person>, resolve: Resolver)
    ensures Tally(t, p + [x] + q, resolve) == Tally(t, p + q + [x], resolve)
    decreases |q|
  {
    if q != [] {
      var n := |q| - 1;
      var q', y := q[..n], q[n];
      assert q == q' + [y];
      assert p + [x] + q == (p + [x] + q') + [y];
      assert p + q + [x] == (p + q' + [y]) + [x];
      var s := Tally(t, p + q', resolve);
      calc {
        Tally(t, p + [x] + q, resolve);
        { TallySnoc(t, p + [x] + q', y, resolve); }
        Step(Tally(t, p + [x] + q', resolve), y, resolve);
        { MoveToEnd(t, p, x, q', resolve); }
        Step(Tally(t, p + q' + [x], resolve), y, resolve);
        { TallySnoc(t, p + q', x, resolve); }
        Step(Step(s, x, resolve), y, resolve);
        { StepCommutes(s, x, y, resolve); }
        Step(Step(s, y, resolve), x, resolve);
        { TallySnoc(t, p + q', y, resolve); }
        Step(Tally(t, p + q' + [y], resolve), x, resolve);
        { TallySnoc(t, p + q' + [y], x, resolve); }
        Tally(t, p + q + [x], resolve);
      }
    } else {
      assert p + [x] + q == p + q + [x];
    }
  }

  lemma AllResolvePermutation(a: seq<Person>, b: seq<Person>, resolve: Resolver)
    requires multiset(a) == multiset(b) && AllResolve(a, resolve)
    ensures AllResolve(b, resolve)
  {
    forall i | 0 <= i < |b|
      ensures MonthOf(b[i], resolve).Some?
    {
      assert b[i] in multiset(a);
      var j :| 0 <= j < |a| && a[j] == b[i];
    }
  }

  /** Taking out the record at position j leaves the other records. */
  lemma SplitAt(b: seq<Person>, j: nat)
    requires j < |b|
    ensures b == b[..j] + [b[j]] + b[j + 1..]
    ensures multiset(b[..j] + b[j + 1..]) == multiset(b) - multiset{b[j]}
  {
    assert b == b[..j] + [b[j]] + b[j + 1..];
  }

  /** Reordering the records, in any way, leaves the totals unchanged. */
  lemma {:induction false} TallyPermutation(t: Totals, a: seq<Person>, b: seq<Person>, resolve: Resolver)
    requires multiset(a) == multiset(b)
    ensures Tally(t, a, resolve) == Tally(t, b, resolve)
    decreases |a|
  {
    if a != [] {
      var n := |a| - 1;
      var x := a[n];
      SplitAt(a, n);
      assert a == a[..n] + [x];
      assert x in multiset(b);
      var j :| 0 <= j < |b| && b[j] == x;
      var rest := b[..j] + b[j + 1..];
      SplitAt(b, j);
      TallyPermutation(t, a[..n], rest, resolve);
      MoveToEnd(t, b[..j], x, b[j + 1..], resolve);
      TallySnoc(t, a[..n], x, resolve);
      TallySnoc(t, rest, x, resolve);
    }
  }

  /** The report's totals depend only on which records were read, not on their order. */
  lemma AggregateOrderIndependent(a: seq<Person>, b: seq<Person>, resolve: Resolver)
    requires multiset(a) == multiset(b) && AllResolve(a, resolve)
    ensures AllResolve(b, resolve)
    ensures Aggregate(a, resolve) == Aggregate(b, resolve)
  {
    AllResolvePermutation(a, b, resolve);
    TallyPermutation(Empty, a, b, resolve);
    assert |a| == |multiset(a)| == |multiset(b)| == |b|;
  }

  // ---------------------------------------------------------------------------------------
  // The average

  /** Floor division, for either sign of the divisor. */
  function FloorDiv(a: int, b: int): (q: int)
    requires b != 0
    ensures b > 0 ==> b * q <= a < b * q + b
    ensures b < 0 ==> b * q >= a > b * q + b
  {
    if b > 0 then a / b else (-a) / (-b)
  }

  /**
   * getAverageSiblings: Math.round of the double quotient, that is floor(sum / total + 1/2),
   * so halves round up; 0/0 is NaN, which rounds to 0, and a non-zero sum over zero is an
   * infinity whose long rounding narrows to -1 (positive) or 0 (negative).
   */
  function AverageSiblings(sum: int, total: int): (r: int)
    ensures total > 0 ==> 2 * total * r - total <= 2 * sum < 2 * total * r + total
    ensures total < 0 ==> 2 * total * r - total >= 2 * sum > 2 * total * r + total
    ensures total == 0 ==> r == (if sum > 0 then -1 else 0)
  {
    if total == 0 then (if sum > 0 then -1 else 0)
    else FloorDiv(2 * sum + total, 2 * total)
  }

  /** The nearest integer, ties upwards: 5 over 2 is 3, 4 over 2 is 2, 6 over 3 is 2, and no records give 0. */
  lemma AverageExamples()
    ensures AverageSiblings(5, 2) == 3
    ensures AverageSiblings(4, 2) == 2
    ensures AverageSiblings(6, 3) == 2
    ensures AverageSiblings(0, 0) == 0
  {
  }

  // ---------------------------------------------------------------------------------------
  // The three favourite foods

  predicate NoDuplicates(s: seq<string>) {
    forall i, j :: 0 <= i < j < |s| ==> s[i] != s[j]
  }

  /** order lists every key of m exactly once, as an iteration over the map does. */
  predicate IsEnumeration(order: seq<string>, m: Counts) {
    NoDuplicates(order) && KeysIn(order, m) && (forall k :: k in m ==> k in order)
  }

  predicate KeysIn(s: seq<string>, m: Counts) {
    forall i :: 0 <= i < |s| ==> s[i] in m
  }

  predicate Descending(s: seq<string>, m: Counts) {
    KeysIn(s, m) && forall i, j :: 0 <= i < j < |s| ==> m[s[i]] >= m[s[j]]
  }

  /** Insert key into a list sorted by descending count, in front of every key whose count is not larger. */
  function Insert(key: string, s: seq<string>, m: Counts): (r: seq<string>)
    ensures multiset(r) == multiset(s) + multiset{key}
  {
    if s == [] || s[0] !in m || key !in m || m[s[0]] <= m[key] then [key] + s
    else
      assert s == [s[0]] + s[1..];
      [s[0]] + Insert(key, s[1..], m)
  }

  /** Every entry of s is a key of m with a count of at most bound. */
  predicate AtMost(s: seq<string>, m: Counts, bound: int) {
    forall i :: 0 <= i < |s| ==> s[i] in m && m[s[i]] <= bound
  }

  lemma {:induction false} InsertAtMost(key: string, s: seq<string>, m: Counts, bound: int)
    requires key in m && m[key] <= bound && AtMost(s, m, bound)
    ensures AtMost(Insert(key, s, m), m, bound)
  {
    if !(s == [] || s[0] !in m || m[s[0]] <= m[key]) {
      InsertAtMost(key, s[1..], m, bound);
    }
  }

  lemma {:induction false} InsertDescending(key: string, s: seq<string>, m: Counts)
    requires key in m && Descending(s, m)
    ensures Descending(Insert(key, s, m), m)
  {
    if s != [] && m[s[0]] > m[key] {
      var rest := s[1..];
      InsertDescending(key, rest, m);
      assert AtMost(rest, m, m[s[0]]);
      InsertAtMost(key, rest, m, m[s[0]]);
      var r' := Insert(key, rest, m);
      assert Insert(key, s, m) == [s[0]] + r';
    }
  }

  lemma {:induction false} InsertNoDuplicates(key: string, s: seq<string>, m: Counts)
    ensures key !in s && NoDuplicates(s) ==> NoDuplicates(Insert(key, s, m))
  {
    if key !in s && NoDuplicates(s) && !(s == [] || s[0] !in m || key !in m || m[s[0]] <= m[key]) {
      InsertNoDuplicates(key, s[1..], m);
      var r := Insert(key, s, m);
      assert s == [s[0]] + s[1..];
      assert s[0] !in multiset(s[1..]) + multiset{key};
      assert s[0] !in r[1..];
    }
  }

  /**
   * Stream.sorted(comparingByValue(reverseOrder())): a sort by descending count.  The
   * entry stream of a HashMap is not ordered, so ties may come out in any order; this
   * sort keeps the order of the given enumeration, and the enumeration is left open.
   */
  function SortByCount(order: seq<string>, m: Counts): (r: seq<string>)
    requires KeysIn(order, m)
    ensures multiset(r) == multiset(order)
    ensures Descending(r, m)
  {
    if order == [] then []
    else
      var rest := SortByCount(order[1..], m);
      assert order == [order[0]] + order[1..];
      InsertDescending(order[0], rest, m);
      Insert(order[0], rest, m)
  }

  lemma {:induction false} SortNoDuplicates(order: seq<string>, m: Counts)
    requires KeysIn(order, m) && NoDuplicates(order)
    ensures NoDuplicates(SortByCount(order, m))
  {
    if order != [] {
      SortNoDuplicates(order[1..], m);
      assert order == [order[0]] + order[1..];
      assert order[0] !in multiset(order[1..]);
      InsertNoDuplicates(order[0], SortByCount(order[1..], m), m);
    }
  }

  function Min(a: int, b: int): int {
    if a < b then a else b
  }

  /** The sort followed by limit(3): the first three (food, count) entries. */
  function TopFoods(m: Counts, order: seq<string>): (r: seq<(string, int)>)
    requires KeysIn(order, m)
    ensures |r| <= 3 && |r| <= |order|
    ensures forall i :: 0 <= i < |r| ==> r[i].0 in m && r[i].1 == m[r[i].0]
  {
    var sorted := SortByCount(order, m);
    assert |sorted| == |multiset(sorted)| == |multiset(order)| == |order|;
    var n := Min(3, |sorted|);
    seq(n, i requires 0 <= i < n => (sorted[i], m[sorted[i]]))
  }

  lemma {:induction false} NoDuplicatesCardinality(s: seq<string>)
    requires NoDuplicates(s)
    ensures |set x | x in s| == |s|
  {
    if s != [] {
      NoDuplicatesCardinality(s[1..]);
      assert (set x | x in s) == {s[0]} + (set x | x in s[1..]);
    }
  }

  /** The favourite foods line has three entries, or as many as there are foods when fewer. */
  lemma TopFoodsLength(m: Counts, order: seq<string>)
    requires IsEnumeration(order, m)
    ensures |TopFoods(m, order)| == Min(3, |m|)
  {
    var sorted := SortByCount(order, m);
    assert |sorted| == |multiset(sorted)| == |multiset(order)| == |order|;
    NoDuplicatesCardinality(order);
    assert (set x | x in order) == m.Keys;
  }

  /** Its entries are distinct foods of the table with their counts, in non-increasing order of count. */
  lemma TopFoodsEntries(m: Counts, order: seq<string>)
    requires IsEnumeration(order, m)
    ensures var r := TopFoods(m, order);
      && (forall i :: 0 <= i < |r| ==> r[i].0 in m && r[i].1 == m[r[i].0])
      && (forall i, j :: 0 <= i < j < |r| ==> r[i].0 != r[j].0 && r[i].1 >= r[j].1)
  {
    SortNoDuplicates(order, m);
  }

  /** No food left off the line has a larger count than the last one on it. */
  lemma TopFoodsCutoff(m: Counts, order: seq<string>, food: string)
    requires IsEnumeration(order, m)
    requires food in m
    requires forall i :: 0 <= i < |TopFoods(m, order)| ==> TopFoods(m, order)[i].0 != food
    ensures var r := TopFoods(m, order);
      0 < |r| && m[food] <= r[|r| - 1].1
  {
    var sorted := SortByCount(order, m);
    var r := TopFoods(m, order);
    assert food in multiset(order);
    var j :| 0 <= j < |sorted| && sorted[j] == food;
    assert |r| > 0;
    var i := if j < |r| then j else 0;
    assert r[i].0 == sorted[i] && r[i].0 != food;
    assert |r| == 3;
    assert r[2].1 == m[sorted[2]];
  }

  /** The counts of the listed keys, in order. */
  function CountsOf(s: seq<string>, m: Counts): (c: seq<int>)
    requires KeysIn(s, m)
    ensures |c| == |s| && forall i :: 0 <= i < |s| ==> c[i] == m[s[i]]
  {
    seq(|s|, i requires 0 <= i < |s| => m[s[i]])
  }

  lemma CountsOfCons(s: seq<string>, m: Counts)
    requires s != [] && KeysIn(s, m)
    ensures KeysIn(s[1..], m)
    ensures CountsOf(s, m) == [m[s[0]]] + CountsOf(s[1..], m)
  {
  }

  function KeySet(s: seq<string>): set<string> {
    set k | k in s
  }

  lemma KeySetCons(s: seq<string>)
    requires s != [] && NoDuplicates(s)
    ensures s[0] in KeySet(s) && KeySet(s) - {s[0]} == KeySet(s[1..])
  {
    assert s == [s[0]] + s[1..];
  }

  /** The counts of the given keys of m, as a bag. */
  ghost function CountBag(keys: set<string>, m: Counts): multiset<int>
    requires keys <= m.Keys
    decreases |keys|
  {
    if keys == {} then multiset{}
    else
      var k :| k in keys;
      multiset{m[k]} + CountBag(keys - {k}, m)
  }

  /** The bag does not depend on which key is taken out first. */
  lemma {:induction false} CountBagRemove(keys: set<string>, m: Counts, key: string)
    requires keys <= m.Keys && key in keys
    ensures CountBag(keys, m) == multiset{m[key]} + CountBag(keys - {key}, m)
    decreases |keys|
  {
    var k :| k in keys && CountBag(keys, m) == multiset{m[k]} + CountBag(keys - {k}, m);
    if k != key {
      CountBagRemove(keys - {k}, m, key);
      CountBagRemove(keys - {key}, m, k);
      assert keys - {k} - {key} == keys - {key} - {k};
    }
  }

  /** The counts of a repeat-free list of keys form the bag of counts of its key set. */
  lemma {:induction false} CountsOfBag(s: seq<string>, m: Counts)
    requires KeysIn(s, m) && NoDuplicates(s)
    ensures KeySet(s) <= m.Keys
    ensures multiset(CountsOf(s, m)) == CountBag(KeySet(s), m)
  {
    if s != [] {
      CountsOfBag(s[1..], m);
      KeySetCons(s);
      CountBagRemove(KeySet(s), m, s[0]);
      CountsOfCons(s, m);
    }
  }

  /** Sorting an enumeration lists every food of the table. */
  lemma SortKeySet(order: seq<string>, m: Counts)
    requires IsEnumeration(order, m)
    ensures KeySet(SortByCount(order, m)) == m.Keys
  {
    var sorted := SortByCount(order, m);
    forall k | k in m
      ensures k in sorted
    {
      assert k in multiset(order);
    }
    forall k | k in sorted
      ensures k in m
    {
      assert k in multiset(order);
    }
  }

  predicate NonIncreasing(c: seq<int>) {
    |c| <= 1 || (c[0] >= c[1] && NonIncreasing(c[1..]))
  }

  lemma {:induction false} DescendingCounts(s: seq<string>, m: Counts)
    requires Descending(s, m)
    ensures NonIncreasing(CountsOf(s, m))
  {
    if |s| > 1 {
      assert Descending(s[1..], m);
      DescendingCounts(s[1..], m);
      CountsOfCons(s, m);
    }
  }

  /** The head of a non-increasing list is its largest element. */
  lemma {:induction false} HeadIsMax(a: seq<int>, x: int)
    requires NonIncreasing(a) && x in multiset(a)
    ensures a != [] && x <= a[0]
    decreases |a|
  {
    assert a == [a[0]] + a[1..];
    if x != a[0] {
      HeadIsMax(a[1..], x);
    }
  }

  lemma MultisetTail(a: seq<int>)
    requires a != []
    ensures multiset(a[1..]) == multiset(a) - multiset{a[0]}
  {
    assert a == [a[0]] + a[1..];
  }

  lemma SameHeadAndTail(a: seq<int>, b: seq<int>)
    requires a != [] && b != [] && a[0] == b[0] && a[1..] == b[1..]
    ensures a == b
  {
    assert a == [a[0]] + a[1..] && b == [b[0]] + b[1..];
  }

  /** A multiset of numbers has only one non-increasing arrangement. */
  lemma {:induction false} NonIncreasingUnique(a: seq<int>, b: seq<int>)
    requires NonIncreasing(a) && NonIncreasing(b) && multiset(a) == multiset(b)
    ensures a == b
    decreases |a|
  {
    if a == [] {
      assert |b| == |multiset(b)| == 0;
    } else {
      HeadIsMax(b, a[0]);
      HeadIsMax(a, b[0]);
      MultisetTail(a);
      MultisetTail(b);
      NonIncreasingUnique(a[1..], b[1..]);
      SameHeadAndTail(a, b);
    }
  }

  /** The counts on the foods line are the first counts of the sorted table. */
  lemma TopFoodsCounts(m: Counts, order: seq<string>)
    requires KeysIn(order, m)
    ensures var c := CountsOf(SortByCount(order, m), m);
      |TopFoods(m, order)| == Min(3, |c|) && forall i :: 0 <= i < |TopFoods(m, order)| ==> TopFoods(m, order)[i].1 == c[i]
  {
  }

  /** Sorting any enumeration of the table yields the table's counts, largest first. */
  lemma SortedCounts(order: seq<string>, m: Counts)
    requires IsEnumeration(order, m)
    ensures var c := CountsOf(SortByCount(order, m), m);
      NonIncreasing(c) && multiset(c) == CountBag(m.Keys, m)
  {
    var sorted := SortByCount(order, m);
    SortNoDuplicates(order, m);
    SortKeySet(order, m);
    CountsOfBag(sorted, m);
    DescendingCounts(sorted, m);
  }

  /**
   * Whatever order the table is streamed in, the foods line has the same length and the
   * same count at each position; only foods with equal counts can trade places.
   */
  lemma TopFoodsCountsAgree(m: Counts, o1: seq<string>, o2: seq<string>)
    requires IsEnumeration(o1, m) && IsEnumeration(o2, m)
    ensures |TopFoods(m, o1)| == |TopFoods(m, o2)|
    ensures forall i :: 0 <= i < |TopFoods(m, o1)| ==> TopFoods(m, o1)[i].1 == TopFoods(m, o2)[i].1
  {
    SortedCounts(o1, m);
    SortedCounts(o2, m);
    var c := CountsOf(SortByCount(o1, m), m);
    NonIncreasingUnique(c, CountsOf(SortByCount(o2, m), m));
    TopFoodsCounts(m, o1);
    TopFoodsCounts(m, o2);
  }

  // ---------------------------------------------------------------------------------------
  // The month line

  /** The lookups of m at keys, in order; an absent key gives None. */
  function Cells(keys: seq<string>, m: Counts): (cells: seq<Option<int>>)
    ensures |cells| == |keys|
    ensures forall i :: 0 <= i < |keys| ==> (cells[i].Some? <==> keys[i] in m)
    ensures forall i :: 0 <= i < |keys| && cells[i].Some? ==> cells[i].value == m[keys[i]]
  {
    seq(|keys|, i requires 0 <= i < |keys| => if keys[i] in m then Some(m[keys[i]]) else None)
  }

  /** The twelve lookups of the report, January first; a month never seen is absent (printed as null). */
  function MonthCells(months: Counts): (cells: seq<Option<int>>)
    ensures |cells| == 12
    ensures forall i :: 0 <= i < 12 ==> (cells[i].Some? <==> MonthNames[i] in months)
    ensures forall i :: 0 <= i < 12 && cells[i].Some? ==> cells[i].value == months[MonthNames[i]]
  {
    Cells(MonthNames, months)
  }

  function SumCells(cells: seq<Option<int>>): int {
    if cells == [] then 0 else (if cells[0].Some? then cells[0].value else 0) + SumCells(cells[1..])
  }

  function SumOver(keys: seq<string>, m: Counts): int {
    if keys == [] then 0 else Lookup(m, keys[0]) + SumOver(keys[1..], m)
  }

  lemma {:induction false} SumOverIgnores(keys: seq<string>, m: Counts, k: string)
    requires k !in keys
    ensures SumOver(keys, m - {k}) == SumOver(keys, m)
  {
    if keys != [] {
      SumOverIgnores(keys[1..], m, k);
    }
  }

  /** A table whose keys are among distinct keys sums to the sum of its lookups at those keys. */
  lemma {:induction false} SumOverCovers(keys: seq<string>, m: Counts)
    requires NoDuplicates(keys) && forall k :: k in m ==> k in keys
    ensures SumValues(m) == SumOver(keys, m)
  {
    if keys == [] {
      assert m == map[];
    } else {
      var k := keys[0];
      assert forall j :: j in keys[1..] ==> j != k;
      if k in m {
        SumValuesRemove(m, k);
        SumOverCovers(keys[1..], m - {k});
        SumOverIgnores(keys[1..], m, k);
      } else {
        SumOverCovers(keys[1..], m);
      }
    }
  }

  lemma {:induction false} SumCellsIsSumOver(keys: seq<string>, m: Counts)
    ensures SumCells(Cells(keys, m)) == SumOver(keys, m)
  {
    if keys != [] {
      SumCellsIsSumOver(keys[1..], m);
      assert Cells(keys, m)[1..] == Cells(keys[1..], m);
    }
  }

  lemma MonthNamesNoDuplicates()
    ensures NoDuplicates(MonthNames)
  {
    forall i, j | 0 <= i < j < |MonthNames|
      ensures MonthNames[i] != MonthNames[j]
    {
      MonthNamesDistinct(i + 1, j + 1);
    }
  }

  /** The twelve month numbers of the report, a missing month read as 0, add up to the month table's total. */
  lemma MonthCellsSum(months: Counts)
    requires forall name :: name in months ==> name in MonthNames
    ensures SumCells(MonthCells(months)) == SumValues(months)
  {
    SumCellsIsSumOver(MonthNames, months);
    MonthNamesNoDuplicates();
    SumOverCovers(MonthNames, months);
  }

  /** After a whole pass the twelve month numbers of the report, a missing month read as 0, add up to the record count. */
  lemma MonthColumnTotal(rows: seq<Person>, resolve: Resolver)
    requires AllResolve(rows, resolve)
    ensures SumCells(MonthCells(Aggregate(rows, resolve).months)) == |rows|
  {
    AggregateTotals(rows, resolve);
    MonthCellsSum(Aggregate(rows, resolve).months);
  }
}
