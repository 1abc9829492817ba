/**
 * The `StatisticClassifier` of src/kernel_stats.py, the older classifier
 * the analyzer grew out of: the same lowered, conflict-checked pattern
 * table, but no "nccl" category, two-field buckets, a header row that must
 * exist when one is announced, and per-iteration figures taken by dividing
 * each row by the iteration count alone.
 */
module KernelStats {
  import opened Wrappers
  import opened Errors
  import opened Text
  import opened OrderedMaps
  import opened PatternMap
  import Buckets
  import Analysis

  /** A parsed kernel row: name, total time in ns and instance count. */
  type TraceRow = Analysis.TraceRow

  /** One bucket: `[time per iteration in ms, instances per iteration]`. */
  datatype ClassStat = ClassStat(timePerIter: real, instancesPerIter: real)

  /** `[0.0, 0]`. */
  const ZeroStat := ClassStat(0.0, 0.0)

  function AddStat(a: ClassStat, b: ClassStat): ClassStat {
    ClassStat(a.timePerIter + b.timePerIter, a.instancesPerIter + b.instancesPerIter)
  }

  /** Category to bucket, in insertion order. */
  type StatTable = OrderedMap<string, ClassStat>

  /** The classifier keeps only the lowered, conflict-checked pattern table (`name_to_class_map`). */
  datatype StatisticClassifier = StatisticClassifier(nameToClassMap: PatternTable)

  // ---------------------------------------------------------------------
  // Construction and classification

  /** `StatisticClassifier(name_to_class_map)`. */
  method NewStatisticClassifier(user: OrderedMap<string, string>) returns (r: Result<StatisticClassifier, Error>)
    requires Valid(user)
    ensures r.Ok? <==> Build(user).Ok?
    ensures r.Ok? ==> r.value.nameToClassMap == Build(user).value && WellFormed(r.value.nameToClassMap)
    ensures r.Err? ==> r.error == Build(user).error
  {
    var built := NewPatternTable(user);
    BuildCharacterization(user);
    match built
    case Ok(m) => r := Ok(StatisticClassifier(m));
    case Err(e) => r := Err(e);
  }

  /**
   * `_get_class` has no "nccl" rule here: the first contained pattern
   * decides, and a name containing none is "others".
   */
  lemma GetClassDecision(c: StatisticClassifier, name: string)
    requires Valid(c.nameToClassMap)
    ensures forall i :: (0 <= i < |c.nameToClassMap.keys| && Contains(name, c.nameToClassMap.keys[i])
      && (forall j :: 0 <= j < i ==> !Contains(name, c.nameToClassMap.keys[j]))) ==>
      Classify(c.nameToClassMap, name) == c.nameToClassMap.values[c.nameToClassMap.keys[i]]
    ensures (forall j :: 0 <= j < |c.nameToClassMap.keys| ==> !Contains(name, c.nameToClassMap.keys[j])) ==>
      Classify(c.nameToClassMap, name) == OtherClass
  {
    var m := c.nameToClassMap;
    forall i | 0 <= i < |m.keys| && Contains(name, m.keys[i]) && (forall j :: 0 <= j < i ==> !Contains(name, m.keys[j]))
      ensures Classify(m, name) == m.values[m.keys[i]]
    {
      ClassifyFirstMatch(m, name, i);
    }
  }

  /** `{"others": [0.0, 0]}`. */
  function InitialStats(): StatTable {
    Put(Empty(), OtherClass, ZeroStat)
  }

  /** The table after the seeding loop. */
  function StatSeed(m: PatternTable): StatTable
    requires Valid(m)
  {
    Seed(InitialStats(), m.keys, m.values, ZeroStat)
  }

  /** Only zero buckets. */
  predicate AllZeroStats(t: StatTable) {
    forall k :: k in t.values ==> t.values[k] == ZeroStat
  }

  /** The seeded table holds "others" and every category, all at zero. */
  lemma StatSeedFacts(m: PatternTable)
    requires Valid(m)
    ensures Valid(StatSeed(m)) && AllZeroStats(StatSeed(m))
    ensures forall c :: c in StatSeed(m).values <==>
      c == OtherClass || exists i :: 0 <= i < |m.keys| && m.values[m.keys[i]] == c
  {
    var t0 := InitialStats();
    PutValid(Empty<string, ClassStat>(), OtherClass, ZeroStat);
    SeedValid(t0, m.keys, m.values, ZeroStat);
    forall c
      ensures c in StatSeed(m).values <==> c == OtherClass || exists i :: 0 <= i < |m.keys| && m.values[m.keys[i]] == c
    {
      SeedKeys(t0, m.keys, m.values, ZeroStat, c);
    }
    forall c | c in StatSeed(m).values
      ensures StatSeed(m).values[c] == ZeroStat
    {
      SeedValues(t0, m.keys, m.values, ZeroStat, c);
    }
  }

  /** `_get_class(kernel_name.lower())` of every row. */
  function StatClasses(m: PatternTable, rows: seq<TraceRow>): (cls: seq<string>)
    requires Valid(m)
    ensures |cls| == |rows|
  {
    if rows == [] then []
    else StatClasses(m, rows[..|rows| - 1]) + [Classify(m, Lower(rows[|rows| - 1].name))]
  }

  lemma {:induction false} StatClassesAt(m: PatternTable, rows: seq<TraceRow>)
    requires Valid(m)
    ensures forall j :: 0 <= j < |rows| ==> StatClasses(m, rows)[j] == Classify(m, Lower(rows[j].name))
    decreases |rows|
  {
    if rows != [] {
      var n := |rows| - 1;
      StatClassesAt(m, rows[..n]);
      assert forall j :: 0 <= j < n ==> rows[..n][j] == rows[j];
    }
  }

  /** Every class is a key of `seed`: the bucket update `statistic_table[class_name]` never misses. */
  predicate ClassesKnown(seed: StatTable, cls: seq<string>) {
    forall j :: 0 <= j < |cls| ==> cls[j] in seed.values
  }

  lemma StatClassesSeeded(m: PatternTable, rows: seq<TraceRow>)
    requires Valid(m)
    ensures ClassesKnown(StatSeed(m), StatClasses(m, rows))
  {
    StatClassesAt(m, rows);
    StatSeedFacts(m);
    forall j | 0 <= j < |rows|
      ensures StatClasses(m, rows)[j] in StatSeed(m).values
    {
      ClassifySeeded(InitialStats(), m, ZeroStat, Lower(rows[j].name));
    }
  }

  // ---------------------------------------------------------------------
  // Row contributions and the specification of the row loop

  /**
   * What one row adds to its bucket: `(time / count) * (count // iter_times)
   * / 1000000.0` and `count / iter_times`. A zero count fails first, in the
   * float division; a zero iteration count fails next, in the floor division.
   */
  function RowContribution(row: TraceRow, iterTimes: int): Result<ClassStat, Error> {
    if row.count == 0 then Err(ZeroInstanceCount(row.name))
    else if iterTimes == 0 then Err(ZeroDivisor)
    else Ok(ClassStat(row.time / row.count as real * Buckets.FloorDiv(row.count, iterTimes) as real / 1000000.0,
                      row.count as real / iterTimes as real))
  }

  /** Every row's contribution can be computed. */
  predicate AllContribute(rows: seq<TraceRow>, iterTimes: int) {
    forall j :: 0 <= j < |rows| ==> RowContribution(rows[j], iterTimes).Ok?
  }

  /** The first row at or after `j` whose contribution raises. */
  function FirstFailureFrom(rows: seq<TraceRow>, iterTimes: int, j: nat): (r: Option<nat>)
    requires j <= |rows|
    ensures r.Some? ==> j <= r.value < |rows| && RowContribution(rows[r.value], iterTimes).Err?
    ensures r.Some? ==> forall i :: j <= i < r.value ==> RowContribution(rows[i], iterTimes).Ok?
    ensures r.None? <==> forall i :: j <= i < |rows| ==> RowContribution(rows[i], iterTimes).Ok?
    decreases |rows| - j
  {
    if j == |rows| then None
    else if RowContribution(rows[j], iterTimes).Err? then Some(j)
    else FirstFailureFrom(rows, iterTimes, j + 1)
  }

  /** The rows that contribute are exactly none, or all of them with a nonzero count and iteration count. */
  lemma AllContributeIff(rows: seq<TraceRow>, iterTimes: int)
    ensures AllContribute(rows, iterTimes) <==>
      rows == [] || (iterTimes != 0 && forall j :: 0 <= j < |rows| ==> rows[j].count != 0)
  {
    if rows != [] && AllContribute(rows, iterTimes) {
      assert RowContribution(rows[0], iterTimes).Ok?;
    }
  }

  lemma AllContributePrefix(rows: seq<TraceRow>, iterTimes: int, i: nat)
    requires i <= |rows| && AllContribute(rows, iterTimes)
    ensures AllContribute(rows[..i], iterTimes)
  {
    var p := rows[..i];
    assert forall j :: 0 <= j < i ==> p[j] == rows[j];
  }

  lemma AllContributeSnoc(rows: seq<TraceRow>, iterTimes: int, i: nat)
    requires i < |rows| && AllContribute(rows[..i], iterTimes) && RowContribution(rows[i], iterTimes).Ok?
    ensures AllContribute(rows[..i + 1], iterTimes)
  {
    var p0, p1 := rows[..i], rows[..i + 1];
    forall j | 0 <= j < i + 1
      ensures RowContribution(p1[j], iterTimes).Ok?
    {
      if j < i {
        assert p0[j] == p1[j];
      }
    }
  }

  lemma ClassesKnownPrefix(seed: StatTable, cls: seq<string>, i: nat)
    requires i <= |cls| && ClassesKnown(seed, cls)
    ensures ClassesKnown(seed, cls[..i])
  {
    var p := cls[..i];
    assert forall j :: 0 <= j < i ==> p[j] == cls[j];
  }

  /** The sum of the contributions of the rows of class `c`. */
  function StatSum(rows: seq<TraceRow>, cls: seq<string>, c: string, iterTimes: int): ClassStat
    requires |cls| == |rows| && AllContribute(rows, iterTimes)
  {
    if rows == [] then ZeroStat
    else
      var n := |rows| - 1;
      AllContributePrefix(rows, iterTimes, n);
      var p := StatSum(rows[..n], cls[..n], c, iterTimes);
      if cls[n] == c then AddStat(p, RowContribution(rows[n], iterTimes).value) else p
  }

  /** The sum of the contributions of all rows. */
  function RowStatSum(rows: seq<TraceRow>, iterTimes: int): ClassStat
    requires AllContribute(rows, iterTimes)
  {
    if rows == [] then ZeroStat
    else
      var n := |rows| - 1;
      AllContributePrefix(rows, iterTimes, n);
      AddStat(RowStatSum(rows[..n], iterTimes), RowContribution(rows[n], iterTimes).value)
  }

  /** The table after the rows, each added to the bucket of its class. */
  function StatTableOf(seed: StatTable, rows: seq<TraceRow>, cls: seq<string>, iterTimes: int): (t: StatTable)
    requires |cls| == |rows| && AllContribute(rows, iterTimes)
    requires Valid(seed) && ClassesKnown(seed, cls)
    ensures Valid(t) && t.keys == seed.keys && t.values.Keys == seed.values.Keys
  {
    if rows == [] then seed
    else
      var n := |rows| - 1;
      AllContributePrefix(rows, iterTimes, n);
      ClassesKnownPrefix(seed, cls, n);
      var p := StatTableOf(seed, rows[..n], cls[..n], iterTimes);
      Put(p, cls[n], AddStat(p.values[cls[n]], RowContribution(rows[n], iterTimes).value))
  }

  /** The row loop: the first failing row raises, otherwise every row lands in its bucket. */
  function StatLoop(seed: StatTable, data: seq<TraceRow>, cls: seq<string>, iterTimes: int): Result<StatTable, Error>
    requires |cls| == |data| && Valid(seed) && ClassesKnown(seed, cls)
  {
    match FirstFailureFrom(data, iterTimes, 0)
    case Some(i) => Err(RowContribution(data[i], iterTimes).error)
    case None => Ok(StatTableOf(seed, data, cls, iterTimes))
  }

  /** One more row of the loop is one more bucket update. */
  lemma StatStep(seed: StatTable, rows: seq<TraceRow>, cls: seq<string>, i: nat, iterTimes: int)
    requires |cls| == |rows| && i < |rows| && Valid(seed)
    requires AllContribute(rows[..i], iterTimes) && AllContribute(rows[..i + 1], iterTimes)
    requires ClassesKnown(seed, cls[..i]) && ClassesKnown(seed, cls[..i + 1])
    ensures cls[i] in StatTableOf(seed, rows[..i], cls[..i], iterTimes).values
    ensures StatTableOf(seed, rows[..i + 1], cls[..i + 1], iterTimes) ==
      var t := StatTableOf(seed, rows[..i], cls[..i], iterTimes);
      Put(t, cls[i], AddStat(t.values[cls[i]], RowContribution(rows[i], iterTimes).value))
  {
    assert rows[..i + 1][..i] == rows[..i];
    assert cls[..i + 1][..i] == cls[..i];
    assert cls[..i + 1][i] == cls[i];
  }

  /** The loop raises at the first row whose contribution fails. */
  lemma StatLoopFail(seed: StatTable, data: seq<TraceRow>, cls: seq<string>, i: nat, iterTimes: int)
    requires |cls| == |data| && i < |data| && Valid(seed) && ClassesKnown(seed, cls)
    requires AllContribute(data[..i], iterTimes) && RowContribution(data[i], iterTimes).Err?
    ensures StatLoop(seed, data, cls, iterTimes) == Err(RowContribution(data[i], iterTimes).error)
  {
    var p := data[..i];
    assert forall j :: 0 <= j < i ==> p[j] == data[j];
    assert forall j :: 0 <= j < i ==> RowContribution(data[j], iterTimes).Ok?;
  }

  /** A loop through all rows returns the filled table. */
  lemma StatLoopDone(seed: StatTable, data: seq<TraceRow>, cls: seq<string>, iterTimes: int)
    requires |cls| == |data| && Valid(seed) && ClassesKnown(seed, cls)
    requires AllContribute(data, iterTimes)
    ensures StatLoop(seed, data, cls, iterTimes) == Ok(StatTableOf(seed, data, cls, iterTimes))
  {
  }

  // ---------------------------------------------------------------------
  // The method `statistic`

  /** The sum of the buckets of keys `ks`, in that order; a missing key counts zero. */
  function SumStatsOver(ks: seq<string>, vals: map<string, ClassStat>): ClassStat {
    if ks == [] then ZeroStat
    else
      var k := ks[|ks| - 1];
      AddStat(SumStatsOver(ks[..|ks| - 1], vals), if k in vals then vals[k] else ZeroStat)
  }

  /** The field-wise sum of all buckets, in key order. */
  function SumStats(t: StatTable): ClassStat {
    SumStatsOver(t.keys, t.values)
  }

  /**
   * `statistic(kernels, iter_times, with_header)`: the table, the total time
   * per iteration and the total instances per iteration. Announcing a
   * header with no rows at all fails in `kernels[0]`.
   */
  function ClassStatistics(c: StatisticClassifier, kernels: seq<TraceRow>, iterTimes: int, withHeader: bool)
    : Result<(StatTable, real, real), Error>
    requires Valid(c.nameToClassMap)
  {
    if withHeader && kernels == [] then Err(MissingHeader)
    else
      var m := c.nameToClassMap;
      var data := Analysis.DataRows(kernels, withHeader);
      StatSeedFacts(m);
      StatClassesSeeded(m, data);
      match StatLoop(StatSeed(m), data, StatClasses(m, data), iterTimes)
      case Err(e) => Err(e)
      case Ok(t) => var s := SumStats(t); Ok((t, s.timePerIter, s.instancesPerIter))
  }

  method StatClass(m: PatternTable, rows: seq<TraceRow>, i: nat) returns (cls: string)
    requires Valid(m) && i < |rows|
    ensures cls == StatClasses(m, rows)[i]
  {
    cls := Classify(m, Lower(rows[i].name));
    StatClassesAt(m, rows);
  }

  /** The state of the row loop after the first `i` data rows. */
  predicate StatLoopState(seed: StatTable, data: seq<TraceRow>, cls: seq<string>, i: nat, iterTimes: int, table: StatTable)
    requires |cls| == |data| && i <= |data| && Valid(seed) && ClassesKnown(seed, cls)
  {
    ClassesKnownPrefix(seed, cls, i);
    AllContribute(data[..i], iterTimes) && table == StatTableOf(seed, data[..i], cls[..i], iterTimes)
  }

  /** The state after the last row is the loop's result. */
  lemma StatLoopStateDone(seed: StatTable, data: seq<TraceRow>, cls: seq<string>, iterTimes: int, table: StatTable)
    requires |cls| == |data| && Valid(seed) && ClassesKnown(seed, cls)
    requires StatLoopState(seed, data, cls, |data|, iterTimes, table)
    ensures StatLoop(seed, data, cls, iterTimes) == Ok(table)
  {
    assert data[..|data|] == data && cls[..|cls|] == cls;
    StatLoopDone(seed, data, cls, iterTimes);
  }

  /** One iteration of the row loop. */
  method StatRowStep(m: PatternTable, data: seq<TraceRow>, ghost seed: StatTable, ghost cls: seq<string>, i: nat,
                     iterTimes: int, table: StatTable)
    returns (r: Result<StatTable, Error>)
    requires Valid(m) && i < |data| && seed == StatSeed(m) && cls == StatClasses(m, data)
    requires Valid(seed) && ClassesKnown(seed, cls)
    requires StatLoopState(seed, data, cls, i, iterTimes, table)
    ensures r.Err? ==> r == StatLoop(seed, data, cls, iterTimes)
    ensures r.Ok? ==> StatLoopState(seed, data, cls, i + 1, iterTimes, r.value)
  {
    var row := data[i];
    var contribution := RowContribution(row, iterTimes);
    if contribution.Err? {
      StatLoopFail(seed, data, cls, i, iterTimes);
      return Err(contribution.error);
    }
    var c := StatClass(m, data, i);
    AllContributeSnoc(data, iterTimes, i);
    ClassesKnownPrefix(seed, cls, i);
    ClassesKnownPrefix(seed, cls, i + 1);
    StatStep(seed, data, cls, i, iterTimes);
    r := Ok(Put(table, c, AddStat(table.values[c], contribution.value)));
  }

  /** The totals loop `for key in statistic_table`. */
  method TableTotals(t: StatTable) returns (time: real, instances: real)
    requires Valid(t)
    ensures ClassStat(time, instances) == SumStats(t)
  {
    time, instances := 0.0, 0.0;
    var i := 0;
    while i < |t.keys|
      invariant 0 <= i <= |t.keys|
      invariant ClassStat(time, instances) == SumStatsOver(t.keys[..i], t.values)
    {
      var k := t.keys[i];
      assert t.keys[..i + 1][..i] == t.keys[..i];
      time := time + t.values[k].timePerIter;
      instances := instances + t.values[k].instancesPerIter;
      i := i + 1;
    }
    assert t.keys[..i] == t.keys;
  }

  /** The row loop of `statistic`, from the seeded table. */
  method StatRowLoop(m: PatternTable, data: seq<TraceRow>, ghost cls: seq<string>, iterTimes: int, table0: StatTable)
    returns (r: Result<StatTable, Error>)
    requires Valid(m) && table0 == StatSeed(m) && cls == StatClasses(m, data)
    requires Valid(table0) && ClassesKnown(table0, cls)
    ensures r == StatLoop(table0, data, cls, iterTimes)
  {
    var table := table0;
    var i := 0;
    while i < |data|
      invariant 0 <= i <= |data|
      invariant StatLoopState(StatSeed(m), data, cls, i, iterTimes, table)
    {
      var step := StatRowStep(m, data, StatSeed(m), cls, i, iterTimes, table);
      if step.Err? {
        return step;
      }
      table := step.value;
      i := i + 1;
    }
    StatLoopStateDone(table0, data, cls, iterTimes, table);
    r := Ok(table);
  }

  /** `statistic`. */
  method Statistic(c: StatisticClassifier, kernels: seq<TraceRow>, iterTimes: int, withHeader: bool)
    returns (r: Result<(StatTable, real, real), Error>)
    requires Valid(c.nameToClassMap)
    ensures r == ClassStatistics(c, kernels, iterTimes, withHeader)
  {
    var m := c.nameToClassMap;
    var table := SeedCategories(InitialStats(), m, ZeroStat);
    if withHeader && |kernels| == 0 {
      return Err(MissingHeader);
    }
    var data := Analysis.DataRows(kernels, withHeader);
    StatSeedFacts(m);
    StatClassesSeeded(m, data);
    var loop := StatRowLoop(m, data, StatClasses(m, data), iterTimes, table);
    if loop.Err? {
      return Err(loop.error);
    }
    var time, instances := TableTotals(loop.value);
    r := Ok((loop.value, time, instances));
  }

  // ---------------------------------------------------------------------
  // Properties of the table and the totals

  /** The sum only reads the buckets of the listed keys. */
  lemma {:induction false} SumStatsFrame(ks: seq<string>, v1: map<string, ClassStat>, v2: map<string, ClassStat>)
    requires forall i :: 0 <= i < |ks| ==> (ks[i] in v1 <==> ks[i] in v2)
    requires forall i :: 0 <= i < |ks| && ks[i] in v1 ==> v1[ks[i]] == v2[ks[i]]
    ensures SumStatsOver(ks, v1) == SumStatsOver(ks, v2)
    decreases |ks|
  {
    if ks != [] {
      SumStatsFrame(ks[..|ks| - 1], v1, v2);
    }
  }

  /** Adding `d` to the bucket of a key listed once adds `d` to the sum. */
  lemma {:induction false} SumStatsUpdate(ks: seq<string>, vals: map<string, ClassStat>, k: string, d: ClassStat)
    requires NoDuplicates(ks) && k in ks && k in vals
    ensures SumStatsOver(ks, vals[k := AddStat(vals[k], d)]) == AddStat(SumStatsOver(ks, vals), d)
    decreases |ks|
  {
    var vals' := vals[k := AddStat(vals[k], d)];
    var p, last := ks[..|ks| - 1], ks[|ks| - 1];
    if last == k {
      assert forall j :: 0 <= j < |p| ==> p[j] != k;
      SumStatsFrame(p, vals, vals');
    } else {
      assert k in p by { var i := IndexOf(ks, k); assert p[i] == k; }
      assert NoDuplicates(p);
      SumStatsUpdate(p, vals, k, d);
    }
  }

  /** A table of zero buckets sums to zero. */
  lemma {:induction false} SumStatsZero(ks: seq<string>, vals: map<string, ClassStat>)
    requires forall k :: k in vals ==> vals[k] == ZeroStat
    ensures SumStatsOver(ks, vals) == ZeroStat
    decreases |ks|
  {
    if ks != [] {
      SumStatsZero(ks[..|ks| - 1], vals);
    }
  }

  /** One bucket update adds its contribution to the table sum. */
  lemma SumStatsPut(t: StatTable, k: string, d: ClassStat, a: ClassStat, b: ClassStat)
    requires Valid(t) && k in t.values && SumStats(t) == AddStat(a, b)
    ensures SumStats(Put(t, k, AddStat(t.values[k], d))) == AddStat(a, AddStat(b, d))
  {
    SumStatsUpdate(t.keys, t.values, k, d);
  }

  /** Each bucket ends as its seed plus the contributions of the rows of its class. */
  lemma {:induction false} StatTableGet(seed: StatTable, rows: seq<TraceRow>, cls: seq<string>, iterTimes: int, c: string)
    requires |cls| == |rows| && AllContribute(rows, iterTimes) && Valid(seed) && ClassesKnown(seed, cls)
    requires c in seed.values
    ensures StatTableOf(seed, rows, cls, iterTimes).values[c] == AddStat(seed.values[c], StatSum(rows, cls, c, iterTimes))
    decreases |rows|
  {
    if rows != [] {
      var n := |rows| - 1;
      AllContributePrefix(rows, iterTimes, n);
      ClassesKnownPrefix(seed, cls, n);
      StatTableGet(seed, rows[..n], cls[..n], iterTimes, c);
      var p := StatTableOf(seed, rows[..n], cls[..n], iterTimes);
      var d := RowContribution(rows[n], iterTimes).value;
      assert StatTableOf(seed, rows, cls, iterTimes) == Put(p, cls[n], AddStat(p.values[cls[n]], d));
      var q := StatSum(rows[..n], cls[..n], c, iterTimes);
      assert StatSum(rows, cls, c, iterTimes) == if cls[n] == c then AddStat(q, d) else q;
      StatPutGet(p, cls[n], c, d, seed.values[c], q);
    }
  }

  /** A bucket update either adds `d` to the looked-up bucket or leaves it alone. */
  lemma StatPutGet(p: StatTable, k: string, c: string, d: ClassStat, base: ClassStat, q: ClassStat)
    requires k in p.values && c in p.values && p.values[c] == AddStat(base, q)
    ensures Put(p, k, AddStat(p.values[k], d)).values[c] == AddStat(base, if k == c then AddStat(q, d) else q)
  {
  }

  /** The sum of the instance counts of the rows of class `c`. */
  function ClassCount(rows: seq<TraceRow>, cls: seq<string>, c: string): int
    requires |cls| == |rows|
  {
    if rows == [] then 0
    else
      var n := |rows| - 1;
      ClassCount(rows[..n], cls[..n], c) + if cls[n] == c then rows[n].count else 0
  }

  /** Real division distributes over a sum. */
  lemma DivAdd(a: real, b: real, d: real)
    requires d != 0.0
    ensures a / d + b / d == (a + b) / d
  {
  }

  /**
   * A bucket's instance field is its class's total instance count over the
   * iteration count, by real division: it is not rounded down.
   */
  lemma {:induction false} StatSumInstances(rows: seq<TraceRow>, cls: seq<string>, c: string, iterTimes: int)
    requires |cls| == |rows| && AllContribute(rows, iterTimes) && iterTimes != 0
    ensures StatSum(rows, cls, c, iterTimes).instancesPerIter == ClassCount(rows, cls, c) as real / iterTimes as real
    decreases |rows|
  {
    if rows != [] {
      var n := |rows| - 1;
      AllContributePrefix(rows, iterTimes, n);
      StatSumInstances(rows[..n], cls[..n], c, iterTimes);
      var a := ClassCount(rows[..n], cls[..n], c) as real;
      var q := StatSum(rows[..n], cls[..n], c, iterTimes);
      assert RowContribution(rows[n], iterTimes).Ok?;
      if cls[n] == c {
        var d := RowContribution(rows[n], iterTimes).value;
        assert d.instancesPerIter == rows[n].count as real / iterTimes as real;
        assert StatSum(rows, cls, c, iterTimes) == AddStat(q, d);
        assert ClassCount(rows, cls, c) as real == a + rows[n].count as real;
        DivAdd(a, rows[n].count as real, iterTimes as real);
      } else {
        assert StatSum(rows, cls, c, iterTimes) == q;
        assert ClassCount(rows, cls, c) as real == a;
      }
    }
  }

  /** The table sum grows by the contributions of all rows. */
  lemma {:induction false} StatTableSum(seed: StatTable, rows: seq<TraceRow>, cls: seq<string>, iterTimes: int)
    requires |cls| == |rows| && AllContribute(rows, iterTimes) && Valid(seed) && ClassesKnown(seed, cls)
    ensures SumStats(StatTableOf(seed, rows, cls, iterTimes)) == AddStat(SumStats(seed), RowStatSum(rows, iterTimes))
    decreases |rows|
  {
    if rows != [] {
      var n := |rows| - 1;
      AllContributePrefix(rows, iterTimes, n);
      ClassesKnownPrefix(seed, cls, n);
      StatTableSum(seed, rows[..n], cls[..n], iterTimes);
      var p := StatTableOf(seed, rows[..n], cls[..n], iterTimes);
      var d := RowContribution(rows[n], iterTimes).value;
      assert StatTableOf(seed, rows, cls, iterTimes) == Put(p, cls[n], AddStat(p.values[cls[n]], d));
      assert RowStatSum(rows, iterTimes) == AddStat(RowStatSum(rows[..n], iterTimes), d);
      SumStatsPut(p, cls[n], d, SumStats(seed), RowStatSum(rows[..n], iterTimes));
    }
  }

  /**
   * `statistic` fails exactly when a header is announced over no rows, or
   * some data row has a zero instance count, or there are data rows and the
   * iteration count is zero.
   */
  lemma StatisticOutcome(c: StatisticClassifier, kernels: seq<TraceRow>, iterTimes: int, withHeader: bool)
    requires Valid(c.nameToClassMap)
    ensures var r := ClassStatistics(c, kernels, iterTimes, withHeader);
      r == Err(MissingHeader) <==> withHeader && kernels == []
    ensures var r := ClassStatistics(c, kernels, iterTimes, withHeader);
      var data := Analysis.DataRows(kernels, withHeader);
      r.Ok? <==> (!(withHeader && kernels == []) &&
        (data == [] || (iterTimes != 0 && forall j :: 0 <= j < |data| ==> data[j].count != 0)))
  {
    var m := c.nameToClassMap;
    var data := Analysis.DataRows(kernels, withHeader);
    AllContributeIff(data, iterTimes);
    if !(withHeader && kernels == []) {
      StatSeedFacts(m);
      StatClassesSeeded(m, data);
      var f := FirstFailureFrom(data, iterTimes, 0);
      if f.Some? {
        assert RowContribution(data[f.value], iterTimes).error != MissingHeader;
      }
    }
  }

  /**
   * The error is the one the first failing data row raises: a zero count
   * before a zero iteration count.
   */
  lemma StatisticFailure(c: StatisticClassifier, kernels: seq<TraceRow>, iterTimes: int, withHeader: bool, i: nat)
    requires Valid(c.nameToClassMap) && !(withHeader && kernels == [])
    requires var data := Analysis.DataRows(kernels, withHeader);
      i < |data| && (data[i].count == 0 || iterTimes == 0) &&
      forall j :: 0 <= j < i ==> data[j].count != 0 && iterTimes != 0
    ensures var data := Analysis.DataRows(kernels, withHeader);
      ClassStatistics(c, kernels, iterTimes, withHeader) ==
        Err(if data[i].count == 0 then ZeroInstanceCount(data[i].name) else ZeroDivisor)
  {
    var m := c.nameToClassMap;
    var data := Analysis.DataRows(kernels, withHeader);
    StatSeedFacts(m);
    StatClassesSeeded(m, data);
    var p := data[..i];
    assert forall j :: 0 <= j < i ==> p[j] == data[j];
    StatLoopFail(StatSeed(m), data, StatClasses(m, data), i, iterTimes);
  }

  /** A successful result is the filled table of all data rows and its sum. */
  lemma StatisticOk(c: StatisticClassifier, kernels: seq<TraceRow>, iterTimes: int, withHeader: bool)
    requires Valid(c.nameToClassMap)
    ensures var m := c.nameToClassMap;
      var data := Analysis.DataRows(kernels, withHeader);
      Valid(StatSeed(m)) && AllZeroStats(StatSeed(m)) && ClassesKnown(StatSeed(m), StatClasses(m, data))
    ensures var r := ClassStatistics(c, kernels, iterTimes, withHeader);
      var m := c.nameToClassMap;
      var data := Analysis.DataRows(kernels, withHeader);
      r.Ok? ==> (AllContribute(data, iterTimes) &&
        r.value.0 == StatTableOf(StatSeed(m), data, StatClasses(m, data), iterTimes) &&
        ClassStat(r.value.1, r.value.2) == SumStats(r.value.0))
  {
    var m := c.nameToClassMap;
    var data := Analysis.DataRows(kernels, withHeader);
    StatSeedFacts(m);
    StatClassesSeeded(m, data);
  }

  /** On success the table holds exactly "others" and every category. */
  lemma StatisticKeys(c: StatisticClassifier, kernels: seq<TraceRow>, iterTimes: int, withHeader: bool)
    requires Valid(c.nameToClassMap)
    ensures var r := ClassStatistics(c, kernels, iterTimes, withHeader);
      r.Ok? ==> (Valid(r.value.0) &&
        forall k :: k in r.value.0.values <==>
          k == OtherClass || exists i :: 0 <= i < |c.nameToClassMap.keys| && c.nameToClassMap.values[c.nameToClassMap.keys[i]] == k)
  {
    StatisticOk(c, kernels, iterTimes, withHeader);
    StatSeedFacts(c.nameToClassMap);
  }

  /** On success each bucket is the sum of the contributions of the data rows of its class. */
  lemma StatisticBuckets(c: StatisticClassifier, kernels: seq<TraceRow>, iterTimes: int, withHeader: bool)
    requires Valid(c.nameToClassMap)
    ensures var r := ClassStatistics(c, kernels, iterTimes, withHeader);
      var data := Analysis.DataRows(kernels, withHeader);
      r.Ok? ==> (AllContribute(data, iterTimes) &&
        forall k :: k in r.value.0.values ==>
          r.value.0.values[k] == StatSum(data, StatClasses(c.nameToClassMap, data), k, iterTimes))
  {
    var r := ClassStatistics(c, kernels, iterTimes, withHeader);
    StatisticOk(c, kernels, iterTimes, withHeader);
    if r.Ok? {
      var m := c.nameToClassMap;
      var data := Analysis.DataRows(kernels, withHeader);
      var seed, cls := StatSeed(m), StatClasses(m, data);
      forall k | k in r.value.0.values
        ensures r.value.0.values[k] == StatSum(data, cls, k, iterTimes)
      {
        StatTableGet(seed, data, cls, iterTimes, k);
      }
    }
  }

  /**
   * On success the totals, summed over every bucket "others" included, are
   * the sums over all data rows.
   */
  lemma StatisticTotals(c: StatisticClassifier, kernels: seq<TraceRow>, iterTimes: int, withHeader: bool)
    requires Valid(c.nameToClassMap)
    ensures var r := ClassStatistics(c, kernels, iterTimes, withHeader);
      var data := Analysis.DataRows(kernels, withHeader);
      r.Ok? ==> AllContribute(data, iterTimes) && ClassStat(r.value.1, r.value.2) == RowStatSum(data, iterTimes)
  {
    var r := ClassStatistics(c, kernels, iterTimes, withHeader);
    StatisticOk(c, kernels, iterTimes, withHeader);
    if r.Ok? {
      var m := c.nameToClassMap;
      var data := Analysis.DataRows(kernels, withHeader);
      var seed := StatSeed(m);
      StatTableSum(seed, data, StatClasses(m, data), iterTimes);
      SumStatsZero(seed.keys, seed.values);
    }
  }

  /** With a header, the result is that of the rows after it read without one. */
  lemma StatisticHeader(c: StatisticClassifier, kernels: seq<TraceRow>, iterTimes: int)
    requires Valid(c.nameToClassMap) && kernels != []
    ensures ClassStatistics(c, kernels, iterTimes, true) == ClassStatistics(c, kernels[1..], iterTimes, false)
  {
  }

  /** With no data rows the result is the zero-seeded table and zero totals. */
  lemma StatisticNoData(c: StatisticClassifier, kernels: seq<TraceRow>, iterTimes: int, withHeader: bool)
    requires Valid(c.nameToClassMap) && !(withHeader && kernels == [])
    requires Analysis.DataRows(kernels, withHeader) == []
    ensures ClassStatistics(c, kernels, iterTimes, withHeader) == Ok((StatSeed(c.nameToClassMap), 0.0, 0.0))
  {
    var m := c.nameToClassMap;
    StatSeedFacts(m);
    SumStatsZero(StatSeed(m).keys, StatSeed(m).values);
  }
}
