/**
 * The `Analyzer` of analyzer/analysis.py: it classifies CUDA kernels into
 * user categories by substring patterns, accumulates per-category time and
 * instance buckets (with a separate `nccl` category and an nccl
 * sub-table), counts and times the NVTX iteration ranges, and groups
 * memory operations by name.
 */
module Analysis {
  import opened Wrappers
  import opened Errors
  import opened Text
  import opened OrderedMaps
  import opened Buckets
  import opened PatternMap

  /** The category every name containing "nccl" falls into. */
  const NcclClass: string := "nccl"

  /** The analyzer keeps only the lowered, conflict-checked pattern table. */
  datatype Analyzer = Analyzer(kernelToClassMap: PatternTable)

  /**
   * One row of the kernel or memory-operation summary, already parsed: the
   * name column, the total-time column and the instance-count column.
   */
  datatype TraceRow = TraceRow(name: string, time: real, count: int)

  /** One row of the NVTX projection summary: the range tag and its projected duration. */
  datatype RangeRow = RangeRow(tag: string, duration: real)

  /** The `Report` record; a dictionary field that was never filled is `None`. */
  datatype Report = Report(
    kernelStatisticTable: Option<Table>,
    kernelTotalTimePerIter: real,
    kernelTotalInstancesPerIter: int,
    kernelTotalTime: real,
    kernelTotalInstances: int,
    ncclTotalTimePerIter: real,
    ncclTotalKernelsPerIter: int,
    ncclTotalTime: real,
    ncclTotalKernels: int,
    ncclStatisticTable: Option<Table>,
    nvtxAvgRangeTime: real,
    nvtxTotalRangeTime: real,
    nvtxRangeCount: int,
    memStatisticTable: Option<Table>)

  /** A report with every field at its default. */
  const EmptyReport := Report(None, 0.0, 0, 0.0, 0, 0.0, 0, 0.0, 0, None, 0.0, 0.0, 0, None)

  // ---------------------------------------------------------------------
  // Construction and classification

  /** `Analyzer(kernel2class_map)`. */
  method NewAnalyzer(user: OrderedMap<string, string>) returns (r: Result<Analyzer, Error>)
    requires Valid(user)
    ensures r.Ok? <==> Build(user).Ok?
    ensures r.Ok? ==> r.value.kernelToClassMap == Build(user).value && WellFormed(r.value.kernelToClassMap)
    ensures r.Err? ==> r.error == Build(user).error
  {
    var built := NewPatternTable(user);
    BuildCharacterization(user);
    match built
    case Ok(m) => r := Ok(Analyzer(m));
    case Err(e) => r := Err(e);
  }

  /** `_get_class` of a lowercased kernel name. */
  function GetClass(m: PatternTable, name: string): string
    requires Valid(m)
  {
    if Contains(name, NcclClass) then NcclClass else Classify(m, name)
  }

  /**
   * "nccl" in the name wins over every user pattern; otherwise the first
   * contained pattern decides, and a name containing none is "others".
   */
  lemma GetClassDecision(m: PatternTable, name: string)
    requires Valid(m)
    ensures Contains(name, NcclClass) ==> GetClass(m, name) == NcclClass
    ensures forall i :: (0 <= i < |m.keys| && !Contains(name, NcclClass) && Contains(name, m.keys[i])
      && (forall j :: 0 <= j < i ==> !Contains(name, m.keys[j]))) ==> GetClass(m, name) == m.values[m.keys[i]]
    ensures !Contains(name, NcclClass) && (forall j :: 0 <= j < |m.keys| ==> !Contains(name, m.keys[j])) ==>
      GetClass(m, name) == OtherClass
  {
    forall i | 0 <= i < |m.keys| && !Contains(name, NcclClass) && Contains(name, m.keys[i])
      && (forall j :: 0 <= j < i ==> !Contains(name, m.keys[j]))
      ensures GetClass(m, name) == m.values[m.keys[i]]
    {
      ClassifyFirstMatch(m, name, i);
    }
  }

  /** `{"others": [0.0, 0, 0.0, 0], "nccl": [0.0, 0, 0.0, 0]}`. */
  function InitialTable(): Table {
    Put(Put(Empty(), OtherClass, Zero), NcclClass, Zero)
  }

  /** The kernel table after the seeding loop. */
  function SeedTable(m: PatternTable): Table
    requires Valid(m)
  {
    Seed(InitialTable(), m.keys, m.values, Zero)
  }

  /** The seeded table holds "others", "nccl" and every category, all at zero. */
  lemma SeedTableFacts(m: PatternTable)
    requires Valid(m)
    ensures Valid(SeedTable(m)) && AllZero(SeedTable(m))
    ensures forall c :: c in SeedTable(m).values <==>
      c == OtherClass || c == NcclClass || exists i :: 0 <= i < |m.keys| && m.values[m.keys[i]] == c
  {
    var t0 := InitialTable();
    PutValid(Empty<string, Bucket>(), OtherClass, Zero);
    PutValid(Put(Empty<string, Bucket>(), OtherClass, Zero), NcclClass, Zero);
    SeedValid(t0, m.keys, m.values, Zero);
    forall c
      ensures c in SeedTable(m).values <==>
        c == OtherClass || c == NcclClass || exists i :: 0 <= i < |m.keys| && m.values[m.keys[i]] == c
    {
      SeedKeys(t0, m.keys, m.values, Zero, c);
    }
    forall c | c in SeedTable(m).values
      ensures SeedTable(m).values[c] == Zero
    {
      SeedValues(t0, m.keys, m.values, Zero, c);
    }
  }

  /** Every classification result is a seeded key, so the bucket update never misses. */
  lemma GetClassSeeded(m: PatternTable, name: string)
    requires Valid(m)
    ensures GetClass(m, name) in SeedTable(m).values
  {
    SeedTableFacts(m);
    ClassifySeeded(InitialTable(), m, Zero, name);
  }

  // ---------------------------------------------------------------------
  // Rows and their classes

  /** Where the data rows start: row 0 is the header when there is one. */
  function FirstDataRow(withHeader: bool, n: nat): nat {
    if withHeader && n > 0 then 1 else 0
  }

  /** The rows after the header, visited by `for i in range(start_idx, len(rows))`. */
  function DataRows<T>(rows: seq<T>, withHeader: bool): seq<T> {
    rows[FirstDataRow(withHeader, |rows|)..]
  }

  /** `_get_class(kernel_name.lower())` of every row. */
  function RowClasses(m: PatternTable, rows: seq<TraceRow>): (cls: seq<string>)
    requires Valid(m)
    ensures |cls| == |rows|
  {
    if rows == [] then []
    else RowClasses(m, rows[..|rows| - 1]) + [GetClass(m, Lower(rows[|rows| - 1].name))]
  }

  lemma {:induction false} RowClassesAt(m: PatternTable, rows: seq<TraceRow>)
    requires Valid(m)
    ensures forall j :: 0 <= j < |rows| ==> RowClasses(m, rows)[j] == GetClass(m, Lower(rows[j].name))
    decreases |rows|
  {
    if rows != [] {
      RowClassesAt(m, rows[..|rows| - 1]);
    }
  }

  /** The class of row `i`. */
  lemma RowClassAt(m: PatternTable, rows: seq<TraceRow>, i: nat)
    requires Valid(m) && i < |rows|
    ensures RowClasses(m, rows)[i] == GetClass(m, Lower(rows[i].name))
  {
    RowClassesAt(m, rows);
  }

  /** Every class in `cls` is a key of `seed`. */
  predicate ClassesIn(seed: Table, cls: seq<string>) {
    forall j :: 0 <= j < |cls| ==> cls[j] in seed.values
  }

  /** Every row class is a key of the seeded table. */
  lemma RowClassesSeeded(m: PatternTable, rows: seq<TraceRow>)
    requires Valid(m)
    ensures ClassesIn(SeedTable(m), RowClasses(m, rows))
  {
    RowClassesAt(m, rows);
    forall j | 0 <= j < |rows|
      ensures RowClasses(m, rows)[j] in SeedTable(m).values
    {
      GetClassSeeded(m, Lower(rows[j].name));
    }
  }

  // ---------------------------------------------------------------------
  // Contributions of classified rows

  /** The class bucket entries of the rows, in row order. */
  function KernelEntries(rows: seq<TraceRow>, cls: seq<string>, divisor: int, scale: real): (es: seq<Entry>)
    requires |cls| == |rows| && (rows == [] || divisor != 0)
    ensures |es| == |rows|
  {
    if rows == [] then []
    else
      var n := |rows| - 1;
      KernelEntries(rows[..n], cls[..n], divisor, scale) + [(cls[n], Contribution(rows[n].time, rows[n].count, divisor, scale))]
  }

  /** An nccl row whose raw name has no second "_"-separated piece. */
  predicate Unsplittable(c: string, row: TraceRow) {
    c == NcclClass && |Split(row.name, '_')| < 2
  }

  /** The first unsplittable nccl row at or after `j`. */
  function FirstUnsplittableFrom(rows: seq<TraceRow>, cls: seq<string>, j: nat): (r: Option<nat>)
    requires |cls| == |rows| && j <= |rows|
    ensures r.Some? ==> j <= r.value < |rows| && Unsplittable(cls[r.value], rows[r.value])
    ensures r.Some? ==> forall i :: j <= i < r.value ==> !Unsplittable(cls[i], rows[i])
    ensures r.None? <==> forall i :: j <= i < |rows| ==> !Unsplittable(cls[i], rows[i])
    decreases |rows| - j
  {
    if j == |rows| then None
    else if Unsplittable(cls[j], rows[j]) then Some(j)
    else FirstUnsplittableFrom(rows, cls, j + 1)
  }

  /** The sub-table key of an nccl kernel: `kernel_name.split("_")[1]` of the raw name. */
  function NcclKey(name: string): string
    requires |Split(name, '_')| >= 2
  {
    Split(name, '_')[1]
  }

  /** No classified row is an unsplittable nccl row. */
  predicate AllSplittable(rows: seq<TraceRow>, cls: seq<string>)
    requires |cls| == |rows|
  {
    forall j :: 0 <= j < |rows| ==> !Unsplittable(cls[j], rows[j])
  }

  /** The sub-table entries of the nccl rows, in row order. */
  function NcclEntries(rows: seq<TraceRow>, cls: seq<string>, divisor: int, scale: real): seq<Entry>
    requires |cls| == |rows| && (rows == [] || divisor != 0) && AllSplittable(rows, cls)
  {
    if rows == [] then []
    else
      var n := |rows| - 1;
      assert !Unsplittable(cls[n], rows[n]);
      var p := NcclEntries(rows[..n], cls[..n], divisor, scale);
      if cls[n] == NcclClass then p + [(NcclKey(rows[n].name), Contribution(rows[n].time, rows[n].count, divisor, scale))]
      else p
  }

  /** `row` is an nccl row whose sub-table key is `k`. */
  predicate NcclRowWithKey(c: string, row: TraceRow, k: string) {
    c == NcclClass && |Split(row.name, '_')| >= 2 && Split(row.name, '_')[1] == k
  }

  /** The sum of the contributions of the nccl rows whose sub-table key is `k`. */
  function NcclSum(rows: seq<TraceRow>, cls: seq<string>, k: string, divisor: int, scale: real): Bucket
    requires |cls| == |rows| && (rows == [] || divisor != 0)
  {
    if rows == [] then Zero
    else
      var n := |rows| - 1;
      var p := NcclSum(rows[..n], cls[..n], k, divisor, scale);
      if NcclRowWithKey(cls[n], rows[n], k) then Add(p, Contribution(rows[n].time, rows[n].count, divisor, scale)) else p
  }

  /** The sum of all rows' contributions. */
  function RowSum(rows: seq<TraceRow>, divisor: int, scale: real): Bucket
    requires rows == [] || divisor != 0
  {
    if rows == [] then Zero
    else
      var n := |rows| - 1;
      Add(RowSum(rows[..n], divisor, scale), Contribution(rows[n].time, rows[n].count, divisor, scale))
  }

  /** The sum of the contributions of the rows of class `c`. */
  function ClassSum(rows: seq<TraceRow>, cls: seq<string>, c: string, divisor: int, scale: real): Bucket
    requires |cls| == |rows| && (rows == [] || divisor != 0)
  {
    if rows == [] then Zero
    else
      var n := |rows| - 1;
      var p := ClassSum(rows[..n], cls[..n], c, divisor, scale);
      if cls[n] == c then Add(p, Contribution(rows[n].time, rows[n].count, divisor, scale)) else p
  }

  /** One more row of entries. */
  lemma KernelEntriesSnoc(rows: seq<TraceRow>, cls: seq<string>, i: nat, divisor: int, scale: real)
    requires |cls| == |rows| && i < |rows| && divisor != 0
    ensures KernelEntries(rows[..i + 1], cls[..i + 1], divisor, scale) ==
      KernelEntries(rows[..i], cls[..i], divisor, scale) + [(cls[i], Contribution(rows[i].time, rows[i].count, divisor, scale))]
  {
    assert rows[..i + 1][..i] == rows[..i];
    assert cls[..i + 1][..i] == cls[..i];
  }

  lemma {:induction false} KernelEntriesAt(rows: seq<TraceRow>, cls: seq<string>, divisor: int, scale: real)
    requires |cls| == |rows| && divisor != 0
    ensures |KernelEntries(rows, cls, divisor, scale)| == |rows|
    ensures forall j :: 0 <= j < |rows| ==> KernelEntries(rows, cls, divisor, scale)[j] == (cls[j], Contribution(rows[j].time, rows[j].count, divisor, scale))
    decreases |rows|
  {
    if rows != [] {
      var n := |rows| - 1;
      KernelEntriesAt(rows[..n], cls[..n], divisor, scale);
    }
  }

  // ---------------------------------------------------------------------
  // `statistic_kernels`

  /** The class table after the row loop, before the pop. */
  function KernelTable(seed: Table, rows: seq<TraceRow>, cls: seq<string>, divisor: int, scale: real): Table
    requires |cls| == |rows| && (rows == [] || divisor != 0)
  {
    Fold(seed, KernelEntries(rows, cls, divisor, scale))
  }

  /** Rows whose classes are all seeded keep the table's keys and their order. */
  lemma KernelTableShape(seed: Table, rows: seq<TraceRow>, cls: seq<string>, divisor: int, scale: real)
    requires |cls| == |rows| && (rows == [] || divisor != 0)
    requires Valid(seed) && ClassesIn(seed, cls)
    ensures Valid(KernelTable(seed, rows, cls, divisor, scale))
    ensures KernelTable(seed, rows, cls, divisor, scale).keys == seed.keys
    ensures KernelTable(seed, rows, cls, divisor, scale).values.Keys == seed.values.Keys
  {
    var es := KernelEntries(rows, cls, divisor, scale);
    FoldValid(seed, es);
    if rows != [] {
      KernelEntriesAt(rows, cls, divisor, scale);
    }
    FoldKeysStable(seed, es);
  }

  /** One row of the loop: the in-place `+=` on the row's pre-seeded class bucket. */
  lemma KernelStep(seed: Table, rows: seq<TraceRow>, cls: seq<string>, i: nat, divisor: int, scale: real)
    requires |cls| == |rows| && i < |rows| && divisor != 0
    requires Valid(seed) && ClassesIn(seed, cls)
    ensures cls[i] in KernelTable(seed, rows[..i], cls[..i], divisor, scale).values
    ensures KernelTable(seed, rows[..i + 1], cls[..i + 1], divisor, scale) ==
      var t := KernelTable(seed, rows[..i], cls[..i], divisor, scale);
      Put(t, cls[i], Add(t.values[cls[i]], Contribution(rows[i].time, rows[i].count, divisor, scale)))
  {
    KernelTableShape(seed, rows[..i], cls[..i], divisor, scale);
    KernelEntriesSnoc(rows, cls, i, divisor, scale);
    FoldStepPresent(seed, KernelEntries(rows[..i], cls[..i], divisor, scale),
      (cls[i], Contribution(rows[i].time, rows[i].count, divisor, scale)));
  }

  /** The splittable prefix grows by a splittable row. */
  lemma AllSplittableSnoc(rows: seq<TraceRow>, cls: seq<string>, i: nat)
    requires |cls| == |rows| && i < |rows|
    requires AllSplittable(rows[..i], cls[..i]) && !Unsplittable(cls[i], rows[i])
    ensures AllSplittable(rows[..i + 1], cls[..i + 1])
  {
    var r0, c0, r1, c1 := rows[..i], cls[..i], rows[..i + 1], cls[..i + 1];
    forall j | 0 <= j < i + 1
      ensures !Unsplittable(c1[j], r1[j])
    {
      if j < i {
        assert r0[j] == r1[j] && c0[j] == c1[j];
      }
    }
  }

  /** One row of the loop for the nccl sub-table. */
  lemma NcclStep(rows: seq<TraceRow>, cls: seq<string>, i: nat, divisor: int, scale: real)
    requires |cls| == |rows| && i < |rows| && divisor != 0
    requires AllSplittable(rows[..i], cls[..i]) && !Unsplittable(cls[i], rows[i])
    ensures AllSplittable(rows[..i + 1], cls[..i + 1])
    ensures Fold(Empty(), NcclEntries(rows[..i + 1], cls[..i + 1], divisor, scale)) ==
      var t := Fold(Empty(), NcclEntries(rows[..i], cls[..i], divisor, scale));
      if cls[i] == NcclClass then Accumulate(t, NcclKey(rows[i].name), Contribution(rows[i].time, rows[i].count, divisor, scale)) else t
  {
    AllSplittableSnoc(rows, cls, i);
    var r1, c1 := rows[..i + 1], cls[..i + 1];
    assert r1[..i] == rows[..i] && c1[..i] == cls[..i];
    assert r1[i] == rows[i] && c1[i] == cls[i];
    var p := NcclEntries(rows[..i], cls[..i], divisor, scale);
    if cls[i] == NcclClass {
      FoldAppend(Empty(), p, (NcclKey(rows[i].name), Contribution(rows[i].time, rows[i].count, divisor, scale)));
    }
  }

  /** The first unsplittable row after splittable ones is the one reported. */
  lemma FirstUnsplittableAt(rows: seq<TraceRow>, cls: seq<string>, i: nat)
    requires |cls| == |rows| && i < |rows|
    requires AllSplittable(rows[..i], cls[..i]) && Unsplittable(cls[i], rows[i])
    ensures FirstUnsplittableFrom(rows, cls, 0) == Some(i)
  {
    assert forall j :: 0 <= j < i ==> rows[..i][j] == rows[j] && cls[..i][j] == cls[j];
  }

  /** The report fields `statistic_kernels` fills. */
  function KernelReport(rest: Table, totals: Bucket, nccl: Bucket, ncclTable: Table): Report {
    EmptyReport.(
      kernelStatisticTable := Some(rest),
      kernelTotalTimePerIter := totals.timePerIter,
      kernelTotalInstancesPerIter := totals.instancesPerIter,
      kernelTotalTime := totals.totalTime,
      kernelTotalInstances := totals.totalInstances,
      ncclTotalTimePerIter := nccl.timePerIter,
      ncclTotalKernelsPerIter := nccl.instancesPerIter,
      ncclTotalTime := nccl.totalTime,
      ncclTotalKernels := nccl.totalInstances,
      ncclStatisticTable := Some(ncclTable))
  }

  /** The four kernel grand totals of a report as a bucket. */
  function KernelTotals(r: Report): Bucket {
    Bucket(r.kernelTotalTimePerIter, r.kernelTotalInstancesPerIter, r.kernelTotalTime, r.kernelTotalInstances)
  }

  /** The four popped nccl totals of a report as a bucket. */
  function NcclTotals(r: Report): Bucket {
    Bucket(r.ncclTotalTimePerIter, r.ncclTotalKernelsPerIter, r.ncclTotalTime, r.ncclTotalKernels)
  }

  /**
   * The row loop of `statistic_kernels` over classified data rows, starting
   * from the seeded table `seed`: the class table and the nccl sub-table,
   * or the exception that ends the loop.
   */
  function RowLoop(seed: Table, data: seq<TraceRow>, cls: seq<string>, divisor: int, scale: real): Result<(Table, Table), Error>
    requires |cls| == |data|
  {
    if data != [] && divisor == 0 then Err(ZeroDivisor)
    else
      match FirstUnsplittableFrom(data, cls, 0)
      case Some(i) => Err(NcclNameWithoutUnderscore(data[i].name))
      case None => Ok((KernelTable(seed, data, cls, divisor, scale), Fold(Empty(), NcclEntries(data, cls, divisor, scale))))
  }

  /** The loop raises `ZeroDivisionError` at its first row when `iters * gpus` is zero. */
  lemma RowLoopZero(seed: Table, data: seq<TraceRow>, cls: seq<string>, divisor: int, scale: real)
    requires |cls| == |data| && data != [] && divisor == 0
    ensures RowLoop(seed, data, cls, divisor, scale) == Err(ZeroDivisor)
  {
  }

  /** The loop raises `IndexError` at the first unsplittable nccl row. */
  lemma RowLoopFail(seed: Table, data: seq<TraceRow>, cls: seq<string>, i: nat, divisor: int, scale: real)
    requires |cls| == |data| && i < |data| && divisor != 0
    requires AllSplittable(data[..i], cls[..i]) && Unsplittable(cls[i], data[i])
    ensures RowLoop(seed, data, cls, divisor, scale) == Err(NcclNameWithoutUnderscore(data[i].name))
  {
    FirstUnsplittableAt(data, cls, i);
  }

  /** A loop over splittable rows returns both tables. */
  lemma RowLoopDone(seed: Table, data: seq<TraceRow>, cls: seq<string>, divisor: int, scale: real)
    requires |cls| == |data| && (data == [] || divisor != 0)
    requires AllSplittable(data, cls)
    ensures RowLoop(seed, data, cls, divisor, scale) ==
      Ok((KernelTable(seed, data, cls, divisor, scale), Fold(Empty(), NcclEntries(data, cls, divisor, scale))))
  {
  }

  /** A loop that completes keeps the seeded keys, "nccl" among them. */
  lemma RowLoopShape(seed: Table, data: seq<TraceRow>, cls: seq<string>, divisor: int, scale: real)
    requires |cls| == |data| && Valid(seed) && ClassesIn(seed, cls)
    ensures RowLoop(seed, data, cls, divisor, scale).Ok? ==>
      var table := RowLoop(seed, data, cls, divisor, scale).value.0;
      Valid(table) && table.keys == seed.keys && table.values.Keys == seed.values.Keys
  {
    if RowLoop(seed, data, cls, divisor, scale).Ok? {
      KernelTableShape(seed, data, cls, divisor, scale);
    }
  }

  /** The loop's result followed by the pop of the nccl bucket and the grand totals. */
  function Aggregate(seed: Table, data: seq<TraceRow>, cls: seq<string>, divisor: int, scale: real): Result<Report, Error>
    requires |cls| == |data|
    requires Valid(seed) && NcclClass in seed.values && ClassesIn(seed, cls)
  {
    RowLoopShape(seed, data, cls, divisor, scale);
    match RowLoop(seed, data, cls, divisor, scale)
    case Err(e) => Err(e)
    case Ok((table, ncclTable)) =>
      var rest := Remove(table, NcclClass);
      Ok(KernelReport(rest, SumTable(rest), table.values[NcclClass], ncclTable))
  }

  /**
   * What `statistic_kernels` returns or raises for the pattern table `m`;
   * `iters * gpus` is the divisor of the per-iteration fields and `scale`
   * converts the time unit.
   */
  function KernelStatistics(m: PatternTable, rows: seq<TraceRow>, iters: int, gpus: int, withHeader: bool, scale: real): Result<Report, Error>
    requires Valid(m)
  {
    var data := DataRows(rows, withHeader);
    SeedTableFacts(m);
    RowClassesSeeded(m, data);
    Aggregate(SeedTable(m), data, RowClasses(m, data), iters * gpus, scale)
  }

  /** The totals loop: the field-wise sum of the buckets, skipping a "nccl" key (there is none after the pop). */
  method TableTotals(t: Table) returns (total: Bucket)
    requires Valid(t) && NcclClass !in t.values
    ensures total == SumTable(t)
  {
    total := Zero;
    var i := 0;
    while i < |t.keys|
      invariant 0 <= i <= |t.keys|
      invariant total == SumOver(t.keys[..i], t.values)
    {
      SumOverSnoc(t.keys, t.values, i);
      var key := t.keys[i];
      if key != NcclClass {
        total := Add(total, t.values[key]);
      }
      i := i + 1;
    }
    assert t.keys[..i] == t.keys;
  }

  /** `_get_class(kernel_name.lower())` for row `i`. */
  method RowClass(m: PatternTable, rows: seq<TraceRow>, i: nat) returns (c: string)
    requires Valid(m) && i < |rows|
    ensures c == RowClasses(m, rows)[i]
  {
    c := GetClass(m, Lower(rows[i].name));
    RowClassAt(m, rows, i);
  }

  /** The state of the row loop after the first `i` data rows. */
  predicate LoopState(seed: Table, data: seq<TraceRow>, cls: seq<string>, i: nat, d: int, scale: real, table: Table, ncclTable: Table)
    requires |cls| == |data| && i <= |data| && (i == 0 || d != 0)
  {
    && AllSplittable(data[..i], cls[..i])
    && table == KernelTable(seed, data[..i], cls[..i], d, scale)
    && ncclTable == Fold(Empty(), NcclEntries(data[..i], cls[..i], d, scale))
  }

  /** The state after the last row is the loop's result. */
  lemma LoopStateDone(seed: Table, data: seq<TraceRow>, cls: seq<string>, d: int, scale: real, table: Table, ncclTable: Table)
    requires |cls| == |data| && (data == [] || d != 0)
    requires LoopState(seed, data, cls, |data|, d, scale, table, ncclTable)
    ensures RowLoop(seed, data, cls, d, scale) == Ok((table, ncclTable))
  {
    assert data[..|data|] == data && cls[..|cls|] == cls;
    RowLoopDone(seed, data, cls, d, scale);
  }

  /** One iteration of the row loop: the row's bucket and, for an nccl row, its sub-table entry. */
  method KernelRowStep(m: PatternTable, data: seq<TraceRow>, i: nat, d: int, scale: real, table: Table, ncclTable: Table)
    returns (r: Result<(Table, Table), Error>)
    requires Valid(m) && i < |data| && d != 0
    requires LoopState(SeedTable(m), data, RowClasses(m, data), i, d, scale, table, ncclTable)
    ensures r.Err? ==> r == RowLoop(SeedTable(m), data, RowClasses(m, data), d, scale)
    ensures r.Ok? ==> LoopState(SeedTable(m), data, RowClasses(m, data), i + 1, d, scale, r.value.0, r.value.1)
  {
    ghost var cls := RowClasses(m, data);
    ghost var seed := SeedTable(m);
    SeedTableFacts(m);
    RowClassesSeeded(m, data);
    var row := data[i];
    var c := RowClass(m, data, i);
    var contribution := Contribution(row.time, row.count, d, scale);
    KernelStep(seed, data, cls, i, d, scale);
    var table' := Put(table, c, Add(table.values[c], contribution));
    var ncclTable' := ncclTable;
    if c == NcclClass {
      var parts := Split(row.name, '_');
      if |parts| < 2 {
        RowLoopFail(seed, data, cls, i, d, scale);
        return Err(NcclNameWithoutUnderscore(row.name));
      }
      ncclTable' := Accumulate(ncclTable, parts[1], contribution);
    }
    NcclStep(data, cls, i, d, scale);
    r := Ok((table', ncclTable'));
  }

  /** The row loop of `statistic_kernels`, from the seeded table. */
  method KernelRowLoop(m: PatternTable, data: seq<TraceRow>, d: int, scale: real)
    returns (r: Result<(Table, Table), Error>)
    requires Valid(m)
    ensures r == RowLoop(SeedTable(m), data, RowClasses(m, data), d, scale)
  {
    var table := SeedCategories(InitialTable(), m, Zero);
    var ncclTable: Table := Empty();
    ghost var cls := RowClasses(m, data);
    // The first row's division raises, before any bucket changes.
    if data != [] && d == 0 {
      RowLoopZero(SeedTable(m), data, cls, d, scale);
      return Err(ZeroDivisor);
    }
    var i := 0;
    while i < |data|
      invariant 0 <= i <= |data|
      invariant LoopState(SeedTable(m), data, cls, i, d, scale, table, ncclTable)
    {
      var step := KernelRowStep(m, data, i, d, scale, table, ncclTable);
      if step.Err? {
        return step;
      }
      table, ncclTable := step.value.0, step.value.1;
      i := i + 1;
    }
    LoopStateDone(SeedTable(m), data, cls, d, scale, table, ncclTable);
    r := Ok((table, ncclTable));
  }

  /** `statistic_kernels`. */
  method StatisticKernels(a: Analyzer, kernels: seq<TraceRow>, iters: int, gpus: int, withHeader: bool, scale: real)
    returns (r: Result<Report, Error>)
    requires Valid(a.kernelToClassMap)
    ensures r == KernelStatistics(a.kernelToClassMap, kernels, iters, gpus, withHeader, scale)
  {
    var m := a.kernelToClassMap;
    var data := DataRows(kernels, withHeader);
    SeedTableFacts(m);
    RowClassesSeeded(m, data);
    RowLoopShape(SeedTable(m), data, RowClasses(m, data), iters * gpus, scale);
    var loop := KernelRowLoop(m, data, iters * gpus, scale);
    match loop
    case Err(e) =>
      r := Err(e);
    case Ok((table, ncclTable)) =>
      var nccl := table.values[NcclClass];
      var rest := Remove(table, NcclClass);
      var total := TableTotals(rest);
      r := Ok(KernelReport(rest, total, nccl, ncclTable));
  }

  // ---------------------------------------------------------------------
  // Properties of `statistic_kernels`

  /** The entries of class `c` add up to the class sum. */
  lemma {:induction false} KernelEntriesKeySum(rows: seq<TraceRow>, cls: seq<string>, c: string, divisor: int, scale: real)
    requires |cls| == |rows| && (rows == [] || divisor != 0)
    ensures KeySum(KernelEntries(rows, cls, divisor, scale), c) == ClassSum(rows, cls, c, divisor, scale)
    decreases |rows|
  {
    if rows != [] {
      var n := |rows| - 1;
      KernelEntriesKeySum(rows[..n], cls[..n], c, divisor, scale);
      var es := KernelEntries(rows, cls, divisor, scale);
      assert es[..|es| - 1] == KernelEntries(rows[..n], cls[..n], divisor, scale);
    }
  }

  /** All entries add up to the sum over all rows. */
  lemma {:induction false} KernelEntriesSum(rows: seq<TraceRow>, cls: seq<string>, divisor: int, scale: real)
    requires |cls| == |rows| && (rows == [] || divisor != 0)
    ensures SumEntries(KernelEntries(rows, cls, divisor, scale)) == RowSum(rows, divisor, scale)
    decreases |rows|
  {
    if rows != [] {
      var n := |rows| - 1;
      KernelEntriesSum(rows[..n], cls[..n], divisor, scale);
      var es := KernelEntries(rows, cls, divisor, scale);
      assert es[..|es| - 1] == KernelEntries(rows[..n], cls[..n], divisor, scale);
    }
  }

  /** A prefix of splittable rows is splittable. */
  lemma AllSplittablePrefix(rows: seq<TraceRow>, cls: seq<string>, n: nat)
    requires |cls| == |rows| && n <= |rows| && AllSplittable(rows, cls)
    ensures AllSplittable(rows[..n], cls[..n])
  {
    var r0, c0 := rows[..n], cls[..n];
    forall j | 0 <= j < n
      ensures !Unsplittable(c0[j], r0[j])
    {
      assert r0[j] == rows[j] && c0[j] == cls[j];
    }
  }

  /** The nccl sub-table entries add up to the nccl class sum. */
  lemma {:induction false} NcclEntriesSum(rows: seq<TraceRow>, cls: seq<string>, divisor: int, scale: real)
    requires |cls| == |rows| && (rows == [] || divisor != 0) && AllSplittable(rows, cls)
    ensures SumEntries(NcclEntries(rows, cls, divisor, scale)) == ClassSum(rows, cls, NcclClass, divisor, scale)
    decreases |rows|
  {
    if rows != [] {
      var n := |rows| - 1;
      AllSplittablePrefix(rows, cls, n);
      NcclEntriesSum(rows[..n], cls[..n], divisor, scale);
      var p := NcclEntries(rows[..n], cls[..n], divisor, scale);
      if cls[n] == NcclClass {
        var e := (NcclKey(rows[n].name), Contribution(rows[n].time, rows[n].count, divisor, scale));
        assert (p + [e])[..|p|] == p;
      }
    }
  }

  /** The nccl entries under key `k` add up to the rows with that key. */
  lemma {:induction false} NcclEntriesKeySum(rows: seq<TraceRow>, cls: seq<string>, k: string, divisor: int, scale: real)
    requires |cls| == |rows| && (rows == [] || divisor != 0) && AllSplittable(rows, cls)
    ensures KeySum(NcclEntries(rows, cls, divisor, scale), k) == NcclSum(rows, cls, k, divisor, scale)
    decreases |rows|
  {
    if rows != [] {
      var n := |rows| - 1;
      AllSplittablePrefix(rows, cls, n);
      NcclEntriesKeySum(rows[..n], cls[..n], k, divisor, scale);
      var p := NcclEntries(rows[..n], cls[..n], divisor, scale);
      if cls[n] == NcclClass {
        var e := (NcclKey(rows[n].name), Contribution(rows[n].time, rows[n].count, divisor, scale));
        assert (p + [e])[..|p|] == p;
      }
    }
  }

  /** A key has an nccl entry exactly when some nccl row carries it. */
  lemma {:induction false} NcclEntriesKeys(rows: seq<TraceRow>, cls: seq<string>, k: string, divisor: int, scale: real)
    requires |cls| == |rows| && (rows == [] || divisor != 0) && AllSplittable(rows, cls)
    ensures (exists j :: 0 <= j < |NcclEntries(rows, cls, divisor, scale)| && NcclEntries(rows, cls, divisor, scale)[j].0 == k)
      <==> (exists j :: 0 <= j < |rows| && NcclRowWithKey(cls[j], rows[j], k))
    decreases |rows|
  {
    if rows != [] {
      var n := |rows| - 1;
      var r0, c0 := rows[..n], cls[..n];
      AllSplittablePrefix(rows, cls, n);
      NcclEntriesKeys(r0, c0, k, divisor, scale);
      var p := NcclEntries(r0, c0, divisor, scale);
      var es := NcclEntries(rows, cls, divisor, scale);
      assert forall j :: 0 <= j < |p| ==> es[j] == p[j];
      assert forall j :: 0 <= j < n ==> r0[j] == rows[j] && c0[j] == cls[j];
      if exists j :: 0 <= j < |rows| && NcclRowWithKey(cls[j], rows[j], k) {
        var j :| 0 <= j < |rows| && NcclRowWithKey(cls[j], rows[j], k);
        if j == n {
          assert es[|p|].0 == k;
        } else {
          assert NcclRowWithKey(c0[j], r0[j], k);
        }
      }
      if exists j :: 0 <= j < |es| && es[j].0 == k {
        var j :| 0 <= j < |es| && es[j].0 == k;
        if j == |p| {
          assert NcclRowWithKey(cls[n], rows[n], k);
        } else {
          var i :| 0 <= i < n && NcclRowWithKey(c0[i], r0[i], k);
          assert NcclRowWithKey(cls[i], rows[i], k);
        }
      }
    }
  }

  /** When the aggregation returns a report, and what it raises otherwise. */
  lemma AggregateOutcome(seed: Table, data: seq<TraceRow>, cls: seq<string>, divisor: int, scale: real)
    requires |cls| == |data|
    requires Valid(seed) && NcclClass in seed.values && ClassesIn(seed, cls)
    ensures
      var r := Aggregate(seed, data, cls, divisor, scale);
      && (r.Ok? <==> (data == [] || divisor != 0) && AllSplittable(data, cls))
      && (r == Err(ZeroDivisor) <==> data != [] && divisor == 0)
      && (r.Err? && r != Err(ZeroDivisor) ==>
            exists i :: 0 <= i < |data| && AllSplittable(data[..i], cls[..i]) && Unsplittable(cls[i], data[i])
              && r == Err(NcclNameWithoutUnderscore(data[i].name)))
  {
    RowLoopShape(seed, data, cls, divisor, scale);
    match FirstUnsplittableFrom(data, cls, 0)
    case Some(i) =>
      var r0, c0 := data[..i], cls[..i];
      assert forall j :: 0 <= j < i ==> r0[j] == data[j] && c0[j] == cls[j];
    case None =>
  }

  /** When `statistic_kernels` returns a report, and what it raises otherwise. */
  lemma KernelStatisticsOutcome(m: PatternTable, rows: seq<TraceRow>, iters: int, gpus: int, withHeader: bool, scale: real)
    requires Valid(m)
    ensures
      var data := DataRows(rows, withHeader);
      var cls := RowClasses(m, data);
      var r := KernelStatistics(m, rows, iters, gpus, withHeader, scale);
      && (r.Ok? <==> (data == [] || iters * gpus != 0) && AllSplittable(data, cls))
      && (r == Err(ZeroDivisor) <==> data != [] && iters * gpus == 0)
      && (r.Err? && r != Err(ZeroDivisor) ==>
            exists i :: 0 <= i < |data| && AllSplittable(data[..i], cls[..i]) && Unsplittable(cls[i], data[i])
              && r == Err(NcclNameWithoutUnderscore(data[i].name)))
  {
    var data := DataRows(rows, withHeader);
    SeedTableFacts(m);
    RowClassesSeeded(m, data);
    AggregateOutcome(SeedTable(m), data, RowClasses(m, data), iters * gpus, scale);
  }

  /** A completed aggregation, unfolded: the loop's two tables. */
  lemma AggregateOk(seed: Table, data: seq<TraceRow>, cls: seq<string>, divisor: int, scale: real)
    requires |cls| == |data|
    requires Valid(seed) && NcclClass in seed.values && ClassesIn(seed, cls)
    requires Aggregate(seed, data, cls, divisor, scale).Ok?
    ensures (data == [] || divisor != 0) && AllSplittable(data, cls)
    ensures
      var table := KernelTable(seed, data, cls, divisor, scale);
      var r := Aggregate(seed, data, cls, divisor, scale).value;
      && Valid(table) && table.values.Keys == seed.values.Keys
      && r == KernelReport(Remove(table, NcclClass), SumTable(Remove(table, NcclClass)), table.values[NcclClass],
                           Fold(Empty(), NcclEntries(data, cls, divisor, scale)))
  {
    AggregateOutcome(seed, data, cls, divisor, scale);
    RowLoopDone(seed, data, cls, divisor, scale);
    KernelTableShape(seed, data, cls, divisor, scale);
  }

  /** The bucket of a seeded class after the loop is the sum of its rows. */
  lemma KernelTableGet(seed: Table, data: seq<TraceRow>, cls: seq<string>, c: string, divisor: int, scale: real)
    requires |cls| == |data| && (data == [] || divisor != 0)
    requires AllZero(seed) && c in KernelTable(seed, data, cls, divisor, scale).values && c in seed.values
    ensures KernelTable(seed, data, cls, divisor, scale).values[c] == ClassSum(data, cls, c, divisor, scale)
  {
    var es := KernelEntries(data, cls, divisor, scale);
    FoldGet(seed, es, c);
    KernelEntriesKeySum(data, cls, c, divisor, scale);
    AddZero(ClassSum(data, cls, c, divisor, scale));
  }

  /** The buckets of the class table add up to the sum over all rows. */
  lemma KernelTableSum(seed: Table, data: seq<TraceRow>, cls: seq<string>, divisor: int, scale: real)
    requires |cls| == |data| && (data == [] || divisor != 0)
    requires Valid(seed) && AllZero(seed)
    ensures SumTable(KernelTable(seed, data, cls, divisor, scale)) == RowSum(data, divisor, scale)
  {
    FoldZeroSum(seed, KernelEntries(data, cls, divisor, scale));
    KernelEntriesSum(data, cls, divisor, scale);
  }

  /** After the loop and the pop, the class table holds the seeded classes except "nccl". */
  lemma RestTableKeys(seed: Table, data: seq<TraceRow>, cls: seq<string>, divisor: int, scale: real)
    requires |cls| == |data| && (data == [] || divisor != 0)
    requires Valid(seed) && AllZero(seed) && NcclClass in seed.values && ClassesIn(seed, cls)
    ensures Valid(KernelTable(seed, data, cls, divisor, scale))
    ensures NcclClass in KernelTable(seed, data, cls, divisor, scale).values
    ensures
      var table := KernelTable(seed, data, cls, divisor, scale);
      var rest := Remove(table, NcclClass);
      forall c :: c in rest.values <==> c in seed.values && c != NcclClass
  {
    KernelTableShape(seed, data, cls, divisor, scale);
    var table := KernelTable(seed, data, cls, divisor, scale);
    var rest := Remove(table, NcclClass);
    forall c
      ensures c in rest.values <==> c in seed.values && c != NcclClass
    {
      assert c in table.values <==> c in table.values.Keys;
    }
  }

  /** After the loop and the pop, each class holds the sum of its rows, and so does the popped bucket. */
  lemma RestTableValues(seed: Table, data: seq<TraceRow>, cls: seq<string>, divisor: int, scale: real)
    requires |cls| == |data| && (data == [] || divisor != 0)
    requires Valid(seed) && AllZero(seed) && NcclClass in seed.values && ClassesIn(seed, cls)
    ensures Valid(KernelTable(seed, data, cls, divisor, scale))
    ensures NcclClass in KernelTable(seed, data, cls, divisor, scale).values
    ensures
      var table := KernelTable(seed, data, cls, divisor, scale);
      var rest := Remove(table, NcclClass);
      && (forall c :: c in rest.values ==> rest.values[c] == ClassSum(data, cls, c, divisor, scale))
      && table.values[NcclClass] == ClassSum(data, cls, NcclClass, divisor, scale)
  {
    KernelTableShape(seed, data, cls, divisor, scale);
    var table := KernelTable(seed, data, cls, divisor, scale);
    var rest := Remove(table, NcclClass);
    forall c | c in rest.values
      ensures rest.values[c] == ClassSum(data, cls, c, divisor, scale)
    {
      KernelTableGet(seed, data, cls, c, divisor, scale);
    }
    KernelTableGet(seed, data, cls, NcclClass, divisor, scale);
  }

  /** The remaining classes and the popped bucket together add up to all rows. */
  lemma RestTableSum(seed: Table, data: seq<TraceRow>, cls: seq<string>, divisor: int, scale: real)
    requires |cls| == |data| && (data == [] || divisor != 0)
    requires Valid(seed) && AllZero(seed) && NcclClass in seed.values && ClassesIn(seed, cls)
    ensures Valid(KernelTable(seed, data, cls, divisor, scale))
    ensures NcclClass in KernelTable(seed, data, cls, divisor, scale).values
    ensures
      var table := KernelTable(seed, data, cls, divisor, scale);
      var rest := Remove(table, NcclClass);
      Add(SumTable(rest), table.values[NcclClass]) == RowSum(data, divisor, scale)
  {
    KernelTableShape(seed, data, cls, divisor, scale);
    SumTableRemove(KernelTable(seed, data, cls, divisor, scale), NcclClass);
    KernelTableSum(seed, data, cls, divisor, scale);
  }

  /** The nccl sub-table has a key exactly for the sub-table keys of the nccl rows. */
  lemma NcclTableKeys(data: seq<TraceRow>, cls: seq<string>, divisor: int, scale: real)
    requires |cls| == |data| && (data == [] || divisor != 0) && AllSplittable(data, cls)
    ensures
      var n := Fold(Empty(), NcclEntries(data, cls, divisor, scale));
      Valid(n) && forall k :: k in n.values <==> exists j :: 0 <= j < |data| && NcclRowWithKey(cls[j], data[j], k)
  {
    var es := NcclEntries(data, cls, divisor, scale);
    var n := Fold(Empty(), es);
    FoldValid(Empty(), es);
    forall k
      ensures k in n.values <==> exists j :: 0 <= j < |data| && NcclRowWithKey(cls[j], data[j], k)
    {
      FoldKeys(Empty(), es, k);
      NcclEntriesKeys(data, cls, k, divisor, scale);
      assert k !in Empty<string, Bucket>().values;
      assert k in n.values <==> exists j :: 0 <= j < |es| && es[j].0 == k;
    }
  }

  /** Each nccl sub-table key holds the sum of the nccl rows that carry it. */
  lemma NcclTableValues(data: seq<TraceRow>, cls: seq<string>, divisor: int, scale: real)
    requires |cls| == |data| && (data == [] || divisor != 0) && AllSplittable(data, cls)
    ensures
      var n := Fold(Empty(), NcclEntries(data, cls, divisor, scale));
      forall k :: k in n.values ==> n.values[k] == NcclSum(data, cls, k, divisor, scale)
  {
    var es := NcclEntries(data, cls, divisor, scale);
    var n := Fold(Empty(), es);
    forall k | k in n.values
      ensures n.values[k] == NcclSum(data, cls, k, divisor, scale)
    {
      FoldGet(Empty(), es, k);
      NcclEntriesKeySum(data, cls, k, divisor, scale);
      AddZero(NcclSum(data, cls, k, divisor, scale));
    }
  }

  /** The nccl sub-table adds up to the nccl rows. */
  lemma NcclTableSum(data: seq<TraceRow>, cls: seq<string>, divisor: int, scale: real)
    requires |cls| == |data| && (data == [] || divisor != 0) && AllSplittable(data, cls)
    ensures
      var n := Fold(Empty(), NcclEntries(data, cls, divisor, scale));
      SumTable(n) == ClassSum(data, cls, NcclClass, divisor, scale)
  {
    var es := NcclEntries(data, cls, divisor, scale);
    FoldSum(Empty(), es);
    NcclEntriesSum(data, cls, divisor, scale);
    AddZero(SumEntries(es));
  }

  /**
   * The class table that `statistic_kernels` returns: the seeded classes
   * without "nccl", each holding the sum of its rows' contributions; the
   * popped nccl bucket is the sum of the nccl rows, and the grand totals
   * together with it are the sum over all rows.
   */
  lemma AggregateTables(seed: Table, data: seq<TraceRow>, cls: seq<string>, divisor: int, scale: real)
    requires |cls| == |data|
    requires Valid(seed) && AllZero(seed) && NcclClass in seed.values && ClassesIn(seed, cls)
    requires Aggregate(seed, data, cls, divisor, scale).Ok?
    ensures
      var r := Aggregate(seed, data, cls, divisor, scale).value;
      && r.kernelStatisticTable.Some?
      && var t := r.kernelStatisticTable.value;
      && Valid(t)
      && (forall c :: c in t.values <==> c in seed.values && c != NcclClass)
      && (forall c :: c in t.values ==> t.values[c] == ClassSum(data, cls, c, divisor, scale))
      && NcclTotals(r) == ClassSum(data, cls, NcclClass, divisor, scale)
      && Add(KernelTotals(r), NcclTotals(r)) == RowSum(data, divisor, scale)
  {
    AggregateOk(seed, data, cls, divisor, scale);
    RestTableKeys(seed, data, cls, divisor, scale);
    RestTableValues(seed, data, cls, divisor, scale);
    RestTableSum(seed, data, cls, divisor, scale);
  }

  /**
   * The nccl sub-table: one key per distinct second "_"-piece of an nccl
   * row's name, holding the sum of those rows; its buckets add up to the
   * popped nccl bucket.
   */
  lemma AggregateNccl(seed: Table, data: seq<TraceRow>, cls: seq<string>, divisor: int, scale: real)
    requires |cls| == |data|
    requires Valid(seed) && AllZero(seed) && NcclClass in seed.values && ClassesIn(seed, cls)
    requires Aggregate(seed, data, cls, divisor, scale).Ok?
    ensures
      var r := Aggregate(seed, data, cls, divisor, scale).value;
      && r.ncclStatisticTable.Some?
      && var n := r.ncclStatisticTable.value;
      && Valid(n)
      && (forall k :: k in n.values <==> exists j :: 0 <= j < |data| && NcclRowWithKey(cls[j], data[j], k))
      && (forall k :: k in n.values ==> n.values[k] == NcclSum(data, cls, k, divisor, scale))
      && SumTable(n) == NcclTotals(r)
  {
    AggregateOk(seed, data, cls, divisor, scale);
    RestTableValues(seed, data, cls, divisor, scale);
    NcclTableKeys(data, cls, divisor, scale);
    NcclTableValues(data, cls, divisor, scale);
    NcclTableSum(data, cls, divisor, scale);
  }

  /** Seeded zero buckets are normalized for any divisor. */
  lemma ZeroTableNormalized(t: Table, divisor: int)
    requires AllZero(t)
    ensures AllNormalized(t, divisor)
  {
    forall k | k in t.values
      ensures Normalized(t.values[k], divisor)
    {
      assert t.values[k] == Zero;
    }
  }

  /** Every class entry is a normalized contribution. */
  lemma KernelEntriesNormalized(rows: seq<TraceRow>, cls: seq<string>, divisor: int, scale: real)
    requires |cls| == |rows| && divisor > 0
    ensures forall j :: 0 <= j < |rows| ==> Normalized(KernelEntries(rows, cls, divisor, scale)[j].1, divisor)
  {
    KernelEntriesAt(rows, cls, divisor, scale);
    forall j | 0 <= j < |rows|
      ensures Normalized(KernelEntries(rows, cls, divisor, scale)[j].1, divisor)
    {
      ContributionNormalized(rows[j].time, rows[j].count, divisor, scale);
    }
  }

  /** Every nccl entry is a normalized contribution. */
  lemma {:induction false} NcclEntriesNormalized(rows: seq<TraceRow>, cls: seq<string>, divisor: int, scale: real)
    requires |cls| == |rows| && divisor > 0 && AllSplittable(rows, cls)
    ensures forall j :: 0 <= j < |NcclEntries(rows, cls, divisor, scale)| ==> Normalized(NcclEntries(rows, cls, divisor, scale)[j].1, divisor)
    decreases |rows|
  {
    if rows != [] {
      var n := |rows| - 1;
      AllSplittablePrefix(rows, cls, n);
      NcclEntriesNormalized(rows[..n], cls[..n], divisor, scale);
      ContributionNormalized(rows[n].time, rows[n].count, divisor, scale);
    }
  }

  /** With a positive divisor the class table, before the pop, is normalized. */
  lemma KernelTableNormalized(seed: Table, data: seq<TraceRow>, cls: seq<string>, divisor: int, scale: real)
    requires |cls| == |data| && divisor > 0 && AllZero(seed)
    ensures AllNormalized(KernelTable(seed, data, cls, divisor, scale), divisor)
  {
    ZeroTableNormalized(seed, divisor);
    KernelEntriesNormalized(data, cls, divisor, scale);
    FoldNormalized(seed, KernelEntries(data, cls, divisor, scale), divisor);
  }

  /** Removing a key keeps a table normalized. */
  lemma RemoveNormalized(t: Table, k: string, divisor: int)
    requires Valid(t) && k in t.values && AllNormalized(t, divisor)
    ensures AllNormalized(Remove(t, k), divisor)
  {
  }

  /**
   * With a positive `iters * gpus`, every bucket, every nccl sub-table
   * bucket and both sets of totals satisfy `timePerIter * d == totalTime`
   * and `instancesPerIter * d <= totalInstances`.
   */
  lemma AggregateNormalized(seed: Table, data: seq<TraceRow>, cls: seq<string>, divisor: int, scale: real)
    requires |cls| == |data| && divisor > 0
    requires Valid(seed) && AllZero(seed) && NcclClass in seed.values && ClassesIn(seed, cls)
    requires Aggregate(seed, data, cls, divisor, scale).Ok?
    ensures
      var r := Aggregate(seed, data, cls, divisor, scale).value;
      && r.kernelStatisticTable.Some? && r.ncclStatisticTable.Some?
      && AllNormalized(r.kernelStatisticTable.value, divisor)
      && AllNormalized(r.ncclStatisticTable.value, divisor)
      && Normalized(KernelTotals(r), divisor)
      && Normalized(NcclTotals(r), divisor)
  {
    AggregateOk(seed, data, cls, divisor, scale);
    var table := KernelTable(seed, data, cls, divisor, scale);
    var rest := Remove(table, NcclClass);
    KernelTableNormalized(seed, data, cls, divisor, scale);
    RemoveNormalized(table, NcclClass, divisor);
    SumOverNormalized(rest.keys, rest.values, divisor);
    var es := NcclEntries(data, cls, divisor, scale);
    NcclEntriesNormalized(data, cls, divisor, scale);
    FoldNormalized(Empty(), es, divisor);
  }

  // ---------------------------------------------------------------------
  // The same properties for a pattern table and raw rows

  /**
   * The class table of `statistic_kernels`: "others" and every user
   * category, without "nccl", each holding the sum of the data rows that
   * `_get_class` puts in it; the nccl totals are the sum of the nccl rows,
   * and the grand totals together with them are the sum over all data rows.
   */
  lemma KernelStatisticsTables(m: PatternTable, rows: seq<TraceRow>, iters: int, gpus: int, withHeader: bool, scale: real)
    requires Valid(m) && KernelStatistics(m, rows, iters, gpus, withHeader, scale).Ok?
    ensures
      var data := DataRows(rows, withHeader);
      var cls := RowClasses(m, data);
      var d := iters * gpus;
      var r := KernelStatistics(m, rows, iters, gpus, withHeader, scale).value;
      && (data == [] || d != 0)
      && r.kernelStatisticTable.Some?
      && var t := r.kernelStatisticTable.value;
      && Valid(t)
      && (forall c :: c in t.values <==>
            c != NcclClass && (c == OtherClass || exists i :: 0 <= i < |m.keys| && m.values[m.keys[i]] == c))
      && (forall c :: c in t.values ==> t.values[c] == ClassSum(data, cls, c, d, scale))
      && NcclTotals(r) == ClassSum(data, cls, NcclClass, d, scale)
      && Add(KernelTotals(r), NcclTotals(r)) == RowSum(data, d, scale)
  {
    var data := DataRows(rows, withHeader);
    SeedTableFacts(m);
    RowClassesSeeded(m, data);
    AggregateOk(SeedTable(m), data, RowClasses(m, data), iters * gpus, scale);
    AggregateTables(SeedTable(m), data, RowClasses(m, data), iters * gpus, scale);
  }

  /** The nccl sub-table of `statistic_kernels`. */
  lemma KernelStatisticsNccl(m: PatternTable, rows: seq<TraceRow>, iters: int, gpus: int, withHeader: bool, scale: real)
    requires Valid(m) && KernelStatistics(m, rows, iters, gpus, withHeader, scale).Ok?
    ensures
      var data := DataRows(rows, withHeader);
      var cls := RowClasses(m, data);
      var d := iters * gpus;
      var r := KernelStatistics(m, rows, iters, gpus, withHeader, scale).value;
      && (data == [] || d != 0)
      && r.ncclStatisticTable.Some?
      && var n := r.ncclStatisticTable.value;
      && Valid(n)
      && (forall k :: k in n.values <==> exists j :: 0 <= j < |data| && NcclRowWithKey(cls[j], data[j], k))
      && (forall k :: k in n.values ==> n.values[k] == NcclSum(data, cls, k, d, scale))
      && SumTable(n) == NcclTotals(r)
  {
    var data := DataRows(rows, withHeader);
    SeedTableFacts(m);
    RowClassesSeeded(m, data);
    AggregateOk(SeedTable(m), data, RowClasses(m, data), iters * gpus, scale);
    AggregateNccl(SeedTable(m), data, RowClasses(m, data), iters * gpus, scale);
  }

  /** With a positive `iters * gpus` every bucket and both sets of totals are normalized. */
  lemma KernelStatisticsNormalized(m: PatternTable, rows: seq<TraceRow>, iters: int, gpus: int, withHeader: bool, scale: real)
    requires Valid(m) && iters * gpus > 0
    ensures KernelStatistics(m, rows, iters, gpus, withHeader, scale).Ok? ==>
      var r := KernelStatistics(m, rows, iters, gpus, withHeader, scale).value;
      && r.kernelStatisticTable.Some? && r.ncclStatisticTable.Some?
      && AllNormalized(r.kernelStatisticTable.value, iters * gpus)
      && AllNormalized(r.ncclStatisticTable.value, iters * gpus)
      && Normalized(KernelTotals(r), iters * gpus)
      && Normalized(NcclTotals(r), iters * gpus)
  {
    var data := DataRows(rows, withHeader);
    SeedTableFacts(m);
    RowClassesSeeded(m, data);
    if KernelStatistics(m, rows, iters, gpus, withHeader, scale).Ok? {
      AggregateNormalized(SeedTable(m), data, RowClasses(m, data), iters * gpus, scale);
    }
  }

  /** Without data rows the aggregation returns the seeded zero buckets. */
  lemma AggregateNoData(seed: Table, divisor: int, scale: real)
    requires Valid(seed) && AllZero(seed) && NcclClass in seed.values
    ensures Aggregate(seed, [], [], divisor, scale).Ok?
    ensures
      var r := Aggregate(seed, [], [], divisor, scale).value;
      && r.kernelStatisticTable.Some? && r.ncclStatisticTable.Some?
      && AllZero(r.kernelStatisticTable.value)
      && r.ncclStatisticTable.value.values == map[]
      && KernelTotals(r) == Zero && NcclTotals(r) == Zero
  {
    assert KernelTable(seed, [], [], divisor, scale) == seed;
    var rest := Remove(seed, NcclClass);
    SumOfZeros(rest.keys, rest.values);
  }

  /** Without data rows the report holds zero buckets, zero totals and an empty nccl sub-table. */
  lemma KernelStatisticsNoData(m: PatternTable, rows: seq<TraceRow>, iters: int, gpus: int, withHeader: bool, scale: real)
    requires Valid(m) && DataRows(rows, withHeader) == []
    ensures KernelStatistics(m, rows, iters, gpus, withHeader, scale).Ok?
    ensures
      var r := KernelStatistics(m, rows, iters, gpus, withHeader, scale).value;
      && r.kernelStatisticTable.Some? && r.ncclStatisticTable.Some?
      && AllZero(r.kernelStatisticTable.value)
      && r.ncclStatisticTable.value.values == map[]
      && KernelTotals(r) == Zero && NcclTotals(r) == Zero
  {
    SeedTableFacts(m);
    assert RowClasses(m, []) == [];
    AggregateNoData(SeedTable(m), iters * gpus, scale);
  }

  /** Skipping the header row is the same as reading the rows after it without one. */
  lemma KernelStatisticsHeader(m: PatternTable, rows: seq<TraceRow>, iters: int, gpus: int, scale: real)
    requires Valid(m) && rows != []
    ensures KernelStatistics(m, rows, iters, gpus, true, scale) == KernelStatistics(m, rows[1..], iters, gpus, false, scale)
  {
    assert DataRows(rows, true) == DataRows(rows[1..], false);
  }

  /** `statistic_kernels` leaves the range and memory fields at their defaults. */
  lemma KernelStatisticsFields(m: PatternTable, rows: seq<TraceRow>, iters: int, gpus: int, withHeader: bool, scale: real)
    requires Valid(m) && KernelStatistics(m, rows, iters, gpus, withHeader, scale).Ok?
    ensures
      var r := KernelStatistics(m, rows, iters, gpus, withHeader, scale).value;
      && r.nvtxAvgRangeTime == 0.0 && r.nvtxTotalRangeTime == 0.0 && r.nvtxRangeCount == 0
      && r.memStatisticTable.None?
  {
    var data := DataRows(rows, withHeader);
    SeedTableFacts(m);
    RowClassesSeeded(m, data);
    AggregateOk(SeedTable(m), data, RowClasses(m, data), iters * gpus, scale);
  }
}
