/**
 * The memory-operation and NVTX range statistics of analyzer/analysis.py,
 * and `analyze`, which runs the kernel statistics and then, where their
 * rows are given, these two, and merges the three reports.
 */
module Reports {
  import opened Wrappers
  import opened Errors
  import opened OrderedMaps
  import opened Buckets
  import opened PatternMap
  import opened Analysis

  // ---------------------------------------------------------------------
  // `statistic_mem`

  /** The raw names of the rows: the memory table groups by the name as written. */
  function Names(rows: seq<TraceRow>): (ns: seq<string>)
    ensures |ns| == |rows|
  {
    if rows == [] then [] else Names(rows[..|rows| - 1]) + [rows[|rows| - 1].name]
  }

  lemma {:induction false} NamesAt(rows: seq<TraceRow>)
    ensures forall j :: 0 <= j < |rows| ==> Names(rows)[j] == rows[j].name
    decreases |rows|
  {
    if rows != [] {
      NamesAt(rows[..|rows| - 1]);
    }
  }

  /** The memory table after the row loop: one bucket per distinct name, in first-seen order. */
  function MemTable(data: seq<TraceRow>, divisor: int, scale: real): Table
    requires data == [] || divisor != 0
  {
    Fold(Empty(), KernelEntries(data, Names(data), divisor, scale))
  }

  /** What `statistic_mem` returns or raises. */
  function MemStatistics(rows: seq<TraceRow>, iters: int, gpus: int, withHeader: bool, scale: real): Result<Report, Error> {
    var data := DataRows(rows, withHeader);
    var d := iters * gpus;
    if data != [] && d == 0 then Err(ZeroDivisor)
    else Ok(EmptyReport.(memStatisticTable := Some(MemTable(data, d, scale))))
  }

  /** One row of the loop: the bucket of the row's name, created at zero when new, grows by the row. */
  lemma MemStep(data: seq<TraceRow>, i: nat, divisor: int, scale: real)
    requires i < |data| && divisor != 0
    ensures MemTable(data[..i + 1], divisor, scale) ==
      Accumulate(MemTable(data[..i], divisor, scale), data[i].name, Contribution(data[i].time, data[i].count, divisor, scale))
  {
    var r1 := data[..i + 1];
    assert r1[..i] == data[..i];
    var ns := Names(r1);
    assert ns[..i] == Names(data[..i]) && ns[i] == data[i].name;
    FoldAppend(Empty(), KernelEntries(data[..i], Names(data[..i]), divisor, scale),
      (data[i].name, Contribution(data[i].time, data[i].count, divisor, scale)));
  }

  /** `statistic_mem`. */
  method StatisticMem(a: Analyzer, mems: seq<TraceRow>, iters: int, gpus: int, withHeader: bool, scale: real)
    returns (r: Result<Report, Error>)
    ensures r == MemStatistics(mems, iters, gpus, withHeader, scale)
  {
    var data := DataRows(mems, withHeader);
    var d := iters * gpus;
    // The first row's division raises, before the table changes.
    if data != [] && d == 0 {
      return Err(ZeroDivisor);
    }
    var table: Table := Empty();
    var i := 0;
    while i < |data|
      invariant 0 <= i <= |data|
      invariant table == MemTable(data[..i], d, scale)
    {
      var row := data[i];
      MemStep(data, i, d, scale);
      table := Accumulate(table, row.name, Contribution(row.time, row.count, d, scale));
      i := i + 1;
    }
    assert data[..i] == data;
    r := Ok(EmptyReport.(memStatisticTable := Some(table)));
  }

  /** `statistic_mem` fails only on a zero `iters * gpus` with a data row, and fills only the memory table. */
  lemma MemStatisticsOutcome(rows: seq<TraceRow>, iters: int, gpus: int, withHeader: bool, scale: real)
    ensures
      var data := DataRows(rows, withHeader);
      var r := MemStatistics(rows, iters, gpus, withHeader, scale);
      && (r.Ok? <==> data == [] || iters * gpus != 0)
      && (r.Err? ==> r.error == ZeroDivisor)
      && (r.Ok? ==> r.value.memStatisticTable.Some? && r.value.(memStatisticTable := None) == EmptyReport)
  {
  }

  /** The memory table has a key exactly for each name of a data row. */
  lemma MemTableKeys(data: seq<TraceRow>, divisor: int, scale: real)
    requires data == [] || divisor != 0
    ensures Valid(MemTable(data, divisor, scale))
    ensures forall k :: k in MemTable(data, divisor, scale).values <==> exists j :: 0 <= j < |data| && data[j].name == k
  {
    var es := KernelEntries(data, Names(data), divisor, scale);
    FoldValid(Empty(), es);
    NamesAt(data);
    if data != [] {
      KernelEntriesAt(data, Names(data), divisor, scale);
    }
    forall k
      ensures k in MemTable(data, divisor, scale).values <==> exists j :: 0 <= j < |data| && data[j].name == k
    {
      FoldKeys(Empty(), es, k);
      assert k !in Empty<string, Bucket>().values;
      if exists j :: 0 <= j < |data| && data[j].name == k {
        var j :| 0 <= j < |data| && data[j].name == k;
        assert es[j].0 == k;
      }
    }
  }

  /** Each name holds the sum of the data rows with that name. */
  lemma MemTableValues(data: seq<TraceRow>, divisor: int, scale: real)
    requires data == [] || divisor != 0
    ensures forall k :: k in MemTable(data, divisor, scale).values ==>
      MemTable(data, divisor, scale).values[k] == ClassSum(data, Names(data), k, divisor, scale)
  {
    var es := KernelEntries(data, Names(data), divisor, scale);
    forall k | k in MemTable(data, divisor, scale).values
      ensures MemTable(data, divisor, scale).values[k] == ClassSum(data, Names(data), k, divisor, scale)
    {
      FoldGet(Empty(), es, k);
      KernelEntriesKeySum(data, Names(data), k, divisor, scale);
      AddZero(ClassSum(data, Names(data), k, divisor, scale));
    }
  }

  /** The buckets of the memory table add up to the sum over all data rows. */
  lemma MemTableSum(data: seq<TraceRow>, divisor: int, scale: real)
    requires data == [] || divisor != 0
    ensures SumTable(MemTable(data, divisor, scale)) == RowSum(data, divisor, scale)
  {
    var es := KernelEntries(data, Names(data), divisor, scale);
    FoldSum(Empty(), es);
    KernelEntriesSum(data, Names(data), divisor, scale);
    AddZero(SumEntries(es));
  }

  /** With a positive `iters * gpus` every bucket of the memory table is normalized. */
  lemma MemTableNormalized(data: seq<TraceRow>, divisor: int, scale: real)
    requires divisor > 0
    ensures AllNormalized(MemTable(data, divisor, scale), divisor)
  {
    KernelEntriesNormalized(data, Names(data), divisor, scale);
    FoldNormalized(Empty(), KernelEntries(data, Names(data), divisor, scale), divisor);
  }

  // ---------------------------------------------------------------------
  // `statistic_nvtx`

  /** How many rows carry `tag`. */
  function RangeCount(rows: seq<RangeRow>, tag: string): (n: nat)
    ensures n <= |rows|
  {
    if rows == [] then 0
    else RangeCount(rows[..|rows| - 1], tag) + (if rows[|rows| - 1].tag == tag then 1 else 0)
  }

  /** The summed duration of the rows that carry `tag`. */
  function RangeDuration(rows: seq<RangeRow>, tag: string): real {
    if rows == [] then 0.0
    else RangeDuration(rows[..|rows| - 1], tag) + (if rows[|rows| - 1].tag == tag then rows[|rows| - 1].duration else 0.0)
  }

  /** `total / count`. */
  function Average(total: real, count: nat): (avg: real)
    requires count > 0
    ensures avg * count as real == total
  {
    total / count as real
  }

  /**
   * What `statistic_nvtx` returns or raises: the assertion on a missing tag,
   * then the division of the scaled total by the number of matching rows.
   */
  function NvtxStatistics(rows: seq<RangeRow>, tag: Option<string>, withHeader: bool, scale: real): Result<Report, Error> {
    if tag.None? then Err(MissingRangeTag)
    else
      var data := DataRows(rows, withHeader);
      var n := RangeCount(data, tag.value);
      if n == 0 then Err(NoMatchingRanges)
      else
        var total := RangeDuration(data, tag.value) * scale;
        Ok(EmptyReport.(nvtxAvgRangeTime := Average(total, n), nvtxTotalRangeTime := total, nvtxRangeCount := n))
  }

  /** Whether `statistic_nvtx` prints its warning: it passes the assertion and counts other than `iters` ranges. */
  predicate NvtxWarning(rows: seq<RangeRow>, tag: Option<string>, iters: int, withHeader: bool) {
    tag.Some? && RangeCount(DataRows(rows, withHeader), tag.value) != iters
  }

  /** One row of the loop. */
  lemma RangeStep(data: seq<RangeRow>, i: nat, tag: string)
    requires i < |data|
    ensures RangeCount(data[..i + 1], tag) == RangeCount(data[..i], tag) + (if data[i].tag == tag then 1 else 0)
    ensures RangeDuration(data[..i + 1], tag) == RangeDuration(data[..i], tag) + (if data[i].tag == tag then data[i].duration else 0.0)
  {
    assert data[..i + 1][..i] == data[..i];
  }

  /** The loop of `statistic_nvtx`: the summed duration and the number of the rows tagged `tag`. */
  method RangeTotals(data: seq<RangeRow>, tag: string) returns (total: real, count: nat)
    ensures total == RangeDuration(data, tag) && count == RangeCount(data, tag)
  {
    total := 0.0;
    count := 0;
    var i := 0;
    while i < |data|
      invariant 0 <= i <= |data|
      invariant total == RangeDuration(data[..i], tag)
      invariant count == RangeCount(data[..i], tag)
    {
      RangeStep(data, i, tag);
      if data[i].tag == tag {
        total := total + data[i].duration;
        count := count + 1;
      }
      i := i + 1;
    }
    assert data[..i] == data;
  }

  /** `statistic_nvtx`; `warned` says whether the warning is printed. */
  method StatisticNvtx(a: Analyzer, nvtxes: seq<RangeRow>, tag: Option<string>, iters: int, withHeader: bool, scale: real)
    returns (r: Result<Report, Error>, warned: bool)
    ensures r == NvtxStatistics(nvtxes, tag, withHeader, scale)
    ensures warned == NvtxWarning(nvtxes, tag, iters, withHeader)
  {
    if tag.None? {
      return Err(MissingRangeTag), false;
    }
    var data := DataRows(nvtxes, withHeader);
    var total, count := RangeTotals(data, tag.value);
    warned := count != iters;
    total := total * scale;
    if count == 0 {
      return Err(NoMatchingRanges), warned;
    }
    ghost var spec := NvtxStatistics(nvtxes, tag, withHeader, scale);
    assert spec.Ok? && spec.value.nvtxTotalRangeTime == total && spec.value.nvtxRangeCount == count;
    r := Ok(EmptyReport.(nvtxAvgRangeTime := Average(total, count), nvtxTotalRangeTime := total, nvtxRangeCount := count));
  }

  /** The tags of the rows, in order. */
  function Tags(rows: seq<RangeRow>): (ts: seq<string>)
    ensures |ts| == |rows|
  {
    if rows == [] then [] else Tags(rows[..|rows| - 1]) + [rows[|rows| - 1].tag]
  }

  /** The range count is the multiplicity of the tag among the rows' tags. */
  lemma {:induction false} RangeCountTags(rows: seq<RangeRow>, tag: string)
    ensures RangeCount(rows, tag) == multiset(Tags(rows))[tag]
    decreases |rows|
  {
    if rows != [] {
      var n := |rows| - 1;
      RangeCountTags(rows[..n], tag);
      assert multiset(Tags(rows)) == multiset(Tags(rows[..n])) + multiset{rows[n].tag};
    }
  }

  /**
   * The outcome of `statistic_nvtx`: the tag is required, at least one data
   * row must carry it, and then the count of those rows and their scaled
   * total duration fill the range fields.
   */
  lemma NvtxStatisticsOutcome(rows: seq<RangeRow>, tag: Option<string>, withHeader: bool, scale: real)
    ensures
      var r := NvtxStatistics(rows, tag, withHeader, scale);
      && (tag.None? ==> r == Err(MissingRangeTag))
      && (tag.Some? ==>
            var data := DataRows(rows, withHeader);
            && (r == Err(NoMatchingRanges) <==> RangeCount(data, tag.value) == 0)
            && (r.Ok? ==>
                  && r.value.nvtxRangeCount == multiset(Tags(data))[tag.value]
                  && 0 < r.value.nvtxRangeCount <= |data|
                  && r.value.nvtxTotalRangeTime == RangeDuration(data, tag.value) * scale
                  && r.value.nvtxAvgRangeTime * r.value.nvtxRangeCount as real == r.value.nvtxTotalRangeTime
                  && r.value.(nvtxAvgRangeTime := 0.0, nvtxTotalRangeTime := 0.0, nvtxRangeCount := 0) == EmptyReport))
  {
    if tag.Some? {
      RangeCountTags(DataRows(rows, withHeader), tag.value);
      if NvtxStatistics(rows, tag, withHeader, scale).Ok? {
        NvtxAverage(rows, tag, withHeader, scale);
      }
    }
  }

  /** A successful range report's average times its count is its total. */
  lemma NvtxAverage(rows: seq<RangeRow>, tag: Option<string>, withHeader: bool, scale: real)
    requires NvtxStatistics(rows, tag, withHeader, scale).Ok?
    ensures
      var v := NvtxStatistics(rows, tag, withHeader, scale).value;
      v.nvtxAvgRangeTime * v.nvtxRangeCount as real == v.nvtxTotalRangeTime
  {
    var data := DataRows(rows, withHeader);
    var n := RangeCount(data, tag.value);
    var total := RangeDuration(data, tag.value) * scale;
    var avg := Average(total, n);
    assert avg * n as real == total;
  }

  // ---------------------------------------------------------------------
  // `analyze`

  /**
   * What `analyze` returns or raises: the kernel statistics always, then the
   * range statistics when range rows are given, then the memory statistics
   * when memory rows are given; the first exception ends it, and the
   * report takes each field from the statistic that fills it.
   */
  function AnalyzeResult(m: PatternTable, iters: int, kernels: seq<TraceRow>, nvtxes: Option<seq<RangeRow>>,
                         mems: Option<seq<TraceRow>>, gpus: int, withHeader: bool, scale: real, tag: Option<string>): Result<Report, Error>
    requires Valid(m)
  {
    var kr := KernelStatistics(m, kernels, iters, gpus, withHeader, scale);
    var nr := if nvtxes.Some? then NvtxStatistics(nvtxes.value, tag, withHeader, scale) else Ok(EmptyReport);
    var mr := if mems.Some? then MemStatistics(mems.value, iters, gpus, withHeader, scale) else Ok(EmptyReport);
    Merge(kr, nr, mr)
  }

  /** The first error of the three in order, or the kernel report with the range and memory fields copied in. */
  function Merge(kr: Result<Report, Error>, nr: Result<Report, Error>, mr: Result<Report, Error>): Result<Report, Error> {
    if kr.Err? then Err(kr.error)
    else if nr.Err? then Err(nr.error)
    else if mr.Err? then Err(mr.error)
    else
      Ok(kr.value.(
        nvtxAvgRangeTime := nr.value.nvtxAvgRangeTime,
        nvtxTotalRangeTime := nr.value.nvtxTotalRangeTime,
        nvtxRangeCount := nr.value.nvtxRangeCount,
        memStatisticTable := mr.value.memStatisticTable))
  }

  /** Whether `analyze` prints the range warning: only when the range statistics run. */
  predicate AnalyzeWarning(m: PatternTable, iters: int, kernels: seq<TraceRow>, nvtxes: Option<seq<RangeRow>>,
                           gpus: int, withHeader: bool, scale: real, tag: Option<string>)
    requires Valid(m)
  {
    KernelStatistics(m, kernels, iters, gpus, withHeader, scale).Ok? && nvtxes.Some? && NvtxWarning(nvtxes.value, tag, iters, withHeader)
  }

  /** `analyze`; `warned` says whether the range warning is printed. */
  method Analyze(a: Analyzer, iters: int, kernels: seq<TraceRow>, nvtxes: Option<seq<RangeRow>>, mems: Option<seq<TraceRow>>,
                 gpus: int, withHeader: bool, scale: real, tag: Option<string>)
    returns (r: Result<Report, Error>, warned: bool)
    requires Valid(a.kernelToClassMap)
    ensures r == AnalyzeResult(a.kernelToClassMap, iters, kernels, nvtxes, mems, gpus, withHeader, scale, tag)
    ensures warned == AnalyzeWarning(a.kernelToClassMap, iters, kernels, nvtxes, gpus, withHeader, scale, tag)
  {
    warned := false;
    var kr := StatisticKernels(a, kernels, iters, gpus, withHeader, scale);
    if kr.Err? {
      return Err(kr.error), warned;
    }
    var report := kr.value;
    if nvtxes.Some? {
      var nr, w := StatisticNvtx(a, nvtxes.value, tag, iters, withHeader, scale);
      warned := w;
      if nr.Err? {
        return Err(nr.error), warned;
      }
      report := report.(
        nvtxAvgRangeTime := nr.value.nvtxAvgRangeTime,
        nvtxTotalRangeTime := nr.value.nvtxTotalRangeTime,
        nvtxRangeCount := nr.value.nvtxRangeCount);
    }
    if mems.Some? {
      var mr := StatisticMem(a, mems.value, iters, gpus, withHeader, scale);
      if mr.Err? {
        return Err(mr.error), warned;
      }
      report := report.(memStatisticTable := mr.value.memStatisticTable);
    }
    r := Ok(report);
  }

  /**
   * The report of `analyze`: the kernel fields always come from the kernel
   * statistics; the range fields stay 0 unless range rows are given, and
   * the memory table stays unset unless memory rows are given.
   */
  lemma AnalyzeFields(m: PatternTable, iters: int, kernels: seq<TraceRow>, nvtxes: Option<seq<RangeRow>>,
                      mems: Option<seq<TraceRow>>, gpus: int, withHeader: bool, scale: real, tag: Option<string>)
    requires Valid(m) && AnalyzeResult(m, iters, kernels, nvtxes, mems, gpus, withHeader, scale, tag).Ok?
    ensures
      var r := AnalyzeResult(m, iters, kernels, nvtxes, mems, gpus, withHeader, scale, tag).value;
      var kr := KernelStatistics(m, kernels, iters, gpus, withHeader, scale);
      && kr.Ok?
      && r.(nvtxAvgRangeTime := 0.0, nvtxTotalRangeTime := 0.0, nvtxRangeCount := 0, memStatisticTable := None) == kr.value
      && (nvtxes.None? ==> r.nvtxAvgRangeTime == 0.0 && r.nvtxTotalRangeTime == 0.0 && r.nvtxRangeCount == 0)
      && (nvtxes.Some? ==>
            var nr := NvtxStatistics(nvtxes.value, tag, withHeader, scale);
            && nr.Ok?
            && r.nvtxAvgRangeTime == nr.value.nvtxAvgRangeTime
            && r.nvtxTotalRangeTime == nr.value.nvtxTotalRangeTime
            && r.nvtxRangeCount == nr.value.nvtxRangeCount)
      && (mems.None? ==> r.memStatisticTable.None?)
      && (mems.Some? ==>
            var mr := MemStatistics(mems.value, iters, gpus, withHeader, scale);
            mr.Ok? && r.memStatisticTable == mr.value.memStatisticTable && r.memStatisticTable.Some?)
  {
    KernelStatisticsFields(m, kernels, iters, gpus, withHeader, scale);
  }

  /** `analyze` fails exactly when one of the statistics it runs fails, with the first error. */
  lemma AnalyzeErrors(m: PatternTable, iters: int, kernels: seq<TraceRow>, nvtxes: Option<seq<RangeRow>>,
                      mems: Option<seq<TraceRow>>, gpus: int, withHeader: bool, scale: real, tag: Option<string>)
    requires Valid(m)
    ensures
      var r := AnalyzeResult(m, iters, kernels, nvtxes, mems, gpus, withHeader, scale, tag);
      var kr := KernelStatistics(m, kernels, iters, gpus, withHeader, scale);
      var nFails := nvtxes.Some? && NvtxStatistics(nvtxes.value, tag, withHeader, scale).Err?;
      var mFails := mems.Some? && MemStatistics(mems.value, iters, gpus, withHeader, scale).Err?;
      && (r.Err? <==> kr.Err? || nFails || mFails)
      && (kr.Err? ==> r == Err(kr.error))
      && (kr.Ok? && nFails ==> r == Err(NvtxStatistics(nvtxes.value, tag, withHeader, scale).error))
      && (kr.Ok? && !nFails && mFails ==> r == Err(ZeroDivisor))
  {
    if mems.Some? {
      MemStatisticsOutcome(mems.value, iters, gpus, withHeader, scale);
    }
  }
}
