/**
 * The four-field statistics bucket `[time_per_iter, inst_per_iter,
 * total_time, total_inst]` of analyzer/analysis.py, the tables of buckets
 * keyed by name, and the fold that accumulates row contributions into them.
 */
module Buckets {
  import opened OrderedMaps

  datatype Bucket = Bucket(timePerIter: real, instancesPerIter: int, totalTime: real, totalInstances: int)

  /** `[0.0, 0, 0.0, 0]`. */
  const Zero := Bucket(0.0, 0, 0.0, 0)

  /** Field-wise `+=`. */
  function Add(a: Bucket, b: Bucket): Bucket {
    Bucket(a.timePerIter + b.timePerIter, a.instancesPerIter + b.instancesPerIter,
           a.totalTime + b.totalTime, a.totalInstances + b.totalInstances)
  }

  lemma AddAssociative(a: Bucket, b: Bucket, c: Bucket)
    ensures Add(Add(a, b), c) == Add(a, Add(b, c))
  {
  }

  lemma AddCommutative(a: Bucket, b: Bucket)
    ensures Add(a, b) == Add(b, a)
  {
  }

  lemma AddZero(a: Bucket)
    ensures Add(Zero, a) == a && Add(a, Zero) == a
  {
  }

  /** Python's `a // b`: the quotient rounded towards minus infinity. */
  function FloorDiv(a: int, b: int): (q: int)
    requires b != 0
    ensures b > 0 ==> b * q <= a < b * q + b
    ensures b < 0 ==> b * q + b < a <= b * q
  {
    if b > 0 then a / b else (-a) / (-b)
  }

  /**
   * What one row with raw time `time` and raw instance count `count` adds to
   * its bucket, where `divisor` is `num_of_iters * num_of_gpus`: the time per
   * iteration scaled to milliseconds, the instances per iteration by floor
   * division, the total time scaled, and the raw count.
   */
  function Contribution(time: real, count: int, divisor: int, scale: real): Bucket
    requires divisor != 0
  {
    Bucket((time / divisor as real) * scale, FloorDiv(count, divisor), time * scale, count)
  }

  /**
   * The per-iteration fields of a bucket are its totals divided by the
   * divisor: exactly for the time, and at most the total for the instances
   * (each row's count is rounded down before it is added).
   */
  predicate Normalized(b: Bucket, divisor: int) {
    && b.timePerIter * divisor as real == b.totalTime
    && b.instancesPerIter * divisor <= b.totalInstances
  }

  lemma ContributionNormalized(time: real, count: int, divisor: int, scale: real)
    requires divisor > 0
    ensures Normalized(Contribution(time, count, divisor, scale), divisor)
  {
    var d := divisor as real;
    var q := time / d;
    assert q * d == time;
    calc {
      (q * scale) * d;
      (q * d) * scale;
      time * scale;
    }
  }

  lemma AddNormalized(a: Bucket, b: Bucket, divisor: int)
    requires Normalized(a, divisor) && Normalized(b, divisor)
    ensures Normalized(Add(a, b), divisor)
  {
    var d := divisor as real;
    assert (a.timePerIter + b.timePerIter) * d == a.timePerIter * d + b.timePerIter * d;
    assert (a.instancesPerIter + b.instancesPerIter) * divisor == a.instancesPerIter * divisor + b.instancesPerIter * divisor;
  }

  type Table = OrderedMap<string, Bucket>

  function ValueOr(vals: map<string, Bucket>, k: string): Bucket {
    if k in vals then vals[k] else Zero
  }

  /** `t[k]`, or a zero bucket where the key is absent. */
  function GetOrZero(t: Table, k: string): Bucket {
    ValueOr(t.values, k)
  }

  /** Every bucket of the table is zero. */
  predicate AllZero(t: Table) {
    forall k :: k in t.values ==> t.values[k] == Zero
  }

  /** Every bucket of the table is normalized. */
  predicate AllNormalized(t: Table, divisor: int) {
    forall k :: k in t.values ==> Normalized(t.values[k], divisor)
  }

  /** The field-wise sum of the buckets of keys `ks`, in that order. */
  function SumOver(ks: seq<string>, vals: map<string, Bucket>): Bucket {
    if ks == [] then Zero else Add(SumOver(ks[..|ks| - 1], vals), ValueOr(vals, ks[|ks| - 1]))
  }

  /** One more key added to a running sum. */
  lemma SumOverSnoc(ks: seq<string>, vals: map<string, Bucket>, i: nat)
    requires i < |ks|
    ensures SumOver(ks[..i + 1], vals) == Add(SumOver(ks[..i], vals), ValueOr(vals, ks[i]))
  {
    assert ks[..i + 1][..i] == ks[..i];
  }

  /** The field-wise sum of all buckets of the table, in key order. */
  function SumTable(t: Table): Bucket {
    SumOver(t.keys, t.values)
  }

  lemma {:induction false} SumOverAppend(a: seq<string>, b: seq<string>, vals: map<string, Bucket>)
    ensures SumOver(a + b, vals) == Add(SumOver(a, vals), SumOver(b, vals))
    decreases |b|
  {
    if b == [] {
      assert a + b == a;
    } else {
      var n := |b| - 1;
      assert (a + b)[..|a + b| - 1] == a + b[..n];
      SumOverAppend(a, b[..n], vals);
    }
  }

  /** The sum only reads the buckets of the listed keys. */
  lemma {:induction false} SumOverFrame(ks: seq<string>, v1: map<string, Bucket>, v2: map<string, Bucket>)
    requires forall i :: 0 <= i < |ks| ==> ValueOr(v1, ks[i]) == ValueOr(v2, ks[i])
    ensures SumOver(ks, v1) == SumOver(ks, v2)
    decreases |ks|
  {
    if ks != [] {
      SumOverFrame(ks[..|ks| - 1], v1, v2);
    }
  }

  lemma {:induction false} SumOfZeros(ks: seq<string>, vals: map<string, Bucket>)
    requires forall k :: k in vals ==> vals[k] == Zero
    ensures SumOver(ks, vals) == Zero
    decreases |ks|
  {
    if ks != [] {
      var p, last := ks[..|ks| - 1], ks[|ks| - 1];
      SumOfZeros(p, vals);
      var v := ValueOr(vals, last);
      assert v == Zero;
      calc {
        SumOver(ks, vals);
        Add(SumOver(p, vals), v);
        { AddZero(Zero); }
        Zero;
      }
    }
  }

  /** Adding `d` to the bucket of a key listed once adds `d` to the sum. */
  lemma {:induction false} SumOverUpdate(ks: seq<string>, vals: map<string, Bucket>, k: string, d: Bucket)
    requires NoDuplicates(ks) && k in ks
    ensures SumOver(ks, vals[k := Add(ValueOr(vals, k), d)]) == Add(SumOver(ks, vals), d)
    decreases |ks|
  {
    var vals' := vals[k := Add(ValueOr(vals, k), d)];
    var p, last := ks[..|ks| - 1], ks[|ks| - 1];
    var s, s' := SumOver(p, vals), SumOver(p, vals');
    assert SumOver(ks, vals) == Add(s, ValueOr(vals, last));
    assert SumOver(ks, vals') == Add(s', ValueOr(vals', last));
    if last == k {
      assert forall j :: 0 <= j < |p| ==> p[j] != k;
      SumOverFrame(p, vals, vals');
      AddAssociative(s, ValueOr(vals, k), d);
    } else {
      assert k in p by { var i := IndexOf(ks, k); assert p[i] == k; }
      SumOverUpdate(p, vals, k, d);
      AddAssociative(s, d, ValueOr(vals, last));
      AddCommutative(d, ValueOr(vals, last));
      AddAssociative(s, ValueOr(vals, last), d);
    }
  }

  /** Appending a new key with bucket `v` adds `v` to the sum. */
  lemma SumOverExtend(ks: seq<string>, vals: map<string, Bucket>, k: string, v: Bucket)
    requires k !in ks
    ensures SumOver(ks + [k], vals[k := v]) == Add(SumOver(ks, vals), v)
  {
    var vals' := vals[k := v];
    SumOverFrame(ks, vals, vals');
    assert (ks + [k])[..|ks|] == ks;
  }

  /** Popping a bucket takes exactly that bucket out of the table sum. */
  lemma SumTableRemove(t: Table, k: string)
    requires Valid(t) && k in t.values
    ensures Add(SumTable(Remove(t, k)), t.values[k]) == SumTable(t)
  {
    var ks := t.keys;
    var i := IndexOf(ks, k);
    var pre, post := ks[..i], ks[i + 1..];
    assert ks == (pre + [k]) + post;
    var r := Remove(t, k);
    assert r.keys == pre + post;
    assert forall j :: 0 <= j < |r.keys| ==> r.keys[j] != k;
    SumOverFrame(r.keys, r.values, t.values);
    var a, b, c := SumOver(pre, t.values), t.values[k], SumOver(post, t.values);
    SumOverAppend(pre, post, t.values);
    SumOverAppend(pre + [k], post, t.values);
    SumOverAppend(pre, [k], t.values);
    assert SumOver([k], t.values) == Add(Zero, b);
    AddZero(b);
    assert SumTable(r) == Add(a, c);
    assert SumTable(t) == Add(Add(a, b), c);
    AddAssociative(a, c, b);
    AddCommutative(c, b);
    AddAssociative(a, b, c);
  }

  /**
   * One accumulation step, as the source writes it: create the bucket with
   * zeros if `k` is new, then add `d` to each of its four fields.
   */
  function Accumulate(t: Table, k: string, d: Bucket): (r: Table)
    ensures r.keys == if k in t.values then t.keys else t.keys + [k]
    ensures r.values == t.values[k := Add(GetOrZero(t, k), d)]
  {
    var t1 := if k in t.values then t else Put(t, k, Zero);
    Put(t1, k, Add(t1.values[k], d))
  }

  /** For a key already present, an accumulation step is the in-place `+=` on its bucket. */
  lemma AccumulatePresent(t: Table, k: string, d: Bucket)
    requires k in t.values
    ensures Accumulate(t, k, d) == Put(t, k, Add(t.values[k], d))
  {
  }

  lemma AccumulateValid(t: Table, k: string, d: Bucket)
    requires Valid(t)
    ensures Valid(Accumulate(t, k, d))
  {
    if k !in t.values {
      PutValid(t, k, Zero);
    }
    var t1 := if k in t.values then t else Put(t, k, Zero);
    PutValid(t1, k, Add(t1.values[k], d));
  }

  /** An accumulation step adds its contribution to the table sum. */
  lemma AccumulateSum(t: Table, k: string, d: Bucket)
    requires Valid(t)
    ensures SumTable(Accumulate(t, k, d)) == Add(SumTable(t), d)
  {
    var r := Accumulate(t, k, d);
    if k in t.values {
      assert r.keys == t.keys && r.values == t.values[k := Add(ValueOr(t.values, k), d)];
      assert k in t.keys;
      SumOverUpdate(t.keys, t.values, k, d);
    } else {
      AddZero(d);
      assert r.keys == t.keys + [k] && r.values == t.values[k := d];
      SumOverExtend(t.keys, t.values, k, d);
    }
  }

  /** A (key, contribution) pair produced by one row. */
  type Entry = (string, Bucket)

  /** Accumulating the entries one after the other into table `t`. */
  function Fold(t: Table, es: seq<Entry>): Table {
    if es == [] then t
    else
      var e := es[|es| - 1];
      Accumulate(Fold(t, es[..|es| - 1]), e.0, e.1)
  }

  /** The sum of all contributions. */
  function SumEntries(es: seq<Entry>): Bucket {
    if es == [] then Zero else Add(SumEntries(es[..|es| - 1]), es[|es| - 1].1)
  }

  /** The sum of the contributions whose key is `k`. */
  function KeySum(es: seq<Entry>, k: string): Bucket {
    if es == [] then Zero
    else
      var e := es[|es| - 1];
      if e.0 == k then Add(KeySum(es[..|es| - 1], k), e.1) else KeySum(es[..|es| - 1], k)
  }

  lemma FoldAppend(t: Table, es: seq<Entry>, e: Entry)
    ensures Fold(t, es + [e]) == Accumulate(Fold(t, es), e.0, e.1)
  {
    assert (es + [e])[..|es|] == es;
  }

  /** Accumulating into a key already present is the in-place `+=` on its bucket. */
  lemma FoldStepPresent(t: Table, es: seq<Entry>, e: Entry)
    requires e.0 in Fold(t, es).values
    ensures Fold(t, es + [e]) == Put(Fold(t, es), e.0, Add(Fold(t, es).values[e.0], e.1))
  {
    FoldAppend(t, es, e);
    AccumulatePresent(Fold(t, es), e.0, e.1);
  }

  lemma {:induction false} FoldValid(t: Table, es: seq<Entry>)
    requires Valid(t)
    ensures Valid(Fold(t, es))
    decreases |es|
  {
    if es != [] {
      var p, e := es[..|es| - 1], es[|es| - 1];
      FoldValid(t, p);
      AccumulateValid(Fold(t, p), e.0, e.1);
    }
  }

  /** The fold keeps the table sum equal to the initial sum plus every contribution. */
  lemma {:induction false} FoldSum(t: Table, es: seq<Entry>)
    requires Valid(t)
    ensures SumTable(Fold(t, es)) == Add(SumTable(t), SumEntries(es))
    decreases |es|
  {
    if es != [] {
      var p, e := es[..|es| - 1], es[|es| - 1];
      var f := Fold(t, p);
      assert Fold(t, es) == Accumulate(f, e.0, e.1);
      assert SumEntries(es) == Add(SumEntries(p), e.1);
      FoldSum(t, p);
      FoldValid(t, p);
      AccumulateSum(f, e.0, e.1);
      AddAssociative(SumTable(t), SumEntries(p), e.1);
    } else {
      AddZero(SumTable(t));
    }
  }

  /** Folding into a table of zero buckets leaves exactly the entries' sum. */
  lemma FoldZeroSum(t: Table, es: seq<Entry>)
    requires Valid(t) && AllZero(t)
    ensures SumTable(Fold(t, es)) == SumEntries(es)
  {
    FoldSum(t, es);
    SumOfZeros(t.keys, t.values);
    AddZero(SumEntries(es));
  }

  /** Each bucket ends as its initial value plus the contributions carrying its key. */
  lemma {:induction false} FoldGet(t: Table, es: seq<Entry>, k: string)
    ensures GetOrZero(Fold(t, es), k) == Add(GetOrZero(t, k), KeySum(es, k))
    decreases |es|
  {
    if es != [] {
      FoldGet(t, es[..|es| - 1], k);
    }
  }

  /** A key is in the folded table exactly when it was there already or some entry carries it. */
  lemma {:induction false} FoldKeys(t: Table, es: seq<Entry>, k: string)
    ensures k in Fold(t, es).values <==> k in t.values || exists j :: 0 <= j < |es| && es[j].0 == k
    decreases |es|
  {
    if es != [] {
      var p := es[..|es| - 1];
      FoldKeys(t, p, k);
      if exists j :: 0 <= j < |p| && p[j].0 == k {
        var j :| 0 <= j < |p| && p[j].0 == k;
        assert es[j].0 == k;
      }
      if exists j :: 0 <= j < |es| && es[j].0 == k {
        var j :| 0 <= j < |es| && es[j].0 == k;
        if j < |p| {
          assert p[j].0 == k;
        }
      }
    }
  }

  /** When every entry's key is already present, the fold leaves the keys and their order alone. */
  lemma {:induction false} FoldKeysStable(t: Table, es: seq<Entry>)
    requires forall j :: 0 <= j < |es| ==> es[j].0 in t.values
    ensures Fold(t, es).keys == t.keys
    ensures Fold(t, es).values.Keys == t.values.Keys
    decreases |es|
  {
    if es != [] {
      FoldKeysStable(t, es[..|es| - 1]);
    }
  }

  /** A sum of normalized buckets is normalized. */
  lemma {:induction false} SumOverNormalized(ks: seq<string>, vals: map<string, Bucket>, divisor: int)
    requires forall k :: k in vals ==> Normalized(vals[k], divisor)
    ensures Normalized(SumOver(ks, vals), divisor)
    decreases |ks|
  {
    if ks != [] {
      var p := ks[..|ks| - 1];
      SumOverNormalized(p, vals, divisor);
      AddNormalized(SumOver(p, vals), ValueOr(vals, ks[|ks| - 1]), divisor);
    }
  }

  /** Accumulating normalized contributions into normalized buckets keeps them normalized. */
  lemma {:induction false} FoldNormalized(t: Table, es: seq<Entry>, divisor: int)
    requires AllNormalized(t, divisor)
    requires forall j :: 0 <= j < |es| ==> Normalized(es[j].1, divisor)
    ensures AllNormalized(Fold(t, es), divisor)
    decreases |es|
  {
    if es != [] {
      var p, e := es[..|es| - 1], es[|es| - 1];
      FoldNormalized(t, p, divisor);
      var f := Fold(t, p);
      AddNormalized(GetOrZero(f, e.0), e.1, divisor);
    }
  }
}
