/**
 * Time series (internal/store/timeseries.go and TSDownsample in internal/store/store.go):
 * samples kept strictly ordered by timestamp, range queries by binary search, and aggregation
 * into fixed-size buckets. Values are exact reals.
 */
module TimeSeriesStore {
  import opened Common
  import opened Search

  datatype Sample = Sample(ts: int, value: real)

  /** An unknown aggregation name behaves as `First`. */
  datatype Agg = Avg | Sum | Min | Max | Count | First | Last

  ghost predicate Sorted(s: seq<Sample>) {
    forall i, j :: 0 <= i < j < |s| ==> s[i].ts < s[j].ts
  }

  // ----- reference definitions -----

  /** The samples with a timestamp in `[lo, hi)`, by a linear scan. */
  function Between(s: seq<Sample>, lo: int, hi: int): seq<Sample> {
    if s == [] then []
    else if lo <= s[0].ts < hi then [s[0]] + Between(s[1..], lo, hi)
    else Between(s[1..], lo, hi)
  }

  function Values(s: seq<Sample>): (v: seq<real>)
    ensures |v| == |s|
  {
    if s == [] then [] else [s[0].value] + Values(s[1..])
  }

  function Total(v: seq<real>): real {
    if v == [] then 0.0 else v[0] + Total(v[1..])
  }

  function Least(v: seq<real>): real
    requires v != []
  {
    if |v| == 1 then v[0] else Lower(v[0], Least(v[1..]))
  }

  function Greatest(v: seq<real>): real
    requires v != []
  {
    if |v| == 1 then v[0] else Higher(v[0], Greatest(v[1..]))
  }

  function Lower(a: real, b: real): real { if b < a then b else a }
  function Higher(a: real, b: real): real { if b > a then b else a }

  function Aggregate(agg: Agg, v: seq<real>): real
    requires v != []
  {
    match agg
    case Avg => Total(v) / |v| as real
    case Sum => Total(v)
    case Min => Least(v)
    case Max => Greatest(v)
    case Count => |v| as real
    case First => v[0]
    case Last => v[|v| - 1]
  }

  /** One bucket `[from, from + size)`: nothing if it is empty. */
  function Bucket(s: seq<Sample>, from: int, size: int, agg: Agg): (r: seq<Sample>) {
    var inside := Between(s, from, from + size);
    if inside == [] then [] else [Sample(from, Aggregate(agg, Values(inside)))]
  }

  /** `n` consecutive buckets starting at `from`. */
  function Buckets(s: seq<Sample>, from: int, n: nat, size: int, agg: Agg): (r: seq<Sample>)
    decreases n
  {
    if n == 0 then [] else Bucket(s, from, size, agg) + Buckets(s, from + size, n - 1, size, agg)
  }

  /** How many buckets it takes to reach `to`; the last one may reach beyond it. */
  function BucketCount(from: int, to: int, size: int): nat
    requires size > 0
    decreases if from < to then to - from else 0
  {
    if from >= to then 0 else 1 + BucketCount(from + size, to, size)
  }

  function Downsampled(s: seq<Sample>, from: int, to: int, size: int, agg: Agg): seq<Sample> {
    if size <= 0 then [] else Buckets(s, from, BucketCount(from, to, size), size, agg)
  }

  // ----- the series -----

  class TimeSeries {
    var samples: seq<Sample>

    ghost predicate Valid() reads this { Sorted(samples) }

    constructor ()
      ensures Valid() && samples == []
    {
      samples := [];
    }

    method FirstAtOrAfter(ts: int) returns (idx: nat)
      requires Valid()
      ensures idx <= |samples|
      ensures forall i :: 0 <= i < idx ==> samples[i].ts < ts
      ensures forall i :: idx <= i < |samples| ==> samples[i].ts >= ts
    {
      var s := samples;
      var f := (i: nat) => i < |s| && s[i].ts >= ts;
      idx := FirstTrue(|s|, f);
      assert forall i :: 0 <= i < |s| ==> (f(i) <==> s[i].ts >= ts);
    }

    /** A map update at the timestamp: the old sample there goes, every other one stays. */
    method Add(ts: int, value: real)
      requires Valid()
      modifies this
      ensures Valid()
      ensures forall x :: x in samples <==> x == Sample(ts, value) || (x in old(samples) && x.ts != ts)
      ensures Later(old(samples), ts) ==> samples == old(samples) + [Sample(ts, value)]
    {
      var idx := FirstAtOrAfter(ts);
      if idx < |samples| && samples[idx].ts == ts {
        Replaced(samples, idx, value);
        samples := samples[idx := Sample(ts, value)];
        return;
      }
      Inserted(samples, idx, Sample(ts, value));
      samples := samples[..idx] + [Sample(ts, value)] + samples[idx..];
    }

    /** Equal to the linear filter, cut to `count` when that is positive; both ends are inclusive. */
    method Range(from: int, to: int, count: int) returns (results: seq<Sample>)
      requires Valid()
      ensures results == Take(Between(samples, from, to + 1), count)
    {
      var start := FirstAtOrAfter(from);
      BetweenSkips(samples, start, from, to + 1);
      results := ScanUpTo(samples[start..], from, to, count);
    }

    method Downsample(from: int, to: int, size: int, agg: Agg) returns (results: seq<Sample>)
      requires Valid()
      ensures results == Downsampled(samples, from, to, size, agg)
    {
      if size <= 0 { return []; }
      if |samples| == 0 {
        NoSamples(from, BucketCount(from, to, size), size, agg);
        return [];
      }
      results := [];
      var start := from;
      ghost var all := Downsampled(samples, from, to, size, agg);
      while start < to
        invariant all == results + Downsampled(samples, start, to, size, agg)
        decreases if start < to then to - start else 0
      {
        NextBucket(results, samples, start, to, size, agg);
        var bucket := OneBucket(start, size, agg);
        results := results + bucket;
        start := start + size;
      }
    }

    /** An empty bucket produces no sample. */
    method OneBucket(start: int, size: int, agg: Agg) returns (bucket: seq<Sample>)
      requires Valid()
      ensures bucket == Bucket(samples, start, size, agg)
    {
      var inside := Range(start, start + size - 1, 0);
      if |inside| > 0 {
        var v := Combine(agg, Values(inside));
        return [Sample(start, v)];
      }
      return [];
    }
  }

  lemma NextBucket(done: seq<Sample>, s: seq<Sample>, start: int, to: int, size: int, agg: Agg)
    requires size > 0 && start < to
    ensures done + Downsampled(s, start, to, size, agg)
         == done + Bucket(s, start, size, agg) + Downsampled(s, start + size, to, size, agg)
  {
    assert Downsampled(s, start, to, size, agg)
        == Bucket(s, start, size, agg) + Downsampled(s, start + size, to, size, agg);
  }

  method ScanUpTo(s: seq<Sample>, from: int, to: int, count: int) returns (results: seq<Sample>)
    requires Sorted(s) && forall i :: 0 <= i < |s| ==> from <= s[i].ts
    ensures results == Take(Between(s, from, to + 1), count)
  {
    results := [];
    var i := 0;
    ghost var all := Between(s, from, to + 1);
    while i < |s|
      invariant 0 <= i <= |s| && |results| == i
      invariant all == results + Between(s[i..], from, to + 1)
      invariant count > 0 ==> |results| < count
    {
      if s[i].ts > to {
        BetweenEmpty(s[i..], from, to + 1);
        break;
      }
      assert s[i..][1..] == s[i + 1..];
      results := results + [s[i]];
      if count > 0 && |results| >= count { return; }
      i := i + 1;
    }
  }

  /** TSDownsample: the results are added one by one to a new series. */
  method DownsampleInto(src: TimeSeries, from: int, to: int, size: int, agg: Agg) returns (dst: TimeSeries)
    requires src.Valid()
    ensures fresh(dst) && dst.Valid() && dst.samples == Downsampled(src.samples, from, to, size, agg)
  {
    var results := src.Downsample(from, to, size, agg);
    if size > 0 { BucketsSorted(src.samples, from, BucketCount(from, to, size), size, agg); }
    dst := new TimeSeries();
    for i := 0 to |results|
      invariant dst.Valid() && dst.samples == results[..i]
    {
      dst.Add(results[i].ts, results[i].value);
    }
  }

  /** The aggregation loops; an empty `best` stands for the infinity the minimum or maximum starts from. */
  method Combine(agg: Agg, v: seq<real>) returns (val: real)
    requires v != []
    ensures val == Aggregate(agg, v)
  {
    match agg {
      case Avg => var sum := SumLoop(v); val := sum / |v| as real;
      case Sum => val := SumLoop(v);
      case Min => val := ExtremeLoop(v, true);
      case Max => val := ExtremeLoop(v, false);
      case Count => val := |v| as real;
      case First => val := v[0];
      case Last => val := v[|v| - 1];
    }
  }

  method SumLoop(v: seq<real>) returns (sum: real)
    ensures sum == Total(v)
  {
    sum := 0.0;
    for i := 0 to |v|
      invariant sum + Total(v[i..]) == Total(v)
    {
      assert v[i..][1..] == v[i + 1..];
      sum := sum + v[i];
    }
  }

  method ExtremeLoop(v: seq<real>, lowest: bool) returns (best: real)
    requires v != []
    ensures best == if lowest then Least(v) else Greatest(v)
  {
    best := v[0];
    for i := 1 to |v|
      invariant best == if lowest then Least(v[..i]) else Greatest(v[..i])
    {
      assert v[..i + 1] == v[..i] + [v[i]];
      ExtremeAppend(v[..i], [v[i]]);
      if lowest && v[i] < best { best := v[i]; }
      if !lowest && v[i] > best { best := v[i]; }
    }
    assert v[..|v|] == v;
  }

  // ----- what is computed, in other words -----

  /** The samples of a stretch of time, its start included and its end not, in order. */
  lemma {:induction false} BetweenIs(s: seq<Sample>, lo: int, hi: int)
    requires Sorted(s)
    ensures Sorted(Between(s, lo, hi)) && forall x :: x in Between(s, lo, hi) <==> x in s && lo <= x.ts < hi
  {
    if s != [] {
      var rest := Between(s[1..], lo, hi);
      BetweenIs(s[1..], lo, hi);
      assert s == [s[0]] + s[1..];
      forall i | 0 <= i < |rest| ensures s[0].ts < rest[i].ts {
        assert rest[i] in s[1..];
        var j :| 0 <= j < |s[1..]| && s[1..][j] == rest[i];
        assert s[j + 1] == rest[i];
      }
    }
  }

  /** The aggregates: a sum, the sum divided by the number, a bound that is reached, the number, and the two ends. */
  lemma AggregateIs(v: seq<real>, x: real)
    requires v != []
    ensures Aggregate(Sum, [x]) == x && Aggregate(Sum, [x] + v) == x + Aggregate(Sum, v)
    ensures Aggregate(Avg, v) * |v| as real == Aggregate(Sum, v)
    ensures Aggregate(Min, v) in v && forall i :: 0 <= i < |v| ==> Aggregate(Min, v) <= v[i]
    ensures Aggregate(Max, v) in v && forall i :: 0 <= i < |v| ==> Aggregate(Max, v) >= v[i]
    ensures Aggregate(Count, v) == |v| as real && Aggregate(First, v) == v[0] && Aggregate(Last, v) == v[|v| - 1]
  {
    hide Total, Least, Greatest;
    TotalIs(v, x);
    Quotient(Total(v), |v| as real);
    ExtremesAre(v);
  }

  lemma TotalIs(v: seq<real>, x: real)
    ensures Total([x]) == x && Total([x] + v) == x + Total(v)
  {
    assert ([x] + v)[1..] == v && [x][1..] == [];
  }

  lemma Quotient(a: real, b: real)
    requires b != 0.0
    ensures a / b * b == a
  {}

  lemma {:induction false} ExtremesAre(v: seq<real>)
    requires v != []
    ensures Least(v) in v && forall i :: 0 <= i < |v| ==> Least(v) <= v[i]
    ensures Greatest(v) in v && forall i :: 0 <= i < |v| ==> Greatest(v) >= v[i]
    decreases |v|
  {
    if |v| > 1 {
      var rest := v[1..];
      ExtremesAre(rest);
      assert forall i :: 1 <= i < |v| ==> v[i] == rest[i - 1];
      assert v == [v[0]] + rest;
    }
  }

  /** Values are taken in the order of the samples. */
  lemma {:induction false} ValuesAre(s: seq<Sample>)
    ensures forall i :: 0 <= i < |s| ==> Values(s)[i] == s[i].value
  {
    if s != [] { ValuesAre(s[1..]); }
  }

  /**
   * Downsampling yields a sample at `from`, and every `size` later before `to`, wherever that stretch
   * of length `size` holds any; its value is their aggregate.
   */
  lemma {:induction false} DownsampledAt(s: seq<Sample>, from: int, to: int, size: int, agg: Agg, k: nat, value: real)
    requires size > 0
    ensures var start := from + k * size; var inside := Between(s, start, start + size);
            Sample(start, value) in Downsampled(s, from, to, size, agg) <==>
              start < to && inside != [] && value == Aggregate(agg, Values(inside))
    decreases k
  {
    hide Between, Aggregate, Values, Buckets;
    var start := from + k * size;
    assert k * size >= 0;
    if from < to {
      var first, rest := Bucket(s, from, size, agg), Downsampled(s, from + size, to, size, agg);
      BucketThenRest(s, from, to, size, agg);
      if k > 0 {
        assert start == from + size + (k - 1) * size && (k - 1) * size >= 0;
        DownsampledAt(s, from + size, to, size, agg, k - 1, value);
      } else {
        DownsampledWithin(s, from + size, to, size, agg);
      }
    } else { NothingToDo(s, from, to, size, agg); }
  }

  lemma NothingToDo(s: seq<Sample>, from: int, to: int, size: int, agg: Agg)
    requires size > 0 && from >= to
    ensures Downsampled(s, from, to, size, agg) == []
  {}

  lemma BucketThenRest(s: seq<Sample>, from: int, to: int, size: int, agg: Agg)
    requires size > 0 && from < to
    ensures Downsampled(s, from, to, size, agg)
         == Bucket(s, from, size, agg) + Downsampled(s, from + size, to, size, agg)
  {
    hide Bucket;
  }

  lemma DownsampledWithin(s: seq<Sample>, from: int, to: int, size: int, agg: Agg)
    requires size > 0
    ensures forall r :: r in Downsampled(s, from, to, size, agg) ==> r.ts >= from
  {
    hide Bucket;
    BucketsWithin(s, from, BucketCount(from, to, size), size, agg);
  }

  /** And at no other time; nothing at all if the size is not positive. */
  lemma {:induction false} DownsampledOnly(s: seq<Sample>, from: int, to: int, size: int, agg: Agg, r: Sample)
      returns (k: nat)
    requires r in Downsampled(s, from, to, size, agg)
    ensures size > 0 && r.ts == from + k * size
    decreases if from < to then to - from else 0
  {
    hide Between, Aggregate, Values, Buckets;
    if from >= to {
      NothingToDo(s, from, to, size, agg);
      assert false;
    }
    BucketThenRest(s, from, to, size, agg);
    if r in Bucket(s, from, size, agg) { return 0; }
    k := DownsampledOnly(s, from + size, to, size, agg, r);
    k := k + 1;
    assert k * size == (k - 1) * size + size;
  }

  // ----- proofs about ordered samples -----

  ghost predicate Later(s: seq<Sample>, ts: int) {
    forall i :: 0 <= i < |s| ==> s[i].ts < ts
  }

  lemma Replaced(s: seq<Sample>, k: nat, value: real)
    requires Sorted(s) && k < |s|
    ensures Sorted(s[k := Sample(s[k].ts, value)])
    ensures forall x :: x in s[k := Sample(s[k].ts, value)] <==>
              x == Sample(s[k].ts, value) || (x in s && x.ts != s[k].ts)
  {
    var t := s[k := Sample(s[k].ts, value)];
    forall x | x in s && x.ts != s[k].ts ensures x in t {
      var i :| 0 <= i < |s| && s[i] == x;
      assert t[i] == x;
    }
    assert t[k] in t;
  }

  lemma Inserted(s: seq<Sample>, k: nat, x: Sample)
    requires Sorted(s) && k <= |s|
    requires forall i :: 0 <= i < k ==> s[i].ts < x.ts
    requires forall i :: k <= i < |s| ==> s[i].ts > x.ts
    ensures var t := s[..k] + [x] + s[k..];
            Sorted(t) && forall y :: y in t <==> y == x || (y in s && y.ts != x.ts)
  {
    var t := s[..k] + [x] + s[k..];
    assert s == s[..k] + s[k..];
    forall y | y in s ensures y in t {}
  }

  lemma {:induction false} BetweenSkips(s: seq<Sample>, k: nat, lo: int, hi: int)
    requires k <= |s| && forall i :: 0 <= i < k ==> s[i].ts < lo
    ensures Between(s, lo, hi) == Between(s[k..], lo, hi)
  {
    if k > 0 {
      BetweenSkips(s[1..], k - 1, lo, hi);
      assert s[1..][k - 1..] == s[k..];
    } else { assert s[0..] == s; }
  }

  lemma {:induction false} BetweenEmpty(s: seq<Sample>, lo: int, hi: int)
    requires forall i :: 0 <= i < |s| ==> s[i].ts < lo || s[i].ts >= hi
    ensures Between(s, lo, hi) == []
  {
    if s != [] { BetweenEmpty(s[1..], lo, hi); }
  }

  lemma {:induction false} BetweenAll(s: seq<Sample>, lo: int, hi: int)
    requires forall i :: 0 <= i < |s| ==> lo <= s[i].ts < hi
    ensures Between(s, lo, hi) == s
  {
    if s != [] { BetweenAll(s[1..], lo, hi); assert s == [s[0]] + s[1..]; }
  }

  lemma {:induction false} BetweenAppend(s: seq<Sample>, t: seq<Sample>, lo: int, hi: int)
    ensures Between(s + t, lo, hi) == Between(s, lo, hi) + Between(t, lo, hi)
  {
    if s == [] { assert s + t == t; } else {
      assert (s + t)[1..] == s[1..] + t;
      BetweenAppend(s[1..], t, lo, hi);
    }
  }

  /** Splitting a window splits its samples, because they are in timestamp order. */
  lemma {:induction false} BetweenSplit(s: seq<Sample>, lo: int, mid: int, hi: int)
    requires Sorted(s) && lo <= mid <= hi
    ensures Between(s, lo, hi) == Between(s, lo, mid) + Between(s, mid, hi)
  {
    if s != [] {
      BetweenSplit(s[1..], lo, mid, hi);
      if mid <= s[0].ts { BetweenEmpty(s[1..], lo, mid); }
    }
  }

  // ----- proofs about aggregation -----

  lemma {:induction false} ValuesAppend(s: seq<Sample>, t: seq<Sample>)
    ensures Values(s + t) == Values(s) + Values(t)
  {
    if s == [] { assert s + t == t; } else {
      assert (s + t)[1..] == s[1..] + t;
      ValuesAppend(s[1..], t);
    }
  }

  lemma {:induction false} TotalAppend(v: seq<real>, w: seq<real>)
    ensures Total(v + w) == Total(v) + Total(w)
  {
    if v == [] { assert v + w == w; } else {
      assert (v + w)[1..] == v[1..] + w;
      TotalAppend(v[1..], w);
    }
  }

  lemma {:induction false} ExtremeAppend(v: seq<real>, w: seq<real>)
    requires v != [] && w != []
    ensures Least(v + w) == Lower(Least(v), Least(w)) && Greatest(v + w) == Higher(Greatest(v), Greatest(w))
  {
    assert (v + w)[1..] == v[1..] + w;
    if |v| > 1 { ExtremeAppend(v[1..], w); } else { assert v[1..] + w == w; }
  }

  /** The aggregation that recombines the results of `agg`; averages cannot be recombined. */
  function Outer(agg: Agg): Agg
    requires agg != Avg
  {
    if agg == Count then Sum else agg
  }

  lemma AggregateAppend(agg: Agg, v: seq<real>, w: seq<real>)
    requires agg != Avg && v != [] && w != []
    ensures Aggregate(agg, v + w) == Aggregate(Outer(agg), [Aggregate(agg, v), Aggregate(agg, w)])
  {
    TotalAppend(v, w);
    ExtremeAppend(v, w);
    Pair(Aggregate(agg, v), Aggregate(agg, w));
    match agg { case Sum => case Min => case Max => case Count => case First => case Last => }
  }

  lemma Pair(a: real, b: real)
    ensures [a, b][0] == a && Total([a, b]) == a + b && Least([a, b]) == Lower(a, b) && Greatest([a, b]) == Higher(a, b)
  {
    assert [a, b][1..] == [b] && [b][1..] == [];
    assert Total([b]) == b;
  }

  lemma {:induction false} NoSamples(from: int, n: nat, size: int, agg: Agg)
    ensures Buckets([], from, n, size, agg) == []
    decreases n
  {
    if n > 0 { NoSamples(from + size, n - 1, size, agg); }
  }

  /** The width of `n` buckets, `n * size`, by repeated addition. */
  function Width(n: nat, size: int): (w: int)
    ensures size > 0 ==> w >= 0 && (n > 0 ==> w >= size)
  {
    if n == 0 then 0 else size + Width(n - 1, size)
  }

  lemma {:induction false} WidthIs(n: nat, size: int)
    ensures Width(n, size) == n * size
  {
    if n > 0 { WidthIs(n - 1, size); assert n * size == (n - 1) * size + size; }
  }

  lemma {:induction false} BucketsWithin(s: seq<Sample>, from: int, n: nat, size: int, agg: Agg)
    requires size > 0
    ensures forall i :: 0 <= i < |Buckets(s, from, n, size, agg)| ==>
              from <= Buckets(s, from, n, size, agg)[i].ts < from + Width(n, size)
    decreases n
  {
    if n > 0 { BucketsWithin(s, from + size, n - 1, size, agg); }
  }

  lemma BucketStart(s: seq<Sample>, from: int, size: int, agg: Agg)
    ensures var b := Bucket(s, from, size, agg); b == [] || (|b| == 1 && b[0].ts == from)
  {}

  lemma {:induction false} BucketsSorted(s: seq<Sample>, from: int, n: nat, size: int, agg: Agg)
    requires size > 0
    ensures Sorted(Buckets(s, from, n, size, agg))
    decreases n
  {
    hide Bucket;
    if n > 0 {
      BucketsSorted(s, from + size, n - 1, size, agg);
      BucketsWithin(s, from + size, n - 1, size, agg);
      BucketStart(s, from, size, agg);
    }
  }

  lemma {:induction false} BucketsSplit(s: seq<Sample>, from: int, m: nat, n: nat, size: int, agg: Agg)
    ensures Buckets(s, from, m + n, size, agg)
         == Buckets(s, from, m, size, agg) + Buckets(s, from + Width(m, size), n, size, agg)
    decreases m
  {
    if m > 0 {
      BucketsSplit(s, from + size, m - 1, n, size, agg);
      assert from + size + Width(m - 1, size) == from + Width(m, size);
    }
  }

  lemma SameBucket(s: seq<Sample>, t: seq<Sample>, from: int, size: int, agg: Agg)
    requires Between(s, from, from + size) == Between(t, from, from + size)
    ensures Bucket(s, from, size, agg) == Bucket(t, from, size, agg)
  {}

  /** Buckets only look at samples from their start on. */
  lemma {:induction false} BucketsIgnorePast(s: seq<Sample>, t: seq<Sample>, from: int, n: nat, size: int, agg: Agg)
    requires size > 0 && Later(s, from)
    ensures Buckets(s + t, from, n, size, agg) == Buckets(t, from, n, size, agg)
    decreases n
  {
    if n > 0 {
      BetweenAppend(s, t, from, from + size);
      BetweenEmpty(s, from, from + size);
      assert Between(s + t, from, from + size) == Between(t, from, from + size);
      SameBucket(s + t, t, from, size, agg);
      BucketsIgnorePast(s, t, from + size, n - 1, size, agg);
    }
  }

  /** Aggregating `n` small buckets again gives the aggregate of the whole stretch. */
  lemma {:induction false} StretchComposes(s: seq<Sample>, from: int, n: nat, size: int, agg: Agg)
    requires Sorted(s) && size > 0 && agg != Avg
    ensures Recombines(Buckets(s, from, n, size, agg), Between(s, from, from + Width(n, size)), agg)
    decreases n
  {
    hide Between, Bucket, Aggregate, Values;
    if n == 0 {
      BetweenEmpty(s, from, from);
    } else {
      var next := from + size;
      var end := next + Width(n - 1, size);
      StretchComposes(s, next, n - 1, size, agg);
      BetweenSplit(s, from, next, end);
      OneMoreBucket(s, from, size, Between(s, next, end), Buckets(s, next, n - 1, size, agg), agg);
    }
  }

  /** Recombining the bucket results `small` gives the aggregate of the samples `all`. */
  ghost predicate Recombines(small: seq<Sample>, all: seq<Sample>, agg: Agg)
    requires agg != Avg
  {
    && (small == [] <==> all == [])
    && (small != [] ==> Aggregate(Outer(agg), Values(small)) == Aggregate(agg, Values(all)))
  }

  lemma OneMoreBucket(s: seq<Sample>, from: int, size: int, tail: seq<Sample>, rest: seq<Sample>, agg: Agg)
    requires agg != Avg && Recombines(rest, tail, agg)
    ensures Recombines(Bucket(s, from, size, agg) + rest, Between(s, from, from + size) + tail, agg)
  {
    var head := Between(s, from, from + size);
    if head == [] {
      assert head + tail == tail && [] + rest == rest;
    } else {
      var v := Aggregate(agg, Values(head));
      var first := [Sample(from, v)];
      assert Values(first) == [v] by { assert first[1..] == []; }
      Alone(agg, v);
      if rest == [] {
        assert head + tail == head && first + rest == first;
      } else {
        ValuesAppend(first, rest);
        ValuesAppend(head, tail);
        AggregateAppend(agg, Values(head), Values(tail));
        AggregateAppend(Outer(agg), [v], Values(rest));
      }
    }
  }

  lemma Alone(agg: Agg, v: real)
    requires agg != Avg
    ensures Aggregate(Outer(agg), [v]) == v
  {
    assert [v][1..] == [];
    assert Total([v]) == v;
    match agg { case Sum => case Min => case Max => case Count => case First => case Last => }
  }

  /** The first of several groups of `m` small buckets becomes one large bucket. */
  lemma FirstGroup(s: seq<Sample>, from: int, m: nat, n: nat, size: int, agg: Agg)
    requires Sorted(s) && size > 0 && m > 0 && agg != Avg
    ensures Bucket(Buckets(s, from, m + n, size, agg), from, Width(m, size), Outer(agg))
         == Bucket(s, from, Width(m, size), agg)
  {
    hide Between, Buckets, Width, Aggregate, Values, Sorted;
    var here, next := Buckets(s, from, m, size, agg), from + Width(m, size);
    var rest := Buckets(s, next, n, size, agg);
    BucketsSplit(s, from, m, n, size, agg);
    BucketsWithin(s, from, m, size, agg);
    BucketsWithin(s, next, n, size, agg);
    BetweenAppend(here, rest, from, next);
    BetweenAll(here, from, next);
    BetweenEmpty(rest, from, next);
    assert here + [] == here;
    StretchComposes(s, from, m, size, agg);
  }

  /** The other large buckets do not see the first group. */
  lemma LaterGroups(s: seq<Sample>, from: int, m: nat, n: nat, k: nat, size: int, agg: Agg)
    requires size > 0 && m > 0 && agg != Avg
    ensures Buckets(Buckets(s, from, m + n, size, agg), from + Width(m, size), k, Width(m, size), Outer(agg))
         == Buckets(Buckets(s, from + Width(m, size), n, size, agg), from + Width(m, size), k, Width(m, size),
           Outer(agg))
  {
    var here, next := Buckets(s, from, m, size, agg), from + Width(m, size);
    BucketsSplit(s, from, m, n, size, agg);
    BucketsWithin(s, from, m, size, agg);
    BucketsIgnorePast(here, Buckets(s, next, n, size, agg), next, k, Width(m, size), Outer(agg));
  }

  function Groups(m: nat, k: nat): nat {
    if k == 0 then 0 else m + Groups(m, k - 1)
  }

  /** `k` groups of `m` buckets: downsampling twice equals downsampling once by the larger size. */
  lemma {:induction false} GroupsCompose(s: seq<Sample>, from: int, m: nat, k: nat, size: int, agg: Agg,
      n: nat, big: int, d: seq<Sample>)
    requires Sorted(s) && size > 0 && m > 0 && agg != Avg
    requires n == Groups(m, k) && big == Width(m, size) && d == Buckets(s, from, n, size, agg)
    ensures Buckets(d, from, k, big, Outer(agg)) == Buckets(s, from, k, big, agg)
    decreases k
  {
    hide Buckets, Bucket, Width, Sorted;
    if k == 0 {
      NoBuckets(d, from, big, Outer(agg));
      NoBuckets(s, from, big, agg);
    } else {
      var n' := Groups(m, k - 1);
      FirstGroup(s, from, m, n', size, agg);
      LaterGroups(s, from, m, n', k - 1, size, agg);
      GroupsCompose(s, from + big, m, k - 1, size, agg, n', big, Buckets(s, from + big, n', size, agg));
      SameBuckets(d, s, from, k, big, Outer(agg), agg);
    }
  }

  lemma NoBuckets(s: seq<Sample>, from: int, size: int, agg: Agg)
    ensures Buckets(s, from, 0, size, agg) == []
  {}

  lemma SameBuckets(d: seq<Sample>, s: seq<Sample>, from: int, k: nat, size: int, outer: Agg, agg: Agg)
    requires k > 0 && Bucket(d, from, size, outer) == Bucket(s, from, size, agg)
    requires Buckets(d, from + size, k - 1, size, outer) == Buckets(s, from + size, k - 1, size, agg)
    ensures Buckets(d, from, k, size, outer) == Buckets(s, from, k, size, agg)
  {}

  /** The end of the stretch that downsampling actually reads. */
  function CoverEnd(from: int, to: int, size: int): int
    requires size > 0
  {
    from + BucketCount(from, to, size) * size
  }

  lemma {:induction false} BucketCountIs(from: int, to: int, size: int)
    requires size > 0 && from < to
    ensures var n := BucketCount(from, to, size);
            n > 0 && from + Width(n - 1, size) < to <= from + Width(n, size)
    decreases if from < to then to - from else 0
  {
    if from + size < to { BucketCountIs(from + size, to, size); }
  }

  function Twice(s: seq<Sample>, from: int, to: int, m: nat, size: int, agg: Agg): seq<Sample>
    requires agg != Avg
  {
    Downsampled(Downsampled(s, from, to, size, agg), from, to, m * size, Outer(agg))
  }

  /**
   * Downsampling by `size` and then by `m * size` agrees with downsampling once by `m * size`,
   * for every series, exactly when both read the same stretch of time.
   */
  lemma DownsampleTwice(from: int, to: int, m: nat, size: int, agg: Agg)
    requires size > 0 && m > 0 && agg != Avg && m * size > 0
    ensures CoverEnd(from, to, size) == CoverEnd(from, to, m * size)
       <==> forall s :: Sorted(s) ==> Twice(s, from, to, m, size, agg) == Downsampled(s, from, to, m * size, agg)
  {
    var n, k := BucketCount(from, to, size), BucketCount(from, to, m * size);
    WidthIs(m, size);
    if CoverEnd(from, to, size) == CoverEnd(from, to, m * size) {
      GroupsIs(m, k);
      SameProduct(n, m, k, size);
      forall s | Sorted(s)
        ensures Twice(s, from, to, m, size, agg) == Downsampled(s, from, to, m * size, agg)
      {
        GroupsCompose(s, from, m, k, size, agg, n, m * size, Buckets(s, from, n, size, agg));
      }
    } else {
      var s := [Sample(from + n * size, 1.0)];
      UncoveredSample(from, to, m, size, agg);
      assert Sorted(s);
    }
  }

  lemma {:induction false} GroupsIs(m: nat, k: nat)
    ensures Groups(m, k) == m * k
  {
    if k > 0 { GroupsIs(m, k - 1); assert m * k == m + m * (k - 1); }
  }

  lemma SameProduct(n: nat, m: nat, k: nat, size: int)
    requires size > 0 && n * size == k * (m * size)
    ensures n == m * k
  {
    Associate(k, m, size);
    CancelFactor(n, m * k, size);
  }

  lemma Associate(k: int, m: int, size: int)
    ensures k * (m * size) == (m * k) * size
  {}

  lemma CancelFactor(a: int, b: int, size: int)
    requires size > 0 && a * size <= b * size
    ensures a <= b && (a * size == b * size ==> a == b)
  {
    assert (b - a) * size >= 0;
  }

  /** A sample just past what the small buckets read is seen only by the large ones. */
  lemma UncoveredSample(from: int, to: int, m: nat, size: int, agg: Agg)
    requires size > 0 && m > 0 && agg != Avg && m * size > 0
    requires CoverEnd(from, to, size) != CoverEnd(from, to, m * size)
    ensures var s := [Sample(CoverEnd(from, to, size), 1.0)];
            Twice(s, from, to, m, size, agg) == [] != Downsampled(s, from, to, m * size, agg)
  {
    SmallMissIt(from, to, m, size, agg);
    FewerSmall(from, to, m, size);
    LargeSeeIt(CoverEnd(from, to, size), from, to, m * size, agg);
  }

  lemma SmallMissIt(from: int, to: int, m: nat, size: int, agg: Agg)
    requires size > 0 && m > 0 && agg != Avg && m * size > 0
    ensures Twice([Sample(CoverEnd(from, to, size), 1.0)], from, to, m, size, agg) == []
  {
    var n, k, big := BucketCount(from, to, size), BucketCount(from, to, m * size), m * size;
    var end := CoverEnd(from, to, size);
    var s := [Sample(end, 1.0)];
    WidthIs(n, size);
    BetweenEmpty(s, from, end);
    StretchComposes(s, from, n, size, agg);
    NoSamples(from, k, big, Outer(agg));
  }

  lemma LargeSeeIt(at: int, from: int, to: int, big: int, agg: Agg)
    requires big > 0 && agg != Avg && from <= at < CoverEnd(from, to, big)
    ensures Downsampled([Sample(at, 1.0)], from, to, big, agg) != []
  {
    var k := BucketCount(from, to, big);
    var s := [Sample(at, 1.0)];
    WidthIs(k, big);
    BetweenAll(s, from, from + k * big);
    StretchComposes(s, from, k, big, agg);
  }

  lemma FewerSmall(from: int, to: int, m: nat, size: int)
    requires size > 0 && m > 0 && m * size > 0
    requires CoverEnd(from, to, size) != CoverEnd(from, to, m * size)
    ensures from <= CoverEnd(from, to, size) < CoverEnd(from, to, m * size)
  {
    var n, k, big := BucketCount(from, to, size), BucketCount(from, to, m * size), m * size;
    if from < to {
      BucketCountIs(from, to, size);
      BucketCountIs(from, to, big);
      WidthIs(n - 1, size);
      WidthIs(k, big);
      RoundedUp(n, m, k, size, to - from);
    } else {
      assert n == k == 0;
    }
  }

  lemma RoundedUp(n: int, m: nat, k: nat, size: int, span: int)
    requires n > 0 && size > 0 && (n - 1) * size < span <= k * (m * size)
    ensures 0 <= n * size <= k * (m * size)
  {
    Associate(k, m, size);
    CancelFactor(n - 1, m * k, size);
    LargerProduct(n, m * k, size);
  }

  lemma LargerProduct(a: int, b: int, size: int)
    requires 0 <= a <= b && size > 0
    ensures 0 <= a * size <= b * size
  {
    assert (b - a) * size >= 0;
  }

  /** When the span is a whole number of large buckets, both read exactly `[from, to)`. */
  lemma WholeBuckets(from: int, m: nat, k: nat, size: int)
    requires size > 0 && m > 0 && m * size > 0
    ensures var to := from + k * (m * size);
            CoverEnd(from, to, size) == to == CoverEnd(from, to, m * size)
  {
    var n, big := m * k, m * size;
    Associate(k, m, size);
    WholeCount(from, n, size);
    WidthIs(n, size);
    WholeCount(from, k, big);
    WidthIs(k, big);
  }

  lemma {:induction false} WholeCount(from: int, n: nat, size: int)
    requires size > 0
    ensures BucketCount(from, from + Width(n, size), size) == n
    decreases n
  {
    if n > 0 {
      assert from + Width(n, size) == from + size + Width(n - 1, size);
      WholeCount(from + size, n - 1, size);
    }
  }

  /** The bucket counts add up to the number of samples read. */
  lemma CountsAddUp(s: seq<Sample>, from: int, to: int, size: int)
    requires Sorted(s) && size > 0
    ensures Total(Values(Downsampled(s, from, to, size, Count)))
         == |Between(s, from, CoverEnd(from, to, size))| as real
  {
    var n := BucketCount(from, to, size);
    StretchComposes(s, from, n, size, Count);
    WidthIs(n, size);
  }
}
