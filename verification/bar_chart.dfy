/** A time series of bars of one interval: reverse indexing from the latest
    bar, incremental merging of incoming candles, and down-sampling into a
    coarser interval. */
module BarCharts {
  import opened Prelude
  import opened TimeFrames
  import opened Bars

  /** `startTime` is the chart's start instant in epoch seconds; `data` holds
      the bars oldest first. */
  datatype BarChart = BarChart(symbol: string, interval: TimeFrame, startTime: int, data: seq<Bar>)

  function Lows(bars: seq<Bar>): (r: seq<real>)
    ensures |r| == |bars| && forall i :: 0 <= i < |bars| ==> r[i] == bars[i].low
  {
    seq(|bars|, i requires 0 <= i < |bars| => bars[i].low)
  }

  function Highs(bars: seq<Bar>): (r: seq<real>)
    ensures |r| == |bars| && forall i :: 0 <= i < |bars| ==> r[i] == bars[i].high
  {
    seq(|bars|, i requires 0 <= i < |bars| => bars[i].high)
  }

  function Closes(bars: seq<Bar>): (r: seq<real>)
    ensures |r| == |bars| && forall i :: 0 <= i < |bars| ==> r[i] == bars[i].close
  {
    seq(|bars|, i requires 0 <= i < |bars| => bars[i].close)
  }

  function Volumes(bars: seq<Bar>): (r: seq<real>)
    ensures |r| == |bars| && forall i :: 0 <= i < |bars| ==> r[i] == bars[i].volume
  {
    seq(|bars|, i requires 0 <= i < |bars| => bars[i].volume)
  }

  lemma VolumesAppend(a: seq<Bar>, b: seq<Bar>)
    ensures Volumes(a + b) == Volumes(a) + Volumes(b)
  {
  }

  // ---------------------------------------------------------------------
  // Accessors
  // ---------------------------------------------------------------------

  function Size(c: BarChart): nat
  {
    |c.data|
  }

  /** The most recent bar, if any. */
  function Latest(c: BarChart): Option<Bar>
  {
    if |c.data| == 0 then None else Some(c.data[|c.data| - 1])
  }

  /** The first bar; `data[0]` fails on an empty chart. */
  function Oldest(c: BarChart): Result<Bar>
  {
    if |c.data| == 0 then Err(IndexOutOfBounds) else Ok(c.data[0])
  }

  /** `min`: lowest low over the chart (`minOf` fails on an empty chart). */
  function MinLow(c: BarChart): (r: Option<real>)
    ensures r.Some? <==> |c.data| > 0
    ensures r.Some? ==> forall i :: 0 <= i < |c.data| ==> r.value <= c.data[i].low
    ensures r.Some? ==> exists i :: 0 <= i < |c.data| && r.value == c.data[i].low
  {
    if |c.data| == 0 then None else Some(MinOf(Lows(c.data)))
  }

  /** `max`: highest high over the chart (`maxOf` fails on an empty chart). */
  function MaxHigh(c: BarChart): (r: Option<real>)
    ensures r.Some? <==> |c.data| > 0
    ensures r.Some? ==> forall i :: 0 <= i < |c.data| ==> c.data[i].high <= r.value
    ensures r.Some? ==> exists i :: 0 <= i < |c.data| && r.value == c.data[i].high
  {
    if |c.data| == 0 then None else Some(MaxOf(Highs(c.data)))
  }

  /** `mean`: average close; on an empty chart the Double result is NaN. */
  function Mean(c: BarChart): (r: Option<real>)
    ensures r.Some? <==> |c.data| > 0
    ensures r.Some? ==> MinOf(Closes(c.data)) <= r.value <= MaxOf(Closes(c.data))
  {
    if |c.data| == 0 then None
    else
      var closes := Closes(c.data);
      AverageWithinExtremes(closes);
      Some(Average(closes))
  }

  /** `mean` is the average close: spread back over the bars it gives the
      total of the closes. */
  lemma MeanIsAverageClose(c: BarChart)
    requires |c.data| > 0
    ensures Mean(c) == Some(Average(Closes(c.data)))
    ensures Average(Closes(c.data)) * |c.data| as real == Sum(Closes(c.data))
  {
    MeanUnfolds(c);
    ClosesAverageScales(c);
  }

  lemma ClosesAverageScales(c: BarChart)
    requires |c.data| > 0
    ensures Average(Closes(c.data)) * |c.data| as real == Sum(Closes(c.data))
  {
    AverageTimesLength(Closes(c.data), Average(Closes(c.data)), |c.data|);
  }

  lemma MeanUnfolds(c: BarChart)
    requires |c.data| > 0
    ensures Mean(c) == Some(Average(Closes(c.data)))
  {
  }

  /** `chart[index]`: index 0 is the latest bar; an index outside the data
      yields a placeholder whose open time extrapolates backwards from the
      latest bar (or from the start time of an empty chart). */
  function Get(c: BarChart, index: int): Bar
  {
    var k := |c.data| - 1 - index;
    if 0 <= k < |c.data| then c.data[k]
    else
      var anchor := if |c.data| > 0 then c.data[|c.data| - 1].openTime else c.startTime;
      Placeholder(c.interval, anchor - index * Seconds(c.interval))
  }

  /** Index 0 reads the latest bar and index `size - 1` the oldest; an empty
      chart has no latest bar. */
  lemma GetCountsBackFromLatest(c: BarChart, index: int)
    ensures Latest(c).None? <==> |c.data| == 0
    ensures 0 <= index < |c.data| ==> Get(c, index) == c.data[|c.data| - 1 - index]
    ensures |c.data| > 0 ==> Latest(c) == Some(Get(c, 0))
    ensures |c.data| > 0 ==> Oldest(c) == Ok(Get(c, |c.data| - 1))
  {
  }

  /** When every stored bar is valid, `Get` returns a valid bar exactly for
      the in-range indices: everything else is a placeholder. */
  lemma GetIsValidExactlyInRange(c: BarChart, index: int)
    requires forall k :: 0 <= k < |c.data| ==> c.data[k].valid
    ensures Get(c, index).valid <==> 0 <= index < |c.data|
    ensures !(0 <= index < |c.data|) ==> Get(c, index).volume == 0.0 && Get(c, index).close == 0.0
  {
  }

  /** Bars sit back to back, one interval apart. */
  predicate Regular(c: BarChart)
  {
    forall k :: 0 <= k < |c.data| ==> c.data[k].openTime == c.data[0].openTime + k * Seconds(c.interval)
  }

  /** On a regular chart the open time of `chart[index]` is the same linear
      function of the index inside and outside the stored data. */
  lemma {:induction false} RegularChartTimeline(c: BarChart, index: int)
    requires Regular(c)
    ensures |c.data| > 0 ==> Get(c, index).openTime == c.data[|c.data| - 1].openTime - index * Seconds(c.interval)
    ensures |c.data| == 0 ==> Get(c, index).openTime == c.startTime - index * Seconds(c.interval)
  {
    var n := |c.data|;
    var s := Seconds(c.interval);
    if 0 <= n - 1 - index < n {
      var k := n - 1 - index;
      assert c.data[k].openTime == c.data[0].openTime + k * s;
      assert c.data[n - 1].openTime == c.data[0].openTime + (n - 1) * s;
      assert k * s == (n - 1) * s - index * s;
    }
  }

  /** Three five-minute bars closing at 10, 20 and 30: index 0 is the newest
      and index 3 a placeholder one interval before the first bar. */
  lemma GetExample(start: int)
    ensures var c := BarChart("TEST", MIN_5, start, [
                       Bar(MIN_5, start, 0.0, 10.0, 0.0, 0.0, 1.0, true),
                       Bar(MIN_5, start + 300, 0.0, 20.0, 0.0, 0.0, 1.0, true),
                       Bar(MIN_5, start + 600, 0.0, 30.0, 0.0, 0.0, 1.0, true)]);
            Get(c, 0).close == 30.0 && Get(c, 1).close == 20.0 && Get(c, 2).close == 10.0
            && Get(c, 2).openTime == start && Get(c, 0).openTime == start + 600
            && Get(c, 3).openTime == start - 300 && !Get(c, 3).valid
  {
  }

  // ---------------------------------------------------------------------
  // Incoming candles
  // ---------------------------------------------------------------------

  /** `addCandleStick`: a candle inside the latest bar's span is merged into
      it, any other candle starts a new bar carrying this chart's interval. */
  function AddCandleStick(c: BarChart, candle: Bar): (r: BarChart)
    ensures r.symbol == c.symbol && r.interval == c.interval && r.startTime == c.startTime
    ensures |c.data| <= |r.data| <= |c.data| + 1
    ensures forall k :: 0 <= k < |c.data| - 1 ==> r.data[k] == c.data[k]
    ensures |r.data| == |c.data|
        <==> |c.data| > 0 && IncludesTimestamp(c.data[|c.data| - 1], candle.openTime)
    ensures |r.data| == |c.data| ==>
        r.data[|c.data| - 1] == Merge(c.data[|c.data| - 1], candle)
    ensures |r.data| == |c.data| + 1 ==>
        r.data[..|c.data|] == c.data && r.data[|c.data|] == Retag(c.interval, candle)
  {
    var n := |c.data|;
    if n > 0 && IncludesTimestamp(c.data[n - 1], candle.openTime) then
      c.(data := c.data[n - 1 := Merge(c.data[n - 1], candle)])
    else
      c.(data := c.data + [Retag(c.interval, candle)])
  }

  /** Adding a candle adds exactly its volume to the chart's total, whether it
      is merged into the latest bar or appended as a new one. */
  lemma AddCandleStickAddsVolume(c: BarChart, candle: Bar)
    ensures Sum(Volumes(AddCandleStick(c, candle).data)) == Sum(Volumes(c.data)) + candle.volume
  {
    var n := |c.data|;
    if n > 0 && IncludesTimestamp(c.data[n - 1], candle.openTime) {
      var merged := Merge(c.data[n - 1], candle);
      assert Volumes(c.data[n - 1 := merged]) == Volumes(c.data)[n - 1 := merged.volume];
      SumUpdate(Volumes(c.data), n - 1, merged.volume);
    } else {
      VolumesAppend(c.data, [Retag(c.interval, candle)]);
      SumAppend(Volumes(c.data), Volumes([Retag(c.interval, candle)]));
      assert Sum(Volumes([Retag(c.interval, candle)])) == candle.volume;
    }
  }

  /** A base chart together with the down-sampled charts cached for it, keyed
      by their interval. */
  datatype ChartFamily = ChartFamily(base: BarChart, views: map<TimeFrame, BarChart>)

  /** The cache never holds the base interval (that request is answered by
      the base chart itself), and each view is keyed by its own interval. */
  predicate WellFormed(f: ChartFamily)
  {
    && f.base.interval !in f.views
    && forall tf :: tf in f.views ==> f.views[tf].interval == tf
  }

  /** `chart += candle`: only candles of the base interval are accepted; the
      candle is then merged into the base chart and into every cached view. */
  function PlusAssign(f: ChartFamily, candle: Bar): (r: Result<ChartFamily>)
    ensures r.Err? <==> candle.interval != f.base.interval
    ensures r.Err? ==> r.failure == IllegalArgument
    ensures r.Ok? ==> r.value.base == AddCandleStick(f.base, candle)
    ensures r.Ok? ==> r.value.views.Keys == f.views.Keys
    ensures r.Ok? ==> forall tf :: tf in f.views ==> r.value.views[tf] == AddCandleStick(f.views[tf], candle)
  {
    if candle.interval != f.base.interval then Err(IllegalArgument)
    else
      Ok(ChartFamily(
        AddCandleStick(f.base, candle),
        map tf | tf in f.views :: AddCandleStick(f.views[tf], candle)))
  }

  /** `getDownSampledChart`: the cached view of that interval, built from the
      base chart on first request. */
  function GetDownSampledChart(f: ChartFamily, tf: TimeFrame): Result<(ChartFamily, BarChart)>
  {
    if tf == f.base.interval then Ok((f, f.base))
    else if tf in f.views then Ok((f, f.views[tf]))
    else
      match DownSample(f.base, tf)
      case Err(e) => Err(e)
      case Ok(view) => Ok((f.(views := f.views[tf := view]), view))
  }

  /** The cache is consulted before anything is rebuilt: asking again for the
      same interval returns the same chart and leaves the family unchanged,
      and the first answer is the down-sampled base chart. */
  lemma DownSampledChartIsMemoised(f: ChartFamily, tf: TimeFrame)
    requires tf != f.base.interval && tf !in f.views
    ensures GetDownSampledChart(f, tf).Ok? <==> CanBeDownSampledTo(f.base.interval, tf)
    ensures GetDownSampledChart(f, tf).Ok? ==>
      var (f2, view) := GetDownSampledChart(f, tf).value;
      && Ok(view) == DownSample(f.base, tf)
      && GetDownSampledChart(f2, tf) == Ok((f2, view))
  {
  }

  /** A request for the base interval is answered by the base chart, and a
      request for a cached interval by the cached view, without touching the
      family; both operations keep the family well formed. */
  lemma ChartFamilyServesFromCache(f: ChartFamily, candle: Bar, tf: TimeFrame)
    requires WellFormed(f)
    ensures GetDownSampledChart(f, f.base.interval) == Ok((f, f.base))
    ensures tf in f.views ==> GetDownSampledChart(f, tf) == Ok((f, f.views[tf]))
    ensures GetDownSampledChart(f, tf).Ok? ==> WellFormed(GetDownSampledChart(f, tf).value.0)
    ensures PlusAssign(f, candle).Ok? ==> WellFormed(PlusAssign(f, candle).value)
  {
  }

  // ---------------------------------------------------------------------
  // Down-sampling
  // ---------------------------------------------------------------------

  function Flatten<T>(ss: seq<seq<T>>): seq<T>
  {
    if |ss| == 0 then [] else ss[0] + Flatten(ss[1..])
  }

  /** Kotlin's `chunked(size)`: consecutive runs of `size` elements, the last
      run possibly shorter. */
  function Chunked<T>(s: seq<T>, size: nat): (r: seq<seq<T>>)
    requires size >= 1
    ensures forall j :: 0 <= j < |r| ==> 1 <= |r[j]| <= size
    decreases |s|
  {
    if |s| == 0 then []
    else if |s| <= size then [s]
    else
      var rest := Chunked(s[size..], size);
      assert ([s[..size]] + rest)[1..] == rest;
      [s[..size]] + rest
  }

  /** Concatenating the chunks gives the sequence back. */
  lemma {:induction false} ChunkedFlattens<T>(s: seq<T>, size: nat)
    requires size >= 1
    ensures Flatten(Chunked(s, size)) == s
    decreases |s|
  {
    if |s| == 0 {
    } else if |s| <= size {
      assert Flatten([s]) == s + Flatten<T>([]);
    } else {
      var rest := Chunked(s[size..], size);
      ChunkedFlattens(s[size..], size);
      assert ([s[..size]] + rest)[1..] == rest;
      assert s[..size] + s[size..] == s;
    }
  }

  /** How many chunks `chunked(size)` makes of `n` elements. */
  lemma ChunkCount(n: nat, size: nat)
    requires size >= 1
    ensures n == 0 ==> (n + size - 1) / size == 0
    ensures 1 <= n <= size ==> (n + size - 1) / size == 1
    ensures n > size ==> (n + size - 1) / size == (n - size + size - 1) / size + 1
  {
    if n == 0 {
      DivisionUnique(size - 1, size, 0);
    } else if n <= size {
      DivisionUnique(n + size - 1, size, 1);
    } else {
      var m := n - size + size - 1;
      var q := m / size;
      assert q * size <= m < q * size + size;
      assert (q + 1) * size == q * size + size;
      DivisionUnique(n + size - 1, size, q + 1);
    }
  }

  /** `chunked(size)` makes `ceil(n / size)` chunks. */
  lemma {:induction false} ChunkedLength<T>(s: seq<T>, size: nat)
    requires size >= 1
    ensures |Chunked(s, size)| == (|s| + size - 1) / size
    decreases |s|
  {
    ChunkCount(|s|, size);
    if |s| > size {
      ChunkedLength(s[size..], size);
    }
  }

  /** Start of the `j`-th chunk, `j * size`, counted out chunk by chunk. */
  function ChunkStart(size: nat, j: nat): nat
  {
    if j == 0 then 0 else ChunkStart(size, j - 1) + size
  }

  lemma {:induction false} ChunkStartIsProduct(size: nat, j: nat)
    ensures ChunkStart(size, j) == j * size
  {
    if j > 0 {
      ChunkStartIsProduct(size, j - 1);
      assert (j - 1) * size + size == j * size;
    }
  }

  /** End (exclusive) of the `j`-th chunk of a sequence of length `n`. */
  function ChunkEnd(n: nat, size: nat, j: nat): nat
  {
    if ChunkStart(size, j) + size <= n then ChunkStart(size, j) + size else n
  }

  /** The `j`-th chunk is the slice from its start to its end. */
  lemma {:induction false} ChunkIsSlice<T>(s: seq<T>, size: nat, j: nat)
    requires size >= 1 && j < |Chunked(s, size)|
    ensures ChunkStart(size, j) < ChunkEnd(|s|, size, j) <= |s|
    ensures Chunked(s, size)[j] == s[ChunkStart(size, j) .. ChunkEnd(|s|, size, j)]
    decreases |s|
  {
    if |s| <= size {
      assert Chunked(s, size) == [s];
    } else if j > 0 {
      var t := s[size..];
      ChunkIsSlice(t, size, j - 1);
      var lo, hi := ChunkStart(size, j - 1), ChunkEnd(|t|, size, j - 1);
      assert lo < hi <= |t|;
      assert Chunked(t, size)[j - 1] == t[lo..hi];
      assert Chunked(s, size)[j] == Chunked(t, size)[j - 1];
      assert ChunkStart(size, j) == size + lo;
      assert ChunkEnd(|s|, size, j) == size + hi;
      SliceOfSuffix(s, size, lo, hi);
    }
  }

  lemma SliceOfSuffix<T>(s: seq<T>, k: nat, lo: nat, hi: nat)
    requires k <= |s| && lo <= hi <= |s| - k
    ensures s[k..][lo..hi] == s[k + lo .. k + hi]
  {
  }

  /** One target bar from a non-empty run of source bars. */
  function ComputeBar(target: TimeFrame, chunk: seq<Bar>): (r: Bar)
    requires |chunk| >= 1
    ensures r.interval == target && r.valid
    ensures r.openTime == chunk[0].openTime && r.open == chunk[0].open
    ensures r.close == chunk[|chunk| - 1].close
    ensures forall i :: 0 <= i < |chunk| ==> r.low <= chunk[i].low && chunk[i].high <= r.high
    ensures (exists i :: 0 <= i < |chunk| && r.low == chunk[i].low)
         && (exists i :: 0 <= i < |chunk| && r.high == chunk[i].high)
    ensures r.volume == Sum(Volumes(chunk))
  {
    Bar(target, chunk[0].openTime, chunk[0].open, chunk[|chunk| - 1].close,
        MaxOf(Highs(chunk)), MinOf(Lows(chunk)), Sum(Volumes(chunk)), true)
  }

  function ComputeBars(target: TimeFrame, chunks: seq<seq<Bar>>): (r: seq<Bar>)
    requires forall j :: 0 <= j < |chunks| ==> |chunks[j]| >= 1
    ensures |r| == |chunks|
    ensures forall j :: 0 <= j < |chunks| ==> r[j] == ComputeBar(target, chunks[j])
  {
    if |chunks| == 0 then []
    else [ComputeBar(target, chunks[0])] + ComputeBars(target, chunks[1..])
  }

  /** Number of source bars folded into one bar of `target`. */
  function Step(c: BarChart, target: TimeFrame): nat
    requires CanBeDownSampledTo(c.interval, target)
  {
    DownSamplingStepAtLeastTwo(c.interval, target);
    Seconds(target) / Seconds(c.interval)
  }

  /** `downSampleData`: refused unless the interval divides the target
      interval; otherwise one target bar per run of `Step` source bars. */
  function DownSampleData(c: BarChart, target: TimeFrame): (r: Result<seq<Bar>>)
    ensures r.Err? <==> !CanBeDownSampledTo(c.interval, target)
    ensures r.Err? ==> r.failure == IllegalArgument
    ensures r.Ok? ==> |r.value| == (|c.data| + Step(c, target) - 1) / Step(c, target)
  {
    if !CanBeDownSampledTo(c.interval, target) then Err(IllegalArgument)
    else
      var step := Step(c, target);
      ChunkedLength(c.data, step);
      Ok(ComputeBars(target, Chunked(c.data, step)))
  }

  /** `downSample`: the chart itself for its own interval, otherwise a new
      chart with the same symbol and start time over the down-sampled data. */
  function DownSample(c: BarChart, target: TimeFrame): (r: Result<BarChart>)
    ensures target == c.interval ==> r == Ok(c)
    ensures target != c.interval ==> (r.Ok? <==> CanBeDownSampledTo(c.interval, target))
    ensures r.Ok? ==> r.value.symbol == c.symbol && r.value.startTime == c.startTime
    ensures r.Ok? ==> r.value.interval == target
    ensures r.Ok? && target != c.interval ==> r.value.data == DownSampleData(c, target).value
  {
    if c.interval == target then Ok(c)
    else
      match DownSampleData(c, target)
      case Err(e) => Err(e)
      case Ok(bars) => Ok(BarChart(c.symbol, target, c.startTime, bars))
  }

  /** Each down-sampled bar takes open and open time from the first bar of its
      run, close from the last, the extreme high and low and the summed
      volume, and carries the target interval. */
  lemma DownSampledBar(c: BarChart, target: TimeFrame, j: nat)
    requires DownSampleData(c, target).Ok? && j < |DownSampleData(c, target).value|
    ensures var step := Step(c, target);
            var lo := j * step;
            var hi := ChunkEnd(|c.data|, step, j);
            && lo < hi <= |c.data|
            && DownSampleData(c, target).value[j] == ComputeBar(target, c.data[lo..hi])
  {
    var step := Step(c, target);
    assert DownSampleData(c, target).value == ComputeBars(target, Chunked(c.data, step));
    ChunkedBar(target, c.data, step, j);
  }

  lemma ChunkedBar(target: TimeFrame, data: seq<Bar>, step: nat, j: nat)
    requires step >= 1 && j < |Chunked(data, step)|
    ensures j * step < ChunkEnd(|data|, step, j) <= |data|
    ensures ComputeBars(target, Chunked(data, step))[j]
         == ComputeBar(target, data[j * step .. ChunkEnd(|data|, step, j)])
  {
    ChunkIsSlice(data, step, j);
    ChunkStartIsProduct(step, j);
  }

  lemma {:induction false} ComputeBarsVolume(target: TimeFrame, chunks: seq<seq<Bar>>)
    requires forall j :: 0 <= j < |chunks| ==> |chunks[j]| >= 1
    ensures Sum(Volumes(ComputeBars(target, chunks))) == Sum(Volumes(Flatten(chunks)))
  {
    if |chunks| > 0 {
      var r := ComputeBars(target, chunks);
      ComputeBarsVolume(target, chunks[1..]);
      assert r == [ComputeBar(target, chunks[0])] + ComputeBars(target, chunks[1..]);
      assert r[0].volume == Sum(Volumes(chunks[0]));
      assert Flatten(chunks) == chunks[0] + Flatten(chunks[1..]);
      assert Volumes(r) == [r[0].volume] + Volumes(ComputeBars(target, chunks[1..]));
      SumAppend([r[0].volume], Volumes(ComputeBars(target, chunks[1..])));
      VolumesAppend(chunks[0], Flatten(chunks[1..]));
      SumAppend(Volumes(chunks[0]), Volumes(Flatten(chunks[1..])));
    }
  }

  /** Down-sampling neither creates nor loses volume. */
  lemma DownSamplePreservesVolume(c: BarChart, target: TimeFrame)
    requires DownSampleData(c, target).Ok?
    ensures Sum(Volumes(DownSampleData(c, target).value)) == Sum(Volumes(c.data))
  {
    var chunks := Chunked(c.data, Step(c, target));
    ComputeBarsVolume(target, chunks);
    ChunkedFlattens(c.data, Step(c, target));
  }

  /** Left fold of `Merge`, the way repeated `+=` accumulates candles. */
  function MergeAll(b: Bar, rest: seq<Bar>): Bar
    decreases |rest|
  {
    if |rest| == 0 then b else MergeAll(Merge(b, rest[0]), rest[1..])
  }

  lemma {:induction false} MergeAllShape(b: Bar, rest: seq<Bar>)
    requires |rest| >= 1
    decreases |rest|
    ensures MergeAll(b, rest) == b.(close := rest[|rest| - 1].close,
                                    volume := b.volume + Sum(Volumes(rest)),
                                    high := Max(b.high, MaxOf(Highs(rest))),
                                    low := Min(b.low, MinOf(Lows(rest))))
  {
    if |rest| > 1 {
      MergeAllShape(Merge(b, rest[0]), rest[1..]);
      assert Highs(rest)[1..] == Highs(rest[1..]);
      assert Lows(rest)[1..] == Lows(rest[1..]);
      assert Volumes(rest)[1..] == Volumes(rest[1..]);
    }
  }

  /** A down-sampled bar is exactly what merging its run candle by candle into
      a re-tagged copy of the first bar produces. */
  lemma ComputeBarIsMergedRun(target: TimeFrame, chunk: seq<Bar>)
    requires |chunk| >= 1
    ensures ComputeBar(target, chunk) == MergeAll(Retag(target, chunk[0]), chunk[1..])
  {
    if |chunk| > 1 {
      MergeAllShape(Retag(target, chunk[0]), chunk[1..]);
      assert Highs(chunk)[1..] == Highs(chunk[1..]);
      assert Lows(chunk)[1..] == Lows(chunk[1..]);
      assert Volumes(chunk)[1..] == Volumes(chunk[1..]);
      assert MaxOf(Highs(chunk)) == Max(chunk[0].high, MaxOf(Highs(chunk[1..])));
      assert MinOf(Lows(chunk)) == Min(chunk[0].low, MinOf(Lows(chunk[1..])));
      assert Sum(Volumes(chunk)) == chunk[0].volume + Sum(Volumes(chunk[1..]));
    } else {
      assert MaxOf(Highs(chunk)) == chunk[0].high;
      assert MinOf(Lows(chunk)) == chunk[0].low;
      assert Sum(Volumes(chunk)) == chunk[0].volume + Sum(Volumes(chunk[1..]));
    }
  }
}
