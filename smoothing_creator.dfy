/** Traffic smoothing: a time-ordered list of captured samples becomes a vector with one
    point per window of `smoothingRange` milliseconds, each point carrying the bytes of the
    samples inside its window and the time at which the window ends. */
module SmoothingCreators {
  import StatisticalStore
  import FinalDataRouter

  type Data = StatisticalStore.Data
  type FinalData = FinalDataRouter.FinalData

  /** The configuration: the window size (ms) and the initial number of smoothing jobs. */
  datatype SmoothingCreator = SmoothingCreator(smoothingRange: nat, smoothingThreads: int)

  /** Sample times never decrease along the list. */
  predicate TimeOrdered(data: seq<Data>) {
    forall i, j :: 0 <= i < j < |data| ==> data[i].time <= data[j].time
  }

  // ---------------------------------------------------------------------------------------
  // Sums
  // ---------------------------------------------------------------------------------------

  /** The byte counts of the samples, in order. */
  function Bytes(s: seq<Data>): (b: seq<nat>)
    ensures |b| == |s| && forall j :: 0 <= j < |s| ==> b[j] == s[j].bytes
  {
    seq(|s|, j requires 0 <= j < |s| => s[j].bytes)
  }

  function SumOf(s: seq<nat>): nat {
    if s == [] then 0 else SumOf(s[..|s| - 1]) + s[|s| - 1]
  }

  /** The bytes of all samples whose time lies in [lo, hi). */
  function WindowSum(data: seq<Data>, lo: int, hi: int): nat {
    if data == [] then 0
    else
      var last := data[|data| - 1];
      WindowSum(data[..|data| - 1], lo, hi) + (if lo <= last.time < hi then last.bytes else 0)
  }

  /** `sum`: adds up a buffer of byte counts; an empty buffer gives 0. */
  method Sum(dataBuffer: seq<nat>) returns (total: nat)
    ensures total == SumOf(dataBuffer)
  {
    if |dataBuffer| != 0 {
      total := 0;
      for i := 0 to |dataBuffer|
        invariant total == SumOf(dataBuffer[..i])
      {
        assert dataBuffer[..i + 1][..i] == dataBuffer[..i];
        total := total + dataBuffer[i];
      }
      assert dataBuffer[..|dataBuffer|] == dataBuffer;
    } else {
      total := 0;
    }
  }

  /** Extending a run by its next sample adds that sample's bytes. */
  lemma SumOfRunSnoc(data: seq<Data>, a: nat, b: nat)
    requires a < b <= |data|
    ensures SumOf(Bytes(data[a..b])) == SumOf(Bytes(data[a..b - 1])) + data[b - 1].bytes
  {
    var run := Bytes(data[a..b]);
    assert run[..|run| - 1] == Bytes(data[a..b - 1]);
  }

  /** When the samples in [lo, hi) are exactly the run a..b, the window holds the sum of
      that run. */
  lemma {:induction false} RunWindowSum(data: seq<Data>, a: nat, b: nat, lo: int, hi: int)
    requires a <= b <= |data|
    requires forall j :: 0 <= j < a ==> data[j].time < lo
    requires forall j :: a <= j < b ==> lo <= data[j].time < hi
    requires forall j :: b <= j < |data| ==> data[j].time >= hi
    ensures WindowSum(data, lo, hi) == SumOf(Bytes(data[a..b]))
    decreases |data|
  {
    if data != [] {
      var n := |data|;
      var front := data[..n - 1];
      assert WindowSum(data, lo, hi) == WindowSum(front, lo, hi)
        + (if lo <= data[n - 1].time < hi then data[n - 1].bytes else 0);
      if b == n && a < b {
        RunWindowSum(front, a, b - 1, lo, hi);
        assert front[a..b - 1] == data[a..b - 1];
        SumOfRunSnoc(data, a, b);
      } else if b == n {
        RunWindowSum(front, n - 1, n - 1, lo, hi);
        assert data[a..b] == [] && front[n - 1..n - 1] == [];
      } else {
        RunWindowSum(front, a, b, lo, hi);
        assert front[a..b] == data[a..b];
      }
    }
  }

  // ---------------------------------------------------------------------------------------
  // Arithmetic on windows
  // ---------------------------------------------------------------------------------------

  /** Integer ceiling division, as math.Ceil of the quotient. */
  function CeilDiv(a: nat, r: nat): (q: nat)
    requires r >= 1
    ensures (q - 1) * r < a <= q * r
  {
    if a % r == 0 then a / r else a / r + 1
  }

  lemma MulMono(x: int, y: int, c: nat)
    requires x <= y
    ensures x * c <= y * c
  {
    assert y * c - x * c == (y - x) * c;
  }

  lemma MulSign(d: int, r: nat)
    requires r >= 1
    ensures d >= 1 ==> d * r >= r
    ensures d <= -1 ==> d * r + r <= 0
  {
    if d >= 1 {
      MulMono(1, d, r);
    }
    if d <= -1 {
      MulMono(d, -1, r);
    }
  }

  lemma MulAdd(r: nat, a: int, b: int)
    ensures r * (a + b) == r * a + r * b
  {
  }

  lemma MulSucc(x: int, r: nat)
    ensures (x + 1) * r == x * r + r
  {
  }

  lemma DivBetween(a: int, r: nat, m: int)
    requires r >= 1 && m * r <= a < (m + 1) * r
    ensures a / r == m
  {
    var q := a / r;
    assert a == q * r + a % r;
    MulSign(q - m, r);
    assert (q - m) * r == q * r - m * r;
    MulSucc(m, r);
  }

  lemma MulLeDiv(q: int, r: nat, a: int)
    requires r >= 1 && q * r <= a
    ensures q <= a / r
  {
    assert a == (a / r) * r + a % r;
    MulSign(q - a / r, r);
    assert (q - a / r) * r == q * r - (a / r) * r;
  }

  lemma DivLtMul(a: int, r: nat, q: int)
    requires r >= 1 && a < q * r
    ensures a / r < q
  {
    assert a == (a / r) * r + a % r;
    MulSign(a / r - q, r);
    assert (a / r - q) * r == (a / r) * r - q * r;
  }

  /** `findPartsCount`: the number of windows between the first and the last sample, one
      more than the whole windows in the span (an exact multiple also gets the extra one). */
  function FindPartsCount(smoothingRange: nat, data: seq<Data>): (parts: nat)
    requires smoothingRange >= 1 && data != [] && data[0].time <= data[|data| - 1].time
    ensures parts == (data[|data| - 1].time - data[0].time) / smoothingRange + 1
    ensures (parts - 1) * smoothingRange <= data[|data| - 1].time - data[0].time < parts * smoothingRange
  {
    var arrayLength := data[|data| - 1].time - data[0].time;
    var parts := CeilDiv(arrayLength, smoothingRange);
    var r := if parts * smoothingRange == arrayLength then parts + 1 else parts;
    DivBetween(arrayLength, smoothingRange, r - 1);
    r
  }

  // ---------------------------------------------------------------------------------------
  // The smoothed vector
  // ---------------------------------------------------------------------------------------

  /** Window `k` counted from `origin`: its bytes and the time at which it ends. */
  function Bin(data: seq<Data>, origin: int, r: nat, k: nat): FinalData {
    FinalDataRouter.FinalData(WindowSum(data, origin + k * r, origin + (k + 1) * r), origin + (k + 1) * r)
  }

  /** The vector `SmoothData` produces: no point for no samples, and otherwise one window per
      part, counted from the first sample. */
  function Smoothed(r: nat, data: seq<Data>): seq<FinalData>
    requires r >= 1 && TimeOrdered(data)
  {
    if data == [] then [] else Bins(data, data[0].time, r, FindPartsCount(r, data))
  }

  /** The first `count` windows counted from `origin`. */
  function Bins(data: seq<Data>, origin: int, r: nat, count: nat): (s: seq<FinalData>)
    ensures |s| == count
  {
    seq(count, k requires 0 <= k => Bin(data, origin, r, k))
  }

  lemma BinShift(data: seq<Data>, origin: int, r: nat, s: nat, k: nat)
    ensures Bin(data, origin + r * s, r, k) == Bin(data, origin, r, s + k)
  {
    assert r * s + k * r == (s + k) * r;
    assert r * s + (k + 1) * r == (s + k + 1) * r;
  }

  // ---------------------------------------------------------------------------------------
  // The smoothing jobs
  // ---------------------------------------------------------------------------------------

  /** `getNextIndex`: the first index from `startIndex` on whose sample is not before
      `sliceStart + sliceLength`, or the length of the list. */
  method GetNextIndex(data: seq<Data>, startIndex: nat, sliceStart: int, sliceLength: nat) returns (index: nat)
    requires startIndex <= |data|
    ensures startIndex <= index <= |data|
    ensures forall j :: startIndex <= j < index ==> data[j].time < sliceStart + sliceLength
    ensures index < |data| ==> data[index].time >= sliceStart + sliceLength
  {
    var timeCorner := sliceStart + sliceLength;
    index := startIndex;
    while index != |data| && data[index].time < timeCorner
      invariant startIndex <= index <= |data|
      invariant forall j :: startIndex <= j < index ==> data[j].time < timeCorner
    {
      index := index + 1;
    }
  }

  /** The part of the list one job smooths. The samples before `startIndex` precede the
      partition and the rest do not. An inner partition spans whole windows, holds the samples
      `startIndex..endIndex` and is followed by a sample at or after its end; the last
      partition ends at the last sample. */
  predicate IsPartition(data: seq<Data>, r: nat, startIndex: nat, sliceStart: int, endIndex: int, sliceLength: nat) {
    && r >= 1 && data != []
    && startIndex <= endIndex + 1 <= |data|
    && (forall j :: 0 <= j < startIndex ==> data[j].time < sliceStart)
    && (forall j :: startIndex <= j < |data| ==> data[j].time >= sliceStart)
    && if endIndex == |data| - 1 then
         data[endIndex].time == sliceStart + sliceLength
       else
         && sliceLength % r == 0
         && data[endIndex + 1].time >= sliceStart + sliceLength
         && (forall j :: startIndex <= j <= endIndex ==> data[j].time < sliceStart + sliceLength)
  }

  /** The number of windows a job writes: those of an inner partition, and for the last one
      every window up to and including the one holding the last sample. */
  function JobBins(data: seq<Data>, r: nat, endIndex: int, sliceLength: nat): nat
    requires r >= 1
  {
    if endIndex == |data| - 1 then sliceLength / r + 1 else sliceLength / r
  }

  /** `b` is `before` with the windows `0..to - from` counted from `origin` written at
      `from..to`. */
  ghost predicate Filled(b: seq<FinalData>, before: seq<FinalData>, data: seq<Data>, origin: int, r: nat,
                         from: nat, to: nat)
  {
    |b| == |before| && forall j :: 0 <= j < |b| ==>
      b[j] == if from <= j < to then Bin(data, origin, r, j - from) else before[j]
  }

  lemma FilledNext(b: seq<FinalData>, before: seq<FinalData>, data: seq<Data>, origin: int, r: nat,
                   from: nat, to: nat)
    requires Filled(b, before, data, origin, r, from, to) && from <= to < |b|
    ensures Filled(b[to := Bin(data, origin, r, to - from)], before, data, origin, r, from, to + 1)
  {
  }

  /** Writes the next window of a partition; the points written before stay as they are. */
  method WriteWindow(bins: array<FinalData>, index: nat, value: FinalData, ghost before: seq<FinalData>,
                     ghost data: seq<Data>, ghost origin: int, ghost r: nat, ghost from: nat)
    requires Filled(bins[..], before, data, origin, r, from, index) && from <= index < bins.Length
    requires value == Bin(data, origin, r, index - from)
    modifies bins
    ensures Filled(bins[..], before, data, origin, r, from, index + 1)
  {
    FilledNext(bins[..], before, data, origin, r, from, index);
    bins[index] := value;
  }

  /** Window `m` read off the running time at its end. */
  lemma BinAt(data: seq<Data>, origin: int, r: nat, m: nat, runningTime: int)
    requires runningTime == origin + (m + 1) * r
    ensures Bin(data, origin, r, m) == FinalDataRouter.FinalData(WindowSum(data, runningTime - r, runningTime), runningTime)
  {
    MulSucc(m, r);
  }

  /** `smoothingThread`: fills the windows of one partition into `bins` from `smoothingIndex`
      on, each with the bytes of its samples and its end time, and leaves every other point
      as it was. */
  method SmoothingThread(r: nat, data: seq<Data>, startIndex: nat, sliceStart: int, endIndex: int,
                         sliceLength: nat, smoothingIndex: nat, bins: array<FinalData>)
    requires TimeOrdered(data) && IsPartition(data, r, startIndex, sliceStart, endIndex, sliceLength)
    requires smoothingIndex + JobBins(data, r, endIndex, sliceLength) <= bins.Length
    modifies bins
    ensures Filled(bins[..], old(bins[..]), data, sliceStart, r, smoothingIndex,
                   smoothingIndex + JobBins(data, r, endIndex, sliceLength))
  {
    if startIndex <= endIndex {
      SmoothPartition(r, data, startIndex, sliceStart, endIndex, sliceLength, smoothingIndex, bins);
    } else {
      FillEmptyPartition(r, data, startIndex, sliceStart, endIndex, sliceLength, smoothingIndex, bins);
    }
  }

  /** The facts the smoothing loop keeps: the buffer holds the samples `bufStart..i`, which
      are the ones seen so far in the window ending at `runningTime`, the `m`-th of the
      partition, which never starts after the partition's end; while the loop runs, the next
      sample exists. */
  ghost predicate LoopState(data: seq<Data>, r: nat, startIndex: nat, sliceStart: int, endIndex: int,
                            sliceLength: nat, bufStart: nat, i: nat, m: nat, runningTime: int)
    requires IsPartition(data, r, startIndex, sliceStart, endIndex, sliceLength)
  {
    && startIndex <= bufStart <= i <= endIndex + 1
    && m <= sliceLength / r
    && runningTime == sliceStart + (m + 1) * r
    && (forall j :: 0 <= j < bufStart ==> data[j].time < runningTime - r)
    && (forall j :: bufStart <= j < |data| ==> data[j].time >= runningTime - r)
    && (forall j :: bufStart <= j < i ==> data[j].time < runningTime)
    && runningTime - r <= sliceStart + sliceLength
    && ((i <= endIndex || runningTime - sliceStart <= sliceLength) ==> i < |data|)
  }

  /** The loop meets a sample at or after the running time: the buffer is the window that
      ends there, and the next window still starts inside the partition. */
  lemma WindowClosed(data: seq<Data>, r: nat, startIndex: nat, sliceStart: int, endIndex: int,
                     sliceLength: nat, bufStart: nat, i: nat, m: nat, runningTime: int)
    requires TimeOrdered(data) && IsPartition(data, r, startIndex, sliceStart, endIndex, sliceLength)
    requires LoopState(data, r, startIndex, sliceStart, endIndex, sliceLength, bufStart, i, m, runningTime)
    requires i < |data| && data[i].time >= runningTime
    requires i <= endIndex || runningTime - sliceStart <= sliceLength
    ensures Bin(data, sliceStart, r, m) == FinalDataRouter.FinalData(SumOf(Bytes(data[bufStart..i])), runningTime)
    ensures LoopState(data, r, startIndex, sliceStart, endIndex, sliceLength, i, i, m + 1, runningTime + r)
  {
    RunWindowSum(data, bufStart, i, runningTime - r, runningTime);
    BinAt(data, sliceStart, r, m, runningTime);
    MulSucc(m + 1, r);
    assert i <= endIndex ==> data[i].time <= data[|data| - 1].time;
    assert runningTime <= sliceStart + sliceLength;
    MulSucc(m, r);
    MulLeDiv(m + 1, r, sliceLength);
  }

  /** A sample before the running time joins the buffer. */
  lemma SampleBuffered(data: seq<Data>, r: nat, startIndex: nat, sliceStart: int, endIndex: int,
                       sliceLength: nat, bufStart: nat, i: nat, m: nat, runningTime: int)
    requires TimeOrdered(data) && IsPartition(data, r, startIndex, sliceStart, endIndex, sliceLength)
    requires LoopState(data, r, startIndex, sliceStart, endIndex, sliceLength, bufStart, i, m, runningTime)
    requires i < |data| && data[i].time < runningTime
    requires i <= endIndex || runningTime - sliceStart <= sliceLength
    ensures i <= endIndex
    ensures LoopState(data, r, startIndex, sliceStart, endIndex, sliceLength, bufStart, i + 1, m, runningTime)
    ensures Bytes(data[bufStart..i + 1]) == Bytes(data[bufStart..i]) + [data[i].bytes]
  {
    if endIndex != |data| - 1 {
      var boundary := data[endIndex + 1].time;
    } else if i == endIndex {
      assert data[i].time == sliceStart + sliceLength;
    }
  }

  /** When the loop stops, every window of the partition but possibly the last has been
      written: an inner partition leaves nothing buffered, the last partition leaves the
      window holding the last sample. */
  lemma LoopExit(data: seq<Data>, r: nat, startIndex: nat, sliceStart: int, endIndex: int,
                 sliceLength: nat, bufStart: nat, i: nat, m: nat, runningTime: int)
    requires TimeOrdered(data) && IsPartition(data, r, startIndex, sliceStart, endIndex, sliceLength)
    requires LoopState(data, r, startIndex, sliceStart, endIndex, sliceLength, bufStart, i, m, runningTime)
    requires !(i <= endIndex || runningTime - sliceStart <= sliceLength)
    ensures (bufStart < i) == (endIndex == |data| - 1)
    ensures m + (if bufStart < i then 1 else 0) == JobBins(data, r, endIndex, sliceLength)
    ensures bufStart < i ==>
      Bin(data, sliceStart, r, m) == FinalDataRouter.FinalData(SumOf(Bytes(data[bufStart..i])), runningTime)
  {
    DivLtMul(sliceLength, r, m + 1);
    assert m == sliceLength / r;
    MulSucc(m, r);
    assert runningTime - r == sliceStart + m * r;
    if endIndex == |data| - 1 {
      assert data[endIndex].time >= runningTime - r;
      assert bufStart <= endIndex;
      RunWindowSum(data, bufStart, i, runningTime - r, runningTime);
      BinAt(data, sliceStart, r, m, runningTime);
    } else {
      assert sliceLength == (sliceLength / r) * r + sliceLength % r;
      assert runningTime - r == sliceStart + sliceLength;
      var firstBuffered := if bufStart < |data| then data[bufStart].time else 0;
    }
  }

  /** One pass of the loop of `smoothingThread`: a sample before the running time joins the
      buffer; otherwise the buffer's sum is written as the window that ends at the running
      time, and the next window begins with an empty buffer. */
  method SmoothStep(r: nat, data: seq<Data>, startIndex: nat, sliceStart: int, endIndex: int,
                    sliceLength: nat, smoothingIndex: nat, bins: array<FinalData>,
                    dataBuffer: seq<nat>, index: nat, i: nat, runningTime: int,
                    ghost initial: seq<FinalData>, ghost bufStart: nat, ghost m: nat)
      returns (dataBuffer': seq<nat>, index': nat, i': nat, runningTime': int, ghost bufStart': nat, ghost m': nat)
    requires TimeOrdered(data) && IsPartition(data, r, startIndex, sliceStart, endIndex, sliceLength)
    requires smoothingIndex + JobBins(data, r, endIndex, sliceLength) <= bins.Length
    requires LoopState(data, r, startIndex, sliceStart, endIndex, sliceLength, bufStart, i, m, runningTime)
    requires i <= endIndex || runningTime - sliceStart <= sliceLength
    requires index == smoothingIndex + m && dataBuffer == Bytes(data[bufStart..i])
    requires Filled(bins[..], initial, data, sliceStart, r, smoothingIndex, index)
    modifies bins
    ensures LoopState(data, r, startIndex, sliceStart, endIndex, sliceLength, bufStart', i', m', runningTime')
    ensures index' == smoothingIndex + m' && dataBuffer' == Bytes(data[bufStart'..i'])
    ensures Filled(bins[..], initial, data, sliceStart, r, smoothingIndex, index')
    ensures (i' == i + 1 && runningTime' == runningTime) || (i' == i && runningTime' == runningTime + r)
  {
    if data[i].time < runningTime {
      SampleBuffered(data, r, startIndex, sliceStart, endIndex, sliceLength, bufStart, i, m, runningTime);
      dataBuffer', index', i', runningTime', bufStart', m' := dataBuffer + [data[i].bytes], index, i + 1, runningTime, bufStart, m;
    } else {
      var sumX := Sum(dataBuffer);
      WindowClosed(data, r, startIndex, sliceStart, endIndex, sliceLength, bufStart, i, m, runningTime);
      WriteWindow(bins, index, FinalDataRouter.FinalData(sumX, runningTime), initial, data, sliceStart, r, smoothingIndex);
      dataBuffer', index', i', runningTime', bufStart', m' := [], index + 1, i, runningTime + r, i, m + 1;
    }
  }

  /** After the loop: a non-empty buffer is written as the partition's last window. */
  method FlushWindow(r: nat, data: seq<Data>, startIndex: nat, sliceStart: int, endIndex: int,
                     sliceLength: nat, smoothingIndex: nat, bins: array<FinalData>,
                     dataBuffer: seq<nat>, index: nat, i: nat, runningTime: int,
                     ghost initial: seq<FinalData>, ghost bufStart: nat, ghost m: nat)
    requires TimeOrdered(data) && IsPartition(data, r, startIndex, sliceStart, endIndex, sliceLength)
    requires smoothingIndex + JobBins(data, r, endIndex, sliceLength) <= bins.Length
    requires LoopState(data, r, startIndex, sliceStart, endIndex, sliceLength, bufStart, i, m, runningTime)
    requires !(i <= endIndex || runningTime - sliceStart <= sliceLength)
    requires index == smoothingIndex + m && dataBuffer == Bytes(data[bufStart..i])
    requires Filled(bins[..], initial, data, sliceStart, r, smoothingIndex, index)
    modifies bins
    ensures Filled(bins[..], initial, data, sliceStart, r, smoothingIndex,
                   smoothingIndex + JobBins(data, r, endIndex, sliceLength))
  {
    LoopExit(data, r, startIndex, sliceStart, endIndex, sliceLength, bufStart, i, m, runningTime);
    if |dataBuffer| != 0 {
      var sumX := Sum(dataBuffer);
      WriteWindow(bins, index, FinalDataRouter.FinalData(sumX, runningTime), initial, data, sliceStart, r, smoothingIndex);
    }
  }

  /** The loop of `smoothingThread` over a partition holding samples: the samples before the
      running time are buffered, and when a sample at or after it (or the end of the partition)
      is reached, the buffer's sum is written as the window ending at the running time. */
  method SmoothPartition(r: nat, data: seq<Data>, startIndex: nat, sliceStart: int, endIndex: int,
                         sliceLength: nat, smoothingIndex: nat, bins: array<FinalData>)
    requires TimeOrdered(data) && IsPartition(data, r, startIndex, sliceStart, endIndex, sliceLength)
    requires startIndex <= endIndex
    requires smoothingIndex + JobBins(data, r, endIndex, sliceLength) <= bins.Length
    modifies bins
    ensures Filled(bins[..], old(bins[..]), data, sliceStart, r, smoothingIndex,
                   smoothingIndex + JobBins(data, r, endIndex, sliceLength))
  {
    ghost var initial := bins[..];
    var runningTime := sliceStart + r;
    var dataBuffer: seq<nat> := [];
    var i: nat := startIndex;
    var index := smoothingIndex;
    ghost var bufStart: nat := startIndex;
    ghost var m: nat := 0;
    MulSucc(0, r);
    while i <= endIndex || runningTime - sliceStart <= sliceLength
      invariant LoopState(data, r, startIndex, sliceStart, endIndex, sliceLength, bufStart, i, m, runningTime)
      invariant index == smoothingIndex + m
      invariant dataBuffer == Bytes(data[bufStart..i])
      invariant Filled(bins[..], initial, data, sliceStart, r, smoothingIndex, index)
      decreases endIndex + 1 - i + (sliceStart + sliceLength - (runningTime - r))
    {
      dataBuffer, index, i, runningTime, bufStart, m :=
        SmoothStep(r, data, startIndex, sliceStart, endIndex, sliceLength, smoothingIndex, bins,
                   dataBuffer, index, i, runningTime, initial, bufStart, m);
    }
    FlushWindow(r, data, startIndex, sliceStart, endIndex, sliceLength, smoothingIndex, bins,
                dataBuffer, index, i, runningTime, initial, bufStart, m);
  }

  /** A partition without samples is an inner one: its samples all lie after its end. */
  lemma EmptyPartitionBounds(data: seq<Data>, r: nat, startIndex: nat, sliceStart: int, endIndex: int,
                             sliceLength: nat)
    requires TimeOrdered(data) && IsPartition(data, r, startIndex, sliceStart, endIndex, sliceLength)
    requires endIndex < startIndex
    ensures sliceLength % r == 0
    ensures forall j :: 0 <= j < startIndex ==> data[j].time < sliceStart
    ensures forall j :: startIndex <= j < |data| ==> data[j].time >= sliceStart + sliceLength
  {
    assert endIndex == startIndex - 1;
    assert endIndex != |data| - 1;
    forall j | startIndex <= j < |data|
      ensures data[j].time >= sliceStart + sliceLength
    {
      assert data[startIndex].time <= data[j].time;
    }
  }

  /** Window `k` of a partition split into whole windows ends inside it. */
  lemma WindowInside(sliceLength: nat, r: nat, k: nat)
    requires r >= 1 && sliceLength % r == 0 && k < sliceLength / r
    ensures (k + 1) * r == k * r + r <= sliceLength
  {
    var q := sliceLength / r;
    assert sliceLength == q * r;
    MulMono(k + 1, q, r);
    MulSucc(k, r);
  }

  /** A window of a partition without samples holds no bytes. */
  lemma EmptyWindow(data: seq<Data>, r: nat, startIndex: nat, sliceStart: int, endIndex: int,
                    sliceLength: nat, k: nat)
    requires TimeOrdered(data) && IsPartition(data, r, startIndex, sliceStart, endIndex, sliceLength)
    requires endIndex < startIndex && k < sliceLength / r
    ensures Bin(data, sliceStart, r, k) == FinalDataRouter.FinalData(0, sliceStart + r + k * r)
  {
    EmptyPartitionBounds(data, r, startIndex, sliceStart, endIndex, sliceLength);
    WindowInside(sliceLength, r, k);
    RunWindowSum(data, startIndex, startIndex, sliceStart + k * r, sliceStart + (k + 1) * r);
  }

  /** The branch of `smoothingThread` for a partition without samples: every window of the
      partition gets zero bytes and the time at which it ends. */
  method FillEmptyPartition(r: nat, data: seq<Data>, startIndex: nat, sliceStart: int, endIndex: int,
                            sliceLength: nat, smoothingIndex: nat, bins: array<FinalData>)
    requires TimeOrdered(data) && IsPartition(data, r, startIndex, sliceStart, endIndex, sliceLength)
    requires endIndex < startIndex
    requires smoothingIndex + JobBins(data, r, endIndex, sliceLength) <= bins.Length
    modifies bins
    ensures Filled(bins[..], old(bins[..]), data, sliceStart, r, smoothingIndex,
                   smoothingIndex + JobBins(data, r, endIndex, sliceLength))
  {
    var runningTime := sliceStart + r;
    var parts := CeilDiv(sliceLength, r);
    assert parts == sliceLength / r;
    for k := 0 to parts
      invariant Filled(bins[..], old(bins[..]), data, sliceStart, r, smoothingIndex, smoothingIndex + k)
    {
      EmptyWindow(data, r, startIndex, sliceStart, endIndex, sliceLength, k);
      WriteWindow(bins, smoothingIndex + k, FinalDataRouter.FinalData(0, runningTime + k * r), old(bins[..]),
                  data, sliceStart, r, smoothingIndex);
    }
  }

  // ---------------------------------------------------------------------------------------
  // Assigning the jobs
  // ---------------------------------------------------------------------------------------

  lemma MulMod(k: nat, r: nat)
    requires r >= 1
    ensures (r * k) / r == k && (r * k) % r == 0
  {
    MulSucc(k, r);
    DivBetween(r * k, r, k);
  }

  /** The jobs fit in the vector: `threads` times the parts per job is at most the parts. */
  lemma JobsFit(parts: nat, threads: nat)
    requires threads >= 1
    ensures threads * (parts / threads) <= parts
  {
    assert parts == (parts / threads) * threads + parts % threads;
  }

  /** Where the inner job `i` ends: no later than the window before the last. */
  lemma InnerEnd(parts: nat, threads: nat, threadParts: nat, i: nat, r: nat)
    requires threads >= 1 && threadParts == parts / threads && threadParts >= 1 && i < threads - 1
    ensures (i + 1) * threadParts <= parts - 1
    ensures r * ((i + 1) * threadParts) <= r * (parts - 1)
    ensures r * (i * threadParts) + r * threadParts == r * ((i + 1) * threadParts)
  {
    JobsFit(parts, threads);
    MulMono(i + 1, threads - 1, threadParts);
    MulSucc(threads - 1, threadParts);
    MulSucc(i, threadParts);
    MulMono((i + 1) * threadParts, parts - 1, r);
    MulAdd(r, i * threadParts, threadParts);
  }

  /** An inner job (not the last) gets a partition of `threadParts` whole windows, and the
      sample that ends it exists. */
  lemma InnerPartition(data: seq<Data>, r: nat, threads: nat, threadParts: nat, i: nat,
                       sliceStart: int, startIndex: nat, next: nat)
    requires r >= 1 && data != [] && TimeOrdered(data) && threads >= 1
    requires threadParts == FindPartsCount(r, data) / threads && threadParts >= 1 && i < threads - 1
    requires sliceStart == data[0].time + r * (i * threadParts)
    requires startIndex <= next <= |data|
    requires forall j :: 0 <= j < startIndex ==> data[j].time < sliceStart
    requires forall j :: startIndex <= j < |data| ==> data[j].time >= sliceStart
    requires forall j :: startIndex <= j < next ==> data[j].time < sliceStart + r * threadParts
    requires next < |data| ==> data[next].time >= sliceStart + r * threadParts
    ensures next < |data|
    ensures IsPartition(data, r, startIndex, sliceStart, next - 1, r * threadParts)
    ensures JobBins(data, r, next - 1, r * threadParts) == threadParts
    ensures (i + 1) * threadParts <= FindPartsCount(r, data)
    ensures sliceStart + r * threadParts == data[0].time + r * ((i + 1) * threadParts)
  {
    var parts := FindPartsCount(r, data);
    var length := r * threadParts;
    InnerEnd(parts, threads, threadParts, i, r);
    MulMod(threadParts, r);
    var lastTime := data[|data| - 1].time;
    assert r * (parts - 1) == (parts - 1) * r;
    assert sliceStart + length <= lastTime;
    var j := |data| - 1;
    assert !(data[j].time < sliceStart) && !(data[j].time < sliceStart + length);
    assert next < |data|;
    assert length % r == 0 && length / r == threadParts;
    assert next - 1 != |data| - 1;
  }

  /** The last job gets the rest, up to the last sample, and ends at the last window. */
  lemma LastPartition(data: seq<Data>, r: nat, threads: nat, threadParts: nat, startIndex: nat)
    requires r >= 1 && data != [] && TimeOrdered(data) && threads >= 1
    requires threadParts == FindPartsCount(r, data) / threads && threadParts >= 1
    requires startIndex <= |data|
    requires forall j :: 0 <= j < startIndex ==> data[j].time < data[0].time + r * ((threads - 1) * threadParts)
    requires forall j :: startIndex <= j < |data| ==> data[j].time >= data[0].time + r * ((threads - 1) * threadParts)
    ensures data[0].time + r * ((threads - 1) * threadParts) <= data[|data| - 1].time
    ensures var sliceStart := data[0].time + r * ((threads - 1) * threadParts);
            IsPartition(data, r, startIndex, sliceStart, |data| - 1, data[|data| - 1].time - sliceStart) &&
            (threads - 1) * threadParts + JobBins(data, r, |data| - 1, data[|data| - 1].time - sliceStart)
              == FindPartsCount(r, data)
  {
    var parts := FindPartsCount(r, data);
    var s := (threads - 1) * threadParts;
    var span := data[|data| - 1].time - data[0].time;
    JobsFit(parts, threads);
    MulSucc(threads - 1, threadParts);
    MulMono(s, parts - 1, r);
    var sliceStart := data[0].time + r * s;
    var rest := data[|data| - 1].time - sliceStart;
    assert rest == span - s * r;
    assert span / r == parts - 1;
    MulSucc(span / r, r);
    assert span == (span / r) * r + span % r;
    assert (span / r - s) * r == (span / r) * r - s * r;
    MulSucc(span / r - s, r);
    DivBetween(rest, r, span / r - s);
  }

  /** Windows written from `s` on with origin `origin + r * s` continue the ones written
      before them from 0 with origin `origin`. */
  lemma FilledCompose(b2: seq<FinalData>, b1: seq<FinalData>, b0: seq<FinalData>, data: seq<Data>,
                      origin: int, r: nat, s: nat, to: nat)
    requires Filled(b1, b0, data, origin, r, 0, s)
    requires Filled(b2, b1, data, origin + r * s, r, s, to) && s <= to
    ensures Filled(b2, b0, data, origin, r, 0, to)
  {
    forall j | s <= j < to && j < |b2|
      ensures b2[j] == Bin(data, origin, r, j)
    {
      BinShift(data, origin, r, s, j - s);
    }
  }

  /** One inner job of `assignSmoothingJobs` (one that is not the last): its partition ends
      before the first sample at or after `threadParts` windows from its start, and the job
      fills those windows after the ones the earlier jobs filled. */
  method InnerJob(r: nat, data: seq<Data>, numberOfThreads: int, threadParts: nat, i: nat,
                  startIndex: nat, bins: array<FinalData>, ghost initial: seq<FinalData>)
      returns (nextStart: nat)
    requires r >= 1 && data != [] && TimeOrdered(data) && numberOfThreads >= 1
    requires bins.Length == FindPartsCount(r, data)
    requires threadParts == FindPartsCount(r, data) / numberOfThreads && threadParts >= 1 && i < numberOfThreads - 1
    requires startIndex <= |data|
    requires forall j :: 0 <= j < startIndex ==> data[j].time < data[0].time + r * (i * threadParts)
    requires forall j :: startIndex <= j < |data| ==> data[j].time >= data[0].time + r * (i * threadParts)
    requires Filled(bins[..], initial, data, data[0].time, r, 0, i * threadParts)
    modifies bins
    ensures nextStart <= |data|
    ensures forall j :: 0 <= j < nextStart ==> data[j].time < data[0].time + r * ((i + 1) * threadParts)
    ensures forall j :: nextStart <= j < |data| ==> data[j].time >= data[0].time + r * ((i + 1) * threadParts)
    ensures Filled(bins[..], initial, data, data[0].time, r, 0, (i + 1) * threadParts)
  {
    var first := data[0].time;
    var sliceLength := r * threadParts;
    MulMono(0, i, threadParts);
    var smoothingIndex: nat := i * threadParts;
    var sliceStart := first + r * smoothingIndex;
    MulSucc(i, threadParts);
    ghost var before := bins[..];
    var next := GetNextIndex(data, startIndex, sliceStart, sliceLength);
    InnerPartition(data, r, numberOfThreads, threadParts, i, sliceStart, startIndex, next);
    ghost var sliceEnd := first + r * ((i + 1) * threadParts);
    assert sliceStart + sliceLength == sliceEnd;
    var endIndex := next - 1;
    SmoothingThread(r, data, startIndex, sliceStart, endIndex, sliceLength, smoothingIndex, bins);
    FilledCompose(bins[..], before, initial, data, first, r, smoothingIndex, smoothingIndex + threadParts);
    nextStart := endIndex + 1;
    OrderedFrom(data, nextStart, sliceEnd);
  }

  /** In time order, every sample from one at or after `bound` on is at or after it too. */
  lemma OrderedFrom(data: seq<Data>, k: nat, bound: int)
    requires TimeOrdered(data) && k < |data| && data[k].time >= bound
    ensures forall j :: k <= j < |data| ==> data[j].time >= bound
  {
    forall j | k < j < |data|
      ensures data[j].time >= bound
    {
      assert data[k].time <= data[j].time;
    }
  }

  /** `assignSmoothingJobs`: when the parts do not give every job at least one window, one job
      fewer is tried; otherwise the jobs fill their partitions one after another, each inner
      one up to the first sample at or after its end, the last one up to the last sample. */
  method AssignSmoothingJobs(smoothingRange: nat, data: seq<Data>, numberOfThreads: int, bins: array<FinalData>)
    returns (jobs: int)
    requires smoothingRange >= 1 && data != [] && TimeOrdered(data) && numberOfThreads >= 1
    requires bins.Length == FindPartsCount(smoothingRange, data)
    modifies bins
    ensures bins[..] == Smoothed(smoothingRange, data)
    ensures jobs == ThreadsUsed(FindPartsCount(smoothingRange, data), numberOfThreads)
    decreases numberOfThreads
  {
    var r := smoothingRange;
    var parts := FindPartsCount(r, data);
    var threadParts := parts / numberOfThreads;
    if threadParts >= 1 {
      var startIndex: nat := 0;
      var first := data[0].time;
      ghost var initial := bins[..];
      for i := 0 to numberOfThreads - 1
        invariant startIndex <= |data|
        invariant forall j :: 0 <= j < startIndex ==> data[j].time < first + r * (i * threadParts)
        invariant forall j :: startIndex <= j < |data| ==> data[j].time >= first + r * (i * threadParts)
        invariant Filled(bins[..], initial, data, first, r, 0, i * threadParts)
      {
        startIndex := InnerJob(r, data, numberOfThreads, threadParts, i, startIndex, bins, initial);
      }
      LastJob(r, data, numberOfThreads, threadParts, startIndex, bins, initial);
      jobs := numberOfThreads;
    } else {
      assert numberOfThreads != 1;
      jobs := AssignSmoothingJobs(smoothingRange, data, numberOfThreads - 1, bins);
    }
  }

  /** The last iteration of the loop of `assignSmoothingJobs`, whose job runs to the last
      sample and so fills the vector to its end. */
  method LastJob(r: nat, data: seq<Data>, numberOfThreads: int, threadParts: nat, startIndex: nat,
                 bins: array<FinalData>, ghost initial: seq<FinalData>)
    requires r >= 1 && data != [] && TimeOrdered(data) && numberOfThreads >= 1
    requires bins.Length == FindPartsCount(r, data)
    requires threadParts == FindPartsCount(r, data) / numberOfThreads && threadParts >= 1
    requires startIndex <= |data|
    requires forall j :: 0 <= j < startIndex ==>
               data[j].time < data[0].time + r * ((numberOfThreads - 1) * threadParts)
    requires forall j :: startIndex <= j < |data| ==>
               data[j].time >= data[0].time + r * ((numberOfThreads - 1) * threadParts)
    requires Filled(bins[..], initial, data, data[0].time, r, 0, (numberOfThreads - 1) * threadParts)
    modifies bins
    ensures Filled(bins[..], initial, data, data[0].time, r, 0, FindPartsCount(r, data))
  {
    MulMono(0, numberOfThreads - 1, threadParts);
    var smoothingIndex: nat := (numberOfThreads - 1) * threadParts;
    var sliceStart := data[0].time + r * smoothingIndex;
    ghost var before := bins[..];
    var endIndex := |data| - 1;
    LastPartition(data, r, numberOfThreads, threadParts, startIndex);
    var lastLength := data[endIndex].time - sliceStart;
    SmoothingThread(r, data, startIndex, sliceStart, endIndex, lastLength, smoothingIndex, bins);
    FilledCompose(bins[..], before, initial, data, data[0].time, r, smoothingIndex, FindPartsCount(r, data));
  }

  /** The number of jobs the recursion of `assignSmoothingJobs` settles on, lowering the count
      by one while the parts do not give every job a window: the initial count, or the number
      of parts when there are fewer parts than jobs. */
  function ThreadsUsed(parts: nat, numberOfThreads: int): (t: int)
    requires parts >= 1 && numberOfThreads >= 1
    ensures t == if numberOfThreads <= parts then numberOfThreads else parts
    decreases numberOfThreads
  {
    EveryJobGetsAPart(parts, numberOfThreads);
    if parts / numberOfThreads >= 1 then numberOfThreads else ThreadsUsed(parts, numberOfThreads - 1)
  }

  /** Every job gets at least one part exactly when there are no more jobs than parts. */
  lemma EveryJobGetsAPart(parts: nat, numberOfThreads: int)
    requires parts >= 1 && numberOfThreads >= 1
    ensures parts / numberOfThreads >= 1 <==> numberOfThreads <= parts
  {
    if numberOfThreads > parts {
      DivLtMul(parts, numberOfThreads, 1);
    } else {
      MulLeDiv(1, numberOfThreads, parts);
    }
  }

  /** `initSmoothingSlice`: a vector with one (still empty) point per part. */
  method InitSmoothingSlice(smoothingRange: nat, data: seq<Data>) returns (smoothedData: array<FinalData>)
    requires smoothingRange >= 1 && data != [] && TimeOrdered(data)
    ensures fresh(smoothedData) && smoothedData.Length == FindPartsCount(smoothingRange, data)
  {
    var parts := FindPartsCount(smoothingRange, data);
    smoothedData := new FinalData[parts](_ => FinalDataRouter.FinalData(0, 0));
  }

  /** `SmoothData`: the smoothed vector of a time-ordered list of samples. */
  method SmoothData(creator: SmoothingCreator, dataSlice: seq<Data>) returns (smoothedData: seq<FinalData>)
    requires creator.smoothingRange >= 1 && creator.smoothingThreads >= 1 && TimeOrdered(dataSlice)
    ensures smoothedData == Smoothed(creator.smoothingRange, dataSlice)
  {
    if |dataSlice| != 0 {
      var bins := InitSmoothingSlice(creator.smoothingRange, dataSlice);
      var jobs := AssignSmoothingJobs(creator.smoothingRange, dataSlice, creator.smoothingThreads, bins);
      smoothedData := bins[..];
    } else {
      smoothedData := [];
    }
  }

  // ---------------------------------------------------------------------------------------
  // Properties of the smoothed vector
  // ---------------------------------------------------------------------------------------

  /** The byte counts of a vector. */
  function Values(s: seq<FinalData>): (v: seq<nat>)
    ensures |v| == |s| && forall j :: 0 <= j < |s| ==> v[j] == s[j].dataElement
  {
    seq(|s|, j requires 0 <= j < |s| => s[j].dataElement)
  }

  lemma {:induction false} WindowSumEmpty(data: seq<Data>, lo: int)
    ensures WindowSum(data, lo, lo) == 0
    decreases |data|
  {
    if data != [] {
      WindowSumEmpty(data[..|data| - 1], lo);
    }
  }

  /** Adjacent windows add up to the window spanning both. */
  lemma {:induction false} WindowSumSplit(data: seq<Data>, lo: int, mid: int, hi: int)
    requires lo <= mid <= hi
    ensures WindowSum(data, lo, mid) + WindowSum(data, mid, hi) == WindowSum(data, lo, hi)
    decreases |data|
  {
    if data != [] {
      WindowSumSplit(data[..|data| - 1], lo, mid, hi);
    }
  }

  /** The first `count` windows together hold the bytes of the span they cover. */
  lemma {:induction false} BinsSum(data: seq<Data>, origin: int, r: nat, count: nat)
    ensures SumOf(Values(Bins(data, origin, r, count))) == WindowSum(data, origin, origin + count * r)
    decreases count
  {
    if count == 0 {
      WindowSumEmpty(data, origin);
    } else {
      assert Values(Bins(data, origin, r, count))[..count - 1] == Values(Bins(data, origin, r, count - 1));
      BinsSum(data, origin, r, count - 1);
      MulSucc(count - 1, r);
      WindowSumSplit(data, origin, origin + (count - 1) * r, origin + count * r);
    }
  }

  /** Smoothing neither loses nor invents traffic: the windows hold all the bytes of the
      samples, each sample in exactly one window. */
  lemma SmoothedConservesBytes(r: nat, data: seq<Data>)
    requires r >= 1 && TimeOrdered(data)
    ensures SumOf(Values(Smoothed(r, data))) == SumOf(Bytes(data))
  {
    if data != [] {
      var parts := FindPartsCount(r, data);
      BinsSum(data, data[0].time, r, parts);
      RunWindowSum(data, 0, |data|, data[0].time, data[0].time + parts * r);
      assert data[0..|data|] == data;
    }
  }

  /** The windows follow one another: the first ends one range after the first sample, each
      ends one range after the one before, and the last is the one holding the last sample. */
  lemma SmoothedTimestamps(r: nat, data: seq<Data>)
    requires r >= 1 && TimeOrdered(data)
    ensures var s := Smoothed(r, data);
            && (s != [] ==> s[0].timestamp == data[0].time + r)
            && (forall k :: 0 < k < |s| ==> s[k].timestamp == s[k - 1].timestamp + r)
            && (s != [] ==> s[|s| - 1].timestamp - r <= data[|data| - 1].time < s[|s| - 1].timestamp)
  {
    var s := Smoothed(r, data);
    if data != [] {
      MulSucc(0, r);
      forall k | 0 < k < |s|
        ensures s[k].timestamp == s[k - 1].timestamp + r
      {
        MulSucc(k, r);
      }
      MulSucc(|s| - 1, r);
    }
  }

  lemma SumOfDisplay1(a: nat)
    ensures SumOf([a]) == a
  {
    assert [a][..0] == [];
  }

  lemma SumOfDisplay2(a: nat, b: nat)
    ensures SumOf([a, b]) == a + b
  {
    assert [a, b][..1] == [a];
    SumOfDisplay1(a);
  }

  lemma SumOfDisplay3(a: nat, b: nat, c: nat)
    ensures SumOf([a, b, c]) == a + b + c
  {
    assert [a, b, c][..2] == [a, b];
    SumOfDisplay2(a, b);
  }

  lemma SumOfDisplay4(a: nat, b: nat, c: nat, d: nat)
    ensures SumOf([a, b, c, d]) == a + b + c + d
  {
    assert [a, b, c, d][..3] == [a, b, c];
    SumOfDisplay3(a, b, c);
  }

  lemma SumOfDisplay5(a: nat, b: nat, c: nat, d: nat, e: nat)
    ensures SumOf([a, b, c, d, e]) == a + b + c + d + e
  {
    assert [a, b, c, d, e][..4] == [a, b, c, d];
    SumOfDisplay4(a, b, c, d);
  }

  function TestData1(t0: int): (data: seq<Data>)
    ensures |data| == 18
  {
    seq(18, i requires 0 <= i => StatisticalStore.Data(0, t0 + 1000 * i, 10 + 2 * i, 0))
  }

  /** Eighteen samples a second apart, 10 bytes and 2 more each time, in windows of five seconds: four windows, the first ending at the sixth sample. */
  lemma SmoothDataTest1(t0: int)
    ensures TimeOrdered(TestData1(t0))
    ensures Values(Smoothed(5000, TestData1(t0))) == [70, 120, 170, 126]
    ensures Smoothed(5000, TestData1(t0))[0].timestamp == TestData1(t0)[5].time
  {
    var data := TestData1(t0);
    assert FindPartsCount(5000, data) == 4;
    var v := Values(Smoothed(5000, data));
    forall q | 0 <= q < 4
      ensures v[q] == [70, 120, 170, 126][q]
    {
      Test1Window(t0, q);
    }
  }

  /** One window of the first test: five samples of 10 + 2 i bytes, and three in the last. */
  lemma Test1Window(t0: int, q: nat)
    requires q < 4
    ensures Bin(TestData1(t0), t0, 5000, q).dataElement == [70, 120, 170, 126][q]
  {
    var data := TestData1(t0);
    var a, b := 5 * q, if q < 3 then 5 * q + 5 else 18;
    forall j | 0 <= j < 18
      ensures data[j].time == t0 + 1000 * j && data[j].bytes == 10 + 2 * j
    {
    }
    RunWindowSum(data, a, b, t0 + q * 5000, t0 + (q + 1) * 5000);
    var x := 10 + 10 * q;
    if q < 3 {
      assert Bytes(data[a..b]) == [x, x + 2, x + 4, x + 6, x + 8];
      SumOfDisplay5(x, x + 2, x + 4, x + 6, x + 8);
    } else {
      assert Bytes(data[a..b]) == [40, 42, 44];
      SumOfDisplay3(40, 42, 44);
    }
  }

  function TestData2(t0: int): (data: seq<Data>)
    ensures |data| == 3
  {
    seq(3, i requires 0 <= i => StatisticalStore.Data(0, t0 + 100 * i, 10 + 5 * i, 0))
  }

  /** Three samples within one range: a single window holding all of them. */
  lemma SmoothDataTest2(t0: int)
    ensures TimeOrdered(TestData2(t0))
    ensures Values(Smoothed(1000, TestData2(t0))) == [45]
    ensures Smoothed(1000, TestData2(t0))[0].timestamp == t0 + 1000
  {
    var data := TestData2(t0);
    assert FindPartsCount(1000, data) == 1;
    RunWindowSum(data, 0, 3, t0, t0 + 1000);
    assert Bytes(data[0..3]) == [10, 15, 20];
    SumOfDisplay3(10, 15, 20);
  }

  function TestData3(t0: int): (data: seq<Data>)
    ensures |data| == 10
  {
    seq(10, i requires 0 <= i => StatisticalStore.Data(0, t0 + 400 * i, 10 + 5 * i, 0))
  }

  /** Ten samples 400 ms apart, 10 bytes and 5 more each time, in windows of one second; a sample on a window's boundary belongs to the later window. */
  lemma SmoothDataTest3(t0: int)
    ensures TimeOrdered(TestData3(t0))
    ensures Values(Smoothed(1000, TestData3(t0))) == [45, 55, 120, 105]
  {
    var data := TestData3(t0);
    assert FindPartsCount(1000, data) == 4;
    var v := Values(Smoothed(1000, data));
    forall k | 0 <= k < 4
      ensures v[k] == [45, 55, 120, 105][k]
    {
      Test3Window(t0, k);
    }
  }

  /** One window of the third test: the samples at 0, 400, 800 ms; 1200, 1600; 2000, 2400,
      2800; 3200, 3600. */
  lemma Test3Window(t0: int, k: nat)
    requires k < 4
    ensures Bin(TestData3(t0), t0, 1000, k).dataElement == [45, 55, 120, 105][k]
  {
    var data := TestData3(t0);
    forall j | 0 <= j < 10
      ensures data[j].time == t0 + 400 * j && data[j].bytes == 10 + 5 * j
    {
    }
    var a, b := [0, 3, 5, 8][k], [3, 5, 8, 10][k];
    RunWindowSum(data, a, b, t0 + k * 1000, t0 + (k + 1) * 1000);
    if k == 0 {
      assert a == 0 && b == 3;
      assert Bytes(data[0..3]) == [10, 15, 20];
      SumOfDisplay3(10, 15, 20);
    } else if k == 1 {
      assert a == 3 && b == 5;
      assert Bytes(data[3..5]) == [25, 30];
      SumOfDisplay2(25, 30);
    } else if k == 2 {
      assert a == 5 && b == 8;
      assert Bytes(data[5..8]) == [35, 40, 45];
      SumOfDisplay3(35, 40, 45);
    } else {
      assert k == 3 && a == 8 && b == 10;
      assert Bytes(data[8..10]) == [50, 55];
      SumOfDisplay2(50, 55);
    }
  }

  function TestData4(t0: int): (data: seq<Data>)
    ensures |data| == 4
  {
    seq(4, i requires 0 <= i => StatisticalStore.Data(0, t0 + 5000 * i, 10 + 5 * i, 0))
  }

  /** Four samples five seconds apart in windows of one second: the windows between them are zero. */
  lemma SmoothDataTest4(t0: int)
    ensures TimeOrdered(TestData4(t0))
    ensures Values(Smoothed(1000, TestData4(t0))) == [10, 0, 0, 0, 0, 15, 0, 0, 0, 0, 20, 0, 0, 0, 0, 25]
  {
    var data := TestData4(t0);
    assert FindPartsCount(1000, data) == 16;
    var v := Values(Smoothed(1000, data));
    forall k | 0 <= k < 16
      ensures v[k] == if k % 5 == 0 then 10 + k else 0
    {
      Test4Window(t0, k);
    }
  }

  /** One window of the fourth test: the windows starting on a sample hold it, the others
      are empty. */
  lemma Test4Window(t0: int, k: nat)
    requires k < 16
    ensures Bin(TestData4(t0), t0, 1000, k).dataElement == if k % 5 == 0 then 10 + k else 0
  {
    var data := TestData4(t0);
    var q, m := k / 5, k % 5;
    assert k == 5 * q + m && q < 4;
    var lo, hi := t0 + 5000 * q + 1000 * m, t0 + 5000 * q + 1000 * m + 1000;
    assert lo == t0 + k * 1000 && hi == t0 + (k + 1) * 1000;
    var b := q + 1;
    var a := if m == 0 then q else b;
    forall j | 0 <= j < 4
      ensures data[j].time == t0 + 5000 * j
    {
    }
    RunWindowSum(data, a, b, lo, hi);
    if m == 0 {
      assert Bytes(data[a..b]) == [10 + 5 * q];
      SumOfDisplay1(10 + 5 * q);
    } else {
      assert Bytes(data[a..b]) == [];
    }
  }

  // ---------------------------------------------------------------------------------------
  // The timestamps of a partition without samples, as written
  // ---------------------------------------------------------------------------------------

  /** The points the branch of `smoothingThread` for a partition without samples writes as
      the source has it: every window gets zero bytes and the same time, the end of the first
      window of the partition. */
  function EmptyPartitionAsWritten(runningTime: int, sliceLength: nat, r: nat): seq<FinalData>
    requires r >= 1
  {
    seq(CeilDiv(sliceLength, r), _ => FinalDataRouter.FinalData(0, runningTime))
  }

  /** Two samples five seconds apart, windows of one second and three jobs: six windows, two
      per job, and the second job's partition (2 s to 4 s) holds no sample. As written its two
      windows both carry the time 3 s; the windows end at 3 s and 4 s. */
  lemma EmptyPartitionRepeatsTimestamp(t0: int)
    ensures var data := [StatisticalStore.Data(1, t0, 10, 0), StatisticalStore.Data(2, t0 + 5000, 20, 0)];
            && TimeOrdered(data)
            && FindPartsCount(1000, data) == 6 && FindPartsCount(1000, data) / 3 == 2
            && IsPartition(data, 1000, 1, t0 + 2000, 0, 2000)
            && EmptyPartitionAsWritten(t0 + 2000 + 1000, 2000, 1000)
                 == [FinalDataRouter.FinalData(0, t0 + 3000), FinalDataRouter.FinalData(0, t0 + 3000)]
            && Smoothed(1000, data)[2..4]
                 == [FinalDataRouter.FinalData(0, t0 + 3000), FinalDataRouter.FinalData(0, t0 + 4000)]
  {
    var data := [StatisticalStore.Data(1, t0, 10, 0), StatisticalStore.Data(2, t0 + 5000, 20, 0)];
    assert FindPartsCount(1000, data) == 6;
    RunWindowSum(data, 1, 1, t0 + 2000, t0 + 3000);
    RunWindowSum(data, 1, 1, t0 + 3000, t0 + 4000);
    assert Bytes(data[1..1]) == [];
    var e := EmptyPartitionAsWritten(t0 + 3000, 2000, 1000);
    assert |e| == 2;
  }
}
