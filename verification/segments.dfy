/**
 * The segment builder shared by both pipelines: an ordered list of extracted
 * frames, sampled every `dt` seconds, is cut into consecutive groups of
 * `size` frames. Single-video jobs use 6 frames at 0.5 s; multi-video
 * projects use 3 frames at 2.0 s and attach one shared analysis to every
 * segment.
 */
module Segments {
  import opened Wrappers
  import opened Types

  datatype SegmentError = NoFramesExtracted

  const JobSegmentSize: nat := 6
  const JobFrameStep: real := 0.5
  const ProjectSegmentSize: nat := 3
  const ProjectFrameStep: real := 2.0

  function Min(a: int, b: int): int {
    if a <= b then a else b
  }

  /** The time of frame number `frame` when frames are `dt` seconds apart. */
  function Seconds(frame: int, dt: real): real {
    frame as real * dt
  }

  /** The number of groups of `s` needed to hold `n` items, i.e. the ceiling of n / s. */
  function CeilDiv(n: nat, s: nat): nat
    requires s > 0
    decreases n
  {
    if n == 0 then 0 else if n <= s then 1 else 1 + CeilDiv(n - s, s)
  }

  /** All frame references of a segment list, in order. */
  function AllFrames(segs: seq<Segment>): seq<string> {
    if |segs| == 0 then [] else segs[0].frames + AllFrames(segs[1..])
  }

  lemma AllFramesCons(first: Segment, rest: seq<Segment>)
    ensures AllFrames([first] + rest) == first.frames + AllFrames(rest)
  {
    assert ([first] + rest)[1..] == rest;
  }

  lemma SliceSplit(files: seq<string>, i: nat, end: nat)
    requires i <= end <= |files|
    ensures files[i..] == files[i..end] + files[end..]
  {
  }

  lemma MulStep(j: int, s: int)
    ensures (j + 1) * s == j * s + s
  {
  }

  lemma MulMonotone(a: int, b: int, s: int)
    requires a <= b && s >= 0
    ensures a * s <= b * s
  {
    assert b * s - a * s == (b - a) * s;
  }

  /**
   * The loop of the builder from frame `i` on, `count` segments already built.
   * Each step takes frames [i, min(i + size, N)).
   */
  function SegmentsFrom(files: seq<string>, size: nat, dt: real, a: Option<Analysis>, i: nat, count: nat): (r: seq<Segment>)
    requires size > 0 && i <= |files|
    decreases |files| - i
    ensures |r| == CeilDiv(|files| - i, size)
    ensures |r| == 0 <==> i == |files|
    ensures forall j :: 0 <= j < |r| ==> r[j].index == count + j + 1
    ensures forall j :: 0 <= j < |r| ==> r[j].analysis == a
    ensures forall j :: 0 <= j < |r| ==> 0 < |r[j].frames| <= size
    ensures |r| > 0 ==> r[0].start == Seconds(i, dt)
    ensures |r| > 0 ==> r[|r| - 1].end == Seconds(|files|, dt)
  {
    if i == |files| then
      []
    else
      var end := Min(i + size, |files|);
      [Segment(count + 1, Seconds(i, dt), Seconds(end, dt), files[i..end], a)]
      + SegmentsFrom(files, size, dt, a, end, count + 1)
  }

  /** Each segment ends exactly where the next one starts. */
  ghost predicate Contiguous(segs: seq<Segment>) {
    forall j :: 0 <= j < |segs| - 1 ==> segs[j].end == segs[j + 1].start
  }

  /** Consecutive segments share their boundary: no gap and no overlap. */
  lemma {:induction false} SegmentsContiguous(files: seq<string>, size: nat, dt: real, a: Option<Analysis>, i: nat, count: nat)
    requires size > 0 && i <= |files|
    decreases |files| - i
    ensures Contiguous(SegmentsFrom(files, size, dt, a, i, count))
  {
    if i < |files| {
      var end := Min(i + size, |files|);
      var r := SegmentsFrom(files, size, dt, a, i, count);
      var rest := SegmentsFrom(files, size, dt, a, end, count + 1);
      SegmentsContiguous(files, size, dt, a, end, count + 1);
      forall j | 0 <= j < |r| - 1
        ensures r[j].end == r[j + 1].start
      {
        assert r[j + 1] == rest[j];
        if j == 0 {
          assert r[0].end == Seconds(end, dt) == rest[0].start;
        } else {
          assert r[j] == rest[j - 1];
          assert rest[(j - 1) + 1] == rest[j];
        }
      }
    }
  }

  /** The segments hold exactly the frames from `i` on, in order. */
  lemma {:induction false} SegmentsCoverFrames(files: seq<string>, size: nat, dt: real, a: Option<Analysis>, i: nat, count: nat)
    requires size > 0 && i <= |files|
    decreases |files| - i
    ensures AllFrames(SegmentsFrom(files, size, dt, a, i, count)) == files[i..]
  {
    if i < |files| {
      var end := Min(i + size, |files|);
      var r := SegmentsFrom(files, size, dt, a, i, count);
      var rest := SegmentsFrom(files, size, dt, a, end, count + 1);
      var first := Segment(count + 1, Seconds(i, dt), Seconds(end, dt), files[i..end], a);
      assert r == [first] + rest;
      AllFramesCons(first, rest);
      SegmentsCoverFrames(files, size, dt, a, end, count + 1);
      SliceSplit(files, i, end);
    }
  }

  /** Segment j of the loop started at frame i starts at frame i + j * size and ends at the next group boundary or at N. */
  lemma {:induction false} SegmentTimes(files: seq<string>, size: nat, dt: real, a: Option<Analysis>, i: nat, count: nat, j: nat)
    requires size > 0 && i <= |files|
    requires j < |SegmentsFrom(files, size, dt, a, i, count)|
    decreases |files| - i
    ensures SegmentsFrom(files, size, dt, a, i, count)[j].start == Seconds(i + j * size, dt)
    ensures SegmentsFrom(files, size, dt, a, i, count)[j].end == Seconds(Min(i + (j + 1) * size, |files|), dt)
  {
    var end := Min(i + size, |files|);
    if j > 0 {
      SegmentTimes(files, size, dt, a, end, count + 1, j - 1);
      MulStep(j - 1, size);
      MulStep(j, size);
    }
  }

  /**
   * Cuts `files` into segments of `size` frames spaced `dt` seconds apart;
   * no frames is an error.
   */
  function BuildSegments(files: seq<string>, size: nat, dt: real, a: Option<Analysis>): (r: Result<seq<Segment>, SegmentError>)
    requires size > 0
    ensures |files| == 0 <==> r == Failure(NoFramesExtracted)
    ensures r.Success? ==> ValidSegmentation(r.value, files, size, dt, a)
  {
    if |files| == 0 then Failure(NoFramesExtracted)
    else
      var segs := SegmentsFrom(files, size, dt, a, 0, 0);
      SegmentsContiguous(files, size, dt, a, 0, 0);
      SegmentsCoverFrames(files, size, dt, a, 0, 0);
      forall k | 0 <= k < |segs|
        ensures segs[k].start == Seconds(k * size, dt)
        ensures segs[k].end == Seconds(Min((k + 1) * size, |files|), dt)
      {
        SegmentTimes(files, size, dt, a, 0, 0, k);
      }
      Success(segs)
  }

  /**
   * What the builder promises about a non-empty frame list: ceil(N / size)
   * segments numbered 1, 2, ..., segment k starting at frame k * size,
   * ending where the next starts, the last ending at N * dt, together
   * holding exactly the input frames in order.
   */
  ghost predicate ValidSegmentation(segs: seq<Segment>, files: seq<string>, size: nat, dt: real, a: Option<Analysis>)
    requires size > 0
  {
    && |segs| == CeilDiv(|files|, size)
    && |segs| > 0
    && (forall k :: 0 <= k < |segs| ==> segs[k].index == k + 1)
    && (forall k :: 0 <= k < |segs| ==> segs[k].start == Seconds(k * size, dt))
    && (forall k :: 0 <= k < |segs| ==> segs[k].end == Seconds(Min((k + 1) * size, |files|), dt))
    && (forall k :: 0 <= k < |segs| ==> segs[k].analysis == a)
    && (forall k :: 0 <= k < |segs| ==> 0 < |segs[k].frames| <= size)
    && Contiguous(segs)
    && segs[0].start == 0.0
    && segs[|segs| - 1].end == Seconds(|files|, dt)
    && AllFrames(segs) == files
  }

  /** Every segment covers a non-empty time span. */
  ghost predicate PositiveSpans(segs: seq<Segment>) {
    forall k :: 0 <= k < |segs| ==> segs[k].start < segs[k].end
  }

  /** Segments are in time order: each ends no later than any later one starts. */
  ghost predicate Ordered(segs: seq<Segment>) {
    forall i, j :: 0 <= i < j < |segs| ==> segs[i].end <= segs[j].start
  }

  lemma SecondsIncreasing(a: int, b: int, dt: real)
    requires a < b && dt > 0.0
    ensures Seconds(a, dt) < Seconds(b, dt)
  {
    assert Seconds(b, dt) - Seconds(a, dt) == (b - a) as real * dt;
  }

  lemma {:induction false} SegmentsFromPositive(files: seq<string>, size: nat, dt: real, a: Option<Analysis>, i: nat, count: nat)
    requires size > 0 && i <= |files| && dt > 0.0
    decreases |files| - i
    ensures PositiveSpans(SegmentsFrom(files, size, dt, a, i, count))
  {
    if i < |files| {
      var end := Min(i + size, |files|);
      var r := SegmentsFrom(files, size, dt, a, i, count);
      SegmentsFromPositive(files, size, dt, a, end, count + 1);
      SecondsIncreasing(i, end, dt);
      assert forall k :: 0 < k < |r| ==> r[k] == SegmentsFrom(files, size, dt, a, end, count + 1)[k - 1];
    }
  }

  lemma {:induction false} ContiguousGap(segs: seq<Segment>, i: nat, j: nat)
    requires Contiguous(segs) && PositiveSpans(segs)
    requires i < j < |segs|
    decreases j - i
    ensures segs[i].end <= segs[j].start
  {
    if j > i + 1 {
      ContiguousGap(segs, i, j - 1);
    }
  }

  lemma ContiguousIsOrdered(segs: seq<Segment>)
    requires Contiguous(segs) && PositiveSpans(segs)
    ensures Ordered(segs)
  {
    forall i, j | 0 <= i < j < |segs|
      ensures segs[i].end <= segs[j].start
    {
      ContiguousGap(segs, i, j);
    }
  }

  /** With a positive frame interval the built segments have positive spans and are in time order. */
  lemma BuiltSegmentsOrdered(files: seq<string>, size: nat, dt: real, a: Option<Analysis>)
    requires size > 0 && dt > 0.0 && |files| > 0
    ensures PositiveSpans(BuildSegments(files, size, dt, a).value)
    ensures Ordered(BuildSegments(files, size, dt, a).value)
  {
    SegmentsFromPositive(files, size, dt, a, 0, 0);
    SegmentsContiguous(files, size, dt, a, 0, 0);
    ContiguousIsOrdered(BuildSegments(files, size, dt, a).value);
  }
}
