/**
 * The vision step: choosing at most ten representative frames, classifying
 * them with one request to the generative-language service, and the job
 * pipeline's per-segment analysis with its success threshold.
 *
 * Image compression and the service itself are outside the model: whether a
 * frame compresses is a predicate parameter, the service's reply is a
 * `Reply` value, and decoding the JSON payload is a partial function parameter.
 */
module Vision {
  import opened Wrappers
  import opened Types
  import opened TextOps
  import opened Replies

  /** At most this many frames go into one request. */
  const MaxImages: nat := 10

  /**
   * The frame picked for slot `i` of `n > MaxImages` frames: the integer part
   * of i * (n / 10), computed exactly.
   */
  function SampleIndex(i: nat, n: nat): nat {
    (i * n) / MaxImages
  }

  lemma DivStepUp(a: int, b: int)
    requires 0 <= b && b + MaxImages <= a
    ensures b / MaxImages + 1 <= a / MaxImages
  {
  }

  lemma SampleIndexInRange(i: nat, n: nat)
    requires i < MaxImages && n > 0
    ensures SampleIndex(i, n) < n
  {
    assert i * n <= 9 * n by {
      assert (9 - i) * n >= 0;
    }
  }

  /** Slots i .. 9 of the uniform selection. */
  function PickFrom(frames: seq<string>, i: nat): (r: seq<string>)
    requires i <= MaxImages && |frames| > MaxImages
    ensures |r| == MaxImages - i
    ensures forall j :: i <= j < MaxImages ==>
      (SampleIndex(j, |frames|) < |frames| && r[j - i] == frames[SampleIndex(j, |frames|)])
    decreases MaxImages - i
  {
    if i == MaxImages then []
    else
      var idx := SampleIndex(i, |frames|);
      SampleIndexInRange(i, |frames|);
      var rest := PickFrom(frames, i + 1);
      (if idx < |frames| then [frames[idx]] else []) + rest
  }

  /**
   * The frames sent to the service: all of them when there are at most ten,
   * otherwise ten frames spread evenly over the sequence.
   */
  function SelectFrames(frames: seq<string>): (r: seq<string>)
    ensures |frames| <= MaxImages ==> r == frames
    ensures |frames| > MaxImages ==> |r| == MaxImages
    ensures |frames| > MaxImages ==> forall k :: 0 <= k < MaxImages ==>
      (SampleIndex(k, |frames|) < |frames| && r[k] == frames[SampleIndex(k, |frames|)])
  {
    if |frames| <= MaxImages then frames else PickFrom(frames, 0)
  }

  /** Slot 0 is the first frame, and later slots pick strictly later frames. */
  lemma SampleIndicesIncrease(n: nat, k: nat, l: nat)
    requires n > MaxImages && k < l < MaxImages
    ensures SampleIndex(0, n) == 0
    ensures SampleIndex(k, n) < SampleIndex(l, n)
  {
    assert l * n >= k * n + n by {
      assert (l - k) * n >= n;
    }
    DivStepUp(l * n, k * n);
  }

  /**
   * Evenly spread: consecutive slots are n / 10 or n / 10 + 1 frames apart.
   */
  lemma SampleGap(n: nat, k: nat)
    requires k + 1 < MaxImages
    ensures n / MaxImages <= SampleIndex(k + 1, n) - SampleIndex(k, n) <= n / MaxImages + 1
  {
    var a := k * n;
    assert (k + 1) * n == a + n;
    var q, r := a / MaxImages, a % MaxImages;
    var p, s := n / MaxImages, n % MaxImages;
    assert a + n == MaxImages * (q + p) + (r + s);
    assert 0 <= r + s < 2 * MaxImages;
    if r + s < MaxImages {
      assert (a + n) / MaxImages == q + p;
    } else {
      assert a + n == MaxImages * (q + p + 1) + (r + s - MaxImages);
      assert (a + n) / MaxImages == q + p + 1;
    }
  }

  /** The selected frames that compress successfully, in order. */
  function Compressed(selected: seq<string>, compresses: string -> bool): (r: seq<string>)
    ensures |r| <= |selected|
    ensures forall k :: 0 <= k < |r| ==> r[k] in selected && compresses(r[k])
    ensures forall k :: 0 <= k < |selected| && compresses(selected[k]) ==> selected[k] in r
    ensures (forall k :: 0 <= k < |selected| ==> !compresses(selected[k])) ==> r == []
  {
    if |selected| == 0 then []
    else
      var rest := Compressed(selected[1..], compresses);
      assert forall k :: 1 <= k < |selected| ==> selected[k] == selected[1..][k - 1];
      if compresses(selected[0]) then [selected[0]] + rest else rest
  }

  datatype AnalysisError =
    | NoFramesProvided
    | NoFramesProcessed
    | ServiceFailed(cause: ReplyError)
    | Unparsable
    | NoFramesInSegment

  /**
   * One classification request: no frames, no compressible selected frame,
   * a failed exchange and an unparsable payload are errors; otherwise the
   * analysis is the payload of the reply's text with any code fence removed.
   */
  function ClassifyFrames(frames: seq<string>, compresses: string -> bool, reply: Reply,
                          parse: string -> Option<Analysis>): (r: Result<Analysis, AnalysisError>)
    ensures |frames| == 0 <==> r == Failure(NoFramesProvided)
    ensures |frames| > 0 && (forall k :: 0 <= k < |SelectFrames(frames)| ==> !compresses(SelectFrames(frames)[k]))
      ==> r == Failure(NoFramesProcessed)
    ensures r.Success? <==>
      (|frames| > 0 && |Compressed(SelectFrames(frames), compresses)| > 0
       && StrictText(reply).Success? && parse(StripFence(StrictText(reply).value)).Some?)
    ensures r.Success? ==> Some(r.value) == parse(StripFence(StrictText(reply).value))
    ensures r.Failure? && r.error.ServiceFailed? ==> StrictText(reply) == Failure(r.error.cause)
  {
    if |frames| == 0 then Failure(NoFramesProvided)
    else
      var images := Compressed(SelectFrames(frames), compresses);
      if |images| == 0 then Failure(NoFramesProcessed)
      else
        match StrictText(reply)
        case Failure(e) => Failure(ServiceFailed(e))
        case Success(text) =>
          match parse(StripFence(text))
          case None => Failure(Unparsable)
          case Some(a) => Success(a)
  }

  /** A segment is classified from its own frames; a segment without frames is an error. */
  function ClassifySegment(s: Segment, compresses: string -> bool, reply: Reply,
                           parse: string -> Option<Analysis>): (r: Result<Analysis, AnalysisError>)
    ensures |s.frames| == 0 <==> r == Failure(NoFramesInSegment)
    ensures |s.frames| > 0 ==> r == ClassifyFrames(s.frames, compresses, reply, parse)
  {
    if |s.frames| == 0 then Failure(NoFramesInSegment)
    else ClassifyFrames(s.frames, compresses, reply, parse)
  }

  // ---------------------------------------------------------------------
  // Job pipeline: analysing every segment
  // ---------------------------------------------------------------------

  /** The analysis recorded for a segment whose classification failed. */
  const FailedAnalysis: Analysis := Analysis(false, false, "none", "neutral", "分析失敗")

  /** The placeholder values that do not count as a configured key. */
  predicate KeyConfigured(key: string) {
    key != "" && key != "your_api_key_here" && key != "your_gemini_api_key_here"
  }

  datatype SegmentAnalysisError =
    | KeyNotConfigured
    | TooManyFailures(succeeded: nat, total: nat)

  /** How many classifications succeeded. */
  function SuccessCount(outcomes: seq<Result<Analysis, AnalysisError>>): (n: nat)
    ensures n <= |outcomes|
    ensures n == 0 <==> forall k :: 0 <= k < |outcomes| ==> outcomes[k].Failure?
    ensures n == |outcomes| <==> forall k :: 0 <= k < |outcomes| ==> outcomes[k].Success?
  {
    if |outcomes| == 0 then 0
    else
      var rest := SuccessCount(outcomes[1..]);
      assert forall k :: 1 <= k < |outcomes| ==> outcomes[k] == outcomes[1..][k - 1];
      (if outcomes[0].Success? then 1 else 0) + rest
  }

  /** Counting from position i: the successes among outcomes[i..] are the successful positions from i on. */
  lemma {:induction false} SuccessCountFrom(outcomes: seq<Result<Analysis, AnalysisError>>, i: nat)
    requires i <= |outcomes|
    ensures SuccessCount(outcomes[i..]) == |set k | i <= k < |outcomes| && outcomes[k].Success?|
    decreases |outcomes| - i
  {
    var here := set k | i <= k < |outcomes| && outcomes[k].Success?;
    if i == |outcomes| {
      assert here == {};
    } else {
      SuccessCountFrom(outcomes, i + 1);
      assert outcomes[i..][1..] == outcomes[i + 1..];
      var later := set k | i + 1 <= k < |outcomes| && outcomes[k].Success?;
      if outcomes[i].Success? {
        assert here == {i} + later;
        assert i !in later;
      } else {
        assert here == later;
      }
    }
  }

  /** SuccessCount is the number of positions whose classification succeeded. */
  lemma SuccessCountCounts(outcomes: seq<Result<Analysis, AnalysisError>>)
    ensures SuccessCount(outcomes) == |set k | 0 <= k < |outcomes| && outcomes[k].Success?|
  {
    SuccessCountFrom(outcomes, 0);
    assert outcomes[0..] == outcomes;
  }

  /** The analysis stored for one outcome. */
  function Recorded(o: Result<Analysis, AnalysisError>): Option<Analysis> {
    Some(if o.Success? then o.value else FailedAnalysis)
  }

  function Outcomes(segs: seq<Segment>, compresses: string -> bool, replies: seq<Reply>,
                    parse: string -> Option<Analysis>): (r: seq<Result<Analysis, AnalysisError>>)
    requires |replies| == |segs|
    ensures |r| == |segs|
    ensures forall k :: 0 <= k < |segs| ==> r[k] == ClassifySegment(segs[k], compresses, replies[k], parse)
  {
    seq(|segs|, k requires 0 <= k < |segs| => ClassifySegment(segs[k], compresses, replies[k], parse))
  }

  /** The segments with the analysis each one records: its own on success, the placeholder otherwise. */
  function Annotated(segs: seq<Segment>, compresses: string -> bool, replies: seq<Reply>,
                     parse: string -> Option<Analysis>): (r: seq<Segment>)
    requires |replies| == |segs|
    ensures |r| == |segs|
    ensures forall k :: 0 <= k < |segs| ==>
      r[k] == segs[k].(analysis := Recorded(ClassifySegment(segs[k], compresses, replies[k], parse)))
    ensures forall k :: 0 <= k < |r| ==> r[k].analysis.Some?
  {
    seq(|segs|, k requires 0 <= k < |segs| =>
      segs[k].(analysis := Recorded(ClassifySegment(segs[k], compresses, replies[k], parse))))
  }

  /**
   * The job's analysis step: refuses to run without a configured key,
   * classifies every segment (segment k gets reply k), stores the failure
   * placeholder where classification failed, and fails when fewer than half
   * (rounded down) of the segments were classified.
   */
  function AnalyzeSegments(segs: seq<Segment>, key: string, compresses: string -> bool,
                           replies: seq<Reply>, parse: string -> Option<Analysis>)
    : (r: Result<seq<Segment>, SegmentAnalysisError>)
    requires |replies| == |segs|
    ensures !KeyConfigured(key) ==> r == Failure(KeyNotConfigured)
    ensures KeyConfigured(key) ==>
      (r.Success? <==> SuccessCount(Outcomes(segs, compresses, replies, parse)) >= |segs| / 2)
    ensures r.Failure? && r.error.TooManyFailures? ==>
      r.error.succeeded < r.error.total / 2 && r.error.total == |segs|
    ensures KeyConfigured(key) && r.Failure? ==>
      r == Failure(TooManyFailures(SuccessCount(Outcomes(segs, compresses, replies, parse)), |segs|))
    ensures r.Success? ==> r.value == Annotated(segs, compresses, replies, parse)
  {
    if !KeyConfigured(key) then Failure(KeyNotConfigured)
    else
      var outcomes := Outcomes(segs, compresses, replies, parse);
      var n := SuccessCount(outcomes);
      if n < |segs| / 2 then Failure(TooManyFailures(n, |segs|))
      else Success(Annotated(segs, compresses, replies, parse))
  }

  /**
   * A segment whose classification failed records the placeholder, which
   * does not qualify: such a segment never starts or extends a highlight.
   */
  lemma FailedSegmentsNeverQualify(segs: seq<Segment>, compresses: string -> bool, replies: seq<Reply>,
                                   parse: string -> Option<Analysis>)
    requires |replies| == |segs|
    ensures var r := Annotated(segs, compresses, replies, parse);
      forall k :: 0 <= k < |segs| && ClassifySegment(segs[k], compresses, replies[k], parse).Failure? ==>
        r[k].analysis == Some(FailedAnalysis) && !Qualifies(r[k].analysis.value)
  {
  }

  /** With at most one segment the threshold is zero, so the job never fails it. */
  lemma ShortJobsPassThreshold(segs: seq<Segment>, key: string, compresses: string -> bool,
                               replies: seq<Reply>, parse: string -> Option<Analysis>)
    requires |replies| == |segs| && |segs| <= 1 && KeyConfigured(key)
    ensures AnalyzeSegments(segs, key, compresses, replies, parse).Success?
  {
  }
}
