/**
 * Analysis of one video of a multi-video project: frames every 2 s, one
 * classification for the whole video shared by all its segments of three
 * frames, and at most one highlight covering the opening segments that end
 * within the first 15 seconds.
 */
module VideoAnalysis {
  import opened Wrappers
  import opened Types
  import opened Segments

  const MaxHighlightSeconds: real := 15.0

  /** Substituted when the vision call fails: both subjects present but no interaction, so it never qualifies. */
  const ProjectFallbackAnalysis: Analysis := Analysis(true, true, "none", "neutral", "影片分析")

  /** The analysis a project video ends up with: the classifier's answer, or the fallback when it failed. */
  function ProjectAnalysisOf(classified: Option<Analysis>): (a: Analysis)
    ensures classified.Some? ==> a == classified.value
    ensures classified.None? ==> !Qualifies(a) && a.hasDog && a.hasHuman
  {
    classified.GetOr(ProjectFallbackAnalysis)
  }

  /** Ends strictly increase along the list. */
  ghost predicate EndsIncreasing(segs: seq<Segment>) {
    forall i, j :: 0 <= i < j < |segs| ==> segs[i].end < segs[j].end
  }

  /**
   * The loop over segments: the first one ending within 15 s opens the
   * highlight, each later one ending within 15 s moves its end.
   */
  function CapScan(segs: seq<Segment>, a: Analysis, acc: seq<Highlight>): (r: seq<Highlight>)
    requires |acc| <= 1
    requires EndsIncreasing(segs)
    requires |acc| == 1 ==> acc[0].end <= MaxHighlightSeconds
    requires |acc| == 1 ==> forall k :: 0 <= k < |segs| ==> acc[0].end < segs[k].end
    decreases |segs|
    ensures |r| <= 1
    ensures |r| == 0 <==> |acc| == 0 && forall k :: 0 <= k < |segs| ==> segs[k].end > MaxHighlightSeconds
    ensures |r| == 1 && |acc| == 1 ==> r[0] == acc[0].(end := r[0].end)
    ensures |r| == 1 ==> r[0].end <= MaxHighlightSeconds
    ensures |r| == 1 ==> forall k :: 0 <= k < |segs| && segs[k].end <= MaxHighlightSeconds ==> segs[k].end <= r[0].end
    ensures |r| == 1 && |acc| == 0 && |segs| > 0 && segs[0].end <= MaxHighlightSeconds ==>
      r[0] == Highlight(segs[0].start, r[0].end, a.caption, a.interaction, a.emotion)
    ensures |r| == 1 ==> (|acc| == 1 && r[0].end == acc[0].end) || exists k :: 0 <= k < |segs| && segs[k].end == r[0].end
  {
    if |segs| == 0 then acc
    else
      var s := segs[0];
      assert EndsIncreasing(segs[1..]);
      if s.end <= MaxHighlightSeconds then
        var next := if |acc| == 0 then Highlight(s.start, s.end, a.caption, a.interaction, a.emotion) else acc[0].(end := s.end);
        var r := CapScan(segs[1..], a, [next]);
        assert forall k :: 0 < k < |segs| ==> segs[k] == segs[1..][k - 1];
        r
      else
        assert forall k :: 0 <= k < |segs| ==> segs[k].end >= s.end;
        assert forall k :: 0 < k < |segs| ==> segs[k] == segs[1..][k - 1];
        CapScan(segs[1..], a, acc)
  }

  /** The highlights of a project video: none unless the shared analysis qualifies. */
  function ProjectHighlights(segs: seq<Segment>, a: Analysis): seq<Highlight>
    requires EndsIncreasing(segs)
  {
    if Qualifies(a) then CapScan(segs, a, []) else []
  }

  /** Outcome of running the frame extractor on a video. */
  datatype Extraction = ExtractionFailed | Extracted(files: seq<string>)

  datatype VideoError = FfmpegFailed | NoVideoFrames

  lemma OrderedEndsIncrease(segs: seq<Segment>)
    requires Ordered(segs) && PositiveSpans(segs)
    ensures EndsIncreasing(segs)
  {
    forall i, j | 0 <= i < j < |segs|
      ensures segs[i].end < segs[j].end
    {
      assert segs[i].end <= segs[j].start < segs[j].end;
    }
  }

  /**
   * One video of a project analysed: extraction failure or no frames is an
   * error and leaves the video as it was; otherwise every segment carries
   * the same analysis, the video is marked analysed, and it has a highlight
   * exactly when that analysis qualifies: one, from 0 s to the largest
   * segment end not beyond 15 s.
   */
  function AnalyzeVideo(video: VideoInfo, extraction: Extraction, classified: Option<Analysis>): (r: Result<VideoInfo, VideoError>)
    ensures extraction.ExtractionFailed? ==> r == Failure(FfmpegFailed)
    ensures extraction.Extracted? && |extraction.files| == 0 ==> r == Failure(NoVideoFrames)
    ensures r.Success? <==> extraction.Extracted? && |extraction.files| > 0
    ensures r.Success? ==> ProjectVideoAnalysed(video, extraction.files, ProjectAnalysisOf(classified), r.value)
  {
    match extraction
    case ExtractionFailed => Failure(FfmpegFailed)
    case Extracted(files) =>
      var a := ProjectAnalysisOf(classified);
      var built := BuildSegments(files, ProjectSegmentSize, ProjectFrameStep, Some(a));
      if built.Failure? then Failure(NoVideoFrames)
      else
        var segs := built.value;
        BuiltSegmentsOrdered(files, ProjectSegmentSize, ProjectFrameStep, Some(a));
        OrderedEndsIncrease(segs);
        assert segs[0].end <= MaxHighlightSeconds;
        var hs := ProjectHighlights(segs, a);
        Success(video.(analyzed := true, segments := segs, highlights := hs))
  }

  /** What a successful analysis of a project video guarantees. */
  ghost predicate ProjectVideoAnalysed(video: VideoInfo, files: seq<string>, a: Analysis, v: VideoInfo) {
    && v.id == video.id && v.path == video.path && v.duration == video.duration
    && v.analyzed
    && ValidSegmentation(v.segments, files, ProjectSegmentSize, ProjectFrameStep, Some(a))
    && |v.highlights| <= 1
    && (|v.highlights| == 1 <==> Qualifies(a))
    && (|v.highlights| == 1 ==>
          && v.highlights[0] == Highlight(0.0, v.highlights[0].end, a.caption, a.interaction, a.emotion)
          && v.highlights[0].end <= MaxHighlightSeconds
          && (exists k :: 0 <= k < |v.segments| && v.segments[k].end == v.highlights[0].end)
          && (forall k :: 0 <= k < |v.segments| && v.segments[k].end <= MaxHighlightSeconds ==>
                v.segments[k].end <= v.highlights[0].end))
  }
}
