/**
 * The two pipelines as status machines. A job (one uploaded video) goes
 * processing -> completed | failed; a project (several videos) goes
 * analyzing -> generating_story -> generating_video -> completed, and can
 * fail from any stage. Every external step enters as an outcome.
 */
module Pipeline {
  import opened Wrappers
  import opened Types
  import opened Replies
  import Seg = Segments
  import Hl = Highlights
  import Vision
  import VA = VideoAnalysis
  import StoryGen
  import Composite
  import Timing

  // ---------------------------------------------------------------------
  // Jobs
  // ---------------------------------------------------------------------

  datatype JobStatus = JobPending | Processing | JobCompleted | JobFailed

  /** Why a job failed; the source stores this as a message prefixed with the failing step. */
  datatype JobFailure =
    | ExtractFailed
    | SegmentsFailed(segmentError: Seg.SegmentError)
    | AnalysisFailed(analysisError: Vision.SegmentAnalysisError)
    | HighlightVideoFailed

  datatype Job = Job(
    id: string,
    status: JobStatus,
    videoPath: string,
    segments: seq<Segment>,
    highlights: seq<Highlight>,
    highlightVideo: string,
    failure: Option<JobFailure>)

  /** The allowed status changes of a job. */
  predicate JobStep(a: JobStatus, b: JobStatus) {
    (a == JobPending && b == Processing) || (a == Processing && (b == JobCompleted || b == JobFailed))
  }

  /** A trace of a job run starts at processing and moves only by JobStep. */
  predicate JobTrace(t: seq<JobStatus>) {
    |t| > 0 && t[0] == Processing && forall i :: 0 <= i < |t| - 1 ==> JobStep(t[i], t[i + 1])
  }

  /** The outcomes of the external steps of one job run; `reply(k)` is the service's reply for segment k. */
  datatype JobEffects = JobEffects(
    extraction: VA.Extraction,
    key: string,
    compresses: string -> bool,
    reply: nat -> Reply,
    parse: string -> Option<Analysis>,
    cutOk: bool,
    storage: string)

  datatype JobRun = JobRun(trace: seq<JobStatus>, job: Job)

  /** markJobFailed on one job: failed, with the reason recorded, nothing else changed. */
  function FailJob(job: Job, why: JobFailure): (j: Job)
    ensures j.status == JobFailed && j.failure == Some(why)
    ensures j.(status := job.status, failure := job.failure) == job
  {
    job.(status := JobFailed, failure := Some(why))
  }

  /**
   * markJobFailed on the job store: an unknown id changes nothing; otherwise
   * only that job changes, as FailJob describes.
   */
  function MarkJobFailed(jobs: map<string, Job>, id: string, why: JobFailure): (r: map<string, Job>)
    ensures id !in jobs ==> r == jobs
    ensures id in jobs ==> id in r && r[id] == FailJob(jobs[id], why)
    ensures r.Keys == jobs.Keys
    ensures forall other :: other in jobs && other != id ==> r[other] == jobs[other]
  {
    if id in jobs then jobs[id := FailJob(jobs[id], why)] else jobs
  }

  /** Where a job's highlight clip is written. */
  function HighlightPath(storage: string, id: string): string {
    storage + "/videos/" + id + "/highlight.mp4"
  }

  function ReplySeq(n: nat, reply: nat -> Reply): (r: seq<Reply>)
    ensures |r| == n
  {
    seq(n, k requires 0 <= k < n => reply(k))
  }

  function Stop(job: Job, why: JobFailure): JobRun {
    JobRun([Processing, JobFailed], FailJob(job, why))
  }

  /** The 3-second segments a job's frames are cut into; the builder succeeds on any non-empty frame list. */
  function JobSegments(files: seq<string>): seq<Segment>
    requires |files| > 0
  {
    Seg.BuildSegments(files, Seg.JobSegmentSize, Seg.JobFrameStep, None).value
  }

  /** The classification step of a job with these frames. */
  function JobAnalysis(files: seq<string>, fx: JobEffects): Result<seq<Segment>, Vision.SegmentAnalysisError>
    requires |files| > 0
  {
    var built := JobSegments(files);
    Vision.AnalyzeSegments(built, fx.key, fx.compresses, ReplySeq(|built|, fx.reply), fx.parse)
  }

  /**
   * When a job completes: frames were extracted, the classification met
   * its threshold, and the highlight clip was cut unless there was no
   * highlight to cut.
   */
  predicate JobCompletes(fx: JobEffects) {
    && fx.extraction.Extracted? && |fx.extraction.files| > 0
    && JobAnalysis(fx.extraction.files, fx).Success?
    && (|Hl.FindHighlights(JobAnalysis(fx.extraction.files, fx).value)| == 0 || fx.cutOk)
  }

  /**
   * The steps of processJob after the frames are cut into segments:
   * classify them, scan for highlights, and cut the clip when there is a
   * highlight.
   */
  function AnalyseJob(job: Job, files: seq<string>, fx: JobEffects): (r: JobRun)
    requires |files| > 0
    ensures r.trace == [Processing, r.job.status]
    ensures r.job.status == JobCompleted || r.job.status == JobFailed
    ensures r.job.id == job.id && r.job.videoPath == job.videoPath
    ensures !Vision.KeyConfigured(fx.key) ==> r.job.failure == Some(AnalysisFailed(Vision.KeyNotConfigured))
    ensures JobAnalysis(files, fx).Failure? ==>
      r.job.status == JobFailed && r.job.failure == Some(AnalysisFailed(JobAnalysis(files, fx).error))
    ensures var a := JobAnalysis(files, fx);
      r.job.status == JobCompleted <==> a.Success? && (|Hl.FindHighlights(a.value)| == 0 || fx.cutOk)
    ensures r.job.status == JobCompleted ==>
      && r.job.segments == JobAnalysis(files, fx).value
      && r.job.highlights == Hl.FindHighlights(r.job.segments)
      && r.job.failure == job.failure
    ensures r.job.status == JobCompleted && |r.job.highlights| == 0 ==> r.job.highlightVideo == job.highlightVideo
    ensures r.job.status == JobCompleted && |r.job.highlights| > 0 ==>
      r.job.highlightVideo == HighlightPath(fx.storage, job.id)
    ensures r.job.status == JobFailed && r.job.failure == Some(HighlightVideoFailed) ==>
      |r.job.highlights| > 0 && !fx.cutOk
  {
    var built := JobSegments(files);
    var job2 := job.(status := Processing, segments := built);
    var replies := ReplySeq(|built|, fx.reply);
    match JobAnalysis(files, fx)
    case Failure(e) =>
      var job3 := if Vision.KeyConfigured(fx.key)
        then job2.(segments := Vision.Annotated(built, fx.compresses, replies, fx.parse))
        else job2;
      Stop(job3, AnalysisFailed(e))
    case Success(annotated) =>
      var hs := Hl.FindHighlights(annotated);
      var job4 := job2.(segments := annotated, highlights := hs);
      if |hs| > 0 && !fx.cutOk then Stop(job4, HighlightVideoFailed)
      else
        var job5 := if |hs| > 0 then job4.(highlightVideo := HighlightPath(fx.storage, job.id)) else job4;
        JobRun([Processing, JobCompleted], job5.(status := JobCompleted))
  }

  /**
   * processJob: extract frames, build 3-second segments, classify them
   * (failing without a key or below the half-success threshold), merge
   * qualifying runs into highlights, and cut a clip of the first highlight
   * only when there is one.
   */
  function ProcessJob(job: Job, fx: JobEffects): (r: JobRun)
    ensures JobTrace(r.trace) && r.trace[|r.trace| - 1] == r.job.status
    ensures r.job.status == JobCompleted || r.job.status == JobFailed
    ensures r.job.id == job.id && r.job.videoPath == job.videoPath
    ensures fx.extraction.ExtractionFailed? ==> r.job == FailJob(job.(status := Processing), ExtractFailed)
    ensures fx.extraction.Extracted? && |fx.extraction.files| == 0 ==>
      r.job.failure == Some(SegmentsFailed(Seg.NoFramesExtracted))
    ensures fx.extraction.Extracted? && |fx.extraction.files| > 0 && !Vision.KeyConfigured(fx.key) ==>
      r.job.failure == Some(AnalysisFailed(Vision.KeyNotConfigured))
    ensures fx.extraction.Extracted? && |fx.extraction.files| > 0 && JobAnalysis(fx.extraction.files, fx).Failure? ==>
      r.job.status == JobFailed && r.job.failure == Some(AnalysisFailed(JobAnalysis(fx.extraction.files, fx).error))
    ensures r.job.status == JobCompleted <==> JobCompletes(fx)
    ensures r.job.status == JobCompleted ==>
      && fx.extraction.Extracted? && |fx.extraction.files| > 0
      && var built := JobSegments(fx.extraction.files);
         var replies := ReplySeq(|built|, fx.reply);
         && r.job.segments == Vision.Annotated(built, fx.compresses, replies, fx.parse)
         && Vision.SuccessCount(Vision.Outcomes(built, fx.compresses, replies, fx.parse)) >= |built| / 2
    ensures r.job.status == JobCompleted ==> r.job.highlights == Hl.FindHighlights(r.job.segments)
    ensures r.job.status == JobCompleted && |r.job.highlights| == 0 ==> r.job.highlightVideo == job.highlightVideo
    ensures r.job.status == JobCompleted && |r.job.highlights| > 0 ==>
      r.job.highlightVideo == HighlightPath(fx.storage, job.id)
    ensures r.job.status == JobFailed && r.job.failure == Some(HighlightVideoFailed) ==>
      |r.job.highlights| > 0 && !fx.cutOk
    ensures r.job.status == JobCompleted ==> r.job.failure == job.failure
  {
    var job1 := job.(status := Processing);
    match fx.extraction
    case ExtractionFailed => Stop(job1, ExtractFailed)
    case Extracted(files) =>
      if |files| == 0 then Stop(job1, SegmentsFailed(Seg.NoFramesExtracted))
      else AnalyseJob(job, files, fx)
  }

  /**
   * What a failed job keeps: a failed cut records the reason with the
   * annotated segments and the highlights in place, and a threshold miss
   * records the annotated segments but leaves highlights and clip as they
   * were.
   */
  lemma ProcessJobFailureRecords(job: Job, fx: JobEffects)
    requires fx.extraction.Extracted? && |fx.extraction.files| > 0
    ensures var r := ProcessJob(job, fx);
      var a := JobAnalysis(fx.extraction.files, fx);
      a.Success? && |Hl.FindHighlights(a.value)| > 0 && !fx.cutOk ==>
        r.job == FailJob(job.(status := Processing, segments := a.value, highlights := Hl.FindHighlights(a.value)),
                         HighlightVideoFailed)
    ensures var r := ProcessJob(job, fx);
      var built := JobSegments(fx.extraction.files);
      Vision.KeyConfigured(fx.key) && JobAnalysis(fx.extraction.files, fx).Failure? ==>
        && r.job.segments == Vision.Annotated(built, fx.compresses, ReplySeq(|built|, fx.reply), fx.parse)
        && r.job.highlights == job.highlights && r.job.highlightVideo == job.highlightVideo
  {
  }

  /**
   * A completed job's highlights are exactly one per maximal run of
   * qualifying segments: every segment is analysed by then, so none is
   * skipped.
   */
  lemma CompletedJobHighlights(job: Job, fx: JobEffects)
    requires ProcessJob(job, fx).job.status == JobCompleted
    ensures var j := ProcessJob(job, fx).job;
      && Hl.MaximalRuns(j.segments, Hl.RunsFrom(j.segments, 0), 0)
      && j.highlights == Hl.RunHighlights(j.segments, Hl.RunsFrom(j.segments, 0))
  {
    var j := ProcessJob(job, fx).job;
    AllAnalyzedUnchanged(j.segments);
    Hl.FindHighlightsByRuns(j.segments);
  }

  lemma {:induction false} AllAnalyzedUnchanged(segs: seq<Segment>)
    requires forall k :: 0 <= k < |segs| ==> segs[k].analysis.Some?
    ensures Hl.Analyzed(segs) == segs
  {
    if |segs| > 0 {
      AllAnalyzedUnchanged(segs[1..]);
      assert segs == [segs[0]] + segs[1..];
    }
  }

  // ---------------------------------------------------------------------
  // Projects
  // ---------------------------------------------------------------------

  datatype ProjectStatus = ProjectPending | Analyzing | GeneratingStory | GeneratingVideo | ProjectCompleted | ProjectFailed

  datatype ProjectFailure =
    | AllVideosFailed
    | StoryFailed(storyError: StoryGen.StoryError)
    | CompositeFailed(compositeError: Composite.CompositeError)

  datatype Project = Project(
    id: string,
    dogName: string,
    relationship: string,
    endingImage: string,
    ownerMessage: string,
    status: ProjectStatus,
    videos: seq<VideoInfo>,
    story: Option<Story>,
    finalVideo: string,
    failure: Option<ProjectFailure>)

  /** The allowed status changes of a project: forward one stage, or to failed from a working stage. */
  predicate ProjectStep(a: ProjectStatus, b: ProjectStatus) {
    || (a == ProjectPending && b == Analyzing)
    || (a == Analyzing && (b == GeneratingStory || b == ProjectFailed))
    || (a == GeneratingStory && (b == GeneratingVideo || b == ProjectFailed))
    || (a == GeneratingVideo && (b == ProjectCompleted || b == ProjectFailed))
  }

  predicate ProjectTrace(t: seq<ProjectStatus>) {
    |t| > 0 && t[0] == Analyzing && forall i :: 0 <= i < |t| - 1 ==> ProjectStep(t[i], t[i + 1])
  }

  /** What frame extraction and the classification reply were for one video. */
  datatype VideoEffects = VideoEffects(extraction: VA.Extraction, reply: Reply)

  /** The outcomes of the external steps of one project run. */
  datatype ProjectEffects = ProjectEffects(
    videoFx: nat -> VideoEffects,
    compresses: string -> bool,
    parseAnalysis: string -> Option<Analysis>,
    storyReply: Reply,
    parseStory: string -> Option<StoryGen.StoryPlan>,
    dogReply: Reply,
    tts: nat -> Option<real>,
    trim: nat -> bool,
    concatListOk: bool, concatOk: bool, audioListOk: bool, mergeOk: bool, muxOk: bool,
    regeneratedReply: Reply,
    // addEndingImage: probe, copy on probe failure, card, concat, silent concat
    endingProbeOk: bool, endingCopyOk: bool, cardOk: bool, endingConcatOk: bool, silentConcatOk: bool,
    subtitlesOk: bool,
    // addBackgroundMusic: bundled track copied, probed duration, synthesised, mixed, music-only
    musicCopied: bool, musicProbed: real, musicGenerated: bool, mixOk: bool, musicOnlyOk: bool,
    storage: string)

  /** The classification of a video's frames, when it was extracted and the classification succeeded. */
  function Classified(e: VideoEffects, compresses: string -> bool, parse: string -> Option<Analysis>): Option<Analysis> {
    if e.extraction.Extracted? then
      match Vision.ClassifyFrames(e.extraction.files, compresses, e.reply, parse)
      case Success(a) => Some(a)
      case Failure(_) => None
    else None
  }

  /** analyzeVideo for video k: classification of all its frames, falling back to the default analysis. */
  function AnalyzeOne(v: VideoInfo, e: VideoEffects, compresses: string -> bool,
                      parse: string -> Option<Analysis>): (r: Result<VideoInfo, VA.VideoError>)
    ensures r.Success? <==> e.extraction.Extracted? && |e.extraction.files| > 0
    ensures r.Success? ==>
      VA.ProjectVideoAnalysed(v, e.extraction.files, VA.ProjectAnalysisOf(Classified(e, compresses, parse)), r.value)
  {
    VA.AnalyzeVideo(v, e.extraction, Classified(e, compresses, parse))
  }

  /** The videos after the analysis loop: a failed video is left as it was. */
  function AnalyzeAll(videos: seq<VideoInfo>, fx: ProjectEffects): (r: seq<VideoInfo>)
    ensures |r| == |videos|
    ensures forall k :: 0 <= k < |videos| ==>
      r[k] == match AnalyzeOne(videos[k], fx.videoFx(k), fx.compresses, fx.parseAnalysis)
              case Success(v) => v
              case Failure(_) => videos[k]
  {
    seq(|videos|, k requires 0 <= k < |videos| =>
      match AnalyzeOne(videos[k], fx.videoFx(k), fx.compresses, fx.parseAnalysis)
      case Success(v) => v
      case Failure(_) => videos[k])
  }

  predicate VideoSucceeded(fx: ProjectEffects, k: nat) {
    fx.videoFx(k).extraction.Extracted? && |fx.videoFx(k).extraction.files| > 0
  }

  /** Where chapter k's narration is stored: named after its position, not its index. */
  function AudioPath(storage: string, id: string, k: nat): string {
    storage + "/projects/" + id + "/audio/chapter_" + Timing.Digits(k + 1) + ".mp3"
  }

  /**
   * The TTS loop: chapter k gets its audio file and the probed length when
   * synthesis succeeded, and is left without audio otherwise.
   */
  function WithNarration(chapters: seq<Chapter>, storage: string, id: string, tts: nat -> Option<real>): (r: seq<Chapter>)
    ensures |r| == |chapters|
    ensures forall k :: 0 <= k < |chapters| && tts(k).Some? ==>
      r[k] == chapters[k].(audioPath := AudioPath(storage, id, k), duration := tts(k).value)
    ensures forall k :: 0 <= k < |chapters| && tts(k).None? ==> r[k] == chapters[k]
  {
    seq(|chapters|, k requires 0 <= k < |chapters| =>
      if tts(k).Some? then chapters[k].(audioPath := AudioPath(storage, id, k), duration := tts(k).value)
      else chapters[k])
  }

  /** markProjectFailed on one project. */
  function FailProject(p: Project, why: ProjectFailure): (q: Project)
    ensures q.status == ProjectFailed && q.failure == Some(why)
    ensures q.(status := p.status, failure := p.failure) == p
  {
    p.(status := ProjectFailed, failure := Some(why))
  }

  /** markProjectFailed on the project store: an unknown id changes nothing. */
  function MarkProjectFailed(projects: map<string, Project>, id: string, why: ProjectFailure): (r: map<string, Project>)
    ensures id !in projects ==> r == projects
    ensures id in projects ==> id in r && r[id] == FailProject(projects[id], why)
    ensures r.Keys == projects.Keys
    ensures forall other :: other in projects && other != id ==> r[other] == projects[other]
  {
    if id in projects then projects[id := FailProject(projects[id], why)] else projects
  }

  /** `aborted` marks a run cut short by an out-of-bounds index in the story reply. */
  datatype ProjectRun = ProjectRun(trace: seq<ProjectStatus>, project: Project, aborted: bool)

  function ProjectDir(storage: string, id: string): string {
    storage + "/projects/" + id + "/"
  }

  /** compositeVideo with the project's recorded effects; the ending and music passes decide their outcomes from them. */
  function RunComposite(p: Project, story: Story, fx: ProjectEffects): (r: Result<Composite.Composed, Composite.CompositeError>) {
    var trims := seq(|story.chapters|, k requires 0 <= k < |story.chapters| => fx.trim(k));
    var pass1 := Composite.Pass1Effects(trims, fx.concatListOk, fx.concatOk, fx.audioListOk, fx.mergeOk, fx.muxOk);
    var ending := Composite.AddEnding(fx.endingProbeOk, fx.endingCopyOk, fx.cardOk, fx.endingConcatOk, fx.silentConcatOk);
    var music := Composite.MusicPass(fx.musicCopied, fx.musicProbed, fx.musicGenerated, fx.mixOk, fx.musicOnlyOk);
    var effects := Composite.Effects(pass1, fx.regeneratedReply, ending, fx.subtitlesOk, music);
    Composite.CompositeVideo(story, p.videos, p.endingImage, p.ownerMessage, p.relationship, effects)
  }

  /** The story with the narration loop's results attached to its chapters. */
  function Narrated(p: Project, story: Story, fx: ProjectEffects): Story {
    story.(chapters := WithNarration(story.chapters, fx.storage, p.id, fx.tts))
  }

  /** The video stage: narrate the chapters, then composite; a composite error fails the project. */
  function VideoStage(p: Project, story: Story, fx: ProjectEffects): (r: ProjectRun)
    ensures r.trace == [Analyzing, GeneratingStory, GeneratingVideo, r.project.status] && !r.aborted
    ensures r.project.status == ProjectCompleted || r.project.status == ProjectFailed
    ensures r.project.id == p.id && r.project.videos == p.videos && r.project.story.Some?
    ensures r.project.status == ProjectFailed ==> r.project.failure.Some? && r.project.failure.value.CompositeFailed?
    ensures r.project.status == ProjectCompleted ==> r.project.finalVideo == ProjectDir(fx.storage, p.id) + Composite.FinalFile
    ensures r.project.(status := p.status, story := p.story, finalVideo := p.finalVideo, failure := p.failure) == p
    ensures r.project.status == ProjectCompleted ==> r.project.failure == p.failure
    ensures r.project.status == ProjectFailed ==> r.project.finalVideo == p.finalVideo
    ensures var narrated := Narrated(p, story, fx);
      var c := RunComposite(p, narrated, fx);
      && (r.project.status == ProjectFailed <==> c.Failure?)
      && (c.Failure? ==> r.project.failure == Some(CompositeFailed(c.error)) && r.project.story == Some(narrated))
      && (c.Success? ==> r.project.story == Some(c.value.story))
  {
    var narrated := Narrated(p, story, fx);
    var p3 := p.(status := GeneratingVideo, story := Some(narrated));
    match RunComposite(p, narrated, fx)
    case Failure(e) =>
      ProjectRun([Analyzing, GeneratingStory, GeneratingVideo, ProjectFailed], FailProject(p3, CompositeFailed(e)), false)
    case Success(c) =>
      var p4 := p3.(status := ProjectCompleted, story := Some(c.story),
                    finalVideo := ProjectDir(fx.storage, p.id) + c.finalVideo);
      ProjectRun([Analyzing, GeneratingStory, GeneratingVideo, ProjectCompleted], p4, false)
  }

  /** Every video's analysis failed. */
  predicate NoVideoSucceeded(p: Project, fx: ProjectEffects) {
    forall k :: 0 <= k < |p.videos| ==> !VideoSucceeded(fx, k)
  }

  /** The runs that got past analysis: aborted in the story stage, failed there, or through the video stage. */
  predicate AfterStory(r: ProjectRun, storage: string) {
    || (r.trace == [Analyzing, GeneratingStory] && r.aborted && r.project.status == GeneratingStory)
    || (r.trace == [Analyzing, GeneratingStory, ProjectFailed] && !r.aborted && r.project.status == ProjectFailed
        && r.project.failure.Some? && r.project.failure.value.StoryFailed?)
    || (r.trace == [Analyzing, GeneratingStory, GeneratingVideo, ProjectFailed] && !r.aborted
        && r.project.status == ProjectFailed && r.project.failure.Some? && r.project.failure.value.CompositeFailed?)
    || (r.trace == [Analyzing, GeneratingStory, GeneratingVideo, ProjectCompleted] && !r.aborted
        && r.project.status == ProjectCompleted && r.project.story.Some?
        && r.project.finalVideo == ProjectDir(storage, r.project.id) + Composite.FinalFile)
  }

  /**
   * The story stage: an out-of-bounds index aborts the run while the status
   * still says generating_story; any other story error fails the project.
   */
  function StoryStage(p: Project, fx: ProjectEffects): (r: ProjectRun)
    ensures r.project.id == p.id && r.project.videos == p.videos
    ensures AfterStory(r, fx.storage)
    ensures r.project.(status := p.status, story := p.story, finalVideo := p.finalVideo, failure := p.failure) == p
    ensures r.project.status == ProjectCompleted ==> r.project.failure == p.failure
    ensures r.aborted ==> r.project == p.(status := GeneratingStory)
    ensures r.project.status == ProjectFailed && r.project.failure.Some? && r.project.failure.value.StoryFailed? ==>
      r.project == FailProject(p.(status := GeneratingStory), r.project.failure.value)
    ensures var g := StoryGen.GenerateStory(p.videos, p.relationship, p.ownerMessage, fx.storyReply, fx.parseStory, fx.dogReply);
      && (r.aborted <==> g == Failure(StoryGen.IndexPanic))
      && (g.Failure? && g.error != StoryGen.IndexPanic ==>
            r.project.status == ProjectFailed && r.project.failure == Some(StoryFailed(g.error)))
      && (g.Success? ==> r == VideoStage(p.(status := GeneratingStory), g.value, fx))
  {
    var p2 := p.(status := GeneratingStory);
    match StoryGen.GenerateStory(p.videos, p.relationship, p.ownerMessage, fx.storyReply, fx.parseStory, fx.dogReply)
    case Failure(e) =>
      if e.IndexPanic? then ProjectRun([Analyzing, GeneratingStory], p2, true)
      else ProjectRun([Analyzing, GeneratingStory, ProjectFailed], FailProject(p2, StoryFailed(e)), false)
    case Success(story) => VideoStage(p2, story, fx)
  }

  /**
   * processProject: analyse every video (a failure skips that video), fail
   * when none succeeded, generate the story, narrate each chapter (a failure
   * leaves it silent), then composite.
   */
  function ProcessProject(p: Project, fx: ProjectEffects): (r: ProjectRun)
    ensures r.project.id == p.id && r.project.videos == AnalyzeAll(p.videos, fx)
    ensures r.project.(status := p.status, videos := p.videos, story := p.story, finalVideo := p.finalVideo,
                       failure := p.failure) == p
    ensures r.project.status == ProjectCompleted ==> r.project.failure == p.failure
    ensures NoVideoSucceeded(p, fx) ==>
      r.project == FailProject(p.(status := Analyzing, videos := AnalyzeAll(p.videos, fx)), AllVideosFailed)
    ensures NoVideoSucceeded(p, fx) ==>
      r.trace == [Analyzing, ProjectFailed] && !r.aborted
      && r.project.status == ProjectFailed && r.project.failure == Some(AllVideosFailed)
    ensures !NoVideoSucceeded(p, fx) ==> AfterStory(r, fx.storage)
    ensures !NoVideoSucceeded(p, fx) ==> r == StoryStage(p.(status := Analyzing, videos := AnalyzeAll(p.videos, fx)), fx)
    ensures !NoVideoSucceeded(p, fx) && !StoryGen.HasAnyHighlight(AnalyzeAll(p.videos, fx)) ==>
      r.project.status == ProjectFailed && r.project.failure == Some(StoryFailed(StoryGen.NoHighlights))
  {
    var videos := AnalyzeAll(p.videos, fx);
    var p1 := p.(status := Analyzing, videos := videos);
    if NoVideoSucceeded(p, fx) then
      ProjectRun([Analyzing, ProjectFailed], FailProject(p1, AllVideosFailed), false)
    else
      StoryStage(p1, fx)
  }

  /**
   * Every run follows the status machine, ends in the status the project
   * is left in, and stops short of a final status only when aborted; the
   * project fails during analysis exactly when no video could be analysed.
   */
  lemma ProjectRunFollowsStatusMachine(p: Project, fx: ProjectEffects)
    ensures var r := ProcessProject(p, fx);
      && ProjectTrace(r.trace) && r.trace[|r.trace| - 1] == r.project.status
      && (r.aborted <==> r.project.status == GeneratingStory)
      && (!r.aborted ==> r.project.status == ProjectCompleted || r.project.status == ProjectFailed)
      && (r.trace == [Analyzing, ProjectFailed] <==> NoVideoSucceeded(p, fx))
  {
    var r := ProcessProject(p, fx);
    if !NoVideoSucceeded(p, fx) {
      assert AfterStory(r, fx.storage);
    }
  }

  /**
   * A failed run fails at exactly one stage, and the stage tells why:
   * analysis when no video succeeded, story generation for a story error,
   * video generation for a composite error.
   */
  lemma ProjectFailureStage(p: Project, fx: ProjectEffects)
    requires ProcessProject(p, fx).project.status == ProjectFailed
    ensures var r := ProcessProject(p, fx);
      && r.project.failure.Some?
      && (r.project.failure.value == AllVideosFailed <==> |r.trace| == 2)
      && (r.project.failure.value.StoryFailed? <==> |r.trace| == 3)
      && (r.project.failure.value.CompositeFailed? <==> |r.trace| == 4)
  {
  }
}
