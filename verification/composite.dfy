/**
 * Assembling the final video of a project in four passes: narrated clips
 * (fatal on failure), the ending card, burned-in subtitles and background
 * music (each of the last three keeps the previous pass's video when it
 * fails), followed by the removal of intermediate files.
 *
 * Every ffmpeg, ffprobe, cp and file-system call is an outcome parameter.
 * A video file is represented by what it contains, and the working
 * directory by a map from file names to contents.
 */
module Composite {
  import opened Wrappers
  import opened Types
  import opened TextOps
  import opened Replies
  import opened StoryGen
  import opened Timing

  // ---------------------------------------------------------------------
  // Pass 1: narrated clips
  // ---------------------------------------------------------------------

  /** The path of the first video with this id, or "" when there is none. */
  function VideoPathFor(videos: seq<VideoInfo>, id: string): (p: string)
    ensures p != "" ==> exists k :: 0 <= k < |videos| && videos[k].id == id && videos[k].path == p
    ensures (forall k :: 0 <= k < |videos| ==> videos[k].id != id) ==> p == ""
    ensures forall k :: 0 <= k < |videos| && videos[k].id == id && (forall j :: 0 <= j < k ==> videos[j].id != id) ==>
      p == videos[k].path
  {
    if |videos| == 0 then ""
    else if videos[0].id == id then videos[0].path
    else
      var p := VideoPathFor(videos[1..], id);
      assert forall k :: 1 <= k < |videos| ==> videos[k] == videos[1..][k - 1];
      p
  }

  /** A chapter becomes a clip when its video is known (with a path) and trimming it succeeded. */
  predicate Clipped(videos: seq<VideoInfo>, c: Chapter, trimmed: bool) {
    VideoPathFor(videos, c.videoId) != "" && trimmed
  }

  /**
   * The positions k in [i, n) with keep(k), in increasing order: the order in
   * which a loop over the positions appends the ones it keeps.
   */
  function Select(n: nat, keep: nat -> bool, i: nat): (ks: seq<nat>)
    requires i <= n
    ensures |ks| <= n - i
    ensures forall j :: 0 <= j < |ks| ==> i <= ks[j] < n && keep(ks[j])
    ensures forall j, j' :: 0 <= j < j' < |ks| ==> ks[j] < ks[j']
    ensures forall k :: i <= k < n && keep(k) ==> k in ks
    decreases n - i
  {
    if i == n then []
    else
      var rest := Select(n, keep, i + 1);
      if keep(i) then [i] + rest else rest
  }

  /** The positions of the chapters that become clips, in story order. */
  function ClippedPositions(chapters: seq<Chapter>, videos: seq<VideoInfo>, trims: seq<bool>): (ks: seq<nat>)
    requires |trims| == |chapters|
    ensures forall j :: 0 <= j < |ks| ==> ks[j] < |chapters| && Clipped(videos, chapters[ks[j]], trims[ks[j]])
    ensures forall j, j' :: 0 <= j < j' < |ks| ==> ks[j] < ks[j']
    ensures forall k :: 0 <= k < |chapters| && Clipped(videos, chapters[k], trims[k]) ==> k in ks
  {
    Select(|chapters|, k => 0 <= k < |chapters| && k < |trims| && Clipped(videos, chapters[k], trims[k]), 0)
  }

  /**
   * The chapters that became clips, in story order: entry j is the chapter
   * at the j-th clipped position; `trims[k]` is whether chapter k's trim
   * succeeded.
   */
  function ClippedChapters(chapters: seq<Chapter>, videos: seq<VideoInfo>, trims: seq<bool>): (r: seq<Chapter>)
    requires |trims| == |chapters|
    ensures |r| <= |chapters|
    ensures (forall k :: 0 <= k < |chapters| ==> !Clipped(videos, chapters[k], trims[k])) <==> r == []
    ensures var ks := ClippedPositions(chapters, videos, trims);
      |r| == |ks| && forall j :: 0 <= j < |r| ==> r[j] == chapters[ks[j]]
  {
    var ks := ClippedPositions(chapters, videos, trims);
    assert |ks| > 0 ==> Clipped(videos, chapters[ks[0]], trims[ks[0]]);
    seq(|ks|, j requires 0 <= j < |ks| => chapters[ks[j]])
  }

  /** Every clip comes from a chapter whose video is known and whose trim succeeded. */
  lemma ClippedSound(chapters: seq<Chapter>, videos: seq<VideoInfo>, trims: seq<bool>)
    requires |trims| == |chapters|
    ensures forall c :: c in ClippedChapters(chapters, videos, trims) ==>
      exists k :: 0 <= k < |chapters| && chapters[k] == c && Clipped(videos, c, trims[k])
  {
    var r := ClippedChapters(chapters, videos, trims);
    var ks := ClippedPositions(chapters, videos, trims);
    forall c | c in r
      ensures exists k :: 0 <= k < |chapters| && chapters[k] == c && Clipped(videos, c, trims[k])
    {
      var j :| 0 <= j < |r| && r[j] == c;
      assert chapters[ks[j]] == c;
    }
  }

  /** No chapter whose video is known and whose trim succeeded is dropped. */
  lemma ClippedComplete(chapters: seq<Chapter>, videos: seq<VideoInfo>, trims: seq<bool>)
    requires |trims| == |chapters|
    ensures forall k :: 0 <= k < |chapters| && Clipped(videos, chapters[k], trims[k]) ==>
      chapters[k] in ClippedChapters(chapters, videos, trims)
  {
    var r := ClippedChapters(chapters, videos, trims);
    var ks := ClippedPositions(chapters, videos, trims);
    forall k | 0 <= k < |chapters| && Clipped(videos, chapters[k], trims[k])
      ensures chapters[k] in r
    {
      var j :| 0 <= j < |ks| && ks[j] == k;
      assert r[j] == chapters[k];
    }
  }

  /** The positions of the clips that carry narration, in order. */
  function AudioPositions(clipped: seq<Chapter>): (ks: seq<nat>)
    ensures forall j :: 0 <= j < |ks| ==> ks[j] < |clipped| && clipped[ks[j]].audioPath != ""
    ensures forall j, j' :: 0 <= j < j' < |ks| ==> ks[j] < ks[j']
    ensures forall k :: 0 <= k < |clipped| && clipped[k].audioPath != "" ==> k in ks
  {
    Select(|clipped|, k => 0 <= k < |clipped| && clipped[k].audioPath != "", 0)
  }

  /**
   * The narration files of the clipped chapters, in clip order: entry j is
   * the audio of the j-th clip that has audio; clips without audio
   * contribute nothing.
   */
  function AudioOf(clipped: seq<Chapter>): (r: seq<string>)
    ensures |r| <= |clipped|
    ensures forall p :: p in r ==> p != "" && exists c :: c in clipped && c.audioPath == p
    ensures forall c :: c in clipped && c.audioPath != "" ==> c.audioPath in r
    ensures var ks := AudioPositions(clipped);
      |r| == |ks| && forall j :: 0 <= j < |r| ==> r[j] == clipped[ks[j]].audioPath
  {
    var ks := AudioPositions(clipped);
    var r := seq(|ks|, j requires 0 <= j < |ks| => clipped[ks[j]].audioPath);
    AudioMembers(clipped, ks, r);
    r
  }

  lemma AudioMembers(clipped: seq<Chapter>, ks: seq<nat>, r: seq<string>)
    requires ks == AudioPositions(clipped)
    requires |r| == |ks| && forall j :: 0 <= j < |r| ==> r[j] == clipped[ks[j]].audioPath
    ensures forall p :: p in r ==> p != "" && exists c :: c in clipped && c.audioPath == p
    ensures forall c :: c in clipped && c.audioPath != "" ==> c.audioPath in r
  {
    forall p | p in r
      ensures p != "" && exists c :: c in clipped && c.audioPath == p
    {
      var j :| 0 <= j < |r| && r[j] == p;
      assert clipped[ks[j]] in clipped;
    }
    forall c | c in clipped && c.audioPath != ""
      ensures c.audioPath in r
    {
      var k :| 0 <= k < |clipped| && clipped[k] == c;
      var j :| 0 <= j < |ks| && ks[j] == k;
      assert r[j] == c.audioPath;
    }
  }

  datatype Pass1Error = NoSegmentsCreated | ConcatListFailed | ConcatFailed | AudioListFailed | MuxFailed

  /**
   * The outcomes of pass 1's external steps: the trim of each chapter,
   * creating the clip list, concatenating the clips, creating the audio
   * list, merging the narration files, and muxing them into the video.
   */
  datatype Pass1Effects = Pass1Effects(
    trims: seq<bool>, concatListOk: bool, concatOk: bool, audioListOk: bool, mergeOk: bool, muxOk: bool)

  /** What pass 1 produced: the clipped chapters, the narration merged, and whether the video carries it. */
  datatype Pass1Output = Pass1Output(clipped: seq<Chapter>, audio: seq<string>, narrated: bool)

  /**
   * Pass 1: no clip at all, a clip list that cannot be created and a failed
   * concatenation are errors; narration is merged only when some clipped
   * chapter has audio, and then an audio list that cannot be created is an
   * error, a failed audio merge falls back to the silent video, and a
   * failed mux is an error.
   */
  function NarratedClips(chapters: seq<Chapter>, videos: seq<VideoInfo>, fx: Pass1Effects)
    : (r: Result<Pass1Output, Pass1Error>)
    requires |fx.trims| == |chapters|
    ensures (forall k :: 0 <= k < |chapters| ==> !Clipped(videos, chapters[k], fx.trims[k])) <==>
      r == Failure(NoSegmentsCreated)
    ensures |ClippedChapters(chapters, videos, fx.trims)| > 0 && !fx.concatListOk ==> r == Failure(ConcatListFailed)
    ensures |ClippedChapters(chapters, videos, fx.trims)| > 0 && fx.concatListOk && !fx.concatOk ==>
      r == Failure(ConcatFailed)
    ensures r.Success? ==> fx.concatListOk && fx.concatOk && |r.value.clipped| > 0
    ensures r.Success? ==>
      (r.value.clipped == ClippedChapters(chapters, videos, fx.trims) && r.value.audio == AudioOf(r.value.clipped))
    ensures r.Success? ==> (r.value.narrated <==> |r.value.audio| > 0 && fx.mergeOk)
    ensures |ClippedChapters(chapters, videos, fx.trims)| > 0 && fx.concatListOk && fx.concatOk ==>
      var audio := AudioOf(ClippedChapters(chapters, videos, fx.trims));
      && (r.Failure? <==> |audio| > 0 && (!fx.audioListOk || (fx.mergeOk && !fx.muxOk)))
      && (|audio| > 0 && !fx.audioListOk ==> r == Failure(AudioListFailed))
      && (|audio| > 0 && fx.audioListOk && fx.mergeOk && !fx.muxOk ==> r == Failure(MuxFailed))
  {
    var clipped := ClippedChapters(chapters, videos, fx.trims);
    if |clipped| == 0 then Failure(NoSegmentsCreated)
    else if !fx.concatListOk then Failure(ConcatListFailed)
    else if !fx.concatOk then Failure(ConcatFailed)
    else
      var audio := AudioOf(clipped);
      if |audio| > 0 && !fx.audioListOk then Failure(AudioListFailed)
      else if |audio| > 0 && fx.mergeOk && !fx.muxOk then Failure(MuxFailed)
      else Success(Pass1Output(clipped, audio, |audio| > 0 && fx.mergeOk))
  }

  // ---------------------------------------------------------------------
  // Pass 2: the ending card
  // ---------------------------------------------------------------------

  /** The short reply story generation falls back to for the default owner title. */
  const DefaultShortReply: string := "主人，我愛你！"

  function RegeneratedFallback(relationship: string): string {
    OwnerTitle(relationship) + "，我也永遠愛你！每天和你在一起，是我最幸福的時光。"
  }

  function EndingFallback(relationship: string): string {
    OwnerTitle(relationship) + "，我愛你！每天和你在一起，是我最幸福的時光～"
  }

  /** Whether the ending pass asks the service for a new dog reply. */
  predicate Regenerates(story: Story, ownerMessage: string) {
    ownerMessage != "" && (story.dogResponse == "" || story.dogResponse == DefaultShortReply)
  }

  /**
   * The story as the ending pass leaves it: with an owner message and an
   * empty or default short reply, the reply is regenerated (with its own
   * fallback) and the owner message recorded; otherwise an empty reply gets
   * the ending's fallback; a reply that is already set is kept.
   */
  function EndingStory(story: Story, ownerMessage: string, relationship: string, dogReply: Reply): (s: Story)
    ensures s.title == story.title && s.chapters == story.chapters
    ensures !Regenerates(story, ownerMessage) ==> s.ownerMessage == story.ownerMessage
    ensures Regenerates(story, ownerMessage) ==> s.ownerMessage == ownerMessage
    ensures Regenerates(story, ownerMessage) && DogReply(dogReply).Success? ==>
      s.dogResponse == DogReply(dogReply).value
    ensures Regenerates(story, ownerMessage) && DogReply(dogReply).Failure? ==>
      s.dogResponse == RegeneratedFallback(relationship)
    ensures !Regenerates(story, ownerMessage) && story.dogResponse == "" ==>
      s.dogResponse == EndingFallback(relationship)
    ensures story.dogResponse != "" && story.dogResponse != DefaultShortReply ==> s == story
  {
    if Regenerates(story, ownerMessage) then
      var reply := match DogReply(dogReply)
        case Success(t) => t
        case Failure(_) => RegeneratedFallback(relationship);
      story.(dogResponse := reply, ownerMessage := ownerMessage)
    else if story.dogResponse == "" then
      story.(dogResponse := EndingFallback(relationship))
    else story
  }

  /**
   * After the ending pass's defaulting the card's reply is non-empty unless
   * a regenerated reply itself came back empty.
   */
  lemma EndingReplyPresent(story: Story, ownerMessage: string, relationship: string, dogReply: Reply)
    ensures var s := EndingStory(story, ownerMessage, relationship, dogReply);
      s.dogResponse == "" ==> Regenerates(story, ownerMessage) && DogReply(dogReply) == Success("")
  {
  }

  /**
   * The story-generation fallback for a custom owner title is not the
   * default short reply, so the ending pass keeps it instead of regenerating.
   */
  lemma CustomTitleFallbackKept(story: Story, ownerMessage: string, relationship: string, dogReply: Reply)
    requires relationship != "" && relationship != "主人"
    requires story.dogResponse == FallbackDogReply(relationship)
    ensures EndingStory(story, ownerMessage, relationship, dogReply) == story
  {
  }

  /**
   * Story generation's fallback for the default owner title is exactly the
   * short reply the ending pass replaces, so with an owner message that
   * fallback is always regenerated.
   */
  lemma DefaultFallbackRegenerates(story: Story, ownerMessage: string, relationship: string)
    requires relationship == "" || relationship == "主人"
    requires ownerMessage != "" && story.dogResponse == FallbackDogReply(relationship)
    ensures FallbackDogReply(relationship) == DefaultShortReply
    ensures Regenerates(story, ownerMessage)
  {
  }

  /** The text burned into the ending card, escaped for drawtext. */
  function EndingCaption(dogName: string, dogResponse: string): (r: string)
    ensures Unescape(r) == "🐾 " + dogName + "：" + dogResponse
  {
    EscapeRoundTrip("🐾 " + dogName + "：" + dogResponse);
    EscapeFFmpegText("🐾 " + dogName + "：" + dogResponse)
  }

  /**
   * What the ending step yields: nothing, a plain copy of its input, the
   * input with the card appended, or the card appended by the video-only
   * join, whose output has no audio track.
   */
  datatype EndingOutcome = EndingFailed | EndingCopied | EndingAdded | EndingAddedSilent

  /**
   * addEndingImage: when the input cannot be probed the input is copied
   * unchanged (and the copy's success is the step's success); otherwise the
   * card must be rendered and then joined, with audio or, failing that,
   * video only.
   */
  function AddEnding(probeOk: bool, copyOk: bool, cardOk: bool, concatOk: bool, silentConcatOk: bool): (o: EndingOutcome)
    ensures o == EndingAdded <==> probeOk && cardOk && concatOk
    ensures o == EndingAddedSilent <==> probeOk && cardOk && !concatOk && silentConcatOk
    ensures o == EndingCopied <==> !probeOk && copyOk
  {
    if !probeOk then (if copyOk then EndingCopied else EndingFailed)
    else if !cardOk then EndingFailed
    else if concatOk then EndingAdded
    else if silentConcatOk then EndingAddedSilent
    else EndingFailed
  }

  // ---------------------------------------------------------------------
  // Pass 4: background music
  // ---------------------------------------------------------------------

  datatype MusicMix = Mixed(fadeStart: real) | MusicOnly(fadeStart: real)
  datatype MusicError = NoDuration | GenerateFailed | AddFailed

  /**
   * addBackgroundMusic: without the bundled track the music is synthesised,
   * which needs a probed duration (0 means the probe failed); the music is
   * mixed with the narration, or failing that replaces it; the fade starts
   * three seconds before the end, never before 0.
   */
  function MusicPass(copied: bool, probed: real, generated: bool, mixOk: bool, musicOnlyOk: bool)
    : (r: Result<MusicMix, MusicError>)
    ensures !copied && probed == 0.0 ==> r == Failure(NoDuration)
    ensures r.Success? ==> r.value.fadeStart == FadeStart(probed)
    ensures r.Success? <==> (copied || (probed != 0.0 && generated)) && (mixOk || musicOnlyOk)
    ensures r.Success? ==> (r.value.Mixed? <==> mixOk)
  {
    if !copied && probed == 0.0 then Failure(NoDuration)
    else if !copied && !generated then Failure(GenerateFailed)
    else if mixOk then Success(Mixed(FadeStart(probed)))
    else if musicOnlyOk then Success(MusicOnly(FadeStart(probed)))
    else Failure(AddFailed)
  }

  // ---------------------------------------------------------------------
  // The four passes
  // ---------------------------------------------------------------------

  /** What a produced video contains. */
  datatype Content = Content(narrated: bool, ending: bool, subtitled: bool, music: bool)

  const TtsFile: string := "video_with_tts.mp4"
  const EndingFile: string := "video_with_ending.mp4"
  const SubtitledFile: string := "subtitled_video.mp4"
  const FinalFile: string := "final.mp4"

  /** os.Rename: the content moves to the new name (a missing source changes nothing). */
  function Rename(files: map<string, Content>, from: string, to: string): (r: map<string, Content>)
    ensures from !in files ==> r == files
    ensures from in files ==> to in r && r[to] == files[from]
    ensures from in files && from != to ==> from !in r
    ensures r.Keys <= files.Keys + {to}
    ensures forall f :: f in files && f != from && f != to ==> f in r && r[f] == files[f]
  {
    if from in files then (files - {from})[to := files[from]] else files
  }

  /** os.Remove: a missing file is ignored. */
  function Remove(files: map<string, Content>, name: string): (r: map<string, Content>)
    ensures r.Keys == files.Keys - {name}
    ensures forall f :: f in r ==> r[f] == files[f]
  {
    files - {name}
  }

  datatype CompositeError = NoChapters | NarrationFailed(cause: Pass1Error)

  /** The finished composite: the story as the ending pass left it and the working directory afterwards. */
  datatype Composed = Composed(story: Story, files: map<string, Content>, finalVideo: string)

  /** The outcomes of the external steps of one composite run. */
  datatype Effects = Effects(
    pass1: Pass1Effects,
    dogReply: Reply, ending: EndingOutcome, subtitlesOk: bool,
    music: Result<MusicMix, MusicError>)

  /** The ending pass appended the card (with or without the audio track). */
  predicate CardAppended(endingImage: string, ending: EndingOutcome) {
    endingImage != "" && (ending == EndingAdded || ending == EndingAddedSilent)
  }

  /** The video after pass 2: the card is attempted only when the project has an ending image. */
  function AfterEnding(files: map<string, Content>, endingImage: string, ending: EndingOutcome): (string, map<string, Content>)
    requires TtsFile in files
  {
    if endingImage == "" || ending == EndingFailed then (TtsFile, files)
    else
      var c := files[TtsFile];
      var joined := match ending
        case EndingCopied => c
        case EndingAdded => c.(ending := true)
        case EndingAddedSilent => c.(ending := true, narrated := false)
        case EndingFailed => c;
      (EndingFile, files[EndingFile := joined])
  }

  /**
   * Passes 2 to 4 and the clean-up, starting from pass 1's video: each pass
   * reads the previous pass's video and, when it fails, leaves that video as
   * its own result; of the pass videos only final.mp4 remains. The
   * narration survives unless the card was joined without audio or the
   * music replaced the audio track instead of being mixed into it.
   */
  function LaterPasses(narrated: bool, endingImage: string, ending: EndingOutcome, subtitlesOk: bool,
                       music: Result<MusicMix, MusicError>): (r: map<string, Content>)
    ensures r.Keys == {FinalFile}
    ensures r[FinalFile].narrated <==>
      narrated && !(endingImage != "" && ending == EndingAddedSilent) && !(music.Success? && music.value.MusicOnly?)
    ensures r[FinalFile].ending <==> CardAppended(endingImage, ending)
    ensures r[FinalFile].subtitled == subtitlesOk && r[FinalFile].music == music.Success?
  {
    var files0 := map[TtsFile := Content(narrated, false, false, false)];
    var (endingPath, files1) := AfterEnding(files0, endingImage, ending);
    var subtitledPath := if subtitlesOk then SubtitledFile else endingPath;
    var files2 := if subtitlesOk then files1[SubtitledFile := files1[endingPath].(subtitled := true)] else files1;
    var files3 :=
      if music.Success? then
        var v := files2[subtitledPath];
        Remove(files2[FinalFile := v.(music := true, narrated := v.narrated && music.value.Mixed?)], subtitledPath)
      else Rename(files2, subtitledPath, FinalFile);
    var files4 := Remove(files3, TtsFile);
    if endingPath != TtsFile then Remove(files4, endingPath) else files4
  }

  /**
   * compositeVideo: a story without chapters and a failed pass 1 are errors;
   * every later pass works on the previous pass's video and keeps it when it
   * fails; the result is always final.mp4, and the other pass videos are
   * removed.
   */
  function CompositeVideo(story: Story, videos: seq<VideoInfo>, endingImage: string, ownerMessage: string,
                          relationship: string, fx: Effects): (r: Result<Composed, CompositeError>)
    requires |fx.pass1.trims| == |story.chapters|
    ensures |story.chapters| == 0 <==> r == Failure(NoChapters)
    ensures |story.chapters| > 0 ==>
      var p := NarratedClips(story.chapters, videos, fx.pass1);
      (r.Failure? <==> p.Failure?) && (p.Failure? ==> r == Failure(NarrationFailed(p.error)))
    ensures r.Success? ==> r.value.finalVideo == FinalFile && r.value.files.Keys == {FinalFile}
    ensures r.Success? ==>
      var final := r.value.files[FinalFile];
      && (final.narrated <==>
            NarratedClips(story.chapters, videos, fx.pass1).value.narrated
            && !(endingImage != "" && fx.ending == EndingAddedSilent)
            && !(fx.music.Success? && fx.music.value.MusicOnly?))
      && (final.ending <==> CardAppended(endingImage, fx.ending))
      && final.subtitled == fx.subtitlesOk && final.music == fx.music.Success?
    ensures r.Success? && endingImage == "" ==> r.value.story == story
    ensures r.Success? && endingImage != "" ==>
      r.value.story == EndingStory(story, ownerMessage, relationship, fx.dogReply)
  {
    if |story.chapters| == 0 then Failure(NoChapters)
    else
      match NarratedClips(story.chapters, videos, fx.pass1)
      case Failure(e) => Failure(NarrationFailed(e))
      case Success(p) =>
        var story' := if endingImage != "" then EndingStory(story, ownerMessage, relationship, fx.dogReply) else story;
        var files := LaterPasses(p.narrated, endingImage, fx.ending, fx.subtitlesOk, fx.music);
        Success(Composed(story', files, FinalFile))
  }
}
