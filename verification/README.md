# Paw-Diary pipeline model

A Dafny model of the decision logic of the Paw-Diary pet-video service
(`main.go`). The service has two pipelines.

- A **job** takes one uploaded video. It extracts frames at 2 fps, cuts them
  into 3-second segments of 6 frames, classifies each segment with a
  generative-language vision service, merges runs of "interaction" segments
  into highlights and cuts a clip of the first highlight.
- A **project** takes several videos of one dog. It classifies each video
  once (frames every 2 s, segments of 3 frames), keeps at most one highlight
  of at most 15 s per video, asks the service for a story of chapters bound
  to those highlights and for the dog's reply to the owner's message,
  narrates the chapters with text-to-speech, and renders the final video in
  four passes: narrated clips, ending card, subtitles, background music.

Every external effect is an input to the model. This covers ffmpeg and
ffprobe runs, image compression, the vision and speech services, JSON
decoding of their payloads and the file system. Each appears as an outcome
flag, a `Reply` value, a parse function or a probed duration. Times are
exact `real`s. Go's truncating `int()` and `%` are written out in
`Timing.Trunc` and `Timing.GoRem`.

Modules, one file each:

| file | module | what it holds |
|---|---|---|
| wrappers.dfy | Wrappers | `Option`, `Result` |
| types.dfy | Types | analysis, segment, highlight, chapter, video and story records |
| segments.dfy | Segments | the segment builder shared by both pipelines |
| highlights.dfy | Highlights | the job highlight scan and its maximal-run reference |
| video_analysis.dfy | VideoAnalysis | per-video analysis of a project, with the 15-second highlight rule |
| replies.dfy | Replies | reading the text out of a service reply, strictly or leniently |
| text_ops.dfy | TextOps | Go trimming, code-fence stripping, dog-reply cleaning, drawtext escaping |
| vision.dfy | Vision | frame subsampling, classification, per-segment analysis and its threshold |
| story.dfy | StoryGen | chapter mapping, story and dog-reply generation |
| timing.dfy | Timing | subtitle cues, SubRip timestamps, clip cut, speed clamp, music fade |
| composite.dfy | Composite | the four render passes and the clean-up of intermediate files |
| pipeline.dfy | Pipeline | job and project status machines and the mark-failed helpers |

The model is a set of pure functions, so each operation gives the same
result for the same inputs. This includes re-running the highlight scan.

## Model

| member | source | states |
|---|---|---|
| Types.OwnerTitle | main.go:1191-1194 | the owner is addressed by the relationship when one is given, otherwise as 主人; the form of address is never empty |
| Segments.SegmentsFrom | main.go:652-666 | from frame i on, the builder makes ⌈(N−i)/size⌉ segments; they are numbered consecutively after the count so far, each holds 1..size frames, the first starts at i·Δt and the last ends at N·Δt |
| Segments.SegmentsContiguous | main.go:652-666 | each segment starts exactly where the previous one ends |
| Segments.SegmentsCoverFrames | main.go:652-666 | concatenating the segments' frames gives back the frame list from i on, with nothing lost or repeated |
| Segments.SegmentTimes | main.go:660-662 | segment j spans frames i+j·size to min(i+(j+1)·size, N), timed at Δt per frame |
| Segments.BuildSegments | main.go:636-673 | no frames gives the "no frames extracted" error and any frames give a segmentation: count ⌈N/size⌉, 1-based indices, start k·size·Δt, contiguous, first start 0, last end N·Δt, every frame exactly once, and the same analysis on every segment (as in main.go:1118-1136) |
| Segments.BuiltSegmentsOrdered | main.go:652-666 | with a positive frame step, built segments have positive length and do not overlap |
| Highlights.Analyzed | main.go:914-917 | the segments the scan looks at all carry an analysis and are drawn from the job's segments |
| Highlights.QualEnd | main.go:920-921 | a run of qualifying segments (dog, human and an interaction other than "none") extends to the first non-qualifying segment |
| Highlights.RunsFromAreMaximal | main.go:909-951 | the reference runs qualify, cannot be extended at either end, are separated by a non-qualifying segment and cover every qualifying segment |
| Highlights.JoinCaptionsStartsWithSeed | main.go:935-937 | the merged caption starts with the seed segment's caption |
| Highlights.RunHighlights | main.go:922-950 | one highlight per run, in run order |
| Highlights.ScanSkipsUnanalyzed | main.go:914-917 | a segment without analysis neither opens nor closes a highlight: scanning all segments equals scanning only the analysed ones |
| Highlights.ScanMatchesRuns | main.go:909-951 | the stateful scan (open, extend, flush on a non-qualifying segment, flush at the end) equals the run-based reference from any point with any open highlight |
| Highlights.FindHighlightsByRuns | main.go:909-951 | findHighlights emits exactly one highlight per maximal qualifying run among analysed segments. Each spans the run's first start to last end, has the seed's interaction and emotion, and has the joined caption only when the seed caption is non-empty |
| Highlights.HighlightsDisjointAndOrdered | main.go:909-951 | over ordered segments with positive spans, highlights have positive length and each ends strictly before the next starts |
| VideoAnalysis.ProjectAnalysisOf | main.go:1105-1116 | a failed classification becomes the default analysis with dog and human present and interaction "none", so it never qualifies |
| VideoAnalysis.CapScan | main.go:1142-1160 | the 15-second rule keeps at most one highlight; it exists only if a segment ends by 15 s, starts at the first segment's start and ends at the largest segment end not beyond 15 s |
| VideoAnalysis.AnalyzeVideo | main.go:1079-1170 | ffmpeg failure and zero frames are errors; otherwise the video keeps id, path and duration, is marked analysed, gets a valid 3-frame/2-second segmentation with the shared analysis, and has one highlight from 0 to the largest segment end ≤ 15 s exactly when the analysis qualifies |
| Replies.StrictText | main.go:826-881 | video analysis reads the first part of the first candidate only from a delivered, status-200, decodable reply without an error object; an undelivered reply is a request error and a non-200 status is a status error, whatever the body |
| Replies.LenientText | main.go:1259-1292 | story generation ignores status and error object and fails only on transport, decoding, no candidate or an empty candidate |
| Replies.StrictIsLenientRestricted | main.go:826-881 | the strict reading accepts exactly the lenient reading's successes with status 200 and no error object, and reads the same text |
| TextOps.Trim | main.go:1468-1469 | Go's TrimFunc: the result neither starts nor ends with a dropped character and is empty when all characters are dropped |
| TextOps.TrimSurrounded | main.go:1468-1469 | trimming removes exactly the droppable margins around a body that has none |
| TextOps.TrimPrefix | main.go:883-884 | drops the prefix once when present and leaves the text alone otherwise |
| TextOps.TrimSuffix | main.go:885 | drops the suffix once when present and leaves the text alone otherwise |
| TextOps.StripFence | main.go:883-886 | the cleaned reply has no surrounding whitespace and is no longer than the reply; StripFenceRoundTrip states what it returns |
| TextOps.StripFenceRoundTrip | main.go:1296-1299 | a JSON body comes back unchanged from a reply opened by ```json, by ``` or by nothing, closed by ``` or by nothing, with any whitespace around the body. Excluded are a bare body ending in a backtick and a body starting with json after a plain fence, which the source would strip as fences |
| TextOps.CleanDogReply | main.go:1468-1469 | the dog's reply after trimming neither starts nor ends with 「, 」 or " and is no longer than the reply; CleanDogReplyExact states what it returns |
| TextOps.CleanDogReplyExact | main.go:1468-1469 | the cleaned reply is exactly the body between the outer whitespace and runs of 「」" quotes. This covers an unquoted reply, which loses only its surrounding whitespace |
| TextOps.CleanDogReplyUnquotes | main.go:1468-1469 | a reply quoted in 「」 with whitespace outside the quotes loses both |
| TextOps.ReplaceAllAppend | main.go:2293-2297 | a one-character ReplaceAll works character by character: replacing in a concatenation is replacing in each part |
| TextOps.EscapeFFmpegTextIsEscapeEach | main.go:2291-2299 | the five sequential ReplaceAll calls equal escaping each of \ ' : [ ] once with a backslash, because the backslash is doubled first |
| TextOps.EscapeRoundTrip | main.go:2291-2299 | escaping loses nothing: unescaping gives the text back |
| Vision.SelectFrames | main.go:723-739 | at most 10 frames are sent unchanged; otherwise exactly 10 frames, frame ⌊i·n/10⌋ in slot i, always in range |
| Vision.SampleIndicesIncrease | main.go:731-738 | the first slot picks frame 0 and later slots pick strictly later frames |
| Vision.SampleGap | main.go:731-738 | consecutive slots are ⌊n/10⌋ or ⌊n/10⌋+1 frames apart |
| Vision.Compressed | main.go:743-753 | frames that fail to compress are skipped; those that compress are all kept |
| Vision.ClassifyFrames | main.go:718-898 | no frames, no compressible selected frame, a failed exchange and an unparsable payload are errors; success means the fence-stripped reply text parsed to that analysis |
| Vision.ClassifySegment | main.go:900-907 | a segment without frames is an error; otherwise it is classified from its own frames |
| Vision.SuccessCount | main.go:684-702 | the success count is 0 exactly when every classification failed and full exactly when every one succeeded |
| Vision.SuccessCountCounts | main.go:684-702 | the success count equals the number of segment positions whose classification succeeded |
| Vision.Annotated | main.go:683-702 | each segment records its own analysis, or the failure placeholder when classification failed, so every segment ends up analysed |
| Vision.AnalyzeSegments | main.go:675-716 | an unset or placeholder key is an error. Otherwise the step succeeds exactly when successes ≥ ⌊segments/2⌋, and a failure reports the exact number of successful segments (main.go:709-710), which is below that threshold |
| Vision.FailedSegmentsNeverQualify | main.go:688-696 | a segment whose classification failed records the placeholder analysis, which does not qualify, so it never starts or extends a highlight |
| Vision.ShortJobsPassThreshold | main.go:709-711 | with a configured key and at most one segment, the threshold is 0 and the step cannot fail it |
| StoryGen.WindowEnd | main.go:1330-1341 | without a usable highlight a chapter ends at the video's duration when that is in (0, 15), and at 15 otherwise |
| StoryGen.MakeChapter | main.go:1326-1351 | index = response position + 1; narration and video id are copied; the window runs from WindowStart to WindowEnd, so it is the highlight's span or starts at 0 and ends within 15 s; duration = end − start; no audio yet |
| StoryGen.MapChapters | main.go:1320-1353 | mapping aborts exactly when some kept plan has a negative video index, or a negative highlight index into a video with highlights |
| StoryGen.MapChaptersSound | main.go:1320-1353 | every chapter is the one made from the kept plan its index names |
| StoryGen.MapChaptersComplete | main.go:1321-1325 | every plan whose video index is in range yields a chapter; only out-of-range plans are dropped |
| StoryGen.MapChaptersAfter | main.go:1320-1345 | chapters made from the plans after position i carry indices above i |
| StoryGen.MapChaptersIncreasing | main.go:1320-1353 | chapters keep response order: their indices strictly increase |
| StoryGen.ChapterIndicesDistinct | main.go:1345 | no two chapters share an index |
| StoryGen.DogReply | main.go:1441-1472 | the dog's reply is the lenient reply text, space-trimmed and unquoted; it fails exactly when the lenient reading fails |
| StoryGen.FallbackDogReply | main.go:1362 | the fallback reply starts with the owner's form of address |
| StoryGen.GenerateStory | main.go:1174-1370 | no highlight anywhere is NoHighlights, a failed lenient read is that read's error, an unparsable payload is StoryUnparsable, and a panicking plan is IndexPanic. Otherwise the story succeeds, with the parsed title and the mapped chapters. The owner message and dog reply are set only when the owner left a message, with the fallback when the reply fails |
| Timing.CuesFrom | main.go:2434-2449 | one cue per chapter, numbered consecutively, each as long as its chapter, the first starting at the given time |
| Timing.Cues | main.go:2434-2449 | subtitle cues are numbered 1..K in chapter order, start at 0 and last as long as their chapter |
| Timing.CuesAbut | main.go:2436-2448 | each cue starts exactly where the previous one ended |
| Timing.CueStartIsPrefixSum | main.go:2436-2448 | cue k spans the summed durations of chapters before k to the sum including k |
| Timing.Trunc | main.go:2476-2479 | Go's int() truncates toward zero |
| Timing.GoRem | main.go:2478 | Go's % keeps the dividend's sign and agrees with the mathematical remainder for non-negative dividends |
| Timing.SrtClockMeaning | main.go:2475-2482 | for a non-negative time, hours·3600 + minutes·60 + seconds is its whole seconds, minutes and seconds are below 60, and milliseconds are the truncated thousandths |
| Timing.FormatSrtTimeRoundTrip | main.go:2475-2482 | below 100 hours the timestamp has the fixed HH:MM:SS,mmm layout and each field reads back as its clock value |
| Timing.ClipEnd | main.go:2072-2076 | the clip is cut at 15 s after its start or at its end, whichever comes first |
| Timing.ClipSpeed | main.go:2077-2091 | a speed is chosen exactly when the chapter has audio with positive length, and it lies in [0.5, 2.0] |
| Timing.ClipSpeedFitsNarration | main.go:2080-2091 | within the band the re-timed clip lasts exactly as long as the narration; outside it, the clip ends up twice as long (still shorter than the narration) or half as long (still longer) |
| Timing.FadeStart | main.go:2546-2550 | the music fade starts 3 s before the end, never before 0 |
| Composite.VideoPathFor | main.go:1692-1699 | a chapter's video is the first video with its id; a non-empty path always belongs to a video with that id, and the path is empty when no video has that id |
| Composite.Select | main.go:1688-1740 | the kept positions, in increasing order, each kept position exactly once and no other position |
| Composite.ClippedPositions | main.go:1701-1733 | the positions whose chapter has a known video with a path and a successful trim, strictly increasing, with none missing |
| Composite.ClippedChapters | main.go:1688-1740 | the clips are the chapters at the clipped positions, in story order: entry j is the chapter at the j-th such position. With no usable chapter there are no clips, and otherwise there is at least one |
| Composite.ClippedSound | main.go:1701-1731 | every clip comes from a chapter whose video is known with a path and whose trim succeeded |
| Composite.ClippedComplete | main.go:1701-1731 | no chapter with a known video and a successful trim is dropped |
| Composite.AudioPositions | main.go:1734-1737 | the positions of the clips with audio, strictly increasing, with none missing |
| Composite.AudioOf | main.go:1734-1737 | narration is collected in clip order: entry j is the audio of the j-th clip that has audio. Every clip with audio contributes its file and no other file appears |
| Composite.NarratedClips | main.go:1682-1838 | zero clips, a clip list that cannot be created and a failed concat are errors, in that order. Narration is muxed only when some clipped chapter has audio; then an audio list that cannot be created is an error, a failed audio merge falls back to the silent video, and a failed mux after a good list and merge is exactly `MuxFailed` |
| Composite.EndingStory | main.go:1611-1636 | with an owner message and an empty or default short reply, the reply is regenerated with its own fallback and the message recorded; otherwise an empty reply gets the ending fallback; a reply already set is kept |
| Composite.EndingReplyPresent | main.go:1611-1636 | the ending card's reply is empty only when a regenerated reply came back empty |
| Composite.CustomTitleFallbackKept | main.go:1362 | story generation's fallback for a custom owner title is not the default short reply, so the ending pass (main.go:1611-1636) keeps the story as it is |
| Composite.DefaultFallbackRegenerates | main.go:1362 | for the default owner title, story generation's fallback is exactly the short reply that the ending pass (main.go:1611-1613) regenerates whenever there is an owner message |
| Composite.EndingCaption | main.go:1847-1899 | the drawtext caption unescapes to 🐾 name：reply |
| Composite.AddEnding | main.go:1840-1976 | an unprobeable input is copied as-is. Otherwise the card is added with audio exactly when it renders and the audio join succeeds, and video-only exactly when that join fails and the silent join succeeds |
| Composite.MusicPass | main.go:2484-2594 | music must be synthesised when the bundled track is not copied, and that needs a non-zero probed duration. The step succeeds when the mix or the music-only fallback works; it is a mix exactly when mixing worked, and its fade starts at max(0, d−3) |
| Composite.Rename | main.go:1660-1662 | renaming moves a file's content to the new name and the old name disappears. A missing source changes nothing, no other file is touched, and no file other than the new name appears |
| Composite.Remove | main.go:1663-1671 | removing deletes only that name and ignores a missing file |
| Composite.LaterPasses | main.go:1606-1678 | each later pass reads the previous pass's video and leaves it as its output on failure. Of the pass videos only final.mp4 remains. It has the card exactly when the card was appended, subtitles and music exactly when those passes worked, and the narration unless the card was joined video-only or the music replaced the audio track |
| Composite.CompositeVideo | main.go:1590-1679 | no chapters and a pass-1 failure are the only errors. On success final.mp4 is the only pass video left, with the content LaterPasses describes. The ending pass and its reply defaulting run only with an ending image |
| Pipeline.FailJob | main.go:995-1005 | marking a job failed sets status and reason and changes nothing else |
| Pipeline.MarkJobFailed | main.go:995-1005 | an unknown job id leaves the store unchanged; otherwise only that job is marked failed |
| Pipeline.ProcessJob | main.go:569-616 | a job goes processing → completed or failed. It completes exactly when frames were extracted, classification met the half-success threshold, and the clip was cut or there was no highlight. A failed extraction, an empty frame list, a missing key and a threshold miss are each reported as such, and a clip failure only when there were highlights and the cut failed. A completed job has every segment analysed, the scanned highlights, and a highlight clip exactly when it has highlights. It keeps the job's earlier failure record, id and video path |
| Pipeline.AnalyseJob | main.go:590-609 | after segmentation the job completes exactly when classification meets the threshold and, when there are highlights, the clip is cut. A missing key or threshold miss is reported as an analysis failure with its cause. A completed job holds the classified segments, their highlights, and the clip path exactly when there are highlights |
| Pipeline.ProcessJobFailureRecords | main.go:590-609 | a failed cut leaves the job processing-then-failed with the classified segments and the highlights found. A threshold miss with a configured key leaves every segment annotated with its own reply, with the highlights and clip the job had before |
| Pipeline.CompletedJobHighlights | main.go:596-609 | a completed job's highlights are exactly one per maximal qualifying run of its segments |
| Pipeline.AnalyzeOne | main.go:1022-1029 | a video's analysis succeeds exactly when frames were extracted and there was at least one. The result is analysed with the classification of its frames, or the default analysis when that failed, as AnalyzeVideo describes |
| Pipeline.AnalyzeAll | main.go:1021-1030 | a video whose analysis failed is left as it was; the others are replaced by their analysis |
| Pipeline.WithNarration | main.go:1057-1063 | a chapter whose speech synthesis succeeded gets audio file chapter_{position+1}.mp3 and the probed length; any other chapter is unchanged |
| Pipeline.FailProject | main.go:2242-2252 | marking a project failed sets status and reason and changes nothing else |
| Pipeline.MarkProjectFailed | main.go:2242-2252 | an unknown project id leaves the store unchanged; otherwise only that project is marked failed |
| Pipeline.VideoStage | main.go:1051-1076 | the video stage fails exactly when compositing the narrated story fails, recording that composite error and the narrated story. Otherwise it completes with the story as the ending pass left it, final.mp4 in the project directory, and the earlier failure record kept. Apart from status, story, final video and failure, the project is unchanged |
| Pipeline.StoryStage | main.go:1039-1076 | the run aborts exactly when story generation hits an out-of-bounds index. Any other story error fails the project with that error, and a generated story goes on to the video stage. Each ending has its own trace and reason. An aborted run is the input project with status generating_story and nothing else changed, and a story failure changes only status and failure. Apart from status, story, final video and failure, the project is unchanged |
| Pipeline.ProcessProject | main.go:1011-1077 | the project fails at analysis exactly when no video succeeded. Otherwise it continues as the story stage describes on the analysed videos, and fails with NoHighlights when none of them has a highlight. When no video succeeded, the project holds the analysed videos and the AllVideosFailed reason. Apart from status, videos, story, final video and failure, the project is unchanged, and a completed project keeps its earlier failure record |
| Pipeline.ProjectRunFollowsStatusMachine | main.go:1011-1077 | every run follows analyzing → generating_story → generating_video → completed, with failed reachable from each working stage. Only an aborted run stops short of a final status |
| Pipeline.ProjectFailureStage | main.go:1032-1069 | the stage a project failed in identifies the kind of failure |

## Left out

- HTTP routing, request binding, CORS and static serving are web plumbing and are not modelled.
- The vision, story and speech services are modelled only through their replies. Prompt text, request building, base64 and JSON decoding of the payload are parameters or are left out.
- ffmpeg, ffprobe and `cp` runs are not modelled. This includes compression, trimming, concatenation, drawtext, fonts and sine-wave music. Each appears only as a success flag or a probed duration.
- Goroutines, mutexes, timestamps and the throttling sleep are left out. The model is one sequential run. Nothing stops a finished project from being processed again, and the model does not forbid it either.
- Vision.SampleIndex: computes ⌊i·n/10⌋ exactly. The source computes it in float64, and rounding of n/10 could pick the previous frame.
- Timing.FormatSrtTime: uses exact reals, so float64 rounding in the millisecond field is not modelled. The `%.2f` and `%.1f` formatting of times in ffmpeg arguments is left out too.
- Composite.EndingCaption: the font choice, font size and card geometry are left out.
- Request-building errors are not modelled separately. The vision request's marshal and request-creation failures cannot occur with fixed inputs. They appear only as a failed delivery (`NotDelivered`).
- Composite.NarratedClips: the `os.Rename` and `os.Remove` errors, which the source ignores, are not modelled. Neither are unchecked list writes or the removal of per-chapter clips and list files inside pass 1.
- Composite.LaterPasses: the directory map holds only the four pass videos. The source never removes `video_only.mp4` (main.go:1760), which stays behind whenever narration was muxed in. It also never removes `subtitles.srt` (main.go:2425) or `background_music.mp3` (main.go:2489). Those files, and the clip and list files that pass 1 leaves when it returns an error, are not in the model.
- Composite.CompositeVideo: besides final.mp4, the files named under LaterPasses stay behind in the source and are not modelled.
- Composite.LaterPasses: the model assumes a failed pass leaves no file behind, and that every rename and removal succeeds.
- Composite.CompositeVideo: the subtitle pass always renders cues for all chapters. Cue timing is modelled by `Timing.Cues`, but the SRT file text and burn-in are not.
- `compositeVideoOnly` and the media I/O of `compositeVideoWithAudio` are dead code and are not modelled. Only the clip cut and speed clamp of `compositeVideoWithAudio` are modelled, as `Timing.ClipEnd` and `Timing.ClipSpeed`.
- The owner-message and dog-reply speech helpers and the background-music generator are left out. They are foreign-service and ffmpeg calls.
- StoryGen.MapChapters: a negative video index, or a negative highlight index into a video with highlights, is an out-of-bounds slice access in Go. It panics the process. The model returns `IndexPanic`, and `Pipeline.ProcessProject` reports an aborted run whose status is still generating_story.
- Job and project error messages are modelled as reason datatypes, not as message strings.
- Pipeline.WithNarration: the audio path is built by concatenation with "/". The source uses `filepath.Join` (main.go:1551-1554), which also cleans the path, so the default root "./storage" (main.go:139) becomes "storage". The model's path equals the source's only when the storage parameter is the cleaned root; ids are UUIDs, which need no cleaning.
- Pipeline.ProcessJob: the highlight clip path (`HighlightPath`) is built by concatenation, not `filepath.Join` (main.go:966-967), with the same cleaned-root caveat as WithNarration.
- Pipeline.VideoStage: the final video path (`ProjectDir` followed by final.mp4) is built by concatenation, not `filepath.Join` (main.go:1597, 1659), with the same cleaned-root caveat as WithNarration.
- Replies.LenientText: a read error on the body is ignored in the source, and the bytes read so far are decoded. The model treats a body whose read failed as undecodable, so it does not cover a read that fails after the whole JSON document has arrived.
