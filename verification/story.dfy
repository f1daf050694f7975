/**
 * Story generation: turning the service's story reply into chapters bound
 * to video windows, and the dog's reply to the owner's message with its
 * fallback.
 */
module StoryGen {
  import opened Wrappers
  import opened Types
  import opened TextOps
  import opened Replies

  /** One chapter as the service proposes it: narration plus the video and highlight it points at. */
  datatype ChapterPlan = ChapterPlan(narration: string, videoIndex: int, highlightIndex: int)

  /** The decoded story payload. */
  datatype StoryPlan = StoryPlan(title: string, plans: seq<ChapterPlan>)

  datatype StoryError =
    | NoHighlights
    | StoryServiceFailed(cause: ReplyError)
    | StoryUnparsable
    | IndexPanic

  /** Length of the window used when a chapter cannot use a highlight. */
  const DefaultWindow: real := 15.0

  predicate HasAnyHighlight(videos: seq<VideoInfo>) {
    exists k :: 0 <= k < |videos| && |videos[k].highlights| > 0
  }

  /** A plan the mapping keeps: its video index is below the number of videos. */
  predicate Kept(videos: seq<VideoInfo>, p: ChapterPlan) {
    p.videoIndex < |videos|
  }

  /**
   * A kept plan that indexes out of bounds from below: a negative video
   * index, or a negative highlight index into a video that has highlights.
   * The source indexes its slices with these values and so aborts.
   */
  predicate Panics(videos: seq<VideoInfo>, p: ChapterPlan) {
    Kept(videos, p) &&
    (p.videoIndex < 0 ||
     (|videos[p.videoIndex].highlights| > 0 && p.highlightIndex < 0))
  }

  /** Whether a kept, non-panicking plan uses one of its video's highlights. */
  predicate UsesHighlight(v: VideoInfo, highlightIndex: int) {
    |v.highlights| > 0 && highlightIndex < |v.highlights|
  }

  /** The start and end of the window a chapter shows. */
  function WindowStart(v: VideoInfo, highlightIndex: int): real
    requires UsesHighlight(v, highlightIndex) ==> 0 <= highlightIndex
  {
    if UsesHighlight(v, highlightIndex) then v.highlights[highlightIndex].start else 0.0
  }

  function WindowEnd(v: VideoInfo, highlightIndex: int): (e: real)
    requires UsesHighlight(v, highlightIndex) ==> 0 <= highlightIndex
    ensures !UsesHighlight(v, highlightIndex) ==> 0.0 < e <= DefaultWindow
    ensures !UsesHighlight(v, highlightIndex) && 0.0 < v.duration < DefaultWindow ==> e == v.duration
    ensures !UsesHighlight(v, highlightIndex) && !(0.0 < v.duration < DefaultWindow) ==> e == DefaultWindow
  {
    if UsesHighlight(v, highlightIndex) then v.highlights[highlightIndex].end
    else if 0.0 < v.duration < DefaultWindow then v.duration
    else DefaultWindow
  }

  /** The chapter made from plan number `pos` (0-based); it has no audio yet. */
  function MakeChapter(videos: seq<VideoInfo>, p: ChapterPlan, pos: nat): (c: Chapter)
    requires Kept(videos, p) && !Panics(videos, p)
    ensures c.index == pos + 1 && c.narration == p.narration
    ensures c.videoId == videos[p.videoIndex].id
    ensures c.duration == c.endTime - c.startTime
    ensures c.audioPath == ""
    ensures UsesHighlight(videos[p.videoIndex], p.highlightIndex) ==>
      c.startTime == videos[p.videoIndex].highlights[p.highlightIndex].start
      && c.endTime == videos[p.videoIndex].highlights[p.highlightIndex].end
    ensures !UsesHighlight(videos[p.videoIndex], p.highlightIndex) ==>
      c.startTime == 0.0 && 0.0 < c.endTime <= DefaultWindow
    ensures c.startTime == WindowStart(videos[p.videoIndex], p.highlightIndex)
    ensures c.endTime == WindowEnd(videos[p.videoIndex], p.highlightIndex)
  {
    var v := videos[p.videoIndex];
    var s := WindowStart(v, p.highlightIndex);
    var e := WindowEnd(v, p.highlightIndex);
    Chapter(pos + 1, p.narration, v.id, s, e, "", e - s)
  }

  /**
   * The chapters made from plans[i..]: plans whose video index is too large
   * are skipped, each kept plan keeps its own position as its index, and a
   * panicking plan aborts the whole mapping.
   */
  function MapChapters(videos: seq<VideoInfo>, plans: seq<ChapterPlan>, i: nat): (r: Result<seq<Chapter>, StoryError>)
    requires i <= |plans|
    ensures r.Failure? <==> exists k :: i <= k < |plans| && Panics(videos, plans[k])
    ensures r.Failure? ==> r.error == IndexPanic
    decreases |plans| - i
  {
    if i == |plans| then Success([])
    else
      var p := plans[i];
      if Panics(videos, p) then Failure(IndexPanic)
      else
        var rest := MapChapters(videos, plans, i + 1);
        if rest.Failure? then rest
        else if !Kept(videos, p) then rest
        else Success([MakeChapter(videos, p, i)] + rest.value)
  }

  /** Chapter `c` is the chapter made from the kept, non-panicking plan its index names. */
  ghost predicate FromPlan(videos: seq<VideoInfo>, plans: seq<ChapterPlan>, c: Chapter) {
    0 < c.index <= |plans| && Kept(videos, plans[c.index - 1]) && !Panics(videos, plans[c.index - 1])
    && c == MakeChapter(videos, plans[c.index - 1], c.index - 1)
  }

  /** Every chapter is made from its plan. */
  lemma {:induction false} MapChaptersSound(videos: seq<VideoInfo>, plans: seq<ChapterPlan>, i: nat)
    requires i <= |plans| && MapChapters(videos, plans, i).Success?
    ensures forall c :: c in MapChapters(videos, plans, i).value ==> FromPlan(videos, plans, c)
    decreases |plans| - i
  {
    if i < |plans| {
      MapChaptersSound(videos, plans, i + 1);
      var r := MapChapters(videos, plans, i).value;
      var rest := MapChapters(videos, plans, i + 1).value;
      if Kept(videos, plans[i]) {
        assert r == [MakeChapter(videos, plans[i], i)] + rest;
        assert FromPlan(videos, plans, MakeChapter(videos, plans[i], i));
      } else {
        assert r == rest;
      }
    }
  }

  /** Chapters made from plans[i..] have indices above i. */
  lemma {:induction false} MapChaptersAfter(videos: seq<VideoInfo>, plans: seq<ChapterPlan>, i: nat)
    requires i <= |plans| && MapChapters(videos, plans, i).Success?
    ensures forall c :: c in MapChapters(videos, plans, i).value ==> i < c.index
    decreases |plans| - i
  {
    if i < |plans| {
      MapChaptersAfter(videos, plans, i + 1);
      var r := MapChapters(videos, plans, i).value;
      var rest := MapChapters(videos, plans, i + 1).value;
      if Kept(videos, plans[i]) {
        assert r == [MakeChapter(videos, plans[i], i)] + rest;
      } else {
        assert r == rest;
      }
    }
  }

  /** Every kept plan at or after position i yields a chapter. */
  lemma {:induction false} MapChaptersComplete(videos: seq<VideoInfo>, plans: seq<ChapterPlan>, i: nat)
    requires i <= |plans| && MapChapters(videos, plans, i).Success?
    ensures forall k :: i <= k < |plans| && Kept(videos, plans[k]) ==>
      exists c :: c in MapChapters(videos, plans, i).value && c.index == k + 1
    decreases |plans| - i
  {
    if i < |plans| {
      MapChaptersComplete(videos, plans, i + 1);
      var r := MapChapters(videos, plans, i);
      if Kept(videos, plans[i]) {
        assert r.value[0] == MakeChapter(videos, plans[i], i);
        assert r.value[0] in r.value && r.value[0].index == i + 1;
      }
    }
  }

  /** Chapters keep the order of their plans: their indices strictly increase. */
  lemma {:induction false} MapChaptersIncreasing(videos: seq<VideoInfo>, plans: seq<ChapterPlan>, i: nat)
    requires i <= |plans| && MapChapters(videos, plans, i).Success?
    ensures var cs := MapChapters(videos, plans, i).value;
      forall a, b :: 0 <= a < b < |cs| ==> cs[a].index < cs[b].index
    decreases |plans| - i
  {
    if i < |plans| && Kept(videos, plans[i]) {
      var cs := MapChapters(videos, plans, i).value;
      var rest := MapChapters(videos, plans, i + 1).value;
      MapChaptersIncreasing(videos, plans, i + 1);
      MapChaptersAfter(videos, plans, i + 1);
      assert cs == [MakeChapter(videos, plans[i], i)] + rest;
      forall a, b | 0 <= a < b < |cs| ensures cs[a].index < cs[b].index {
        if a == 0 {
          assert cs[b] == rest[b - 1] && rest[b - 1] in rest;
        } else {
          assert cs[a] == rest[a - 1] && cs[b] == rest[b - 1];
        }
      }
    } else if i < |plans| {
      MapChaptersIncreasing(videos, plans, i + 1);
    }
  }

  /** The dog's reply: the lenient text of the service's answer, cleaned of spaces and quotes. */
  function DogReply(reply: Reply): (r: Result<string, ReplyError>)
    ensures r.Success? <==> LenientText(reply).Success?
    ensures r.Success? ==> r.value == CleanDogReply(LenientText(reply).value)
  {
    match LenientText(reply)
    case Failure(e) => Failure(e)
    case Success(text) => Success(CleanDogReply(text))
  }

  /** The reply used when the dog's reply cannot be generated. */
  function FallbackDogReply(relationship: string): (r: string)
    ensures |r| > |OwnerTitle(relationship)| && r[..|OwnerTitle(relationship)|] == OwnerTitle(relationship)
  {
    OwnerTitle(relationship) + "，我愛你！"
  }

  /**
   * Story generation: without any highlight nothing is asked; a failed
   * exchange or unparsable payload is an error; the chapters come from
   * MapChapters; the owner's message and the dog's reply are recorded only
   * when the owner left a message, with the fallback reply when the dog's
   * reply fails.
   */
  function GenerateStory(videos: seq<VideoInfo>, relationship: string, ownerMessage: string,
                         storyReply: Reply, parse: string -> Option<StoryPlan>, dogReply: Reply)
    : (r: Result<Story, StoryError>)
    ensures !HasAnyHighlight(videos) <==> r == Failure(NoHighlights)
    ensures HasAnyHighlight(videos) && LenientText(storyReply).Failure? ==>
      r == Failure(StoryServiceFailed(LenientText(storyReply).error))
    ensures HasAnyHighlight(videos) && LenientText(storyReply).Success? ==>
      var parsed := parse(StripFence(LenientText(storyReply).value));
      && (parsed.None? ==> r == Failure(StoryUnparsable))
      && (parsed.Some? ==> (r.Success? <==> MapChapters(videos, parsed.value.plans, 0).Success?))
      && (parsed.Some? && r.Failure? ==> r == Failure(IndexPanic))
    ensures r.Success? ==>
      (LenientText(storyReply).Success? && parse(StripFence(LenientText(storyReply).value)).Some?)
    ensures r.Success? ==>
      var plan := parse(StripFence(LenientText(storyReply).value)).value;
      r.value.title == plan.title && Success(r.value.chapters) == MapChapters(videos, plan.plans, 0)
    ensures r.Success? ==> r.value.ownerMessage == ownerMessage
    ensures r.Success? && ownerMessage == "" ==> r.value.dogResponse == ""
    ensures r.Success? && ownerMessage != "" && DogReply(dogReply).Success? ==>
      r.value.dogResponse == DogReply(dogReply).value
    ensures r.Success? && ownerMessage != "" && DogReply(dogReply).Failure? ==>
      r.value.dogResponse == FallbackDogReply(relationship)
  {
    if !HasAnyHighlight(videos) then Failure(NoHighlights)
    else
      match LenientText(storyReply)
      case Failure(e) => Failure(StoryServiceFailed(e))
      case Success(text) =>
        match parse(StripFence(text))
        case None => Failure(StoryUnparsable)
        case Some(plan) =>
          match MapChapters(videos, plan.plans, 0)
          case Failure(e) => Failure(e)
          case Success(chapters) =>
            var dog :=
              if ownerMessage == "" then ""
              else match DogReply(dogReply)
                case Success(t) => t
                case Failure(_) => FallbackDogReply(relationship);
            Success(Story(plan.title, chapters, ownerMessage, dog))
  }

  /** Chapter indices name distinct plans, so no two chapters share one. */
  lemma ChapterIndicesDistinct(videos: seq<VideoInfo>, plans: seq<ChapterPlan>)
    requires MapChapters(videos, plans, 0).Success?
    ensures var cs := MapChapters(videos, plans, 0).value;
      forall a, b :: 0 <= a < |cs| && 0 <= b < |cs| && a != b ==> cs[a].index != cs[b].index
  {
    var cs := MapChapters(videos, plans, 0).value;
    MapChaptersIncreasing(videos, plans, 0);
    forall a, b | 0 <= a < |cs| && 0 <= b < |cs| && a != b
      ensures cs[a].index != cs[b].index
    {
      if a < b {
        assert cs[a].index < cs[b].index;
      } else {
        assert cs[b].index < cs[a].index;
      }
    }
  }
}
