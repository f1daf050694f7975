/**
 * The records the pet-video pipeline passes between its stages: per-segment
 * content analysis, time segments, highlight spans, story chapters and the
 * per-video bookkeeping of a multi-video project. Times are seconds, as `real`.
 */
module Types {
  import opened Wrappers

  /** What the vision service reports about a set of frames. */
  datatype Analysis = Analysis(
    hasDog: bool,
    hasHuman: bool,
    interaction: string,
    emotion: string,
    caption: string)

  /** The sentinel interaction type meaning "no interaction". */
  const NoInteraction: string := "none"

  /** A segment qualifies for a highlight when dog and human are both present and interact. */
  predicate Qualifies(a: Analysis) {
    a.hasDog && a.hasHuman && a.interaction != NoInteraction
  }

  /** A fixed-size slice of frames; `analysis` is `None` until it has been classified. */
  datatype Segment = Segment(
    index: int,
    start: real,
    end: real,
    frames: seq<string>,
    analysis: Option<Analysis>)

  /** A span of a source video worth showing, with the caption, interaction and emotion of its seed segment. */
  datatype Highlight = Highlight(
    start: real,
    end: real,
    caption: string,
    interaction: string,
    emotion: string)

  /** One narrated beat of a story; an empty `audioPath` means no narration audio exists. */
  datatype Chapter = Chapter(
    index: int,
    narration: string,
    videoId: string,
    startTime: real,
    endTime: real,
    audioPath: string,
    duration: real)

  /** One uploaded video of a project with what analysis derived from it. */
  datatype VideoInfo = VideoInfo(
    id: string,
    path: string,
    duration: real,
    analyzed: bool,
    segments: seq<Segment>,
    highlights: seq<Highlight>)

  /** The generated story; empty strings stand for the unset optional fields. */
  datatype Story = Story(
    title: string,
    chapters: seq<Chapter>,
    ownerMessage: string,
    dogResponse: string)

  /** The owner's form of address used in prompts and fallback texts. */
  function OwnerTitle(relationship: string): (t: string)
    ensures relationship != "" ==> t == relationship
    ensures relationship == "" ==> t == "主人"
    ensures t != ""
  {
    if relationship == "" then "主人" else relationship
  }
}
