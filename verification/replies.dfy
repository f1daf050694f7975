/**
 * The generative-language service's reply as the pipeline sees it, and the
 * two ways the pipeline extracts the text of the first candidate's first
 * part: the strict reading used for video analysis and the lenient reading
 * used for the story and the dog's reply.
 */
module Replies {
  import opened Wrappers

  /** One candidate answer: its text parts and why generation stopped. */
  datatype Candidate = Candidate(parts: seq<string>, finishReason: string)

  /** The response body: unreadable, not JSON of the expected shape, or decoded. */
  datatype Body =
    | Unreadable
    | Malformed
    | Decoded(apiError: Option<int>, candidates: seq<Candidate>)

  /** Whether the HTTP exchange produced a response at all, and with what status and body. */
  datatype Reply =
    | NotDelivered
    | Delivered(status: int, body: Body)

  datatype ReplyError =
    | RequestFailed
    | HttpError(status: int)
    | ReadFailed
    | DecodeFailed
    | ServiceError(code: int)
    | NoCandidates
    | NoContent(finishReason: string)

  const StatusOK: int := 200

  /** The reply carries a first candidate with at least one part. */
  predicate HasText(b: Body) {
    b.Decoded? && |b.candidates| > 0 && |b.candidates[0].parts| > 0
  }

  /**
   * Video analysis: any failure of the exchange, a non-200 status, an
   * unreadable or undecodable body, a service error object, no candidates or
   * an empty first candidate is an error, in that order of precedence.
   */
  function StrictText(reply: Reply): (r: Result<string, ReplyError>)
    ensures r.Success? <==>
      (reply.Delivered? && reply.status == StatusOK && HasText(reply.body) && reply.body.apiError.None?)
    ensures r.Success? ==> r.value == reply.body.candidates[0].parts[0]
    ensures reply.NotDelivered? ==> r == Failure(RequestFailed)
    ensures reply.Delivered? && reply.status != StatusOK ==> r == Failure(HttpError(reply.status))
  {
    match reply
    case NotDelivered => Failure(RequestFailed)
    case Delivered(status, body) =>
      if status != StatusOK then Failure(HttpError(status))
      else
        match body
        case Unreadable => Failure(ReadFailed)
        case Malformed => Failure(DecodeFailed)
        case Decoded(apiError, candidates) =>
          if apiError.Some? then Failure(ServiceError(apiError.value))
          else if |candidates| == 0 then Failure(NoCandidates)
          else if |candidates[0].parts| == 0 then Failure(NoContent(candidates[0].finishReason))
          else Success(candidates[0].parts[0])
  }

  /**
   * Story and dog reply: the status and any error object are not looked at,
   * and a read error is ignored, so whatever part of the body arrived is
   * decoded; a body whose read broke off is taken to be cut short and so to
   * fail to decode.
   */
  function LenientText(reply: Reply): (r: Result<string, ReplyError>)
    ensures r.Success? <==> reply.Delivered? && HasText(reply.body)
    ensures r.Success? ==> r.value == reply.body.candidates[0].parts[0]
    ensures reply.NotDelivered? ==> r == Failure(RequestFailed)
  {
    match reply
    case NotDelivered => Failure(RequestFailed)
    case Delivered(_, body) =>
      match body
      case Unreadable => Failure(DecodeFailed)
      case Malformed => Failure(DecodeFailed)
      case Decoded(_, candidates) =>
        if |candidates| == 0 then Failure(NoCandidates)
        else if |candidates[0].parts| == 0 then Failure(NoContent(candidates[0].finishReason))
        else Success(candidates[0].parts[0])
  }

  /**
   * The strict reading accepts exactly the replies the lenient one accepts
   * that also have status 200 and no error object, and both read the same text.
   */
  lemma StrictIsLenientRestricted(reply: Reply)
    ensures StrictText(reply).Success? <==>
      (LenientText(reply).Success? && reply.status == StatusOK && reply.body.apiError.None?)
    ensures StrictText(reply).Success? ==> StrictText(reply).value == LenientText(reply).value
  {
  }
}
