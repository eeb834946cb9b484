/**
 * Reading a response: EnsureSuccessStatusCode, then the media-type and
 * empty-body guard of the typed GET and POST helpers. The JSON decoder is a
 * parameter; Newtonsoft is not part of this model.
 */
module Responses {
  import opened Wrappers
  import opened Errors

  const JsonMediaType: string := "application/json"

  /**
   * What the client sees of an HTTP response: the status, the media type of
   * the Content-Type header without its parameters (None when there is no
   * such header), the body as text, and the local path of the Location
   * header (None when there is none).
   */
  datatype Response = Response(status: int, mediaType: Option<string>, body: string, location: Option<string>)

  /** The 2xx range that EnsureSuccessStatusCode accepts. */
  predicate IsSuccessStatus(status: int) {
    200 <= status <= 299
  }

  /** EnsureSuccessStatusCode: the response passes unchanged, or the status is thrown. */
  function EnsureSuccess(r: Response): (result: Result<Response, ClientError>)
    ensures result.Success? <==> IsSuccessStatus(r.status)
    ensures result.Success? ==> result.value == r
    ensures result.Failure? ==> result.error == HttpFailure(r.status)
  {
    if IsSuccessStatus(r.status) then Success(r) else Failure(HttpFailure(r.status))
  }

  /** A typed result: a failure, `default(TResult)`, or the decoded body. */
  datatype Outcome<+T> = Failed(error: ClientError) | NoValue | Decoded(value: T)

  /**
   * The media-type and empty-body guard on a successful response, as written
   * at lines 67-72 and 87-92: it dereferences the Content-Type header, so a
   * response without one throws.
   */
  function ReadContentAsWritten<T>(r: Response, decode: string -> T): (o: Outcome<T>)
    ensures o.Failed? <==> r.mediaType.None?
    ensures o.Failed? ==> o.error == NullReference("Content-Type")
    ensures o.Decoded? <==> r.mediaType == Some(JsonMediaType) && r.body != ""
    ensures o.Decoded? ==> o.value == decode(r.body)
  {
    match r.mediaType
    case None => Failed(NullReference("Content-Type"))
    case Some(m) => if m == JsonMediaType && |r.body| > 0 then Decoded(decode(r.body)) else NoValue
  }

  /**
   * The guard as intended: the body is decoded exactly when the media type is
   * `application/json` and the body is non-empty; otherwise there is no value.
   */
  function ReadContent<T>(r: Response, decode: string -> T): (o: Outcome<T>)
    ensures !o.Failed?
    ensures o.Decoded? <==> r.mediaType == Some(JsonMediaType) && r.body != ""
    ensures o.Decoded? ==> o.value == decode(r.body)
  {
    if r.mediaType == Some(JsonMediaType) && |r.body| > 0 then Decoded(decode(r.body)) else NoValue
  }

  /** EnsureSuccessStatusCode followed by the guard as written. */
  function InterpretAsWritten<T>(r: Response, decode: string -> T): (o: Outcome<T>)
    ensures o.Failed? <==> !IsSuccessStatus(r.status) || r.mediaType.None?
    ensures o.Decoded? <==> IsSuccessStatus(r.status) && r.mediaType == Some(JsonMediaType) && r.body != ""
    ensures o.Decoded? ==> o.value == decode(r.body)
    ensures !IsSuccessStatus(r.status) ==> o == Failed(HttpFailure(r.status))
    ensures IsSuccessStatus(r.status) && r.mediaType.None? ==> o == Failed(NullReference("Content-Type"))
  {
    match EnsureSuccess(r)
    case Failure(e) => Failed(e)
    case Success(_) => ReadContentAsWritten(r, decode)
  }

  /**
   * EnsureSuccessStatusCode followed by the guard as intended: a non-2xx
   * status fails and is never decoded; a success is decoded exactly when the
   * media type is `application/json` and the body is non-empty, and otherwise
   * yields no value.
   */
  function Interpret<T>(r: Response, decode: string -> T): (o: Outcome<T>)
    ensures o.Failed? <==> !IsSuccessStatus(r.status)
    ensures o.Failed? ==> o.error == HttpFailure(r.status)
    ensures o.Decoded? <==> IsSuccessStatus(r.status) && r.mediaType == Some(JsonMediaType) && r.body != ""
    ensures o.Decoded? ==> o.value == decode(r.body)
    ensures o.NoValue? <==> IsSuccessStatus(r.status) && (r.mediaType != Some(JsonMediaType) || r.body == "")
  {
    match EnsureSuccess(r)
    case Failure(e) => Failed(e)
    case Success(_) => ReadContent(r, decode)
  }

  /** Both readings agree on every response that carries a Content-Type header. */
  lemma InterpretAgreesWithContentType<T>(r: Response, decode: string -> T)
    requires r.mediaType.Some?
    ensures InterpretAsWritten(r, decode) == Interpret(r, decode)
  {
  }

  /** A 200 response with no Content-Type header throws as written and yields no value as intended. */
  lemma MissingContentTypeThrows<T>(decode: string -> T)
    ensures InterpretAsWritten(Response(200, None, "", None), decode) == Failed(NullReference("Content-Type"))
    ensures Interpret(Response(200, None, "", None), decode) == NoValue
  {
  }

  /** Whatever a failing response carries, its body is never handed to the decoder. */
  lemma FailureIgnoresBody<T>(r: Response, body: string, mediaType: Option<string>, decode: string -> T)
    requires !IsSuccessStatus(r.status)
    ensures Interpret(r, decode) == Interpret(r.(body := body, mediaType := mediaType), decode)
  {
  }

  /** Outside `application/json` the body is irrelevant: the result is no value whatever it holds. */
  lemma OtherMediaTypeIgnoresBody<T>(r: Response, body: string, decode: string -> T)
    requires IsSuccessStatus(r.status) && r.mediaType != Some(JsonMediaType)
    ensures Interpret(r, decode) == Interpret(r.(body := body), decode) == NoValue
  {
  }
}
