/**
 * The Bandwidth REST client: the user path fixed at construction, the
 * relative URLs its call and recording methods request, and how their
 * responses are read. The HTTP transport and the JSON serializer are
 * parameters: `send` and `post` stand for HttpClient.GetAsync and PostAsync,
 * `encode` and `decode` for JsonConvert.
 */
module BandwidthClient {
  import opened Wrappers
  import opened Errors
  import opened Strings
  import Decimal
  import opened PercentEncoding
  import opened QueryString
  import opened Responses
  import opened CallIds

  const CallsPath: string := "calls"
  const RecordingsPath: string := "recordings"

  /** The constructor's argument checks: the first absent argument, in parameter order, is reported. */
  function ConstructorGuard(userId: Option<string>, apiToken: Option<string>, secret: Option<string>): (r: Option<ClientError>)
    ensures r.None? <==> userId.Some? && apiToken.Some? && secret.Some?
    ensures userId.None? ==> r == Some(ArgumentNull("userId"))
    ensures userId.Some? && apiToken.None? ==> r == Some(ArgumentNull("apiToken"))
    ensures userId.Some? && apiToken.Some? && secret.None? ==> r == Some(ArgumentNull("secret"))
  {
    if userId.None? then Some(ArgumentNull("userId"))
    else if apiToken.None? then Some(ArgumentNull("apiToken"))
    else if secret.None? then Some(ArgumentNull("secret"))
    else None
  }

  /** The Basic credential before Base64: user-id `:` password (section 2 of RFC 7617). */
  function Credentials(apiToken: string, secret: string): string {
    apiToken + ":" + secret
  }

  /** A token without a colon is recovered, with the secret, by splitting at the first colon. */
  lemma CredentialsSplit(apiToken: string, secret: string)
    requires ':' !in apiToken
    ensures SplitAtFirst(Credentials(apiToken, secret), ':') == (apiToken, Some(secret))
  {
    SplitAtFirstConcat(apiToken, ':', secret);
  }

  /** Whether a query dictionary is present and non-empty. */
  predicate HasQuery(query: Option<Query>) {
    query.Some? && 0 < |query.value|
  }

  function IdSegment(id: Option<string>): string {
    match id
    case None => ""
    case Some(i) => "/" + i
  }

  function QuerySuffix(query: Option<Query>): string {
    if HasQuery(query) then "?" + Join(query.value) else ""
  }

  /**
   * The relative URL MakeGetRequest sends: the path, then `/id` only when an
   * id is given, then `?` and the query string only when the query has
   * entries.
   */
  function RequestUrl(path: string, query: Option<Query>, id: Option<string>): (url: string)
    ensures |path| <= |url| && url[..|path|] == path
    ensures id.None? && !HasQuery(query) ==> url == path
    ensures !HasQuery(query) ==> url == path + IdSegment(id)
    ensures HasQuery(query) ==> EndsWith(url, "?" + Join(query.value))
    ensures HasQuery(query) ==> url == path + IdSegment(id) + "?" + Join(query.value)
  {
    var url := path + IdSegment(id) + QuerySuffix(query);
    assert HasQuery(query) ==> url[|url| - |QuerySuffix(query)|..] == QuerySuffix(query);
    url
  }

  /**
   * A URL whose path and id hold no `?` comes apart at its first `?` into the
   * path with its id segment and the query string, and the query string
   * parses back into the entries it was built from.
   */
  lemma RequestUrlParts(path: string, query: Option<Query>, id: Option<string>)
    requires '?' !in path
    requires id.Some? ==> '?' !in id.value
    requires query.Some? ==> PlainKeys(query.value)
    ensures var parts := SplitAtFirst(RequestUrl(path, query, id), '?');
      && parts.0 == path + IdSegment(id)
      && (parts.1.Some? <==> HasQuery(query))
      && (HasQuery(query) ==> parts.1 == Some(Join(query.value)) && Parse(parts.1.value) == Some(query.value))
  {
    var head := path + IdSegment(id);
    var url := RequestUrl(path, query, id);
    assert '?' !in head;
    assert url == head + QuerySuffix(query);
    if HasQuery(query) {
      assert url == head + ['?'] + Join(query.value);
      QueryUrlParts(head, query.value);
    } else {
      SplitAtFirstAbsent(head, '?');
    }
  }

  lemma QueryUrlParts(head: string, q: Query)
    requires '?' !in head && 0 < |q| && PlainKeys(q)
    ensures SplitAtFirst(head + ['?'] + Join(q), '?') == (head, Some(Join(q)))
    ensures Parse(Join(q)) == Some(q)
  {
    SplitAtFirstConcat(head, '?', Join(q));
    ParseJoin(q);
  }

  /**
   * The query GetRecordings builds: `page` exactly when a page is given and
   * then `size` exactly when a page size is given, each the decimal rendering
   * of its number.
   */
  function PaginationQuery(page: Option<Decimal.int32>, pageSize: Option<Decimal.int32>): (q: Query)
    ensures |q| == (if page.Some? then 1 else 0) + (if pageSize.Some? then 1 else 0)
    ensures page.Some? ==> q[0] == ("page", Decimal.ToString(page.value as int))
    ensures pageSize.Some? ==> q[|q| - 1] == ("size", Decimal.ToString(pageSize.value as int))
    ensures PlainKeys(q)
  {
    (if page.Some? then [("page", Decimal.ToString(page.value as int))] else [])
    + (if pageSize.Some? then [("size", Decimal.ToString(pageSize.value as int))] else [])
  }

  /** Every value of the pagination query reads back as the number it renders, and is sent unescaped. */
  lemma PaginationValues(page: Option<Decimal.int32>, pageSize: Option<Decimal.int32>)
    ensures var q := PaginationQuery(page, pageSize);
      forall i | 0 <= i < |q| ::
        EscapeDataString(q[i].1) == q[i].1
        && Decimal.Parse(q[i].1) == Some(if q[i].0 == "page" then page.value as int else pageSize.value as int)
  {
    var q := PaginationQuery(page, pageSize);
    forall i | 0 <= i < |q|
      ensures EscapeDataString(q[i].1) == q[i].1
      ensures Decimal.Parse(q[i].1) == Some(if q[i].0 == "page" then page.value as int else pageSize.value as int)
    {
      var n := if q[i].0 == "page" then page.value as int else pageSize.value as int;
      assert q[i].1 == Decimal.ToString(n);
      EscapeUnreserved(q[i].1);
      Decimal.ParseToString(n);
    }
  }

  /** With neither a page nor a page size the recordings URL carries no `?`. */
  lemma RecordingsWithoutPaging(path: string)
    ensures RequestUrl(path, Some(PaginationQuery(None, None)), None) == path
  {
  }

  /** With both a page and a page size the query string is `page=<page>&size=<pageSize>`. */
  lemma PaginationQueryString(page: Decimal.int32, pageSize: Decimal.int32)
    ensures Join(PaginationQuery(Some(page), Some(pageSize)))
         == "page=" + Decimal.ToString(page as int) + "&size=" + Decimal.ToString(pageSize as int)
  {
    var q := PaginationQuery(Some(page), Some(pageSize));
    DecimalParameter("page", page as int);
    DecimalParameter("size", pageSize as int);
    assert q[1..] == [q[1]];
  }

  /** A number is written into a parameter as its decimal digits, unescaped. */
  lemma DecimalParameter(key: string, n: int)
    ensures Parameter((key, Decimal.ToString(n))) == key + "=" + Decimal.ToString(n)
  {
    EscapeUnreserved(Decimal.ToString(n));
  }

  /** Page 2 of size 50 is requested as `page=2&size=50`. */
  lemma RecordingsPageTwoOfFifty(path: string)
    ensures RequestUrl(path, Some(PaginationQuery(Some(2), Some(50))), None) == path + "?page=2&size=50"
  {
    TwoAndFifty();
    PaginationQueryString(2, 50);
  }

  lemma TwoAndFifty()
    ensures Decimal.ToString(2) == "2" && Decimal.ToString(50) == "50"
  {
    assert Decimal.DigitChar(2) == '2';
    assert Decimal.NatToString(5) == "5" by { assert Decimal.DigitChar(5) == '5'; }
    assert Decimal.DigitChar(0) == '0';
  }

  /**
   * The id CreateCall returns for a successful POST response, as intended:
   * the final segment after `/calls/` in the Location path, an error when the
   * path has none.
   */
  function CreatedCallId(r: Response): (result: Result<string, ClientError>)
    ensures result.Success? <==> IsSuccessStatus(r.status) && r.location.Some? && CreatedId(r.location.value, CallsPath).Some?
    ensures result.Success? ==> IsSegment(result.value) && EndsWith(r.location.value, "/calls/" + result.value)
    ensures !IsSuccessStatus(r.status) ==> result == Failure(HttpFailure(r.status))
    ensures IsSuccessStatus(r.status) && r.location.None? ==> result == Failure(NullReference("Location"))
    ensures IsSuccessStatus(r.status) && r.location.Some? && CreatedId(r.location.value, CallsPath).None? ==>
      result == Failure(MissingId)
  {
    match EnsureSuccess(r)
    case Failure(e) => Failure(e)
    case Success(_) =>
      match r.location
      case None => Failure(NullReference("Location"))
      case Some(path) =>
        match CreatedId(path, CallsPath)
        case None => Failure(MissingId)
        case Some(id) => Success(id)
  }

  /** CreateCall's result as written: the regular-expression group, "" when it does not match. */
  function CreatedCallIdAsWritten(r: Response): (result: Result<string, ClientError>)
    ensures result.Success? <==> IsSuccessStatus(r.status) && r.location.Some?
    ensures result.Success? ==> result.value == CallIdAsWritten(r.location.value)
    ensures result.Success? && result.value != "" ==> EndsWith(r.location.value, "/calls/" + result.value)
    ensures !IsSuccessStatus(r.status) ==> result == Failure(HttpFailure(r.status))
    ensures IsSuccessStatus(r.status) && r.location.None? ==> result == Failure(NullReference("Location"))
  {
    match EnsureSuccess(r)
    case Failure(e) => Failure(e)
    case Success(_) =>
      match r.location
      case None => Failure(NullReference("Location"))
      case Some(path) => Success(CallIdAsWritten(path))
  }

  /** On a Location path that the pattern matches, the intended reading returns the same id. */
  lemma CreatedCallIdAgrees(r: Response)
    requires IsSuccessStatus(r.status) && r.location.Some?
    requires CallIdAsWritten(r.location.value) != ""
    ensures CreatedCallId(r) == CreatedCallIdAsWritten(r)
  {
    var path := r.location.value;
    var id := CallIdAsWritten(path);
    assert '/' !in id by {
      forall i | 0 <= i < |id| ensures id[i] != '/' { assert IsWordChar(id[i]); }
    }
    assert "/" + CallsPath + "/" + id == CallsMarker + id;
    assert CreatedId(path, CallsPath) == Some(id);
  }

  /** A user path, with the paths of the call and recording resources beneath it. */
  class Client {
    /** `/users/{userId}`, fixed at construction. */
    const userPath: string
    /** `{apiToken}:{secret}`, sent Base64-encoded in the Authorization header. */
    const credentials: string

    constructor (userId: string, apiToken: string, secret: string)
      ensures userPath == "/users/" + userId
      ensures credentials == Credentials(apiToken, secret)
    {
      userPath := "/users/" + userId;
      credentials := Credentials(apiToken, secret);
    }

    /**
     * `new Client(userId, apiToken, secret)`: a null argument throws; any
     * string, the empty one included, is accepted.
     */
    static method Create(userId: Option<string>, apiToken: Option<string>, secret: Option<string>)
      returns (r: Result<Client, ClientError>)
      ensures r.Failure? <==> ConstructorGuard(userId, apiToken, secret).Some?
      ensures r.Failure? ==> ConstructorGuard(userId, apiToken, secret) == Some(r.error)
      ensures r.Success? ==> fresh(r.value)
      ensures r.Success? ==> r.value.userPath == "/users/" + userId.value
      ensures r.Success? ==> r.value.credentials == Credentials(apiToken.value, secret.value)
    {
      match ConstructorGuard(userId, apiToken, secret)
      case Some(e) =>
        r := Failure(e);
      case None =>
        var c := new Client(userId.value, apiToken.value, secret.value);
        r := Success(c);
    }

    /**
     * The user path joined to a resource path by exactly one `/`: a leading
     * `/` of the resource path is kept as that separator, otherwise one is
     * added. An empty path throws.
     */
    function ConcatUserPath(path: string): (r: Result<string, ClientError>)
      ensures r.Failure? <==> path == ""
      ensures r.Failure? ==> r.error == ArgumentNull("path")
      ensures r.Success? ==> r.value == userPath + "/" + (if path[0] == '/' then path[1..] else path)
    {
      if |path| == 0 then Failure(ArgumentNull("path"))
      else if path[0] == '/' then
        assert path == "/" + path[1..];
        Success(userPath + path)
      else Success(userPath + "/" + path)
    }

    /**
     * `MakeGetRequest(path, query, id)`: builds the URL step by step, sends
     * it, and passes the response through EnsureSuccessStatusCode.
     */
    method MakeGetRequest(path: string, query: Option<Query>, id: Option<string>, send: string -> Response)
      returns (urlPath: string, r: Result<Response, ClientError>)
      ensures urlPath == RequestUrl(path, query, id)
      ensures r == EnsureSuccess(send(urlPath))
    {
      urlPath := path;
      if id.Some? {
        urlPath := urlPath + ("/" + id.value);
      }
      assert urlPath == path + IdSegment(id);
      if query.Some? && |query.value| > 0 {
        urlPath := urlPath + ("?" + Join(query.value));
      }
      r := EnsureSuccess(send(urlPath));
    }

    /** `MakeGetRequest<TResult>`: the GET, then the media-type and empty-body guard. */
    method MakeTypedGetRequest<T>(path: string, query: Option<Query>, id: Option<string>,
                                  send: string -> Response, decode: string -> T)
      returns (urlPath: string, o: Outcome<T>)
      ensures urlPath == RequestUrl(path, query, id)
      ensures o == Interpret(send(urlPath), decode)
    {
      var checked;
      urlPath, checked := MakeGetRequest(path, query, id, send);
      match checked
      case Failure(e) =>
        o := Failed(e);
      case Success(response) =>
        o := ReadContent(response, decode);
    }

    /** `MakePostRequest(path, data)`: serializes the data, posts it, and checks the status. */
    method MakePostRequest<D>(path: string, data: D, encode: D -> string, post: (string, string) -> Response)
      returns (r: Result<Response, ClientError>)
      ensures r == EnsureSuccess(post(path, encode(data)))
    {
      var json := encode(data);
      r := EnsureSuccess(post(path, json));
    }

    /** `MakePostRequest<TResult>`: the POST, then the media-type and empty-body guard. */
    method MakeTypedPostRequest<D, T>(path: string, data: D, encode: D -> string,
                                      post: (string, string) -> Response, decode: string -> T)
      returns (o: Outcome<T>)
      ensures o == Interpret(post(path, encode(data)), decode)
    {
      var checked := MakePostRequest(path, data, encode, post);
      match checked
      case Failure(e) =>
        o := Failed(e);
      case Success(response) =>
        o := ReadContent(response, decode);
    }

    /** `MakeDeleteRequest(path)`: the DELETE, then the status check. */
    method MakeDeleteRequest(path: string, delete: string -> Response) returns (r: Result<Response, ClientError>)
      ensures r.Success? <==> IsSuccessStatus(delete(path).status)
      ensures r.Success? ==> r.value == delete(path)
      ensures r.Failure? ==> r.error == HttpFailure(delete(path).status)
    {
      r := EnsureSuccess(delete(path));
    }

    /** `CreateCall(call)`: posts to the calls collection and returns the new call's id. */
    method CreateCall<C>(call: C, encode: C -> string, post: (string, string) -> Response)
      returns (path: string, r: Result<string, ClientError>)
      ensures path == userPath + "/calls"
      ensures r == CreatedCallId(post(path, encode(call)))
    {
      path := ConcatUserPath(CallsPath).value;
      var checked := MakePostRequest(path, call, encode, post);
      match checked
      case Failure(e) =>
        r := Failure(e);
      case Success(response) =>
        r := CreatedCallId(response);
    }

    /**
     * `UpdateCall(callId, data)`: posts to `calls/{callId}` under the user
     * path and returns the Location of the response. A null id is formatted
     * as the empty string, not rejected.
     */
    method UpdateCall<C>(callId: Option<string>, data: C, encode: C -> string, post: (string, string) -> Response)
      returns (path: string, r: Result<Option<string>, ClientError>)
      ensures path == userPath + "/calls/" + (if callId.Some? then callId.value else "")
      ensures r.Success? <==> IsSuccessStatus(post(path, encode(data)).status)
      ensures r.Success? ==> r.value == post(path, encode(data)).location
      ensures r.Failure? ==> r.error == HttpFailure(post(path, encode(data)).status)
    {
      var formatted := CallsPath + "/" + (if callId.Some? then callId.value else "");
      path := ConcatUserPath(formatted).value;
      var checked := MakePostRequest(path, data, encode, post);
      match checked
      case Failure(e) =>
        r := Failure(e);
      case Success(response) =>
        r := Success(response.location);
    }

    /** `GetCall(callId)`: a null id throws before any request; otherwise `calls/{callId}` is fetched. */
    method GetCall<C>(callId: Option<string>, send: string -> Response, decode: string -> C)
      returns (request: Option<string>, o: Outcome<C>)
      ensures callId.None? ==> request.None? && o == Failed(ArgumentNull("callId"))
      ensures callId.Some? ==> request == Some(userPath + "/calls/" + callId.value)
      ensures callId.Some? ==> o == Interpret(send(request.value), decode)
    {
      if callId.None? {
        request, o := None, Failed(ArgumentNull("callId"));
        return;
      }
      var path := ConcatUserPath(CallsPath).value;
      var urlPath;
      urlPath, o := MakeTypedGetRequest(path, None, callId, send, decode);
      assert urlPath == userPath + "/calls/" + callId.value;
      request := Some(urlPath);
    }

    /** `GetRecording(recordingId)`: a null id throws before any request; otherwise `recordings/{id}` is fetched. */
    method GetRecording<R>(recordingId: Option<string>, send: string -> Response, decode: string -> R)
      returns (request: Option<string>, o: Outcome<R>)
      ensures recordingId.None? ==> request.None? && o == Failed(ArgumentNull("recordingId"))
      ensures recordingId.Some? ==> request == Some(userPath + "/recordings/" + recordingId.value)
      ensures recordingId.Some? ==> o == Interpret(send(request.value), decode)
    {
      if recordingId.None? {
        request, o := None, Failed(ArgumentNull("recordingId"));
        return;
      }
      var path := ConcatUserPath(RecordingsPath).value;
      var urlPath;
      urlPath, o := MakeTypedGetRequest(path, None, recordingId, send, decode);
      assert urlPath == userPath + "/recordings/" + recordingId.value;
      request := Some(urlPath);
    }

    /** `GetRecordings(page, pageSize)`: fills the query dictionary entry by entry and fetches the recordings. */
    method GetRecordings<R>(page: Option<Decimal.int32>, pageSize: Option<Decimal.int32>, send: string -> Response, decode: string -> R)
      returns (urlPath: string, o: Outcome<R>)
      ensures urlPath == RequestUrl(userPath + "/recordings", Some(PaginationQuery(page, pageSize)), None)
      ensures o == Interpret(send(urlPath), decode)
    {
      var query: Query := [];
      if page.Some? {
        query := query + [("page", Decimal.ToString(page.value as int))];
      }
      if pageSize.Some? {
        query := query + [("size", Decimal.ToString(pageSize.value as int))];
      }
      assert query == PaginationQuery(page, pageSize);
      var path := ConcatUserPath(RecordingsPath).value;
      assert path == userPath + "/recordings";
      urlPath, o := MakeTypedGetRequest(path, Some(query), None, send, decode);
    }
  }

  /** A resource path is joined the same way with or without a leading `/`. */
  lemma ConcatUserPathLeadingSlash(c: Client, path: string)
    requires path != "" && path[0] != '/'
    ensures c.ConcatUserPath("/" + path) == c.ConcatUserPath(path)
  {
    assert ("/" + path)[1..] == path;
  }

  /** The joined path starts with the user path, and what follows it is the resource path with one leading `/`. */
  lemma ConcatUserPathPrefix(c: Client, path: string)
    requires path != ""
    ensures var r := c.ConcatUserPath(path).value;
      && r[..|c.userPath|] == c.userPath
      && r[|c.userPath|] == '/'
      && (path[0] == '/' ==> r[|c.userPath|..] == path)
      && (path[0] != '/' ==> r[|c.userPath| + 1..] == path)
  {
  }

  /** An empty user id is accepted, so its resource paths hold `//`. */
  lemma EmptyUserIdDoubleSlash(c: Client)
    requires c.userPath == "/users/" + ""
    ensures c.ConcatUserPath(CallsPath) == Success("/users//calls")
  {
    assert c.userPath + "/" + CallsPath == "/users//calls";
  }
}
