# Bandwidth.Net client: request paths and response reading

This project models the core of `Bandwidth.Net.Client`, the C# client for the
Bandwidth (Catapult) REST API, in Dafny. The model covers:

- how the client fixes the user path `/users/{userId}` at construction;
- how it joins resource paths beneath that path;
- how it builds the relative URL of a GET request, including the id segment
  and the percent-encoded query string;
- how it fills the pagination query of `GetRecordings`;
- how it reads a response (the status check, then the media-type and
  empty-body guard);
- how `CreateCall` takes the new call's id from the `Location` header.

The HTTP transport and the JSON serializer are function parameters:
- `send` and `post` stand for `HttpClient.GetAsync` and `PostAsync`;
- `encode` and `decode` stand for `JsonConvert`.

The class methods therefore change nothing. Each one states the URL it
requests and the result it returns in terms of these parameters.

Modules:

| file | module | contents |
|---|---|---|
| `wrappers.dfy` | `Wrappers` | `Option`, `Result` |
| `errors.dfy` | `Errors` | the exceptions the client throws, as values |
| `strings.dfy` | `Strings` | suffixes, counting, splitting at the first or at every separator |
| `utf8.dfy` | `Utf8` | UTF-8 encoding and its decoder (the bytes `Uri.EscapeDataString` escapes) |
| `percent_encoding.dfy` | `PercentEncoding` | `Uri.EscapeDataString` per section 2.3 of RFC 3986 and its inverse |
| `decimal.dfy` | `Decimal` | `int.ToString()` under the invariant culture and its inverse |
| `query_string.dfy` | `QueryString` | the `key=value&…` string `MakeGetRequest` builds, and a parser for it |
| `responses.dfy` | `Responses` | `EnsureSuccessStatusCode` and the typed-result guard |
| `call_ids.dfy` | `CallIds` | the `/calls/(\w+)$` extraction, as written and as intended |
| `client.dfy` | `BandwidthClient` | the `Client` class, its URL building, and the path lemmas |

Where the C# uses `null`, the model uses `Option.None`. Where the C# throws,
the model returns a `ClientError` value: `ArgumentNull(name)`,
`HttpFailure(status)`, `NullReference(header)` or `MissingId`.

Some behaviours of the code are easy to misread, and the model follows the
code in each:

- Empty `userId`, `apiToken` and `secret` are accepted. Only `null` is
  rejected (`Bandwidth.Net/Client.cs:33-35`). An empty user id gives paths
  such as `/users//calls`.
- A failed status carries only the status code. No response body is read
  (`EnsureSuccessStatusCode`, lines 59, 80 and 98).
- Ids holding `/`, `?` or other reserved characters go into the path
  unescaped (lines 52, 128 and 135). Only query values are escaped (line 56).
- `UpdateCall` with a `null` id does not throw. `string.Format` renders the
  null as empty, so the request goes to `…/calls/` (line 128).

## Model

| member | source | states |
|---|---|---|
| BandwidthClient.ConstructorGuard | Bandwidth.Net/Client.cs:33-35 | an error exactly when some argument is null, naming the first null one in parameter order; empty strings pass |
| BandwidthClient.Client.Create | Bandwidth.Net/Client.cs:31-39 | fails exactly when the guard fails, with its error; otherwise a fresh client whose user path is `/users/` + userId and whose credential is `apiToken:secret` |
| BandwidthClient.Client.constructor | Bandwidth.Net/Client.cs:36-39 | the user path is `/users/` + userId, and the credential is token, colon, secret |
| BandwidthClient.CredentialsSplit | Bandwidth.Net/Client.cs:39 | a token without a colon and the secret are recovered from the credential by splitting at the first colon |
| BandwidthClient.Client.ConcatUserPath | Bandwidth.Net/Client.cs:104-112 | fails with ArgumentNull("path") exactly for the empty path; otherwise the user path, exactly one `/`, and the resource path without its leading `/` |
| BandwidthClient.ConcatUserPathLeadingSlash | Bandwidth.Net/Client.cs:107-111 | `/p` and `p` are joined to the same path |
| BandwidthClient.ConcatUserPathPrefix | Bandwidth.Net/Client.cs:104-112 | the joined path starts with the user path and a `/`, and the resource path follows, whichever way it was written |
| BandwidthClient.EmptyUserIdDoubleSlash | Bandwidth.Net/Client.cs:36 | with an empty user id the calls path is `/users//calls` |
| BandwidthClient.RequestUrl | Bandwidth.Net/Client.cs:49-57 | the URL is the path, then `/id` exactly when an id is given, then `?` and the joined query string exactly when the query is non-empty; so it starts with the path and, with a query, ends in `?` and the query string |
| BandwidthClient.RequestUrlParts | Bandwidth.Net/Client.cs:49-57 | splitting the URL at its first `?` gives back the path with its id segment, and a query string exactly when the query was non-empty; that string parses back to the query's entries |
| BandwidthClient.Client.MakeGetRequest | Bandwidth.Net/Client.cs:47-61 | the URL built step by step equals RequestUrl, and the result is the status check applied to the response to that URL |
| PercentEncoding.EscapeDataString | Bandwidth.Net/Client.cs:56 | every output character is unreserved or `%`, so none of `&`, `=`, `?` appears |
| PercentEncoding.UnescapeEscape | Bandwidth.Net/Client.cs:56 | percent-decoding and UTF-8 decoding the escaped value gives the value back |
| PercentEncoding.EscapeUnreserved | Bandwidth.Net/Client.cs:56 | a string of unreserved characters is sent unchanged |
| Utf8.DecodeEncode | Bandwidth.Net/Client.cs:56 | the UTF-8 bytes that are escaped decode back to the string |
| QueryString.SeparatorCount | Bandwidth.Net/Client.cs:56 | a query string of n entries with plain keys holds exactly n-1 `&` |
| QueryString.SplitJoin | Bandwidth.Net/Client.cs:56 | splitting the query string on `&` gives each entry's `key=escaped value`, in order |
| QueryString.ParseJoin | Bandwidth.Net/Client.cs:56 | parsing the query string recovers every key and value in order |
| BandwidthClient.PaginationQuery | Bandwidth.Net/Client.cs:148-156 | `page` exactly when a page is given, first; `size` exactly when a page size is given, last; each value the decimal rendering of its number; keys plain |
| BandwidthClient.PaginationValues | Bandwidth.Net/Client.cs:151-155 | each pagination value is sent unescaped and reads back as its number |
| Decimal.ToString | Bandwidth.Net/Client.cs:151-155 | non-empty, only digits and `-`, with a leading `-` exactly for negative numbers and no leading zero except in `0` itself |
| Decimal.ParseToString | Bandwidth.Net/Client.cs:151-155 | the rendering of any integer reads back as that integer |
| BandwidthClient.PaginationQueryString | Bandwidth.Net/Client.cs:146-157 | with both given, the query string is `page=<page>&size=<pageSize>` |
| BandwidthClient.RecordingsPageTwoOfFifty | Bandwidth.Net/Client.cs:146-157 | page 2 of size 50 is requested as `?page=2&size=50` |
| BandwidthClient.RecordingsWithoutPaging | Bandwidth.Net/Client.cs:54 | with neither given, the empty query adds nothing to the URL |
| BandwidthClient.Client.GetRecordings | Bandwidth.Net/Client.cs:146-158 | the dictionary filled entry by entry is the pagination query; the URL is `…/recordings` with that query; the result is the interpreted response |
| Responses.EnsureSuccess | Bandwidth.Net/Client.cs:59 | a response passes unchanged exactly for a 2xx status; otherwise HttpFailure with the status |
| Responses.ReadContentAsWritten | Bandwidth.Net/Client.cs:67-72 | fails with NullReference("Content-Type") exactly when there is no Content-Type; decodes the body exactly for `application/json` with a non-empty body, and the value is decode(body) |
| Responses.InterpretAsWritten | Bandwidth.Net/Client.cs:66-72 | fails exactly for a non-2xx status, with HttpFailure(status), or a missing Content-Type, with NullReference("Content-Type"); decodes exactly for a 2xx JSON response with a body, and the value is decode(body) |
| Responses.ReadContent | Bandwidth.Net/Client.cs:67-72 | never fails; decodes the body exactly for `application/json` with a non-empty body, and otherwise gives no value |
| Responses.Interpret | Bandwidth.Net/Client.cs:84-92 | fails exactly for a non-2xx status, with that status; decodes exactly for a 2xx JSON response with a body; no value exactly in the other 2xx cases |
| Responses.InterpretAgreesWithContentType | Bandwidth.Net/Client.cs:67 | both readings agree whenever the response has a Content-Type |
| Responses.MissingContentTypeThrows | Bandwidth.Net/Client.cs:67 | an empty 200 without Content-Type throws as written and gives no value as intended |
| Responses.FailureIgnoresBody | Bandwidth.Net/Client.cs:59 | a failing response's result does not depend on its body or media type |
| Responses.OtherMediaTypeIgnoresBody | Bandwidth.Net/Client.cs:67-72 | a 2xx response that is not JSON gives no value whatever its body |
| BandwidthClient.Client.MakeTypedGetRequest | Bandwidth.Net/Client.cs:63-73 | the URL is RequestUrl, and the result is Interpret of the response |
| BandwidthClient.Client.MakePostRequest | Bandwidth.Net/Client.cs:75-82 | the result is the status check of posting the encoded data to the path |
| BandwidthClient.Client.MakeTypedPostRequest | Bandwidth.Net/Client.cs:84-93 | the result is Interpret of the response to posting the encoded data |
| BandwidthClient.Client.MakeDeleteRequest | Bandwidth.Net/Client.cs:95-100 | succeeds exactly for a 2xx status, and then returns the response; otherwise fails with HttpFailure(status) |
| CallIds.CallIdAsWritten | Bandwidth.Net/Client.cs:114-123 | a non-empty result is a `\w+` word that the path ends with after `/calls/`; any such word is the result; when there is none the result is "" |
| CallIds.NonWordFinalSegment | Bandwidth.Net/Client.cs:114 | a final segment holding a character outside `\w` always gives "" |
| CallIds.CreatedId | Bandwidth.Net/Client.cs:114-123 | a result is a non-empty slash-free segment that the path ends with after `/collection/`; any such segment is the result |
| CallIds.CreatedIdOf | Bandwidth.Net/Client.cs:114-123 | a segment written after `/collection/` is extracted back |
| CallIds.HyphenatedIdLost | Bandwidth.Net/Client.cs:114 | for `…/calls/c-123` the pattern gives "" and the intended reading gives `c-123` |
| CallIds.MissingIdIsEmptyString | Bandwidth.Net/Client.cs:119-123 | for a path with no id the code as written gives "" and the intended reading gives none |
| BandwidthClient.CreatedCallIdAsWritten | Bandwidth.Net/Client.cs:117-123 | succeeds exactly for a 2xx response with a Location, and the id is CallIdAsWritten of its path (a non-empty id is what the path ends with after `/calls/`); HttpFailure for other statuses; NullReference without a Location |
| BandwidthClient.CreatedCallId | Bandwidth.Net/Client.cs:117-123 | succeeds exactly for a 2xx response whose Location ends in `/calls/<segment>`, and returns that segment; HttpFailure for other statuses; NullReference without a Location; MissingId when the Location has no id |
| BandwidthClient.CreatedCallIdAgrees | Bandwidth.Net/Client.cs:118-123 | wherever the pattern matches, the intended reading returns the same id |
| BandwidthClient.Client.CreateCall | Bandwidth.Net/Client.cs:115-124 | posts to the user path + `/calls`, and returns CreatedCallId of the response |
| BandwidthClient.Client.UpdateCall | Bandwidth.Net/Client.cs:126-130 | posts to the user path + `/calls/` + the id (empty for a null id); succeeds exactly for a 2xx status and returns the Location; otherwise fails with HttpFailure(status) |
| BandwidthClient.Client.GetCall | Bandwidth.Net/Client.cs:132-136 | a null id fails with ArgumentNull("callId") and sends nothing; otherwise requests the user path + `/calls/` + id and interprets the response |
| BandwidthClient.Client.GetRecording | Bandwidth.Net/Client.cs:140-144 | a null id fails with ArgumentNull("recordingId") and sends nothing; otherwise requests the user path + `/recordings/` + id and interprets the response |

## Left out

- The HTTP transport: `HttpClient`, async tasks, `Dispose`, and the
  Authorization header. A request is the relative URL handed to `send`,
  `post` or `delete`. A response is its status, media type, body and
  Location path.
- The base address `https://{host}:443/v1` and how `HttpClient` resolves a
  relative URL against it, including URI normalisation.
- The JSON serializer and its settings (camel case, enum converter).
  `encode` and `decode` are total function parameters, so decoding errors
  are not modelled.
- Base64 encoding of the credential. The model keeps `apiToken:secret`.
- The `Call` and `Recording` records, and the other resource paths declared
  in the class (messages, phone numbers, applications, port-ins, audio).
  Those resources are not part of this model.
- CallIds.CallIdAsWritten: `\w` is taken as ASCII letters, digits and `_`.
  .NET also admits Unicode letters, digits and connector punctuation. `$`
  also matching before a final newline is not modelled.
- Decimal.ToString: renders with the invariant culture's `-`. Other cultures'
  negative signs are not modelled.
- PercentEncoding.EscapeDataString: no limit on input length, and no
  exception for unpaired surrogates. Dafny's `char` here is a Unicode scalar
  value, so unpaired surrogates cannot occur.
- Query values are never null. `GetRecordings` never puts null in the
  dictionary.
- A dictionary is enumerated in insertion order. The two keys of
  `GetRecordings` are distinct, so `Dictionary.Add` never throws.
- The Location header is modelled by its `LocalPath`, already unescaped.

## Findings

| source | as written | input that shows it | evidently intended | confidence | as-written member | corrected member |
|---|---|---|---|---|---|---|
| Bandwidth.Net/Client.cs:114 | `\w+` admits only word characters, so an id with `-` does not match and `""` is returned | Location path `/v1/users/u1/calls/c-123` | the final segment `c-123` is the id | not executed; high | CallIds.HyphenatedIdLost | CallIds.CreatedId |
| Bandwidth.Net/Client.cs:119-123 | `Regex.Match` never returns null, so the "Missing id" exception is dead and a non-matching path gives `""` | Location path `/v1/users/u1/calls` | an error when the response carries no call id | not executed; high | CallIds.MissingIdIsEmptyString | BandwidthClient.CreatedCallId |
| Bandwidth.Net/Client.cs:67 | `ContentType.MediaType` is dereferenced without a null check, so a 2xx response without Content-Type throws NullReferenceException | status 200, no Content-Type, empty body | no value, as for any non-JSON response | not executed; medium | Responses.MissingContentTypeThrows | Responses.Interpret |

The class methods use the corrected members `CallIds.CreatedId` (through
`BandwidthClient.CreatedCallId`) and `Responses.Interpret`.
