/** The exceptions the client surfaces to its callers. */
module Errors {

  datatype ClientError =
    /** ArgumentNullException naming the offending parameter. */
    | ArgumentNull(paramName: string)
    /** HttpRequestException from EnsureSuccessStatusCode; it carries only the status. */
    | HttpFailure(status: int)
    /** NullReferenceException from reading an absent response header. */
    | NullReference(header: string)
    /** "Missing id in response": no created-resource id in the Location path. */
    | MissingId
}
