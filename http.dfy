/**
 * The HTTP side of the client, reduced to what its logic inspects: the verb
 * and URI of a request, and the status code and parsed listing of a response.
 */
module Http {
  import opened Wrappers
  import opened StorageObjects

  datatype Verb = Get | Put | Delete

  datatype Request = Request(verb: Verb, uri: string)

  /** A response: its status code and, for a listing, the parsed JSON body. */
  datatype Response = Response(status: int, listing: seq<StorageObject>)

  /** The storage endpoint, as seen by the client: one response per request. */
  type Server = Request -> Response

  /** The client operations that check a status code. */
  datatype Operation = ListOp | DownloadOp | UploadOp | DeleteOp

  /** The exceptions the modelled logic can raise. */
  datatype ClientError =
    | UnexpectedStatus(operation: Operation, status: int)  // an IOException("Failed to ...")
    | NullReference                                        // a NullPointerException

  /** The one status each operation accepts. */
  function ExpectedStatus(op: Operation): int {
    if op == UploadOp then 201 else 200
  }

  /** The status check that ends every request. */
  function CheckStatus(op: Operation, status: int): (r: Result<(), ClientError>)
    ensures r.Success? <==> status == (if op == UploadOp then 201 else 200)
    ensures r.Failure? ==> r.error == UnexpectedStatus(op, status)
  {
    if status != ExpectedStatus(op) then Failure(UnexpectedStatus(op, status)) else Success(())
  }
}
