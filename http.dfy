/** What the page and the worker see of HTTP: bodies as bytes, a response's ok flag and
    content type, and the two ways a `fetch` settles. */
module Http {

  newtype byte = b: int | 0 <= b < 256

  /** A response: `ok` is the status-in-200..299 flag, `body` the bytes `blob()` yields. */
  datatype Response = Response(ok: bool, contentType: string, body: seq<byte>)

  /** How `fetch` settles: rejected (offline, DNS or connection failure), or resolved
      with a response of any status, 404 and 500 included. */
  datatype FetchResult = NetworkError | Fetched(response: Response)
}
