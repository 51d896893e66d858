/** The service worker's fetch handler (sw.js): tile requests are answered from the
    tile store when it holds the tile, and from the network otherwise, keeping a copy of
    every successful network response. */
module ServiceWorker {
  import opened Wrappers
  import opened Http
  import opened TileUrl
  import opened TileStore

  /** Why the promise given to respondWith rejects. */
  datatype Failure = StoreReadFailed | NetworkFailed

  /** What the worker does with a request: leave it to the browser (no respondWith),
      answer it, or answer with a promise that rejects. */
  datatype Outcome = PassThrough | Respond(response: Response) | Reject(failure: Failure)

  /** The store key the worker uses for a request URL, when it intercepts it. */
  function RequestKey(url: string): (k: Option<string>)
    ensures k.Some? <==> Intercepts(url)
    ensures k.Some? ==> exists c :: ValidCaptures(c) && EndsWith(url, Suffix(c)) && k.value == SwKey(c)
  {
    var c := ParseTileUrl(url);
    if c.None? then None else Some(SwKey(c.value))
  }

  /** The response built from a stored tile: status 200 and an image/png content type,
      whatever the request. */
  function CachedResponse(blob: seq<byte>): (r: Response)
    ensures r.ok && r.contentType == "image/png" && r.body == blob
  {
    Response(true, "image/png", blob)
  }

  /** The fetch handler for a request to `url`. `readFails` and `writeFails` say whether
      the store read and the background write err; `network` is what forwarding the
      request to the network settles to. `fetches` counts the network requests the
      handler makes. */
  method OnFetch(db: Store, url: string, readFails: bool, network: FetchResult, writeFails: bool)
    returns (outcome: Outcome, fetches: nat)
    modifies db
    ensures RequestKey(url).None? ==> outcome == PassThrough && fetches == 0 && db.tiles == old(db.tiles)
    ensures RequestKey(url).Some? && readFails ==>
      outcome == Reject(StoreReadFailed) && fetches == 0 && db.tiles == old(db.tiles)
    ensures var k := RequestKey(url); k.Some? && !readFails && k.value in old(db.tiles) ==>
      outcome == Respond(CachedResponse(old(db.tiles)[k.value])) && fetches == 0 && db.tiles == old(db.tiles)
    ensures var k := RequestKey(url); k.Some? && !readFails && k.value !in old(db.tiles) ==>
      fetches == 1 &&
      match network
      case NetworkError => outcome == Reject(NetworkFailed) && db.tiles == old(db.tiles)
      case Fetched(resp) =>
        outcome == Respond(resp) &&
        db.tiles == if resp.ok && !writeFails then old(db.tiles)[k.value := resp.body] else old(db.tiles)
  {
    var key := RequestKey(url);
    if key.None? {
      return PassThrough, 0;
    }
    var found := db.Get(key.value, readFails);
    match found
    case ReadFailed =>
      outcome, fetches := Reject(StoreReadFailed), 0;
    case Found(blob) =>
      outcome, fetches := Respond(CachedResponse(blob)), 0;
    case Missing =>
      fetches := 1;
      match network
      case NetworkError =>
        outcome := Reject(NetworkFailed);
      case Fetched(resp) =>
        if resp.ok {
          var saved := db.Put(key.value, resp.body, writeFails);
        }
        outcome := Respond(resp);
  }

  /** A miss that the network answers with an ok response, whose background write
      succeeds, makes the next request for the same URL a hit when its store read
      succeeds: it is served from the store without touching the network, whatever the
      network would now do, with the bytes of the first response. */
  method MissThenHit(db: Store, url: string, first: Response, later: FetchResult)
    returns (o1: Outcome, o2: Outcome, fetches: nat)
    requires Intercepts(url) && RequestKey(url).value !in db.tiles && first.ok
    modifies db
    ensures o1 == Respond(first)
    ensures o2 == Respond(CachedResponse(first.body))
    ensures fetches == 1
  {
    var f1, f2;
    o1, f1 := OnFetch(db, url, false, Fetched(first), false);
    o2, f2 := OnFetch(db, url, false, later, false);
    fetches := f1 + f2;
  }

  /** Nothing waits on the background write, so a failed one goes unnoticed; after an ok miss whose write
      fails the next request misses again and goes to the network: offline, it rejects. */
  method FailedWriteMissesAgain(db: Store, url: string, first: Response, later: FetchResult)
    returns (o1: Outcome, o2: Outcome, fetches: nat)
    requires Intercepts(url) && RequestKey(url).value !in db.tiles && first.ok
    modifies db
    ensures o1 == Respond(first)
    ensures o2 == if later.Fetched? then Respond(later.response) else Reject(NetworkFailed)
    ensures fetches == 2
  {
    var f1, f2;
    o1, f1 := OnFetch(db, url, false, Fetched(first), true);
    o2, f2 := OnFetch(db, url, false, later, false);
    fetches := f1 + f2;
  }
}
