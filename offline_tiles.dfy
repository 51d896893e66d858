/** How the two files meet through the shared store: the page writes each tile under
    `Key(t)` and the worker looks a request up under the key it reads off the URL. The
    facts here tie the prefetcher's keys and URLs to the worker's recogniser and fetch
    handler; neither file refers to the other, so they live in a module of their own. */
module OfflineTiles {
  import opened Wrappers
  import opened Http
  import opened Digits
  import opened TileKey
  import opened TileUrl
  import opened TileStore
  import opened Prefetch
  import opened ServiceWorker

  /** The groups of a tile's URL: its numbers as the page writes them. */
  function TileCaptures(t: Tile): (c: Captures)
    ensures ValidCaptures(c) && SwKey(c) == Key(t)
  {
    DecimalNumeral(t.z); DecimalNumeral(t.x); DecimalNumeral(t.y);
    Captures(Decimal(t.z), Decimal(t.x), Decimal(t.y))
  }

  /** A URL for tile `t` on any host: what the prefetcher requests ("https://a.tile..."),
      and equally what the map's tile layer requests on the "b" and "c" hosts. */
  function TileUrlOn(host: string, t: Tile): string {
    host + "/" + Key(t) + ".png"
  }

  /** The worker recognises the URL of a tile on any host, reads back the decimal numbers
      the page wrote, and derives the very key the page stores the tile under: the pattern
      looks at the path's ending only, never at the host. */
  lemma TileUrlRoundTrip(host: string, t: Tile)
    ensures ParseTileUrl(TileUrlOn(host, t)) == Some(TileCaptures(t))
    ensures RequestKey(TileUrlOn(host, t)) == Some(Key(t))
  {
    var c := TileCaptures(t);
    assert TileUrlOn(host, t) == host + Suffix(c);
    ParseSuffix(host, c);
  }

  /** The round trip for the prefetcher's own requests. */
  lemma PrefetchUrlRoundTrip(t: Tile)
    ensures ParseTileUrl(Url(t)) == Some(TileCaptures(t))
    ensures SwKey(ParseTileUrl(Url(t)).value) == Key(t)
  {
    assert Url(t) == TileUrlOn(TileHost(), t);
    TileUrlRoundTrip(TileHost(), t);
  }

  /** The service worker keeps the groups as written, so a tile URL with a leading zero
      ("/05/10/12.png") gives a key that no prefetched tile is stored under. */
  lemma PaddedGroupMissesPrefetchKey(c: Captures, t: Tile)
    requires ValidCaptures(c)
    requires (|c.z| > 1 && c.z[0] == '0') || (|c.x| > 1 && c.x[0] == '0') || (|c.y| > 1 && c.y[0] == '0')
    ensures SwKey(c) != Key(t)
  {
    var d := TileCaptures(t);
    DecimalNumeral(t.z); DecimalNumeral(t.x); DecimalNumeral(t.y);
    SwKeyInjective(c, d);
  }

  /** After the download loop over a list without repeats, a request for any saved
      tile, on any host, is intercepted and looked up under a key that holds the body
      downloaded for it. */
  lemma PrefetchedTileIsServed(m: map<string, seq<byte>>, ts: seq<Tile>, net: Network, faults: WriteFaults,
                               i: nat, host: string)
    requires Distinct(ts) && i < |ts| && Saves(ts[i], net, faults)
    ensures RequestKey(TileUrlOn(host, ts[i])) == Some(Key(ts[i]))
    ensures Key(ts[i]) in StoreAfter(m, ts, net, faults)
    ensures StoreAfter(m, ts, net, faults)[Key(ts[i])] == net(Url(ts[i])).response.body
  {
    TileUrlRoundTrip(host, ts[i]);
    StoreAfterAt(m, ts, net, faults, i);
  }

  /** Offline use after a prefetch: a request for any saved tile of the view, on any host
      the tile layer uses, is answered from the store with the bytes the prefetcher
      downloaded when the worker's store read succeeds, even when the network is
      unreachable. A failed read rejects instead (`OnFetch`). */
  method OfflineAfterPrefetch(db: Store, sw: Corner, ne: Corner, zoom: nat, net: Network, faults: WriteFaults,
                              t: Tile, host: string)
    returns (served: Outcome, fetches: nat)
    requires var r := TileRange(sw, ne, zoom); InRect(t, zoom, r.minX, r.maxX, r.minY, r.maxY)
    requires Saves(t, net, faults)
    modifies db
    ensures served == Respond(CachedResponse(net(Url(t)).response.body))
    ensures fetches == 0
  {
    var tiles, report := PrefetchView(db, sw, ne, zoom, net, faults);
    AscendingDistinct(tiles);
    var i :| 0 <= i < |tiles| && tiles[i] == t;
    PrefetchedTileIsServed(old(db.tiles), tiles, net, faults, i, host);
    served, fetches := OnFetch(db, TileUrlOn(host, t), false, NetworkError, false);
  }

  /** The prefetcher saves the body of any response the request resolves with, error
      statuses included, and the worker serves whatever the store holds as an ok PNG: an
      error page downloaded for a tile is later answered as that tile, with status 200. */
  method ErrorPageServedAsTile(db: Store, t: Tile, net: Network, faults: WriteFaults, later: FetchResult)
    returns (o: Outcome)
    requires net(Url(t)).Fetched? && !net(Url(t)).response.ok && !faults(Key(t))
    modifies db
    ensures o == Respond(CachedResponse(net(Url(t)).response.body))
    ensures o.response.ok != net(Url(t)).response.ok
  {
    var downloaded, shown := Download(db, [t], net, faults);
    PrefetchedTileIsServed(old(db.tiles), [t], net, faults, 0, TileHost());
    var f;
    assert Url(t) == TileUrlOn(TileHost(), t);
    o, f := OnFetch(db, Url(t), false, later, false);
  }
}
