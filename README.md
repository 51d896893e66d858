# OfflineMap tile cache — a Dafny model

OfflineMap is a Leaflet map page (`index.php`) with a service worker (`sw.js`).
It keeps OpenStreetMap raster tiles in an IndexedDB object store, so the map still
works offline. This project models the three parts that decide which tiles are kept
and when they are served:

- **The prefetcher.** This is the page's "Download Tiles for Offline" handler. It takes
  the two corners of the visible map in tile indices and puts them in order. It clamps
  each end to the valid range `0 .. 2^zoom - 1` and lists the tiles of that rectangle
  with two nested loops. Then it downloads them one at a time from
  `https://a.tile.openstreetmap.org/z/x/y.png`. Each body is saved under the key
  `"z/x/y"`, and the progress display advances after every step.
- **The interception policy.** This is the worker's `fetch` handler. A request whose URL
  ends in `/digits/digits/digits.png` is looked up in the store under the key made from
  those three digit groups. On a hit the stored bytes are answered as `image/png`. On a
  miss the request goes to the network, and an ok response is also written to the store.
- **The tile store.** This is the object store `tiles` of database `leaflet-tiles-db`.
  Both files carry the same two helpers for it, so it is modelled once: a class whose
  `map<string, seq<byte>>` field the `Put` method overwrites per key.

The modules follow the program:

| module | file | contents |
|---|---|---|
| `Digits` | `digits.dfy` | digit runs, and how three of them joined by `/` split back apart |
| `TileKey` | `tile_key.dfy` | the page's key `z/x/y`, number formatting, the URL template and its `replace` chain |
| `TileUrl` | `tile_url.dfy` | the worker's pattern `/(\d+)/(\d+)/(\d+)\.png$` and the key it builds from the groups |
| `Http` | `http.dfy` | bytes, responses and how a `fetch` settles |
| `TileStore` | `tile_store.dfy` | the `Store` class with `Get` and `Put` |
| `Prefetch` | `prefetch.dfy` | normalisation, clamping, the tile enumeration loop and the download loop |
| `ServiceWorker` | `service_worker.dfy` | the fetch handler |
| `OfflineTiles` | `offline_tiles.dfy` | how the two files meet through the store: the URL round trip and offline serving after a prefetch |

These become parameters:

- **The network.** The page sees it as a function from URL to what `fetch` settles to.
  The worker gets that result for its single request as an argument.
- **Store faults.** A flag per read and per write (a function from key to flag in the
  download loop).

The worker tests `if (blob)` on what the store read returns. Every stored value is a
`Blob`, which is truthy, so the model takes a hit to mean that the key is present.

Behaviour of the code worth knowing:

- **Error responses are saved as tiles.** The prefetcher saves the body of every request
  that resolves, whatever the status, and counts it as downloaded (`index.php:163-164`).
  Only the worker checks `resp.ok`. `OfflineTiles.ErrorPageServedAsTile` shows the
  effect: a 404 page downloaded for a tile is later answered as that tile with an ok
  status.
- **Store read failures are not caught.** When the worker's store read fails, nothing
  catches the error, so the promise passed to `respondWith` rejects (`sw.js:45-61`). The
  request does not fall back to the network.
- **The "No tiles to download!" branch cannot be taken.** Clamping keeps the order of the
  corners, so the range never collapses (`index.php:150-153`). `Prefetch.PrefetchView`
  asserts that the branch is unreachable, and proves it.
- **Zero-padded groups miss.** The worker keeps the digit groups as written. A URL such
  as `/05/10/12.png` gives a key that no prefetched tile has
  (`OfflineTiles.PaddedGroupMissesPrefetchKey`).

## Model

| member | source | states |
|---|---|---|
| TileKey.DecimalNumeral | index.php:160 | the text of a tile number is a nonempty run of digits without a leading zero, and is "0" exactly for 0 |
| TileKey.DecimalValue | index.php:160 | reading the digits back gives the number: formatting loses nothing |
| TileKey.DecimalInjective | index.php:160 | different numbers never format to the same text |
| TileKey.KeyInjective | index.php:160 | two tiles have the same key `z/x/y` exactly when they are the same tile |
| TileKey.ReplaceFirstOccurrence | index.php:159 | `replace` with a string pattern rewrites the first occurrence only, and leaves the text before and after it as it was |
| TileKey.ReplaceFirstNoOccurrence | index.php:159 | `replace` leaves a text without an occurrence of the pattern unchanged |
| TileKey.ReplaceFirstAfter | index.php:159 | when the text before an occurrence does not contain the pattern's first character, as before each `{…}` placeholder of the template, that occurrence is the one replaced and the rest is kept |
| TileKey.UrlShape | index.php:159 | the four replacements on the template give `https://a.tile.openstreetmap.org/`, then the tile's key, then `.png` (the chain `TemplateUrl` equals `Url`) |
| TileUrl.SplitSegment | sw.js:41 | one `/(\d+)` step from the right: when it succeeds, the string is the rest, a slash and a nonempty digit run |
| TileUrl.SplitSegmentOf | sw.js:41 | a slash followed by digits at the end of a string is always split off whole |
| TileUrl.ParseTileUrl | sw.js:41 | a match gives three digit groups such that the URL ends in `/z/x/y.png` with exactly those groups |
| TileUrl.ParseSuffix | sw.js:40-41 | every URL ending in `/digits/digits/digits.png` is intercepted, with exactly those groups; together with ParseTileUrl's contract the recogniser matches the pattern and nothing else |
| Digits.JoinInjective | sw.js:43 | three runs joined by '/', the first two of them digits, determine the runs |
| TileUrl.SwKeyInjective | sw.js:43 | two matches have the same key exactly when their groups are equal |
| OfflineTiles.TileCaptures | sw.js:41-43 | the digit groups the page writes for a tile are valid groups, and the worker's key from them is the page's key for the tile |
| OfflineTiles.TileUrlRoundTrip | sw.js:40-43 | a tile's URL on any host (`a`, `b` or `c` of the layer's `{s}` template, index.php:108) is intercepted, gives back the page's decimal numbers, and yields the key the page stores the tile under |
| OfflineTiles.PrefetchUrlRoundTrip | sw.js:41-43 | the worker intercepts every URL the prefetcher requests, and derives from it the very key the prefetcher stored the tile under |
| OfflineTiles.PaddedGroupMissesPrefetchKey | sw.js:43 | a group with a leading zero gives a key no prefetched tile is stored under |
| TileStore.Store.constructor | index.php:74-79 | a newly created object store is empty |
| TileStore.Store.Get | index.php:95-104 | a failed read reports the failure; otherwise the read finds a value exactly when the key is present, and that value is the stored one |
| TileStore.Store.Put | index.php:85-94 | a successful write sets the key to the blob and changes nothing else; a failed write changes nothing; the result says which happened |
| TileStore.PutThenGet | sw.js:17-36 | a blob written is read back unchanged |
| TileStore.PutTwice | sw.js:27-36 | writing the same record twice is the same as writing it once, and other keys keep their values |
| Prefetch.Normalize | index.php:136-139 | each coordinate's minimum is at most its maximum, and the two are the two corners' values |
| Prefetch.Pow2 | index.php:141 | every zoom level has at least one tile column and row |
| Prefetch.Clamp | index.php:142 | the result is a valid index; an index already valid is kept; below the range gives 0, above it the last index |
| Prefetch.ClampMonotone | index.php:144-145 | clamping keeps the order of indices |
| Prefetch.ClampIdempotent | index.php:142 | clamping a clamped index changes nothing |
| Prefetch.TileRange | index.php:136-144 | the clamped range is ordered and lies within the valid indices of the zoom level |
| Prefetch.TileRangeKeepsInnerCorners | index.php:142 | corners inside the world keep their indices, so clamping only trims what lies off the map |
| Prefetch.AscendingDistinct | index.php:144-147 | the loop order names no tile twice |
| Prefetch.EnumerateTiles | index.php:143-148 | the list holds every tile of the rectangle and nothing else, at the current zoom, strictly in column-then-row order, and has columns × rows entries |
| Prefetch.PlanTiles | index.php:136-148 | the planned list covers the clamped view exactly, in loop order, and is never empty |
| Prefetch.SpanProductPositive | index.php:150-153 | an ordered range holds at least one tile, so the empty-list branch is never taken |
| Prefetch.SavedCountBound | index.php:164 | the final count is at most the number of tiles |
| Prefetch.SavedCountFull | index.php:164 | when the final count equals the number of tiles, every tile was saved |
| Prefetch.AllSavedCount | index.php:164 | when every tile is saved, the final count equals the number of tiles |
| Prefetch.StoreAfterOutside | index.php:163 | keys of tiles outside the list keep their entries, or their absence |
| Prefetch.StoreAfterAt | index.php:158-168 | after the loop, each listed tile's key holds the downloaded body when the fetch resolved and the write succeeded, and keeps what it held before otherwise |
| Prefetch.DownloadTile | index.php:159-168 | one step: it reports a save exactly when the fetch resolves and the write succeeds, and the store then holds the body under the tile's key; otherwise the store is unchanged |
| Prefetch.Progress | index.php:157-170 | the progress display shows 0, then 1, 2, … up to the number of steps |
| Prefetch.Download | index.php:154-171 | the store ends as the in-order sequence of saves leaves it; the count is the number of saves that succeeded; the progress display shows 0, 1, … up to the number of tiles |
| Prefetch.PrefetchView | index.php:143-173 | the whole handler: the tiles of the clamped view in loop order, a report of their number, the saved count and the progress steps, and the store after the downloads |
| ServiceWorker.RequestKey | sw.js:40-43 | a key exists exactly for the intercepted URLs, and it is made of the groups of the URL's `/z/x/y.png` ending |
| ServiceWorker.OnFetch | sw.js:37-65 | the fetch handler: other URLs pass through; a failed read rejects; a hit answers the stored bytes without a network request; a miss makes one request, passes its response or failure on unchanged, and stores the body only of an ok response whose write succeeds |
| ServiceWorker.MissThenHit | sw.js:45-59 | after a miss answered ok whose background write succeeds, the next request for the URL, its store read succeeding, is served from the store with the same bytes, whatever the network does then |
| ServiceWorker.FailedWriteMissesAgain | sw.js:45-58 | after a miss answered ok whose background write fails, the next request misses again and goes to the network, so it rejects when the network is down |
| OfflineTiles.PrefetchedTileIsServed | sw.js:41-46 | a request for each saved prefetched tile, on any host, is intercepted and looked up under a key that holds the downloaded body |
| OfflineTiles.OfflineAfterPrefetch | sw.js:45-48 | after a prefetch, every saved tile of the view, requested on any host the tile layer uses, is served from the store with the downloaded bytes when the store read succeeds, while the network is unreachable, with no network request |
| OfflineTiles.ErrorPageServedAsTile | index.php:163 | a non-ok response downloaded by the prefetcher is later answered by the worker as an ok image/png |

## Left out

- `latLngToTileXY` (`index.php:125-130`) uses floating-point logarithms and trigonometry.
  The model starts from the integer corners it returns. Non-finite corners (NaN), the one
  way the empty-list branch could be reached, are not modelled.
- Zoom is a natural number. Leaflet's fractional zoom levels (`zoomSnap` other than 1)
  are not modelled.
- `openDB` and the upgrade handler are reduced to the store that exists after the
  upgrade. Opening errors count as a failed read or write. IndexedDB transactions,
  versioning and the sharing of one database by two contexts are not modelled.
- Promises, `await` and concurrency are not modelled. Each fetch event is handled as
  one atomic step. The worker's background write happens before the next event, which
  is what the write would do if it completed first. Interleaved prefetch and
  interception, and writes that never complete, are not modelled.
- The page's own `fetch` goes through the worker when the worker controls the page. The
  model takes what that fetch settles to as given by the network parameter and does
  not compose the two.
- `Response.blob()` is taken never to fail, and responses carry only their ok flag,
  content type and bytes. Status codes, other headers and streaming are not modelled.
- Logging, `alert`, the progress bar's width in percent, and showing or hiding the
  progress container are not modelled. The progress text is modelled as the sequence of
  step counts; the total it shows is the fixed number of tiles.
- Numbers are unbounded integers. JavaScript numbers are doubles, so `Pow2` is exact only
  below 2^53 and `Decimal` matches `String(n)` only below 10^21, where exponent notation
  starts. Neither limit is reached: the tile layer caps zoom at 19 (`index.php:111`), so
  indices stay below 2^19.
- The check at `sw.js:40` and the match at `sw.js:41` use the same pattern, the first
  without groups. They are modelled as one recogniser.
- Service worker registration, the Leaflet map set-up and tile layer, and the PHP/HTML
  page shell are not part of this model.
