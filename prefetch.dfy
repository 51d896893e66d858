/** The page's "Download Tiles for Offline" handler (index.php): the tile range of the
    visible map at the current zoom, the list of tiles in it, and the loop that fetches
    each tile and saves its body in the tile store while advancing the progress bar. */
module Prefetch {
  import opened Http
  import opened TileKey
  import opened TileStore

  /** A corner of the view in tile indices, as latLngToTileXY computes it: floor
      values that may be negative or lie past the last tile of the zoom level. */
  datatype Corner = Corner(x: int, y: int)

  /** An index rectangle, inclusive at both ends. */
  datatype Bounds = Bounds(minX: int, maxX: int, minY: int, maxY: int)

  function Min(a: int, b: int): int { if a <= b then a else b }
  function Max(a: int, b: int): int { if a <= b then b else a }

  /** The corners put in order, coordinate by coordinate, whichever corner each
      coordinate came from. */
  function Normalize(sw: Corner, ne: Corner): (b: Bounds)
    ensures b.minX <= b.maxX && b.minY <= b.maxY
    ensures {b.minX, b.maxX} == {sw.x, ne.x} && {b.minY, b.maxY} == {sw.y, ne.y}
  {
    Bounds(Min(sw.x, ne.x), Max(sw.x, ne.x), Min(sw.y, ne.y), Max(sw.y, ne.y))
  }

  /** 2 to the power `z`: the number of tile columns (and rows) at zoom `z`. */
  function Pow2(z: nat): (n: nat)
    ensures n >= 1
  {
    if z == 0 then 1 else 2 * Pow2(z - 1)
  }

  /** An index forced into the valid range 0 .. Pow2(zoom) - 1 of the zoom level. */
  function Clamp(v: int, zoom: nat): (r: nat)
    ensures r <= Pow2(zoom) - 1
    ensures 0 <= v <= Pow2(zoom) - 1 ==> r == v
    ensures v < 0 ==> r == 0
    ensures v > Pow2(zoom) - 1 ==> r == Pow2(zoom) - 1
  {
    Max(0, Min(Pow2(zoom) - 1, v))
  }

  /** Clamping keeps the order of indices, so an ordered range stays ordered. */
  lemma ClampMonotone(a: int, b: int, zoom: nat)
    requires a <= b
    ensures Clamp(a, zoom) <= Clamp(b, zoom)
  {
  }

  /** Clamping twice is clamping once. */
  lemma ClampIdempotent(v: int, zoom: nat)
    ensures Clamp(Clamp(v, zoom), zoom) == Clamp(v, zoom)
  {
  }

  /** The rectangle of valid tile indices the handler walks: the ordered corners,
      each end clamped. */
  function TileRange(sw: Corner, ne: Corner, zoom: nat): (r: Bounds)
    ensures 0 <= r.minX <= r.maxX <= Pow2(zoom) - 1
    ensures 0 <= r.minY <= r.maxY <= Pow2(zoom) - 1
  {
    var b := Normalize(sw, ne);
    ClampMonotone(b.minX, b.maxX, zoom);
    ClampMonotone(b.minY, b.maxY, zoom);
    Bounds(Clamp(b.minX, zoom), Clamp(b.maxX, zoom), Clamp(b.minY, zoom), Clamp(b.maxY, zoom))
  }

  /** A visible corner inside the world keeps its index through the range
      computation: clamping only trims what lies off the map. */
  lemma TileRangeKeepsInnerCorners(sw: Corner, ne: Corner, zoom: nat)
    requires 0 <= sw.x < Pow2(zoom) && 0 <= ne.x < Pow2(zoom)
    requires 0 <= sw.y < Pow2(zoom) && 0 <= ne.y < Pow2(zoom)
    ensures TileRange(sw, ne, zoom) == Normalize(sw, ne)
  {
  }

  /** The number of integers from `lo` to `hi` inclusive. */
  function Span(lo: int, hi: int): nat {
    if lo <= hi then hi - lo + 1 else 0
  }

  /** Whether `t` is a tile of the rectangle at zoom `zoom`. */
  predicate InRect(t: Tile, zoom: nat, x0: int, x1: int, y0: int, y1: int) {
    t.z == zoom && x0 <= t.x <= x1 && y0 <= t.y <= y1
  }

  /** The order the nested loops produce: column by column, top to bottom within one. */
  predicate Before(a: Tile, b: Tile) {
    a.x < b.x || (a.x == b.x && a.y < b.y)
  }

  predicate Ascending(ts: seq<Tile>) {
    forall i, j :: 0 <= i < j < |ts| ==> Before(ts[i], ts[j])
  }

  predicate Distinct(ts: seq<Tile>) {
    forall i, j :: 0 <= i < j < |ts| ==> ts[i] != ts[j]
  }

  /** A list in loop order names no tile twice. */
  lemma AscendingDistinct(ts: seq<Tile>)
    requires Ascending(ts)
    ensures Distinct(ts)
  {
    forall i, j | 0 <= i < j < |ts| ensures ts[i] != ts[j] {
      assert Before(ts[i], ts[j]);
    }
  }

  /** The nested loops over the columns x0..x1 and, within each, the rows y0..y1:
      every tile of the rectangle exactly once, in loop order. */
  method EnumerateTiles(zoom: nat, x0: nat, x1: nat, y0: nat, y1: nat) returns (tiles: seq<Tile>)
    ensures |tiles| == Span(x0, x1) * Span(y0, y1)
    ensures forall t :: t in tiles <==> InRect(t, zoom, x0, x1, y0, y1)
    ensures Ascending(tiles)
  {
    tiles := [];
    var x := x0;
    while x <= x1
      invariant x0 <= x && (x <= x1 + 1 || x == x0)
      invariant |tiles| == (x - x0) * Span(y0, y1)
      invariant forall t :: t in tiles <==> InRect(t, zoom, x0, x - 1, y0, y1)
      invariant Ascending(tiles)
      invariant forall i :: 0 <= i < |tiles| ==> tiles[i].x < x
    {
      var y := y0;
      while y <= y1
        invariant y0 <= y && (y <= y1 + 1 || y == y0)
        invariant |tiles| == (x - x0) * Span(y0, y1) + (y - y0)
        invariant forall t :: t in tiles <==>
          InRect(t, zoom, x0, x - 1, y0, y1) || InRect(t, zoom, x, x, y0, y - 1)
        invariant Ascending(tiles)
        invariant forall i :: 0 <= i < |tiles| ==> Before(tiles[i], Tile(zoom, x, y))
      {
        tiles := tiles + [Tile(zoom, x, y)];
        y := y + 1;
      }
      assert (x - x0) * Span(y0, y1) + Span(y0, y1) == (x + 1 - x0) * Span(y0, y1);
      x := x + 1;
    }
  }

  /** The tiles the handler plans to download for a view with corners `sw` and `ne`
      at zoom `zoom`: every valid tile between the corners, in loop order. */
  method PlanTiles(sw: Corner, ne: Corner, zoom: nat) returns (tiles: seq<Tile>)
    ensures var r := TileRange(sw, ne, zoom);
      |tiles| == Span(r.minX, r.maxX) * Span(r.minY, r.maxY)
    ensures forall t :: t in tiles <==>
      var r := TileRange(sw, ne, zoom); InRect(t, zoom, r.minX, r.maxX, r.minY, r.maxY)
    ensures forall t :: t in tiles ==> t.z == zoom && t.x < Pow2(zoom) && t.y < Pow2(zoom)
    ensures Ascending(tiles)
    ensures |tiles| >= 1
  {
    var r := TileRange(sw, ne, zoom);
    tiles := EnumerateTiles(zoom, r.minX, r.maxX, r.minY, r.maxY);
    SpanProductPositive(r.minX, r.maxX, r.minY, r.maxY);
  }

  lemma SpanProductPositive(x0: int, x1: int, y0: int, y1: int)
    requires x0 <= x1 && y0 <= y1
    ensures Span(x0, x1) * Span(y0, y1) >= 1
  {
  }

  /** What `fetch` settles to for each URL the page requests. */
  type Network = string -> FetchResult

  /** Which store writes fail (quota exceeded, aborted transaction), by key. */
  type WriteFaults = string -> bool

  /** Whether the download step for `t` ends in a saved tile: the request resolves,
      whatever its status, and the write succeeds. */
  predicate Saves(t: Tile, net: Network, faults: WriteFaults) {
    net(Url(t)).Fetched? && !faults(Key(t))
  }

  /** The store after the download steps for `ts`, in order, starting from `m`: each
      saved tile's body is written under its key, overwriting what was there. */
  function StoreAfter(m: map<string, seq<byte>>, ts: seq<Tile>, net: Network, faults: WriteFaults): map<string, seq<byte>>
  {
    if ts == [] then m
    else
      var before := StoreAfter(m, ts[..|ts| - 1], net, faults);
      var t := ts[|ts| - 1];
      if Saves(t, net, faults) then before[Key(t) := net(Url(t)).response.body] else before
  }

  /** How many of the download steps for `ts` save their tile. */
  function SavedCount(ts: seq<Tile>, net: Network, faults: WriteFaults): nat {
    if ts == [] then 0
    else SavedCount(ts[..|ts| - 1], net, faults) + (if Saves(ts[|ts| - 1], net, faults) then 1 else 0)
  }

  /** One more download step on top of a list. */
  lemma StoreAfterStep(m: map<string, seq<byte>>, ts: seq<Tile>, t: Tile, net: Network, faults: WriteFaults)
    ensures StoreAfter(m, ts + [t], net, faults)
         == if Saves(t, net, faults) then StoreAfter(m, ts, net, faults)[Key(t) := net(Url(t)).response.body]
            else StoreAfter(m, ts, net, faults)
    ensures SavedCount(ts + [t], net, faults)
         == SavedCount(ts, net, faults) + if Saves(t, net, faults) then 1 else 0
  {
    assert (ts + [t])[..|ts|] == ts;
  }

  /** The download step for the tile at index `i` on top of the steps before it. */
  lemma PrefixStep(m: map<string, seq<byte>>, ts: seq<Tile>, i: nat, net: Network, faults: WriteFaults)
    requires i < |ts|
    ensures StoreAfter(m, ts[..i + 1], net, faults)
         == if Saves(ts[i], net, faults) then StoreAfter(m, ts[..i], net, faults)[Key(ts[i]) := net(Url(ts[i])).response.body]
            else StoreAfter(m, ts[..i], net, faults)
    ensures SavedCount(ts[..i + 1], net, faults)
         == SavedCount(ts[..i], net, faults) + if Saves(ts[i], net, faults) then 1 else 0
  {
    assert ts[..i + 1] == ts[..i] + [ts[i]];
    StoreAfterStep(m, ts[..i], ts[i], net, faults);
  }

  /** The reported count never exceeds the number of tiles. */
  lemma {:induction false} SavedCountBound(ts: seq<Tile>, net: Network, faults: WriteFaults)
    ensures SavedCount(ts, net, faults) <= |ts|
  {
    if ts != [] {
      SavedCountBound(ts[..|ts| - 1], net, faults);
    }
  }

  /** When the reported count reaches the number of tiles, every tile was saved. */
  lemma {:induction false} SavedCountFull(ts: seq<Tile>, net: Network, faults: WriteFaults, i: nat)
    requires SavedCount(ts, net, faults) == |ts| && i < |ts|
    ensures Saves(ts[i], net, faults)
  {
    var n := |ts| - 1;
    var pre := ts[..n];
    SavedCountBound(pre, net, faults);
    if i < n {
      SavedCountFull(pre, net, faults, i);
      assert pre[i] == ts[i];
    }
  }

  /** When every tile is saved, the reported count is the number of tiles. */
  lemma {:induction false} AllSavedCount(ts: seq<Tile>, net: Network, faults: WriteFaults)
    requires forall i :: 0 <= i < |ts| ==> Saves(ts[i], net, faults)
    ensures SavedCount(ts, net, faults) == |ts|
  {
    if ts != [] {
      var pre := ts[..|ts| - 1];
      assert forall i :: 0 <= i < |pre| ==> pre[i] == ts[i];
      AllSavedCount(pre, net, faults);
    }
  }

  /** A key no tile of `ts` maps to keeps its entry, or its absence. */
  lemma {:induction false} StoreAfterOutside(m: map<string, seq<byte>>, ts: seq<Tile>, net: Network, faults: WriteFaults, k: string)
    requires forall i :: 0 <= i < |ts| ==> Key(ts[i]) != k
    ensures k in StoreAfter(m, ts, net, faults) <==> k in m
    ensures k in m ==> StoreAfter(m, ts, net, faults)[k] == m[k]
  {
    if ts != [] {
      var pre := ts[..|ts| - 1];
      assert forall i :: 0 <= i < |pre| ==> pre[i] == ts[i];
      StoreAfterOutside(m, pre, net, faults, k);
    }
  }

  /** After the loop over a list without repeats, the key of each tile holds the body
      downloaded for it when its step saved it, and what it held before otherwise. */
  lemma {:induction false} StoreAfterAt(m: map<string, seq<byte>>, ts: seq<Tile>, net: Network, faults: WriteFaults, i: nat)
    requires Distinct(ts) && i < |ts|
    ensures var k, after := Key(ts[i]), StoreAfter(m, ts, net, faults);
      if Saves(ts[i], net, faults)
      then k in after && after[k] == net(Url(ts[i])).response.body
      else (k in after <==> k in m) && (k in m ==> after[k] == m[k])
  {
    var n := |ts| - 1;
    var pre, last := ts[..n], ts[n];
    assert ts == pre + [last];
    StoreAfterStep(m, pre, last, net, faults);
    if i == n {
      forall j | 0 <= j < |pre| ensures Key(pre[j]) != Key(last) {
        assert pre[j] == ts[j];
        KeyInjective(pre[j], last);
      }
      StoreAfterOutside(m, pre, net, faults, Key(last));
    } else {
      assert pre[i] == ts[i];
      assert Distinct(pre) by {
        forall j, k | 0 <= j < k < |pre| ensures pre[j] != pre[k] {
          assert pre[j] == ts[j] && pre[k] == ts[k];
        }
      }
      KeyInjective(ts[i], last);
      StoreAfterAt(m, pre, net, faults, i);
    }
  }

  /** The step counts the progress display goes through over `n` steps: 0 before the
      first, then one more after each. */
  function Progress(n: nat): (r: seq<nat>)
    ensures |r| == n + 1
    ensures forall j :: 0 <= j <= n ==> r[j] == j
  {
    if n == 0 then [0] else Progress(n - 1) + [n]
  }

  /** One step of the download loop: request the tile's URL and, when the request
      resolves, save the body under the tile's key. The result says whether the step
      ends in a saved tile; any failure on the way is swallowed. */
  method DownloadTile(db: Store, t: Tile, net: Network, faults: WriteFaults) returns (saved: bool)
    modifies db
    ensures saved == Saves(t, net, faults)
    ensures db.tiles == if saved then old(db.tiles)[Key(t) := net(Url(t)).response.body] else old(db.tiles)
  {
    var url := TemplateUrl(t);
    var key := Key(t);
    UrlShape(t);
    var fetched := net(url);
    saved := false;
    if fetched.Fetched? {
      saved := db.Put(key, fetched.response.body, faults(key));
    }
  }

  /** The download loop: for each tile in order, request its URL and, when the request
      resolves, save the body under the tile's key, counting the saves that succeed;
      after each step the progress display shows how many steps are done. `shown`
      lists the step counts the display goes through, from the initial 0. */
  method Download(db: Store, tiles: seq<Tile>, net: Network, faults: WriteFaults)
    returns (downloaded: nat, shown: seq<nat>)
    modifies db
    ensures db.tiles == StoreAfter(old(db.tiles), tiles, net, faults)
    ensures downloaded == SavedCount(tiles, net, faults)
    ensures shown == Progress(|tiles|)
  {
    ghost var m0 := db.tiles;
    downloaded := 0;
    shown := [0];
    var i := 0;
    while i < |tiles|
      invariant 0 <= i <= |tiles|
      invariant db.tiles == StoreAfter(m0, tiles[..i], net, faults)
      invariant downloaded == SavedCount(tiles[..i], net, faults)
      invariant shown == Progress(i)
    {
      var t := tiles[i];
      var saved := DownloadTile(db, t, net, faults);
      if saved {
        downloaded := downloaded + 1;
      }
      shown := shown + [i + 1];
      PrefixStep(m0, tiles, i, net, faults);
      i := i + 1;
    }
    assert tiles[..|tiles|] == tiles;
  }

  /** What the handler reports: the number of tiles, the final "Downloaded N tiles"
      count, and the step counts the progress display went through. */
  datatype Report = Report(total: nat, downloaded: nat, shown: seq<nat>)

  /** The button handler: plan the tiles of the view, then download them all. The
      source's "No tiles to download!" branch cannot be taken for integer corners,
      since the clamped range always holds at least one tile. */
  method PrefetchView(db: Store, sw: Corner, ne: Corner, zoom: nat, net: Network, faults: WriteFaults)
    returns (tiles: seq<Tile>, report: Report)
    modifies db
    ensures forall t :: t in tiles <==>
      var r := TileRange(sw, ne, zoom); InRect(t, zoom, r.minX, r.maxX, r.minY, r.maxY)
    ensures Ascending(tiles)
    ensures report.total == |tiles| >= 1
    ensures report.downloaded == SavedCount(tiles, net, faults) <= |tiles|
    ensures report.shown == Progress(|tiles|)
    ensures db.tiles == StoreAfter(old(db.tiles), tiles, net, faults)
  {
    tiles := PlanTiles(sw, ne, zoom);
    if |tiles| == 0 {
      assert false;
    }
    var downloaded, shown := Download(db, tiles, net, faults);
    SavedCountBound(tiles, net, faults);
    report := Report(|tiles|, downloaded, shown);
  }
}
