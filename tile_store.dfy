/** The "tiles" object store of the IndexedDB database "leaflet-tiles-db" (version 1),
    which the page and the service worker open independently and share. Both files carry
    the same two helpers, getTileFromDB and saveTileToDB; they are modelled once here. */
module TileStore {
  import opened Http

  /** How a read settles: the request failed, or it succeeded with the stored blob or
      with nothing (IndexedDB's `undefined`). */
  datatype Lookup = ReadFailed | Missing | Found(blob: seq<byte>)

  class Store {
    /** One record per key, the value being the tile's bytes. */
    var tiles: map<string, seq<byte>>

    /** A store that has just been created by the upgrade handler. */
    constructor ()
      ensures tiles == map[]
    {
      tiles := map[];
    }

    /** getTileFromDB: an exact-key read in a read-only transaction. `fails` says
        whether the open or the request errs. */
    method Get(key: string, fails: bool) returns (r: Lookup)
      ensures fails ==> r == ReadFailed
      ensures !fails ==> (r.Found? <==> key in tiles) && (r.Found? ==> r.blob == tiles[key])
      ensures !fails ==> !r.ReadFailed?
    {
      if fails {
        r := ReadFailed;
      } else if key in tiles {
        r := Found(tiles[key]);
      } else {
        r := Missing;
      }
    }

    /** saveTileToDB: `put` in a read-write transaction, overwriting any earlier value
        for the key. `fails` says whether the transaction errs; an aborted transaction
        leaves the store as it was. The result says whether the returned promise
        resolves. */
    method Put(key: string, blob: seq<byte>, fails: bool) returns (ok: bool)
      modifies this
      ensures ok == !fails
      ensures tiles == if ok then old(tiles)[key := blob] else old(tiles)
    {
      ok := !fails;
      if ok {
        tiles := tiles[key := blob];
      }
    }
  }

  /** A successful put is read back byte for byte. */
  method PutThenGet(db: Store, key: string, blob: seq<byte>) returns (r: Lookup)
    modifies db
    ensures r == Found(blob)
    ensures db.tiles == old(db.tiles)[key := blob]
  {
    var ok := db.Put(key, blob, false);
    r := db.Get(key, false);
  }

  /** Putting the same record twice leaves the store as one put does, and no other key
      is touched. */
  method PutTwice(db: Store, key: string, blob: seq<byte>)
    modifies db
    ensures db.tiles == old(db.tiles)[key := blob]
    ensures forall k :: k != key ==> (k in db.tiles <==> k in old(db.tiles))
    ensures forall k :: k != key && k in db.tiles ==> db.tiles[k] == old(db.tiles)[k]
  {
    var ok := db.Put(key, blob, false);
    ok := db.Put(key, blob, false);
  }
}
