/**
 The in-process half of the device-list cache
 (backend/src/devices/devices-cache.service.ts).

 `getOrLoad`, `invalidateAll` and the clean-up of a load are asynchronous; what
 the program runs without interruption are the stretches between two awaits.
 Each stretch is a function of the process state here, and for all but the first
 look at the running queries a method of the service class is proved to perform
 exactly that function on its fields.
 `CacheProtocol` interleaves the stretches.
 */
module DevicesCache {
  import opened Outcomes

  type Key = string
  type LoadId = nat

  /** The list of one key, identified by the data versions its two queries saw: the rows and the total. */
  datatype Page = Page(key: Key, rows: nat, total: nat) {
    /** Both queries ran at version `version` or later. */
    predicate AtLeast(version: nat) {
      rows >= version && total >= version
    }
  }

  /** What a request does after its Redis read. */
  datatype Reply =
    | Hit(page: Page)        // answer from the cache
    | Join(load: LoadId)     // share the running query
    | Start                  // run the query itself

  /** `inFlight` holds the running query of each key, `generation` counts invalidations. */
  datatype Process = Process(inFlight: map<Key, LoadId>, generation: nat) {

    function Running(key: Key): Option<LoadId> {
      if key in inFlight then Some(inFlight[key]) else None
    }

    /** The stretch after the Redis read; `next` names the query started if there is none to share. */
    function Resume(key: Key, cached: Option<Page>, next: LoadId): (Reply, Process) {
      if cached.Some? then (Hit(cached.value), this)
      else if key in inFlight then (Join(inFlight[key]), this)
      else (Start, this.(inFlight := inFlight[key := next]))
    }

    /** May a query that began in generation `started` store its list? */
    predicate MayStore(started: nat) {
      started == generation
    }

    /** The clean-up after a query has settled: only its own entry goes. */
    function Settle(key: Key, load: LoadId): Process {
      if Running(key) == Some(load) then this.(inFlight := inFlight - {key}) else this
    }

    /** The first stretch of `invalidateAll`. */
    function Invalidate(): Process {
      Process(map[], generation + 1)
    }
  }

  class DevicesCacheService {
    var inFlight: map<Key, LoadId>
    var generation: nat

    ghost function View(): Process
      reads this
    {
      Process(inFlight, generation)
    }

    constructor ()
      ensures View() == Process(map[], 0)
    {
      inFlight := map[];
      generation := 0;
    }

    /** Stretch after the Redis read. A started query remembers the generation it began in. */
    method Resume(key: Key, cached: Option<Page>, next: LoadId) returns (reply: Reply, started: nat)
      modifies this
      ensures (reply, View()) == old(View()).Resume(key, cached, next)
      ensures started == generation == old(generation)
      ensures match reply
        case Hit(page) => cached == Some(page) && inFlight == old(inFlight)
        case Join(load) => cached == None && key in inFlight && inFlight[key] == load && inFlight == old(inFlight)
        case Start => cached == None && key !in old(inFlight) && inFlight == old(inFlight)[key := next]
    {
      started := generation;
      if cached.Some? {
        return Hit(cached.value), started;
      }
      if key in inFlight {
        return Join(inFlight[key]), started;
      }
      inFlight := inFlight[key := next];
      return Start, started;
    }

    /** Stretch after the query: its result is stored only if nothing was invalidated meanwhile. */
    method MayStore(started: nat) returns (store: bool)
      ensures store <==> View().MayStore(started)
      ensures store <==> generation == started
    {
      store := started == generation;
    }

    /** The `finally` of a query: never removes the entry of a newer query for the same key. */
    method Settle(key: Key, load: LoadId)
      modifies this
      ensures View() == old(View()).Settle(key, load)
      ensures View().Running(key) != Some(load)
      ensures forall k ::
        k in old(inFlight) && old(inFlight)[k] != load ==> k in inFlight && inFlight[k] == old(inFlight)[k]
      ensures generation == old(generation) && forall k <- inFlight :: k in old(inFlight)
    {
      if key in inFlight && inFlight[key] == load {
        inFlight := inFlight - {key};
      }
    }

    /** First stretch of `invalidateAll`: later requests no longer join the queries running now. */
    method Invalidate()
      modifies this
      ensures View() == old(View()).Invalidate()
      ensures generation > old(generation)
      ensures inFlight == map[] && forall k :: View().Running(k) == None
    {
      generation := generation + 1;
      inFlight := map[];
    }
  }
}
