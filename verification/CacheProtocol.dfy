/**
 The device-list cache under interleaving
 (backend/src/devices/devices-cache.service.ts).

 One event is one uninterrupted stretch of the process, one Redis command, one
 database query, one data change or one expiry. Redis commands run in the order
 they were sent, because the process sends them all over one connection
 (backend/src/redis/redis.service.ts); replies may be picked up in any order.

 A data version is the number of data changes so far. `Load.since`,
 `Request.after` and `Writer.version` are bookkeeping for stating the theorems:
 no event looks at them to decide what to do.
 */
module CacheProtocol {
  import opened Outcomes
  import opened DevicesCache

  type RequestId = nat
  type WriterId = nat

  datatype LoadPhase =
    | Reading(rows: Option<nat>, total: Option<nat>) // the two queries of the list
    | Storing(page: Page)                            // SET + SADD sent
    | Stored(page: Page)                             // SET + SADD executed
    | Resolved(result: Option<Page>)                 // before the clean-up; None if a query failed
    | Closed(result: Option<Page>)

  datatype Load = Load(key: Key, generation: nat, since: nat, phase: LoadPhase)

  datatype RequestPhase =
    | Fetching                      // GET sent
    | Fetched(cached: Option<Page>) // GET executed
    | Waiting(load: LoadId)
    | Answered(page: Page)
    | Failed

  /** `after` are the data changes whose invalidation had finished when the request arrived. */
  datatype Request = Request(key: Key, after: set<WriterId>, phase: RequestPhase)

  datatype WriterPhase =
    | Wrote                   // data changed, invalidateAll not yet called
    | Listing                 // SMEMBERS sent
    | Listed(keys: set<Key>)
    | Deleting(keys: set<Key>) // DEL sent
    | Deleted
    | Finished

  datatype Writer = Writer(version: nat, phase: WriterPhase)

  datatype Command =
    | Get(request: RequestId)
    | SetAdd(load: LoadId)
    | Members(writer: WriterId)
    | Del(writer: WriterId)

  datatype System = System(
    process: Process,
    version: nat,
    cache: map<Key, Page>,
    index: set<Key>,
    sent: seq<Command>,
    loads: seq<Load>,
    requests: seq<Request>,
    writers: seq<Writer>)

  datatype Event =
    | Arrive(key: Key)
    | Resume(request: RequestId)
    | Deliver(request: RequestId)
    | ReadRows(load: LoadId)
    | ReadTotal(load: LoadId)
    | ReadFails(load: LoadId)
    | Loaded(load: LoadId)
    | AfterStore(load: LoadId)
    | Close(load: LoadId)
    | Write
    | Invalidate(writer: WriterId)
    | SendDel(writer: WriterId)
    | Finish(writer: WriterId)
    | Redis
    | Expire(key: Key)

  const INITIAL := System(Process(map[], 0), 0, map[], {}, [], [], [], [])

  // ------------------------------------------------------------------- events

  function WithLoad(s: System, l: LoadId, phase: LoadPhase): System
    requires l < |s.loads|
  {
    s.(loads := s.loads[l := s.loads[l].(phase := phase)])
  }

  function WithRequest(s: System, r: RequestId, phase: RequestPhase): System
    requires r < |s.requests|
  {
    s.(requests := s.requests[r := s.requests[r].(phase := phase)])
  }

  function WithWriter(s: System, w: WriterId, phase: WriterPhase): System
    requires w < |s.writers|
  {
    s.(writers := s.writers[w := s.writers[w].(phase := phase)])
  }

  function Send(s: System, command: Command): System {
    s.(sent := s.sent + [command])
  }

  function FinishedWriters(s: System): set<WriterId> {
    set w: WriterId | w < |s.writers| && s.writers[w].phase == Finished
  }

  function ApplyArrive(s: System, key: Key): System {
    var id := |s.requests|;
    match s.process.Running(key)
    case Some(l) => s.(requests := s.requests + [Request(key, FinishedWriters(s), Waiting(l))])
    case None => Send(s.(requests := s.requests + [Request(key, FinishedWriters(s), Fetching)]), Get(id))
  }

  function ApplyResume(s: System, r: RequestId): System
    requires r < |s.requests| && s.requests[r].phase.Fetched?
  {
    var key, next := s.requests[r].key, |s.loads|;
    var (reply, process) := s.process.Resume(key, s.requests[r].phase.cached, next);
    match reply
    case Hit(page) => WithRequest(s, r, Answered(page))
    case Join(l) => WithRequest(s, r, Waiting(l))
    case Start =>
      WithRequest(s, r, Waiting(next)).(
        process := process,
        loads := s.loads + [Load(key, s.process.generation, s.version, Reading(None, None))])
  }

  function ApplyDeliver(s: System, r: RequestId, result: Option<Page>): System
    requires r < |s.requests|
  {
    WithRequest(s, r, if result.Some? then Answered(result.value) else Failed)
  }

  function ApplyLoaded(s: System, l: LoadId): System
    requires l < |s.loads| && s.loads[l].phase.Reading?
    requires s.loads[l].phase.rows.Some? && s.loads[l].phase.total.Some?
  {
    var page := Page(s.loads[l].key, s.loads[l].phase.rows.value, s.loads[l].phase.total.value);
    if s.process.MayStore(s.loads[l].generation) then
      Send(WithLoad(s, l, Storing(page)), SetAdd(l))
    else
      WithLoad(s, l, Resolved(Some(page)))
  }

  function ApplyClose(s: System, l: LoadId): System
    requires l < |s.loads| && s.loads[l].phase.Resolved?
  {
    WithLoad(s, l, Closed(s.loads[l].phase.result)).(process := s.process.Settle(s.loads[l].key, l))
  }

  function ApplyWrite(s: System): System {
    s.(version := s.version + 1, writers := s.writers + [Writer(s.version + 1, Wrote)])
  }

  function ApplyInvalidate(s: System, w: WriterId): System
    requires w < |s.writers|
  {
    Send(WithWriter(s, w, Listing), Members(w)).(process := s.process.Invalidate())
  }

  function ApplySendDel(s: System, w: WriterId): System
    requires w < |s.writers| && s.writers[w].phase.Listed?
  {
    Send(WithWriter(s, w, Deleting(s.writers[w].phase.keys)), Del(w))
  }

  /** Redis executes one command; None if the command is not one the process can have sent. */
  function ApplyRedis(s: System, command: Command): Option<System> {
    match command
    case Get(r) =>
      if r < |s.requests| && s.requests[r].phase.Fetching? then
        var key := s.requests[r].key;
        Some(WithRequest(s, r, Fetched(if key in s.cache then Some(s.cache[key]) else None)))
      else None
    case SetAdd(l) =>
      if l < |s.loads| && s.loads[l].phase.Storing? then
        var key, page := s.loads[l].key, s.loads[l].phase.page;
        Some(WithLoad(s, l, Stored(page)).(cache := s.cache[key := page], index := s.index + {key}))
      else None
    case Members(w) =>
      if w < |s.writers| && s.writers[w].phase.Listing? then
        Some(WithWriter(s, w, Listed(s.index)))
      else None
    case Del(w) =>
      if w < |s.writers| && s.writers[w].phase.Deleting? then
        Some(WithWriter(s, w, Deleted).(cache := s.cache - s.writers[w].phase.keys, index := {}))
      else None
  }

  /** The state after an event, or None if the event cannot happen now. */
  function Apply(s: System, e: Event): Option<System> {
    match e
    case Arrive(key) => Some(ApplyArrive(s, key))
    case Resume(r) =>
      if r < |s.requests| && s.requests[r].phase.Fetched? then Some(ApplyResume(s, r)) else None
    case Deliver(r) =>
      if r < |s.requests| && s.requests[r].phase.Waiting? then
        var l := s.requests[r].phase.load;
        if l < |s.loads| && s.loads[l].phase.Closed? then Some(ApplyDeliver(s, r, s.loads[l].phase.result)) else None
      else None
    case ReadRows(l) =>
      if l < |s.loads| && s.loads[l].phase.Reading? && s.loads[l].phase.rows.None? then
        Some(WithLoad(s, l, s.loads[l].phase.(rows := Some(s.version))))
      else None
    case ReadTotal(l) =>
      if l < |s.loads| && s.loads[l].phase.Reading? && s.loads[l].phase.total.None? then
        Some(WithLoad(s, l, s.loads[l].phase.(total := Some(s.version))))
      else None
    case ReadFails(l) =>
      if l < |s.loads| && s.loads[l].phase.Reading? then Some(WithLoad(s, l, Resolved(None))) else None
    case Loaded(l) =>
      if l < |s.loads| && s.loads[l].phase.Reading? && s.loads[l].phase.rows.Some? && s.loads[l].phase.total.Some?
      then Some(ApplyLoaded(s, l)) else None
    case AfterStore(l) =>
      if l < |s.loads| && s.loads[l].phase.Stored? then
        Some(WithLoad(s, l, Resolved(Some(s.loads[l].phase.page))))
      else None
    case Close(l) =>
      if l < |s.loads| && s.loads[l].phase.Resolved? then Some(ApplyClose(s, l)) else None
    case Write => Some(ApplyWrite(s))
    case Invalidate(w) =>
      if w < |s.writers| && s.writers[w].phase.Wrote? then Some(ApplyInvalidate(s, w)) else None
    case SendDel(w) =>
      if w < |s.writers| && s.writers[w].phase.Listed? then Some(ApplySendDel(s, w)) else None
    case Finish(w) =>
      if w < |s.writers| && s.writers[w].phase.Deleted? then Some(WithWriter(s, w, Finished)) else None
    case Redis =>
      if s.sent == [] then None else ApplyRedis(s.(sent := s.sent[1..]), s.sent[0])
    case Expire(key) => Some(s.(cache := s.cache - {key}))
  }

  /** The state after a whole run, or None if some event of it cannot happen. */
  function Run(s: System, events: seq<Event>): Option<System>
    decreases |events|
  {
    if events == [] then Some(s)
    else match Apply(s, events[0])
         case None => None
         case Some(next) => Run(next, events[1..])
  }

  /**
   The window of `invalidateAll`: its DEL removes what its SMEMBERS listed. The
   listing covers the cache if every live entry is in the index, or was read
   after the change that is being invalidated.
   */
  predicate Covers(s: System, w: WriterId)
    requires w < |s.writers|
  {
    forall k <- s.cache :: k in s.index || s.cache[k].AtLeast(s.writers[w].version)
  }

  predicate CoveredEvent(s: System, e: Event) {
    e == Redis && s.sent != [] && s.sent[0].Members? && s.sent[0].writer < |s.writers| ==> Covers(s, s.sent[0].writer)
  }

  /** Every SMEMBERS of the run covers the cache. */
  predicate CoveredRun(s: System, events: seq<Event>)
    decreases |events|
  {
    events == [] ||
    (CoveredEvent(s, events[0])
     && match Apply(s, events[0])
        case None => true
        case Some(next) => CoveredRun(next, events[1..]))
  }
}
