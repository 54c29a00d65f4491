/**
 Freshness of the device-list cache: a request that arrives after a data change
 has been invalidated is never answered with data read before that change.
 Proved for every run in which each SMEMBERS covers the cache, and hence for
 every run that stores no list between a SMEMBERS and its DEL; `CacheRace` shows
 what follows a SMEMBERS that does not.
 */
module CacheFreshness {
  import opened Outcomes
  import opened DevicesCache
  import opened CacheProtocol

  // --------------------------------------------------------------- invariants

  /** A command in the connection is one its sender is still waiting for. */
  predicate CommandOk(s: System, command: Command) {
    match command
    case Get(r) => r < |s.requests| && s.requests[r].phase.Fetching?
    case SetAdd(l) => l < |s.loads| && s.loads[l].phase.Storing?
    case Members(w) => w < |s.writers| && s.writers[w].phase.Listing?
    case Del(w) => w < |s.writers| && s.writers[w].phase.Deleting?
  }

  predicate SentOk(s: System) {
    && (forall i | 0 <= i < |s.sent| :: CommandOk(s, s.sent[i]))
    && (forall i, j | 0 <= i < j < |s.sent| :: s.sent[i] != s.sent[j])
  }

  predicate Started(w: Writer) {
    !w.phase.Wrote?
  }

  /** Its SMEMBERS has been executed. */
  predicate Visited(w: Writer) {
    !w.phase.Wrote? && !w.phase.Listing?
  }

  /** What a query has read was read no earlier than the query began. */
  predicate LoadOk(l: Load, version: nat) {
    && l.since <= version
    && match l.phase
       case Reading(rows, total) =>
         && (rows.Some? ==> l.since <= rows.value <= version)
         && (total.Some? ==> l.since <= total.value <= version)
       case Storing(page) => page.AtLeast(l.since)
       case Stored(page) => page.AtLeast(l.since)
       case Resolved(result) => result.Some? ==> result.value.AtLeast(l.since)
       case Closed(result) => result.Some? ==> result.value.AtLeast(l.since)
  }

  predicate LoadsOk(s: System) {
    && (forall w | 0 <= w < |s.writers| :: s.writers[w].version <= s.version)
    && (forall l | 0 <= l < |s.loads| :: LoadOk(s.loads[l], s.version))
  }

  /** Queries of the current generation began after every change whose invalidation has begun. */
  predicate CurrentLoadsAreRecent(s: System) {
    && (forall l | 0 <= l < |s.loads| :: s.loads[l].generation <= s.process.generation)
    && (forall l, w | 0 <= l < |s.loads| && 0 <= w < |s.writers| ::
          s.loads[l].generation == s.process.generation && Started(s.writers[w])
          ==> s.writers[w].version <= s.loads[l].since)
    && (forall k | k in s.process.inFlight ::
          s.process.inFlight[k] < |s.loads|
          && s.loads[s.process.inFlight[k]].generation == s.process.generation)
  }

  /** An entry is gone, or will go with the DEL, or is newer than the change. */
  predicate EntryOk(key: Key, page: Page, w: Writer) {
    match w.phase
    case Listed(keys) => key in keys || page.AtLeast(w.version)
    case Deleting(keys) => key in keys || page.AtLeast(w.version)
    case Deleted => page.AtLeast(w.version)
    case Finished => page.AtLeast(w.version)
    case _ => true
  }

  /** A page on its way to Redis is newer than every change listed, or to be listed before it is stored. */
  predicate StoreOk(s: System, i: nat, l: LoadId)
    requires SentOk(s) && i < |s.sent| && s.sent[i] == SetAdd(l)
  {
    assert CommandOk(s, s.sent[i]);
    && (forall w | 0 <= w < |s.writers| && Visited(s.writers[w]) :: s.loads[l].phase.page.AtLeast(s.writers[w].version))
    && forall j | 0 <= j < i && s.sent[j].Members? ::
         CommandOk(s, s.sent[j]) && s.loads[l].phase.page.AtLeast(s.writers[s.sent[j].writer].version)
  }

  predicate CacheOk(s: System)
    requires SentOk(s)
  {
    && (forall k, w | k in s.cache && 0 <= w < |s.writers| :: EntryOk(k, s.cache[k], s.writers[w]))
    && (forall i | 0 <= i < |s.sent| :: s.sent[i].SetAdd? ==> StoreOk(s, i, s.sent[i].load))
  }

  predicate NewerThan(s: System, after: set<WriterId>, version: nat) {
    forall w | w in after :: w < |s.writers| && s.writers[w].version <= version
  }

  predicate RequestOk(s: System, r: Request) {
    && (forall w | w in r.after :: w < |s.writers| && s.writers[w].phase.Finished?)
    && match r.phase
       case Fetching => true
       case Fetched(cached) => cached.Some? ==> PageOk(s, r, cached.value)
       case Waiting(l) => l < |s.loads| && NewerThan(s, r.after, s.loads[l].since)
       case Answered(page) => PageOk(s, r, page)
       case Failed => true
  }

  predicate PageOk(s: System, r: Request, page: Page) {
    NewerThan(s, r.after, page.rows) && NewerThan(s, r.after, page.total)
  }

  predicate RequestsOk(s: System) {
    forall r | 0 <= r < |s.requests| :: RequestOk(s, s.requests[r])
  }

  predicate Fresh(s: System) {
    SentOk(s) && LoadsOk(s) && CurrentLoadsAreRecent(s) && CacheOk(s) && RequestsOk(s)
  }

  // ------------------------------------------------------------- preservation

  lemma NewRequestKeepsFresh(s: System, request: Request)
    requires Fresh(s) && RequestOk(s, request)
    ensures Fresh(s.(requests := s.requests + [request]))
  {
  }

  lemma SendGetKeepsFresh(s: System, r: RequestId)
    requires Fresh(s) && r < |s.requests| && s.requests[r].phase.Fetching?
    requires Get(r) !in s.sent
    ensures Fresh(Send(s, Get(r)))
  {
    var t := Send(s, Get(r));
    assert forall i | 0 <= i < |s.sent| :: t.sent[i] == s.sent[i] && CommandOk(s, s.sent[i]);
    assert SentOk(t);
  }

  lemma ArriveKeepsFresh(s: System, key: Key)
    requires Fresh(s)
    ensures Fresh(ApplyArrive(s, key))
  {
    var after := FinishedWriters(s);
    match s.process.Running(key)
    case Some(l) =>
      NewRequestKeepsFresh(s, Request(key, after, Waiting(l)));
    case None =>
      assert forall i | 0 <= i < |s.sent| :: CommandOk(s, s.sent[i]);
      NewRequestKeepsFresh(s, Request(key, after, Fetching));
      SendGetKeepsFresh(s.(requests := s.requests + [Request(key, after, Fetching)]), |s.requests|);
  }

  /** A request moving on without touching the queries or the connection. */
  lemma RequestStepKeepsFresh(s: System, r: RequestId, phase: RequestPhase)
    requires Fresh(s) && r < |s.requests| && !s.requests[r].phase.Fetching?
    requires RequestOk(s, s.requests[r].(phase := phase))
    ensures Fresh(WithRequest(s, r, phase))
  {
  }

  lemma NewLoadKeepsFresh(s: System, key: Key)
    requires Fresh(s)
    ensures Fresh(s.(process := s.process.(inFlight := s.process.inFlight[key := |s.loads|]),
                     loads := s.loads + [Load(key, s.process.generation, s.version, Reading(None, None))]))
  {
  }

  lemma ResumeKeepsFresh(s: System, r: RequestId)
    requires Fresh(s) && r < |s.requests| && s.requests[r].phase.Fetched?
    ensures Fresh(ApplyResume(s, r))
  {
    var key, next := s.requests[r].key, |s.loads|;
    var (reply, process) := s.process.Resume(key, s.requests[r].phase.cached, next);
    assert RequestOk(s, s.requests[r]);
    match reply
    case Hit(page) => RequestStepKeepsFresh(s, r, Answered(page));
    case Join(l) => RequestStepKeepsFresh(s, r, Waiting(l));
    case Start =>
      NewLoadKeepsFresh(s, key);
      var t := s.(process := process,
                  loads := s.loads + [Load(key, s.process.generation, s.version, Reading(None, None))]);
      RequestStepKeepsFresh(t, r, Waiting(next));
      assert ApplyResume(s, r) == WithRequest(t, r, Waiting(next));
  }

  lemma DeliverKeepsFresh(s: System, r: RequestId)
    requires Fresh(s) && r < |s.requests| && s.requests[r].phase.Waiting?
    requires var l := s.requests[r].phase.load; l < |s.loads| && s.loads[l].phase.Closed?
    ensures Fresh(ApplyDeliver(s, r, s.loads[s.requests[r].phase.load].phase.result))
  {
    var l := s.requests[r].phase.load;
    assert RequestOk(s, s.requests[r]) && LoadOk(s.loads[l], s.version);
    var result := s.loads[l].phase.result;
    RequestStepKeepsFresh(s, r, if result.Some? then Answered(result.value) else Failed);
  }

  /** A query moving on without anything being sent to Redis. */
  lemma LoadStepKeepsFresh(s: System, l: LoadId, phase: LoadPhase)
    requires Fresh(s) && l < |s.loads| && !s.loads[l].phase.Storing? && !phase.Storing?
    requires LoadOk(s.loads[l].(phase := phase), s.version)
    ensures Fresh(WithLoad(s, l, phase))
  {
  }

  lemma LoadedKeepsFresh(s: System, l: LoadId)
    requires Fresh(s) && l < |s.loads| && s.loads[l].phase.Reading?
    requires s.loads[l].phase.rows.Some? && s.loads[l].phase.total.Some?
    ensures Fresh(ApplyLoaded(s, l))
  {
    var page := Page(s.loads[l].key, s.loads[l].phase.rows.value, s.loads[l].phase.total.value);
    assert LoadOk(s.loads[l], s.version);
    if s.loads[l].generation == s.process.generation {
      NewStoreIsRecent(s, l, page);
      StoreKeepsFresh(s, l, page);
    } else {
      LoadStepKeepsFresh(s, l, Resolved(Some(page)));
    }
  }

  lemma StoreKeepsFresh(s: System, l: LoadId, page: Page)
    requires Fresh(s) && l < |s.loads| && s.loads[l].phase.Reading? && page.AtLeast(s.loads[l].since)
    requires forall w | 0 <= w < |s.writers| && Started(s.writers[w]) :: page.AtLeast(s.writers[w].version)
    ensures Fresh(Send(WithLoad(s, l, Storing(page)), SetAdd(l)))
  {
    var t := Send(WithLoad(s, l, Storing(page)), SetAdd(l));
    assert forall i | 0 <= i < |s.sent| :: t.sent[i] == s.sent[i] && CommandOk(s, s.sent[i]);
    assert SentOk(t);
    StoreKeepsCache(s, l, page);
    hide SentOk, CacheOk, EntryOk, StoreOk;
  }

  lemma StoreKeepsCache(s: System, l: LoadId, page: Page)
    requires SentOk(s) && CacheOk(s) && l < |s.loads| && s.loads[l].phase.Reading?
    requires forall w | 0 <= w < |s.writers| && Started(s.writers[w]) :: page.AtLeast(s.writers[w].version)
    requires SentOk(Send(WithLoad(s, l, Storing(page)), SetAdd(l)))
    ensures CacheOk(Send(WithLoad(s, l, Storing(page)), SetAdd(l)))
  {
    var t := Send(WithLoad(s, l, Storing(page)), SetAdd(l));
    forall i | 0 <= i < |t.sent| && t.sent[i].SetAdd?
      ensures StoreOk(t, i, t.sent[i].load)
    {
      if i < |s.sent| { assert StoreOk(s, i, s.sent[i].load); }
    }
  }

  /** A query that ended in its own generation read after every change being invalidated. */
  lemma NewStoreIsRecent(s: System, l: LoadId, page: Page)
    requires Fresh(s) && l < |s.loads| && s.loads[l].generation == s.process.generation
    requires page.AtLeast(s.loads[l].since)
    ensures forall w | 0 <= w < |s.writers| && Started(s.writers[w]) :: page.AtLeast(s.writers[w].version)
  {
  }

  lemma CloseKeepsFresh(s: System, l: LoadId)
    requires Fresh(s) && l < |s.loads| && s.loads[l].phase.Resolved?
    ensures Fresh(ApplyClose(s, l))
  {
    assert LoadOk(s.loads[l], s.version);
    LoadStepKeepsFresh(s, l, Closed(s.loads[l].phase.result));
  }

  lemma WriteKeepsFresh(s: System)
    requires Fresh(s)
    ensures Fresh(ApplyWrite(s))
  {
  }

  /** A writer sends its SMEMBERS, or the DEL of what that listed. */
  predicate Sends(s: System, w: WriterId, phase: WriterPhase, command: Command)
    requires w < |s.writers|
  {
    || (s.writers[w].phase.Wrote? && phase == Listing && command == Members(w))
    || (s.writers[w].phase.Listed? && phase == Deleting(s.writers[w].phase.keys) && command == Del(w))
  }

  lemma WriterSends(s: System, w: WriterId, phase: WriterPhase, command: Command)
    requires SentOk(s) && w < |s.writers| && Sends(s, w, phase, command)
    ensures SentOk(Send(WithWriter(s, w, phase), command))
  {
    var t := Send(WithWriter(s, w, phase), command);
    assert forall i | 0 <= i < |s.sent| :: t.sent[i] == s.sent[i] && CommandOk(s, s.sent[i]);
  }

  lemma SendingKeepsCache(s: System, w: WriterId, phase: WriterPhase, command: Command)
    requires SentOk(s) && CacheOk(s) && w < |s.writers| && Sends(s, w, phase, command)
    requires SentOk(Send(WithWriter(s, w, phase), command))
    ensures CacheOk(Send(WithWriter(s, w, phase), command))
  {
    var t := Send(WithWriter(s, w, phase), command);
    forall i | 0 <= i < |t.sent| && t.sent[i].SetAdd?
      ensures StoreOk(t, i, t.sent[i].load)
    {
      assert StoreOk(s, i, s.sent[i].load);
    }
  }

  lemma InvalidateKeepsFresh(s: System, w: WriterId)
    requires Fresh(s) && w < |s.writers| && s.writers[w].phase.Wrote?
    ensures Fresh(ApplyInvalidate(s, w))
  {
    WriterSends(s, w, Listing, Members(w));
    SendingKeepsCache(s, w, Listing, Members(w));
    var t := Send(WithWriter(s, w, Listing), Members(w));
    assert SentOk(t.(process := s.process.Invalidate()));
    hide SentOk, CacheOk, EntryOk, StoreOk, LoadOk;
    SameCache(t, s.process.Invalidate());
  }

  /** What the process has in memory does not matter to the cache. */
  lemma SameCache(s: System, process: Process)
    requires SentOk(s) && CacheOk(s)
    ensures SentOk(s.(process := process)) && CacheOk(s.(process := process))
  {
    var t := s.(process := process);
    assert forall i | 0 <= i < |s.sent| :: CommandOk(s, s.sent[i]) && CommandOk(t, s.sent[i]);
    forall i | 0 <= i < |t.sent| && t.sent[i].SetAdd?
      ensures StoreOk(t, i, t.sent[i].load)
    {
      assert StoreOk(s, i, s.sent[i].load);
    }
  }

  lemma SendDelKeepsFresh(s: System, w: WriterId)
    requires Fresh(s) && w < |s.writers| && s.writers[w].phase.Listed?
    ensures Fresh(ApplySendDel(s, w))
  {
    var phase := Deleting(s.writers[w].phase.keys);
    WriterSends(s, w, phase, Del(w));
    SendingKeepsCache(s, w, phase, Del(w));
    hide SentOk, CacheOk, LoadOk;
  }

  lemma FinishKeepsFresh(s: System, w: WriterId)
    requires Fresh(s) && w < |s.writers| && s.writers[w].phase.Deleted?
    ensures Fresh(WithWriter(s, w, Finished))
  {
  }

  // The four Redis commands. The command leaves the connection first.

  lemma GetKeepsFresh(s: System, r: RequestId)
    requires Fresh(s) && s.sent != [] && s.sent[0] == Get(r)
    ensures Apply(s, Redis).Some? && Fresh(Apply(s, Redis).value)
  {
    assert CommandOk(s, s.sent[0]);
    var t := Apply(s, Redis).value;
    assert forall i | 0 <= i < |t.sent| :: t.sent[i] == s.sent[i + 1] && CommandOk(s, s.sent[i + 1]);
    assert SentOk(t);
  }

  lemma SetAddKeepsFresh(s: System, l: LoadId)
    requires Fresh(s) && s.sent != [] && s.sent[0] == SetAdd(l)
    ensures Apply(s, Redis).Some? && Fresh(Apply(s, Redis).value)
  {
    assert CommandOk(s, s.sent[0]);
    var t := Apply(s, Redis).value;
    assert StoreOk(s, 0, l);
    assert forall i | 0 <= i < |t.sent| :: t.sent[i] == s.sent[i + 1] && CommandOk(s, s.sent[i + 1]);
    assert SentOk(t);
  }

  /** Here coverage decides: the listing keeps the cache fresh exactly if it covers it. */
  lemma MembersKeepsFresh(s: System, w: WriterId)
    requires Fresh(s) && s.sent != [] && s.sent[0] == Members(w)
    ensures w < |s.writers| && Apply(s, Redis).Some?
    ensures Fresh(Apply(s, Redis).value) <==> Covers(s, w)
  {
    assert CommandOk(s, s.sent[0]);
    var t := Apply(s, Redis).value;
    assert forall i | 0 <= i < |t.sent| :: t.sent[i] == s.sent[i + 1] && CommandOk(s, s.sent[i + 1]);
    assert SentOk(t);
    if Covers(s, w) {
      ListedEntriesOk(s, w);
      ListedStoresOk(s, w);
      hide EntryOk, StoreOk, LoadOk;
    } else {
      var k :| k in s.cache && k !in s.index && !s.cache[k].AtLeast(s.writers[w].version);
      assert !EntryOk(k, t.cache[k], t.writers[w]);
    }
  }

  lemma ListedEntriesOk(s: System, w: WriterId)
    requires Fresh(s) && s.sent != [] && s.sent[0] == Members(w) && w < |s.writers| && Covers(s, w)
    ensures var t := s.writers[w := s.writers[w].(phase := Listed(s.index))];
      forall k, v | k in s.cache && 0 <= v < |t| :: EntryOk(k, s.cache[k], t[v])
  {
  }

  lemma ListedStoresOk(s: System, w: WriterId)
    requires Fresh(s) && s.sent != [] && s.sent[0] == Members(w)
    ensures Apply(s, Redis).Some? && SentOk(Apply(s, Redis).value)
    ensures var t := Apply(s, Redis).value;
      forall i | 0 <= i < |t.sent| && t.sent[i].SetAdd? :: StoreOk(t, i, t.sent[i].load)
  {
    assert CommandOk(s, s.sent[0]);
    var t := Apply(s, Redis).value;
    assert forall i | 0 <= i < |t.sent| :: t.sent[i] == s.sent[i + 1] && CommandOk(s, s.sent[i + 1]);
    assert SentOk(t);
    forall i | 0 <= i < |t.sent| && t.sent[i].SetAdd?
      ensures StoreOk(t, i, t.sent[i].load)
    {
      assert StoreOk(s, i + 1, s.sent[i + 1].load);
    }
  }

  lemma DelKeepsFresh(s: System, w: WriterId)
    requires Fresh(s) && s.sent != [] && s.sent[0] == Del(w)
    ensures Apply(s, Redis).Some? && Fresh(Apply(s, Redis).value)
  {
    assert CommandOk(s, s.sent[0]);
    var t := Apply(s, Redis).value;
    assert forall i | 0 <= i < |t.sent| :: t.sent[i] == s.sent[i + 1] && CommandOk(s, s.sent[i + 1]);
    assert SentOk(t);
    DelKeepsCache(s, w);
    hide SentOk, CacheOk, EntryOk, StoreOk, LoadOk;
  }

  lemma DelKeepsCache(s: System, w: WriterId)
    requires SentOk(s) && CacheOk(s) && s.sent != [] && s.sent[0] == Del(w)
    ensures Apply(s, Redis).Some? && SentOk(Apply(s, Redis).value) && CacheOk(Apply(s, Redis).value)
  {
    assert CommandOk(s, s.sent[0]);
    var t := Apply(s, Redis).value;
    assert forall i | 0 <= i < |t.sent| :: t.sent[i] == s.sent[i + 1] && CommandOk(s, s.sent[i + 1]);
    assert SentOk(t);
    forall k | k in t.cache
      ensures EntryOk(k, t.cache[k], t.writers[w])
    {
      assert EntryOk(k, s.cache[k], s.writers[w]);
    }
    forall i | 0 <= i < |t.sent| && t.sent[i].SetAdd?
      ensures StoreOk(t, i, t.sent[i].load)
    {
      assert StoreOk(s, i + 1, s.sent[i + 1].load);
    }
  }

  lemma ExpireKeepsFresh(s: System, key: Key)
    requires Fresh(s)
    ensures Fresh(s.(cache := s.cache - {key}))
  {
  }

  lemma ApplyKeepsFresh(s: System, e: Event)
    requires Fresh(s) && CoveredEvent(s, e)
    ensures Apply(s, e).Some? ==> Fresh(Apply(s, e).value)
  {
    if Apply(s, e).Some? {
      match e
      case Arrive(key) => ArriveKeepsFresh(s, key);
      case Resume(r) => ResumeKeepsFresh(s, r);
      case Deliver(r) => DeliverKeepsFresh(s, r);
      case ReadRows(l) => LoadReads(s, l); LoadStepKeepsFresh(s, l, s.loads[l].phase.(rows := Some(s.version)));
      case ReadTotal(l) => LoadReads(s, l); LoadStepKeepsFresh(s, l, s.loads[l].phase.(total := Some(s.version)));
      case ReadFails(l) => LoadReads(s, l); LoadStepKeepsFresh(s, l, Resolved(None));
      case Loaded(l) => LoadedKeepsFresh(s, l);
      case AfterStore(l) => LoadReads(s, l); LoadStepKeepsFresh(s, l, Resolved(Some(s.loads[l].phase.page)));
      case Close(l) => CloseKeepsFresh(s, l);
      case Write => WriteKeepsFresh(s);
      case Invalidate(w) => InvalidateKeepsFresh(s, w);
      case SendDel(w) => SendDelKeepsFresh(s, w);
      case Finish(w) => FinishKeepsFresh(s, w);
      case Redis => RedisKeepsFresh(s);
      case Expire(key) => ExpireKeepsFresh(s, key);
    }
  }

  lemma LoadReads(s: System, l: LoadId)
    requires Fresh(s) && l < |s.loads|
    ensures LoadOk(s.loads[l], s.version)
  {
  }

  lemma RedisKeepsFresh(s: System)
    requires Fresh(s) && s.sent != [] && CoveredEvent(s, Redis)
    ensures Apply(s, Redis).Some? && Fresh(Apply(s, Redis).value)
  {
    match s.sent[0]
    case Get(r) => GetKeepsFresh(s, r);
    case SetAdd(l) => SetAddKeepsFresh(s, l);
    case Members(w) => MembersKeepsFresh(s, w);
    case Del(w) => DelKeepsFresh(s, w);
  }

  // ------------------------------------------------------------------ theorem

  lemma {:induction false} RunKeepsFresh(s: System, events: seq<Event>)
    requires Fresh(s) && CoveredRun(s, events)
    ensures Run(s, events).Some? ==> Fresh(Run(s, events).value)
    decreases |events|
  {
    if events != [] && Apply(s, events[0]).Some? {
      ApplyKeepsFresh(s, events[0]);
      RunKeepsFresh(Apply(s, events[0]).value, events[1..]);
    }
  }

  /** A request keeps the set of changes it arrived after. */
  lemma {:induction false} RunKeepsAfter(s: System, events: seq<Event>, r: RequestId)
    requires r < |s.requests|
    ensures Run(s, events).Some?
            ==> r < |Run(s, events).value.requests| && Run(s, events).value.requests[r].after == s.requests[r].after
    decreases |events|
  {
    if events != [] && Apply(s, events[0]).Some? {
      RunKeepsAfter(Apply(s, events[0]).value, events[1..], r);
    }
  }

  lemma {:induction false} RunKeepsVersion(s: System, events: seq<Event>, w: WriterId)
    requires w < |s.writers|
    ensures Run(s, events).Some?
            ==> w < |Run(s, events).value.writers| && Run(s, events).value.writers[w].version == s.writers[w].version
    decreases |events|
  {
    if events != [] && Apply(s, events[0]).Some? {
      RunKeepsVersion(Apply(s, events[0]).value, events[1..], w);
    }
  }

  /**
   Freshness. Take any run of the whole system. Let request r arrive at state
   `s`, and let w be a data change whose invalidateAll has finished by then.
   Whatever happens afterwards, if r is answered, both queries behind its answer
   ran after that change, provided every SMEMBERS of the run covers the cache.
   */
  lemma AnswersAreFresh(before: seq<Event>, s: System, key: Key, after: seq<Event>, t: System, w: WriterId)
    requires CoveredRun(INITIAL, before) && Run(INITIAL, before) == Some(s)
    requires w < |s.writers| && s.writers[w].phase.Finished?
    requires CoveredRun(ApplyArrive(s, key), after) && Run(ApplyArrive(s, key), after) == Some(t)
    ensures |s.requests| < |t.requests|
    ensures t.requests[|s.requests|].phase.Answered?
            ==> t.requests[|s.requests|].phase.page.AtLeast(s.writers[w].version)
  {
    var r, a := |s.requests|, ApplyArrive(s, key);
    RunKeepsFresh(INITIAL, before);
    ArriveKeepsFresh(s, key);
    RunKeepsFresh(a, after);
    RunKeepsAfter(a, after, r);
    RunKeepsVersion(a, after, w);
    assert w in a.requests[r].after;
    assert RequestOk(t, t.requests[r]);
  }
}
