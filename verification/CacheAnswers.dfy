/**
 What holds in every run of the device-list cache, whether or not its listings
 cover the cache: a key never has two queries running in one generation, and a
 request is only ever answered with the result of its own query.
 */
module CacheAnswers {
  import opened Outcomes
  import opened DevicesCache
  import opened CacheProtocol

  predicate Running(l: Load) {
    !l.phase.Closed?
  }

  predicate ResultOf(key: Key, result: Option<Page>, version: nat) {
    result.Some? ==> PageOf(key, result.value, version)
  }

  /** A page of this key whose queries have run. */
  predicate PageOf(key: Key, page: Page, version: nat) {
    page.key == key && page.rows <= version && page.total <= version
  }

  predicate LoadOk(l: Load, version: nat) {
    match l.phase
    case Reading(rows, total) => (rows.Some? ==> rows.value <= version) && (total.Some? ==> total.value <= version)
    case Storing(page) => PageOf(l.key, page, version)
    case Stored(page) => PageOf(l.key, page, version)
    case Resolved(result) => ResultOf(l.key, result, version)
    case Closed(result) => ResultOf(l.key, result, version)
  }

  predicate RequestOk(s: System, r: Request) {
    match r.phase
    case Fetching => true
    case Fetched(cached) => ResultOf(r.key, cached, s.version)
    case Waiting(l) => l < |s.loads| && s.loads[l].key == r.key
    case Answered(page) => PageOf(r.key, page, s.version)
    case Failed => true
  }

  /** Every in-flight entry is a running query of its key in the current generation. */
  predicate EntriesOk(s: System) {
    forall k | k in s.process.inFlight ::
      var l := s.process.inFlight[k];
      l < |s.loads| && s.loads[l].key == k && s.loads[l].generation == s.process.generation && Running(s.loads[l])
  }

  /** Every running query of the current generation is still in flight. */
  predicate CurrentInFlight(s: System) {
    && (forall l | 0 <= l < |s.loads| :: s.loads[l].generation <= s.process.generation)
    && (forall l | 0 <= l < |s.loads| && Running(s.loads[l]) && s.loads[l].generation == s.process.generation ::
          s.process.Running(s.loads[l].key) == Some(l))
  }

  predicate OneQueryPerGeneration(s: System) {
    forall l, m | 0 <= l < m < |s.loads| ::
      Running(s.loads[l]) && Running(s.loads[m]) && s.loads[l].key == s.loads[m].key
      ==> s.loads[l].generation != s.loads[m].generation
  }

  predicate PagesOk(s: System) {
    && (forall l | 0 <= l < |s.loads| :: LoadOk(s.loads[l], s.version))
    && (forall k | k in s.cache :: PageOf(k, s.cache[k], s.version))
    && (forall r | 0 <= r < |s.requests| :: RequestOk(s, s.requests[r]))
  }

  predicate Good(s: System) {
    EntriesOk(s) && CurrentInFlight(s) && OneQueryPerGeneration(s) && PagesOk(s)
  }

  lemma LoadStep(s: System, l: LoadId, phase: LoadPhase)
    requires Good(s) && l < |s.loads| && Running(s.loads[l]) && !phase.Closed?
    requires LoadOk(s.loads[l].(phase := phase), s.version)
    ensures Good(WithLoad(s, l, phase))
  {
  }

  lemma RequestStep(s: System, r: RequestId, phase: RequestPhase)
    requires Good(s) && r < |s.requests| && RequestOk(s, s.requests[r].(phase := phase))
    ensures Good(WithRequest(s, r, phase))
  {
  }

  lemma NewLoad(s: System, key: Key)
    requires Good(s) && key !in s.process.inFlight
    ensures Good(s.(process := s.process.(inFlight := s.process.inFlight[key := |s.loads|]),
                    loads := s.loads + [Load(key, s.process.generation, s.version, Reading(None, None))]))
  {
  }

  lemma ResumeStep(s: System, r: RequestId)
    requires Good(s) && r < |s.requests| && s.requests[r].phase.Fetched?
    ensures Good(ApplyResume(s, r))
  {
    var key, next := s.requests[r].key, |s.loads|;
    var (reply, process) := s.process.Resume(key, s.requests[r].phase.cached, next);
    assert RequestOk(s, s.requests[r]);
    match reply
    case Hit(page) => RequestStep(s, r, Answered(page));
    case Join(l) => RequestStep(s, r, Waiting(l));
    case Start =>
      NewLoad(s, key);
      var t := s.(process := process,
                  loads := s.loads + [Load(key, s.process.generation, s.version, Reading(None, None))]);
      RequestStep(t, r, Waiting(next));
      assert ApplyResume(s, r) == WithRequest(t, r, Waiting(next));
  }

  /** A query of the current generation takes its own entry with it. */
  lemma CloseCurrent(s: System, l: LoadId)
    requires Good(s) && l < |s.loads| && s.loads[l].phase.Resolved?
    requires s.loads[l].generation == s.process.generation
    ensures Good(ApplyClose(s, l))
  {
    assert s.process.Running(s.loads[l].key) == Some(l);
    CloseKeepsPages(s, l);
    hide PagesOk, LoadOk, PageOf, ResultOf;
  }

  /** A query of an older generation has no entry, and takes none. */
  lemma CloseOlder(s: System, l: LoadId)
    requires Good(s) && l < |s.loads| && s.loads[l].phase.Resolved?
    requires s.loads[l].generation != s.process.generation
    ensures Good(ApplyClose(s, l))
  {
    assert s.process.Running(s.loads[l].key) != Some(l);
    CloseKeepsPages(s, l);
    hide PagesOk, LoadOk, PageOf, ResultOf;
  }

  lemma CloseKeepsPages(s: System, l: LoadId)
    requires PagesOk(s) && l < |s.loads| && s.loads[l].phase.Resolved?
    ensures PagesOk(ApplyClose(s, l))
  {
    assert LoadOk(s.loads[l], s.version);
  }

  lemma CloseStep(s: System, l: LoadId)
    requires Good(s) && l < |s.loads| && s.loads[l].phase.Resolved?
    ensures Good(ApplyClose(s, l))
  {
    if s.loads[l].generation == s.process.generation {
      CloseCurrent(s, l);
    } else {
      CloseOlder(s, l);
    }
  }

  lemma WriterStep(s: System, t: System)
    requires Good(s)
    requires t.process == s.process || t.process == s.process.Invalidate()
    requires t.version >= s.version && t.cache == s.cache && t.loads == s.loads && t.requests == s.requests
    ensures Good(t)
  {
  }

  lemma ArriveStep(s: System, key: Key)
    requires Good(s)
    ensures Good(ApplyArrive(s, key))
  {
  }

  lemma RedisStep(s: System, command: Command)
    requires Good(s)
    ensures ApplyRedis(s, command).Some? ==> Good(ApplyRedis(s, command).value)
  {
    if ApplyRedis(s, command).Some? {
      match command
      case Get(r) =>
        var key := s.requests[r].key;
        RequestStep(s, r, Fetched(if key in s.cache then Some(s.cache[key]) else None));
      case SetAdd(l) =>
        assert LoadOk(s.loads[l], s.version);
        LoadStep(s, l, Stored(s.loads[l].phase.page));
      case Members(w) => WriterStep(s, WithWriter(s, w, Listed(s.index)));
      case Del(w) =>
    }
  }

  lemma SentStep(s: System, sent: seq<Command>)
    requires Good(s)
    ensures Good(s.(sent := sent))
  {
  }

  lemma ExpireStep(s: System, keys: set<Key>)
    requires Good(s)
    ensures Good(s.(cache := s.cache - keys))
  {
  }

  lemma LoadReads(s: System, l: LoadId)
    requires Good(s) && l < |s.loads|
    ensures LoadOk(s.loads[l], s.version)
  {
  }

  lemma DeliverStep(s: System, r: RequestId)
    requires Good(s) && r < |s.requests| && s.requests[r].phase.Waiting?
    requires var l := s.requests[r].phase.load; l < |s.loads| && s.loads[l].phase.Closed?
    ensures Good(ApplyDeliver(s, r, s.loads[s.requests[r].phase.load].phase.result))
  {
    var l := s.requests[r].phase.load;
    assert RequestOk(s, s.requests[r]) && LoadOk(s.loads[l], s.version);
    var result := s.loads[l].phase.result;
    RequestStep(s, r, if result.Some? then Answered(result.value) else Failed);
  }

  lemma ApplyStep(s: System, e: Event)
    requires Good(s)
    ensures Apply(s, e).Some? ==> Good(Apply(s, e).value)
  {
    hide Good;
    if Apply(s, e).Some? {
      var t := Apply(s, e).value;
      match e
      case Arrive(key) => ArriveStep(s, key);
      case Resume(r) => ResumeStep(s, r);
      case Deliver(r) =>
        DeliverStep(s, r);
      case ReadRows(l) => LoadReads(s, l); LoadStep(s, l, t.loads[l].phase);
      case ReadTotal(l) => LoadReads(s, l); LoadStep(s, l, t.loads[l].phase);
      case ReadFails(l) => LoadStep(s, l, Resolved(None));
      case Loaded(l) =>
        LoadReads(s, l);
        LoadStep(s, l, t.loads[l].phase);
        SentStep(WithLoad(s, l, t.loads[l].phase), t.sent);
      case AfterStore(l) => LoadReads(s, l); LoadStep(s, l, t.loads[l].phase);
      case Close(l) => CloseStep(s, l);
      case Write => WriterStep(s, t);
      case Invalidate(w) => WriterStep(s, t);
      case SendDel(w) => WriterStep(s, t);
      case Finish(w) => WriterStep(s, t);
      case Redis =>
        SentStep(s, s.sent[1..]);
        RedisStep(s.(sent := s.sent[1..]), s.sent[0]);
      case Expire(key) => ExpireStep(s, {key});
    }
  }

  lemma {:induction false} RunStaysGood(s: System, events: seq<Event>)
    requires Good(s)
    ensures Run(s, events).Some? ==> Good(Run(s, events).value)
    decreases |events|
  {
    if events != [] && Apply(s, events[0]).Some? {
      ApplyStep(s, events[0]);
      RunStaysGood(Apply(s, events[0]).value, events[1..]);
    }
  }

  /**
   Single flight: whatever the interleaving, two running queries of one key
   belong to different generations, and what later requests can join is exactly
   the running query of the current generation. So the clean-up of an old query
   has never removed a newer one.
   */
  lemma SingleFlight(events: seq<Event>, s: System)
    requires Run(INITIAL, events) == Some(s)
    ensures forall l, m | 0 <= l < |s.loads| && 0 <= m < |s.loads|
                && Running(s.loads[l]) && Running(s.loads[m])
                && s.loads[l].key == s.loads[m].key && s.loads[l].generation == s.loads[m].generation :: l == m
    ensures forall key: Key, l: LoadId :: s.process.Running(key) == Some(l) <==>
              (l < |s.loads| && Running(s.loads[l])
               && s.loads[l].key == key && s.loads[l].generation == s.process.generation)
  {
    RunStaysGood(INITIAL, events);
  }

  /** An answer is the list of the request's own key, as the two queries really found it. */
  lemma AnswersMatchRequests(events: seq<Event>, s: System, r: RequestId)
    requires Run(INITIAL, events) == Some(s)
    requires r < |s.requests| && s.requests[r].phase.Answered?
    ensures s.requests[r].phase.page.key == s.requests[r].key
    ensures s.requests[r].phase.page.rows <= s.version && s.requests[r].phase.page.total <= s.version
  {
    RunStaysGood(INITIAL, events);
    assert RequestOk(s, s.requests[r]);
  }
}
