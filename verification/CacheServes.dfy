/**
 That the device-list cache serves: whatever has happened, every request can
 still be answered, and fails only if a query of its list has failed; and a list
 that is not cached is read, stored and then served.
 */
module CacheServes {
  import opened Outcomes
  import opened DevicesCache
  import opened CacheProtocol
  import opened CacheAnswers
  import opened CacheRace

  // ------------------------------------------------------------ the connection

  /** Somebody awaits the reply to this command. */
  predicate Awaited(s: System, c: Command) {
    match c
    case Get(r) => r < |s.requests| && s.requests[r].phase.Fetching?
    case SetAdd(l) => l < |s.loads| && s.loads[l].phase.Storing?
    case Members(w) => w < |s.writers| && s.writers[w].phase.Listing?
    case Del(w) => w < |s.writers| && s.writers[w].phase.Deleting?
  }

  /** On the connection are exactly the commands that are awaited, each once. */
  ghost predicate SentOk(s: System) {
    && (forall c :: c in s.sent <==> Awaited(s, c))
    && forall i, j | 0 <= i < j < |s.sent| :: s.sent[i] != s.sent[j]
  }

  lemma SameSent(s: System, t: System)
    requires SentOk(s) && t.sent == s.sent && forall c :: Awaited(s, c) <==> Awaited(t, c)
    ensures SentOk(t)
  {
  }

  lemma OneSent(s: System, t: System, sent: Command)
    requires SentOk(s) && t.sent == s.sent + [sent] && !Awaited(s, sent)
    requires forall c :: Awaited(t, c) <==> Awaited(s, c) || c == sent
    ensures SentOk(t)
  {
    assert sent !in s.sent;
    assert forall c :: c in t.sent <==> c in s.sent || c == sent;
  }

  lemma OneExecuted(s: System, t: System)
    requires SentOk(s) && s.sent != [] && t.sent == s.sent[1..]
    requires forall c :: Awaited(t, c) <==> Awaited(s, c) && c != s.sent[0]
    ensures SentOk(t)
  {
    assert s.sent == [s.sent[0]] + t.sent;
    assert forall c :: c in s.sent <==> c in t.sent || c == s.sent[0];
    assert forall i | 0 <= i < |t.sent| :: t.sent[i] == s.sent[i + 1];
  }

  /** The first command is always one that Redis can execute. */
  lemma RedisExecutes(s: System)
    requires SentOk(s) && s.sent != []
    ensures Apply(s, Redis).Some? && SentOk(Apply(s, Redis).value)
  {
    assert s.sent[0] in s.sent && Awaited(s, s.sent[0]);
    OneExecuted(s, Apply(s, Redis).value);
  }

  lemma ApplyKeepsSent(s: System, e: Event)
    requires SentOk(s)
    ensures Apply(s, e).Some? ==> SentOk(Apply(s, e).value)
  {
    if Apply(s, e).Some? {
      hide SentOk;
      var t := Apply(s, e).value;
      if e == Redis {
        RedisExecutes(s);
      } else if !Sends(s, e) {
        SameSent(s, t);
      } else {
        SendKeepsSent(s, e);
      }
    }
  }

  /** Events that send a command. */
  predicate Sends(s: System, e: Event) {
    match e
    case Arrive(key) => s.process.Running(key) == None
    case Loaded(l) => l < |s.loads| && s.process.MayStore(s.loads[l].generation)
    case Invalidate(_) => true
    case SendDel(_) => true
    case _ => false
  }

  lemma SendKeepsSent(s: System, e: Event)
    requires SentOk(s) && Apply(s, e).Some? && Sends(s, e)
    ensures SentOk(Apply(s, e).value)
  {
    var t := Apply(s, e).value;
    match e
    case Arrive(key) => OneSent(s, t, Get(|s.requests|));
    case Loaded(l) => OneSent(s, t, SetAdd(l));
    case Invalidate(w) => OneSent(s, t, Members(w));
    case SendDel(w) => OneSent(s, t, Del(w));
  }

  lemma {:induction false} RunKeepsSent(s: System, events: seq<Event>)
    requires SentOk(s)
    ensures Run(s, events).Some? ==> SentOk(Run(s, events).value)
    decreases |events|
  {
    if events != [] && Apply(s, events[0]).Some? {
      ApplyKeepsSent(s, events[0]);
      RunKeepsSent(Apply(s, events[0]).value, events[1..]);
    }
  }

  // ------------------------------------------------------------------- progress

  predicate QueryFailed(l: Load) {
    l.phase == Resolved(None) || l.phase == Closed(None)
  }

  /** Queries that have failed in `t` had failed in `s` already. */
  predicate NoNewFailure(s: System, t: System) {
    forall l | 0 <= l < |t.loads| && QueryFailed(t.loads[l]) ::
      l < |s.loads| && QueryFailed(s.loads[l]) && s.loads[l].key == t.loads[l].key
  }

  function Redises(n: nat): seq<Event>
    decreases n
  {
    if n == 0 then [] else [Redis] + Redises(n - 1)
  }

  /** Redis executes all that was sent; a request that was waiting for its GET has the reply. */
  lemma {:induction false} Drain(s: System, r: RequestId) returns (t: System)
    requires Good(s) && SentOk(s) && r < |s.requests|
    ensures Run(s, Redises(|s.sent|)) == Some(t) && Good(t) && SentOk(t) && t.sent == []
    ensures NoNewFailure(s, t) && r < |t.requests| && t.requests[r].key == s.requests[r].key
    ensures t.requests[r].phase == s.requests[r].phase || t.requests[r].phase.Fetched?
    decreases |s.sent|
  {
    if s.sent == [] {
      t := s;
    } else {
      RedisExecutes(s);
      ApplyStep(s, Redis);
      var next := Apply(s, Redis).value;
      ExecutedChanges(s, r);
      hide Good, SentOk, Apply;
      t := Drain(next, r);
      RunOne(s, Redis, Redises(|next.sent|));
    }
  }

  lemma ExecutedChanges(s: System, r: RequestId)
    requires s.sent != [] && Apply(s, Redis).Some? && r < |s.requests|
    ensures var t := Apply(s, Redis).value;
      && t.sent == s.sent[1..] && NoNewFailure(s, t) && r < |t.requests| && t.requests[r].key == s.requests[r].key
      && (t.requests[r].phase == s.requests[r].phase || t.requests[r].phase.Fetched?)
  {
  }

  /** What a query does next when it has the process and the connection to itself. */
  function Next(l: Load, id: LoadId): Event
    requires !l.phase.Closed?
  {
    match l.phase
    case Reading(rows, total) =>
      if rows.None? then ReadRows(id) else if total.None? then ReadTotal(id) else Loaded(id)
    case Storing(_) => Redis
    case Stored(_) => AfterStore(id)
    case Resolved(_) => Close(id)
  }

  function Left(l: Load): nat {
    match l.phase
    case Reading(rows, total) => 4 + (if rows.None? then 1 else 0) + if total.None? then 1 else 0
    case Storing(_) => 3
    case Stored(_) => 2
    case Resolved(_) => 1
    case Closed(_) => 0
  }

  /** Nothing is on the connection, except perhaps what this query has sent. */
  predicate Alone(s: System, l: LoadId) {
    l < |s.loads| && s.sent == if s.loads[l].phase.Storing? then [SetAdd(l)] else []
  }

  lemma QueryStep(s: System, l: LoadId)
    requires Alone(s, l) && !s.loads[l].phase.Closed?
    ensures var next := Apply(s, Next(s.loads[l], l));
      && next.Some? && Alone(next.value, l) && Left(next.value.loads[l]) < Left(s.loads[l])
      && next.value.requests == s.requests && NoNewFailure(s, next.value)
      && next.value.loads[l].key == s.loads[l].key
  {
  }

  /** A query can always be run to its end, and does not fail on the way. */
  lemma {:induction false} FinishQuery(s: System, l: LoadId) returns (more: seq<Event>, t: System)
    requires Alone(s, l)
    ensures Run(s, more) == Some(t) && t.sent == [] && t.requests == s.requests && NoNewFailure(s, t)
    ensures l < |t.loads| && t.loads[l].phase.Closed? && t.loads[l].key == s.loads[l].key
    decreases Left(s.loads[l])
  {
    if s.loads[l].phase.Closed? {
      more, t := [], s;
    } else {
      QueryStep(s, l);
      var e := Next(s.loads[l], l);
      var next := Apply(s, e).value;
      hide Apply, Next, Left;
      more, t := FinishQuery(next, l);
      RunOne(s, e, more);
      more := [e] + more;
    }
  }

  /** The request has its answer; or its query has failed, as a query of its list had in `s`. */
  predicate Ended(s: System, t: System, r: RequestId)
    requires r < |s.requests|
  {
    && r < |t.requests|
    && (t.requests[r].phase.Answered?
        || (t.requests[r].phase.Failed?
            && (s.requests[r].phase.Failed?
                || exists l | 0 <= l < |s.loads| :: s.loads[l].key == s.requests[r].key && QueryFailed(s.loads[l]))))
  }

  ghost predicate CanEnd(s: System, r: RequestId)
    requires r < |s.requests|
  {
    exists more: seq<Event> :: Run(s, more).Some? && Ended(s, Run(s, more).value, r)
  }

  lemma WaitingEnds(s: System, r: RequestId)
    requires Good(s) && SentOk(s) && s.sent == [] && r < |s.requests| && s.requests[r].phase.Waiting?
    ensures CanEnd(s, r)
  {
    var l := s.requests[r].phase.load;
    assert RequestOk(s, s.requests[r]) && !Awaited(s, SetAdd(l));
    hide Good, SentOk;
    var more, t := FinishQuery(s, l);
    RunTwo(s, more, [Deliver(r)] + []);
    var u := ApplyDeliver(t, r, t.loads[l].phase.result);
    assert Apply(t, Deliver(r)) == Some(u);
    RunOne(t, Deliver(r), []);
    RunNone(u);
    assert Ended(s, u, r);
  }

  /** What can end after a step that fails no query could end before it. */
  lemma EndsBefore(s: System, more: seq<Event>, t: System, r: RequestId)
    requires Run(s, more) == Some(t) && r < |s.requests| && r < |t.requests|
    requires NoNewFailure(s, t) && t.requests[r].key == s.requests[r].key
    requires t.requests[r].phase.Failed? ==> s.requests[r].phase.Failed?
    requires CanEnd(t, r)
    ensures CanEnd(s, r)
  {
    var rest: seq<Event> :| Run(t, rest).Some? && Ended(t, Run(t, rest).value, r);
    RunTwo(s, more, rest);
    assert Ended(s, Run(s, more + rest).value, r);
  }

  lemma FetchedEnds(s: System, r: RequestId)
    requires Good(s) && SentOk(s) && s.sent == [] && r < |s.requests| && s.requests[r].phase.Fetched?
    ensures CanEnd(s, r)
  {
    var t := ApplyResume(s, r);
    assert Apply(s, Resume(r)) == Some(t);
    ApplyStep(s, Resume(r));
    ApplyKeepsSent(s, Resume(r));
    RunOne(s, Resume(r), []);
    RunNone(t);
    if t.requests[r].phase.Waiting? {
      hide Good, SentOk;
      WaitingEnds(t, r);
      EndsBefore(s, [Resume(r)] + [], t, r);
    } else {
      assert Ended(s, t, r);
    }
  }

  /**
   Nobody is left waiting: from every state of every run, each request can be
   brought to its end, and that is an answer unless a query of the same list had
   failed before.
   */
  lemma EveryRequestCanEnd(events: seq<Event>, s: System, r: RequestId)
    requires Run(INITIAL, events) == Some(s) && r < |s.requests|
    ensures CanEnd(s, r)
  {
    RunStaysGood(INITIAL, events);
    RunKeepsSent(INITIAL, events);
    var t := Drain(s, r);
    assert !Awaited(t, Get(r));
    if t.requests[r].phase.Waiting? {
      WaitingEnds(t, r);
    } else if t.requests[r].phase.Fetched? {
      FetchedEnds(t, r);
    } else {
      RunNone(t);
      assert Ended(t, t, r) by {
        assert t.requests[r].phase.Answered? || t.requests[r].phase.Failed?;
      }
    }
    EndsBefore(s, Redises(|s.sent|), t, r);
  }

  // -------------------------------------------------------------- a single miss

  /** What follows the reply that the list is not in the cache: both queries, the store, the clean-up, the answer. */
  function AfterMiss(l: LoadId, r: RequestId): seq<Event> {
    [ReadRows(l)]
    + ([ReadTotal(l)] + ([Loaded(l)] + ([Redis] + ([AfterStore(l)] + ([Close(l)] + ([Deliver(r)] + []))))))
  }

  lemma WrittenTwice(s: System, l: LoadId, before: LoadPhase, after: LoadPhase)
    requires l < |s.loads|
    ensures WithLoad(WithLoad(s, l, before), l, after) == WithLoad(s, l, after)
  {
    assert s.loads[l := s.loads[l].(phase := before)][l := s.loads[l].(phase := after)]
        == s.loads[l := s.loads[l].(phase := after)];
  }

  /** The list of query `l`, read now, and the state in which its SET and SADD are on the connection. */
  function PageNow(s: System, l: LoadId): Page
    requires l < |s.loads|
  {
    Page(s.loads[l].key, s.version, s.version)
  }

  function StoreSent(s: System, l: LoadId): System
    requires l < |s.loads|
  {
    Send(WithLoad(s, l, Storing(PageNow(s, l))), SetAdd(l))
  }

  lemma MissReads(s: System, l: LoadId, rest: seq<Event>)
    requires l < |s.loads| && s.loads[l].phase == Reading(None, None)
    requires s.loads[l].generation == s.process.generation
    ensures Run(s, [ReadRows(l)] + ([ReadTotal(l)] + ([Loaded(l)] + rest))) == Run(StoreSent(s, l), rest)
  {
    var rows := Some(s.version);
    var s1, s2 := WithLoad(s, l, Reading(rows, None)), WithLoad(s, l, Reading(rows, rows));
    WrittenTwice(s, l, Reading(rows, None), Reading(rows, rows));
    WrittenTwice(s, l, Reading(rows, rows), Storing(PageNow(s, l)));
    assert Apply(s, ReadRows(l)) == Some(s1) && Apply(s1, ReadTotal(l)) == Some(s2);
    assert Apply(s2, Loaded(l)) == Some(StoreSent(s, l));
    hide Apply, Run, WithLoad, Send;
    RunOne(s2, Loaded(l), rest);
    RunOne(s1, ReadTotal(l), [Loaded(l)] + rest);
    RunOne(s, ReadRows(l), [ReadTotal(l)] + ([Loaded(l)] + rest));
  }

  /** The list is stored, and the query has settled. */
  function Served(s: System, l: LoadId): System
    requires l < |s.loads|
  {
    var page := PageNow(s, l);
    s.(process := s.process.(inFlight := s.process.inFlight - {page.key}),
       cache := s.cache[page.key := page], index := s.index + {page.key},
       loads := s.loads[l := s.loads[l].(phase := Closed(Some(page)))])
  }

  lemma MissStores(s: System, l: LoadId, rest: seq<Event>)
    requires s.sent == [] && l < |s.loads| && s.process.Running(s.loads[l].key) == Some(l)
    ensures Run(StoreSent(s, l), [Redis] + ([AfterStore(l)] + ([Close(l)] + rest))) == Run(Served(s, l), rest)
  {
    var page, s3 := PageNow(s, l), StoreSent(s, l);
    var stored := s.(cache := s.cache[page.key := page], index := s.index + {page.key});
    var s4, s5 := WithLoad(stored, l, Stored(page)), WithLoad(stored, l, Resolved(Some(page)));
    WrittenTwice(stored, l, Storing(page), Stored(page));
    WrittenTwice(stored, l, Stored(page), Resolved(Some(page)));
    WrittenTwice(stored, l, Resolved(Some(page)), Closed(Some(page)));
    assert s3.sent == [SetAdd(l)] && s3.sent[1..] == [];
    assert Apply(s3, Redis) == Some(s4) && Apply(s4, AfterStore(l)) == Some(s5);
    assert Apply(s5, Close(l)) == Some(Served(s, l));
    hide Apply, Run, WithLoad, StoreSent, Served;
    RunOne(s5, Close(l), rest);
    RunOne(s4, AfterStore(l), [Close(l)] + rest);
    RunOne(s3, Redis, [AfterStore(l)] + ([Close(l)] + rest));
  }

  /**
   A query that has just begun, with nothing else going on: both reads see the
   data of now, the list is stored under its key and in the index, the query is no
   longer joined, and the request that began it is answered with that list.
   */
  lemma MissIsServed(s: System, l: LoadId, r: RequestId)
    requires s.sent == [] && l < |s.loads| && s.loads[l].phase == Reading(None, None)
    requires s.loads[l].generation == s.process.generation && s.process.Running(s.loads[l].key) == Some(l)
    requires r < |s.requests| && s.requests[r].phase == Waiting(l)
    ensures var page := Page(s.loads[l].key, s.version, s.version);
      Run(s, AfterMiss(l, r)) == Some(s.(
        process := s.process.(inFlight := s.process.inFlight - {page.key}),
        cache := s.cache[page.key := page], index := s.index + {page.key},
        loads := s.loads[l := s.loads[l].(phase := Closed(Some(page)))],
        requests := s.requests[r := s.requests[r].(phase := Answered(page))]))
  {
    var end := WithRequest(Served(s, l), r, Answered(PageNow(s, l)));
    assert Apply(Served(s, l), Deliver(r)) == Some(end);
    hide Apply, Run;
    RunNone(end);
    RunOne(Served(s, l), Deliver(r), []);
    MissStores(s, l, [Deliver(r)] + []);
    MissReads(s, l, [Redis] + ([AfterStore(l)] + ([Close(l)] + ([Deliver(r)] + []))));
  }

  /** A request for a list that is neither cached nor being read begins a query, of the current generation. */
  lemma MissBeginsQuery(s: System, key: Key)
    requires s.sent == [] && s.process.Running(key) == None && key !in s.cache
    ensures Run(s, Ask(|s.requests|, key)) == Some(s.(
      process := s.process.(inFlight := s.process.inFlight[key := |s.loads|]),
      loads := s.loads + [Load(key, s.process.generation, s.version, Reading(None, None))],
      requests := s.requests + [Request(key, FinishedWriters(s), Waiting(|s.loads|))]))
  {
    hide Run;
    var r, after := |s.requests|, FinishedWriters(s);
    var s1 := ApplyArrive(s, key);
    assert s1.sent == [Get(r)] && s1.sent[1..] == [];
    var s2 := WithRequest(s1.(sent := []), r, Fetched(None));
    assert Apply(s1, Redis) == Some(s2);
    var s3 := ApplyResume(s2, r);
    assert Apply(s2, Resume(r)) == Some(s3);
    UpdateLast(s.requests, Request(key, after, Fetching), Request(key, after, Fetched(None)));
    UpdateLast(s.requests, Request(key, after, Fetched(None)), Request(key, after, Waiting(|s.loads|)));
    hide Apply, ApplyArrive, FinishedWriters;
    RunNone(s3);
    RunOne(s2, Resume(r), []);
    RunOne(s1, Redis, [Resume(r)] + []);
    RunOne(s, Arrive(key), [Redis] + ([Resume(r)] + []));
  }

  /**
   From any reachable state with an idle connection: a request for a list that is
   neither cached nor being read is answered with the data of now, and from then
   on the list is in the cache and in the index.
   */
  lemma ColdRequestIsServed(events: seq<Event>, s: System, key: Key)
    requires Run(INITIAL, events) == Some(s)
    requires s.sent == [] && s.process.Running(key) == None && key !in s.cache
    ensures var l, r, page := |s.loads|, |s.requests|, Page(key, s.version, s.version);
      var end := Run(s, Ask(r, key) + AfterMiss(l, r));
      && end.Some? && r < |end.value.requests| && end.value.requests[r].phase == Answered(page)
      && end.value.cache == s.cache[key := page] && end.value.index == s.index + {key}
      && end.value.process == s.process && end.value.requests[..r] == s.requests
  {
    var l, r := |s.loads|, |s.requests|;
    MissBeginsQuery(s, key);
    var asked := Run(s, Ask(r, key)).value;
    hide Run;
    MissIsServed(asked, l, r);
    RunTwo(s, Ask(r, key), AfterMiss(l, r));
    assert s.process.inFlight[key := l] - {key} == s.process.inFlight;
  }
}
