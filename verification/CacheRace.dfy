/**
 Why the freshness theorem speaks of SMEMBERS that cover the cache.
 `invalidateAll` reads the index and deletes in two commands; a list stored in
 between loses its index entry, later invalidations cannot see it, and until it
 expires it is served as if it were current.
 */
module CacheRace {
  import opened Outcomes
  import opened DevicesCache
  import opened CacheProtocol
  import opened CacheAnswers

  lemma RunOne(s: System, e: Event, rest: seq<Event>)
    requires Apply(s, e).Some?
    ensures Run(s, [e] + rest) == Run(Apply(s, e).value, rest)
  {
    assert ([e] + rest)[1..] == rest;
  }

  lemma {:induction false} RunTwo(s: System, a: seq<Event>, b: seq<Event>)
    requires Run(s, a).Some?
    ensures Run(s, a + b) == Run(Run(s, a).value, b)
    decreases |a|
  {
    if a == [] {
      assert a + b == b;
    } else {
      assert (a + b)[1..] == a[1..] + b;
      RunTwo(Apply(s, a[0]).value, a[1..], b);
    }
  }

  /** A live entry that no invalidation will find. */
  predicate Orphan(s: System, key: Key) {
    key in s.cache && key !in s.index
  }

  /** A data change by a new writer `w` and its complete invalidation, alone on the connection. */
  function ChangeAndPurge(w: WriterId): seq<Event> {
    ChangeAndList(w) + Delete(w)
  }

  function ChangeAndList(w: WriterId): seq<Event> {
    [Write] + ([Invalidate(w)] + ([Redis] + []))
  }

  function Delete(w: WriterId): seq<Event> {
    [SendDel(w)] + ([Redis] + ([Finish(w)] + []))
  }

  function Ask(r: RequestId, key: Key): seq<Event> {
    [Arrive(key)] + ([Redis] + ([Resume(r)] + []))
  }

  /** What the complete invalidation leaves: every entry of the index is gone, an orphan is not. */
  function Purged(s: System): System {
    s.(process := s.process.Invalidate(),
       version := s.version + 1,
       cache := s.cache - s.index,
       index := {},
       writers := s.writers + [Writer(s.version + 1, Finished)])
  }

  lemma RunNone(s: System)
    ensures Run(s, []) == Some(s)
  {
  }

  lemma UpdateLast<T>(xs: seq<T>, before: T, after: T)
    ensures (xs + [before])[|xs| := after] == xs + [after]
  {
  }

  /** `s` after a new writer has changed data, called invalidateAll and sent its SMEMBERS. */
  function ListingSent(s: System): System {
    s.(process := s.process.Invalidate(),
       version := s.version + 1,
       sent := s.sent + [Members(|s.writers|)],
       writers := s.writers + [Writer(s.version + 1, Listing)])
  }

  function ListingDone(s: System): System {
    s.(process := s.process.Invalidate(),
       version := s.version + 1,
       writers := s.writers + [Writer(s.version + 1, Listed(s.index))])
  }

  lemma SendListing(s: System)
    ensures Apply(s, Write) == Some(ApplyWrite(s))
    ensures Apply(ApplyWrite(s), Invalidate(|s.writers|)) == Some(ListingSent(s))
  {
    UpdateLast(s.writers, Writer(s.version + 1, Wrote), Writer(s.version + 1, Listing));
  }

  lemma ExecuteListing(s: System)
    requires s.sent == []
    ensures Apply(ListingSent(s), Redis) == Some(ListingDone(s))
  {
    var t := ListingSent(s);
    assert t.sent == [Members(|s.writers|)] && t.sent[1..] == s.sent;
    UpdateLast(s.writers, Writer(s.version + 1, Listing), Writer(s.version + 1, Listed(s.index)));
  }

  lemma ChangeAndListEffect(s: System)
    requires s.sent == []
    ensures Run(s, ChangeAndList(|s.writers|)) == Some(ListingDone(s))
  {
    SendListing(s);
    ExecuteListing(s);
    var w := |s.writers|;
    hide Apply, Run, ApplyWrite, ListingSent, ListingDone;
    RunNone(ListingDone(s));
    RunOne(ListingSent(s), Redis, []);
    RunOne(ApplyWrite(s), Invalidate(w), [Redis] + []);
    RunOne(s, Write, [Invalidate(w)] + ([Redis] + []));
  }

  /** `s` after writer `w` has sent its DEL. */
  function DelSent(s: System, w: WriterId): System
    requires w < |s.writers| && s.writers[w].phase.Listed?
  {
    ApplySendDel(s, w)
  }

  function DelDone(s: System, w: WriterId, phase: WriterPhase): System
    requires w < |s.writers| && s.writers[w].phase.Listed?
  {
    WithWriter(s, w, phase).(cache := s.cache - s.writers[w].phase.keys, index := {})
  }

  lemma ExecuteDel(s: System, w: WriterId)
    requires s.sent == [] && w < |s.writers| && s.writers[w].phase.Listed?
    ensures Apply(s, SendDel(w)) == Some(DelSent(s, w))
    ensures Apply(DelSent(s, w), Redis) == Some(DelDone(s, w, Deleted))
    ensures Apply(DelDone(s, w, Deleted), Finish(w)) == Some(DelDone(s, w, Finished))
  {
    var t := DelSent(s, w);
    assert t.sent == [Del(w)] && t.sent[1..] == s.sent;
    assert t.writers[w := t.writers[w].(phase := Deleted)] == DelDone(s, w, Deleted).writers;
    var d := DelDone(s, w, Deleted);
    assert d.writers[w := d.writers[w].(phase := Finished)] == DelDone(s, w, Finished).writers;
  }

  lemma DeleteEffect(s: System, w: WriterId)
    requires s.sent == [] && w < |s.writers| && s.writers[w].phase.Listed?
    ensures Run(s, Delete(w)) == Some(DelDone(s, w, Finished))
  {
    ExecuteDel(s, w);
    hide Apply, Run, DelSent, DelDone;
    RunNone(DelDone(s, w, Finished));
    RunOne(DelDone(s, w, Deleted), Finish(w), []);
    RunOne(DelSent(s, w), Redis, [Finish(w)] + []);
    RunOne(s, SendDel(w), [Redis] + ([Finish(w)] + []));
  }

  lemma ChangeAndPurgeEffect(s: System)
    requires s.sent == []
    ensures Run(s, ChangeAndPurge(|s.writers|)) == Some(Purged(s))
  {
    hide Run;
    var w := |s.writers|;
    ChangeAndListEffect(s);
    DeleteEffect(ListingDone(s), w);
    RunTwo(s, ChangeAndList(w), Delete(w));
    UpdateLast(s.writers, Writer(s.version + 1, Listed(s.index)), Writer(s.version + 1, Finished));
  }

  /** With nothing in flight and a live entry, a request is answered from the cache. */
  lemma AskEffect(s: System, key: Key)
    requires s.sent == [] && s.process.Running(key) == None && key in s.cache
    ensures Run(s, Ask(|s.requests|, key))
            == Some(s.(requests := s.requests + [Request(key, FinishedWriters(s), Answered(s.cache[key]))]))
  {
    hide Run;
    var r, after := |s.requests|, FinishedWriters(s);
    var s1 := ApplyArrive(s, key);
    assert s1.sent == [Get(r)] && s1.sent[1..] == [] && s1.requests[r].phase == Fetching;
    var s2 := WithRequest(s1.(sent := []), r, Fetched(Some(s.cache[key])));
    assert Apply(s1, Redis) == Some(s2);
    var s3 := WithRequest(s2, r, Answered(s.cache[key]));
    assert Apply(s2, Resume(r)) == Some(s3);
    UpdateLast(s.requests, Request(key, after, Fetching), Request(key, after, Fetched(Some(s.cache[key]))));
    UpdateLast(s.requests, Request(key, after, Fetched(Some(s.cache[key]))),
               Request(key, after, Answered(s.cache[key])));
    hide Apply, ApplyArrive, FinishedWriters;
    RunNone(s3);
    RunOne(s2, Resume(r), []);
    RunOne(s1, Redis, [Resume(r)] + []);
    RunOne(s, Arrive(key), [Redis] + ([Resume(r)] + []));
  }

  /**
   From any state with an idle connection and an orphan, one data change and its
   complete invalidation are followed by a request that is answered with the
   orphan, which was read before that change.
   */
  lemma OrphanAnswersStale(events: seq<Event>, s: System, key: Key)
    requires Run(INITIAL, events) == Some(s)
    requires s.sent == [] && Orphan(s, key)
    ensures var w, r := |s.writers|, |s.requests|;
            var purged := Run(s, ChangeAndPurge(w));
            && purged.Some?
            && w < |purged.value.writers| && purged.value.writers[w].phase == Finished
            && var end := Run(purged.value, Ask(r, key));
            && end.Some?
            && r < |end.value.requests|
            && end.value.requests[r].phase == Answered(s.cache[key])
            && !s.cache[key].AtLeast(purged.value.writers[w].version)
  {
    RunStaysGood(INITIAL, events);
    assert PageOf(key, s.cache[key], s.version);
    ChangeAndPurgeEffect(s);
    AskEffect(Purged(s), key);
  }

  /** The request with which `Ask` ends, if it has been answered, has a page read at `version` or later. */
  predicate AnsweredSince(s: Option<System>, r: RequestId, version: nat) {
    && s.Some? && r < |s.value.requests| && s.value.requests[r].phase.Answered?
    && s.value.requests[r].phase.page.AtLeast(version)
  }

  /** The rest of an invalidation whose SMEMBERS is next on the connection. */
  function Purge(w: WriterId): seq<Event> {
    [Redis] + Delete(w)
  }

  /**
   The listing decides. When a SMEMBERS is all there is on the connection and no
   query is running, let the invalidation run to its end: whatever is then still
   cached is served, and all of it is newer than the change exactly if the
   SMEMBERS covered the cache.
   */
  lemma ListingDecides(s: System, w: WriterId)
    requires s.sent == [Members(w)] && w < |s.writers| && s.writers[w].phase.Listing?
    requires s.process.inFlight == map[]
    ensures var purged := Run(s, Purge(w));
            && purged.Some? && purged.value.writers == s.writers[w := s.writers[w].(phase := Finished)]
            && (Covers(s, w) <==>
                  forall key <- purged.value.cache ::
                    AnsweredSince(Run(purged.value, Ask(|s.requests|, key)), |s.requests|, s.writers[w].version))
  {
    var listed := WithWriter(s.(sent := []), w, Listed(s.index));
    assert Apply(s, Redis) == Some(listed);
    RunOne(s, Redis, Delete(w));
    DeleteEffect(listed, w);
    var purged := DelDone(listed, w, Finished);
    assert Run(s, Purge(w)) == Some(purged);
    assert purged.writers == s.writers[w := s.writers[w].(phase := Finished)];
    assert purged.cache == s.cache - s.index;
    forall key | key in purged.cache
      ensures AnsweredSince(Run(purged, Ask(|s.requests|, key)), |s.requests|, s.writers[w].version)
         <==> s.cache[key].AtLeast(s.writers[w].version)
    {
      AskEffect(purged, key);
    }
    hide Run;
  }

  // The gap is real: a run from the initial state that loses an index entry.

  /** A request misses the cache while an invalidation is listing the index ... */
  function MissWhileListing(key: Key): seq<Event> {
    [Write] + ([Invalidate(0)] + ([Arrive(key)] + ([Redis] + ([Redis] + ([Resume(0)] + [])))))
  }

  /** ... and its list is stored before the DEL. */
  function StoreBeforeDel(): seq<Event> {
    [ReadRows(0)] + ([ReadTotal(0)] + ([Loaded(0)] + ([Redis] + ([SendDel(0)] + ([Redis] + [])))))
  }

  function AfterMiss(key: Key): System {
    System(Process(map[key := 0], 1), 1, map[], {}, [],
           [Load(key, 1, 1, Reading(None, None))],
           [Request(key, {}, Waiting(0))],
           [Writer(1, Listed({}))])
  }

  function AfterRace(key: Key): System {
    AfterMiss(key).(
      cache := map[key := Page(key, 1, 1)],
      loads := [Load(key, 1, 1, Stored(Page(key, 1, 1)))],
      writers := [Writer(1, Deleted)])
  }

  lemma MissEffect(key: Key)
    ensures Run(INITIAL, MissWhileListing(key)) == Some(AfterMiss(key))
  {
    var s1 := ApplyWrite(INITIAL);
    var s2 := ApplyInvalidate(s1, 0);
    var s3 := ApplyArrive(s2, key);
    assert s3.sent == [Members(0), Get(0)];
    var s4 := WithWriter(s3.(sent := s3.sent[1..]), 0, Listed({}));
    assert s4.sent == [Get(0)];
    var s5 := WithRequest(s4.(sent := s4.sent[1..]), 0, Fetched(None));
    assert Apply(s3, Redis) == Some(s4);
    assert Apply(s4, Redis) == Some(s5);
    var s6 := ApplyResume(s5, 0);
    assert s6.loads == AfterMiss(key).loads;
    assert s6.requests == AfterMiss(key).requests by { assert FinishedWriters(s2) == {}; }
    assert s6.writers == AfterMiss(key).writers;
    assert s6 == AfterMiss(key);
    assert Apply(s5, Resume(0)) == Some(s6);
    assert Apply(INITIAL, Write) == Some(s1) && Apply(s1, Invalidate(0)) == Some(s2) && Apply(s2, Arrive(key)) == Some(s3);
    hide Run, Apply;
    RunNone(AfterMiss(key));
    RunOne(s5, Resume(0), []);
    RunOne(s4, Redis, [Resume(0)] + []);
    RunOne(s3, Redis, [Redis] + ([Resume(0)] + []));
    RunOne(s2, Arrive(key), [Redis] + ([Redis] + ([Resume(0)] + [])));
    RunOne(s1, Invalidate(0), [Arrive(key)] + ([Redis] + ([Redis] + ([Resume(0)] + []))));
    RunOne(INITIAL, Write, [Invalidate(0)] + ([Arrive(key)] + ([Redis] + ([Redis] + ([Resume(0)] + [])))));
  }

  /** The query has read, and its list is on its way to Redis. */
  function MidRace(key: Key): System {
    AfterMiss(key).(loads := [Load(key, 1, 1, Storing(Page(key, 1, 1)))], sent := [SetAdd(0)])
  }

  lemma ReadEffect(key: Key, rest: seq<Event>)
    ensures Run(AfterMiss(key), [ReadRows(0)] + ([ReadTotal(0)] + ([Loaded(0)] + rest))) == Run(MidRace(key), rest)
  {
    var s0 := AfterMiss(key);
    var s1 := WithLoad(s0, 0, Reading(Some(1), None));
    var s2 := WithLoad(s1, 0, Reading(Some(1), Some(1)));
    assert Apply(s0, ReadRows(0)) == Some(s1);
    assert Apply(s1, ReadTotal(0)) == Some(s2);
    assert s2.loads == [Load(key, 1, 1, Reading(Some(1), Some(1)))];
    assert ApplyLoaded(s2, 0).loads == MidRace(key).loads && ApplyLoaded(s2, 0).sent == [SetAdd(0)];
    assert ApplyLoaded(s2, 0) == MidRace(key);
    assert Apply(s2, Loaded(0)) == Some(MidRace(key));
    hide Run, Apply, MidRace, WithLoad, AfterMiss;
    RunOne(s2, Loaded(0), rest);
    RunOne(s1, ReadTotal(0), [Loaded(0)] + rest);
    RunOne(s0, ReadRows(0), [ReadTotal(0)] + ([Loaded(0)] + rest));
  }

  lemma StoreEffect(key: Key)
    ensures Run(AfterMiss(key), StoreBeforeDel()) == Some(AfterRace(key))
  {
    var s3, page := MidRace(key), Page(key, 1, 1);
    var s4 := WithLoad(s3.(sent := s3.sent[1..]), 0, Stored(page)).(
      cache := s3.cache[key := page], index := s3.index + {key});
    assert s4.cache == map[key := page] && s4.index == {key} && s4.sent == [];
    var s5 := ApplySendDel(s4, 0);
    assert s5.sent == [Del(0)];
    var s6 := WithWriter(s5.(sent := s5.sent[1..]), 0, Deleted).(cache := s5.cache - {}, index := {});
    assert s6.loads == AfterRace(key).loads && s6.writers == AfterRace(key).writers;
    assert s6 == AfterRace(key);
    assert Apply(s3, Redis) == Some(s4);
    assert Apply(s4, SendDel(0)) == Some(s5);
    assert Apply(s5, Redis) == Some(s6);
    hide Run, Apply, MidRace, WithLoad, WithWriter, ApplySendDel;
    RunNone(AfterRace(key));
    RunOne(s5, Redis, []);
    RunOne(s4, SendDel(0), [Redis] + []);
    RunOne(s3, Redis, [SendDel(0)] + ([Redis] + []));
    ReadEffect(key, [Redis] + ([SendDel(0)] + ([Redis] + [])));
  }

  lemma RaceReachesOrphan(key: Key)
    ensures Run(INITIAL, MissWhileListing(key) + StoreBeforeDel()) == Some(AfterRace(key))
    ensures AfterRace(key).sent == [] && Orphan(AfterRace(key), key)
  {
    hide Run;
    MissEffect(key);
    StoreEffect(key);
    RunTwo(INITIAL, MissWhileListing(key), StoreBeforeDel());
  }
}
