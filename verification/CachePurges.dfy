/**
 When the listing and the deletion of `invalidateAll` are as good as one step: in
 every run that stores no list between a writer's SMEMBERS and its DEL, each
 SMEMBERS finds the whole cache in the index, and answers are fresh.
 */
module CachePurges {
  import opened Outcomes
  import opened DevicesCache
  import opened CacheProtocol
  import opened CacheFreshness

  /** Between its SMEMBERS and its DEL. */
  predicate Purging(w: Writer) {
    w.phase.Listed? || w.phase.Deleting?
  }

  predicate StoresApartEvent(s: System, e: Event) {
    e == Redis && s.sent != [] && s.sent[0].SetAdd? ==> forall w | 0 <= w < |s.writers| :: !Purging(s.writers[w])
  }

  /** No list is stored while some writer is between its SMEMBERS and its DEL. */
  predicate StoresApart(s: System, events: seq<Event>)
    decreases |events|
  {
    events == [] ||
    (StoresApartEvent(s, events[0])
     && match Apply(s, events[0])
        case None => true
        case Some(next) => StoresApart(next, events[1..]))
  }

  /** Every live entry is in the index, and in what each purging writer has listed. */
  predicate Indexed(s: System) {
    && s.cache.Keys <= s.index
    && (forall w | 0 <= w < |s.writers| && Purging(s.writers[w]) :: s.cache.Keys <= s.writers[w].phase.keys)
  }

  lemma ApplyKeepsIndexed(s: System, e: Event)
    requires Indexed(s) && StoresApartEvent(s, e)
    ensures Apply(s, e).Some? ==> Indexed(Apply(s, e).value)
  {
  }

  /** Every state of such a run, so every SMEMBERS in it, finds the whole cache in the index. */
  lemma {:induction false} StoresApartCover(s: System, events: seq<Event>)
    requires Indexed(s) && StoresApart(s, events)
    ensures CoveredRun(s, events)
    ensures Run(s, events).Some? ==> Indexed(Run(s, events).value)
    decreases |events|
  {
    if events != [] && Apply(s, events[0]).Some? {
      ApplyKeepsIndexed(s, events[0]);
      StoresApartCover(Apply(s, events[0]).value, events[1..]);
    }
  }

  /**
   Freshness without a word about the index: if no list is stored between a
   SMEMBERS and its DEL, in particular if the two commands are one step, a
   request that arrives after a change was invalidated is answered with data
   read after that change.
   */
  lemma ApartAnswersAreFresh(before: seq<Event>, s: System, key: Key, after: seq<Event>, t: System, w: WriterId)
    requires StoresApart(INITIAL, before) && Run(INITIAL, before) == Some(s)
    requires w < |s.writers| && s.writers[w].phase.Finished?
    requires StoresApart(ApplyArrive(s, key), after) && Run(ApplyArrive(s, key), after) == Some(t)
    ensures |s.requests| < |t.requests|
    ensures t.requests[|s.requests|].phase.Answered?
            ==> t.requests[|s.requests|].phase.page.AtLeast(s.writers[w].version)
  {
    StoresApartCover(INITIAL, before);
    ApplyKeepsIndexed(s, Arrive(key));
    StoresApartCover(ApplyArrive(s, key), after);
    AnswersAreFresh(before, s, key, after, t, w);
  }
}
