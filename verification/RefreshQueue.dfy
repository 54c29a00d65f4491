/**
 Renewing the access token (frontend/src/lib/api-client.ts): the first request
 that is answered 401 refreshes the token; requests answered 401 meanwhile wait
 in a queue; when the refresh ends, all of them are sent again or rejected.
 Each stretch of code between two awaits is one step.
 */
module RefreshQueue {
  import opened Outcomes

  /** In flight; waiting in the queue; leading, that is refreshing the token; or settled. */
  datatype Phase = InFlight | Waiting | Leading | Settled(passed: bool)

  /** `sent` counts how often the request went out, `woken` how often its queue callback ran. */
  datatype Request = Request(isAuthEndpoint: bool, retry: bool, sent: nat, woken: nat, phase: Phase)

  datatype Client = Client(requests: seq<Request>, isRefreshing: bool, queue: seq<nat>, hasRefreshToken: bool)

  datatype Event =
    | Send(isAuthEndpoint: bool)
    | Answer(request: nat, unauthorized: bool, passed: bool)
    | RefreshEnds(leader: nat, renewed: bool)
    | SetAuth(signedIn: bool)

  // -------------------------------------------------------------------- steps

  function Update(c: Client, i: nat, r: Request): Client
    requires i < |c.requests|
  {
    c.(requests := c.requests[i := r])
  }

  /** The interceptor's error handler, up to its first await. */
  function OnAnswer(c: Client, i: nat, unauthorized: bool, passed: bool): Client {
    if i >= |c.requests| || !c.requests[i].phase.InFlight? then c
    else
      var r := c.requests[i];
      if !unauthorized then Update(c, i, r.(phase := Settled(passed)))
      else if r.retry || r.isAuthEndpoint then Update(c, i, r.(phase := Settled(false)))
      else if !c.hasRefreshToken then Update(c, i, r.(phase := Settled(false)))
      else if c.isRefreshing then Update(c, i, r.(retry := true, phase := Waiting)).(queue := c.queue + [i])
      else Update(c, i, r.(retry := true, phase := Leading)).(isRefreshing := true)
  }

  /** The callback of a waiter: sent again with the new token, or rejected. */
  function Woken(r: Request, renewed: bool): Request {
    if renewed then r.(woken := r.woken + 1, sent := r.sent + 1, phase := InFlight)
    else r.(woken := r.woken + 1, phase := Settled(false))
  }

  /** `flushQueue`: the first `k` callbacks have run. */
  function Flushed(requests: seq<Request>, queue: seq<nat>, k: nat, renewed: bool): (r: seq<Request>)
    requires k <= |queue|
    ensures |r| == |requests|
  {
    if k == 0 then requests
    else
      var before := Flushed(requests, queue, k - 1, renewed);
      if queue[k - 1] < |before| then before[queue[k - 1] := Woken(before[queue[k - 1]], renewed)] else before
  }

  /** What follows the refresh call: the queue is flushed, and the leader sent again or rejected. */
  function OnRefreshEnds(c: Client, i: nat, renewed: bool): Client {
    if i >= |c.requests| || !c.requests[i].phase.Leading? then c
    else
      var requests := Flushed(c.requests, c.queue, |c.queue|, renewed);
      var r := requests[i];
      Client(requests[i := if renewed then r.(sent := r.sent + 1, phase := InFlight) else r.(phase := Settled(false))],
             false, [], renewed)
  }

  function Apply(c: Client, e: Event): Client {
    match e
    case Send(isAuthEndpoint) => c.(requests := c.requests + [Request(isAuthEndpoint, false, 1, 0, InFlight)])
    case Answer(i, unauthorized, passed) => OnAnswer(c, i, unauthorized, passed)
    case RefreshEnds(i, renewed) => OnRefreshEnds(c, i, renewed)
    case SetAuth(signedIn) => c.(hasRefreshToken := signedIn)
  }

  function Run(c: Client, events: seq<Event>): Client
    decreases |events|
  {
    if events == [] then c else Run(Apply(c, events[0]), events[1..])
  }

  // ---------------------------------------------------------------- invariant

  /** A request goes out once, and once more after a refresh; its callback runs only then, and only once. */
  predicate RequestOk(r: Request) {
    && (!r.retry ==> r.sent == 1 && r.woken == 0 && (r.phase.InFlight? || r.phase.Settled?))
    && (r.phase.Waiting? || r.phase.Leading? ==> r.retry && r.sent == 1 && r.woken == 0)
    && (r.retry && r.phase.InFlight? ==> r.sent == 2)
    && 1 <= r.sent <= 2 && r.woken <= 1
  }

  /** The queue holds exactly the waiting requests, each once. */
  predicate QueueOk(c: Client) {
    && (forall k | 0 <= k < |c.queue| :: c.queue[k] < |c.requests| && c.requests[c.queue[k]].phase.Waiting?)
    && (forall i | 0 <= i < |c.requests| && c.requests[i].phase.Waiting? :: i in c.queue)
    && forall j, k | 0 <= j < k < |c.queue| :: c.queue[j] != c.queue[k]
  }

  predicate Leads(c: Client, i: int) {
    0 <= i < |c.requests| && c.requests[i].phase.Leading?
  }

  /** One refresh is under way when `isRefreshing` is set, and none otherwise. */
  predicate OneLeader(c: Client) {
    && (forall i, j | 0 <= i < j < |c.requests| :: !(Leads(c, i) && Leads(c, j)))
    && (c.isRefreshing <==> exists i | 0 <= i < |c.requests| :: Leads(c, i))
  }

  predicate ClientOk(c: Client) {
    && (forall i | 0 <= i < |c.requests| :: RequestOk(c.requests[i]))
    && QueueOk(c) && OneLeader(c)
    && (c.queue != [] ==> c.isRefreshing)
  }

  lemma AnswerKeepsOk(c: Client, i: nat, unauthorized: bool, passed: bool)
    requires ClientOk(c)
    ensures ClientOk(OnAnswer(c, i, unauthorized, passed))
  {
    var after := OnAnswer(c, i, unauthorized, passed);
    if after != c {
      assert RequestOk(c.requests[i]) && !Leads(c, i);
      assert after.requests == c.requests[i := after.requests[i]];
      AnswerKeepsQueue(c, i, unauthorized, passed);
      if after.requests[i].phase.Leading? {
        NoLeaderBefore(c);
        assert Leads(after, i);
        assert forall j :: j != i ==> Leads(after, j) == Leads(c, j);
      } else {
        assert forall j :: Leads(after, j) <==> Leads(c, j);
        assert after.isRefreshing == c.isRefreshing;
      }
      assert OneLeader(after);
      assert RequestOk(after.requests[i]);
    }
  }

  lemma NoLeaderBefore(c: Client)
    requires OneLeader(c) && !c.isRefreshing
    ensures forall j :: !Leads(c, j)
  {
  }

  lemma AnswerKeepsQueue(c: Client, i: nat, unauthorized: bool, passed: bool)
    requires QueueOk(c)
    ensures QueueOk(OnAnswer(c, i, unauthorized, passed))
  {
    var after := OnAnswer(c, i, unauthorized, passed);
    if after.queue != c.queue {
      assert after.queue == c.queue + [i];
      assert i in after.queue && forall j <- c.queue :: j in after.queue;
    }
  }

  /** Flushing wakes every request of the queue once, and touches no other. */
  lemma {:induction false} FlushedAt(requests: seq<Request>, queue: seq<nat>, k: nat, renewed: bool, i: nat)
    requires k <= |queue| && i < |requests|
    requires forall a, b | 0 <= a < b < |queue| :: queue[a] != queue[b]
    ensures Flushed(requests, queue, k, renewed)[i] ==
            if i in queue[..k] then Woken(requests[i], renewed) else requests[i]
  {
    if k > 0 {
      FlushedAt(requests, queue, k - 1, renewed, i);
      assert queue[..k] == queue[..k - 1] + [queue[k - 1]];
      assert queue[k - 1] !in queue[..k - 1];
    }
  }

  lemma AfterRefresh(c: Client, i: nat, renewed: bool, j: nat)
    requires ClientOk(c) && Leads(c, i) && j < |c.requests|
    ensures var r := OnRefreshEnds(c, i, renewed).requests[j];
      && RequestOk(r) && !r.phase.Waiting? && !r.phase.Leading?
      && (c.requests[j].phase.Waiting? ==> r == Woken(c.requests[j], renewed))
      && (!c.requests[j].phase.Waiting? && j != i ==> r == c.requests[j])
  {
    FlushedAt(c.requests, c.queue, |c.queue|, renewed, j);
    FlushedAt(c.requests, c.queue, |c.queue|, renewed, i);
    assert c.queue[..|c.queue|] == c.queue;
    assert RequestOk(c.requests[j]) && RequestOk(c.requests[i]);
    assert j != i ==> !(Leads(c, if i < j then i else j) && Leads(c, if i < j then j else i));
    assert j in c.queue <==> c.requests[j].phase.Waiting?;
    assert i !in c.queue;
  }

  lemma RefreshKeepsOk(c: Client, i: nat, renewed: bool)
    requires ClientOk(c)
    ensures ClientOk(OnRefreshEnds(c, i, renewed))
  {
    if Leads(c, i) {
      var after := OnRefreshEnds(c, i, renewed);
      forall j | 0 <= j < |c.requests|
        ensures RequestOk(after.requests[j]) && !after.requests[j].phase.Waiting? && !after.requests[j].phase.Leading?
      {
        AfterRefresh(c, i, renewed, j);
      }
      hide Flushed, RequestOk;
    }
  }

  lemma SendKeepsOk(c: Client, isAuthEndpoint: bool)
    requires ClientOk(c)
    ensures ClientOk(Apply(c, Send(isAuthEndpoint)))
  {
    var after := Apply(c, Send(isAuthEndpoint));
    assert forall j :: Leads(after, j) <==> Leads(c, j);
  }

  /**
   In every interleaving of answers and refreshes: at most one refresh is under
   way, requests wait only while one is, each waiting request is woken exactly
   once, and no request is sent more than twice.
   */
  lemma {:induction false} RunKeepsOk(c: Client, events: seq<Event>)
    requires ClientOk(c)
    ensures ClientOk(Run(c, events))
    decreases |events|
  {
    if events != [] {
      match events[0] {
        case Send(isAuthEndpoint) => SendKeepsOk(c, isAuthEndpoint);
        case Answer(i, unauthorized, passed) => AnswerKeepsOk(c, i, unauthorized, passed);
        case RefreshEnds(i, renewed) => RefreshKeepsOk(c, i, renewed);
        case SetAuth(signedIn) => AuthKeepsOk(c, signedIn);
      }
      RunKeepsOk(Apply(c, events[0]), events[1..]);
    }
  }

  lemma AuthKeepsOk(c: Client, signedIn: bool)
    requires ClientOk(c)
    ensures ClientOk(c.(hasRefreshToken := signedIn))
  {
    var after := c.(hasRefreshToken := signedIn);
    assert forall j :: Leads(after, j) <==> Leads(c, j);
  }

  lemma StartOk(signedIn: bool)
    ensures ClientOk(Client([], false, [], signedIn))
  {
  }

  /** From the start, whether signed in or not. */
  lemma RefreshedOnceFromTheStart(signedIn: bool, events: seq<Event>)
    ensures ClientOk(Run(Client([], false, [], signedIn), events))
  {
    StartOk(signedIn);
    RunKeepsOk(Client([], false, [], signedIn), events);
  }

  /** When a refresh ends, nobody is left waiting: all waiters have been woken, once, the same way. */
  lemma RefreshWakesEveryone(c: Client, i: nat, renewed: bool)
    requires ClientOk(c) && Leads(c, i)
    ensures var after := OnRefreshEnds(c, i, renewed);
      && !after.isRefreshing && after.queue == []
      && forall j | 0 <= j < |c.requests| && c.requests[j].phase.Waiting? ::
           after.requests[j].woken == 1
           && after.requests[j].phase == if renewed then InFlight else Settled(false)
  {
    forall j | 0 <= j < |c.requests| && c.requests[j].phase.Waiting?
      ensures OnRefreshEnds(c, i, renewed).requests[j] == Woken(c.requests[j], renewed) && c.requests[j].woken == 0
    {
      AfterRefresh(c, i, renewed, j);
      assert RequestOk(c.requests[j]);
    }
    hide Flushed;
  }

  // ------------------------------------------------------- one request's way

  /** A first answer 401 to an ordinary request while there is a refresh token. */
  predicate CanBeRenewed(c: Client, i: nat) {
    && i < |c.requests| && c.requests[i].phase.InFlight?
    && !c.requests[i].isAuthEndpoint && !c.requests[i].retry && c.hasRefreshToken
  }

  /** Nothing but its own answer moves a request that is in flight. */
  lemma {:induction false} StaysInFlight(c: Client, events: seq<Event>, i: nat)
    requires ClientOk(c) && i < |c.requests| && c.requests[i].phase.InFlight?
    requires forall e <- events :: !(e.Answer? && e.request == i)
    ensures ClientOk(Run(c, events)) && i < |Run(c, events).requests| && Run(c, events).requests[i] == c.requests[i]
    decreases |events|
  {
    if events != [] {
      assert events[0] in events && forall e <- events[1..] :: e in events;
      RunKeepsOk(c, [events[0]]);
      assert [events[0]][1..] == [] && Run(Apply(c, events[0]), []) == Apply(c, events[0]);
      OthersStayPut(c, events[0], i);
      hide ClientOk, Apply;
      StaysInFlight(Apply(c, events[0]), events[1..], i);
    }
  }

  /** A request that is not waiting is moved only by its own answer, or by the end of its own refresh. */
  lemma OthersStayPut(c: Client, e: Event, i: nat)
    requires ClientOk(c) && i < |c.requests| && !c.requests[i].phase.Waiting?
    requires e.Answer? && e.request == i ==> !c.requests[i].phase.InFlight?
    requires e.RefreshEnds? && e.leader == i ==> !c.requests[i].phase.Leading?
    ensures i < |Apply(c, e).requests| && Apply(c, e).requests[i] == c.requests[i]
  {
    if e.RefreshEnds? && Leads(c, e.leader) {
      AfterRefresh(c, e.leader, e.renewed, i);
    }
    hide Flushed, ClientOk;
  }

  /** The leader leads until its refresh ends, and the refresh is under way as long. */
  lemma {:induction false} StaysLeading(c: Client, events: seq<Event>, i: nat)
    requires ClientOk(c) && Leads(c, i) && forall e <- events :: !(e.RefreshEnds? && e.leader == i)
    ensures ClientOk(Run(c, events)) && i < |Run(c, events).requests| && Run(c, events).requests[i] == c.requests[i]
    decreases |events|
  {
    if events != [] {
      assert events[0] in events && forall e <- events[1..] :: e in events;
      RunKeepsOk(c, [events[0]]);
      assert [events[0]][1..] == [] && Run(Apply(c, events[0]), []) == Apply(c, events[0]);
      OthersStayPut(c, events[0], i);
      hide ClientOk, Apply;
      StaysLeading(Apply(c, events[0]), events[1..], i);
    }
  }

  lemma {:induction false} RunBoth(c: Client, a: seq<Event>, b: seq<Event>)
    ensures Run(c, a + b) == Run(Run(c, a), b)
    decreases |a|
  {
    if a == [] {
      assert a + b == b;
    } else {
      assert (a + b)[1..] == a[1..] + b;
      RunBoth(Apply(c, a[0]), a[1..], b);
    }
  }

  lemma RunOne(c: Client, e: Event)
    ensures Run(c, [e]) == Apply(c, e)
  {
    assert [e][1..] == [] && Run(Apply(c, e), []) == Apply(c, e);
  }

  /** The start of a client, and what it has been through. */
  function Reached(signedIn: bool, before: seq<Event>): Client {
    Run(Client([], false, [], signedIn), before)
  }

  /**
   A request of which the first answer is 401, when no refresh is under way: it
   begins one. If that succeeds the request goes out a second time, and ends with
   its next answer; whatever else happens in between.
   */
  lemma LeaderComesThrough(signedIn: bool, before: seq<Event>, i: nat, meanwhile: seq<Event>, later: seq<Event>,
                           passed: bool)
    requires CanBeRenewed(Reached(signedIn, before), i) && !Reached(signedIn, before).isRefreshing
    requires forall e <- meanwhile :: !(e.RefreshEnds? && e.leader == i)
    requires forall e <- later :: !(e.Answer? && e.request == i)
    ensures var led := Apply(Reached(signedIn, before), Answer(i, true, false));
      && led.isRefreshing && led.requests[i].phase.Leading?
      && var end := Run(Run(Run(led, meanwhile), [RefreshEnds(i, true)] + later), [Answer(i, false, passed)]);
         i < |end.requests| && end.requests[i].phase == Settled(passed) && end.requests[i].sent == 2
  {
    var c := Reached(signedIn, before);
    RefreshedOnceFromTheStart(signedIn, before);
    AnswerKeepsOk(c, i, true, false);
    assert RequestOk(c.requests[i]);
    var led := Apply(c, Answer(i, true, false));
    assert led.requests[i].phase.Leading? && led.requests[i].sent == 1 && led.isRefreshing;
    StaysLeading(led, meanwhile, i);
    var during := Run(led, meanwhile);
    AfterLeading(during, i, later, passed);
  }

  lemma AfterLeading(c: Client, i: nat, later: seq<Event>, passed: bool)
    requires ClientOk(c) && Leads(c, i) && c.requests[i].sent == 1
    requires forall e <- later :: !(e.Answer? && e.request == i)
    ensures var end := Run(Run(c, [RefreshEnds(i, true)] + later), [Answer(i, false, passed)]);
      i < |end.requests| && end.requests[i].phase == Settled(passed) && end.requests[i].sent == 2
  {
    var renewed := Apply(c, RefreshEnds(i, true));
    RefreshKeepsOk(c, i, true);
    LeaderGoesOut(c, i);
    RunBoth(c, [RefreshEnds(i, true)], later);
    RunOne(c, RefreshEnds(i, true));
    StaysInFlight(renewed, later, i);
    var answered := Run(renewed, later);
    RunOne(answered, Answer(i, false, passed));
  }

  lemma LeaderGoesOut(c: Client, i: nat)
    requires ClientOk(c) && Leads(c, i)
    ensures var r := Apply(c, RefreshEnds(i, true)).requests[i];
      r == c.requests[i].(sent := c.requests[i].sent + 1, phase := InFlight)
  {
    FlushedAt(c.requests, c.queue, |c.queue|, true, i);
    assert c.queue[..|c.queue|] == c.queue;
    assert i !in c.queue;
  }

  /** A waiting request waits, in the same queue, until the refresh that is under way ends. */
  lemma {:induction false} StaysWaiting(c: Client, events: seq<Event>, i: nat, leader: nat)
    requires ClientOk(c) && Leads(c, leader) && i < |c.requests| && c.requests[i].phase.Waiting?
    requires forall e <- events :: !(e.RefreshEnds? && e.leader == leader)
    ensures ClientOk(Run(c, events)) && Leads(Run(c, events), leader)
    ensures i < |Run(c, events).requests| && Run(c, events).requests[i] == c.requests[i]
    decreases |events|
  {
    if events != [] {
      assert events[0] in events && forall e <- events[1..] :: e in events;
      RunKeepsOk(c, [events[0]]);
      assert [events[0]][1..] == [] && Run(Apply(c, events[0]), []) == Apply(c, events[0]);
      OthersStayPut(c, events[0], leader);
      WaiterStaysPut(c, events[0], i, leader);
      hide ClientOk, Apply;
      StaysWaiting(Apply(c, events[0]), events[1..], i, leader);
    }
  }

  lemma WaiterStaysPut(c: Client, e: Event, i: nat, leader: nat)
    requires ClientOk(c) && Leads(c, leader) && i < |c.requests| && c.requests[i].phase.Waiting?
    requires !(e.RefreshEnds? && e.leader == leader)
    ensures i < |Apply(c, e).requests| && Apply(c, e).requests[i] == c.requests[i]
  {
    if e.RefreshEnds? {
      assert e.leader != leader ==> !(Leads(c, if e.leader < leader then e.leader else leader)
                                      && Leads(c, if e.leader < leader then leader else e.leader));
    }
  }

  /** And one that is answered 401 while a refresh is under way: it waits, and comes through in the same way. */
  lemma WaiterComesThrough(signedIn: bool, before: seq<Event>, i: nat, leader: nat, meanwhile: seq<Event>,
                           later: seq<Event>, passed: bool)
    requires CanBeRenewed(Reached(signedIn, before), i) && Leads(Reached(signedIn, before), leader)
    requires forall e <- meanwhile :: !(e.RefreshEnds? && e.leader == leader)
    requires forall e <- later :: !(e.Answer? && e.request == i)
    ensures var waiting := Apply(Reached(signedIn, before), Answer(i, true, false));
      && waiting.requests[i].phase.Waiting?
      && var end := Run(Run(Run(waiting, meanwhile), [RefreshEnds(leader, true)] + later), [Answer(i, false, passed)]);
         i < |end.requests| && end.requests[i].phase == Settled(passed) && end.requests[i].sent == 2
  {
    var c := Reached(signedIn, before);
    RefreshedOnceFromTheStart(signedIn, before);
    AnswerKeepsOk(c, i, true, false);
    assert RequestOk(c.requests[i]);
    var waiting := Apply(c, Answer(i, true, false));
    assert waiting.requests[i].phase.Waiting? && waiting.requests[i].sent == 1 && Leads(waiting, leader);
    StaysWaiting(waiting, meanwhile, i, leader);
    AfterWaiting(Run(waiting, meanwhile), i, leader, later, passed);
  }

  lemma AfterWaiting(c: Client, i: nat, leader: nat, later: seq<Event>, passed: bool)
    requires ClientOk(c) && Leads(c, leader)
    requires i < |c.requests| && c.requests[i].phase.Waiting? && c.requests[i].sent == 1
    requires forall e <- later :: !(e.Answer? && e.request == i)
    ensures var end := Run(Run(c, [RefreshEnds(leader, true)] + later), [Answer(i, false, passed)]);
      i < |end.requests| && end.requests[i].phase == Settled(passed) && end.requests[i].sent == 2
  {
    var renewed := Apply(c, RefreshEnds(leader, true));
    RefreshKeepsOk(c, leader, true);
    AfterRefresh(c, leader, true, i);
    assert renewed.requests[i].phase.InFlight? && renewed.requests[i].sent == 2;
    RunBoth(c, [RefreshEnds(leader, true)], later);
    RunOne(c, RefreshEnds(leader, true));
    StaysInFlight(renewed, later, i);
    RunOne(Run(renewed, later), Answer(i, false, passed));
  }

  /** What a request is when the refresh has ended: waiters and the leader are out again, or rejected. */
  predicate RefreshedTo(before: seq<Request>, after: seq<Request>, leader: nat, renewed: bool) {
    |before| == |after| && forall j | 0 <= j < |before| :: var r := before[j];
      after[j] ==
      if r.phase.Waiting? then
        if renewed then r.(woken := 1, sent := 2, phase := InFlight) else r.(woken := 1, phase := Settled(false))
      else if j == leader then if renewed then r.(sent := 2, phase := InFlight) else r.(phase := Settled(false))
      else r
  }

  lemma RefreshMeans(c: Client, i: nat, renewed: bool)
    requires ClientOk(c) && Leads(c, i)
    ensures RefreshedTo(c.requests, OnRefreshEnds(c, i, renewed).requests, i, renewed)
  {
    forall j | 0 <= j < |c.requests|
      ensures var r := c.requests[j];
        RequestOk(r) && OnRefreshEnds(c, i, renewed).requests[j] ==
        if r.phase.Waiting? then Woken(r, renewed)
        else if j == i then if renewed then r.(sent := r.sent + 1, phase := InFlight) else r.(phase := Settled(false))
        else r
    {
      FlushedAt(c.requests, c.queue, |c.queue|, renewed, j);
      assert c.queue[..|c.queue|] == c.queue;
    }
    hide Flushed, OneLeader, QueueOk;
  }

  // -------------------------------------------------------------- the variables

  /** The module's variables, and the requests they hold. */
  class ApiClient {
    var requests: seq<Request>
    var isRefreshing: bool
    var pendingQueue: seq<nat>
    var hasRefreshToken: bool

    ghost function State(): Client
      reads this
    {
      Client(requests, isRefreshing, pendingQueue, hasRefreshToken)
    }

    constructor (signedIn: bool)
      ensures State() == Client([], false, [], signedIn) && ClientOk(State())
    {
      requests, isRefreshing, pendingQueue, hasRefreshToken := [], false, [], signedIn;
      new;
      StartOk(signedIn);
    }

    /** Runs every callback in order, then empties the queue. */
    method FlushQueue(renewed: bool)
      requires QueueOk(State())
      modifies this
      ensures State() ==
              old(State()).(requests := Flushed(old(requests), old(pendingQueue), |old(pendingQueue)|, renewed),
                            queue := [])
    {
      var k := 0;
      while k < |pendingQueue|
        invariant 0 <= k <= |pendingQueue| && pendingQueue == old(pendingQueue)
        invariant isRefreshing == old(isRefreshing) && hasRefreshToken == old(hasRefreshToken)
        invariant requests == Flushed(old(requests), pendingQueue, k, renewed)
      {
        var i := pendingQueue[k];
        if renewed {
          requests := requests[i := requests[i].(woken := requests[i].woken + 1, sent := requests[i].sent + 1,
                                                 phase := InFlight)];
        } else {
          requests := requests[i := requests[i].(woken := requests[i].woken + 1, phase := Settled(false))];
        }
        k := k + 1;
      }
      pendingQueue := [];
    }

    /** The error handler up to its first await. */
    method OnError(i: nat)
      requires ClientOk(State()) && i < |requests| && requests[i].phase.InFlight?
      modifies this
      ensures State() == OnAnswer(old(State()), i, true, false) && ClientOk(State())
      ensures var r := old(requests)[i];
        && hasRefreshToken == old(hasRefreshToken) && |requests| == |old(requests)|
        && (if r.isAuthEndpoint || r.retry || !old(hasRefreshToken) then
              && requests == old(requests)[i := r.(phase := Settled(false))]
              && isRefreshing == old(isRefreshing) && pendingQueue == old(pendingQueue)
            else if old(isRefreshing) then
              && requests == old(requests)[i := r.(retry := true, phase := Waiting)]
              && isRefreshing && pendingQueue == old(pendingQueue) + [i]
            else
              && requests == old(requests)[i := r.(retry := true, phase := Leading)]
              && isRefreshing && pendingQueue == old(pendingQueue))
    {
      AnswerKeepsOk(State(), i, true, false);
      var r := requests[i];
      if r.retry || r.isAuthEndpoint || !hasRefreshToken {
        requests := requests[i := r.(phase := Settled(false))];
        return;
      }
      if isRefreshing {
        requests := requests[i := r.(retry := true, phase := Waiting)];
        pendingQueue := pendingQueue + [i];
        return;
      }
      requests := requests[i := r.(retry := true, phase := Leading)];
      isRefreshing := true;
    }

    /** The rest of the handler, once the refresh call has come back. */
    method OnRefreshed(i: nat, renewed: bool)
      requires ClientOk(State()) && i < |requests| && requests[i].phase.Leading?
      modifies this
      ensures State() == OnRefreshEnds(old(State()), i, renewed) && ClientOk(State())
      ensures !isRefreshing && pendingQueue == [] && hasRefreshToken == renewed
      ensures RefreshedTo(old(requests), requests, i, renewed)
    {
      RefreshKeepsOk(State(), i, renewed);
      RefreshMeans(State(), i, renewed);
      hide ClientOk, Flushed, RefreshedTo;
      FlushQueue(renewed);
      hasRefreshToken := renewed;
      if renewed {
        requests := requests[i := requests[i].(sent := requests[i].sent + 1, phase := InFlight)];
      } else {
        requests := requests[i := requests[i].(phase := Settled(false))];
      }
      isRefreshing := false;
    }
  }
}
