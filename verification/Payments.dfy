/**
 Payment notifications (`handleIpn` and `confirmBookingAfterPayment` in
 backend/src/payments/payments.service.ts). Notifications may be repeated and
 overlap one another, the expiry of the booking and the staff; each database
 statement is a step.
 */
module Payments {
  import opened Outcomes

  datatype PaymentStatus = Pending | Success | Failed | Refunded

  datatype Payment = Payment(booking: nat, amount: real, status: PaymentStatus)

  /** A notification: is it signed correctly, which payment it names, the amount in hundredths, is it a success. */
  datatype Notification = Notification(signed: bool, reference: nat, amount: int, approved: bool)

  datatype Phase = Received | Accepted | Settled | Answered(code: string)

  datatype Call = Call(notification: Notification, phase: Phase)

  datatype BookingStatus = Waiting | Confirmed | Closed

  /** A booking's status, how often it became confirmed, and the payment that confirmed it, if one did. */
  datatype Booking = Booking(status: BookingStatus, confirmations: nat, paidBy: Option<nat>)

  datatype System = System(payments: seq<Payment>, bookings: seq<Booking>, calls: seq<Call>)

  datatype Event =
    | Receive(notification: Notification)
    | Step(call: nat)
    | StaffConfirms(booking: nat)
    | Closes(booking: nat)
    | Refunds(payment: nat)

  /** `Math.round(amount * 100)`. */
  function Expected(amount: real): int {
    (amount * 100.0 + 0.5).Floor
  }

  /** What a notification must satisfy to settle a payment; the codes are tried in this order. */
  function Verdict(s: System, n: Notification): Option<string> {
    if !n.signed then Some("97")
    else if n.reference >= |s.payments| then Some("01")
    else if n.amount != Expected(s.payments[n.reference].amount) then Some("04")
    else if !s.payments[n.reference].status.Pending? then Some("02")
    else None
  }

  /** The status with which a notification settles its payment. */
  function Result(n: Notification): PaymentStatus {
    if n.approved then Success else Failed
  }

  function StepCall(s: System, k: nat): System
    requires k < |s.calls|
  {
    var n := s.calls[k].notification;
    var to := (phase: Phase) => s.(calls := s.calls[k := Call(n, phase)]);
    match s.calls[k].phase
    case Received =>
      (match Verdict(s, n)
       case Some(code) => to(Answered(code))
       case None => to(Accepted))
    case Accepted =>
      if n.reference >= |s.payments| then to(Answered("01"))
      else
        var settled := s.payments[n.reference].(status := Result(n));
        to(if n.approved then Settled else Answered("00")).(payments := s.payments[n.reference := settled])
    case Settled =>
      if n.reference < |s.payments| && s.payments[n.reference].booking < |s.bookings|
         && s.bookings[s.payments[n.reference].booking].status.Waiting?
      then
        var b := s.payments[n.reference].booking;
        to(Answered("00")).(bookings := s.bookings[b := ConfirmedBooking(s.bookings[b], Some(n.reference))])
      else to(Answered("00"))
    case Answered(_) => s
  }

  function ConfirmedBooking(b: Booking, paidBy: Option<nat>): Booking {
    Booking(Confirmed, b.confirmations + 1, paidBy)
  }

  function Apply(s: System, e: Event): System {
    match e
    case Receive(n) => s.(calls := s.calls + [Call(n, Received)])
    case Step(k) => if k < |s.calls| then StepCall(s, k) else s
    case StaffConfirms(b) =>
      if b < |s.bookings| && s.bookings[b].status.Waiting?
      then s.(bookings := s.bookings[b := ConfirmedBooking(s.bookings[b], None)])
      else s
    case Refunds(p) =>
      if p < |s.payments| && s.payments[p].status.Success?
      then s.(payments := s.payments[p := s.payments[p].(status := Refunded)])
      else s
    case Closes(b) => if b < |s.bookings| then s.(bookings := s.bookings[b := s.bookings[b].(status := Closed)]) else s
  }

  function Run(s: System, events: seq<Event>): System
    decreases |events|
  {
    if events == [] then s else Run(Apply(s, events[0]), events[1..])
  }

  /** A signed notification of success, for this payment and its exact amount. */
  predicate Proves(s: System, c: Call, payment: nat) {
    && c.notification.signed && c.notification.approved && c.notification.reference == payment
    && payment < |s.payments| && c.notification.amount == Expected(s.payments[payment].amount)
  }

  predicate ConfirmedProperly(s: System, b: nat)
    requires b < |s.bookings|
  {
    var booking := s.bookings[b];
    && booking.confirmations <= 1 && (booking.status.Waiting? ==> booking.confirmations == 0)
    && (booking.paidBy.Some? ==>
          && booking.paidBy.value < |s.payments| && s.payments[booking.paidBy.value].booking == b
          && exists c <- s.calls :: Proves(s, c, booking.paidBy.value))
  }

  /** A call that got past the checks had a signed notification of the exact amount. */
  predicate CallOk(s: System, c: Call) {
    (c.phase.Accepted? || c.phase.Settled?) ==>
      && c.notification.signed && c.notification.reference < |s.payments|
      && c.notification.amount == Expected(s.payments[c.notification.reference].amount)
      && (c.phase.Settled? ==> c.notification.approved)
  }

  predicate SystemOk(s: System) {
    && (forall b | 0 <= b < |s.bookings| :: ConfirmedProperly(s, b))
    && forall k | 0 <= k < |s.calls| :: CallOk(s, s.calls[k])
  }

  /** Payments keep their amount and booking, and calls their notification. */
  predicate SameFacts(s: System, after: System) {
    && |after.payments| == |s.payments| && |after.calls| >= |s.calls|
    && (forall p | 0 <= p < |s.payments| ::
          after.payments[p].amount == s.payments[p].amount && after.payments[p].booking == s.payments[p].booking)
    && forall k | 0 <= k < |s.calls| :: after.calls[k].notification == s.calls[k].notification
  }

  lemma ProofsStay(s: System, after: System, payment: nat)
    requires SameFacts(s, after) && exists c <- s.calls :: Proves(s, c, payment)
    ensures exists c <- after.calls :: Proves(after, c, payment)
  {
    var c :| c in s.calls && Proves(s, c, payment);
    var k :| 0 <= k < |s.calls| && s.calls[k] == c;
    assert Proves(after, after.calls[k], payment);
  }

  lemma BookingStaysProper(s: System, after: System, b: nat)
    requires SameFacts(s, after) && b < |s.bookings| && b < |after.bookings|
    requires after.bookings[b].confirmations == s.bookings[b].confirmations
    requires after.bookings[b].paidBy == s.bookings[b].paidBy
    requires after.bookings[b].status.Waiting? ==> s.bookings[b].status.Waiting?
    requires ConfirmedProperly(s, b)
    ensures ConfirmedProperly(after, b)
  {
    if s.bookings[b].paidBy.Some? {
      ProofsStay(s, after, s.bookings[b].paidBy.value);
    }
  }

  lemma StepSameFacts(s: System, k: nat)
    requires k < |s.calls|
    ensures SameFacts(s, StepCall(s, k))
  {
  }

  lemma StepKeepsOk(s: System, k: nat)
    requires SystemOk(s) && k < |s.calls|
    ensures SystemOk(StepCall(s, k))
  {
    var after := StepCall(s, k);
    var c := s.calls[k];
    StepSameFacts(s, k);
    assert CallOk(s, c);
    forall b | 0 <= b < |s.bookings|
      ensures ConfirmedProperly(after, b)
    {
      assert ConfirmedProperly(s, b);
      if after.bookings[b] == s.bookings[b] {
        BookingStaysProper(s, after, b);
      } else {
        assert Proves(after, after.calls[k], c.notification.reference);
        assert after.bookings[b] == ConfirmedBooking(s.bookings[b], Some(c.notification.reference));
      }
    }
    forall j | 0 <= j < |after.calls|
      ensures CallOk(after, after.calls[j])
    {
      assert CallOk(s, s.calls[j]);
    }
  }

  lemma ApplyKeepsOk(s: System, e: Event)
    requires SystemOk(s)
    ensures SystemOk(Apply(s, e))
  {
    var after := Apply(s, e);
    if e.Step? {
      if e.call < |s.calls| {
        StepKeepsOk(s, e.call);
      }
    } else {
      assert SameFacts(s, after);
      forall b | 0 <= b < |after.bookings|
        ensures ConfirmedProperly(after, b)
      {
        assert ConfirmedProperly(s, b);
        if after.bookings[b].confirmations == s.bookings[b].confirmations {
          BookingStaysProper(s, after, b);
        }
      }
      forall k | 0 <= k < |after.calls|
        ensures CallOk(after, after.calls[k])
      {
        if k < |s.calls| {
          assert CallOk(s, s.calls[k]);
        }
      }
    }
  }

  /**
   However notifications are repeated and interleaved with the staff and the
   expiry: a booking becomes confirmed at most once, and only a signed
   notification of success for a payment of that booking and its exact amount
   confirms it by payment.
   */
  lemma {:induction false} RunConfirmsOnce(s: System, events: seq<Event>)
    requires SystemOk(s)
    ensures SystemOk(Run(s, events))
    decreases |events|
  {
    if events != [] {
      ApplyKeepsOk(s, events[0]);
      RunConfirmsOnce(Apply(s, events[0]), events[1..]);
    }
  }

  /** Nothing has been received, and no booking has been confirmed. */
  predicate Initial(s: System) {
    s.calls == [] && forall b | 0 <= b < |s.bookings| :: s.bookings[b].confirmations == 0 && s.bookings[b].paidBy.None?
  }

  /** A hundred times the amount, to the nearest whole number. */
  predicate InHundredths(n: int, amount: real) {
    100.0 * amount - 0.5 <= n as real <= 100.0 * amount + 0.5
  }

  /** A signed success for the payment, over its amount in hundredths. */
  predicate ProvesAmount(s: System, c: Call, payment: nat) {
    && c.notification.signed && c.notification.approved && c.notification.reference == payment
    && payment < |s.payments| && InHundredths(c.notification.amount, s.payments[payment].amount)
  }

  lemma ExpectedIsHundredths(amount: real)
    ensures InHundredths(Expected(amount), amount)
    ensures (100.0 * amount).Floor as real == 100.0 * amount ==> Expected(amount) == (100.0 * amount).Floor
  {
    var x := amount * 100.0 + 0.5;
    assert x.Floor as real <= x < x.Floor as real + 1.0;
  }

  /**
   From the start, however notifications are repeated and interleaved: a booking is
   confirmed at most once, and by payment only if there is a signed success over the
   amount of a payment of it, in hundredths.
   */
  lemma ConfirmedOnceFromTheStart(s: System, events: seq<Event>, b: nat)
    requires Initial(s) && b < |Run(s, events).bookings|
    ensures var end := Run(s, events);
      var booking := end.bookings[b];
      && booking.confirmations <= 1
      && (booking.paidBy.Some? ==>
            && booking.paidBy.value < |end.payments| && end.payments[booking.paidBy.value].booking == b
            && exists c <- end.calls :: ProvesAmount(end, c, booking.paidBy.value))
  {
    assert SystemOk(s);
    RunConfirmsOnce(s, events);
    var end := Run(s, events);
    hide Run;
    assert ConfirmedProperly(end, b);
    if end.bookings[b].paidBy.Some? {
      var p := end.bookings[b].paidBy.value;
      var c :| c in end.calls && Proves(end, c, p);
      ExpectedIsHundredths(end.payments[p].amount);
      assert ProvesAmount(end, c, p);
    }
  }

  // ------------------------------------------------- one call, step by step

  /**
   The first step of a call: the answer "97" without a signature, "01" for an unknown
   payment, "04" for another amount, "02" for a payment that is not open, and else it
   is accepted. An amount of whole hundredths has to be met exactly.
   */
  lemma FirstStep(s: System, k: nat)
    requires k < |s.calls| && s.calls[k].phase.Received?
    ensures var n, after := s.calls[k].notification, Apply(s, Step(k));
      var phase := after.calls[k].phase;
      && after == s.(calls := s.calls[k := Call(n, phase)])
      && (phase == Answered("97") <==> !n.signed)
      && (phase == Answered("01") <==> n.signed && n.reference >= |s.payments|)
      && (n.signed && n.reference < |s.payments| ==>
            var p := s.payments[n.reference];
            && (n.amount as real == 100.0 * p.amount ==>
                  phase == if p.status.Pending? then Accepted else Answered("02"))
            && (!InHundredths(n.amount, p.amount) ==> phase == Answered("04"))
            && (phase == Accepted || phase == Answered("02") || phase == Answered("04"))
            && (phase == Accepted ==> p.status.Pending?) && (phase == Answered("02") ==> !p.status.Pending?))
  {
    var n := s.calls[k].notification;
    if n.reference < |s.payments| {
      ExpectedIsHundredths(s.payments[n.reference].amount);
      assert (n.amount as real).Floor == n.amount;
    }
    hide Expected, InHundredths;
  }

  /** An accepted call settles its payment, and a success then confirms its booking if that is waiting. */
  lemma LaterSteps(s: System, k: nat)
    requires k < |s.calls| && s.calls[k].phase.Accepted? && s.calls[k].notification.reference < |s.payments|
    requires s.payments[s.calls[k].notification.reference].booking < |s.bookings|
    ensures var n, after := s.calls[k].notification, Apply(s, Step(k));
      var p := s.payments[n.reference];
      && after.payments == s.payments[n.reference := p.(status := if n.approved then Success else Failed)]
      && after.bookings == s.bookings
      && (!n.approved ==> after.calls == s.calls[k := Call(n, Answered("00"))])
      && (n.approved ==>
            var end := Apply(after, Step(k));
            var b := s.bookings[p.booking];
            && end.calls == s.calls[k := Call(n, Answered("00"))] && end.payments == after.payments
            && end.bookings
               == if b.status.Waiting?
                  then s.bookings[p.booking := Booking(Confirmed, b.confirmations + 1, Some(n.reference))]
                  else s.bookings)
  {
    var n := s.calls[k].notification;
    assert s.calls[k := Call(n, Settled)][k := Call(n, Answered("00"))] == s.calls[k := Call(n, Answered("00"))];
  }

  // ------------------------------------------------ does a settled payment stay?

  /** A payment is settled once; after that only a refund of a success may follow. */
  predicate Follows(before: PaymentStatus, after: PaymentStatus) {
    before == after || before.Pending? || (before.Success? && after.Refunded?)
  }

  predicate PaymentsFollow(s: System, after: System) {
    && |after.payments| == |s.payments|
    && forall p | 0 <= p < |s.payments| :: Follows(s.payments[p].status, after.payments[p].status)
  }

  predicate AcceptedFor(c: Call, payment: nat) {
    c.phase.Accepted? && c.notification.reference == payment
  }

  /** Two accepted calls of one payment, at least one of them a success. */
  predicate Clash(c: Call, d: Call) {
    && c.phase.Accepted? && AcceptedFor(d, c.notification.reference)
    && (c.notification.approved || d.notification.approved)
  }

  /** No two accepted calls clash, and an accepted call's payment is open, or failed as the call would have it. */
  predicate Agreeing(s: System) {
    && (forall j, k | 0 <= j < |s.calls| && 0 <= k < |s.calls| && j != k :: !Clash(s.calls[j], s.calls[k]))
    && forall k | 0 <= k < |s.calls| && s.calls[k].phase.Accepted? ::
         var n := s.calls[k].notification;
         n.reference < |s.payments|
         && (s.payments[n.reference].status.Pending?
             || (s.payments[n.reference].status.Failed? && !n.approved))
  }

  /**
   The gap between the check and the update: a call is accepted while another one
   of the same payment is, and not both of them report a failure.
   */
  predicate AcceptsClash(s: System, e: Event) {
    && e.Step? && e.call < |s.calls| && s.calls[e.call].phase.Received? && Verdict(s, s.calls[e.call].notification).None?
    && exists j | 0 <= j < |s.calls| && j != e.call ::
         Clash(s.calls[e.call].(phase := Accepted), s.calls[j])
  }

  predicate NeverAcceptsClash(s: System, events: seq<Event>)
    decreases |events|
  {
    events == [] || (!AcceptsClash(s, events[0]) && NeverAcceptsClash(Apply(s, events[0]), events[1..]))
  }

  lemma StepsFollow(s: System, e: Event)
    requires Agreeing(s)
    ensures PaymentsFollow(s, Apply(s, e))
  {
    if e.Step? && e.call < |s.calls| && s.calls[e.call].phase.Accepted? {
      assert s.calls[e.call].notification.reference < |s.payments|;
    }
  }

  lemma StepKeepsAgreeing(s: System, k: nat)
    requires Agreeing(s) && k < |s.calls|
    requires !AcceptsClash(s, Step(k))
    ensures Agreeing(StepCall(s, k))
  {
    var after := StepCall(s, k);
    var c := s.calls[k];
    assert |after.calls| == |s.calls| && forall j | 0 <= j < |s.calls| && j != k :: after.calls[j] == s.calls[j];
    forall i, j | 0 <= i < |after.calls| && 0 <= j < |after.calls| && i != j
      ensures !Clash(after.calls[i], after.calls[j])
    {
      assert !Clash(s.calls[i], s.calls[j]) && !Clash(s.calls[j], s.calls[i]);
      if after.calls[k].phase.Accepted? && !c.phase.Accepted? {
        assert i == k ==> !Clash(c.(phase := Accepted), s.calls[j]);
        assert j == k ==> !Clash(c.(phase := Accepted), s.calls[i]);
      }
    }
    forall j | 0 <= j < |after.calls| && after.calls[j].phase.Accepted?
      ensures var n := after.calls[j].notification;
        n.reference < |after.payments|
        && (after.payments[n.reference].status.Pending?
            || (after.payments[n.reference].status.Failed? && !n.approved))
    {
      if j != k {
        assert !Clash(s.calls[k], s.calls[j]);
      }
    }
  }

  /** The guard is exact: an event leads out of the agreeing states only through it. */
  lemma AgreementIsKeptExactly(s: System, e: Event)
    requires Agreeing(s)
    ensures Agreeing(Apply(s, e)) <==> !AcceptsClash(s, e)
  {
    if AcceptsClash(s, e) {
      var after := Apply(s, e);
      var j :| 0 <= j < |s.calls| && j != e.call && Clash(s.calls[e.call].(phase := Accepted), s.calls[j]);
      assert Clash(after.calls[e.call], after.calls[j]);
    } else if e.Step? && e.call < |s.calls| {
      StepKeepsAgreeing(s, e.call);
    } else {
      OtherEventsAgree(s, e);
    }
  }

  lemma OtherEventsAgree(s: System, e: Event)
    requires Agreeing(s) && !(e.Step? && e.call < |s.calls|)
    ensures Agreeing(Apply(s, e))
  {
    var after := Apply(s, e);
    assert forall k | 0 <= k < |s.calls| :: after.calls[k] == s.calls[k];
    forall i, j | 0 <= i < |after.calls| && 0 <= j < |after.calls| && i != j
      ensures !Clash(after.calls[i], after.calls[j])
    {
      if i < |s.calls| && j < |s.calls| {
        assert !Clash(s.calls[i], s.calls[j]);
      }
    }
  }

  lemma FollowsOn(a: System, b: System, c: System)
    requires PaymentsFollow(a, b) && PaymentsFollow(b, c)
    ensures PaymentsFollow(a, c)
  {
  }

  /**
   In every run in which no call is accepted into a clash, a payment that has been
   settled keeps its status, but for the refund of a success.
   */
  lemma {:induction false} SettledPaymentsStay(s: System, events: seq<Event>)
    requires Agreeing(s) && NeverAcceptsClash(s, events)
    ensures Agreeing(Run(s, events)) && PaymentsFollow(s, Run(s, events))
    decreases |events|
  {
    if events != [] {
      var next := Apply(s, events[0]);
      StepsFollow(s, events[0]);
      AgreementIsKeptExactly(s, events[0]);
      hide Agreeing, AcceptsClash, Apply;
      SettledPaymentsStay(next, events[1..]);
      FollowsOn(s, next, Run(next, events[1..]));
    }
  }

  /** From the start: between any two states of such a run. */
  lemma SettledPaymentsStayFromTheStart(s: System, before: seq<Event>, after: seq<Event>)
    requires Initial(s) && NeverAcceptsClash(s, before) && NeverAcceptsClash(Run(s, before), after)
    ensures PaymentsFollow(Run(s, before), Run(Run(s, before), after))
  {
    assert Agreeing(s);
    hide Agreeing, Run;
    SettledPaymentsStay(s, before);
    SettledPaymentsStay(Run(s, before), after);
  }

  lemma RunOne(s: System, e: Event)
    ensures Run(s, [e]) == Apply(s, e)
  {
    assert [e][1..] == [] && Run(Apply(s, e), []) == Apply(s, e);
  }

  lemma RunTwo(s: System, e: Event, f: Event)
    ensures Run(s, [e, f]) == Apply(Apply(s, e), f)
  {
    assert [e, f][1..] == [f];
    RunOne(Apply(s, e), f);
  }

  /**
   And conversely: wherever a call is accepted into a clash, the run can go on so
   that the payment is settled and its status then changes.
   */
  lemma ClashCanOverwrite(s: System, e: Event) returns (p: nat, settle: seq<Event>, change: seq<Event>)
    requires AcceptsClash(s, e)
    ensures var settled := Run(Apply(s, e), settle);
      var changed := Run(settled, change);
      && p < |settled.payments| == |changed.payments| && !settled.payments[p].status.Pending?
      && !Follows(settled.payments[p].status, changed.payments[p].status)
  {
    var k := e.call;
    var j :| 0 <= j < |s.calls| && j != k && Clash(s.calls[k].(phase := Accepted), s.calls[j]);
    var s0 := Apply(s, e);
    p := s.calls[k].notification.reference;
    assert AcceptedFor(s0.calls[k], p) && AcceptedFor(s0.calls[j], p) && p < |s0.payments|;
    var s1 := Apply(s0, Step(j));
    assert s1.payments[p].status == Result(s.calls[j].notification) && s1.calls[k] == s0.calls[k];
    if s.calls[j].notification.approved && s.calls[k].notification.approved {
      var s2 := Apply(s1, Refunds(p));
      settle, change := [Step(j), Refunds(p)], [Step(k)];
      RunTwo(s0, Step(j), Refunds(p));
      RunOne(s2, Step(k));
      assert s2.payments[p].status == Refunded && Apply(s2, Step(k)).payments[p].status == Success;
    } else {
      settle, change := [Step(j)], [Step(k)];
      RunOne(s0, Step(j));
      RunOne(s1, Step(k));
      assert Apply(s1, Step(k)).payments[p].status == Result(s.calls[k].notification);
    }
    hide Run, Apply;
  }

  // ------------------------------------------------ does a payment confirm?

  function RunAll(s: System, a: seq<Event>, e: Event, b: seq<Event>): System {
    Run(Apply(Run(s, a), e), b)
  }

  /** Closed stays closed, and confirmed stays confirmed until it is closed. */
  lemma {:induction false} ConfirmedUntilClosed(s: System, events: seq<Event>, b: nat)
    requires b < |s.bookings| && !s.bookings[b].status.Waiting?
    ensures b < |Run(s, events).bookings|
    ensures Run(s, events).bookings[b].status.Confirmed? <==> s.bookings[b].status.Confirmed? && Closes(b) !in events
    decreases |events|
  {
    if events != [] {
      var next := Apply(s, events[0]);
      OneEvent(s, events[0], b);
      hide Apply;
      ConfirmedUntilClosed(next, events[1..], b);
      assert events == [events[0]] + events[1..];
    }
  }

  lemma OneEvent(s: System, e: Event, b: nat)
    requires b < |s.bookings| && !s.bookings[b].status.Waiting?
    ensures var next := Apply(s, e);
      && |next.bookings| == |s.bookings| && !next.bookings[b].status.Waiting?
      && (next.bookings[b].status.Confirmed? <==> s.bookings[b].status.Confirmed? && e != Closes(b))
  {
  }

  /**
   Over all runs: a call that has settled its payment as a success makes its last
   step, with whatever before and after it. Its booking is confirmed in the end
   exactly if it was not closed before that step and is not closed after it.
   */
  lemma PaidBookingEndsConfirmed(s: System, before: seq<Event>, k: nat, after: seq<Event>)
    requires var now := Run(s, before);
      && k < |now.calls| && now.calls[k].phase.Settled? && now.calls[k].notification.reference < |now.payments|
      && now.payments[now.calls[k].notification.reference].booking < |now.bookings|
    ensures var now := Run(s, before);
      var b, end := now.payments[now.calls[k].notification.reference].booking, RunAll(s, before, Step(k), after);
      && b < |end.bookings|
      && (end.bookings[b].status.Confirmed? <==> !now.bookings[b].status.Closed? && Closes(b) !in after)
  {
    var now := Run(s, before);
    var b := now.payments[now.calls[k].notification.reference].booking;
    var next := Apply(now, Step(k));
    assert !next.bookings[b].status.Waiting?;
    assert next.bookings[b].status.Confirmed? <==> !now.bookings[b].status.Closed?;
    hide Apply, Run;
    ConfirmedUntilClosed(next, after, b);
  }

  // -------------------------------------------------- runs in which it goes wrong

  /** One open payment of a booking that waits for it. */
  function OnePayment(amount: real): System {
    System([Payment(0, amount, Pending)], [Booking(Waiting, 0, None)], [])
  }

  function Both(amount: real): (Notification, Notification) {
    (Notification(true, 0, Expected(amount), true), Notification(true, 0, Expected(amount), false))
  }

  /** Two contradicting notifications overlap: both pass the check, and the later update wins. */
  lemma OverlappingNotificationsOverwrite(amount: real)
    ensures var (paid, failed) := Both(amount);
      var settled := Run(OnePayment(amount), [Receive(paid), Receive(failed), Step(0), Step(1), Step(0)]);
      && |settled.payments| == 1 && settled.payments[0].status == Success
      && var changed := Run(settled, [Step(1)]);
      |changed.payments| == 1 && changed.payments[0].status == Failed
  {
    var (paid, failed) := Both(amount);
    var s0 := OnePayment(amount);
    var s1 := s0.(calls := [Call(paid, Received)]);
    var s2 := s0.(calls := [Call(paid, Received), Call(failed, Received)]);
    var s3 := s0.(calls := [Call(paid, Accepted), Call(failed, Received)]);
    var s4 := s0.(calls := [Call(paid, Accepted), Call(failed, Accepted)]);
    var s5 := System([Payment(0, amount, Success)], s0.bookings, [Call(paid, Settled), Call(failed, Accepted)]);
    assert Apply(s0, Receive(paid)) == s1 && Apply(s1, Receive(failed)) == s2;
    assert Apply(s2, Step(0)) == s3 && Apply(s3, Step(1)) == s4 && Apply(s4, Step(0)) == s5;
    var s6 := Apply(s5, Step(1));
    assert s6.payments == [Payment(0, amount, Failed)];
    hide Apply;
    var events := [Receive(paid), Receive(failed), Step(0), Step(1), Step(0)];
    assert events[1..] == [Receive(failed), Step(0), Step(1), Step(0)];
    assert events[1..][1..] == [Step(0), Step(1), Step(0)];
    assert events[1..][1..][1..] == [Step(1), Step(0)];
    RunTwo(s3, Step(1), Step(0));
    assert Run(s2, [Step(0), Step(1), Step(0)]) == Run(s3, [Step(1), Step(0)]) == s5;
    assert Run(s1, [Receive(failed), Step(0), Step(1), Step(0)]) == s5;
    assert Run(s0, events) == s5;
    RunOne(s5, Step(1));
  }

  /** The booking expires between the update of its payment and its own: paid, and closed. */
  lemma PaymentAfterClosing(amount: real)
    ensures var (paid, _) := Both(amount);
      var end := Run(OnePayment(amount), [Receive(paid), Step(0), Step(0), Closes(0), Step(0)]);
      && |end.payments| == 1 && end.payments[0].status == Success
      && |end.bookings| == 1 && end.bookings[0] == Booking(Closed, 0, None)
      && end.calls == [Call(paid, Answered("00"))]
  {
    var (paid, _) := Both(amount);
    var s0 := OnePayment(amount);
    var s1 := s0.(calls := [Call(paid, Received)]);
    var s2 := s0.(calls := [Call(paid, Accepted)]);
    var s3 := System([Payment(0, amount, Success)], s0.bookings, [Call(paid, Settled)]);
    var s4 := s3.(bookings := [Booking(Closed, 0, None)]);
    var s5 := s4.(calls := [Call(paid, Answered("00"))]);
    assert Apply(s0, Receive(paid)) == s1 && Apply(s1, Step(0)) == s2 && Apply(s2, Step(0)) == s3;
    assert Apply(s3, Closes(0)) == s4 && Apply(s4, Step(0)) == s5;
    hide Apply;
    var events := [Receive(paid), Step(0), Step(0), Closes(0), Step(0)];
    assert events[1..] == [Step(0), Step(0), Closes(0), Step(0)];
    assert events[1..][1..] == [Step(0), Closes(0), Step(0)];
    assert events[1..][1..][1..] == [Closes(0), Step(0)];
    RunTwo(s3, Closes(0), Step(0));
    assert Run(s2, [Step(0), Closes(0), Step(0)]) == Run(s3, [Closes(0), Step(0)]) == s5;
    assert Run(s1, [Step(0), Step(0), Closes(0), Step(0)]) == s5;
  }
}
