// Life of a device request (patch/kernel/dummy_hcd.c:329-342, 490-652, 687-781, 1492-1501,
// 1868-1879): queued, possibly through the one-slot FIFO, taken off its queue, and given back
// with the lock dropped.  One event is one stretch of code under the lock; the tests of
// dummy_queue run before it takes the lock, so they are an event of their own.

module Requests {

  type Bytes = seq<int>

  // dum->fifo_req; the requests of the gadget driver are the other numbers.
  const FIFO: int := 0
  const FIFO_SIZE: nat := 64

  // More bytes than the FIFO takes.
  function Long(): (b: Bytes)
    ensures |b| > FIFO_SIZE
  {
    seq(FIFO_SIZE + 1, i => 0)
  }

  // `disabling` counts the calls of dummy_disable that have not returned.
  datatype Ep = Ep(queue: seq<int>, desc: bool, dirIn: bool, disabling: int)

  // A call of dummy_queue that has passed its tests and has not taken the lock yet.
  datatype Ticket = Ticket(ep: int, req: int)

  // Endpoint 0 is ep0.  `accepted` and `given` record every request put on a queue (or passed
  // straight to its completion through the FIFO) and every giveback that is over; `inFlight`
  // are the requests whose giveback runs.
  datatype Udc = Udc(eps: seq<Ep>, data: map<int, Bytes>, driver: bool, enabled: bool, tickets: multiset<Ticket>,
                     inFlight: multiset<int>, accepted: multiset<int>, given: multiset<int>)

  datatype Errno = Ok | EINVAL | ESHUTDOWN

  datatype Event =
    | Check(ep: nat, req: int)                // dummy_queue before the lock
    | Add(ep: nat, req: int, bytes: Bytes)    // dummy_queue under the lock
    | Detach(ep: nat, i: nat)                 // dequeue, transfer, nuke, stale ep0 data
    | GiveBack(req: int)                      // the completion handler has returned
    | Enable(ep: nat, dirIn: bool)
    | DisableBegin(ep: nat) | DisableEnd(ep: nat)
    | Bind(driver: bool) | Link(enabled: bool)

  // ---- The steps ----

  // How often a request stands on a queue.
  function Count(eps: seq<Ep>, req: int): nat {
    if eps == [] then 0 else multiset(eps[0].queue)[req] + Count(eps[1..], req)
  }

  predicate Queued(s: Udc, req: int) { Count(s.eps, req) > 0 }

  function QueueTest(s: Udc, ep: nat, req: int): Errno
    requires ep < |s.eps|
  {
    if Queued(s, req) then EINVAL
    else if !s.eps[ep].desc && ep != 0 then EINVAL
    else if !s.driver || !s.enabled then ESHUTDOWN
    else Ok
  }

  function EnableTest(s: Udc, ep: nat): Errno
    requires ep < |s.eps|
  {
    if s.eps[ep].desc || ep == 0 then EINVAL else if !s.driver || !s.enabled then ESHUTDOWN else Ok
  }

  predicate UsesFifo(s: Udc, ep: nat, bytes: Bytes)
    requires ep < |s.eps|
  {
    && s.eps[ep].desc && s.eps[ep].dirIn
    && !Queued(s, FIFO)
    && s.eps[ep].queue == []
    && |bytes| <= FIFO_SIZE
  }

  // One endpoint changes.
  function With(s: Udc, ep: nat, x: Ep): (t: Udc)
    requires ep < |s.eps|
    ensures |t.eps| == |s.eps| && t.eps[ep] == x
    ensures forall i | 0 <= i < |s.eps| && i != ep :: t.eps[i] == s.eps[i]
  {
    s.(eps := s.eps[ep := x])
  }

  function Push(s: Udc, ep: nat, req: int, bytes: Bytes): (t: Udc)
    requires ep < |s.eps|
    ensures |t.eps| == |s.eps|
  {
    var u := With(s, ep, s.eps[ep].(queue := s.eps[ep].queue + [req]));
    u.(data := s.data[req := bytes], accepted := s.accepted + multiset{req})
  }

  function Added(s: Udc, ep: nat, req: int, bytes: Bytes): (t: Udc)
    requires ep < |s.eps|
    ensures |t.eps| == |s.eps|
  {
    if UsesFifo(s, ep, bytes)
    then
      var p := Push(s, ep, FIFO, bytes);
      p.(accepted := p.accepted + multiset{req}, inFlight := p.inFlight + multiset{req})
    else Push(s, ep, req, bytes)
  }

  function Detached(s: Udc, ep: nat, i: nat): (t: Udc)
    requires ep < |s.eps| && i < |s.eps[ep].queue|
    ensures |t.eps| == |s.eps|
  {
    var q := s.eps[ep].queue;
    With(s, ep, s.eps[ep].(queue := q[..i] + q[i + 1..])).(inFlight := s.inFlight + multiset{q[i]})
  }

  // Can the event happen?  One that cannot changes nothing.
  predicate Possible(s: Udc, e: Event) {
    match e
    case Check(ep, req) => ep < |s.eps| && req != FIFO && QueueTest(s, ep, req) == Ok
    case Add(ep, req, _) => ep < |s.eps| && Ticket(ep, req) in s.tickets
    case Detach(ep, i) => ep < |s.eps| && i < |s.eps[ep].queue|
    case GiveBack(req) => req in s.inFlight
    case Enable(ep, _) => ep < |s.eps| && EnableTest(s, ep) == Ok
    case DisableBegin(ep) => ep < |s.eps| && s.eps[ep].desc && ep != 0
    case DisableEnd(ep) => ep < |s.eps| && s.eps[ep].disabling > 0 && s.eps[ep].queue == []
    case Bind(_) => true
    case Link(_) => true
  }

  function Step(s: Udc, e: Event): (t: Udc)
    ensures |t.eps| == |s.eps|
  {
    if !Possible(s, e) then s else
    match e
    case Check(ep, req) => s.(tickets := s.tickets + multiset{Ticket(ep, req)})
    case Add(ep, req, bytes) => Added(s, ep, req, bytes).(tickets := s.tickets - multiset{Ticket(ep, req)})
    case Detach(ep, i) => Detached(s, ep, i)
    case GiveBack(req) => s.(inFlight := s.inFlight - multiset{req}, given := s.given + multiset{req})
    case Enable(ep, dirIn) => With(s, ep, s.eps[ep].(desc := true, dirIn := dirIn))
    case DisableBegin(ep) => With(s, ep, s.eps[ep].(desc := false, disabling := s.eps[ep].disabling + 1))
    case DisableEnd(ep) => With(s, ep, s.eps[ep].(disabling := s.eps[ep].disabling - 1))
    case Bind(driver) => s.(driver := driver)
    case Link(enabled) => s.(enabled := enabled)
  }

  function Run(s: Udc, events: seq<Event>): (t: Udc)
    ensures |t.eps| == |s.eps|
    decreases |events|
  {
    if events == [] then s else Run(Step(s, events[0]), events[1..])
  }

  // ---- Requests over all queues ----

  lemma {:induction false} CountUpdate(eps: seq<Ep>, ep: nat, x: Ep, r: int)
    requires ep < |eps|
    ensures Count(eps[ep := x], r) + multiset(eps[ep].queue)[r] == Count(eps, r) + multiset(x.queue)[r]
  {
    if ep == 0 {
      assert eps[0 := x][1..] == eps[1..];
    } else {
      assert eps[ep := x][1..] == eps[1..][ep - 1 := x];
      CountUpdate(eps[1..], ep - 1, x, r);
    }
  }

  lemma {:induction false} CountHolds(eps: seq<Ep>, ep: nat, r: int)
    requires ep < |eps|
    ensures multiset(eps[ep].queue)[r] <= Count(eps, r)
  {
    if ep != 0 {
      CountHolds(eps[1..], ep - 1, r);
    }
  }

  // On at most one queue, at most once.
  ghost predicate Once(s: Udc) { forall r :: Count(s.eps, r) <= 1 }

  // Every acceptance is either on a queue, or being given back, or given back: so no request is
  // given back more often than it was accepted.
  ghost predicate Conserved(s: Udc) { forall r :: ConservedAt(s, r) }

  predicate ConservedAt(s: Udc, r: int) { s.accepted[r] == s.given[r] + s.inFlight[r] + Count(s.eps, r) }

  // What the gadget driver owes the API and dummy_queue does not test: it does not queue a
  // request that another call is about to queue, and does not disable an endpoint under one.
  predicate Polite(s: Udc, e: Event) {
    match e
    case Check(_, req) => forall t | t in s.tickets :: t.req != req
    case DisableBegin(ep) => forall t | t in s.tickets :: t.ep != ep
    case _ => true
  }

  predicate PoliteRun(s: Udc, events: seq<Event>)
    decreases |events|
  {
    events == [] || (Polite(s, events[0]) && PoliteRun(Step(s, events[0]), events[1..]))
  }

  // A call under way is for a request of the gadget driver's that is on no queue.
  ghost predicate TicketsFree(s: Udc) {
    forall t | t in s.tickets :: t.req != FIFO && !Queued(s, t.req) && 0 <= t.ep < |s.eps|
  }

  ghost predicate TicketsGood(s: Udc) {
    TicketsFree(s) && forall t | t in s.tickets :: t.ep == 0 || s.eps[t.ep].desc
  }

  // No two calls are under way for one request.
  ghost predicate TicketsApart(s: Udc) {
    && (forall t | t in s.tickets :: s.tickets[t] == 1)
    && (forall t, u | t in s.tickets && u in s.tickets && t.req == u.req :: t == u)
  }

  // No descriptor and no disable in progress: nothing queued.
  predicate Drained(ep: Ep) { ep.disabling >= 0 && (!ep.desc && ep.disabling == 0 ==> ep.queue == []) }

  ghost predicate Inv(s: Udc) {
    && Once(s) && Conserved(s) && TicketsGood(s) && TicketsApart(s)
    && (forall i | 0 < i < |s.eps| :: Drained(s.eps[i]))
    && (|s.eps| > 0 ==> !s.eps[0].desc)
  }

  lemma PushCount(s: Udc, ep: nat, req: int, bytes: Bytes, r: int)
    requires ep < |s.eps|
    ensures Count(Push(s, ep, req, bytes).eps, r) == Count(s.eps, r) + (if r == req then 1 else 0)
  {
    hide Count;
    var q := s.eps[ep].queue;
    CountUpdate(s.eps, ep, s.eps[ep].(queue := q + [req]), r);
  }

  lemma RemoveCount(q: seq<int>, i: nat, r: int)
    requires i < |q|
    ensures multiset(q)[r] == multiset(q[..i] + q[i + 1..])[r] + (if r == q[i] then 1 else 0)
  {
    assert q == q[..i] + ([q[i]] + q[i + 1..]);
    assert multiset(q)[r] == multiset(q[..i])[r] + (multiset([q[i]])[r] + multiset(q[i + 1..])[r]);
  }

  lemma DetachCount(s: Udc, ep: nat, i: nat, r: int)
    requires ep < |s.eps| && i < |s.eps[ep].queue|
    ensures Count(Detached(s, ep, i).eps, r) + (if r == s.eps[ep].queue[i] then 1 else 0) == Count(s.eps, r)
  {
    hide Count;
    var q := s.eps[ep].queue;
    CountUpdate(s.eps, ep, s.eps[ep].(queue := q[..i] + q[i + 1..]), r);
    RemoveCount(q, i, r);
  }

  // A change of one endpoint that leaves its queue alone.
  lemma SameCount(eps: seq<Ep>, ep: nat, x: Ep, r: int)
    requires ep < |eps| && x.queue == eps[ep].queue
    ensures Count(eps[ep := x], r) == Count(eps, r)
  {
    CountUpdate(eps, ep, x, r);
  }

  // ---- What every step keeps ----

  lemma AddedCount(s: Udc, ep: nat, req: int, bytes: Bytes, r: int)
    requires ep < |s.eps|
    ensures Count(Added(s, ep, req, bytes).eps, r)
         == Count(s.eps, r) + (if r == (if UsesFifo(s, ep, bytes) then FIFO else req) then 1 else 0)
  {
    hide Count;
    PushCount(s, ep, if UsesFifo(s, ep, bytes) then FIFO else req, bytes, r);
  }

  lemma AddConservesAt(s: Udc, ep: nat, req: int, bytes: Bytes, r: int)
    requires ep < |s.eps| && ConservedAt(s, r)
    ensures ConservedAt(Added(s, ep, req, bytes), r)
  {
    hide Count, UsesFifo;
    AddedCount(s, ep, req, bytes, r);
  }

  lemma DetachConservesAt(s: Udc, ep: nat, i: nat, r: int)
    requires ep < |s.eps| && i < |s.eps[ep].queue| && ConservedAt(s, r)
    ensures ConservedAt(Detached(s, ep, i), r)
  {
    hide Count;
    DetachCount(s, ep, i, r);
  }

  lemma WithConservesAt(s: Udc, ep: nat, x: Ep, r: int)
    requires ep < |s.eps| && x.queue == s.eps[ep].queue && ConservedAt(s, r)
    ensures ConservedAt(With(s, ep, x), r)
  {
    hide Count;
    SameCount(s.eps, ep, x, r);
  }

  lemma StepConservesAt(s: Udc, e: Event, r: int)
    requires Possible(s, e) && ConservedAt(s, r)
    ensures ConservedAt(Step(s, e), r)
  {
    hide Count, QueueTest, EnableTest, UsesFifo, With, Added, Detached;
    match e {
      case Add(ep, req, bytes) => AddConservesAt(s, ep, req, bytes, r);
      case Detach(ep, i) => DetachConservesAt(s, ep, i, r);
      case Enable(ep, dirIn) => WithConservesAt(s, ep, s.eps[ep].(desc := true, dirIn := dirIn), r);
      case DisableBegin(ep) =>
        WithConservesAt(s, ep, s.eps[ep].(desc := false, disabling := s.eps[ep].disabling + 1), r);
      case DisableEnd(ep) => WithConservesAt(s, ep, s.eps[ep].(disabling := s.eps[ep].disabling - 1), r);
      case GiveBack(req) =>
      case _ =>
    }
  }

  // Requests are conserved whatever the gadget driver does.
  lemma StepConserves(s: Udc, e: Event)
    requires Conserved(s)
    ensures Conserved(Step(s, e))
  {
    hide Step, Possible, Count;
    if Possible(s, e) {
      forall r ensures ConservedAt(Step(s, e), r) {
        assert ConservedAt(s, r);
        StepConservesAt(s, e, r);
      }
    } else {
      NoStep(s, e);
    }
  }

  lemma PushTickets(s: Udc, ep: nat, req: int, bytes: Bytes)
    requires ep < |s.eps|
    ensures Push(s, ep, req, bytes).tickets == s.tickets
  {
  }

  lemma NoStep(s: Udc, e: Event)
    requires !Possible(s, e)
    ensures Step(s, e) == s
  {
  }

  // The events that change no queue.
  lemma QuietStep(s: Udc, e: Event)
    requires Possible(s, e)
    ensures e.Enable? || e.DisableBegin? || e.DisableEnd? ==> e.ep < |s.eps|
    ensures e.Enable? ==> Step(s, e) == With(s, e.ep, s.eps[e.ep].(desc := true, dirIn := e.dirIn))
    ensures e.DisableBegin? ==>
      Step(s, e) == With(s, e.ep, s.eps[e.ep].(desc := false, disabling := s.eps[e.ep].disabling + 1))
    ensures e.DisableEnd? ==> Step(s, e) == With(s, e.ep, s.eps[e.ep].(disabling := s.eps[e.ep].disabling - 1))
    ensures e.Bind? ==> Step(s, e) == s.(driver := e.driver)
    ensures e.Link? ==> Step(s, e) == s.(enabled := e.enabled)
  {
    hide With, Count;
  }

  // Only Add puts a request on a queue.
  lemma StepCount(s: Udc, e: Event, r: int)
    requires Possible(s, e) && !e.Add?
    ensures Count(Step(s, e).eps, r) <= Count(s.eps, r)
  {
    hide Count;
    match e {
      case Detach(ep, i) => DetachCount(s, ep, i, r);
      case Enable(ep, dirIn) => SameCount(s.eps, ep, s.eps[ep].(desc := true, dirIn := dirIn), r);
      case DisableBegin(ep) =>
        SameCount(s.eps, ep, s.eps[ep].(desc := false, disabling := s.eps[ep].disabling + 1), r);
      case DisableEnd(ep) => SameCount(s.eps, ep, s.eps[ep].(disabling := s.eps[ep].disabling - 1), r);
      case _ =>
    }
  }

  lemma StepOnce(s: Udc, e: Event)
    requires Once(s) && TicketsFree(s)
    ensures Once(Step(s, e))
  {
    hide Count;
    if Possible(s, e) {
      forall r ensures Count(Step(s, e).eps, r) <= 1 {
        assert Count(s.eps, r) <= 1;
        if e.Add? {
          assert Ticket(e.ep, e.req) in s.tickets;
          AddedCount(s, e.ep, e.req, e.bytes, r);
        } else {
          StepCount(s, e, r);
        }
      }
    }
  }

  // The calls of dummy_queue in progress change only by their own events.
  lemma StepTicketSet(s: Udc, e: Event)
    ensures Step(s, e).tickets ==
            if !Possible(s, e) then s.tickets
            else if e.Check? then s.tickets + multiset{Ticket(e.ep, e.req)}
            else if e.Add? then s.tickets - multiset{Ticket(e.ep, e.req)}
            else s.tickets
  {
    hide Count, QueueTest, EnableTest, UsesFifo;
  }

  lemma StepApart(s: Udc, e: Event)
    requires TicketsApart(s) && Polite(s, e)
    ensures TicketsApart(Step(s, e))
  {
    hide Step, Possible;
    StepTicketSet(s, e);
    if Possible(s, e) && e.Check? {
      assert Ticket(e.ep, e.req) !in s.tickets;
    }
  }

  // What a step may do to an endpoint.
  lemma StepEp(s: Udc, e: Event, i: nat)
    requires i < |s.eps|
    ensures var x, y := s.eps[i], Step(s, e).eps[i];
            || y == x
            || (y.desc == x.desc && y.disabling == x.disabling &&
                 (|y.queue| < |x.queue| || (e.Add? && e.ep == i && Ticket(i, e.req) in s.tickets)))
            || (y.queue == x.queue && y.disabling == x.disabling && y.desc && i != 0 && e.Enable? && e.ep == i)
            || (y.queue == x.queue == [] && y.desc == x.desc && y.disabling == x.disabling - 1 >= 0 && e == DisableEnd(i))
            || (y.queue == x.queue && !y.desc && y.disabling == x.disabling + 1 && e == DisableBegin(i))
  {
    hide Count, Queued, QueueTest, UsesFifo;
    match e {
      case Add(_, _, _) =>
      case Detach(_, _) =>
      case Enable(_, _) =>
      case DisableBegin(_) =>
      case DisableEnd(_) =>
      case _ =>
    }
  }

  lemma StepFree(s: Udc, e: Event)
    requires TicketsFree(s) && TicketsApart(s)
    ensures TicketsFree(Step(s, e))
  {
    hide Count, Step;
    var u := Step(s, e);
    StepTicketSet(s, e);
    forall t | t in u.tickets ensures t.req != FIFO && !Queued(u, t.req) && 0 <= t.ep < |u.eps| {
      if !Possible(s, e) {
        NoStep(s, e);
      } else if e.Check? && t == Ticket(e.ep, e.req) {
        StepCount(s, e, e.req);
      } else if e.Add? {
        assert s.tickets[Ticket(e.ep, e.req)] == 1;
        assert t != Ticket(e.ep, e.req);
        AddCount(s, e, t.req);
      } else {
        StepCount(s, e, t.req);
      }
    }
  }

  lemma StepTickets(s: Udc, e: Event)
    requires TicketsGood(s) && TicketsApart(s) && Polite(s, e)
    ensures TicketsGood(Step(s, e))
  {
    hide Count, Step, TicketsFree, QueueTest, EnableTest;
    var u := Step(s, e);
    StepFree(s, e);
    StepTicketSet(s, e);
    forall t | t in u.tickets ensures 0 <= t.ep < |u.eps| && (t.ep == 0 || u.eps[t.ep].desc) {
      FreeTicket(u, t);
      StepEp(s, e, t.ep);
      if !Possible(s, e) {
        NoStep(s, e);
        assert t in s.tickets;
      } else if e.Check? && t == Ticket(e.ep, e.req) {
        CheckedEp(s, e.ep, e.req);
      } else {
        assert t in s.tickets;
        assert e != DisableBegin(t.ep);
      }
    }
  }

  lemma FreeTicket(s: Udc, t: Ticket)
    requires TicketsFree(s) && t in s.tickets
    ensures 0 <= t.ep < |s.eps|
  {
  }

  lemma CheckedEp(s: Udc, ep: nat, req: int)
    requires Possible(s, Check(ep, req))
    ensures ep == 0 || s.eps[ep].desc
    ensures Step(s, Check(ep, req)).eps == s.eps
  {
    hide Count;
  }

  lemma AddCount(s: Udc, e: Event, r: int)
    requires Possible(s, e) && e.Add?
    ensures Count(Step(s, e).eps, r) > Count(s.eps, r) ==> r == FIFO || r == e.req
  {
    hide Count, UsesFifo;
    AddedCount(s, e.ep, e.req, e.bytes, r);
  }

  lemma StepDrained(s: Udc, e: Event, i: nat)
    requires TicketsGood(s) && 0 < i < |s.eps| && Drained(s.eps[i])
    ensures Drained(Step(s, e).eps[i])
  {
    hide Step, Count;
    StepEp(s, e, i);
    if e.Add? && e.ep == i && Ticket(i, e.req) in s.tickets {
      assert s.eps[i].desc;
    }
  }

  lemma StepKeeps(s: Udc, e: Event)
    requires Inv(s) && Polite(s, e)
    ensures Inv(Step(s, e))
  {
    hide Step, Polite, Once, TicketsFree, TicketsApart, Conserved, Drained;
    StepConserves(s, e);
    StepOnce(s, e);
    StepApart(s, e);
    StepTickets(s, e);
    if |s.eps| > 0 {
      StepEp(s, e, 0);
    }
    forall i | 0 < i < |Step(s, e).eps| ensures Drained(Step(s, e).eps[i]) {
      StepDrained(s, e, i);
    }
  }

  // ---- Whole runs ----

  function Initial(n: nat): Udc {
    Udc(seq(n, i => Ep([], false, false, 0)), map[], false, false, multiset{}, multiset{}, multiset{}, multiset{})
  }

  lemma {:induction false} InitialCount(eps: seq<Ep>, r: int)
    requires forall x | x in eps :: x.queue == []
    ensures Count(eps, r) == 0
  {
    if eps != [] {
      assert forall x | x in eps[1..] :: x in eps;
      InitialCount(eps[1..], r);
    }
  }

  lemma InitialInv(n: nat)
    ensures Inv(Initial(n))
  {
    hide Count;
    forall r ensures Count(Initial(n).eps, r) == 0 {
      InitialCount(Initial(n).eps, r);
    }
  }

  lemma {:induction false} RunConserves(s: Udc, events: seq<Event>)
    requires Conserved(s)
    ensures Conserved(Run(s, events))
    decreases |events|
  {
    hide Step, Conserved;
    if events != [] {
      StepConserves(s, events[0]);
      RunConserves(Step(s, events[0]), events[1..]);
    }
  }

  lemma {:induction false} RunKeeps(s: Udc, events: seq<Event>)
    requires Inv(s) && PoliteRun(s, events)
    ensures Inv(Run(s, events))
    decreases |events|
  {
    hide Step, Inv, Polite;
    if events != [] {
      StepKeeps(s, events[0]);
      RunKeeps(Step(s, events[0]), events[1..]);
    }
  }

  // No request is given back more often than it was accepted, in any run at all; what is missing
  // is on a queue or in its completion handler.
  lemma EveryRunConserves(n: nat, events: seq<Event>, r: int)
    ensures var s := Run(Initial(n), events);
            s.given[r] <= s.accepted[r] && s.accepted[r] - s.given[r] == s.inFlight[r] + Count(s.eps, r)
  {
    hide Step, Count;
    InitialInv(n);
    RunConserves(Initial(n), events);
    assert ConservedAt(Run(Initial(n), events), r);
  }

  // The request stands at this place.
  predicate At(eps: seq<Ep>, i: int, a: int, r: int) {
    0 <= i < |eps| && 0 <= a < |eps[i].queue| && eps[i].queue[a] == r
  }

  ghost predicate OnePlace(eps: seq<Ep>, r: int) {
    forall i, a, j, b | At(eps, i, a, r) && At(eps, j, b, r) :: i == j && a == b
  }

  lemma {:induction false} PlaceCounts(q: seq<int>, a: nat, r: int)
    requires a < |q| && q[a] == r
    ensures multiset(q)[r] == 1 + multiset(q[..a])[r] + multiset(q[a + 1..])[r]
  {
    assert q == q[..a] + ([q[a]] + q[a + 1..]);
    assert multiset(q)[r] == multiset(q[..a])[r] + (multiset([q[a]])[r] + multiset(q[a + 1..])[r]);
  }

  lemma {:induction false} TwoPlacesCount(eps: seq<Ep>, i: int, a: int, j: int, b: int, r: int)
    requires At(eps, i, a, r) && At(eps, j, b, r) && (i < j || (i == j && a < b))
    ensures Count(eps, r) >= 2
  {
    if i > 0 {
      assert eps[1..][i - 1] == eps[i] && eps[1..][j - 1] == eps[j];
      TwoPlacesCount(eps[1..], i - 1, a, j - 1, b, r);
    } else {
      PlaceCounts(eps[0].queue, a, r);
      if j > 0 {
        assert r in multiset(eps[j].queue);
        assert eps[1..][j - 1] == eps[j];
        CountHolds(eps[1..], j - 1, r);
      } else {
        assert eps[0].queue[a + 1..][b - a - 1] == r;
        assert r in eps[0].queue[a + 1..];
      }
    }
  }

  lemma {:induction false} CountPlaces(eps: seq<Ep>, r: int)
    ensures Count(eps, r) > 0 ==> exists i, a :: At(eps, i, a, r)
    ensures Count(eps, r) > 1 ==> !OnePlace(eps, r)
  {
    if eps != [] {
      var q, rest := eps[0].queue, eps[1..];
      CountPlaces(rest, r);
      if r in q {
        var a :| 0 <= a < |q| && q[a] == r;
        PlaceCounts(q, a, r);
        assert At(eps, 0, a, r);
        if r in q[..a] {
          var b :| 0 <= b < a && q[b] == r;
          assert At(eps, 0, b, r);
        } else if r in q[a + 1..] {
          var b :| 0 <= b < |q[a + 1..]| && q[a + 1..][b] == r;
          assert At(eps, 0, a + 1 + b, r);
        } else if Count(rest, r) > 0 {
          var i, b :| At(rest, i, b, r);
          assert At(eps, i + 1, b, r);
        }
      } else {
        assert multiset(q)[r] == 0;
        if Count(rest, r) > 0 {
          var i, b :| At(rest, i, b, r);
          assert At(eps, i + 1, b, r);
        }
        if Count(rest, r) > 1 {
          var i, a, j, b :| At(rest, i, a, r) && At(rest, j, b, r) && !(i == j && a == b);
          assert At(eps, i + 1, a, r) && At(eps, j + 1, b, r);
        }
      }
    }
  }

  lemma CountIsPlaces(eps: seq<Ep>, r: int)
    ensures Count(eps, r) <= 1 <==> OnePlace(eps, r)
  {
    hide Count;
    CountPlaces(eps, r);
    if !OnePlace(eps, r) {
      var i, a, j, b :| At(eps, i, a, r) && At(eps, j, b, r) && !(i == j && a == b);
      if i < j || (i == j && a < b) {
        TwoPlacesCount(eps, i, a, j, b, r);
      } else {
        TwoPlacesCount(eps, j, b, i, a, r);
      }
    }
  }

  // Every reachable state: a request, fifo_req included, is on at most one queue, at most once,
  // and an endpoint other than ep0 without descriptor and without a disable in progress is empty.
  lemma EveryPoliteRun(n: nat, events: seq<Event>)
    requires PoliteRun(Initial(n), events)
    ensures var s := Run(Initial(n), events);
            && (forall r :: OnePlace(s.eps, r))
            && (forall i | 0 < i < |s.eps| :: !s.eps[i].desc && s.eps[i].disabling == 0 ==> s.eps[i].queue == [])
  {
    hide Step, Count, OnePlace;
    InitialInv(n);
    RunKeeps(Initial(n), events);
    var s := Run(Initial(n), events);
    forall r ensures OnePlace(s.eps, r) {
      assert Count(s.eps, r) <= 1;
      CountIsPlaces(s.eps, r);
    }
    assert forall i | 0 < i < |s.eps| :: Drained(s.eps[i]);
  }

  // ---- What the tests outside the lock leave open ----

  predicate NeverEnables(events: seq<Event>, ep: int) {
    forall e | e in events :: !(e.Enable? && e.ep == ep)
  }

  lemma {:induction false} ClosedStaysEmpty(s: Udc, ep: nat, events: seq<Event>)
    requires 0 < ep < |s.eps| && !s.eps[ep].desc && s.eps[ep].queue == []
    requires (forall t | t in s.tickets :: t.ep != ep) && NeverEnables(events, ep)
    ensures Run(s, events).eps[ep].queue == []
    decreases |events|
  {
    hide Count, Step;
    if events != [] {
      var e := events[0];
      assert e in events;
      assert forall x | x in events[1..] :: x in events;
      StepEp(s, e, ep);
      StepTicketSet(s, e);
      if Possible(s, e) && e.Check? {
        assert e.ep != ep;
      }
      ClosedStaysEmpty(Step(s, e), ep, events[1..]);
    }
  }

  // A disabled endpoint with nothing queued stays empty until it is enabled again, exactly if no
  // call of dummy_queue has passed its tests for it.
  lemma ClosedStaysEmptyIff(s: Udc, ep: nat)
    requires 0 < ep < |s.eps| && !s.eps[ep].desc && s.eps[ep].queue == []
    ensures (forall events | NeverEnables(events, ep) :: Run(s, events).eps[ep].queue == [])
       <==> (forall t | t in s.tickets :: t.ep != ep)
  {
    hide Count, Step;
    if forall t | t in s.tickets :: t.ep != ep {
      forall events | NeverEnables(events, ep) ensures Run(s, events).eps[ep].queue == [] {
        ClosedStaysEmpty(s, ep, events);
      }
    } else {
      var t :| t in s.tickets && t.ep == ep;
      LateAdd(s, ep, t.req, []);
      var events := [Add(ep, t.req, [])];
      assert events[1..] == [];
      assert Run(s, events) == Step(s, events[0]);
      assert NeverEnables(events, ep);
    }
  }

  // A call that has passed its tests is not tested again.
  lemma LateAdd(s: Udc, ep: nat, req: int, b: Bytes)
    requires ep < |s.eps| && Ticket(ep, req) in s.tickets && !UsesFifo(s, ep, b)
    ensures var t := Step(s, Add(ep, req, b));
            && t.eps[ep] == s.eps[ep].(queue := s.eps[ep].queue + [req])
            && (forall i | 0 <= i < |s.eps| && i != ep :: t.eps[i] == s.eps[i])
            && t.tickets == s.tickets - multiset{Ticket(ep, req)}
            && t.driver == s.driver && t.enabled == s.enabled
  {
    hide Count;
  }

  lemma LongAdd(s: Udc, ep: nat, req: int, r: int)
    requires ep < |s.eps| && Ticket(ep, req) in s.tickets
    ensures !UsesFifo(s, ep, Long())
    ensures Count(Step(s, Add(ep, req, Long())).eps, r) == Count(s.eps, r) + if r == req then 1 else 0
  {
    hide Count;
    AddedCount(s, ep, req, Long(), r);
  }

  predicate NoChecks(events: seq<Event>) { forall e | e in events :: !e.Check? }

  lemma {:induction false} ApartStaysOnce(s: Udc, events: seq<Event>)
    requires Once(s) && TicketsFree(s) && TicketsApart(s) && NoChecks(events)
    ensures Once(Run(s, events))
    decreases |events|
  {
    hide Count, Step, Once, TicketsFree, TicketsApart, Polite;
    if events != [] {
      var e := events[0];
      assert e in events;
      assert forall x | x in events[1..] :: x in events;
      StepOnce(s, e);
      StepFree(s, e);
      UncheckedApart(s, e);
      ApartStaysOnce(Step(s, e), events[1..]);
    }
  }

  lemma UncheckedApart(s: Udc, e: Event)
    requires TicketsApart(s) && !e.Check?
    ensures TicketsApart(Step(s, e))
  {
    hide Step, Possible;
    StepTicketSet(s, e);
  }

  // A second call for a request that is queued puts it on a queue once more.
  lemma AddAgain(s: Udc, t: Ticket)
    requires t in s.tickets && 0 <= t.ep < |s.eps| && Queued(s, t.req)
    ensures !Once(Run(s, [Add(t.ep, t.req, Long())]))
  {
    hide Count, Step;
    var e := Add(t.ep, t.req, Long());
    LongAdd(s, t.ep, t.req, t.req);
    assert [e][1..] == [];
    assert Run(s, [e]) == Step(s, e);
    assert Count(Step(s, e).eps, t.req) > 1;
  }

  lemma AddBoth(s: Udc, t: Ticket, u: Ticket)
    requires 0 <= t.ep < |s.eps| && 0 <= u.ep < |s.eps| && t.req == u.req
    requires t in s.tickets && u in s.tickets - multiset{t}
    ensures !Once(Run(s, [Add(t.ep, t.req, Long()), Add(u.ep, u.req, Long())]))
  {
    hide Count, Step;
    var e, e' := Add(t.ep, t.req, Long()), Add(u.ep, u.req, Long());
    LongAdd(s, t.ep, t.req, t.req);
    LateAdd(s, t.ep, t.req, Long());
    var m := Step(s, e);
    assert [e, e'][1..] == [e'];
    assert Run(s, [e, e']) == Run(m, [e']);
    AddAgain(m, u);
  }

  predicate AllWaiting(s: Udc) { forall t | t in s.tickets :: !Queued(s, t.req) }

  lemma NotApartBreaks(s: Udc) returns (events: seq<Event>)
    requires !TicketsApart(s) || !AllWaiting(s)
    requires forall t | t in s.tickets :: 0 <= t.ep < |s.eps|
    ensures NoChecks(events) && !Once(Run(s, events))
  {
    hide Count, Step, Run, Once, Queued;
    if t :| t in s.tickets && Queued(s, t.req) {
      AddAgain(s, t);
      events := [Add(t.ep, t.req, Long())];
    } else {
      Twins(s);
      var t, u :| Twin(s, t, u);
      assert u in s.tickets;
      AddBoth(s, t, u);
      events := [Add(t.ep, t.req, Long()), Add(u.ep, u.req, Long())];
    }
  }

  // The calls of dummy_queue under way can put no request on two queues, or twice on one, exactly
  // if they are for different requests, none of them queued.
  lemma StaysOnceIff(s: Udc)
    requires Once(s) && forall t | t in s.tickets :: t.req != FIFO && 0 <= t.ep < |s.eps|
    ensures (forall events | NoChecks(events) :: Once(Run(s, events))) <==> TicketsApart(s) && AllWaiting(s)
  {
    hide Count, Step, Run, Once, Queued, TicketsApart;
    if TicketsApart(s) && AllWaiting(s) {
      forall events | NoChecks(events) ensures Once(Run(s, events)) {
        ApartStaysOnce(s, events);
      }
    } else {
      var events := NotApartBreaks(s);
    }
  }

  // Two calls under way for one request.
  predicate Twin(s: Udc, t: Ticket, u: Ticket) {
    t in s.tickets && u in s.tickets - multiset{t} && t.req == u.req
  }

  lemma Twins(s: Udc)
    requires !TicketsApart(s)
    ensures exists t, u :: Twin(s, t, u)
  {
    if t :| t in s.tickets && s.tickets[t] != 1 {
      assert s.tickets[t] > 1;
      assert Twin(s, t, t);
    } else {
      var t, u :| t in s.tickets && u in s.tickets && t.req == u.req && t != u;
      assert Twin(s, t, u);
    }
  }

  function Pair(tickets: multiset<Ticket>, queue1: seq<int>, queue2: seq<int>): Udc {
    Udc([Ep([], false, false, 0), Ep(queue1, true, false, 0), Ep(queue2, true, false, 0)], map[], true, true,
        tickets, multiset{}, multiset{}, multiset{})
  }

  lemma CheckPasses(s: Udc, ep: nat, req: int)
    requires ep < |s.eps| && req != FIFO && QueueTest(s, ep, req) == Ok
    ensures Step(s, Check(ep, req)) == s.(tickets := s.tickets + multiset{Ticket(ep, req)})
  {
    hide Count, QueueTest;
  }

  lemma PairPasses(tickets: multiset<Ticket>, ep: nat)
    requires ep == 1 || ep == 2
    ensures QueueTest(Pair(tickets, [], []), ep, 5) == Ok
  {
    hide Count;
    InitialCount(Pair(tickets, [], []).eps, 5);
  }

  lemma PairChecks()
    ensures Step(Pair(multiset{}, [], []), Check(1, 5)) == Pair(multiset{Ticket(1, 5)}, [], [])
    ensures Step(Pair(multiset{Ticket(1, 5)}, [], []), Check(2, 5)) == Pair(multiset{Ticket(1, 5), Ticket(2, 5)}, [], [])
  {
    hide Step, QueueTest;
    PairPasses(multiset{}, 1);
    PairPasses(multiset{Ticket(1, 5)}, 2);
    CheckPasses(Pair(multiset{}, [], []), 1, 5);
    CheckPasses(Pair(multiset{Ticket(1, 5)}, [], []), 2, 5);
    assert multiset{} + multiset{Ticket(1, 5)} == multiset{Ticket(1, 5)};
    assert multiset{Ticket(1, 5)} + multiset{Ticket(2, 5)} == multiset{Ticket(1, 5), Ticket(2, 5)};
  }

  // list_empty(&req->queue) is tested before the lock is taken: two calls that race for one
  // request both pass, and it ends up on two queues.
  lemma QueuedTwice(b: Bytes)
    ensures var s := Pair(multiset{}, [], []);
            var t := Run(s, [Check(1, 5), Check(2, 5), Add(1, 5, b), Add(2, 5, b)]);
            At(t.eps, 1, 0, 5) && At(t.eps, 2, 0, 5)
    ensures !Polite(Pair(multiset{Ticket(1, 5)}, [], []), Check(2, 5))
  {
    hide Count, Step;
    var s := Pair(multiset{}, [], []);
    PairChecks();
    var u := Pair(multiset{Ticket(1, 5), Ticket(2, 5)}, [], []);
    var e := [Check(1, 5), Check(2, 5), Add(1, 5, b), Add(2, 5, b)];
    assert e[1..][1..] == [Add(1, 5, b), Add(2, 5, b)];
    assert Run(s, e) == Run(u, [Add(1, 5, b), Add(2, 5, b)]);
    assert [Add(1, 5, b), Add(2, 5, b)][1..] == [Add(2, 5, b)];
    var v := Step(u, Add(1, 5, b));
    assert Run(v, [Add(2, 5, b)]) == Step(v, Add(2, 5, b));
    LateAdd(u, 1, 5, b);
    LateAdd(v, 2, 5, b);
    assert Ticket(1, 5) in Pair(multiset{Ticket(1, 5)}, [], []).tickets;
  }

  // ---- The FIFO ----

  // The bytes of the requests on a queue, in order.
  function Waiting(s: Udc, queue: seq<int>): Bytes
    decreases |queue|
  {
    if queue == [] then [] else (if queue[0] in s.data then s.data[queue[0]] else []) + Waiting(s, queue[1..])
  }

  lemma {:induction false} WaitingSame(s: Udc, t: Udc, queue: seq<int>, r: int, b: Bytes)
    requires t.data == s.data[r := b] && r !in queue
    ensures Waiting(t, queue) == Waiting(s, queue)
    decreases |queue|
  {
    if queue != [] {
      WaitingSame(s, t, queue[1..], r, b);
    }
  }

  lemma {:induction false} WaitingSnoc(s: Udc, queue: seq<int>, r: int)
    requires r in s.data
    ensures Waiting(s, queue + [r]) == Waiting(s, queue) + s.data[r]
    decreases |queue|
  {
    if queue == [] {
      assert queue + [r] == [r] && [r][1..] == [];
    } else {
      assert (queue + [r])[1..] == queue[1..] + [r];
      WaitingSnoc(s, queue[1..], r);
    }
  }

  lemma NotQueuedHere(s: Udc, i: nat, r: int)
    requires i < |s.eps| && !Queued(s, r)
    ensures r !in s.eps[i].queue
  {
    if r in s.eps[i].queue {
      assert multiset(s.eps[i].queue)[r] > 0;
      CountHolds(s.eps, i, r);
    }
  }

  // The FIFO does not show in the bytes: a queued request adds its bytes at the end of what its
  // endpoint has to send, and changes no other endpoint's, whether it waits itself or has been
  // copied and completed.
  lemma AddAppends(s: Udc, ep: nat, req: int, b: Bytes, i: nat)
    requires Inv(s) && ep < |s.eps| && Ticket(ep, req) in s.tickets && i < |s.eps|
    ensures var t := Step(s, Add(ep, req, b));
            Waiting(t, t.eps[i].queue) == Waiting(s, s.eps[i].queue) + if i == ep then b else []
  {
    hide Count, Once, Conserved, TicketsApart, Waiting;
    var t := Step(s, Add(ep, req, b));
    var r := if UsesFifo(s, ep, b) then FIFO else req;
    assert t.data == s.data[r := b];
    assert !Queued(s, r);
    NotQueuedHere(s, i, r);
    WaitingSame(s, t, s.eps[i].queue, r, b);
    if i == ep {
      assert t.eps[i].queue == s.eps[i].queue + [r];
      WaitingSnoc(t, s.eps[i].queue, r);
    }
  }

  // ---- Whole calls, with what happens while they are outside the lock ----

  // dummy_queue: `before` between its tests and the lock, `during` while the FIFO path gives back.
  function QueueCall(s: Udc, ep: nat, req: int, bytes: Bytes, before: seq<Event>, during: seq<Event>): Udc
    requires ep < |s.eps|
  {
    var locked := Run(Step(s, Check(ep, req)), before);
    var added := Step(locked, Add(ep, req, bytes));
    if UsesFifo(locked, ep, bytes) then Step(Run(added, during), GiveBack(req)) else added
  }

  // The call's own ticket is not used by anybody else.
  predicate Spares(events: seq<Event>, ep: nat, req: int) {
    forall e | e in events :: !(e.Add? && e.ep == ep && e.req == req)
  }

  lemma {:induction false} TicketSpared(s: Udc, events: seq<Event>, ep: nat, req: int)
    requires Spares(events, ep, req) && Ticket(ep, req) in s.tickets
    ensures Ticket(ep, req) in Run(s, events).tickets
    decreases |events|
  {
    hide Step;
    if events != [] {
      assert events[0] in events;
      assert forall x | x in events[1..] :: x in events;
      StepTicketSet(s, events[0]);
      TicketSpared(Step(s, events[0]), events[1..], ep, req);
    }
  }

  function Place(queue: seq<int>, req: int): (i: nat)
    requires req in queue
    ensures i < |queue| && queue[i] == req && req !in queue[..i]
  {
    if queue[0] == req then 0 else 1 + Place(queue[1..], req)
  }

  lemma {:induction false} FirstPlace(queue: seq<int>, req: int, i: nat)
    requires i < |queue| && queue[i] == req && req !in queue[..i]
    ensures Place(queue, req) == i
    decreases i
  {
    if i > 0 {
      assert queue[0] == queue[..i][0];
      assert queue[1..][..i - 1] == queue[..i][1..];
      FirstPlace(queue[1..], req, i - 1);
    }
  }

  lemma CheckTicket(s: Udc, ep: nat, req: int)
    requires ep < |s.eps| && req != FIFO
    ensures QueueTest(s, ep, req) == Ok ==> Ticket(ep, req) in Step(s, Check(ep, req)).tickets
    ensures QueueTest(s, ep, req) != Ok ==> Step(s, Check(ep, req)) == s
  {
    hide Count, QueueTest;
  }
}
