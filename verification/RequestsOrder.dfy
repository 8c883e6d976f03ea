// Which calls are refused, which requests are completed at once, and in which order requests are
// given back (patch/kernel/dummy_hcd.c:329-342, 498-515, 687-743), in terms of the queues only.

module RequestsOrder {
  import opened Requests
  import opened RequestsNuke

  // ---- Refusals ----

  lemma {:induction false} CountedIff(eps: seq<Ep>, r: int)
    ensures Count(eps, r) > 0 <==> exists i :: 0 <= i < |eps| && r in eps[i].queue
  {
    if eps != [] {
      CountedIff(eps[1..], r);
      if r in eps[0].queue {
        assert multiset(eps[0].queue)[r] > 0;
      }
      forall i | 0 < i < |eps| && r in eps[i].queue ensures r in eps[1..][i - 1].queue {
      }
      forall i | 0 <= i < |eps| - 1 && r in eps[1..][i].queue ensures r in eps[i + 1].queue {
      }
    }
  }

  // dummy_queue: a request that stands on any queue, or an endpoint other than ep0 that is not
  // enabled; then, no driver or no link.
  lemma QueueRefuses(s: Udc, ep: nat, req: int)
    requires ep < |s.eps|
    ensures QueueTest(s, ep, req) == EINVAL
       <==> (exists i :: 0 <= i < |s.eps| && req in s.eps[i].queue) || (ep != 0 && !s.eps[ep].desc)
    ensures QueueTest(s, ep, req) == ESHUTDOWN
       <==> QueueTest(s, ep, req) != EINVAL && !(s.driver && s.enabled)
    ensures QueueTest(s, ep, req) == Ok ==> s.driver && s.enabled && forall i | 0 <= i < |s.eps| :: req !in s.eps[i].queue
  {
    CountedIff(s.eps, req);
  }

  // dummy_enable: ep0, or an endpoint that is enabled; then, no driver or no link.
  lemma EnableRefuses(s: Udc, ep: nat)
    requires ep < |s.eps|
    ensures EnableTest(s, ep) == EINVAL <==> ep == 0 || s.eps[ep].desc
    ensures EnableTest(s, ep) == ESHUTDOWN <==> EnableTest(s, ep) != EINVAL && !(s.driver && s.enabled)
    ensures EnableTest(s, ep) == Ok ==> ep != 0 && !s.eps[ep].desc && s.driver && s.enabled
  {
  }

  // ---- Completed at once ----

  // The endpoint is enabled and sends to the host, nothing waits there, no queue has the FIFO, and
  // there are at most 64 bytes.
  predicate AtOnce(eps: seq<Ep>, ep: nat, b: Bytes)
    requires ep < |eps|
  {
    && eps[ep].desc && eps[ep].dirIn && eps[ep].queue == [] && |b| <= 64
    && forall i | 0 <= i < |eps| :: FIFO !in eps[i].queue
  }

  // Exactly then a request is completed while it is being queued, and its copy waits in its place.
  lemma AtOnceIff(s: Udc, ep: nat, req: int, b: Bytes)
    requires ep < |s.eps| && Ticket(ep, req) in s.tickets
    ensures var t := Step(s, Add(ep, req, b));
            var atOnce := AtOnce(s.eps, ep, b);
            && t.inFlight == s.inFlight + (if atOnce then multiset{req} else multiset{})
            && t.eps[ep].queue == s.eps[ep].queue + [if atOnce then FIFO else req]
            && t.data == s.data[(if atOnce then FIFO else req) := b]
            && forall i | 0 <= i < |s.eps| && i != ep :: t.eps[i] == s.eps[i]
  {
    hide Count;
    CountedIff(s.eps, FIFO);
  }

  // A call of dummy_queue that nothing disturbs.  A refused one changes nothing; otherwise, when it
  // returns, the request is on its queue, or has been given back and its copy is there.
  lemma CallIs(s: Udc, ep: nat, req: int, b: Bytes)
    requires ep < |s.eps| && req != FIFO && s.inFlight[req] == 0
    ensures QueueTest(s, ep, req) == Ok ==>
      var t := QueueCall(s, ep, req, b, [], []);
      var atOnce := AtOnce(s.eps, ep, b);
      && t.eps[ep].queue == s.eps[ep].queue + [if atOnce then FIFO else req]
      && t.given == s.given + (if atOnce then multiset{req} else multiset{})
      && t.inFlight == s.inFlight && t.tickets == s.tickets
  {
    hide Count, Step, QueueTest, UsesFifo, AtOnce;
    if QueueTest(s, ep, req) == Ok {
      CheckPasses(s, ep, req);
      var c := Step(s, Check(ep, req));
      assert Run(c, []) == c;
      AtOnceIff(c, ep, req, b);
      UsesFifoIff(c, ep, b);
      var a := Step(c, Add(ep, req, b));
      assert Run(a, []) == a;
      AddRest(c, ep, req, b);
      assert c.tickets - multiset{Ticket(ep, req)} == s.tickets;
      if req in a.inFlight {
        GivenIs(a, req);
      }
    }
  }

  lemma UsesFifoIff(s: Udc, ep: nat, b: Bytes)
    requires ep < |s.eps|
    ensures UsesFifo(s, ep, b) <==> AtOnce(s.eps, ep, b)
  {
    CountedIff(s.eps, FIFO);
  }

  lemma AddRest(s: Udc, ep: nat, req: int, b: Bytes)
    requires ep < |s.eps| && Ticket(ep, req) in s.tickets
    ensures var t := Step(s, Add(ep, req, b));
            t.given == s.given && t.tickets == s.tickets - multiset{Ticket(ep, req)}
  {
    hide Count;
  }

  lemma GivenIs(s: Udc, req: int)
    requires req in s.inFlight
    ensures var t := Step(s, GiveBack(req));
            && t.given == s.given + multiset{req} && t.inFlight == s.inFlight - multiset{req}
            && t.eps == s.eps && t.tickets == s.tickets
  {
    hide Count;
  }

  // dummy_disable takes the descriptor of an enabled endpoint other than ep0, which counts as being
  // disabled until its queue is empty.
  lemma DisableIs(s: Udc, ep: nat)
    requires ep < |s.eps|
    ensures var x, t := s.eps[ep], Step(s, DisableBegin(ep));
            && (ep != 0 && x.desc ==> t.eps[ep] == x.(desc := false, disabling := x.disabling + 1))
            && (ep == 0 || !x.desc ==> t == s)
    ensures var x, t := s.eps[ep], Step(s, DisableEnd(ep));
            && (x.disabling > 0 && x.queue == [] ==> t.eps[ep] == x.(disabling := x.disabling - 1))
            && (x.disabling <= 0 || x.queue != [] ==> t == s)
  {
    hide Count;
  }

  // Binding a driver and linking the port are always possible, and are what the tests above see.
  lemma BindIs(s: Udc, on: bool)
    ensures Step(s, Bind(on)) == s.(driver := on) && Step(s, Link(on)) == s.(enabled := on)
  {
    hide Count;
  }

  // ---- Order ----

  // The gadget driver's requests on a queue.
  function Own(queue: seq<int>): seq<int> {
    if queue == [] then [] else (if queue[0] == FIFO then [] else [queue[0]]) + Own(queue[1..])
  }

  lemma {:induction false} OwnSnoc(queue: seq<int>, r: int)
    ensures Own(queue + [r]) == Own(queue) + if r == FIFO then [] else [r]
  {
    hide Own;
    NoneOwn([]);
    if queue == [] {
      assert [] + [r] == [r];
      OwnOne(r);
    } else {
      assert (queue + [r])[1..] == queue[1..] + [r];
      OwnSnoc(queue[1..], r);
      OwnHead(queue);
      OwnHead(queue + [r]);
    }
  }

  // The driver's requests of endpoint ep whose giveback begins with an event, and those it accepts.
  function BegunBy(s: Udc, ep: nat, e: Event): seq<int>
    requires ep < |s.eps|
  {
    match e
    case Add(i, req, _) => if i == ep && Step(s, e).inFlight[req] > s.inFlight[req] then [req] else []
    case Detach(i, k) => if i == ep && k < |s.eps[ep].queue| then Own([s.eps[ep].queue[k]]) else []
    case _ => []
  }

  function TakenBy(s: Udc, ep: nat, e: Event): seq<int> {
    if e.Add? && e.ep == ep && Ticket(ep, e.req) in s.tickets then [e.req] else []
  }

  function Begun(s: Udc, ep: nat, events: seq<Event>): seq<int>
    requires ep < |s.eps|
    decreases |events|
  {
    if events == [] then [] else BegunBy(s, ep, events[0]) + Begun(Step(s, events[0]), ep, events[1..])
  }

  function Taken(s: Udc, ep: nat, events: seq<Event>): seq<int>
    decreases |events|
  {
    if events == [] then [] else TakenBy(s, ep, events[0]) + Taken(Step(s, events[0]), ep, events[1..])
  }

  // Requests leave the queue of ep at its head, as transfer and nuke take them.
  predicate HeadOnly(events: seq<Event>, ep: nat) {
    forall e | e in events :: e.Detach? && e.ep == ep ==> e.i == 0
  }

  predicate OwnTickets(s: Udc) { forall t | t in s.tickets :: t.req != FIFO }

  lemma StepOwnTickets(s: Udc, e: Event)
    requires OwnTickets(s)
    ensures OwnTickets(Step(s, e))
  {
    hide Step;
    StepTicketSet(s, e);
  }

  lemma OwnOne(r: int)
    ensures Own([r]) == if r == FIFO then [] else [r]
  {
    assert [r][1..] == [];
  }

  lemma StepInOrder(s: Udc, ep: nat, e: Event)
    requires ep < |s.eps| && OwnTickets(s) && (e.Detach? && e.ep == ep ==> e.i == 0)
    ensures BegunBy(s, ep, e) + Own(Step(s, e).eps[ep].queue) == Own(s.eps[ep].queue) + TakenBy(s, ep, e)
  {
    hide Count, Own, Step, Possible;
    var q := s.eps[ep].queue;
    if e.Add? && e.ep == ep && Ticket(ep, e.req) in s.tickets {
      AtOnceIff(s, ep, e.req, e.bytes);
      var r := Step(s, e).eps[ep].queue[|q|];
      OwnSnoc(q, r);
      if r == FIFO {
        assert Own(q) == [] by { NoneOwn(q); }
      }
    } else if e.Detach? && e.ep == ep && q != [] {
      DetachShortens(s, ep);
      assert Own(q) == Own([q[0]]) + Own(q[1..]) by { OwnOne(q[0]); OwnHead(q); }
    } else {
      QueueKept(s, ep, e);
    }
  }

  lemma NoneOwn(q: seq<int>)
    ensures q == [] ==> Own(q) == []
  {
  }

  lemma OwnHead(q: seq<int>)
    requires q != []
    ensures Own(q) == (if q[0] == FIFO then [] else [q[0]]) + Own(q[1..])
  {
  }

  lemma QueueKept(s: Udc, ep: nat, e: Event)
    requires ep < |s.eps|
    requires !(e.Add? && e.ep == ep && Ticket(ep, e.req) in s.tickets) && !(e.Detach? && e.ep == ep && s.eps[ep].queue != [])
    requires e.Detach? && e.ep == ep ==> e.i == 0
    ensures Step(s, e).eps[ep].queue == s.eps[ep].queue && BegunBy(s, ep, e) == [] && TakenBy(s, ep, e) == []
  {
    hide Count, UsesFifo;
  }

  // Each endpoint gives its driver's requests back in the order it has accepted them, those that
  // are completed at once among them, over all runs in which they leave at the head of the queue:
  // what has begun to be given back, and then what waits, is what waited and then what was accepted.
  lemma {:induction false} InOrder(s: Udc, ep: nat, events: seq<Event>)
    requires ep < |s.eps| && OwnTickets(s) && HeadOnly(events, ep)
    ensures Begun(s, ep, events) + Own(Run(s, events).eps[ep].queue) == Own(s.eps[ep].queue) + Taken(s, ep, events)
    decreases |events|
  {
    hide Count, Step, Own, BegunBy, TakenBy;
    if events != [] {
      var e, rest := events[0], events[1..];
      assert e in events && forall x | x in rest :: x in events;
      StepInOrder(s, ep, e);
      StepOwnTickets(s, e);
      InOrder(Step(s, e), ep, rest);
      Joined(BegunBy(s, ep, e), Begun(Step(s, e), ep, rest), Own(Run(Step(s, e), rest).eps[ep].queue),
             Own(Step(s, e).eps[ep].queue), Own(s.eps[ep].queue), TakenBy(s, ep, e), Taken(Step(s, e), ep, rest));
    }
  }

  lemma Joined(b: seq<int>, bs: seq<int>, last: seq<int>, mid: seq<int>, first: seq<int>, t: seq<int>, ts: seq<int>)
    requires b + mid == first + t && bs + last == mid + ts
    ensures (b + bs) + last == first + (t + ts)
  {
    assert (b + bs) + last == b + (bs + last) == b + (mid + ts) == (b + mid) + ts == (first + t) + ts;
  }

  // dummy_dequeue takes from the middle, and with it the order goes.
  lemma DequeueReorders(s: Udc, ep: nat)
    requires ep < |s.eps| && |s.eps[ep].queue| > 1
    requires var q := s.eps[ep].queue; q[0] != FIFO && q[1] != FIFO && q[0] != q[1]
    ensures var events := [Detach(ep, 1)];
            Begun(s, ep, events) == [s.eps[ep].queue[1]] && !(Begun(s, ep, events) <= Own(s.eps[ep].queue))
  {
    hide Count, Step;
    var events, q := [Detach(ep, 1)], s.eps[ep].queue;
    OwnOne(q[1]);
    OwnHead(q);
    assert events[1..] == [];
    assert Begun(Step(s, events[0]), ep, []) == [];
    assert Begun(s, ep, events) == BegunBy(s, ep, events[0]) + [];
  }

  // nuke takes the requests from the head: undisturbed, k rounds give back the first k.
  lemma {:induction false} NukeTakesHead(s: Udc, ep: nat, turns: nat -> seq<Event>, i: nat, k: nat)
    requires ep < |s.eps| && k <= |s.eps[ep].queue| && forall j :: turns(j) == []
    ensures var t := Rounds(s, ep, turns, i, k);
            && t.eps[ep].queue == s.eps[ep].queue[k..]
            && t.given == s.given + multiset(s.eps[ep].queue[..k])
    decreases k
  {
    hide Count, Round;
    var q := s.eps[ep].queue;
    if k > 0 {
      var r := Round(s, ep, turns(i));
      HeadRound(s, ep);
      NukeTakesHead(r, ep, turns, i + 1, k - 1);
      assert q[..k] == [q[0]] + q[1..][..k - 1];
    }
  }

  lemma HeadRound(s: Udc, ep: nat)
    requires ep < |s.eps| && s.eps[ep].queue != []
    ensures var r, q := Round(s, ep, []), s.eps[ep].queue;
            r.eps[ep].queue == q[1..] && r.given == s.given + multiset{q[0]}
  {
    hide Count;
    DetachShortens(s, ep);
  }
}
