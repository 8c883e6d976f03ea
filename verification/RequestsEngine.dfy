// The device side request calls in place (patch/kernel/dummy_hcd.c:329-358, 490-509, 600-618,
// 687-781).  Whatever else happens while a call is outside the lock is a list of events.

module RequestsEngine {
  import opened Requests
  import opened RequestsNuke

  class DummyUdc {
    var eps: seq<Ep>
    var data: map<int, Bytes>
    var driver: bool
    var enabled: bool
    var tickets: multiset<Ticket>
    var inFlight: multiset<int>
    var accepted: multiset<int>
    var given: multiset<int>

    function State(): Udc
      reads this
    {
      Udc(eps, data, driver, enabled, tickets, inFlight, accepted, given)
    }

    constructor (n: nat)
      ensures State() == Initial(n)
    {
      eps := seq(n, i => Ep([], false, false, 0));
      data, driver, enabled := map[], false, false;
      tickets, inFlight, accepted, given := multiset{}, multiset{}, multiset{}, multiset{};
    }

    // The tests of dummy_queue.
    method TestQueue(ep: nat, req: int) returns (errno: Errno)
      requires ep < |eps| && req != FIFO
      modifies this
      ensures errno == QueueTest(old(State()), ep, req)
      ensures State() == Step(old(State()), Check(ep, req))
    {
      hide Count, UsesFifo;
      if Count(eps, req) > 0 {
        return EINVAL;
      }
      if !eps[ep].desc && ep != 0 {
        return EINVAL;
      }
      if !driver || !enabled {
        return ESHUTDOWN;
      }
      tickets := tickets + multiset{Ticket(ep, req)};
      return Ok;
    }

    method Append(ep: nat, req: int, bytes: Bytes)
      requires ep < |eps|
      modifies this`eps, this`data, this`accepted
      ensures State() == Push(old(State()), ep, req, bytes)
    {
      data := data[req := bytes];
      accepted := accepted + multiset{req};
      eps := eps[ep := eps[ep].(queue := eps[ep].queue + [req])];
    }

    // Its locked part; `copied` says the FIFO has taken the bytes and the caller's request is done.
    method AddRequest(ep: nat, req: int, bytes: Bytes) returns (copied: bool)
      requires ep < |eps| && Ticket(ep, req) in tickets
      modifies this
      ensures copied == UsesFifo(old(State()), ep, bytes)
      ensures State() == Step(old(State()), Add(ep, req, bytes))
    {
      hide Count, Push, With, UsesFifo;
      copied := UsesFifoNow(ep, bytes);
      if copied {
        Append(ep, FIFO, bytes);
        accepted := accepted + multiset{req};
        inFlight := inFlight + multiset{req};
      } else {
        Append(ep, req, bytes);
      }
      assert State() == Added(old(State()), ep, req, bytes);
      PushTickets(old(State()), ep, if copied then FIFO else req, bytes);
      tickets := tickets - multiset{Ticket(ep, req)};
    }

    method UsesFifoNow(ep: nat, bytes: Bytes) returns (b: bool)
      requires ep < |eps|
      ensures b == UsesFifo(State(), ep, bytes)
    {
      hide Count;
      var x := eps[ep];
      b := x.desc && x.dirIn && Count(eps, FIFO) == 0 && x.queue == [] && |bytes| <= FIFO_SIZE;
    }

    method Unlink(ep: nat, i: nat) returns (req: int)
      requires ep < |eps| && i < |eps[ep].queue|
      modifies this
      ensures req == old(eps[ep].queue[i])
      ensures State() == Step(old(State()), Detach(ep, i))
    {
      hide Count, UsesFifo;
      var q := eps[ep].queue;
      req := q[i];
      inFlight := inFlight + multiset{req};
      eps := eps[ep := eps[ep].(queue := q[..i] + q[i + 1..])];
    }

    method Completed(req: int)
      requires req in inFlight
      modifies this`inFlight, this`given
      ensures State() == Step(old(State()), GiveBack(req))
    {
      hide Count, UsesFifo;
      inFlight := inFlight - multiset{req};
      given := given + multiset{req};
    }

    // One event; what the events of other threads and of completion handlers do to this state.
    method Do(e: Event)
      modifies this
      ensures State() == Step(old(State()), e)
    {
      hide Count, UsesFifo, QueueTest, Step;
      if !Possible(State(), e) {
        NoStep(State(), e);
        return;
      }
      match e {
        case Check(ep, req) => var _ := TestQueue(ep, req);
        case Add(ep, req, bytes) => var _ := AddRequest(ep, req, bytes);
        case Detach(ep, i) => var _ := Unlink(ep, i);
        case GiveBack(req) => Completed(req);
        case _ => DoQuiet(e);
      }
    }

    method DoQuiet(e: Event)
      requires Possible(State(), e) && (e.Enable? || e.DisableBegin? || e.DisableEnd? || e.Bind? || e.Link?)
      modifies this`eps, this`driver, this`enabled
      ensures State() == Step(old(State()), e)
    {
      hide Count, UsesFifo, QueueTest, Possible;
      QuietStep(State(), e);
      match e {
        case Enable(ep, dirIn) => Replace(ep, eps[ep].(desc := true, dirIn := dirIn));
        case DisableBegin(ep) => Replace(ep, eps[ep].(desc := false, disabling := eps[ep].disabling + 1));
        case DisableEnd(ep) => Replace(ep, eps[ep].(disabling := eps[ep].disabling - 1));
        case Bind(b) => driver := b;
        case Link(b) => enabled := b;
      }
    }

    method Replace(ep: nat, x: Ep)
      requires ep < |eps|
      modifies this`eps
      ensures State() == With(old(State()), ep, x)
    {
      eps := eps[ep := x];
    }

    method DoAll(events: seq<Event>)
      modifies this
      ensures State() == Run(old(State()), events)
      decreases |events|
    {
      hide Count, Step;
      if events != [] {
        Do(events[0]);
        DoAll(events[1..]);
      }
    }

    // dummy_queue.
    method Queue(ep: nat, req: int, bytes: Bytes, before: seq<Event>, during: seq<Event>) returns (errno: Errno)
      requires ep < |eps| && req != FIFO && Spares(before, ep, req)
      modifies this
      ensures errno == QueueTest(old(State()), ep, req)
      ensures State() == if errno == Ok then QueueCall(old(State()), ep, req, bytes, before, during) else old(State())
    {
      hide Count, Step, QueueTest, UsesFifo;
      errno := TestQueue(ep, req);
      CheckTicket(old(State()), ep, req);
      if errno == Ok {
        TicketSpared(State(), before, ep, req);
        DoAll(before);
        var copied := AddRequest(ep, req, bytes);
        if copied {
          DoAll(during);
          Do(GiveBack(req));
        }
      }
    }

    // dummy_dequeue.
    method Dequeue(ep: nat, req: int, turn: seq<Event>) returns (errno: Errno)
      requires ep < |eps|
      modifies this
      ensures errno == if !old(driver) then ESHUTDOWN else if req in old(eps[ep].queue) then Ok else EINVAL
      ensures State() == if errno == Ok
                         then Step(Run(Step(old(State()), Detach(ep, Place(old(eps[ep].queue), req))), turn), GiveBack(req))
                         else old(State())
    {
      hide Count, Step;
      if !driver {
        return ESHUTDOWN;
      }
      var i := 0;
      while i < |eps[ep].queue|
        invariant i <= |eps[ep].queue| && req !in eps[ep].queue[..i]
      {
        if eps[ep].queue[i] == req {
          FirstPlace(eps[ep].queue, req, i);
          var _ := Unlink(ep, i);
          DoAll(turn);
          Do(GiveBack(req));
          return Ok;
        }
        i := i + 1;
      }
      return EINVAL;
    }

    // dummy_enable; `wellFormed` and `legal` stand for its tests of the descriptor, before and
    // after those of the device.
    method EnableEp(ep: nat, dirIn: bool, wellFormed: bool, legal: bool) returns (errno: Errno)
      requires ep < |eps|
      modifies this`eps
      ensures errno == if !wellFormed || (EnableTest(old(State()), ep) == Ok && !legal) then EINVAL
                       else EnableTest(old(State()), ep)
      ensures State() == if errno == Ok then Step(old(State()), Enable(ep, dirIn)) else old(State())
    {
      hide Count, UsesFifo, QueueTest;
      if !wellFormed || eps[ep].desc || ep == 0 {
        return EINVAL;
      }
      if !driver || !enabled {
        return ESHUTDOWN;
      }
      if !legal {
        return EINVAL;
      }
      eps := eps[ep := eps[ep].(desc := true, dirIn := dirIn)];
      return Ok;
    }

    // nuke, wherever it ends: `NukeEndsIff` says for which endpoints it does for all turns.
    method Nuke(ep: nat, turns: nat -> seq<Event>)
      requires ep < |eps| && Ends(State(), ep, turns, 0)
      modifies this
      ensures |eps| == old(|eps|) && State() == Nuked(old(State()), ep, turns, 0) && eps[ep].queue == []
    {
      hide Count, Step, Ends, Nuked;
      var k := 0;
      while eps[ep].queue != []
        invariant |eps| == old(|eps|) && Ends(State(), ep, turns, k)
        invariant Nuked(old(State()), ep, turns, 0) == Nuked(State(), ep, turns, k)
        decreases Length(State(), ep, turns, k)
      {
        ghost var s := State();
        NukedStep(s, ep, turns, k);
        var req := Unlink(ep, 0);
        DoAll(turns(k));
        Do(GiveBack(req));
        assert State() == Round(s, ep, turns(k));
        k := k + 1;
      }
      NukedDone(State(), ep, turns, k);
    }

    // dummy_disable: nobody enables the endpoint again before it returns.
    method Disable(ep: nat, turns: nat -> seq<Event>) returns (errno: Errno)
      requires ep < |eps| && forall i :: LeavesClosed(turns(i), ep)
      modifies this
      ensures errno == if ep != 0 && old(eps[ep].desc) then Ok else EINVAL
      ensures errno == EINVAL ==> State() == old(State())
      ensures errno == Ok ==>
        && Ends(Step(old(State()), DisableBegin(ep)), ep, turns, 0)
        && State() == Step(Nuked(Step(old(State()), DisableBegin(ep)), ep, turns, 0), DisableEnd(ep))
        && |eps| == old(|eps|) && eps[ep].queue == [] && Closed(State(), ep)
    {
      hide Count, Step, Nuked, Closed, Ends, NoMore;
      if !eps[ep].desc || ep == 0 {
        return EINVAL;
      }
      DisableCloses(State(), ep);
      Do(DisableBegin(ep));
      ClosedEnds(State(), ep, turns, 0);
      Nuke(ep, turns);
      StepClosed(State(), ep, DisableEnd(ep));
      StepEp(State(), DisableEnd(ep), ep);
      Do(DisableEnd(ep));
      return Ok;
    }

    // stop_activity, wherever it ends: `StopEndsIff` says for which states it does for all turns,
    // and `StopEmptiesIff` for which it leaves nothing queued.
    method StopActivity(turns: nat -> nat -> seq<Event>)
      requires StopEnds(State(), 0, turns)
      modifies this
      ensures |eps| == old(|eps|) && State() == Stopped(old(State()), 0, turns)
      ensures |eps| > 0 ==> eps[|eps| - 1].queue == []
      ensures Shut(old(State())) && StayShut(turns) ==> forall i: nat | i < |eps| :: |eps[i].queue| <= For(old(tickets), i)
      ensures Shut(old(State())) && StayShut(turns) && OneTarget(old(State())) ==> IdleFrom(State(), 0)
    {
      hide Count, Step, Ends, Nuked, Shut, StayShut, For, OneTarget;
      if Shut(State()) && StayShut(turns) {
        StopsShut(State(), turns);
        if OneTarget(State()) {
          OneTargetEmpties(State(), turns);
        }
      }
      var i := 0;
      while i < |eps|
        invariant i <= |eps| == old(|eps|) && StopEnds(State(), i, turns)
        invariant Stopped(old(State()), 0, turns) == Stopped(State(), i, turns)
        invariant i > 0 ==> eps[i - 1].queue == []
      {
        Nuke(i, turns(i));
        i := i + 1;
      }
    }
  }
}
