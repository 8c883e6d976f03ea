// nuke, dummy_disable and stop_activity (patch/kernel/dummy_hcd.c:329-358, 633-652): giving back
// what is queued while completion handlers, and calls of dummy_queue that have already passed
// their tests, go on queueing.

module RequestsNuke {
  import opened Requests

  // ---- Calls under way for one endpoint ----

  ghost predicate Some(ts: multiset<Ticket>) { exists t :: t in ts }

  ghost function Pick(ts: multiset<Ticket>): (t: Ticket)
    requires Some(ts)
    ensures t in ts
  {
    var t :| t in ts; t
  }

  // How many of the tickets are for endpoint ep.
  ghost function For(ts: multiset<Ticket>, ep: int): nat
    decreases |ts|
  {
    if !Some(ts) then 0 else
    var t := Pick(ts);
    (if t.ep == ep then 1 else 0) + For(ts - multiset{t}, ep)
  }

  lemma {:induction false} ForWithout(ts: multiset<Ticket>, t: Ticket, ep: int)
    requires t in ts
    ensures For(ts, ep) == (if t.ep == ep then 1 else 0) + For(ts - multiset{t}, ep)
    decreases |ts|
  {
    var u := Pick(ts);
    if u != t {
      ForWithout(ts - multiset{u}, t, ep);
      ForWithout(ts - multiset{t}, u, ep);
      assert ts - multiset{u} - multiset{t} == ts - multiset{t} - multiset{u};
    }
  }

  lemma ForWith(ts: multiset<Ticket>, t: Ticket, ep: int)
    ensures For(ts + multiset{t}, ep) == (if t.ep == ep then 1 else 0) + For(ts, ep)
  {
    ForWithout(ts + multiset{t}, t, ep);
    assert ts + multiset{t} - multiset{t} == ts;
  }

  lemma {:induction false} ForNone(ts: multiset<Ticket>, ep: int)
    ensures For(ts, ep) == 0 <==> forall t | t in ts :: t.ep != ep
    decreases |ts|
  {
    if t :| t in ts {
      ForWithout(ts, t, ep);
      ForNone(ts - multiset{t}, ep);
      assert forall u | u in ts :: u == t || u in ts - multiset{t};
    }
  }

  // ---- A closed endpoint ----

  // dummy_queue turns every new call for the endpoint away.
  predicate Closed(s: Udc, ep: nat)
    requires ep < |s.eps|
  {
    (ep != 0 && !s.eps[ep].desc) || !s.driver || !s.enabled
  }

  // What may happen while nuke has dropped the lock: anything but opening the endpoint.
  predicate LeavesClosed(events: seq<Event>, ep: int) {
    forall e | e in events :: !(e.Enable? && e.ep == ep) && e != Bind(true) && e != Link(true)
  }

  // What nuke may still have to give back: the queue, and the calls under way.
  ghost function Room(s: Udc, ep: nat): nat
    requires ep < |s.eps|
  {
    |s.eps[ep].queue| + For(s.tickets, ep)
  }

  // No call of dummy_queue for ep has passed its tests, and none has come to nothing.
  ghost predicate NoMore(s: Udc, t: Udc, ep: nat) {
    ep < |s.eps| && |t.eps| == |s.eps| && For(t.tickets, ep) <= For(s.tickets, ep) && Room(t, ep) <= Room(s, ep)
  }

  lemma AddLength(s: Udc, e: Event, ep: nat)
    requires Possible(s, e) && e.Add? && ep < |s.eps|
    ensures |Step(s, e).eps[ep].queue| == |s.eps[ep].queue| + (if ep == e.ep then 1 else 0)
    ensures Step(s, e).eps[ep].desc == s.eps[ep].desc
  {
    hide Count, UsesFifo;
  }

  lemma StepNoMore(s: Udc, e: Event, ep: nat)
    requires ep < |s.eps| && !(Possible(s, e) && e.Check? && e.ep == ep)
    ensures NoMore(s, Step(s, e), ep)
  {
    hide Step, Possible, For;
    StepTicketSet(s, e);
    if !Possible(s, e) {
      NoStep(s, e);
    } else if e.Check? {
      ForWith(s.tickets, Ticket(e.ep, e.req), ep);
      StepEp(s, e, ep);
    } else if e.Add? {
      AddTicket(s, e);
      ForWithout(s.tickets, Ticket(e.ep, e.req), ep);
      AddLength(s, e, ep);
    } else {
      StepEp(s, e, ep);
    }
  }

  lemma AddTicket(s: Udc, e: Event)
    requires Possible(s, e) && e.Add?
    ensures Ticket(e.ep, e.req) in s.tickets
  {
  }

  lemma NoMoreOn(s: Udc, t: Udc, u: Udc, ep: nat)
    requires NoMore(s, t, ep) && NoMore(t, u, ep)
    ensures NoMore(s, u, ep)
  {
  }

  lemma ClosedRefuses(s: Udc, e: Event)
    requires Possible(s, e) && e.Check?
    ensures e.ep < |s.eps| && !Closed(s, e.ep)
  {
    hide Count;
  }

  lemma StepClosed(s: Udc, ep: nat, e: Event)
    requires ep < |s.eps| && Closed(s, ep) && LeavesClosed([e], ep)
    ensures Closed(Step(s, e), ep) && NoMore(s, Step(s, e), ep)
  {
    hide Count, UsesFifo, NoMore;
    assert e in [e];
    StepEp(s, e, ep);
    if Possible(s, e) && e.Check? {
      ClosedRefuses(s, e);
    }
    StepNoMore(s, e, ep);
  }

  lemma {:induction false} RunClosed(s: Udc, ep: nat, events: seq<Event>)
    requires ep < |s.eps| && Closed(s, ep) && LeavesClosed(events, ep)
    ensures Closed(Run(s, events), ep) && NoMore(s, Run(s, events), ep)
    decreases |events|
  {
    hide Count, Step, Closed, For;
    if events != [] {
      assert events[0] in events;
      assert forall x | x in events[1..] :: x in events;
      StepClosed(s, ep, events[0]);
      RunClosed(Step(s, events[0]), ep, events[1..]);
      NoMoreOn(s, Step(s, events[0]), Run(s, events), ep);
    }
  }

  // ---- The loop ----

  // One round: the head goes, and `turn` happens while it is given back.
  function Round(s: Udc, ep: nat, turn: seq<Event>): (t: Udc)
    requires ep < |s.eps| && s.eps[ep].queue != []
    ensures |t.eps| == |s.eps|
  {
    Step(Run(Step(s, Detach(ep, 0)), turn), GiveBack(s.eps[ep].queue[0]))
  }

  lemma DetachShortens(s: Udc, ep: nat)
    requires ep < |s.eps| && s.eps[ep].queue != []
    ensures var d := Step(s, Detach(ep, 0));
            && d == Detached(s, ep, 0) && d.eps[ep] == s.eps[ep].(queue := s.eps[ep].queue[1..])
            && (forall i | 0 <= i < |s.eps| && i != ep :: d.eps[i] == s.eps[i])
            && d.tickets == s.tickets && d.driver == s.driver && d.enabled == s.enabled
  {
    hide Count;
    var q := s.eps[ep].queue;
    assert q[..0] + q[1..] == q[1..];
  }

  lemma GiveBackFrame(s: Udc, r: int)
    ensures var t := Step(s, GiveBack(r));
            t.eps == s.eps && t.tickets == s.tickets && t.driver == s.driver && t.enabled == s.enabled
  {
    hide Count;
  }

  // Each round on a closed endpoint leaves less to give back, whatever happens meanwhile.
  lemma RoundShrinks(s: Udc, ep: nat, turn: seq<Event>)
    requires ep < |s.eps| && s.eps[ep].queue != [] && Closed(s, ep) && LeavesClosed(turn, ep)
    ensures var t := Round(s, ep, turn);
            Closed(t, ep) && NoMore(s, t, ep) && Room(t, ep) < Room(s, ep)
  {
    hide Count, Step, For;
    var d := Step(s, Detach(ep, 0));
    DetachShortens(s, ep);
    RunClosed(d, ep, turn);
    GiveBackFrame(Run(d, turn), s.eps[ep].queue[0]);
  }

  // n rounds from round k on, fewer if the queue is empty before.
  function Rounds(s: Udc, ep: nat, turns: nat -> seq<Event>, k: nat, n: nat): (t: Udc)
    requires ep < |s.eps|
    ensures |t.eps| == |s.eps|
    decreases n
  {
    if n == 0 || s.eps[ep].queue == [] then s
    else Rounds(Round(s, ep, turns(k)), ep, turns, k + 1, n - 1)
  }

  predicate EndsBy(s: Udc, ep: nat, turns: nat -> seq<Event>, k: nat, n: nat)
    requires ep < |s.eps|
  {
    Rounds(s, ep, turns, k, n).eps[ep].queue == []
  }

  ghost predicate Ends(s: Udc, ep: nat, turns: nat -> seq<Event>, k: nat)
    requires ep < |s.eps|
  {
    exists n :: EndsBy(s, ep, turns, k, n)
  }

  // The number of rounds.
  ghost function Length(s: Udc, ep: nat, turns: nat -> seq<Event>, k: nat): (n: nat)
    requires ep < |s.eps| && Ends(s, ep, turns, k)
    ensures EndsBy(s, ep, turns, k, n) && forall m: nat | m < n :: !EndsBy(s, ep, turns, k, m)
  {
    var n: nat :| EndsBy(s, ep, turns, k, n);
    FirstEnd(s, ep, turns, k, n)
  }

  ghost function FirstEnd(s: Udc, ep: nat, turns: nat -> seq<Event>, k: nat, n: nat): (m: nat)
    requires ep < |s.eps| && EndsBy(s, ep, turns, k, n)
    ensures EndsBy(s, ep, turns, k, m) && forall i: nat | i < m :: !EndsBy(s, ep, turns, k, i)
    decreases n
  {
    if m: nat :| m < n && EndsBy(s, ep, turns, k, m) then FirstEnd(s, ep, turns, k, m) else n
  }

  // nuke, with turns(k) in its first round.
  ghost function Nuked(s: Udc, ep: nat, turns: nat -> seq<Event>, k: nat): (t: Udc)
    requires ep < |s.eps| && Ends(s, ep, turns, k)
    ensures |t.eps| == |s.eps| && t.eps[ep].queue == []
  {
    Rounds(s, ep, turns, k, Length(s, ep, turns, k))
  }

  lemma NextRound(s: Udc, ep: nat, turns: nat -> seq<Event>, k: nat, n: nat)
    requires ep < |s.eps| && s.eps[ep].queue != []
    ensures EndsBy(Round(s, ep, turns(k)), ep, turns, k + 1, n) <==> EndsBy(s, ep, turns, k, n + 1)
  {
    hide Round;
  }

  // Whether a nuke ends is not changed by one round of it.
  lemma EndsOn(s: Udc, ep: nat, turns: nat -> seq<Event>, k: nat)
    requires ep < |s.eps| && s.eps[ep].queue != []
    ensures Ends(s, ep, turns, k) <==> Ends(Round(s, ep, turns(k)), ep, turns, k + 1)
  {
    hide Round;
    var r, k' := Round(s, ep, turns(k)), k + 1;
    if n: nat :| EndsBy(r, ep, turns, k', n) {
      NextRound(s, ep, turns, k, n);
    }
    if n: nat :| EndsBy(s, ep, turns, k, n) {
      assert n > 0;
      NextRound(s, ep, turns, k, n - 1);
    }
  }

  lemma NukedStep(s: Udc, ep: nat, turns: nat -> seq<Event>, k: nat)
    requires ep < |s.eps| && Ends(s, ep, turns, k) && s.eps[ep].queue != []
    ensures var r := Round(s, ep, turns(k));
            && Ends(r, ep, turns, k + 1)
            && Length(r, ep, turns, k + 1) == Length(s, ep, turns, k) - 1
            && Nuked(s, ep, turns, k) == Nuked(r, ep, turns, k + 1)
  {
    hide Round;
    EndsOn(s, ep, turns, k);
    var n := Length(s, ep, turns, k);
    assert n > 0;
    NextRound(s, ep, turns, k, n - 1);
    NextRound(s, ep, turns, k, Length(Round(s, ep, turns(k)), ep, turns, k + 1));
  }

  lemma NukedDone(s: Udc, ep: nat, turns: nat -> seq<Event>, k: nat)
    requires ep < |s.eps| && s.eps[ep].queue == []
    ensures Ends(s, ep, turns, k) && Nuked(s, ep, turns, k) == s
  {
    assert EndsBy(s, ep, turns, k, 0);
  }

  // ---- A closed endpoint is emptied ----

  // nuke on a closed endpoint ends, whatever the completion handlers and the calls under way do.
  lemma {:induction false} ClosedEnds(s: Udc, ep: nat, turns: nat -> seq<Event>, k: nat)
    requires ep < |s.eps| && Closed(s, ep) && forall i :: LeavesClosed(turns(i), ep)
    ensures Ends(s, ep, turns, k) && Closed(Nuked(s, ep, turns, k), ep) && NoMore(s, Nuked(s, ep, turns, k), ep)
    decreases Room(s, ep)
  {
    hide Round, Closed, Ends, Nuked, LeavesClosed;
    if s.eps[ep].queue == [] {
      NukedDone(s, ep, turns, k);
    } else {
      RoundShrinks(s, ep, turns(k));
      ClosedEnds(Round(s, ep, turns(k)), ep, turns, k + 1);
      EndsOn(s, ep, turns, k);
      NukedStep(s, ep, turns, k);
    }
  }

  // ---- An open endpoint ----

  // Requests from b on are on no queue.
  ghost predicate UnusedFrom(eps: seq<Ep>, b: int) { b > FIFO && forall r | r >= b :: Count(eps, r) == 0 }

  lemma {:induction false} Unused(eps: seq<Ep>) returns (b: int)
    ensures UnusedFrom(eps, b)
  {
    b := 1;
    if eps != [] {
      b := Unused(eps[1..]);
      var i := 0;
      while i < |eps[0].queue|
        invariant i <= |eps[0].queue| && UnusedFrom(eps[1..], b)
        invariant forall j | 0 <= j < i :: eps[0].queue[j] < b
      {
        if eps[0].queue[i] >= b {
          b := eps[0].queue[i] + 1;
        }
        i := i + 1;
      }
      forall r | r >= b ensures Count(eps, r) == 0 {
        assert r !in eps[0].queue;
        assert Count(eps[1..], r) == 0;
      }
    }
  }

  ghost predicate Spinning(s: Udc, ep: nat, b: int) {
    ep < |s.eps| && s.eps[ep].queue != [] && !Closed(s, ep) && UnusedFrom(s.eps, b)
  }

  // A completion handler that queues a new request.
  function Requeue(ep: nat, b: int): (events: seq<Event>)
    ensures StaysShut(events)
  {
    [Check(ep, b), Add(ep, b, Long())]
  }

  lemma CheckOpen(d: Udc, ep: nat, b: int)
    requires ep < |d.eps| && !Closed(d, ep) && UnusedFrom(d.eps, b)
    ensures var c := Step(d, Check(ep, b));
            && c.eps == d.eps && c.driver == d.driver && c.enabled == d.enabled && Ticket(ep, b) in c.tickets
  {
    hide Count;
    assert Count(d.eps, b) == 0;
  }

  lemma RequeueOpen(d: Udc, ep: nat, b: int)
    requires ep < |d.eps| && !Closed(d, ep) && UnusedFrom(d.eps, b)
    ensures Spinning(Run(d, Requeue(ep, b)), ep, b + 1)
  {
    hide Count, Step;
    CheckOpen(d, ep, b);
    var c := Step(d, Check(ep, b));
    var a := Step(c, Add(ep, b, Long()));
    LongAdd(c, ep, b, b);
    LateAdd(c, ep, b, Long());
    assert Requeue(ep, b)[1..] == [Add(ep, b, Long())] && [Add(ep, b, Long())][1..] == [];
    assert Run(d, Requeue(ep, b)) == Run(c, [Add(ep, b, Long())]) == Run(a, []) == a;
    forall r | r >= b + 1 ensures Count(a.eps, r) == 0 {
      LongAdd(c, ep, b, r);
      assert Count(d.eps, r) == 0;
    }
  }

  lemma RoundSpins(s: Udc, ep: nat, b: int)
    requires Spinning(s, ep, b)
    ensures Spinning(Round(s, ep, Requeue(ep, b)), ep, b + 1)
  {
    hide Count, Step, Run, Requeue;
    var d := Step(s, Detach(ep, 0));
    DetachShortens(s, ep);
    forall r | r >= b ensures Count(d.eps, r) == 0 {
      DetachCount(s, ep, 0, r);
      assert Count(s.eps, r) == 0;
    }
    RequeueOpen(d, ep, b);
    GiveBackFrame(Run(d, Requeue(ep, b)), s.eps[ep].queue[0]);
  }

  lemma {:induction false} Spins(s: Udc, ep: nat, b: int, turns: nat -> seq<Event>, k: nat, n: nat)
    requires Spinning(s, ep, b + k) && forall i :: turns(i) == Requeue(ep, b + i)
    ensures !EndsBy(s, ep, turns, k, n)
    decreases n
  {
    hide Round, Requeue, UnusedFrom;
    if n > 0 {
      RoundSpins(s, ep, b + k);
      Spins(Round(s, ep, Requeue(ep, b + k)), ep, b, turns, k + 1, n - 1);
    }
  }

  lemma SpinsOn(s: Udc, ep: nat, b: int, turns: nat -> seq<Event>)
    requires Spinning(s, ep, b) && forall i :: turns(i) == Requeue(ep, b + i)
    ensures !Ends(s, ep, turns, 0)
  {
    hide EndsBy, Requeue, Spinning;
    SpinningShape(s, ep, b);
    forall n ensures !EndsBy(s, ep, turns, 0, n) {
      Spins(s, ep, b, turns, 0, n);
    }
  }

  lemma SpinningShape(s: Udc, ep: nat, b: int)
    requires Spinning(s, ep, b)
    ensures ep < |s.eps| && s.eps[ep].queue != []
  {
  }

  ghost predicate StayClosed(turns: nat -> seq<Event>, ep: nat) { forall i :: LeavesClosed(turns(i), ep) }

  lemma OpenSpins(s: Udc, ep: nat) returns (turns: nat -> seq<Event>)
    requires ep < |s.eps| && s.eps[ep].queue != [] && !Closed(s, ep)
    ensures StayClosed(turns, ep) && !Ends(s, ep, turns, 0)
  {
    hide Closed, LeavesClosed, Ends;
    var b := Unused(s.eps);
    turns := i => Requeue(ep, b + i);
    forall i ensures LeavesClosed(turns(i), ep) {
      RequeueLeaves(ep, b + i);
    }
    SpinsOn(s, ep, b, turns);
  }

  // Whatever completion handlers and other threads do, short of opening the endpoint, nuke ends
  // with an empty queue: exactly if there is nothing to do, or the endpoint refuses new requests.
  lemma NukeEndsIff(s: Udc, ep: nat)
    requires ep < |s.eps|
    ensures (forall turns | StayClosed(turns, ep) :: Ends(s, ep, turns, 0))
       <==> s.eps[ep].queue == [] || Closed(s, ep)
  {
    hide Closed, LeavesClosed, Ends;
    if s.eps[ep].queue == [] || Closed(s, ep) {
      forall turns | StayClosed(turns, ep)
        ensures Ends(s, ep, turns, 0)
      {
        if Closed(s, ep) {
          ClosedEnds(s, ep, turns, 0);
        } else {
          NukedDone(s, ep, turns, 0);
        }
      }
    } else {
      var turns := OpenSpins(s, ep);
    }
  }

  lemma RequeueLeaves(ep: nat, b: int)
    ensures LeavesClosed(Requeue(ep, b), ep)
  {
  }

  lemma DisableCloses(s: Udc, ep: nat)
    requires 0 < ep < |s.eps| && s.eps[ep].desc
    ensures Closed(Step(s, DisableBegin(ep)), ep)
  {
    hide Count;
  }

  // ---- stop_activity ----

  // nuke on every endpoint in turn; in turns(i)(k) is what happens in round k on endpoint i.
  ghost predicate StopEnds(s: Udc, ep: nat, turns: nat -> nat -> seq<Event>)
    requires ep <= |s.eps|
    decreases |s.eps| - ep
  {
    ep == |s.eps| || (Ends(s, ep, turns(ep), 0) && StopEnds(Nuked(s, ep, turns(ep), 0), ep + 1, turns))
  }

  ghost function Stopped(s: Udc, ep: nat, turns: nat -> nat -> seq<Event>): (t: Udc)
    requires ep <= |s.eps| && StopEnds(s, ep, turns)
    ensures |t.eps| == |s.eps|
    decreases |s.eps| - ep
  {
    if ep == |s.eps| then s else Stopped(Nuked(s, ep, turns(ep), 0), ep + 1, turns)
  }

  // Nobody enables an endpoint, binds a driver or connects.
  predicate StaysShut(events: seq<Event>) {
    forall e | e in events :: !e.Enable? && e != Bind(true) && e != Link(true)
  }

  ghost predicate StayShut(turns: nat -> nat -> seq<Event>) { forall i, k :: StaysShut(turns(i)(k)) }

  lemma ShutTurns(turns: nat -> nat -> seq<Event>, i: nat, ep: nat)
    requires StayShut(turns)
    ensures forall k :: StaysShut(turns(i)(k)) && LeavesClosed(turns(i)(k), ep)
  {
    assert forall k :: StaysShut(turns(i)(k));
  }

  ghost predicate NoMoreAnywhere(s: Udc, t: Udc) {
    |t.eps| == |s.eps| && forall i: nat | i < |s.eps| :: NoMore(s, t, i)
  }

  lemma NoMoreAnywhereOn(s: Udc, t: Udc, u: Udc)
    requires NoMoreAnywhere(s, t) && NoMoreAnywhere(t, u)
    ensures NoMoreAnywhere(s, u)
  {
    hide NoMore;
    forall i: nat | i < |s.eps| ensures NoMore(s, u, i) {
      assert NoMore(s, t, i) && NoMore(t, u, i);
      NoMoreOn(s, t, u, i);
    }
  }

  lemma NoMoreSame(s: Udc)
    ensures NoMoreAnywhere(s, s)
  {
  }

  // ---- On a device that is shut ----

  // Every new request is turned away: after a disconnect, a reset or an unbind.
  predicate Shut(s: Udc) { !s.driver || !s.enabled }

  lemma StepFlags(s: Udc, e: Event)
    requires e != Bind(true) && e != Link(true) && Shut(s)
    ensures Shut(Step(s, e))
  {
    hide Count, UsesFifo;
  }

  lemma StepShut(s: Udc, e: Event)
    requires Shut(s) && !e.Enable? && e != Bind(true) && e != Link(true)
    ensures Shut(Step(s, e)) && NoMoreAnywhere(s, Step(s, e))
  {
    hide Step, Count, NoMore, Possible;
    StepFlags(s, e);
    forall i: nat | i < |s.eps| ensures NoMore(s, Step(s, e), i) {
      if Possible(s, e) && e.Check? {
        ClosedRefuses(s, e);
      }
      StepNoMore(s, e, i);
    }
  }

  lemma {:induction false} RunShut(s: Udc, events: seq<Event>)
    requires Shut(s) && StaysShut(events)
    ensures Shut(Run(s, events)) && NoMoreAnywhere(s, Run(s, events))
    decreases |events|
  {
    hide Step, Count, Shut;
    if events != [] {
      assert events[0] in events;
      assert forall x | x in events[1..] :: x in events;
      StepShut(s, events[0]);
      RunShut(Step(s, events[0]), events[1..]);
      NoMoreAnywhereOn(s, Step(s, events[0]), Run(s, events));
    }
  }

  lemma RoundShut(s: Udc, ep: nat, turn: seq<Event>)
    requires ep < |s.eps| && s.eps[ep].queue != [] && Shut(s) && StaysShut(turn)
    ensures Shut(Round(s, ep, turn)) && NoMoreAnywhere(s, Round(s, ep, turn))
  {
    hide Step, Shut, NoMoreAnywhere;
    var d := Step(s, Detach(ep, 0));
    StepShut(s, Detach(ep, 0));
    RunShut(d, turn);
    StepShut(Run(d, turn), GiveBack(s.eps[ep].queue[0]));
    NoMoreAnywhereOn(s, d, Run(d, turn));
    NoMoreAnywhereOn(s, Run(d, turn), Round(s, ep, turn));
  }

  lemma ShutClosed(s: Udc, ep: nat)
    requires ep < |s.eps| && Shut(s)
    ensures Closed(s, ep)
  {
  }

  lemma {:induction false} NukedShut(s: Udc, ep: nat, turns: nat -> seq<Event>, k: nat)
    requires ep < |s.eps| && Shut(s) && forall i :: StaysShut(turns(i)) && LeavesClosed(turns(i), ep)
    ensures Ends(s, ep, turns, k)
    ensures Shut(Nuked(s, ep, turns, k)) && NoMoreAnywhere(s, Nuked(s, ep, turns, k))
    decreases Room(s, ep)
  {
    hide Round, Shut, LeavesClosed, StaysShut, Ends, Nuked, Closed, NoMoreAnywhere;
    ShutClosed(s, ep);
    if s.eps[ep].queue == [] {
      NukedDone(s, ep, turns, k);
      NoMoreSame(s);
    } else {
      RoundShrinks(s, ep, turns(k));
      RoundShut(s, ep, turns(k));
      NukedShut(Round(s, ep, turns(k)), ep, turns, k + 1);
      EndsOn(s, ep, turns, k);
      NukedStep(s, ep, turns, k);
      NoMoreAnywhereOn(s, Round(s, ep, turns(k)), Nuked(s, ep, turns, k));
    }
  }

  // What stop_activity leaves on a queue it was brought by calls that were under way; nothing is
  // left on the last endpoint.
  lemma {:induction false} StopLeaves(s0: Udc, s: Udc, ep: nat, turns: nat -> nat -> seq<Event>)
    requires ep <= |s.eps| && Shut(s) && StayShut(turns)
    requires NoMoreAnywhere(s0, s) && forall i: nat | i < ep :: Room(s, i) <= For(s0.tickets, i)
    requires ep == |s.eps| > 0 ==> s.eps[ep - 1].queue == []
    ensures StopEnds(s, ep, turns)
    ensures var t := Stopped(s, ep, turns);
            && |t.eps| == |s0.eps| && Shut(t)
            && (forall i: nat | i < |s0.eps| :: |t.eps[i].queue| <= For(s0.tickets, i))
            && (|t.eps| > 0 ==> t.eps[|t.eps| - 1].queue == [])
    decreases |s.eps| - ep
  {
    hide Shut, Nuked, Ends, For, StaysShut, LeavesClosed;
    if ep < |s.eps| {
      var turn := turns(ep);
      ShutTurns(turns, ep, ep);
      NukedShut(s, ep, turn, 0);
      var t := Nuked(s, ep, turn, 0);
      NoMoreAnywhereOn(s0, s, t);
      forall i: nat | i < ep + 1 ensures Room(t, i) <= For(s0.tickets, i) {
        assert NoMore(s, t, i) && NoMore(s0, t, i);
      }
      StopLeaves(s0, t, ep + 1, turns);
    } else {
      forall i: nat | i < |s0.eps| ensures |s.eps[i].queue| <= For(s0.tickets, i) {
        assert Room(s, i) <= For(s0.tickets, i);
      }
    }
  }

  lemma StopsShut(s: Udc, turns: nat -> nat -> seq<Event>)
    requires Shut(s) && StayShut(turns)
    ensures StopEnds(s, 0, turns)
    ensures var t := Stopped(s, 0, turns);
            && (forall i: nat | i < |s.eps| :: |t.eps[i].queue| <= For(s.tickets, i))
            && (|s.eps| > 0 ==> t.eps[|s.eps| - 1].queue == [])
  {
    hide Stopped, Shut, StayShut, For;
    NoMoreSame(s);
    if |s.eps| > 0 {
      StopLeaves(s, s, 0, turns);
    }
  }

  predicate IdleFrom(s: Udc, ep: int) { forall i | 0 <= i < |s.eps| && i >= ep :: s.eps[i].queue == [] }

  predicate Pending(s: Udc, t: Ticket) { t in s.tickets && 0 <= t.ep < |s.eps| }

  // All calls under way are for one endpoint, behind which nothing is queued.
  ghost predicate OneTarget(s: Udc) {
    && (forall t | Pending(s, t) :: IdleFrom(s, t.ep + 1))
    && (forall t, u | Pending(s, t) && Pending(s, u) :: t.ep == u.ep)
  }

  lemma {:induction false} IdleStop(s: Udc, ep: nat, turns: nat -> nat -> seq<Event>)
    requires ep <= |s.eps| && IdleFrom(s, ep)
    ensures StopEnds(s, ep, turns) && Stopped(s, ep, turns) == s
    decreases |s.eps| - ep
  {
    hide Ends, Nuked;
    if ep < |s.eps| {
      NukedDone(s, ep, turns(ep), 0);
      IdleStop(s, ep + 1, turns);
    }
  }

  // The endpoint of the calls under way is empty when stop_activity has passed it.
  lemma {:induction false} TargetEmptied(s: Udc, ep: nat, j: nat, turns: nat -> nat -> seq<Event>)
    requires ep <= j < |s.eps| && Shut(s) && StayShut(turns) && IdleFrom(s, j + 1)
    requires forall i: nat | j < i < |s.eps| :: For(s.tickets, i) == 0
    ensures StopEnds(s, ep, turns) && Stopped(s, ep, turns).eps[j].queue == []
    decreases j - ep
  {
    hide Shut, Nuked, Ends, For, StaysShut, LeavesClosed;
    var turn := turns(ep);
    ShutTurns(turns, ep, ep);
    NukedShut(s, ep, turn, 0);
    var t := Nuked(s, ep, turn, 0);
    forall i: nat | j < i < |s.eps| ensures t.eps[i].queue == [] && For(t.tickets, i) == 0 {
      assert NoMore(s, t, i);
    }
    if ep < j {
      TargetEmptied(t, ep + 1, j, turns);
    } else {
      IdleStop(t, ep + 1, turns);
    }
  }

  ghost predicate Empties(s: Udc, turns: nat -> nat -> seq<Event>) {
    StopEnds(s, 0, turns) && IdleFrom(Stopped(s, 0, turns), 0)
  }

  lemma OneTargetEmpties(s: Udc, turns: nat -> nat -> seq<Event>)
    requires Shut(s) && OneTarget(s) && StayShut(turns)
    ensures Empties(s, turns)
  {
    hide Stopped, StopEnds, Shut, StayShut, For;
    StopsShut(s, turns);
    forall i: nat | i < |s.eps| ensures Stopped(s, 0, turns).eps[i].queue == [] {
      ForNone(s.tickets, i);
      if t :| t in s.tickets && t.ep == i {
        assert Pending(s, t);
        forall j: nat | i < j < |s.eps| ensures For(s.tickets, j) == 0 {
          ForNone(s.tickets, j);
          assert forall u | u in s.tickets && u.ep == j :: Pending(s, u);
        }
        TargetEmptied(s, 0, i, turns);
      }
    }
  }

  // ---- Rounds in which little happens ----

  // From s to t requests of endpoint ep were only given back.
  ghost predicate QuietFrame(s: Udc, t: Udc, ep: nat) {
    && |t.eps| == |s.eps| && t.tickets == s.tickets && t.driver == s.driver && t.enabled == s.enabled
    && (forall i | 0 <= i < |s.eps| :: t.eps[i].desc == s.eps[i].desc && (i != ep ==> t.eps[i] == s.eps[i]))
    && forall r :: Count(t.eps, r) <= Count(s.eps, r)
  }

  lemma QuietOn(s: Udc, t: Udc, u: Udc, ep: nat)
    requires QuietFrame(s, t, ep) && QuietFrame(t, u, ep)
    ensures QuietFrame(s, u, ep)
  {
    hide Count;
    forall r ensures Count(u.eps, r) <= Count(s.eps, r) {
      assert Count(t.eps, r) <= Count(s.eps, r);
    }
  }

  lemma QuietRound(s: Udc, ep: nat)
    requires ep < |s.eps| && s.eps[ep].queue != []
    ensures QuietFrame(s, Round(s, ep, []), ep) && |Round(s, ep, []).eps[ep].queue| < |s.eps[ep].queue|
  {
    hide Step, Count;
    DetachShortens(s, ep);
    var d := Step(s, Detach(ep, 0));
    GiveBackFrame(d, s.eps[ep].queue[0]);
    forall r ensures Count(Round(s, ep, []).eps, r) <= Count(s.eps, r) {
      DetachCount(s, ep, 0, r);
    }
  }

  lemma {:induction false} QuietNuke(s: Udc, ep: nat, turns: nat -> seq<Event>, k: nat)
    requires ep < |s.eps| && forall j | j >= k :: turns(j) == []
    ensures Ends(s, ep, turns, k) && QuietFrame(s, Nuked(s, ep, turns, k), ep)
    decreases |s.eps[ep].queue|
  {
    hide Round, Ends, Nuked, Count;
    if s.eps[ep].queue == [] {
      NukedDone(s, ep, turns, k);
    } else {
      QuietRound(s, ep);
      QuietNuke(Round(s, ep, turns(k)), ep, turns, k + 1);
      EndsOn(s, ep, turns, k);
      NukedStep(s, ep, turns, k);
      QuietOn(s, Round(s, ep, turns(k)), Nuked(s, ep, turns, k), ep);
    }
  }

  lemma {:induction false} QuietStop(s: Udc, ep: nat, turns: nat -> nat -> seq<Event>)
    requires ep <= |s.eps| && forall j, k | j >= ep :: turns(j)(k) == []
    ensures StopEnds(s, ep, turns) && forall i | 0 <= i < ep :: Stopped(s, ep, turns).eps[i] == s.eps[i]
    decreases |s.eps| - ep
  {
    hide Ends, Nuked, Count;
    if ep < |s.eps| {
      QuietNuke(s, ep, turns(ep), 0);
      QuietStop(Nuked(s, ep, turns(ep), 0), ep + 1, turns);
    }
  }

  // Only in the first round of a nuke something happens.
  lemma FirstRoundNuke(s: Udc, ep: nat, turns: nat -> seq<Event>)
    requires ep < |s.eps| && s.eps[ep].queue != [] && forall k: nat | k > 0 :: turns(k) == []
    ensures Ends(s, ep, turns, 0) && QuietFrame(Round(s, ep, turns(0)), Nuked(s, ep, turns, 0), ep)
  {
    hide Round, Ends, Nuked, Count;
    QuietNuke(Round(s, ep, turns(0)), ep, turns, 1);
    EndsOn(s, ep, turns, 0);
    NukedStep(s, ep, turns, 0);
  }

  // ---- A call under way takes the lock late ----

  function Late(t: Ticket): (events: seq<Event>)
    requires t.ep >= 0
    ensures StaysShut(events)
  {
    [Add(t.ep, t.req, Long())]
  }

  lemma LateRound(s: Udc, ep: nat, t: Ticket)
    requires ep < |s.eps| && s.eps[ep].queue != [] && t in s.tickets && 0 <= t.ep < |s.eps| && t.ep != ep
    ensures Round(s, ep, Late(t)).eps[t.ep].queue != [] && Round(s, ep, Late(t)).tickets == s.tickets - multiset{t}
  {
    hide Step, Count;
    var d := Step(s, Detach(ep, 0));
    DetachShortens(s, ep);
    assert Ticket(t.ep, t.req) == t;
    LongAdd(d, t.ep, t.req, t.req);
    LateAdd(d, t.ep, t.req, Long());
    var e := Add(t.ep, t.req, Long());
    assert [e][1..] == [] && Run(d, [e]) == Step(d, e);
    GiveBackFrame(Step(d, e), s.eps[ep].queue[0]);
  }

  // A call for an earlier endpoint takes the lock while j is emptied.
  lemma {:induction false} LateCallLeaves(s: Udc, ep: nat, j: nat, t: Ticket, turns: nat -> nat -> seq<Event>)
    requires t in s.tickets && 0 <= t.ep < j && ep <= j < |s.eps| && s.eps[j].queue != []
    requires turns(j)(0) == Late(t) && forall i, k | i >= ep && !(i == j && k == 0) :: turns(i)(k) == []
    ensures StopEnds(s, ep, turns) && Stopped(s, ep, turns).eps[t.ep].queue != []
    decreases j - ep
  {
    hide Nuked, Ends, Late, Round, Count;
    var turn := turns(ep);
    if ep < j {
      QuietNuke(s, ep, turn, 0);
      LateCallLeaves(Nuked(s, ep, turn, 0), ep + 1, j, t, turns);
    } else {
      LateRound(s, ep, t);
      FirstRoundNuke(s, ep, turn);
      QuietStop(Nuked(s, ep, turn, 0), ep + 1, turns);
    }
  }

  // A call for a later endpoint takes the lock while m is emptied, and so another one can while
  // that endpoint is.
  lemma {:induction false} TwoCallsLeave(s: Udc, ep: nat, m: nat, t: Ticket, u: Ticket, turns: nat -> nat -> seq<Event>)
    requires t in s.tickets && u in s.tickets
    requires ep <= m < t.ep < |s.eps| && 0 <= u.ep < t.ep && s.eps[m].queue != []
    requires turns(m)(0) == Late(t) && turns(t.ep)(0) == Late(u)
    requires forall i, k | i >= ep && !(k == 0 && (i == m || i == t.ep)) :: turns(i)(k) == []
    ensures StopEnds(s, ep, turns) && Stopped(s, ep, turns).eps[u.ep].queue != []
    decreases m - ep
  {
    hide Nuked, Ends, Late, Round, Count;
    var turn := turns(ep);
    if ep < m {
      QuietNuke(s, ep, turn, 0);
      TwoCallsLeave(Nuked(s, ep, turn, 0), ep + 1, m, t, u, turns);
    } else {
      LateRound(s, ep, t);
      FirstRoundNuke(s, ep, turn);
      LateCallLeaves(Nuked(s, ep, turn, 0), ep + 1, t.ep, u, turns);
    }
  }

  // In the first round on m, t takes the lock; in the first round on j, u does.
  function LateTurn(m: nat, t: Ticket, j: nat, u: Ticket, i: nat, k: nat): (events: seq<Event>)
    requires t.ep >= 0 && u.ep >= 0
    ensures StaysShut(events)
  {
    if k != 0 then [] else if i == j then Late(u) else if i == m then Late(t) else []
  }

  // A call for an endpoint before one that has, or can get, something queued.
  lemma OverdueLeaves(s: Udc, m: nat, t: Ticket, u: Ticket) returns (turns: nat -> nat -> seq<Event>)
    requires Pending(s, t) && Pending(s, u) && m < |s.eps| && s.eps[m].queue != []
    requires u.ep < m || u.ep < t.ep
    ensures StayShut(turns) && !Empties(s, turns)
  {
    hide Stopped, StopEnds, Late, StaysShut;
    var j := if u.ep < m then m else t.ep;
    turns := (i: nat) => (k: nat) => LateTurn(m, t, j, u, i, k);
    if u.ep < m {
      LateCallLeaves(s, 0, m, u, turns);
    } else {
      TwoCallsLeave(s, 0, m, t, u, turns);
    }
    assert Stopped(s, 0, turns).eps[u.ep].queue != [];
  }

  // ---- On a device that is not shut ----

  lemma RequeueRound(s: Udc, ep: nat, j: nat, b: int)
    requires ep < |s.eps| && s.eps[ep].queue != [] && j < |s.eps| && j != ep && !Closed(s, j) && UnusedFrom(s.eps, b)
    ensures Spinning(Round(s, ep, Requeue(j, b)), j, b + 1)
  {
    hide Count, Step, Run, Requeue;
    var d := Step(s, Detach(ep, 0));
    DetachShortens(s, ep);
    forall r | r >= b ensures Count(d.eps, r) == 0 {
      DetachCount(s, ep, 0, r);
      assert Count(s.eps, r) == 0;
    }
    RequeueOpen(d, j, b);
    GiveBackFrame(Run(d, Requeue(j, b)), s.eps[ep].queue[0]);
  }

  lemma QuietUnused(s: Udc, t: Udc, ep: nat, j: nat, b: int)
    requires QuietFrame(s, t, ep) && j < |s.eps|
    ensures Closed(t, j) <==> Closed(s, j)
    ensures UnusedFrom(s.eps, b) ==> UnusedFrom(t.eps, b)
    ensures j != ep ==> t.eps[j] == s.eps[j]
  {
    hide Count;
    assert forall r :: Count(t.eps, r) <= Count(s.eps, r);
  }

  // A handler on m < j queues a request on j.
  lemma RequeueNuke(s: Udc, m: nat, j: nat, b: int, turns: nat -> seq<Event>)
    requires m < |s.eps| && s.eps[m].queue != [] && j < |s.eps| && j != m && !Closed(s, j) && UnusedFrom(s.eps, b)
    requires turns(0) == Requeue(j, b) && forall k: nat | k > 0 :: turns(k) == []
    ensures Ends(s, m, turns, 0) && Spinning(Nuked(s, m, turns, 0), j, b + 1)
  {
    hide Nuked, Ends, Round, Requeue, UnusedFrom, Closed, QuietFrame;
    RequeueRound(s, m, j, b);
    FirstRoundNuke(s, m, turns);
    QuietUnused(Round(s, m, turns(0)), Nuked(s, m, turns, 0), m, j, b + 1);
  }

  lemma {:induction false} SpinningStop(s: Udc, ep: nat, j: nat, b: int, turns: nat -> nat -> seq<Event>)
    requires ep <= j && Spinning(s, j, b)
    requires (forall k :: turns(j)(k) == Requeue(j, b + k)) && forall i, k | ep <= i < j :: turns(i)(k) == []
    ensures !StopEnds(s, ep, turns)
    decreases j - ep
  {
    hide Nuked, Ends, Requeue, UnusedFrom, Closed, QuietFrame;
    if ep < j {
      QuietNuke(s, ep, turns(ep), 0);
      var t := Nuked(s, ep, turns(ep), 0);
      QuietUnused(s, t, ep, j, b);
      SpinningStop(t, ep + 1, j, b, turns);
    } else {
      SpinsOn(s, j, b, turns(j));
    }
  }

  // While m is emptied a handler queues a request on j, if that is another endpoint; while j is,
  // every handler queues another.
  function BusyTurn(m: nat, j: nat, b: int, i: nat, k: nat): (events: seq<Event>)
    ensures StaysShut(events)
  {
    if i == j then Requeue(j, b + 1 + k) else if i == m && k == 0 then Requeue(j, b) else []
  }

  lemma {:induction false} BusyStop(s: Udc, ep: nat, m: nat, j: nat, b: int, turns: nat -> nat -> seq<Event>)
    requires ep <= m <= j < |s.eps| && s.eps[m].queue != [] && !Closed(s, j) && UnusedFrom(s.eps, b)
    requires forall i, k :: turns(i)(k) == BusyTurn(m, j, b, i, k)
    ensures !StopEnds(s, ep, turns)
    decreases m - ep
  {
    hide Nuked, Ends, Requeue, Closed, QuietFrame, Count;
    if ep < m {
      QuietNuke(s, ep, turns(ep), 0);
      var t := Nuked(s, ep, turns(ep), 0);
      QuietUnused(s, t, ep, j, b);
      QuietUnused(s, t, ep, m, b);
      BusyStop(t, ep + 1, m, j, b, turns);
    } else if m < j {
      RequeueNuke(s, m, j, b, turns(m));
      SpinningStop(Nuked(s, m, turns(m), 0), m + 1, j, b + 1, turns);
    } else {
      SpinningStop(s, j, j, b + 1, turns);
    }
  }

  // From the first endpoint on that has something queued, every one refuses new requests.
  predicate ClosedBehind(s: Udc, ep: nat) {
    forall m, j | ep <= m <= j < |s.eps| && s.eps[m].queue != [] :: Closed(s, j)
  }

  lemma RoundKeepsClosed(s: Udc, ep: nat, j: nat, turn: seq<Event>)
    requires ep < |s.eps| && s.eps[ep].queue != [] && j < |s.eps| && Closed(s, j) && LeavesClosed(turn, j)
    ensures Closed(Round(s, ep, turn), j)
  {
    hide Step, Run, LeavesClosed, NoMore;
    var d := Step(s, Detach(ep, 0));
    DetachShortens(s, ep);
    RunClosed(d, j, turn);
    GiveBackFrame(Run(d, turn), s.eps[ep].queue[0]);
  }

  lemma {:induction false} NukedKeepsClosed(s: Udc, ep: nat, j: nat, turns: nat -> seq<Event>, k: nat)
    requires ep < |s.eps| && j < |s.eps| && Closed(s, j) && forall i :: LeavesClosed(turns(i), j)
    requires Ends(s, ep, turns, k)
    ensures Closed(Nuked(s, ep, turns, k), j)
    decreases Length(s, ep, turns, k)
  {
    hide Ends, Nuked, Round, Closed, LeavesClosed, EndsBy;
    if s.eps[ep].queue == [] {
      NukedDone(s, ep, turns, k);
    } else {
      NukedStep(s, ep, turns, k);
      RoundKeepsClosed(s, ep, j, turns(k));
      NukedKeepsClosed(Round(s, ep, turns(k)), ep, j, turns, k + 1);
    }
  }

  lemma {:induction false} ClosedStops(s: Udc, ep: nat, turns: nat -> nat -> seq<Event>)
    requires ep <= |s.eps| && ClosedBehind(s, ep) && StayShut(turns)
    ensures StopEnds(s, ep, turns)
    decreases |s.eps| - ep
  {
    hide Nuked, Ends, Closed, StayShut, LeavesClosed, StaysShut, NoMore;
    if ep < |s.eps| {
      var turn := turns(ep);
      ShutTurns(turns, ep, ep);
      if s.eps[ep].queue == [] {
        NukedDone(s, ep, turn, 0);
      } else {
        ClosedEnds(s, ep, turn, 0);
        forall j: nat | ep <= j < |s.eps| ensures Closed(Nuked(s, ep, turn, 0), j) {
          ShutTurns(turns, ep, j);
          NukedKeepsClosed(s, ep, j, turn, 0);
        }
      }
      ClosedStops(Nuked(s, ep, turn, 0), ep + 1, turns);
    }
  }

  // stop_activity ends, whatever completion handlers and other threads do, short of enabling an
  // endpoint, binding a driver or connecting: exactly if from the first endpoint on that has
  // something queued every one refuses new requests.
  lemma StopEndsIff(s: Udc)
    ensures (forall turns: nat -> nat -> seq<Event> | StayShut(turns) :: StopEnds(s, 0, turns)) <==> ClosedBehind(s, 0)
  {
    hide StopEnds, Closed, StaysShut;
    if ClosedBehind(s, 0) {
      forall turns | StayShut(turns) ensures StopEnds(s, 0, turns) {
        ClosedStops(s, 0, turns);
      }
    } else {
      var m, j :| 0 <= m <= j < |s.eps| && s.eps[m].queue != [] && !Closed(s, j);
      var b := Unused(s.eps);
      var turns: nat -> nat -> seq<Event> := (i: nat) => (k: nat) => BusyTurn(m, j, b, i, k);
      BusyStop(s, 0, m, j, b, turns);
    }
  }

  // While m is emptied a handler queues a request on ep0.
  lemma {:induction false} OpenLeaves(s: Udc, ep: nat, m: nat, b: int, turns: nat -> nat -> seq<Event>)
    requires ep <= m < |s.eps| && 0 < m && s.eps[m].queue != [] && !Closed(s, 0) && UnusedFrom(s.eps, b)
    requires turns(m)(0) == Requeue(0, b) && forall i, k | i >= ep && !(i == m && k == 0) :: turns(i)(k) == []
    ensures StopEnds(s, ep, turns) && Stopped(s, ep, turns).eps[0].queue != []
    decreases m - ep
  {
    hide Nuked, Ends, Requeue, UnusedFrom, Closed, QuietFrame;
    var turn := turns(ep);
    if ep < m {
      QuietNuke(s, ep, turn, 0);
      var t := Nuked(s, ep, turn, 0);
      QuietUnused(s, t, ep, 0, b);
      QuietUnused(s, t, ep, m, b);
      OpenLeaves(t, ep + 1, m, b, turns);
    } else {
      RequeueNuke(s, m, 0, b, turn);
      QuietStop(Nuked(s, m, turn, 0), m + 1, turns);
    }
  }

  lemma NotShutLeaves(s: Udc, m: nat) returns (turns: nat -> nat -> seq<Event>)
    requires !Shut(s) && m < |s.eps| && s.eps[m].queue != []
    ensures StayShut(turns) && !Empties(s, turns)
  {
    hide StopEnds, Stopped, StaysShut, Count, Requeue;
    var b := Unused(s.eps);
    if m == 0 {
      turns := (i: nat) => (k: nat) => BusyTurn(0, 0, b, i, k);
      BusyStop(s, 0, 0, 0, b, turns);
    } else {
      turns := (i: nat) => (k: nat) => OneTurn(m, b, i, k);
      OpenLeaves(s, 0, m, b, turns);
      assert Stopped(s, 0, turns).eps[0].queue != [];
    }
  }

  function OneTurn(m: nat, b: int, i: nat, k: nat): (events: seq<Event>)
    ensures StaysShut(events)
  {
    if i == m && k == 0 then Requeue(0, b) else []
  }

  lemma IdleEmpties(s: Udc, turns: nat -> nat -> seq<Event>)
    requires IdleFrom(s, 0)
    ensures Empties(s, turns)
  {
    IdleStop(s, 0, turns);
  }

  // stop_activity ends with every queue empty, whatever happens meanwhile, exactly if nothing is
  // queued at all; or the device turns requests away, the calls of dummy_queue under way are for
  // one endpoint only, and nothing is queued behind it.
  lemma StopEmptiesIff(s: Udc)
    ensures (forall turns: nat -> nat -> seq<Event> | StayShut(turns) :: Empties(s, turns))
       <==> IdleFrom(s, 0) || (Shut(s) && OneTarget(s))
  {
    hide Shut, Empties, StaysShut;
    if IdleFrom(s, 0) {
      forall turns | StayShut(turns) ensures Empties(s, turns) {
        IdleEmpties(s, turns);
      }
    } else if Shut(s) && OneTarget(s) {
      forall turns | StayShut(turns) ensures Empties(s, turns) {
        OneTargetEmpties(s, turns);
      }
    } else {
      var m :| 0 <= m < |s.eps| && s.eps[m].queue != [];
      if !Shut(s) {
        var turns := NotShutLeaves(s, m);
      } else if t, u :| Pending(s, t) && Pending(s, u) && t.ep != u.ep {
        var lo, hi := if u.ep < t.ep then u else t, if u.ep < t.ep then t else u;
        var turns := OverdueLeaves(s, m, hi, lo);
      } else {
        var t :| Pending(s, t) && !IdleFrom(s, t.ep + 1);
        var j :| t.ep < j < |s.eps| && s.eps[j].queue != [];
        var turns := OverdueLeaves(s, j, t, t);
      }
    }
  }
}
