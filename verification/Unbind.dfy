// Driver unbind (patch/kernel/dummy_hcd.c:455-480, 961-1019, 1549-1557, 1895-1901): the
// `callback_usage` count by which dummy_udc_stop waits for gadget callbacks that run without
// the lock.  One step is one stretch of code under the lock; steps of the timer, of link
// changes and of udc_start/udc_stop interleave freely.

module Unbind {

  datatype Callback = SetupCb | SuspendCb | ResumeCb | ResetCb | DisconnectCb

  // Where dummy_udc_stop is: not called, giving requests back, or waiting for callbacks.
  datatype Stop = Idle | Nuking | Draining

  // `running` are the callbacks in flight.  `windows` counts the link changes that have seen
  // ints_enabled set for a reset or disconnect, and have dropped the lock in stop_activity
  // before counting their callback.
  datatype Udc = Udc(driver: bool, intsEnabled: bool, usage: int, running: multiset<Callback>, windows: nat, stop: Stop)

  datatype Event =
    | Begin(cb: Callback)         // ints_enabled seen, callback counted, lock dropped
    | End(cb: Callback)           // lock taken again, callback uncounted
    | OpenWindow                  // a reset or disconnect with requests to give back first
    | CloseWindow(cb: Callback)   // ... and its callback
    | Start | StopBegin | StopNuked | StopEnd

  const UNBOUND := Udc(false, false, 0, multiset{}, 0, Idle)

  predicate Enabled(s: Udc, e: Event) {
    match e
    case Begin(cb) => s.intsEnabled
    case End(cb) => cb in s.running
    case OpenWindow => s.intsEnabled
    case CloseWindow(cb) => s.windows > 0 && (cb == ResetCb || cb == DisconnectCb)
    case Start => s.stop == Idle && !s.driver
    case StopBegin => s.stop == Idle && s.driver
    case StopNuked => s.stop == Nuking
    case StopEnd => s.stop == Draining && s.usage <= 0
  }

  function Step(s: Udc, e: Event): Udc
    requires Enabled(s, e)
  {
    match e
    case Begin(cb) => s.(usage := s.usage + 1, running := s.running + multiset{cb})
    case End(cb) => s.(usage := s.usage - 1, running := s.running - multiset{cb})
    case OpenWindow => s.(windows := s.windows + 1)
    case CloseWindow(cb) => s.(windows := s.windows - 1, usage := s.usage + 1, running := s.running + multiset{cb})
    case Start => s.(driver := true, intsEnabled := true)
    case StopBegin => s.(intsEnabled := false, stop := Nuking)
    case StopNuked => s.(stop := Draining)
    case StopEnd => s.(driver := false, stop := Idle)
  }

  // The count is exact, and setup, suspend and resume callbacks only run with a driver.
  predicate Inv(s: Udc) {
    && s.usage == |s.running|
    && (s.intsEnabled ==> s.driver && s.stop == Idle)
    && (s.stop != Idle ==> s.driver)
    && (!s.driver ==> forall cb | cb in s.running :: cb == ResetCb || cb == DisconnectCb)
  }

  // A callback is running and there is no driver.
  predicate Stray(s: Udc) { !s.driver && s.running != multiset{} }

  predicate Valid(s: Udc, events: seq<Event>)
    decreases |events|
  {
    events == [] || (Enabled(s, events[0]) && Valid(Step(s, events[0]), events[1..]))
  }

  function Run(s: Udc, events: seq<Event>): Udc
    requires Valid(s, events)
    decreases |events|
  {
    if events == [] then s else Run(Step(s, events[0]), events[1..])
  }

  lemma StepKeeps(s: Udc, e: Event)
    requires Inv(s) && Enabled(s, e)
    ensures Inv(Step(s, e))
  {
    if e == StopEnd {
      assert s.running == multiset{};
    }
  }

  // What the wait in dummy_udc_stop is for: the driver goes away only when nothing runs, and
  // nothing that tests ints_enabled under the lock starts without a driver.
  lemma DriverLeavesQuietly(s: Udc, e: Event)
    requires Inv(s) && Enabled(s, e)
    ensures s.driver && !Step(s, e).driver ==> s.running == multiset{}
    ensures e.Begin? ==> s.driver
  {
    if e == StopEnd {
      assert |s.running| == 0;
    }
  }

  // No event but a pending window lets callbacks start once draining has begun.
  lemma DrainOnlyEmpties(s: Udc, e: Event)
    requires Inv(s) && Enabled(s, e) && s.stop == Draining && s.windows == 0
    ensures e == StopEnd || (Step(s, e).stop == Draining && Step(s, e).windows == 0 && e.End?)
    ensures e.End? ==> Step(s, e).usage < s.usage
  {
  }

  lemma {:induction false} RunKeeps(s: Udc, events: seq<Event>)
    requires Inv(s) && Valid(s, events)
    ensures Inv(Run(s, events))
    decreases |events|
  {
    if events != [] {
      StepKeeps(s, events[0]);
      RunKeeps(Step(s, events[0]), events[1..]);
    }
  }

  // All interleavings: the count is exact, and setup, suspend and resume never run driverless.
  lemma EveryRun(events: seq<Event>)
    requires Valid(UNBOUND, events)
    ensures var s := Run(UNBOUND, events);
            && s.usage == |s.running|
            && (s.running[SetupCb] + s.running[SuspendCb] + s.running[ResumeCb] > 0 ==> s.driver)
  {
    RunKeeps(UNBOUND, events);
    var s := Run(UNBOUND, events);
    assert s.running[SetupCb] > 0 ==> SetupCb in s.running;
    assert s.running[SuspendCb] > 0 ==> SuspendCb in s.running;
    assert s.running[ResumeCb] > 0 ==> ResumeCb in s.running;
  }

  // How often an event has happened.
  function Times(events: seq<Event>, e: Event): nat {
    if events == [] then 0 else One(events[0], e) + Times(events[1..], e)
  }

  function One(a: Event, b: Event): int { if a == b then 1 else 0 }

  lemma StepWindows(s: Udc, e: Event)
    requires Enabled(s, e)
    ensures Step(s, e).windows
         == s.windows + One(e, OpenWindow) - (One(e, CloseWindow(ResetCb)) + One(e, CloseWindow(DisconnectCb)))
  {
  }

  lemma StepRunning(s: Udc, e: Event, cb: Callback)
    requires Enabled(s, e)
    ensures Step(s, e).running[cb] == s.running[cb] + One(e, Begin(cb)) + One(e, CloseWindow(cb)) - One(e, End(cb))
  {
  }

  lemma {:induction false} RunTallies(s: Udc, events: seq<Event>, cb: Callback)
    requires Valid(s, events)
    ensures var t := Run(s, events);
            && t.windows == s.windows + Times(events, OpenWindow)
                            - (Times(events, CloseWindow(ResetCb)) + Times(events, CloseWindow(DisconnectCb)))
            && t.running[cb] == s.running[cb] + Times(events, Begin(cb)) + Times(events, CloseWindow(cb)) - Times(events, End(cb))
    decreases |events|
  {
    hide Enabled, Step;
    if events != [] {
      StepWindows(s, events[0]);
      StepRunning(s, events[0], cb);
      RunTallies(Step(s, events[0]), events[1..], cb);
    }
  }

  // Over all interleavings the windows open are those opened and not closed, and the callbacks in
  // flight are those begun, or run at the end of a window, and not ended.
  lemma EveryTally(events: seq<Event>, cb: Callback)
    requires Valid(UNBOUND, events)
    ensures var s := Run(UNBOUND, events);
            && s.windows == Times(events, OpenWindow)
                            - (Times(events, CloseWindow(ResetCb)) + Times(events, CloseWindow(DisconnectCb)))
            && s.running[cb] == Times(events, Begin(cb)) + Times(events, CloseWindow(cb)) - Times(events, End(cb))
  {
    RunTallies(UNBOUND, events, cb);
  }

  // When an event can happen: no callback is begun, and no window opened, unless ints_enabled is
  // set; the driver is cleared only when no callback is counted.
  lemma EnabledIs(s: Udc, cb: Callback)
    ensures Enabled(s, Begin(cb)) == Enabled(s, OpenWindow) == s.intsEnabled
    ensures Enabled(s, Start) ==> !s.driver && Step(s, Start).driver && Step(s, Start).intsEnabled
    ensures Enabled(s, StopBegin) ==> s.driver && !Step(s, StopBegin).intsEnabled
    ensures Enabled(s, StopEnd) ==> s.usage <= 0 && !Step(s, StopEnd).driver
  {
  }

  predicate NoWindows(events: seq<Event>) { forall e | e in events :: e != OpenWindow }

  lemma {:induction false} WindowlessRun(s: Udc, events: seq<Event>)
    requires Inv(s) && s.windows == 0 && !Stray(s) && Valid(s, events) && NoWindows(events)
    ensures !Stray(Run(s, events))
    decreases |events|
  {
    if events != [] {
      var e := events[0];
      assert e in events;
      StepKeeps(s, e);
      DriverLeavesQuietly(s, e);
      assert forall x | x in events[1..] :: x in events;
      WindowlessRun(Step(s, e), events[1..]);
    }
  }

  // Reset and disconnect callbacks.  When dummy_udc_stop clears the driver, no such callback can
  // run without one afterwards, unless new windows open, exactly if no window is open now.
  lemma ClearingIsSafeIff(s: Udc)
    requires Inv(s) && Enabled(s, StopEnd)
    ensures (forall events | Valid(Step(s, StopEnd), events) && NoWindows(events) :: !Stray(Run(Step(s, StopEnd), events)))
       <==> s.windows == 0
  {
    var t := Step(s, StopEnd);
    StepKeeps(s, StopEnd);
    DriverLeavesQuietly(s, StopEnd);
    if s.windows == 0 {
      forall events | Valid(t, events) && NoWindows(events)
        ensures !Stray(Run(t, events))
      {
        WindowlessRun(t, events);
      }
    } else {
      var events := [CloseWindow(ResetCb)];
      assert events[1..] == [];
      assert ResetCb in Step(t, events[0]).running;
      assert Valid(t, events) && NoWindows(events) && Stray(Run(t, events));
    }
  }

  // And a window can be open: the reset path tests ints_enabled, then gives requests back
  // without the lock, before it counts its callback.
  lemma ResetRace()
    ensures var events := [Start, OpenWindow, StopBegin, StopNuked, StopEnd, CloseWindow(ResetCb)];
            Valid(UNBOUND, events) && Stray(Run(UNBOUND, events))
  {
    hide Step, Enabled, Valid, Run;
    var a := Udc(true, true, 0, multiset{}, 0, Idle);
    var b := Udc(true, true, 0, multiset{}, 1, Idle);
    var c := Udc(true, false, 0, multiset{}, 1, Nuking);
    var d := Udc(true, false, 0, multiset{}, 1, Draining);
    var e := Udc(false, false, 0, multiset{}, 1, Idle);
    assert [CloseWindow(ResetCb)] + [] == [CloseWindow(ResetCb)];
    assert [StopEnd] + [CloseWindow(ResetCb)] == [StopEnd, CloseWindow(ResetCb)];
    assert [StopNuked] + [StopEnd, CloseWindow(ResetCb)] == [StopNuked, StopEnd, CloseWindow(ResetCb)];
    assert [StopBegin] + [StopNuked, StopEnd, CloseWindow(ResetCb)] == [StopBegin, StopNuked, StopEnd, CloseWindow(ResetCb)];
    assert [OpenWindow] + [StopBegin, StopNuked, StopEnd, CloseWindow(ResetCb)]
        == [OpenWindow, StopBegin, StopNuked, StopEnd, CloseWindow(ResetCb)];
    assert [Start] + [OpenWindow, StopBegin, StopNuked, StopEnd, CloseWindow(ResetCb)]
        == [Start, OpenWindow, StopBegin, StopNuked, StopEnd, CloseWindow(ResetCb)];
    RaceSteps();
    var f := Step(e, CloseWindow(ResetCb));
    NoEvents(f);
    OneEvent(e, CloseWindow(ResetCb), []);
    OneEvent(d, StopEnd, [CloseWindow(ResetCb)]);
    OneEvent(c, StopNuked, [StopEnd, CloseWindow(ResetCb)]);
    OneEvent(b, StopBegin, [StopNuked, StopEnd, CloseWindow(ResetCb)]);
    OneEvent(a, OpenWindow, [StopBegin, StopNuked, StopEnd, CloseWindow(ResetCb)]);
    OneEvent(UNBOUND, Start, [OpenWindow, StopBegin, StopNuked, StopEnd, CloseWindow(ResetCb)]);
  }

  lemma RaceSteps()
    ensures Enabled(UNBOUND, Start) && Step(UNBOUND, Start) == Udc(true, true, 0, multiset{}, 0, Idle)
    ensures var a := Udc(true, true, 0, multiset{}, 0, Idle);
            Enabled(a, OpenWindow) && Step(a, OpenWindow) == Udc(true, true, 0, multiset{}, 1, Idle)
    ensures var b := Udc(true, true, 0, multiset{}, 1, Idle);
            Enabled(b, StopBegin) && Step(b, StopBegin) == Udc(true, false, 0, multiset{}, 1, Nuking)
    ensures var c := Udc(true, false, 0, multiset{}, 1, Nuking);
            Enabled(c, StopNuked) && Step(c, StopNuked) == Udc(true, false, 0, multiset{}, 1, Draining)
    ensures var d := Udc(true, false, 0, multiset{}, 1, Draining);
            Enabled(d, StopEnd) && Step(d, StopEnd) == Udc(false, false, 0, multiset{}, 1, Idle)
    ensures var e := Udc(false, false, 0, multiset{}, 1, Idle);
            Enabled(e, CloseWindow(ResetCb)) && Stray(Step(e, CloseWindow(ResetCb)))
  {
    assert ResetCb in Step(Udc(false, false, 0, multiset{}, 1, Idle), CloseWindow(ResetCb)).running;
  }

  lemma NoEvents(s: Udc)
    ensures Valid(s, []) && Run(s, []) == s
  {
  }

  lemma OneEvent(s: Udc, e: Event, rest: seq<Event>)
    requires Enabled(s, e) && Valid(Step(s, e), rest)
    ensures Valid(s, [e] + rest) && Run(s, [e] + rest) == Run(Step(s, e), rest)
  {
    hide Step, Enabled;
    assert ([e] + rest)[1..] == rest;
  }

  // ---- dummy_udc_stop as one call ----

  // What others do while it has dropped the lock.
  predicate Others(events: seq<Event>) {
    forall e | e in events :: e.Begin? || e.End? || e.OpenWindow? || e.CloseWindow?
  }

  // Events that cannot happen leave the state alone.
  function Tried(s: Udc, events: seq<Event>): Udc
    decreases |events|
  {
    if events == [] then s else Tried(if Enabled(s, events[0]) then Step(s, events[0]) else s, events[1..])
  }

  lemma {:induction false} TriedKeeps(s: Udc, events: seq<Event>)
    requires Inv(s) && Others(events)
    ensures Inv(Tried(s, events)) && Tried(s, events).stop == s.stop && Tried(s, events).driver == s.driver
    ensures s.stop == Draining && s.windows == 0 ==> Tried(s, events).windows == 0 && Tried(s, events).usage <= s.usage
    decreases |events|
  {
    if events != [] {
      assert events[0] in events;
      assert forall x | x in events[1..] :: x in events;
      if Enabled(s, events[0]) {
        StepKeeps(s, events[0]);
        TriedKeeps(Step(s, events[0]), events[1..]);
      } else {
        TriedKeeps(s, events[1..]);
      }
    }
  }

  // It naps until no callback runs, then clears the driver; with too few naps it still waits.
  function Drained(s: Udc, naps: seq<seq<Event>>): Udc
    requires s.stop == Draining && Inv(s) && forall nap | nap in naps :: Others(nap)
    decreases |naps|
  {
    if s.usage <= 0 then Step(s, StopEnd)
    else if naps == [] then s
    else
      TriedKeeps(s, naps[0]);
      Drained(Tried(s, naps[0]), naps[1..])
  }

  lemma {:induction false} DrainedKeeps(s: Udc, naps: seq<seq<Event>>)
    requires s.stop == Draining && Inv(s) && forall nap | nap in naps :: Others(nap)
    ensures var t := Drained(s, naps);
            && Inv(t) && (t.stop == Idle || t.stop == Draining)
            && (t.stop == Idle <==> !t.driver)
            && (t.stop == Idle ==> t.running == multiset{})
    decreases |naps|
  {
    if s.usage <= 0 {
      StepKeeps(s, StopEnd);
      DriverLeavesQuietly(s, StopEnd);
    } else if naps != [] {
      assert naps[0] in naps;
      TriedKeeps(s, naps[0]);
      assert forall nap | nap in naps[1..] :: nap in naps;
      DrainedKeeps(Tried(s, naps[0]), naps[1..]);
    }
  }
}
