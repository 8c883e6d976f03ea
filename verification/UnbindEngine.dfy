// Binding and unbinding a gadget driver in place (patch/kernel/dummy_hcd.c:470-480, 963-1019).

module UnbindEngine {
  import opened Unbind

  class DummyBinding {
    var driver: bool
    var intsEnabled: bool
    var callbackUsage: int
    // Bookkeeping: the callbacks in flight, the open windows, and how far dummy_udc_stop is.
    var running: multiset<Callback>
    var windows: nat
    var stop: Stop

    function State(): Udc
      reads this
    {
      Udc(driver, intsEnabled, callbackUsage, running, windows, stop)
    }

    constructor ()
      ensures State() == UNBOUND
    {
      driver, intsEnabled, callbackUsage, running, windows, stop := false, false, 0, multiset{}, 0, Idle;
    }

    method UdcStart()
      requires Enabled(State(), Start)
      modifies this
      ensures State() == Step(old(State()), Start)
    {
      driver := true;
      intsEnabled := true;
    }

    // Counts a callback and drops the lock, and takes it again and uncounts.
    method BeginCallback(cb: Callback)
      requires Enabled(State(), Begin(cb))
      modifies this
      ensures State() == Step(old(State()), Begin(cb))
    {
      callbackUsage := callbackUsage + 1;
      running := running + multiset{cb};
    }

    method EndCallback(cb: Callback)
      requires Enabled(State(), End(cb))
      modifies this
      ensures State() == Step(old(State()), End(cb))
    {
      callbackUsage := callbackUsage - 1;
      running := running - multiset{cb};
    }

    method Do(e: Event)
      requires Enabled(State(), e) && Others([e])
      modifies this
      ensures State() == Step(old(State()), e)
    {
      assert e in [e];
      match e {
        case Begin(cb) => BeginCallback(cb);
        case End(cb) => EndCallback(cb);
        case OpenWindow => windows := windows + 1;
        case CloseWindow(cb) =>
          windows := windows - 1;
          callbackUsage := callbackUsage + 1;
          running := running + multiset{cb};
      }
    }

    method Unlocked(events: seq<Event>)
      requires Others(events)
      modifies this
      ensures State() == Tried(old(State()), events)
      decreases |events|
    {
      hide Step, Enabled;
      if events != [] {
        assert events[0] in events;
        if Enabled(State(), events[0]) {
          Do(events[0]);
        }
        assert forall x | x in events[1..] :: x in events;
        Unlocked(events[1..]);
      }
    }

    // The wait of dummy_udc_stop, and the end of it.
    method Drain(naps: seq<seq<Event>>) returns (done: bool)
      requires Inv(State()) && stop == Draining && forall nap | nap in naps :: Others(nap)
      modifies this
      ensures State() == Drained(old(State()), naps)
      ensures done == (stop == Idle) && (stop == Idle || stop == Draining)
      ensures stop == Draining ==> callbackUsage > 0
    {
      hide Tried, Others;
      var i := 0;
      assert naps[0..] == naps;
      while callbackUsage > 0 && i < |naps|
        invariant i <= |naps| && stop == Draining && Inv(State())
        invariant Drained(State(), naps[i..]) == Drained(old(State()), naps)
        decreases |naps| - i
      {
        assert naps[i..][0] == naps[i] && naps[i..][1..] == naps[i + 1..];
        TriedKeeps(State(), naps[i]);
        Unlocked(naps[i]);
        i := i + 1;
      }
      done := callbackUsage <= 0;
      if done {
        driver := false;
        stop := Idle;
      }
    }

    // dummy_udc_stop: `nuking` happens during stop_activity, naps[i] during the i-th sleep.
    // Only when no callback is left does it clear the driver.
    method UdcStop(nuking: seq<Event>, naps: seq<seq<Event>>) returns (done: bool)
      requires Inv(State()) && Enabled(State(), StopBegin)
      requires Others(nuking) && forall nap | nap in naps :: Others(nap)
      modifies this
      ensures Inv(State())
      ensures done ==> !driver && running == multiset{} && callbackUsage == 0 && stop == Idle
      ensures !done ==> driver && callbackUsage > 0 && stop == Draining
      ensures var s := Tried(Step(old(State()), StopBegin), nuking);
              && s.stop == Nuking && Inv(Step(s, StopNuked))
              && State() == Drained(Step(s, StopNuked), naps)
    {
      hide Tried, Others, Drained;
      StepKeeps(State(), StopBegin);
      TriedKeeps(Step(State(), StopBegin), nuking);
      intsEnabled := false;
      stop := Nuking;
      Unlocked(nuking);
      StepKeeps(State(), StopNuked);
      stop := Draining;
      DrainedKeeps(State(), naps);
      done := Drain(naps);
    }
  }
}
