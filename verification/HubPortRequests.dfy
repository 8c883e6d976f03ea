// What each request of the host comes to, in bits of the port and callbacks only
// (patch/kernel/dummy_hcd.c:856-907, 1992-2021, 2071-2361), and how a port is brought up from
// power-off.  Bits: 0 connection, 1 enable, 2 suspend, 4 reset, 8 power, 9 low and 10 high speed,
// 16 to 20 their changes.

module HubPortRequests {
  import opened HubPort

  // ---- Results ----

  // What a call returns.  On inaccessible hardware hub requests time out and nothing happens.
  lemma Results(p: Port, op: Op, now: int, accessible: bool)
    ensures var r, q := Returns(p, op, now, accessible), Apply(p, op, now, accessible);
            match op
            case ClearHubFeature => r == (if accessible then 0 else -110) && q == p
            case GetHubDescriptor => r == (if accessible then 0 else -110) && q == p
            case GetHubStatus => r == (if accessible then 0 else -110) && q == p
            case SetHubFeature => r == (if accessible then -32 else -110) && q == p
            case Unsupported => r == (if accessible then -32 else -110) && q == p
            case ClearPortFeature(f) => r == (if accessible then 0 else -110) && (!accessible ==> q == p)
            case SetPortFeature(f) =>
              && r == (if !accessible then -110 else if f in {5, 23, 24, 28} then -32 else 0)
              && (r != 0 ==> q == p)
            case GetPortStatus(wIndex) =>
              r == (if !accessible then -110 else if wIndex != 1 then -32 else 0) && (!accessible ==> q == p)
            case HubStatus =>
              && (r == 1 <==> accessible && exists b :: b in q.status && 16 <= b <= 20)
              && (r != 1 ==> r == 0) && (!accessible ==> q == p)
            case BusResume => r == (if accessible then 0 else -108) && (!accessible ==> q == p)
            case Wakeup(allowed) =>
              && r == (if !allowed then -22 else if 0 !in p.status then -67
                       else if 2 !in p.status && p.rhState != RhSuspended then -5 else 0)
              && q == if r == 0 then p.(resuming := true, reTimeout := now + 20) else p
            case _ => r == 0
  {
    if op == HubStatus && accessible {
      var s := Apply(p, op, now, accessible).status;
      ChangeBits(s);
    } else {
      hide LinkState, ResetDone, ResumeDone, SetFeature;
    }
  }

  lemma ChangeBits(s: Bits)
    ensures s * PORT_C_MASK != {} <==> exists b :: b in s && 16 <= b <= 20
  {
    if b: nat :| b in s && 16 <= b <= 20 {
      assert b in s * PORT_C_MASK;
    }
    if b: nat :| b in s * PORT_C_MASK {
      assert b in s && 16 <= b <= 20;
    } else {
      assert s * PORT_C_MASK == {};
    }
  }

  // ---- Bits ----

  // Powering a port: it is powered then, and connected exactly if a device is pulled up; of a port
  // that was not, the host sees nothing else but the connect change.
  lemma PowerOn(p: Port, now: int)
    requires PortInv(p)
    ensures var q := Apply(p, SetPortFeature(8), now, true);
            && 8 in q.status && (0 in q.status <==> p.pullup && !p.udcSuspended)
            && (8 !in p.status ==> q.status == if p.pullup && !p.udcSuspended then {0, 8, 16} else {8})
            && (0 in p.status ==> q.status == p.status)
  {
    if 0 in p.status {
      assert p.status + {8} == p.status && p.status + {0} == p.status;
    }
    if p.status == {} {
      assert {8} + {0, 16} == {0, 8, 16};
      assert {8} - {0, 1, 9, 10, 2} == {8};
    }
  }

  // Powering it off: nothing is left, and a bound driver is told.
  lemma PowerOff(p: Port, now: int)
    requires PortInv(p)
    ensures var q := Apply(p, ClearPortFeature(8), now, true);
            && q.status == {} && !q.active && !q.resuming
            && q.log == p.log + (if 8 in p.status && p.intsEnabled then [DisconnectCb] else [])
  {
  }

  // What ClearPortFeature removes from a connected port: of the change bits and the like exactly
  // the bit named; disabling also ends a suspend; the connection itself cannot be cleared.
  lemma ClearedBits(p: Port, f: nat, now: int)
    requires PortInv(p) && 0 in p.status && f != 2
    ensures var q := Apply(p, ClearPortFeature(f), now, true);
            q.status == if f == 8 then {} else if f == 0 then p.status else if f == 1 then p.status - {1, 2}
                        else p.status - {f}
  {
    if f != 8 {
      var s := p.status - {f};
      assert s + {0} == if f == 0 then p.status else s;
      if f == 1 {
        assert s - {2} == p.status - {1, 2};
      } else if 1 !in p.status {
        assert 2 !in p.status;
        assert p.status - {2} == p.status && s - {2} == s;
      }
    }
  }

  // Clearing SUSPEND starts 20 ms of resume signalling on a suspended port, and does nothing else.
  lemma ResumeStarts(p: Port, now: int)
    ensures Apply(p, ClearPortFeature(2), now, true)
         == if 2 in p.status then p.(resuming := true, reTimeout := now + 20) else p
  {
  }

  // What SetPortFeature adds to a connected port; without power nothing can be set but power.
  lemma SetBits(p: Port, f: nat, now: int)
    requires PortInv(p) && f !in {5, 23, 24, 28}
    ensures var q := Apply(p, SetPortFeature(f), now, true);
            && (8 !in p.status && f != 8 ==> q.status == {} && q.log == p.log)
            && (0 in p.status ==>
                  q.status == if f == 4 then p.status - {1, 2, 9, 10} + {4}
                              else if f == 2 then (if p.active then p.status + {2} else p.status)
                              else p.status + {f})
            && (f == 4 ==> q.reTimeout == now + 50) && (f != 4 ==> q.reTimeout == p.reTimeout)
  {
    hide Apply;
    SetTimeout(p, f, now);
    if 8 !in p.status && f != 8 {
      SetUnpowered(p, f, now);
    }
    if 0 in p.status {
      SetConnected(p, f, now);
    }
  }

  lemma SetTimeout(p: Port, f: nat, now: int)
    requires f !in {5, 23, 24, 28}
    ensures Apply(p, SetPortFeature(f), now, true).reTimeout == if f == 4 then now + 50 else p.reTimeout
  {
    hide LinkBySpeed, FeatureBits;
    if f != 2 {
      LinkKeepsTimeout(p.(status := FeatureBits(p.status, f), reTimeout := if f == 4 then now + 50 else p.reTimeout));
    } else {
      LinkKeepsTimeout(p.(status := p.status + {2}));
    }
  }

  lemma LinkKeepsTimeout(p: Port)
    ensures LinkState(p).reTimeout == p.reTimeout
  {
  }

  lemma SetUnpowered(p: Port, f: nat, now: int)
    requires PortInv(p) && f !in {5, 23, 24, 28} && 8 !in p.status && f != 8
    ensures var q := Apply(p, SetPortFeature(f), now, true);
            q.status == {} && q.log == p.log
  {
    if f != 2 {
      assert FeatureBits(p.status, f) == {};
    }
  }

  lemma SetConnected(p: Port, f: nat, now: int)
    requires PortInv(p) && 0 in p.status && f !in {5, 23, 24, 28}
    ensures Apply(p, SetPortFeature(f), now, true).status
         == if f == 4 then p.status - {1, 2, 9, 10} + {4}
            else if f == 2 then (if p.active then p.status + {2} else p.status)
            else p.status + {f}
  {
    if f == 4 {
      ResetBegins(p, now);
      assert p.status - {1, 9, 10, 2} + {4} == p.status - {1, 2, 9, 10} + {4};
    } else if f == 2 {
      assert p.active ==> p.status + {2} + {0} == p.status + {2};
    } else {
      assert p.status + {f} + {0} == p.status + {f};
      if 1 !in p.status + {f} {
        assert p.status + {f} - {2} == p.status + {f};
      }
    }
  }

  // ---- The device's side ----

  // A pullup that goes ends the connection, which latches the change; a driver whose device was
  // active is told to suspend.
  lemma PullupOff(p: Port, now: int)
    requires PortInv(p) && 0 in p.status
    ensures var q := Apply(p, Pullup(false), now, true);
            && q.status == p.status - {0, 1, 2, 9, 10} + {16} && !q.active
            && (p.intsEnabled && 4 !in p.status ==> q.log == p.log + if p.active then [SuspendCb] else [])
  {
    assert p.status - {0, 1, 9, 10, 2} + {16} == p.status - {0, 1, 2, 9, 10} + {16};
  }

  // Suspending the bus and resuming it: the port as before, and one callback each.
  lemma BusHandshake(p: Port, t0: int, t1: int)
    requires PortInv(p) && p.active && p.intsEnabled && 4 !in p.status
    ensures var q := Apply(p, BusSuspend, t0, true);
            var r := Apply(q, BusResume, t1, true);
            && q.status == p.status && !q.active && q.log == p.log + [SuspendCb]
            && r.status == p.status && r.active && r.log == p.log + [SuspendCb, ResumeCb]
  {
    assert p.status + {0} == p.status;
    var q := Apply(p, BusSuspend, t0, true);
    assert p.log + [SuspendCb, ResumeCb] == q.log + [ResumeCb];
  }

  // Remote wakeup: 20 ms later the hub's status poll ends the suspend, reports it, and the driver
  // is told to resume.
  lemma RemoteWakeup(p: Port, t0: int, t1: int)
    requires PortInv(p) && 2 in p.status && p.rhState != RhSuspended && p.intsEnabled && 4 !in p.status && t1 >= t0 + 20
    ensures var q := Apply(p, Wakeup(true), t0, true);
            var r := Apply(q, HubStatus, t1, true);
            && Returns(p, Wakeup(true), t0, true) == 0 && Returns(q, HubStatus, t1, true) == 1
            && r.status == p.status - {2} + {18} && r.active && !r.resuming && r.log == p.log + [ResumeCb]
  {
    var q := Apply(p, Wakeup(true), t0, true);
    assert q == p.(resuming := true, reTimeout := t0 + 20);
    var s := p.status - {2} + {18};
    assert p.status + {18} - {2} == s && s + {0} == s;
    assert 18 in s * PORT_C_MASK;
  }

  // Before its time is up no poll ends a resume or a reset: the hub's poll changes nothing, and
  // GetPortStatus no bit of a connected port.
  lemma NotBefore(p: Port, now: int)
    requires PortInv(p) && now < p.reTimeout
    ensures Apply(p, HubStatus, now, true) == p
    ensures Apply(p, GetPortStatus(1), now, true).status == if 0 in p.status then p.status else p.status - {9, 10}
  {
    Relinked(p);
  }

  // Without a resume the hub's poll changes nothing at any time.
  lemma NothingToPoll(p: Port, now: int)
    requires !p.resuming
    ensures Apply(p, HubStatus, now, true) == p
  {
  }

  lemma Relinked(p: Port)
    requires PortInv(p)
    ensures LinkState(p).status == if 0 in p.status then p.status else p.status - {9, 10}
  {
    if 0 in p.status {
      assert p.status + {0} == p.status;
      if 1 !in p.status {
        assert p.status - {2} == p.status;
      }
    } else if 8 in p.status {
      assert p.status - {0, 1, 9, 10, 2} == p.status - {9, 10};
    }
  }

  // Binding and unbinding a driver decide only whether it is called.
  lemma DriverBound(p: Port, now: int, accessible: bool)
    ensures Apply(p, UdcStart, now, accessible) == p.(intsEnabled := true)
    ensures Apply(p, UdcStop, now, accessible) == p.(intsEnabled := false)
  {
  }

  // ---- Bringing a port up ----

  function SpeedBits(speed: Speed): Bits { if speed == High then {10} else if speed == Low then {9} else {} }

  // From power-off: a device is pulled up, the host powers the port, resets it, and after 50 ms
  // asks for its status.  The port is then enabled and active, at the device's speed.
  lemma BringUp(speed: Speed, bound: bool, t: int, t0: int, t1: int)
    requires t1 >= t0 + 50
    ensures var off := POWER_OFF.(speed := speed, intsEnabled := bound);
            var plugged := Apply(off, Pullup(true), t, true);
            var powered := Apply(plugged, SetPortFeature(8), t, true);
            var resetting := Apply(powered, SetPortFeature(4), t0, true);
            var up := Apply(resetting, GetPortStatus(1), t1, true);
            && plugged.status == {} && powered.status == {0, 8, 16} && resetting.status == {0, 4, 8, 16}
            && up.status == {0, 1, 8, 16, 20} + SpeedBits(speed) && up.active
            && up.log == if bound then [ResetCb, ResumeCb] else []
  {
    hide Apply;
    var off := POWER_OFF.(speed := speed, intsEnabled := bound);
    Plugged(off, t);
    var plugged := Apply(off, Pullup(true), t, true);
    Powered(plugged, t);
    var powered := Apply(plugged, SetPortFeature(8), t, true);
    ResetBegins(powered, t0);
    ResetLog(powered, t0);
    var resetting := Apply(powered, SetPortFeature(4), t0, true);
    assert resetting.status == {0, 4, 8, 16};
    ResetEnds(resetting, t1);
    if !bound {
      EndsLog(resetting, t1);
    }
    assert {0, 4, 8, 16} - {4} + {20, 1} == {0, 1, 8, 16, 20};
    assert [ResetCb] + [ResumeCb] == [ResetCb, ResumeCb] && [] + [ResetCb] == [ResetCb];
  }

  lemma Plugged(off: Port, t: int)
    requires off == POWER_OFF.(speed := off.speed, intsEnabled := off.intsEnabled)
    ensures Apply(off, Pullup(true), t, true) == off.(pullup := true)
  {
  }

  lemma Powered(p: Port, t: int)
    requires p == POWER_OFF.(speed := p.speed, intsEnabled := p.intsEnabled, pullup := true)
    ensures var q := Apply(p, SetPortFeature(8), t, true);
            && PortInv(q) && q.status == {0, 8, 16} && q.log == [] && q.speed == p.speed
            && q.intsEnabled == p.intsEnabled && q.rhState == RhRunning
  {
    ApplyKeeps(p, SetPortFeature(8), t, true);
    PowerOn(p, t);
  }

  lemma ResetLog(p: Port, t0: int)
    requires PortInv(p) && 0 in p.status && 4 !in p.status
    ensures Apply(p, SetPortFeature(4), t0, true).log == p.log + if p.intsEnabled then [ResetCb] else []
  {
    hide LinkBySpeed;
    ResetBegins(p, t0);
    ResetEdit(p, t0);
    if !p.intsEnabled {
      LinkBySpeedIgnores(p.(status := p.status - {1, 9, 10} + {4}, reTimeout := t0 + 50, active := false));
      Unheard(p.(status := p.status - {1, 9, 10} + {4}, reTimeout := t0 + 50));
    }
  }

  lemma Unheard(p: Port)
    requires !p.intsEnabled
    ensures LinkState(p).log == p.log
  {
  }

  lemma EndsLog(q: Port, t1: int)
    requires !q.intsEnabled
    ensures Apply(q, GetPortStatus(1), t1, true).log == q.log
  {
    hide LinkState;
    Unheard(ResetDone(ResumeDone(q, t1), t1));
  }
}
