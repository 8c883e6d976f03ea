// The root-hub port on the driver's own fields, changed in place bit by bit; each entry point
// is proved to do what `HubPort.Apply` specifies.

module HubPortEngine {
  import opened HubPort

  class DummyPort {
    var portStatus: Bits
    var oldStatus: Bits
    var active: bool
    var oldActive: bool
    var resuming: bool
    var reTimeout: int
    var rhState: RhState
    var pullup: bool
    var udcSuspended: bool
    var intsEnabled: bool
    var speed: Speed
    var log: seq<Callback>

    ghost function View(): Port
      reads this
    {
      Port(portStatus, oldStatus, active, oldActive, resuming, reTimeout, rhState, pullup, udcSuspended, intsEnabled, speed, log)
    }

    constructor (speed: Speed)
      ensures View() == POWER_OFF.(speed := speed)
    {
      portStatus, oldStatus, active, oldActive, resuming, reTimeout := {}, {}, false, false, false, 0;
      rhState, pullup, udcSuspended, intsEnabled := RhRunning, false, false, false;
      this.speed, log := speed, [];
    }

    // set_link_state_by_speed
    method SetLinkStateBySpeed()
      modifies this`portStatus, this`active
      ensures View() == LinkBySpeed(old(View()))
    {
      if POWER !in portStatus {
        portStatus := {};
      } else if !pullup || udcSuspended {
        portStatus := portStatus - {CONNECTION, ENABLE, LOW_SPEED, HIGH_SPEED, SUSPEND};
        if CONNECTION in oldStatus {
          portStatus := portStatus + {C_CONNECTION};
        }
      } else {
        ghost var before := portStatus;
        portStatus := portStatus + {CONNECTION};
        if CONNECTION !in oldStatus {
          portStatus := portStatus + {C_CONNECTION};
        }
        assert portStatus == before + if CONNECTION !in oldStatus then {CONNECTION, C_CONNECTION} else {CONNECTION};
        if ENABLE !in portStatus {
          portStatus := portStatus - {SUSPEND};
        } else if SUSPEND !in portStatus && rhState != RhSuspended {
          active := true;
        }
      }
    }

    // set_link_state
    method SetLinkState()
      modifies this`portStatus, this`active, this`resuming, this`log, this`oldStatus, this`oldActive
      ensures View() == LinkState(old(View()))
    {
      hide LinkBySpeed;
      active := false;
      SetLinkStateBySpeed();
      if ENABLE !in portStatus || active {
        resuming := false;
      }
      ReportEvents();
      oldStatus, oldActive := portStatus, active;
    }

    // The callbacks of set_link_state
    method ReportEvents()
      modifies this`log
      ensures View() == old(View()).(log := old(log) + LinkEvent(old(View())))
    {
      if POWER !in portStatus || RESET in portStatus {
        var disconnect := POWER in oldStatus && POWER !in portStatus;
        var reset := RESET !in oldStatus && RESET in portStatus;
        if intsEnabled && (disconnect || reset) {
          log := log + [if reset then ResetCb else DisconnectCb];
        }
      } else if active != oldActive && intsEnabled {
        log := log + [if oldActive then SuspendCb else ResumeCb];
      }
    }

    // dummy_pullup
    method Pullup(on: bool)
      modifies this
      ensures View() == Apply(old(View()), Op.Pullup(on), 0, true)
    {
      hide LinkState;
      pullup := on;
      SetLinkState();
    }

    // dummy_udc_pm
    method UdcPm(suspend: bool)
      modifies this
      ensures View() == Apply(old(View()), Op.UdcPm(suspend), 0, true)
    {
      hide LinkState;
      udcSuspended := suspend;
      SetLinkState();
    }

    // dummy_bus_suspend
    method BusSuspend()
      modifies this
      ensures View() == Apply(old(View()), Op.BusSuspend, 0, true)
    {
      hide LinkState;
      rhState := RhSuspended;
      SetLinkState();
    }

    // dummy_bus_resume
    method BusResume(accessible: bool) returns (retval: int)
      modifies this
      ensures View() == Apply(old(View()), Op.BusResume, 0, accessible)
      ensures retval == Returns(old(View()), Op.BusResume, 0, accessible)
    {
      hide LinkState;
      if !accessible {
        return -ESHUTDOWN;
      }
      rhState := RhRunning;
      SetLinkState();
      return 0;
    }

    // The common tail of dummy_hub_status and GetPortStatus: resume signalling is over.
    method FinishResume(now: int)
      modifies this`portStatus
      ensures View() == ResumeDone(old(View()), now)
    {
      if resuming && now >= reTimeout {
        portStatus := portStatus + {C_SUSPEND};
        portStatus := portStatus - {SUSPEND};
      }
    }

    method FinishReset(now: int)
      modifies this`portStatus
      ensures View() == ResetDone(old(View()), now)
    {
      if RESET in portStatus && now >= reTimeout {
        portStatus := portStatus + {C_RESET};
        portStatus := portStatus - {RESET};
        if pullup {
          portStatus := portStatus + {ENABLE};
          match speed
          case High => portStatus := portStatus + {HIGH_SPEED};
          case Low => portStatus := portStatus + {LOW_SPEED};
          case Full =>
        }
      }
    }

    // dummy_hub_status
    method HubStatus(now: int, accessible: bool) returns (retval: int)
      modifies this
      ensures View() == Apply(old(View()), Op.HubStatus, now, accessible)
      ensures retval == Returns(old(View()), Op.HubStatus, now, accessible)
    {
      hide LinkState;
      retval := 0;
      if !accessible { return; }
      if resuming && now >= reTimeout {
        FinishResume(now);
        SetLinkState();
      }
      if portStatus * PORT_C_MASK != {} {
        retval := 1;
      }
    }

    // SetPortFeature in dummy_hub_control
    method SetPortFeature(wValue: nat, now: int) returns (retval: int)
      modifies this
      ensures View() == Apply(old(View()), Op.SetPortFeature(wValue), now, true)
      ensures retval == Returns(old(View()), Op.SetPortFeature(wValue), now, true)
    {
      hide LinkState, FeatureBits;
      if wValue in {LINK_STATE, U1_TIMEOUT, U2_TIMEOUT, BH_PORT_RESET} {
        return -EPIPE;
      }
      retval := 0;
      if wValue == SUSPEND {
        if active {
          portStatus := portStatus + {SUSPEND};
          SetLinkState();
        }
      } else {
        SetFeatureBits(wValue, now);
        SetLinkState();
      }
    }

    // All features but SUSPEND.
    method SetFeatureBits(wValue: nat, now: int)
      modifies this`portStatus, this`reTimeout
      ensures portStatus == FeatureBits(old(portStatus), wValue)
      ensures reTimeout == if wValue == RESET then now + RESET_MS else old(reTimeout)
    {
      if wValue == POWER {
        portStatus := portStatus + {POWER};
      } else {
        if wValue == RESET {
          portStatus := portStatus - {ENABLE, LOW_SPEED, HIGH_SPEED};
          reTimeout := now + RESET_MS;
        }
        if POWER in portStatus {
          portStatus := portStatus + {wValue};
        }
      }
    }

    // dummy_hub_control
    method HubControl(op: Op, now: int, accessible: bool) returns (retval: int)
      requires op.ClearHubFeature? || op.SetHubFeature? || op.GetHubDescriptor? || op.GetHubStatus? || op.Unsupported?
            || op.ClearPortFeature? || op.SetPortFeature? || op.GetPortStatus?
      modifies this
      ensures View() == Apply(old(View()), op, now, accessible)
      ensures retval == Returns(old(View()), op, now, accessible)
    {
      hide LinkState, ResumeDone, ResetDone, SetFeature;
      if !accessible {
        return -ETIMEDOUT;
      }
      retval := 0;
      match op {
        case ClearPortFeature(wValue) =>
          if wValue == SUSPEND {
            if SUSPEND in portStatus {
              resuming, reTimeout := true, now + RESUME_MS;
            }
          } else {
            portStatus := portStatus - {wValue};
            SetLinkState();
          }
        case GetPortStatus(wIndex) =>
          if wIndex != 1 {
            retval := -EPIPE;
          }
          FinishResume(now);
          FinishReset(now);
          SetLinkState();
        case SetPortFeature(wValue) =>
          retval := SetPortFeature(wValue, now);
        case SetHubFeature =>
          retval := -EPIPE;
        case Unsupported =>
          retval := -EPIPE;
        case _ =>
      }
    }

    // dummy_wakeup
    method Wakeup(allowed: bool, now: int) returns (retval: int)
      modifies this`resuming, this`reTimeout
      ensures View() == Apply(old(View()), Op.Wakeup(allowed), now, true)
      ensures retval == Returns(old(View()), Op.Wakeup(allowed), now, true)
    {
      if !allowed { return -EINVAL; }
      if CONNECTION !in portStatus { return -ENOLINK; }
      if SUSPEND !in portStatus && rhState != RhSuspended { return -EIO; }
      resuming, reTimeout := true, now + RESUME_MS;
      return 0;
    }
  }
}
