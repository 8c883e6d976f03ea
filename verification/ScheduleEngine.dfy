// The scheduler on the driver's own object: dummy_hcd and the device flags it scans with.
// The locals of dummy_timer are fields here, so that the targets of its gotos can be methods.
// Every method is proved to do what `Schedule` specifies.

module ScheduleEngine {
  import opened Schedule

  class DummyHcd {
    // struct dummy_hcd
    var urbpList: seq<Urb>
    var nextFrame: int
    var udev: bool
    var timerPending: bool
    var running: bool
    var nextId: nat
    // struct dummy
    var dev: Device
    var alreadySeen: set<int>
    var setupStage: bool
    // locals of dummy_timer
    var total: int
    var pos: nat
    var given: seq<Done>
    var clock: nat
    ghost var moved: nat
    ghost var start: nat
    ghost var due: nat

    ghost function State(): Hcd
      reads this
    {
      Hcd(urbpList, nextFrame, udev, timerPending, running, nextId)
    }

    ghost function Scanning(): Frame
      reads this
    {
      Frame(State(), dev, alreadySeen, setupStage, total, pos, given, moved, clock, start, due)
    }

    // dummy_start
    constructor (dev: Device)
      ensures State() == Hcd([], -1, false, false, true, 0)
    {
      urbpList, nextFrame, udev, timerPending, running, nextId := [], -1, false, false, true, 0;
      this.dev, alreadySeen, setupStage := dev, {}, false;
      total, pos, given, clock, moved, start, due := 0, 0, [], 0, 0, 0, 0;
    }

    // dummy_urb_enqueue, once usb_hcd_link_urb_to_ep has accepted the URB
    method UrbEnqueue(address: nat, pipe: Pipe)
      modifies this`urbpList, this`nextFrame, this`udev, this`timerPending, this`nextId
      ensures State() == Apply(old(State()), Enqueue(address, pipe))
    {
      if !udev {
        udev := true;
      }
      urbpList := urbpList + [Urb(nextId, address, pipe, false, pipe == Control)];
      if nextFrame == -1 {
        nextFrame := nextId;
      }
      nextId := nextId + 1;
      if !timerPending {
        timerPending := true;
      }
    }

    // dummy_urb_dequeue; false is the refusal of usb_hcd_check_unlink_urb
    method UrbDequeue(id: nat) returns (ok: bool)
      modifies this`urbpList, this`timerPending
      ensures State() == Apply(old(State()), Unlink(id))
      ensures ok == exists u :: u in old(urbpList) && u.id == id && !u.unlinked
    {
      ok := exists u :: u in urbpList && u.id == id && !u.unlinked;
      if ok {
        urbpList := MarkUnlinked(urbpList, id);
        if !running && urbpList != [] {
          timerPending := true;
        }
      }
    }

    // dummy_bus_suspend
    method Suspend()
      modifies this`running
      ensures State() == Apply(old(State()), BusSuspend)
    {
      running := false;
    }

    // dummy_bus_resume, on accessible hardware
    method Resume()
      modifies this`running, this`timerPending
      ensures State() == Apply(old(State()), BusResume)
    {
      running := true;
      if urbpList != [] {
        timerPending := true;
      }
    }

    // What other threads do to the host side.
    method RunOps(ops: seq<HostOp>)
      modifies this`urbpList, this`nextFrame, this`udev, this`timerPending, this`running, this`nextId
      ensures State() == ApplyAll(old(State()), ops)
    {
      var i := 0;
      while i < |ops|
        invariant 0 <= i <= |ops|
        invariant ApplyAll(State(), ops[i..]) == ApplyAll(old(State()), ops)
        decreases |ops| - i
      {
        match ops[i] {
          case Enqueue(address, pipe) => UrbEnqueue(address, pipe);
          case Unlink(id) => var _ := UrbDequeue(id);
          case BusSuspend => Suspend();
          case BusResume => Resume();
        }
        i := i + 1;
      }
    }

    // The lock is dropped and taken again.
    method DropLock(env: Env)
      modifies this`urbpList, this`nextFrame, this`udev, this`timerPending, this`running, this`nextId,
               this`dev, this`clock
      ensures Scanning() == Interfere(old(Scanning()), env)
    {
      hide ApplyAll;
      RunOps(env(clock).ops);
      dev := env(clock).dev;
      clock := clock + 1;
    }

    method RemoveUrb(ep: int, status: int)
      requires pos < |urbpList| && due > 0
      modifies this`given, this`urbpList, this`alreadySeen, this`setupStage, this`due, this`pos
      ensures Scanning() == Remove(old(Scanning()), ep, status)
    {
      var urb := urbpList[pos];
      given := given + [Done(urb, status)];
      urbpList := urbpList[..pos] + urbpList[pos + 1..];
      if ep != -1 {
        alreadySeen := alreadySeen - {ep};
        if ep == 0 {
          setupStage := false;
        }
      }
      due := due - 1;
      pos := 0;
    }

    // return_urb
    method ReturnUrb(ep: int, status: int, env: Env)
      requires pos < |urbpList| && due > 0
      modifies this
      ensures Scanning() == GiveBack(old(Scanning()), ep, status, env)
    {
      hide Interfere;
      RemoveUrb(ep, status);
      DropLock(env);
    }

    // transfer, as far as the scheduler sees it
    method TransferUrb(limit: nat, env: Env)
      modifies this
      ensures Scanning() == Transferred(old(Scanning()), limit, env)
    {
      hide Interfere;
      var w := env(clock);
      var sent := if w.sent < limit then w.sent else limit;
      total := total - sent;
      moved := moved + sent;
      DropLock(env);
    }

    // treat_control_like_bulk and what follows the switch
    method ServeUrb(ep: int, limit: nat, env: Env)
      requires pos < |urbpList| && due > 0
      modifies this
      ensures Scanning() == Serve(old(Scanning()), ep, limit, env)
    {
      hide Transferred, GiveBack;
      var status := env(clock).status;
      TransferUrb(limit, env);
      if status == -EINPROGRESS {
        pos := pos + 1;
      } else {
        ReturnUrb(ep, status, env);
      }
    }

    // A control URB in its setup stage, with no stale request in the way
    method SetupUrb(env: Env)
      requires pos < |urbpList| && due > 0
      modifies this
      ensures Scanning() == Setup(old(Scanning()), env)
    {
      hide Interfere, GiveBack, Serve;
      setupStage := false;
      var w := env(clock);
      var value := w.control;
      if value > 0 {
        DropLock(env);
        value := w.setup;
        if value >= 0 {
          ServeUrb(0, MAX_DATA_STAGE, env);
          return;
        }
      }
      ReturnUrb(0, if value < 0 then -EPIPE else 0, env);
    }

    method MarkUrb(ep: int)
      requires pos < |urbpList|
      modifies this`alreadySeen, this`setupStage, this`urbpList
      ensures Scanning() == Mark(old(Scanning()), ep)
    {
      var urb := urbpList[pos];
      alreadySeen := alreadySeen + {ep};
      if ep == 0 && urb.isNew {
        setupStage := true;
        urbpList := urbpList[pos := urb.(isNew := false)];
      }
    }

    method FlushStaleRequest(env: Env)
      requires dev.ep0Queue > 0
      modifies this
      ensures Scanning() == FlushStale(old(Scanning()), env)
    {
      hide Interfere;
      var left := dev.ep0Queue - 1 + env(clock).requeued;
      alreadySeen := alreadySeen - {0};
      pos := 0;
      DropLock(env);
      dev := dev.(ep0Queue := left);
    }

    // The loop body of dummy_timer
    method VisitUrb(env: Env)
      requires !AtEnd(Scanning()) && due > 0
      modifies this
      ensures Scanning() == Visit(old(Scanning()), env)
    {
      hide GiveBack, Serve, Setup, Mark, FlushStale, Find, PeriodicBytes;
      var urb := urbpList[pos];
      if urb.unlinked {
        ReturnUrb(-1, -EINPROGRESS, env);
        return;
      }
      if !running || total <= 0 {
        pos := pos + 1;
        return;
      }
      var ep := Find(dev, urb.address);
      if ep == -1 {
        ReturnUrb(-1, -EPROTO, env);
        return;
      }
      if ep in alreadySeen {
        pos := pos + 1;
        return;
      }
      MarkUrb(ep);
      if dev.eps[ep].halted && !(ep == 0 && setupStage) {
        ReturnUrb(ep, -EPIPE, env);
      } else if ep == 0 && setupStage {
        if dev.ep0Queue > 0 {
          FlushStaleRequest(env);
        } else {
          SetupUrb(env);
        }
      } else {
        var limit := total;
        if urb.pipe == Isochronous || urb.pipe == Interrupt {
          var p := PeriodicBytes(dev.speed, dev.eps[ep]);
          limit := if limit < p then p else limit;
        }
        ServeUrb(ep, limit, env);
      }
    }

    method ResetLocals()
      modifies this`pos, this`given, this`clock, this`moved, this`start, this`due
      ensures pos == 0 && given == [] && clock == 0 && moved == 0 && start == nextId && due == |urbpList|
    {
      pos, given, clock := 0, [], 0;
      moved, start, due := 0, nextId, |urbpList|;
    }

    method BeginFrame()
      modifies this`nextFrame, this`alreadySeen, this`pos, this`given, this`clock, this`moved, this`start, this`due,
               this`total, this`timerPending
      ensures Scanning() == Begin(old(State()), old(dev), old(setupStage))
    {
      hide FrameBudget;
      timerPending := false;
      total := FrameBudget(dev.speed);
      nextFrame, alreadySeen := -1, {};
      ResetLocals();
    }

    // The scan, from label restart on
    method Scan(env: Env)
      requires FrameValid(Scanning()) && Ends(Scanning(), env)
      modifies this
      ensures Scanning() == Run(old(Scanning()), env)
    {
      hide Visit, Find, HcdValid, Run, Ends;
      while pos < |urbpList| && urbpList[pos].id != nextFrame
        invariant FrameValid(Scanning()) && Ends(Scanning(), env)
        invariant Run(Scanning(), env) == Run(old(Scanning()), env)
        decreases Length(Scanning(), env)
      {
        AtEndIffNoneDue(Scanning());
        RunStep(Scanning(), env);
        VisitUrb(env);
      }
      RunEnd(Scanning(), env);
    }

    // dummy_timer
    method Timer(env: Env)
      requires HcdValid(State()) && (udev ==> Ends(Begin(State(), dev, setupStage), env))
      modifies this
      ensures !old(udev) ==> State() == old(State()).(pending := false)
      ensures old(udev) ==>
        var r := Run(Begin(old(State()), old(dev), old(setupStage)), env);
        State() == Finish(r.hcd) && given == r.given && moved == r.moved
    {
      hide Run, Find, FrameBudget;
      if !udev {
        timerPending := false;
        return;
      }
      BeginFrame();
      Scan(env);
      if urbpList == [] {
        udev := false;
      } else if running {
        timerPending := true;
      }
    }
  }
}
