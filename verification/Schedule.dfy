// The frame scheduler: `dummy_timer`, `dummy_urb_enqueue` and `dummy_urb_dequeue`
// (patch/kernel/dummy_hcd.c:1236-1307, 1757-1981).
//
// The timer scans the URB list from the front, restarting after every giveback.  Whenever it
// drops the lock, host drivers may queue and unlink URBs, the bus may be suspended or
// resumed, and the gadget may change; `env(n)` is what happens during the n-th such window,
// and also supplies the outcome of the transfer or control request that opened it.

module Schedule {

  const DUMMY_ENDPOINTS := 31
  const USB_DIR_IN := 0x80
  const EINPROGRESS := 115
  const EPROTO := 71
  const EPIPE := 32
  const MAX_DATA_STAGE := 64 * 1024

  datatype Speed = Low | Full | High | Super | Unknown
  datatype Pipe = Isochronous | Interrupt | Control | Bulk

  // `id` is the order of enqueueing; `address` the endpoint number with the direction bit;
  // `isNew` the error_count mark of a control URB that has not been set up yet.
  datatype Urb = Urb(id: nat, address: nat, pipe: Pipe, unlinked: bool, isNew: bool)
  datatype Done = Done(urb: Urb, status: int)

  // ---- The host side ----

  // `fence` is next_frame_urbp, as an id, or -1.
  datatype Hcd = Hcd(list: seq<Urb>, fence: int, udev: bool, pending: bool, running: bool, nextId: nat)

  datatype HostOp = Enqueue(address: nat, pipe: Pipe) | Unlink(id: nat) | BusSuspend | BusResume

  function MarkUnlinked(list: seq<Urb>, id: nat): (r: seq<Urb>)
    ensures |r| == |list|
    ensures forall i :: 0 <= i < |r| ==> r[i] == if list[i].id == id then list[i].(unlinked := true) else list[i]
  {
    seq(|list|, i requires 0 <= i < |list| => if list[i].id == id then list[i].(unlinked := true) else list[i])
  }

  function Apply(h: Hcd, op: HostOp): (r: Hcd)
    ensures |r.list| >= |h.list|
  {
    match op
    case Enqueue(address, pipe) =>
      h.(list := h.list + [Urb(h.nextId, address, pipe, false, pipe == Control)],
         fence := if h.fence == -1 then h.nextId else h.fence,
         udev := true, pending := true, nextId := h.nextId + 1)
    case Unlink(id) =>
      if exists u :: u in h.list && u.id == id && !u.unlinked then
        h.(list := MarkUnlinked(h.list, id),
           pending := h.pending || !h.running)
      else h
    case BusSuspend => h.(running := false)
    case BusResume => h.(running := true, pending := h.pending || h.list != [])
  }

  function ApplyAll(h: Hcd, ops: seq<HostOp>): (r: Hcd)
    ensures |r.list| >= |h.list|
    decreases |ops|
  {
    if ops == [] then h else ApplyAll(Apply(h, ops[0]), ops[1..])
  }

  // ---- The device side ----

  datatype Endpoint = Endpoint(enabled: bool, address: nat, halted: bool, maxpacket: nat, mult: nat, pipe: Pipe)
  datatype Device = Device(active: bool, intsEnabled: bool, speed: Speed, eps: seq<Endpoint>, ep0Queue: nat)

  // find_endpoint; -1 is NULL.
  function Find(dev: Device, address: nat): (ep: int)
    ensures -1 <= ep < DUMMY_ENDPOINTS && ep < |dev.eps|
    ensures ep == 0 ==> address % USB_DIR_IN == 0
  {
    if !dev.active || !dev.intsEnabled || dev.eps == [] then -1
    else if address % USB_DIR_IN == 0 then 0
    else FindFrom(dev.eps, address, 1)
  }

  function FindFrom(eps: seq<Endpoint>, address: nat, i: nat): (ep: int)
    requires 1 <= i
    ensures ep == -1 || (i <= ep < DUMMY_ENDPOINTS && ep < |eps|)
    decreases |eps| - i
  {
    if i >= |eps| || i >= DUMMY_ENDPOINTS then -1
    else if eps[i].enabled && eps[i].address == address then i
    else FindFrom(eps, address, i + 1)
  }

  // The bytes one frame carries.
  function FrameBudget(speed: Speed): nat {
    match speed
    case Low => 8 * 12
    case Full => 64 * 19
    case High => 512 * 13 * 8
    case Super => 490000
    case Unknown => 0
  }

  // periodic_bytes
  function PeriodicBytes(speed: Speed, ep: Endpoint): nat {
    match speed
    case High => ep.maxpacket + ep.maxpacket * (ep.mult * 8)
    case Super =>
      (match ep.pipe
       case Isochronous => 3 * 16 * 1024 * 8
       case Interrupt => 3 * 1024 * 8
       case _ => ep.maxpacket)
    case _ => ep.maxpacket
  }

  // ---- One frame ----

  // What happens while the lock is dropped, and how the call that dropped it turned out:
  // bytes sent and status of a transfer, results of the control request handler and of the
  // gadget's setup callback, and the requests a stale giveback puts back on ep0.
  datatype Window = Window(ops: seq<HostOp>, dev: Device, sent: nat, status: int, control: int, setup: int, requeued: nat)

  type Env = nat -> Window

  // `start` and `due` are bookkeeping: the first id of this frame, and how many URBs queued
  // before it are still on the list.
  datatype Frame = Frame(hcd: Hcd, dev: Device, seen: set<int>, setupStage: bool, total: int, pos: nat,
                         given: seq<Done>, moved: nat, clock: nat, start: nat, due: nat)

  // The timer has fired; `setupStage` is what the last frame left on ep0.
  function Begin(h: Hcd, dev: Device, setupStage: bool): Frame {
    Frame(h.(fence := -1, pending := false), dev, {}, setupStage, FrameBudget(dev.speed), 0, [], 0, 0, h.nextId, |h.list|)
  }

  function Finish(h: Hcd): Hcd {
    if h.list == [] then h.(udev := false) else if h.running then h.(pending := true) else h
  }

  // The scan stops at the end of the list or at the first URB queued during the frame.
  predicate AtEnd(f: Frame) { f.pos >= |f.hcd.list| || f.hcd.list[f.pos].id == f.hcd.fence }

  function Interfere(f: Frame, env: Env): (g: Frame)
    ensures g == f.(hcd := g.hcd, dev := g.dev, clock := f.clock + 1)
    ensures |g.hcd.list| >= |f.hcd.list|
  {
    f.(hcd := ApplyAll(f.hcd, env(f.clock).ops), dev := env(f.clock).dev, clock := f.clock + 1)
  }

  // Takes the URB off the list; its endpoint (-1 for NULL) may be served again.
  function Remove(f: Frame, ep: int, status: int): Frame
    requires f.pos < |f.hcd.list| && f.due > 0
  {
    f.(hcd := f.hcd.(list := f.hcd.list[..f.pos] + f.hcd.list[f.pos + 1..]),
       seen := if ep == -1 then f.seen else f.seen - {ep},
       setupStage := f.setupStage && ep != 0,
       given := f.given + [Done(f.hcd.list[f.pos], status)],
       due := f.due - 1,
       pos := 0)
  }

  // The label return_urb.
  function GiveBack(f: Frame, ep: int, status: int, env: Env): Frame
    requires f.pos < |f.hcd.list| && f.due > 0
  {
    Interfere(Remove(f, ep, status), env)
  }

  // Marks the endpoint, and notices a new control URB.
  function Mark(f: Frame, ep: int): (g: Frame)
    requires f.pos < |f.hcd.list|
    ensures g == f.(seen := f.seen + {ep}, setupStage := g.setupStage, hcd := g.hcd) && |g.hcd.list| == |f.hcd.list|
  {
    var u := f.hcd.list[f.pos];
    if ep == 0 && u.isNew then
      f.(seen := f.seen + {ep}, setupStage := true,
         hcd := f.hcd.(list := f.hcd.list[f.pos := u.(isNew := false)]))
    else f.(seen := f.seen + {ep})
  }

  // A stale request on ep0 is given back and the scan starts over.
  function FlushStale(f: Frame, env: Env): Frame
    requires f.dev.ep0Queue > 0
  {
    var left := f.dev.ep0Queue - 1 + env(f.clock).requeued;
    var g := Interfere(f.(seen := f.seen - {0}, pos := 0), env);
    g.(dev := g.dev.(ep0Queue := left))
  }

  // `transfer`: never more is sent than the limit, as for `Endpoint.Transfer`.
  function Transferred(f: Frame, limit: nat, env: Env): (g: Frame)
    ensures g == f.(total := g.total, moved := g.moved, hcd := g.hcd, dev := g.dev, clock := f.clock + 1)
    ensures |g.hcd.list| >= |f.hcd.list|
  {
    var sent := if env(f.clock).sent < limit then env(f.clock).sent else limit;
    Interfere(f.(total := f.total - sent, moved := f.moved + sent), env)
  }

  // Serves the URB, and returns it unless it is still in progress.
  function Serve(f: Frame, ep: int, limit: nat, env: Env): Frame
    requires f.pos < |f.hcd.list| && f.due > 0
  {
    var g := Transferred(f, limit, env);
    if env(f.clock).status == -EINPROGRESS then g.(pos := f.pos + 1) else GiveBack(g, ep, env(f.clock).status, env)
  }

  // Control requests: handled by the driver itself (0), refused (< 0), or passed to the gadget.
  function Setup(f: Frame, env: Env): Frame
    requires f.pos < |f.hcd.list| && f.due > 0
  {
    var f := f.(setupStage := false);
    var w := env(f.clock);
    if w.control == 0 then GiveBack(f, 0, 0, env)
    else if w.control < 0 then GiveBack(f, 0, -EPIPE, env)
    else
      var g := Interfere(f, env);
      if w.setup >= 0 then Serve(g, 0, MAX_DATA_STAGE, env)
      else GiveBack(g, 0, -EPIPE, env)
  }

  function LimitFor(f: Frame, ep: int, pipe: Pipe): nat
    requires 0 < f.total && 0 <= ep < |f.dev.eps|
  {
    if pipe == Interrupt || pipe == Isochronous then
      var p := PeriodicBytes(f.dev.speed, f.dev.eps[ep]);
      if f.total < p then p else f.total
    else f.total
  }

  // The loop body of dummy_timer.
  function Visit(f: Frame, env: Env): Frame
    requires !AtEnd(f) && f.due > 0
  {
    var u := f.hcd.list[f.pos];
    if u.unlinked then GiveBack(f, -1, -EINPROGRESS, env)
    else if !f.hcd.running || f.total <= 0 then f.(pos := f.pos + 1)
    else
      var ep := Find(f.dev, u.address);
      if ep == -1 then GiveBack(f, -1, -EPROTO, env)
      else if ep in f.seen then f.(pos := f.pos + 1)
      else
        var g := Mark(f, ep);
        var settingUp := ep == 0 && g.setupStage;
        if f.dev.eps[ep].halted && !settingUp then GiveBack(g, ep, -EPIPE, env)
        else if settingUp && g.dev.ep0Queue > 0 then FlushStale(g, env)
        else if settingUp then Setup(g, env)
        else Serve(g, ep, LimitFor(g, ep, u.pipe), env)
  }

  // ---- What host operations keep ----

  predicate Sorted(list: seq<Urb>) { forall i, j :: 0 <= i < j < |list| ==> list[i].id < list[j].id }

  // URBs are numbered as they are queued, and new ones go to the tail.
  predicate HcdValid(h: Hcd) {
    && Sorted(h.list)
    && (forall i :: 0 <= i < |h.list| ==> h.list[i].id < h.nextId)
    && (h.list != [] ==> h.udev)
    && h.fence < h.nextId
  }

  predicate SameUrb(u: Urb, v: Urb) {
    u.id == v.id && u.address == v.address && u.pipe == v.pipe && (u.unlinked ==> v.unlinked)
  }

  // From h to h' URBs were only appended, and marked.
  predicate Grows(h: Hcd, h': Hcd) {
    && HcdValid(h')
    && |h'.list| >= |h.list| && h'.nextId - h.nextId == |h'.list| - |h.list|
    && (forall i :: 0 <= i < |h.list| ==> SameUrb(h.list[i], h'.list[i]))
    && (forall i :: |h.list| <= i < |h'.list| ==> h'.list[i].id == h.nextId + (i - |h.list|))
    && h'.fence == (if h.fence == -1 && |h'.list| > |h.list| then h.nextId else h.fence)
    && (h.pending ==> h'.pending) && (h.udev ==> h'.udev)
    && (|h'.list| > |h.list| ==> h'.pending)
  }

  lemma MarkedGrows(h: Hcd, h': Hcd)
    requires HcdValid(h) && |h'.list| == |h.list| && h'.nextId == h.nextId && h'.fence == h.fence
    requires (h.pending ==> h'.pending) && (h.udev ==> h'.udev)
    requires forall i :: 0 <= i < |h.list| ==> SameUrb(h.list[i], h'.list[i])
    ensures Grows(h, h')
  {
    forall i, j | 0 <= i < j < |h'.list|
      ensures h'.list[i].id < h'.list[j].id
    {
      assert SameUrb(h.list[i], h'.list[i]) && SameUrb(h.list[j], h'.list[j]);
    }
  }

  lemma ApplyGrows(h: Hcd, op: HostOp)
    requires HcdValid(h)
    ensures Grows(h, Apply(h, op))
  {
    if !op.Enqueue? {
      MarkedGrows(h, Apply(h, op));
    }
  }

  lemma GrowsOn(a: Hcd, b: Hcd, c: Hcd)
    requires HcdValid(a) && Grows(a, b) && Grows(b, c)
    ensures Grows(a, c)
  {
    forall i | 0 <= i < |a.list|
      ensures SameUrb(a.list[i], c.list[i])
    {
      assert SameUrb(a.list[i], b.list[i]) && SameUrb(b.list[i], c.list[i]);
    }
    forall i | |a.list| <= i < |c.list|
      ensures c.list[i].id == a.nextId + (i - |a.list|)
    {
      if i < |b.list| {
        assert SameUrb(b.list[i], c.list[i]);
      }
    }
  }

  lemma {:induction false} ApplyAllGrows(h: Hcd, ops: seq<HostOp>)
    requires HcdValid(h)
    ensures Grows(h, ApplyAll(h, ops))
    decreases |ops|
  {
    if ops != [] {
      ApplyGrows(h, ops[0]);
      ApplyAllGrows(Apply(h, ops[0]), ops[1..]);
      GrowsOn(h, Apply(h, ops[0]), ApplyAll(h, ops));
    }
  }

  // ---- A frame ends ----

  // The URBs queued before the frame are the first `due` ones; everything behind them has a
  // later id and is fenced off.
  predicate FrameValid(f: Frame) {
    && HcdValid(f.hcd)
    && f.pos <= f.due <= |f.hcd.list|
    && f.hcd.nextId - f.start == |f.hcd.list| - f.due
    && (forall i :: 0 <= i < f.due ==> f.hcd.list[i].id < f.start)
    && (forall i :: f.due <= i < |f.hcd.list| ==> f.hcd.list[i].id == f.start + (i - f.due))
    && f.hcd.fence == if |f.hcd.list| == f.due then -1 else f.start
  }

  lemma AtEndIffNoneDue(f: Frame)
    requires FrameValid(f)
    ensures AtEnd(f) <==> f.pos == f.due
  {
  }

  lemma SameList(f: Frame, g: Frame)
    requires FrameValid(f)
    requires g.hcd == f.hcd && g.start == f.start && g.due == f.due && (g.pos == f.pos || g.pos <= f.due)
    ensures FrameValid(g)
  {
  }

  lemma InterfereKeeps(f: Frame, env: Env)
    requires FrameValid(f)
    ensures FrameValid(Interfere(f, env)) && Grows(f.hcd, Interfere(f, env).hcd)
  {
    ApplyAllGrows(f.hcd, env(f.clock).ops);
    var h, h' := f.hcd, Interfere(f, env).hcd;
    forall i | 0 <= i < |h.list|
      ensures h'.list[i].id == h.list[i].id
    {
      assert SameUrb(h.list[i], h'.list[i]);
    }
  }

  lemma RemoveKeeps(f: Frame, ep: int, status: int)
    requires FrameValid(f) && f.pos < f.due
    ensures FrameValid(Remove(f, ep, status))
  {
    var list, list' := f.hcd.list, Remove(f, ep, status).hcd.list;
    forall i | 0 <= i < |list'|
      ensures list'[i] == list[if i < f.pos then i else i + 1]
    {
    }
    forall i, j | 0 <= i < j < |list'|
      ensures list'[i].id < list'[j].id
    {
      assert list[if i < f.pos then i else i + 1].id < list[if j < f.pos then j else j + 1].id;
    }
  }

  lemma GiveBackKeeps(f: Frame, ep: int, status: int, env: Env)
    requires FrameValid(f) && f.pos < f.due
    ensures var g := GiveBack(f, ep, status, env);
            FrameValid(g) && g.due == f.due - 1 && g.clock == f.clock + 1
  {
    hide HcdValid, Grows;
    RemoveKeeps(f, ep, status);
    InterfereKeeps(Remove(f, ep, status), env);
  }

  predicate IsEndpoint(i: int) { 0 <= i < DUMMY_ENDPOINTS }

  ghost function Unseen(f: Frame): set<int> {
    (set i: int | 0 <= i < DUMMY_ENDPOINTS && IsEndpoint(i)) - f.seen
  }

  // Progress of one step: fewer URBs due, or fewer endpoints to serve, or fewer stale requests, or
  // further along the list.
  ghost predicate Progress(f: Frame, g: Frame) {
    || g.due < f.due
    || (g.due == f.due && Unseen(g) < Unseen(f))
    || (g.due == f.due && Unseen(g) == Unseen(f) && g.dev.ep0Queue < f.dev.ep0Queue)
    || (g.due == f.due && Unseen(g) == Unseen(f) && g.dev.ep0Queue == f.dev.ep0Queue && g.pos > f.pos)
  }

  // The next step gives back a stale request on ep0.
  predicate Flushes(f: Frame) {
    && !AtEnd(f) && f.hcd.running && f.total > 0 && f.dev.ep0Queue > 0 && 0 !in f.seen
    && var u := f.hcd.list[f.pos];
       !u.unlinked && Find(f.dev, u.address) == 0 && (f.setupStage || u.isNew)
  }

  // And its handler puts requests back.
  predicate PutsBack(f: Frame, env: Env) { Flushes(f) && env(f.clock).requeued > 0 }

  lemma TransferredKeeps(f: Frame, limit: nat, env: Env)
    requires FrameValid(f)
    ensures FrameValid(Transferred(f, limit, env)) && Grows(f.hcd, Transferred(f, limit, env).hcd)
  {
    hide FrameValid, HcdValid, Grows, Interfere;
    var sent := if env(f.clock).sent < limit then env(f.clock).sent else limit;
    var f' := f.(total := f.total - sent, moved := f.moved + sent);
    SameList(f, f');
    InterfereKeeps(f', env);
  }

  lemma ServeKeeps(f: Frame, ep: int, limit: nat, env: Env)
    requires FrameValid(f) && f.pos < f.due
    ensures var g := Serve(f, ep, limit, env);
            FrameValid(g) && g.clock > f.clock && (g.due < f.due || (g.due == f.due && g.seen == f.seen))
  {
    hide HcdValid, Grows, Transferred, GiveBack;
    TransferredKeeps(f, limit, env);
    var g := Transferred(f, limit, env);
    if env(f.clock).status == -EINPROGRESS {
      SameList(g, g.(pos := f.pos + 1));
    } else {
      GiveBackKeeps(g, ep, env(f.clock).status, env);
    }
  }

  lemma SetupKeeps(f: Frame, env: Env)
    requires FrameValid(f) && f.pos < f.due
    ensures var g := Setup(f, env);
            FrameValid(g) && g.clock > f.clock && (g.due < f.due || (g.due == f.due && g.seen == f.seen))
  {
    hide HcdValid, Grows;
    var f := f.(setupStage := false);
    var w := env(f.clock);
    if w.control <= 0 {
      GiveBackKeeps(f, 0, if w.control == 0 then 0 else -EPIPE, env);
    } else {
      InterfereKeeps(f, env);
      if w.setup >= 0 {
        ServeKeeps(Interfere(f, env), 0, MAX_DATA_STAGE, env);
      } else {
        GiveBackKeeps(Interfere(f, env), 0, -EPIPE, env);
      }
    }
  }

  lemma MarkKeeps(f: Frame, ep: int)
    requires FrameValid(f) && f.pos < f.due
    ensures var g := Mark(f, ep);
            FrameValid(g) && Grows(f.hcd, g.hcd)
  {
    var list, list' := f.hcd.list, Mark(f, ep).hcd.list;
    forall i | 0 <= i < |list|
      ensures SameUrb(list[i], list'[i])
    {
    }
    MarkedGrows(f.hcd, Mark(f, ep).hcd);
  }

  lemma FlushStaleKeeps(f: Frame, env: Env)
    requires FrameValid(f) && f.dev.ep0Queue > 0
    ensures var g := FlushStale(f, env);
            && FrameValid(g) && g.due == f.due && g.seen == f.seen - {0} && g.clock == f.clock + 1
            && (env(f.clock).requeued == 0 ==> g.dev.ep0Queue < f.dev.ep0Queue)
  {
    InterfereKeeps(f.(seen := f.seen - {0}, pos := 0), env);
  }

  // A step keeps the frame, and progresses unless it puts stale requests back.
  lemma VisitKeeps(f: Frame, env: Env)
    requires FrameValid(f) && f.pos < f.due && !AtEnd(f)
    ensures var g := Visit(f, env);
            && FrameValid(g) && g.clock >= f.clock
            && (Progress(f, g) || (PutsBack(f, env) && g.clock > f.clock))
  {
    hide HcdValid, Grows, GiveBack, FlushStale, Setup, Serve, Mark;
    var u := f.hcd.list[f.pos];
    var ep := Find(f.dev, u.address);
    if u.unlinked {
      GiveBackKeeps(f, -1, -EINPROGRESS, env);
    } else if !f.hcd.running || f.total <= 0 {
    } else if ep == -1 {
      GiveBackKeeps(f, -1, -EPROTO, env);
    } else if ep in f.seen {
    } else {
      var g := Mark(f, ep);
      var settingUp := ep == 0 && g.setupStage;
      MarkKeeps(f, ep);
      assert Unseen(g) < Unseen(f) by { assert IsEndpoint(ep) && ep in Unseen(f) && ep !in Unseen(g); }
      if f.dev.eps[ep].halted && !settingUp {
        GiveBackKeeps(g, ep, -EPIPE, env);
      } else if settingUp && g.dev.ep0Queue > 0 {
        FlushStaleKeeps(g, env);
        assert FlushStale(g, env).seen == f.seen;
        MarkNew(f);
      } else if settingUp {
        SetupKeeps(g, env);
      } else {
        ServeKeeps(g, ep, LimitFor(g, ep, u.pipe), env);
      }
    }
  }

  lemma MarkNew(f: Frame)
    requires f.pos < |f.hcd.list|
    ensures Mark(f, 0).setupStage ==> f.setupStage || f.hcd.list[f.pos].isNew
  {
  }

  // n turns of the scan, as long as it lasts.
  function Turns(f: Frame, env: Env, n: nat): Frame
    decreases n
  {
    if n == 0 || AtEnd(f) || f.due == 0 then f else Turns(Visit(f, env), env, n - 1)
  }

  ghost predicate EndsBy(f: Frame, env: Env, n: nat) { AtEnd(Turns(f, env, n)) }

  ghost predicate Ends(f: Frame, env: Env) { exists n :: EndsBy(f, env, n) }

  lemma {:induction false} TurnsOn(f: Frame, env: Env, m: nat, n: nat)
    ensures Turns(f, env, m + n) == Turns(Turns(f, env, m), env, n)
    decreases m
  {
    hide AtEnd, Visit;
    if m > 0 && !AtEnd(f) && f.due != 0 {
      TurnsOn(Visit(f, env), env, m - 1, n);
    }
  }

  lemma {:induction false} TurnsKeep(f: Frame, env: Env, n: nat)
    requires FrameValid(f)
    ensures FrameValid(Turns(f, env, n))
    decreases n
  {
    hide Visit, FrameValid;
    AtEndIffNoneDue(f);
    if n > 0 && !AtEnd(f) && f.due != 0 {
      ValidPos(f);
      VisitKeeps(f, env);
      TurnsKeep(Visit(f, env), env, n - 1);
    }
  }

  lemma ValidPos(f: Frame)
    requires FrameValid(f)
    ensures f.pos <= f.due <= |f.hcd.list|
  {
  }

  // Turn n puts stale requests back.
  predicate PutsBackAt(f: Frame, env: Env, n: nat) { PutsBack(Turns(f, env, n), env) }

  ghost predicate SettlesBy(f: Frame, env: Env, k: nat) { forall n: nat | n >= k :: !PutsBackAt(f, env, n) }

  // A frame one turn later.
  lemma NextTurn(f: Frame, env: Env)
    requires !AtEnd(f) && f.due > 0
    ensures forall n: nat :: PutsBackAt(Visit(f, env), env, n) <==> PutsBackAt(f, env, n + 1)
    ensures forall n: nat :: EndsBy(Visit(f, env), env, n) <==> EndsBy(f, env, n + 1)
  {
    hide Visit, AtEnd, PutsBack;
    forall n: nat
      ensures Turns(Visit(f, env), env, n) == Turns(f, env, n + 1)
    {
    }
  }

  lemma {:induction false} SettledEnds(f: Frame, env: Env)
    requires FrameValid(f) && SettlesBy(f, env, 0)
    ensures Ends(f, env)
    decreases f.due, Unseen(f), f.dev.ep0Queue, f.due - f.pos
  {
    hide Visit, HcdValid, PutsBack;
    AtEndIffNoneDue(f);
    assert !PutsBackAt(f, env, 0);
    if AtEnd(f) {
      assert EndsBy(f, env, 0);
    } else {
      var g := Visit(f, env);
      VisitKeeps(f, env);
      NextTurn(f, env);
      SettledEnds(g, env);
      var n: nat :| EndsBy(g, env, n);
      assert EndsBy(f, env, n + 1);
    }
  }

  // The scan ends exactly if stale requests of ep0 are put back only finitely often.  Nothing else
  // that can happen while it runs keeps it going, and there is no bound on that.
  lemma EndsIff(f: Frame, env: Env)
    requires FrameValid(f)
    ensures Ends(f, env) <==> exists k :: SettlesBy(f, env, k)
  {
    hide FrameValid, Visit, Turns, AtEnd, PutsBack;
    if n: nat :| EndsBy(f, env, n) {
      forall m: nat | m >= n ensures !PutsBackAt(f, env, m) {
        TurnsOn(f, env, n, m - n);
        TurnsEnd(Turns(f, env, n), env, m - n);
      }
      assert SettlesBy(f, env, n);
    }
    if k: nat :| SettlesBy(f, env, k) {
      var g := Turns(f, env, k);
      TurnsKeep(f, env, k);
      forall n: nat ensures !PutsBackAt(g, env, n) {
        assert !PutsBackAt(f, env, k + n);
        TurnsOn(f, env, k, n);
      }
      SettledEnds(g, env);
      var n: nat :| EndsBy(g, env, n);
      TurnsOn(f, env, k, n);
      assert EndsBy(f, env, k + n);
    }
  }

  lemma TurnsEnd(f: Frame, env: Env, n: nat)
    requires AtEnd(f)
    ensures Turns(f, env, n) == f && !PutsBack(f, env)
  {
  }

  // ---- Handlers that requeue finitely often ----

  ghost predicate CalmFrom(env: Env, k: nat) { forall n | n >= k :: env(n).requeued == 0 }

  ghost predicate Calm(env: Env) { exists k :: CalmFrom(env, k) }

  lemma {:induction false} CalmSettles(f: Frame, env: Env, k: nat)
    requires FrameValid(f) && CalmFrom(env, k)
    ensures Ends(f, env)
    decreases if f.clock < k then k - f.clock else 0, f.due, Unseen(f), f.dev.ep0Queue, f.due - f.pos
  {
    hide Visit, HcdValid;
    AtEndIffNoneDue(f);
    if AtEnd(f) {
      assert EndsBy(f, env, 0);
    } else {
      VisitKeeps(f, env);
      CalmSettles(Visit(f, env), env, k);
      NextTurn(f, env);
      var n: nat :| EndsBy(Visit(f, env), env, n);
      assert EndsBy(f, env, n + 1);
    }
  }

  // Then every frame ends.
  lemma CalmEnds(f: Frame, env: Env)
    requires FrameValid(f) && Calm(env)
    ensures Ends(f, env)
  {
    var k: nat :| CalmFrom(env, k);
    CalmSettles(f, env, k);
  }

  // ---- The whole scan, from label restart on ----

  // The number of its turns.
  ghost function Length(f: Frame, env: Env): (n: nat)
    requires Ends(f, env)
    ensures EndsBy(f, env, n) && forall m: nat | m < n :: !EndsBy(f, env, m)
  {
    var n: nat :| EndsBy(f, env, n);
    FirstEnd(f, env, n)
  }

  ghost function FirstEnd(f: Frame, env: Env, n: nat): (m: nat)
    requires EndsBy(f, env, n)
    ensures EndsBy(f, env, m) && forall k: nat | k < m :: !EndsBy(f, env, k)
  {
    if k: nat :| k < n && EndsBy(f, env, k) then FirstEnd(f, env, k) else n
  }

  ghost function Run(f: Frame, env: Env): Frame
    requires Ends(f, env)
  {
    Turns(f, env, Length(f, env))
  }

  lemma RunStep(f: Frame, env: Env)
    requires FrameValid(f) && Ends(f, env) && f.pos < f.due
    ensures !AtEnd(f) && FrameValid(Visit(f, env)) && Ends(Visit(f, env), env)
    ensures Length(Visit(f, env), env) == Length(f, env) - 1 && Run(f, env) == Run(Visit(f, env), env)
  {
    hide Visit, FrameValid, Find;
    AtEndIffNoneDue(f);
    VisitKeeps(f, env);
    var g, n := Visit(f, env), Length(f, env);
    assert n > 0;
    NextTurn(f, env);
    assert EndsBy(g, env, n - 1);
    var l := Length(g, env);
    assert EndsBy(f, env, l + 1);
    assert l == n - 1;
  }

  lemma RunEnd(f: Frame, env: Env)
    requires Ends(f, env) && AtEnd(f)
    ensures Run(f, env) == f
  {
  }
}
