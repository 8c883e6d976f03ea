// What becomes of a URB when the scan of the timer comes to it, in terms of the frame and of what
// happens in its windows only (patch/kernel/dummy_hcd.c:1550-1576, 1775-1793, 1809-1970).

module ScheduleOutcome {
  import opened Schedule
  import opened ScheduleProofs

  // ---- Which endpoint ----

  // Both directions of address 0 are endpoint 0; another address is that of the first enabled
  // endpoint with it, of the first 31; on an inactive link, or while the driver is not to be
  // called, there is none.
  lemma FindIs(dev: Device, a: nat)
    ensures var ep := Find(dev, a);
            && (!dev.active || !dev.intsEnabled || dev.eps == [] ==> ep == -1)
            && (dev.active && dev.intsEnabled && dev.eps != [] ==>
                  && (a % 128 == 0 ==> ep == 0)
                  && (a % 128 != 0 && ep == -1 ==>
                        forall i | 1 <= i < 31 && i < |dev.eps| :: !(dev.eps[i].enabled && dev.eps[i].address == a))
                  && (a % 128 != 0 && ep != -1 ==>
                        && 1 <= ep < 31 && dev.eps[ep].enabled && dev.eps[ep].address == a
                        && forall i | 1 <= i < ep :: !(dev.eps[i].enabled && dev.eps[i].address == a)))
  {
    if dev.active && dev.intsEnabled && dev.eps != [] && a % 128 != 0 {
      FindFromIs(dev.eps, a, 1);
    }
  }

  lemma {:induction false} FindFromIs(eps: seq<Endpoint>, a: nat, k: nat)
    requires 1 <= k
    ensures var ep := FindFrom(eps, a, k);
            if ep == -1 then forall i | k <= i < 31 && i < |eps| :: !(eps[i].enabled && eps[i].address == a)
            else && k <= ep < 31 && ep < |eps| && eps[ep].enabled && eps[ep].address == a
                 && forall i | k <= i < ep :: !(eps[i].enabled && eps[i].address == a)
    decreases |eps| - k
  {
    if k < |eps| && k < 31 && !(eps[k].enabled && eps[k].address == a) {
      FindFromIs(eps, a, k + 1);
    }
  }

  // ---- How much ----

  // A full frame: 12 packets of 8 bytes, 19 of 64, in each of 8 microframes 13 of 512, or 490000
  // bytes; nothing before the speed is known.
  lemma FrameBytes(h: Hcd, dev: Device, setupStage: bool)
    ensures var total := Begin(h, dev, setupStage).total;
            && (dev.speed == Low ==> total == 96) && (dev.speed == Full ==> total == 1216)
            && (dev.speed == High ==> total == 53248) && (dev.speed == Super ==> total == 490000)
            && (dev.speed == Unknown ==> total == 0)
  {
  }

  // The share of a periodic transfer: at high speed `mult` more packets in each of 8 microframes
  // and one; at super speed 16 bursts of 3 KB for an isochronous endpoint, one for an interrupt
  // endpoint, in each.
  lemma PeriodicShare(ep: Endpoint)
    ensures PeriodicBytes(High, ep) == ep.maxpacket * (1 + 8 * ep.mult)
    ensures ep.pipe == Isochronous ==> PeriodicBytes(Super, ep) == 393216
    ensures ep.pipe == Interrupt ==> PeriodicBytes(Super, ep) == 24576
    ensures PeriodicBytes(Full, ep) == PeriodicBytes(Low, ep) == ep.maxpacket
  {
    assert ep.maxpacket * (1 + 8 * ep.mult) == ep.maxpacket + ep.maxpacket * (8 * ep.mult);
  }

  // ---- One URB ----

  // The URB under the scan comes back with this status.
  predicate Back(f: Frame, g: Frame, status: int)
    requires f.pos < |f.hcd.list|
  {
    && |g.given| == |f.given| + 1 && f.given <= g.given
    && g.given[|f.given|].status == status && SameUrb(f.hcd.list[f.pos], g.given[|f.given|].urb)
    && g.pos == 0 && g.due == f.due - 1
  }

  // It stays, and the scan goes on at pos.
  predicate Stays(f: Frame, g: Frame, pos: nat) { g.given == f.given && g.due == f.due && g.pos == pos }

  // The transfer of the n-th window moves at most `limit` bytes, and ends the URB unless its status
  // is still -EINPROGRESS.
  predicate Carries(f: Frame, g: Frame, env: Env, n: nat, limit: int)
    requires f.pos < |f.hcd.list|
  {
    var w := env(n);
    && g.moved == f.moved + (if w.sent < limit then w.sent else limit)
    && if w.status == -115 then Stays(f, g, f.pos + 1) else Back(f, g, w.status)
  }

  // The endpoint of a URB that can be served in this frame.
  predicate Served(f: Frame, u: Urb, ep: int) {
    !u.unlinked && f.hcd.running && f.total > 0 && Find(f.dev, u.address) == ep && ep !in f.seen
  }

  // On endpoint 0, while a control request is to be set up.
  predicate SetsUp(f: Frame, u: Urb) { Served(f, u, 0) && (f.setupStage || u.isNew) }

  predicate Periodic(u: Urb) { u.pipe == Interrupt || u.pipe == Isochronous }

  lemma GivenBackIs(f: Frame, ep: int, status: int, env: Env)
    requires FrameValid(f) && f.pos < f.due
    ensures var g := GiveBack(f, ep, status, env);
            Back(f, g, status) && g.moved == f.moved && g.clock == f.clock + 1
  {
    hide HcdValid, ApplyAll;
    GiveBackShape(f, ep, status, env);
  }

  lemma MarkIs(f: Frame, ep: int)
    requires f.pos < |f.hcd.list|
    ensures var g := Mark(f, ep);
            && g.setupStage == (f.setupStage || (ep == 0 && f.hcd.list[f.pos].isNew))
            && g.hcd.list[f.pos] == f.hcd.list[f.pos].(isNew := g.hcd.list[f.pos].isNew)
  {
  }

  lemma BackThrough(f: Frame, m: Frame, g: Frame, status: int)
    requires f.pos < |f.hcd.list| && m.pos == f.pos < |m.hcd.list| && SameUrb(f.hcd.list[f.pos], m.hcd.list[f.pos])
    requires m.given == f.given && m.due == f.due && Back(m, g, status)
    ensures Back(f, g, status)
  {
  }

  lemma TransferCarries(f: Frame, ep: int, limit: nat, env: Env)
    requires FrameValid(f) && f.pos < f.due
    ensures Carries(f, Serve(f, ep, limit, env), env, f.clock, limit)
  {
    hide HcdValid, ApplyAll, Grows, GiveBack;
    TransferredKeeps(f, limit, env);
    var m := Transferred(f, limit, env);
    assert SameUrb(f.hcd.list[f.pos], m.hcd.list[f.pos]) by { GrownAt(f.hcd, m.hcd, f.pos); }
    if env(f.clock).status != -115 {
      GivenBackIs(m, ep, env(f.clock).status, env);
      BackThrough(f, m, GiveBack(m, ep, env(f.clock).status, env), env(f.clock).status);
    }
  }

  lemma GrownAt(h: Hcd, h': Hcd, i: nat)
    requires Grows(h, h') && i < |h.list|
    ensures i < |h'.list| && SameUrb(h.list[i], h'.list[i])
  {
  }

  // A control request: handled by the driver (control == 0), refused by it (control < 0), or passed
  // on, and then refused by the gadget (setup < 0) or carried out.
  lemma SetupIs(f: Frame, env: Env)
    requires FrameValid(f) && f.pos < f.due
    ensures var g, w := Setup(f, env), env(f.clock);
            && (w.control == 0 ==> Back(f, g, 0) && g.moved == f.moved)
            && (w.control < 0 ==> Back(f, g, -32) && g.moved == f.moved)
            && (w.control > 0 && w.setup < 0 ==> Back(f, g, -32) && g.moved == f.moved)
            && (w.control > 0 && w.setup >= 0 ==> Carries(f, g, env, f.clock + 1, 65536))
  {
    hide HcdValid, ApplyAll, Grows, GiveBack, Serve;
    var m, w := f.(setupStage := false), env(f.clock);
    if w.control <= 0 {
      GivenBackIs(m, 0, if w.control == 0 then 0 else -32, env);
    } else {
      InterfereKeeps(m, env);
      var k := Interfere(m, env);
      GrownAt(m.hcd, k.hcd, f.pos);
      if w.setup >= 0 {
        TransferCarries(k, 0, MAX_DATA_STAGE, env);
      } else {
        GivenBackIs(k, 0, -32, env);
      }
    }
  }

  // What one turn does, case by case.
  lemma TurnIs(f: Frame, env: Env)
    requires FrameValid(f) && f.pos < f.due
    ensures !AtEnd(f)
    ensures var g, u, w := Visit(f, env), f.hcd.list[f.pos], env(f.clock);
            var ep := Find(f.dev, u.address);
            // unlinked: -EINPROGRESS, whatever the state of hub and device
            && (u.unlinked ==> Back(f, g, -115) && g.moved == f.moved)
            // a stopped hub, no budget left, or an endpoint that has had its turn: passed over
            && (!u.unlinked && (!f.hcd.running || f.total <= 0 || (ep != -1 && ep in f.seen)) ==>
                  Stays(f, g, f.pos + 1) && g.moved == f.moved)
            // nobody there: -EPROTO
            && (!u.unlinked && f.hcd.running && f.total > 0 && ep == -1 ==> Back(f, g, -71) && g.moved == f.moved)
            // halted: -EPIPE
            && (ep != -1 && Served(f, u, ep) && f.dev.eps[ep].halted && !SetsUp(f, u) ==>
                  Back(f, g, -32) && g.moved == f.moved)
            // to be set up behind a stale request: that request goes first
            && (SetsUp(f, u) && f.dev.ep0Queue > 0 ==>
                  && Stays(f, g, 0) && g.moved == f.moved && g.setupStage
                  && g.dev.ep0Queue == f.dev.ep0Queue - 1 + w.requeued)
            // to be set up: the driver's or the gadget's word, or a transfer of at most 64 KB
            && (SetsUp(f, u) && f.dev.ep0Queue == 0 ==>
                  && (w.control == 0 ==> Back(f, g, 0) && g.moved == f.moved)
                  && (w.control < 0 ==> Back(f, g, -32) && g.moved == f.moved)
                  && (w.control > 0 && w.setup < 0 ==> Back(f, g, -32) && g.moved == f.moved)
                  && (w.control > 0 && w.setup >= 0 ==> Carries(f, g, env, f.clock + 1, 65536)))
            // otherwise a transfer, of what is left of the frame, or of its share if it is periodic
            && (ep != -1 && Served(f, u, ep) && !f.dev.eps[ep].halted && !SetsUp(f, u) ==>
                  var share := if Periodic(u) then PeriodicBytes(f.dev.speed, f.dev.eps[ep]) else 0;
                  Carries(f, g, env, f.clock, if share > f.total then share else f.total))
  {
    hide HcdValid, Find, ApplyAll, Grows, GiveBack, FlushStale, Setup, Serve, Mark, PeriodicBytes, Carries;
    AtEndIffNoneDue(f);
    var u := f.hcd.list[f.pos];
    var ep := Find(f.dev, u.address);
    if u.unlinked {
      GivenBackIs(f, -1, -115, env);
    } else if f.hcd.running && f.total > 0 {
      if ep == -1 {
        GivenBackIs(f, -1, -71, env);
      } else if ep !in f.seen {
        ServedIs(f, ep, env);
      }
    }
  }

  lemma ServedIs(f: Frame, ep: int, env: Env)
    requires FrameValid(f) && f.pos < f.due && !AtEnd(f)
    requires ep != -1 && Served(f, f.hcd.list[f.pos], ep)
    ensures var g, u, w := Visit(f, env), f.hcd.list[f.pos], env(f.clock);
            && (f.dev.eps[ep].halted && !SetsUp(f, u) ==> Back(f, g, -32) && g.moved == f.moved)
            && (SetsUp(f, u) && f.dev.ep0Queue > 0 ==>
                  && Stays(f, g, 0) && g.moved == f.moved && g.setupStage
                  && g.dev.ep0Queue == f.dev.ep0Queue - 1 + w.requeued)
            && (SetsUp(f, u) && f.dev.ep0Queue == 0 ==>
                  && (w.control == 0 ==> Back(f, g, 0) && g.moved == f.moved)
                  && (w.control < 0 ==> Back(f, g, -32) && g.moved == f.moved)
                  && (w.control > 0 && w.setup < 0 ==> Back(f, g, -32) && g.moved == f.moved)
                  && (w.control > 0 && w.setup >= 0 ==> Carries(f, g, env, f.clock + 1, 65536)))
            && (!f.dev.eps[ep].halted && !SetsUp(f, u) ==>
                  var share := if Periodic(u) then PeriodicBytes(f.dev.speed, f.dev.eps[ep]) else 0;
                  Carries(f, g, env, f.clock, if share > f.total then share else f.total))
  {
    hide HcdValid, Find, ApplyAll, Grows, GiveBack, Setup, Serve, Mark, PeriodicBytes;
    var u := f.hcd.list[f.pos];
    var m := Mark(f, ep);
    MarkKeeps(f, ep);
    MarkIs(f, ep);
    var settingUp := ep == 0 && m.setupStage;
    assert settingUp <==> SetsUp(f, u);
    if f.dev.eps[ep].halted && !settingUp {
      GivenBackIs(m, ep, -32, env);
      BackThrough(f, m, Visit(f, env), -32);
    } else if settingUp && m.dev.ep0Queue > 0 {
      assert Visit(f, env) == FlushStale(m, env);
    } else if settingUp {
      SetupIs(m, env);
    } else {
      TransferCarries(m, ep, LimitFor(m, ep, u.pipe), env);
    }
  }

  // An endpoint stays marked only while the URB it served is still in progress; a setup stage lasts
  // until its control request is dealt with, so only stale requests before it leave it standing.
  lemma TurnMarks(f: Frame, env: Env)
    requires FrameValid(f) && f.pos < f.due
    ensures !AtEnd(f)
    ensures var g, u := Visit(f, env), f.hcd.list[f.pos];
            var ep := Find(f.dev, u.address);
            var due := ep != -1 && Served(f, u, ep);
            && g.seen == (if due && g.pos == f.pos + 1 then f.seen + {ep} else f.seen)
            && g.setupStage == (if due && ep == 0 then SetsUp(f, u) && f.dev.ep0Queue > 0 else f.setupStage)
  {
    hide HcdValid, Find, ApplyAll, Grows, Setup, Serve, Mark, LimitFor;
    AtEndIffNoneDue(f);
    var u := f.hcd.list[f.pos];
    var ep := Find(f.dev, u.address);
    if ep != -1 && Served(f, u, ep) {
      var m := Mark(f, ep);
      MarkKeeps(f, ep);
      MarkIs(f, ep);
      assert m.seen - {ep} == f.seen;
      var settingUp := ep == 0 && m.setupStage;
      if settingUp && m.dev.ep0Queue == 0 {
        SetupMarks(m, env);
      } else if !settingUp && !f.dev.eps[ep].halted {
        ServeMarks(m, ep, LimitFor(m, ep, u.pipe), env);
      }
    }
  }

  lemma ServeMarks(f: Frame, ep: int, limit: nat, env: Env)
    requires f.pos < |f.hcd.list| && f.due > 0 && ep != -1
    ensures var g := Serve(f, ep, limit, env);
            && (g.pos == f.pos + 1 ==> g.seen == f.seen && g.setupStage == f.setupStage)
            && (g.pos != f.pos + 1 ==> g.pos == 0 && g.seen == f.seen - {ep} && g.setupStage == (f.setupStage && ep != 0))
  {
    hide ApplyAll;
  }

  lemma SetupMarks(f: Frame, env: Env)
    requires f.pos < |f.hcd.list| && f.due > 0
    ensures var g := Setup(f, env);
            && !g.setupStage
            && (g.pos == f.pos + 1 ==> g.seen == f.seen)
            && (g.pos != f.pos + 1 ==> g.pos == 0 && g.seen == f.seen - {0})
  {
    hide ApplyAll, Serve;
    if env(f.clock).control > 0 && env(f.clock).setup >= 0 {
      ServeMarks(Interfere(f.(setupStage := false), env), 0, MAX_DATA_STAGE, env);
    }
  }

  // ---- Every URB that comes back ----

  // Why a URB under the scan comes back with a status.
  ghost predicate Reason(f: Frame, env: Env, status: int)
    requires f.pos < |f.hcd.list|
  {
    var u, w := f.hcd.list[f.pos], env(f.clock);
    var ep := Find(f.dev, u.address);
    var live := !u.unlinked && f.hcd.running && f.total > 0;
    var due := live && ep != -1 && ep !in f.seen;
    var settingUp := ep == 0 && (f.setupStage || u.isNew);
    || (u.unlinked && status == -115)
    || (live && ep == -1 && status == -71)
    || (due && f.dev.eps[ep].halted && !settingUp && status == -32)
    || (due && settingUp && w.control == 0 && status == 0)
    || (due && settingUp && (w.control < 0 || (w.control > 0 && w.setup < 0)) && status == -32)
    || (due && settingUp && w.control > 0 && w.setup >= 0 && status == env(f.clock + 1).status)
    || (due && !settingUp && !f.dev.eps[ep].halted && status == w.status)
  }

  lemma BackHasReason(f: Frame, env: Env)
    requires FrameValid(f) && f.pos < f.due
    ensures !AtEnd(f)
    ensures var g := Visit(f, env);
            || g.given == f.given
            || (|g.given| == |f.given| + 1 && f.given <= g.given && Reason(f, env, g.given[|f.given|].status))
  {
    hide HcdValid, Find, Visit;
    TurnIs(f, env);
  }

  // Turn k of the frame brings the i-th URB back, for a reason.
  ghost predicate BroughtBack(f: Frame, env: Env, k: nat, d: Done, i: nat) {
    var g := Turns(f, env, k);
    && !AtEnd(g) && g.pos < |g.hcd.list| && |g.given| == i
    && SameUrb(g.hcd.list[g.pos], d.urb) && Reason(g, env, d.status)
  }

  lemma {:induction false} GivenHasReason(f: Frame, env: Env, n: nat, i: nat) returns (k: nat)
    requires FrameValid(f) && |f.given| <= i < |Turns(f, env, n).given|
    ensures k < n && BroughtBack(f, env, k, Turns(f, env, n).given[i], i)
    decreases n
  {
    hide Visit, HcdValid, Find, Reason;
    AtEndIffNoneDue(f);
    if n > 0 && !AtEnd(f) && f.due != 0 {
      var g := Visit(f, env);
      VisitKeeps(f, env);
      VisitShape(f, env);
      BackHasReason(f, env);
      TurnsGrow(g, env, n - 1);
      if i == |f.given| && |g.given| == i + 1 {
        k := 0;
        assert Turns(f, env, n).given[i] == g.given[i];
      } else {
        var l := GivenHasReason(g, env, n - 1, i);
        k := l + 1;
        assert Turns(f, env, k) == Turns(g, env, l);
      }
    }
  }

  lemma {:induction false} TurnsGrow(f: Frame, env: Env, n: nat)
    requires FrameValid(f)
    ensures f.given <= Turns(f, env, n).given
    decreases n
  {
    hide Visit, HcdValid, Find;
    AtEndIffNoneDue(f);
    if n > 0 && !AtEnd(f) && f.due > 0 {
      VisitKeeps(f, env);
      VisitShape(f, env);
      TurnsGrow(Visit(f, env), env, n - 1);
    }
  }

  // After any number of turns, every URB a frame has given back was brought back by one turn that
  // had a reason for just that status.
  lemma EveryStatus(h: Hcd, dev: Device, setupStage: bool, env: Env, n: nat, i: nat)
    requires HcdValid(h) && i < |After(h, dev, setupStage, env, n).given|
    ensures exists k: nat :: k < n && BroughtBack(Begin(h, dev, setupStage), env, k, After(h, dev, setupStage, env, n).given[i], i)
  {
    var k := GivenHasReason(Begin(h, dev, setupStage), env, n, i);
  }

  // ---- What the host does ----

  // A URB is queued as it is submitted, a control request to be set up; and the timer is armed.
  lemma EnqueueIs(h: Hcd, address: nat, pipe: Pipe)
    ensures var r := Apply(h, Enqueue(address, pipe));
            && |r.list| == |h.list| + 1 && r.list[..|h.list|] == h.list
            && var u := r.list[|h.list|];
            && u.id == h.nextId && u.address == address && u.pipe == pipe && !u.unlinked
            && (u.isNew <==> pipe == Control)
            && r.pending && r.udev && r.running == h.running
  {
  }

  // Unlinking marks that URB, once, and no other.
  lemma UnlinkIs(h: Hcd, id: nat)
    ensures var r := Apply(h, Unlink(id));
            && |r.list| == |h.list| && r.running == h.running
            && (forall i | 0 <= i < |h.list| ::
                  && r.list[i].(unlinked := false) == h.list[i].(unlinked := false)
                  && (r.list[i].unlinked <==> h.list[i].unlinked || h.list[i].id == id))
            && (h.running ==> r.pending == h.pending)
            && (!(exists u :: u in h.list && u.id == id && !u.unlinked) ==> r == h)
            && (!h.running && (exists u :: u in h.list && u.id == id && !u.unlinked) ==> r.pending)
  {
    if !exists u :: u in h.list && u.id == id && !u.unlinked {
      forall i | 0 <= i < |h.list| && h.list[i].id == id
        ensures h.list[i].unlinked
      {
        assert h.list[i] in h.list;
      }
    }
  }
}
