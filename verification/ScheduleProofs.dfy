// What one frame of the scheduler guarantees, and what holds over all frames.

module ScheduleProofs {
  import opened Schedule

  // ---- One step, seen from outside ----

  // The step keeps every URB that is due.
  predicate Kept(f: Frame, g: Frame) {
    && g.start == f.start && g.given == f.given && g.due == f.due <= |f.hcd.list| && g.due <= |g.hcd.list|
    && forall i :: 0 <= i < f.due ==> SameUrb(f.hcd.list[i], g.hcd.list[i])
  }

  // The step gives back the URB under the scan, keeps the others, and restarts.
  predicate Returned(f: Frame, g: Frame) {
    && f.pos < f.due <= |f.hcd.list| && g.due <= |g.hcd.list|
    && g.start == f.start && g.due == f.due - 1 && g.pos == 0
    && |g.given| == |f.given| + 1 && f.given <= g.given
    && SameUrb(f.hcd.list[f.pos], g.given[|f.given|].urb)
    && forall i :: 0 <= i < g.due ==> SameUrb(f.hcd.list[if i < f.pos then i else i + 1], g.hcd.list[i])
  }

  predicate Spends(f: Frame, g: Frame, limit: int) {
    g.moved - f.moved == f.total - g.total && 0 <= f.total - g.total <= limit
  }

  lemma GiveBackShape(f: Frame, ep: int, status: int, env: Env)
    requires FrameValid(f) && f.pos < f.due
    ensures Returned(f, GiveBack(f, ep, status, env)) && Spends(f, GiveBack(f, ep, status, env), 0)
  {
    hide HcdValid, Interfere;
    var r := Remove(f, ep, status);
    RemoveKeeps(f, ep, status);
    InterfereKeeps(r, env);
    var g := GiveBack(f, ep, status, env);
    forall i | 0 <= i < g.due
      ensures SameUrb(f.hcd.list[if i < f.pos then i else i + 1], g.hcd.list[i])
    {
      assert SameUrb(r.hcd.list[i], g.hcd.list[i]);
    }
  }

  lemma KeptThenReturned(f: Frame, g: Frame, h: Frame)
    requires Kept(f, g) && Returned(g, h) && g.pos == f.pos
    ensures Returned(f, h)
  {
    forall i | 0 <= i < h.due
      ensures SameUrb(f.hcd.list[if i < f.pos then i else i + 1], h.hcd.list[i])
    {
      var j := if i < f.pos then i else i + 1;
      assert SameUrb(f.hcd.list[j], g.hcd.list[j]) && SameUrb(g.hcd.list[j], h.hcd.list[i]);
    }
    assert SameUrb(f.hcd.list[f.pos], g.hcd.list[f.pos]);
  }

  // Serving keeps the URB and goes on, or returns it.
  predicate Served(f: Frame, g: Frame) {
    Returned(f, g) || (Kept(f, g) && g.pos == f.pos + 1 && g.seen == f.seen)
  }

  lemma ServeShape(f: Frame, ep: int, limit: nat, env: Env)
    requires FrameValid(f) && f.pos < f.due
    ensures Served(f, Serve(f, ep, limit, env)) && Spends(f, Serve(f, ep, limit, env), limit)
  {
    hide HcdValid, GiveBack;
    TransferredKeeps(f, limit, env);
    var g := Transferred(f, limit, env);
    assert Kept(f, g) && Spends(f, g, limit);
    if env(f.clock).status != -EINPROGRESS {
      GiveBackShape(g, ep, env(f.clock).status, env);
      KeptThenReturned(f, g, GiveBack(g, ep, env(f.clock).status, env));
    }
  }

  lemma SetupShape(f: Frame, env: Env)
    requires FrameValid(f) && f.pos < f.due
    ensures Served(f, Setup(f, env)) && Spends(f, Setup(f, env), MAX_DATA_STAGE)
  {
    hide HcdValid, GiveBack, Serve, Interfere;
    var f' := f.(setupStage := false);
    var w := env(f.clock);
    if w.control <= 0 {
      GiveBackShape(f', 0, if w.control == 0 then 0 else -EPIPE, env);
    } else {
      InterfereKeeps(f', env);
      var g := Interfere(f', env);
      assert Kept(f, g);
      if w.setup >= 0 {
        ServeShape(g, 0, MAX_DATA_STAGE, env);
        KeptThenServed(f, g, Serve(g, 0, MAX_DATA_STAGE, env));
      } else {
        GiveBackShape(g, 0, -EPIPE, env);
        KeptThenReturned(f, g, GiveBack(g, 0, -EPIPE, env));
      }
    }
  }

  lemma KeptThenServed(f: Frame, g: Frame, h: Frame)
    requires Kept(f, g) && Served(g, h) && g.pos == f.pos
    ensures Returned(f, h) || (Kept(f, h) && h.pos == f.pos + 1 && h.seen == g.seen)
  {
    if Returned(g, h) {
      KeptThenReturned(f, g, h);
    } else {
      KeptOn(f, g, h);
    }
  }

  lemma KeptOn(f: Frame, g: Frame, h: Frame)
    requires Kept(f, g) && Kept(g, h)
    ensures Kept(f, h)
  {
    forall i | 0 <= i < f.due
      ensures SameUrb(f.hcd.list[i], h.hcd.list[i])
    {
      assert SameUrb(f.hcd.list[i], g.hcd.list[i]) && SameUrb(g.hcd.list[i], h.hcd.list[i]);
    }
  }

  // The URB under the scan can be passed over: it is not unlinked, and there is nothing to be
  // had for it in this frame, or its endpoint has been marked.
  predicate Passed(f: Frame, u: Urb, seen: set<int>) {
    && !u.unlinked
    && (!f.hcd.running || f.total <= 0 || (Find(f.dev, u.address) != -1 && Find(f.dev, u.address) in seen))
  }

  // Only a running hub, a budget and an unmarked endpoint get an URB that is not unlinked back.
  predicate Eligible(f: Frame, u: Urb) {
    f.hcd.running && f.total > 0 && (Find(f.dev, u.address) == -1 || Find(f.dev, u.address) !in f.seen)
  }

  // The largest overshoot of one transfer.
  function Overshoot(dev: Device): nat {
    OvershootFrom(dev.speed, dev.eps)
  }

  function OvershootFrom(speed: Speed, eps: seq<Endpoint>): (p: nat)
    ensures p >= MAX_DATA_STAGE && forall ep | ep in eps :: PeriodicBytes(speed, ep) <= p
  {
    if eps == [] then MAX_DATA_STAGE else
    var p := OvershootFrom(speed, eps[1..]);
    var q := PeriodicBytes(speed, eps[0]);
    if p < q then q else p
  }

  // Bulk URBs live within the frame's budget.
  predicate BulkUrb(u: Urb) { u.pipe == Bulk && u.address % USB_DIR_IN != 0 }

  function SpendLimit(f: Frame, u: Urb): int {
    if f.total <= 0 then 0
    else if BulkUrb(u) || Overshoot(f.dev) < f.total then f.total
    else Overshoot(f.dev)
  }

  lemma VisitShape(f: Frame, env: Env)
    requires FrameValid(f) && f.pos < f.due && !AtEnd(f)
    ensures var g, u := Visit(f, env), f.hcd.list[f.pos];
            && Spends(f, g, SpendLimit(f, u))
            && (Returned(f, g) || Kept(f, g))
            && (Kept(f, g) && !f.hcd.running ==> !g.hcd.running)
            && (Returned(f, g) ==> u.unlinked || Eligible(f, u))
            && (Kept(f, g) ==> g.pos == 0 || (g.pos == f.pos + 1 && f.seen <= g.seen && Passed(f, u, g.seen)))
  {
    hide HcdValid, Find, GiveBack, FlushStale, Setup, Serve, Mark;
    var u := f.hcd.list[f.pos];
    var ep := Find(f.dev, u.address);
    if u.unlinked {
      GiveBackShape(f, -1, -EINPROGRESS, env);
    } else if !f.hcd.running || f.total <= 0 {
    } else if ep == -1 {
      GiveBackShape(f, -1, -EPROTO, env);
    } else if ep in f.seen {
    } else {
      VisitServes(f, ep, env);
    }
  }

  // The branches of Visit behind the mark.
  lemma VisitServes(f: Frame, ep: int, env: Env)
    requires FrameValid(f) && f.pos < f.due && !AtEnd(f)
    requires var u := f.hcd.list[f.pos];
             !u.unlinked && f.hcd.running && f.total > 0 && ep == Find(f.dev, u.address) && ep != -1 && ep !in f.seen
    ensures var g := Visit(f, env);
            && Spends(f, g, SpendLimit(f, f.hcd.list[f.pos]))
            && (Returned(f, g) || (Kept(f, g) && (g.pos == 0 || (g.pos == f.pos + 1 && g.seen == f.seen + {ep}))))
  {
    hide HcdValid, GiveBack, FlushStale, Setup, Serve, Mark, Find, PeriodicBytes;
    var u := f.hcd.list[f.pos];
    var g := Mark(f, ep);
    var settingUp := ep == 0 && g.setupStage;
    MarkKeeps(f, ep);
    assert Kept(f, g);
    if f.dev.eps[ep].halted && !settingUp {
      GiveBackShape(g, ep, -EPIPE, env);
      KeptThenReturned(f, g, GiveBack(g, ep, -EPIPE, env));
    } else if settingUp && g.dev.ep0Queue > 0 {
      FlushStaleShape(f, g, env);
    } else if settingUp {
      SetupShape(g, env);
      KeptThenServed(f, g, Setup(g, env));
    } else {
      assert f.dev.eps[ep] in f.dev.eps;
      var limit := LimitFor(g, ep, u.pipe);
      ServeShape(g, ep, limit, env);
      KeptThenServed(f, g, Serve(g, ep, limit, env));
    }
  }

  lemma FlushStaleShape(f: Frame, g: Frame, env: Env)
    requires FrameValid(g) && Kept(f, g) && g.dev.ep0Queue > 0
    ensures Kept(f, FlushStale(g, env)) && FlushStale(g, env).pos == 0 && Spends(g, FlushStale(g, env), 0)
  {
    var r := g.(seen := g.seen - {0}, pos := 0);
    InterfereKeeps(r, env);
    KeptOn(f, g, FlushStale(g, env));
  }

  // ---- What a step does to the device ----

  // The device that the last window left behind.
  predicate LeftBy(f: Frame, g: Frame, env: Env) { g.clock > f.clock && g.dev == env(g.clock - 1).dev }

  lemma ServeDevice(f: Frame, ep: int, limit: nat, env: Env)
    requires f.pos < |f.hcd.list| && f.due > 0
    ensures LeftBy(f, Serve(f, ep, limit, env), env)
  {
    hide ApplyAll;
  }

  lemma SetupDevice(f: Frame, env: Env)
    requires f.pos < |f.hcd.list| && f.due > 0
    ensures LeftBy(f, Setup(f, env), env)
  {
    hide ApplyAll, Serve;
    if env(f.clock).control > 0 && env(f.clock).setup >= 0 {
      ServeDevice(Interfere(f.(setupStage := false), env), 0, MAX_DATA_STAGE, env);
    }
  }

  // The device after a step is the one before it, or one that a window has left behind, maybe
  // with stale requests of ep0 flushed.
  lemma VisitDevice(f: Frame, env: Env) returns (n: nat, q: nat)
    requires !AtEnd(f) && f.due > 0
    ensures var d := Visit(f, env).dev;
            d == f.dev || d == env(n).dev || d == env(n).dev.(ep0Queue := q)
  {
    hide Find, ApplyAll, LimitFor, Serve, Setup, Mark;
    var g := Visit(f, env);
    n, q := if g.clock > f.clock then g.clock - 1 else 0, g.dev.ep0Queue;
    var u := f.hcd.list[f.pos];
    var ep := Find(f.dev, u.address);
    if !u.unlinked && f.hcd.running && f.total > 0 && ep != -1 && ep !in f.seen {
      var m := Mark(f, ep);
      if ep == 0 && m.setupStage {
        SetupDevice(m, env);
      } else if !f.dev.eps[ep].halted {
        ServeDevice(m, ep, LimitFor(m, ep, u.pipe), env);
      }
    }
  }

  // While the frame runs find_endpoint gives the same answer for address a: the endpoint stays
  // bound or unbound, and the link active and the interrupts enabled, or not.
  ghost predicate SteadyAt(env: Env, dev: Device, a: nat) { forall n :: Find(env(n).dev, a) == Find(dev, a) }

  lemma FindIgnoresQueue(d: Device, q: nat, a: nat)
    ensures Find(d.(ep0Queue := q), a) == Find(d, a)
  {
  }

  lemma VisitFinds(f: Frame, env: Env, a: nat)
    requires !AtEnd(f) && f.due > 0 && SteadyAt(env, f.dev, a)
    ensures Find(Visit(f, env).dev, a) == Find(f.dev, a) && SteadyAt(env, Visit(f, env).dev, a)
  {
    hide Visit, Find;
    var n, q := VisitDevice(f, env);
    FindIgnoresQueue(env(n).dev, q, a);
    assert Find(env(n).dev, a) == Find(f.dev, a);
  }

  // ---- What a step does to the hub, when nobody suspends the bus ----

  ghost predicate NoSuspend(env: Env) { forall n :: BusSuspend !in env(n).ops }

  function UnlinkedIds(list: seq<Urb>): set<nat> { set u | u in list && u.unlinked :: u.id }

  // The hub does not stop, and while it is stopped no URB is unlinked behind the timer's back.
  predicate Wakeful(h: Hcd, h': Hcd) {
    && (h.running ==> h'.running) && (h.pending ==> h'.pending)
    && (!h'.running ==> h'.pending || UnlinkedIds(h'.list) <= UnlinkedIds(h.list))
  }

  lemma WakefulOn(a: Hcd, b: Hcd, c: Hcd)
    requires Wakeful(a, b) && Wakeful(b, c)
    ensures Wakeful(a, c)
  {
    hide UnlinkedIds;
  }

  lemma {:induction false} WakefulApplyAll(h: Hcd, ops: seq<HostOp>)
    requires BusSuspend !in ops
    ensures Wakeful(h, ApplyAll(h, ops))
    decreases |ops|
  {
    if ops != [] {
      assert ops[0] in ops && ops[0] != BusSuspend;
      WakefulApply(h, ops[0]);
      WakefulApplyAll(Apply(h, ops[0]), ops[1..]);
      WakefulOn(h, Apply(h, ops[0]), ApplyAll(h, ops));
    }
  }

  lemma WakefulApply(h: Hcd, op: HostOp)
    requires op != BusSuspend
    ensures Wakeful(h, Apply(h, op))
  {
  }

  lemma InterfereWakeful(f: Frame, env: Env)
    requires NoSuspend(env)
    ensures Wakeful(f.hcd, Interfere(f, env).hcd)
  {
    WakefulApplyAll(f.hcd, env(f.clock).ops);
  }

  lemma GiveBackWakeful(f: Frame, ep: int, status: int, env: Env)
    requires NoSuspend(env) && f.pos < |f.hcd.list| && f.due > 0
    ensures Wakeful(f.hcd, GiveBack(f, ep, status, env).hcd)
  {
    hide Interfere;
    var r := Remove(f, ep, status);
    assert forall u | u in r.hcd.list :: u in f.hcd.list;
    assert Wakeful(f.hcd, r.hcd);
    InterfereWakeful(r, env);
    WakefulOn(f.hcd, r.hcd, GiveBack(f, ep, status, env).hcd);
  }

  lemma ServeWakeful(f: Frame, ep: int, limit: nat, env: Env)
    requires NoSuspend(env) && f.pos < |f.hcd.list| && f.due > 0
    ensures Wakeful(f.hcd, Serve(f, ep, limit, env).hcd)
  {
    hide Interfere, GiveBack, Wakeful;
    var sent := if env(f.clock).sent < limit then env(f.clock).sent else limit;
    var g := Transferred(f, limit, env);
    InterfereWakeful(f.(total := f.total - sent, moved := f.moved + sent), env);
    if env(f.clock).status != -EINPROGRESS {
      GiveBackWakeful(g, ep, env(f.clock).status, env);
      WakefulOn(f.hcd, g.hcd, Serve(f, ep, limit, env).hcd);
    }
  }

  lemma SetupWakeful(f: Frame, env: Env)
    requires NoSuspend(env) && f.pos < |f.hcd.list| && f.due > 0
    ensures Wakeful(f.hcd, Setup(f, env).hcd)
  {
    hide Interfere, GiveBack, Serve, Wakeful;
    var f' := f.(setupStage := false);
    var w := env(f.clock);
    if w.control <= 0 {
      GiveBackWakeful(f', 0, if w.control == 0 then 0 else -EPIPE, env);
    } else {
      var g := Interfere(f', env);
      InterfereWakeful(f', env);
      if w.setup >= 0 {
        ServeWakeful(g, 0, MAX_DATA_STAGE, env);
      } else {
        GiveBackWakeful(g, 0, -EPIPE, env);
      }
      WakefulOn(f.hcd, g.hcd, Setup(f, env).hcd);
    }
  }

  lemma MarkWakeful(f: Frame, ep: int)
    requires f.pos < |f.hcd.list|
    ensures Wakeful(f.hcd, Mark(f, ep).hcd)
  {
    var list, list' := f.hcd.list, Mark(f, ep).hcd.list;
    forall u | u in list' && u.unlinked
      ensures u.id in UnlinkedIds(list)
    {
      var i :| 0 <= i < |list'| && list'[i] == u;
      assert list[i] in list && list[i].unlinked && list[i].id == u.id;
    }
  }

  lemma VisitWakeful(f: Frame, env: Env)
    requires NoSuspend(env) && !AtEnd(f) && f.due > 0
    ensures Wakeful(f.hcd, Visit(f, env).hcd)
  {
    hide Find, Interfere, GiveBack, Serve, Setup, Mark, FlushStale, UnlinkedIds;
    var u := f.hcd.list[f.pos];
    var ep := Find(f.dev, u.address);
    if u.unlinked {
      GiveBackWakeful(f, -1, -EINPROGRESS, env);
    } else if !f.hcd.running || f.total <= 0 {
    } else if ep == -1 {
      GiveBackWakeful(f, -1, -EPROTO, env);
    } else if ep !in f.seen {
      var g := Mark(f, ep);
      var settingUp := ep == 0 && g.setupStage;
      MarkWakeful(f, ep);
      if f.dev.eps[ep].halted && !settingUp {
        GiveBackWakeful(g, ep, -EPIPE, env);
      } else if settingUp && g.dev.ep0Queue > 0 {
        FlushStaleWakeful(g, env);
      } else if settingUp {
        SetupWakeful(g, env);
      } else {
        ServeWakeful(g, ep, LimitFor(g, ep, u.pipe), env);
      }
      WakefulOn(f.hcd, g.hcd, Visit(f, env).hcd);
    }
  }

  lemma FlushStaleWakeful(f: Frame, env: Env)
    requires NoSuspend(env) && f.dev.ep0Queue > 0
    ensures Wakeful(f.hcd, FlushStale(f, env).hcd)
  {
    InterfereWakeful(f.(seen := f.seen - {0}, pos := 0), env);
  }

  lemma {:induction false} TurnsWakeful(f: Frame, env: Env, n: nat)
    requires NoSuspend(env)
    ensures Wakeful(f.hcd, Turns(f, env, n).hcd)
    decreases n
  {
    hide Visit, AtEnd, Wakeful, NoSuspend;
    WakefulSame(f.hcd);
    if n > 0 && !AtEnd(f) && f.due > 0 {
      VisitWakeful(f, env);
      TurnsWakeful(Visit(f, env), env, n - 1);
      WakefulOn(f.hcd, Visit(f, env).hcd, Turns(f, env, n).hcd);
    }
  }

  lemma WakefulSame(h: Hcd)
    ensures Wakeful(h, h)
  {
  }

  // ---- Every URB is accounted for ----

  function Ids(list: seq<Urb>): seq<nat> { seq(|list|, i requires 0 <= i < |list| => list[i].id) }

  function GivenIds(given: seq<Done>): seq<nat> { seq(|given|, i requires 0 <= i < |given| => given[i].urb.id) }

  // URBs given back and URBs still due are together the URBs queued before the frame.
  predicate Accounted(f: Frame, list0: seq<Urb>) {
    && f.due <= |f.hcd.list|
    && multiset(Ids(f.hcd.list[..f.due])) + multiset(GivenIds(f.given)) == multiset(Ids(list0))
  }

  lemma StepAccounted(f: Frame, g: Frame, list0: seq<Urb>)
    requires Accounted(f, list0) && (Kept(f, g) || Returned(f, g))
    ensures Accounted(g, list0)
  {
    var a, b := Ids(f.hcd.list[..f.due]), Ids(g.hcd.list[..g.due]);
    if Kept(f, g) {
      forall i | 0 <= i < f.due
        ensures a[i] == b[i]
      {
        assert SameUrb(f.hcd.list[i], g.hcd.list[i]);
      }
      assert a == b;
    } else {
      forall i | 0 <= i < g.due
        ensures b[i] == a[if i < f.pos then i else i + 1]
      {
        assert SameUrb(f.hcd.list[if i < f.pos then i else i + 1], g.hcd.list[i]);
      }
      assert b == a[..f.pos] + a[f.pos + 1..];
      assert a == a[..f.pos] + [a[f.pos]] + a[f.pos + 1..];
      assert GivenIds(g.given) == GivenIds(f.given) + [a[f.pos]];
    }
  }

  // Every URB that was unlinked when the frame began, and is still due, lies ahead of the scan.
  predicate UnlinkedAhead(f: Frame, list0: seq<Urb>) {
    && f.due <= |f.hcd.list|
    && forall i :: 0 <= i < f.due && f.hcd.list[i].id in UnlinkedIds(list0) ==> f.hcd.list[i].unlinked && f.pos <= i
  }

  lemma StepUnlinkedAhead(f: Frame, g: Frame, list0: seq<Urb>)
    requires UnlinkedAhead(f, list0) && f.pos < f.due && (Returned(f, g) || Kept(f, g))
    requires Kept(f, g) ==> g.pos == 0 || (g.pos == f.pos + 1 && !f.hcd.list[f.pos].unlinked)
    ensures UnlinkedAhead(g, list0)
  {
    forall i | 0 <= i < g.due && g.hcd.list[i].id in UnlinkedIds(list0)
      ensures g.hcd.list[i].unlinked && g.pos <= i
    {
      var j := if Returned(f, g) && i >= f.pos then i + 1 else i;
      assert SameUrb(f.hcd.list[j], g.hcd.list[i]);
    }
  }

  // ---- Order ----

  // The URB is for the device endpoint of address a; both directions of endpoint 0 are one.
  predicate On(a: nat, u: Urb) {
    u.address == a || (u.address % USB_DIR_IN == 0 && a % USB_DIR_IN == 0)
  }

  lemma OnFound(dev: Device, a: nat, u: Urb)
    requires On(a, u)
    ensures Find(dev, u.address) == Find(dev, a)
  {
  }

  // u may come before v: they do not compete for that endpoint, or u was queued first.
  predicate InOrder(u: Urb, v: Urb, a: nat) {
    u.unlinked || v.unlinked || !On(a, u) || !On(a, v) || u.id < v.id
  }

  predicate Fifo(given: seq<Done>, list: seq<Urb>, a: nat) {
    && (forall i, j :: 0 <= i < j < |given| ==> InOrder(given[i].urb, given[j].urb, a))
    && (forall i, j :: 0 <= i < |given| && 0 <= j < |list| ==> InOrder(given[i].urb, list[j], a))
  }

  // What lies behind the scan position for the endpoint has been passed over.
  predicate PassedBehind(f: Frame, a: nat) {
    && f.pos <= |f.hcd.list|
    && forall i :: 0 <= i < f.pos && On(a, f.hcd.list[i]) ==> f.hcd.list[i].unlinked || Passed(f, f.hcd.list[i], f.seen)
  }

  // The URB returned has no competitor in front of it.
  lemma NoneInFront(f: Frame, i: nat, a: nat)
    requires FrameValid(f) && PassedBehind(f, a) && f.pos < f.due && Eligible(f, f.hcd.list[f.pos])
    requires i < f.pos && !f.hcd.list[i].unlinked && On(a, f.hcd.list[f.pos])
    ensures !On(a, f.hcd.list[i])
  {
    if On(a, f.hcd.list[i]) {
      OnFound(f.dev, a, f.hcd.list[i]);
      OnFound(f.dev, a, f.hcd.list[f.pos]);
    }
  }

  // Only a return, which restarts the scan, lets a stopped hub run again during the frame.
  lemma StepPassed(f: Frame, g: Frame, a: nat)
    requires PassedBehind(f, a) && FrameValid(g) && Find(f.dev, a) == Find(g.dev, a) && f.pos < f.due
    requires (f.total <= 0 ==> g.total <= 0) && (Kept(f, g) && !f.hcd.running ==> !g.hcd.running)
    requires Returned(f, g) || Kept(f, g)
    requires Kept(f, g) ==> g.pos == 0 || (g.pos == f.pos + 1 && f.seen <= g.seen && Passed(f, f.hcd.list[f.pos], g.seen))
    ensures PassedBehind(g, a)
  {
    hide Find, On;
    forall i | 0 <= i < g.pos && On(a, g.hcd.list[i])
      ensures g.hcd.list[i].unlinked || Passed(g, g.hcd.list[i], g.seen)
    {
      var u := f.hcd.list[i];
      assert SameUrb(u, g.hcd.list[i]);
      assert On(a, u) by { SameOn(u, g.hcd.list[i], a); }
      OnFound(f.dev, a, u);
      OnFound(g.dev, a, u);
    }
  }

  lemma SameOn(u: Urb, v: Urb, a: nat)
    requires SameUrb(u, v)
    ensures On(a, u) <==> On(a, v)
  {
  }

  lemma SameInOrder(u: Urb, v: Urb, v': Urb, a: nat)
    requires InOrder(u, v, a) && SameUrb(v, v')
    ensures InOrder(u, v', a)
  {
  }

  lemma StepFifo(f: Frame, g: Frame, hist: seq<Done>, a: nat)
    requires FrameValid(f) && FrameValid(g) && PassedBehind(f, a) && f.pos < f.due
    requires Returned(f, g) || Kept(f, g)
    requires Returned(f, g) ==> f.hcd.list[f.pos].unlinked || Eligible(f, f.hcd.list[f.pos])
    requires Fifo(hist + f.given, f.hcd.list[..f.due], a)
    ensures Fifo(hist + g.given, g.hcd.list[..g.due], a)
  {
    hide FrameValid, HcdValid, Find, InOrder;
    var all, all' := hist + f.given, hist + g.given;
    var list, list' := f.hcd.list[..f.due], g.hcd.list[..g.due];
    if Kept(f, g) {
      forall i, j | 0 <= i < |all'| && 0 <= j < |list'|
        ensures InOrder(all'[i].urb, list'[j], a)
      {
        SameInOrder(all[i].urb, list[j], list'[j], a);
      }
    } else {
      ReturnedFifo(f, g, hist, a);
    }
  }

  lemma ReturnedFifo(f: Frame, g: Frame, hist: seq<Done>, a: nat)
    requires FrameValid(f) && FrameValid(g) && PassedBehind(f, a)
    requires Returned(f, g) && (f.hcd.list[f.pos].unlinked || Eligible(f, f.hcd.list[f.pos]))
    requires Fifo(hist + f.given, f.hcd.list[..f.due], a)
    ensures Fifo(hist + g.given, g.hcd.list[..g.due], a)
  {
    hide Find, InOrder;
    var all, all' := hist + f.given, hist + g.given;
    var list, list' := f.hcd.list[..f.due], g.hcd.list[..g.due];
    var last := g.given[|f.given|];
    assert all' == all + [last];
    forall i | 0 <= i < |all|
      ensures InOrder(all[i].urb, last.urb, a)
    {
      SameInOrder(all[i].urb, list[f.pos], last.urb, a);
    }
    forall i, j | 0 <= i < |all'| && 0 <= j < |list'|
      ensures InOrder(all'[i].urb, list'[j], a)
    {
      var k := if j < f.pos then j else j + 1;
      assert SameUrb(list[k], list'[j]);
      if i < |all| {
        SameInOrder(all[i].urb, list[k], list'[j], a);
      } else {
        LastInOrder(f, k, list'[j], last.urb, a);
      }
    }
  }

  // The URB just returned may come before every URB left.
  lemma LastInOrder(f: Frame, k: nat, v: Urb, last: Urb, a: nat)
    requires FrameValid(f) && PassedBehind(f, a) && f.pos < f.due && k < f.due && k != f.pos
    requires f.hcd.list[f.pos].unlinked || Eligible(f, f.hcd.list[f.pos])
    requires SameUrb(f.hcd.list[k], v) && SameUrb(f.hcd.list[f.pos], last)
    ensures InOrder(last, v, a)
  {
    hide Find, Passed, Eligible;
    if k < f.pos && !v.unlinked && !last.unlinked && On(a, last) {
      SameOn(f.hcd.list[f.pos], last, a);
      SameOn(f.hcd.list[k], v, a);
      NoneInFront(f, k, a);
    }
  }

  // ---- Bandwidth ----

  // A frame of bulk URBs stays within its budget; otherwise only the last URB served can go
  // over it, by less than one overshoot.
  predicate WithinBudget(f: Frame, budget: nat, p: nat) {
    && f.due <= |f.hcd.list|
    && f.moved == budget - f.total && 0 <= f.moved < budget + p
  }

  predicate BulkDue(f: Frame) {
    f.due <= |f.hcd.list| && forall i :: 0 <= i < f.due ==> BulkUrb(f.hcd.list[i])
  }

  lemma StepBudget(f: Frame, g: Frame, budget: nat, p: nat)
    requires WithinBudget(f, budget, p) && f.pos < f.due <= |f.hcd.list|
    requires (Returned(f, g) || Kept(f, g)) && Overshoot(f.dev) <= p && Spends(f, g, SpendLimit(f, f.hcd.list[f.pos]))
    ensures WithinBudget(g, budget, p)
  {
  }

  lemma StepBulk(f: Frame, g: Frame, budget: nat)
    requires f.pos < f.due && (Returned(f, g) || Kept(f, g)) && Spends(f, g, SpendLimit(f, f.hcd.list[f.pos]))
    ensures BulkDue(f) && 0 <= f.moved <= budget == f.moved + f.total ==> BulkDue(g) && 0 <= g.moved <= budget == g.moved + g.total
  {
    if BulkDue(f) {
      forall i | 0 <= i < g.due
        ensures BulkUrb(g.hcd.list[i])
      {
        assert SameUrb(f.hcd.list[if Returned(f, g) && i >= f.pos then i + 1 else i], g.hcd.list[i]);
      }
    }
  }

  // ---- The whole frame ----

  // No gadget seen during the frame can overshoot by more than p; p == -1 asks for nothing.
  ghost predicate Bounded(env: Env, dev: Device, p: int) {
    p >= 0 ==> Overshoot(dev) <= p && forall n :: Overshoot(env(n).dev) <= p
  }

  // `bulk`: everything queued before the frame is a bulk URB.  `a`: the address whose order is
  // asked for, or -1.
  ghost predicate Inv(f: Frame, list0: seq<Urb>, hist: seq<Done>, budget: nat, p: int, bulk: bool, a: int) {
    && FrameValid(f) && Accounted(f, list0) && UnlinkedAhead(f, list0)
    && (p >= 0 ==> WithinBudget(f, budget, p) && Overshoot(f.dev) <= p)
    && (bulk ==> BulkDue(f) && f.moved <= budget == f.moved + f.total)
    && (a >= 0 ==> PassedBehind(f, a) && Fifo(hist + f.given, f.hcd.list[..f.due], a))
  }

  lemma VisitOvershoot(f: Frame, env: Env, p: nat)
    requires !AtEnd(f) && f.due > 0 && Overshoot(f.dev) <= p && forall n :: Overshoot(env(n).dev) <= p
    ensures Overshoot(Visit(f, env).dev) <= p
  {
    hide Visit, OvershootFrom;
    var n, q := VisitDevice(f, env);
    assert Overshoot(env(n).dev) <= p;
  }

  lemma VisitInv(f: Frame, env: Env, list0: seq<Urb>, hist: seq<Done>, budget: nat, p: int, bulk: bool, a: int)
    requires Inv(f, list0, hist, budget, p, bulk, a) && f.pos < f.due && !AtEnd(f)
    requires Bounded(env, f.dev, p) && (a >= 0 ==> SteadyAt(env, f.dev, a))
    ensures var g := Visit(f, env);
            && Inv(g, list0, hist, budget, p, bulk, a)
            && Bounded(env, g.dev, p) && (a >= 0 ==> SteadyAt(env, g.dev, a))
  {
    hide FrameValid, HcdValid, Find, Visit, Overshoot, Accounted, UnlinkedAhead, PassedBehind, Fifo, Returned, Kept;
    var g := Visit(f, env);
    VisitKeeps(f, env);
    VisitShape(f, env);
    StepAccounted(f, g, list0);
    StepUnlinkedAhead(f, g, list0);
    StepBulk(f, g, budget);
    if p >= 0 {
      VisitOvershoot(f, env, p);
      StepBudget(f, g, budget, p);
    }
    if a >= 0 {
      VisitFinds(f, env, a);
      StepPassed(f, g, a);
      StepFifo(f, g, hist, a);
    }
  }

  lemma {:induction false} TurnsInv(f: Frame, env: Env, n: nat, list0: seq<Urb>, hist: seq<Done>, budget: nat, p: int,
                                    bulk: bool, a: int)
    requires Inv(f, list0, hist, budget, p, bulk, a)
    requires Bounded(env, f.dev, p) && (a >= 0 ==> SteadyAt(env, f.dev, a))
    ensures var r := Turns(f, env, n);
            && Inv(r, list0, hist, budget, p, bulk, a) && r.start == f.start
            && (AtEnd(r) <==> r.pos == r.due)
    decreases n
  {
    hide Visit, Accounted, UnlinkedAhead, PassedBehind, Fifo, Overshoot, HcdValid, Find;
    AtEndIffNoneDue(f);
    if n > 0 && !AtEnd(f) && f.due > 0 {
      var g := Visit(f, env);
      VisitShape(f, env);
      VisitInv(f, env, list0, hist, budget, p, bulk, a);
      TurnsInv(g, env, n - 1, list0, hist, budget, p, bulk, a);
    }
  }

  // Between frames: the device reference is held exactly while URBs are queued, and the timer
  // is armed whenever it has something to do.
  predicate Awake(h: Hcd) {
    && HcdValid(h)
    && (h.udev <==> h.list != [])
    && (h.list != [] && h.running ==> h.pending)
  }

  // Unlinked URBs are returned even on a suspended bus, which also takes the timer.
  predicate UnlinkedAwake(h: Hcd) { UnlinkedIds(h.list) != {} ==> h.pending }

  lemma HostOpsKeepAwake(h: Hcd, op: HostOp)
    requires Awake(h)
    ensures Awake(Apply(h, op))
    ensures UnlinkedAwake(h) ==> UnlinkedAwake(Apply(h, op))
  {
    ApplyGrows(h, op);
    if op.Unlink? && h.list == [] {
      assert Apply(h, op) == h;
    }
  }

  // ---- One frame ----

  // The frame after n turns of its scan.
  function After(h: Hcd, dev: Device, setupStage: bool, env: Env, n: nat): Frame {
    Turns(Begin(h, dev, setupStage), env, n)
  }

  ghost function Scan(h: Hcd, dev: Device, setupStage: bool, env: Env): Frame
    requires Ends(Begin(h, dev, setupStage), env)
  {
    Run(Begin(h, dev, setupStage), env)
  }

  lemma ScanIsAfter(h: Hcd, dev: Device, setupStage: bool, env: Env) returns (n: nat)
    requires Ends(Begin(h, dev, setupStage), env)
    ensures Scan(h, dev, setupStage, env) == After(h, dev, setupStage, env, n) && AtEnd(Scan(h, dev, setupStage, env))
  {
    n := Length(Begin(h, dev, setupStage), env);
  }

  lemma BeginInv(h: Hcd, dev: Device, setupStage: bool, env: Env, hist: seq<Done>, p: int, bulk: bool, a: int)
    requires HcdValid(h) && Bounded(env, dev, p)
    requires a >= 0 ==> Fifo(hist, h.list, a)
    requires bulk ==> forall u | u in h.list :: BulkUrb(u)
    ensures Inv(Begin(h, dev, setupStage), h.list, hist, FrameBudget(dev.speed), p, bulk, a)
  {
    hide Find, Fifo, OvershootFrom, FrameBudget, Ids, UnlinkedIds;
    var f := Begin(h, dev, setupStage);
    assert f.hcd.list[..f.due] == h.list && hist + f.given == hist;
    assert multiset(GivenIds(f.given)) == multiset{};
    assert UnlinkedAhead(f, h.list) by { BeginUnlinked(h); }
  }

  lemma BeginUnlinked(h: Hcd)
    requires HcdValid(h)
    ensures forall i :: 0 <= i < |h.list| && h.list[i].id in UnlinkedIds(h.list) ==> h.list[i].unlinked
  {
    forall i | 0 <= i < |h.list| && h.list[i].id in UnlinkedIds(h.list)
      ensures h.list[i].unlinked
    {
      var u :| u in h.list && u.unlinked && u.id == h.list[i].id;
      var j :| 0 <= j < |h.list| && h.list[j] == u;
    }
  }

  // However many turns the scan has taken, it has given back only URBs queued before the frame,
  // each at most once; the rest stays, in order, ahead of the URBs queued meanwhile.  When it is
  // over, every URB that was unlinked before the frame is back, whatever the budget and the state
  // of the root hub.
  lemma FrameIsolation(h: Hcd, dev: Device, setupStage: bool, env: Env, n: nat)
    requires HcdValid(h)
    ensures var r := After(h, dev, setupStage, env, n);
            && r.due <= |r.hcd.list| && HcdValid(r.hcd)
            && multiset(GivenIds(r.given)) + multiset(Ids(r.hcd.list[..r.due])) == multiset(Ids(h.list))
            && (AtEnd(r) ==> forall i :: 0 <= i < r.due ==> r.hcd.list[i].id !in UnlinkedIds(h.list))
            && (forall i :: r.due <= i < |r.hcd.list| ==> r.hcd.list[i].id == h.nextId + (i - r.due))
            && r.hcd.nextId == h.nextId + |r.hcd.list| - r.due
  {
    hide Turns, UnlinkedIds, Ids, GivenIds, AtEnd;
    var f := Begin(h, dev, setupStage);
    BeginInv(h, dev, setupStage, env, [], -1, false, -1);
    TurnsInv(f, env, n, h.list, [], FrameBudget(dev.speed), -1, false, -1);
  }

  // A frame of bulk URBs has moved at most its budget at any time; any frame less than the budget
  // plus the largest overshoot of the gadgets seen during it.
  lemma FrameBandwidth(h: Hcd, dev: Device, setupStage: bool, env: Env, n: nat)
    requires HcdValid(h)
    ensures var moved, budget := After(h, dev, setupStage, env, n).moved, FrameBudget(dev.speed);
            && ((forall u | u in h.list :: BulkUrb(u)) ==> moved <= budget)
            && forall p: nat | Bounded(env, dev, p) :: moved < budget + p
  {
    hide Turns, FrameBudget, Find, Bounded, AtEnd;
    var f, budget := Begin(h, dev, setupStage), FrameBudget(dev.speed);
    var bulk := forall u | u in h.list :: BulkUrb(u);
    assert Bounded(env, dev, -1) by { Unbounded(env, dev); }
    BeginInv(h, dev, setupStage, env, [], -1, bulk, -1);
    TurnsInv(f, env, n, h.list, [], budget, -1, bulk, -1);
    forall p: nat | Bounded(env, dev, p) ensures After(h, dev, setupStage, env, n).moved < budget + p {
      BeginInv(h, dev, setupStage, env, [], p, false, -1);
      TurnsInv(f, env, n, h.list, [], budget, p, false, -1);
    }
  }

  lemma Unbounded(env: Env, dev: Device)
    ensures Bounded(env, dev, -1)
  {
  }

  lemma GivenBefore(h: Hcd, given: seq<Done>, rest: multiset<nat>, n: nat)
    requires multiset(GivenIds(given)) + rest == multiset(Ids(h.list)) && HcdValid(h) && n < |given|
    ensures given[n].urb.id < h.nextId
  {
    var id := given[n].urb.id;
    assert GivenIds(given)[n] == id;
    assert id in GivenIds(given);
    assert id in multiset(Ids(h.list));
    var i :| 0 <= i < |h.list| && Ids(h.list)[i] == id;
  }

  // At any time of the frame: URBs for one device endpoint that are not unlinked have come back in
  // the order they were queued, over this frame and all earlier ones, and stay in that order on
  // the list, while find_endpoint gives the same answer for that endpoint's address.
  lemma FrameOrder(h: Hcd, dev: Device, setupStage: bool, env: Env, n: nat, hist: seq<Done>, a: nat)
    requires HcdValid(h) && SteadyAt(env, dev, a) && Fifo(hist, h.list, a)
    requires forall i :: 0 <= i < |hist| ==> hist[i].urb.id < h.nextId
    ensures var r := After(h, dev, setupStage, env, n);
            && Fifo(hist + r.given, r.hcd.list, a)
            && forall i :: 0 <= i < |hist + r.given| ==> (hist + r.given)[i].urb.id < h.nextId
  {
    hide Turns, UnlinkedIds, Ids, GivenIds, InOrder, Find, AtEnd;
    var f := Begin(h, dev, setupStage);
    BeginInv(h, dev, setupStage, env, hist, -1, false, a);
    TurnsInv(f, env, n, h.list, hist, FrameBudget(dev.speed), -1, false, a);
    FrameIsolation(h, dev, setupStage, env, n);
    var r := After(h, dev, setupStage, env, n);
    var all := hist + r.given;
    forall i | 0 <= i < |all|
      ensures all[i].urb.id < h.nextId
    {
      if i >= |hist| {
        GivenBefore(h, r.given, multiset(Ids(r.hcd.list[..r.due])), i - |hist|);
      }
    }
    forall i, j | 0 <= i < |all| && 0 <= j < |r.hcd.list|
      ensures InOrder(all[i].urb, r.hcd.list[j], a)
    {
      if j < r.due {
        assert InOrder(all[i].urb, r.hcd.list[..r.due][j], a);
      } else {
        LaterInOrder(all[i].urb, r.hcd.list[j], a);
      }
    }
  }

  lemma LaterInOrder(u: Urb, v: Urb, a: nat)
    requires u.id < v.id
    ensures InOrder(u, v, a)
  {
  }

  // No lost wakeup across a frame; if the bus is not suspended while the frame runs, not even
  // for URBs unlinked during it.
  lemma FrameWakes(h: Hcd, dev: Device, setupStage: bool, env: Env)
    requires HcdValid(h) && Ends(Begin(h, dev, setupStage), env)
    ensures Awake(Finish(Scan(h, dev, setupStage, env).hcd))
    ensures NoSuspend(env) ==> UnlinkedAwake(Finish(Scan(h, dev, setupStage, env).hcd))
  {
    hide Run, Turns, Ids, GivenIds, Find, Scan, Ends, AtEnd, Begin;
    var n := ScanIsAfter(h, dev, setupStage, env);
    FrameIsolation(h, dev, setupStage, env, n);
    var r := Scan(h, dev, setupStage, env);
    if NoSuspend(env) && r.hcd.list != [] && !r.hcd.running {
      assert Wakeful(Begin(h, dev, setupStage).hcd, r.hcd) by { TurnsWakeful(Begin(h, dev, setupStage), env, n); }
      BeginList(h, dev, setupStage);
      UnlinkedAreNew(h, dev, setupStage, env);
      assert UnlinkedIds(r.hcd.list) <= UnlinkedIds(h.list) ==> UnlinkedIds(r.hcd.list) == {};
    }
  }

  lemma BeginList(h: Hcd, dev: Device, setupStage: bool)
    ensures Begin(h, dev, setupStage).hcd == h.(fence := -1, pending := false)
  {
  }

  // What is unlinked after a frame was not unlinked before it.
  lemma UnlinkedAreNew(h: Hcd, dev: Device, setupStage: bool, env: Env)
    requires HcdValid(h) && Ends(Begin(h, dev, setupStage), env)
    ensures UnlinkedIds(Scan(h, dev, setupStage, env).hcd.list) !! UnlinkedIds(h.list)
  {
    hide Run, HcdValid, Scan, Turns, Begin, Ends, AtEnd;
    var n := ScanIsAfter(h, dev, setupStage, env);
    FrameIsolation(h, dev, setupStage, env, n);
    var r := Scan(h, dev, setupStage, env);
    forall id | id in UnlinkedIds(r.hcd.list)
      ensures id !in UnlinkedIds(h.list)
    {
      var u :| u in r.hcd.list && u.unlinked && u.id == id;
      var j :| 0 <= j < |r.hcd.list| && r.hcd.list[j] == u;
      if j >= r.due {
        UnlinkedBelow(h);
      }
    }
  }

  lemma UnlinkedBelow(h: Hcd)
    requires HcdValid(h)
    ensures forall id | id in UnlinkedIds(h.list) :: id < h.nextId
  {
    forall id | id in UnlinkedIds(h.list)
      ensures id < h.nextId
    {
      var u :| u in h.list && u.unlinked && u.id == id;
      var j :| 0 <= j < |h.list| && h.list[j] == u;
    }
  }

  // ---- All frames ----

  // Something happens on the bus: a host operation, or the timer fires.
  datatype Event = Host(op: HostOp) | Tick(dev: Device, setupStage: bool, env: Env)

  // Within each frame find_endpoint gives the same answer for address a, or the bus is not suspended.
  ghost predicate AllSteadyAt(events: seq<Event>, a: nat) {
    forall e | e in events :: e.Tick? ==> SteadyAt(e.env, e.dev, a)
  }

  ghost predicate NoFrameSuspended(events: seq<Event>) { forall e | e in events :: e.Tick? ==> NoSuspend(e.env) }

  // The frame, if the event is one, is over at some time.
  ghost predicate FrameEnds(h: Hcd, e: Event) {
    e.Tick? && h.udev ==> Ends(Begin(h, e.dev, e.setupStage), e.env)
  }

  ghost function Happen(h: Hcd, hist: seq<Done>, e: Event): (Hcd, seq<Done>)
    requires FrameEnds(h, e)
  {
    match e
    case Host(op) => (Apply(h, op), hist)
    case Tick(dev, setupStage, env) =>
      if !h.udev then (h.(pending := false), hist)
      else var r := Scan(h, dev, setupStage, env); (Finish(r.hcd), hist + r.given)
  }

  lemma HappenKeeps(h: Hcd, hist: seq<Done>, e: Event)
    requires Awake(h) && Conserved(h, hist) && FrameEnds(h, e)
    ensures var (h', hist') := Happen(h, hist, e);
            && Awake(h') && Conserved(h', hist')
            && (UnlinkedAwake(h) && (e.Tick? ==> NoSuspend(e.env)) ==> UnlinkedAwake(h'))
  {
    hide Scan, Conserved, NoSuspend, UnlinkedIds, Apply, Ends, Begin;
    match e
    case Host(op) =>
      HostOpsKeepAwake(h, op);
      HostConserves(h, hist, op);
    case Tick(dev, setupStage, env) =>
      if h.udev {
        FrameWakes(h, dev, setupStage, env);
        TickConserves(h, hist, dev, setupStage, env);
      } else {
        IdleTick(h, hist);
      }
  }

  lemma HappenOrders(h: Hcd, hist: seq<Done>, e: Event, a: nat)
    requires Awake(h) && Conserved(h, hist) && FrameEnds(h, e) && Fifo(hist, h.list, a)
    requires e.Tick? ==> SteadyAt(e.env, e.dev, a)
    ensures var (h', hist') := Happen(h, hist, e); Fifo(hist', h'.list, a)
  {
    hide Scan, Conserved, Fifo, SteadyAt, Apply, Ends, Begin;
    match e
    case Host(op) => HostOrder(h, hist, op, a);
    case Tick(dev, setupStage, env) =>
      if h.udev {
        TickOrder(h, hist, dev, setupStage, env, a);
      }
  }

  lemma IdleTick(h: Hcd, hist: seq<Done>)
    requires Awake(h) && !h.udev && Conserved(h, hist)
    ensures Conserved(h.(pending := false), hist) && Awake(h.(pending := false)) && UnlinkedIds(h.list) == {}
  {
  }

  // Every frame of the run is over at some time.
  ghost predicate FramesEnd(h: Hcd, hist: seq<Done>, events: seq<Event>)
    decreases |events|
  {
    events == []
    || (FrameEnds(h, events[0]) && var (h', hist') := Happen(h, hist, events[0]); FramesEnd(h', hist', events[1..]))
  }

  // Stale requests are put back finitely often in each frame: then every frame ends.
  ghost predicate AllCalm(events: seq<Event>) { forall e | e in events :: e.Tick? ==> Calm(e.env) }

  lemma {:induction false} CalmRunEnds(h: Hcd, hist: seq<Done>, events: seq<Event>)
    requires Awake(h) && Conserved(h, hist) && AllCalm(events)
    ensures FramesEnd(h, hist, events)
    decreases |events|
  {
    hide Conserved, Awake, Happen, Calm, Ends, Begin;
    if events != [] {
      var e := events[0];
      assert e in events && forall x | x in events[1..] :: x in events;
      if e.Tick? {
        BeginEnds(h, e.dev, e.setupStage, e.env);
      }
      HappenKeeps(h, hist, e);
      var (h', hist') := Happen(h, hist, e);
      CalmRunEnds(h', hist', events[1..]);
    }
  }

  lemma BeginEnds(h: Hcd, dev: Device, setupStage: bool, env: Env)
    requires Awake(h) && Calm(env)
    ensures Ends(Begin(h, dev, setupStage), env)
  {
    hide Calm, Ends;
    CalmEnds(Begin(h, dev, setupStage), env);
  }

  ghost function Exec(h: Hcd, hist: seq<Done>, events: seq<Event>): (Hcd, seq<Done>)
    requires FramesEnd(h, hist, events)
    decreases |events|
  {
    if events == [] then (h, hist)
    else
      var (h', hist') := Happen(h, hist, events[0]);
      Exec(h', hist', events[1..])
  }

  lemma {:induction false} ExecKeeps(h: Hcd, hist: seq<Done>, events: seq<Event>)
    requires Awake(h) && Conserved(h, hist) && FramesEnd(h, hist, events)
    ensures var (h', hist') := Exec(h, hist, events);
            && Awake(h') && Conserved(h', hist')
            && (NoFrameSuspended(events) && UnlinkedAwake(h) ==> UnlinkedAwake(h'))
    decreases |events|
  {
    hide Conserved, HcdValid, UnlinkedAwake, Happen, NoSuspend, FrameEnds;
    if events != [] {
      HappenKeeps(h, hist, events[0]);
      var (h', hist') := Happen(h, hist, events[0]);
      ExecKeeps(h', hist', events[1..]);
    }
  }

  lemma {:induction false} ExecOrders(h: Hcd, hist: seq<Done>, events: seq<Event>, a: nat)
    requires Awake(h) && Conserved(h, hist) && FramesEnd(h, hist, events) && AllSteadyAt(events, a) && Fifo(hist, h.list, a)
    ensures var (h', hist') := Exec(h, hist, events); Fifo(hist', h'.list, a)
    decreases |events|
  {
    hide Conserved, HcdValid, Fifo, Happen, SteadyAt, FrameEnds;
    if events != [] {
      HappenKeeps(h, hist, events[0]);
      HappenOrders(h, hist, events[0], a);
      var (h', hist') := Happen(h, hist, events[0]);
      ExecOrders(h', hist', events[1..], a);
    }
  }

  const FRESH_HUB := Hcd([], -1, false, false, true, 0)

  // Every run of the host controller, from dummy_start on, whose frames end: the timer is armed
  // when needed, each URB queued is given back at most once and otherwise still listed; as long as
  // no frame is suspended in the middle, unlinked URBs keep the timer armed too; and for each
  // endpoint that find_endpoint finds alike throughout each frame, URBs come back in the order
  // queued.
  lemma WholeRun(events: seq<Event>)
    requires FramesEnd(FRESH_HUB, [], events)
    ensures Conserved(FRESH_HUB, [])
    ensures var (h, hist) := Exec(FRESH_HUB, [], events);
            && Awake(h) && Conserved(h, hist)
            && (NoFrameSuspended(events) ==> UnlinkedAwake(h))
            && (forall a: nat | AllSteadyAt(events, a) :: Fifo(hist, h.list, a))
  {
    hide SteadyAt, FramesEnd;
    FreshConserved();
    ExecKeeps(FRESH_HUB, [], events);
    var (h, hist) := Exec(FRESH_HUB, [], events);
    forall a: nat | AllSteadyAt(events, a) ensures Fifo(hist, h.list, a) {
      ExecOrders(FRESH_HUB, [], events, a);
    }
  }

  // In particular every run whose handlers put stale requests back only finitely often.
  lemma CalmRun(events: seq<Event>)
    requires AllCalm(events)
    ensures FramesEnd(FRESH_HUB, [], events)
  {
    FreshConserved();
    CalmRunEnds(FRESH_HUB, [], events);
  }

  lemma FreshConserved()
    ensures Conserved(FRESH_HUB, []) && Awake(FRESH_HUB)
  {
    assert Upto(0) == [] && Ids([]) == [] && GivenIds([]) == [];
  }

  // 0 .. n-1
  function Upto(n: nat): seq<nat> { seq(n, i => i) }

  // Every URB ever queued was given back once, or is on the list once.
  predicate Conserved(h: Hcd, hist: seq<Done>) {
    multiset(GivenIds(hist)) + multiset(Ids(h.list)) == multiset(Upto(h.nextId))
  }

  lemma HostConserves(h: Hcd, hist: seq<Done>, op: HostOp)
    requires HcdValid(h) && Conserved(h, hist)
    ensures Conserved(Apply(h, op), hist)
  {
    hide HcdValid;
    match op
    case Enqueue(address, pipe) =>
      var u := Urb(h.nextId, address, pipe, false, pipe == Control);
      assert Apply(h, op).list == h.list + [u];
      SnocIds(h.list, u);
      assert Upto(h.nextId + 1) == Upto(h.nextId) + [h.nextId];
    case Unlink(id) => SameIds(h.list, MarkUnlinked(h.list, id));
    case _ =>
  }

  lemma SnocIds(list: seq<Urb>, u: Urb)
    ensures Ids(list + [u]) == Ids(list) + [u.id]
  {
  }

  lemma SameIds(list: seq<Urb>, list': seq<Urb>)
    requires |list| == |list'| && forall i :: 0 <= i < |list| ==> list[i].id == list'[i].id
    ensures Ids(list) == Ids(list')
  {
  }

  lemma TickConserves(h: Hcd, hist: seq<Done>, dev: Device, setupStage: bool, env: Env)
    requires HcdValid(h) && Ends(Begin(h, dev, setupStage), env) && Conserved(h, hist)
    ensures var r := Scan(h, dev, setupStage, env);
            Conserved(Finish(r.hcd), hist + r.given)
  {
    hide Run, HcdValid, Scan, Turns, Begin, Ends, AtEnd;
    var n := ScanIsAfter(h, dev, setupStage, env);
    var r := Scan(h, dev, setupStage, env);
    FrameIsolation(h, dev, setupStage, env, n);
    var due, arrived := Ids(r.hcd.list[..r.due]), seq(|r.hcd.list| - r.due, i => h.nextId + i);
    assert Ids(r.hcd.list) == due + arrived;
    assert Upto(r.hcd.nextId) == Upto(h.nextId) + arrived;
    assert GivenIds(hist + r.given) == GivenIds(hist) + GivenIds(r.given);
  }

  lemma TickOrder(h: Hcd, hist: seq<Done>, dev: Device, setupStage: bool, env: Env, a: nat)
    requires HcdValid(h) && Ends(Begin(h, dev, setupStage), env)
    requires Conserved(h, hist) && SteadyAt(env, dev, a) && Fifo(hist, h.list, a)
    ensures var r := Scan(h, dev, setupStage, env);
            Fifo(hist + r.given, Finish(r.hcd).list, a)
  {
    hide Run, HcdValid, Scan, SteadyAt, Fifo, Turns, Begin, Ends, AtEnd;
    forall i | 0 <= i < |hist|
      ensures hist[i].urb.id < h.nextId
    {
      HistoryBefore(h, hist, i);
    }
    var n := ScanIsAfter(h, dev, setupStage, env);
    FrameOrder(h, dev, setupStage, env, n, hist, a);
  }

  lemma HostOrder(h: Hcd, hist: seq<Done>, op: HostOp, a: nat)
    requires HcdValid(h) && Conserved(h, hist) && Fifo(hist, h.list, a)
    ensures Fifo(hist, Apply(h, op).list, a)
  {
    hide Conserved, InOrder;
    var h' := Apply(h, op);
    ApplyGrows(h, op);
    forall i, j | 0 <= i < |hist| && 0 <= j < |h'.list|
      ensures InOrder(hist[i].urb, h'.list[j], a)
    {
      if j < |h.list| {
        SameInOrder(hist[i].urb, h.list[j], h'.list[j], a);
      } else {
        HistoryBefore(h, hist, i);
        LaterInOrder(hist[i].urb, h'.list[j], a);
      }
    }
  }

  lemma HistoryBefore(h: Hcd, hist: seq<Done>, i: nat)
    requires Conserved(h, hist) && i < |hist|
    ensures hist[i].urb.id < h.nextId
  {
    assert GivenIds(hist)[i] in GivenIds(hist);
    assert hist[i].urb.id in multiset(Upto(h.nextId));
    var j :| 0 <= j < h.nextId && Upto(h.nextId)[j] == hist[i].urb.id;
  }
}
