// What the conditions on the scheduler are there for: how far its promises go, exactly.

module ScheduleLimits {
  import opened Schedule
  import opened ScheduleProofs

  const EP0 := Endpoint(true, 0, false, 64, 0, Control)
  const EP1 := Endpoint(true, 1, false, 64, 0, Bulk)
  const BOUND_DEVICE := Device(true, true, Full, [EP0, EP1], 0)

  // ---- The first steps of a frame ----

  // The first URB is not unlinked and is given to transfer at once.
  predicate ServesFirst(h: Hcd, dev: Device, setupStage: bool) {
    && HcdValid(h) && h.running && h.list != [] && dev.speed != Unknown
    && var u := h.list[0];
       var ep := Find(dev, u.address);
       !u.unlinked && ep != -1 && !dev.eps[ep].halted && !(ep == 0 && (setupStage || u.isNew))
  }

  lemma BeginValid(h: Hcd, dev: Device, setupStage: bool)
    requires HcdValid(h)
    ensures var f := Begin(h, dev, setupStage);
            FrameValid(f) && (AtEnd(f) <==> h.list == []) && (dev.speed != Unknown ==> f.total > 0)
  {
    AtEndIffNoneDue(Begin(h, dev, setupStage));
  }

  // The window of a transfer that moves nothing and leaves the URB in progress.
  lemma FirstServed(h: Hcd, dev: Device, setupStage: bool, env: Env)
    requires ServesFirst(h, dev, setupStage) && env(0).status == -EINPROGRESS && env(0).sent == 0
    ensures var f := Begin(h, dev, setupStage);
            && FrameValid(f) && !AtEnd(f)
            && Visit(f, env) == f.(seen := {Find(dev, h.list[0].address)}, hcd := ApplyAll(f.hcd, env(0).ops),
                                   dev := env(0).dev, clock := 1, pos := 1)
  {
    hide Find, ApplyAll, LimitFor, FrameBudget;
    BeginValid(h, dev, setupStage);
    var f, ep := Begin(h, dev, setupStage), Find(dev, h.list[0].address);
    var g := Mark(f, ep);
    assert g == f.(seen := {ep});
    assert Visit(f, env) == Serve(g, ep, LimitFor(g, ep, h.list[0].pipe), env);
  }

  // Without a binding an URB is returned at once.
  lemma Refused(f: Frame, env: Env)
    requires FrameValid(f) && f.pos < f.due && f.hcd.running && f.total > 0 && env(f.clock).ops == []
    requires !f.hcd.list[f.pos].unlinked && Find(f.dev, f.hcd.list[f.pos].address) == -1
    ensures !AtEnd(f)
    ensures Visit(f, env) == Remove(f, -1, -EPROTO).(dev := env(f.clock).dev, clock := f.clock + 1)
  {
    hide Find;
    AtEndIffNoneDue(f);
  }

  lemma {:induction false} TurnsGiven(f: Frame, env: Env, n: nat)
    requires FrameValid(f)
    ensures f.given <= Turns(f, env, n).given
    decreases n
  {
    hide Visit, HcdValid, Find;
    AtEndIffNoneDue(f);
    if n > 0 && !AtEnd(f) && f.due > 0 {
      VisitKeeps(f, env);
      VisitShape(f, env);
      TurnsGiven(Visit(f, env), env, n - 1);
    }
  }

  lemma RunGiven(f: Frame, env: Env)
    requires FrameValid(f) && Ends(f, env)
    ensures f.given <= Run(f, env).given
  {
    hide FrameValid, Turns;
    TurnsGiven(f, env, Length(f, env));
  }

  // Nobody requeues anything.
  lemma QuietEnds(h: Hcd, dev: Device, setupStage: bool, env: Env)
    requires HcdValid(h) && forall n :: env(n).requeued == 0
    ensures Ends(Begin(h, dev, setupStage), env)
  {
    assert CalmFrom(env, 0);
    BeginValid(h, dev, setupStage);
    CalmEnds(Begin(h, dev, setupStage), env);
  }

  // ---- Unlinking and suspend ----

  // On a stopped hub the scan passes over everything that is not unlinked.
  lemma {:induction false} StoppedSkips(f: Frame, env: Env)
    requires FrameValid(f) && Ends(f, env) && !f.hcd.running
    requires forall i | f.pos <= i < f.due :: !f.hcd.list[i].unlinked
    ensures Run(f, env) == f.(pos := f.due)
    decreases f.due - f.pos
  {
    hide HcdValid, Find, Ends, Run;
    AtEndIffNoneDue(f);
    if f.pos < f.due {
      RunStep(f, env);
      assert Visit(f, env) == f.(pos := f.pos + 1);
      StoppedSkips(Visit(f, env), env);
    } else {
      RunEnd(f, env);
    }
  }

  function Stranding(id: nat, dev: Device): Env {
    n => Window([Unlink(id), BusSuspend], dev, 0, -EINPROGRESS, 0, 0, 0)
  }

  lemma UnlinkThenSuspend(h: Hcd, id: nat)
    requires h.running && exists u :: u in h.list && u.id == id && !u.unlinked
    ensures ApplyAll(h, [Unlink(id), BusSuspend]) == h.(list := MarkUnlinked(h.list, id), running := false)
  {
    var ops := [Unlink(id), BusSuspend];
    assert ops[1..] == [BusSuspend] && ops[1..][1..] == [];
    var m := Apply(h, ops[0]);
    assert m == h.(list := MarkUnlinked(h.list, id));
    assert ApplyAll(h, ops) == ApplyAll(m, [BusSuspend]) == Apply(m, BusSuspend);
  }

  lemma NoneUnlinked(list: seq<Urb>)
    requires UnlinkedIds(list) == {}
    ensures forall i | 0 <= i < |list| :: !list[i].unlinked
  {
    assert forall u | u in list && u.unlinked :: u.id in UnlinkedIds(list);
    assert forall i | 0 <= i < |list| :: list[i] in list;
  }

  // Unlinked by its own transfer's completion handler and then suspended, the first URB stays on
  // the list, and nothing arms the timer.
  lemma Strands(h: Hcd, dev: Device, setupStage: bool)
    requires ServesFirst(h, dev, setupStage) && UnlinkedIds(h.list) == {}
    ensures var env := Stranding(h.list[0].id, dev);
            && Ends(Begin(h, dev, setupStage), env)
            && var r := Finish(Scan(h, dev, setupStage, env).hcd);
            !r.pending && !r.running && h.list[0].id in UnlinkedIds(r.list)
  {
    hide Run, ApplyAll, Find;
    var env, id := Stranding(h.list[0].id, dev), h.list[0].id;
    QuietEnds(h, dev, setupStage, env);
    FirstServed(h, dev, setupStage, env);
    var f := Begin(h, dev, setupStage);
    var g := Visit(f, env);
    RunStep(f, env);
    assert h.list[0] in f.hcd.list;
    UnlinkThenSuspend(f.hcd, id);
    NoneUnlinked(h.list);
    forall i | 1 <= i < g.due ensures !g.hcd.list[i].unlinked {
      assert h.list[0].id < h.list[i].id;
    }
    StoppedSkips(g, env);
    assert g.hcd.list[0].unlinked && g.hcd.list[0] in g.hcd.list;
  }

  // On a running hub with nothing unlinked whose first URB is served, an unlinked URB cannot be
  // forgotten, whatever happens during the frame, exactly if the bus cannot be suspended then.
  lemma ForgetsIff(h: Hcd, dev: Device, setupStage: bool, suspends: bool)
    requires ServesFirst(h, dev, setupStage) && UnlinkedIds(h.list) == {}
    ensures (forall env | Ends(Begin(h, dev, setupStage), env) && (suspends || NoSuspend(env)) ::
               UnlinkedAwake(Finish(Scan(h, dev, setupStage, env).hcd)))
       <==> !suspends
  {
    hide Scan, Find, ServesFirst, Ends, Begin, UnlinkedIds;
    ServesValid(h, dev, setupStage);
    if suspends {
      Strands(h, dev, setupStage);
      var env := Stranding(h.list[0].id, dev);
      assert !UnlinkedAwake(Finish(Scan(h, dev, setupStage, env).hcd));
    } else {
      forall env | Ends(Begin(h, dev, setupStage), env) && NoSuspend(env)
        ensures UnlinkedAwake(Finish(Scan(h, dev, setupStage, env).hcd))
      {
        FrameWakes(h, dev, setupStage, env);
      }
    }
  }

  lemma ServesValid(h: Hcd, dev: Device, setupStage: bool)
    requires ServesFirst(h, dev, setupStage)
    ensures HcdValid(h) && h.list != []
  {
  }

  // A concrete frame: one bulk URB on a running, bound device.
  lemma SuspendedFrameForgetsUnlink()
    ensures var h := Apply(FRESH_HUB, Enqueue(1, Bulk));
            && Awake(h) && UnlinkedAwake(h)
            && Ends(Begin(h, BOUND_DEVICE, false), Stranding(0, BOUND_DEVICE))
            && var r := Finish(Scan(h, BOUND_DEVICE, false, Stranding(0, BOUND_DEVICE)).hcd);
            !r.pending && 0 in UnlinkedIds(r.list)
  {
    hide Find, Scan, Stranding;
    var h := Apply(FRESH_HUB, Enqueue(1, Bulk));
    BoundFinds();
    assert h.list == [Urb(0, 1, Bulk, false, false)];
    Strands(h, BOUND_DEVICE, false);
  }

  lemma BoundFinds()
    ensures Find(BOUND_DEVICE, 1) == 1 && Find(BOUND_DEVICE.(ep0Queue := 1), 0) == 0
  {
    assert BOUND_DEVICE.eps[1] == EP1;
  }

  // ---- Rebinding ----

  function Inactive(dev: Device): Device { dev.(active := false) }

  function Rebinding(dev: Device): Env { n => Window([], Inactive(dev), 0, -EINPROGRESS, 0, 0, 0) }

  // With the link inactive after the first URB was served, the second comes back first.
  lemma Reorders(h: Hcd, dev: Device, setupStage: bool)
    requires ServesFirst(h, dev, setupStage) && |h.list| > 1 && !h.list[1].unlinked
    ensures Ends(Begin(h, dev, setupStage), Rebinding(dev))
    ensures [Done(h.list[1], -EPROTO), Done(h.list[0], -EPROTO)] <= Scan(h, dev, setupStage, Rebinding(dev)).given
  {
    hide Run, Find, FrameBudget;
    var env, dev' := Rebinding(dev), Inactive(dev);
    QuietEnds(h, dev, setupStage, env);
    var f := Begin(h, dev, setupStage);
    BeginValid(h, dev, setupStage);
    FirstServed(h, dev, setupStage, env);
    var g := Visit(f, env);
    RunStep(f, env);
    assert g.hcd == f.hcd;
    NotFound(dev, h.list[1].address);
    Refused(g, env);
    var k := Visit(g, env);
    RunStep(g, env);
    assert k.given == [Done(h.list[1], -EPROTO)] && k.hcd.list[0] == h.list[0] && k.pos == 0;
    NotFound(dev, h.list[0].address);
    Refused(k, env);
    var l := Visit(k, env);
    RunStep(k, env);
    assert l.given == [Done(h.list[1], -EPROTO), Done(h.list[0], -EPROTO)];
    RunGiven(l, env);
  }

  lemma NotFound(dev: Device, address: nat)
    ensures Find(Inactive(dev), address) == -1
  {
  }

  // With two URBs for one endpoint in front of which the first is served, the order of that
  // endpoint is kept, whatever happens during the frame, exactly if find_endpoint cannot change its
  // answer for the address then.
  lemma ReordersIff(h: Hcd, dev: Device, setupStage: bool, a: nat, rebinds: bool)
    requires ServesFirst(h, dev, setupStage) && |h.list| > 1 && !h.list[1].unlinked
    requires On(a, h.list[0]) && On(a, h.list[1])
    ensures (forall env | Ends(Begin(h, dev, setupStage), env) && (rebinds || SteadyAt(env, dev, a)) ::
               var r := Scan(h, dev, setupStage, env); Fifo(r.given, r.hcd.list, a))
       <==> !rebinds
  {
    hide Scan, Find, ServesFirst, Ends, Begin, Turns, AtEnd, SteadyAt, On;
    ServesValid(h, dev, setupStage);
    if rebinds {
      Reorders(h, dev, setupStage);
      var env := Rebinding(dev);
      var r := Scan(h, dev, setupStage, env);
      assert r.given[0] == Done(h.list[1], -EPROTO) && r.given[1] == Done(h.list[0], -EPROTO);
      assert h.list[0].id < h.list[1].id && !h.list[0].unlinked by { FirstLinked(h, dev, setupStage); }
      assert !InOrder(r.given[0].urb, r.given[1].urb, a);
      assert !Fifo(r.given, r.hcd.list, a);
    } else {
      forall env | Ends(Begin(h, dev, setupStage), env) && SteadyAt(env, dev, a)
        ensures var r := Scan(h, dev, setupStage, env); Fifo(r.given, r.hcd.list, a)
      {
        var n := ScanIsAfter(h, dev, setupStage, env);
        FrameOrder(h, dev, setupStage, env, n, [], a);
        var r := Scan(h, dev, setupStage, env);
        assert [] + r.given == r.given;
      }
    }
  }

  lemma FirstLinked(h: Hcd, dev: Device, setupStage: bool)
    requires ServesFirst(h, dev, setupStage) && |h.list| > 1
    ensures !h.list[0].unlinked && h.list[0].id < h.list[1].id
  {
  }

  // A concrete frame: two bulk URBs on a running, bound device.
  lemma UnsteadyFrameReorders()
    ensures var u, v := Urb(0, 1, Bulk, false, false), Urb(1, 1, Bulk, false, false);
            var h := Hcd([u, v], -1, true, true, true, 2);
            && Awake(h) && Ends(Begin(h, BOUND_DEVICE, false), Rebinding(BOUND_DEVICE))
            && [Done(v, -EPROTO), Done(u, -EPROTO)] <= Scan(h, BOUND_DEVICE, false, Rebinding(BOUND_DEVICE)).given
  {
    hide Find, Scan, Rebinding;
    var u, v := Urb(0, 1, Bulk, false, false), Urb(1, 1, Bulk, false, false);
    BoundFinds();
    Reorders(Hcd([u, v], -1, true, true, true, 2), BOUND_DEVICE, false);
  }

  // ---- Stale requests put back on ep0 ----

  lemma TurnsSnoc(f: Frame, env: Env, n: nat)
    ensures var g := Turns(f, env, n);
            Turns(f, env, n + 1) == if AtEnd(g) || g.due == 0 then g else Visit(g, env)
  {
    hide Visit, AtEnd;
    TurnsOn(f, env, n, 1);
    OneTurn(Turns(f, env, n), env);
  }

  lemma OneTurn(f: Frame, env: Env)
    ensures Turns(f, env, 1) == if AtEnd(f) || f.due == 0 then f else Visit(f, env)
  {
    hide Visit, AtEnd;
    if !AtEnd(f) && f.due != 0 {
      assert Turns(Visit(f, env), env, 0) == Visit(f, env);
    }
  }

  // A control URB that has to be set up heads the list, and ep0 is free to serve it.
  predicate SettingUp(f: Frame) {
    && FrameValid(f) && f.pos == 0 < f.due && f.hcd.running && f.total > 0 && 0 !in f.seen
    && var u := f.hcd.list[0];
       !u.unlinked && Find(f.dev, u.address) == 0 && (f.setupStage || u.isNew)
  }

  // Nothing happens in the windows of the frame but the handlers of stale requests.
  ghost predicate OnlyRequeues(f: Frame, env: Env) {
    forall n :: env(n).ops == [] && env(n).dev.(ep0Queue := 0) == f.dev.(ep0Queue := 0)
  }

  // Stale requests left after n of them have been given back.
  function StaleLeft(f: Frame, env: Env, n: nat): int {
    if n == 0 then f.dev.ep0Queue else StaleLeft(f, env, n - 1) - 1 + env(f.clock + n - 1).requeued
  }

  // The frame as the scan finds it again, with `left` stale requests.
  function Again(f: Frame, n: nat, left: nat): Frame
    requires f.hcd.list != []
  {
    f.(hcd := f.hcd.(list := f.hcd.list[0 := f.hcd.list[0].(isNew := false)]), setupStage := true,
       dev := f.dev.(ep0Queue := left), clock := f.clock + n)
  }

  lemma AgainSettingUp(f: Frame, n: nat, left: nat)
    requires SettingUp(f)
    ensures SettingUp(Again(f, n, left)) && !AtEnd(Again(f, n, left))
  {
    hide Find;
    var g := Again(f, n, left);
    FindIgnoresQueue(f.dev, left, f.hcd.list[0].address);
    assert HcdValid(g.hcd) by {
      MarkKeeps(f, 0);
      assert Mark(f, 0).hcd == g.hcd || f.hcd == g.hcd;
    }
    AtEndIffNoneDue(g);
  }

  lemma StaleTurn(f: Frame, env: Env)
    requires SettingUp(f) && f.dev.ep0Queue > 0 && env(f.clock).ops == []
    requires env(f.clock).dev.(ep0Queue := 0) == f.dev.(ep0Queue := 0)
    ensures !AtEnd(f)
    ensures Visit(f, env) == Again(f, 1, f.dev.ep0Queue - 1 + env(f.clock).requeued)
  {
    hide Find;
    AtEndIffNoneDue(f);
    var g := Mark(f, 0);
    var left := f.dev.ep0Queue - 1 + env(f.clock).requeued;
    assert g.setupStage && g.hcd == Again(f, 0, left).hcd;
    assert Visit(f, env) == FlushStale(g, env);
    assert f.seen + {0} - {0} == f.seen;
    assert env(f.clock).dev.(ep0Queue := left) == f.dev.(ep0Queue := left) by {
      assert env(f.clock).dev.(ep0Queue := 0).(ep0Queue := left) == f.dev.(ep0Queue := 0).(ep0Queue := left);
    }
  }

  // As long as stale requests are left the scan comes back to where it was.
  lemma {:induction false} StaleTurns(f: Frame, env: Env, n: nat)
    requires SettingUp(f) && OnlyRequeues(f, env) && forall k | 0 <= k < n :: StaleLeft(f, env, k) > 0
    ensures n > 0 ==> StaleLeft(f, env, n) >= 0 && Turns(f, env, n) == Again(f, n, StaleLeft(f, env, n))
    decreases n
  {
    hide SettingUp, Visit, OnlyRequeues;
    if n > 0 {
      StaleTurns(f, env, n - 1);
      TurnsSnoc(f, env, n - 1);
      var left, g := StaleLeft(f, env, n - 1), Turns(f, env, n - 1);
      assert left > 0;
      if n > 1 {
        SettingUpShape(f);
        AgainSettingUp(f, n - 1, left);
      }
      SettingUpShape(f);
      SettingUpShape(g);
      QuietWindow(f, env, g.clock);
      StaleTurn(g, env);
      assert Visit(g, env) == Again(f, n, StaleLeft(f, env, n)) by { AgainOn(f, g, n - 1, left, StaleLeft(f, env, n)); }
    }
  }

  lemma SettingUpShape(f: Frame)
    requires SettingUp(f)
    ensures f.hcd.list != [] && f.due > 0
  {
  }

  lemma QuietWindow(f: Frame, env: Env, n: nat)
    requires OnlyRequeues(f, env)
    ensures env(n).ops == [] && env(n).dev.(ep0Queue := 0) == f.dev.(ep0Queue := 0)
  {
  }

  lemma AgainOn(f: Frame, g: Frame, n: nat, left: nat, left': nat)
    requires f.hcd.list != [] && g.hcd.list != [] && (g == Again(f, n, left) || (n == 0 && g == f))
    ensures Again(g, 1, left') == Again(f, n + 1, left')
  {
    var l := f.hcd.list;
    assert l[0 := l[0].(isNew := false)][0 := l[0].(isNew := false)] == l[0 := l[0].(isNew := false)];
  }

  // With no stale request left the one URB of the frame is set up, and the scan is over.
  lemma SetUpEnds(f: Frame, env: Env)
    requires SettingUp(f) && f.due == 1 && f.dev.ep0Queue == 0
    ensures !AtEnd(f) && AtEnd(Visit(f, env))
  {
    hide HcdValid, Find;
    AtEndIffNoneDue(f);
    var g := Mark(f, 0);
    MarkKeeps(f, 0);
    assert Visit(f, env) == Setup(g, env);
    SetupKeeps(g, env);
    SetupShape(g, env);
    AtEndIffNoneDue(Visit(f, env));
  }

  // The first point at which no stale request is left.
  lemma {:induction false} FirstEmpty(f: Frame, env: Env, n: nat) returns (m: nat)
    requires StaleLeft(f, env, n) <= 0
    ensures StaleLeft(f, env, m) == 0 && forall k | 0 <= k < m :: StaleLeft(f, env, k) > 0
    decreases n
  {
    if k: nat :| k < n && StaleLeft(f, env, k) <= 0 {
      m := FirstEmpty(f, env, k);
    } else {
      m := n;
      if n > 0 {
        assert StaleLeft(f, env, n - 1) > 0;
      }
    }
  }

  // A frame that has one URB, to be set up on ep0, ends exactly if its handlers at some point
  // leave no stale request behind.
  lemma StaleScanEndsIff(f: Frame, env: Env)
    requires SettingUp(f) && f.due == 1 && OnlyRequeues(f, env)
    ensures Ends(f, env) <==> (exists n: nat :: StaleLeft(f, env, n) <= 0)
  {
    hide SettingUp, Visit, OnlyRequeues, AtEnd;
    if exists n: nat :: StaleLeft(f, env, n) <= 0 {
      var n: nat :| StaleLeft(f, env, n) <= 0;
      var m := FirstEmpty(f, env, n);
      var g := Turns(f, env, m);
      StaleTurns(f, env, m);
      SettingUpShape(f);
      if m > 0 {
        AgainSettingUp(f, m, 0);
      }
      SettingUpShape(g);
      SetUpEnds(g, env);
      TurnsSnoc(f, env, m);
      assert EndsBy(f, env, m + 1);
    } else {
      forall n: nat ensures !EndsBy(f, env, n) {
        StaleTurns(f, env, n);
        SettingUpShape(f);
        if n > 0 {
          AgainSettingUp(f, n, StaleLeft(f, env, n));
        } else {
          NotAtEnd(f);
        }
      }
    }
  }

  lemma NotAtEnd(f: Frame)
    requires SettingUp(f)
    ensures !AtEnd(f)
  {
    AtEndIffNoneDue(f);
  }

  // A concrete frame: one control URB just queued, one stale request, and a handler that queues
  // every request again.  However many turns, the scan is not over and nothing has come back.
  lemma RequeueingSpins(n: nat)
    ensures var h := Apply(FRESH_HUB, Enqueue(0, Control));
            var dev := BOUND_DEVICE.(ep0Queue := 1);
            var env: Env := k => Window([], dev, 0, 0, 0, 0, 1);
            var f := After(h, dev, false, env, n);
            Awake(h) && !AtEnd(f) && f.given == []
  {
    var h, dev := Apply(FRESH_HUB, Enqueue(0, Control)), BOUND_DEVICE.(ep0Queue := 1);
    var env: Env := k => Window([], dev, 0, 0, 0, 0, 1);
    var f := Begin(h, dev, false);
    BeginValid(h, dev, false);
    BoundFinds();
    assert SettingUp(f);
    hide SettingUp, Visit, Begin;
    forall k ensures StaleLeft(f, env, k) == 1 {
      OneLeft(f, env, k);
    }
    StaleTurns(f, env, n);
    SettingUpShape(f);
    if n > 0 {
      AgainSettingUp(f, n, 1);
    } else {
      NotAtEnd(f);
    }
  }

  lemma {:induction false} OneLeft(f: Frame, env: Env, k: nat)
    requires f.dev.ep0Queue == 1 && forall n :: env(n).requeued == 1
    ensures StaleLeft(f, env, k) == 1
    decreases k
  {
    if k > 0 {
      OneLeft(f, env, k - 1);
    }
  }
}
