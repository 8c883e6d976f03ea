// The manager's VM loop (patch/syzkaller/manager.go:324-337, 344-494): which VMs are free, fuzz,
// or reproduce a crash, and which crashes are queued or being reproduced.  What the loop receives
// on its channels, and what needRepro answers, are arbitrary.

module VmLoop {

  // `title` is the title of the crash's report.
  datatype Crash = Crash(id: int, title: int)

  datatype Repro = Repro(title: int, vms: seq<int>)

  datatype Loop = Loop(free: seq<int>, running: seq<int>, repros: seq<Repro>, queue: seq<Crash>, pending: set<Crash>,
                       reproducing: set<int>, reproInstances: int, stopPending: bool, shutdown: bool)

  datatype Event =
    | Stop                                            // a running instance takes the stop request
    | RunDone(i: nat, crashes: set<Crash>)            // at most one crash, that needs a repro
    | ReproDone(i: nat)
    | Shutdown
    | HubRepro(crash: Crash)

  // What one pass of the loop sees: the order in which it ranges over pendingRepro, the answers of
  // needRepro, whether the phase allows repros, and the event it waits for.
  datatype Turn = Turn(order: seq<Crash>, need: Crash -> bool, phaseOk: bool, event: Event)

  function PerRepro(n: nat): nat { if 4 > n then n else 4 }

  function CountDown(n: nat): seq<int> { if n == 0 then [] else [n - 1] + CountDown(n - 1) }

  function Start(n: nat): Loop { Loop(CountDown(n), [], [], [], {}, {}, 0, false, false) }

  // ---- One pass ----

  function Admit(s: Loop, c: Crash, need: Crash -> bool): Loop {
    if c !in s.pending || c.title in s.reproducing then s else
    var t := s.(pending := s.pending - {c});
    if need(c) then t.(reproducing := s.reproducing + {c.title}, queue := s.queue + [c]) else t
  }

  function AdmitAll(s: Loop, order: seq<Crash>, need: Crash -> bool): Loop
    decreases |order|
  {
    if order == [] then s else AdmitAll(Admit(s, order[0], need), order[1..], need)
  }

  predicate CanRepro(s: Loop, n: nat, phaseOk: bool) {
    phaseOk && s.queue != [] && s.reproInstances + PerRepro(n) <= n
  }

  function StartRepro(s: Loop, k: nat): Loop
    requires s.queue != [] && k <= |s.free|
  {
    var last, rest := |s.queue| - 1, |s.free| - k;
    s.(queue := s.queue[..last], free := s.free[..rest], reproInstances := s.reproInstances + k,
       repros := s.repros + [Repro(s.queue[last].title, s.free[rest..])])
  }

  function StartRepros(s: Loop, n: nat, phaseOk: bool): Loop
    decreases |s.queue|
  {
    if CanRepro(s, n, phaseOk) && |s.free| >= PerRepro(n)
    then StartRepros(StartRepro(s, PerRepro(n)), n, phaseOk)
    else s
  }

  function StartRun(s: Loop): Loop
    requires s.free != []
  {
    var last := |s.free| - 1;
    s.(free := s.free[..last], running := s.running + [s.free[last]])
  }

  function StartRuns(s: Loop, n: nat, phaseOk: bool): Loop
    decreases |s.free|
  {
    if !CanRepro(s, n, phaseOk) && s.free != [] then StartRuns(StartRun(s), n, phaseOk) else s
  }

  function Schedule(s: Loop, n: nat, t: Turn): Loop {
    var a := AdmitAll(s, t.order, t.need);
    if a.shutdown then a else StartRuns(StartRepros(a, n, t.phaseOk), n, t.phaseOk)
  }

  predicate Possible(s: Loop, n: nat, phaseOk: bool, e: Event) {
    match e
    case Stop => !s.stopPending && CanRepro(s, n, phaseOk) && s.running != []
    case RunDone(i, crashes) => i < |s.running| && |crashes| <= 1
    case ReproDone(i) => i < |s.repros|
    case Shutdown => !s.shutdown
    case HubRepro(_) => true
  }

  function Without<T>(xs: seq<T>, i: nat): seq<T>
    requires i < |xs|
  {
    xs[..i] + xs[i + 1..]
  }

  function Handle(s: Loop, n: nat, phaseOk: bool, e: Event): Loop
    requires Possible(s, n, phaseOk, e)
  {
    match e
    case Stop => s.(stopPending := true)
    case RunDone(i, crashes) =>
      s.(stopPending := false, free := s.free + [s.running[i]], running := Without(s.running, i),
         pending := if s.shutdown then s.pending else s.pending + crashes)
    case ReproDone(i) =>
      s.(reproducing := s.reproducing - {s.repros[i].title}, free := s.free + s.repros[i].vms,
         reproInstances := s.reproInstances - PerRepro(n), repros := Without(s.repros, i))
    case Shutdown => s.(shutdown := true)
    case HubRepro(c) => s.(pending := s.pending + {c})
  }

  // The loop's condition.
  predicate Over(s: Loop, n: nat) { s.shutdown && |s.free| == n }

  predicate Runs(s: Loop, n: nat, ts: seq<Turn>)
    decreases |ts|
  {
    ts == [] ||
    (!Over(s, n) && Possible(Schedule(s, n, ts[0]), n, ts[0].phaseOk, ts[0].event) &&
     Runs(Handle(Schedule(s, n, ts[0]), n, ts[0].phaseOk, ts[0].event), n, ts[1..]))
  }

  function Run(s: Loop, n: nat, ts: seq<Turn>): Loop
    requires Runs(s, n, ts)
    decreases |ts|
  {
    if ts == [] then s else Run(Handle(Schedule(s, n, ts[0]), n, ts[0].phaseOk, ts[0].event), n, ts[1..])
  }

  // ---- Counting ----

  function Occ(xs: seq<int>, v: int): nat {
    if xs == [] then 0 else (if xs[0] == v then 1 else 0) + Occ(xs[1..], v)
  }

  function Vms(repros: seq<Repro>): seq<int> {
    if repros == [] then [] else repros[0].vms + Vms(repros[1..])
  }

  function Titles(repros: seq<Repro>): seq<int> {
    if repros == [] then [] else [repros[0].title] + Titles(repros[1..])
  }

  function Queued(queue: seq<Crash>): seq<int> {
    if queue == [] then [] else [queue[0].title] + Queued(queue[1..])
  }

  lemma {:induction false} OccConcat(a: seq<int>, b: seq<int>, v: int)
    ensures Occ(a + b, v) == Occ(a, v) + Occ(b, v)
  {
    if a == [] {
      assert a + b == b;
    } else {
      assert (a + b)[1..] == a[1..] + b;
      OccConcat(a[1..], b, v);
    }
  }

  lemma OccSplit(a: seq<int>, k: nat, v: int)
    requires k <= |a|
    ensures Occ(a, v) == Occ(a[..k], v) + Occ(a[k..], v)
  {
    OccConcat(a[..k], a[k..], v);
    assert a[..k] + a[k..] == a;
  }

  lemma OccWithout(a: seq<int>, i: nat, v: int)
    requires i < |a|
    ensures Occ(a, v) == Occ(Without(a, i), v) + if a[i] == v then 1 else 0
  {
    OccSplit(a, i, v);
    OccConcat(a[..i], a[i + 1..], v);
    assert a[i..][1..] == a[i + 1..];
  }

  lemma OccOne(x: int, v: int)
    ensures Occ([x], v) == if x == v then 1 else 0
  {
  }

  lemma {:induction false} VmsConcat(a: seq<Repro>, b: seq<Repro>)
    ensures Vms(a + b) == Vms(a) + Vms(b) && Titles(a + b) == Titles(a) + Titles(b)
  {
    if a == [] {
      assert a + b == b;
    } else {
      assert (a + b)[1..] == a[1..] + b;
      VmsConcat(a[1..], b);
    }
  }

  lemma VmsOne(r: Repro)
    ensures Vms([r]) == r.vms && Titles([r]) == [r.title]
  {
    assert [r][1..] == [];
  }

  lemma VmsWithout(repros: seq<Repro>, i: nat, v: int)
    requires i < |repros|
    ensures Occ(Vms(repros), v) == Occ(Vms(Without(repros, i)), v) + Occ(repros[i].vms, v)
    ensures Occ(Titles(repros), v) == Occ(Titles(Without(repros, i)), v) + (if repros[i].title == v then 1 else 0)
    ensures |Vms(repros)| == |Vms(Without(repros, i))| + |repros[i].vms|
  {
    hide Occ, Vms, Titles;
    var a, r, b := repros[..i], repros[i], repros[i + 1..];
    assert repros == a + ([r] + b);
    VmsConcat(a, [r] + b);
    VmsConcat([r], b);
    VmsConcat(a, b);
    VmsOne(r);
    OccOne(r.title, v);
    OccConcat(Vms(a), r.vms + Vms(b), v);
    OccConcat(r.vms, Vms(b), v);
    OccConcat(Vms(a), Vms(b), v);
    OccConcat(Titles(a), [r.title] + Titles(b), v);
    OccConcat([r.title], Titles(b), v);
    OccConcat(Titles(a), Titles(b), v);
  }

  lemma {:induction false} QueuedConcat(a: seq<Crash>, b: seq<Crash>)
    ensures Queued(a + b) == Queued(a) + Queued(b)
  {
    if a == [] {
      assert a + b == b;
    } else {
      assert (a + b)[1..] == a[1..] + b;
      QueuedConcat(a[1..], b);
    }
  }

  // ---- What every pass keeps ----

  predicate VmsAt(s: Loop, n: nat, v: int) {
    Occ(s.free, v) + Occ(s.running, v) + Occ(Vms(s.repros), v) == if 0 <= v < n then 1 else 0
  }

  predicate TitleAt(s: Loop, t: int) {
    Occ(Titles(s.repros), t) + Occ(Queued(s.queue), t) == if t in s.reproducing then 1 else 0
  }

  // Every VM is in exactly one place, once.
  ghost predicate Partition(s: Loop, n: nat) {
    && (forall v :: VmsAt(s, n, v))
    && |s.free| + |s.running| + |Vms(s.repros)| == n
  }

  // The titles queued and being reproduced are `reproducing`, none twice.
  ghost predicate TitlesMatch(s: Loop) { forall t :: TitleAt(s, t) }

  predicate Books(s: Loop, n: nat) {
    && (forall r | r in s.repros :: |r.vms| == PerRepro(n))
    && s.reproInstances == |Vms(s.repros)| <= n
    && (s.stopPending ==> s.running != [])
  }

  ghost predicate Inv(s: Loop, n: nat) { Partition(s, n) && TitlesMatch(s) && Books(s, n) }

  lemma AdmitKeeps(s: Loop, c: Crash, need: Crash -> bool, n: nat)
    requires Inv(s, n)
    ensures Inv(Admit(s, c, need), n)
  {
    hide Occ, Vms, Titles, Queued, PerRepro;
    var t := Admit(s, c, need);
    assert forall v :: VmsAt(s, n, v) <==> VmsAt(t, n, v);
    forall x ensures TitleAt(t, x) {
      assert TitleAt(s, x);
      QueuedConcat(s.queue, [c]);
      QueuedOne(c);
      OccConcat(Queued(s.queue), [c.title], x);
      OccOne(c.title, x);
    }
  }

  lemma QueuedOne(c: Crash)
    ensures Queued([c]) == [c.title]
  {
    assert [c][1..] == [];
  }

  lemma {:induction false} AdmitAllKeeps(s: Loop, order: seq<Crash>, need: Crash -> bool, n: nat)
    requires Inv(s, n)
    ensures Inv(AdmitAll(s, order, need), n)
    decreases |order|
  {
    hide Inv, Admit;
    if order != [] {
      AdmitKeeps(s, order[0], need, n);
      AdmitAllKeeps(Admit(s, order[0], need), order[1..], need, n);
    }
  }

  lemma StartReproKeeps(s: Loop, n: nat, phaseOk: bool)
    requires Inv(s, n) && CanRepro(s, n, phaseOk) && |s.free| >= PerRepro(n)
    ensures Inv(StartRepro(s, PerRepro(n)), n)
  {
    hide Occ, Vms, Titles, Queued, PerRepro;
    var k := PerRepro(n);
    var t := StartRepro(s, k);
    var last, rest := |s.queue| - 1, |s.free| - k;
    var r := Repro(s.queue[last].title, s.free[rest..]);
    VmsConcat(s.repros, [r]);
    VmsOne(r);
    forall v ensures VmsAt(t, n, v) {
      assert VmsAt(s, n, v);
      OccSplit(s.free, rest, v);
      OccConcat(Vms(s.repros), r.vms, v);
    }
    assert s.queue == s.queue[..last] + [s.queue[last]];
    QueuedConcat(s.queue[..last], [s.queue[last]]);
    QueuedOne(s.queue[last]);
    forall x ensures TitleAt(t, x) {
      assert TitleAt(s, x);
      OccConcat(Queued(s.queue[..last]), [r.title], x);
      OccConcat(Titles(s.repros), [r.title], x);
    }
  }

  lemma {:induction false} StartReprosKeeps(s: Loop, n: nat, phaseOk: bool)
    requires Inv(s, n)
    ensures Inv(StartRepros(s, n, phaseOk), n)
    decreases |s.queue|
  {
    hide Inv;
    if CanRepro(s, n, phaseOk) && |s.free| >= PerRepro(n) {
      StartReproKeeps(s, n, phaseOk);
      StartReprosKeeps(StartRepro(s, PerRepro(n)), n, phaseOk);
    }
  }

  lemma StartRunKeeps(s: Loop, n: nat)
    requires Inv(s, n) && s.free != []
    ensures Inv(StartRun(s), n)
  {
    hide Occ, Vms, Titles, Queued, PerRepro;
    var t, last := StartRun(s), |s.free| - 1;
    assert s.free[last..] == [s.free[last]];
    forall v ensures VmsAt(t, n, v) {
      assert VmsAt(s, n, v);
      OccSplit(s.free, last, v);
      OccConcat(s.running, [s.free[last]], v);
    }
    assert forall x :: TitleAt(s, x) <==> TitleAt(t, x);
  }

  lemma {:induction false} StartRunsKeeps(s: Loop, n: nat, phaseOk: bool)
    requires Inv(s, n)
    ensures Inv(StartRuns(s, n, phaseOk), n)
    decreases |s.free|
  {
    hide Inv;
    if !CanRepro(s, n, phaseOk) && s.free != [] {
      StartRunKeeps(s, n);
      StartRunsKeeps(StartRun(s), n, phaseOk);
    }
  }

  lemma ScheduleKeeps(s: Loop, n: nat, t: Turn)
    requires Inv(s, n)
    ensures Inv(Schedule(s, n, t), n)
  {
    hide Inv;
    AdmitAllKeeps(s, t.order, t.need, n);
    var a := AdmitAll(s, t.order, t.need);
    StartReprosKeeps(a, n, t.phaseOk);
    StartRunsKeeps(StartRepros(a, n, t.phaseOk), n, t.phaseOk);
  }

  lemma RunDoneKeeps(s: Loop, n: nat, phaseOk: bool, e: Event)
    requires Inv(s, n) && Possible(s, n, phaseOk, e) && e.RunDone?
    ensures Inv(Handle(s, n, phaseOk, e), n)
  {
    hide Occ, Vms, Titles, Queued, PerRepro;
    var t := Handle(s, n, phaseOk, e);
    forall v ensures VmsAt(t, n, v) {
      assert VmsAt(s, n, v);
      OccWithout(s.running, e.i, v);
      OccConcat(s.free, [s.running[e.i]], v);
      OccOne(s.running[e.i], v);
    }
    assert forall x :: TitleAt(s, x) <==> TitleAt(t, x);
  }

  lemma ReproDoneKeeps(s: Loop, n: nat, phaseOk: bool, e: Event)
    requires Inv(s, n) && Possible(s, n, phaseOk, e) && e.ReproDone?
    ensures Inv(Handle(s, n, phaseOk, e), n)
  {
    hide Occ, Vms, Titles, Queued, PerRepro;
    var t := Handle(s, n, phaseOk, e);
    var r := s.repros[e.i];
    assert r in s.repros;
    VmsWithout(s.repros, e.i, 0);
    forall v ensures VmsAt(t, n, v) {
      assert VmsAt(s, n, v);
      VmsWithout(s.repros, e.i, v);
      OccConcat(s.free, r.vms, v);
    }
    forall x ensures TitleAt(t, x) {
      assert TitleAt(s, x);
      VmsWithout(s.repros, e.i, x);
    }
  }

  lemma HandleKeeps(s: Loop, n: nat, phaseOk: bool, e: Event)
    requires Inv(s, n) && Possible(s, n, phaseOk, e)
    ensures Inv(Handle(s, n, phaseOk, e), n)
  {
    if e.RunDone? {
      RunDoneKeeps(s, n, phaseOk, e);
    } else if e.ReproDone? {
      ReproDoneKeeps(s, n, phaseOk, e);
    } else {
      hide Occ, Vms, Titles, Queued, PerRepro;
      var t := Handle(s, n, phaseOk, e);
      assert forall v :: VmsAt(s, n, v) <==> VmsAt(t, n, v);
      assert forall x :: TitleAt(s, x) <==> TitleAt(t, x);
    }
  }

  lemma {:induction false} CountDownOcc(n: nat, v: int)
    ensures |CountDown(n)| == n && Occ(CountDown(n), v) == if 0 <= v < n then 1 else 0
  {
    if n > 0 {
      CountDownOcc(n - 1, v);
      OccConcat([n - 1], CountDown(n - 1), v);
    }
  }

  lemma StartInv(n: nat)
    ensures Inv(Start(n), n)
  {
    CountDownOcc(n, 0);
    forall v ensures VmsAt(Start(n), n, v) {
      CountDownOcc(n, v);
    }
    assert forall t :: TitleAt(Start(n), t);
  }

  lemma {:induction false} RunKeeps(s: Loop, n: nat, ts: seq<Turn>)
    requires Inv(s, n) && Runs(s, n, ts)
    ensures Inv(Run(s, n, ts), n)
    decreases |ts|
  {
    hide Inv, Schedule, Handle;
    if ts != [] {
      ScheduleKeeps(s, n, ts[0]);
      HandleKeeps(Schedule(s, n, ts[0]), n, ts[0].phaseOk, ts[0].event);
      RunKeeps(Handle(Schedule(s, n, ts[0]), n, ts[0].phaseOk, ts[0].event), n, ts[1..]);
    }
  }

  lemma {:induction false} VmsLength(repros: seq<Repro>, k: nat)
    requires forall r | r in repros :: |r.vms| == k
    ensures |Vms(repros)| == k * |repros|
  {
    if repros != [] {
      assert forall r | r in repros[1..] :: r in repros;
      assert repros[0] in repros;
      VmsLength(repros[1..], k);
      MulStep(k, |repros| - 1);
    }
  }

  lemma MulStep(k: nat, m: nat)
    ensures k * (m + 1) == k * m + k
  {
  }

  // In every state the loop can reach: the free, running and reproducing VMs partition 0..n-1,
  // reproInstances is what the repros hold, and the titles queued or being reproduced are exactly
  // `reproducing`, none of them twice.
  lemma EveryRun(n: nat, ts: seq<Turn>)
    requires Runs(Start(n), n, ts)
    ensures var s := Run(Start(n), n, ts);
            && (forall v :: Occ(s.free, v) + Occ(s.running, v) + Occ(Vms(s.repros), v) == if 0 <= v < n then 1 else 0)
            && (forall t :: Occ(Titles(s.repros), t) + Occ(Queued(s.queue), t) == if t in s.reproducing then 1 else 0)
            && (forall r | r in s.repros :: |r.vms| == PerRepro(n))
            && s.reproInstances == PerRepro(n) * |s.repros| <= n
            && (s.stopPending ==> s.running != [])
  {
    hide Occ, Vms, Titles, Queued, PerRepro;
    StartInv(n);
    RunKeeps(Start(n), n, ts);
    var s := Run(Start(n), n, ts);
    forall v ensures Occ(s.free, v) + Occ(s.running, v) + Occ(Vms(s.repros), v) == if 0 <= v < n then 1 else 0 {
      assert VmsAt(s, n, v);
    }
    forall t ensures Occ(Titles(s.repros), t) + Occ(Queued(s.queue), t) == if t in s.reproducing then 1 else 0 {
      assert TitleAt(s, t);
    }
    VmsLength(s.repros, PerRepro(n));
  }

  // ---- Progress ----

  lemma {:induction false} ReprosStarted(s: Loop, n: nat, phaseOk: bool)
    ensures var t := StartRepros(s, n, phaseOk);
            !(CanRepro(t, n, phaseOk) && |t.free| >= PerRepro(n)) && t.shutdown == s.shutdown
    decreases |s.queue|
  {
    hide PerRepro;
    if CanRepro(s, n, phaseOk) && |s.free| >= PerRepro(n) {
      ReprosStarted(StartRepro(s, PerRepro(n)), n, phaseOk);
    }
  }

  lemma {:induction false} RunsStarted(s: Loop, n: nat, phaseOk: bool)
    ensures var t := StartRuns(s, n, phaseOk);
            && CanRepro(t, n, phaseOk) == CanRepro(s, n, phaseOk) && t.shutdown == s.shutdown
            && (if CanRepro(s, n, phaseOk) then t == s else t.free == [])
    decreases |s.free|
  {
    hide PerRepro;
    if !CanRepro(s, n, phaseOk) && s.free != [] {
      RunsStarted(StartRun(s), n, phaseOk);
    }
  }

  lemma {:induction false} AdmitAllFrame(s: Loop, order: seq<Crash>, need: Crash -> bool)
    ensures var t := AdmitAll(s, order, need);
            && t.free == s.free && t.running == s.running && t.repros == s.repros && t.shutdown == s.shutdown
    decreases |order|
  {
    if order != [] {
      AdmitAllFrame(Admit(s, order[0], need), order[1..], need);
    }
  }

  // Before shutdown no VM idles without a reason: one stays free only for a repro that waits for
  // more of them, and then an instance runs that takes the stop request or already has.
  lemma NeverIdles(s: Loop, n: nat, t: Turn)
    requires Inv(s, n) && !s.shutdown
    ensures var u := Schedule(s, n, t);
            u.free != [] ==>
              && CanRepro(u, n, t.phaseOk) && |u.free| < PerRepro(n)
              && u.running != []
              && (u.stopPending || Possible(u, n, t.phaseOk, Stop))
  {
    hide Occ, Vms, Titles, Queued, StartRepros, StartRuns, AdmitAll, PerRepro;
    var a := AdmitAll(s, t.order, t.need);
    AdmitAllFrame(s, t.order, t.need);
    var b := StartRepros(a, n, t.phaseOk);
    ReprosStarted(a, n, t.phaseOk);
    RunsStarted(b, n, t.phaseOk);
    ScheduleKeeps(s, n, t);
  }

  // After shutdown nothing starts: instances and repros only end, one by one.
  lemma ShutdownDrains(s: Loop, n: nat, t: Turn)
    requires Inv(s, n) && s.shutdown && Possible(Schedule(s, n, t), n, t.phaseOk, t.event)
    ensures var u := Handle(Schedule(s, n, t), n, t.phaseOk, t.event);
            && u.shutdown
            && |u.running| + |u.repros| == |s.running| + |s.repros| - (if t.event.RunDone? || t.event.ReproDone? then 1 else 0)
  {
    hide Occ, Vms, Titles, Queued, AdmitAll, PerRepro;
    AdmitAllFrame(s, t.order, t.need);
  }

  // So the loop ends when the last of them has, and never without a shutdown.
  lemma OverIff(s: Loop, n: nat)
    requires Inv(s, n)
    ensures Over(s, n) <==> s.shutdown && s.running == [] && forall r | r in s.repros :: r.vms == []
  {
    hide Occ, Titles, Queued;
    NoVmsIff(s.repros);
  }

  lemma {:induction false} NoVmsIff(repros: seq<Repro>)
    ensures Vms(repros) == [] <==> forall r | r in repros :: r.vms == []
  {
    if repros != [] {
      NoVmsIff(repros[1..]);
      assert repros == [repros[0]] + repros[1..];
    }
  }

  // When the loop ends all VMs are back, each once, and no instance or repro is left behind.
  lemma OverMeansDone(n: nat, ts: seq<Turn>)
    requires Runs(Start(n), n, ts) && Over(Run(Start(n), n, ts), n)
    ensures var s := Run(Start(n), n, ts);
            && (forall v :: Occ(s.free, v) == if 0 <= v < n then 1 else 0)
            && s.running == [] && s.reproInstances == 0 && !s.stopPending
            && (n > 0 ==> s.repros == [])
  {
    hide Occ, Titles, Queued;
    StartInv(n);
    RunKeeps(Start(n), n, ts);
    var s := Run(Start(n), n, ts);
    assert Vms(s.repros) == [];
    forall v ensures Occ(s.free, v) == if 0 <= v < n then 1 else 0 {
      assert VmsAt(s, n, v);
      NoOcc(v);
    }
    VmsLength(s.repros, PerRepro(n));
  }

  lemma NoOcc(v: int)
    ensures Occ([], v) == 0
  {
  }
}
