// The root-hub port (patch/kernel/dummy_hcd.c:369-484, 856-907, 1087-1107, 1985-2365) in the
// high-speed configuration: one USB 2.0 root hub, a gadget that is never SuperSpeed, feature
// numbers below 32.  Bits and feature numbers are those of sections 11.24.2.2, 11.24.2.7 and
// 11.24.2.13 of USB 2.0.  Each operation is one atomic step; `log` is the sequence of
// callbacks made to the gadget driver.

module HubPort {

  // The port_status word is the set of its one bits; a bit's number is its feature selector.
  type Bits = set<nat>

  const CONNECTION := 0
  const ENABLE := 1
  const SUSPEND := 2
  const RESET := 4
  const LINK_STATE := 5
  const POWER := 8
  const LOW_SPEED := 9
  const HIGH_SPEED := 10
  const C_CONNECTION := 16
  const C_SUSPEND := 18
  const C_RESET := 20
  const U1_TIMEOUT := 23
  const U2_TIMEOUT := 24
  const BH_PORT_RESET := 28
  const PORT_C_MASK: Bits := {16, 17, 18, 19, 20}

  const EIO := 5
  const EINVAL := 22
  const EPIPE := 32
  const ENOLINK := 67
  const ETIMEDOUT := 110
  const ESHUTDOWN := 108
  const RESUME_MS := 20
  const RESET_MS := 50

  datatype RhState = RhReset | RhSuspended | RhRunning
  datatype Speed = Low | Full | High
  datatype Callback = ResetCb | DisconnectCb | SuspendCb | ResumeCb

  datatype Port = Port(status: Bits, oldStatus: Bits, active: bool, oldActive: bool, resuming: bool, reTimeout: int,
                       rhState: RhState, pullup: bool, udcSuspended: bool, intsEnabled: bool, speed: Speed,
                       log: seq<Callback>)

  // set_link_state_by_speed
  function LinkBySpeed(p: Port): Port {
    if POWER !in p.status then p.(status := {})
    else if !p.pullup || p.udcSuspended then
      var s := p.status - {CONNECTION, ENABLE, LOW_SPEED, HIGH_SPEED, SUSPEND};
      p.(status := if CONNECTION in p.oldStatus then s + {C_CONNECTION} else s)
    else
      var s := p.status + if CONNECTION !in p.oldStatus then {CONNECTION, C_CONNECTION} else {CONNECTION};
      if ENABLE !in s then p.(status := s - {SUSPEND})
      else p.(status := s, active := p.active || (SUSPEND !in s && p.rhState != RhSuspended))
  }

  // The callback set_link_state makes, if any.
  function LinkEvent(p: Port): seq<Callback> {
    if !p.intsEnabled then []
    else if POWER !in p.status || RESET in p.status then
      if RESET in p.status && RESET !in p.oldStatus then [ResetCb]
      else if POWER in p.oldStatus && POWER !in p.status then [DisconnectCb]
      else []
    else if p.active == p.oldActive then []
    else if p.oldActive then [SuspendCb] else [ResumeCb]
  }

  // set_link_state
  function LinkState(p: Port): Port {
    var q := LinkBySpeed(p.(active := false));
    var q := if ENABLE !in q.status || q.active then q.(resuming := false) else q;
    q.(log := q.log + LinkEvent(q), oldStatus := q.status, oldActive := q.active)
  }

  datatype Op =
    | ClearHubFeature | SetHubFeature | GetHubDescriptor | GetHubStatus | Unsupported
    | ClearPortFeature(feature: nat) | SetPortFeature(feature: nat) | GetPortStatus(wIndex: int)
    | HubStatus | Pullup(on: bool) | UdcPm(suspend: bool) | BusSuspend | BusResume | Wakeup(allowed: bool)
    | UdcStart | UdcStop

  function ResumeDone(p: Port, now: int): Port {
    if p.resuming && now >= p.reTimeout then p.(status := p.status + {C_SUSPEND} - {SUSPEND}) else p
  }

  function ResetDone(p: Port, now: int): Port {
    if RESET in p.status && now >= p.reTimeout then
      var s := p.status + {C_RESET} - {RESET};
      var speedBit := if p.speed == High then {HIGH_SPEED} else if p.speed == Low then {LOW_SPEED} else {};
      p.(status := if p.pullup then s + {ENABLE} + speedBit else s)
    else p
  }

  // What an operation does to the port before set_link_state, if it calls it at all.
  datatype Edit = Relink(port: Port) | Leave(port: Port)

  // dummy_wakeup; `allowed` is the device's remote-wakeup or HNP setting.
  function DoWakeup(p: Port, allowed: bool, now: int): (Edit, int) {
    if !allowed then (Leave(p), -EINVAL)
    else if CONNECTION !in p.status then (Leave(p), -ENOLINK)
    else if SUSPEND !in p.status && p.rhState != RhSuspended then (Leave(p), -EIO)
    else (Leave(p.(resuming := true, reTimeout := now + RESUME_MS)), 0)
  }

  // dummy_hub_status; the return value is computed from the new status, see `Apply`.
  function DoHubStatus(p: Port, now: int): (Edit, int) {
    (if p.resuming && now >= p.reTimeout then Relink(ResumeDone(p, now)) else Leave(p), 0)
  }

  // The bits after SetPortFeature of anything but SUSPEND.
  function FeatureBits(status: Bits, f: nat): Bits {
    var s := if f == RESET then status - {ENABLE, LOW_SPEED, HIGH_SPEED} else status;
    if f == POWER || POWER in s then s + {f} else s
  }

  // SetPortFeature on a USB 2.0 root hub
  function SetFeature(p: Port, f: nat, now: int): Edit {
    if f == SUSPEND then
      if p.active then Relink(p.(status := p.status + {SUSPEND})) else Leave(p)
    else
      Relink(p.(status := FeatureBits(p.status, f), reTimeout := if f == RESET then now + RESET_MS else p.reTimeout))
  }

  // dummy_hub_control
  function HubControl(p: Port, op: Op, now: int): (Edit, int) {
    match op
    case ClearPortFeature(f) =>
      if f == SUSPEND then
        (Leave(if SUSPEND in p.status then p.(resuming := true, reTimeout := now + RESUME_MS) else p), 0)
      else (Relink(p.(status := p.status - {f})), 0)
    case GetPortStatus(wIndex) =>
      (Relink(ResetDone(ResumeDone(p, now), now)), if wIndex != 1 then -EPIPE else 0)
    case SetPortFeature(f) =>
      if f in {LINK_STATE, U1_TIMEOUT, U2_TIMEOUT, BH_PORT_RESET} then (Leave(p), -EPIPE)
      else (SetFeature(p, f, now), 0)
    case SetHubFeature => (Leave(p), -EPIPE)
    case Unsupported => (Leave(p), -EPIPE)
    case _ => (Leave(p), 0)
  }

  // One operation at time `now`.  `accessible` is HCD_HW_ACCESSIBLE.
  function Edits(p: Port, op: Op, now: int, accessible: bool): (Edit, int) {
    match op
    case Pullup(on) => (Relink(p.(pullup := on)), 0)
    case UdcPm(suspend) => (Relink(p.(udcSuspended := suspend)), 0)
    case BusSuspend => (Relink(p.(rhState := RhSuspended)), 0)
    case BusResume => if accessible then (Relink(p.(rhState := RhRunning)), 0) else (Leave(p), -ESHUTDOWN)
    case UdcStart => (Leave(p.(intsEnabled := true)), 0)
    case UdcStop => (Leave(p.(intsEnabled := false)), 0)
    case Wakeup(allowed) => DoWakeup(p, allowed, now)
    case HubStatus => if accessible then DoHubStatus(p, now) else (Leave(p), 0)
    case _ => if accessible then HubControl(p, op, now) else (Leave(p), -ETIMEDOUT)
  }

  function Apply(p: Port, op: Op, now: int, accessible: bool): Port {
    var e := Edits(p, op, now, accessible).0;
    if e.Relink? then LinkState(e.port) else e.port
  }

  // The return value; dummy_hub_status reports whether a change bit is set.
  function Returns(p: Port, op: Op, now: int, accessible: bool): int {
    if op == HubStatus && accessible && Apply(p, op, now, accessible).status * PORT_C_MASK != {} then 1
    else Edits(p, op, now, accessible).1
  }

  // ---- What every operation keeps ----

  predicate PortInv(p: Port) {
    && (CONNECTION in p.status <==> POWER in p.status && p.pullup && !p.udcSuspended)
    && (ENABLE in p.status ==> CONNECTION in p.status)
    && (SUSPEND in p.status ==> ENABLE in p.status)
    && (p.active <==> ENABLE in p.status && SUSPEND !in p.status && p.rhState != RhSuspended)
    && (POWER !in p.status ==> p.status == {})
    && (p.resuming ==> !p.active)
    && p.oldStatus == p.status && p.oldActive == p.active
  }

  // Whatever an operation did to the bits before, set_link_state restores the invariant.
  lemma LinkStateSound(p: Port)
    ensures PortInv(LinkState(p))
  {
    var q := LinkBySpeed(p.(active := false));
    assert q.active <==> ENABLE in q.status && SUSPEND !in q.status && q.rhState != RhSuspended;
  }

  lemma ApplyKeeps(p: Port, op: Op, now: int, accessible: bool)
    requires PortInv(p)
    ensures PortInv(Apply(p, op, now, accessible))
  {
    hide LinkState, ResetDone, ResumeDone;
    LinkStateSound(Edits(p, op, now, accessible).0.port);
  }

  // ---- The connect-change latch ----

  lemma LinkStateLatch(p: Port)
    ensures var q := LinkState(p);
            && (POWER in q.status <==> POWER in p.status)
            && (POWER in q.status && (CONNECTION in q.status <==> CONNECTION !in p.oldStatus) ==> C_CONNECTION in q.status)
            && (POWER in q.status && C_CONNECTION in p.status ==> C_CONNECTION in q.status)
  {
  }

  predicate KeepsHistory(p: Port, q: Port, op: Op) {
    && q.oldStatus == p.oldStatus && q.oldActive == p.oldActive && q.log == p.log
    && (C_CONNECTION in p.status && op != ClearPortFeature(C_CONNECTION) ==> C_CONNECTION in q.status)
  }

  lemma DoneKeepsHistory(p: Port, op: Op, now: int)
    ensures KeepsHistory(p, ResumeDone(p, now), op)
    ensures KeepsHistory(p, ResetDone(ResumeDone(p, now), now), op)
  {
    var q := ResumeDone(p, now);
    assert KeepsHistory(p, q, op) && KeepsHistory(q, ResetDone(q, now), op);
  }

  lemma SetFeatureKeepsHistory(p: Port, f: nat, now: int)
    ensures var e := SetFeature(p, f, now);
            KeepsHistory(p, e.port, SetPortFeature(f)) && (e.Leave? ==> e.port == p)
  {
    if f == RESET {
    } else if f != SUSPEND {
      assert SetFeature(p, f, now).port.status == p.status || SetFeature(p, f, now).port.status == p.status + {f};
    }
  }

  lemma HubControlKeepsHistory(p: Port, op: Op, now: int)
    ensures var e := HubControl(p, op, now).0;
            KeepsHistory(p, e.port, op) && (e.Leave? ==> e.port.status == p.status && e.port.active == p.active)
  {
    hide ResetDone, ResumeDone, SetFeature;
    match op
    case ClearPortFeature(f) =>
    case GetPortStatus(wIndex) => DoneKeepsHistory(p, op, now);
    case SetPortFeature(f) => SetFeatureKeepsHistory(p, f, now);
    case _ =>
  }

  lemma EditKeepsHistory(p: Port, op: Op, now: int, accessible: bool)
    ensures var e := Edits(p, op, now, accessible).0;
            KeepsHistory(p, e.port, op) && (e.Leave? ==> e.port.status == p.status && e.port.active == p.active)
  {
    hide HubControl, ResetDone, ResumeDone;
    HubControlKeepsHistory(p, op, now);
    DoneKeepsHistory(p, op, now);
  }

  // While the port stays powered, a change of CONNECTION sets C_CONNECTION, and it stays set
  // until the host clears it.
  lemma ApplyLatches(p: Port, op: Op, now: int, accessible: bool)
    requires PortInv(p)
    ensures var q := Apply(p, op, now, accessible);
            && (POWER in q.status && (CONNECTION in p.status <==> CONNECTION !in q.status) ==> C_CONNECTION in q.status)
            && (C_CONNECTION in p.status && POWER in q.status && op != ClearPortFeature(C_CONNECTION)
                ==> C_CONNECTION in q.status)
  {
    hide LinkState, Edits;
    EditKeepsHistory(p, op, now, accessible);
    LinkStateLatch(Edits(p, op, now, accessible).0.port);
  }

  // ---- Suspend and resume callbacks ----

  // Every suspend callback has been answered by a resume callback.
  predicate Answered(log: seq<Callback>) {
    forall i :: 0 <= i < |log| && log[i] == SuspendCb ==> ResumeCb in log[i + 1..]
  }

  // Between two suspend callbacks there is a resume callback.
  predicate Alternates(log: seq<Callback>) {
    forall i, j :: 0 <= i < j < |log| && log[i] == SuspendCb && log[j] == SuspendCb ==> ResumeCb in log[i + 1..j]
  }

  // A port that is enabled while it is being reset.
  predicate Forced(p: Port) { RESET in p.status && ENABLE in p.status }

  // An active port owes no resume, nor does one that can become active without telling.
  predicate HistoryInv(p: Port) {
    && PortInv(p) && p.intsEnabled && Alternates(p.log)
    && (p.active || Forced(p) ==> Answered(p.log))
  }

  // The host does not force PORT_ENABLE on a port it is resetting, and the driver stays bound.
  predicate Polite(p: Port, op: Op) {
    op != UdcStop && (op == SetPortFeature(ENABLE) ==> RESET !in p.status)
  }

  lemma ResetExcludesEnable(p: Port, op: Op, now: int, accessible: bool)
    requires PortInv(p) && Polite(p, op)
    ensures var q := Edits(p, op, now, accessible).0.port;
            (!Forced(p) ==> !Forced(q)) && (p.intsEnabled ==> q.intsEnabled)
  {
    match op
    case SetPortFeature(f) => SetFeatureExcludes(p, f, now);
    case _ =>
  }

  lemma SetFeatureExcludes(p: Port, f: nat, now: int)
    requires PortInv(p) && (f == ENABLE ==> RESET !in p.status)
    ensures var q := SetFeature(p, f, now).port;
            (!Forced(p) ==> !Forced(q)) && q.intsEnabled == p.intsEnabled
  {
    if f == RESET {
    } else if f != SUSPEND {
      assert SetFeature(p, f, now).port.status == p.status || SetFeature(p, f, now).port.status == p.status + {f};
    }
  }

  // The callback of a link change, if any: a suspend is told of a port that was active, and not
  // during a reset; a port that becomes active is told to resume, except during a reset.
  lemma LinkStateNotifies(p: Port) returns (event: seq<Callback>)
    requires p.intsEnabled
    ensures var q := LinkState(p);
            && q.intsEnabled && (Forced(q) ==> Forced(p))
            && q.log == p.log + event && |event| <= 1
            && (event == [SuspendCb] ==> !q.active && p.oldActive && !Forced(q))
            && (q.active && !p.oldActive ==> event == [ResumeCb] || Forced(q))
  {
    event := LinkState(p).log[|p.log|..];
    var q := LinkBySpeed(p.(active := false));
    assert LinkState(p).log == p.log + event;
  }

  lemma AppendOther(log: seq<Callback>, c: Callback)
    requires Alternates(log) && c != SuspendCb
    ensures Alternates(log + [c])
    ensures Answered(log) || c == ResumeCb ==> Answered(log + [c])
  {
    var log' := log + [c];
    forall i, j | 0 <= i < j < |log'| && log'[i] == SuspendCb && log'[j] == SuspendCb
      ensures ResumeCb in log'[i + 1..j]
    {
      assert log'[i + 1..j] == log[i + 1..j];
    }
    forall i | 0 <= i < |log'| && log'[i] == SuspendCb
      ensures log'[i + 1..] == log[i + 1..] + [c]
    {
    }
  }

  lemma AppendSuspend(log: seq<Callback>)
    requires Alternates(log) && Answered(log)
    ensures Alternates(log + [SuspendCb])
  {
    var log' := log + [SuspendCb];
    forall i, j | 0 <= i < j < |log'| && log'[i] == SuspendCb && log'[j] == SuspendCb
      ensures ResumeCb in log'[i + 1..j]
    {
      assert log'[i + 1..j] == if j < |log| then log[i + 1..j] else log[i + 1..];
    }
  }

  lemma ApplyHistory(p: Port, op: Op, now: int, accessible: bool)
    requires HistoryInv(p) && Polite(p, op)
    ensures HistoryInv(Apply(p, op, now, accessible))
  {
    hide LinkState, Edits, Alternates, Answered, Forced;
    var e := Edits(p, op, now, accessible).0;
    ApplyKeeps(p, op, now, accessible);
    EditKeepsHistory(p, op, now, accessible);
    ResetExcludesEnable(p, op, now, accessible);
    if e.Relink? {
      var q := LinkState(e.port);
      var event := LinkStateNotifies(e.port);
      if event == [SuspendCb] {
        assert Answered(p.log);
        AppendSuspend(p.log);
      } else if event != [] {
        assert event == [event[0]];
        AppendOther(p.log, event[0]);
      } else {
        assert q.log == p.log;
      }
    }
  }

  // ---- Runs ----

  datatype Timed = Timed(op: Op, now: int, accessible: bool)

  function Run(p: Port, ops: seq<Timed>): Port
    decreases |ops|
  {
    if ops == [] then p else Run(Apply(p, ops[0].op, ops[0].now, ops[0].accessible), ops[1..])
  }

  const POWER_OFF := Port({}, {}, false, false, false, 0, RhRunning, false, false, false, High, [])

  lemma {:induction false} RunKeeps(p: Port, ops: seq<Timed>)
    requires PortInv(p)
    ensures PortInv(Run(p, ops))
    decreases |ops|
  {
    if ops != [] {
      ApplyKeeps(p, ops[0].op, ops[0].now, ops[0].accessible);
      RunKeeps(Apply(p, ops[0].op, ops[0].now, ops[0].accessible), ops[1..]);
    }
  }

  predicate PoliteRun(p: Port, ops: seq<Timed>)
    decreases |ops|
  {
    ops == [] || (Polite(p, ops[0].op) && PoliteRun(Apply(p, ops[0].op, ops[0].now, ops[0].accessible), ops[1..]))
  }

  lemma {:induction false} HistoryKept(p: Port, ops: seq<Timed>)
    requires HistoryInv(p) && PoliteRun(p, ops)
    ensures HistoryInv(Run(p, ops))
    decreases |ops|
  {
    hide Apply, HistoryInv, Polite;
    if ops != [] {
      ApplyHistory(p, ops[0].op, ops[0].now, ops[0].accessible);
      HistoryKept(Apply(p, ops[0].op, ops[0].now, ops[0].accessible), ops[1..]);
    }
  }

  // Resuming the bus during a forced reset tells nobody.
  lemma BusResumeQuiet(p: Port)
    requires PortInv(p) && Forced(p)
    ensures var q := Apply(p, BusResume, 0, true);
            PortInv(q) && Forced(q) && q.intsEnabled == p.intsEnabled && q.log == p.log && q.rhState == RhRunning
  {
    ApplyKeeps(p, BusResume, 0, true);
  }

  // Nor does resuming the port, when GetHubStatus comes first.
  lemma ResumeQuiet(p: Port)
    requires PortInv(p) && Forced(p) && p.rhState == RhRunning
    ensures var q := Apply(Apply(p, ClearPortFeature(SUSPEND), 0, true), HubStatus, RESUME_MS, true);
            PortInv(q) && Forced(q) && q.active && q.intsEnabled == p.intsEnabled && q.log == p.log
  {
    var m := Apply(p, ClearPortFeature(SUSPEND), 0, true);
    assert m == if SUSPEND in p.status then p.(resuming := true, reTimeout := RESUME_MS) else p;
    ApplyKeeps(m, HubStatus, RESUME_MS, true);
  }

  lemma ResetClearQuiet(p: Port)
    requires PortInv(p) && Forced(p) && p.active
    ensures var q := Apply(p, ClearPortFeature(RESET), 0, true);
            PortInv(q) && RESET !in q.status && q.active && q.intsEnabled == p.intsEnabled && q.log == p.log
  {
    ApplyKeeps(p, ClearPortFeature(RESET), 0, true);
  }

  lemma SuspendTold(p: Port)
    requires PortInv(p) && RESET !in p.status && p.active && p.intsEnabled
    ensures Apply(p, SetPortFeature(SUSPEND), 0, true).log == p.log + [SuspendCb]
  {
  }

  const SILENTLY := [Timed(BusResume, 0, true), Timed(ClearPortFeature(SUSPEND), 0, true), Timed(HubStatus, RESUME_MS, true),
                     Timed(ClearPortFeature(RESET), 0, true), Timed(SetPortFeature(SUSPEND), 0, true)]

  // A port forced to be enabled during its reset, with a suspend not answered, can be suspended
  // again.
  lemma ForcedBreaks(p: Port)
    requires PortInv(p) && p.intsEnabled && Forced(p)
    ensures PoliteRun(p, SILENTLY) && Run(p, SILENTLY).log == p.log + [SuspendCb]
  {
    hide Apply, PortInv;
    var a := Apply(p, BusResume, 0, true);
    BusResumeQuiet(p);
    var b := Apply(a, ClearPortFeature(SUSPEND), 0, true);
    var c := Apply(b, HubStatus, RESUME_MS, true);
    ResumeQuiet(a);
    var d := Apply(c, ClearPortFeature(RESET), 0, true);
    ResetClearQuiet(c);
    SuspendTold(d);
    var e := Apply(d, SetPortFeature(SUSPEND), 0, true);
    var t := SILENTLY;
    assert t == [t[0]] + ([t[1]] + ([t[2]] + ([t[3]] + [t[4]])));
    RunCons(d, t[4], []);
    RunCons(c, t[3], [t[4]]);
    RunCons(b, t[2], [t[3]] + [t[4]]);
    RunCons(a, t[1], [t[2]] + ([t[3]] + [t[4]]));
    RunCons(p, t[0], [t[1]] + ([t[2]] + ([t[3]] + [t[4]])));
    assert [t[4]] + [] == [t[4]];
    assert Run(e, []) == e;
  }

  lemma RunCons(p: Port, t: Timed, rest: seq<Timed>)
    ensures Run(p, [t] + rest) == Run(Apply(p, t.op, t.now, t.accessible), rest)
    ensures PoliteRun(p, [t] + rest) <==> Polite(p, t.op) && PoliteRun(Apply(p, t.op, t.now, t.accessible), rest)
  {
    hide Apply, Polite;
    assert ([t] + rest)[1..] == rest;
  }

  lemma SuspendedTwice(log: seq<Callback>)
    requires !Answered(log)
    ensures !Alternates(log + [SuspendCb])
  {
    var i :| 0 <= i < |log| && log[i] == SuspendCb && ResumeCb !in log[i + 1..];
    var log', j := log + [SuspendCb], |log|;
    assert log'[i + 1..j] == log[i + 1..];
    assert log'[i] == SuspendCb && log'[j] == SuspendCb;
  }

  lemma ActiveBreaks(p: Port)
    requires PortInv(p) && p.intsEnabled && p.active && !Forced(p)
    ensures var ops := [Timed(SetPortFeature(SUSPEND), 0, true)];
            PoliteRun(p, ops) && Run(p, ops).log == p.log + [SuspendCb]
  {
    SuspendTold(p);
    hide Apply, PortInv;
    var t := Timed(SetPortFeature(SUSPEND), 0, true);
    assert [t] + [] == [t];
    RunCons(p, t, []);
  }

  // A resume callback lies between two suspend callbacks in every run with a bound driver in which
  // the host does not enable the port during a reset: exactly if it does so far, and no suspend is
  // still to be answered on a port that is active, or that is being reset and enabled.
  lemma SuspendsAlternateIff(p: Port)
    requires PortInv(p) && p.intsEnabled
    ensures (forall ops | PoliteRun(p, ops) :: Alternates(Run(p, ops).log))
       <==> Alternates(p.log) && (p.active || Forced(p) ==> Answered(p.log))
  {
    hide PoliteRun, Run, Answered, Alternates, Forced, PortInv;
    if !Alternates(p.log) {
      NoRun(p);
      assert PoliteRun(p, []) && !Alternates(Run(p, []).log);
    } else if (p.active || Forced(p)) && !Answered(p.log) {
      SuspendedTwice(p.log);
      if Forced(p) {
        ForcedBreaks(p);
        assert PoliteRun(p, SILENTLY) && !Alternates(Run(p, SILENTLY).log);
      } else {
        ActiveBreaks(p);
        assert !Alternates(Run(p, [Timed(SetPortFeature(SUSPEND), 0, true)]).log);
      }
    } else {
      forall ops | PoliteRun(p, ops) ensures Alternates(Run(p, ops).log) {
        HistoryKept(p, ops);
      }
    }
  }

  lemma NoRun(p: Port)
    ensures PoliteRun(p, []) && Run(p, []) == p
  {
  }

  function Unlogged(p: Port): Port { p.(log := []) }

  // The log so far decides nothing.
  lemma LinkBySpeedIgnores(p: Port)
    ensures LinkBySpeed(Unlogged(p)) == Unlogged(LinkBySpeed(p)) && LinkBySpeed(p).log == p.log
  {
    var u := Unlogged(p);
    assert u.status == p.status && u.oldStatus == p.oldStatus;
    if POWER !in p.status {
    } else if !p.pullup || p.udcSuspended {
    } else {
      var s := p.status + if CONNECTION !in p.oldStatus then {CONNECTION, C_CONNECTION} else {CONNECTION};
      if ENABLE !in s {
        assert LinkBySpeed(p) == p.(status := s - {SUSPEND});
        assert LinkBySpeed(u) == u.(status := s - {SUSPEND});
      } else {
        assert LinkBySpeed(p).status == s && LinkBySpeed(u).status == s;
      }
    }
  }

  lemma LinkEventIgnores(p: Port)
    ensures LinkEvent(Unlogged(p)) == LinkEvent(p)
  {
  }

  lemma LinkAppends(p: Port)
    ensures Unlogged(LinkState(p)) == Unlogged(LinkState(Unlogged(p)))
    ensures LinkState(p).log == p.log + LinkState(Unlogged(p)).log
  {
    hide LinkBySpeed, LinkEvent;
    var d := p.(active := false);
    assert Unlogged(p).(active := false) == Unlogged(d);
    LinkBySpeedIgnores(d);
    var q := LinkBySpeed(d);
    var r := if ENABLE !in q.status || q.active then q.(resuming := false) else q;
    LinkEventIgnores(r);
    assert [] + LinkEvent(r) == LinkEvent(r);
  }

  lemma DoneIgnores(p: Port, now: int)
    ensures ResumeDone(Unlogged(p), now) == Unlogged(ResumeDone(p, now)) && ResumeDone(p, now).log == p.log
    ensures ResetDone(Unlogged(p), now) == Unlogged(ResetDone(p, now)) && ResetDone(p, now).log == p.log
  {
  }

  predicate SameEdit(p: Port, e: Edit, f: Edit) {
    e.Relink? == f.Relink? && f.port == Unlogged(e.port) && e.port.log == p.log
  }

  lemma FeatureIgnores(p: Port, f: nat, now: int)
    ensures SameEdit(p, SetFeature(p, f, now), SetFeature(Unlogged(p), f, now))
  {
    hide FeatureBits;
  }

  lemma HubControlIgnores(p: Port, op: Op, now: int)
    ensures SameEdit(p, HubControl(p, op, now).0, HubControl(Unlogged(p), op, now).0)
  {
    hide ResumeDone, ResetDone, SetFeature;
    match op {
      case ClearPortFeature(f) =>
        assert Unlogged(p).status == p.status;
        if f != SUSPEND {
          assert HubControl(p, op, now).0 == Relink(p.(status := p.status - {f}));
        }
      case GetPortStatus(_) =>
        DoneIgnores(p, now);
        DoneIgnores(ResumeDone(p, now), now);
      case SetPortFeature(f) => FeatureIgnores(p, f, now);
      case _ =>
    }
  }

  lemma EditIgnores(p: Port, op: Op, now: int, accessible: bool)
    ensures SameEdit(p, Edits(p, op, now, accessible).0, Edits(Unlogged(p), op, now, accessible).0)
  {
    hide DoHubStatus, DoWakeup, HubControl;
    match op {
      case HubStatus => HubStatusIgnores(p, now);
      case Wakeup(allowed) => WakeupIgnores(p, allowed, now);
      case Pullup(_) =>
      case UdcPm(_) =>
      case BusSuspend =>
      case BusResume =>
      case UdcStart =>
      case UdcStop =>
      case _ => HubControlIgnores(p, op, now);
    }
  }

  lemma HubStatusIgnores(p: Port, now: int)
    ensures SameEdit(p, DoHubStatus(p, now).0, DoHubStatus(Unlogged(p), now).0)
  {
    hide ResumeDone;
    DoneIgnores(p, now);
  }

  lemma WakeupIgnores(p: Port, allowed: bool, now: int)
    ensures SameEdit(p, DoWakeup(p, allowed, now).0, DoWakeup(Unlogged(p), allowed, now).0)
  {
  }

  lemma ApplyAppends(p: Port, op: Op, now: int, accessible: bool)
    ensures Unlogged(Apply(p, op, now, accessible)) == Unlogged(Apply(Unlogged(p), op, now, accessible))
    ensures Apply(p, op, now, accessible).log == p.log + Apply(Unlogged(p), op, now, accessible).log
  {
    hide LinkState, Edits;
    EditIgnores(p, op, now, accessible);
    LinkAppends(Edits(p, op, now, accessible).0.port);
    assert p.log + [] == p.log;
  }

  lemma {:induction false} RunAppends(p: Port, ops: seq<Timed>)
    ensures Unlogged(Run(p, ops)) == Unlogged(Run(Unlogged(p), ops))
    ensures Run(p, ops).log == p.log + Run(Unlogged(p), ops).log
    ensures PoliteRun(p, ops) <==> PoliteRun(Unlogged(p), ops)
    decreases |ops|
  {
    hide Apply;
    if ops == [] {
      assert p.log + [] == p.log;
    } else {
      var t := ops[0];
      var q, r := Apply(p, t.op, t.now, t.accessible), Apply(Unlogged(p), t.op, t.now, t.accessible);
      ApplyAppends(p, t.op, t.now, t.accessible);
      RunAppends(q, ops[1..]);
      RunAppends(r, ops[1..]);
      var rest := Run(Unlogged(q), ops[1..]).log;
      assert p.log + (r.log + rest) == p.log + r.log + rest;
    }
  }

  // From the moment a driver is bound, however the port got where it is, the callbacks it gets
  // in a polite run alternate.
  lemma BindingAlternates(before: seq<Timed>, ops: seq<Timed>)
    requires PoliteRun(Apply(Run(POWER_OFF, before), UdcStart, 0, true), ops)
    ensures var p := Apply(Run(POWER_OFF, before), UdcStart, 0, true);
            var log := Run(p, ops).log;
            && p.log <= log && Alternates(log[|p.log|..])
            && (Run(p, ops).active ==> Answered(log[|p.log|..]))
  {
    hide PoliteRun, Run, Alternates, Answered;
    RunKeeps(POWER_OFF, before);
    var p := Run(POWER_OFF, before);
    var q := Apply(p, UdcStart, 0, true);
    assert q == p.(intsEnabled := true);
    RunAppends(q, ops);
    assert HistoryInv(Unlogged(q)) by { NothingOwed(Unlogged(q)); }
    HistoryKept(Unlogged(q), ops);
    assert Run(q, ops).log[|q.log|..] == Run(Unlogged(q), ops).log;
    assert Run(q, ops).active == Unlogged(Run(q, ops)).active;
  }

  lemma NothingOwed(p: Port)
    requires p.log == []
    ensures Alternates(p.log) && Answered(p.log)
  {
  }

  predicate Powered(p: Port, ops: seq<Timed>)
    decreases |ops|
  {
    POWER in p.status && (ops == [] || Powered(Apply(p, ops[0].op, ops[0].now, ops[0].accessible), ops[1..]))
  }

  // Over any powered run in which the host does not clear it, a connect change is not lost.
  lemma {:induction false} ConnectChangeLatched(p: Port, ops: seq<Timed>)
    requires PortInv(p) && Powered(p, ops) && forall t | t in ops :: t.op != ClearPortFeature(C_CONNECTION)
    ensures C_CONNECTION in p.status ==> C_CONNECTION in Run(p, ops).status
    ensures (CONNECTION in p.status <==> CONNECTION !in Run(p, ops).status) ==> C_CONNECTION in Run(p, ops).status
    decreases |ops|
  {
    if ops != [] {
      hide Apply;
      var t := ops[0];
      assert t in ops;
      ApplyKeeps(p, t.op, t.now, t.accessible);
      ApplyLatches(p, t.op, t.now, t.accessible);
      ConnectChangeLatched(Apply(p, t.op, t.now, t.accessible), ops[1..]);
    }
  }

  function Running(status: Bits, active: bool, reTimeout: int, log: seq<Callback>): Port {
    Port(status, status, active, active, false, reTimeout, RhRunning, true, false, true, High, log)
  }

  const UP: Bits := {CONNECTION, ENABLE, POWER}
  const SUSPENDED_PORT := Running(UP + {SUSPEND}, false, 0, [SuspendCb])
  const RESETTING_PORT := Running({CONNECTION, RESET, POWER}, false, RESET_MS, [SuspendCb, ResetCb])
  const FORCED_PORT := Running(UP + {RESET}, true, RESET_MS, [SuspendCb, ResetCb])
  const CLEARED_PORT := Running(UP, true, RESET_MS, [SuspendCb, ResetCb])

  lemma SuspendThenReset()
    ensures Apply(Running(UP, true, 0, []), SetPortFeature(SUSPEND), 0, true) == SUSPENDED_PORT
    ensures Apply(SUSPENDED_PORT, SetPortFeature(RESET), 0, true) == RESETTING_PORT
  {
    assert UP + {SUSPEND} - {ENABLE, LOW_SPEED, HIGH_SPEED} + {RESET} - {SUSPEND} == {CONNECTION, RESET, POWER};
  }

  lemma ForceThenClear()
    ensures Apply(RESETTING_PORT, SetPortFeature(ENABLE), 0, true) == FORCED_PORT
    ensures Apply(FORCED_PORT, ClearPortFeature(RESET), 0, true) == CLEARED_PORT
  {
    assert {CONNECTION, RESET, POWER} + {ENABLE} == UP + {RESET};
    assert UP + {RESET} - {RESET} == UP;
  }

  lemma SuspendAgain()
    ensures Apply(CLEARED_PORT, SetPortFeature(SUSPEND), 0, true).log == [SuspendCb, ResetCb, SuspendCb]
  {
  }

  // Forcing PORT_ENABLE during a reset re-activates the port without a resume callback, so two
  // suspend callbacks follow each other.
  lemma ImpoliteRun()
    ensures var p := Running(UP, true, 0, []);
            var ops := [Timed(SetPortFeature(SUSPEND), 0, true), Timed(SetPortFeature(RESET), 0, true),
                        Timed(SetPortFeature(ENABLE), 0, true), Timed(ClearPortFeature(RESET), 0, true),
                        Timed(SetPortFeature(SUSPEND), 0, true)];
            HistoryInv(p) && Run(p, ops).log == [SuspendCb, ResetCb, SuspendCb]
  {
    hide Apply, HistoryInv, Running, Run;
    UpHistory();
    SuspendThenReset();
    ForceThenClear();
    SuspendAgain();
    RunFive(Running(UP, true, 0, []), Timed(SetPortFeature(SUSPEND), 0, true), Timed(SetPortFeature(RESET), 0, true),
            Timed(SetPortFeature(ENABLE), 0, true), Timed(ClearPortFeature(RESET), 0, true),
            Timed(SetPortFeature(SUSPEND), 0, true));
  }

  lemma UpHistory()
    ensures HistoryInv(Running(UP, true, 0, []))
  {
  }

  function Do(p: Port, t: Timed): Port { Apply(p, t.op, t.now, t.accessible) }

  lemma RunFive(p: Port, a: Timed, b: Timed, c: Timed, d: Timed, e: Timed)
    ensures Run(p, [a, b, c, d, e]) == Do(Do(Do(Do(Do(p, a), b), c), d), e)
  {
    hide Apply;
    assert [a, b, c, d, e] == [a] + ([b] + ([c] + ([d] + [e])));
    RunCons(p, a, [b] + ([c] + ([d] + [e])));
    RunCons(Do(p, a), b, [c] + ([d] + [e]));
    RunCons(Do(Do(p, a), b), c, [d] + [e]);
    RunCons(Do(Do(Do(p, a), b), c), d, [e]);
    RunCons(Do(Do(Do(Do(p, a), b), c), d), e, []);
    assert [e] + [] == [e];
  }

  // ---- Two handshakes with the host ----

  // A reset of a connected port: not enabled at first; the first GetPortStatus after 50 ms ends
  // it with the port enabled at the device's speed and the change reported.
  lemma ResetHandshake(p: Port, t0: int, t1: int)
    requires PortInv(p) && CONNECTION in p.status && t1 >= t0 + RESET_MS
    ensures var q := Apply(p, SetPortFeature(RESET), t0, true);
            var r := Apply(q, GetPortStatus(1), t1, true);
            && RESET in q.status && ENABLE !in q.status && !q.active
            && RESET !in r.status && ENABLE in r.status && CONNECTION in r.status && C_RESET in r.status
            && SUSPEND !in r.status
            && (p.speed == High ==> HIGH_SPEED in r.status)
            && (r.active <==> p.rhState != RhSuspended)
            && (p.intsEnabled && RESET !in p.status ==>
                  r.log == p.log + [ResetCb] + if r.active then [ResumeCb] else [])
  {
    var q := Apply(p, SetPortFeature(RESET), t0, true);
    ResetBegins(p, t0);
    ResetEnds(q, t1);
    ApplyKeeps(q, GetPortStatus(1), t1, true);
  }

  lemma ResetBegins(p: Port, t0: int)
    requires PortInv(p) && CONNECTION in p.status
    ensures var q := Apply(p, SetPortFeature(RESET), t0, true);
            && q.status == p.status - {ENABLE, LOW_SPEED, HIGH_SPEED, SUSPEND} + {RESET}
            && PortInv(q) && !q.active && !q.resuming && q.reTimeout == t0 + RESET_MS
            && q.speed == p.speed && q.rhState == p.rhState && q.intsEnabled == p.intsEnabled
            && (p.intsEnabled && RESET !in p.status ==> q.log == p.log + [ResetCb])
  {
    hide LinkState, Edits;
    var e := p.(status := p.status - {ENABLE, LOW_SPEED, HIGH_SPEED} + {RESET}, reTimeout := t0 + RESET_MS);
    ResetEdit(p, t0);
    ResetLinks(p, e);
    LinkStateSound(e);
  }

  lemma ResetEdit(p: Port, t0: int)
    requires POWER in p.status
    ensures Edits(p, SetPortFeature(RESET), t0, true).0
         == Relink(p.(status := p.status - {ENABLE, LOW_SPEED, HIGH_SPEED} + {RESET}, reTimeout := t0 + RESET_MS))
  {
  }

  lemma ResetLinks(p: Port, e: Port)
    requires PortInv(p) && CONNECTION in p.status
    requires e == p.(status := p.status - {ENABLE, LOW_SPEED, HIGH_SPEED} + {RESET}, reTimeout := e.reTimeout)
    ensures var q := LinkState(e);
            && q.status == p.status - {ENABLE, LOW_SPEED, HIGH_SPEED, SUSPEND} + {RESET}
            && !q.active && !q.resuming && q.reTimeout == e.reTimeout
            && q.speed == p.speed && q.rhState == p.rhState && q.intsEnabled == p.intsEnabled
            && (p.intsEnabled && RESET !in p.status ==> q.log == p.log + [ResetCb])
  {
    var q := LinkBySpeed(e.(active := false));
    assert q.status == p.status - {ENABLE, LOW_SPEED, HIGH_SPEED, SUSPEND} + {RESET};
  }

  lemma ResetEnds(q: Port, t1: int)
    requires PortInv(q) && CONNECTION in q.status && RESET in q.status && ENABLE !in q.status && !q.resuming && t1 >= q.reTimeout
    ensures var r := Apply(q, GetPortStatus(1), t1, true);
            && r.status == q.status - {RESET} + {C_RESET, ENABLE}
                           + (if q.speed == High then {HIGH_SPEED} else if q.speed == Low then {LOW_SPEED} else {})
            && (r.active <==> q.rhState != RhSuspended)
            && (q.intsEnabled ==> r.log == q.log + if r.active then [ResumeCb] else [])
  {
  }

  // Suspending an active port and resuming it: the gadget sees exactly one suspend and one
  // resume, and the host sees the port as before, with the change reported.
  lemma SuspendHandshake(p: Port, t0: int, t1: int, t2: int)
    requires PortInv(p) && p.active && p.intsEnabled && RESET !in p.status && t2 >= t1 + RESUME_MS
    ensures var q := Apply(p, SetPortFeature(SUSPEND), t0, true);
            var r := Apply(q, ClearPortFeature(SUSPEND), t1, true);
            var s := Apply(r, GetPortStatus(1), t2, true);
            && SUSPEND in q.status && !q.active && r.status == q.status
            && s.status == p.status + {C_SUSPEND} && s.active && !s.resuming
            && s.log == p.log + [SuspendCb, ResumeCb]
  {
    var q := Apply(p, SetPortFeature(SUSPEND), t0, true);
    assert q.status == p.status + {SUSPEND} && !q.active && q.log == p.log + [SuspendCb];
    var r := Apply(q, ClearPortFeature(SUSPEND), t1, true);
    assert r == q.(resuming := true, reTimeout := t1 + RESUME_MS);
    ResumeEnds(r, t2);
    assert p.log + [SuspendCb, ResumeCb] == q.log + [ResumeCb];
    assert r.status + {C_SUSPEND} - {SUSPEND} == p.status + {C_SUSPEND};
  }

  lemma ResumeEnds(r: Port, t2: int)
    requires r.resuming && t2 >= r.reTimeout && r.pullup && !r.udcSuspended && r.rhState != RhSuspended && r.intsEnabled
    requires {CONNECTION, ENABLE, POWER} <= r.status && RESET !in r.status && r.oldStatus == r.status && !r.oldActive
    ensures var s := Apply(r, GetPortStatus(1), t2, true);
            && s.status == r.status + {C_SUSPEND} - {SUSPEND} && s.active && !s.resuming && s.log == r.log + [ResumeCb]
  {
  }
}
