// The VM loop in place (patch/syzkaller/manager.go:344-494).

module VmLoopEngine {
  import opened VmLoop

  class VmManager {
    const vmCount: nat
    const instancesPerRepro: nat
    var instances: seq<int>
    var running: seq<int>
    var repros: seq<Repro>
    var reproQueue: seq<Crash>
    var pendingRepro: set<Crash>
    var reproducing: set<int>
    var reproInstances: int
    var stopPending: bool
    var shutdown: bool

    function State(): Loop
      reads this
    {
      Loop(instances, running, repros, reproQueue, pendingRepro, reproducing, reproInstances, stopPending, shutdown)
    }

    predicate Sized() { instancesPerRepro == PerRepro(vmCount) }

    constructor (n: nat)
      ensures vmCount == n && Sized() && State() == Start(n)
    {
      vmCount := n;
      var k := 4;
      if k > n {
        k := n;
      }
      instancesPerRepro := k;
      var free := seq(n, i requires 0 <= i < n => n - i - 1);
      CountsDown(free);
      instances, running, repros, reproQueue, pendingRepro := free, [], [], [], {};
      reproducing, reproInstances, stopPending, shutdown := {}, 0, false, false;
    }

    method AdmitOne(crash: Crash, need: Crash -> bool)
      modifies this`pendingRepro, this`reproducing, this`reproQueue
      ensures State() == Admit(old(State()), crash, need)
    {
      if crash !in pendingRepro || crash.title in reproducing {
        return;
      }
      pendingRepro := pendingRepro - {crash};
      if !need(crash) {
        return;
      }
      reproducing := reproducing + {crash.title};
      reproQueue := reproQueue + [crash];
    }

    method AdmitPending(order: seq<Crash>, need: Crash -> bool)
      modifies this`pendingRepro, this`reproducing, this`reproQueue
      ensures State() == AdmitAll(old(State()), order, need)
    {
      hide Admit;
      var i := 0;
      assert order[0..] == order;
      while i < |order|
        invariant i <= |order|
        invariant AdmitAll(old(State()), order, need) == AdmitAll(State(), order[i..], need)
      {
        assert order[i..][1..] == order[i + 1..];
        AdmitOne(order[i], need);
        i := i + 1;
      }
    }

    predicate Ready(phaseOk: bool)
      reads this
    {
      phaseOk && reproQueue != [] && reproInstances + instancesPerRepro <= vmCount
    }

    method TakeForRepro()
      requires reproQueue != [] && instancesPerRepro <= |instances|
      modifies this`reproQueue, this`instances, this`reproInstances, this`repros
      ensures State() == StartRepro(old(State()), instancesPerRepro)
    {
      var last := |reproQueue| - 1;
      var crash := reproQueue[last];
      reproQueue := reproQueue[..last];
      var rest := |instances| - instancesPerRepro;
      repros := repros + [Repro(crash.title, instances[rest..])];
      instances := instances[..rest];
      reproInstances := reproInstances + instancesPerRepro;
    }

    method LaunchRepros(phaseOk: bool)
      requires Sized()
      modifies this`reproQueue, this`instances, this`reproInstances, this`repros
      ensures State() == StartRepros(old(State()), vmCount, phaseOk)
    {
      hide PerRepro, StartRepro;
      while Ready(phaseOk) && |instances| >= instancesPerRepro
        invariant StartRepros(old(State()), vmCount, phaseOk) == StartRepros(State(), vmCount, phaseOk)
        decreases |reproQueue|
      {
        assert CanRepro(State(), vmCount, phaseOk);
        QueueShrinks(State(), instancesPerRepro);
        TakeForRepro();
      }
      assert CanRepro(State(), vmCount, phaseOk) == Ready(phaseOk);
    }

    method LaunchRuns(phaseOk: bool)
      requires Sized()
      modifies this`instances, this`running
      ensures State() == StartRuns(old(State()), vmCount, phaseOk)
    {
      hide PerRepro;
      while !Ready(phaseOk) && instances != []
        invariant StartRuns(old(State()), vmCount, phaseOk) == StartRuns(State(), vmCount, phaseOk)
        decreases |instances|
      {
        assert !CanRepro(State(), vmCount, phaseOk);
        ghost var before := State();
        var last := |instances| - 1;
        running := running + [instances[last]];
        instances := instances[..last];
        assert State() == StartRun(before);
      }
      assert CanRepro(State(), vmCount, phaseOk) == Ready(phaseOk);
    }

    method SelectOne(phaseOk: bool, event: Event)
      requires Sized() && Possible(State(), vmCount, phaseOk, event)
      modifies this
      ensures State() == Handle(old(State()), vmCount, phaseOk, event)
    {
      hide PerRepro, CanRepro, Without;
      match event {
        case Stop => stopPending := true;
        case RunDone(i, crashes) => FinishRun(i, crashes);
        case ReproDone(i) => FinishRepro(i);
        case Shutdown => shutdown := true;
        case HubRepro(crash) => pendingRepro := pendingRepro + {crash};
      }
    }

    method FinishRun(i: nat, crashes: set<Crash>)
      requires i < |running|
      modifies this`stopPending, this`instances, this`running, this`pendingRepro
      ensures !stopPending && instances == old(instances) + [old(running)[i]] && running == Without(old(running), i)
      ensures pendingRepro == if shutdown then old(pendingRepro) else old(pendingRepro) + crashes
    {
      stopPending := false;
      instances := instances + [running[i]];
      running := Without(running, i);
      if !shutdown {
        pendingRepro := pendingRepro + crashes;
      }
    }

    method FinishRepro(i: nat)
      requires i < |repros|
      modifies this`reproducing, this`instances, this`reproInstances, this`repros
      ensures reproducing == old(reproducing) - {old(repros)[i].title}
      ensures instances == old(instances) + old(repros)[i].vms && repros == Without(old(repros), i)
      ensures reproInstances == old(reproInstances) - instancesPerRepro
    {
      reproducing := reproducing - {repros[i].title};
      instances := instances + repros[i].vms;
      reproInstances := reproInstances - instancesPerRepro;
      repros := Without(repros, i);
    }

    method Pass(turn: Turn)
      requires Sized() && Possible(Schedule(State(), vmCount, turn), vmCount, turn.phaseOk, turn.event)
      modifies this
      ensures State() == Handle(Schedule(old(State()), vmCount, turn), vmCount, turn.phaseOk, turn.event)
    {
      hide PerRepro, AdmitAll, StartRepros, StartRuns, Possible, Handle;
      AdmitPending(turn.order, turn.need);
      if !shutdown {
        LaunchRepros(turn.phaseOk);
        LaunchRuns(turn.phaseOk);
      }
      SelectOne(turn.phaseOk, turn.event);
    }

    // Any run of the loop, pass by pass, up to its end or as far as the events go.
    method RunLoop(turns: seq<Turn>) returns (over: bool)
      requires Sized() && State() == Start(vmCount) && Runs(State(), vmCount, turns)
      modifies this
      ensures State() == Run(Start(vmCount), vmCount, turns)
      ensures over == Over(State(), vmCount)
      ensures over ==> running == [] && reproInstances == 0 && forall v :: Occ(instances, v) == if 0 <= v < vmCount then 1 else 0
    {
      hide Schedule, Handle, Possible, Occ;
      var i := 0;
      assert turns[0..] == turns;
      while (!shutdown || |instances| != vmCount) && i < |turns|
        invariant i <= |turns| && Runs(State(), vmCount, turns[i..])
        invariant Run(Start(vmCount), vmCount, turns) == Run(State(), vmCount, turns[i..])
        decreases |turns| - i
      {
        assert turns[i..][1..] == turns[i + 1..];
        Pass(turns[i]);
        i := i + 1;
      }
      assert i == |turns|;
      over := shutdown && |instances| == vmCount;
      if over {
        OverMeansDone(vmCount, turns);
      }
    }
  }

  lemma {:induction false} CountsDown(xs: seq<int>)
    requires forall i | 0 <= i < |xs| :: xs[i] == |xs| - i - 1
    ensures xs == CountDown(|xs|)
    decreases |xs|
  {
    if xs != [] {
      CountsDown(xs[1..]);
    }
  }

  lemma QueueShrinks(s: Loop, k: nat)
    requires s.queue != [] && k <= |s.free|
    ensures |StartRepro(s, k).queue| < |s.queue|
  {
  }
}
