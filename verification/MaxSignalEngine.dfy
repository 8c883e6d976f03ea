// The two ends of the signal protocol in place (patch/syzkaller/rpc.go:27-45, 79-91, 147-171;
// patch/syzkaller/fuzzer.go:517-532, 588-606, 614-664).

module MaxSignalEngine {
  import opened MaxSignal

  // The next key of a range over a map, which Go leaves open.
  method Some(keys: set<int>) returns (e: int)
    requires keys != {}
    ensures e in keys
  {
    NoKeyIsEmpty(keys);
    e :| e in keys;
  }

  lemma NoKeyIsEmpty(keys: set<int>)
    ensures (forall x :: x !in keys) ==> keys == {}
  {
    if forall x :: x !in keys {
      assert keys <= {};
    }
  }

  class RPCServer {
    var maxSignal: Signal
    // newMaxSignal of every connected fuzzer.
    var newMaxSignal: map<int, Signal>

    constructor ()
      ensures maxSignal == INITIAL.max && newMaxSignal == INITIAL.backlog
    {
      maxSignal, newMaxSignal := map[], map[];
    }

    method Connect(name: int)
      modifies this
      ensures maxSignal == old(maxSignal)
      ensures newMaxSignal == old(newMaxSignal)[name := maxSignal]
    {
      newMaxSignal := newMaxSignal[name := maxSignal];
    }

    // Up to n entries, in whatever order the map gives them.
    method Split(backlog: Signal, n: nat) returns (keys: set<int>)
      ensures keys <= backlog.Keys && |keys| == if |backlog| < n then |backlog| else n
    {
      keys := {};
      while |keys| < n && keys != backlog.Keys
        invariant keys <= backlog.Keys && |keys| <= n
        decreases backlog.Keys - keys
      {
        var left := backlog.Keys - keys;
        assert left != {};
        var e := Some(left);
        keys := keys + {e};
      }
      Sizes(keys, backlog.Keys);
    }

    method Share(name: int, better: Signal)
      requires name in newMaxSignal
      modifies this`newMaxSignal
      ensures newMaxSignal.Keys == old(newMaxSignal).Keys && newMaxSignal[name] == old(newMaxSignal)[name]
      ensures forall g | g in newMaxSignal && g != name :: newMaxSignal[g] == Merge(old(newMaxSignal)[g], better)
    {
      hide Merge;
      var todo := newMaxSignal.Keys - {name};
      while todo != {}
        invariant todo <= newMaxSignal.Keys - {name} && newMaxSignal.Keys == old(newMaxSignal).Keys
        invariant forall g | g in newMaxSignal ::
          newMaxSignal[g] == if g == name || g in todo then old(newMaxSignal)[g] else Merge(old(newMaxSignal)[g], better)
      {
        var g := Some(todo);
        newMaxSignal := newMaxSignal[g := Merge(newMaxSignal[g], better)];
        todo := todo - {g};
      }
    }

    method Learn(name: int, told: Signal)
      requires name in newMaxSignal
      modifies this
      ensures maxSignal == ToldMax(old(maxSignal), told)
      ensures newMaxSignal == ToldBacklog(old(maxSignal), old(newMaxSignal), name, told)
    {
      hide Merge, Diff, ToldBacklog;
      var better := Diff(maxSignal, told);
      if better != map[] {
        maxSignal := Merge(maxSignal, better);
        Share(name, better);
      } else {
        NothingTold(maxSignal, newMaxSignal, name);
      }
    }

    method Poll(name: int, told: Signal) returns (reply: Signal, ghost keys: set<int>)
      requires name in newMaxSignal
      modifies this
      ensures var b := ToldBacklog(old(maxSignal), old(newMaxSignal), name, told);
              && SplitTakes(b[name], keys)
              && maxSignal == ToldMax(old(maxSignal), told)
              && newMaxSignal == b[name := b[name] - keys]
              && reply == Restrict(b[name], keys)
    {
      hide Merge, Diff, Restrict, ToldMax, ToldBacklog;
      Learn(name, told);
      var taken := Split(newMaxSignal[name], SPLIT);
      keys := taken;
      reply := Restrict(newMaxSignal[name], taken);
      newMaxSignal := newMaxSignal[name := newMaxSignal[name] - taken];
    }
  }

  class FuzzerProcess {
    var maxSignal: Signal
    var newSignal: Signal
    var corpusSignal: Signal

    constructor ()
      ensures State(Idle) == Empty()
    {
      maxSignal, newSignal, corpusSignal := map[], map[], map[];
    }

    function State(phase: Phase): Fuzzer
      reads this
    {
      Fuzzer(maxSignal, newSignal, corpusSignal, phase)
    }

    function State3(): Signals
      reads this
    {
      Signals(maxSignal, newSignal, corpusSignal)
    }

    method RunOthers(others: seq<Other>)
      modifies this
      ensures State3() == Meanwhile(old(State3()), others)
      decreases |others|
    {
      hide Merge;
      if others != [] {
        match others[0] {
          case Found(diff) => maxSignal, newSignal := Merge(maxSignal, diff), Merge(newSignal, diff);
          case Grabbed => var _ := GrabNewSignal();
          case Merged(sign) => AddMaxSignal(sign);
          case NewInput(sign) => AddInputSignal(sign);
        }
        RunOthers(others[1..]);
      }
    }

    // The read lock is given up before the write lock is taken: other threads may find, grab and
    // merge signal in between.
    method CheckNewCallSignal(raw: set<int>, prio: int, between: seq<Other>) returns (isNew: bool)
      modifies this
      ensures isNew <==> exists e :: e in raw && !Has(old(maxSignal), e, prio)
      ensures !isNew ==> State3() == old(State3())
      ensures isNew ==>
        var x, diff := Meanwhile(old(State3()), between), DiffRaw(old(maxSignal), raw, prio);
        State3() == Signals(Merge(x.max, diff), Merge(x.found, diff), x.corpus)
      ensures forall e | e in raw :: Has(maxSignal, e, prio)
      ensures forall e | e in raw && !Has(old(maxSignal), e, prio) :: Has(newSignal, e, prio)
    {
      hide Merge, Meanwhile;
      var diff := DiffRaw(maxSignal, raw, prio);
      assert forall e | e in raw && !Has(maxSignal, e, prio) :: Has(diff, e, prio);
      if diff == map[] {
        return false;
      }
      RunOthers(between);
      assert forall e | e in raw && Has(old(maxSignal), e, prio) :: Has(maxSignal, e, prio);
      maxSignal := Merge(maxSignal, diff);
      newSignal := Merge(newSignal, diff);
      NoKeyIsEmpty(diff.Keys);
      var e :| e in diff;
      assert e in raw && !Has(old(maxSignal), e, prio);
      return true;
    }

    method GrabNewSignal() returns (sign: Signal)
      modifies this`newSignal
      ensures sign == old(newSignal) && newSignal == map[]
    {
      sign := newSignal;
      newSignal := map[];
    }

    method AddMaxSignal(sign: Signal)
      modifies this`maxSignal
      ensures maxSignal == Merge(old(maxSignal), sign)
    {
      if sign == map[] {
        MergeNothing(maxSignal);
        return;
      }
      maxSignal := Merge(maxSignal, sign);
    }

    // The signal part of addInputToCorpus.
    method AddInputSignal(sign: Signal)
      modifies this`maxSignal, this`corpusSignal
      ensures corpusSignal == Merge(old(corpusSignal), sign) && maxSignal == Merge(old(maxSignal), sign)
    {
      hide Merge;
      if sign != map[] {
        corpusSignal := Merge(corpusSignal, sign);
        maxSignal := Merge(maxSignal, sign);
      } else {
        MergeNothing(corpusSignal);
        MergeNothing(maxSignal);
      }
    }

    // One poll that nothing disturbs.
    method Poll(server: RPCServer, name: int, ghost before: System) returns (ghost keys: set<int>)
      requires name in before.fuzzers && before.fuzzers[name] == State(Idle)
      requires name in before.backlog && before.max == server.maxSignal && before.backlog == server.newMaxSignal
      modifies this, server
      ensures CanPoll(before, name, keys)
      ensures var after := MaxSignal.Poll(before, name, keys);
              && server.maxSignal == after.max && server.newMaxSignal == after.backlog
              && name in after.fuzzers && State(Idle) == after.fuzzers[name]
    {
      hide Merge, Diff, Restrict, ToldMax, ToldBacklog, MaxSignal.Poll, Step;
      var told := GrabNewSignal();
      var reply;
      reply, keys := server.Poll(name, told);
      AddMaxSignal(reply);
      PollIs(before, name, keys);
    }
  }

  lemma Sizes(keys: set<int>, all: set<int>)
    requires keys <= all
    ensures |keys| <= |all| && (|keys| == |all| ==> keys == all)
  {
    assert all == keys + (all - keys);
    assert |all| == |keys| + |all - keys|;
  }

  lemma NothingTold(max: Signal, backlog: map<int, Signal>, name: int)
    requires name in backlog
    ensures Merge(max, map[]) == max
    ensures forall g | g in backlog :: Merge(backlog[g], map[]) == backlog[g]
  {
    hide Merge;
    MergeNothing(max);
    forall g | g in backlog ensures Merge(backlog[g], map[]) == backlog[g] {
      MergeNothing(backlog[g]);
    }
  }
}
