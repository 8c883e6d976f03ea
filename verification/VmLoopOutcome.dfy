// What one pass of the VM loop does, in crashes and VMs only (patch/syzkaller/manager.go:331-429):
// which crashes get a reproduction, in which order, and on which VMs.

module VmLoopOutcome {
  import opened VmLoop

  // ---- Which crashes are admitted ----

  function TitleSet(queue: seq<Crash>): set<int> { set c | c in queue :: c.title }

  // From s to t the loop over pendingRepro has appended `more` to the queue: crashes that were
  // pending, that are needed, and of whose title none was queued or being reproduced.
  ghost predicate Admits(s: Loop, t: Loop, more: seq<Crash>, need: Crash -> bool) {
    && t.queue == s.queue + more && t.reproducing == s.reproducing + TitleSet(more)
    && (forall c | c in more :: c in s.pending && c !in t.pending && need(c) && c.title !in s.reproducing)
    && (forall i, j | 0 <= i < j < |more| :: more[i].title != more[j].title)
    && t.pending <= s.pending
    && (forall c | c in s.pending && c !in t.pending :: c in more || (!need(c) && c.title !in s.reproducing))
  }

  lemma AdmitIs(s: Loop, c: Crash, need: Crash -> bool) returns (more: seq<Crash>)
    ensures var t := Admit(s, c, need);
            && Admits(s, t, more, need)
            && (c in t.pending ==> c.title in t.reproducing)
  {
    more := if c in s.pending && c.title !in s.reproducing && need(c) then [c] else [];
    assert TitleSet([c]) == {c.title} && TitleSet([]) == {};
    assert s.queue + [] == s.queue && s.reproducing + {} == s.reproducing;
  }

  lemma AdmitsOn(s: Loop, t: Loop, u: Loop, a: seq<Crash>, b: seq<Crash>, need: Crash -> bool)
    requires Admits(s, t, a, need) && Admits(t, u, b, need)
    ensures Admits(s, u, a + b, need)
  {
    assert TitleSet(a + b) == TitleSet(a) + TitleSet(b);
    assert (s.queue + a) + b == s.queue + (a + b);
    forall i, j | 0 <= i < j < |a + b|
      ensures (a + b)[i].title != (a + b)[j].title
    {
      if i < |a| <= j {
        assert a[i].title in TitleSet(a) && b[j - |a|] in b;
      }
    }
  }

  // After the loop over pendingRepro, in whatever order it goes: a crash it has come to is still
  // pending only if its title is queued or being reproduced; one that is not pending any more has
  // been queued, or is not needed; and only crashes that are needed have been queued, one of a title.
  lemma {:induction false} AdmitAllIs(s: Loop, order: seq<Crash>, need: Crash -> bool) returns (more: seq<Crash>)
    ensures var t := AdmitAll(s, order, need);
            && Admits(s, t, more, need)
            && (forall c | c in order && c in t.pending :: c.title in t.reproducing)
    decreases |order|
  {
    hide Admit, Admits;
    if order == [] {
      more := [];
      NoneAdmitted(s, need);
    } else {
      var u, t := Admit(s, order[0], need), AdmitAll(s, order, need);
      var a := AdmitIs(s, order[0], need);
      var b := AdmitAllIs(u, order[1..], need);
      more := a + b;
      AdmitsOn(s, u, t, a, b, need);
      AdmitsGrow(u, t, b, need);
      assert forall c | c in order :: c == order[0] || c in order[1..];
    }
  }

  lemma NoneAdmitted(s: Loop, need: Crash -> bool)
    ensures Admits(s, s, [], need)
  {
    assert TitleSet([]) == {};
  }

  lemma AdmitsGrow(s: Loop, t: Loop, more: seq<Crash>, need: Crash -> bool)
    requires Admits(s, t, more, need)
    ensures t.pending <= s.pending && s.reproducing <= t.reproducing
  {
  }

  // ---- Which repros and instances start ----

  // How many repros can start: there are as many crashes, enough free VMs, and with the VMs of the
  // repros under way they do not exceed n.
  predicate Fits(s: Loop, n: nat, per: nat, k: nat) {
    k <= |s.queue| && k * per <= |s.free| && s.reproInstances + k * per <= n
  }

  function Reversed<T>(xs: seq<T>): (r: seq<T>)
    ensures |r| == |xs|
  {
    if xs == [] then [] else [xs[|xs| - 1]] + Reversed(xs[..|xs| - 1])
  }

  lemma TimesOne(k: nat, per: nat)
    ensures (k + 1) * per == per + k * per
  {
  }

  // The i-th repro to start has the i-th crash from the tail of the queue, and the i-th `per` VMs
  // from the tail of the free list.
  predicate TailRepro(s: Loop, r: Repro, per: nat, i: nat)
    requires (i + 1) * per <= |s.free| && i < |s.queue|
  {
    TimesOne(i, per);
    && r.title == s.queue[|s.queue| - 1 - i].title
    && r.vms == s.free[|s.free| - (i + 1) * per..|s.free| - i * per]
  }

  // From s to t the last k crashes of the queue have got a repro each.
  predicate Starts(s: Loop, t: Loop, per: nat, k: nat) {
    && k <= |s.queue| && k * per <= |s.free|
    && t.queue == s.queue[..|s.queue| - k]
    && t.free == s.free[..|s.free| - k * per]
    && t.reproInstances == s.reproInstances + k * per
    && |t.repros| == |s.repros| + k && t.repros[..|s.repros|] == s.repros
    && forall i: nat | i < k :: EnoughFor(s, per, k, i) && TailRepro(s, t.repros[|s.repros| + i], per, i)
  }

  predicate EnoughFor(s: Loop, per: nat, k: nat, i: nat) {
    i < k <= |s.queue| && (i + 1) * per <= k * per <= |s.free|
  }

  lemma {:induction false} Monotone(a: nat, b: nat, per: nat)
    requires a <= b
    ensures a * per <= b * per
  {
  }

  lemma NoneStarts(s: Loop, per: nat)
    ensures Starts(s, s, per, 0)
  {
  }

  lemma FirstTail(s: Loop, r: Repro, per: nat)
    requires |s.queue| > 0 && per <= |s.free|
    requires r == Repro(s.queue[|s.queue| - 1].title, s.free[|s.free| - per..])
    ensures (0 + 1) * per <= |s.free| && TailRepro(s, r, per, 0)
  {
  }

  lemma NextTail(s: Loop, r: Repro, per: nat, i: nat)
    requires |s.queue| > 0 && per <= |s.free| && i + 1 < |s.queue|
    requires (i + 1) * per <= |s.free| - per && TailRepro(StartRepro(s, per), r, per, i)
    ensures (i + 2) * per <= |s.free| && TailRepro(s, r, per, i + 1)
  {
    TimesOne(i, per);
    TimesOne(i + 1, per);
    var u := StartRepro(s, per);
    assert u.free[|u.free| - (i + 1) * per..|u.free| - i * per] == s.free[|s.free| - (i + 2) * per..|s.free| - (i + 1) * per];
  }

  lemma OneMoreTail(s: Loop, r: Repro, per: nat, l: nat, i: nat)
    requires |s.queue| > 0 && per <= |s.free| && l < |s.queue| && (l + 1) * per <= |s.free| && i <= l
    requires i == 0 ==> r == Repro(s.queue[|s.queue| - 1].title, s.free[|s.free| - per..])
    requires i > 0 ==> EnoughFor(StartRepro(s, per), per, l, i - 1) && TailRepro(StartRepro(s, per), r, per, i - 1)
    ensures EnoughFor(s, per, l + 1, i) && TailRepro(s, r, per, i)
  {
    hide TailRepro;
    Monotone(i + 1, l + 1, per);
    if i == 0 {
      FirstTail(s, r, per);
    } else {
      NextTail(s, r, per, i - 1);
    }
  }

  lemma OneMoreStarts(s: Loop, t: Loop, per: nat, l: nat)
    requires |s.queue| > 0 && per <= |s.free| && Starts(StartRepro(s, per), t, per, l)
    ensures Starts(s, t, per, l + 1)
  {
    hide TailRepro;
    var u, k := StartRepro(s, per), l + 1;
    TimesOne(l, per);
    assert k * per == per + l * per;
    assert t.free == u.free[..|u.free| - l * per] == s.free[..|s.free| - k * per];
    assert t.queue == s.queue[..|s.queue| - k] && |t.repros| == |s.repros| + k;
    assert t.repros[..|s.repros|] == u.repros[..|s.repros|] == s.repros;
    forall i: nat | i < k ensures EnoughFor(s, per, k, i) && TailRepro(s, t.repros[|s.repros| + i], per, i) {
      if i == 0 {
        assert t.repros[|s.repros|] == t.repros[..|u.repros|][|s.repros|] == u.repros[|s.repros|];
      } else {
        assert EnoughFor(u, per, l, i - 1) && TailRepro(u, t.repros[|u.repros| + (i - 1)], per, i - 1);
      }
      OneMoreTail(s, t.repros[|s.repros| + i], per, l, i);
    }
  }

  lemma FitsOn(s: Loop, n: nat, per: nat, l: nat)
    requires |s.queue| > 0 && per <= |s.free|
    ensures Fits(StartRepro(s, per), n, per, l) <==> Fits(s, n, per, l + 1)
  {
    TimesOne(l, per);
  }

  lemma FitsFirst(s: Loop, n: nat, per: nat)
    ensures Fits(s, n, per, 1) ==> s.queue != [] && per <= |s.free|
  {
    TimesOne(0, per);
  }

  lemma FitsOne(s: Loop, n: nat, phaseOk: bool)
    ensures var per := if n < 4 then n else 4;
            CanRepro(s, n, phaseOk) && |s.free| >= per <==> phaseOk && Fits(s, n, per, 1)
  {
    TimesOne(0, if n < 4 then n else 4);
  }

  // The repros take the crashes from the tail of the queue and the VMs from the tail of the free
  // list, four each, or all there are on fewer; none starts while the phase does not allow it, and
  // otherwise as many as fit.
  lemma {:induction false} StartReprosIs(s: Loop, n: nat, phaseOk: bool) returns (k: nat)
    requires n > 0
    ensures Starts(s, StartRepros(s, n, phaseOk), if n < 4 then n else 4, k)
    ensures !phaseOk ==> k == 0
    ensures phaseOk ==> (k > 0 ==> Fits(s, n, if n < 4 then n else 4, k)) && !Fits(s, n, if n < 4 then n else 4, k + 1)
    decreases |s.queue|
  {
    hide Starts, CanRepro, Fits;
    var per := if n < 4 then n else 4;
    k := 0;
    NoneStarts(s, per);
    FitsOne(s, n, phaseOk);
    FitsFirst(s, n, per);
    if CanRepro(s, n, phaseOk) && |s.free| >= per {
      var l := StartReprosIs(StartRepro(s, per), n, phaseOk);
      k := l + 1;
      OneMoreStarts(s, StartRepros(s, n, phaseOk), per, l);
      FitsOn(s, n, per, l);
      FitsOn(s, n, per, l + 1);
    }
  }

  // When no repro waits, every free VM gets an instance, from the tail on; otherwise none does.
  lemma {:induction false} StartRunsIs(s: Loop, n: nat, phaseOk: bool)
    ensures var t := StartRuns(s, n, phaseOk);
            var waits := phaseOk && s.queue != [] && s.reproInstances + (if n < 4 then n else 4) <= n;
            && (waits ==> t == s)
            && (!waits ==> t == s.(free := [], running := s.running + Reversed(s.free)))
    decreases |s.free|
  {
    if !CanRepro(s, n, phaseOk) && s.free != [] {
      var last := |s.free| - 1;
      StartRunsIs(StartRun(s), n, phaseOk);
      assert s.running + [s.free[last]] + Reversed(s.free[..last]) == s.running + ([s.free[last]] + Reversed(s.free[..last]));
    } else if !CanRepro(s, n, phaseOk) {
      assert s.running + [] == s.running;
    }
  }

  // At the start all VMs are free, the first at the tail, and nothing else is going on.
  lemma {:induction false} StartIs(n: nat)
    ensures var s := Start(n);
            && |s.free| == n && (forall i | 0 <= i < n :: s.free[i] == n - 1 - i)
            && s.running == [] && s.repros == [] && s.queue == [] && s.pending == {} && s.reproducing == {}
            && s.reproInstances == 0 && !s.stopPending && !s.shutdown
  {
    CountDownIs(n);
  }

  lemma {:induction false} CountDownIs(n: nat)
    ensures |CountDown(n)| == n && forall i | 0 <= i < n :: CountDown(n)[i] == n - 1 - i
  {
    if n > 0 {
      CountDownIs(n - 1);
    }
  }

  // ---- What is heard while the loop waits ----

  // A crash of an instance waits for a reproduction unless the manager is shutting down, as does
  // one from the hub at any time; a title is free again when its reproduction has ended; and no
  // other event touches them.
  lemma HeardIs(s: Loop, n: nat, phaseOk: bool, e: Event)
    requires Possible(s, n, phaseOk, e)
    ensures var t := Handle(s, n, phaseOk, e);
            && t.queue == s.queue
            && (e.RunDone? ==> t.pending == if s.shutdown then s.pending else s.pending + e.crashes)
            && (e.HubRepro? ==> t.pending == s.pending + {e.crash})
            && (!e.RunDone? && !e.HubRepro? ==> t.pending == s.pending)
            && (e.ReproDone? ==> t.reproducing == s.reproducing - {s.repros[e.i].title})
            && (!e.ReproDone? ==> t.reproducing == s.reproducing)
            && (e.Stop? ==> t.stopPending) && (e.RunDone? ==> !t.stopPending)
            && (!e.Stop? && !e.RunDone? ==> t.stopPending == s.stopPending)
            && (t.shutdown <==> s.shutdown || e.Shutdown?)
  {
  }

  // What can be heard: that an instance or a reproduction has ended, at any time; the shutdown,
  // once; a crash from the hub, at any time.
  lemma CanHear(s: Loop, n: nat, phaseOk: bool, i: nat, c: Crash)
    ensures Possible(s, n, phaseOk, RunDone(i, {})) <==> i < |s.running|
    ensures Possible(s, n, phaseOk, RunDone(i, {c})) <==> i < |s.running|
    ensures forall crashes | |crashes| > 1 :: !Possible(s, n, phaseOk, RunDone(i, crashes))
    ensures Possible(s, n, phaseOk, ReproDone(i)) <==> i < |s.repros|
    ensures Possible(s, n, phaseOk, Shutdown) <==> !s.shutdown
    ensures Possible(s, n, phaseOk, HubRepro(c))
  {
  }

  // A running instance is asked to stop only while no other has been, and only for a crash that
  // waits in a phase that allows reproductions, when their VMs could hold one more.
  lemma StopIsFor(s: Loop, n: nat, phaseOk: bool)
    ensures Possible(s, n, phaseOk, Stop) <==>
      && !s.stopPending && phaseOk && s.queue != [] && s.running != []
      && s.reproInstances + (if n < 4 then n else 4) <= n
  {
  }
}
