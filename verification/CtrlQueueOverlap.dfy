// Completions that overlap (patch/kernel/usbtest.c:1277-1340): the handler that sees the first
// fault drops the lock while it unlinks the other URBs, and their handlers run meanwhile.

module CtrlQueueOverlap {
  import opened CtrlQueue

  // `unlinking`: the handler of the first fault is in its loop.
  datatype Overlap = Overlap(test: Test, unlinking: bool)

  datatype Event =
    | Whole(o: Outcome)   // a handler that does not drop the lock
    | Fault(o: Outcome)   // the handler of the first fault, up to its loop
    | Leave               // and from the end of the loop on

  predicate FirstFault(t: Test, expected: int -> int, o: Outcome)
    requires t.queue != []
  {
    t.status == 0 && Verdict(t, expected, o) != 0
  }

  predicate Enabled(s: Overlap, expected: int -> int, e: Event) {
    match e
    case Whole(o) => s.test.queue != [] && !FirstFault(s.test, expected, o)
    case Fault(o) => s.test.queue != [] && FirstFault(s.test, expected, o)
    case Leave => s.unlinking
  }

  function Entered(t: Test, expected: int -> int, o: Outcome): Test
    requires t.queue != []
  {
    var u := Back(t, o);
    Test(Dec(t.count), Dec(t.pending), u % NUM_SUBCASES, Verdict(t, expected, o), t.signals,
         Without(t.queue, Place(t, o)), t.log + [u])
  }

  // The URB failed, so it is not resubmitted.
  function Left(t: Test): Test {
    t.(signals := t.signals + if t.pending == 0 then 1 else 0)
  }

  function Step(s: Overlap, expected: int -> int, e: Event): Overlap
    requires Enabled(s, expected, e)
  {
    match e
    case Whole(o) => s.(test := Complete(s.test, expected, o))
    case Fault(o) => Overlap(Entered(s.test, expected, o), true)
    case Leave => Overlap(Left(s.test), false)
  }

  predicate Valid(s: Overlap, expected: int -> int, es: seq<Event>)
    decreases |es|
  {
    es == [] || (Enabled(s, expected, es[0]) && Valid(Step(s, expected, es[0]), expected, es[1..]))
  }

  function Exec(s: Overlap, expected: int -> int, es: seq<Event>): Overlap
    requires Valid(s, expected, es)
    decreases |es|
  {
    if es == [] then s else Exec(Step(s, expected, es[0]), expected, es[1..])
  }

  // Nothing in between: the handler as one step.
  lemma UndisturbedIsComplete(t: Test, expected: int -> int, o: Outcome)
    requires t.queue != [] && FirstFault(t, expected, o)
    ensures Left(Entered(t, expected, o)) == Complete(t, expected, o)
  {
    hide Verdict;
    assert Without(t.queue, Place(t, o)) + [] == Without(t.queue, Place(t, o));
  }

  // ---- Signals ----

  // As `Sound`, but for the signals.
  predicate Counted(s: Overlap, total: int) {
    && s.test.pending == |s.test.queue|
    && s.test.count == total - |s.test.log|
    && s.test.pending <= s.test.count <= UINT_MAX
    && (s.unlinking ==> s.test.status != 0)
  }

  // The last URB came back while the handler of the first fault was in its loop.
  predicate EmptiedMeanwhile(s: Overlap, expected: int -> int, es: seq<Event>)
    requires Valid(s, expected, es)
    decreases |es|
  {
    && es != []
    && (|| (es[0].Whole? && s.unlinking && Step(s, expected, es[0]).test.queue == [])
        || EmptiedMeanwhile(Step(s, expected, es[0]), expected, es[1..]))
  }

  // The signals so far; `early`: the last URB came back during the loop.
  function Signals(s: Overlap, early: bool): int {
    if s.test.queue != [] then 0 else (if s.unlinking then 0 else 1) + (if early then 1 else 0)
  }

  lemma StepCounted(s: Overlap, expected: int -> int, e: Event, total: int, early: bool)
    requires Counted(s, total) && Enabled(s, expected, e)
    requires s.test.signals == Signals(s, early) && (early ==> s.test.queue == [])
    ensures var n := Step(s, expected, e);
            var early' := early || (e.Whole? && s.unlinking && n.test.queue == []);
            && Counted(n, total)
            && n.test.signals == Signals(n, early') && (early' ==> n.test.queue == [])
  {
    hide Verdict, Place;
  }

  lemma {:induction false} ExecCounted(s: Overlap, expected: int -> int, es: seq<Event>, total: int, early: bool)
    requires Counted(s, total) && Valid(s, expected, es)
    requires s.test.signals == Signals(s, early) && (early ==> s.test.queue == [])
    ensures var r := Exec(s, expected, es);
            Counted(r, total) && r.test.signals == Signals(r, early || EmptiedMeanwhile(s, expected, es))
    decreases |es|
  {
    hide Step, Enabled, Counted, Signals;
    if es != [] {
      var n := Step(s, expected, es[0]);
      StepCounted(s, expected, es[0], total, early);
      ExecCounted(n, expected, es[1..], total, early || (es[0].Whole? && s.unlinking && n.test.queue == []));
    }
  }

  function Begun(sglen: nat, iterations: nat): Overlap { Overlap(Start(sglen, iterations), false) }

  // Whatever fails and however handlers overlap, completions are at most sglen * iterations, and
  // nothing is signalled while a URB is queued.  The wakeup is never lost; but it comes before the
  // handler of the first fault is through, and then a second time, exactly if the last URB comes
  // back while that handler is in its loop.
  lemma EveryOverlap(sglen: nat, iterations: nat, expected: int -> int, es: seq<Event>)
    requires sglen > 0 && iterations > 0 && sglen * iterations <= UINT_MAX
    requires Valid(Begun(sglen, iterations), expected, es)
    ensures var s := Exec(Begun(sglen, iterations), expected, es);
            var early := EmptiedMeanwhile(Begun(sglen, iterations), expected, es);
            && |s.test.log| <= sglen * iterations
            && s.test.signals ==
               if s.test.queue != [] then 0 else (if s.unlinking then 0 else 1) + (if early then 1 else 0)
  {
    StartSound(sglen, iterations);
    ExecCounted(Begun(sglen, iterations), expected, es, sglen * iterations, false);
  }

  // ---- When the signal is sure to be the only one ----

  predicate Over(s: Overlap) { s.test.queue == [] && !s.unlinking }

  lemma {:induction false} OneUrb(s: Overlap, expected: int -> int, es: seq<Event>)
    requires Valid(s, expected, es) && |s.test.queue| + (if s.unlinking then 1 else 0) <= 1
    ensures !EmptiedMeanwhile(s, expected, es)
    decreases |es|
  {
    hide Verdict, Place;
    if es != [] {
      OneUrb(Step(s, expected, es[0]), expected, es[1..]);
    }
  }

  // A completion while the handler of the first fault is in its loop, and not resubmitted.
  const DROPPED := Whole(Outcome(0, -1, 0))

  lemma {:induction false} DrainMeanwhile(s: Overlap, expected: int -> int, total: int) returns (es: seq<Event>)
    requires Counted(s, total) && s.unlinking && s.test.queue != []
    ensures Valid(s, expected, es) && EmptiedMeanwhile(s, expected, es) && Over(Exec(s, expected, es))
    decreases |s.test.queue|
  {
    hide Verdict, Place, Counted;
    assert Enabled(s, expected, DROPPED) by { FaultNoted(s, total); }
    var n := Step(s, expected, DROPPED);
    DropCounted(s, expected, total);
    if n.test.queue == [] {
      assert [DROPPED, Leave][1..] == [Leave] && [Leave][1..] == [];
      es := [DROPPED, Leave];
    } else {
      var rest := DrainMeanwhile(n, expected, total);
      assert ([DROPPED] + rest)[1..] == rest;
      es := [DROPPED] + rest;
    }
  }

  lemma FaultNoted(s: Overlap, total: int)
    requires Counted(s, total) && s.unlinking
    ensures s.test.status != 0
  {
  }

  lemma DropCounted(s: Overlap, expected: int -> int, total: int)
    requires Counted(s, total) && s.unlinking && Enabled(s, expected, DROPPED)
    ensures var n := Step(s, expected, DROPPED);
            Counted(n, total) && n.unlinking && |n.test.queue| == |s.test.queue| - 1
  {
    hide Verdict, Place;
  }

  // A status that is a fault of URB 0.
  function Bad(expected: int -> int): int { if expected(0) == -ECONNRESET then 1 else -ECONNRESET }

  lemma FirstFails(sglen: nat, iterations: nat, expected: int -> int)
    requires sglen > 1 && iterations > 0 && sglen * iterations <= UINT_MAX
    ensures var s, e := Begun(sglen, iterations), Fault(Outcome(Bad(expected), 0, 0));
            && Enabled(s, expected, e)
            && var n := Step(s, expected, e);
            Counted(n, sglen * iterations) && n.unlinking && n.test.queue != []
  {
    StartSound(sglen, iterations);
    RangeTail(0, sglen);
  }

  // However completions overlap, the waiter is woken exactly once in every run that is over:
  // exactly if the test has a single URB.
  lemma OnceIff(sglen: nat, iterations: nat, expected: int -> int)
    requires sglen > 0 && iterations > 0 && sglen * iterations <= UINT_MAX
    ensures (forall es | Valid(Begun(sglen, iterations), expected, es) && Over(Exec(Begun(sglen, iterations), expected, es)) ::
               Exec(Begun(sglen, iterations), expected, es).test.signals == 1)
       <==> sglen == 1
  {
    hide Step, Enabled, Exec, Valid, Counted;
    var s := Begun(sglen, iterations);
    if sglen == 1 {
      forall es | Valid(s, expected, es) && Over(Exec(s, expected, es))
        ensures Exec(s, expected, es).test.signals == 1
      {
        EveryOverlap(sglen, iterations, expected, es);
        OneUrb(s, expected, es);
      }
    } else {
      var e := Fault(Outcome(Bad(expected), 0, 0));
      FirstFails(sglen, iterations, expected);
      var rest := DrainMeanwhile(Step(s, expected, e), expected, sglen * iterations);
      FirstThen(s, expected, e, rest);
      EveryOverlap(sglen, iterations, expected, [e] + rest);
    }
  }

  lemma FirstThen(s: Overlap, expected: int -> int, e: Event, rest: seq<Event>)
    requires Enabled(s, expected, e) && Valid(Step(s, expected, e), expected, rest)
    ensures Valid(s, expected, [e] + rest)
    ensures Exec(s, expected, [e] + rest) == Exec(Step(s, expected, e), expected, rest)
    ensures EmptiedMeanwhile(Step(s, expected, e), expected, rest) ==> EmptiedMeanwhile(s, expected, [e] + rest)
  {
    hide Step, Enabled;
    assert ([e] + rest)[1..] == rest;
  }
}
