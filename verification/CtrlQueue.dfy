// The control queue test (patch/kernel/usbtest.c:1197-1341 ctrl_complete, 1343-1557
// test_ctrl_queue): `sglen` URBs kept queued for `iterations` laps by a completion handler that
// resubmits.  The host may complete any URB it has, in its queue's order or not: the test looks
// for the latter, and its own unlinking after a fault brings URBs back out of order.

module CtrlQueue {

  const UINT_MAX: nat := 0xFFFF_FFFF
  const NUM_SUBCASES: nat := 16
  const EPIPE: int := 32
  const EDOM: int := 33
  const EOPNOTSUPP: int := 95
  const ECONNRESET: int := 104

  // The context of the test, the host's queue of URB numbers, and the completions so far.
  // `signals` counts the calls of complete().
  datatype Test = Test(count: int, pending: int, last: int, status: int, signals: int, queue: seq<int>, log: seq<int>)

  // What one completion brings: the URB's status, the result of resubmitting it, if tried, and
  // which URB it is: the one at that place of the host's queue, the head if there is none there.
  datatype Outcome = Outcome(status: int, resubmit: int, at: nat)

  // count and pending are unsigned.
  function Dec(x: int): int { if x == 0 then UINT_MAX else x - 1 }

  function Judge(expected: int, number: int, status: int): int {
    if status == expected then 0
    else if status == -ECONNRESET then status
    else if expected > 0 && (status == -expected || status == 0) then 0
    else if number == 12 && status == -EPIPE then 0
    else status
  }

  predicate OutOfOrder(last: int, number: int) { number > 0 && number - last != 1 }

  function Place(t: Test, o: Outcome): (i: nat)
    requires t.queue != []
    ensures i < |t.queue| && (o.at < |t.queue| ==> i == o.at)
  {
    if o.at < |t.queue| then o.at else 0
  }

  // The URB that completes.
  function Back(t: Test, o: Outcome): int
    requires t.queue != []
  {
    t.queue[Place(t, o)]
  }

  function Verdict(t: Test, expected: int -> int, o: Outcome): int
    requires t.queue != []
  {
    var u := Back(t, o);
    if OutOfOrder(t.last, u % NUM_SUBCASES) then -EDOM else Judge(expected(u), u % NUM_SUBCASES, o.status)
  }

  // The handler tries to resubmit the URB: it is content, and more completions are wanted.
  predicate Attempted(t: Test, expected: int -> int, o: Outcome)
    requires t.queue != []
  {
    Verdict(t, expected, o) == 0 && Dec(t.pending) < Dec(t.count)
  }

  function Without(queue: seq<int>, i: nat): (r: seq<int>)
    requires i < |queue|
    ensures |r| == |queue| - 1
  {
    queue[..i] + queue[i + 1..]
  }

  // ctrl_complete
  function Complete(t: Test, expected: int -> int, o: Outcome): Test
    requires t.queue != []
  {
    var u := Back(t, o);
    var verdict := Verdict(t, expected, o);
    var count, left := Dec(t.count), Dec(t.pending);
    var again := Attempted(t, expected, o) && o.resubmit == 0;
    var pending := if again then left + 1 else left;
    Test(count, pending, u % NUM_SUBCASES, if t.status == 0 then verdict else t.status,
         t.signals + if pending == 0 then 1 else 0,
         Without(t.queue, Place(t, o)) + (if again then [u] else []), t.log + [u])
  }

  predicate Runs(t: Test, expected: int -> int, os: seq<Outcome>)
    decreases |os|
  {
    os == [] || (t.queue != [] && Runs(Complete(t, expected, os[0]), expected, os[1..]))
  }

  function Run(t: Test, expected: int -> int, os: seq<Outcome>): Test
    requires Runs(t, expected, os)
    decreases |os|
  {
    if os == [] then t else Run(Complete(t, expected, os[0]), expected, os[1..])
  }

  // The host completes URBs in the order of its queue.
  predicate InQueueOrder(os: seq<Outcome>) { forall o | o in os :: o.at == 0 }

  lemma HeadBack(t: Test, o: Outcome)
    requires t.queue != [] && o.at == 0
    ensures Back(t, o) == t.queue[0] && Without(t.queue, Place(t, o)) == t.queue[1..]
  {
  }

  function Range(a: int, b: int): (r: seq<int>)
    ensures |r| == if a < b then b - a else 0
    ensures forall i | 0 <= i < |r| :: r[i] == a + i
    decreases b - a
  {
    if a >= b then [] else [a] + Range(a + 1, b)
  }

  // After the submission loop: all URBs are queued.
  function Start(sglen: nat, iterations: nat): Test {
    Test(sglen * iterations, sglen, -1, 0, 0, Range(0, sglen), [])
  }

  // ---- Any pattern of faults ----

  // Completions and submissions add up, and the waiter is woken when the last URB is back.
  predicate Sound(t: Test, total: int) {
    && t.pending == |t.queue|
    && t.count == total - |t.log|
    && t.pending <= t.count <= UINT_MAX
    && t.signals == if t.queue == [] then 1 else 0
  }

  lemma CompleteSound(t: Test, expected: int -> int, o: Outcome, total: int)
    requires t.queue != [] && Sound(t, total)
    ensures Sound(Complete(t, expected, o), total)
    ensures Complete(t, expected, o).count < t.count
  {
  }

  lemma StartSound(sglen: nat, iterations: nat)
    requires sglen > 0 && iterations > 0 && sglen * iterations <= UINT_MAX
    ensures Sound(Start(sglen, iterations), sglen * iterations)
  {
    assert sglen * iterations >= sglen by {
      assert sglen * iterations == sglen + sglen * (iterations - 1);
    }
  }

  lemma {:induction false} RunSound(t: Test, expected: int -> int, os: seq<Outcome>, total: int)
    requires Sound(t, total) && Runs(t, expected, os)
    ensures Sound(Run(t, expected, os), total)
    decreases |os|
  {
    if os != [] {
      CompleteSound(t, expected, os[0], total);
      RunSound(Complete(t, expected, os[0]), expected, os[1..], total);
    }
  }

  // Whatever fails, and in whatever order URBs complete: at most sglen * iterations completions,
  // and completion is signalled exactly once, when the host has nothing of the test left.
  lemma EveryRun(sglen: nat, iterations: nat, expected: int -> int, os: seq<Outcome>)
    requires sglen > 0 && iterations > 0 && sglen * iterations <= UINT_MAX
    requires Runs(Start(sglen, iterations), expected, os)
    ensures var t := Run(Start(sglen, iterations), expected, os);
            && |t.log| <= sglen * iterations
            && t.signals == if t.queue == [] then 1 else 0
  {
    StartSound(sglen, iterations);
    RunSound(Start(sglen, iterations), expected, os, sglen * iterations);
  }

  // ---- No faults ----

  function Laps(sglen: nat, laps: nat): (log: seq<int>)
    decreases laps
  {
    if laps == 0 then [] else Laps(sglen, laps - 1) + Range(0, sglen)
  }

  // k times sglen.
  function Times(sglen: nat, k: nat): (n: nat)
    ensures k > 0 ==> n >= sglen
    decreases k
  {
    if k == 0 then 0 else sglen + Times(sglen, k - 1)
  }

  lemma {:induction false} TimesIsProduct(sglen: nat, k: nat)
    ensures Times(sglen, k) == sglen * k == k * sglen
    decreases k
  {
    if k > 0 {
      TimesIsProduct(sglen, k - 1);
      assert sglen * k == sglen + sglen * (k - 1);
    }
  }

  // The state `lap` full laps and `p` completions after the start.
  function At(sglen: nat, iterations: nat, lap: nat, p: nat): Test
    requires lap < iterations && p <= sglen
  {
    var final := lap == iterations - 1;
    Test(Times(sglen, iterations - lap) - p,
         if final then sglen - p else sglen,
         if p > 0 then (p - 1) % NUM_SUBCASES else if lap > 0 then (sglen - 1) % NUM_SUBCASES else -1,
         0,
         if final && p == sglen then 1 else 0,
         Range(p, sglen) + (if final then [] else Range(0, p)),
         Laps(sglen, lap) + Range(0, p))
  }

  predicate Allowed(t: Test, expected: int -> int, o: Outcome)
    requires t.queue != []
  {
    Judge(expected(Back(t, o)), Back(t, o) % NUM_SUBCASES, o.status) == 0
  }

  predicate Refused(t: Test, expected: int -> int, o: Outcome)
    requires t.queue != []
  {
    Attempted(t, expected, o) && o.resubmit != 0
  }

  // The status is one the test allows for its URB, and resubmission, if it is tried, works.
  predicate Fine(t: Test, expected: int -> int, o: Outcome)
    requires t.queue != []
  {
    Allowed(t, expected, o) && !Refused(t, expected, o)
  }

  predicate AllFine(t: Test, expected: int -> int, os: seq<Outcome>)
    requires Runs(t, expected, os)
    decreases |os|
  {
    os == [] || (Fine(t, expected, os[0]) && AllFine(Complete(t, expected, os[0]), expected, os[1..]))
  }

  lemma RangeSnoc(a: int, b: int)
    requires a <= b
    ensures Range(a, b + 1) == Range(a, b) + [b]
  {
  }

  // A URB comes back right behind the one before it, so the order test passes: at the number 0
  // it does not look.
  lemma InOrder(sglen: nat, lap: nat, p: nat)
    requires p < sglen
    ensures var last := if p > 0 then (p - 1) % NUM_SUBCASES else if lap > 0 then (sglen - 1) % NUM_SUBCASES else -1;
            !OutOfOrder(last, p % NUM_SUBCASES)
  {
  }

  // Another completion of the URB is wanted in every lap but the last.
  lemma MoreWanted(sglen: nat, iterations: nat, lap: nat, p: nat)
    requires lap < iterations && p < sglen && Times(sglen, iterations) <= UINT_MAX
    ensures var t := At(sglen, iterations, lap, p);
            t.count > 0 && t.pending > 0 && (t.pending - 1 < t.count - 1 <==> lap < iterations - 1)
  {
    assert Times(sglen, iterations - lap) == sglen + Times(sglen, iterations - lap - 1);
    if lap == iterations - 1 {
      assert Times(sglen, 0) == 0;
    }
  }

  // A completion the test is content with, of URB p at the head.
  lemma GoodCompletion(t: Test, expected: int -> int, o: Outcome, p: nat, rest: seq<int>)
    requires t.queue == [p] + rest && t.pending > 0 && t.status == 0 && Verdict(t, expected, o) == 0
    requires !Refused(t, expected, o) && o.at == 0
    ensures var again := t.pending - 1 < Dec(t.count);
            Complete(t, expected, o) ==
            Test(Dec(t.count), if again then t.pending else t.pending - 1, p % NUM_SUBCASES, 0,
                 t.signals + (if !again && t.pending == 1 then 1 else 0),
                 if again then rest + [p] else rest, t.log + [p])
  {
    hide Verdict, Back, Without;
    HeadBack(t, o);
    assert ([p] + rest)[1..] == rest && rest + [] == rest;
  }

  function Rest(sglen: nat, iterations: nat, lap: nat, p: nat): seq<int> {
    Range(p + 1, sglen) + (if lap == iterations - 1 then [] else Range(0, p))
  }

  lemma AtHead(sglen: nat, iterations: nat, lap: nat, p: nat)
    requires lap < iterations && p < sglen
    ensures At(sglen, iterations, lap, p).queue == [p] + Rest(sglen, iterations, lap, p)
  {
    hide Laps, Times;
    RangeTail(p, sglen);
  }

  lemma AtNext(sglen: nat, iterations: nat, lap: nat, p: nat)
    requires lap < iterations && p < sglen
    ensures var t, rest, final := At(sglen, iterations, lap, p), Rest(sglen, iterations, lap, p), lap == iterations - 1;
            At(sglen, iterations, lap, p + 1) ==
            Test(t.count - 1, if final then t.pending - 1 else t.pending, p % NUM_SUBCASES, 0,
                 t.signals + (if final && p + 1 == sglen then 1 else 0),
                 if final then rest else rest + [p], t.log + [p])
  {
    hide Laps, Range, Times;
    RangeSnoc(0, p);
    var rest := Rest(sglen, iterations, lap, p);
    assert Range(p + 1, sglen) + [] == Range(p + 1, sglen);
    assert Laps(sglen, lap) + Range(0, p + 1) == At(sglen, iterations, lap, p).log + [p];
    if lap < iterations - 1 {
      assert rest + [p] == Range(p + 1, sglen) + (Range(0, p) + [p]);
    }
  }

  lemma StepAt(sglen: nat, iterations: nat, lap: nat, p: nat, expected: int -> int, o: Outcome)
    requires lap < iterations && p < sglen && Times(sglen, iterations) <= UINT_MAX
    requires Fine(At(sglen, iterations, lap, p), expected, o) && o.at == 0
    ensures Complete(At(sglen, iterations, lap, p), expected, o) == At(sglen, iterations, lap, p + 1)
  {
    hide Judge, OutOfOrder, Laps, Range, Complete, Times, Refused, Rest, Allowed;
    var t := At(sglen, iterations, lap, p);
    InOrder(sglen, lap, p);
    MoreWanted(sglen, iterations, lap, p);
    AtHead(sglen, iterations, lap, p);
    FineVerdict(t, expected, o, p);
    GoodCompletion(t, expected, o, p, Rest(sglen, iterations, lap, p));
    AtNext(sglen, iterations, lap, p);
  }

  // An allowed status of the URB whose turn it is.
  lemma FineVerdict(t: Test, expected: int -> int, o: Outcome, p: nat)
    requires t.queue != [] && t.queue[0] == p && o.at == 0 && Allowed(t, expected, o)
    requires !OutOfOrder(t.last, p % NUM_SUBCASES)
    ensures Verdict(t, expected, o) == 0
  {
    hide Judge, OutOfOrder;
  }

  lemma RangeTail(a: int, b: int)
    requires a < b
    ensures Range(a, b) == [a] + Range(a + 1, b)
  {
  }

  lemma NextLap(sglen: nat, iterations: nat, lap: nat)
    requires lap + 1 < iterations && sglen > 0
    ensures At(sglen, iterations, lap, sglen) == At(sglen, iterations, lap + 1, 0)
  {
    assert Range(sglen, sglen) + Range(0, sglen) == Range(0, sglen) + [];
    assert Laps(sglen, lap + 1) + Range(0, 0) == Laps(sglen, lap) + Range(0, sglen);
  }

  lemma StartAt(sglen: nat, iterations: nat)
    requires sglen > 0 && iterations > 0
    ensures Start(sglen, iterations) == At(sglen, iterations, 0, 0)
  {
    TimesIsProduct(sglen, iterations);
    assert Laps(sglen, 0) + Range(0, 0) == [];
    assert Range(0, sglen) + (if iterations == 1 then [] else Range(0, 0)) == Range(0, sglen);
  }

  lemma {:induction false} FineRun(sglen: nat, iterations: nat, lap: nat, p: nat, expected: int -> int, os: seq<Outcome>)
    returns (lap': nat, p': nat)
    requires lap < iterations && p <= sglen && sglen > 0 && Times(sglen, iterations) <= UINT_MAX
    requires Runs(At(sglen, iterations, lap, p), expected, os) && AllFine(At(sglen, iterations, lap, p), expected, os)
    requires InQueueOrder(os)
    ensures lap' < iterations && p' <= sglen && Times(sglen, lap') + p' == Times(sglen, lap) + p + |os|
    ensures Run(At(sglen, iterations, lap, p), expected, os) == At(sglen, iterations, lap', p')
    decreases |os|, iterations - lap, sglen - p
  {
    hide Complete, Fine;
    var t := At(sglen, iterations, lap, p);
    if os == [] {
      lap', p' := lap, p;
    } else if p == sglen {
      assert lap < iterations - 1;
      NextLap(sglen, iterations, lap);
      lap', p' := FineRun(sglen, iterations, lap + 1, 0, expected, os);
    } else {
      OrderTail(os);
      StepAt(sglen, iterations, lap, p, expected, os[0]);
      lap', p' := FineRun(sglen, iterations, lap, p + 1, expected, os[1..]);
    }
  }

  lemma OrderTail(os: seq<Outcome>)
    requires os != [] && InQueueOrder(os)
    ensures os[0].at == 0 && InQueueOrder(os[1..])
  {
    assert os[0] in os && forall o | o in os[1..] :: o in os;
  }

  lemma AtOver(sglen: nat, iterations: nat, lap: nat, p: nat)
    requires lap < iterations && p <= sglen && sglen > 0
    ensures var t, over := At(sglen, iterations, lap, p), lap == iterations - 1 && p == sglen;
            && t.status == 0 && (t.queue == [] <==> over) && t.signals == (if over then 1 else 0)
            && (over ==> t.log == Laps(sglen, iterations))
  {
    if lap == iterations - 1 && p == sglen {
      assert Laps(sglen, iterations) == Laps(sglen, lap) + Range(0, sglen);
    }
  }

  // The ring: with a host that keeps order and allowed statuses, the order test never fires for
  // any sglen, the test never fails, and it is over after exactly `iterations` laps through the
  // URBs in order, when completion is signalled for the first time.
  lemma Ring(sglen: nat, iterations: nat, expected: int -> int, os: seq<Outcome>)
    requires sglen > 0 && iterations > 0 && sglen * iterations <= UINT_MAX
    requires Runs(Start(sglen, iterations), expected, os) && AllFine(Start(sglen, iterations), expected, os)
    requires InQueueOrder(os)
    ensures var t := Run(Start(sglen, iterations), expected, os);
            && t.status == 0
            && (t.queue == [] <==> |os| == sglen * iterations)
            && (t.queue == [] ==> t.log == Laps(sglen, iterations) && t.signals == 1)
            && (t.queue != [] ==> t.signals == 0)
  {
    hide Complete, AllFine, At, Start, Run, Runs, Laps;
    StartAt(sglen, iterations);
    TimesIsProduct(sglen, iterations);
    var lap, p := FineRun(sglen, iterations, 0, 0, expected, os);
    AtOver(sglen, iterations, lap, p);
    assert Times(sglen, lap + 1) == sglen + Times(sglen, lap);
    if lap < iterations - 1 {
      TimesGrows(sglen, lap + 2, iterations);
    }
  }

  lemma {:induction false} TimesGrows(sglen: nat, a: nat, b: nat)
    requires a <= b
    ensures Times(sglen, a) <= Times(sglen, b)
    decreases b
  {
    if a < b {
      TimesGrows(sglen, a, b - 1);
    }
  }

  lemma {:induction false} LapsCount(sglen: nat, laps: nat, u: int)
    requires 0 <= u < sglen
    ensures multiset(Laps(sglen, laps))[u] == laps
    decreases laps
  {
    hide Range;
    if laps > 0 {
      LapsCount(sglen, laps - 1, u);
      RangeCount(0, sglen, u);
      ConcatCount(Laps(sglen, laps - 1), Range(0, sglen), u);
    }
  }

  lemma ConcatCount(a: seq<int>, b: seq<int>, u: int)
    ensures multiset(a + b)[u] == multiset(a)[u] + multiset(b)[u]
  {
  }

  lemma {:induction false} RangeCount(a: int, b: int, u: int)
    ensures multiset(Range(a, b))[u] == if a <= u < b then 1 else 0
    decreases b - a
  {
    if a < b {
      RangeCount(a + 1, b, u);
      assert multiset([a] + Range(a + 1, b))[u] == multiset([a])[u] + multiset(Range(a + 1, b))[u];
    }
  }

  lemma {:induction false} LapsLength(sglen: nat, laps: nat)
    ensures |Laps(sglen, laps)| == Times(sglen, laps)
    decreases laps
  {
    if laps > 0 {
      LapsLength(sglen, laps - 1);
    }
  }

  lemma {:induction false} LapsAt(sglen: nat, laps: nat, lap: nat, p: nat)
    requires p < sglen && lap < laps
    ensures Times(sglen, lap) + p < |Laps(sglen, laps)| && Laps(sglen, laps)[Times(sglen, lap) + p] == p
    decreases laps
  {
    LapsLength(sglen, laps);
    LapsLength(sglen, laps - 1);
    if lap < laps - 1 {
      LapsAt(sglen, laps - 1, lap, p);
    }
  }

  // What Laps says: completion number lap * sglen + p is that of URB p, so the URBs complete in
  // cyclic order, each exactly `iterations` times.
  lemma LapsMeaning(sglen: nat, iterations: nat, lap: nat, p: nat)
    requires p < sglen && lap < iterations
    ensures |Laps(sglen, iterations)| == sglen * iterations
    ensures lap * sglen + p < |Laps(sglen, iterations)| && Laps(sglen, iterations)[lap * sglen + p] == p
    ensures multiset(Laps(sglen, iterations))[p] == iterations
  {
    LapsLength(sglen, iterations);
    TimesIsProduct(sglen, iterations);
    TimesIsProduct(sglen, lap);
    LapsAt(sglen, iterations, lap, p);
    LapsCount(sglen, iterations, p);
  }

  // ---- What a pass means ----

  // No resubmission that was tried was refused, and every status was allowed.
  predicate NoneRefused(t: Test, expected: int -> int, os: seq<Outcome>)
    requires Runs(t, expected, os)
    decreases |os|
  {
    os == [] || (!Refused(t, expected, os[0]) && NoneRefused(Complete(t, expected, os[0]), expected, os[1..]))
  }

  predicate AllAllowed(t: Test, expected: int -> int, os: seq<Outcome>)
    requires Runs(t, expected, os)
    decreases |os|
  {
    os == [] || (Allowed(t, expected, os[0]) && AllAllowed(Complete(t, expected, os[0]), expected, os[1..]))
  }

  lemma {:induction false} RunSnoc(t: Test, expected: int -> int, os: seq<Outcome>, o: Outcome)
    requires Runs(t, expected, os) && Run(t, expected, os).queue != []
    ensures Runs(t, expected, os + [o])
    ensures Run(t, expected, os + [o]) == Complete(Run(t, expected, os), expected, o)
    ensures AllAllowed(t, expected, os + [o]) <==> AllAllowed(t, expected, os) && Allowed(Run(t, expected, os), expected, o)
    decreases |os|
  {
    hide Complete, Allowed;
    if os == [] {
      assert (os + [o])[1..] == [];
    } else {
      assert (os + [o])[1..] == os[1..] + [o];
      RunSnoc(Complete(t, expected, os[0]), expected, os[1..], o);
    }
  }

  lemma {:induction false} PassAllowed(t: Test, expected: int -> int, os: seq<Outcome>)
    requires Runs(t, expected, os)
    ensures t.status != 0 ==> Run(t, expected, os).status == t.status
    ensures Run(t, expected, os).status == 0 ==> AllAllowed(t, expected, os)
    ensures AllFine(t, expected, os) <==> AllAllowed(t, expected, os) && NoneRefused(t, expected, os)
    decreases |os|
  {
    if os != [] {
      PassAllowed(Complete(t, expected, os[0]), expected, os[1..]);
    }
  }

  // A URB the host no longer has completes no more.
  lemma {:induction false} GoneIsGone(t: Test, expected: int -> int, os: seq<Outcome>, u: int)
    requires Runs(t, expected, os) && u !in t.queue
    ensures multiset(Run(t, expected, os).log)[u] == multiset(t.log)[u]
    decreases |os|
  {
    if os != [] {
      var n := Complete(t, expected, os[0]);
      assert Back(t, os[0]) in t.queue && forall x | x in Without(t.queue, Place(t, os[0])) :: x in t.queue;
      ConcatCount(t.log, [Back(t, os[0])], u);
      GoneIsGone(n, expected, os[1..], u);
    }
  }

  lemma CompletedSoFar(sglen: nat, lap: nat, p: nat)
    requires p < sglen
    ensures multiset(Laps(sglen, lap) + Range(0, p) + [p])[p] == lap + 1
  {
    hide Laps, Range;
    LapsCount(sglen, lap, p);
    RangeCount(0, p, p);
    ConcatCount(Laps(sglen, lap), Range(0, p), p);
    ConcatCount(Laps(sglen, lap) + Range(0, p), [p], p);
  }

  lemma RefusalDrops(sglen: nat, iterations: nat, lap: nat, p: nat, expected: int -> int, o: Outcome)
    requires lap < iterations && p < sglen && Times(sglen, iterations) <= UINT_MAX
    requires Refused(At(sglen, iterations, lap, p), expected, o) && o.at == 0
    ensures lap < iterations - 1
    ensures var n := Complete(At(sglen, iterations, lap, p), expected, o);
            p !in n.queue && n.log == Laps(sglen, lap) + Range(0, p) + [p]
  {
    hide Laps, Times, Judge, OutOfOrder, Range;
    MoreWanted(sglen, iterations, lap, p);
    RangeTail(p, sglen);
    HeadBack(At(sglen, iterations, lap, p), o);
    var n := Complete(At(sglen, iterations, lap, p), expected, o);
    assert n.queue == Range(p + 1, sglen) + Range(0, p);
  }

  // After a refusal the URB has completed once too few.
  lemma RefusedShort(sglen: nat, iterations: nat, lap: nat, p: nat, expected: int -> int, os: seq<Outcome>)
    requires lap < iterations && p < sglen && Times(sglen, iterations) <= UINT_MAX && os != []
    requires Runs(At(sglen, iterations, lap, p), expected, os) && Refused(At(sglen, iterations, lap, p), expected, os[0])
    requires os[0].at == 0
    ensures Run(At(sglen, iterations, lap, p), expected, os).log != Laps(sglen, iterations)
  {
    hide Laps, Run, Runs, Times, Range, Complete, At, Refused;
    var t := At(sglen, iterations, lap, p);
    RunTail(t, expected, os);
    RefusalDrops(sglen, iterations, lap, p, expected, os[0]);
    GoneIsGone(Complete(t, expected, os[0]), expected, os[1..], p);
    CompletedSoFar(sglen, lap, p);
    LapsCount(sglen, iterations, p);
  }

  lemma RunTail(t: Test, expected: int -> int, os: seq<Outcome>)
    requires os != [] && Runs(t, expected, os)
    ensures t.queue != [] && Runs(Complete(t, expected, os[0]), expected, os[1..])
    ensures Run(t, expected, os) == Run(Complete(t, expected, os[0]), expected, os[1..])
  {
  }

  lemma {:induction false} RefusalShows(sglen: nat, iterations: nat, lap: nat, p: nat, expected: int -> int, os: seq<Outcome>)
    requires lap < iterations && p <= sglen && sglen > 0 && Times(sglen, iterations) <= UINT_MAX
    requires Runs(At(sglen, iterations, lap, p), expected, os)
    requires AllAllowed(At(sglen, iterations, lap, p), expected, os)
    requires !NoneRefused(At(sglen, iterations, lap, p), expected, os) && InQueueOrder(os)
    ensures Run(At(sglen, iterations, lap, p), expected, os).log != Laps(sglen, iterations)
    decreases |os|, iterations - lap, sglen - p
  {
    hide Complete, Refused, Allowed, Laps, At;
    var t := At(sglen, iterations, lap, p);
    AtOver(sglen, iterations, lap, p);
    if p == sglen {
      NextLap(sglen, iterations, lap);
      RefusalShows(sglen, iterations, lap + 1, 0, expected, os);
      return;
    }
    OrderTail(os);
    if Refused(t, expected, os[0]) {
      RefusedShort(sglen, iterations, lap, p, expected, os);
    } else {
      StepAt(sglen, iterations, lap, p, expected, os[0]);
      RefusalShows(sglen, iterations, lap, p + 1, expected, os[1..]);
    }
  }

  // What a pass means on a host that keeps order.  If no resubmission was refused, the test passes
  // exactly if every status was allowed.  A test that is over and has passed has run all laps,
  // every URB in order, exactly if no resubmission was refused.
  lemma PassMeans(sglen: nat, iterations: nat, expected: int -> int, os: seq<Outcome>)
    requires sglen > 0 && iterations > 0 && sglen * iterations <= UINT_MAX
    requires Runs(Start(sglen, iterations), expected, os) && InQueueOrder(os)
    ensures var s, t := Start(sglen, iterations), Run(Start(sglen, iterations), expected, os);
            && (NoneRefused(s, expected, os) ==> (t.status == 0 <==> AllAllowed(s, expected, os)))
            && (t.status == 0 && t.queue == [] ==> (t.log == Laps(sglen, iterations) <==> NoneRefused(s, expected, os)))
  {
    hide Complete, At, Start, Laps, AllFine, AllAllowed, NoneRefused, Runs, Run;
    var s := Start(sglen, iterations);
    PassAllowed(s, expected, os);
    if NoneRefused(s, expected, os) {
      if AllAllowed(s, expected, os) {
        Ring(sglen, iterations, expected, os);
      }
    } else if Run(s, expected, os).status == 0 {
      StartAt(sglen, iterations);
      TimesIsProduct(sglen, iterations);
      RefusalShows(sglen, iterations, 0, 0, expected, os);
    }
  }

  // A failed resubmission is only printed.  With one URB and two laps the test ends after one
  // completion and passes.
  lemma ResubmitFailureUnreported(expected: int -> int)
    requires expected(0) == 0
    ensures var os := [Outcome(0, -1, 0)];
            && Runs(Start(1, 2), expected, os)
            && var t := Run(Start(1, 2), expected, os);
            t.queue == [] && t.status == 0 && |t.log| == 1 && t.signals == 1
  {
    var os := [Outcome(0, -1, 0)];
    assert os[1..] == [];
    assert Start(1, 2).queue == [0];
  }

  // With more URBs it is blamed on the order: the next URB follows a gap, although the host
  // kept the order and every status was allowed.
  lemma ResubmitFailureLooksOutOfOrder(expected: int -> int)
    requires forall u | 0 <= u < 3 :: expected(u) == 0
    ensures var os := [Outcome(0, -1, 0), Outcome(0, 0, 0), Outcome(0, 0, 0), Outcome(0, 0, 0)];
            && Runs(Start(3, 2), expected, os)
            && Run(Start(3, 2), expected, os).status == -EDOM
  {
    hide Complete, Start;
    var bad, good := Outcome(0, -1, 0), Outcome(0, 0, 0);
    FirstRefused(expected);
    SecondGoesOn(expected);
    ThirdGoesOn(expected);
    FourthIsBlamed(expected);
    OneMore(THIRD_DONE, expected, good, []);
    OneMore(SECOND_DONE, expected, good, [good]);
    OneMore(FIRST_DONE, expected, good, [good, good]);
    OneMore(Start(3, 2), expected, bad, [good, good, good]);
    assert [bad] + [good, good, good] == [bad, good, good, good];
    assert [good] + [good, good] == [good, good, good] && [good] + [good] == [good, good] && [good] + [] == [good];
  }

  const FIRST_DONE := Test(5, 2, 0, 0, 0, [1, 2], [0])
  const SECOND_DONE := Test(4, 2, 1, 0, 0, [2, 1], [0, 1])
  const THIRD_DONE := Test(3, 2, 2, 0, 0, [1, 2], [0, 1, 2])

  lemma FirstRefused(expected: int -> int)
    requires expected(0) == 0
    ensures Start(3, 2).queue != [] && Complete(Start(3, 2), expected, Outcome(0, -1, 0)) == FIRST_DONE
  {
    assert Start(3, 2) == Test(6, 3, -1, 0, 0, [0, 1, 2], []);
  }

  lemma SecondGoesOn(expected: int -> int)
    requires expected(1) == 0
    ensures Complete(FIRST_DONE, expected, Outcome(0, 0, 0)) == SECOND_DONE
  {
  }

  lemma ThirdGoesOn(expected: int -> int)
    requires expected(2) == 0
    ensures Complete(SECOND_DONE, expected, Outcome(0, 0, 0)) == THIRD_DONE
  {
  }

  lemma FourthIsBlamed(expected: int -> int)
    ensures Complete(THIRD_DONE, expected, Outcome(0, 0, 0)).status == -EDOM
  {
  }

  lemma OneMore(t: Test, expected: int -> int, o: Outcome, os: seq<Outcome>)
    requires t.queue != [] && Runs(Complete(t, expected, o), expected, os)
    ensures Runs(t, expected, [o] + os)
    ensures Run(t, expected, [o] + os) == Run(Complete(t, expected, o), expected, os)
  {
    assert ([o] + os)[1..] == os;
  }

  // ---- No iterations ----

  // The URBs go round, n completions after the start, URB p at the head.
  predicate Circulating(t: Test, sglen: nat, p: nat, n: nat) {
    && p < sglen && t.pending == sglen && t.queue == Range(p, sglen) + Range(0, p)
    && !OutOfOrder(t.last, p % NUM_SUBCASES) && t.status == 0 && t.signals == 0
    && t.count == if n == 0 then 0 else UINT_MAX + 1 - n
  }

  lemma Circulates(t: Test, sglen: nat, p: nat, n: nat, expected: int -> int, o: Outcome)
    requires Circulating(t, sglen, p, n) && Fine(t, expected, o) && o.at == 0 && n < UINT_MAX + 1 - sglen
    ensures Circulating(Complete(t, expected, o), sglen, if p + 1 == sglen then 0 else p + 1, n + 1)
  {
    hide Judge, OutOfOrder, Range, Complete, Refused, Verdict;
    RangeTail(p, sglen);
    var rest := Range(p + 1, sglen) + Range(0, p);
    assert t.queue == [p] + rest;
    assert Verdict(t, expected, o) == 0 by { FineVerdict(t, expected, o, p); }
    GoodCompletion(t, expected, o, p, rest);
    RangeSnoc(0, p);
    assert rest + [p] == Range(p + 1, sglen) + Range(0, p + 1);
    InOrder(sglen, 0, if p + 1 == sglen then 0 else p + 1);
    InOrder(sglen, 1, 0);
    if p + 1 == sglen {
      assert Range(0, sglen) + [] == Range(0, sglen);
      assert Complete(t, expected, o).queue == Range(0, sglen) + Range(0, 0);
    }
  }

  lemma {:induction false} CirculatesOn(t: Test, sglen: nat, p: nat, n: nat, expected: int -> int, os: seq<Outcome>)
    returns (p': nat)
    requires Circulating(t, sglen, p, n) && Runs(t, expected, os) && AllFine(t, expected, os)
    requires n + |os| <= UINT_MAX + 1 - sglen && InQueueOrder(os)
    ensures Circulating(Run(t, expected, os), sglen, p', n + |os|)
    decreases |os|
  {
    hide Circulating, Complete, Fine;
    if os == [] {
      p' := p;
    } else {
      OrderTail(os);
      Circulates(t, sglen, p, n, expected, os[0]);
      p' := CirculatesOn(Complete(t, expected, os[0]), sglen, if p + 1 == sglen then 0 else p + 1, n + 1, expected, os[1..]);
    }
  }

  // With no iterations count wraps around on the first completion, and the URBs circulate through
  // another 2^32 completions with nothing signalled; the caller refuses that
  // (patch/kernel/usbtest.c:2574).
  lemma ZeroIterationsCirculate(sglen: nat, expected: int -> int, os: seq<Outcome>)
    requires 0 < sglen <= UINT_MAX && |os| <= UINT_MAX + 1 - sglen
    requires Runs(Start(sglen, 0), expected, os) && AllFine(Start(sglen, 0), expected, os) && InQueueOrder(os)
    ensures var t := Run(Start(sglen, 0), expected, os);
            |t.queue| == sglen && t.pending == sglen && t.signals == 0 && t.status == 0
  {
    hide Complete, AllFine;
    var t := Start(sglen, 0);
    assert Range(0, sglen) + Range(0, 0) == Range(0, sglen);
    assert Circulating(t, sglen, 0, 0);
    var p := CirculatesOn(t, sglen, 0, 0, expected, os);
  }

  // ---- A submission fails ----

  // Only the first `sent` URBs were submitted; the loop sets count to that.
  function StartShort(sent: nat, error: int): Test {
    Test(sent, sent, -1, error, 0, Range(0, sent), [])
  }

  predicate Ending(t: Test) { t.status != 0 && t.count == t.pending == |t.queue| }

  // All URBs, completed or queued.
  function Urbs(t: Test): multiset<int> { multiset(t.log) + multiset(t.queue) }

  // n completions later.
  predicate Drained(t: Test, r: Test, n: nat) {
    && Ending(r) && r.status == t.status && |r.queue| == |t.queue| - n
    && Urbs(r) == Urbs(t)
    && r.signals == t.signals + if n > 0 && r.queue == [] then 1 else 0
  }

  lemma {:induction false} ShortRun(t: Test, expected: int -> int, os: seq<Outcome>)
    requires Ending(t) && Runs(t, expected, os)
    ensures Drained(t, Run(t, expected, os), |os|)
    ensures InQueueOrder(os) ==> Run(t, expected, os).log == t.log + t.queue[..|os|]
    decreases |os|
  {
    hide Complete, InQueueOrder, Urbs;
    if os != [] {
      var n := Complete(t, expected, os[0]);
      ShortStep(t, expected, os[0]);
      ShortRun(n, expected, os[1..]);
      if InQueueOrder(os) {
        OrderTail(os);
        assert t.queue[..|os|] == [t.queue[0]] + t.queue[1..][..|os| - 1];
      }
    }
  }

  lemma ShortStep(t: Test, expected: int -> int, o: Outcome)
    requires Ending(t) && t.queue != []
    ensures Drained(t, Complete(t, expected, o), 1)
    ensures o.at == 0 ==> Complete(t, expected, o).queue == t.queue[1..]
    ensures o.at == 0 ==> Complete(t, expected, o).log == t.log + [t.queue[0]]
  {
    hide Verdict, Without, Urbs;
    var n := Complete(t, expected, o);
    assert Without(t.queue, Place(t, o)) + [] == n.queue;
    MovedUrb(t, n, Place(t, o));
    if o.at == 0 {
      HeadBack(t, o);
    }
  }

  lemma MovedUrb(t: Test, n: Test, i: nat)
    requires i < |t.queue| && n.queue == Without(t.queue, i) && n.log == t.log + [t.queue[i]]
    ensures Urbs(n) == Urbs(t)
  {
    assert t.queue == t.queue[..i] + ([t.queue[i]] + t.queue[i + 1..]);
  }

  // Then each submitted URB completes once, nothing is resubmitted, and the test fails.
  lemma ShortStart(sent: nat, error: int, expected: int -> int, os: seq<Outcome>)
    requires error != 0 && sent > 0 && Runs(StartShort(sent, error), expected, os)
    ensures var t := Run(StartShort(sent, error), expected, os);
            && t.status == error
            && (t.queue == [] <==> |os| == sent)
            && (t.queue == [] ==> multiset(t.log) == multiset(Range(0, sent)) && t.signals == 1)
            && (t.queue == [] && InQueueOrder(os) ==> t.log == Range(0, sent))
  {
    hide Complete, Run, Runs, InQueueOrder;
    var s, t := StartShort(sent, error), Run(StartShort(sent, error), expected, os);
    ShortRun(s, expected, os);
    assert Urbs(s) == multiset(Range(0, sent));
    if t.queue == [] {
      assert Urbs(t) == multiset(t.log);
      assert Range(0, sent)[..sent] == Range(0, sent);
    }
  }

  // ---- Unlinking what is still pending ----

  // On a fault the handler counts on from the subcase number of the failed URB.
  function Victim(sglen: nat, number: nat, i: nat): int
    requires sglen > 0
  {
    (i + number) % sglen
  }

  predicate Visited(sglen: nat, number: nat, v: int)
    requires sglen > 0
  {
    exists i: nat | 1 <= i < sglen :: Victim(sglen, number, i) == v
  }

  lemma VictimIs(sglen: nat, number: nat, i: nat)
    requires number < sglen && i < sglen
    ensures Victim(sglen, number, i) == if i + number < sglen then i + number else i + number - sglen
  {
    if i + number >= sglen {
      ModSub(i + number, sglen);
    }
  }

  lemma ModSub(k: nat, n: nat)
    requires 0 < n <= k < 2 * n
    ensures k % n == k - n
  {
    assert k == n + (k - n);
    assert (k - n) % n == k - n;
  }

  lemma VisitedIff(sglen: nat, number: nat, v: int)
    requires number < sglen && 0 <= v < sglen
    ensures Visited(sglen, number, v) <==> v != number
  {
    hide Victim;
    if v > number {
      VictimIs(sglen, number, v - number);
    } else if v < number {
      VictimIs(sglen, number, v + sglen - number);
    } else {
      forall i: nat | 1 <= i < sglen ensures Victim(sglen, number, i) != v {
        VictimIs(sglen, number, i);
      }
    }
  }

  // Subcase numbers repeat every 16 URBs: the loop reaches every other URB, as its comment says,
  // exactly for the first 16.
  lemma UnlinksRestIff(sglen: nat, u: nat)
    requires u < sglen
    ensures (forall v | 0 <= v < sglen && v != u :: Visited(sglen, u % NUM_SUBCASES, v)) <==> u < NUM_SUBCASES
  {
    var number := u % NUM_SUBCASES;
    forall v | 0 <= v < sglen ensures Visited(sglen, number, v) <==> v != number {
      VisitedIff(sglen, number, v);
    }
    if u >= NUM_SUBCASES {
      assert number != u && !Visited(sglen, number, number);
    }
  }
}
