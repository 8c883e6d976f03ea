// What a verdict of the control queue test says about the order in which its URBs completed
// (patch/kernel/usbtest.c:1245-1258, 1321-1335), on any host.

module CtrlQueueOrder {
  import opened CtrlQueue

  // ---- A pass ----

  // Subcase numbers count up from 0, over and over.
  predicate InSteps(log: seq<int>) {
    forall i | 0 <= i < |log| :: StepsAt(log, i)
  }

  predicate StepsAt(log: seq<int>, i: int)
    requires 0 <= i < |log|
  {
    log[i] % NUM_SUBCASES == 0 || (i > 0 && log[i] % NUM_SUBCASES == log[i - 1] % NUM_SUBCASES + 1)
  }

  predicate LastLogged(t: Test) { t.last == if t.log == [] then -1 else t.log[|t.log| - 1] % NUM_SUBCASES }

  lemma StepJudged(t: Test, expected: int -> int, o: Outcome)
    requires t.queue != [] && t.status == 0 && LastLogged(t) && InSteps(t.log)
    ensures var n := Complete(t, expected, o);
            && LastLogged(n) && t.log <= n.log
            && (n.status == 0 <==> Allowed(t, expected, o) && InSteps(n.log))
  {
    hide Judge, OutOfOrder, Without, Place, StepsAt;
    var n, u := Complete(t, expected, o), Back(t, o);
    assert n.log == t.log + [u];
    StepsOn(t.log, u);
  }

  lemma StepsOn(log: seq<int>, u: int)
    requires InSteps(log)
    ensures InSteps(log + [u])
       <==> !OutOfOrder(if log == [] then -1 else log[|log| - 1] % NUM_SUBCASES, u % NUM_SUBCASES)
  {
    var more, k := log + [u], |log|;
    assert forall i | 0 <= i < k :: StepsAt(log, i) && StepsAt(more, i);
    assert InSteps(more) <==> StepsAt(more, k);
  }

  lemma {:induction false} RunGrows(t: Test, expected: int -> int, os: seq<Outcome>)
    requires Runs(t, expected, os)
    ensures t.log <= Run(t, expected, os).log
    decreases |os|
  {
    hide Verdict, Attempted;
    if os != [] {
      RunGrows(Complete(t, expected, os[0]), expected, os[1..]);
    }
  }

  lemma StepsBefore(log: seq<int>, more: seq<int>)
    requires log <= more && InSteps(more)
    ensures InSteps(log)
  {
    assert forall i | 0 <= i < |log| :: StepsAt(more, i) && StepsAt(log, i);
  }

  lemma {:induction false} PassSteps(t: Test, expected: int -> int, os: seq<Outcome>)
    requires Runs(t, expected, os) && t.status == 0 && LastLogged(t) && InSteps(t.log)
    ensures Run(t, expected, os).status == 0 <==> AllAllowed(t, expected, os) && InSteps(Run(t, expected, os).log)
    decreases |os|
  {
    hide Complete, InSteps, Allowed, LastLogged;
    if os != [] {
      var n := Complete(t, expected, os[0]);
      StepJudged(t, expected, os[0]);
      if n.status == 0 {
        PassSteps(n, expected, os[1..]);
      } else {
        PassAllowed(n, expected, os[1..]);
        RunGrows(n, expected, os[1..]);
        if InSteps(Run(n, expected, os[1..]).log) {
          StepsBefore(n.log, Run(n, expected, os[1..]).log);
        }
      }
    }
  }

  // On any host, and whatever resubmissions do: no fault has been noted exactly if every status so
  // far was allowed and the subcase numbers have counted up from 0, over and over.
  lemma PassIff(sglen: nat, iterations: nat, expected: int -> int, os: seq<Outcome>)
    requires Runs(Start(sglen, iterations), expected, os)
    ensures var s, t := Start(sglen, iterations), Run(Start(sglen, iterations), expected, os);
            t.status == 0 <==> AllAllowed(s, expected, os) && InSteps(t.log)
  {
    PassSteps(Start(sglen, iterations), expected, os);
  }

  // ---- Which faults a test reports ----

  // A completion with this status is no fault of the subcase: success, even of one that has to
  // fail; the status expected, or its negative if it need not happen; a stall of subcase 12.  A URB
  // that comes back unlinked (-104) is a fault unless just that is expected.
  predicate NoFault(expected: int, number: int, status: int) {
    || status == 0 || status == expected
    || (status != -104 && ((expected > 0 && status == -expected) || (number == 12 && status == -32)))
  }

  lemma AllowedIff(t: Test, expected: int -> int, o: Outcome)
    requires t.queue != []
    ensures Allowed(t, expected, o) <==> NoFault(expected(Back(t, o)), Back(t, o) % 16, o.status)
  {
  }

  // The k-th of these completions is reported: out of step, or with a status that is a fault.
  predicate Faulty(log: seq<int>, expected: int -> int, os: seq<Outcome>, n: nat, k: nat)
    requires n + |os| <= |log| && k < |os|
  {
    var u := log[n + k];
    !StepsAt(log, n + k) || !NoFault(expected(u), u % 16, os[k].status)
  }

  lemma StepVerdict(t: Test, expected: int -> int, o: Outcome)
    requires t.queue != [] && t.status == 0 && LastLogged(t) && InSteps(t.log)
    ensures var n := Complete(t, expected, o);
            && n.log == t.log + [Back(t, o)]
            && (n.status == 0 <==> StepsAt(n.log, |t.log|) && NoFault(expected(Back(t, o)), Back(t, o) % 16, o.status))
            && (n.status != 0 ==> n.status == if StepsAt(n.log, |t.log|) then o.status else -33)
  {
    hide Without, Place;
    var n, k := Complete(t, expected, o), |t.log|;
    assert n.log == t.log + [Back(t, o)];
    assert StepsAt(n.log, k) <==> !OutOfOrder(t.last, Back(t, o) % NUM_SUBCASES);
  }

  // From a context without a fault: the first completion that is reported, if any, gives the
  // context its status.
  lemma {:induction false} FirstFault(t: Test, expected: int -> int, os: seq<Outcome>) returns (k: nat)
    requires Runs(t, expected, os) && t.status == 0 && LastLogged(t) && InSteps(t.log)
    ensures |Run(t, expected, os).log| == |t.log| + |os| && k <= |os|
    ensures forall j: nat | j < k :: !Faulty(Run(t, expected, os).log, expected, os, |t.log|, j)
    ensures k == |os| ==> Run(t, expected, os).status == 0
    ensures k < |os| ==>
      && Faulty(Run(t, expected, os).log, expected, os, |t.log|, k)
      && Run(t, expected, os).status == if StepsAt(Run(t, expected, os).log, |t.log| + k) then os[k].status else -33
    decreases |os|
  {
    hide Complete, InSteps, LastLogged, NoFault, Allowed;
    k := 0;
    RunGrows(t, expected, os);
    RunLength(t, expected, os);
    if os != [] {
      var n, log := Complete(t, expected, os[0]), Run(t, expected, os).log;
      StepJudged(t, expected, os[0]);
      StepVerdict(t, expected, os[0]);
      RunGrows(n, expected, os[1..]);
      assert log[|t.log|] == n.log[|t.log|] && (StepsAt(log, |t.log|) <==> StepsAt(n.log, |t.log|));
      if n.status == 0 {
        assert !Faulty(log, expected, os, |t.log|, 0);
        var l := FirstFault(n, expected, os[1..]);
        k := l + 1;
        forall j: nat | j < k ensures !Faulty(log, expected, os, |t.log|, j) {
          if j > 0 {
            assert !Faulty(log, expected, os[1..], |n.log|, j - 1);
          }
        }
      } else {
        PassAllowed(n, expected, os[1..]);
      }
    }
  }

  lemma {:induction false} RunLength(t: Test, expected: int -> int, os: seq<Outcome>)
    requires Runs(t, expected, os)
    ensures |Run(t, expected, os).log| == |t.log| + |os|
    decreases |os|
  {
    hide Verdict, Attempted;
    if os != [] {
      RunLength(Complete(t, expected, os[0]), expected, os[1..]);
    }
  }

  // What a test returns that is over, on any host and whatever resubmissions do: 0 if no completion
  // is reported, otherwise the status of the first that is, or -EDOM if it was out of step.
  lemma StatusIsFirstFault(sglen: nat, iterations: nat, expected: int -> int, os: seq<Outcome>)
    requires Runs(Start(sglen, iterations), expected, os)
    ensures var t := Run(Start(sglen, iterations), expected, os);
            && |t.log| == |os|
            && (t.status == 0 <==> forall k: nat | k < |os| :: !Faulty(t.log, expected, os, 0, k))
            && (forall k: nat | k < |os| && Faulty(t.log, expected, os, 0, k)
                              && (forall j: nat | j < k :: !Faulty(t.log, expected, os, 0, j)) ::
                  t.status == if StepsAt(t.log, k) then os[k].status else -33)
  {
    hide Run, Runs, Faulty;
    var k := FirstFault(Start(sglen, iterations), expected, os);
    if k < |os| {
      FaultShows(Start(sglen, iterations), expected, os, k);
    }
  }

  lemma FaultShows(s: Test, expected: int -> int, os: seq<Outcome>, k: nat)
    requires Runs(s, expected, os) && k < |os| <= |Run(s, expected, os).log|
    requires var t := Run(s, expected, os);
             Faulty(t.log, expected, os, 0, k) && t.status == if StepsAt(t.log, k) then os[k].status else -33
    ensures Run(s, expected, os).status != 0
  {
  }

  // Blocks 0 .. p, one behind the other.
  predicate InBlocks(log: seq<int>, sglen: nat) {
    && (forall x | x in log :: 0 <= x < sglen)
    && forall i | 0 <= i < |log| :: log[i] == 0 || (i > 0 && log[i] == log[i - 1] + 1)
  }

  lemma {:induction false} LastBlock(log: seq<int>, sglen: nat)
    requires log != [] && InBlocks(log, sglen)
    ensures var k := |log| - log[|log| - 1] - 1;
            0 <= log[|log| - 1] < sglen && 0 <= k <= |log| && log[k..] == Range(0, log[|log| - 1] + 1)
    decreases |log|
  {
    var n := |log| - 1;
    var p := log[n];
    assert p in log;
    RangeSnoc(0, p);
    if p > 0 {
      var front := log[..n];
      BlocksBefore(log, sglen, n);
      LastBlock(front, sglen);
      assert log[n - p..] == front[n - p..] + [p];
    }
  }

  lemma BlocksBefore(log: seq<int>, sglen: nat, n: nat)
    requires n <= |log| && InBlocks(log, sglen)
    ensures InBlocks(log[..n], sglen)
  {
    assert forall x | x in log[..n] :: x in log;
  }

  lemma SplitBlock(log: seq<int>, sglen: nat) returns (rest: seq<int>, p: nat)
    requires log != [] && InBlocks(log, sglen)
    ensures InBlocks(rest, sglen) && p < sglen && log == rest + Range(0, p + 1) && |rest| < |log|
    ensures multiset(log)[0] == multiset(rest)[0] + 1
  {
    hide Range, InBlocks;
    LastBlock(log, sglen);
    p := log[|log| - 1];
    rest := log[..|log| - p - 1];
    BlocksBefore(log, sglen, |log| - p - 1);
    RangeCount(0, p + 1, 0);
    ConcatCount(rest, Range(0, p + 1), 0);
  }

  // c blocks are no longer than c laps, and as long only if they are c laps.
  predicate AtMostLaps(log: seq<int>, sglen: nat, c: nat) {
    |log| <= Times(sglen, c) && (|log| == Times(sglen, c) ==> log == Laps(sglen, c))
  }

  lemma {:induction false} BlocksAreLaps(log: seq<int>, sglen: nat)
    requires InBlocks(log, sglen)
    ensures AtMostLaps(log, sglen, multiset(log)[0])
    decreases |log|
  {
    hide InBlocks, Range, AtMostLaps;
    if log == [] {
      NoLaps(sglen);
    } else {
      var rest, p := SplitBlock(log, sglen);
      BlocksAreLaps(rest, sglen);
      OneBlockMore(rest, sglen, multiset(rest)[0], p);
    }
  }

  lemma NoLaps(sglen: nat)
    ensures AtMostLaps([], sglen, 0)
  {
  }

  lemma OneBlockMore(rest: seq<int>, sglen: nat, c: nat, p: nat)
    requires p < sglen && AtMostLaps(rest, sglen, c)
    ensures AtMostLaps(rest + Range(0, p + 1), sglen, c + 1)
  {
    hide Range;
  }

  predicate Within(t: Test, sglen: nat) {
    (forall x | x in t.queue :: 0 <= x < sglen) && (forall x | x in t.log :: 0 <= x < sglen)
  }

  lemma {:induction false} RunWithin(t: Test, expected: int -> int, os: seq<Outcome>, sglen: nat)
    requires Runs(t, expected, os) && Within(t, sglen)
    ensures Within(Run(t, expected, os), sglen)
    decreases |os|
  {
    hide Verdict, Attempted;
    if os != [] {
      var n := Complete(t, expected, os[0]);
      assert forall x | x in Without(t.queue, Place(t, os[0])) :: x in t.queue;
      assert Back(t, os[0]) in t.queue && n.log == t.log + [Back(t, os[0])];
      RunWithin(n, expected, os[1..], sglen);
    }
  }

  // With at most 16 URBs, and any host: as long as no fault has been noted URBs have completed in
  // blocks 0 .. p, of any length, and these are the wanted laps exactly if there are as many
  // completions and as many blocks as wanted.
  lemma PassOrder(sglen: nat, iterations: nat, expected: int -> int, os: seq<Outcome>)
    requires 0 < sglen <= NUM_SUBCASES && Runs(Start(sglen, iterations), expected, os)
    requires Run(Start(sglen, iterations), expected, os).status == 0
    ensures var log := Run(Start(sglen, iterations), expected, os).log;
            && InBlocks(log, sglen)
            && (log == Laps(sglen, iterations) <==> |log| == sglen * iterations && multiset(log)[0] == iterations)
  {
    hide Laps, Run, Runs, AllAllowed;
    var s, t := Start(sglen, iterations), Run(Start(sglen, iterations), expected, os);
    PassIff(sglen, iterations, expected, os);
    RunWithin(s, expected, os, sglen);
    forall i | 0 <= i < |t.log| ensures t.log[i] == 0 || (i > 0 && t.log[i] == t.log[i - 1] + 1) {
      assert StepsAt(t.log, i) && t.log[i] in t.log && (i > 0 ==> t.log[i - 1] in t.log);
    }
    BlocksAreLaps(t.log, sglen);
    TimesIsProduct(sglen, iterations);
    LapsLength(sglen, iterations);
    LapsCount(sglen, iterations, 0);
  }

  // Disorder that the test does not see: of two URBs the first completes twice before the second,
  // at a place of the queue that is not its head, and once after it.
  lemma DisorderPasses(expected: int -> int)
    requires expected(0) == 0 && expected(1) == 0
    ensures var head, second := Outcome(0, 0, 0), Outcome(0, 0, 1);
            var os := [head, second, head, head];
            && Runs(Start(2, 2), expected, os)
            && Run(Start(2, 2), expected, os) == Test(0, 0, 0, 0, 1, [], [0, 0, 1, 0])
  {
    hide Complete, Start;
    var head, second := Outcome(0, 0, 0), Outcome(0, 0, 1);
    DisorderStarts(expected);
    DisorderEnds(expected);
    OneMore(ONE_LEFT, expected, head, []);
    OneMore(TWICE_FIRST, expected, head, [head]);
    OneMore(ONCE_FIRST, expected, second, [head, head]);
    OneMore(Start(2, 2), expected, head, [second, head, head]);
    assert [head] + [second, head, head] == [head, second, head, head];
    assert [second] + [head, head] == [second, head, head] && [head] + [head] == [head, head] && [head] + [] == [head];
  }

  const ONCE_FIRST := Test(3, 2, 0, 0, 0, [1, 0], [0])
  const TWICE_FIRST := Test(2, 2, 0, 0, 0, [1, 0], [0, 0])
  const ONE_LEFT := Test(1, 1, 1, 0, 0, [0], [0, 0, 1])

  lemma DisorderStarts(expected: int -> int)
    requires expected(0) == 0
    ensures Start(2, 2).queue != [] && Complete(Start(2, 2), expected, Outcome(0, 0, 0)) == ONCE_FIRST
    ensures Complete(ONCE_FIRST, expected, Outcome(0, 0, 1)) == TWICE_FIRST
  {
    assert Start(2, 2) == Test(4, 2, -1, 0, 0, [0, 1], []);
  }

  lemma DisorderEnds(expected: int -> int)
    requires expected(0) == 0 && expected(1) == 0
    ensures Complete(TWICE_FIRST, expected, Outcome(0, 0, 0)) == ONE_LEFT
    ensures Complete(ONE_LEFT, expected, Outcome(0, 0, 0)) == Test(0, 0, 0, 0, 1, [], [0, 0, 1, 0])
  {
  }

  // ---- A failure that is not the host's ----

  // The state p completions after the start when URB q < p could not be resubmitted.
  function Gap(sglen: nat, iterations: nat, q: nat, p: nat): Test
    requires q < p <= sglen
  {
    Test(sglen * iterations - p, sglen - 1, (p - 1) % NUM_SUBCASES, 0, 0,
         Range(p, sglen) + (Range(0, q) + Range(q + 1, p)), Range(0, p))
  }

  lemma RefusedCompletion(t: Test, expected: int -> int, o: Outcome, p: nat, rest: seq<int>)
    requires t.queue == [p] + rest && t.pending > 1 && t.status == 0 && Refused(t, expected, o) && o.at == 0
    ensures Complete(t, expected, o) ==
            Test(Dec(t.count), t.pending - 1, p % NUM_SUBCASES, 0, t.signals, rest, t.log + [p])
  {
    hide Verdict, Back, Without;
    HeadBack(t, o);
    assert ([p] + rest)[1..] == rest && rest + [] == rest;
  }

  lemma TwoLaps(sglen: nat, iterations: nat)
    requires iterations > 1
    ensures sglen * iterations >= sglen + sglen
  {
    assert sglen * iterations == sglen + sglen + sglen * (iterations - 2);
  }

  lemma GapOpens(sglen: nat, iterations: nat, q: nat, expected: int -> int)
    requires sglen > 1 && iterations > 1 && sglen * iterations <= UINT_MAX && q < sglen
    ensures var t, o := At(sglen, iterations, 0, q), Outcome(expected(q), -1, 0);
            && t.queue != [] && Allowed(t, expected, o)
            && Complete(t, expected, o) == Gap(sglen, iterations, q, q + 1)
  {
    hide OutOfOrder, Complete, Range, Laps;
    var t, o := At(sglen, iterations, 0, q), Outcome(expected(q), -1, 0);
    TwoLaps(sglen, iterations);
    TimesIsProduct(sglen, iterations);
    RangeTail(q, sglen);
    var rest := Range(q + 1, sglen) + Range(0, q);
    assert t.queue == [q] + rest;
    InOrder(sglen, 0, q);
    FineVerdict(t, expected, o, q);
    RefusedCompletion(t, expected, o, q, rest);
    RangeSnoc(0, q);
    assert Range(q + 1, q + 1) == [] && Laps(sglen, 0) == [] by { Nothing(sglen, q + 1); }
  }

  lemma Nothing(sglen: nat, q: nat)
    ensures Range(q, q) == [] && Laps(sglen, 0) == []
  {
  }

  lemma GapMoves(sglen: nat, iterations: nat, q: nat, p: nat, expected: int -> int)
    requires sglen > 1 && iterations > 1 && sglen * iterations <= UINT_MAX && q < p < sglen
    ensures var t, o := Gap(sglen, iterations, q, p), Outcome(expected(p), 0, 0);
            && t.queue != [] && Allowed(t, expected, o)
            && Complete(t, expected, o) == Gap(sglen, iterations, q, p + 1)
  {
    hide OutOfOrder, Complete, Range;
    var t, o := Gap(sglen, iterations, q, p), Outcome(expected(p), 0, 0);
    TwoLaps(sglen, iterations);
    RangeTail(p, sglen);
    var rest := Range(p + 1, sglen) + (Range(0, q) + Range(q + 1, p));
    assert t.queue == [p] + rest;
    InOrder(sglen, 0, p);
    FineVerdict(t, expected, o, p);
    GoodCompletion(t, expected, o, p, rest);
    RangeSnoc(0, p);
    RangeSnoc(q + 1, p);
    assert rest + [p] == Range(p + 1, sglen) + (Range(0, q) + (Range(q + 1, p) + [p]));
  }

  // A run of a host that keeps order, with allowed statuses only.
  predicate Blameless(t: Test, expected: int -> int, os: seq<Outcome>) {
    Runs(t, expected, os) && InQueueOrder(os) && AllAllowed(t, expected, os)
  }

  lemma BlamelessOn(t: Test, expected: int -> int, os: seq<Outcome>, o: Outcome)
    requires Blameless(t, expected, os) && o.at == 0
    requires var r := Run(t, expected, os); r.queue != [] && Allowed(r, expected, o)
    ensures Blameless(t, expected, os + [o])
    ensures Run(t, expected, os + [o]) == Complete(Run(t, expected, os), expected, o)
  {
    hide Complete, Allowed, Run, Runs, AllAllowed;
    RunSnoc(t, expected, os, o);
  }

  lemma {:induction false} GapRun(sglen: nat, iterations: nat, q: nat, p: nat, expected: int -> int)
    returns (os: seq<Outcome>)
    requires sglen > 1 && iterations > 1 && sglen * iterations <= UINT_MAX && q < 2 && q < p <= sglen
    ensures Blameless(Start(sglen, iterations), expected, os)
    ensures Run(Start(sglen, iterations), expected, os) == Gap(sglen, iterations, q, p)
    decreases p
  {
    hide Complete, Allowed, Blameless, Gap, At, Start;
    var s := Start(sglen, iterations);
    if p > q + 1 {
      os := GapRun(sglen, iterations, q, p - 1, expected);
      GapMoves(sglen, iterations, q, p - 1, expected);
      BlamelessOn(s, expected, os, Outcome(expected(p - 1), 0, 0));
      os := os + [Outcome(expected(p - 1), 0, 0)];
    } else {
      os := UpTo(sglen, iterations, q, expected);
      GapOpens(sglen, iterations, q, expected);
      BlamelessOn(s, expected, os, Outcome(expected(q), -1, 0));
      os := os + [Outcome(expected(q), -1, 0)];
    }
  }

  lemma UpTo(sglen: nat, iterations: nat, q: nat, expected: int -> int) returns (os: seq<Outcome>)
    requires sglen > 1 && iterations > 1 && sglen * iterations <= UINT_MAX && q < 2
    ensures Blameless(Start(sglen, iterations), expected, os)
    ensures Run(Start(sglen, iterations), expected, os) == At(sglen, iterations, 0, q)
  {
    hide Complete, At, Start, Times, Rest;
    var s, o := Start(sglen, iterations), Outcome(expected(0), 0, 0);
    StartAt(sglen, iterations);
    TimesIsProduct(sglen, iterations);
    os := [];
    if q == 1 {
      AtHead(sglen, iterations, 0, 0);
      StepAt(sglen, iterations, 0, 0, expected, o);
      BlamelessOn(s, expected, os, o);
      os := os + [o];
    }
  }

  // The run goes on with a completion whose status is the one expected of its URB.
  lemma ExpectedOn(t: Test, expected: int -> int, os: seq<Outcome>) returns (more: seq<Outcome>)
    requires Blameless(t, expected, os) && Run(t, expected, os).queue != []
    ensures var r := Run(t, expected, os);
            var o := Outcome(expected(r.queue[0]), 0, 0);
            Blameless(t, expected, more) && Run(t, expected, more) == Complete(r, expected, o)
  {
    hide Complete, Run, Runs, AllAllowed;
    var o := Outcome(expected(Run(t, expected, os).queue[0]), 0, 0);
    BlamelessOn(t, expected, os, o);
    more := os + [o];
  }

  // The first URB comes back behind the gap.
  lemma GapPasses(sglen: nat, iterations: nat, expected: int -> int)
    requires sglen > 2 && iterations > 1 && sglen * iterations <= UINT_MAX
    ensures var t := Gap(sglen, iterations, 1, sglen);
            && t.queue != [] && t.queue[0] == 0
            && var n := Complete(t, expected, Outcome(expected(0), 0, 0));
            n.queue != [] && n.queue[0] == 2 && n.last == 0 && n.status == 0
  {
    hide Complete;
    var t, o := Gap(sglen, iterations, 1, sglen), Outcome(expected(0), 0, 0);
    RangeTail(2, sglen);
    assert Range(0, 1) == [0] && t.queue == [0] + Range(2, sglen);
    FineVerdict(t, expected, o, 0);
    TwoLaps(sglen, iterations);
    GoodCompletion(t, expected, o, 0, Range(2, sglen));
  }

  // The completion after the gap.
  lemma GapShows(sglen: nat, iterations: nat, expected: int -> int, os: seq<Outcome>) returns (more: seq<Outcome>)
    requires sglen > 1 && iterations > 1 && sglen * iterations <= UINT_MAX
    requires Blameless(Start(sglen, iterations), expected, os)
    requires Run(Start(sglen, iterations), expected, os) == Gap(sglen, iterations, if sglen == 2 then 0 else 1, sglen)
    ensures Blameless(Start(sglen, iterations), expected, more)
    ensures Run(Start(sglen, iterations), expected, more).status != 0
  {
    hide Complete, Start, Run, Runs, AllAllowed;
    var s, t := Start(sglen, iterations), Run(Start(sglen, iterations), expected, os);
    if sglen == 2 {
      assert t.queue == [1];
      SkipShows(t, expected);
      more := ExpectedOn(s, expected, os);
    } else {
      GapPasses(sglen, iterations, expected);
      more := ExpectedOn(s, expected, os);
      SkipShows(Run(s, expected, more), expected);
      more := ExpectedOn(s, expected, more);
    }
  }

  lemma SkipShows(t: Test, expected: int -> int)
    requires t.queue != [] && t.status == 0
    requires OutOfOrder(t.last, t.queue[0] % NUM_SUBCASES)
    ensures var o := Outcome(expected(t.queue[0]), 0, 0);
            Allowed(t, expected, o) && Complete(t, expected, o).status != 0
  {
  }

  // In a single lap nothing is ever resubmitted.
  lemma {:induction false} OneLap(t: Test, expected: int -> int, os: seq<Outcome>)
    requires Runs(t, expected, os) && t.pending == t.count == |t.queue|
    ensures NoneRefused(t, expected, os)
    decreases |os|
  {
    hide Verdict;
    if os != [] {
      OneLap(Complete(t, expected, os[0]), expected, os[1..]);
    }
  }

  // When can a host be blamed that keeps order and returns allowed statuses only?  Exactly if
  // there are at least two URBs and at least two laps: then a failed resubmission can show as
  // disorder.
  lemma BlameIff(sglen: nat, iterations: nat, expected: int -> int)
    requires sglen > 0 && iterations > 0 && sglen * iterations <= UINT_MAX
    ensures (exists os | Blameless(Start(sglen, iterations), expected, os) ::
               Run(Start(sglen, iterations), expected, os).status != 0)
       <==> sglen > 1 && iterations > 1
  {
    hide Complete, Start, Run, Runs, AllAllowed, InQueueOrder;
    var s := Start(sglen, iterations);
    if sglen > 1 && iterations > 1 {
      var q := if sglen == 2 then 0 else 1;
      var os := GapRun(sglen, iterations, q, sglen, expected);
      var more := GapShows(sglen, iterations, expected, os);
      assert Blameless(s, expected, more) && Run(s, expected, more).status != 0;
    } else {
      forall os | Blameless(s, expected, os)
        ensures Run(s, expected, os).status == 0
      {
        NeverBlamed(sglen, iterations, expected, os);
      }
    }
  }

  lemma NeverBlamed(sglen: nat, iterations: nat, expected: int -> int, os: seq<Outcome>)
    requires sglen > 0 && iterations > 0 && sglen * iterations <= UINT_MAX && (sglen == 1 || iterations == 1)
    requires Blameless(Start(sglen, iterations), expected, os)
    ensures Run(Start(sglen, iterations), expected, os).status == 0
  {
    hide Complete, Run, Runs, AllAllowed, NoneRefused;
    var s := Start(sglen, iterations);
    if iterations == 1 {
      OneLap(s, expected, os);
      PassMeans(sglen, iterations, expected, os);
    } else {
      PassIff(sglen, iterations, expected, os);
      RunWithin(s, expected, os, sglen);
      var log := Run(s, expected, os).log;
      forall i | 0 <= i < |log| ensures StepsAt(log, i) {
        assert log[i] in log;
      }
    }
  }
}
