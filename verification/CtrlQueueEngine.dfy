// The control queue test in place (patch/kernel/usbtest.c:1208-1219, 1230-1341, 1525-1557).

module CtrlQueueEngine {
  import opened CtrlQueue
  import opened CtrlQueueOrder

  class CtrlContext {
    var count: int
    var pending: int
    var last: int
    var status: int
    var signals: int
    // The host: URBs it holds, in order, and URBs it has completed.
    var queue: seq<int>
    var log: seq<int>

    function State(): Test
      reads this
    {
      Test(count, pending, last, status, signals, queue, log)
    }

    constructor ()
      ensures State() == Test(0, 0, -1, 0, 0, [], [])
    {
      count, pending, last, status, signals, queue, log := 0, 0, -1, 0, 0, [], [];
    }

    // ctrl_complete, called for the URB at some place of the host's queue.
    method CtrlComplete(expected: int -> int, o: Outcome)
      requires queue != []
      modifies this
      ensures State() == Complete(old(State()), expected, o)
    {
      var i := Place(State(), o);
      var urb := queue[i];
      var number := urb % NUM_SUBCASES;
      queue, log := Without(queue, i), log + [urb];
      count := Dec(count);
      pending := Dec(pending);
      var verdict := o.status;
      if number > 0 && number - last != 1 {
        verdict := -EDOM;
      } else {
        verdict := Judge(expected(urb), number, verdict);
      }
      last := number;
      if verdict != 0 && status == 0 {
        status := verdict;
      }
      if verdict == 0 && pending < count {
        if o.resubmit == 0 {
          queue := queue + [urb];
          pending := pending + 1;
        }
      }
      if pending == 0 {
        signals := signals + 1;
      }
    }

    // The submission loop: the results of usb_submit_urb come from `submits`.
    method SubmitAll(sglen: nat, iterations: nat, submits: nat -> int) returns (sent: nat)
      requires State() == Test(sglen * iterations, 0, -1, status, 0, [], [])
      modifies this
      ensures sent <= sglen && (forall i: nat | i < sent :: submits(i) == 0)
      ensures sent < sglen ==> submits(sent) != 0 && State() == StartShort(sent, submits(sent))
      ensures sent == sglen > 0 ==> State() == Start(sglen, iterations)
    {
      sent := 0;
      assert Range(0, 0) == [];
      while sent < sglen
        invariant sent <= sglen && (forall i: nat | i < sent :: submits(i) == 0)
        invariant State() == Test(sglen * iterations, sent, -1, status, 0, Range(0, sent), [])
        invariant sent > 0 ==> status == 0
      {
        status := submits(sent);
        if status != 0 {
          count := pending;
          return;
        }
        RangeSnoc(0, sent);
        queue := queue + [sent];
        pending := pending + 1;
        sent := sent + 1;
      }
    }

    // The host completes URBs until it has none left; `outcomes` says how.
    method Wait(expected: int -> int, outcomes: nat -> Outcome, total: nat) returns (os: seq<Outcome>)
      requires Sound(State(), total)
      modifies this
      ensures Sound(State(), total) && queue == []
      ensures forall i: nat | i < |os| :: os[i] == outcomes(i)
      ensures Runs(old(State()), expected, os) && State() == Run(old(State()), expected, os)
    {
      os := [];
      while queue != []
        invariant Sound(State(), total)
        invariant forall i: nat | i < |os| :: os[i] == outcomes(i)
        invariant Runs(old(State()), expected, os) && State() == Run(old(State()), expected, os)
        decreases count
      {
        var o := outcomes(|os|);
        RunSnoc(old(State()), expected, os, o);
        CompleteSound(State(), expected, o, total);
        CtrlComplete(expected, o);
        os := os + [o];
      }
    }

    // test_ctrl_queue: terminates whatever the outcomes and the order of completions.  It returns
    // the error of the first submission that fails; when all work, the status of the first
    // completion that is a fault, -EDOM if that is out of step, and 0 exactly if there is none.
    method TestCtrlQueue(sglen: nat, iterations: nat, expected: int -> int, submits: nat -> int, outcomes: nat -> Outcome)
      returns (result: int, os: seq<Outcome>)
      requires iterations > 0 && State() == Test(0, 0, -1, 0, 0, [], [])
      modifies this
      ensures queue == [] && |log| == |os| <= sglen * iterations
      ensures signals == if os == [] then 0 else 1
      ensures sglen == 0 || sglen * iterations > 0xFFFF_FFFF ==> result == -95 && os == []
      ensures (exists i: nat | i < sglen :: submits(i) != 0) ==>
        && (sglen * iterations <= UINT_MAX ==>
              forall i: nat | i < sglen && submits(i) != 0 && (forall j: nat | j < i :: submits(j) == 0) ::
                result == submits(i))
        && result != 0 && multiset(log) == multiset(Range(0, |log|))
        && (InQueueOrder(os) ==> log == Range(0, |log|))
      ensures 0 < sglen && sglen * iterations <= UINT_MAX && (forall i: nat | i < sglen :: submits(i) == 0) ==>
        && Runs(Start(sglen, iterations), expected, os)
        && |log| == |os| && (result == 0 <==> forall k: nat | k < |os| :: !Faulty(log, expected, os, 0, k))
        && (forall k: nat | k < |os| && Faulty(log, expected, os, 0, k)
                          && (forall j: nat | j < k :: !Faulty(log, expected, os, 0, j)) ::
              result == if StepsAt(log, k) then os[k].status else -33)
        && (InQueueOrder(os) && NoneRefused(Start(sglen, iterations), expected, os) ==>
             (result == 0 <==> AllAllowed(Start(sglen, iterations), expected, os)))
        && (InQueueOrder(os) && result == 0 ==>
             (log == Laps(sglen, iterations) <==> NoneRefused(Start(sglen, iterations), expected, os)))
        && (sglen <= NUM_SUBCASES && result == 0 ==>
             (log == Laps(sglen, iterations) <==> |log| == sglen * iterations && multiset(log)[0] == iterations))
    {
      hide Complete, AllAllowed, NoneRefused, InSteps, InQueueOrder, Laps, Run, Runs, Range, Sound, Faulty;
      if sglen == 0 || sglen * iterations > UINT_MAX {
        return -EOPNOTSUPP, [];
      }
      count := sglen * iterations;
      var sent := SubmitAll(sglen, iterations, submits);
      os := [];
      if sent < sglen {
        if pending > 0 {
          ShortSound(sent, submits(sent));
          os := Wait(expected, outcomes, sent);
          ShortDone(sent, submits(sent), expected, os);
          CountFits(sglen, iterations, sent);
        }
      } else {
        StartSound(sglen, iterations);
        os := Wait(expected, outcomes, sglen * iterations);
        Done(sglen, iterations, expected, os);
      }
      result := status;
    }
  }

  lemma CountFits(sglen: nat, iterations: nat, sent: nat)
    requires sent < sglen && iterations > 0
    ensures sent <= sglen * iterations
  {
    assert sglen * iterations == sglen + sglen * (iterations - 1);
  }

  lemma ShortSound(sent: nat, error: int)
    requires 0 < sent <= UINT_MAX
    ensures Sound(StartShort(sent, error), sent)
  {
  }

  lemma ShortDone(sent: nat, error: int, expected: int -> int, os: seq<Outcome>)
    requires error != 0 && sent > 0 && Runs(StartShort(sent, error), expected, os)
    requires Run(StartShort(sent, error), expected, os).queue == []
    ensures var t := Run(StartShort(sent, error), expected, os);
            && t.status == error && |os| == |t.log| == sent && t.signals == 1
            && multiset(t.log) == multiset(Range(0, sent)) && (InQueueOrder(os) ==> t.log == Range(0, sent))
  {
    ShortStart(sent, error, expected, os);
    RunLog(StartShort(sent, error), expected, os);
  }

  lemma Done(sglen: nat, iterations: nat, expected: int -> int, os: seq<Outcome>)
    requires sglen > 0 && iterations > 0 && sglen * iterations <= UINT_MAX
    requires Runs(Start(sglen, iterations), expected, os) && Run(Start(sglen, iterations), expected, os).queue == []
    ensures var t := Run(Start(sglen, iterations), expected, os);
            && 0 < |os| == |t.log| <= sglen * iterations && t.signals == 1
            && (t.status == 0 <==> forall k: nat | k < |os| :: !Faulty(t.log, expected, os, 0, k))
            && (forall k: nat | k < |os| && Faulty(t.log, expected, os, 0, k)
                              && (forall j: nat | j < k :: !Faulty(t.log, expected, os, 0, j)) ::
                  t.status == if StepsAt(t.log, k) then os[k].status else -33)
            && (InQueueOrder(os) && NoneRefused(Start(sglen, iterations), expected, os) ==>
                 (t.status == 0 <==> AllAllowed(Start(sglen, iterations), expected, os)))
            && (InQueueOrder(os) && t.status == 0 ==>
                 (t.log == Laps(sglen, iterations) <==> NoneRefused(Start(sglen, iterations), expected, os)))
            && (sglen <= NUM_SUBCASES && t.status == 0 ==>
                 (t.log == Laps(sglen, iterations) <==> |t.log| == sglen * iterations && multiset(t.log)[0] == iterations))
  {
    hide Complete, AllAllowed, NoneRefused, InSteps, InQueueOrder, Laps, Start;
    EveryRun(sglen, iterations, expected, os);
    RunLog(Start(sglen, iterations), expected, os);
    StartQueued(sglen, iterations);
    StatusIsFirstFault(sglen, iterations, expected, os);
    if InQueueOrder(os) {
      PassMeans(sglen, iterations, expected, os);
    }
    if sglen <= NUM_SUBCASES && Run(Start(sglen, iterations), expected, os).status == 0 {
      PassOrder(sglen, iterations, expected, os);
    }
  }

  lemma StartQueued(sglen: nat, iterations: nat)
    requires sglen > 0
    ensures Start(sglen, iterations).queue != [] && Start(sglen, iterations).log == []
  {
  }

  lemma {:induction false} RunLog(t: Test, expected: int -> int, os: seq<Outcome>)
    requires Runs(t, expected, os)
    ensures |Run(t, expected, os).log| == |t.log| + |os|
    decreases |os|
  {
    if os != [] {
      RunLog(Complete(t, expected, os[0]), expected, os[1..]);
    }
  }
}
