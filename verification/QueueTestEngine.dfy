// The queued transfer test in place (patch/kernel/usbtest.c:2069-2115, 2191-2201, 2245-2295).

module QueueTestEngine {
  import opened QueueTest

  class TransferContext {
    var count: int
    var pending: int
    var errors: int
    var packets: int
    var submitError: bool
    var flying: set<int>
    var completions: int
    var lost: int
    var signals: int

    function State(): Xfer
      reads this
    {
      Xfer(count, pending, errors, packets, submitError, flying, completions, lost, signals)
    }

    constructor ()
      ensures State() == Start(0, 0, false)
    {
      count, pending, errors, packets, submitError := 0, 0, 0, 0, false;
      flying, completions, lost, signals := {}, 0, 0, 0;
    }

    method CountErrors(isIso: bool, o: Outcome)
      modifies this`errors, this`packets
      ensures errors == old(errors) + Errors(isIso, o) && packets == old(packets) + o.packets
    {
      packets := packets + o.packets;
      if o.errorCount > 0 {
        errors := errors + o.errorCount;
      } else if o.status != 0 {
        errors := errors + if isIso then o.packets else 1;
      } else if o.short {
        errors := errors + 1;
      } else if o.badGuard {
        errors := errors + 1;
      }
    }

    method Depart(urb: int)
      modifies this`lost, this`flying, this`pending, this`signals
      ensures pending == Dec(old(pending)) && flying == old(flying) - {urb}
      ensures lost == old(lost) + (if count > Dec(old(pending)) then 1 else 0)
      ensures signals == old(signals) + (if pending == 0 then 1 else 0)
    {
      if count > Dec(pending) {
        lost := lost + 1;
      }
      flying := flying - {urb};
      pending := Dec(pending);
      if pending == 0 {
        signals := signals + 1;
      }
    }

    method ComplicatedCallback(isIso: bool, o: Outcome)
      requires o.urb in flying
      modifies this
      ensures State() == Callback(old(State()), isIso, o)
    {
      hide Dec, Errors;
      count := Dec(count);
      completions := completions + 1;
      CountErrors(isIso, o);
      if o.status == 0 && count > Dec(pending) && !submitError {
        if o.resubmit == 0 {
          return;
        }
        submitError := true;
      }
      Depart(o.urb);
    }

    method SubmitAll(sglen: nat, submits: nat -> int) returns (sent: nat, status: int)
      requires 0 < sglen && State() == Start(count, 0, false)
      modifies this
      ensures sent <= sglen && (forall i: nat | i < sent :: submits(i) >= 0)
      ensures sent < sglen ==> status == submits(sent) < 0
      ensures sent == sglen ==> status == submits(sglen - 1)
      ensures sent > 0 ==> State() == Start(old(count), sent, sent < sglen)
      ensures sent == 0 ==> flying == {} && completions == 0 && signals == 0
    {
      sent, status := 0, 0;
      while sent < sglen
        invariant sent <= sglen && (forall i: nat | i < sent :: submits(i) >= 0)
        invariant sent > 0 ==> status == submits(sent - 1)
        invariant State() == Start(old(count), sent, false)
      {
        pending := pending + 1;
        status := submits(sent);
        if status < 0 {
          if sent == 0 {
            return;
          }
          pending := pending - 1;
          submitError := true;
          return;
        }
        flying := flying + {sent};
        sent := sent + 1;
      }
    }

    // The host completes URBs in any order until none is in flight.
    method Wait(isIso: bool, host: (nat, set<int>) -> Outcome, total: nat, all: nat) returns (os: seq<Outcome>)
      requires Sound(State(), total, all) && forall k, fly | fly != {} :: host(k, fly).urb in fly
      modifies this
      ensures Sound(State(), total, all) && flying == {}
      ensures Runs(old(State()), isIso, os) && State() == Run(old(State()), isIso, os)
    {
      os := [];
      while flying != {}
        invariant Sound(State(), total, all)
        invariant Runs(old(State()), isIso, os) && State() == Run(old(State()), isIso, os)
        decreases count
      {
        var o := host(|os|, flying);
        RunSnoc(old(State()), isIso, os, o);
        CallbackSound(State(), isIso, o, total, all);
        ComplicatedCallback(isIso, o);
        os := os + [o];
      }
    }

    // test_queue from the parameter tests on: it always ends.
    method RunTest(sglen: nat, iterations: nat, isIso: bool, submits: nat -> int, host: (nat, set<int>) -> Outcome)
      returns (result: int, os: seq<Outcome>)
      requires iterations > 0 && State() == Start(0, 0, false)
      requires forall i: nat :: submits(i) <= 0
      requires forall k, fly | fly != {} :: host(k, fly).urb in fly
      modifies this
      ensures (sglen == 0 || sglen * iterations > 0xFFFF_FFFF || sglen > 128) ==> result == -22 && os == []
      ensures 0 < sglen <= MAX_SGLEN && sglen * iterations <= UINT_MAX ==>
        && flying == {}
        && completions <= sglen * iterations
        && signals == (if submits(0) == 0 then 1 else 0)
        && ((exists i: nat | i < sglen :: submits(i) != 0) ==> result != 0)
        && ((forall i: nat | i < sglen :: submits(i) == 0) && !isIso ==>
             && (result == 0 <==> AllClean(os) && !submitError)
             && (result == 0 ==> completions == sglen * iterations))
        && ((forall i: nat | i < sglen :: submits(i) == 0) && isIso ==>
             result == if submitError then -13 else if 10 * ErrorSum(true, os) > PacketSum(os) then -5 else 0)
    {
      hide Callback, Runs, Run, Sound;
      os := [];
      if sglen == 0 || sglen * iterations > UINT_MAX || sglen > MAX_SGLEN {
        return -EINVAL, [];
      }
      AtLeast(sglen, iterations);
      count := sglen * iterations;
      var sent, status := SubmitAll(sglen, submits);
      if sent == 0 {
        assert submits(0) != 0;
        return status, [];
      }
      StartSound(sglen * iterations, sent, sent < sglen);
      os := Wait(isIso, host, sglen * iterations, sent);
      EveryRun(sglen * iterations, sent, sent < sglen, isIso, os);
      ResultIs(sglen * iterations, sent, sent < sglen, status, isIso, os);
      result := if status != 0 then status
                else if submitError then -EACCES
                else if errors > (if isIso then packets / 10 else 0) then -EIO
                else 0;
      if sent == sglen && !isIso {
        BulkPasses(sglen * iterations, sglen, os);
      }
    }
  }

  lemma AtLeast(sglen: nat, iterations: nat)
    requires iterations > 0
    ensures sglen <= sglen * iterations
  {
    assert sglen * iterations == sglen + sglen * (iterations - 1);
  }

  lemma {:induction false} RunSnoc(x: Xfer, isIso: bool, os: seq<Outcome>, o: Outcome)
    requires Runs(x, isIso, os) && o.urb in Run(x, isIso, os).flying
    ensures Runs(x, isIso, os + [o])
    ensures Run(x, isIso, os + [o]) == Callback(Run(x, isIso, os), isIso, o)
    decreases |os|
  {
    if os == [] {
      assert (os + [o])[1..] == [];
    } else {
      assert (os + [o])[1..] == os[1..] + [o];
      RunSnoc(Callback(x, isIso, os[0]), isIso, os[1..], o);
    }
  }
}
