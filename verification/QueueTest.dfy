// The queued transfer test (patch/kernel/usbtest.c:2054-2115 complicated_callback, 2191-2295
// test_queue): how many URBs are in flight, how many completions are still wanted, and when the
// waiter is woken, under any order of completions and any pattern of faults.

module QueueTest {

  const UINT_MAX: nat := 0xFFFF_FFFF
  const MAX_SGLEN: nat := 128
  const EINVAL: int := 22
  const EACCES: int := 13
  const EIO: int := 5

  // The transfer context with the URBs in flight, the number of completions, of URBs lost (not
  // resubmitted though more completions were wanted), and of calls of complete().
  datatype Xfer = Xfer(count: int, pending: int, errors: int, packets: int, submitError: bool,
                       flying: set<int>, completions: int, lost: int, signals: int)

  // One completion: which URB, how it went, and what resubmitting it would return.
  datatype Outcome = Outcome(urb: int, errorCount: nat, status: int, short: bool, badGuard: bool, packets: nat, resubmit: int)

  function Dec(x: int): int { if x == 0 then UINT_MAX else x - 1 }

  function Errors(isIso: bool, o: Outcome): nat {
    if o.errorCount > 0 then o.errorCount
    else if o.status != 0 then if isIso then o.packets else 1
    else if o.short || o.badGuard then 1
    else 0
  }

  // complicated_callback.
  function Callback(x: Xfer, isIso: bool, o: Outcome): Xfer {
    var count := Dec(x.count);
    var more := count > Dec(x.pending);
    var tried := o.status == 0 && more && !x.submitError;
    var y := x.(count := count, errors := x.errors + Errors(isIso, o), packets := x.packets + o.packets,
                completions := x.completions + 1, submitError := x.submitError || (tried && o.resubmit != 0));
    if tried && o.resubmit == 0 then y else
    var pending := Dec(x.pending);
    y.(pending := pending, flying := x.flying - {o.urb}, lost := if more then x.lost + 1 else x.lost,
       signals := x.signals + if pending == 0 then 1 else 0)
  }

  predicate Runs(x: Xfer, isIso: bool, os: seq<Outcome>)
    decreases |os|
  {
    os == [] || (os[0].urb in x.flying && Runs(Callback(x, isIso, os[0]), isIso, os[1..]))
  }

  function Run(x: Xfer, isIso: bool, os: seq<Outcome>): Xfer
    decreases |os|
  {
    if os == [] then x else Run(Callback(x, isIso, os[0]), isIso, os[1..])
  }

  // URBs 0 to n-1.
  function Numbers(n: nat): (s: set<int>)
    ensures forall u :: u in s <==> 0 <= u < n
    ensures |s| == n
  {
    if n == 0 then {} else Numbers(n - 1) + {n - 1}
  }

  // The first `sent` URBs are submitted, and the next was refused unless that is all of them.
  function Start(total: int, sent: nat, refused: bool): Xfer {
    Xfer(total, sent, 0, 0, refused, Numbers(sent), 0, 0, 0)
  }

  // ---- Every state ----

  predicate Sound(x: Xfer, total: int, sent: nat) {
    && x.pending == |x.flying|
    && x.pending <= x.count <= UINT_MAX
    && x.count == total - x.completions
    && 0 <= x.lost <= sent - x.pending
    && (x.count == x.pending || x.lost == sent - x.pending)
    && (x.count == x.pending ==> x.lost < sent || sent == 0)
    && x.signals == (if x.flying == {} then 1 else 0)
  }

  lemma CallbackSound(x: Xfer, isIso: bool, o: Outcome, total: int, sent: nat)
    requires Sound(x, total, sent) && o.urb in x.flying
    ensures Sound(Callback(x, isIso, o), total, sent)
    ensures Callback(x, isIso, o).count < x.count
  {
    assert |x.flying - {o.urb}| == |x.flying| - 1;
  }

  lemma StartSound(total: nat, sent: nat, refused: bool)
    requires 0 < sent <= total <= UINT_MAX
    ensures Sound(Start(total, sent, refused), total, sent)
  {
    assert 0 in Start(total, sent, refused).flying;
  }

  lemma {:induction false} RunSound(x: Xfer, isIso: bool, os: seq<Outcome>, total: int, sent: nat)
    requires Sound(x, total, sent) && Runs(x, isIso, os)
    ensures Sound(Run(x, isIso, os), total, sent)
    decreases |os|
  {
    if os != [] {
      CallbackSound(x, isIso, os[0], total, sent);
      RunSound(Callback(x, isIso, os[0]), isIso, os[1..], total, sent);
    }
  }

  // Whatever fails and in whatever order URBs complete: pending is the number in flight, never
  // above count, neither underflows, and done is signalled once, when nothing is in flight.  When
  // it is, all wanted completions have happened exactly if not every URB has been lost.
  lemma EveryRun(total: nat, sent: nat, refused: bool, isIso: bool, os: seq<Outcome>)
    requires 0 < sent <= total <= UINT_MAX && Runs(Start(total, sent, refused), isIso, os)
    ensures var x := Run(Start(total, sent, refused), isIso, os);
            && x.pending == |x.flying| <= x.count
            && x.completions <= total
            && x.signals == (if x.flying == {} then 1 else 0)
            && (x.flying == {} ==> (x.completions == total <==> x.lost < sent))
  {
    StartSound(total, sent, refused);
    RunSound(Start(total, sent, refused), isIso, os, total, sent);
  }

  // ---- What a pass means ----

  predicate Clean(o: Outcome) { o.errorCount == 0 && o.status == 0 && !o.short && !o.badGuard }

  predicate AllClean(os: seq<Outcome>) { forall o | o in os :: Clean(o) }

  lemma {:induction false} ErrorsGrow(x: Xfer, isIso: bool, os: seq<Outcome>)
    ensures Run(x, isIso, os).errors >= x.errors
    ensures x.submitError ==> Run(x, isIso, os).submitError
    decreases |os|
  {
    if os != [] {
      ErrorsGrow(Callback(x, isIso, os[0]), isIso, os[1..]);
    }
  }

  lemma {:induction false} NoErrors(x: Xfer, os: seq<Outcome>)
    requires Runs(x, false, os)
    ensures Run(x, false, os).errors == x.errors <==> AllClean(os)
    ensures Run(x, false, os).errors == x.errors && !Run(x, false, os).submitError ==> Run(x, false, os).lost == x.lost
    decreases |os|
  {
    if os != [] {
      var o := os[0];
      var y := Callback(x, false, o);
      NoErrors(y, os[1..]);
      ErrorsGrow(y, false, os[1..]);
      assert y.errors == x.errors <==> Clean(o);
      assert os == [o] + os[1..];
      assert AllClean(os) <==> Clean(o) && AllClean(os[1..]);
    }
  }

  function Result(x: Xfer, submitStatus: int, isIso: bool): int {
    if submitStatus != 0 then submitStatus
    else if x.submitError then -EACCES
    else if x.errors > (if isIso then x.packets / 10 else 0) then -EIO
    else 0
  }

  // A bulk or interrupt test passes exactly if every completion was clean and every
  // resubmission worked, and then it has run all of them.
  lemma BulkPasses(total: nat, sent: nat, os: seq<Outcome>)
    requires 0 < sent <= total <= UINT_MAX && Runs(Start(total, sent, false), false, os)
    requires Run(Start(total, sent, false), false, os).flying == {}
    ensures var x := Run(Start(total, sent, false), false, os);
            && (Result(x, 0, false) == 0 <==> AllClean(os) && !x.submitError)
            && (Result(x, 0, false) == 0 ==> x.completions == total)
  {
    var s := Start(total, sent, false);
    EveryRun(total, sent, false, false, os);
    NoErrors(s, os);
    ErrorsGrow(s, false, os);
  }

  // An isochronous test may pass although it has stopped early: its only URB fails after ten
  // clean laps of nineteen.
  function CleanLaps(n: nat): seq<Outcome>
    ensures |CleanLaps(n)| == n
  {
    if n == 0 then [] else [Outcome(0, 0, 0, false, false, 1, 0)] + CleanLaps(n - 1)
  }

  lemma {:induction false} CleanLapsRun(x: Xfer, n: nat, tail: seq<Outcome>)
    requires x.pending == 1 && n < x.count <= UINT_MAX && x.flying == {0} && !x.submitError
    requires Runs(x.(count := x.count - n, packets := x.packets + n, completions := x.completions + n), true, tail)
    ensures Runs(x, true, CleanLaps(n) + tail)
    ensures Run(x, true, CleanLaps(n) + tail)
         == Run(x.(count := x.count - n, packets := x.packets + n, completions := x.completions + n), true, tail)
    decreases n
  {
    var os := CleanLaps(n) + tail;
    if n == 0 {
      assert os == tail;
    } else {
      assert os[0] == Outcome(0, 0, 0, false, false, 1, 0);
      assert os[1..] == CleanLaps(n - 1) + tail;
      CleanLapsRun(Callback(x, true, os[0]), n - 1, tail);
    }
  }

  lemma IsoPassesEarly()
    ensures var s, os := Start(19, 1, false), CleanLaps(9) + [Outcome(0, 1, -EIO, false, false, 1, 0)];
            && Runs(s, true, os)
            && var x := Run(s, true, os);
            x.flying == {} && Result(x, 0, true) == 0 && x.completions == 10 && x.lost == 1
  {
    var s, bad := Start(19, 1, false), Outcome(0, 1, -EIO, false, false, 1, 0);
    assert s.flying == {0};
    var t := s.(count := 10, packets := 9, completions := 9);
    assert [bad][1..] == [];
    assert Run(t, true, [bad]) == Callback(t, true, bad);
    CleanLapsRun(s, 9, [bad]);
  }

  // ---- Errors and resubmissions, counted from the completions ----

  // The errors of one completion, by what went wrong with it: the packets counted as bad by the
  // host; or else all packets of an isochronous URB that failed, one of any other; or else one for
  // a short transfer or a damaged guard.
  lemma ErrorsAre(isIso: bool, o: Outcome)
    ensures o.errorCount > 0 ==> Errors(isIso, o) == o.errorCount
    ensures o.errorCount == 0 && o.status != 0 && isIso ==> Errors(isIso, o) == o.packets
    ensures o.errorCount == 0 && o.status != 0 && !isIso ==> Errors(isIso, o) == 1
    ensures o.errorCount == 0 && o.status == 0 ==> (Errors(isIso, o) == 0 <==> !o.short && !o.badGuard)
    ensures o.errorCount == 0 && o.status == 0 ==> Errors(isIso, o) <= 1
  {
  }

  function ErrorSum(isIso: bool, os: seq<Outcome>): nat {
    if os == [] then 0 else Errors(isIso, os[0]) + ErrorSum(isIso, os[1..])
  }

  function PacketSum(os: seq<Outcome>): nat {
    if os == [] then 0 else os[0].packets + PacketSum(os[1..])
  }

  lemma {:induction false} RunSums(x: Xfer, isIso: bool, os: seq<Outcome>)
    ensures var r := Run(x, isIso, os);
            && r.errors == x.errors + ErrorSum(isIso, os) && r.packets == x.packets + PacketSum(os)
            && r.completions == x.completions + |os|
    decreases |os|
  {
    hide Errors, Dec;
    if os != [] {
      RunSums(Callback(x, isIso, os[0]), isIso, os[1..]);
    }
  }

  // A URB goes round again exactly if it has come back without a fault, more completions are wanted
  // than URBs in flight can bring, no resubmission has failed before, and this one works.
  lemma ResubmittedIff(x: Xfer, isIso: bool, o: Outcome, total: int, sent: nat)
    requires Sound(x, total, sent) && o.urb in x.flying
    ensures var again := o.status == 0 && x.count > |x.flying| && !x.submitError && o.resubmit == 0;
            Callback(x, isIso, o).flying == if again then x.flying else x.flying - {o.urb}
    ensures Callback(x, isIso, o).submitError
       <==> x.submitError || (o.status == 0 && x.count > |x.flying| && o.resubmit != 0)
  {
  }

  // After a failed resubmission every URB in flight completes once, and that is all.
  lemma {:induction false} FailureDrains(x: Xfer, isIso: bool, os: seq<Outcome>)
    requires x.submitError && Runs(x, isIso, os)
    ensures |os| <= |x.flying| && |Run(x, isIso, os).flying| == |x.flying| - |os|
    decreases |os|
  {
    hide Errors, Dec;
    if os != [] {
      assert |x.flying - {os[0].urb}| == |x.flying| - 1;
      FailureDrains(Callback(x, isIso, os[0]), isIso, os[1..]);
    }
  }

  // What a test returns: the error of a submission; -EACCES (-13) if a resubmission failed; -EIO (-5)
  // if any error was counted, of an isochronous test if more than one in ten packets was bad.
  lemma ResultIs(total: nat, sent: nat, refused: bool, submitStatus: int, isIso: bool, os: seq<Outcome>)
    requires 0 < sent <= total <= UINT_MAX && Runs(Start(total, sent, refused), isIso, os)
    ensures var x := Run(Start(total, sent, refused), isIso, os);
            var r := Result(x, submitStatus, isIso);
            && (submitStatus != 0 ==> r == submitStatus)
            && (submitStatus == 0 && x.submitError ==> r == -13)
            && (submitStatus == 0 && !x.submitError && !isIso ==> r == if ErrorSum(false, os) > 0 then -5 else 0)
            && (submitStatus == 0 && !x.submitError && isIso ==>
                  r == if 10 * ErrorSum(true, os) > PacketSum(os) then -5 else 0)
  {
    hide Run, Runs;
    RunSums(Start(total, sent, refused), isIso, os);
  }
}
