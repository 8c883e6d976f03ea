// The transfer engine of the dummy host controller: how one host URB is served by the
// requests queued on a device endpoint, under a bandwidth limit.
//
// `Batched` follows `transfer` (patch/kernel/dummy_hcd.c:1380-1512): it moves as many whole
// packets as fit in one copy and rescans the queue for the remainder.  `Packets` is the
// reference: the USB 2.0 rules of section 5.8.3 applied to one packet at a time, always to
// the head of the queue.  Completion handlers are arbitrary: `callback(n, done, queue)` is
// the queue left behind by the n-th giveback of the run.

module Transfer {
  import opened Modular

  const EINPROGRESS := 115
  const EOVERFLOW := 75

  type Byte = bv8

  // A buffer with a position in it: the bytes before and after the position.
  datatype Buffer = Buffer(past: seq<Byte>, left: seq<Byte>) {
    function All(): seq<Byte> { past + left }

    // Steps over `len` bytes, overwriting them with the first bytes of `src` or leaving them.
    function Step(write: bool, src: seq<Byte>, len: nat): (b: Buffer)
      requires len <= |left| && len <= |src|
      ensures b.left == left[len..]
    {
      Buffer(past + if write then src[..len] else left[..len], left[len..])
    }

    lemma StepTwice(write: bool, src: seq<Byte>, m: nat, n: nat)
      requires m + n <= |left| && m + n <= |src|
      ensures Step(write, src, m).Step(write, src[m..], n) == Step(write, src, m + n)
    {
      var from := if write then src else left;
      assert from[..m] + from[m..][..n] == from[..m + n];
    }
  }

  // A device request from the moment `dummy_queue` accepts it; `id` numbers the acceptances, so a
  // request that is filled and queued again has a new one.  While queued its status is
  // -EINPROGRESS, so only `Given` carries one.
  datatype Request = Request(id: nat, buf: Buffer, zero: bool)
  datatype Given = Given(req: Request, status: int)

  type Callback = (nat, Given, seq<Request>) -> seq<Request>

  // The URB (`buf` .. `status`), the endpoint (`maxpacket`, `queue`), what is left of the
  // bandwidth, and the requests given back so far.
  datatype Xfer = Xfer(buf: Buffer, toHost: bool, zeroPacket: bool, status: int,
                       maxpacket: nat, queue: seq<Request>, limit: nat, given: seq<Given>)

  function Min(a: nat, b: nat): nat { if a < b then a else b }

  function HostLeft(s: Xfer): nat { |s.buf.left| }

  function DevLeft(s: Xfer, i: nat): nat
    requires i < |s.queue|
  {
    |s.queue[i].buf.left|
  }

  predicate InProgress(s: Xfer) { s.status == -EINPROGRESS }

  predicate Movable(s: Xfer, i: nat, len: nat) {
    i < |s.queue| && len <= HostLeft(s) && len <= DevLeft(s, i) && len <= s.limit
  }

  // Copies `len` bytes between the URB and the i-th request and advances both positions.
  function Move(s: Xfer, i: nat, len: nat): (t: Xfer)
    requires Movable(s, i, len)
    ensures |t.queue| == |s.queue| && t.maxpacket == s.maxpacket
  {
    var r := s.queue[i];
    s.(buf := s.buf.Step(s.toHost, r.buf.left, len),
       queue := s.queue[i := r.(buf := r.buf.Step(!s.toHost, s.buf.left, len))],
       limit := s.limit - len)
  }

  // Unlinks the i-th request, gives it back with `status`, and lets the callback edit the queue.
  function Complete(s: Xfer, i: nat, status: int, cb: Callback): Xfer
    requires i < |s.queue|
  {
    var done := Given(s.queue[i], status);
    s.(given := s.given + [done], queue := cb(|s.given|, done, s.queue[..i] + s.queue[i + 1..]))
  }

  // After a short packet both sides end, and the side that had the larger buffer (`host` and
  // `dev` bytes before the packet) decides whether somebody overflowed.
  function CloseShort(s: Xfer, i: nat, host: nat, dev: nat, cb: Callback): (t: Xfer)
    requires i < |s.queue|
    ensures !InProgress(t)
  {
    var reqStatus := if !s.toHost && host > dev then -EOVERFLOW else 0;
    var urbStatus := if s.toHost && dev > host then -EOVERFLOW else 0;
    Complete(s.(status := urbStatus), i, reqStatus, cb)
  }

  // A short packet (possibly empty) of `len` bytes.
  function Short(s: Xfer, i: nat, len: nat, cb: Callback): Xfer
    requires Movable(s, i, len)
  {
    CloseShort(Move(s, i, len), i, HostLeft(s), DevLeft(s, i), cb)
  }

  predicate WantsZlpToHost(s: Xfer, i: nat)
    requires i < |s.queue|
  {
    s.queue[i].zero && s.toHost
  }

  predicate WantsZlpToDevice(s: Xfer) { s.zeroPacket && !s.toHost }

  // Many requests end without a short packet: close whichever side is full, unless it asked
  // for a zero-length packet.
  function Settle(s: Xfer, i: nat, cb: Callback): (t: Xfer)
    requires i < |s.queue|
    ensures t.buf == s.buf && t.limit == s.limit && t.maxpacket == s.maxpacket
  {
    var t := if HostLeft(s) == 0 && !WantsZlpToDevice(s) then s.(status := 0) else s;
    if DevLeft(s, i) == 0 && !WantsZlpToHost(s, i) then Complete(t, i, 0, cb) else t
  }

  // `transfer`, from queue entry i on; i == 0 is the label `top`.
  function Batched(s: Xfer, i: nat, cb: Callback): Xfer
    requires s.maxpacket > 0
    decreases HostLeft(s)
  {
    if !InProgress(s) || i >= |s.queue| then s else
    var len := Min(HostLeft(s), DevLeft(s, i));
    if len == 0 then Short(s, i, 0, cb)
    else if s.limit < s.maxpacket && s.limit < len then s
    else
      var fits := Min(len, s.limit);
      if fits < s.maxpacket then Short(s, i, fits, cb)
      else
        var whole := RoundDown(fits, s.maxpacket);
        var moved := Move(s, i, whole);
        var rescan := whole != fits || DevLeft(moved, i) == 0 || HostLeft(moved) == 0;
        Batched(Settle(moved, i, cb), if rescan then 0 else i + 1, cb)
  }

  // The reference: one packet of at most maxpacket bytes per step, from the head of the queue,
  // until a packet does not fit in what is left of the limit.
  function Packets(s: Xfer, cb: Callback): Xfer
    requires s.maxpacket > 0
    decreases HostLeft(s)
  {
    if !InProgress(s) || s.queue == [] then s else
    var packet := Min(s.maxpacket, Min(HostLeft(s), DevLeft(s, 0)));
    if s.limit < packet then s
    else if packet < s.maxpacket then Short(s, 0, packet, cb)
    else Packets(Settle(Move(s, 0, packet), 0, cb), cb)
  }

  // When the limit is used up exactly at a packet boundary inside a request, `transfer` does
  // not stop: it goes on to the next queue entry, and a zero-length request there is served
  // out of turn and ends the URB.  Either such a pair is already queued, or a completion
  // handler can still set one up.
  predicate MayOvertake(s: Xfer)
    requires s.maxpacket > 0
  {
    && InProgress(s) && s.queue != []
    && 0 < s.limit < HostLeft(s) && WholePackets(s.limit, s.maxpacket)
    && var head := DevLeft(s, 0);
       || (s.limit < head && |s.queue| > 1 && DevLeft(s, 1) == 0)
       || (0 < head < s.limit && WholePackets(head, s.maxpacket) && !WantsZlpToHost(s, 0))
  }

  lemma MoveTwice(s: Xfer, i: nat, a: nat, b: nat)
    requires Movable(s, i, a + b)
    ensures Movable(Move(s, i, a), i, b)
    ensures Move(Move(s, i, a), i, b) == Move(s, i, a + b)
  {
    var r := s.queue[i];
    s.buf.StepTwice(s.toHost, r.buf.left, a, b);
    r.buf.StepTwice(!s.toHost, s.buf.left, a, b);
    assert s.queue[i := r.(buf := r.buf.Step(!s.toHost, s.buf.left, a))]
                   [i := r.(buf := r.buf.Step(!s.toHost, s.buf.left, a + b))]
        == s.queue[i := r.(buf := r.buf.Step(!s.toHost, s.buf.left, a + b))];
  }

  lemma FullPacket(s: Xfer, cb: Callback)
    requires s.maxpacket > 0 && InProgress(s) && Movable(s, 0, s.maxpacket)
    ensures Packets(s, cb) == Packets(Settle(Move(s, 0, s.maxpacket), 0, cb), cb)
  {
    assert Min(s.maxpacket, Min(HostLeft(s), DevLeft(s, 0))) == s.maxpacket;
  }

  // A move that leaves both sides open settles nothing.
  lemma OpenMove(s: Xfer, len: nat, cb: Callback)
    requires Movable(s, 0, len) && len < HostLeft(s) && len < DevLeft(s, 0)
    ensures Settle(Move(s, 0, len), 0, cb) == Move(s, 0, len)
  {
    var t := Move(s, 0, len);
    assert DevLeft(t, 0) > 0 && HostLeft(t) > 0;
  }

  // A burst of whole packets in one copy is the same as the packets one by one.
  lemma {:induction false} Burst(s: Xfer, len: nat, cb: Callback)
    requires s.maxpacket > 0 && InProgress(s) && 0 < len && WholePackets(len, s.maxpacket) && Movable(s, 0, len)
    ensures Packets(s, cb) == Packets(Settle(Move(s, 0, len), 0, cb), cb)
    decreases len
  {
    hide Packets, Short, CloseShort, Complete;
    var m := s.maxpacket;
    FullPacket(s, cb);
    if len > m {
      OpenMove(s, m, cb);
      MoveTwice(s, 0, m, len - m);
      Burst(Move(s, 0, m), len - m, cb);
    }
  }

  // What one pass over the head of the queue moves in whole packets.
  function Fits(s: Xfer): nat
    requires s.queue != []
  {
    Min(Min(HostLeft(s), DevLeft(s, 0)), s.limit)
  }

  function AfterBurst(s: Xfer, cb: Callback): Xfer
    requires s.maxpacket > 0 && s.queue != []
  {
    Settle(Move(s, 0, RoundDown(Fits(s), s.maxpacket)), 0, cb)
  }

  // The pass goes on behind the head only when it has stopped inside both the URB and the
  // request for want of bandwidth.
  predicate StopsInside(s: Xfer)
    requires s.maxpacket > 0
  {
    && s.queue != [] && WholePackets(s.limit, s.maxpacket)
    && s.limit < HostLeft(s) && s.limit < DevLeft(s, 0)
  }

  lemma BatchedPass(s: Xfer, cb: Callback)
    requires s.maxpacket > 0 && InProgress(s) && s.queue != [] && Fits(s) >= s.maxpacket
    ensures Batched(s, 0, cb) == Batched(AfterBurst(s, cb), if StopsInside(s) then 1 else 0, cb)
  {
    var m := s.maxpacket;
    var whole := RoundDown(Fits(s), m);
    var moved := Move(s, 0, whole);
    assert (whole != Fits(s) || DevLeft(moved, 0) == 0 || HostLeft(moved) == 0) <==> !StopsInside(s);
  }

  lemma MoveNothing(s: Xfer, i: nat)
    requires i < |s.queue|
    ensures Move(s, i, 0) == s
  {
    assert Move(s, i, 0).queue[i] == s.queue[i];
    assert s.buf.past + [] == s.buf.past;
  }

  // One turn of the loop of `Batched`.
  lemma BatchedEntry(s: Xfer, i: nat, cb: Callback)
    requires s.maxpacket > 0 && InProgress(s) && i < |s.queue|
    ensures var len := Min(HostLeft(s), DevLeft(s, i));
            var fits := Min(len, s.limit);
            if len != 0 && s.limit < s.maxpacket && s.limit < len then Batched(s, i, cb) == s
            else if fits < s.maxpacket then fits == len && Batched(s, i, cb) == Short(s, i, fits, cb)
            else var whole := RoundDown(fits, s.maxpacket);
                 var moved := Move(s, i, whole);
                 var rescan := whole != fits || DevLeft(moved, i) == 0 || HostLeft(moved) == 0;
                 Batched(s, i, cb) == Batched(Settle(moved, i, cb), if rescan then 0 else i + 1, cb)
  {
    hide Settle, Short, Move;
  }

  lemma BatchedEnd(s: Xfer, i: nat, cb: Callback)
    requires s.maxpacket > 0 && (!InProgress(s) || i >= |s.queue|)
    ensures Batched(s, i, cb) == s
  {
  }

  lemma BatchedIdle(s: Xfer, cb: Callback)
    requires s.maxpacket > 0 && (!InProgress(s) || s.queue == [])
    ensures Batched(s, 0, cb) == s
  {
  }

  // Less than a packet: a short packet if it is all there is, otherwise no bandwidth.
  function Stall(s: Xfer, cb: Callback): Xfer
    requires s.queue != []
  {
    if Fits(s) == Min(HostLeft(s), DevLeft(s, 0)) then Short(s, 0, Fits(s), cb) else s
  }

  lemma BatchedStall(s: Xfer, cb: Callback)
    requires s.maxpacket > 0 && InProgress(s) && s.queue != [] && Fits(s) < s.maxpacket
    ensures Batched(s, 0, cb) == Stall(s, cb)
  {
    hide Short, Settle, Move;
  }

  lemma PacketsStall(s: Xfer, cb: Callback)
    requires s.maxpacket > 0 && InProgress(s) && s.queue != [] && Fits(s) < s.maxpacket
    ensures Packets(s, cb) == Stall(s, cb)
  {
    hide Short, Settle, Move;
  }

  lemma PacketsBurst(s: Xfer, cb: Callback)
    requires s.maxpacket > 0 && InProgress(s) && s.queue != [] && Fits(s) >= s.maxpacket
    ensures Packets(s, cb) == Packets(AfterBurst(s, cb), cb)
    ensures HostLeft(AfterBurst(s, cb)) < HostLeft(s)
  {
    Burst(s, RoundDown(Fits(s), s.maxpacket), cb);
  }

  // The step after a stop inside: only a zero-length request right behind makes a difference.
  lemma BehindTheHead(s: Xfer, cb: Callback)
    requires s.maxpacket > 0 && InProgress(s) && StopsInside(s) && s.limit > 0
    ensures AfterBurst(s, cb) == Move(s, 0, s.limit) && InProgress(AfterBurst(s, cb))
    ensures |AfterBurst(s, cb).queue| == |s.queue|
    ensures |s.queue| > 1 ==> DevLeft(AfterBurst(s, cb), 1) == DevLeft(s, 1)
    ensures Packets(AfterBurst(s, cb), cb) == AfterBurst(s, cb)
    ensures Batched(AfterBurst(s, cb), 1, cb) ==
      if |s.queue| > 1 && DevLeft(s, 1) == 0 then Short(AfterBurst(s, cb), 1, 0, cb) else AfterBurst(s, cb)
  {
    var t := Move(s, 0, s.limit);
    assert RoundDown(Fits(s), s.maxpacket) == s.limit;
    assert HostLeft(t) > 0 && DevLeft(t, 0) > 0;
    assert |s.queue| > 1 ==> DevLeft(t, 1) == DevLeft(s, 1);
  }

  lemma SafeAfterBurst(s: Xfer, cb: Callback)
    requires s.maxpacket > 0 && InProgress(s) && s.queue != [] && Fits(s) >= s.maxpacket && !MayOvertake(s)
    ensures !MayOvertake(AfterBurst(s, cb))
  {
    var m := s.maxpacket;
    var whole := RoundDown(Fits(s), m);
    var t := AfterBurst(s, cb);
    WholePacketsSub(s.limit, whole, m);
    if InProgress(t) && t.queue != [] && 0 < t.limit < HostLeft(t) && WholePackets(t.limit, m) {
      assert DevLeft(s, 0) < s.limit;
      assert !WholePackets(DevLeft(s, 0), m) || WantsZlpToHost(s, 0);
      WholePacketsSub(DevLeft(s, 0), whole, m);
      assert DevLeft(t, 0) < m;
    }
  }

  // Without an overtaking pair, one batched pass and the packets agree.
  lemma {:induction false} BatchingExact(s: Xfer, cb: Callback)
    requires s.maxpacket > 0 && !MayOvertake(s)
    ensures Batched(s, 0, cb) == Packets(s, cb)
    decreases HostLeft(s)
  {
    if !InProgress(s) || s.queue == [] {
    } else if Fits(s) < s.maxpacket {
      BatchedStall(s, cb);
      PacketsStall(s, cb);
    } else {
      BatchedPass(s, cb);
      PacketsBurst(s, cb);
      if StopsInside(s) {
        BehindTheHead(s, cb);
      } else {
        SafeAfterBurst(s, cb);
        BatchingExact(AfterBurst(s, cb), cb);
      }
    }
  }

  lemma OvertakenNow(s: Xfer, cb: Callback)
    requires s.maxpacket > 0 && MayOvertake(s) && s.limit < DevLeft(s, 0)
    ensures Batched(s, 0, cb) != Packets(s, cb)
  {
    BatchedPass(s, cb);
    PacketsBurst(s, cb);
    BehindTheHead(s, cb);
    assert |Batched(s, 0, cb).given| == |s.given| + 1;
    assert |Packets(s, cb).given| == |s.given|;
  }

  // The handler that sets an overtaking pair up when the head completes.
  lemma OvertakenLater(s: Xfer) returns (cb: Callback)
    requires s.maxpacket > 0 && MayOvertake(s) && DevLeft(s, 0) < s.limit
    ensures Batched(s, 0, cb) != Packets(s, cb)
  {
    hide Batched, Packets, Short, CloseShort;
    var large := Request(0, Buffer([], seq(s.limit, _ => 0)), false);
    var empty := Request(1, Buffer([], []), false);
    cb := (n: nat, g: Given, q: seq<Request>) => [large, empty];
    BatchedPass(s, cb);
    PacketsBurst(s, cb);
    PairAfterHead(s, cb, large, empty);
    OvertakenNow(AfterBurst(s, cb), cb);
  }

  // A pair that overtakes, queued when the head completes.
  lemma PairAfterHead(s: Xfer, cb: Callback, large: Request, empty: Request)
    requires s.maxpacket > 0 && MayOvertake(s) && DevLeft(s, 0) < s.limit
    requires large.buf.past == [] && |large.buf.left| >= s.limit && empty.buf == Buffer([], [])
    requires forall g, q :: cb(|s.given|, g, q) == [large, empty]
    ensures InProgress(s) && s.queue != [] && Fits(s) >= s.maxpacket && !StopsInside(s)
    ensures var t := AfterBurst(s, cb);
            && t.maxpacket > 0 && MayOvertake(t) && t.limit < DevLeft(t, 0) && |t.given| == |s.given| + 1
            && OnlyHeadStarted(t.queue)
  {
    var head := DevLeft(s, 0);
    assert Fits(s) == head && RoundDown(head, s.maxpacket) == head;
    assert DevLeft(Move(s, 0, head), 0) == 0;
    WholePacketsSub(s.limit, head, s.maxpacket);
  }

  // Batching is invisible, whatever the completion handlers do, exactly when no zero-length
  // request can overtake.
  lemma BatchingRefinesPackets(s: Xfer)
    requires s.maxpacket > 0
    ensures (forall cb: Callback :: Batched(s, 0, cb) == Packets(s, cb)) <==> !MayOvertake(s)
  {
    if MayOvertake(s) {
      if s.limit < DevLeft(s, 0) {
        OvertakenNow(s, (n, g, q) => q);
      } else {
        var cb := OvertakenLater(s);
      }
    } else {
      forall cb: Callback
        ensures Batched(s, 0, cb) == Packets(s, cb)
      {
        BatchingExact(s, cb);
      }
    }
  }

  // A concrete pair: one packet of bandwidth, a two-packet request and an empty one behind it.
  // The URB is ended after one packet, by a request that was queued second.
  lemma OvertakingExample()
    ensures var first, second := Request(7, Buffer([], [1, 2]), false), Request(8, Buffer([], []), false);
            var s := Xfer(Buffer([], [0, 0]), true, false, -EINPROGRESS, 1, [first, second], 1, []);
            var t := Batched(s, 0, (n, g, q) => q);
            MayOvertake(s) && t.status == 0 && t.buf.left == [0] && t.given == [Given(second, 0)]
  {
    var first, second := Request(7, Buffer([], [1, 2]), false), Request(8, Buffer([], []), false);
    var s := Xfer(Buffer([], [0, 0]), true, false, -EINPROGRESS, 1, [first, second], 1, []);
    var cb: Callback := (n, g, q) => q;
    assert WholePackets(1, 1);
    BatchedPass(s, cb);
    BehindTheHead(s, cb);
    var t := Move(s, 0, 1);
    assert first.buf.left[..1] == [1] && first.buf.left[1..] == [2];
    assert t.queue[0].buf.past == [1] && t.queue[0].buf.left == [2];
    assert t.queue[1] == second;
    assert Move(t, 1, 0).queue[1] == second;
  }

  function AddLimit(s: Xfer, b: nat): Xfer { s.(limit := s.limit + b) }

  lemma StepsIgnoreLimit(s: Xfer, len: nat, b: nat, cb: Callback)
    requires Movable(s, 0, len)
    ensures Move(AddLimit(s, b), 0, len) == AddLimit(Move(s, 0, len), b)
    ensures Settle(AddLimit(Move(s, 0, len), b), 0, cb) == AddLimit(Settle(Move(s, 0, len), 0, cb), b)
    ensures Short(AddLimit(s, b), 0, len, cb) == AddLimit(Short(s, 0, len, cb), b)
  {
  }

  lemma {:induction false} PacketsPause(s: Xfer, b: nat, cb: Callback)
    requires s.maxpacket > 0
    ensures Packets(s, cb).maxpacket == s.maxpacket
    ensures Packets(AddLimit(s, b), cb) == Packets(AddLimit(Packets(s, cb), b), cb)
    ensures !MayOvertake(AddLimit(s, b)) ==> !MayOvertake(AddLimit(Packets(s, cb), b))
    decreases HostLeft(s)
  {
    hide Settle, Short, Move, MayOvertake;
    if !InProgress(s) || s.queue == [] { return; }
    var packet := Min(s.maxpacket, Min(HostLeft(s), DevLeft(s, 0)));
    if packet > s.limit { return; }
    StepsIgnoreLimit(s, packet, b, cb);
    if packet < s.maxpacket {
      ShortIsSafe(s, packet, b, cb);
      return;
    }
    if !MayOvertake(AddLimit(s, b)) {
      SafeAfterPacket(AddLimit(s, b), cb);
    }
    MoveShortens(s, packet, cb);
    PacketsPause(Settle(Move(s, 0, packet), 0, cb), b, cb);
  }

  lemma MoveShortens(s: Xfer, len: nat, cb: Callback)
    requires Movable(s, 0, len)
    ensures HostLeft(Settle(Move(s, 0, len), 0, cb)) == HostLeft(s) - len
    ensures Settle(Move(s, 0, len), 0, cb).maxpacket == s.maxpacket
  {
  }

  lemma ShortIsSafe(s: Xfer, len: nat, b: nat, cb: Callback)
    requires Movable(s, 0, len) && s.maxpacket > 0
    ensures Short(s, 0, len, cb).maxpacket == s.maxpacket && !InProgress(Short(s, 0, len, cb))
    ensures !MayOvertake(AddLimit(Short(s, 0, len, cb), b))
  {
  }

  // One packet sets no overtaking pair up that was not there.
  lemma SafeAfterPacket(s: Xfer, cb: Callback)
    requires s.maxpacket > 0 && InProgress(s) && Movable(s, 0, s.maxpacket) && !MayOvertake(s)
    ensures !MayOvertake(Settle(Move(s, 0, s.maxpacket), 0, cb))
  {
    var m := s.maxpacket;
    var t := Settle(Move(s, 0, m), 0, cb);
    WholePacketsSub(s.limit, m, m);
    if InProgress(t) && t.queue != [] && 0 < t.limit < HostLeft(t) && WholePackets(t.limit, m) {
      WholePacketsSub(DevLeft(s, 0), m, m);
      var moved := Move(s, 0, m);
      if DevLeft(moved, 0) > 0 {
        assert t.queue == moved.queue;
        assert |s.queue| > 1 ==> DevLeft(t, 1) == DevLeft(s, 1);
      }
    }
  }

  // The bandwidth limit only pauses a transfer: spending it in one frame, or part now and the
  // rest later, moves the same packets, gives back the same requests and ends in the same status.
  lemma LimitOnlyPauses(s: Xfer, b: nat, cb: Callback)
    requires s.maxpacket > 0 && !MayOvertake(s) && !MayOvertake(AddLimit(s, b))
    ensures Batched(s, 0, cb).maxpacket == s.maxpacket
    ensures Batched(AddLimit(s, b), 0, cb) == Batched(AddLimit(Batched(s, 0, cb), b), 0, cb)
  {
    hide Batched, Packets, MayOvertake;
    PacketsPause(s, b, cb);
    BatchingExact(s, cb);
    BatchingExact(AddLimit(s, b), cb);
    BatchingExact(AddLimit(Packets(s, cb), b), cb);
  }

  // ---- The byte stream ----

  function Stream(given: seq<Given>): seq<Byte> {
    if given == [] then [] else Stream(given[..|given| - 1]) + given[|given| - 1].req.buf.past
  }

  // All bytes carried so far: those of the completed requests, then those of the head.
  function Carried(s: Xfer): seq<Byte> {
    Stream(s.given) + if s.queue == [] then [] else s.queue[0].buf.past
  }

  predicate Fresh(q: seq<Request>) { forall r | r in q :: r.buf.past == [] }

  // Only the head may have started; `dummy_queue` resets a request when it is queued.
  predicate OnlyHeadStarted(q: seq<Request>) { q == [] || Fresh(q[1..]) }

  predicate Started(q: seq<Request>) { q != [] && q[0].buf.past != [] }

  // Completion handlers may queue, dequeue and reorder at will; what they queue is fresh.
  ghost predicate QueuesFresh(cb: Callback) { forall n, g, q :: Fresh(q) ==> Fresh(cb(n, g, q)) }

  // And they leave a head alone that has started; needed only when a request overtakes it.
  ghost predicate KeepsStarted(cb: Callback) {
    forall n, g, q :: OnlyHeadStarted(q) ==>
      && OnlyHeadStarted(cb(n, g, q))
      && (Started(q) || Started(cb(n, g, q)) ==> q != [] && cb(n, g, q) != [] && cb(n, g, q)[0] == q[0])
  }

  // From s to t the URB moved forward by some bytes, and those bytes are, in order, what the
  // requests carried; the bandwidth paid for exactly them.
  predicate Flows(s: Xfer, t: Xfer) {
    && s.buf.past <= t.buf.past
    && Carried(t) == Carried(s) + t.buf.past[|s.buf.past|..]
    && |t.buf.past| - |s.buf.past| == HostLeft(s) - HostLeft(t) == s.limit - t.limit
    && (!s.toHost ==> t.buf.All() == s.buf.All())
    && t.toHost == s.toHost && t.maxpacket == s.maxpacket
    && OnlyHeadStarted(t.queue)
  }

  lemma FlowsOn(s: Xfer, t: Xfer, u: Xfer)
    requires Flows(s, t) && Flows(t, u)
    ensures Flows(s, u)
  {
    assert u.buf.past[|s.buf.past|..] == t.buf.past[|s.buf.past|..] + u.buf.past[|t.buf.past|..];
  }

  lemma MoveFlows(s: Xfer, len: nat)
    requires Movable(s, 0, len) && OnlyHeadStarted(s.queue)
    ensures Flows(s, Move(s, 0, len))
  {
    var t := Move(s, 0, len);
    var src := if s.toHost then s.queue[0].buf.left[..len] else s.buf.left[..len];
    assert t.buf.past == s.buf.past + src && t.queue[0].buf.past == s.queue[0].buf.past + src;
    assert t.queue[1..] == s.queue[1..];
    assert Carried(t) == Carried(s) + src;
    assert s.buf.left == s.buf.left[..len] + s.buf.left[len..];
  }

  lemma StreamSnoc(given: seq<Given>, done: Given)
    ensures Stream(given + [done]) == Stream(given) + done.req.buf.past
  {
    assert (given + [done])[..|given|] == given;
  }

  // Giving the head back moves its bytes to the completed ones, whatever the handler does with
  // the fresh requests behind it.
  lemma CompleteHeadFlows(s: Xfer, status: int, cb: Callback)
    requires s.queue != [] && OnlyHeadStarted(s.queue)
    requires Fresh(s.queue[1..]) ==> Fresh(cb(|s.given|, Given(s.queue[0], status), s.queue[1..]))
    ensures Flows(s, Complete(s, 0, status, cb))
  {
    var t := Complete(s, 0, status, cb);
    var done := Given(s.queue[0], status);
    assert s.queue[..0] + s.queue[1..] == s.queue[1..];
    StreamSnoc(s.given, done);
    assert Fresh(t.queue);
    assert t.queue != [] ==> t.queue[0] in t.queue && forall r | r in t.queue[1..] :: r in t.queue;
    assert Carried(t) == Carried(s);
  }

  lemma SettleFlows(s: Xfer, cb: Callback)
    requires s.queue != [] && OnlyHeadStarted(s.queue) && QueuesFresh(cb)
    ensures Flows(s, Settle(s, 0, cb))
  {
    hide Complete;
    var t := if HostLeft(s) == 0 && !WantsZlpToDevice(s) then s.(status := 0) else s;
    assert Flows(s, t);
    if DevLeft(s, 0) == 0 && !WantsZlpToHost(s, 0) {
      CompleteHeadFlows(t, 0, cb);
      FlowsOn(s, t, Complete(t, 0, 0, cb));
    }
  }

  lemma ShortHeadFlows(s: Xfer, len: nat, cb: Callback)
    requires Movable(s, 0, len) && OnlyHeadStarted(s.queue) && QueuesFresh(cb)
    ensures Flows(s, Short(s, 0, len, cb))
  {
    hide Complete, Move, Carried;
    var host, dev := HostLeft(s), DevLeft(s, 0);
    var moved := Move(s, 0, len);
    MoveFlows(s, len);
    MoveKeepsQueue(s, len);
    var t := moved.(status := if s.toHost && dev > host then -EOVERFLOW else 0);
    assert Carried(t) == Carried(moved) by { SameCarried(t, moved); }
    assert Flows(s, t);
    CompleteHeadFlows(t, if !s.toHost && host > dev then -EOVERFLOW else 0, cb);
    FlowsOn(s, t, Short(s, 0, len, cb));
  }

  lemma SameCarried(s: Xfer, t: Xfer)
    requires s.given == t.given && s.queue == t.queue
    ensures Carried(s) == Carried(t)
  {
  }

  lemma MoveKeepsQueue(s: Xfer, len: nat)
    requires Movable(s, 0, len)
    ensures Move(s, 0, len).queue != [] && Move(s, 0, len).toHost == s.toHost
  {
  }

  lemma BurstFlows(s: Xfer, cb: Callback)
    requires s.maxpacket > 0 && InProgress(s) && s.queue != [] && Fits(s) >= s.maxpacket
    requires OnlyHeadStarted(s.queue) && QueuesFresh(cb)
    ensures Flows(s, AfterBurst(s, cb)) && HostLeft(AfterBurst(s, cb)) < HostLeft(s)
  {
    hide Settle, Carried;
    var whole := RoundDown(Fits(s), s.maxpacket);
    MoveFlows(s, whole);
    SettleFlows(Move(s, 0, whole), cb);
    FlowsOn(s, Move(s, 0, whole), AfterBurst(s, cb));
  }

  lemma StallFlows(s: Xfer, cb: Callback)
    requires s.maxpacket > 0 && InProgress(s) && s.queue != [] && Fits(s) < s.maxpacket
    requires OnlyHeadStarted(s.queue) && QueuesFresh(cb)
    ensures Flows(s, Batched(s, 0, cb))
  {
    hide Batched, Short, Carried;
    BatchedStall(s, cb);
    if Fits(s) == Min(HostLeft(s), DevLeft(s, 0)) {
      ShortHeadFlows(s, Fits(s), cb);
    }
  }

  // Byte-stream integrity of `transfer` when nothing can overtake the head, for every completion
  // handler.
  lemma {:induction false} ByteStream(s: Xfer, cb: Callback)
    requires s.maxpacket > 0 && OnlyHeadStarted(s.queue) && QueuesFresh(cb) && !MayOvertake(s)
    ensures Flows(s, Batched(s, 0, cb))
    decreases HostLeft(s)
  {
    hide Batched, Short, AfterBurst, QueuesFresh, Carried;
    if !InProgress(s) || s.queue == [] {
      BatchedIdle(s, cb);
      return;
    }
    if Fits(s) < s.maxpacket {
      StallFlows(s, cb);
      return;
    }
    var t := AfterBurst(s, cb);
    BurstFlows(s, cb);
    BatchedPass(s, cb);
    if StopsInside(s) {
      BehindTheHead(s, cb);
    } else {
      SafeAfterBurst(s, cb);
      ByteStream(t, cb);
      FlowsOn(s, t, Batched(t, 0, cb));
    }
  }

  // A started head overtaken by an empty request, whose handler dequeues the head: the bytes the
  // URB has moved are in no request served.
  lemma OvertakenBreaksStream(s: Xfer, cb: Callback)
    requires s.maxpacket > 0 && MayOvertake(s) && s.limit < DevLeft(s, 0) && OnlyHeadStarted(s.queue)
    requires forall g, q :: cb(|s.given|, g, q) == []
    ensures var t := Batched(s, 0, cb);
            |Carried(t)| + HostLeft(t) < |Carried(s)| + HostLeft(s)
  {
    hide Batched;
    BatchedPass(s, cb);
    BehindTheHead(s, cb);
    var t := Move(s, 0, s.limit);
    var u := Short(t, 1, 0, cb);
    assert s.queue[1] in s.queue[1..] && t.queue[1] == s.queue[1];
    MoveNothing(t, 1);
    StreamSnoc(s.given, u.given[|s.given|]);
    assert u.queue == [] && u.given == s.given + [u.given[|s.given|]];
  }

  // The handler that lets a request overtake later sets the pair up at the head's completion.
  lemma OvertakenLaterBreaksStream(s: Xfer) returns (cb: Callback)
    requires s.maxpacket > 0 && MayOvertake(s) && DevLeft(s, 0) < s.limit && OnlyHeadStarted(s.queue)
    ensures QueuesFresh(cb) && !Flows(s, Batched(s, 0, cb))
  {
    hide Batched, Carried, AfterBurst, Fits, StopsInside;
    var large := Request(0, Buffer([], seq(s.limit, _ => 0)), false);
    var empty := Request(1, Buffer([], []), false);
    var first := |s.given|;
    cb := (n: nat, g: Given, q: seq<Request>) => if n == first then [large, empty] else [];
    PairAfterHead(s, cb, large, empty);
    BatchedPass(s, cb);
    var t := AfterBurst(s, cb);
    OvertakenBreaksStream(t, cb);
    BurstFlows(s, cb);
    if Flows(s, Batched(s, 0, cb)) {
      FlowsLength(s, t);
      FlowsLength(s, Batched(s, 0, cb));
    }
  }

  lemma FlowsLength(s: Xfer, t: Xfer)
    requires Flows(s, t)
    ensures |Carried(t)| + HostLeft(t) == |Carried(s)| + HostLeft(s)
  {
    hide Carried;
  }

  // So the bytes the URB moves are, for every handler, those of the requests served, exactly when
  // no zero-length request can overtake the head.
  lemma ByteStreamIff(s: Xfer)
    requires s.maxpacket > 0 && OnlyHeadStarted(s.queue)
    ensures (forall cb: Callback | QueuesFresh(cb) :: Flows(s, Batched(s, 0, cb))) <==> !MayOvertake(s)
  {
    hide Batched, Flows, QueuesFresh;
    if !MayOvertake(s) {
      forall cb: Callback | QueuesFresh(cb)
        ensures Flows(s, Batched(s, 0, cb))
      {
        ByteStream(s, cb);
      }
    } else if s.limit < DevLeft(s, 0) {
      var cb: Callback := (n, g, q) => [];
      EmptyIsFresh(cb);
      OvertakenBreaksStream(s, cb);
      if Flows(s, Batched(s, 0, cb)) {
        FlowsLength(s, Batched(s, 0, cb));
      }
    } else {
      var cb := OvertakenLaterBreaksStream(s);
    }
  }

  lemma EmptyIsFresh(cb: Callback)
    requires forall n, g, q :: cb(n, g, q) == []
    ensures QueuesFresh(cb)
  {
  }

  // A fresh request behind the head is given back out of turn.
  lemma CompleteSecondFlows(s: Xfer, status: int, cb: Callback)
    requires |s.queue| > 1 && OnlyHeadStarted(s.queue) && KeepsStarted(cb)
    ensures Flows(s, Complete(s, 1, status, cb))
  {
    var u := Complete(s, 1, status, cb);
    var done, rest := Given(s.queue[1], status), s.queue[..1] + s.queue[2..];
    assert s.queue[1] in s.queue[1..];
    StreamSnoc(s.given, done);
    assert OnlyHeadStarted(rest) && rest[0] == s.queue[0] by {
      assert rest[1..] == s.queue[2..];
      assert forall r | r in s.queue[2..] :: r in s.queue[1..];
    }
    assert u.queue == cb(|s.given|, done, rest);
    assert Carried(u) == Carried(s);
  }

  lemma OvertakingFlows(s: Xfer, cb: Callback)
    requires |s.queue| > 1 && DevLeft(s, 1) == 0 && OnlyHeadStarted(s.queue) && KeepsStarted(cb)
    ensures Flows(s, Short(s, 1, 0, cb))
  {
    hide Complete, Move, Carried, KeepsStarted, OnlyHeadStarted;
    MoveNothing(s, 1);
    var t := s.(status := 0);
    SameCarried(s, t);
    assert Flows(s, t) by { assert t.queue == s.queue; }
    CompleteSecondFlows(t, if !s.toHost && HostLeft(s) > 0 then -EOVERFLOW else 0, cb);
    FlowsOn(s, t, Short(s, 1, 0, cb));
  }

  lemma KeepsStartedQueuesFresh(cb: Callback)
    requires KeepsStarted(cb)
    ensures QueuesFresh(cb)
  {
    forall n, g, q | Fresh(q) ensures Fresh(cb(n, g, q)) {
      var q' := cb(n, g, q);
      assert q != [] ==> q[0] in q && forall r | r in q[1..] :: r in q;
      assert OnlyHeadStarted(q) && !Started(q);
      assert OnlyHeadStarted(q') && !Started(q');
      forall r | r in q' ensures r.buf.past == [] {
        assert r == q'[0] || r in q'[1..];
      }
    }
  }

  // Overtaking or not, the stream is whole when handlers leave a started head alone.
  lemma {:induction false} ByteStreamOvertaking(s: Xfer, cb: Callback)
    requires s.maxpacket > 0 && OnlyHeadStarted(s.queue) && KeepsStarted(cb)
    ensures Flows(s, Batched(s, 0, cb))
    decreases HostLeft(s)
  {
    hide Batched, Short, AfterBurst, KeepsStarted, QueuesFresh, Carried;
    KeepsStartedQueuesFresh(cb);
    if !InProgress(s) || s.queue == [] {
      BatchedIdle(s, cb);
      return;
    }
    if Fits(s) < s.maxpacket {
      StallFlows(s, cb);
      return;
    }
    var t := AfterBurst(s, cb);
    BurstFlows(s, cb);
    BatchedPass(s, cb);
    if StopsInside(s) {
      BehindTheHead(s, cb);
      if |s.queue| > 1 && DevLeft(s, 1) == 0 {
        OvertakingFlows(t, cb);
        FlowsOn(s, t, Short(t, 1, 0, cb));
      }
    } else {
      ByteStreamOvertaking(t, cb);
      FlowsOn(s, t, Batched(t, 0, cb));
    }
  }

  // ---- What the final statuses mean ----

  // Once the URB ends: a read overflows exactly when the device had more than fits; a URB
  // that ends with room to spare was cut short by a request with nothing left, and a write
  // then reports the overflow on the device side.
  predicate Verdict(s: Xfer, t: Xfer) {
    var last := if |t.given| > |s.given| then t.given[|t.given| - 1] else Given(Request(0, Buffer([], []), false), 0);
    && s.given <= t.given
    && t.status in {0, -EOVERFLOW, -EINPROGRESS}
    && (t.status == -EOVERFLOW <==> t.toHost && !InProgress(t) && HostLeft(t) == 0 && last.req.buf.left != [])
    && (t.status == 0 && HostLeft(t) > 0 ==>
          && |t.given| > |s.given| && last.req.buf.left == []
          && last.status == if t.toHost then 0 else -EOVERFLOW)
  }

  lemma ShortVerdict(s: Xfer, i: nat, len: nat, cb: Callback)
    requires InProgress(s) && i < |s.queue| && len == Min(HostLeft(s), DevLeft(s, i)) && len <= s.limit
    ensures Verdict(s, Short(s, i, len, cb))
  {
  }

  lemma StallVerdict(s: Xfer, cb: Callback)
    requires s.maxpacket > 0 && InProgress(s) && s.queue != [] && Fits(s) < s.maxpacket
    ensures Verdict(s, Batched(s, 0, cb))
  {
    BatchedStall(s, cb);
    if Fits(s) == Min(HostLeft(s), DevLeft(s, 0)) {
      ShortVerdict(s, 0, Fits(s), cb);
    }
  }

  lemma BurstVerdict(s: Xfer, cb: Callback)
    requires s.maxpacket > 0 && InProgress(s) && s.queue != [] && Fits(s) >= s.maxpacket
    ensures var t := AfterBurst(s, cb);
            Verdict(s, t) && t.toHost == s.toHost && t.maxpacket == s.maxpacket && HostLeft(t) < HostLeft(s)
            && (|t.given| > |s.given| ==> t.given[|t.given| - 1].req.buf.left == [])
  {
    var moved := Move(s, 0, RoundDown(Fits(s), s.maxpacket));
    assert DevLeft(moved, 0) == |moved.queue[0].buf.left|;
  }

  lemma VerdictOn(s: Xfer, t: Xfer, u: Xfer)
    requires Verdict(t, u) && s.given <= t.given
    requires |t.given| > |s.given| ==> t.given[|t.given| - 1].req.buf.left == []
    ensures Verdict(s, u)
  {
    if |u.given| == |t.given| {
      assert u.given == t.given;
    }
  }

  lemma {:induction false} StatusMeaning(s: Xfer, cb: Callback)
    requires s.maxpacket > 0 && InProgress(s)
    ensures Verdict(s, Batched(s, 0, cb))
    decreases HostLeft(s)
  {
    hide Batched, AfterBurst, Short, Complete, Settle, Move;
    if s.queue == [] {
      BatchedIdle(s, cb);
      return;
    }
    if Fits(s) < s.maxpacket {
      StallVerdict(s, cb);
      return;
    }
    BatchedPass(s, cb);
    BurstVerdict(s, cb);
    var t := AfterBurst(s, cb);
    if StopsInside(s) {
      BehindTheHead(s, cb);
      if |s.queue| > 1 && DevLeft(s, 1) == 0 {
        ShortVerdict(t, 1, 0, cb);
        VerdictOn(s, t, Short(t, 1, 0, cb));
      }
    } else if !InProgress(t) {
      BatchedIdle(t, cb);
    } else {
      StatusMeaning(t, cb);
      VerdictOn(s, t, Batched(t, 0, cb));
    }
  }

  // ---- The device's own bytes ----

  // `content(id)` is what the buffer held at acceptance number `id`.
  ghost predicate Intact(reqs: seq<Request>, content: nat -> seq<Byte>) {
    forall r | r in reqs :: r.buf.All() == content(r.id)
  }

  function Requests(given: seq<Given>): seq<Request> { seq(|given|, i requires 0 <= i < |given| => given[i].req) }

  ghost predicate AllIntact(s: Xfer, content: nat -> seq<Byte>) {
    Intact(s.queue, content) && Intact(Requests(s.given), content)
  }

  lemma CompleteIntact(s: Xfer, i: nat, status: int, cb: Callback, content: nat -> seq<Byte>)
    requires i < |s.queue| && AllIntact(s, content)
    requires forall n, g, q :: Intact(q, content) ==> Intact(cb(n, g, q), content)
    ensures AllIntact(Complete(s, i, status, cb), content)
  {
    var rest := s.queue[..i] + s.queue[i + 1..];
    assert Intact(rest, content);
    assert Requests(Complete(s, i, status, cb).given) == Requests(s.given) + [s.queue[i]];
  }

  lemma MoveIntact(s: Xfer, i: nat, len: nat, content: nat -> seq<Byte>)
    requires s.toHost && Movable(s, i, len) && AllIntact(s, content)
    ensures AllIntact(Move(s, i, len), content)
  {
    var t := Move(s, i, len);
    var b := s.queue[i].buf;
    assert b.left == b.left[..len] + b.left[len..];
    assert t.queue[i].buf.All() == b.All();
    assert s.queue[i] in s.queue;
    forall r | r in t.queue
      ensures r.buf.All() == content(r.id)
    {
      assert r == t.queue[i] || r in s.queue;
    }
  }

  // A read leaves every request's buffer as the gadget had filled it when it queued it.
  lemma {:induction false} ReadKeepsDeviceData(s: Xfer, i: nat, cb: Callback, content: nat -> seq<Byte>)
    requires s.maxpacket > 0 && s.toHost && AllIntact(s, content)
    requires forall n, g, q :: Intact(q, content) ==> Intact(cb(n, g, q), content)
    ensures AllIntact(Batched(s, i, cb), content)
    decreases HostLeft(s)
  {
    if !InProgress(s) || i >= |s.queue| { return; }
    var len := Min(HostLeft(s), DevLeft(s, i));
    var fits := Min(len, s.limit);
    if fits < s.maxpacket {
      if fits == len {
        MoveIntact(s, i, fits, content);
        CompleteIntact(Move(s, i, fits).(status := if DevLeft(s, i) > HostLeft(s) then -EOVERFLOW else 0), i, 0, cb, content);
      }
      return;
    }
    var whole := RoundDown(fits, s.maxpacket);
    var t := Move(s, i, whole);
    MoveIntact(s, i, whole, content);
    CompleteIntact(if HostLeft(t) == 0 then t.(status := 0) else t, i, 0, cb, content);
    var rescan := whole != fits || DevLeft(t, i) == 0 || HostLeft(t) == 0;
    ReadKeepsDeviceData(Settle(t, i, cb), if rescan then 0 else i + 1, cb, content);
  }
}
