// What one exchange between a URB and the request at the head of the queue comes to, in terms of
// their lengths and flags only (patch/kernel/dummy_hcd.c:1391-1506): how many bytes move, which
// side ends, and with which status.  Section 5.8.3 of USB 2.0: a transfer ends with a packet
// shorter than maxpacket, and one that is a whole number of packets long needs a zero-length
// packet to end early.

module TransferOutcome {
  import opened Modular
  import opened Transfer

  // The status of the URB: h and d bytes are left on the host's and the device's side.
  function UrbEnd(toHost: bool, zeroPacket: bool, zero: bool, h: nat, d: nat, m: nat): int
    requires m > 0
  {
    var len := if h < d then h else d;
    if len == 0 || len % m != 0 then if toHost && d > h then -75 else 0   // a short packet
    else if d < h then if toHost && zero then 0 else -115                  // read ended by the device's ZLP
    else if toHost || !zeroPacket then 0
    else if d > h then 0 else -115                                         // write ended by the host's ZLP
  }

  // The status of the request; -115 means that it stays queued.
  function RequestEnd(toHost: bool, zeroPacket: bool, zero: bool, h: nat, d: nat, m: nat): int
    requires m > 0
  {
    var len := if h < d then h else d;
    if len == 0 || len % m != 0 then if !toHost && h > d then -75 else 0
    else if h < d then if !toHost && zeroPacket then 0 else -115
    else if !toHost || !zero then 0
    else if h > d then 0 else -115
  }

  // The bytes that have changed hands.
  function Crossed(s: Xfer, len: nat): seq<Byte>
    requires s.queue != [] && len <= HostLeft(s) && len <= DevLeft(s, 0)
  {
    if s.toHost then s.queue[0].buf.left[..len] else s.buf.left[..len]
  }

  // Both positions advanced over them.
  function Exchanged(s: Xfer, len: nat): Xfer
    requires s.queue != [] && len <= HostLeft(s) && len <= DevLeft(s, 0) && len <= s.limit
  {
    var r := s.queue[0];
    s.(buf := Buffer(s.buf.past + Crossed(s, len), s.buf.left[len..]),
       queue := [r.(buf := Buffer(r.buf.past + Crossed(s, len), r.buf.left[len..]))] + s.queue[1..],
       limit := s.limit - len)
  }

  lemma ExchangedIsMove(s: Xfer, len: nat)
    requires Movable(s, 0, len)
    ensures Move(s, 0, len) == Exchanged(s, len)
  {
    assert s.queue == [s.queue[0]] + s.queue[1..];
  }

  // The request at the head goes, and its handler edits the queue.
  function HeadGone(t: Xfer, status: int, cb: Callback): Xfer
    requires t.queue != []
  {
    var done := Given(t.queue[0], status);
    t.(given := t.given + [done], queue := cb(|t.given|, done, t.queue[1..]))
  }

  // What the exchange leaves, before any more is done with the queue.
  function Ended(s: Xfer, cb: Callback): Xfer
    requires s.maxpacket > 0 && s.queue != [] && Min(HostLeft(s), DevLeft(s, 0)) <= s.limit
  {
    var h, d, r := HostLeft(s), DevLeft(s, 0), s.queue[0];
    var t := Exchanged(s, Min(h, d)).(status := UrbEnd(s.toHost, s.zeroPacket, r.zero, h, d, s.maxpacket));
    var status := RequestEnd(s.toHost, s.zeroPacket, r.zero, h, d, s.maxpacket);
    if status == -115 then t else HeadGone(t, status, cb)
  }

  // With bandwidth for what can be exchanged, any queue and any handler: the transfer is the
  // exchange with the head, and goes on with the rest exactly if the URB has not ended.
  lemma ExchangeEnds(s: Xfer, cb: Callback)
    requires s.maxpacket > 0 && InProgress(s) && s.queue != [] && Min(HostLeft(s), DevLeft(s, 0)) <= s.limit
    ensures Batched(s, 0, cb) == Batched(Ended(s, cb), 0, cb)
    ensures Ended(s, cb).status != -115 ==> Batched(s, 0, cb) == Ended(s, cb)
  {
    hide Batched, Complete, Move;
    var h, d, m := HostLeft(s), DevLeft(s, 0), s.maxpacket;
    var len := Min(h, d);
    RoundDownIsMod(len, m);
    RemainderBelow(len, m);
    if len < m {
      ShortEnds(s, cb);
    } else if len % m != 0 {
      RemainderEnds(s, cb);
    } else {
      WholeEnds(s, cb);
    }
    if Ended(s, cb).status != -115 {
      BatchedEnd(Ended(s, cb), 0, cb);
    }
  }

  lemma RemainderBelow(len: nat, m: nat)
    requires m > 0
    ensures 0 <= len % m < m && (len < m ==> len % m == len)
  {
    if len < m {
      ModUnique(len, 0, len, m);
    }
  }

  lemma CompleteIsHeadGone(t: Xfer, status: int, cb: Callback)
    requires t.queue != []
    ensures Complete(t, 0, status, cb) == HeadGone(t, status, cb)
  {
    assert t.queue[..0] + t.queue[1..] == t.queue[1..];
  }

  // Less than a packet, or nothing at all, on one side.
  lemma ShortEnds(s: Xfer, cb: Callback)
    requires s.maxpacket > 0 && InProgress(s) && s.queue != [] && Min(HostLeft(s), DevLeft(s, 0)) <= s.limit
    requires Min(HostLeft(s), DevLeft(s, 0)) < s.maxpacket
    ensures Batched(s, 0, cb) == Ended(s, cb) && Ended(s, cb).status != -115
  {
    hide Batched, Complete, Move;
    var len := Min(HostLeft(s), DevLeft(s, 0));
    RemainderBelow(len, s.maxpacket);
    BatchedStall(s, cb);
    assert Batched(s, 0, cb) == Short(s, 0, len, cb);
    ShortIsEnded(s, cb);
  }

  lemma ShortIsEnded(s: Xfer, cb: Callback)
    requires s.maxpacket > 0 && s.queue != [] && Min(HostLeft(s), DevLeft(s, 0)) <= s.limit
    requires var len := Min(HostLeft(s), DevLeft(s, 0)); len == 0 || len % s.maxpacket != 0
    ensures Short(s, 0, Min(HostLeft(s), DevLeft(s, 0)), cb) == Ended(s, cb) && Ended(s, cb).status != -115
  {
    hide Complete, Move;
    var h, d := HostLeft(s), DevLeft(s, 0);
    ExchangedIsMove(s, Min(h, d));
    var t := Exchanged(s, Min(h, d)).(status := if s.toHost && d > h then -75 else 0);
    CompleteIsHeadGone(t, if !s.toHost && h > d then -75 else 0, cb);
  }

  // Whole packets and then a short one.
  lemma RemainderEnds(s: Xfer, cb: Callback)
    requires s.maxpacket > 0 && InProgress(s) && s.queue != [] && Min(HostLeft(s), DevLeft(s, 0)) <= s.limit
    requires var len := Min(HostLeft(s), DevLeft(s, 0)); len >= s.maxpacket && len % s.maxpacket != 0
    ensures Batched(s, 0, cb) == Ended(s, cb) && Ended(s, cb).status != -115
  {
    hide Batched, Complete, Short, Move, Ended;
    var len := Min(HostLeft(s), DevLeft(s, 0));
    var whole := RoundDown(len, s.maxpacket);
    RoundDownIsMod(len, s.maxpacket);
    BatchedPass(s, cb);
    OpenMove(s, whole, cb);
    var t := Move(s, 0, whole);
    ExchangedIsMove(s, whole);
    BatchedStall(t, cb);
    assert Batched(s, 0, cb) == Short(t, 0, len - whole, cb);
    MoveTwice(s, 0, whole, len - whole);
    ShortTwice(s, whole, len, cb);
    ShortIsEnded(s, cb);
  }

  lemma ShortTwice(s: Xfer, whole: nat, len: nat, cb: Callback)
    requires Movable(s, 0, len) && whole <= len && whole < HostLeft(s) && whole < DevLeft(s, 0)
    requires Movable(Move(s, 0, whole), 0, len - whole)
    requires Move(Move(s, 0, whole), 0, len - whole) == Move(s, 0, len)
    ensures Short(Move(s, 0, whole), 0, len - whole, cb) == Short(s, 0, len, cb)
  {
  }

  // Whole packets only: one side, or both, are at their end.
  lemma WholeEnds(s: Xfer, cb: Callback)
    requires s.maxpacket > 0 && InProgress(s) && s.queue != [] && Min(HostLeft(s), DevLeft(s, 0)) <= s.limit
    requires var len := Min(HostLeft(s), DevLeft(s, 0)); len >= s.maxpacket && len % s.maxpacket == 0
    ensures Batched(s, 0, cb) == Batched(Ended(s, cb), 0, cb)
  {
    hide Batched, Complete, Short, Move, Exchanged;
    var h, d, m := HostLeft(s), DevLeft(s, 0), s.maxpacket;
    var len := Min(h, d);
    RoundDownIsMod(len, m);
    BatchedPass(s, cb);
    ExchangedIsMove(s, len);
    ExchangedSides(s, len);
    var t := Exchanged(s, len);
    CompleteIsHeadGone(t, 0, cb);
    CompleteIsHeadGone(t.(status := 0), 0, cb);
    assert Batched(s, 0, cb) == Batched(Settle(t, 0, cb), 0, cb);
    if (d < h && s.toHost && s.queue[0].zero) || (h < d && !s.toHost && s.zeroPacket) {
      assert Settle(t, 0, cb) == t;
      BatchedStall(t, cb);
      ZeroLength(t, cb);
      assert Batched(t, 0, cb) == HeadGone(t.(status := 0), 0, cb) == Ended(s, cb);
      BatchedEnd(Ended(s, cb), 0, cb);
    } else {
      assert Settle(t, 0, cb) == Ended(s, cb);
    }
  }

  lemma ExchangedSides(s: Xfer, len: nat)
    requires s.queue != [] && len <= HostLeft(s) && len <= DevLeft(s, 0) && len <= s.limit
    ensures var t := Exchanged(s, len);
            && t.queue != [] && HostLeft(t) == HostLeft(s) - len && DevLeft(t, 0) == DevLeft(s, 0) - len
            && t.queue[0].zero == s.queue[0].zero && t.toHost == s.toHost && t.zeroPacket == s.zeroPacket
            && t.maxpacket == s.maxpacket && t.status == s.status && t.limit == s.limit - len && t.given == s.given
  {
  }

  // The zero-length packet that was asked for.
  lemma ZeroLength(t: Xfer, cb: Callback)
    requires t.maxpacket > 0 && InProgress(t) && t.queue != []
    requires if t.toHost then DevLeft(t, 0) == 0 < HostLeft(t) else HostLeft(t) == 0 < DevLeft(t, 0)
    ensures Short(t, 0, 0, cb) == HeadGone(t.(status := 0), 0, cb)
  {
    MoveNothing(t, 0);
    CompleteIsHeadGone(t.(status := 0), 0, cb);
  }

  // Without bandwidth for it: the whole packets that fit move, and nothing ends.
  lemma ExchangePauses(s: Xfer, cb: Callback)
    requires s.maxpacket > 0 && InProgress(s) && s.queue != [] && s.limit < Min(HostLeft(s), DevLeft(s, 0))
    requires |s.queue| > 1 ==> DevLeft(s, 1) > 0
    ensures s.limit % s.maxpacket <= s.limit
    ensures Batched(s, 0, cb) == Exchanged(s, s.limit - s.limit % s.maxpacket)
  {
    hide Batched, Move, Exchanged;
    RoundDownIsMod(s.limit, s.maxpacket);
    RemainderBelow(s.limit, s.maxpacket);
    if s.limit < s.maxpacket {
      BatchedStall(s, cb);
      ExchangedIsMove(s, 0);
      MoveNothing(s, 0);
    } else {
      ExchangedIsMove(s, RoundDown(s.limit, s.maxpacket));
      BurstPauses(s, cb);
    }
  }

  lemma BurstPauses(s: Xfer, cb: Callback)
    requires s.maxpacket > 0 && InProgress(s) && s.queue != [] && s.maxpacket <= s.limit < Min(HostLeft(s), DevLeft(s, 0))
    requires |s.queue| > 1 ==> DevLeft(s, 1) > 0
    ensures Batched(s, 0, cb) == Move(s, 0, RoundDown(s.limit, s.maxpacket))
  {
    hide Batched, Complete, Short, Move, Settle;
    var whole := RoundDown(s.limit, s.maxpacket);
    BatchedPass(s, cb);
    OpenMove(s, whole, cb);
    if StopsInside(s) {
      BehindTheHead(s, cb);
    } else {
      MoveLeaves(s, whole);
      BatchedStall(Move(s, 0, whole), cb);
    }
  }

  lemma MoveLeaves(s: Xfer, len: nat)
    requires Movable(s, 0, len)
    ensures var t := Move(s, 0, len);
            && t.queue != [] && t.limit == s.limit - len && t.status == s.status && t.maxpacket == s.maxpacket
            && HostLeft(t) == HostLeft(s) - len && DevLeft(t, 0) == DevLeft(s, 0) - len
  {
  }

  // A write of whole packets into a larger request ends the URB; the request is given back exactly
  // if the host adds a zero-length packet.
  lemma WriteEndsRequest(s: Xfer, cb: Callback)
    requires s.maxpacket > 0 && InProgress(s) && s.queue != [] && !s.toHost
    requires 0 < HostLeft(s) < DevLeft(s, 0) && HostLeft(s) <= s.limit && HostLeft(s) % s.maxpacket == 0
    ensures Batched(s, 0, cb).status == 0
    ensures |Batched(s, 0, cb).given| == |s.given| + if s.zeroPacket then 1 else 0
  {
    hide Batched;
    ExchangeEnds(s, cb);
  }

  // A request of whole packets read into a larger URB is given back; it ends the URB exactly if the
  // device adds a zero-length packet, when no other request follows.
  lemma ReadEndsUrb(s: Xfer, cb: Callback)
    requires s.maxpacket > 0 && InProgress(s) && |s.queue| == 1 && s.toHost && forall n, g :: cb(n, g, []) == []
    requires 0 < DevLeft(s, 0) < HostLeft(s) && DevLeft(s, 0) <= s.limit && DevLeft(s, 0) % s.maxpacket == 0
    ensures Batched(s, 0, cb).status == if s.queue[0].zero then 0 else -115
    ensures |Batched(s, 0, cb).given| == |s.given| + 1
  {
    hide Batched;
    ExchangeEnds(s, cb);
    BatchedEnd(Ended(s, cb), 0, cb);
  }
}
