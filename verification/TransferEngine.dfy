// `transfer` and `dummy_perform_transfer` on the driver's own objects: a URB with a linear or
// a scattered buffer, and an endpoint whose request queue is edited in place.  Both are
// proved against the specification `Transfer.Batched`.

module TransferEngine {
  import opened Modular
  import opened Transfer
  import opened ScatterGather

  lemma Cut(a: seq<Byte>, b: seq<Byte>, c: seq<Byte>, n: nat)
    requires n <= |c|
    ensures (a + b + c)[..|a| + |b|] == a + b
    ensures (a + b + c)[|a| + |b|..|a| + |b| + n] == c[..n]
  {
  }

  lemma CutAgain(data: seq<Byte>, i: nat, j: nat, k: nat)
    requires i <= j <= k <= |data|
    ensures data[i..k][..j - i] == data[i..j] && data[i..k][j - i..] == data[j..k]
    ensures data[j..][..k - j] == data[j..k] && data[..i] + data[i..j] == data[..j]
  {
  }

  // Overwriting `len` bytes in the middle is a step over them.
  lemma Spliced(data: seq<Byte>, actual: nat, length: nat, src: seq<Byte>)
    requires actual + |src| <= length <= |data|
    ensures var data' := data[..actual] + src + data[actual + |src|..];
            && |data'| == |data|
            && Buffer(data'[..actual + |src|], data'[actual + |src|..length])
            == Buffer(data[..actual], data[actual..length]).Step(true, src, |src|)
  {
    var next := actual + |src|;
    Cut(data[..actual], src, data[next..], length - next);
    CutAgain(data, actual, next, length);
    assert src[..|src|] == src;
  }

  lemma Skipped(data: seq<Byte>, actual: nat, length: nat, len: nat)
    requires actual + len <= length <= |data|
    ensures var src := data[actual..actual + len];
            && src == data[actual..length][..len]
            && Buffer(data[..actual + len], data[actual + len..length])
            == Buffer(data[..actual], data[actual..length]).Step(false, src, len)
  {
    CutAgain(data, actual, actual + len, length);
  }

  class Urb {
    const toHost: bool
    const zeroPacket: bool
    const length: nat
    const miter: SgMiter?
    var data: seq<Byte>
    var actual: nat
    var status: int

    ghost predicate Valid()
      reads this`data, this`actual, miter
    {
      && actual <= length
      && (miter == null ==> length <= |data|)
      && (miter != null ==> miter.Valid() && |miter.View().past| == actual && length - actual <= |miter.View().left|)
    }

    // The bytes of the transfer, cut at `actual`.
    ghost function View(): (b: Buffer)
      requires Valid()
      reads this`data, this`actual, miter
      ensures |b.past| == actual && |b.left| == length - actual
    {
      if miter == null then Buffer(data[..actual], data[actual..length])
      else Buffer(miter.View().past, miter.View().left[..length - actual])
    }

    constructor Linear(toHost: bool, zeroPacket: bool, length: nat, data: seq<Byte>)
      requires length <= |data|
      ensures Valid() && miter == null && status == -EINPROGRESS
      ensures View() == Buffer([], data[..length])
    {
      this.toHost, this.zeroPacket, this.length, this.data := toHost, zeroPacket, length, data;
      miter, actual, status := null, 0, -EINPROGRESS;
    }

    constructor Scattered(toHost: bool, zeroPacket: bool, length: nat, pieces: seq<seq<Byte>>)
      requires length <= |Flatten(pieces)|
      ensures Valid() && fresh(miter) && status == -EINPROGRESS
      ensures View() == Buffer([], Flatten(pieces)[..length])
    {
      var m := new SgMiter(pieces);
      this.toHost, this.zeroPacket, this.length, this.data := toHost, zeroPacket, length, [];
      miter, actual, status := m, 0, -EINPROGRESS;
    }

    // The two branches of dummy_perform_transfer, each followed by the advance of `actual`.
    method CopyLinear(rbuf: seq<Byte>, len: nat) returns (src: seq<Byte>)
      requires Valid() && miter == null && len <= length - actual && (toHost ==> |rbuf| == len)
      modifies this`data, this`actual
      ensures Valid() && len <= |old(View()).left| && |src| == len
      ensures src == if toHost then rbuf else old(View()).left[..len]
      ensures View() == old(View()).Step(toHost, src, len)
    {
      if toHost {
        src := rbuf;
        Spliced(data, actual, length, src);
        data := data[..actual] + src + data[actual + len..];
      } else {
        src := data[actual..actual + len];
        Skipped(data, actual, length, len);
      }
      actual := actual + len;
    }

    method CopyScattered(rbuf: seq<Byte>, len: nat) returns (src: seq<Byte>)
      requires Valid() && miter != null && 0 < len <= length - actual && (toHost ==> |rbuf| == len)
      modifies this`actual, miter
      ensures Valid() && len <= |old(View()).left| && |src| == len
      ensures src == if toHost then rbuf else old(View()).left[..len]
      ensures View() == old(View()).Step(toHost, src, len)
    {
      ghost var before, left := miter.View(), length - actual;
      var trans;
      trans, src := miter.Copy(toHost, rbuf, len);
      actual := actual + len;
      assert before.left[..left][..len] == before.left[..len];
      assert before.left[..left][len..] == before.left[len..][..left - len];
    }

    // dummy_perform_transfer, together with the advance of both counts that follows it.
    method PerformTransfer(req: Request, len: nat) returns (req': Request)
      requires Valid() && 0 < len <= length - actual && len <= |req.buf.left|
      modifies this`data, this`actual, miter
      ensures Valid() && len <= |old(View()).left|
      ensures View() == old(View()).Step(toHost, req.buf.left, len)
      ensures req' == req.(buf := req.buf.Step(!toHost, old(View()).left, len))
    {
      var rbuf, src := if toHost then req.buf.left[..len] else [], [];
      if miter == null {
        src := CopyLinear(rbuf, len);
      } else {
        src := CopyScattered(rbuf, len);
      }
      req' := req.(buf := req.buf.Step(!toHost, src, len));
    }
  }

  class Endpoint {
    const maxpacket: nat
    var queue: seq<Request>

    constructor (maxpacket: nat)
      requires maxpacket > 0
      ensures this.maxpacket == maxpacket && queue == []
    {
      this.maxpacket, queue := maxpacket, [];
    }

    // The state `transfer` works on, as a value.
    ghost function State(urb: Urb, limit: nat, given: seq<Given>): Xfer
      requires urb.Valid()
      reads this, urb, urb.miter
    {
      Xfer(urb.View(), urb.toHost, urb.zeroPacket, urb.status, maxpacket, queue, limit, given)
    }

    // The second half of the loop body of transfer: statuses and the giveback.  `s` is the
    // state after the move.
    method Close(urb: Urb, i: nat, hostLen: nat, devLen: nat, isShort: bool, given: seq<Given>, callback: Callback,
                 ghost s: Xfer)
      returns (given': seq<Given>, rescan: bool)
      requires urb.Valid() && i < |queue| && InProgress(s) && s == State(urb, s.limit, given)
      modifies this`queue, urb`status
      ensures urb.Valid()
      ensures State(urb, s.limit, given')
           == if isShort then CloseShort(s, i, hostLen, devLen, callback) else Settle(s, i, callback)
      ensures rescan || urb.status != -EINPROGRESS <==> isShort || DevLeft(s, i) == 0 || HostLeft(s) == 0
    {
      hide Urb.View, Urb.Valid;
      var req, reqStatus := queue[i], -EINPROGRESS;
      given', rescan := given, false;
      if isShort {
        urb.status := 0;
        reqStatus := 0;
        if hostLen != devLen {
          if urb.toHost {
            if devLen > hostLen { urb.status := -EOVERFLOW; }
          } else {
            if hostLen > devLen { reqStatus := -EOVERFLOW; }
          }
        }
      } else {
        if |req.buf.left| == 0 {
          if req.zero && urb.toHost { rescan := true; } else { reqStatus := 0; }
        }
        if urb.actual == urb.length {
          if urb.zeroPacket && !urb.toHost { rescan := true; } else { urb.status := 0; }
        }
      }
      if reqStatus != -EINPROGRESS {
        var done := Given(req, reqStatus);
        given' := given + [done];
        queue := callback(|given|, done, queue[..i] + queue[i + 1..]);
        rescan := true;
      }
    }

    // The copy in the loop body of transfer, when there is something to copy.
    method Exchange(urb: Urb, i: nat, len: nat, ghost s: Xfer)
      requires urb.Valid() && Movable(s, i, len) && s == State(urb, s.limit, s.given)
      modifies this`queue, urb`data, urb`actual, urb.miter
      ensures urb.Valid() && State(urb, s.limit - len, s.given) == Move(s, i, len)
    {
      hide Urb.View, Urb.Valid, Buffer.Step;
      if len == 0 {
        MoveNothing(s, i);
        return;
      }
      var req := urb.PerformTransfer(queue[i], len);
      queue := queue[i := req];
    }

    // How much the loop body of transfer copies, and whether that is a short packet.
    method Plan(hostLen: nat, devLen: nat, left: nat) returns (len: nat, isShort: bool, rescan: bool, stalled: bool)
      requires maxpacket > 0
      ensures var all := Min(hostLen, devLen);
              var fits := Min(all, left);
              && (stalled <==> all != 0 && left < maxpacket && left < all)
              && len <= fits
              && (!stalled ==> isShort == (fits < maxpacket) && rescan == (len != fits)
                               && len == if isShort then all else RoundDown(fits, maxpacket))
    {
      len := if hostLen < devLen then hostLen else devLen;
      isShort, rescan, stalled := true, false, false;
      if len != 0 {
        if left < maxpacket && left < len {
          return 0, true, false, true;
        }
        len := if len < left then len else left;
        if len >= maxpacket {
          RoundDownIsMod(len, maxpacket);
          isShort, rescan := false, len % maxpacket != 0;
          len := len - len % maxpacket;
        }
      }
    }

    // The loop body of transfer for queue entry i.  `stalled` is the break for want of bandwidth.
    method Turn(urb: Urb, i: nat, left: nat, given: seq<Given>, callback: Callback)
      returns (len: nat, given': seq<Given>, stalled: bool, rescan: bool)
      requires urb.Valid() && urb.status == -EINPROGRESS && maxpacket > 0 && i < |queue|
      modifies this`queue, urb`data, urb`actual, urb`status, urb.miter
      ensures urb.Valid() && len <= left
      ensures var s, t := old(State(urb, left, given)), State(urb, left - len, given');
              && (!stalled ==> Batched(s, i, callback) == Batched(t, if rescan then 0 else i + 1, callback))
              && (stalled ==> t == s && Batched(s, i, callback) == s)
              && (!stalled && InProgress(t) ==> HostLeft(t) < HostLeft(s))
    {
      hide Batched, CloseShort, Settle, Complete, RoundDown, WholePackets, Urb.View, Urb.Valid, Buffer.Step;
      ghost var s := State(urb, left, given);
      var hostLen, devLen := urb.length - urb.actual, |queue[i].buf.left|;
      var isShort;
      len, isShort, rescan, stalled := Plan(hostLen, devLen, left);
      BatchedEntry(s, i, callback);
      if stalled {
        len, given' := 0, given;
        return;
      }
      Exchange(urb, i, len, s);
      ghost var moved := Move(s, i, len);
      var again;
      given', again := Close(urb, i, hostLen, devLen, isShort, given, callback, moved);
      rescan := rescan || again;
      if urb.status != -EINPROGRESS {
        BatchedEnd(State(urb, left - len, given'), 0, callback);
        BatchedEnd(State(urb, left - len, given'), i + 1, callback);
      }
    }

    // transfer
    method Transfer(urb: Urb, limit: nat, callback: Callback) returns (sent: nat, given: seq<Given>)
      requires urb.Valid() && urb.status == -EINPROGRESS && maxpacket > 0
      modifies this`queue, urb`data, urb`actual, urb`status, urb.miter
      ensures urb.Valid() && sent <= limit
      ensures State(urb, limit - sent, given) == Batched(old(State(urb, limit, [])), 0, callback)
    {
      hide Batched, Urb.View, Urb.Valid;
      var i := 0;
      sent, given := 0, [];
      ghost var goal := Batched(State(urb, limit, []), 0, callback);
      while i < |queue|
        invariant urb.Valid() && urb.status == -EINPROGRESS && sent <= limit
        invariant Batched(State(urb, limit - sent, given), i, callback) == goal
        decreases urb.length - urb.actual
      {
        var len, stalled, rescan;
        len, given, stalled, rescan := Turn(urb, i, limit - sent, given, callback);
        sent := sent + len;
        if stalled { return; }
        i := if rescan then 0 else i + 1;
        if urb.status != -EINPROGRESS { break; }
      }
      BatchedEnd(State(urb, limit - sent, given), i, callback);
    }
  }
}
