// The scatter-gather cursor behind one URB.  `dummy_perform_transfer` copies through a
// mapping iterator (sg_miter) that is kept across calls; here it is shown to behave as a
// position in the flattened buffer.

module ScatterGather {
  import opened Transfer

  const EINVAL := 22

  function Flatten(pieces: seq<seq<Byte>>): seq<Byte> {
    if pieces == [] then [] else pieces[0] + Flatten(pieces[1..])
  }

  lemma {:induction false} FlattenSnoc(pieces: seq<seq<Byte>>, last: seq<Byte>)
    ensures Flatten(pieces + [last]) == Flatten(pieces) + last
  {
    if pieces == [] {
      assert (pieces + [last])[1..] == [];
    } else {
      FlattenSnoc(pieces[1..], last);
      assert (pieces + [last])[1..] == pieces[1..] + [last];
    }
  }

  // Two copies in a row are one copy, and copying nothing changes nothing.
  lemma CopiedMore(start: Buffer, toHost: bool, source: seq<Byte>, m: nat, n: nat)
    requires m + n <= |source| && m + n <= |start.left|
    ensures source[..m] + source[m..][..n] == source[..m + n]
    ensures start.Step(toHost, source, m).Step(toHost, source[m..], n) == start.Step(toHost, source, m + n)
    ensures start.Step(toHost, source, 0) == start
  {
    start.StepTwice(toHost, source, m, n);
    assert source[..m] + source[m..][..n] == source[..m + n];
  }

  // The iterator: the mapped pieces, how many of them were entered, and the offset in the last.
  class SgMiter {
    var pieces: seq<seq<Byte>>
    var entered: nat
    var offset: nat

    ghost predicate Valid()
      reads this
    {
      entered <= |pieces| && offset <= if entered == 0 then 0 else |pieces[entered - 1]|
    }

    // The flattened list, cut at the cursor.
    ghost function View(): Buffer
      requires Valid()
      reads this
    {
      if entered == 0 then Buffer([], Flatten(pieces))
      else Buffer(Flatten(pieces[..entered - 1]) + pieces[entered - 1][..offset],
                  pieces[entered - 1][offset..] + Flatten(pieces[entered..]))
    }

    constructor (pieces: seq<seq<Byte>>)
      ensures Valid() && View() == Buffer([], Flatten(pieces))
    {
      this.pieces, entered, offset := pieces, 0, 0;
    }

    // sg_miter_next: stays in the current piece while bytes remain there, else enters the next.
    method Next() returns (more: bool)
      requires Valid()
      modifies this`entered, this`offset
      ensures Valid() && View() == old(View())
      ensures more ==> entered > 0
      ensures !more ==> View().left == []
      ensures old(entered) <= entered
      ensures more && entered == old(entered) ==> old(offset) < |pieces[entered - 1]|
    {
      if entered > 0 && offset < |pieces[entered - 1]| { return true; }
      if entered == |pieces| {
        if entered > 0 { assert pieces[entered..] == []; }
        return false;
      }
      if entered > 0 {
        FlattenSnoc(pieces[..entered - 1], pieces[entered - 1]);
        assert pieces[..entered] == pieces[..entered - 1] + [pieces[entered - 1]];
        assert pieces[entered - 1][..offset] == pieces[entered - 1];
        assert pieces[entered..][1..] == pieces[entered + 1..];
      }
      entered, offset := entered + 1, 0;
      return true;
    }

    // Writes `src` into the current piece at the offset, and consumes it.
    method Put(src: seq<Byte>)
      requires Valid() && entered > 0 && offset + |src| <= |pieces[entered - 1]|
      modifies this`pieces, this`offset
      ensures Valid() && |src| <= |old(View()).left| && View() == old(View()).Step(true, src, |src|)
      ensures |pieces| == old(|pieces|) && offset == old(offset) + |src|
      ensures |pieces[entered - 1]| == old(|pieces[entered - 1]|)
    {
      var p := pieces[entered - 1];
      ghost var past, rest := Flatten(pieces[..entered - 1]), Flatten(pieces[entered..]);
      pieces := pieces[entered - 1 := p[..offset] + src + p[offset + |src|..]];
      offset := offset + |src|;
      assert pieces[..entered - 1] == old(pieces[..entered - 1]) && pieces[entered..] == old(pieces[entered..]);
      assert pieces[entered - 1][..offset] == p[..old(offset)] + src;
      assert pieces[entered - 1][offset..] == p[offset..];
      assert View().past == past + (p[..old(offset)] + src) == old(View()).past + src;
      assert View().left == p[offset..] + rest == old(View()).left[|src|..];
    }

    // Reads `n` bytes from the current piece at the offset, and consumes them.
    method Get(n: nat) returns (src: seq<Byte>)
      requires Valid() && entered > 0 && offset + n <= |pieces[entered - 1]|
      modifies this`offset
      ensures Valid() && n <= |old(View()).left| && View() == old(View()).Step(false, old(View()).left, n)
      ensures src == old(View()).left[..n] && offset == old(offset) + n
    {
      var p := pieces[entered - 1];
      src := p[offset..offset + n];
      offset := offset + n;
      assert p[..offset] == p[..old(offset)] + src;
      assert p[offset..] == p[old(offset)..][n..];
    }

    // What a copy reads from: the other side's buffer, or the list itself.
    ghost function Source(toHost: bool, rbuf: seq<Byte>): seq<Byte>
      requires Valid()
      reads this
    {
      if toHost then rbuf else View().left
    }

    // Copies at most `todo` bytes between the current piece and `rbuf`.
    method CopyPiece(toHost: bool, rbuf: seq<Byte>, todo: nat) returns (src: seq<Byte>)
      requires Valid() && entered > 0 && (toHost ==> todo <= |rbuf|)
      modifies this
      ensures Valid() && entered == old(entered) && |pieces| == old(|pieces|)
      ensures |src| <= todo && |src| <= |old(View()).left|
      ensures |src| < todo ==> offset == |pieces[entered - 1]|
      ensures src == old(Source(toHost, rbuf))[..|src|]
      ensures View() == old(View()).Step(toHost, old(Source(toHost, rbuf)), |src|)
    {
      var room := |pieces[entered - 1]| - offset;
      var thisSg := if todo < room then todo else room;
      if toHost {
        src := rbuf[..thisSg];
        Put(src);
      } else {
        src := Get(thisSg);
      }
    }

    // The scatter-gather branch of dummy_perform_transfer: copies `len` bytes between the list
    // and `rbuf`, piece by piece.  Fails exactly when the list is shorter than that, after
    // having copied what there was.
    method Copy(toHost: bool, rbuf: seq<Byte>, len: nat) returns (trans: int, copied: seq<Byte>)
      requires Valid() && 0 < len && (toHost ==> len == |rbuf|)
      modifies this
      ensures Valid()
      ensures trans == if len <= |old(View()).left| then len else -EINVAL
      ensures |copied| == if trans == len then len else |old(View()).left|
      ensures copied == old(Source(toHost, rbuf))[..|copied|]
      ensures View() == old(View()).Step(toHost, old(Source(toHost, rbuf)), |copied|)
    {
      hide View, Flatten, Buffer.Step;
      ghost var start, source := View(), Source(toHost, rbuf);
      CopiedMore(start, toHost, source, 0, 0);
      copied := [];
      var done := 0;
      var more := Next();
      while more
        invariant Valid() && done == |copied| < len && done <= |start.left|
        invariant more ==> entered > 0
        invariant copied == source[..done] && View() == start.Step(toHost, source, done)
        invariant !more ==> View().left == []
        decreases len - done, |pieces| - entered, more
      {
        ghost var rest := source[done..];
        var src := CopyPiece(toHost, if toHost then rbuf[done..] else [], len - done);
        assert src == rest[..|src|];
        CopiedMore(start, toHost, source, done, |src|);
        copied, done := copied + src, done + |src|;
        if done == len { return len, copied; }
        more := Next();
      }
      trans := -EINVAL;
    }
  }
}
