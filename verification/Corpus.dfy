// The fuzzer's corpus and the weighted choice of a program from it
// (patch/syzkaller/fuzzer.go:55-60, 70-76, 578-598, 608-612).

module Corpus {

  // An input as addInputToCorpus gets it: the program, its hash, and how many signal elements.
  datatype Input = Input(prog: int, sig: int, signal: nat)

  function Prio(x: Input): nat { if x.signal == 0 then 1 else x.signal }

  datatype State = State(corpus: seq<int>, prios: seq<int>, sum: int, hashes: set<int>)

  function Add(s: State, x: Input): State {
    if x.sig in s.hashes then s else
    State(s.corpus + [x.prog], s.prios + [s.sum + Prio(x)], s.sum + Prio(x), s.hashes + {x.sig})
  }

  // ---- What the corpus should be: the first input of every hash, in order ----

  function Sigs(xs: seq<Input>): set<int> { set x | x in xs :: x.sig }

  function Firsts(xs: seq<Input>): seq<Input> {
    if xs == [] then [] else
    var before, x := xs[..|xs| - 1], xs[|xs| - 1];
    Firsts(before) + if x.sig in Sigs(before) then [] else [x]
  }

  function Progs(xs: seq<Input>): (ps: seq<int>)
    ensures |ps| == |xs| && forall i | 0 <= i < |xs| :: ps[i] == xs[i].prog
  {
    seq(|xs|, i requires 0 <= i < |xs| => xs[i].prog)
  }

  function Total(xs: seq<Input>): nat {
    if xs == [] then 0 else Total(xs[..|xs| - 1]) + Prio(xs[|xs| - 1])
  }

  // The corpus holds these programs, and corpusPrios are the prefix sums of their priorities.
  predicate Holds(s: State, kept: seq<Input>) {
    && s.corpus == Progs(kept)
    && |s.prios| == |kept|
    && (forall i | 0 <= i < |kept| :: s.prios[i] == Total(kept[..i + 1]))
    && s.sum == Total(kept)
  }

  function AddAll(xs: seq<Input>): State {
    if xs == [] then State([], [], 0, {}) else Add(AddAll(xs[..|xs| - 1]), xs[|xs| - 1])
  }

  lemma TotalSnoc(kept: seq<Input>, x: Input)
    ensures Total(kept + [x]) == Total(kept) + Prio(x)
  {
    assert (kept + [x])[..|kept|] == kept;
  }

  lemma HoldsSnoc(s: State, kept: seq<Input>, x: Input)
    requires Holds(s, kept) && x.sig !in s.hashes
    ensures Holds(Add(s, x), kept + [x])
  {
    hide Prio, Total;
    var t, more := Add(s, x), kept + [x];
    TotalSnoc(kept, x);
    forall i | 0 <= i < |more| ensures t.prios[i] == Total(more[..i + 1]) {
      if i < |kept| {
        assert more[..i + 1] == kept[..i + 1];
      } else {
        assert more[..i + 1] == more;
      }
    }
    assert t.corpus == Progs(more);
  }

  lemma {:induction false} Matches(xs: seq<Input>)
    ensures Holds(AddAll(xs), Firsts(xs)) && AddAll(xs).hashes == Sigs(xs)
    decreases |xs|
  {
    if xs != [] {
      var before, x := xs[..|xs| - 1], xs[|xs| - 1];
      Matches(before);
      assert xs == before + [x];
      assert Sigs(xs) == Sigs(before) + {x.sig};
      if x.sig in Sigs(before) {
        assert Firsts(before) + [] == Firsts(before);
      } else {
        HoldsSnoc(AddAll(before), Firsts(before), x);
      }
    }
  }

  lemma TotalStep(kept: seq<Input>, i: nat)
    requires i < |kept|
    ensures Total(kept[..i + 1]) == Total(kept[..i]) + Prio(kept[i])
  {
    TotalSnoc(kept[..i], kept[i]);
    assert kept[..i] + [kept[i]] == kept[..i + 1];
  }

  lemma {:induction false} Increasing(kept: seq<Input>, i: nat, j: nat)
    requires i <= j <= |kept|
    ensures Total(kept[..i]) <= Total(kept[..j])
    ensures i < j ==> Total(kept[..i]) < Total(kept[..j])
    decreases j
  {
    hide Total;
    if i < j {
      Increasing(kept, i, j - 1);
      TotalStep(kept, j - 1);
    }
  }

  // After any inputs: the corpus is the deduplicated list, corpusPrios are its prefix sums,
  // strictly increasing, and the last is sumPrios.
  lemma EverySequence(xs: seq<Input>)
    ensures var s, kept := AddAll(xs), Firsts(xs);
            && s.corpus == Progs(kept)
            && |s.prios| == |kept|
            && (forall i | 0 <= i < |kept| :: s.prios[i] == Total(kept[..i + 1]))
            && (forall i, j | 0 <= i < j < |kept| :: s.prios[i] < s.prios[j])
            && s.sum == if kept == [] then 0 else s.prios[|kept| - 1]
  {
    hide AddAll, Firsts, Prio;
    Matches(xs);
    var s, kept := AddAll(xs), Firsts(xs);
    forall i, j | 0 <= i < j < |kept| ensures s.prios[i] < s.prios[j] {
      Increasing(kept, i + 1, j + 1);
    }
    assert kept[..|kept|] == kept;
  }

  // Deduplicated: one entry for every hash, and for no other.
  lemma {:induction false} FirstsDedup(xs: seq<Input>)
    ensures Sigs(Firsts(xs)) == Sigs(xs)
    ensures forall i, j | 0 <= i < j < |Firsts(xs)| :: Firsts(xs)[i].sig != Firsts(xs)[j].sig
    ensures forall x | x in Firsts(xs) :: x in xs
    decreases |xs|
  {
    if xs != [] {
      var before, x := xs[..|xs| - 1], xs[|xs| - 1];
      FirstsDedup(before);
      assert xs == before + [x];
      assert Sigs(xs) == Sigs(before) + {x.sig};
      var f := Firsts(before);
      if x.sig in Sigs(before) {
        assert Firsts(xs) == f;
      } else {
        assert Firsts(xs) == f + [x];
        assert Sigs(f + [x]) == Sigs(f) + {x.sig};
        forall i | 0 <= i < |f| ensures f[i].sig != x.sig {
          assert f[i] in f;
          assert f[i].sig in Sigs(f);
        }
      }
    }
  }

  // ---- The choice ----

  // The index chooseProgram ends up with: the first prefix sum that is not below the random value.
  predicate Chosen(prios: seq<int>, r: int, i: int) {
    && 0 <= i <= |prios|
    && (forall k | 0 <= k < i :: prios[k] < r)
    && (forall k | i <= k < |prios| :: r <= prios[k])
  }

  // Random values from 0 to sumPrios that choose program i.
  ghost function Values(s: State, i: int): set<int> {
    set r | 0 <= r <= s.sum && Chosen(s.prios, r, i)
  }

  function Interval(a: int, b: int): (s: set<int>)
    requires a <= b
    ensures forall r :: r in s <==> a <= r < b
    ensures |s| == b - a
    decreases b - a
  {
    if a == b then {} else {a} + Interval(a + 1, b)
  }

  // The choice is exact: of the sumPrios + 1 random values, program i is chosen by as many as it has
  // signal elements, by one if it has none, the first program by one more.
  lemma Exact(xs: seq<Input>, i: nat)
    requires i < |AddAll(xs).corpus|
    ensures i < |Firsts(xs)|
    ensures var n := Firsts(xs)[i].signal;
            |Values(AddAll(xs), i)| == (if n > 0 then n else 1) + if i == 0 then 1 else 0
  {
    hide AddAll, Firsts;
    Matches(xs);
    ExactFor(AddAll(xs), Firsts(xs), i);
  }

  lemma ChosenBetween(s: State, kept: seq<Input>, i: nat, r: int)
    requires Holds(s, kept) && i < |kept|
    ensures Chosen(s.prios, r, i) <==> (i == 0 || Total(kept[..i]) < r) && r <= Total(kept[..i + 1])
  {
    hide Prio, Total;
    assert s.prios[i] == Total(kept[..i + 1]);
    if i > 0 {
      assert s.prios[i - 1] == Total(kept[..i]) by {
        assert kept[..(i - 1) + 1] == kept[..i];
      }
    }
    if (i == 0 || Total(kept[..i]) < r) && r <= Total(kept[..i + 1]) {
      forall k | 0 <= k < i ensures s.prios[k] < r {
        Increasing(kept, k + 1, i);
      }
      forall k | i <= k < |s.prios| ensures r <= s.prios[k] {
        Increasing(kept, i + 1, k + 1);
      }
    }
  }

  lemma ExactFor(s: State, kept: seq<Input>, i: nat)
    requires Holds(s, kept) && i < |kept|
    ensures |Values(s, i)| == Prio(kept[i]) + if i == 0 then 1 else 0
  {
    hide Prio, Chosen, Total;
    var lo, hi := if i == 0 then 0 else Total(kept[..i]) + 1, Total(kept[..i + 1]) + 1;
    TotalStep(kept, i);
    Increasing(kept, i + 1, |kept|);
    assert kept[..|kept|] == kept;
    TotalNone(kept);
    forall r ensures r in Values(s, i) <==> lo <= r < hi {
      ChosenBetween(s, kept, i, r);
    }
    assert Values(s, i) == Interval(lo, hi);
  }

  lemma TotalNone(kept: seq<Input>)
    ensures Total(kept[..0]) == 0
  {
  }

  // Every random value chooses exactly one program.
  lemma ChoosesOne(xs: seq<Input>, r: int) returns (i: nat)
    requires AddAll(xs).corpus != [] && 0 <= r <= AddAll(xs).sum
    ensures i < |AddAll(xs).corpus|
    ensures forall j :: Chosen(AddAll(xs).prios, r, j) <==> j == i
  {
    hide AddAll, Firsts, Prio, Total;
    EverySequence(xs);
    var prios := AddAll(xs).prios;
    i := 0;
    while prios[i] < r
      invariant i < |prios| && forall k | 0 <= k < i :: prios[k] < r
      decreases |prios| - i
    {
      i := i + 1;
    }
    assert Chosen(prios, r, i);
    forall j | 0 <= j < i ensures !Chosen(prios, r, j) {
      assert prios[j] < r;
    }
    assert forall j | i < j <= |prios| :: !Chosen(prios, r, j);
  }
}
