// The corpus in place (patch/syzkaller/fuzzer.go:578-598, 608-612): slices over growing arrays,
// which snapshots share with the fuzzer.

module CorpusEngine {
  import opened Corpus

  // A Go slice: the first `len` elements of an array.
  datatype Slice = Slice(data: array<int>, len: nat) {
    predicate Fits() { len <= data.Length }

    function View(): seq<int>
      requires Fits()
      reads data
    {
      data[..len]
    }
  }

  // append: writes behind the end if there is room, and otherwise into a larger copy.
  method Append(s: Slice, x: int) returns (t: Slice)
    requires s.Fits()
    modifies s.data
    ensures t.Fits() && t.len == s.len + 1
    ensures t.View() == old(s.View()) + [x]
    ensures t.data == s.data || fresh(t.data)
    ensures forall k | 0 <= k <= s.len :: s.data[..k] == old(s.data[..k])
  {
    if s.len < s.data.Length {
      s.data[s.len] := x;
      t := Slice(s.data, s.len + 1);
    } else {
      var larger := new int[2 * s.len + 1];
      var i := 0;
      while i < s.len
        invariant i <= s.len && larger[..i] == s.data[..i]
        invariant s.data[..] == old(s.data[..])
      {
        larger[i] := s.data[i];
        i := i + 1;
      }
      larger[s.len] := x;
      t := Slice(larger, s.len + 1);
    }
  }

  // sort.Search over a sorted slice: the first index whose element is not below r.
  method Search(prios: Slice, r: int) returns (i: nat)
    requires prios.Fits()
    requires forall a, b | 0 <= a < b < prios.len :: prios.View()[a] < prios.View()[b]
    ensures Chosen(prios.View(), r, i)
  {
    var j := prios.len;
    i := 0;
    while i < j
      invariant i <= j <= prios.len
      invariant forall k | 0 <= k < i :: prios.View()[k] < r
      invariant forall k | j <= k < prios.len :: r <= prios.View()[k]
    {
      var h := (i + j) / 2;
      if !(prios.data[h] >= r) {
        assert prios.View()[h] < r;
        i := h + 1;
      } else {
        assert prios.View()[h] >= r;
        j := h;
      }
    }
  }

  datatype FuzzerSnapshot = FuzzerSnapshot(corpus: Slice, corpusPrios: Slice, sumPrios: int)

  // The snapshot shows the corpus after these inputs.
  ghost predicate Shows(f: FuzzerSnapshot, xs: seq<Input>)
    reads f.corpus.data, f.corpusPrios.data
  {
    && f.corpus.Fits() && f.corpusPrios.Fits()
    && f.corpus.View() == AddAll(xs).corpus
    && f.corpusPrios.View() == AddAll(xs).prios
    && f.sumPrios == AddAll(xs).sum
  }

  method ChooseProgram(f: FuzzerSnapshot, randVal: int, ghost xs: seq<Input>) returns (prog: int, idx: nat)
    requires Shows(f, xs) && f.corpus.len > 0 && 0 <= randVal <= f.sumPrios
    ensures idx < |Firsts(xs)| && prog == Firsts(xs)[idx].prog
    ensures randVal in Values(AddAll(xs), idx)
  {
    hide AddAll, Firsts, Prio, Total;
    EverySequence(xs);
    var i := Search(f.corpusPrios, randVal);
    ghost var j := ChoosesOne(xs, randVal);
    idx := i;
    prog := f.corpus.data[i];
    assert prog == f.corpus.View()[i];
  }

  class FuzzerCorpus {
    var corpus: Slice
    var corpusPrios: Slice
    var sumPrios: int
    var corpusHashes: set<int>
    ghost var inputs: seq<Input>

    ghost predicate Valid()
      reads this, corpus.data, corpusPrios.data
    {
      && corpus.data != corpusPrios.data
      && Shows(FuzzerSnapshot(corpus, corpusPrios, sumPrios), inputs)
      && corpusHashes == AddAll(inputs).hashes
    }

    constructor ()
      ensures Valid() && inputs == []
      ensures fresh(corpus.data) && fresh(corpusPrios.data)
    {
      var a, b := new int[0], new int[0];
      corpus, corpusPrios := Slice(a, 0), Slice(b, 0);
      sumPrios, corpusHashes, inputs := 0, {}, [];
    }

    // addInputToCorpus.
    method AddInput(x: Input)
      requires Valid()
      modifies this, corpus.data, corpusPrios.data
      ensures Valid() && inputs == old(inputs) + [x]
      ensures corpus.data == old(corpus.data) || fresh(corpus.data)
      ensures corpusPrios.data == old(corpusPrios.data) || fresh(corpusPrios.data)
      ensures corpus.len >= old(corpus.len) && corpusPrios.len >= old(corpusPrios.len)
      ensures forall k | 0 <= k <= old(corpus.len) :: old(corpus).data[..k] == old(corpus.data[..k])
      ensures forall k | 0 <= k <= old(corpusPrios.len) :: old(corpusPrios).data[..k] == old(corpusPrios.data[..k])
    {
      hide AddAll, Firsts;
      AddOne(inputs, x);
      inputs := inputs + [x];
      if x.sig !in corpusHashes {
        corpus := Append(corpus, x.prog);
        corpusHashes := corpusHashes + {x.sig};
        var prio: int := x.signal;
        if x.signal == 0 {
          prio := 1;
        }
        sumPrios := sumPrios + prio;
        corpusPrios := Append(corpusPrios, sumPrios);
      }
    }

    method Snapshot() returns (f: FuzzerSnapshot)
      requires Valid()
      ensures Shows(f, inputs)
      ensures f.corpus == corpus && f.corpusPrios == corpusPrios
    {
      f := FuzzerSnapshot(corpus, corpusPrios, sumPrios);
    }

    // A snapshot goes on choosing by the corpus it was taken of, however much is added later.
    method ChooseLater(more: seq<Input>, randVal: int) returns (prog: int, idx: nat)
      requires Valid() && corpus.len > 0 && 0 <= randVal <= sumPrios
      modifies this, corpus.data, corpusPrios.data
      ensures Valid() && inputs == old(inputs) + more
      ensures idx < |Firsts(old(inputs))| && prog == Firsts(old(inputs))[idx].prog
      ensures randVal in Values(AddAll(old(inputs)), idx)
    {
      hide AddAll, Firsts, Values;
      var f := Snapshot();
      var i := 0;
      while i < |more|
        invariant i <= |more| && Valid() && inputs == old(inputs) + more[..i]
        invariant Shows(f, old(inputs))
        invariant corpus.data == f.corpus.data || fresh(corpus.data)
        invariant corpusPrios.data == f.corpusPrios.data || fresh(corpusPrios.data)
        invariant corpus.len >= f.corpus.len && corpusPrios.len >= f.corpusPrios.len
      {
        AddInput(more[i]);
        i := i + 1;
      }
      prog, idx := ChooseProgram(f, randVal, old(inputs));
    }
  }

  lemma AddOne(xs: seq<Input>, x: Input)
    ensures AddAll(xs + [x]) == Add(AddAll(xs), x)
  {
    assert (xs + [x])[..|xs|] == xs;
  }
}
