// How coverage signal spreads between the fuzzers and the manager (patch/syzkaller/rpc.go:79-91
// Connect, 147-171 Poll; patch/syzkaller/fuzzer.go:517-532 poll, 588-606 addInputToCorpus,
// 614-632 addMaxSignal and grabNewSignal, 652-664 checkNewCallSignal).  The signal package is not
// part of the repository: a signal maps elements to priorities.

module MaxSignal {

  type Signal = map<int, int>

  const SPLIT: nat := 500

  predicate Has(s: Signal, e: int, p: int) { e in s && p <= s[e] }

  function Merge(a: Signal, b: Signal): (m: Signal)
    ensures m.Keys == a.Keys + b.Keys
    ensures forall e, p :: Has(m, e, p) <==> Has(a, e, p) || Has(b, e, p)
    ensures forall e | e in m :: (e in a && m[e] == a[e]) || (e in b && m[e] == b[e])
  {
    map e | e in a.Keys + b.Keys :: if e in a && (e in b ==> b[e] <= a[e]) then a[e] else b[e]
  }

  // The entries of b that are better than those of a.
  function Diff(a: Signal, b: Signal): (d: Signal)
    ensures forall e :: e in d <==> e in b && !Has(a, e, b[e])
    ensures forall e | e in d :: d[e] == b[e]
  {
    map e | e in b && !(e in a && b[e] <= a[e]) :: b[e]
  }

  function DiffRaw(a: Signal, raw: set<int>, prio: int): (d: Signal)
    ensures d == Diff(a, Uniform(raw, prio))
  {
    map e | e in raw && !(e in a && prio <= a[e]) :: prio
  }

  function Uniform(raw: set<int>, prio: int): Signal { map e | e in raw :: prio }

  function Restrict(s: Signal, keys: set<int>): Signal { map e | e in s && e in keys :: s[e] }

  // ---- The protocol ----

  // A fuzzer between two polls, waiting for the manager, or with an answer not merged yet.
  datatype Phase = Idle | Asking(request: Signal) | Answered(reply: Signal)

  datatype Fuzzer = Fuzzer(max: Signal, found: Signal, corpus: Signal, phase: Phase)

  // The manager's maxSignal, its newMaxSignal for every connected fuzzer, and the fuzzers.
  datatype System = System(max: Signal, backlog: map<int, Signal>, fuzzers: map<int, Fuzzer>)

  datatype Event =
    | Connect(f: int)                       // a (re)started fuzzer connects
    | Find(f: int, diff: Signal)            // checkNewCallSignal has a non-empty diff
    | AddInput(f: int, sign: Signal)        // addInputToCorpus
    | Grab(f: int)                          // grabNewSignal, and the call of Manager.Poll
    | Serve(f: int, keys: set<int>)         // RPCServer.Poll; `keys` are those Split takes
    | Receive(f: int)                       // addMaxSignal with the answer

  function Empty(): Fuzzer { Fuzzer(map[], map[], map[], Idle) }

  predicate SplitTakes(backlog: Signal, keys: set<int>) {
    keys <= backlog.Keys && |keys| == if |backlog| < SPLIT then |backlog| else SPLIT
  }

  predicate Enabled(s: System, e: Event) {
    match e
    case Connect(f) => true
    case Find(f, diff) => f in s.fuzzers
    case AddInput(f, sign) => f in s.fuzzers
    case Grab(f) => f in s.fuzzers && s.fuzzers[f].phase == Idle
    case Serve(f, keys) =>
      f in s.fuzzers && f in s.backlog && s.fuzzers[f].phase.Asking? &&
      SplitTakes(s.backlog[f], keys)
    case Receive(f) => f in s.fuzzers && s.fuzzers[f].phase.Answered?
  }

  // Poll in the manager: it is `told` something by f.
  function ToldMax(max: Signal, told: Signal): Signal { Merge(max, Diff(max, told)) }

  function ToldBacklog(max: Signal, backlog: map<int, Signal>, f: int, told: Signal): (b: map<int, Signal>)
    ensures b.Keys == backlog.Keys
    ensures f in backlog ==> b[f] == backlog[f]
    ensures forall g | g in backlog && g != f :: b[g] == Merge(backlog[g], Diff(max, told))
  {
    map g | g in backlog :: if g == f then backlog[g] else Merge(backlog[g], Diff(max, told))
  }

  function Served(s: System, f: int, keys: set<int>): System
    requires f in s.fuzzers && f in s.backlog && s.fuzzers[f].phase.Asking?
  {
    var told := s.fuzzers[f].phase.request;
    var b := ToldBacklog(s.max, s.backlog, f, told);
    System(ToldMax(s.max, told), b[f := b[f] - keys],
           s.fuzzers[f := s.fuzzers[f].(phase := Answered(Restrict(b[f], keys)))])
  }

  function Step(s: System, e: Event): System
    requires Enabled(s, e)
  {
    match e
    case Connect(f) => s.(backlog := s.backlog[f := s.max], fuzzers := s.fuzzers[f := Empty()])
    case Find(f, diff) =>
      var x := s.fuzzers[f];
      s.(fuzzers := s.fuzzers[f := x.(max := Merge(x.max, diff), found := Merge(x.found, diff))])
    case AddInput(f, sign) =>
      var x := s.fuzzers[f];
      s.(fuzzers := s.fuzzers[f := x.(max := Merge(x.max, sign), corpus := Merge(x.corpus, sign))])
    case Grab(f) =>
      var x := s.fuzzers[f];
      s.(fuzzers := s.fuzzers[f := x.(found := map[], phase := Asking(x.found))])
    case Serve(f, keys) => Served(s, f, keys)
    case Receive(f) =>
      var x := s.fuzzers[f];
      s.(fuzzers := s.fuzzers[f := x.(max := Merge(x.max, x.phase.reply), phase := Idle)])
  }

  predicate Valid(s: System, es: seq<Event>)
    decreases |es|
  {
    es == [] || (Enabled(s, es[0]) && Valid(Step(s, es[0]), es[1..]))
  }

  function Run(s: System, es: seq<Event>): System
    requires Valid(s, es)
    decreases |es|
  {
    if es == [] then s else Run(Step(s, es[0]), es[1..])
  }

  const INITIAL := System(map[], map[], map[])

  // ---- What every step keeps ----

  function Request(x: Fuzzer): Signal { if x.phase.Asking? then x.phase.request else map[] }

  function Reply(x: Fuzzer): Signal { if x.phase.Answered? then x.phase.reply else map[] }

  // What the manager knows the fuzzer knows, or is being told, or has waiting for it.
  predicate NothingLost(max: Signal, backlog: Signal, x: Fuzzer) {
    forall e | e in max :: Has(x.max, e, max[e]) || Has(Reply(x), e, max[e]) || Has(backlog, e, max[e])
  }

  // What waits for a fuzzer the manager knows.
  predicate Bounded(max: Signal, backlog: Signal, x: Fuzzer) {
    && (forall e | e in backlog :: Has(max, e, backlog[e]))
    && (forall e | e in Reply(x) :: Has(max, e, Reply(x)[e]))
  }

  // What a fuzzer is about to tell it knows itself.
  predicate Remembers(x: Fuzzer) {
    && (forall e | e in x.found :: Has(x.max, e, x.found[e]))
    && (forall e | e in Request(x) :: Has(x.max, e, Request(x)[e]))
  }

  // What a fuzzer knows the manager knows, or will be told, or is in the fuzzer's corpus.
  predicate NothingHidden(max: Signal, x: Fuzzer) {
    forall e | e in x.max ::
      Has(max, e, x.max[e]) || Has(x.found, e, x.max[e]) || Has(Request(x), e, x.max[e]) || Has(x.corpus, e, x.max[e])
  }

  predicate Good(max: Signal, backlog: Signal, x: Fuzzer) {
    NothingLost(max, backlog, x) && Bounded(max, backlog, x) && Remembers(x) && NothingHidden(max, x)
  }

  predicate Inv(s: System) {
    s.backlog.Keys == s.fuzzers.Keys && forall f | f in s.fuzzers :: Good(s.max, s.backlog[f], s.fuzzers[f])
  }

  lemma ConnectGood(max: Signal)
    ensures Good(max, max, Empty())
  {
  }

  // A fuzzer that knows more loses nothing.
  lemma KnowsMore(max: Signal, backlog: Signal, x: Fuzzer, y: Fuzzer)
    requires NothingLost(max, backlog, x) && Bounded(max, backlog, x) && Reply(y) == Reply(x)
    requires forall e, p :: Has(x.max, e, p) ==> Has(y.max, e, p)
    ensures NothingLost(max, backlog, y) && Bounded(max, backlog, y)
  {
  }

  lemma StillRemembers(x: Fuzzer, y: Fuzzer)
    requires Remembers(x) && y.found == x.found && Request(y) == Request(x)
    requires forall e, p :: Has(x.max, e, p) ==> Has(y.max, e, p)
    ensures Remembers(y)
  {
  }

  lemma FoundRemembered(x: Fuzzer, y: Fuzzer, diff: Signal)
    requires Remembers(x) && Request(y) == Request(x)
    requires y.max == Merge(x.max, diff) && y.found == Merge(x.found, diff)
    ensures Remembers(y)
  {
    hide Merge;
  }

  lemma FoundNotHidden(max: Signal, x: Fuzzer, y: Fuzzer, diff: Signal)
    requires NothingHidden(max, x) && Request(y) == Request(x) && y.corpus == x.corpus
    requires y.max == Merge(x.max, diff) && y.found == Merge(x.found, diff)
    ensures NothingHidden(max, y)
  {
    hide Merge;
  }

  lemma InputNotHidden(max: Signal, x: Fuzzer, y: Fuzzer, sign: Signal)
    requires NothingHidden(max, x) && Request(y) == Request(x) && y.found == x.found
    requires y.max == Merge(x.max, sign) && y.corpus == Merge(x.corpus, sign)
    ensures NothingHidden(max, y)
  {
    hide Merge;
  }

  lemma FindGood(max: Signal, backlog: Signal, x: Fuzzer, diff: Signal)
    requires Good(max, backlog, x)
    ensures Good(max, backlog, x.(max := Merge(x.max, diff), found := Merge(x.found, diff)))
  {
    hide Merge, NothingLost, Bounded, Remembers, NothingHidden;
    var y := x.(max := Merge(x.max, diff), found := Merge(x.found, diff));
    assert Reply(y) == Reply(x) && Request(y) == Request(x);
    KnowsMore(max, backlog, x, y);
    assert Remembers(y) by { FoundRemembered(x, y, diff); }
    assert NothingHidden(max, y) by { FoundNotHidden(max, x, y, diff); }
  }

  lemma AddInputGood(max: Signal, backlog: Signal, x: Fuzzer, sign: Signal)
    requires Good(max, backlog, x)
    ensures Good(max, backlog, x.(max := Merge(x.max, sign), corpus := Merge(x.corpus, sign)))
  {
    hide Merge, NothingLost, Bounded, Remembers, NothingHidden;
    var y := x.(max := Merge(x.max, sign), corpus := Merge(x.corpus, sign));
    assert Reply(y) == Reply(x) && Request(y) == Request(x);
    KnowsMore(max, backlog, x, y);
    assert Remembers(y) by { StillRemembers(x, y); }
    assert NothingHidden(max, y) by { InputNotHidden(max, x, y, sign); }
  }

  lemma GrabGood(max: Signal, backlog: Signal, x: Fuzzer)
    requires Good(max, backlog, x) && x.phase == Idle
    ensures Good(max, backlog, x.(found := map[], phase := Asking(x.found)))
  {
  }

  lemma ReceiveGood(max: Signal, backlog: Signal, x: Fuzzer)
    requires Good(max, backlog, x) && x.phase.Answered?
    ensures Good(max, backlog, x.(max := Merge(x.max, x.phase.reply), phase := Idle))
  {
    hide Merge;
    var y := x.(max := Merge(x.max, x.phase.reply), phase := Idle);
    assert Reply(x) == x.phase.reply && Reply(y) == map[] && Request(y) == Request(x);
  }

  // The manager learns `better`, and so does the backlog of a fuzzer that did not tell it.
  lemma OtherGood(max: Signal, backlog: Signal, x: Fuzzer, better: Signal)
    requires Good(max, backlog, x)
    ensures Good(Merge(max, better), Merge(backlog, better), x)
  {
    hide Merge;
  }

  lemma ServedGood(max: Signal, backlog: Signal, x: Fuzzer, keys: set<int>)
    requires Good(max, backlog, x) && x.phase.Asking?
    ensures Good(Merge(max, Diff(max, x.phase.request)), backlog - keys, x.(phase := Answered(Restrict(backlog, keys))))
  {
    hide Merge, Diff;
    var request, reply := x.phase.request, Restrict(backlog, keys);
    var better := Diff(max, request);
    var max', y := Merge(max, better), x.(phase := Answered(reply));
    assert Request(x) == request && Reply(x) == map[] && Request(y) == map[] && Reply(y) == reply;
    assert forall e, p :: Has(backlog, e, p) ==> Has(reply, e, p) || Has(backlog - keys, e, p);
    assert forall e, p :: Has(request, e, p) ==> Has(max', e, p);
  }

  lemma StepKeeps(s: System, e: Event)
    requires Inv(s) && Enabled(s, e)
    ensures Inv(Step(s, e))
  {
    hide Good, Merge, Diff, Restrict, SplitTakes, ToldBacklog;
    var t := Step(s, e);
    forall f | f in t.fuzzers ensures f in t.backlog && Good(t.max, t.backlog[f], t.fuzzers[f]) {
      if f == e.f {
        match e {
          case Connect(_) => ConnectGood(s.max);
          case Find(_, diff) => FindGood(s.max, s.backlog[f], s.fuzzers[f], diff);
          case AddInput(_, sign) => AddInputGood(s.max, s.backlog[f], s.fuzzers[f], sign);
          case Grab(_) => GrabGood(s.max, s.backlog[f], s.fuzzers[f]);
          case Serve(_, keys) => ServedGood(s.max, s.backlog[f], s.fuzzers[f], keys);
          case Receive(_) => ReceiveGood(s.max, s.backlog[f], s.fuzzers[f]);
        }
      } else if e.Serve? {
        OtherGood(s.max, s.backlog[f], s.fuzzers[f], Diff(s.max, s.fuzzers[e.f].phase.request));
      }
    }
  }

  lemma {:induction false} RunKeeps(s: System, es: seq<Event>)
    requires Inv(s) && Valid(s, es)
    ensures Inv(Run(s, es))
    decreases |es|
  {
    hide Inv, Step, Enabled;
    if es != [] {
      StepKeeps(s, es[0]);
      RunKeeps(Step(s, es[0]), es[1..]);
    }
  }

  // No signal is lost, over all runs and for every connected fuzzer: what the manager knows is
  // known to the fuzzer, in the answer it has not read, or in its backlog, and what it has found
  // itself is known to the manager or on its way there.
  lemma EveryRun(es: seq<Event>, f: int)
    requires Valid(INITIAL, es) && f in Run(INITIAL, es).fuzzers
    ensures var s := Run(INITIAL, es);
            && f in s.backlog
            && var x, b := s.fuzzers[f], s.backlog[f];
            && (forall e | e in s.max ::
                  || (e in x.max && s.max[e] <= x.max[e])
                  || (x.phase.Answered? && e in x.phase.reply && s.max[e] <= x.phase.reply[e])
                  || (e in b && s.max[e] <= b[e]))
            && (forall e | e in b :: e in s.max && b[e] <= s.max[e])
            && (forall e | e in x.max ::
                  || (e in s.max && x.max[e] <= s.max[e])
                  || (e in x.found && x.max[e] <= x.found[e])
                  || (x.phase.Asking? && e in x.phase.request && x.max[e] <= x.phase.request[e])
                  || (e in x.corpus && x.max[e] <= x.corpus[e]))
  {
    RunKeeps(INITIAL, es);
    var s := Run(INITIAL, es);
    assert Good(s.max, s.backlog[f], s.fuzzers[f]);
  }

  // Of two signals the better priority of each element.
  ghost predicate Best(s: Signal, a: Signal, b: Signal) {
    && (forall e :: e in s <==> e in a || e in b)
    && (forall e | e in a && e in b :: s[e] == if a[e] < b[e] then b[e] else a[e])
    && (forall e | e in a && e !in b :: s[e] == a[e])
    && (forall e | e in b && e !in a :: s[e] == b[e])
  }

  // The entries of `told` that are better than those of `max`.
  ghost predicate News(s: Signal, max: Signal, told: Signal) {
    && (forall e :: e in s <==> e in told && (e in max ==> max[e] < told[e]))
    && (forall e | e in s :: s[e] == told[e])
  }

  // A fuzzer can connect at any time, again included, and starts with nothing but the manager's
  // signal in its backlog; a connected one can find signal and add inputs at any time.
  lemma ConnectIs(s: System, f: int, sign: Signal)
    ensures Enabled(s, Connect(f))
    ensures var t := Step(s, Connect(f));
            && t.max == s.max && t.backlog == s.backlog[f := s.max]
            && t.fuzzers == s.fuzzers[f := Fuzzer(map[], map[], map[], Idle)]
            && Enabled(t, Find(f, sign)) && Enabled(t, AddInput(f, sign)) && Enabled(t, Grab(f))
  {
  }

  // What one poll does at the manager.  It learns what the fuzzer tells; every other backlog
  // learns what was news; and of the fuzzer's own backlog up to 500 entries move to the answer, and
  // the rest stays.
  lemma ServedIs(s: System, f: int, keys: set<int>) returns (news: Signal)
    requires Enabled(s, Serve(f, keys))
    ensures News(news, s.max, s.fuzzers[f].phase.request)
    ensures var t := Served(s, f, keys);
            && t.fuzzers.Keys == s.fuzzers.Keys && t.backlog.Keys == s.backlog.Keys && t.fuzzers[f].phase.Answered?
            && Best(t.max, s.max, s.fuzzers[f].phase.request)
            && (forall g | g in s.backlog && g != f :: Best(t.backlog[g], s.backlog[g], news))
            && var reply, own := t.fuzzers[f].phase.reply, s.backlog[f];
            && reply.Keys !! t.backlog[f].Keys && reply + t.backlog[f] == own
            && |reply.Keys| == (if |own| < 500 then |own| else 500)
  {
    hide Merge, Diff, Best, News, Restrict, SplitTakes, Served;
    var told := s.fuzzers[f].phase.request;
    news := Diff(s.max, told);
    LearntIs(s.max, told);
    ServedShape(s, f, keys);
    SplitIs(s.backlog[f], keys);
    forall g | g in s.backlog && g != f ensures Best(Served(s, f, keys).backlog[g], s.backlog[g], news) {
      MergeIsBest(s.backlog[g], news);
    }
  }

  lemma ServedShape(s: System, f: int, keys: set<int>)
    requires Enabled(s, Serve(f, keys))
    ensures var t, told := Served(s, f, keys), s.fuzzers[f].phase.request;
            && t.max == ToldMax(s.max, told)
            && t.fuzzers.Keys == s.fuzzers.Keys && t.fuzzers[f].phase == Answered(Restrict(s.backlog[f], keys))
            && t.backlog.Keys == s.backlog.Keys && t.backlog[f] == s.backlog[f] - keys
            && forall g | g in s.backlog && g != f :: t.backlog[g] == Merge(s.backlog[g], Diff(s.max, told))
  {
    hide Merge, Diff, Restrict, SplitTakes, ToldMax;
  }

  lemma SplitIs(own: Signal, keys: set<int>)
    requires SplitTakes(own, keys)
    ensures var reply := Restrict(own, keys);
            && reply.Keys !! (own - keys).Keys && reply + (own - keys) == own
            && |reply.Keys| == (if |own| < 500 then |own| else 500)
  {
    var reply, rest := Restrict(own, keys), own - keys;
    assert reply.Keys == keys && rest.Keys == own.Keys - keys;
    Rejoined(own, reply, rest);
  }

  lemma Rejoined(own: Signal, reply: Signal, rest: Signal)
    requires reply.Keys + rest.Keys == own.Keys
    requires (forall e | e in reply :: reply[e] == own[e]) && forall e | e in rest :: rest[e] == own[e]
    ensures reply + rest == own
  {
    var m := reply + rest;
    assert m.Keys == own.Keys;
    assert forall e | e in own :: m[e] == own[e];
  }

  lemma MergeIsBest(a: Signal, b: Signal)
    ensures Best(Merge(a, b), a, b)
  {
  }

  lemma LearntIs(max: Signal, told: Signal)
    ensures News(Diff(max, told), max, told) && Best(ToldMax(max, told), max, told)
  {
    hide Merge;
    MergeIsBest(max, Diff(max, told));
  }

  // ---- What other threads of a fuzzer may do between two locks ----

  datatype Other = Found(diff: Signal) | Grabbed | Merged(sign: Signal) | NewInput(sign: Signal)

  // The three signals of a fuzzer.
  datatype Signals = Signals(max: Signal, found: Signal, corpus: Signal)

  function Meanwhile(x: Signals, others: seq<Other>): (y: Signals)
    ensures forall e, p :: Has(x.max, e, p) ==> Has(y.max, e, p)
    decreases |others|
  {
    if others == [] then x else
    var y := match others[0]
      case Found(diff) => Signals(Merge(x.max, diff), Merge(x.found, diff), x.corpus)
      case Grabbed => Signals(x.max, map[], x.corpus)
      case Merged(sign) => Signals(Merge(x.max, sign), x.found, x.corpus)
      case NewInput(sign) => Signals(Merge(x.max, sign), x.found, Merge(x.corpus, sign));
    Meanwhile(y, others[1..])
  }

  // ---- Draining the backlog ----

  // The fuzzer has found nothing since its last poll, and none of its polls is under way.
  predicate Quiet(s: System, f: int) {
    f in s.fuzzers && f in s.backlog && s.fuzzers[f].phase == Idle && s.fuzzers[f].found == map[]
  }

  predicate CanPoll(s: System, f: int, keys: set<int>) {
    f in s.fuzzers && f in s.backlog && s.fuzzers[f].phase == Idle && SplitTakes(s.backlog[f], keys)
  }

  // One poll that nothing disturbs; Split takes the `keys`.
  function Poll(s: System, f: int, keys: set<int>): System
    requires CanPoll(s, f, keys)
  {
    var asked := Step(s, Grab(f));
    Step(Step(asked, Serve(f, keys)), Receive(f))
  }

  lemma PollIs(s: System, f: int, keys: set<int>)
    requires CanPoll(s, f, keys)
    ensures var x := s.fuzzers[f];
            var b := ToldBacklog(s.max, s.backlog, f, x.found);
            Poll(s, f, keys) ==
            System(ToldMax(s.max, x.found), b[f := b[f] - keys],
                   s.fuzzers[f := Fuzzer(Merge(x.max, Restrict(b[f], keys)), map[], x.corpus, Idle)])
  {
    hide Merge, Diff, Restrict, SplitTakes, ToldMax, ToldBacklog;
  }

  lemma QuietPoll(s: System, f: int, keys: set<int>)
    requires Quiet(s, f) && SplitTakes(s.backlog[f], keys)
    ensures var t := Poll(s, f, keys);
            && Quiet(t, f) && t.max == s.max && t.backlog == s.backlog[f := s.backlog[f] - keys]
            && t.fuzzers == s.fuzzers[f := t.fuzzers[f]]
  {
    hide Merge, Diff, Restrict, SplitTakes, Poll;
    PollIs(s, f, keys);
    assert Diff(s.max, map[]) == map[];
    MergeNothing(s.max);
    forall g | g in s.backlog ensures Merge(s.backlog[g], map[]) == s.backlog[g] {
      MergeNothing(s.backlog[g]);
    }
    assert ToldBacklog(s.max, s.backlog, f, map[]) == s.backlog;
  }

  lemma MergeNothing(a: Signal)
    ensures Merge(a, map[]) == a
  {
  }

  // Polls of any fuzzers, in any order, each quiet when it polls.
  datatype Turn = Turn(f: int, keys: set<int>)

  predicate Polls(s: System, ts: seq<Turn>)
    decreases |ts|
  {
    ts == [] ||
    (Quiet(s, ts[0].f) && SplitTakes(s.backlog[ts[0].f], ts[0].keys) && Polls(Poll(s, ts[0].f, ts[0].keys), ts[1..]))
  }

  function AfterPolls(s: System, ts: seq<Turn>): System
    requires Polls(s, ts)
    decreases |ts|
  {
    if ts == [] then s else AfterPolls(Poll(s, ts[0].f, ts[0].keys), ts[1..])
  }

  function PollsOf(ts: seq<Turn>, f: int): nat {
    if ts == [] then 0 else (if ts[0].f == f then 1 else 0) + PollsOf(ts[1..], f)
  }

  lemma PollKeeps(s: System, f: int, keys: set<int>)
    requires Inv(s) && Quiet(s, f) && SplitTakes(s.backlog[f], keys)
    ensures Inv(Poll(s, f, keys))
  {
    hide Inv, Merge, Diff, Restrict, ToldMax, ToldBacklog;
    var asked := Step(s, Grab(f));
    StepKeeps(s, Grab(f));
    var served := Step(asked, Serve(f, keys));
    StepKeeps(asked, Serve(f, keys));
    StepKeeps(served, Receive(f));
  }

  lemma TakenSize(b: Signal, keys: set<int>)
    requires SplitTakes(b, keys)
    ensures |b - keys| == if |b| <= SPLIT then 0 else |b| - SPLIT
  {
    assert (b - keys).Keys == b.Keys - keys;
  }

  // Polling with nothing new shortens a fuzzer's backlog by 500 entries at each of its polls,
  // whichever of them Split takes and whoever polls in between, and leaves the manager's signal
  // alone: so the backlog is gone after as many polls as 500 goes into its size, rounded up, and
  // no sooner, and then the fuzzer knows all the manager knows.
  lemma {:induction false} Drains(s: System, f: int, ts: seq<Turn>)
    requires Inv(s) && Quiet(s, f) && Polls(s, ts)
    ensures var t, n := AfterPolls(s, ts), PollsOf(ts, f);
            && Inv(t) && Quiet(t, f) && t.max == s.max
            && |t.backlog[f]| == (if |s.backlog[f]| <= 500 * n then 0 else |s.backlog[f]| - 500 * n)
            && (|s.backlog[f]| <= 500 * n ==>
                  forall e | e in s.max :: e in t.fuzzers[f].max && s.max[e] <= t.fuzzers[f].max[e])
    decreases |ts|
  {
    hide Poll, SplitTakes, Good;
    if ts == [] {
      if |s.backlog[f]| == 0 {
        KnowsAll(s, f);
      }
    } else {
      var g, keys := ts[0].f, ts[0].keys;
      QuietPoll(s, g, keys);
      PollKeeps(s, g, keys);
      TakenSize(s.backlog[g], keys);
      Drains(Poll(s, g, keys), f, ts[1..]);
    }
  }

  lemma KnowsAll(s: System, f: int)
    requires Inv(s) && Quiet(s, f) && s.backlog[f] == map[]
    ensures forall e | e in s.max :: e in s.fuzzers[f].max && s.max[e] <= s.fuzzers[f].max[e]
  {
    assert Good(s.max, s.backlog[f], s.fuzzers[f]);
  }
}
