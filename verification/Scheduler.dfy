/** The scheduler's finetuning half: what to admit into the step about to run, the step itself,
    and its rollback, on the store and the coordinator in place. */
module Scheduler {
  import opened Samples
  import opened BufferCoordinator
  import opened Coordinator
  import opened FinetuningStore
  import opened BucketStore
  import opened StepSpec
  import opened Estimator
  import opened Admission
  import opened GreedyOptimality

  // ---------------------------------------------------------------- the step without FT

  /** What the estimate reads of a request; `left` tokens are not computed yet. */
  datatype Req = Req(isFt: bool, left: int, computed: nat, placeholders: nat, arrival: real) {
    /** Still inside its prompt: it takes a chunk, not one decode token. */
    predicate Chunked() {
      left > 1 && placeholders == 0
    }
  }

  /** Running inference requests that decode. */
  function Decoding(rs: seq<Req>): seq<Req> {
    if rs == [] then []
    else Decoding(rs[..|rs| - 1])
         + if !rs[|rs| - 1].isFt && !rs[|rs| - 1].Chunked() then [rs[|rs| - 1]] else []
  }

  function Contexts(rs: seq<Req>): nat {
    if rs == [] then 0 else Contexts(rs[..|rs| - 1]) + rs[|rs| - 1].computed
  }

  /** Prompt tokens the running requests still want. */
  function ChunksWanted(rs: seq<Req>): nat {
    if rs == [] then 0
    else ChunksWanted(rs[..|rs| - 1]) + if !rs[|rs| - 1].isFt && rs[|rs| - 1].Chunked() then rs[|rs| - 1].left else 0
  }

  function PromptsWanted(rs: seq<Req>): nat {
    if rs == [] then 0
    else PromptsWanted(rs[..|rs| - 1]) + if rs[|rs| - 1].left > 0 then rs[|rs| - 1].left else 0
  }

  lemma PrefixStep(rs: seq<Req>, i: nat)
    requires i < |rs|
    ensures rs[..i + 1][..i] == rs[..i] && |rs[..i + 1]| - 1 == i && rs[..i + 1][i] == rs[i]
  {
  }

  /** A running request decodes if it is an inference one past its prompt, or one that waits for a
      token it has been promised; its context counts. */
  lemma DecodingStep(rs: seq<Req>, i: nat)
    requires i < |rs|
    ensures var d, e := Decoding(rs[..i]), Decoding(rs[..i + 1]);
            if !rs[i].isFt && (rs[i].left <= 1 || rs[i].placeholders != 0)
            then |e| == |d| + 1 && Contexts(e) == Contexts(d) + rs[i].computed
            else e == d
    ensures Decoding([]) == [] && Contexts([]) == 0
  {
    PrefixStep(rs, i);
    var d := Decoding(rs[..i]);
    assert (d + [rs[i]])[..|d|] == d;
  }

  /** What a request takes of `room` tokens when its turn comes. */
  function Takes(r: Req, room: int, waiting: bool): nat {
    if waiting || (!r.isFt && r.Chunked()) then Max(0, Min(r.left, room)) else if r.isFt then 0 else 1
  }

  function Gave(rs: seq<Req>, room: int, waiting: bool): seq<nat> {
    if rs == [] then []
    else
      var before := Gave(rs[..|rs| - 1], room, waiting);
      before + [Takes(rs[|rs| - 1], room - Sum(before), waiting)]
  }

  /** The prompt tokens given, request by request, without those given none. */
  function PromptLens(rs: seq<Req>, room: int, waiting: bool): seq<nat> {
    if rs == [] then []
    else
      var r := rs[|rs| - 1];
      var n := Takes(r, room - Sum(Gave(rs[..|rs| - 1], room, waiting)), waiting);
      PromptLens(rs[..|rs| - 1], room, waiting) + if (waiting || (!r.isFt && r.Chunked())) && n > 0 then [n] else []
  }

  /** First come, first served: a prompt takes what it wants of the tokens not given before it, a
      decode one token whatever is left, a finetuning request none. */
  lemma FirstComeFirstServed(rs: seq<Req>, room: int, waiting: bool, i: nat)
    requires i < |rs|
    ensures var given := Sum(Gave(rs[..i], room, waiting));
            var n := if rs[i].left <= room - given then rs[i].left else room - given;
            var prompt := waiting || (!rs[i].isFt && rs[i].left > 1 && rs[i].placeholders == 0);
            && Sum(Gave(rs[..i + 1], room, waiting)) ==
                 given + (if prompt then (if n > 0 then n else 0) else if rs[i].isFt then 0 else 1)
            && PromptLens(rs[..i + 1], room, waiting) ==
                 PromptLens(rs[..i], room, waiting) + if prompt && n > 0 then [n] else []
    ensures Sum(Gave([], room, waiting)) == 0 && PromptLens([], room, waiting) == []
  {
    PrefixStep(rs, i);
    var gave := Gave(rs[..i], room, waiting);
    SumAppend(gave, Takes(rs[i], room - Sum(gave), waiting));
  }

  /** Once nothing is left the rest get nothing. */
  lemma {:induction false} NothingLeft(rs: seq<Req>, room: int, i: nat)
    requires i <= |rs| && room <= Sum(Gave(rs[..i], room, true))
    ensures PromptLens(rs, room, true) == PromptLens(rs[..i], room, true)
    decreases |rs| - i
  {
    if i == |rs| {
      assert rs[..i] == rs;
    } else {
      FirstComeFirstServed(rs, room, true, i);
      NothingLeft(rs, room, i + 1);
    }
  }

  /** The loop over running requests: decodes take a token each, prompts not finished a chunk.
      `remaining` may end below zero. */
  method RunningPart(running: seq<Req>, budget: nat) returns (bD: nat, k: nat, tIn: nat, lens: seq<nat>, remaining: int)
    ensures remaining == budget - tIn - bD && tIn <= budget && tIn == Sum(lens)
    ensures bD == |Decoding(running)| && k == Contexts(Decoding(running))
    ensures tIn <= ChunksWanted(running) && (remaining <= 0 || tIn == ChunksWanted(running))
    ensures remaining == budget - Sum(Gave(running, budget, false)) && lens == PromptLens(running, budget, false)
  {
    bD, k, tIn, lens, remaining := 0, 0, 0, [], budget;
    for i := 0 to |running|
      invariant remaining == budget - tIn - bD && tIn <= budget && tIn == Sum(lens)
      invariant bD == |Decoding(running[..i])| && k == Contexts(Decoding(running[..i]))
      invariant tIn <= ChunksWanted(running[..i])
      invariant remaining <= 0 || tIn == ChunksWanted(running[..i])
      invariant remaining == budget - Sum(Gave(running[..i], budget, false)) && lens == PromptLens(running[..i], budget, false)
    {
      var req := running[i];
      PrefixStep(running, i);
      DecodingStep(running, i);
      FirstComeFirstServed(running, budget, false, i);
      if req.isFt {
        continue;
      }
      if req.left > 1 && req.placeholders == 0 {
        var n := if req.left <= remaining then req.left else remaining;
        if n > 0 {
          SumAppend(lens, n);
          lens, tIn, remaining := lens + [n], tIn + n, remaining - n;
        }
        continue;
      }
      bD, k, remaining := bD + 1, k + req.computed, remaining - 1;
    }
    assert running[..|running|] == running;
  }

  /** The loop over waiting requests, until `room` is used up. */
  method WaitingPart(waiting: seq<Req>, room: nat) returns (tIn: nat, lens: seq<nat>, earliest: Option<real>)
    ensures tIn <= room && tIn == Sum(lens) && tIn <= PromptsWanted(waiting)
    ensures tIn < room ==> tIn == PromptsWanted(waiting)
    ensures earliest == if waiting == [] then None else Some(waiting[0].arrival)
    ensures lens == PromptLens(waiting, room, true)
  {
    tIn, lens, earliest := 0, [], None;
    var remaining: int := room;
    var j := 0;
    while j < |waiting|
      invariant j <= |waiting| && remaining == room - tIn >= 0 && tIn == Sum(lens)
      invariant tIn <= PromptsWanted(waiting[..j]) && (remaining == 0 || tIn == PromptsWanted(waiting[..j]))
      invariant earliest == if j == 0 then None else Some(waiting[0].arrival)
      invariant lens == PromptLens(waiting[..j], room, true) && tIn == Sum(Gave(waiting[..j], room, true))
    {
      var req := waiting[j];
      PrefixStep(waiting, j);
      if earliest.None? {
        earliest := Some(req.arrival);
      }
      if remaining <= 0 {
        break;
      }
      FirstComeFirstServed(waiting, room, true, j);
      j := j + 1;
      var n := if req.left <= remaining then req.left else remaining;
      if n > 0 {
        SumAppend(lens, n);
        lens, tIn, remaining := lens + [n], tIn + n, remaining - n;
      }
    }
    MoreWanted(waiting, j);
    assert waiting[..|waiting|] == waiting;
    if j < |waiting| {
      NothingLeft(waiting, room, j);
    }
  }

  /** The composition of the upcoming step before FT is added: what each request takes of the token
      budget when they are served in order, the running ones first. Its prefill is all the prefill
      there is unless prefill and decodes use the budget up. */
  method CurrentStepFeatures(running: seq<Req>, waiting: seq<Req>, budget: nat)
    returns (f: Features, earliest: Option<real>)
    ensures f.Consistent() && f.tFt == 0 && !f.bwd && f.tIn <= budget
    ensures f.bD == |Decoding(running)| && f.k == Contexts(Decoding(running))
    ensures f.tIn <= ChunksWanted(running) + PromptsWanted(waiting)
    ensures f.tIn + f.bD < budget ==> f.tIn == ChunksWanted(running) + PromptsWanted(waiting)
    ensures earliest == if waiting == [] then None else Some(waiting[0].arrival)
    ensures f.prefillLens == PromptLens(running, budget, false)
                             + PromptLens(waiting, Max(0, budget - Sum(Gave(running, budget, false))), true)
  {
    var bD, k, tIn, lens, remaining := RunningPart(running, budget);
    var more, moreLens, arrival := WaitingPart(waiting, if remaining < 0 then 0 else remaining);
    SumConcat(lens, moreLens);
    earliest := arrival;
    f := Features(tIn + more, |lens + moreLens|, 0, bD, k, lens + moreLens, false);
  }

  lemma {:induction false} MoreWanted(rs: seq<Req>, j: nat)
    requires j <= |rs|
    ensures PromptsWanted(rs[..j]) <= PromptsWanted(rs)
    decreases |rs| - j
  {
    if j < |rs| {
      PrefixStep(rs, j);
      MoreWanted(rs, j + 1);
    } else {
      assert rs[..j] == rs;
    }
  }

  // ---------------------------------------------------------------- the greedy loop

  /** Why the loop stopped. */
  ghost predicate Stopped(m: Model, f: Features, lim: Limits, pool: set<Sample>, most: Option<nat>, a: seq<Sample>)
    requires Usable(m)
  {
    (most.Some? && |a| == most.value) || Elems(a) == pool || exists y :: NextIs(y, a, pool) && !Fits(m, f, lim, a + [y])
  }

  /** The accumulators of the loop describe the step with `a` added. */
  ghost predicate Accumulated(f: Features, a: seq<Sample>, tIn: nat, tFt: nat, p: nat, lens: seq<nat>) {
    Features(tIn, p, tFt, f.bD, f.k, lens, false) == Hyp(f, a)
  }

  lemma AccumulateOne(f: Features, a: seq<Sample>, y: Sample, tIn: nat, tFt: nat, p: nat, lens: seq<nat>)
    requires Accumulated(f, a, tIn, tFt, p, lens)
    ensures Accumulated(f, a + [y], tIn + y.InputLen(), tFt + y.InputLen(), p + 1, lens + [y.InputLen()])
    ensures SumLens(a + [y]) == SumLens(a) + y.InputLen() && SumLens(a) == tFt
  {
    AppendSums(Coefs(0.0, 0.0, 0.0, 0.0, 0.0, 0.0), a, y);
    assert Lens(a + [y]) == Lens(a) + [y.InputLen()];
    assert f.prefillLens + (Lens(a) + [y.InputLen()]) == (f.prefillLens + Lens(a)) + [y.InputLen()];
  }

  /** `pop_next` returns the next sample in smallest-first order. */
  lemma PoppedIsNext(pool: set<Sample>, a: seq<Sample>, r: Option<Sample>)
    requires UniqueIds(pool) && Elems(a) <= pool
    requires r.None? ==> forall x | x in pool :: x.requestId in Ids(a)
    requires r.Some? ==> r.value in pool && r.value.requestId !in Ids(a)
    requires r.Some? ==> forall x | x in pool && x.requestId !in Ids(a) :: r.value.InputLen() <= x.InputLen()
    ensures r.None? ==> Elems(a) == pool
    ensures r.Some? ==> NextIs(r.value, a, pool)
  {
    forall x | x in pool ensures x.requestId in Ids(a) <==> x in a {
      if x.requestId in Ids(a) {
        var s :| s in a && s.requestId == x.requestId;
        assert s in Elems(a);
      }
    }
  }

  lemma CountBound(pool: set<Sample>, a: seq<Sample>)
    requires SmallestFirst(a, pool)
    ensures |a| <= |pool|
  {
    DistinctCount(a);
    CardOfSubset(Elems(a), pool);
  }

  /** The samples still to come are no empty ones, so a full cap leaves room for none. */
  lemma FullStops(m: Model, f: Features, lim: Limits, pool: set<Sample>, most: Option<nat>, a: seq<Sample>)
    requires Usable(m) && Elems(a) <= pool && SumLens(a) >= lim.cap && forall x | x in pool :: x.InputLen() > 0
    ensures Stopped(m, f, lim, pool, most, a)
  {
    var rest := pool - Elems(a);
    if rest != {} {
      ShortestExists(rest);
      var n: nat :| Shortest(rest, n);
      var y :| y in rest && y.InputLen() == n;
      assert NextIs(y, a, pool);
      AppendSums(Coefs(0.0, 0.0, 0.0, 0.0, 0.0, 0.0), a, y);
      assert !Fits(m, f, lim, a + [y]);
    }
    assert forall x | x in pool :: x in Elems(a) || x in rest;
  }

  lemma HeadIn(a: seq<Sample>)
    ensures a != [] ==> Elems(a) != {}
  {
    if a != [] {
      assert a[0] in Elems(a);
    }
  }

  /** One candidate against the caps and the SLO checks. */
  method Accepts(m: Model, f: Features, lim: Limits, a: seq<Sample>, y: Sample, tIn: nat, tFt: nat, p: nat, lens: seq<nat>)
    returns (ok: bool)
    requires Usable(m) && Accumulated(f, a, tIn, tFt, p, lens)
    ensures ok <==> Fits(m, f, lim, a + [y])
  {
    AccumulateOne(f, a, y, tIn, tFt, p, lens);
    if tFt + y.InputLen() > lim.cap {
      return false;
    }
    var hypothetical := Features(tIn + y.InputLen(), p + 1, tFt + y.InputLen(), f.bD, f.k, lens + [y.InputLen()], false);
    if m.IsReady() {
      var r := hypothetical.RegimeOf(m.split);
      UsableSelects(m, r);
      var t := m.Predict(hypothetical, r);
      assert t == TimeWith(m, f, a + [y]);
      if lim.tbt.Some? && t > lim.tbt.value {
        return false;
      }
      if lim.slack.Some? && lim.slack.value - t <= 0.0 {
        return false;
      }
    }
    return true;
  }

  ghost predicate NoneEmpty(store: Store)
    reads store
  {
    forall x | x in store.samples :: x.InputLen() > 0
  }

  /** The next candidate: the epoch advances first when its pool is exhausted. */
  method NextCandidate(store: Store, a: seq<Sample>) returns (r: Option<Sample>, ghost advanced: bool)
    requires store.Valid() && NoneEmpty(store) && Elems(a) <= store.View().selectable
    modifies store
    ensures store.Valid() && store.samples == old(store.samples) && NoneEmpty(store)
    ensures store.View() == Advanced(old(store.View()), advanced)
    ensures advanced <==> old(store.View()).selectable == {} && old(store.View()).CanAdvance()
    ensures advanced ==> a == []
    ensures store.View().selectable <= Elems(store.samples)
    ensures r.None? ==> Elems(a) == store.View().selectable
    ensures r.Some? ==> NextIs(r.value, a, store.View().selectable)
  {
    HeadIn(a);
    advanced := false;
    var more := store.HasNext();
    if !more {
      var ok := store.AdvanceEpoch();
      advanced := ok;
      if !ok {
        return None, false;
      }
    }
    r := store.PopNext(a);
    store.ViewValid();
    PoppedIsNext(store.View().selectable, a, r);
  }

  ghost predicate Filling(m: Model, f: Features, lim: Limits, pool: set<Sample>, most: Option<nat>, a: seq<Sample>,
                          tIn: nat, tokens: nat, p: nat, lens: seq<nat>)
    requires Usable(m)
  {
    && Accumulated(f, a, tIn, tokens, p, lens) && tokens == SumLens(a)
    && SmallestFirst(a, pool) && AllFit(m, f, lim, a) && (most.Some? ==> |a| <= most.value)
  }

  lemma FillingStarts(m: Model, f: Features, lim: Limits, pool: set<Sample>, most: Option<nat>)
    requires Usable(m) && lim.cap >= 0
    ensures Filling(m, f, lim, pool, most, [], f.tIn, 0, f.p, f.prefillLens)
  {
    assert f.prefillLens + Lens([]) == f.prefillLens;
  }

  /** Nothing has been admitted yet when the epoch advances. */
  lemma FillingMoves(m: Model, f: Features, lim: Limits, pool: set<Sample>, next: set<Sample>, most: Option<nat>, a: seq<Sample>,
                     tIn: nat, tokens: nat, p: nat, lens: seq<nat>)
    requires Usable(m) && Filling(m, f, lim, pool, most, a, tIn, tokens, p, lens) && (a == [] || next == pool)
    ensures Filling(m, f, lim, next, most, a, tIn, tokens, p, lens)
  {
  }

  lemma FillingGrows(m: Model, f: Features, lim: Limits, pool: set<Sample>, most: Option<nat>, a: seq<Sample>,
                     tIn: nat, tokens: nat, p: nat, lens: seq<nat>, y: Sample, all: set<Sample>)
    requires Usable(m) && Filling(m, f, lim, pool, most, a, tIn, tokens, p, lens)
    requires NextIs(y, a, pool) && Fits(m, f, lim, a + [y]) && (most.Some? ==> |a| < most.value) && pool <= all
    ensures Filling(m, f, lim, pool, most, a + [y], tIn + y.InputLen(), tokens + y.InputLen(), p + 1, lens + [y.InputLen()])
    ensures |a + [y]| <= |all|
  {
    CardOfSubset(pool, all);
    AccumulateOne(f, a, y, tIn, tokens, p, lens);
    ExtendSmallest(a, pool, y);
    AllFitOne(m, f, lim, a, y);
    CountBound(pool, a + [y]);
  }

  /** One round: the next sample to add, or None once something stops the loop. */
  method TryOne(store: Store, m: Model, f: Features, lim: Limits, most: Option<nat>, a: seq<Sample>,
                tIn: nat, tokens: nat, p: nat, lens: seq<nat>)
    returns (next: Option<Sample>, ghost advanced: bool)
    requires Usable(m) && store.Valid() && NoneEmpty(store)
    requires Filling(m, f, lim, store.View().selectable, most, a, tIn, tokens, p, lens)
    requires a == [] ==> lim.cap > 0
    modifies store
    ensures store.Valid() && store.samples == old(store.samples) && NoneEmpty(store)
    ensures store.View() == Advanced(old(store.View()), advanced) && store.View().selectable <= Elems(store.samples)
    ensures advanced ==> a == []
    ensures a == [] ==> (advanced <==> old(store.View()).selectable == {} && old(store.View()).CanAdvance())
    ensures Filling(m, f, lim, store.View().selectable, most, a, tIn, tokens, p, lens)
    ensures next.Some? ==> NextIs(next.value, a, store.View().selectable) && Fits(m, f, lim, a + [next.value])
    ensures next.None? ==> Stopped(m, f, lim, store.View().selectable, most, a)
  {
    ghost var pool := store.View().selectable;
    if tokens >= lim.cap {
      store.ViewValid();
      FullStops(m, f, lim, store.View().selectable, most, a);
      return None, false;
    }
    next, advanced := NextCandidate(store, a);
    FillingMoves(m, f, lim, pool, store.View().selectable, most, a, tIn, tokens, p, lens);
    if next.None? {
      return;
    }
    var ok := Accepts(m, f, lim, a, next.value, tIn, tokens, p, lens);
    if !ok {
      next := None;
    }
  }

  /** The accumulators of the greedy loop. */
  datatype Acc = Acc(a: seq<Sample>, tIn: nat, tokens: nat, p: nat, lens: seq<nat>) {
    function Add(y: Sample): Acc {
      var n := y.InputLen();
      Acc(a + [y], tIn + n, tokens + n, p + 1, lens + [n])
    }
  }

  ghost predicate FillingAcc(m: Model, f: Features, lim: Limits, pool: set<Sample>, most: Option<nat>, x: Acc)
    requires Usable(m)
  {
    Filling(m, f, lim, pool, most, x.a, x.tIn, x.tokens, x.p, x.lens)
  }

  lemma AccGrows(m: Model, f: Features, lim: Limits, pool: set<Sample>, most: Option<nat>, x: Acc, y: Sample, all: set<Sample>)
    requires Usable(m) && FillingAcc(m, f, lim, pool, most, x)
    requires NextIs(y, x.a, pool) && Fits(m, f, lim, x.a + [y]) && (most.Some? ==> |x.a| < most.value) && pool <= all
    ensures FillingAcc(m, f, lim, pool, most, x.Add(y)) && |x.Add(y).a| <= |all|
  {
    FillingGrows(m, f, lim, pool, most, x.a, x.tIn, x.tokens, x.p, x.lens, y, all);
  }

  /** The body of the greedy loop. */
  method Round(store: Store, m: Model, f: Features, lim: Limits, most: Option<nat>, x: Acc)
    returns (x': Acc, stop: bool, ghost advanced: bool)
    requires Usable(m) && store.Valid() && NoneEmpty(store) && (x.a == [] ==> lim.cap > 0)
    requires FillingAcc(m, f, lim, store.View().selectable, most, x) && (most.Some? ==> |x.a| < most.value)
    modifies store
    ensures store.Valid() && store.samples == old(store.samples) && NoneEmpty(store)
    ensures store.View() == Advanced(old(store.View()), advanced)
    ensures advanced ==> x.a == []
    ensures x.a == [] ==> (advanced <==> old(store.View()).selectable == {} && old(store.View()).CanAdvance())
    ensures FillingAcc(m, f, lim, store.View().selectable, most, x')
    ensures stop ==> x' == x && Stopped(m, f, lim, store.View().selectable, most, x.a)
    ensures !stop ==> |x.a| < |x'.a| <= |Elems(store.samples)|
  {
    var next;
    next, advanced := TryOne(store, m, f, lim, most, x.a, x.tIn, x.tokens, x.p, x.lens);
    if next.None? {
      return x, true, advanced;
    }
    AccGrows(m, f, lim, store.View().selectable, most, x, next.value, Elems(store.samples));
    x', stop := x.Add(next.value), false;
  }

  lemma FillingDone(m: Model, f: Features, lim: Limits, pool: set<Sample>, most: Option<nat>, x: Acc, stop: bool)
    requires Usable(m) && FillingAcc(m, f, lim, pool, most, x)
    requires if stop then Stopped(m, f, lim, pool, most, x.a) else most == Some(|x.a|)
    ensures Greedy(m, f, lim, pool, most, x.a) && x.tokens == SumLens(x.a)
  {
  }

  /** The greedy loop: smallest first, until the iteration cap, the token cap, an SLO check or the
      end of the pool stops it. */
  method FillStep(store: Store, m: Model, f: Features, lim: Limits, most: Option<nat>)
    returns (a: seq<Sample>, tokens: nat, ghost advanced: bool)
    requires Usable(m) && store.Valid() && NoneEmpty(store) && lim.cap > 0 && (most.Some? ==> most.value > 0)
    modifies store
    ensures store.Valid() && store.samples == old(store.samples) && NoneEmpty(store)
    ensures store.View() == Advanced(old(store.View()), advanced) && tokens == SumLens(a)
    ensures advanced <==> old(store.View()).selectable == {} && old(store.View()).CanAdvance()
    ensures Greedy(m, f, lim, store.View().selectable, most, a)
  {
    var x, stop := Acc([], f.tIn, 0, f.p, f.prefillLens), false;
    advanced := false;
    FillingStarts(m, f, lim, store.View().selectable, most);
    while !stop && (most.None? || |x.a| < most.value)
      invariant store.Valid() && store.samples == old(store.samples) && NoneEmpty(store)
      invariant store.View() == Advanced(old(store.View()), advanced)
      invariant if x.a == [] && !stop then !advanced
                else advanced <==> old(store.View()).selectable == {} && old(store.View()).CanAdvance()
      invariant FillingAcc(m, f, lim, store.View().selectable, most, x)
      invariant stop ==> Stopped(m, f, lim, store.View().selectable, most, x.a)
      invariant most.Some? ==> |x.a| <= most.value
      decreases !stop, |Elems(store.samples)| - |x.a|
    {
      ghost var now;
      x, stop, now := Round(store, m, f, lim, most, x);
      advanced := advanced || now;
    }
    FillingDone(m, f, lim, store.View().selectable, most, x, stop);
    a, tokens := x.a, x.tokens;
  }

  // ---------------------------------------------------------------- the scheduler

  class FinetuneScheduler {
    const coord: FinetuneCoordinator
    const store: Store
    const cfg: Config
    var model: Model
    var unspent: nat
    var retired: set<string>

    constructor (coord: FinetuneCoordinator, store: Store, cfg: Config)
      ensures this.coord == coord && this.store == store && this.cfg == cfg && unspent == 0 && retired == {}
      ensures Usable(model)
    {
      this.coord, this.store, this.cfg, unspent, retired := coord, store, cfg, 0, {};
      model := Model(map[], map[], false);
    }

    ghost predicate Valid()
      reads this, store
    {
      store.Valid() && NoneEmpty(store) && Usable(model)
    }

    /** The coordinator and the store as the lifecycle protocol sees them. */
    ghost function State(): Core
      reads coord, store
    {
      Core(coord.State(), store.View())
    }

    /** Stage 0. */
    method HasWork() returns (ok: bool)
      requires Valid()
      ensures ok == Stage0(State())
    {
      var budget := coord.NextFtBudget();
      if budget <= 0 {
        return false;
      }
      var more := store.HasNext();
      return more || store.currentEpoch < store.totalEpochs - 1;
    }

    /** Stages 2 and 3: the phase gate, and the step without FT against its limits. */
    method Headroom(x: Ctx) returns (ok: bool)
      requires Usable(model)
      ensures ok <==> Gate(model, cfg, x)
    {
      var f := x.feats;
      if !cfg.bothPhases && x.DecodeOnlyStep() {
        return false;
      }
      UsableSelects(model, DecodeOnly);
      UsableSelects(model, InfPrefill);
      var baseline := 0.0;
      if model.IsReady() {
        if x.DecodeOnlyStep() {
          baseline := model.Predict(f, DecodeOnly);
        } else if f.tIn > 0 || f.bD > 0 {
          baseline := model.Predict(f, InfPrefill);
        }
      }
      if f.bD > 0 && model.IsReady() && baseline >= cfg.maxTbtSlo * Margin(cfg, x) {
        return false;
      }
      var deadline := Deadline(cfg, x);
      if deadline.Some? && model.IsReady() && deadline.value - x.now - x.queueWait - baseline <= 0.0 {
        return false;
      }
      return true;
    }

    /** The leaky bucket; a denied step's prefill is credited. `peek` is the next sample's length. */
    method LeakyBucket(x: Ctx, peek: Option<nat>) returns (shaper: Shaper)
      requires peek == NextLen(store.View().selectable)
      modifies this`unspent
      ensures shaper == Bucket(cfg, x, old(unspent), store.View())
      ensures unspent == if shaper.Deny? && store.View().selectable != {} then old(unspent) + x.feats.tIn else old(unspent)
    {
      if cfg.matchFactor > 0.0 && x.HasPrefill() {
        if peek.None? {
          return Deny;
        }
        var credit := (unspent + x.feats.tIn) as real * cfg.matchFactor;
        if credit >= peek.value as real {
          return Limit(Some(1));
        }
        unspent := unspent + x.feats.tIn;
        return Deny;
      }
      return Limit(None);
    }

    /** Stages 4 and 5 past the shapers: the greedy loop, and the claim. */
    method FillAndClaim(f: Features, lim: Limits, most: Option<nat>)
      returns (tokens: nat, admitted: seq<Sample>, ghost advanced: bool)
      requires Valid() && lim.cap > 0 && (most.Some? ==> most.value > 0)
      modifies store
      ensures Valid()
      ensures advanced <==> old(store.View()).selectable == {} && old(store.View()).CanAdvance()
      ensures Greedy(model, f, lim, Advanced(old(store.View()), advanced).selectable, most, admitted)
      ensures store.View() == Advanced(old(store.View()), advanced).Claim(admitted)
      ensures tokens == SumLens(admitted)
    {
      admitted, tokens, advanced := FillStep(store, model, f, lim, most);
      ClaimNothing(store.View());
      if admitted != [] {
        var _ := store.Claim(admitted);
      }
    }

    /** The whole admission: gates, shapers, the greedy loop, and the claim. */
    method AdmitFtToStep(x: Ctx) returns (tokens: nat, admitted: seq<Sample>, ghost advanced: bool)
      requires Valid()
      modifies this`unspent, store
      ensures Valid()
      ensures Admits(model, cfg, x, old(unspent), old(State()), advanced, admitted)
      ensures unspent == Unspent(model, cfg, x, old(unspent), old(State()))
      ensures store.View() == Advanced(old(store.View()), advanced).Claim(admitted)
      ensures tokens == SumLens(admitted)
    {
      ClaimNothing(store.View());
      tokens, admitted, advanced := 0, [], false;
      var work := HasWork();
      if !work {
        return;
      }
      var room := Headroom(x);
      if !room {
        return;
      }
      var peek := store.NextLength();
      var shaper := LeakyBucket(x, peek);
      if shaper.Deny? {
        return;
      }
      var lim := LimitsFor(model, coord.State(), cfg, x);
      if lim.cap <= 0 {
        return;
      }
      ghost var k := State();
      tokens, admitted, advanced := FillAndClaim(x.feats, lim, shaper.most);
      LoopOutcome(model, cfg, x, old(unspent), k, advanced, admitted);
    }

    // -------------------------------------------------------------- one step

    /** Everything before the admission snapshot. `k` is the state the step starts from: finetuning
        may be switched off first because the backward has been silent for too long. */
    method Begin(response: bool, alive: Option<bool>, now: real, throttle: Throttle) returns (ack: bool, ghost k: Core)
      requires Valid()
      modifies coord, store
      ensures Valid() && (k == old(State()) || (old(coord.pending) && k == DisabledCore(old(State()))))
      ensures ack <==> old(coord.pending) && !coord.relay && response
      ensures ack ==> k == old(State())
      ensures State() == Prologue(k, ack, throttle)
    {
      var trained := coord.PollBackward(response, alive, now);
      ack := trained.Some?;
      k := if ack then old(State()) else State();
      if trained.Some? {
        var _ := store.CommitClaimed(trained.value);
      }
      coord.TryEpochFlush(now);
      if throttle.Tick? {
        coord.CheckRpsThrottle(throttle.now, throttle.rps, throttle.closeRps, throttle.openRps, throttle.closeTime);
      }
    }

    /** Admission, and the verdict on whether the buffer can still grow. */
    method InjectFt(x: Ctx) returns (tokens: nat, admitted: seq<Sample>, ghost advanced: bool)
      requires Valid()
      modifies this`unspent, coord, store
      ensures Valid() && Admits(model, cfg, x, old(unspent), old(State()), advanced, admitted)
      ensures tokens == SumLens(admitted)
      ensures unspent == if tokens > 0 then 0 else Unspent(model, cfg, x, old(unspent), old(State()))
      ensures State() == Inject(old(State()), Decided(advanced, admitted))
    {
      tokens, admitted, advanced := AdmitFtToStep(x);
      if tokens > 0 {
        unspent := 0;
      }
      JudgeGrowth(tokens);
    }

    method JudgeGrowth(tokens: nat)
      requires store.Valid()
      modifies coord
      ensures coord.State() == old(coord.State()).NoteInjection(NextLen(store.View().selectable), tokens)
                               .(epoch := store.View().epoch)
    {
      var next := store.NextLength();
      coord.NoteInjection(next, tokens);
      coord.epoch := store.currentEpoch;
    }

    /** Gives back what was admitted but not scheduled, and repeats the verdict on what was. */
    method PartitionFt(tokens: nat, admitted: seq<Sample>, snap: Snap, batch: seq<Chunk>)
      requires Valid() && tokens == SumLens(admitted)
      modifies coord, store
      ensures Valid() && State() == Partition(old(State()), ScheduleInput(false, Off, false, admitted, batch, []), snap)
    {
      var dropped := NotIn(admitted, Ids(ChunkSamples(batch)));
      ReleaseNothing(store.View());
      if dropped != [] {
        var _ := store.ReleaseClaimed(dropped);
      }
      var n := Tokens(batch);
      if tokens > 0 {
        if n < tokens {
          coord.RestoreAdmission(snap);
          if n > 0 {
            var next := store.NextLength();
            coord.NoteInjection(next, n);
          }
        }
      }
    }

    /** Reserves the rows of the scheduled samples and fills in the FT part of the output. */
    method Emit(snap: Snap, r: BaseResult) returns (out: SchedulerOutput)
      modifies coord
      ensures fresh(out) && out.Data() == Emitted(old(coord.State()), snap, r).1 && out.Describes(r)
      ensures coord.State() == Emitted(old(coord.State()), snap, r).0
    {
      out := new SchedulerOutput(r.total, r.requests, snap);
      var n := Tokens(r.batch);
      out.offset := coord.fill + coord.reserved;
      out.ftIds := Ids(r.order);
      if n > 0 {
        out.offset := coord.ReserveRows(n, r.order);
      }
      out.n, out.batch, out.samples := n, r.batch, r.order;
      if coord.relay {
        out.trigger := coord.TakeTriggerCmd();
      }
    }

    /** One schedule call is one step of the lifecycle protocol, from the state `k`, with the
        admission decision `Admits` allows and the base scheduler's answer to it. */
    method ScheduleStep(args: StepArgs, base: seq<Sample> -> BaseResult)
      returns (out: SchedulerOutput, ghost k: Core, ghost i: ScheduleInput)
      requires Valid() && forall a :: BaseOk(a, base(a))
      modifies this`unspent, coord, store
      ensures Valid() && fresh(out) && out.Describes(base(i.admitted))
      ensures k == old(State()) || (old(coord.pending) && k == DisabledCore(old(State())))
      ensures i == i.(throttle := args.throttle, batch := base(i.admitted).batch, order := base(i.admitted).order)
      ensures Admits(model, cfg, args.x, old(unspent), Prologue(k, i.ack, i.throttle), i.advanced, i.admitted)
      ensures ScheduleOk(k, i) && Schedule(k, i) == (State(), out.Data())
    {
      var ack;
      ack, k := Begin(args.response, args.alive, args.now, args.throttle);
      ghost var k0 := State();
      var snap := coord.SnapshotAdmission();
      ghost var advanced;
      var tokens, admitted;
      tokens, admitted, advanced := InjectFt(args.x);
      var r := base(admitted);
      PartitionFt(tokens, admitted, snap, r.batch);
      ghost var k2 := State();
      out := Emit(snap, r);
      i := ScheduleInput(ack, args.throttle, advanced, admitted, r.batch, r.order);
      AdmitsIsAllowed(model, cfg, args.x, old(unspent), k0, advanced, admitted);
      StepIsSchedule(k, i, k2, r);
    }

    method GiveBack(n: nat, ss: seq<Sample>)
      requires Valid()
      modifies coord, store
      ensures Valid() && State() == Core(old(coord.State()).ReleaseReserve(n, ss), old(store.View()).Release(ss))
    {
      ReleaseNothing(store.View());
      ReleaseNoRows(coord.State());
      if n > 0 || ss != [] {
        coord.ReleaseReserve(n, ss);
      }
      if ss != [] {
        var _ := store.ReleaseClaimed(ss);
      }
    }

    /** Undoes a scheduled step. On an output already rolled back it does nothing. */
    method RollbackFtStep(out: SchedulerOutput) returns (count: nat)
      requires Valid()
      modifies this`retired, coord, store, out`ftIds, out`samples, out`n
      ensures Valid()
      ensures old(out.ftIds) == {} ==>
                count == 0 && State() == old(State()) && out.Data() == old(out.Data()) && retired == old(retired)
      ensures old(out.ftIds) != {} ==>
                && count == |old(out.ftIds)| && retired == old(retired) + old(out.ftIds)
                && State() == Rollback(old(State()), old(out.Data()))
                && out.Data() == old(out.Data()).(samples := [], n := 0)
      ensures out.ftIds == {}
    {
      if out.ftIds == {} {
        return 0;
      }
      retired := retired + out.ftIds;
      GiveBack(out.n, out.samples);
      coord.RestoreAdmission(out.snap);
      count := |out.ftIds|;
      out.ftIds, out.samples, out.n := {}, [], 0;
    }

    /** What the worker relays with a step's output, under tensor parallelism: its switch, then the
        backward's answer, then the rows it saved. */
    method ApplyRelay(started: Option<bool>, done: bool, saved: Option<(nat, seq<nat>)>, now: real)
      requires Valid()
      modifies coord, store
      ensures Valid() && State() == Relayed(old(State()), started, done, saved)
    {
      if coord.relay {
        if started == Some(true) && !coord.started {
          coord.StartFinetuning();
        } else if started == Some(false) && coord.started {
          coord.StopFinetuning();
        }
        if done {
          var trained := coord.ApplyRelayedDone(true);
          var _ := store.CommitClaimed(trained.value);
        }
        if saved.Some? {
          coord.ApplyRelayedSaved(saved.value.0, saved.value.1, now);
        }
      }
    }

    /** The output of an executed step: an abandoned FT-only forward is rolled back, the FT requests
        of any other leave the scheduler. */
    method UpdateFromOutput(out: SchedulerOutput, aborted: bool, started: Option<bool>, done: bool,
                            saved: Option<(nat, seq<nat>)>, now: real)
      requires Valid()
      modifies this`retired, coord, store, out`ftIds, out`samples, out`n
      ensures Valid() && retired == old(retired) + old(out.ftIds)
      ensures State() == Relayed(if aborted && old(out.ftIds) != {} then Rollback(old(State()), old(out.Data())) else old(State()),
                                 started, done, saved)
    {
      if aborted {
        var _ := RollbackFtStep(out);
        ApplyRelay(started, done, saved, now);
        return;
      }
      ApplyRelay(started, done, saved, now);
      retired := retired + out.ftIds;
    }
  }

  /** What one schedule call is told besides the base scheduler's decision. */
  datatype StepArgs = StepArgs(response: bool, alive: Option<bool>, now: real, throttle: Throttle, x: Ctx)

  /** What the base scheduler may do with the admitted samples. */
  ghost predicate BaseOk(admitted: seq<Sample>, r: BaseResult) {
    BatchOk(ScheduleInput(false, Off, false, admitted, r.batch, r.order))
  }

  function Relayed(k: Core, started: Option<bool>, done: bool, saved: Option<(nat, seq<nat>)>): Core {
    if !k.c.relay then k
    else
      var k1 := if started.Some? then k.(c := k.c.(started := started.value)) else k;
      var k2 := if done then Ack(k1) else k1;
      if saved.Some? then k2.(c := k2.c.RecordCapture(saved.value.0, saved.value.1)) else k2
  }

  lemma StepIsSchedule(k: Core, i: ScheduleInput, k2: Core, r: BaseResult)
    requires r.batch == i.batch && r.order == i.order
    requires var k0 := Prologue(k, i.ack, i.throttle);
             k2 == Partition(Inject(k0, Decided(i.advanced, i.admitted)),
                             ScheduleInput(false, Off, false, i.admitted, i.batch, []), k0.c.Snapshot())
    ensures var (c, o) := Emitted(k2.c, Prologue(k, i.ack, i.throttle).c.Snapshot(), r);
            Schedule(k, i) == (Core(c, k2.p), o)
  {
  }

  function DisabledCore(k: Core): Core {
    k.(c := k.c.Disable())
  }

  /** The part of a schedule's input that admission decides. */
  function Decided(advanced: bool, admitted: seq<Sample>): ScheduleInput {
    ScheduleInput(false, Off, advanced, admitted, [], [])
  }

  /** What the base scheduler returns: the FT chunks in batch order, the order in which their samples
      are listed, and the size of the whole batch. */
  datatype BaseResult = BaseResult(batch: seq<Chunk>, order: seq<Sample>, total: nat, requests: nat)

  function Emitted(c: Coord, snap: Snap, r: BaseResult): (Coord, StepOut) {
    var n := Tokens(r.batch);
    var d := if n > 0 then c.Reserve(n, r.order) else c;
    (if d.relay then d.TakeCmd() else d,
     StepOut(c.fill + c.reserved, n, r.batch, r.order, snap, if d.relay then d.cmd else None))
  }

  /** The FT fields of a scheduler output. */
  class SchedulerOutput {
    const total: nat
    const requests: nat
    const snap: Snap
    var ftIds: set<string>
    var offset: nat
    var n: nat
    var batch: seq<Chunk>
    var samples: seq<Sample>
    var trigger: Option<Work>

    constructor (total: nat, requests: nat, snap: Snap)
      ensures this.total == total && this.requests == requests && this.snap == snap
      ensures ftIds == {} && offset == 0 && n == 0 && batch == [] && samples == [] && trigger == None
    {
      this.total, this.requests, this.snap := total, requests, snap;
      ftIds, offset, n, batch, samples, trigger := {}, 0, 0, [], [], None;
    }

    function Data(): StepOut
      reads this
    {
      StepOut(offset, n, batch, samples, snap, trigger)
    }

    ghost predicate Describes(r: BaseResult)
      reads this
    {
      ftIds == Ids(r.order) && total == r.total && requests == r.requests
    }

    /** Every request of a non-empty batch is a finetuning one. */
    predicate IsFtOnly()
      reads this
    {
      ftIds != {} && total > 0 && |ftIds| == requests
    }
  }

  /** The members of `ss` whose ids are not in `ids`, as the partition loop collects them. */
  method NotIn(ss: seq<Sample>, ids: set<string>) returns (r: seq<Sample>)
    ensures r == DropIds(ss, ids)
  {
    r := [];
    for k := 0 to |ss|
      invariant r == DropIds(ss[..k], ids)
    {
      assert ss[..k + 1] == ss[..k] + [ss[k]];
      DropIdsConcat(ss[..k], [ss[k]], ids);
      assert [ss[k]][1..] == [];
      if ss[k].requestId !in ids {
        r := r + [ss[k]];
      }
    }
    assert ss[..|ss|] == ss;
  }

  lemma ReleaseNoRows(c: Coord)
    ensures c.ReleaseReserve(0, []) == c
  {
    assert Ids([]) == {};
    DropIdsDisjoint(c.samples, Ids([]));
  }

  lemma ReleaseNothing(p: Pool)
    ensures p.Release([]) == p
  {
  }

  lemma ClaimNothing(p: Pool)
    ensures p.Claim([]) == p
  {
  }

  lemma LoopOutcome(m: Model, cfg: Config, x: Ctx, unspent: nat, k: Core, advanced: bool, a: seq<Sample>)
    requires Usable(m) && Stage0(k) && Gate(m, cfg, x) && Bucket(cfg, x, unspent, k.p).Limit?
    requires LimitsFor(m, k.c, cfg, x).cap > 0
    requires advanced <==> k.p.selectable == {} && k.p.CanAdvance()
    requires Greedy(m, x.feats, LimitsFor(m, k.c, cfg, x), Advanced(k.p, advanced).selectable, Bucket(cfg, x, unspent, k.p).most, a)
    ensures Admits(m, cfg, x, unspent, k, advanced, a)
  {
    HeadIn(a);
  }
}
