/** The scheduler's admission on an engine without inference: what it admits, when the engine is stepped
    although it admits nothing, and that otherwise it trains every epoch. */
module IdleEngine {
  import opened Samples
  import opened Coordinator
  import opened FinetuningStore
  import opened StepSpec
  import opened Estimator
  import opened Admission
  import opened GreedyOptimality
  import opened Lifecycle
  import opened Guarantees
  import opened Completion

  /** No inference in the step. */
  predicate IdleLoad(x: Ctx) {
    x.feats.tIn == 0 && x.feats.bD == 0
  }

  /** What is left of the buffer, and of the engine's own token budget for one step. */
  function IdleCap(c: Coord, cfg: Config): int {
    Min(c.Space(), cfg.maxScheduled)
  }

  /** Without inference every gate is open, and only the token cap counts. */
  lemma IdlePasses(m: Model, cfg: Config, x: Ctx, unspent: nat, k: Core)
    requires Usable(m) && IdleLoad(x)
    ensures Gate(m, cfg, x) && Bucket(cfg, x, unspent, k.p) == Limit(None)
    ensures LimitsFor(m, k.c, cfg, x) == Limits(IdleCap(k.c, cfg), None, None)
  {
  }

  lemma IdleFits(m: Model, f: Features, cap: int, a: seq<Sample>)
    requires Usable(m)
    ensures Fits(m, f, Limits(cap, None, None), a) <==> SumLens(a) <= cap
  {
  }

  ghost predicate AllLonger(pool: set<Sample>, cap: int) {
    forall y | y in pool :: y.InputLen() > cap
  }

  // ---------------------------------------------------------------- what the loop can admit

  lemma NextExists(a: seq<Sample>, pool: set<Sample>) returns (y: Sample)
    requires Elems(a) <= pool && Elems(a) != pool
    ensures NextIs(y, a, pool)
  {
    var rest := pool - Elems(a);
    assert pool == Elems(a) + rest;
    ShortestExists(rest);
    var n: nat :| Shortest(rest, n);
    y :| y in rest && y.InputLen() == n;
  }

  lemma MoreElems(a: seq<Sample>, pool: set<Sample>, y: Sample)
    requires Elems(a) <= pool && NextIs(y, a, pool)
    ensures |pool - Elems(a + [y])| < |pool - Elems(a)|
  {
    assert Elems(a + [y]) == Elems(a) + {y};
    assert pool - Elems(a) == (pool - Elems(a + [y])) + {y};
  }

  /** The loop's outcome, from what it has admitted so far. */
  lemma {:induction false} GreedyFrom(m: Model, f: Features, lim: Limits, pool: set<Sample>, a: seq<Sample>)
    returns (b: seq<Sample>)
    requires Usable(m) && SmallestFirst(a, pool) && AllFit(m, f, lim, a)
    ensures Greedy(m, f, lim, pool, None, b) && a <= b
    decreases |pool - Elems(a)|
  {
    b := a;
    if Elems(a) != pool {
      var y := NextExists(a, pool);
      if Fits(m, f, lim, a + [y]) {
        ExtendSmallest(a, pool, y);
        AllFitOne(m, f, lim, a, y);
        MoreElems(a, pool, y);
        b := GreedyFrom(m, f, lim, pool, a + [y]);
      }
    }
  }

  lemma GreedyStarts(m: Model, f: Features, lim: Limits, pool: set<Sample>, y: Sample)
    requires Usable(m) && lim.cap >= 0 && NextIs(y, [], pool) && Fits(m, f, lim, [y])
    ensures SmallestFirst([y], pool) && AllFit(m, f, lim, [y])
  {
    assert Elems<Sample>([]) == {};
    ExtendSmallest([], pool, y);
    assert [] + [y] == [y];
    assert AllFit(m, f, lim, []);
    AllFitOne(m, f, lim, [], y);
  }

  /** Under a token cap alone the loop may admit something exactly when some sample is within it. */
  lemma GreedyAdmits(m: Model, f: Features, cap: int, pool: set<Sample>) returns (a: seq<Sample>)
    requires Usable(m) && cap >= 0
    ensures Greedy(m, f, Limits(cap, None, None), pool, None, a)
    ensures a == [] <==> AllLonger(pool, cap)
  {
    var lim := Limits(cap, None, None);
    if pool == {} {
      a := [];
      assert Elems<Sample>([]) == {};
      IdleFits(m, f, cap, []);
    } else {
      assert Elems<Sample>([]) == {};
      var y := NextExists([], pool);
      OneLen(y);
      IdleFits(m, f, cap, [y]);
      if y.InputLen() <= cap {
        GreedyStarts(m, f, lim, pool, y);
        a := GreedyFrom(m, f, lim, pool, [y]);
      } else {
        a := [];
        IdleFits(m, f, cap, []);
        assert [] + [y] == [y];
      }
    }
  }

  lemma OneLen(y: Sample)
    ensures SumLens([y]) == y.InputLen()
  {
    assert [y][1..] == [];
  }

  lemma LongerAdmitsNothing(m: Model, f: Features, cap: int, pool: set<Sample>, a: seq<Sample>)
    requires Usable(m) && Greedy(m, f, Limits(cap, None, None), pool, None, a)
    ensures AllLonger(pool, cap) ==> a == []
    ensures a == [] && cap >= 0 ==> AllLonger(pool, cap)
  {
    if a != [] {
      FirstFits(m, f, Limits(cap, None, None), pool, None, a);
      OneLen(a[0]);
    } else if cap >= 0 {
      if pool != {} {
        assert Elems<Sample>([]) == {} != pool;
        var y :| NextIs(y, a, pool) && !Fits(m, f, Limits(cap, None, None), a + [y]);
        assert a + [y] == [y];
        OneLen(y);
      }
    }
  }

  // ---------------------------------------------------------------- stepping without work

  /** No sample can be reached: those that can still be selected are too long for what a step may
      carry, or none can and the next epoch is none, is not allowed yet, or has nothing shorter. */
  ghost predicate OutOfReach(p: Pool, cap: int) {
    if p.selectable != {} then AllLonger(p.selectable, cap)
    else p.epoch >= p.totalEpochs - 1 || p.claimed != {} || AllLonger(p.all, cap)
  }

  /** Whatever the estimator says, the idle step admits nothing. */
  ghost predicate AdmitsNothing(m: Model, cfg: Config, x: Ctx, unspent: nat, k: Core)
    requires Usable(m)
  {
    forall advanced, a | Admits(m, cfg, x, unspent, k, advanced, a) :: a == []
  }

  /** An idle decision is nothing exactly when no sample can be reached. */
  lemma NothingExactly(m: Model, cfg: Config, x: Ctx, unspent: nat, k: Core, advanced: bool, a: seq<Sample>)
    requires Usable(m) && IdleLoad(x) && k.c.Budget() > 0 && k.p.Valid()
    requires Admits(m, cfg, x, unspent, k, advanced, a)
    ensures a == [] <==> OutOfReach(k.p, IdleCap(k.c, cfg))
  {
    IdlePasses(m, cfg, x, unspent, k);
    var cap := IdleCap(k.c, cfg);
    var pool := Advanced(k.p, advanced).selectable;
    if Stage0(k) && cap > 0 && (k.p.selectable != {} || k.p.CanAdvance()) {
      LongerAdmitsNothing(m, x.feats, cap, pool, a);
    }
  }

  /** There always is a decision. */
  lemma DecisionExists(m: Model, cfg: Config, x: Ctx, unspent: nat, k: Core) returns (advanced: bool, a: seq<Sample>)
    requires Usable(m) && IdleLoad(x)
    ensures Admits(m, cfg, x, unspent, k, advanced, a)
  {
    IdlePasses(m, cfg, x, unspent, k);
    var cap := IdleCap(k.c, cfg);
    advanced, a := false, [];
    if Stage0(k) && cap > 0 && (k.p.selectable != {} || k.p.CanAdvance()) {
      advanced := k.p.selectable == {};
      a := GreedyAdmits(m, x.feats, cap, Advanced(k.p, advanced).selectable);
    }
  }

  /** With no backward to wait for and nothing to flush, the engine asks for a step on which nothing
      is admitted exactly when there is room in the buffer but no sample can be reached: in the last
      epoch with nothing selectable, but also where the samples fit the buffer and not the engine's
      token budget for a step. */
  lemma StepsWithoutWorkExactly(m: Model, cfg: Config, x: Ctx, unspent: nat, k: Core)
    requires Usable(m) && IdleLoad(x) && k.p.Valid()
    ensures KeepsStepping(k) && !k.c.pending && !FlushDue(k.c) && AdmitsNothing(m, cfg, x, unspent, k) <==>
              && k.c.Budget() >= Max(1, k.c.minSampleLen) && !FlushDue(k.c)
              && (k.p.selectable != {} || k.p.epoch < k.p.totalEpochs)
              && OutOfReach(k.p, IdleCap(k.c, cfg))
    ensures !k.c.pending && !FlushDue(k.c) ==> Prologue(k, false, Off) == k
  {
    if k.c.Budget() > 0 {
      var advanced, a := DecisionExists(m, cfg, x, unspent, k);
      NothingExactly(m, cfg, x, unspent, k, advanced, a);
      forall b, c | Admits(m, cfg, x, unspent, k, b, c) ensures c == [] <==> OutOfReach(k.p, IdleCap(k.c, cfg)) {
        NothingExactly(m, cfg, x, unspent, k, b, c);
      }
    }
  }

  // ---------------------------------------------------------------- samples too long for a step

  /** The next schedule of an engine without inference, as the scheduler decides it. */
  ghost predicate IdleStep(cfg: Config, k: Core, i: ScheduleInput) {
    && ScheduleOk(k, i) && i.throttle.Off? && i.ack == k.c.pending
    && exists m, x, unspent: nat ::
         Usable(m) && IdleLoad(x) && Admits(m, cfg, x, unspent, Prologue(k, i.ack, Off), i.advanced, i.admitted)
  }

  /** There is room for every sample left in this epoch, and none may ever ride in a step. */
  ghost predicate Wedged(s: Sys, cfg: Config) {
    && Inv(s) && s.inflight == [] && s.k.c.Budget() >= Max(1, s.k.c.minSampleLen) && !FlushDue(s.k.c)
    && s.k.p.selectable != {}
    && forall y | y in s.k.p.selectable :: cfg.maxScheduled < y.InputLen() <= s.k.c.Space()
  }

  lemma WedgedStep(s: Sys, cfg: Config, i: ScheduleInput)
    requires Wedged(s, cfg) && IdleStep(cfg, s.k, i)
    ensures var t := Apply(s, DoSchedule(i));
            i.batch == [] && Wedged(t, cfg) && t.k.p == s.k.p && t.k.c.fill == s.k.c.fill && t.done == s.done
  {
    var m, x, unspent: nat :|
      Usable(m) && IdleLoad(x) && Admits(m, cfg, x, unspent, Prologue(s.k, i.ack, Off), i.advanced, i.admitted);
    StepsWithoutWorkExactly(m, cfg, x, unspent, s.k);
    NothingExactly(m, cfg, x, unspent, s.k, i.advanced, i.admitted);
    IdleShape(s.k, i);
    StepKeepsInv(s, DoSchedule(i));
    WedgedCoord(s.k.c, NextLen(s.k.p.selectable), s.k.p.epoch);
  }

  lemma WedgedCoord(c: Coord, next: Option<nat>, e: nat)
    requires next.Some? && next.value <= c.Space()
    ensures var d := SchedCoord(c, 0, 0, next, None, e, []);
            && d.Budget() == c.Budget() && d.minSampleLen == c.minSampleLen && d.Space() == c.Space()
            && FlushDue(d) == FlushDue(c) && d.fill == c.fill
  {
    IdleSched(c, next, e);
  }

  ghost predicate IdleRun(cfg: Config, s: Sys, steps: seq<ScheduleInput>, t: Sys)
    decreases |steps|
  {
    if steps == [] then s == t else IdleStep(cfg, s.k, steps[0]) && IdleRun(cfg, Apply(s, DoSchedule(steps[0])), steps[1..], t)
  }

  /** Such an engine is stepped for ever and never trains another row, not even those the buffer
      holds already: nothing is admitted, and no flush is ever due. */
  lemma {:induction false} WedgedForever(s: Sys, cfg: Config, steps: seq<ScheduleInput>, t: Sys)
    requires Wedged(s, cfg) && IdleRun(cfg, s, steps, t)
    ensures Wedged(t, cfg) && KeepsStepping(t.k) && t.k.p == s.k.p && t.k.c.fill == s.k.c.fill && t.done == s.done
    ensures forall i | i in steps :: i.batch == [] && !i.ack
    decreases |steps|
  {
    if steps != [] {
      WedgedStep(s, cfg, steps[0]);
      WedgedForever(Apply(s, DoSchedule(steps[0])), cfg, steps[1..], t);
    }
  }

  /** A fresh engine is wedged from the start when every sample fits the buffer and none the step. */
  lemma LongCorpusWedges(s: Sys, cfg: Config)
    requires Init(s) && s.k.c.started && s.k.p.all != {}
    requires forall y | y in s.k.p.all :: cfg.maxScheduled < y.InputLen() <= s.k.c.capacity
    requires Max(1, s.k.c.minSampleLen) <= Min(s.k.c.perStepBudget, s.k.c.capacity)
    ensures Wedged(s, cfg)
  {
    InitInv(s);
  }

  /** One short sample and one too long for a step: the short one is admitted, its row saved and
      committed, and then waits in the buffer for ever. */
  lemma MixedCorpusWedges(s: Sys, cfg: Config, a: Sample, b: Sample) returns (es: seq<Event>, t: Sys)
    requires Init(s) && s.k.c.started && !s.k.c.relay && s.k.p.selectable == {a, b} && a.InputLen() == 1
    requires 1 <= cfg.maxScheduled < b.InputLen() < s.k.c.capacity == s.k.c.perStepBudget && s.k.c.minSampleLen == 1
    ensures IdleStep(cfg, s.k, OneSample(a)) && Run(s, [DoSchedule(OneSample(a))] + es, t)
    ensures Wedged(t, cfg) && t.k.c.fill == 1 && t.done == [Chunk(a, 1)] && a in t.k.p.claimed
  {
    var i := OneSample(a);
    var u, f := ShortFirst(s, cfg, a, b);
    es, t := OnlyForward(u);
    OneEvent(s, DoSchedule(i));
    RunAppend(s, [DoSchedule(i)], u, es, t);
    ShortCommitted(u.k.c, f.o);
  }

  lemma ShortDecision(m: Model, cfg: Config, x: Ctx, k: Core, a: Sample, b: Sample)
    requires Usable(m) && IdleLoad(x) && k.c.Budget() > 0 && k.p.selectable == {a, b} && a.InputLen() == 1
    requires 1 <= cfg.maxScheduled < b.InputLen() < k.c.Space()
    ensures Admits(m, cfg, x, 0, k, false, [a])
  {
    IdlePasses(m, cfg, x, 0, k);
    var lim := Limits(cfg.maxScheduled, None, None);
    assert IdleCap(k.c, cfg) == cfg.maxScheduled;
    OneLen(a);
    IdleFits(m, x.feats, cfg.maxScheduled, [a]);
    GreedyStarts(m, x.feats, lim, {a, b}, a);
    AppendSums(FREE, [a], b);
    IdleFits(m, x.feats, cfg.maxScheduled, [a] + [b]);
    assert NextIs(b, [a], {a, b});
  }

  lemma ShortFirst(s: Sys, cfg: Config, a: Sample, b: Sample) returns (u: Sys, f: Flight)
    requires Init(s) && s.k.c.started && !s.k.c.relay && s.k.p.selectable == {a, b} && a.InputLen() == 1
    requires 1 <= cfg.maxScheduled < b.InputLen() < s.k.c.capacity == s.k.c.perStepBudget && s.k.c.minSampleLen == 1
    ensures IdleStep(cfg, s.k, OneSample(a)) && u == Apply(s, DoSchedule(OneSample(a)))
    ensures Inv(u) && u.inflight == [f] && f.o.n == 1 && f.o.batch == [Chunk(a, 1)] && u.done == []
    ensures u.k.p.selectable == {b} && a in u.k.p.claimed
    ensures var c := u.k.c;
            && c.open && !c.flush && !c.pending && c.started && c.fill == 0 && c.reserved == 1
            && c.capacity == c.perStepBudget > b.InputLen() && c.minSampleLen == 1
  {
    var i := OneSample(a);
    ShortIsDecided(s, cfg, a, b);
    u, f := OneSampleStep(s, a);
    assert u.k == Schedule(s.k, i).0;
    ShortScheduled(s.k, a, b);
    ScheduleOut(s.k, i);
  }

  lemma ShortIsDecided(s: Sys, cfg: Config, a: Sample, b: Sample)
    requires Init(s) && s.k.c.started && !s.k.c.relay && s.k.p.selectable == {a, b} && a.InputLen() == 1
    requires 1 <= cfg.maxScheduled < b.InputLen() < s.k.c.capacity == s.k.c.perStepBudget
    ensures Ready(s) && Prologue(s.k, false, Off) == s.k && IdleStep(cfg, s.k, OneSample(a))
  {
    FreshReady(s);
    OneSampleOk(s, a);
    var m, x := ModelOf(FREE), Ctx(Features(0, 0, 0, 0, 0, [], false), None, 0.0, 0.0);
    ShortDecision(m, cfg, x, s.k, a, b);
  }

  lemma ShortScheduled(k: Core, a: Sample, b: Sample)
    requires ScheduleOk(k, OneSample(a)) && Prologue(k, false, Off) == k && k.p.Valid() && a.InputLen() == 1
    requires k.p.selectable == {a, b} && a != b && k.c.open && !k.c.pending && !k.c.flush && b.InputLen() <= k.c.Space() - 1
    ensures var d := Schedule(k, OneSample(a)).0;
            && d.p.selectable == {b} && a in d.p.claimed
            && SameSetup(k.c, d.c) && d.c.open && !d.c.flush && !d.c.pending
            && d.c.fill == k.c.fill && d.c.reserved == k.c.reserved + 1
  {
    var i := OneSample(a);
    OneSampleShape(a);
    SchedulePool(k, i);
    ScheduleShape(k, i);
    ScheduleSetup(k, i);
    var p1 := k.p.Claim([a]);
    assert p1.Release([]) == p1;
    assert p1.selectable == {b};
    OneSampleFlags(k.c, NextLen(p1.selectable), NextLen(p1.selectable), k.p.epoch, a);
  }

  lemma ShortCommitted(c: Coord, o: StepOut)
    requires o.n == 1 && |o.batch| == 1 && o.batch[0].n == 1
    requires c.open && !c.flush && !c.pending && c.started && c.fill == 0 && c.reserved == 1
    requires c.capacity == c.perStepBudget > 1 && c.minSampleLen == 1
    ensures var d := c.RecordCapture(o.n, ChunkLens(o.batch));
            d.Budget() == d.Space() == c.capacity - 1 && !FlushDue(d) && d.minSampleLen == 1 && d.fill == 1
  {
  }

  // ---------------------------------------------------------------- and otherwise

  /** Where every sample may ride in a step, the scheduler's own decision is an eager one. */
  lemma IdleStepIsEager(s: Sys, cfg: Config, i: ScheduleInput)
    requires Settled(s) && IdleStep(cfg, s.k, i) && (i.admitted != [] ==> i.batch != [])
    requires forall y | y in s.k.p.all :: y.InputLen() <= cfg.maxScheduled
    ensures Completion.Eager(s.k, i)
  {
    var m, x, unspent: nat :|
      Usable(m) && IdleLoad(x) && Admits(m, cfg, x, unspent, Prologue(s.k, i.ack, Off), i.advanced, i.admitted);
    var s0 := PrologueStep(s, i.ack, Off);
    if CanTake(s0.k) {
      NothingExactly(m, cfg, x, unspent, s0.k, i.advanced, i.admitted);
      AckKeepsPool(s);
      PrologueSetup(s.k, i.ack);
      Reachable(s0, cfg);
    }
  }

  lemma Reachable(s: Sys, cfg: Config)
    requires Inv(s) && CanTake(s.k) && Room(s.k.c, s.k.p.all)
    requires forall y | y in s.k.p.all :: y.InputLen() <= cfg.maxScheduled
    ensures !OutOfReach(s.k.p, IdleCap(s.k.c, cfg))
  {
    if s.k.p.selectable != {} {
      var x :| x in s.k.p.selectable && x.InputLen() <= s.k.c.Space();
      assert x in s.k.p.all;
    } else {
      NoSamplesLeft(s);
      var x :| x in s.k.p.all;
    }
  }

  /** The scheduler's decision in every settled state with the corpus `all`; of what it admits the
      base scheduler schedules something. */
  ghost predicate IdleAlways(cfg: Config, choice: Core -> ScheduleInput, all: set<Sample>) {
    forall s {:trigger Settled(s)} | Settled(s) && s.k.p.all == all ::
      IdleStep(cfg, s.k, choice(s.k)) && (choice(s.k).admitted != [] ==> choice(s.k).batch != [])
  }

  /** Without arrivals the scheduler trains every epoch, if every sample fits the buffer and the
      engine's token budget for one step. */
  lemma IdleEngineFinishes(s: Sys, cfg: Config, choice: Core -> ScheduleInput) returns (es: seq<Event>, t: Sys)
    requires Settled(s) && IdleAlways(cfg, choice, s.k.p.all)
    requires forall y | y in s.k.p.all :: y.InputLen() <= cfg.maxScheduled
    ensures Run(s, es, t) && Settled(t) && Finished(t) && t.k.p.all == s.k.p.all
  {
    forall q | Settled(q) && q.k.p.all == s.k.p.all ensures Completion.Eager(q.k, choice(q.k)) {
      IdleStepIsEager(q, cfg, choice(q.k));
    }
    es, t := EagerEngineFinishes(s, choice);
  }
}
