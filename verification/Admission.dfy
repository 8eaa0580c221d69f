/** What `admit_ft_to_step` decides, as a relation on the state it reads: its gates, its caps and
    checks, the smallest-first choice, and the leaky bucket's credit. */
module Admission {
  import opened Samples
  import opened Coordinator
  import opened FinetuningStore
  import opened StepSpec
  import opened Estimator

  datatype Config = Config(bothPhases: bool, decodeMargin: real, matchFactor: real, propFactor: real,
                           ttftSlo: real, maxTbtSlo: real, maxScheduled: nat)

  /** The upcoming step without FT, as the scheduler estimates it. */
  datatype Ctx = Ctx(feats: Features, earliest: Option<real>, now: real, queueWait: real) {
    predicate HasPrefill() {
      feats.tIn > 0
    }

    predicate DecodeOnlyStep() {
      feats.tIn == 0 && feats.bD > 0
    }
  }

  /** The limits every hypothetical step is held against; None where a check does not apply. */
  datatype Limits = Limits(cap: int, tbt: Option<real>, slack: Option<real>) {
    predicate Within(t: real) {
      (tbt.Some? ==> t <= tbt.value) && (slack.Some? ==> slack.value - t > 0.0)
    }
  }

  /** The contended-decode regime alone is no usable fit (`Estimator.Model.SelectFailsExactly`). */
  ghost predicate Usable(m: Model) {
    && m.params.Keys != {DecodeBwd}
    && forall r | r in m.rmse :: m.rmse[r] >= 0.0
  }

  lemma UsableSelects(m: Model, r: Regime)
    requires Usable(m)
    ensures m.IsReady() ==> m.Select(r).Some? && m.Select(r).value in m.params
  {
    if m.IsReady() {
      m.SelectFailsExactly(r);
      m.SelectFitted(r);
    }
  }

  /** Conversion to an integer as the source does it, towards zero. */
  function Trunc(x: real): int {
    if x >= 0.0 then x.Floor else -((-x).Floor)
  }

  function Lens(ss: seq<Sample>): (r: seq<nat>)
    ensures |r| == |ss|
    ensures forall i | 0 <= i < |r| :: r[i] == ss[i].InputLen()
  {
    seq(|ss|, i requires 0 <= i < |ss| => ss[i].InputLen())
  }

  /** The step with the samples `a` added: FT prefill is prefill. */
  function Hyp(f: Features, a: seq<Sample>): Features {
    Features(f.tIn + SumLens(a), f.p + |a|, SumLens(a), f.bD, f.k, f.prefillLens + Lens(a), false)
  }

  ghost function TimeWith(m: Model, f: Features, a: seq<Sample>): real
    requires Usable(m)
  {
    var h := Hyp(f, a);
    UsableSelects(m, h.RegimeOf(m.split));
    m.Predict(h, h.RegimeOf(m.split))
  }

  /** The token cap and the SLO checks hold with `a` in the step. */
  ghost predicate Fits(m: Model, f: Features, lim: Limits, a: seq<Sample>)
    requires Usable(m)
  {
    && SumLens(a) <= lim.cap
    && (a != [] && m.IsReady() ==> lim.Within(TimeWith(m, f, a)))
  }

  // ---------------------------------------------------------------- the decision

  function Margin(cfg: Config, x: Ctx): real {
    if cfg.bothPhases && x.DecodeOnlyStep() then cfg.decodeMargin else 1.0
  }

  ghost function Baseline(m: Model, x: Ctx): real
    requires Usable(m)
  {
    UsableSelects(m, DecodeOnly);
    UsableSelects(m, InfPrefill);
    if !m.IsReady() || (x.feats.tIn == 0 && x.feats.bD == 0) then 0.0
    else if x.DecodeOnlyStep() then m.Predict(x.feats, DecodeOnly)
    else m.Predict(x.feats, InfPrefill)
  }

  function Deadline(cfg: Config, x: Ctx): Option<real> {
    if x.HasPrefill() && x.earliest.Some? then Some(x.earliest.value + 0.9 * cfg.ttftSlo) else None
  }

  /** The phase gate and the headroom of the step without FT. */
  ghost predicate Gate(m: Model, cfg: Config, x: Ctx)
    requires Usable(m)
  {
    && (x.DecodeOnlyStep() ==> cfg.bothPhases)
    && (m.IsReady() && x.feats.bD > 0 ==> Baseline(m, x) < cfg.maxTbtSlo * Margin(cfg, x))
    && (m.IsReady() && Deadline(cfg, x).Some? ==>
         Deadline(cfg, x).value - x.now - x.queueWait - Baseline(m, x) > 0.0)
  }

  function TokenCap(c: Coord, cfg: Config, x: Ctx): int {
    var cap := if cfg.propFactor != -1.0 && x.HasPrefill()
               then Min(c.Space(), Trunc(x.feats.tIn as real * cfg.propFactor)) else c.Space();
    Min(cap, cfg.maxScheduled - x.feats.tIn - x.feats.bD)
  }

  function LimitsFor(m: Model, c: Coord, cfg: Config, x: Ctx): Limits {
    Limits(TokenCap(c, cfg, x),
           if m.IsReady() && x.feats.bD > 0 then Some(cfg.maxTbtSlo * Margin(cfg, x)) else None,
           if m.IsReady() && Deadline(cfg, x).Some? then Some(Deadline(cfg, x).value - x.now - x.queueWait) else None)
  }

  /** `a` lists samples of `pool`, each a shortest one of those not listed before it. */
  ghost predicate SmallestFirst(a: seq<Sample>, pool: set<Sample>) {
    && Distinct(a) && Elems(a) <= pool
    && forall j, y | 0 <= j < |a| && y in pool && y !in a[..j] :: a[j].InputLen() <= y.InputLen()
  }

  ghost predicate NextIs(y: Sample, a: seq<Sample>, pool: set<Sample>) {
    y in pool && y !in a && forall z | z in pool && z !in a :: y.InputLen() <= z.InputLen()
  }

  /** The limits held after every sample. */
  ghost predicate AllFit(m: Model, f: Features, lim: Limits, a: seq<Sample>)
    requires Usable(m)
  {
    forall j | 0 <= j <= |a| :: Fits(m, f, lim, a[..j])
  }

  lemma AllFitOne(m: Model, f: Features, lim: Limits, a: seq<Sample>, y: Sample)
    requires Usable(m) && AllFit(m, f, lim, a) && Fits(m, f, lim, a + [y])
    ensures AllFit(m, f, lim, a + [y])
  {
    forall j | 0 <= j <= |a + [y]| ensures Fits(m, f, lim, (a + [y])[..j]) {
      if j <= |a| {
        assert (a + [y])[..j] == a[..j];
      } else {
        assert (a + [y])[..j] == a + [y];
      }
    }
  }

  lemma AllFitWhole(m: Model, f: Features, lim: Limits, a: seq<Sample>)
    requires Usable(m) && AllFit(m, f, lim, a)
    ensures Fits(m, f, lim, a)
  {
    assert a[..|a|] == a;
  }

  /** The loop's outcome: smallest first, always within the limits, and stopped only by the
      iteration cap, an exhausted pool, or a next sample that does not fit. */
  ghost predicate Greedy(m: Model, f: Features, lim: Limits, pool: set<Sample>, most: Option<nat>, a: seq<Sample>)
    requires Usable(m)
  {
    && SmallestFirst(a, pool)
    && AllFit(m, f, lim, a)
    && (most.Some? ==> |a| <= most.value)
    && ((most.Some? && |a| == most.value) || Elems(a) == pool || exists y :: NextIs(y, a, pool) && !Fits(m, f, lim, a + [y]))
  }

  /** The first sample admitted is a shortest one and fits by itself. */
  lemma FirstFits(m: Model, f: Features, lim: Limits, pool: set<Sample>, most: Option<nat>, a: seq<Sample>)
    requires Usable(m) && Greedy(m, f, lim, pool, most, a) && a != []
    ensures NextIs(a[0], [], pool) && Fits(m, f, lim, [a[0]])
  {
    assert a[..0] == [] && a[..1] == [a[0]];
    assert a[0] in Elems(a);
  }

  /** Where no shortest sample fits, nothing is admitted, and only then. */
  lemma StopsAtOnce(m: Model, f: Features, lim: Limits, pool: set<Sample>, y: Sample)
    requires Usable(m) && lim.cap >= 0 && NextIs(y, [], pool)
    requires forall z | NextIs(z, [], pool) :: !Fits(m, f, lim, [z])
    ensures Greedy(m, f, lim, pool, None, [])
    ensures forall a | Greedy(m, f, lim, pool, None, a) :: a == []
  {
    assert [] + [y] == [y];
    forall a | Greedy(m, f, lim, pool, None, a) ensures a == [] {
      if a != [] {
        FirstFits(m, f, lim, pool, None, a);
      }
    }
  }

  datatype Shaper = Deny | Limit(most: Option<nat>)

  /** The leaky bucket: admit one sample once the prefill credit covers the next one. */
  ghost function Bucket(cfg: Config, x: Ctx, unspent: nat, p: Pool): Shaper {
    if cfg.matchFactor > 0.0 && x.HasPrefill() then
      var next := NextLen(p.selectable);
      if next.Some? && (unspent + x.feats.tIn) as real * cfg.matchFactor >= next.value as real then Limit(Some(1)) else Deny
    else Limit(None)
  }

  predicate Stage0(k: Core) {
    k.c.Budget() > 0 && (k.p.selectable != {} || k.p.epoch < k.p.totalEpochs - 1)
  }

  /** The bucket's level after the call. */
  ghost function Unspent(m: Model, cfg: Config, x: Ctx, unspent: nat, k: Core): nat
    requires Usable(m)
  {
    if Stage0(k) && Gate(m, cfg, x) && Bucket(cfg, x, unspent, k.p).Deny? && k.p.selectable != {}
    then unspent + x.feats.tIn else unspent
  }

  /** The whole decision. */
  ghost predicate Admits(m: Model, cfg: Config, x: Ctx, unspent: nat, k: Core, advanced: bool, a: seq<Sample>)
    requires Usable(m)
  {
    var lim := LimitsFor(m, k.c, cfg, x);
    if Stage0(k) && Gate(m, cfg, x) && Bucket(cfg, x, unspent, k.p).Limit? && lim.cap > 0
       && (k.p.selectable != {} || k.p.CanAdvance())
    then
      && advanced == (k.p.selectable == {})
      && Greedy(m, x.feats, lim, Advanced(k.p, advanced).selectable, Bucket(cfg, x, unspent, k.p).most, a)
    else
      !advanced && a == []
  }

  lemma CapFits(c: Coord, cfg: Config, x: Ctx)
    ensures TokenCap(c, cfg, x) <= c.Space()
    ensures TokenCap(c, cfg, x) + x.feats.tIn + x.feats.bD <= cfg.maxScheduled
    ensures cfg.propFactor != -1.0 && x.HasPrefill() ==> TokenCap(c, cfg, x) <= Trunc(x.feats.tIn as real * cfg.propFactor)
  {
  }

  /** Whatever the gates say, the decision is one the lifecycle protocol allows, and it respects
      the buffer, the step's token budget and the proportional cap. */
  lemma AdmitsIsAllowed(m: Model, cfg: Config, x: Ctx, unspent: nat, k: Core, advanced: bool, a: seq<Sample>)
    requires Usable(m) && Admits(m, cfg, x, unspent, k, advanced, a)
    ensures AdmitOk(k, advanced, a)
    ensures a != [] ==> SumLens(a) + x.feats.tIn + x.feats.bD <= cfg.maxScheduled
    ensures a != [] && cfg.propFactor != -1.0 && x.HasPrefill() ==>
              SumLens(a) <= Trunc(x.feats.tIn as real * cfg.propFactor)
    ensures cfg.matchFactor > 0.0 && x.HasPrefill() ==> |a| <= 1
  {
    CapFits(k.c, cfg, x);
    if a == [] {
      assert Elems(a) == {};
    } else {
      AllFitWhole(m, x.feats, LimitsFor(m, k.c, cfg, x), a);
      assert SumLens(a) <= TokenCap(k.c, cfg, x);
    }
  }

  // ---------------------------------------------------------------- leaky bucket over a run

  /** One schedule call as the bucket sees it; `after` includes the scheduler's reset. */
  datatype Step = Step(tIn: nat, admitted: nat, before: nat, after: nat)

  ghost predicate StepOf(m: Model, cfg: Config, x: Ctx, k: Core, advanced: bool, a: seq<Sample>, s: Step)
    requires Usable(m)
  {
    && Admits(m, cfg, x, s.before, k, advanced, a)
    && s.tIn == x.feats.tIn && s.admitted == SumLens(a)
    && s.after == if s.admitted > 0 then 0 else Unspent(m, cfg, x, s.before, k)
  }

  /** FT tokens on prefill steps are paid for by prefill credit. */
  ghost predicate Paid(f: real, s: Step) {
    if s.tIn > 0 then s.admitted as real + f * s.after as real <= f * (s.before + s.tIn) as real
    else s.after <= s.before
  }

  lemma OneSampleSum(a: seq<Sample>, pool: set<Sample>)
    requires SmallestFirst(a, pool) && |a| <= 1
    ensures SumLens(a) > 0 ==> NextLen(pool).Some? && SumLens(a) == NextLen(pool).value
  {
    if a != [] {
      assert a[0] in Elems(a);
      assert SumLens(a) == a[0].InputLen() + SumLens(a[1..]) && a[1..] == [];
      assert a[..0] == [];
      assert Shortest(pool, a[0].InputLen());
      assert Shortest(pool, NextLen(pool).value);
    }
  }

  lemma PaidByCredit(f: real, s: Step)
    requires (s.before + s.tIn) as real * f >= s.admitted as real && s.after == 0
    ensures Paid(f, s)
  {
  }

  lemma PaidByNothing(f: real, s: Step)
    requires f > 0.0 && s.admitted == 0 && s.after <= s.before + s.tIn
    ensures Paid(f, s)
  {
    Scale(f, s.after, s.before + s.tIn);
  }

  lemma StepIsPaid(m: Model, cfg: Config, x: Ctx, k: Core, advanced: bool, a: seq<Sample>, s: Step)
    requires Usable(m) && StepOf(m, cfg, x, k, advanced, a, s) && cfg.matchFactor > 0.0
    ensures Paid(cfg.matchFactor, s)
  {
    if s.admitted == 0 {
      PaidByNothing(cfg.matchFactor, s);
    } else if s.tIn > 0 {
      CreditWasThere(m, cfg, x, s.before, k, advanced, a);
      PaidByCredit(cfg.matchFactor, s);
    }
  }

  lemma CreditWasThere(m: Model, cfg: Config, x: Ctx, unspent: nat, k: Core, advanced: bool, a: seq<Sample>)
    requires Usable(m) && Admits(m, cfg, x, unspent, k, advanced, a)
    requires cfg.matchFactor > 0.0 && x.HasPrefill() && SumLens(a) > 0
    ensures (unspent + x.feats.tIn) as real * cfg.matchFactor >= SumLens(a) as real
  {
    assert k.p.selectable != {};
    OneSampleSum(a, k.p.selectable);
  }

  lemma Scale(f: real, a: nat, b: nat)
    requires f > 0.0 && a <= b
    ensures f * a as real <= f * b as real
  {
  }

  function PrefillTokens(ss: seq<Step>): nat {
    if ss == [] then 0 else PrefillTokens(ss[..|ss| - 1]) + ss[|ss| - 1].tIn
  }

  function FtOnPrefill(ss: seq<Step>): nat {
    if ss == [] then 0
    else FtOnPrefill(ss[..|ss| - 1]) + if ss[|ss| - 1].tIn > 0 then ss[|ss| - 1].admitted else 0
  }

  /** Some call of the admission, in whatever state and load, took this step. */
  ghost predicate Taken(f: real, s: Step) {
    exists m, cfg: Config, x, k, advanced, a ::
      Usable(m) && cfg.matchFactor == f && StepOf(m, cfg, x, k, advanced, a, s)
  }

  lemma TakenIsPaid(f: real, s: Step)
    requires f > 0.0 && Taken(f, s)
    ensures Paid(f, s)
  {
    var m, cfg: Config, x, k, advanced, a :|
      Usable(m) && cfg.matchFactor == f && StepOf(m, cfg, x, k, advanced, a, s);
    StepIsPaid(m, cfg, x, k, advanced, a, s);
  }

  /** Consecutive schedule calls of one engine, starting with an empty bucket. */
  ghost predicate Chain(ss: seq<Step>, f: real) {
    && (ss != [] ==> ss[0].before == 0)
    && (forall i | 0 <= i < |ss| :: Taken(f, ss[i]))
    && (forall i | 0 < i < |ss| :: ss[i].before == ss[i - 1].after)
  }

  function Level(ss: seq<Step>): nat {
    if ss == [] then 0 else ss[|ss| - 1].after
  }

  lemma Distribute(f: real, a: nat, b: nat)
    ensures f * (a + b) as real == f * a as real + f * b as real
  {
  }

  lemma BoundStep(s: Step, f: real, ft: nat, prefill: nat)
    requires f > 0.0 && Paid(f, s) && ft as real + f * s.before as real <= f * prefill as real
    ensures (ft + if s.tIn > 0 then s.admitted else 0) as real + f * s.after as real <= f * (prefill + s.tIn) as real
  {
    Distribute(f, prefill, s.tIn);
    Distribute(f, s.before, s.tIn);
    if s.tIn == 0 {
      Scale(f, s.after, s.before);
    }
  }

  ghost predicate Credited(ft: nat, level: nat, prefill: nat, f: real) {
    ft as real + f * level as real <= f * prefill as real
  }

  lemma {:induction false} CreditCovers(ss: seq<Step>, f: real)
    requires f > 0.0 && Chain(ss, f)
    ensures Credited(FtOnPrefill(ss), Level(ss), PrefillTokens(ss), f)
  {
    if ss != [] {
      var init := ss[..|ss| - 1];
      ChainInit(ss, f);
      CreditCovers(init, f);
      CreditStep(ss[|ss| - 1], f, FtOnPrefill(init), PrefillTokens(init));
    }
  }

  lemma CreditStep(s: Step, f: real, ft: nat, prefill: nat)
    requires f > 0.0 && Taken(f, s) && Credited(ft, s.before, prefill, f)
    ensures Credited(ft + if s.tIn > 0 then s.admitted else 0, s.after, prefill + s.tIn, f)
  {
    TakenIsPaid(f, s);
    BoundStep(s, f, ft, prefill);
  }

  lemma ChainInit(ss: seq<Step>, f: real)
    requires ss != [] && Chain(ss, f)
    ensures Chain(ss[..|ss| - 1], f) && Taken(f, ss[|ss| - 1]) && ss[|ss| - 1].before == Level(ss[..|ss| - 1])
  {
    var init := ss[..|ss| - 1];
    assert forall i | 0 <= i < |init| :: init[i] == ss[i];
  }

  ghost predicate AtMost(tokens: nat, f: real, prefill: nat) {
    tokens as real <= f * prefill as real
  }

  /** Over any run, whatever denials, resets and idle fills happen in between, FT tokens admitted
      on prefill-carrying steps stay below the factor times those steps' prefill tokens. */
  lemma BucketBound(ss: seq<Step>, f: real)
    requires f > 0.0 && Chain(ss, f)
    ensures AtMost(FtOnPrefill(ss), f, PrefillTokens(ss))
  {
    CreditCovers(ss, f);
    CreditIsBound(FtOnPrefill(ss), Level(ss), PrefillTokens(ss), f);
  }

  lemma CreditIsBound(ft: nat, level: nat, prefill: nat, f: real)
    requires f > 0.0 && Credited(ft, level, prefill, f)
    ensures AtMost(ft, f, prefill)
  {
    Scale(f, 0, level);
  }
}
