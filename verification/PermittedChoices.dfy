/** The admission decision in the operator's terms: which choices of samples a step's deadlines, caps
    and credit permit, written out from the settings and the load. What is admitted is one of them,
    and none of them has more samples. */
module PermittedChoices {
  import opened Samples
  import opened Coordinator
  import opened FinetuningStore
  import opened StepSpec
  import opened Estimator
  import opened Admission
  import opened GreedyOptimality

  /** The predicted time of the step without FT. */
  ghost function WithoutFt(m: Model, f: Features): real
    requires Usable(m) && m.IsReady()
  {
    UsableSelects(m, DecodeOnly);
    UsableSelects(m, InfPrefill);
    m.Predict(f, if f.tIn == 0 then DecodeOnly else InfPrefill)
  }

  /** The step has headroom by itself, and carries FT at all in its phase. */
  ghost predicate StepPermits(m: Model, cfg: Config, x: Ctx)
    requires Usable(m)
  {
    && (x.feats.tIn == 0 && x.feats.bD > 0 ==> cfg.bothPhases)
    && (m.IsReady() && x.feats.bD > 0 ==>
         WithoutFt(m, x.feats) < cfg.maxTbtSlo * (if x.feats.tIn == 0 then cfg.decodeMargin else 1.0))
    && (m.IsReady() && x.feats.tIn > 0 && x.earliest.Some? ==>
         x.now + x.queueWait + WithoutFt(m, x.feats) < x.earliest.value + 0.9 * cfg.ttftSlo)
  }

  /** With the samples `t` the running requests still get their next token in time, and the request
      waiting longest its first. */
  ghost predicate TimesPermit(m: Model, cfg: Config, x: Ctx, t: seq<Sample>)
    requires Usable(m)
  {
    m.IsReady() ==>
      && (x.feats.bD > 0 ==>
           TimeWith(m, x.feats, t) <= cfg.maxTbtSlo * (if cfg.bothPhases && x.feats.tIn == 0 then cfg.decodeMargin else 1.0))
      && (x.feats.tIn > 0 && x.earliest.Some? ==>
           x.now + x.queueWait + TimeWith(m, x.feats, t) < x.earliest.value + 0.9 * cfg.ttftSlo)
  }

  /** The tokens of `t` fit the buffer, the step beside its inference, and the share of the prefill. */
  predicate CapsPermit(c: Coord, cfg: Config, x: Ctx, t: seq<Sample>) {
    && c.fill + c.reserved + SumLens(t) <= c.capacity
    && SumLens(t) + x.feats.tIn + x.feats.bD <= cfg.maxScheduled
    && (cfg.propFactor != -1.0 && x.feats.tIn > 0 ==> SumLens(t) as real <= x.feats.tIn as real * cfg.propFactor)
  }

  /** On a prefill step under the leaky bucket: one sample, paid for by prefill not yet spent. */
  predicate CreditPermits(cfg: Config, x: Ctx, unspent: nat, t: seq<Sample>) {
    cfg.matchFactor > 0.0 && x.feats.tIn > 0 ==>
      |t| == 1 && SumLens(t) as real <= (unspent + x.feats.tIn) as real * cfg.matchFactor
  }

  /** `t` are samples left in this epoch, or of the next one if none is and all are trained. */
  ghost predicate FromPool(p: Pool, cfg: Config, x: Ctx, t: seq<Sample>) {
    && Distinct(t)
    && if p.selectable != {} then Elems(t) <= p.selectable
       else Elems(t) <= p.all && p.claimed == {} && p.epoch < p.totalEpochs - 1 && !(cfg.matchFactor > 0.0 && x.feats.tIn > 0)
  }

  /** Everything that a non-empty choice has to meet. */
  ghost predicate Permitted(m: Model, cfg: Config, x: Ctx, unspent: nat, k: Core, t: seq<Sample>)
    requires Usable(m)
  {
    && t != [] && k.c.started && k.c.open && !k.c.pending && k.c.perStepBudget > 0
    && StepPermits(m, cfg, x) && TimesPermit(m, cfg, x, t)
    && CapsPermit(k.c, cfg, x, t) && CreditPermits(cfg, x, unspent, t) && FromPool(k.p, cfg, x, t)
  }

  // ---------------------------------------------------------------- the code's gates and limits

  lemma GateExactly(m: Model, cfg: Config, x: Ctx)
    requires Usable(m)
    ensures Gate(m, cfg, x) <==> StepPermits(m, cfg, x)
  {
    UsableSelects(m, DecodeOnly);
    UsableSelects(m, InfPrefill);
  }

  /** Truncation towards zero against a positive count. */
  lemma TruncBound(n: nat, y: real)
    requires n > 0
    ensures n <= Trunc(y) <==> n as real <= y
  {
    if y >= 0.0 {
      assert y.Floor as real <= y < y.Floor as real + 1.0;
    } else {
      assert (-y).Floor >= 0;
    }
  }

  lemma FitsExactly(m: Model, c: Coord, cfg: Config, x: Ctx, t: seq<Sample>)
    requires Usable(m) && t != [] && SumLens(t) > 0 && c.fill + c.reserved <= c.capacity
    ensures Fits(m, x.feats, LimitsFor(m, c, cfg, x), t) <==> CapsPermit(c, cfg, x, t) && TimesPermit(m, cfg, x, t)
  {
    TruncBound(SumLens(t), x.feats.tIn as real * cfg.propFactor);
    CapExactly(c, cfg, x, t);
    if m.IsReady() {
      WithinExactly(m, c, cfg, x, TimeWith(m, x.feats, t));
    }
  }

  lemma CapExactly(c: Coord, cfg: Config, x: Ctx, t: seq<Sample>)
    requires SumLens(t) > 0 && c.fill + c.reserved <= c.capacity
    requires SumLens(t) <= Trunc(x.feats.tIn as real * cfg.propFactor) <==>
               SumLens(t) as real <= x.feats.tIn as real * cfg.propFactor
    ensures SumLens(t) <= TokenCap(c, cfg, x) <==> CapsPermit(c, cfg, x, t)
  {
  }

  lemma WithinExactly(m: Model, c: Coord, cfg: Config, x: Ctx, t: real)
    requires m.IsReady()
    ensures LimitsFor(m, c, cfg, x).Within(t) <==>
              && (x.feats.bD > 0 ==> t <= cfg.maxTbtSlo * (if cfg.bothPhases && x.feats.tIn == 0 then cfg.decodeMargin else 1.0))
              && (x.feats.tIn > 0 && x.earliest.Some? ==> x.now + x.queueWait + t < x.earliest.value + 0.9 * cfg.ttftSlo)
  {
  }

  // ---------------------------------------------------------------- what is admitted is permitted

  lemma PrefixPositive(p: Pool, a: seq<Sample>, j: nat)
    requires p.Valid() && Elems(a) <= p.all && 0 < j <= |a|
    ensures SumLens(a[..j]) > 0
  {
    assert a[..j][0] == a[0] && a[0] in Elems(a);
  }

  lemma AdvancedPool(p: Pool, advanced: bool)
    requires p.Valid() && advanced == (p.selectable == {}) && (advanced ==> p.CanAdvance())
    ensures Advanced(p, advanced).selectable == if p.selectable != {} then p.selectable else p.all
  {
  }

  /** Past its gates the decision is what the loop finds. */
  lemma DecisionIs(m: Model, cfg: Config, x: Ctx, unspent: nat, k: Core, advanced: bool, a: seq<Sample>)
    requires Usable(m) && Admits(m, cfg, x, unspent, k, advanced, a) && a != []
    ensures Stage0(k) && Gate(m, cfg, x) && Bucket(cfg, x, unspent, k.p).Limit?
    ensures advanced == (k.p.selectable == {}) && (advanced ==> k.p.CanAdvance())
    ensures Greedy(m, x.feats, LimitsFor(m, k.c, cfg, x), Advanced(k.p, advanced).selectable,
                   Bucket(cfg, x, unspent, k.p).most, a)
  {
  }

  lemma CreditWasEnough(cfg: Config, x: Ctx, unspent: nat, p: Pool, a: seq<Sample>)
    requires Bucket(cfg, x, unspent, p).Limit? && SmallestFirst(a, p.selectable) && a != []
    requires Bucket(cfg, x, unspent, p).most == Some(1) ==> |a| <= 1
    requires cfg.matchFactor > 0.0 && x.feats.tIn > 0
    ensures CreditPermits(cfg, x, unspent, a)
  {
    assert a[0] in Elems(a) && a[..0] == [];
    assert Shortest(p.selectable, NextLen(p.selectable).value);
    assert SumLens(a) == a[0].InputLen() + SumLens(a[1..]) && a[1..] == [];
    var y :| y in p.selectable && y.InputLen() == NextLen(p.selectable).value;
    assert a[0].InputLen() <= y.InputLen();
  }

  /** What is admitted is permitted, and so was every sample when it was added; each is a shortest
      one of those left. */
  lemma AdmittedArePermitted(m: Model, cfg: Config, x: Ctx, unspent: nat, k: Core, advanced: bool, a: seq<Sample>, j: nat)
    requires Usable(m) && k.p.Valid() && k.c.fill + k.c.reserved <= k.c.capacity
    requires Admits(m, cfg, x, unspent, k, advanced, a) && 0 < j <= |a|
    ensures Permitted(m, cfg, x, unspent, k, a[..j])
    ensures forall y | y in (if k.p.selectable != {} then k.p.selectable else k.p.all) && y !in a[..j - 1] ::
              a[j - 1].InputLen() <= y.InputLen()
  {
    DecisionIs(m, cfg, x, unspent, k, advanced, a);
    AdvancedPool(k.p, advanced);
    var pool := Advanced(k.p, advanced).selectable;
    GateExactly(m, cfg, x);
    PrefixPositive(k.p, a, j);
    FitsExactly(m, k.c, cfg, x, a[..j]);
    PrefixFromPool(k.p, cfg, x, unspent, a, j);
    if cfg.matchFactor > 0.0 && x.feats.tIn > 0 {
      assert a[..j] == a;
      CreditWasEnough(cfg, x, unspent, k.p, a);
    }
  }

  lemma PrefixFromPool(p: Pool, cfg: Config, x: Ctx, unspent: nat, a: seq<Sample>, j: nat)
    requires 0 < j <= |a| && Distinct(a)
    requires Elems(a) <= if p.selectable != {} then p.selectable else p.all
    requires p.selectable == {} ==> p.CanAdvance() && p.epoch < p.totalEpochs - 1
    requires Bucket(cfg, x, unspent, p).Limit?
    ensures FromPool(p, cfg, x, a[..j])
  {
    assert Elems(a[..j]) <= Elems(a);
  }

  // ---------------------------------------------------------------- and none permitted is larger

  /** A permitted choice passes every gate and fits the limits. */
  lemma PermittedPasses(m: Model, cfg: Config, x: Ctx, unspent: nat, k: Core, t: seq<Sample>)
    requires Usable(m) && k.p.Valid() && k.c.fill + k.c.reserved <= k.c.capacity && Permitted(m, cfg, x, unspent, k, t)
    ensures Stage0(k) && Gate(m, cfg, x) && Bucket(cfg, x, unspent, k.p).Limit? && LimitsFor(m, k.c, cfg, x).cap > 0
    ensures k.p.selectable != {} || k.p.CanAdvance()
    ensures Fits(m, x.feats, LimitsFor(m, k.c, cfg, x), t)
    ensures Elems(t) <= Advanced(k.p, k.p.selectable == {}).selectable
  {
    GateExactly(m, cfg, x);
    assert t[0] in Elems(t);
    assert t[..|t|] == t;
    PrefixPositive(k.p, t, |t|);
    FitsExactly(m, k.c, cfg, x, t);
    if cfg.matchFactor > 0.0 && x.feats.tIn > 0 {
      assert Shortest(k.p.selectable, NextLen(k.p.selectable).value);
      assert SumLens(t) == t[0].InputLen() + SumLens(t[1..]) && t[1..] == [];
    }
  }

  lemma OneIsAdmitted(m: Model, f: Features, lim: Limits, pool: set<Sample>, longest: nat, most: Option<nat>, a: seq<Sample>,
                      t: seq<Sample>)
    requires Usable(m) && LensWithin(pool, longest) && (m.IsReady() ==> Monotone(Priced(m, f), longest))
    requires Greedy(m, f, lim, pool, most, a) && most == Some(1)
    requires Distinct(t) && Elems(t) <= pool && Fits(m, f, lim, t) && |t| == 1
    ensures a != []
  {
    if a == [] {
      assert t[0] in Elems(t);
      assert Elems(a) == {};
      var y :| NextIs(y, a, pool) && !Fits(m, f, lim, a + [y]);
      OneMoreFits(m, f, lim, pool, longest, a, t, y);
    }
  }

  /** Whatever the load and the settings, no permitted choice has more samples than are admitted, if
      one more token never makes a sample cheaper. */
  lemma NoPermittedChoiceIsLarger(m: Model, cfg: Config, x: Ctx, unspent: nat, k: Core, longest: nat, advanced: bool,
                                  a: seq<Sample>, t: seq<Sample>)
    requires Usable(m) && k.p.Valid() && k.c.fill + k.c.reserved <= k.c.capacity && LensWithin(k.p.all, longest)
    requires m.IsReady() ==> Monotone(Priced(m, x.feats), longest)
    requires Admits(m, cfg, x, unspent, k, advanced, a) && Permitted(m, cfg, x, unspent, k, t)
    ensures |t| <= |a|
  {
    PermittedPasses(m, cfg, x, unspent, k, t);
    AdvancedPool(k.p, k.p.selectable == {});
    var pool := Advanced(k.p, k.p.selectable == {}).selectable;
    var lim := LimitsFor(m, k.c, cfg, x);
    if cfg.matchFactor > 0.0 && x.feats.tIn > 0 {
      OneIsAdmitted(m, x.feats, lim, pool, longest, Bucket(cfg, x, unspent, k.p).most, a, t);
    } else {
      GreedyIsOptimal(m, x.feats, lim, pool, longest, a, t);
    }
  }

  // ---------------------------------------------------------------- the credit

  /** The step is held back by its credit alone. */
  ghost predicate HeldBack(m: Model, cfg: Config, x: Ctx, unspent: nat, k: Core)
    requires Usable(m)
  {
    && cfg.matchFactor > 0.0 && x.feats.tIn > 0 && k.p.selectable != {}
    && k.c.started && k.c.open && !k.c.pending && k.c.perStepBudget > 0 && k.c.fill + k.c.reserved < k.c.capacity
    && StepPermits(m, cfg, x)
    && forall y | y in k.p.selectable :: (unspent + x.feats.tIn) as real * cfg.matchFactor < y.InputLen() as real
  }

  /** The prefill of a step held back is credited, an admission spends all credit, and every other
      step leaves it as it is. */
  lemma CreditExactly(m: Model, cfg: Config, x: Ctx, k: Core, advanced: bool, a: seq<Sample>, s: Step)
    requires Usable(m) && k.p.Valid() && StepOf(m, cfg, x, k, advanced, a, s)
    ensures s.after == if a != [] then 0 else if HeldBack(m, cfg, x, s.before, k) then s.before + s.tIn else s.before
    ensures a != [] ==> !HeldBack(m, cfg, x, s.before, k)
  {
    GateExactly(m, cfg, x);
    if k.p.selectable != {} {
      assert Shortest(k.p.selectable, NextLen(k.p.selectable).value);
      var y :| y in k.p.selectable && y.InputLen() == NextLen(k.p.selectable).value;
      if HeldBack(m, cfg, x, s.before, k) {
        assert Bucket(cfg, x, s.before, k.p).Deny?;
      }
    }
    if a != [] {
      DecisionIs(m, cfg, x, s.before, k, advanced, a);
      AdvancedPool(k.p, advanced);
      assert a[..|a|] == a;
      PrefixPositive(k.p, a, |a|);
    }
  }

  /** Some call of the admission was held back in this step. */
  ghost predicate WasHeldBack(f: real, s: Step) {
    exists m, cfg: Config, x, k: Core, advanced, a ::
      && Usable(m) && k.p.Valid() && cfg.matchFactor == f && StepOf(m, cfg, x, k, advanced, a, s)
      && HeldBack(m, cfg, x, s.before, k)
  }

  /** So over a stretch of steps held back the credit is all their prefill, on top of what was there. */
  lemma {:induction false} CreditAccumulates(ss: seq<Step>, f: real)
    requires ss != [] && (forall i | 0 <= i < |ss| :: WasHeldBack(f, ss[i]))
    requires forall i | 0 < i < |ss| :: ss[i].before == ss[i - 1].after
    ensures Level(ss) == ss[0].before + PrefillTokens(ss)
    decreases |ss|
  {
    var last := ss[|ss| - 1];
    var m, cfg: Config, x, k: Core, advanced, a :|
      && Usable(m) && k.p.Valid() && cfg.matchFactor == f && StepOf(m, cfg, x, k, advanced, a, last)
      && HeldBack(m, cfg, x, last.before, k);
    CreditExactly(m, cfg, x, k, advanced, a, last);
    if |ss| > 1 {
      var init := ss[..|ss| - 1];
      assert forall i | 0 <= i < |init| :: init[i] == ss[i];
      CreditAccumulates(init, f);
    } else {
      assert PrefillTokens(ss[..0]) == 0;
    }
  }
}
