/** Smallest-first admission is optimal exactly when one more token never makes a sample cheaper. */
module GreedyOptimality {
  import opened Samples
  import opened Coordinator
  import opened FinetuningStore
  import opened StepSpec
  import opened Estimator
  import opened Admission

  /** `c` times `n`, by repeated addition: the quantities multiplied by coefficients are counts. */
  function Times(c: real, n: nat): real {
    if n == 0 then 0.0 else c + Times(c, n - 1)
  }

  /** What a sample of `n` tokens adds to the predicted time, before the margin. */
  function Work(co: Coefs, n: nat): real {
    Times(co.alpha, n * n) + Times(co.beta + co.gamma, n)
  }

  /** Longer samples, up to `most` tokens, cost at least as much as shorter ones, and none costs
      less than nothing. */
  ghost predicate Monotone(co: Coefs, most: nat) {
    && (most >= 1 ==> Work(co, 1) >= 0.0)
    && forall n: nat | 1 <= n < most :: Work(co, n) <= Work(co, n + 1)
  }

  function TotalWork(co: Coefs, a: seq<Sample>): real {
    if a == [] then 0.0 else Work(co, a[0].InputLen()) + TotalWork(co, a[1..])
  }

  lemma {:induction false} TimesIs(c: real, n: nat)
    ensures Times(c, n) == c * n as real
  {
    if n > 0 {
      TimesIs(c, n - 1);
      assert c * n as real == c + c * (n - 1) as real;
    }
  }

  lemma {:induction false} TimesAdds(c: real, a: nat, b: nat)
    ensures Times(c, a + b) == Times(c, a) + Times(c, b)
  {
    if b > 0 {
      TimesAdds(c, a, b - 1);
    }
  }

  lemma {:induction false} TimesCoefs(c: real, d: real, n: nat)
    ensures Times(c + d, n) == Times(c, n) + Times(d, n)
  {
    if n > 0 {
      TimesCoefs(c, d, n - 1);
    }
  }

  lemma {:induction false} TimesGrows(c: real, a: nat, b: nat)
    requires c >= 0.0 && a <= b
    ensures 0.0 <= Times(c, a) <= Times(c, b)
    decreases b
  {
    if b > 0 {
      TimesGrows(c, if a == 0 then 0 else a - 1, b - 1);
    }
  }

  lemma Square(n: nat)
    ensures n * n <= (n + 1) * (n + 1)
  {
  }

  /** Nonnegative quadratic and per-token coefficients are enough. */
  lemma NonnegativeIsMonotone(co: Coefs, most: nat)
    requires co.alpha >= 0.0 && co.beta + co.gamma >= 0.0
    ensures Monotone(co, most)
  {
    forall n: nat ensures 0.0 <= Work(co, n) <= Work(co, n + 1) {
      Square(n);
      TimesGrows(co.alpha, n * n, (n + 1) * (n + 1));
      TimesGrows(co.beta + co.gamma, n, n + 1);
    }
  }

  lemma {:induction false} WorkGrows(co: Coefs, most: nat, a: nat, b: nat)
    requires Monotone(co, most) && 1 <= a <= b <= most
    ensures 0.0 <= Work(co, a) <= Work(co, b)
    decreases b
  {
    if a < b {
      WorkGrows(co, most, a, b - 1);
    } else if 1 < a {
      WorkGrows(co, most, 1, a - 1);
    }
  }

  // ---------------------------------------------------------------- exchange

  function Cut<T>(s: seq<T>, i: nat): seq<T>
    requires i < |s|
  {
    s[..i] + s[i + 1..]
  }

  lemma {:induction false} CutSums(co: Coefs, a: seq<Sample>, i: nat)
    requires i < |a|
    ensures TotalWork(co, a) == Work(co, a[i].InputLen()) + TotalWork(co, Cut(a, i))
    ensures SumLens(a) == a[i].InputLen() + SumLens(Cut(a, i))
  {
    if i == 0 {
      assert Cut(a, 0) == a[1..];
    } else {
      CutSums(co, a[1..], i - 1);
      assert Cut(a, i) == [a[0]] + Cut(a[1..], i - 1);
    }
  }

  lemma AppendSums(co: Coefs, a: seq<Sample>, y: Sample)
    ensures TotalWork(co, a + [y]) == TotalWork(co, a) + Work(co, y.InputLen())
    ensures SumLens(a + [y]) == SumLens(a) + y.InputLen()
  {
    CutSums(co, a + [y], |a|);
    assert Cut(a + [y], |a|) == a;
  }

  lemma {:induction false} FewElems(a: seq<Sample>)
    ensures |Elems(a)| <= |a|
  {
    if a != [] {
      FewElems(a[1..]);
      assert Elems(a) == {a[0]} + Elems(a[1..]);
    }
  }

  lemma DistinctCount(t: seq<Sample>)
    requires Distinct(t)
    ensures |Elems(t)| == |t|
  {
    DistinctMultiset(t);
    assert |multiset(Elems(t))| == |multiset(t)|;
  }

  /** A longer list without repetitions has an entry the shorter one lacks. */
  lemma Pigeonhole(t: seq<Sample>, a: seq<Sample>) returns (i: nat)
    requires Distinct(t) && |t| > |a|
    ensures i < |t| && t[i] !in a
  {
    DistinctCount(t);
    FewElems(a);
    if forall x | x in t :: x in a {
      assert Elems(t) <= Elems(a);
      CardOfSubset(Elems(t), Elems(a));
      assert false;
    }
    var x :| x in t && x !in a;
    i :| 0 <= i < |t| && t[i] == x;
  }

  lemma CardOfSubset<T>(a: set<T>, b: set<T>)
    requires a <= b
    ensures |a| <= |b|
  {
    assert b == a + (b - a);
  }

  ghost predicate LensWithin(pool: set<Sample>, most: nat) {
    forall x | x in pool :: 1 <= x.InputLen() <= most
  }

  /** The last sample of a smallest-first list is no longer than one not listed before it. */
  lemma LastIsCheapest(co: Coefs, most: nat, pool: set<Sample>, a: seq<Sample>, y: Sample)
    requires Monotone(co, most) && LensWithin(pool, most) && SmallestFirst(a, pool) && a != []
    requires y in pool && y !in a[..|a| - 1]
    ensures var x := a[|a| - 1];
            x.InputLen() <= y.InputLen() && Work(co, x.InputLen()) <= Work(co, y.InputLen())
    ensures TotalWork(co, a) == TotalWork(co, a[..|a| - 1]) + Work(co, a[|a| - 1].InputLen())
    ensures SumLens(a) == SumLens(a[..|a| - 1]) + a[|a| - 1].InputLen()
  {
    var k := |a| - 1;
    assert a == a[..k] + [a[k]];
    AppendSums(co, a[..k], a[k]);
    assert a[k] in Elems(a);
    WorkGrows(co, most, a[k].InputLen(), y.InputLen());
  }

  /** Smallest-first is cheapest among all choices of as many samples, in tokens and in time. */
  lemma {:induction false} Exchange(co: Coefs, most: nat, pool: set<Sample>, a: seq<Sample>, t: seq<Sample>)
    requires Monotone(co, most) && LensWithin(pool, most) && SmallestFirst(a, pool)
    requires Distinct(t) && Elems(t) <= pool && |t| == |a|
    ensures TotalWork(co, a) <= TotalWork(co, t) && SumLens(a) <= SumLens(t)
    decreases |a|
  {
    if a != [] {
      var init := a[..|a| - 1];
      var i := Pigeonhole(t, init);
      assert t[i] in Elems(t);
      InitSmallest(a, pool);
      CutSubset(t, i, pool);
      Exchange(co, most, pool, init, Cut(t, i));
      CutSums(co, t, i);
      LastIsCheapest(co, most, pool, a, t[i]);
    }
  }

  lemma InitSmallest(a: seq<Sample>, pool: set<Sample>)
    requires SmallestFirst(a, pool) && a != []
    ensures SmallestFirst(a[..|a| - 1], pool)
  {
    var init := a[..|a| - 1];
    assert forall j | 0 <= j < |init| :: init[..j] == a[..j];
    assert Elems(init) <= Elems(a);
  }

  lemma CutSubset(t: seq<Sample>, i: nat, pool: set<Sample>)
    requires Distinct(t) && Elems(t) <= pool && i < |t|
    ensures Distinct(Cut(t, i)) && Elems(Cut(t, i)) <= pool
  {
    assert Elems(Cut(t, i)) <= Elems(t);
  }

  /** Fewer samples cost no more. */
  lemma {:induction false} PrefixCheaper(co: Coefs, most: nat, pool: set<Sample>, t: seq<Sample>, k: nat)
    requires Monotone(co, most) && LensWithin(pool, most) && Elems(t) <= pool && k <= |t|
    ensures TotalWork(co, t[..k]) <= TotalWork(co, t) && SumLens(t[..k]) <= SumLens(t)
    decreases |t|
  {
    if k < |t| {
      var init := t[..|t| - 1];
      var y := t[|t| - 1];
      assert t == init + [y] && init[..k] == t[..k];
      assert y in Elems(t) && Elems(init) <= Elems(t);
      PrefixCheaper(co, most, pool, init, k);
      AppendSums(co, init, y);
      WorkGrows(co, most, y.InputLen(), y.InputLen());
    } else {
      assert t[..k] == t;
    }
  }

  // ---------------------------------------------------------------- prediction

  /** The part of the evaluation that does not depend on the admitted samples. */
  function Base(co: Coefs, f: Features): real {
    Times(co.alpha, SumSq(f.prefillLens)) + Times(co.beta, f.tIn) + Times(co.delta, f.bD) + Times(co.epsilon, f.k) + co.c
  }

  lemma {:induction false} SumSqConcat(a: seq<nat>, b: seq<nat>)
    ensures SumSq(a + b) == SumSq(a) + SumSq(b)
  {
    if a == [] {
      assert a + b == b;
    } else {
      assert (a + b)[1..] == a[1..] + b;
      SumSqConcat(a[1..], b);
    }
  }

  lemma {:induction false} TotalWorkIs(co: Coefs, a: seq<Sample>)
    ensures TotalWork(co, a) == Times(co.alpha, SumSq(Lens(a))) + Times(co.beta, SumLens(a)) + Times(co.gamma, SumLens(a))
  {
    if a != [] {
      var n := a[0].InputLen();
      TotalWorkIs(co, a[1..]);
      assert Lens(a)[1..] == Lens(a[1..]);
      TimesAdds(co.alpha, n * n, SumSq(Lens(a[1..])));
      TimesAdds(co.beta, n, SumLens(a[1..]));
      TimesAdds(co.gamma, n, SumLens(a[1..]));
      TimesCoefs(co.beta, co.gamma, n);
    }
  }

  lemma EvalIs(co: Coefs, h: Features)
    requires h.prefillLens != []
    ensures co.Eval(h) == Times(co.alpha, SumSq(h.prefillLens)) + Times(co.beta, h.tIn) + Times(co.gamma, h.tFt)
                          + Times(co.delta, h.bD) + Times(co.epsilon, h.k) + co.c
  {
    var s := SumSq(h.prefillLens);
    TimesIs(co.alpha, s);
    TimesIs(co.beta, h.tIn);
    TimesIs(co.gamma, h.tFt);
    TimesIs(co.delta, h.bD);
    TimesIs(co.epsilon, h.k);
    EvalTerms(co, h, Times(co.alpha, s), Times(co.beta, h.tIn), Times(co.gamma, h.tFt),
              Times(co.delta, h.bD), Times(co.epsilon, h.k));
  }

  lemma EvalTerms(co: Coefs, h: Features, a: real, b: real, g: real, d: real, e: real)
    requires h.prefillLens != [] && a == co.alpha * SumSq(h.prefillLens) as real && b == co.beta * h.tIn as real
    requires g == co.gamma * h.tFt as real && d == co.delta * h.bD as real && e == co.epsilon * h.k as real
    ensures co.Eval(h) == a + b + g + d + e + co.c
  {
    assert h.S() == SumSq(h.prefillLens) as real;
  }

  lemma EvalHyp(co: Coefs, f: Features, a: seq<Sample>)
    requires a != []
    ensures co.Eval(Hyp(f, a)) == Base(co, f) + TotalWork(co, a)
  {
    assert |Hyp(f, a).prefillLens| > 0;
    EvalIs(co, Hyp(f, a));
    SumSqConcat(f.prefillLens, Lens(a));
    TimesAdds(co.alpha, SumSq(f.prefillLens), SumSq(Lens(a)));
    TimesAdds(co.beta, f.tIn, SumLens(a));
    TotalWorkIs(co, a);
  }

  /** The regime whose coefficients price every step carrying FT next to the inference load `f`. */
  ghost function PricedBy(m: Model, f: Features): (r: Regime)
    requires Usable(m) && m.IsReady()
    ensures r in m.params
  {
    var r := if m.split && (f.tIn > 0 || f.bD > 0) then FtMixed else Eager;
    UsableSelects(m, r);
    m.Select(r).value
  }

  ghost function Priced(m: Model, f: Features): Coefs
    requires Usable(m) && m.IsReady()
  {
    m.params[PricedBy(m, f)]
  }

  lemma CheaperFits(m: Model, f: Features, lim: Limits, a: seq<Sample>, t: seq<Sample>)
    requires Usable(m) && Fits(m, f, lim, t) && a != [] && t != []
    requires SumLens(a) > 0 && SumLens(t) > 0 && SumLens(a) <= SumLens(t)
    requires m.IsReady() ==> TotalWork(Priced(m, f), a) <= TotalWork(Priced(m, f), t)
    ensures Fits(m, f, lim, a)
  {
    if m.IsReady() {
      TimeGrows(m, f, a, t);
    }
  }

  /** The predicted time as a function of the work added: scaled by the margin, never negative. */
  lemma TimeIs(m: Model, f: Features, a: seq<Sample>)
    requires Usable(m) && m.IsReady() && SumLens(a) > 0
    ensures TimeWith(m, f, a) ==
              Charged(Base(Priced(m, f), f) + TotalWork(Priced(m, f), a), m.Margin(PricedBy(m, f)))
    ensures m.Margin(PricedBy(m, f)) >= 0.0
  {
    UsableSelects(m, Hyp(f, a).RegimeOf(m.split));
    assert a != [];
    EvalHyp(Priced(m, f), f, a);
  }

  lemma TimeGrows(m: Model, f: Features, a: seq<Sample>, t: seq<Sample>)
    requires Usable(m) && m.IsReady() && SumLens(a) > 0 && SumLens(t) > 0
    requires TotalWork(Priced(m, f), a) <= TotalWork(Priced(m, f), t)
    ensures TimeWith(m, f, a) <= TimeWith(m, f, t)
  {
    TimeIs(m, f, a);
    TimeIs(m, f, t);
    ChargedGrows(Base(Priced(m, f), f) + TotalWork(Priced(m, f), a), Base(Priced(m, f), f) + TotalWork(Priced(m, f), t),
                 m.Margin(PricedBy(m, f)));
  }

  lemma ChargedGrows(x: real, y: real, k: real)
    requires x <= y && k >= 0.0
    ensures Charged(x, k) <= Charged(y, k)
  {
  }

  // ---------------------------------------------------------------- the theorem

  lemma PositiveSum(a: seq<Sample>, pool: set<Sample>, most: nat)
    requires LensWithin(pool, most) && Elems(a) <= pool && a != []
    ensures SumLens(a) > 0
  {
    assert a[0] in Elems(a);
  }

  lemma ExtendSmallest(a: seq<Sample>, pool: set<Sample>, y: Sample)
    requires SmallestFirst(a, pool) && NextIs(y, a, pool)
    ensures SmallestFirst(a + [y], pool)
  {
    var b := a + [y];
    assert forall j | 0 <= j < |a| :: b[..j] == a[..j];
    assert b[..|a|] == a;
    assert Elems(b) == Elems(a) + {y};
  }

  /** No choice of samples from the pool that meets the caps and the SLO checks has more samples
      than the loop admits. */
  lemma GreedyIsOptimal(m: Model, f: Features, lim: Limits, pool: set<Sample>, most: nat, a: seq<Sample>, t: seq<Sample>)
    requires Usable(m) && LensWithin(pool, most)
    requires m.IsReady() ==> Monotone(Priced(m, f), most)
    requires Greedy(m, f, lim, pool, None, a)
    requires Distinct(t) && Elems(t) <= pool && Fits(m, f, lim, t)
    ensures |t| <= |a|
  {
    if |t| > |a| {
      if Elems(a) == pool {
        DistinctCount(t);
        FewElems(a);
        CardOfSubset(Elems(t), Elems(a));
      } else {
        var y :| NextIs(y, a, pool) && !Fits(m, f, lim, a + [y]);
        OneMoreFits(m, f, lim, pool, most, a, t, y);
      }
      assert false;
    }
  }

  /** For the whole decision: past the gates and with the leaky bucket off, whatever subset of the
      pool meets the buffer, proportional and step-budget caps and the SLO checks has at most as
      many samples as are admitted. The pool is that of the next epoch when this one is drained. */
  lemma AdmissionIsOptimal(m: Model, cfg: Config, x: Ctx, unspent: nat, k: Core, most: nat, advanced: bool,
                           a: seq<Sample>, t: seq<Sample>)
    requires Usable(m) && Admits(m, cfg, x, unspent, k, advanced, a)
    requires Stage0(k) && Gate(m, cfg, x) && Bucket(cfg, x, unspent, k.p) == Limit(None)
    requires m.IsReady() ==> Monotone(Priced(m, x.feats), most)
    requires Distinct(t) && Elems(t) <= Advanced(k.p, k.p.selectable == {}).selectable
    requires LensWithin(Advanced(k.p, k.p.selectable == {}).selectable, most)
    requires Fits(m, x.feats, LimitsFor(m, k.c, cfg, x), t)
    ensures |t| <= |a|
  {
    var pool := Advanced(k.p, k.p.selectable == {}).selectable;
    if t != [] {
      PositiveSum(t, pool, most);
      assert t[0] in Elems(t);
      GreedyIsOptimal(m, x.feats, LimitsFor(m, k.c, cfg, x), pool, most, a, t);
    }
  }

  lemma OneMoreFits(m: Model, f: Features, lim: Limits, pool: set<Sample>, most: nat, a: seq<Sample>, t: seq<Sample>, y: Sample)
    requires Usable(m) && LensWithin(pool, most)
    requires m.IsReady() ==> Monotone(Priced(m, f), most)
    requires SmallestFirst(a, pool) && NextIs(y, a, pool)
    requires Distinct(t) && Elems(t) <= pool && Fits(m, f, lim, t) && |t| > |a|
    ensures Fits(m, f, lim, a + [y])
  {
    var co := if m.IsReady() then Priced(m, f) else Coefs(0.0, 0.0, 0.0, 0.0, 0.0, 0.0);
    var b := a + [y];
    var u := t[..|b|];
    if !m.IsReady() {
      NonnegativeIsMonotone(co, most);
    }
    ExtendSmallest(a, pool, y);
    assert Elems(u) <= Elems(t);
    Exchange(co, most, pool, b, u);
    PrefixCheaper(co, most, pool, t, |b|);
    PositiveSum(b, pool, most);
    PositiveSum(t, pool, most);
    CheaperFits(m, f, lim, b, t);
  }

  // ---------------------------------------------------------------- and only then

  function SampleOf(id: string, n: nat): (s: Sample)
    ensures s.requestId == id && s.InputLen() == n
  {
    Sample(id, seq(n, i => 0))
  }

  /** An estimator that has fitted FT steps with `co`, and decode-only steps as free. */
  function ModelOf(co: Coefs): (m: Model)
    ensures Usable(m) && m.IsReady()
  {
    assert Eager in map[Eager := co, DecodeOnly := FREE].Keys;
    Model(map[Eager := co, DecodeOnly := FREE], map[], false)
  }

  const FREE := Coefs(0.0, 0.0, 0.0, 0.0, 0.0, 0.0)

  /** A decode-only step with one decoding request. */
  const ONE_DECODE := Features(0, 0, 0, 1, 0, [], false)

  const DECODING := Ctx(ONE_DECODE, None, 0.0, 0.0)

  /** A fresh engine with the corpus `pool`. */
  function Fresh(pool: set<Sample>, capacity: nat): Core {
    Core(Coord(capacity, capacity, 1, 0, 0, [], [], true, false, false, true, false, None, false, None, None, 0, 0),
         Pool(pool, pool, {}, {}, 0, 1))
  }

  /** Configs that let FT into decode steps under a latency limit that is no zero. */
  predicate LetsDecodeIn(cfg: Config) {
    cfg.bothPhases && cfg.maxTbtSlo * cfg.decodeMargin > 0.0
  }

  function TbtLimit(cfg: Config): real {
    cfg.maxTbtSlo * cfg.decodeMargin
  }

  lemma TimeOf(co: Coefs, a: seq<Sample>)
    requires SumLens(a) > 0
    ensures var t := co.delta + co.c + TotalWork(co, a);
            TimeWith(ModelOf(co), ONE_DECODE, a) == if t > 0.0 then t else 0.0
  {
    assert a != [];
    EvalHyp(co, ONE_DECODE, a);
    assert SumSq(ONE_DECODE.prefillLens) == 0;
    assert Times(co.delta, 1) == co.delta + Times(co.delta, 0);
    assert Hyp(ONE_DECODE, a).RegimeOf(false) == Eager;
  }

  /** The step passes every gate, and FT is held against the caps and the latency limit alone. */
  lemma DecodingPasses(co: Coefs, cfg: Config, pool: set<Sample>, capacity: nat)
    requires LetsDecodeIn(cfg) && pool != {} && 0 < capacity < cfg.maxScheduled
    ensures var m, k := ModelOf(co), Fresh(pool, capacity);
            && Stage0(k) && Gate(m, cfg, DECODING) && Bucket(cfg, DECODING, 0, k.p) == Limit(None)
            && LimitsFor(m, k.c, cfg, DECODING) == Limits(capacity, Some(TbtLimit(cfg)), None)
  {
    DecodingLimit(cfg);
    DecodingIsFree(co);
    var lim := LimitsFor(ModelOf(co), Fresh(pool, capacity).c, cfg, DECODING);
    assert lim.cap == capacity;
    assert lim.slack == None;
    assert lim.tbt.Some?;
    assert lim.tbt.value == TbtLimit(cfg);
  }

  lemma DecodingLimit(cfg: Config)
    requires LetsDecodeIn(cfg)
    ensures DECODING.DecodeOnlyStep() && cfg.maxTbtSlo * Margin(cfg, DECODING) == TbtLimit(cfg)
  {
    assert Margin(cfg, DECODING) == cfg.decodeMargin;
  }

  lemma DecodingIsFree(co: Coefs)
    ensures Baseline(ModelOf(co), DECODING) == 0.0
  {
    assert ModelOf(co).Select(DecodeOnly) == Some(DecodeOnly);
    assert FREE.Eval(ONE_DECODE) == 0.0;
  }

  lemma OneWork(co: Coefs, x: Sample)
    ensures TotalWork(co, [x]) == Work(co, x.InputLen()) && SumLens([x]) == x.InputLen()
  {
    assert [x][1..] == [];
  }

  lemma WorkIgnoresConstant(co: Coefs, c: real, n: nat)
    ensures Work(co.(c := c), n) == Work(co, n)
  {
  }

  /** The engine with the corpus `pool` admits nothing on the decode step, although the choice `t`
      meets every cap and check. */
  ghost predicate Misses(co: Coefs, cfg: Config, pool: set<Sample>, capacity: nat, t: seq<Sample>) {
    var m, k := ModelOf(co), Fresh(pool, capacity);
    && k.p.Valid() && Priced(m, ONE_DECODE) == co
    && Stage0(k) && Gate(m, cfg, DECODING) && Bucket(cfg, DECODING, 0, k.p) == Limit(None)
    && t != [] && Distinct(t) && Elems(t) <= pool && Fits(m, ONE_DECODE, LimitsFor(m, k.c, cfg, DECODING), t)
    && Admits(m, cfg, DECODING, 0, k, false, [])
    && forall advanced, a | Admits(m, cfg, DECODING, 0, k, advanced, a) :: a == []
  }

  /** Where a longer sample is cheaper, or one costs less than nothing, there are, for every config
      that lets FT into decode steps, a constant term and a corpus of two samples on which the
      whole decision admits nothing although something meets every check. So the condition of
      `AdmissionIsOptimal` cannot be weakened. */
  lemma OnlyWhenMonotone(co: Coefs, most: nat, cfg: Config)
    returns (c: real, pool: set<Sample>, capacity: nat, t: seq<Sample>)
    requires !Monotone(co, most) && LetsDecodeIn(cfg) && cfg.maxScheduled > 2 * most
    ensures LensWithin(pool, most) && Misses(co.(c := c), cfg, pool, capacity, t)
  {
    capacity := 2 * most;
    if most >= 1 && Work(co, 1) < 0.0 {
      c, pool, t := NegativeOne(co, cfg, capacity);
    } else {
      var n: nat :| 1 <= n < most && Work(co, n) > Work(co, n + 1);
      c, pool, t := CheaperNext(co, cfg, n, capacity);
    }
  }

  lemma NegativeOne(co: Coefs, cfg: Config, capacity: nat) returns (c: real, pool: set<Sample>, t: seq<Sample>)
    requires Work(co, 1) < 0.0 && LetsDecodeIn(cfg) && 2 <= capacity < cfg.maxScheduled
    ensures LensWithin(pool, 1) && Misses(co.(c := c), cfg, pool, capacity, t)
  {
    var a, b := SampleOf("a", 1), SampleOf("b", 1);
    pool, t := {a, b}, [a, b];
    c := TbtLimit(cfg) - 2.0 * Work(co, 1) - co.delta;
    var co' := co.(c := c);
    WorkIgnoresConstant(co, c, 1);
    OneWork(co', a);
    OneWork(co', b);
    AppendSums(co', [a], b);
    assert [a] + [b] == t;
    TimeOf(co', [a]);
    TimeOf(co', [b]);
    TimeOf(co', t);
    Missed(co', cfg, pool, capacity, t, a);
  }

  lemma CheaperNext(co: Coefs, cfg: Config, n: nat, capacity: nat) returns (c: real, pool: set<Sample>, t: seq<Sample>)
    requires n >= 1 && Work(co, n) > Work(co, n + 1) && LetsDecodeIn(cfg) && n < capacity < cfg.maxScheduled
    ensures LensWithin(pool, n + 1) && Misses(co.(c := c), cfg, pool, capacity, t)
  {
    var a, b := SampleOf("a", n), SampleOf("b", n + 1);
    pool, t := {a, b}, [b];
    c := TbtLimit(cfg) - Work(co, n + 1) - co.delta;
    var co' := co.(c := c);
    WorkIgnoresConstant(co, c, n);
    WorkIgnoresConstant(co, c, n + 1);
    OneWork(co', a);
    OneWork(co', b);
    TimeOf(co', [a]);
    TimeOf(co', [b]);
    Missed(co', cfg, pool, capacity, t, a);
  }

  /** No shortest sample meets the latency limit, yet `t` does. */
  lemma Missed(co: Coefs, cfg: Config, pool: set<Sample>, capacity: nat, t: seq<Sample>, y: Sample)
    requires LetsDecodeIn(cfg) && 0 < capacity < cfg.maxScheduled && Fresh(pool, capacity).p.Valid()
    requires NextIs(y, [], pool) && forall z | NextIs(z, [], pool) :: TimeWith(ModelOf(co), ONE_DECODE, [z]) > TbtLimit(cfg)
    requires t != [] && Distinct(t) && Elems(t) <= pool && SumLens(t) <= capacity
    requires TimeWith(ModelOf(co), ONE_DECODE, t) <= TbtLimit(cfg)
    ensures Misses(co, cfg, pool, capacity, t)
  {
    var m, k := ModelOf(co), Fresh(pool, capacity);
    DecodingPasses(co, cfg, pool, capacity);
    StopsAtOnce(m, ONE_DECODE, LimitsFor(m, k.c, cfg, DECODING), pool, y);
    assert m.Select(Eager) == Some(Eager);
  }
}
