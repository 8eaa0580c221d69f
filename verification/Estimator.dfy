/** The step-time model: composition features, regimes, and prediction from fitted coefficients. */
module Estimator {
  import opened Samples

  datatype Regime = InfPrefill | Eager | DecodeOnly | DecodeBwd | FtMixed

  function SumSq(ns: seq<nat>): nat {
    if ns == [] then 0 else ns[0] * ns[0] + SumSq(ns[1..])
  }

  /** Composition of one step. `tFt` is part of `tIn`. */
  datatype Features = Features(tIn: nat, p: nat, tFt: nat, bD: nat, k: nat, prefillLens: seq<nat>, bwd: bool) {
    /** Prefill attention work; a proxy when the individual lengths are unknown. */
    function S(): real {
      if prefillLens != [] then SumSq(prefillLens) as real
      else if p > 0 then (tIn * tIn) as real / p as real
      else 0.0
    }

    function RegimeOf(split: bool): Regime {
      if tFt > 0 then (if split && (tIn > tFt || bD > 0) then FtMixed else Eager)
      else if tIn > 0 then InfPrefill
      else if bwd then DecodeBwd
      else DecodeOnly
    }

    ghost predicate Consistent() {
      tFt <= tIn && tIn == Sum(prefillLens) && p == |prefillLens|
    }
  }

  datatype Coefs = Coefs(alpha: real, beta: real, gamma: real, delta: real, epsilon: real, c: real) {
    function Eval(f: Features): real {
      alpha * f.S() + beta * f.tIn as real + gamma * f.tFt as real
      + delta * f.bD as real + epsilon * f.k as real + c
    }
  }

  /** The time charged for an evaluated `t`: scaled by the margin, never negative. */
  function Charged(t: real, margin: real): real {
    if t * margin > 0.0 then t * margin else 0.0
  }

  /** A regime that has never been fitted has no coefficients; one kept from an earlier fit may
      have lost its error estimate. */
  datatype Model = Model(params: map<Regime, Coefs>, rmse: map<Regime, real>, split: bool) {
    predicate IsReady() {
      params != map[]
    }

    /** The fallback order for a regime that is not fitted itself. */
    function Order(r: Regime): seq<Regime> {
      var order := [Eager, FtMixed, InfPrefill, DecodeOnly];
      if r.DecodeBwd? then [DecodeOnly] + order
      else if r.FtMixed? then [Eager] + order
      else order
    }

    function FirstFitted(order: seq<Regime>): Option<Regime> {
      if order == [] then None
      else if order[0] in params then Some(order[0])
      else FirstFitted(order[1..])
    }

    /** The regime whose coefficients are used; None stands for the source's unfitted
        coefficients, which cannot be evaluated. */
    function Select(r: Regime): Option<Regime> {
      if r in params then Some(r) else FirstFitted(Order(r))
    }

    function Margin(r: Regime): real {
      if r in rmse && rmse[r] != 0.0 then 1.0 + 1.5 * rmse[r] else 1.0
    }

    /** The prediction used for admission, with its safety margin. */
    function Predict(f: Features, r: Regime): real
      requires IsReady() ==> Select(r).Some?
    {
      if !IsReady() then 0.0
      else
        SelectFitted(r);
        var sel := Select(r).value;
        Charged(params[sel].Eval(f), Margin(sel))
    }

    lemma SelectFitted(r: Regime)
      ensures Select(r).Some? ==> Select(r).value in params
    {
      FirstFittedIsFitted(Order(r));
    }

    lemma {:induction false} FirstFittedIsFitted(order: seq<Regime>)
      ensures FirstFitted(order).Some? <==> exists x :: x in order && x in params
      ensures FirstFitted(order).Some? ==> FirstFitted(order).value in order && FirstFitted(order).value in params
    {
      if order != [] && order[0] !in params {
        FirstFittedIsFitted(order[1..]);
        assert forall x :: x in order <==> x == order[0] || x in order[1..];
      }
    }

    /** Prediction has usable coefficients for every step once any regime but the contended-decode
        one is fitted. With that one alone the estimator calls itself ready, yet every other
        regime has nothing to evaluate. */
    lemma SelectFailsExactly(r: Regime)
      requires IsReady()
      ensures Select(r).None? <==> params.Keys == {DecodeBwd} && r != DecodeBwd
    {
      FirstFittedIsFitted(Order(r));
      var x :| x in params;
      if params.Keys == {DecodeBwd} {
        assert forall y | y in Order(r) :: y != DecodeBwd;
      } else {
        assert exists y :: y in params.Keys && y != DecodeBwd by {
          assert params.Keys == {DecodeBwd} || exists y :: y in params.Keys && y != DecodeBwd;
        }
        var y :| y in params.Keys && y != DecodeBwd;
        assert [Eager, FtMixed, InfPrefill, DecodeOnly][0] == Eager;
        assert y in [Eager, FtMixed, InfPrefill, DecodeOnly];
        assert y in Order(r);
      }
    }
  }

  // ---------------------------------------------------------------- what prediction uses

  /** The regimes by what a step carries: FT tokens, inference prefill, or decodes alone. */
  lemma RegimeExactly(f: Features, split: bool)
    ensures var r := f.RegimeOf(split);
            && (r == FtMixed <==> f.tFt > 0 && split && (f.tIn > f.tFt || f.bD > 0))
            && (r == Eager <==> f.tFt > 0 && !(split && (f.tIn > f.tFt || f.bD > 0)))
            && (r == InfPrefill <==> f.tFt == 0 && f.tIn > 0)
            && (r == DecodeBwd <==> f.tFt == 0 && f.tIn == 0 && f.bwd)
            && (r == DecodeOnly <==> f.tFt == 0 && f.tIn == 0 && !f.bwd)
  {
  }

  /** How far down the list of stand-ins for `r` the regime `x` is; `r` itself comes first. The
      contended decode borrows the clean one, and stands in for nothing. */
  function Rank(r: Regime, x: Regime): nat {
    if x == r then 0
    else
      match x
      case Eager => if r == DecodeBwd then 2 else 1
      case FtMixed => if r == DecodeBwd then 3 else 2
      case InfPrefill => if r == DecodeBwd then 4 else 3
      case DecodeOnly => if r == DecodeBwd then 1 else 4
      case DecodeBwd => 5
  }

  /** The coefficients used are those of the fitted regime that stands in best. */
  lemma SelectsBest(m: Model, r: Regime, x: Regime)
    ensures m.Select(r) == Some(x) <==>
              x in m.params && Rank(r, x) < 5 && forall y | y in m.params :: Rank(r, x) <= Rank(r, y)
  {
    var order := [Eager, FtMixed, InfPrefill, DecodeOnly];
    FirstOfFour(m, order);
    FirstOfFive(m, [DecodeOnly] + order);
    FirstOfFive(m, [Eager] + order);
  }

  lemma FirstOfFour(m: Model, order: seq<Regime>)
    requires |order| == 4
    ensures m.FirstFitted(order) ==
              if order[0] in m.params then Some(order[0]) else if order[1] in m.params then Some(order[1])
              else if order[2] in m.params then Some(order[2]) else if order[3] in m.params then Some(order[3]) else None
  {
    assert order[1..][0] == order[1] && order[1..][1..] == order[2..];
    assert order[2..][0] == order[2] && order[2..][1..] == order[3..];
    assert order[3..][0] == order[3] && order[3..][1..] == [];
    assert m.FirstFitted(order[3..][1..]) == None;
    assert m.FirstFitted(order[3..]) == if order[3] in m.params then Some(order[3]) else None;
    assert m.FirstFitted(order[2..]) == if order[2] in m.params then Some(order[2]) else m.FirstFitted(order[3..]);
  }

  lemma FirstOfFive(m: Model, order: seq<Regime>)
    requires |order| == 5
    ensures m.FirstFitted(order) == if order[0] in m.params then Some(order[0]) else m.FirstFitted(order[1..])
  {
  }

  /** A positive estimate is raised by one and a half times the regime's relative error, if that is
      known; what is not positive counts as zero, and nothing is predicted before the first fit. */
  lemma PredictionIs(m: Model, f: Features, r: Regime, x: Regime)
    requires m.IsReady() ==> m.Select(r) == Some(x) && x in m.params
    requires forall y | y in m.rmse :: m.rmse[y] >= 0.0
    ensures m.Predict(f, r) ==
              if m.params == map[] || m.params[x].Eval(f) <= 0.0 then 0.0
              else m.params[x].Eval(f) + if x in m.rmse then 1.5 * m.rmse[x] * m.params[x].Eval(f) else 0.0
  {
    if m.IsReady() {
      var t := m.params[x].Eval(f);
      var e := if x in m.rmse then m.rmse[x] else 0.0;
      assert m.Margin(x) == 1.0 + 1.5 * e;
      Raised(t, e);
    }
  }

  lemma Raised(t: real, e: real)
    requires e >= 0.0
    ensures Charged(t, 1.0 + 1.5 * e) == if t <= 0.0 then 0.0 else t + 1.5 * e * t
  {
    assert t * (1.0 + 1.5 * e) == t + 1.5 * e * t;
    if t <= 0.0 {
      assert t * (1.0 + 1.5 * e) <= 0.0;
    }
  }

  /** The squared distances of the numbers from `x`. */
  function Spread(ns: seq<nat>, x: int): nat {
    if ns == [] then 0 else (ns[0] - x) * (ns[0] - x) + Spread(ns[1..], x)
  }

  lemma {:induction false} SpreadIs(ns: seq<nat>, x: int)
    ensures Spread(ns, x) == SumSq(ns) - 2 * x * Sum(ns) + |ns| * (x * x)
  {
    if ns != [] {
      SpreadIs(ns[1..], x);
      SpreadOneMore(ns[0], x, Sum(ns[1..]), |ns[1..]|);
    }
  }

  lemma SpreadOneMore(a: int, x: int, t: int, k: int)
    ensures (a - x) * (a - x) - 2 * x * t + k * (x * x) == a * a - 2 * x * (a + t) + (k + 1) * (x * x)
  {
    assert (a - x) * (a - x) == a * a - 2 * x * a + x * x;
    assert 2 * x * (a + t) == 2 * x * a + 2 * x * t;
  }

  lemma {:induction false} SpreadZero(ns: seq<nat>, x: int)
    ensures Spread(ns, x) == 0 <==> forall i | 0 <= i < |ns| :: ns[i] == x
  {
    if ns != [] {
      SpreadZero(ns[1..], x);
      if ns[0] != x {
        assert (ns[0] - x) * (ns[0] - x) > 0;
      }
      assert forall i | 1 <= i < |ns| :: ns[i] == ns[1..][i - 1];
    }
  }

  /** How much the sum of squares, times the count, exceeds the square of the sum. */
  function Excess(ns: seq<nat>): nat {
    if ns == [] then 0 else Excess(ns[1..]) + Spread(ns[1..], ns[0])
  }

  lemma {:induction false} ExcessIs(ns: seq<nat>)
    ensures |ns| * SumSq(ns) == Sum(ns) * Sum(ns) + Excess(ns)
  {
    if ns != [] {
      ExcessIs(ns[1..]);
      SpreadIs(ns[1..], ns[0]);
      ExcessOneMore(ns[0], Sum(ns[1..]), SumSq(ns[1..]), |ns[1..]|);
    }
  }

  lemma ExcessOneMore(x: int, t: int, q: int, k: int)
    ensures (k + 1) * (x * x + q) == (x + t) * (x + t) + (k * q - t * t) + (q - 2 * x * t + k * (x * x))
  {
    assert (k + 1) * (x * x + q) == k * (x * x) + k * q + x * x + q;
    assert (x + t) * (x + t) == x * x + 2 * x * t + t * t;
  }

  lemma {:induction false} ExcessZero(ns: seq<nat>)
    ensures Excess(ns) == 0 <==> forall i, j | 0 <= i < |ns| && 0 <= j < |ns| :: ns[i] == ns[j]
  {
    if ns != [] {
      var x, rest := ns[0], ns[1..];
      ExcessZero(rest);
      SpreadZero(rest, x);
      assert forall i | 1 <= i < |ns| :: ns[i] == rest[i - 1];
    }
  }

  /** Where the individual lengths are not known the proxy never overstates the prefill's attention
      work, and it is exact precisely for prompts of one length. */
  lemma ProxyIsLowerBound(f: Features)
    requires f.Consistent() && f.p > 0
    ensures f.(prefillLens := []).S() <= f.S()
    ensures f.(prefillLens := []).S() == f.S() <==>
              forall i, j | 0 <= i < f.p && 0 <= j < f.p :: f.prefillLens[i] == f.prefillLens[j]
  {
    ExcessIs(f.prefillLens);
    ExcessZero(f.prefillLens);
    Quotient(f.p, SumSq(f.prefillLens), f.tIn * f.tIn, Excess(f.prefillLens));
  }

  lemma Quotient(p: nat, q: nat, t: nat, e: nat)
    requires p > 0 && p * q == t + e
    ensures t as real / p as real <= q as real
    ensures t as real / p as real == q as real <==> e == 0
  {
    assert q as real * p as real == (p * q) as real;
    assert t as real / p as real == q as real - e as real / p as real;
  }

  // ---------------------------------------------------------------- reduced rows

  /** The columns kept for a regime's fit. */
  function RowForRegime(f: Features, r: Regime): seq<real> {
    match r
    case InfPrefill => [f.S(), f.tIn as real, f.bD as real, f.k as real, 1.0]
    case Eager => [f.S(), f.tIn as real, f.tFt as real, f.bD as real, f.k as real, 1.0]
    case FtMixed => [f.S(), f.tIn as real, f.tFt as real, f.bD as real, f.k as real, 1.0]
    case DecodeOnly => [f.bD as real, f.k as real, 1.0]
    case DecodeBwd => [f.bD as real, f.k as real, 1.0]
  }

  function Columns(r: Regime): nat {
    match r case InfPrefill => 5 case Eager => 6 case FtMixed => 6 case DecodeOnly => 3 case DecodeBwd => 3
  }

  /** A fitted vector put back into the full layout, zero for the columns left out. */
  function Scatter(v: seq<real>, r: Regime): Coefs
    requires |v| == Columns(r)
  {
    match r
    case InfPrefill => Coefs(v[0], v[1], 0.0, v[2], v[3], v[4])
    case Eager => Coefs(v[0], v[1], v[2], v[3], v[4], v[5])
    case FtMixed => Coefs(v[0], v[1], v[2], v[3], v[4], v[5])
    case DecodeOnly => Coefs(0.0, 0.0, 0.0, v[0], v[1], v[2])
    case DecodeBwd => Coefs(0.0, 0.0, 0.0, v[0], v[1], v[2])
  }

  function Dot(a: seq<real>, b: seq<real>): real
    requires |a| == |b|
  {
    if a == [] then 0.0 else a[0] * b[0] + Dot(a[1..], b[1..])
  }

  lemma Dot3(a: seq<real>, b: seq<real>)
    requires |a| == |b| == 3
    ensures Dot(a, b) == a[0] * b[0] + a[1] * b[1] + a[2] * b[2]
  {
    assert a[1..][1..] == a[2..] && b[1..][1..] == b[2..];
    assert Dot(a[2..][1..], b[2..][1..]) == 0.0;
    assert Dot(a[2..], b[2..]) == a[2] * b[2];
    assert Dot(a[1..], b[1..]) == a[1] * b[1] + Dot(a[2..], b[2..]);
  }

  lemma Dot5(a: seq<real>, b: seq<real>)
    requires |a| == |b| == 5
    ensures Dot(a, b) == a[0] * b[0] + a[1] * b[1] + a[2] * b[2] + a[3] * b[3] + a[4] * b[4]
  {
    assert a[1..][1..] == a[2..] && b[1..][1..] == b[2..];
    Dot3(a[2..], b[2..]);
    assert Dot(a[1..], b[1..]) == a[1] * b[1] + Dot(a[2..], b[2..]);
  }

  lemma Dot6(a: seq<real>, b: seq<real>)
    requires |a| == |b| == 6
    ensures Dot(a, b) == a[0] * b[0] + a[1] * b[1] + a[2] * b[2] + a[3] * b[3] + a[4] * b[4] + a[5] * b[5]
  {
    Dot5(a[1..], b[1..]);
  }

  lemma PrefillRow(f: Features, v: seq<real>)
    requires |v| == 5 && f.tFt == 0
    ensures Dot(RowForRegime(f, InfPrefill), v) == Scatter(v, InfPrefill).Eval(f)
  {
    Dot5(RowForRegime(f, InfPrefill), v);
  }

  lemma FullRow(f: Features, v: seq<real>, r: Regime)
    requires |v| == 6 && (r == Eager || r == FtMixed)
    ensures Dot(RowForRegime(f, r), v) == Scatter(v, r).Eval(f)
  {
    Dot6(RowForRegime(f, r), v);
  }

  lemma DecodeRow(f: Features, v: seq<real>, r: Regime)
    requires |v| == 3 && (r == DecodeOnly || r == DecodeBwd) && f.tIn == f.tFt == 0
    ensures Dot(RowForRegime(f, r), v) == Scatter(v, r).Eval(f)
  {
    Dot3(RowForRegime(f, r), v);
  }

  /** What the least-squares fit of a regime minimises is what prediction evaluates: on the
      steps of its own regime the reduced row and the scattered coefficients give the same time. */
  lemma ReducedFitIsEval(f: Features, v: seq<real>, split: bool)
    requires |v| == Columns(f.RegimeOf(split)) && f.tFt <= f.tIn
    ensures Dot(RowForRegime(f, f.RegimeOf(split)), v) == Scatter(v, f.RegimeOf(split)).Eval(f)
  {
    match f.RegimeOf(split)
    case InfPrefill => PrefillRow(f, v);
    case Eager => FullRow(f, v, Eager);
    case FtMixed => FullRow(f, v, FtMixed);
    case DecodeOnly => DecodeRow(f, v, DecodeOnly);
    case DecodeBwd => DecodeRow(f, v, DecodeBwd);
  }
}
