/** Saving the FT rows of a forward into the shared buffer: by slice, by mask, or by a fixed-shape
    index operation that a CUDA graph can replay. All three leave the same rows. */
module ActivationSave {
  import opened Samples

  // ---------------------------------------------------------------- the batch layout

  /** The per-token flags of a flat batch: request `i` owns `lens[i]` consecutive tokens. */
  function Mask(lens: seq<nat>, isFt: seq<bool>): (m: seq<bool>)
    requires |lens| == |isFt|
  {
    if lens == [] then []
    else
      var k := |lens| - 1;
      Mask(lens[..k], isFt[..k]) + seq(lens[k], j => isFt[k])
  }

  function FtLens(lens: seq<nat>, isFt: seq<bool>): seq<nat>
    requires |lens| == |isFt|
  {
    if lens == [] then []
    else
      var k := |lens| - 1;
      FtLens(lens[..k], isFt[..k]) + if isFt[k] then [lens[k]] else []
  }

  /** The indices of the set flags, ascending. */
  function Positions(mask: seq<bool>): (r: seq<nat>)
    ensures forall i | 0 <= i < |r| :: r[i] < |mask| && mask[r[i]]
  {
    if mask == [] then []
    else Positions(mask[..|mask| - 1]) + if mask[|mask| - 1] then [|mask| - 1] else []
  }

  function Gather<T>(val: seq<T>, at: seq<nat>): (r: seq<T>)
    requires forall i | 0 <= i < |at| :: at[i] < |val|
    ensures |r| == |at|
  {
    seq(|at|, i requires 0 <= i < |at| => val[at[i]])
  }

  /** Row selection by mask; `val` may be padded past the mask. */
  function FtRows<T>(val: seq<T>, mask: seq<bool>): (r: seq<T>)
    requires |mask| <= |val|
    ensures |r| == |Positions(mask)|
  {
    Gather(val, Positions(mask))
  }

  /** The FT rows of a batch, request by request. */
  function FtSlices<T>(val: seq<T>, lens: seq<nat>, isFt: seq<bool>): seq<T>
    requires |lens| == |isFt| && |Mask(lens, isFt)| <= |val|
  {
    if lens == [] then []
    else
      var k := |lens| - 1;
      var from := |Mask(lens[..k], isFt[..k])|;
      FtSlices(val, lens[..k], isFt[..k]) + if isFt[k] then val[from..from + lens[k]] else []
  }

  /** The flags set are exactly those of the span. */
  ghost predicate Span(mask: seq<bool>, start: nat, n: nat) {
    start + n <= |mask| && forall i | 0 <= i < |mask| :: mask[i] <==> start <= i < start + n
  }

  ghost predicate Within(mask: seq<bool>, a: nat, b: nat) {
    a <= b && forall i | 0 <= i < |mask| :: mask[i] ==> a <= i < b
  }

  /** One more request at the end of the batch. */
  lemma {:induction false} PositionsExtend(mask: seq<bool>, n: nat, b: bool)
    ensures Positions(mask + seq(n, j => b)) == Positions(mask) + if b then seq(n, j => |mask| + j) else []
  {
    if n == 0 {
      assert mask + seq(0, j => b) == mask;
    } else {
      var longer := mask + seq(n, j => b);
      assert longer[..|longer| - 1] == mask + seq(n - 1, j => b);
      PositionsExtend(mask, n - 1, b);
      assert b ==> seq(n, j => |mask| + j) == seq(n - 1, j => |mask| + j) + [|mask| + n - 1];
    }
  }

  lemma RowsExtend<T>(val: seq<T>, mask: seq<bool>, n: nat, b: bool)
    requires |mask| + n <= |val|
    ensures FtRows(val, mask + seq(n, j => b)) == FtRows(val, mask) + if b then val[|mask|..|mask| + n] else []
  {
    PositionsExtend(mask, n, b);
  }

  /** The saved rows are the requests' rows one request after another. */
  lemma {:induction false} RowsAreSlices<T>(val: seq<T>, lens: seq<nat>, isFt: seq<bool>)
    requires |lens| == |isFt| && |Mask(lens, isFt)| <= |val|
    ensures FtRows(val, Mask(lens, isFt)) == FtSlices(val, lens, isFt)
    decreases |lens|
  {
    if lens != [] {
      var k := |lens| - 1;
      RowsAreSlices(val, lens[..k], isFt[..k]);
      RowsExtend(val, Mask(lens[..k], isFt[..k]), lens[k], isFt[k]);
    }
  }

  /** The per-sample lengths add up to the number of FT rows. */
  lemma {:induction false} LensCount(lens: seq<nat>, isFt: seq<bool>)
    requires |lens| == |isFt|
    ensures |Positions(Mask(lens, isFt))| == Sum(FtLens(lens, isFt))
    ensures |Mask(lens, isFt)| == Sum(lens)
    decreases |lens|
  {
    if lens != [] {
      var k := |lens| - 1;
      LensCount(lens[..k], isFt[..k]);
      PositionsExtend(Mask(lens[..k], isFt[..k]), lens[k], isFt[k]);
      assert lens == lens[..k] + [lens[k]];
      SumAppend(lens[..k], lens[k]);
      SumAppend(FtLens(lens[..k], isFt[..k]), lens[k]);
      assert FtLens(lens[..k], isFt[..k]) + [] == FtLens(lens[..k], isFt[..k]);
    }
  }

  lemma {:induction false} SpanPositions(mask: seq<bool>, start: nat, n: nat)
    requires Span(mask, start, n)
    ensures Positions(mask) == seq(n, j => start + j)
    decreases |mask|
  {
    if mask != [] {
      var init := mask[..|mask| - 1];
      if start + n == |mask| && n > 0 {
        SpanPositions(init, start, n - 1);
        assert seq(n, j => start + j) == seq(n - 1, j => start + j) + [start + n - 1];
      } else {
        SpanPositions(init, if start + n <= |init| then start else 0, n);
      }
    }
  }

  lemma {:induction false} NoPositions(mask: seq<bool>)
    requires forall i | 0 <= i < |mask| :: !mask[i]
    ensures Positions(mask) == []
    decreases |mask|
  {
    if mask != [] {
      NoPositions(mask[..|mask| - 1]);
    }
  }

  /** Flags set only within a window number at most its size, and exactly its size when they fill it. */
  lemma {:induction false} WindowCount(mask: seq<bool>, a: nat, b: nat)
    requires Within(mask, a, b) && b <= |mask|
    ensures |Positions(mask)| <= b - a
    ensures |Positions(mask)| == b - a ==> Span(mask, a, b - a)
    decreases |mask|
  {
    if a == b {
      NoPositions(mask);
    } else {
      var last := |mask| - 1;
      var init := mask[..last];
      assert forall i | 0 <= i < last :: init[i] == mask[i];
      if b == |mask| {
        WindowCount(init, a, b - 1);
      } else {
        assert !mask[last];
        WindowCount(init, a, b);
      }
    }
  }

  /** Every token carries the flag of the request it belongs to. */
  lemma {:induction false} MaskAt(lens: seq<nat>, isFt: seq<bool>, i: nat, t: nat)
    requires |lens| == |isFt| && i < |lens| && Sum(lens[..i]) <= t < Sum(lens[..i]) + lens[i]
    ensures t < |Mask(lens, isFt)| && Mask(lens, isFt)[t] == isFt[i]
    decreases |lens|
  {
    var k := |lens| - 1;
    LensCount(lens[..k], isFt[..k]);
    LensCount(lens, isFt);
    if i < k {
      assert lens[..k][..i] == lens[..i];
      MaskAt(lens[..k], isFt[..k], i, t);
    } else {
      assert lens == lens[..k] + [lens[k]];
      SumAppend(lens[..k], lens[k]);
    }
  }

  /** The per-sample lengths are those of the FT requests, in batch order. */
  lemma {:induction false} FtLensAre(lens: seq<nat>, isFt: seq<bool>)
    requires |lens| == |isFt|
    ensures FtLens(lens, isFt) == Gather(lens, Positions(isFt))
    decreases |lens|
  {
    if lens != [] {
      var k := |lens| - 1;
      FtLensAre(lens[..k], isFt[..k]);
    }
  }

  /** How many flags are set. */
  function Flags(mask: seq<bool>): nat {
    if mask == [] then 0 else Flags(mask[..|mask| - 1]) + if mask[|mask| - 1] then 1 else 0
  }

  /** A set flag with `i` set ones before it is the i-th position. */
  lemma {:induction false} NthPosition(mask: seq<bool>, p: nat)
    requires p < |mask| && mask[p]
    ensures |Positions(mask)| == Flags(mask)
    ensures Flags(mask[..p]) < |Positions(mask)| && Positions(mask)[Flags(mask[..p])] == p
    decreases |mask|
  {
    var k := |mask| - 1;
    FlagCount(mask[..k]);
    if p < k {
      NthPosition(mask[..k], p);
      assert mask[..k][..p] == mask[..p];
    }
  }

  lemma {:induction false} FlagCount(mask: seq<bool>)
    ensures |Positions(mask)| == Flags(mask)
  {
    if mask != [] {
      FlagCount(mask[..|mask| - 1]);
    }
  }

  /** What the runner knows of a step's FT rows. */
  datatype Layout = Layout(has: bool, n: nat, sampleLens: seq<nat>, start: nat, contiguous: bool, mask: seq<bool>)

  const NOTHING := Layout(false, 0, [], 0, false, [])

  method SetFlags(mask: array<bool>, from: nat, to: nat)
    requires from <= to <= mask.Length
    modifies mask
    ensures forall p | 0 <= p < mask.Length :: mask[p] == (if from <= p < to then true else old(mask[p]))
  {
    for p := from to to
      invariant forall q | 0 <= q < mask.Length :: mask[q] == (if from <= q < p then true else old(mask[q]))
    {
      mask[p] := true;
    }
  }

  /** First and last FT position seen so far among the first `cu` tokens; -1 when there is none. */
  ghost predicate Bounds(mask: seq<bool>, cu: nat, first: int, last: int, tight: bool) {
    if first < 0 then forall p | 0 <= p < |mask| :: !mask[p]
    else
      && first <= last <= cu <= |mask| && Within(mask, first, last)
      && (tight ==> first < last && mask[first] && mask[last - 1])
  }

  lemma MaskExtend(lens: seq<nat>, isFt: seq<bool>, i: nat)
    requires |lens| == |isFt| && i < |lens|
    ensures Mask(lens[..i + 1], isFt[..i + 1]) == Mask(lens[..i], isFt[..i]) + seq(lens[i], j => isFt[i])
    ensures FtLens(lens[..i + 1], isFt[..i + 1]) == FtLens(lens[..i], isFt[..i]) + if isFt[i] then [lens[i]] else []
  {
    assert lens[..i + 1][..i] == lens[..i] && isFt[..i + 1][..i] == isFt[..i];
  }

  lemma {:induction false} MaskGrows(lens: seq<nat>, isFt: seq<bool>, i: nat)
    requires |lens| == |isFt| && i <= |lens|
    ensures |Mask(lens[..i], isFt[..i])| <= |Mask(lens, isFt)|
    decreases |lens| - i
  {
    if i < |lens| {
      MaskExtend(lens, isFt, i);
      MaskGrows(lens, isFt, i + 1);
    } else {
      assert lens[..i] == lens && isFt[..i] == isFt;
    }
  }

  ghost predicate Positive(lens: seq<nat>, isFt: seq<bool>)
    requires |lens| == |isFt|
  {
    forall i | 0 <= i < |lens| :: isFt[i] ==> lens[i] > 0
  }

  /** What the loop over the batch has established after `i` requests. */
  ghost predicate Filled(lens: seq<nat>, isFt: seq<bool>, i: nat, mask: seq<bool>, cu: nat, sampleLens: seq<nat>,
                         first: int, last: int)
    requires |lens| == |isFt| && i <= |lens|
  {
    && cu == |Mask(lens[..i], isFt[..i])| <= |mask|
    && mask[..cu] == Mask(lens[..i], isFt[..i]) && (forall p | cu <= p < |mask| :: !mask[p])
    && sampleLens == FtLens(lens[..i], isFt[..i])
    && Bounds(mask, cu, first, last, Positive(lens, isFt))
  }

  lemma FilledNext(lens: seq<nat>, isFt: seq<bool>, i: nat, mask: seq<bool>, cu: nat, sampleLens: seq<nat>,
                   first: int, last: int, after: seq<bool>)
    requires |lens| == |isFt| && i < |lens| && |mask| == |Mask(lens, isFt)| == |after|
    requires Filled(lens, isFt, i, mask, cu, sampleLens, first, last)
    requires forall p | 0 <= p < |mask| :: after[p] == if isFt[i] && cu <= p < cu + lens[i] then true else mask[p]
    ensures cu + lens[i] <= |mask|
    ensures if isFt[i]
            then Filled(lens, isFt, i + 1, after, cu + lens[i], sampleLens + [lens[i]], if first < 0 then cu else first, cu + lens[i])
            else Filled(lens, isFt, i + 1, after, cu + lens[i], sampleLens, first, last)
  {
    MaskExtend(lens, isFt, i);
    MaskGrows(lens, isFt, i + 1);
  }

  /** The loop over the batch: flags, per-sample lengths, and the outer bounds of the FT rows. */
  method FillMask(lens: seq<nat>, isFt: seq<bool>, mask: array<bool>)
    returns (sampleLens: seq<nat>, first: int, last: int)
    requires |lens| == |isFt| && mask.Length == |Mask(lens, isFt)| && forall p | 0 <= p < mask.Length :: !mask[p]
    modifies mask
    ensures mask[..] == Mask(lens, isFt) && sampleLens == FtLens(lens, isFt)
    ensures Bounds(mask[..], mask.Length, first, last, Positive(lens, isFt))
  {
    sampleLens, first, last := [], -1, -1;
    var cu := 0;
    for i := 0 to |lens|
      invariant Filled(lens, isFt, i, mask[..], cu, sampleLens, first, last)
    {
      ghost var was := mask[..];
      MaskExtend(lens, isFt, i);
      MaskGrows(lens, isFt, i + 1);
      var next := cu + lens[i];
      if isFt[i] {
        SetFlags(mask, cu, next);
      }
      FilledNext(lens, isFt, i, was, cu, sampleLens, first, last, mask[..]);
      if isFt[i] {
        sampleLens := sampleLens + [lens[i]];
        if first < 0 {
          first := cu;
        }
        last := next;
      }
      cu := next;
    }
    assert lens[..|lens|] == lens && isFt[..|isFt|] == isFt;
  }

  /** The layout of a step. The contiguous flag is only raised when the FT rows are one span, and
      is raised whenever they are and no FT request is scheduled for zero tokens. */
  method BuildFinetuneMask(lens: seq<nat>, isFt: seq<bool>) returns (l: Layout)
    requires |lens| == |isFt|
    ensures l.has <==> Positions(Mask(lens, isFt)) != []
    ensures !l.has ==> l == NOTHING
    ensures l.has ==>
              && l.mask == Mask(lens, isFt) && l.sampleLens == FtLens(lens, isFt)
              && l.n == |Positions(l.mask)| == Sum(l.sampleLens)
              && (l.contiguous ==> Span(l.mask, l.start, l.n))
              && (Positive(lens, isFt) ==> forall s :: Span(l.mask, s, l.n) ==> l.contiguous)
  {
    LensCount(lens, isFt);
    var mask := new bool[Sum(lens)](i => false);
    var sampleLens, first, last := FillMask(lens, isFt, mask);
    var n := |Positions(mask[..])|;
    if n == 0 {
      return NOTHING;
    }
    SomePosition(mask[..], first, last);
    WindowCount(mask[..], first, last);
    l := Layout(true, n, sampleLens, first, last - first == n, mask[..]);
  }

  lemma SomePosition(mask: seq<bool>, first: int, last: int)
    requires Positions(mask) != [] && Bounds(mask, |mask|, first, last, false)
    ensures first >= 0
  {
    assert mask[Positions(mask)[0]];
  }

  // ---------------------------------------------------------------- the three saves

  /** How many of `n` rows fit at `off` in a buffer of `most` rows; negative when `off` is beyond it. */
  function Fitting(n: nat, off: nat, most: nat): int {
    if n <= most - off then n else most - off
  }

  /** The buffer after saving `rows` at `off`; rows past `most` are dropped. */
  function Saved<T>(buf: seq<T>, off: nat, rows: seq<T>, most: nat): (r: seq<T>)
    requires most <= |buf|
    ensures |r| == |buf|
    ensures forall j | 0 <= j < |buf| :: r[j] == if off <= j < off + |rows| && j < most then rows[j - off] else buf[j]
  {
    var n := Fitting(|rows|, off, most);
    seq(|buf|, j requires 0 <= j < |buf| =>
      if off <= j < off + n then rows[j - off] else buf[j])
  }

  /** A step whose window lies inside the buffer loses no row and touches no other row. */
  lemma SavedWindow<T>(buf: seq<T>, off: nat, rows: seq<T>, most: nat)
    requires off + |rows| <= most <= |buf|
    ensures Saved(buf, off, rows, most)[off..off + |rows|] == rows
    ensures Saved(buf, off, rows, most)[..off] == buf[..off]
    ensures Saved(buf, off, rows, most)[off + |rows|..] == buf[off + |rows|..]
  {
    assert Fitting(|rows|, off, most) == |rows|;
    assert Saved(buf, off, rows, most)[off..off + |rows|] == rows;
  }

  /** The stream entering a module: the hidden state plus the residual, where there is one. */
  function Stream<T>(h: seq<T>, r: Option<seq<T>>, add: (T, T) -> T): (v: seq<T>)
    requires r.Some? ==> |r.value| == |h|
    ensures |v| == |h|
  {
    if r.None? then h else seq(|h|, j requires 0 <= j < |h| => add(h[j], r.value[j]))
  }

  function Cast<T, U>(rows: seq<T>, cast: T -> U): (v: seq<U>)
    ensures |v| == |rows|
  {
    seq(|rows|, j requires 0 <= j < |rows| => cast(rows[j]))
  }

  /** Token by token: the i-th FT token's stream, with the residual added where there is one, is in
      row `off + i` if that is below `most`; the other rows below `bound` are as they were. */
  ghost predicate SavedTokens<T, U>(was: seq<U>, now: seq<U>, bound: nat, off: nat, most: nat, mask: seq<bool>,
                                    h: seq<T>, r: Option<seq<T>>, add: (T, T) -> T, cast: T -> U)
    requires bound <= |was| == |now| && most <= |now| && |mask| <= |h| && (r.Some? ==> |r.value| == |h|)
  {
    && (forall p | 0 <= p < |mask| && mask[p] && off + Flags(mask[..p]) < most ::
         now[off + Flags(mask[..p])] == cast(if r.Some? then add(h[p], r.value[p]) else h[p]))
    && (forall j | 0 <= j < bound && !(off <= j < off + Flags(mask) && j < most) :: now[j] == was[j])
  }

  lemma SavedAre<T, U>(was: seq<U>, now: seq<U>, bound: nat, off: nat, most: nat, mask: seq<bool>,
                       h: seq<T>, r: Option<seq<T>>, add: (T, T) -> T, cast: T -> U)
    requires most <= bound <= |was| == |now| && |mask| <= |h| && (r.Some? ==> |r.value| == |h|)
    requires now[..bound] == Saved(was, off, Cast(FtRows(Stream(h, r, add), mask), cast), most)[..bound]
    ensures SavedTokens(was, now, bound, off, most, mask, h, r, add, cast)
  {
    FlagCount(mask);
    var rows := Cast(FtRows(Stream(h, r, add), mask), cast);
    var after := Saved(was, off, rows, most);
    assert forall j | 0 <= j < bound :: now[..bound][j] == now[j] && after[..bound][j] == after[j];
    forall j | 0 <= j < bound ensures now[j] == if off <= j < off + |rows| && j < most then rows[j - off] else was[j] {
      assert now[j] == after[j];
    }
    forall p | 0 <= p < |mask| && mask[p] && off + Flags(mask[..p]) < most
      ensures now[off + Flags(mask[..p])] == cast(if r.Some? then add(h[p], r.value[p]) else h[p])
    {
      NthPosition(mask, p);
      assert FtRows(Stream(h, r, add), mask)[Flags(mask[..p])] == Stream(h, r, add)[p];
      assert now[off + Flags(mask[..p])] == rows[Flags(mask[..p])];
    }
  }

  ghost predicate LayoutOk(l: Layout) {
    l.has && l.n == |Positions(l.mask)| > 0 && (l.contiguous ==> Span(l.mask, l.start, l.n))
  }

  /** `n` rows of `rows` are copied to `buf[off..]`, in place. */
  method CopyRows<U>(buf: array<U>, off: nat, rows: seq<U>, most: nat)
    requires most <= buf.Length
    modifies buf
    ensures buf[..] == Saved(old(buf[..]), off, rows, most)
  {
    var n := Fitting(|rows|, off, most);
    if n > 0 {
      for j := 0 to n
        invariant forall q | 0 <= q < buf.Length :: buf[q] == if off <= q < off + j then rows[q - off] else old(buf[q])
      {
        buf[off + j] := rows[j];
      }
    }
  }

  /** The hook of an eager step: a slice when the FT rows are one span, the mask otherwise. */
  method HookSave<T, U>(buf: array<U>, most: nat, h: seq<T>, r: Option<seq<T>>, add: (T, T) -> T, cast: T -> U,
                        l: Layout, off: nat)
    requires most <= buf.Length && LayoutOk(l) && |l.mask| <= |h| && (r.Some? ==> |r.value| == |h|)
    modifies buf
    ensures buf[..] == Saved(old(buf[..]), off, Cast(FtRows(Stream(h, r, add), l.mask), cast), most)
    ensures SavedTokens(old(buf[..]), buf[..], buf.Length, off, most, l.mask, h, r, add, cast)
  {
    var val := Stream(h, r, add);
    var rows;
    if l.contiguous {
      rows := val[l.start..l.start + l.n];
      SpanPositions(l.mask, l.start, l.n);
      assert rows == FtRows(val, l.mask);
    } else {
      rows := FtRows(val[..|l.mask|], l.mask);
      assert rows == FtRows(val, l.mask);
    }
    CopyRows(buf, off, Cast(rows, cast), most);
    SavedAre(old(buf[..]), buf[..], buf.Length, off, most, l.mask, h, r, add, cast);
  }

  /** The index pair of a graph step: gather `src[j]`, write `dst[j]`. Unused slots gather row 0
      into the scratch row `most`. */
  method ArmOpStep(positions: seq<nat>, off: nat, most: nat) returns (src: array<nat>, dst: array<nat>)
    ensures fresh(src) && fresh(dst) && Armed(src[..], dst[..], positions, off, most)
  {
    src, dst := new nat[most](i => 0), new nat[most](i => most);
    var n := Fitting(|positions|, off, most);
    if n > 0 {
      for j := 0 to n
        invariant forall q | 0 <= q < most :: src[q] == if q < j then positions[q] else 0
        invariant forall q | 0 <= q < most :: dst[q] == if q < j then off + q else most
      {
        src[j], dst[j] := positions[j], off + j;
      }
    }
  }

  ghost predicate Armed(src: seq<nat>, dst: seq<nat>, positions: seq<nat>, off: nat, most: nat) {
    && |src| == |dst| == most
    && forall q | 0 <= q < most ::
         if q < Fitting(|positions|, off, most) then src[q] == positions[q] && dst[q] == off + q
         else src[q] == 0 && dst[q] == most
  }

  /** The fixed-shape operation of a graph step. Repeated writes hit only the scratch row, so the
      order in which they land does not matter to the rows that are read. */
  method SaveOp<T, U>(buf: array<U>, most: nat, h: seq<T>, r: Option<seq<T>>, add: (T, T) -> T, cast: T -> U,
                      src: array<nat>, dst: array<nat>, ghost mask: seq<bool>, ghost off: nat)
    requires buf.Length == most + 1 && 0 < |h| && |mask| <= |h| && (r.Some? ==> |r.value| == |h|)
    requires Armed(src[..], dst[..], Positions(mask), off, most)
    modifies buf
    ensures buf[..most] == Saved(old(buf[..]), off, Cast(FtRows(Stream(h, r, add), mask), cast), most)[..most]
    ensures SavedTokens(old(buf[..]), buf[..], most, off, most, mask, h, r, add, cast)
  {
    ghost var rows := Cast(FtRows(Stream(h, r, add), mask), cast);
    ghost var n := Fitting(|rows|, off, most);
    var a, b := src[..], dst[..];
    for j := 0 to most
      invariant forall q | 0 <= q < most ::
                  buf[q] == if off <= q < off + n && q - off < j then rows[q - off] else old(buf[q])
    {
      var row := if r.Some? then add(h[a[j]], r.value[a[j]]) else h[a[j]];
      buf[b[j]] := cast(row);
    }
    assert buf[..][..most] == buf[..most];
    SavedAre(old(buf[..]), buf[..], most, off, most, mask, h, r, add, cast);
  }

  /** The final hidden states, which have no residual to add, and the token ids. A graph step's
      tensors are padded past the mask. */
  method AccumulateFinal<T, U>(finalHidden: array?<U>, ids: array<int>, most: nat, hidden: seq<T>, inputIds: seq<int>,
                               cast: T -> U, l: Layout, off: nat)
    requires ids.Length == most && (finalHidden != null ==> most <= finalHidden.Length && finalHidden != ids)
    requires LayoutOk(l) && |l.mask| <= |hidden| && |hidden| == |inputIds|
    modifies finalHidden, ids
    ensures finalHidden != null ==>
              finalHidden[..] == Saved(old(finalHidden[..]), off, Cast(FtRows(hidden, l.mask), cast), most)
    ensures ids[..] == Saved(old(ids[..]), off, FtRows(inputIds, l.mask), most)
    ensures finalHidden != null ==>
              SavedTokens(old(finalHidden[..]), finalHidden[..], finalHidden.Length, off, most, l.mask, hidden, None,
                          (a, b) => a, cast)
    ensures SavedTokens(old(ids[..]), ids[..], most, off, most, l.mask, inputIds, None, (a, b) => a, x => x)
  {
    var rows, tokens;
    if l.contiguous {
      rows, tokens := hidden[l.start..l.start + l.n], inputIds[l.start..l.start + l.n];
      SpanPositions(l.mask, l.start, l.n);
    } else {
      rows, tokens := FtRows(hidden[..|l.mask|], l.mask), FtRows(inputIds[..|l.mask|], l.mask);
    }
    assert rows == FtRows(hidden, l.mask) && tokens == FtRows(inputIds, l.mask);
    if finalHidden != null {
      CopyRows(finalHidden, off, Cast(rows, cast), most);
      SavedAre(old(finalHidden[..]), finalHidden[..], finalHidden.Length, off, most, l.mask, hidden, None, (a, b) => a, cast);
    }
    CopyRows(ids, off, tokens, most);
    assert tokens == Cast(tokens, x => x);
    SavedAre(old(ids[..]), ids[..], most, off, most, l.mask, inputIds, None, (a, b) => a, x => x);
  }

  /** After an abort the rows of the step are blank again, and no others change. */
  method ZeroOffsetRange<U>(buf: array<U>, zero: U, off: nat, n: nat, most: nat)
    requires most <= buf.Length
    modifies buf
    ensures forall j | 0 <= j < buf.Length :: buf[j] == if off <= j < off + n && j < most then zero else old(buf[j])
  {
    if n == 0 {
      return;
    }
    var k := Fitting(n, off, most);
    if k <= 0 {
      return;
    }
    for j := 0 to k
      invariant forall q | 0 <= q < buf.Length :: buf[q] == if off <= q < off + j then zero else old(buf[q])
    {
      buf[off + j] := zero;
    }
  }
}
