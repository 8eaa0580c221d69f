/** Length buckets as values: what the store's loops do to them, step by step. */
module Buckets {
  import opened Samples
  import opened FinetuningStore

  // ---------------------------------------------------------------- ascending lists

  predicate Ascending(s: seq<nat>) {
    forall i, j | 0 <= i < j < |s| :: s[i] < s[j]
  }

  /** The insertion point of `x`: how many leading entries are smaller. */
  function BisectLeft(s: seq<nat>, x: nat): (p: nat)
    ensures p <= |s|
    ensures forall i | 0 <= i < p :: s[i] < x
    ensures p < |s| ==> s[p] >= x
  {
    if s == [] || s[0] >= x then 0 else 1 + BisectLeft(s[1..], x)
  }

  /** How many leading entries are at most `x`. */
  function BisectRight(s: seq<nat>, x: int): (p: nat)
    ensures p <= |s|
    ensures forall i | 0 <= i < p :: s[i] <= x
    ensures p < |s| ==> s[p] > x
  {
    if s == [] || s[0] > x then 0 else 1 + BisectRight(s[1..], x)
  }

  function InsertAt(s: seq<nat>, p: nat, x: nat): seq<nat>
    requires p <= |s|
  {
    s[..p] + [x] + s[p..]
  }

  function DeleteAt(s: seq<nat>, p: nat): seq<nat>
    requires p < |s|
  {
    s[..p] + s[p + 1..]
  }

  lemma InsertMembers(s: seq<nat>, p: nat, x: nat)
    requires p <= |s|
    ensures Elems(InsertAt(s, p, x)) == Elems(s) + {x}
  {
    assert s == s[..p] + s[p..];
    forall y ensures y in InsertAt(s, p, x) <==> y in s || y == x {
    }
  }

  lemma InsertAscending(s: seq<nat>, x: nat)
    requires Ascending(s) && x !in s
    ensures Ascending(InsertAt(s, BisectLeft(s, x), x))
  {
    var p := BisectLeft(s, x);
    var t := InsertAt(s, p, x);
    forall i, j | 0 <= i < j < |t| ensures t[i] < t[j] {
      assert t[i] == if i < p then s[i] else if i == p then x else s[i - 1];
      assert t[j] == if j < p then s[j] else if j == p then x else s[j - 1];
      assert i == p ==> s[p] > x && s[p] <= s[j - 1];
    }
  }

  /** The bisection finds a value exactly when it is there. */
  lemma FoundAt(s: seq<nat>, x: nat)
    requires Ascending(s)
    ensures x in s <==> BisectLeft(s, x) < |s| && s[BisectLeft(s, x)] == x
  {
    var p := BisectLeft(s, x);
    forall j | 0 <= j < |s| && s[j] == x ensures j == p {
      assert j >= p;
    }
  }

  function DeletedFrom(p: nat, i: nat): nat {
    if i < p then i else i + 1
  }

  lemma DeleteIs(s: seq<nat>, p: nat, i: nat)
    requires p < |s| && i < |s| - 1
    ensures DeleteAt(s, p)[i] == s[DeletedFrom(p, i)]
  {
  }

  lemma DeleteKeepsOrder(s: seq<nat>, p: nat)
    requires Ascending(s) && p < |s|
    ensures Ascending(DeleteAt(s, p))
  {
    var t := DeleteAt(s, p);
    forall i, j | 0 <= i < j < |t| ensures t[i] < t[j] {
      DeleteIs(s, p, i);
      DeleteIs(s, p, j);
    }
  }

  lemma DeleteMembers(s: seq<nat>, p: nat, y: nat)
    requires Ascending(s) && p < |s|
    ensures y in DeleteAt(s, p) <==> y in s && y != s[p]
  {
    var t := DeleteAt(s, p);
    if y in t {
      var i :| 0 <= i < |t| && t[i] == y;
      DeleteIs(s, p, i);
    }
    if y in s && y != s[p] {
      var j :| 0 <= j < |s| && s[j] == y;
      DeleteIs(s, p, if j < p then j else j - 1);
    }
  }

  /** `s` without the members of `out`. */
  function Keep(s: seq<nat>, out: set<nat>): (r: seq<nat>)
    ensures forall x :: x in r <==> x in s && x !in out
    ensures Distinct(s) ==> Distinct(r)
  {
    if s == [] then []
    else
      assert s == [s[0]] + s[1..];
      if s[0] in out then Keep(s[1..], out) else [s[0]] + Keep(s[1..], out)
  }

  // ---------------------------------------------------------------- buckets

  type ByLength = map<nat, seq<nat>>

  predicate InBucket(samples: seq<Sample>, b: ByLength, i: nat)
    requires i < |samples|
  {
    var l := samples[i].InputLen();
    l in b && i in b[l]
  }

  /** Every bucket is non-empty, without repetition, and holds only samples of its length. */
  ghost predicate BucketsOk(samples: seq<Sample>, b: ByLength) {
    forall l | l in b ::
      b[l] != [] && Distinct(b[l]) && forall i | i in b[l] :: i < |samples| && samples[i].InputLen() == l
  }

  ghost predicate IndexOk(samples: seq<Sample>, index: map<string, nat>) {
    && (forall i | 0 <= i < |samples| :: samples[i].requestId in index && index[samples[i].requestId] == i)
    && (forall id | id in index :: index[id] < |samples| && samples[index[id]].requestId == id)
  }

  /** The samples at the given indices. */
  function At(samples: seq<Sample>, s: set<nat>): set<Sample> {
    set i | i in s && i < |samples| :: samples[i]
  }

  /** Which indices among `s` the list `ss` names by request id. */
  function Named(samples: seq<Sample>, s: set<nat>, ss: seq<Sample>): set<nat> {
    set i | i in s && i < |samples| && samples[i].requestId in Ids(ss)
  }

  lemma AtMember(samples: seq<Sample>, index: map<string, nat>, s: set<nat>, i: nat)
    requires IndexOk(samples, index) && i < |samples|
    ensures samples[i] in At(samples, s) <==> i in s
  {
  }

  /** Samples are found by request id and by index alike, and set operations agree. */
  lemma AtPick(samples: seq<Sample>, index: map<string, nat>, s: set<nat>, t: set<nat>, ss: seq<Sample>)
    requires IndexOk(samples, index)
    ensures Pick(At(samples, s), ss) == At(samples, Named(samples, s, ss))
    ensures At(samples, s + t) == At(samples, s) + At(samples, t)
    ensures At(samples, s - t) == At(samples, s) - At(samples, t)
  {
    forall x | x in At(samples, s) ensures x in Pick(At(samples, s), ss) <==> x in At(samples, Named(samples, s, ss)) {
      var i :| i in s && i < |samples| && samples[i] == x;
    }
    forall x | x in At(samples, s) - At(samples, t) ensures x in At(samples, s - t) {
      var i :| i in s && i < |samples| && samples[i] == x;
      assert i !in t;
    }
    forall x | x in At(samples, s - t) ensures x in At(samples, s) - At(samples, t) {
      var i :| i in s - t && i < |samples| && samples[i] == x;
      AtMember(samples, index, t, i);
    }
  }

  /** The buckets and the ascending list of their lengths fit together. */
  ghost predicate Structure(samples: seq<Sample>, b: ByLength, sorted: seq<nat>) {
    BucketsOk(samples, b) && Ascending(sorted) && forall l :: l in sorted <==> l in b
  }

  function Selectable(samples: seq<Sample>, b: ByLength): set<nat> {
    set i: nat | i < |samples| && InBucket(samples, b, i)
  }

  function Marked(trained: seq<bool>): set<nat> {
    set i: nat | i < |trained| && trained[i]
  }

  /** What `Buckets` becomes when the indices `out`, all of length `l`, leave. */
  function Take(b: ByLength, l: nat, out: set<nat>): ByLength
    requires l in b
  {
    if Keep(b[l], out) == [] then b - {l} else b[l := Keep(b[l], out)]
  }

  function Put(b: ByLength, l: nat, idxs: seq<nat>): ByLength {
    if l in b then b[l := b[l] + idxs] else b[l := idxs]
  }

  lemma TakeOk(samples: seq<Sample>, b: ByLength, l: nat, out: set<nat>)
    requires BucketsOk(samples, b) && l in b
    ensures BucketsOk(samples, Take(b, l, out))
  {
  }

  lemma TakeLeaves(samples: seq<Sample>, b: ByLength, l: nat, out: set<nat>, i: nat)
    requires l in b && i < |samples| && (i in out ==> samples[i].InputLen() == l)
    ensures InBucket(samples, Take(b, l, out), i) <==> InBucket(samples, b, i) && i !in out
  {
  }

  /** Indices of length `l`, each once and none in a bucket. */
  ghost predicate Newcomers(samples: seq<Sample>, b: ByLength, l: nat, idxs: seq<nat>) {
    && idxs != [] && Distinct(idxs)
    && forall i | i in idxs :: i < |samples| && samples[i].InputLen() == l && !InBucket(samples, b, i)
  }

  lemma PutOk(samples: seq<Sample>, b: ByLength, l: nat, idxs: seq<nat>)
    requires BucketsOk(samples, b) && Newcomers(samples, b, l, idxs)
    ensures BucketsOk(samples, Put(b, l, idxs))
  {
    if l in b {
      var all := b[l] + idxs;
      forall i, j | 0 <= i < j < |all| ensures all[i] != all[j] {
        assert i < |b[l]| <= j ==> all[j] in idxs && all[i] in b[l];
      }
    }
  }

  lemma PutAdds(samples: seq<Sample>, b: ByLength, l: nat, idxs: seq<nat>, i: nat)
    requires i < |samples| && (i in idxs ==> samples[i].InputLen() == l)
    ensures InBucket(samples, Put(b, l, idxs), i) <==> InBucket(samples, b, i) || i in idxs
  {
  }

  // ---------------------------------------------------------------- grouping by length

  /** `order` lists the keys of `groups`, which split `got` by sample length. */
  ghost predicate Grouped(samples: seq<Sample>, order: seq<nat>, groups: map<nat, seq<nat>>, got: set<nat>) {
    && Distinct(order) && (forall l :: l in order <==> l in groups)
    && (forall l | l in groups :: groups[l] != [] && Distinct(groups[l]))
    && (forall l, i | l in groups && i in groups[l] :: i in got && i < |samples| && samples[i].InputLen() == l)
    && (forall i | i in got :: i < |samples| && samples[i].InputLen() in groups && i in groups[samples[i].InputLen()])
  }

  function AddTo(groups: map<nat, seq<nat>>, l: nat, i: nat): map<nat, seq<nat>> {
    if l in groups then groups[l := groups[l] + [i]] else groups[l := [i]]
  }

  lemma AppendDistinct<T>(s: seq<T>, x: T)
    requires Distinct(s) && x !in s
    ensures Distinct(s + [x])
  {
  }

  lemma GroupOneMore(samples: seq<Sample>, order: seq<nat>, groups: map<nat, seq<nat>>, got: set<nat>, i: nat)
    requires Grouped(samples, order, groups, got) && i < |samples| && i !in got
    ensures var l := samples[i].InputLen();
            Grouped(samples, if l in groups then order else order + [l], AddTo(groups, l, i), got + {i})
  {
    var l := samples[i].InputLen();
    var after := AddTo(groups, l, i);
    assert i == after[l][|after[l]| - 1];
    if l in groups {
      AppendDistinct(groups[l], i);
    } else {
      AppendDistinct(order, l);
    }
    forall j | j in got + {i} ensures j < |samples| && samples[j].InputLen() in after && j in after[samples[j].InputLen()] {
      assert j == i || j in got;
    }
  }

  /** The members of `got` whose lengths are among `ls`. */
  function OfLengths(samples: seq<Sample>, got: set<nat>, ls: seq<nat>): set<nat> {
    set i | i in got && i < |samples| && samples[i].InputLen() in ls
  }

  lemma OfLengthsStep(samples: seq<Sample>, order: seq<nat>, groups: map<nat, seq<nat>>, got: set<nat>, k: nat)
    requires Grouped(samples, order, groups, got) && k < |order|
    ensures order[k] in groups
    ensures OfLengths(samples, got, order[..k + 1]) == OfLengths(samples, got, order[..k]) + Elems(groups[order[k]])
    ensures OfLengths(samples, got, order[..k]) !! Elems(groups[order[k]])
    ensures |Elems(groups[order[k]])| == |groups[order[k]]|
  {
    var l := order[k];
    assert order[..k + 1] == order[..k] + [l];
    assert l in order && l !in order[..k];
    DistinctMultiset(groups[l]);
    assert |multiset(groups[l])| == |multiset(Elems(groups[l]))|;
  }

  lemma OfAllLengths(samples: seq<Sample>, order: seq<nat>, groups: map<nat, seq<nat>>, got: set<nat>)
    requires Grouped(samples, order, groups, got)
    ensures OfLengths(samples, got, order[..|order|]) == got
    ensures OfLengths(samples, got, order[..0]) == {}
  {
    assert order[..|order|] == order;
  }

  /** The step of the second loops: one more group of indices is dealt with. */
  lemma TakeStep(samples: seq<Sample>, b: ByLength, sel: set<nat>, order: seq<nat>, groups: map<nat, seq<nat>>, got: set<nat>, k: nat)
    requires got <= sel && Grouped(samples, order, groups, got) && k < |order|
    requires Selectable(samples, b) == sel - OfLengths(samples, got, order[..k])
    ensures order[k] in groups && order[k] in b
    ensures Selectable(samples, Take(b, order[k], Elems(groups[order[k]]))) == sel - OfLengths(samples, got, order[..k + 1])
    ensures |OfLengths(samples, got, order[..k + 1])| == |OfLengths(samples, got, order[..k])| + |groups[order[k]]|
  {
    OfLengthsStep(samples, order, groups, got, k);
    var l := order[k];
    var i := groups[l][0];
    assert i in Elems(groups[l]);
    assert i in Selectable(samples, b);
    GroupLength(samples, order, groups, got, l);
    TakenSelectable(samples, b, l, Elems(groups[l]));
  }

  lemma PutStep(samples: seq<Sample>, b: ByLength, sel: set<nat>, order: seq<nat>, groups: map<nat, seq<nat>>, got: set<nat>, k: nat)
    requires got !! sel && Grouped(samples, order, groups, got) && k < |order|
    requires Selectable(samples, b) == sel + OfLengths(samples, got, order[..k])
    ensures order[k] in groups && Newcomers(samples, b, order[k], groups[order[k]])
    ensures Selectable(samples, Put(b, order[k], groups[order[k]])) == sel + OfLengths(samples, got, order[..k + 1])
    ensures |OfLengths(samples, got, order[..k + 1])| == |OfLengths(samples, got, order[..k])| + |groups[order[k]]|
  {
    OfLengthsStep(samples, order, groups, got, k);
    var l := order[k];
    GroupLength(samples, order, groups, got, l);
    PutSelectable(samples, b, l, groups[l]);
    forall i | i in groups[l] ensures i < |samples| && !InBucket(samples, b, i) {
      assert i in Elems(groups[l]);
      assert i in Selectable(samples, b) <==> InBucket(samples, b, i);
    }
  }

  ghost predicate PutLoop(samples: seq<Sample>, b: ByLength, sorted: seq<nat>, sel: set<nat>, got: set<nat>, order: seq<nat>,
                          k: nat, n: nat)
    requires k <= |order|
  {
    && Structure(samples, b, sorted)
    && Selectable(samples, b) == sel + OfLengths(samples, got, order[..k]) && n == |OfLengths(samples, got, order[..k])|
  }

  lemma PutSelectable(samples: seq<Sample>, b: ByLength, l: nat, idxs: seq<nat>)
    requires forall i | i in Elems(idxs) :: i < |samples| && samples[i].InputLen() == l
    ensures Selectable(samples, Put(b, l, idxs)) == Selectable(samples, b) + Elems(idxs)
  {
    forall i: nat
      ensures i in Selectable(samples, Put(b, l, idxs)) <==> i in Selectable(samples, b) || i in Elems(idxs)
    {
      assert i in idxs <==> i in Elems(idxs);
      if i < |samples| {
        PutAdds(samples, b, l, idxs, i);
      }
    }
  }

  lemma GroupLength(samples: seq<Sample>, order: seq<nat>, groups: map<nat, seq<nat>>, got: set<nat>, l: nat)
    requires Grouped(samples, order, groups, got) && l in groups
    ensures forall i | i in Elems(groups[l]) :: i < |samples| && samples[i].InputLen() == l
  {
  }

  lemma TakenSelectable(samples: seq<Sample>, b: ByLength, l: nat, out: set<nat>)
    requires l in b && forall i | i in out :: i < |samples| && samples[i].InputLen() == l
    ensures Selectable(samples, Take(b, l, out)) == Selectable(samples, b) - out
  {
    forall i: nat | i < |samples| ensures InBucket(samples, Take(b, l, out), i) <==> InBucket(samples, b, i) && i !in out {
      TakeLeaves(samples, b, l, out, i);
    }
  }

  /** Each of `n` indices is in exactly one of `sel`, `claimed` and the marked ones. */
  ghost predicate Partition(n: nat, trained: seq<bool>, sel: set<nat>, claimed: set<nat>) {
    && |trained| == n
    && (forall i: nat | i < n :: i in sel <==> !trained[i] && i !in claimed)
    && (forall i | i in sel :: i < n)
    && (forall i | i in claimed :: i < n && !trained[i])
  }

  ghost predicate Sound(samples: seq<Sample>, index: map<string, nat>, trained: seq<bool>, b: ByLength, sorted: seq<nat>,
                        claimed: set<nat>) {
    && IndexOk(samples, index) && Structure(samples, b, sorted)
    && Partition(|samples|, trained, Selectable(samples, b), claimed)
  }

  /** The buckets of a fresh epoch hold every sample. */
  ghost predicate FullTemplate(samples: seq<Sample>, b: ByLength, sorted: seq<nat>) {
    Structure(samples, b, sorted) && forall i: nat | i < |samples| :: InBucket(samples, b, i)
  }

  lemma ClaimedApart(samples: seq<Sample>, index: map<string, nat>, trained: seq<bool>, b: ByLength, sorted: seq<nat>,
                     claimed: set<nat>, got: set<nat>)
    requires Sound(samples, index, trained, b, sorted, claimed) && got <= claimed
    ensures got !! Selectable(samples, b)
  {
  }

  lemma PartitionMoves(n: nat, trained: seq<bool>, sel: set<nat>, claimed: set<nat>, got: set<nat>)
    requires Partition(n, trained, sel, claimed)
    ensures got <= sel ==> Partition(n, trained, sel - got, claimed + got)
    ensures got <= claimed ==> Partition(n, trained, sel + got, claimed - got) && got !! sel
  {
  }

  // ---------------------------------------------------------------- the abstract state

  function PoolOf(samples: seq<Sample>, sel: set<nat>, claimed: set<nat>, trained: set<nat>, epoch: nat, total: int): Pool {
    Pool(Elems(samples), At(samples, sel), At(samples, claimed), At(samples, trained), epoch, total)
  }

  lemma ClaimView(samples: seq<Sample>, index: map<string, nat>, sel: set<nat>, claimed: set<nat>, trained: set<nat>,
                  epoch: nat, total: int, ss: seq<Sample>)
    requires IndexOk(samples, index)
    ensures var got := Named(samples, sel, ss);
            PoolOf(samples, sel, claimed, trained, epoch, total).Claim(ss)
            == PoolOf(samples, sel - got, claimed + got, trained, epoch, total)
  {
    var got := Named(samples, sel, ss);
    AtPick(samples, index, sel, got, ss);
    AtPick(samples, index, claimed, got, ss);
  }

  lemma CommitView(samples: seq<Sample>, index: map<string, nat>, sel: set<nat>, claimed: set<nat>, trained: set<nat>,
                   epoch: nat, total: int, ss: seq<Sample>)
    requires IndexOk(samples, index)
    ensures var got := Named(samples, claimed, ss);
            PoolOf(samples, sel, claimed, trained, epoch, total).Commit(ss)
            == PoolOf(samples, sel, claimed - got, trained + got, epoch, total)
  {
    var got := Named(samples, claimed, ss);
    AtPick(samples, index, claimed, got, ss);
    AtPick(samples, index, trained, got, ss);
  }

  lemma ReleaseView(samples: seq<Sample>, index: map<string, nat>, sel: set<nat>, claimed: set<nat>, trained: set<nat>,
                    epoch: nat, total: int, ss: seq<Sample>)
    requires IndexOk(samples, index)
    ensures var got := Named(samples, claimed, ss);
            PoolOf(samples, sel, claimed, trained, epoch, total).Release(ss)
            == PoolOf(samples, sel + got, claimed - got, trained, epoch, total)
  {
    var got := Named(samples, claimed, ss);
    AtPick(samples, index, claimed, got, ss);
    AtPick(samples, index, sel, got, ss);
  }

  lemma ClaimEffect(samples: seq<Sample>, index: map<string, nat>, trained: seq<bool>, b: ByLength, sorted: seq<nat>,
                    claimed: set<nat>, epoch: nat, total: int, ss: seq<Sample>,
                    after: ByLength, afterSorted: seq<nat>, afterClaimed: set<nat>)
    requires Sound(samples, index, trained, b, sorted, claimed) && Structure(samples, after, afterSorted)
    requires afterClaimed == claimed + Named(samples, Selectable(samples, b), ss)
    requires Selectable(samples, after) == Selectable(samples, b) - Named(samples, Selectable(samples, b), ss)
    ensures Sound(samples, index, trained, after, afterSorted, afterClaimed)
    ensures PoolOf(samples, Selectable(samples, after), afterClaimed, Marked(trained), epoch, total)
            == PoolOf(samples, Selectable(samples, b), claimed, Marked(trained), epoch, total).Claim(ss)
  {
    PartitionMoves(|samples|, trained, Selectable(samples, b), claimed, Named(samples, Selectable(samples, b), ss));
    ClaimView(samples, index, Selectable(samples, b), claimed, Marked(trained), epoch, total, ss);
  }

  lemma ReleaseEffect(samples: seq<Sample>, index: map<string, nat>, trained: seq<bool>, b: ByLength, sorted: seq<nat>,
                      claimed: set<nat>, epoch: nat, total: int, ss: seq<Sample>,
                      after: ByLength, afterSorted: seq<nat>, afterClaimed: set<nat>)
    requires Sound(samples, index, trained, b, sorted, claimed) && Structure(samples, after, afterSorted)
    requires afterClaimed == claimed - Named(samples, claimed, ss)
    requires Selectable(samples, after) == Selectable(samples, b) + Named(samples, claimed, ss)
    ensures Sound(samples, index, trained, after, afterSorted, afterClaimed)
    ensures PoolOf(samples, Selectable(samples, after), afterClaimed, Marked(trained), epoch, total)
            == PoolOf(samples, Selectable(samples, b), claimed, Marked(trained), epoch, total).Release(ss)
  {
    PartitionMoves(|samples|, trained, Selectable(samples, b), claimed, Named(samples, claimed, ss));
    ReleaseView(samples, index, Selectable(samples, b), claimed, Marked(trained), epoch, total, ss);
  }

  /** Naming one more sample adds its index, if it has one among `s`. */
  lemma NamedStep(samples: seq<Sample>, index: map<string, nat>, s: set<nat>, ss: seq<Sample>, k: nat)
    requires IndexOk(samples, index) && k < |ss|
    ensures var id := ss[k].requestId;
            Named(samples, s, ss[..k + 1]) ==
            Named(samples, s, ss[..k]) + if id in index && index[id] in s then {index[id]} else {}
  {
    assert ss[..k + 1] == ss[..k] + [ss[k]];
    forall id ensures id in Ids(ss[..k + 1]) <==> id in Ids(ss[..k]) || id == ss[k].requestId {
      assert ss[k] in ss[..k + 1];
      if id in Ids(ss[..k]) {
        var x :| x in ss[..k] && x.requestId == id;
        assert x in ss[..k + 1];
      }
    }
  }

  // ---------------------------------------------------------------- loading

  /** One line of the corpus file: blank, or with its tokens and the id drawn for it. */
  datatype Line = Line(blank: bool, tokens: seq<int>, id: string)

  predicate Kept(l: Line, cap: int) {
    !l.blank && |l.tokens| <= cap
  }

  /** The samples of the lines that are neither blank nor longer than the buffer. */
  function Fitting(lines: seq<Line>, cap: int): seq<Sample> {
    if lines == [] then []
    else Fitting(lines[..|lines| - 1], cap)
         + if Kept(lines[|lines| - 1], cap) then [Sample(lines[|lines| - 1].id, lines[|lines| - 1].tokens)] else []
  }

  /** How many of `n` fitting samples are loaded. The limit is tested after each sample is
      added, so a limit of zero still loads one. */
  function LoadedOf(n: nat, most: Option<int>): nat {
    if most.Some? then Min(n, Max(1, most.value)) else n
  }

  /** The first samples of the fitting ones are loaded. */
  lemma {:induction false} FittingPrefix(lines: seq<Line>, cap: int, k: nat)
    requires k <= |lines|
    ensures Fitting(lines[..k], cap) <= Fitting(lines, cap)
    decreases |lines|
  {
    if k < |lines| {
      FittingPrefix(lines[..|lines| - 1], cap, k);
      assert lines[..|lines| - 1][..k] == lines[..k];
    } else {
      assert lines[..k] == lines;
    }
  }

  lemma {:induction false} FittingFrom(lines: seq<Line>, cap: int)
    ensures forall x | x in Fitting(lines, cap) :: exists l :: l in lines && Kept(l, cap) && x == Sample(l.id, l.tokens)
  {
    if lines != [] {
      FittingFrom(lines[..|lines| - 1], cap);
    }
  }

  /** The ids drawn while loading are distinct and not in use. */
  ghost predicate FreshIds(lines: seq<Line>, index: map<string, nat>) {
    && (forall i, j | 0 <= i < j < |lines| :: lines[i].id != lines[j].id)
    && (forall i | 0 <= i < |lines| :: lines[i].id !in index)
  }

  lemma FreshStep(lines: seq<Line>, index: map<string, nat>, n: nat)
    requires lines != [] && FreshIds(lines, index)
    ensures lines[0].id !in index && FreshIds(lines[1..], index) && FreshIds(lines[1..], index[lines[0].id := n])
  {
  }

  /** The samples are those of the lines with text that fit the buffer, line by line. */
  lemma FittingStep(lines: seq<Line>, cap: int, k: nat)
    requires k < |lines|
    ensures Fitting(lines[..k + 1], cap)
            == Fitting(lines[..k], cap) + if lines[k].blank || |lines[k].tokens| > cap then []
                                          else [Sample(lines[k].id, lines[k].tokens)]
    ensures Fitting([], cap) == []
    ensures lines[k..][0] == lines[k] && lines[k..][1..] == lines[k + 1..]
  {
    assert lines[..k + 1][..k] == lines[..k];
  }

  lemma IndexAppend(samples: seq<Sample>, index: map<string, nat>, x: Sample)
    requires IndexOk(samples, index) && x.requestId !in index
    ensures IndexOk(samples + [x], index[x.requestId := |samples|])
  {
  }

  ghost predicate ReadLoop(lines: seq<Line>, cap: int, k: nat, was: seq<Sample>, samples: seq<Sample>, index: map<string, nat>,
                           loaded: nat) {
    && k <= |lines| && loaded == |Fitting(lines[..k], cap)| && samples == was + Fitting(lines[..k], cap)
    && IndexOk(samples, index) && FreshIds(lines[k..], index)
  }

  lemma ReadStep(lines: seq<Line>, cap: int, k: nat, was: seq<Sample>, samples: seq<Sample>, index: map<string, nat>, loaded: nat)
    requires k < |lines| && ReadLoop(lines, cap, k, was, samples, index, loaded)
    ensures var l := lines[k];
            if Kept(l, cap)
            then ReadLoop(lines, cap, k + 1, was, samples + [Sample(l.id, l.tokens)], index[l.id := |samples|], loaded + 1)
            else ReadLoop(lines, cap, k + 1, was, samples, index, loaded)
  {
    FittingStep(lines, cap, k);
    FreshStep(lines[k..], index, |samples|);
    IndexAppend(samples, index, Sample(lines[k].id, lines[k].tokens));
  }

  lemma ReadEnd(lines: seq<Line>, cap: int, most: Option<int>, k: nat, was: seq<Sample>, samples: seq<Sample>,
                index: map<string, nat>, loaded: nat)
    requires ReadLoop(lines, cap, k, was, samples, index, loaded)
    requires if most.Some? && loaded > 0 && loaded >= most.value then loaded == Max(1, most.value) else k == |lines|
    ensures loaded == LoadedOf(|Fitting(lines, cap)|, most) <= |Fitting(lines, cap)|
    ensures samples == was + Fitting(lines, cap)[..loaded]
  {
    assert lines[..|lines|] == lines;
    FittingPrefix(lines, cap, k);
  }

  function Below(n: nat): (r: set<nat>)
    ensures forall i: nat :: i in r <==> i < n
  {
    if n == 0 then {} else Below(n - 1) + {n - 1}
  }

  lemma GroupsAreBuckets(samples: seq<Sample>, order: seq<nat>, groups: ByLength, got: set<nat>)
    requires Grouped(samples, order, groups, got)
    ensures BucketsOk(samples, groups) && (forall l :: l in order <==> l in groups) && Distinct(order)
  {
  }

  lemma GroupsHold(samples: seq<Sample>, order: seq<nat>, groups: ByLength, got: set<nat>, i: nat)
    requires Grouped(samples, order, groups, got) && i in got
    ensures i < |samples| && InBucket(samples, groups, i)
  {
  }

  /** One pass over the samples groups them all. */
  lemma GroupsAreFull(samples: seq<Sample>, order: seq<nat>, groups: ByLength, sorted: seq<nat>)
    requires Grouped(samples, order, groups, Below(|samples|))
    requires Ascending(sorted) && forall l :: l in sorted <==> l in order
    ensures FullTemplate(samples, groups, sorted)
  {
    GroupsAreBuckets(samples, order, groups, Below(|samples|));
    forall i: nat | i < |samples| ensures InBucket(samples, groups, i) {
      GroupsHold(samples, order, groups, Below(|samples|), i);
    }
  }

  lemma GroupNext(samples: seq<Sample>, order: seq<nat>, groups: ByLength, i: nat)
    requires i < |samples| && Grouped(samples, order, groups, Below(i))
    ensures var l := samples[i].InputLen();
            Grouped(samples, if l in groups then order else order + [l], AddTo(groups, l, i), Below(i + 1))
  {
    GroupOneMore(samples, order, groups, Below(i), i);
  }

  /** The grouping loop of `_build_templates`; `order` lists the lengths as they first occur. */
  method GroupByLength(samples: seq<Sample>) returns (order: seq<nat>, groups: ByLength)
    ensures Grouped(samples, order, groups, Below(|samples|))
  {
    order, groups := [], map[];
    for idx := 0 to |samples|
      invariant Grouped(samples, order, groups, Below(idx))
    {
      GroupNext(samples, order, groups, idx);
      var l := samples[idx].InputLen();
      order := if l in groups then order else order + [l];
      groups := AddTo(groups, l, idx);
    }
  }

  /** `keys` in ascending order. */
  method Sorted(keys: seq<nat>) returns (s: seq<nat>)
    requires Distinct(keys)
    ensures Ascending(s) && forall l :: l in s <==> l in keys
  {
    s := [];
    for k := 0 to |keys|
      invariant Ascending(s) && Elems(s) == Elems(keys[..k])
    {
      assert keys[..k + 1] == keys[..k] + [keys[k]];
      assert keys[k] !in Elems(keys[..k]);
      var p := BisectLeft(s, keys[k]);
      InsertAscending(s, keys[k]);
      InsertMembers(s, p, keys[k]);
      s := InsertAt(s, p, keys[k]);
    }
    assert keys[..|keys|] == keys;
    assert forall l :: l in s <==> l in Elems(s);
  }

  lemma TrainOne(n: nat, trained: seq<bool>, sel: set<nat>, claimed: set<nat>, idx: nat)
    requires Partition(n, trained, sel, claimed) && idx in claimed
    ensures idx < n && Partition(n, trained[idx := true], sel, claimed - {idx})
    ensures Marked(trained[idx := true]) == Marked(trained) + {idx}
  {
  }

  ghost predicate TrainLoop(samples: seq<Sample>, sel: set<nat>, was: set<nat>, done: set<nat>, ss: seq<Sample>, k: nat,
                            trained: seq<bool>, claimed: set<nat>, got: set<nat>)
    requires k <= |ss|
  {
    && got == Named(samples, was, ss[..k]) && claimed == was - got && Marked(trained) == done + got
    && Partition(|samples|, trained, sel, claimed)
  }

  lemma TrainStep(samples: seq<Sample>, index: map<string, nat>, sel: set<nat>, was: set<nat>, done: set<nat>,
                  trained: seq<bool>, claimed: set<nat>, got: set<nat>, ss: seq<Sample>, k: nat)
    requires IndexOk(samples, index) && k < |ss| && TrainLoop(samples, sel, was, done, ss, k, trained, claimed, got)
    ensures var id := ss[k].requestId;
            if id in index && index[id] in claimed then
              var i := index[id];
              && i < |trained| && |got + {i}| == |got| + 1
              && TrainLoop(samples, sel, was, done, ss, k + 1, trained[i := true], claimed - {i}, got + {i})
            else TrainLoop(samples, sel, was, done, ss, k + 1, trained, claimed, got)
  {
    NamedStep(samples, index, was, ss, k);
    var id := ss[k].requestId;
    if id in index && index[id] in claimed {
      TrainOne(|samples|, trained, sel, claimed, index[id]);
    }
  }

  lemma AllSelectable(samples: seq<Sample>, b: ByLength)
    requires forall i: nat | i < |samples| :: InBucket(samples, b, i)
    ensures At(samples, Selectable(samples, b)) == Elems(samples)
  {
    forall x | x in samples ensures x in At(samples, Selectable(samples, b)) {
      var i: nat :| i < |samples| && samples[i] == x;
      assert InBucket(samples, b, i);
    }
  }

  lemma NoneClaimed(samples: seq<Sample>, claimed: set<nat>)
    requires forall i | i in claimed :: i < |samples|
    ensures At(samples, claimed) == {} <==> claimed == {}
  {
    if claimed != {} {
      var i :| i in claimed;
      assert samples[i] in At(samples, claimed);
    }
  }
}
