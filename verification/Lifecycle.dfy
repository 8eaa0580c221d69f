/** The sample lifecycle as a transition system: scheduler steps in flight, the shared
    activation buffer they write, and the backward that consumes it. No lock appears
    anywhere; what the protocol guarantees is proved here for every run. */
module Lifecycle {
  import opened Samples
  import opened Coordinator
  import opened FinetuningStore
  import opened StepSpec

  /** A buffer row: the activation of token `pos` of `sample`, or zeroed. */
  datatype Row = Blank | Row(sample: Sample, pos: nat)

  /** An FT step between its schedule and its commit or rollback; `written` are the rows its
      forward has saved so far. */
  datatype Flight = Flight(o: StepOut, written: set<nat>)

  /** `done` are the chunks committed since the last backward; `log[e]` is the multiset of
      samples trained by the backwards acknowledged in epoch `e`. */
  datatype Sys = Sys(k: Core, inflight: seq<Flight>, buf: seq<Row>, done: seq<Chunk>, log: seq<multiset<Sample>>)

  datatype Event =
    | DoSchedule(i: ScheduleInput)
    | DoWrite(at: nat, row: nat)
    | DoCommit(at: nat)
    | DoRollback(at: nat, wipe: bool)
    | DoRelayedAck
    | DoStart(on: bool)
    | DoDisable

  function ChunkRows(x: Chunk): seq<Row> {
    seq(x.n, j requires 0 <= j < x.n => Row(x.sample, j))
  }

  /** The rows of a batch's FT chunks, in batch order. */
  function Rows(batch: seq<Chunk>): (r: seq<Row>)
    ensures |r| == Tokens(batch)
  {
    if batch == [] then []
    else
      assert ChunkLens(batch)[1..] == ChunkLens(batch[1..]);
      ChunkRows(batch[0]) + Rows(batch[1..])
  }

  function FlightTokens(fs: seq<Flight>): nat {
    if fs == [] then 0 else fs[0].o.n + FlightTokens(fs[1..])
  }

  function FlightSamples(fs: seq<Flight>): multiset<Sample> {
    if fs == [] then multiset{} else multiset(fs[0].o.samples) + FlightSamples(fs[1..])
  }

  function Without<T>(s: seq<T>, at: nat): seq<T>
    requires at < |s|
  {
    s[..at] + s[at + 1..]
  }

  function Wiped(buf: seq<Row>, from: nat, n: nat): seq<Row> {
    seq(|buf|, j requires 0 <= j < |buf| => if from <= j < from + n then Blank else buf[j])
  }

  /** The epoch log after an acknowledgement. */
  function Logged(log: seq<multiset<Sample>>, trained: seq<Sample>): seq<multiset<Sample>> {
    if log == [] then log else log[|log| - 1 := log[|log| - 1] + multiset(trained)]
  }

  ghost predicate Enabled(s: Sys, e: Event) {
    match e
    case DoSchedule(i) => ScheduleOk(s.k, i)
    case DoWrite(at, row) => at < |s.inflight| && row < s.inflight[at].o.n
    case DoCommit(at) => at < |s.inflight| && forall r: nat | r < s.inflight[at].o.n :: r in s.inflight[at].written
    case DoRollback(at, wipe) => at < |s.inflight| && (s.inflight[at].written != {} ==> wipe)
    case DoRelayedAck => s.k.c.pending && s.k.c.relay && s.k.c.cmd.None?
    case DoStart(_) => true
    case DoDisable => s.k.c.pending
  }

  ghost function Apply(s: Sys, e: Event): Sys
    requires Enabled(s, e)
  {
    match e
    case DoSchedule(i) =>
      var (k, o) := Schedule(s.k, i);
      var log1 := if i.ack then Logged(s.log, s.k.c.samples) else s.log;
      s.(k := k,
         inflight := if o.n > 0 then s.inflight + [Flight(o, {})] else s.inflight,
         done := if i.ack then [] else s.done,
         log := if i.advanced then log1 + [multiset{}] else log1)
    case DoWrite(at, row) =>
      var f := s.inflight[at];
      var j := f.o.offset + row;
      s.(inflight := s.inflight[at := f.(written := f.written + {row})],
         buf := if j < |s.buf| && row < |Rows(f.o.batch)| then s.buf[j := Rows(f.o.batch)[row]] else s.buf)
    case DoCommit(at) =>
      s.(k := Commit(s.k, s.inflight[at].o),
         inflight := Without(s.inflight, at),
         done := s.done + s.inflight[at].o.batch)
    case DoRollback(at, wipe) =>
      var o := s.inflight[at].o;
      s.(k := Rollback(s.k, o),
         inflight := Without(s.inflight, at),
         buf := if wipe then Wiped(s.buf, o.offset, o.n) else s.buf)
    case DoRelayedAck =>
      s.(k := Ack(s.k), done := [], log := Logged(s.log, s.k.c.samples))
    case DoStart(on) => s.(k := s.k.(c := s.k.c.(started := on)))
    case DoDisable => s.(k := s.k.(c := s.k.c.Disable()))
  }

  /** The state after construction and loading. */
  ghost predicate Init(s: Sys) {
    && var c := s.k.c; var p := s.k.p;
       && c.fill == 0 && c.reserved == 0 && c.sampleLens == [] && c.samples == []
       && c.open && !c.pending && !c.flush && !c.rpsActive && c.cmd.None? && c.work.None? && c.cycle == 0 && c.epoch == 0
       && p.Valid() && p.selectable == p.all && p.epoch == 0
       && s.inflight == [] && |s.buf| == c.capacity && s.done == [] && s.log == [multiset{}]
  }

  ghost predicate Run(s: Sys, es: seq<Event>, t: Sys)
    decreases |es|
  {
    if es == [] then s == t
    else Enabled(s, es[0]) && Run(Apply(s, es[0]), es[1..], t)
  }

  // ---------------------------------------------------------------- invariants

  ghost predicate FlightOk(f: Flight, capacity: nat) {
    && f.o.n == Tokens(f.o.batch) > 0
    && f.o.offset + f.o.n <= capacity
    && multiset(f.o.samples) == multiset(ChunkSamples(f.o.batch))
    && f.o.snap.open
    && (forall r | r in f.written :: r < f.o.n)
  }

  ghost predicate FlightsOk(fs: seq<Flight>, capacity: nat) {
    forall i | 0 <= i < |fs| :: FlightOk(fs[i], capacity)
  }

  /** Counting: the coordinator's numbers are the tokens committed and in flight. */
  ghost predicate Counted(c: Coord, fs: seq<Flight>, done: seq<Chunk>) {
    && c.reserved == FlightTokens(fs)
    && c.fill + c.reserved <= c.capacity
    && c.sampleLens == ChunkLens(done)
    && c.fill == Sum(c.sampleLens)
  }

  /** Agreement of the store with the coordinator: what the store holds as claimed is exactly
      what the coordinator holds in the buffer, each sample once, and it is exactly what has
      been committed or is in flight. */
  ghost predicate Agreed(samples: seq<Sample>, claimed: set<Sample>, fs: seq<Flight>, done: seq<Chunk>) {
    && multiset(samples) == multiset(claimed)
    && multiset(ChunkSamples(done)) + FlightSamples(fs) == multiset(claimed)
  }

  /** While a backward is pending no FT step is in flight, and the child's work item is the
      whole buffer. */
  ghost predicate Exclusive(c: Coord, fs: seq<Flight>) {
    && (c.pending ==> fs == [] && c.fill > 0)
    && (c.cmd.Some? ==> c.pending && c.relay && WholeBuffer(c, c.cmd.value))
    && (c.work.Some? <==> c.pending && !c.relay)
    && (c.work.Some? ==> WholeBuffer(c, c.work.value))
  }

  ghost predicate WholeBuffer(c: Coord, w: Work) {
    w.n == c.fill && w.sampleLens == c.sampleLens
  }

  /** Whenever admission is closed something is bound to reopen it. */
  ghost predicate NoWedge(c: Coord) {
    !c.open ==> c.pending || c.rpsActive || (c.flush && c.fill + c.reserved > 0)
  }

  /** Each earlier epoch trained every sample exactly once; the current one trained exactly the
      samples marked trained, once each. */
  ghost predicate OncePerEpoch(p: Pool, log: seq<multiset<Sample>>) {
    && |log| == p.epoch + 1
    && p.epoch <= Max(0, p.totalEpochs - 1)
    && (forall e: nat | e < p.epoch :: log[e] == multiset(p.all))
    && log[p.epoch] == multiset(p.trained)
  }

  ghost predicate CoordInv(c: Coord, fs: seq<Flight>, done: seq<Chunk>) {
    && FlightsOk(fs, c.capacity)
    && Counted(c, fs, done)
    && Exclusive(c, fs)
    && NoWedge(c)
  }

  ghost predicate Inv(s: Sys) {
    && CoordInv(s.k.c, s.inflight, s.done)
    && Agreed(s.k.c.samples, s.k.p.claimed, s.inflight, s.done)
    && s.k.p.Valid()
    && OncePerEpoch(s.k.p, s.log)
    && |s.buf| == s.k.c.capacity
  }

  // ---------------------------------------------------------------- list facts

  lemma {:induction false} FlightConcat(a: seq<Flight>, b: seq<Flight>)
    ensures FlightTokens(a + b) == FlightTokens(a) + FlightTokens(b)
    ensures FlightSamples(a + b) == FlightSamples(a) + FlightSamples(b)
  {
    if a == [] {
      assert a + b == b;
    } else {
      assert (a + b)[1..] == a[1..] + b;
      FlightConcat(a[1..], b);
    }
  }

  lemma SplitAt<T>(s: seq<T>, at: nat)
    requires at < |s|
    ensures s == s[..at] + ([s[at]] + s[at + 1..])
  {
  }

  lemma FlightCons(f: Flight, rest: seq<Flight>)
    ensures FlightTokens([f] + rest) == f.o.n + FlightTokens(rest)
    ensures FlightSamples([f] + rest) == multiset(f.o.samples) + FlightSamples(rest)
  {
    assert ([f] + rest)[1..] == rest;
  }

  lemma FlightSplit(fs: seq<Flight>, at: nat)
    requires at < |fs|
    ensures FlightTokens(fs) == fs[at].o.n + FlightTokens(Without(fs, at))
    ensures FlightSamples(fs) == multiset(fs[at].o.samples) + FlightSamples(Without(fs, at))
  {
    SplitAt(fs, at);
    FlightConcat(fs[..at], [fs[at]] + fs[at + 1..]);
    FlightCons(fs[at], fs[at + 1..]);
    FlightConcat(fs[..at], fs[at + 1..]);
  }

  lemma ChunkConcat(a: seq<Chunk>, b: seq<Chunk>)
    ensures ChunkLens(a + b) == ChunkLens(a) + ChunkLens(b)
    ensures ChunkSamples(a + b) == ChunkSamples(a) + ChunkSamples(b)
    ensures Tokens(a + b) == Tokens(a) + Tokens(b)
  {
    SumConcat(ChunkLens(a), ChunkLens(b));
  }

  lemma {:induction false} SumLensWithout(ss: seq<Sample>, at: nat)
    requires at < |ss|
    ensures SumLens(ss) == ss[at].InputLen() + SumLens(Without(ss, at))
  {
    if at == 0 {
      assert Without(ss, 0) == ss[1..];
    } else {
      SumLensWithout(ss[1..], at - 1);
      assert Without(ss, at) == [ss[0]] + Without(ss[1..], at - 1);
    }
  }

  lemma WithoutKeeps<T>(s: seq<T>, at: nat, y: T)
    requires at < |s| && y in s && y != s[at]
    ensures y in Without(s, at)
  {
    var m :| 0 <= m < |s| && s[m] == y;
    assert Without(s, at)[if m < at then m else m - 1] == y;
  }

  /** A batch never carries more tokens than were admitted. */
  lemma {:induction false} BatchWithinAdmitted(batch: seq<Chunk>, admitted: seq<Sample>)
    requires Distinct(ChunkSamples(batch))
    requires forall x | x in batch :: x.sample in admitted && 0 < x.n <= x.sample.InputLen()
    ensures Tokens(batch) <= SumLens(admitted)
    ensures batch != [] ==> Tokens(batch) > 0
  {
    if batch != [] {
      var x := batch[0];
      var at :| 0 <= at < |admitted| && admitted[at] == x.sample;
      assert ChunkLens(batch)[1..] == ChunkLens(batch[1..]);
      assert ChunkSamples(batch)[1..] == ChunkSamples(batch[1..]);
      forall y | y in batch[1..] ensures y.sample in Without(admitted, at) {
        var j :| 0 <= j < |batch[1..]| && batch[1..][j] == y;
        assert ChunkSamples(batch)[0] != ChunkSamples(batch)[j + 1];
        WithoutKeeps(admitted, at, y.sample);
      }
      BatchWithinAdmitted(batch[1..], Without(admitted, at));
      SumLensWithout(admitted, at);
    }
  }

  lemma MultisetElems(ss: seq<Sample>, pool: set<Sample>)
    requires multiset(ss) == multiset(pool)
    ensures Elems(ss) == pool
  {
    assert forall x :: x in ss <==> x in multiset(ss);
  }

  // ---------------------------------------------------------------- acknowledgement

  /** An acknowledgement marks exactly the claimed samples as trained. */
  lemma AckTrainsClaimed(k: Core)
    requires k.p.Valid() && multiset(k.c.samples) == multiset(k.p.claimed)
    ensures Ack(k).p == k.p.(claimed := {}, trained := k.p.trained + k.p.claimed)
  {
    MultisetElems(k.c.samples, k.p.claimed);
    PickElems(k.p.claimed, k.c.samples);
  }

  lemma AckStep(s: Sys, t: Sys)
    requires Inv(s) && s.k.c.pending && s.k.c.cmd.None?
    requires t == s.(k := Ack(s.k), done := [], log := Logged(s.log, s.k.c.samples))
    ensures Inv(t)
  {
    AckTrainsClaimed(s.k);
    assert t.k.p.claimed == {} && t.k.p.Valid();
    AckCoord(s.k.c, s.inflight, s.done);
    assert t.k.c == s.k.c.Acked() && t.k.c.capacity == s.k.c.capacity;
    AckLog(s.k.p, s.k.c.samples, s.log);
    assert OncePerEpoch(t.k.p, t.log);
  }

  lemma AckCoord(c: Coord, fs: seq<Flight>, done: seq<Chunk>)
    requires CoordInv(c, fs, done) && c.pending && c.cmd.None?
    ensures CoordInv(c.Acked(), fs, []) && fs == []
    ensures Agreed(c.Acked().samples, {}, fs, [])
  {
  }

  lemma AckLog(p: Pool, samples: seq<Sample>, log: seq<multiset<Sample>>)
    requires OncePerEpoch(p, log) && p.Valid() && multiset(samples) == multiset(p.claimed)
    ensures OncePerEpoch(p.(claimed := {}, trained := p.trained + p.claimed), Logged(log, samples))
  {
    assert multiset(p.trained) + multiset(p.claimed) == multiset(p.trained + p.claimed);
  }

  // ---------------------------------------------------------------- schedule

  /** Neither the flush fallback nor the throttle breaks anything. */
  lemma FlushKeeps(c: Coord, fs: seq<Flight>, done: seq<Chunk>)
    requires CoordInv(c, fs, done)
    ensures CoordInv(c.TryEpochFlush(), fs, done)
    ensures c.TryEpochFlush().samples == c.samples && c.TryEpochFlush().capacity == c.capacity
  {
    NothingReserved(fs, c.capacity);
  }

  lemma ThrottleKeeps(c: Coord, fs: seq<Flight>, done: seq<Chunk>, t: Throttle)
    requires CoordInv(c, fs, done)
    ensures CoordInv(c.CheckThrottle(t), fs, done)
    ensures c.CheckThrottle(t).samples == c.samples && c.CheckThrottle(t).capacity == c.capacity
  {
    ThrottleFields(c, t);
  }

  /** The throttle moves the gate and its own two fields, and closes the gate only while engaged. */
  lemma ThrottleFields(c: Coord, t: Throttle)
    ensures var d := c.CheckThrottle(t);
            && d == c.(open := d.open, rpsActive := d.rpsActive, rpsSince := d.rpsSince)
            && (d.open || d.rpsActive || (d.open == c.open && d.rpsActive == c.rpsActive))
  {
  }

  lemma NothingReserved(fs: seq<Flight>, capacity: nat)
    requires FlightsOk(fs, capacity)
    ensures FlightTokens(fs) == 0 ==> fs == []
  {
    assert fs == [] || FlightOk(fs[0], capacity);
  }

  /** The part of a schedule before admission keeps the invariant. */
  lemma PrologueStep(s: Sys, ack: bool, throttle: Throttle) returns (t: Sys)
    requires Inv(s) && (ack ==> s.k.c.pending && !s.k.c.relay)
    ensures t == s.(k := Prologue(s.k, ack, throttle),
                    done := if ack then [] else s.done,
                    log := if ack then Logged(s.log, s.k.c.samples) else s.log)
    ensures Inv(t)
  {
    var s1 := s;
    if ack {
      s1 := s.(k := Ack(s.k), done := [], log := Logged(s.log, s.k.c.samples));
      AckStep(s, s1);
    }
    t := s1.(k := s1.k.(c := s1.k.c.TryEpochFlush().CheckThrottle(throttle)));
    FlushKeeps(s1.k.c, s1.inflight, s1.done);
    ThrottleKeeps(s1.k.c.TryEpochFlush(), s1.inflight, s1.done, throttle);
  }

  /** The coordinator after the admission half of a schedule: `a` tokens admitted, `n` scheduled,
      `next1` and `next2` the shortest samples left before and after the unscheduled ones return. */
  function SchedCoord(c: Coord, a: nat, n: nat, next1: Option<nat>, next2: Option<nat>, e: nat, order: seq<Sample>): Coord {
    var c1 := c.NoteInjection(next1, a).(epoch := e);
    var c2 := if n < a then (var r := c1.Restore(c.Snapshot()); if n > 0 then r.NoteInjection(next2, n) else r) else c1;
    var c3 := if n > 0 then c2.Reserve(n, order) else c2;
    if c3.relay then c3.TakeCmd() else c3
  }

  /** `d` differs from `c` at most in the two admission flags and the epoch. */
  ghost predicate FlagsOnly(c: Coord, d: Coord) {
    d == c.(open := d.open, flush := d.flush, epoch := d.epoch)
  }

  /** The verdict of `note_injection`, and its re-derivation after a partial schedule, close the
      gate only over rows that are about to be reserved. */
  lemma VerdictFlags(c: Coord, a: nat, n: nat, next1: Option<nat>, next2: Option<nat>, e: nat, d: Coord)
    requires NoWedge(c) && n <= a && (a > 0 ==> c.Budget() > 0)
    requires var c1 := c.NoteInjection(next1, a).(epoch := e);
             d == if n < a then (var r := c1.Restore(c.Snapshot()); if n > 0 then r.NoteInjection(next2, n) else r) else c1
    ensures FlagsOnly(c, d) && d.epoch == e
    ensures !d.open ==> d.pending || d.rpsActive || (d.flush && d.fill + d.reserved + n > 0)
  {
  }

  lemma ReserveKeeps(c: Coord, d: Coord, fs: seq<Flight>, done: seq<Chunk>, n: nat, order: seq<Sample>, f: Flight)
    requires CoordInv(c, fs, done) && FlagsOnly(c, d) && !c.pending && n > 0
    requires f.o.n == n && FlightOk(f, c.capacity) && n <= c.Space()
    requires !d.open ==> d.rpsActive || d.flush
    ensures CoordInv(d.Reserve(n, order), fs + [f], done)
  {
    FlightConcat(fs, [f]);
    assert FlightTokens([f]) == f.o.n;
  }

  lemma TakeCmdKeeps(c: Coord, fs: seq<Flight>, done: seq<Chunk>)
    requires CoordInv(c, fs, done)
    ensures CoordInv(c.TakeCmd(), fs, done)
  {
  }

  lemma FlagsKeep(c: Coord, d: Coord, fs: seq<Flight>, done: seq<Chunk>)
    requires CoordInv(c, fs, done) && FlagsOnly(c, d) && NoWedge(d)
    ensures CoordInv(d, fs, done)
  {
  }

  lemma SchedCoordKeeps(c: Coord, fs: seq<Flight>, done: seq<Chunk>, a: nat, n: nat, next1: Option<nat>,
                        next2: Option<nat>, e: nat, order: seq<Sample>, f: Flight)
    requires CoordInv(c, fs, done)
    requires n <= a <= c.Space() && (a > 0 ==> c.Budget() > 0)
    requires n > 0 ==> f.o.n == n && FlightOk(f, c.capacity)
    ensures var d := SchedCoord(c, a, n, next1, next2, e, order);
            && CoordInv(d, if n > 0 then fs + [f] else fs, done)
            && d.samples == (if n > 0 then c.samples + order else c.samples)
            && d.capacity == c.capacity && d.fill == c.fill && d.epoch == e
  {
    var c1 := c.NoteInjection(next1, a).(epoch := e);
    var c2 := if n < a then (var r := c1.Restore(c.Snapshot()); if n > 0 then r.NoteInjection(next2, n) else r) else c1;
    VerdictFlags(c, a, n, next1, next2, e, c2);
    if n > 0 {
      ReserveKeeps(c, c2, fs, done, n, order, f);
      TakeCmdKeeps(c2.Reserve(n, order), fs + [f], done);
    } else {
      FlagsKeep(c, c2, fs, done);
      TakeCmdKeeps(c2, fs, done);
    }
  }

  lemma DroppedAre(admitted: seq<Sample>, batch: seq<Chunk>, all: set<Sample>)
    requires UniqueIds(all) && Elems(admitted) <= all
    requires Elems(ChunkSamples(batch)) <= Elems(admitted)
    ensures Elems(DropIds(admitted, Ids(ChunkSamples(batch)))) == Elems(admitted) - Elems(ChunkSamples(batch))
  {
    var drop := Ids(ChunkSamples(batch));
    var kept := DropIds(admitted, drop);
    DropIdsMembers(admitted, drop);
    forall x ensures x in kept <==> x in admitted && x.requestId !in drop {
      assert x in kept <==> multiset(kept)[x] > 0;
      assert x in admitted <==> multiset(admitted)[x] > 0;
    }
    forall x | x in admitted ensures x.requestId in drop <==> x in ChunkSamples(batch) {
      if x.requestId in drop {
        var y :| y in ChunkSamples(batch) && y.requestId == x.requestId;
        assert y in Elems(ChunkSamples(batch)) && x in Elems(admitted);
      }
    }
  }

  lemma BatchSamplesAdmitted(i: ScheduleInput)
    requires BatchOk(i)
    ensures Elems(ChunkSamples(i.batch)) <= Elems(i.admitted)
    ensures i.batch == [] ==> i.order == []
  {
    forall x | x in ChunkSamples(i.batch) ensures x in i.admitted {
      var j :| 0 <= j < |i.batch| && i.batch[j].sample == x;
      assert i.batch[j] in i.batch;
    }
    assert |i.order| == |multiset(i.order)|;
  }

  /** The store after a schedule: the scheduled samples have become claimed, nothing else moved. */
  lemma SchedPool(p: Pool, i: ScheduleInput)
    requires p.Valid() && BatchOk(i) && Elems(i.admitted) <= Advanced(p, i.advanced).selectable
    ensures var q := Advanced(p, i.advanced); var got := Elems(ChunkSamples(i.batch));
            && got <= q.selectable
            && q.Claim(i.admitted).Release(Dropped(i)) ==
                 q.(selectable := q.selectable - got, claimed := q.claimed + got)
            && q.Claim(i.admitted).Release(Dropped(i)).Valid()
  {
    var q := Advanced(p, i.advanced);
    var got := Elems(ChunkSamples(i.batch));
    BatchSamplesAdmitted(i);
    PickElems(q.selectable, i.admitted);
    var q1 := q.Claim(i.admitted);
    assert UniqueIds(q1.claimed) && q1.claimed <= q.all;
    DroppedAre(i.admitted, i.batch, q.all);
    PickElems(q1.claimed, Dropped(i));
    var q2 := q1.Release(Dropped(i));
    assert q2.claimed == q.claimed + got;
    assert q2.selectable == q.selectable - got;
  }

  lemma SchedAgreed(c: Coord, claimed: set<Sample>, selectable: set<Sample>, fs: seq<Flight>, done: seq<Chunk>,
                    i: ScheduleInput, f: Flight)
    requires Agreed(c.samples, claimed, fs, done) && BatchOk(i) && claimed !! selectable
    requires Elems(ChunkSamples(i.batch)) <= selectable
    requires f.o.samples == i.order
    ensures Agreed(c.samples + i.order, claimed + Elems(ChunkSamples(i.batch)), fs + [f], done)
  {
    var got := Elems(ChunkSamples(i.batch));
    DistinctMultiset(ChunkSamples(i.batch));
    assert multiset(claimed + got) == multiset(claimed) + multiset(got);
    FlightConcat(fs, [f]);
    assert FlightSamples([f]) == multiset(f.o.samples);
  }

  lemma AdvanceLog(p: Pool, log: seq<multiset<Sample>>)
    requires p.Valid() && OncePerEpoch(p, log)
    requires p.selectable == {} && p.CanAdvance() && p.epoch < p.totalEpochs - 1
    ensures p.trained == p.all && log[p.epoch] == multiset(p.all)
    ensures p.Advance().Valid() && OncePerEpoch(p.Advance(), log + [multiset{}])
  {
  }

  lemma NoteKeeps(c: Coord, next: Option<nat>, a: nat)
    ensures FlagsOnly(c, c.NoteInjection(next, a))
  {
  }

  lemma InjectKeeps(k: Core, i: ScheduleInput)
    ensures FlagsOnly(k.c, Inject(k, i).c)
  {
    NoteKeeps(k.c, NextLen(Advanced(k.p, i.advanced).Claim(i.admitted).selectable), SumLens(i.admitted));
  }

  lemma PartitionKeeps(k: Core, i: ScheduleInput, snap: Snap)
    ensures FlagsOnly(k.c, Partition(k, i, snap).c)
  {
    NoteKeeps(k.c.Restore(snap), NextLen(k.p.Release(Dropped(i)).selectable), Tokens(i.batch));
  }

  lemma ScheduleOut(k: Core, i: ScheduleInput)
    ensures var k0 := Prologue(k, i.ack, i.throttle);
            var (k', o) := Schedule(k, i);
            && o.n == Tokens(i.batch) && o.batch == i.batch && o.samples == i.order
            && o.snap == k0.c.Snapshot() && o.offset == k0.c.fill + k0.c.reserved && k'.c.fill == k0.c.fill
            && o.trigger == (if k0.c.relay then k0.c.cmd else None)
  {
    var k0 := Prologue(k, i.ack, i.throttle);
    InjectKeeps(k0, i);
    PartitionKeeps(Inject(k0, i), i, k0.c.Snapshot());
    OutFrom(k0.c, Partition(Inject(k0, i), i, k0.c.Snapshot()), i, k0.c.Snapshot());
  }

  /** The output of a step whose verdicts moved flags only. */
  lemma OutFrom(c: Coord, k2: Core, i: ScheduleInput, snap: Snap)
    requires FlagsOnly(c, k2.c)
    ensures var n := Tokens(i.batch);
            var c3 := if n > 0 then k2.c.Reserve(n, i.order) else k2.c;
            && k2.c.fill + k2.c.reserved == c.fill + c.reserved && (if c3.relay then c3.TakeCmd() else c3).fill == c.fill
            && (if c3.relay then c3.cmd else None) == (if c.relay then c.cmd else None)
  {
  }

  lemma ScheduleCore(k: Core, i: ScheduleInput)
    ensures var k0 := Prologue(k, i.ack, i.throttle);
            var q := Advanced(k0.p, i.advanced);
            var p1 := q.Claim(i.admitted);
            var p2 := p1.Release(Dropped(i));
            Schedule(k, i).0 == Core(SchedCoord(k0.c, SumLens(i.admitted), Tokens(i.batch), NextLen(p1.selectable),
                                                NextLen(p2.selectable), q.epoch, i.order), p2)
  {
  }

  /** `Schedule`, split into its coordinator and its store half. */
  lemma ScheduleShape(k: Core, i: ScheduleInput)
    requires ScheduleOk(k, i)
    ensures var k0 := Prologue(k, i.ack, i.throttle);
            var q := Advanced(k0.p, i.advanced);
            var p1 := q.Claim(i.admitted);
            var p2 := p1.Release(Dropped(i));
            var (k', o) := Schedule(k, i);
            && k' == Core(SchedCoord(k0.c, SumLens(i.admitted), Tokens(i.batch), NextLen(p1.selectable),
                                     NextLen(p2.selectable), q.epoch, i.order), p2)
            && o.n == Tokens(i.batch) && o.batch == i.batch && o.samples == i.order
            && o.snap == k0.c.Snapshot() && o.offset == k0.c.fill + k0.c.reserved && k'.c.fill == k0.c.fill
            && o.trigger == (if k0.c.relay then k0.c.cmd else None)
  {
    ScheduleOut(k, i);
    ScheduleCore(k, i);
  }

  lemma PoolHalf(p: Pool, log: seq<multiset<Sample>>, i: ScheduleInput)
    requires p.Valid() && OncePerEpoch(p, log) && BatchOk(i)
    requires Elems(i.admitted) <= Advanced(p, i.advanced).selectable
    requires i.advanced ==> p.selectable == {} && p.CanAdvance() && p.epoch < p.totalEpochs - 1
    ensures var q := Advanced(p, i.advanced); var p2 := q.Claim(i.admitted).Release(Dropped(i));
            && p2.Valid() && q.claimed == p.claimed && q.claimed !! q.selectable
            && p2.claimed == p.claimed + Elems(ChunkSamples(i.batch))
            && Elems(ChunkSamples(i.batch)) <= q.selectable
            && OncePerEpoch(p2, if i.advanced then log + [multiset{}] else log)
  {
    SchedPool(p, i);
    if i.advanced {
      AdvanceLog(p, log);
    }
  }

  lemma CoordHalf(c: Coord, fs: seq<Flight>, done: seq<Chunk>, i: ScheduleInput, o: StepOut,
                  next1: Option<nat>, next2: Option<nat>, e: nat)
    requires CoordInv(c, fs, done) && BatchOk(i)
    requires SumLens(i.admitted) <= c.Space() && (i.admitted != [] ==> c.Budget() > 0)
    requires o.n == Tokens(i.batch) && o.batch == i.batch && o.samples == i.order
    requires o.snap == c.Snapshot() && o.offset == c.fill + c.reserved
    ensures var d := SchedCoord(c, SumLens(i.admitted), o.n, next1, next2, e, i.order);
            && CoordInv(d, if o.n > 0 then fs + [Flight(o, {})] else fs, done)
            && d.samples == c.samples + i.order && d.capacity == c.capacity
    ensures i.batch == [] <==> o.n == 0
  {
    BatchWithinAdmitted(i.batch, i.admitted);
    BatchSamplesAdmitted(i);
    if o.n > 0 {
      assert FlightOk(Flight(o, {}), c.capacity);
    }
    SchedCoordKeeps(c, fs, done, SumLens(i.admitted), o.n, next1, next2, e, i.order, Flight(o, {}));
  }

  lemma ScheduleStep(s: Sys, i: ScheduleInput)
    requires Inv(s) && ScheduleOk(s.k, i)
    ensures Inv(Apply(s, DoSchedule(i)))
  {
    var s0 := PrologueStep(s, i.ack, i.throttle);
    var (k', o) := Schedule(s.k, i);
    ScheduleShape(s.k, i);
    AfterPrologue(s0, i, k', o, Apply(s, DoSchedule(i)));
  }

  /** A schedule, seen as the prologue followed by one possible new reservation. */
  lemma ScheduleParts(s: Sys, i: ScheduleInput) returns (s0: Sys, o: StepOut)
    requires Inv(s) && ScheduleOk(s.k, i)
    ensures Inv(s0) && s0.inflight == s.inflight && s0.buf == s.buf
    ensures s0.done == (if i.ack then [] else s.done) && s0.k == Prologue(s.k, i.ack, i.throttle)
    ensures o == Schedule(s.k, i).1 && o.offset == s0.k.c.fill + s0.k.c.reserved && o.n == Tokens(i.batch)
    ensures o.trigger == if s0.k.c.relay then s0.k.c.cmd else None
    ensures var t := Apply(s, DoSchedule(i));
            && t.k.c.fill == s0.k.c.fill && t.done == s0.done && t.buf == s.buf
            && t.inflight == if o.n > 0 then s0.inflight + [Flight(o, {})] else s0.inflight
  {
    s0 := PrologueStep(s, i.ack, i.throttle);
    o := Schedule(s.k, i).1;
    ScheduleShape(s.k, i);
    ghost var t := Apply(s, DoSchedule(i));
    assert t.k == Schedule(s.k, i).0;
  }

  lemma AfterPrologue(s: Sys, i: ScheduleInput, k': Core, o: StepOut, t: Sys)
    requires Inv(s) && AdmitOk(s.k, i.advanced, i.admitted) && BatchOk(i)
    requires var q := Advanced(s.k.p, i.advanced);
             k' == Core(SchedCoord(s.k.c, SumLens(i.admitted), o.n, NextLen(q.Claim(i.admitted).selectable),
                                   NextLen(k'.p.selectable), q.epoch, i.order),
                        q.Claim(i.admitted).Release(Dropped(i)))
    requires o.n == Tokens(i.batch) && o.batch == i.batch && o.samples == i.order
    requires o.snap == s.k.c.Snapshot() && o.offset == s.k.c.fill + s.k.c.reserved
    requires t == s.(k := k', inflight := if o.n > 0 then s.inflight + [Flight(o, {})] else s.inflight,
                     log := if i.advanced then s.log + [multiset{}] else s.log)
    ensures Inv(t)
  {
    var q := Advanced(s.k.p, i.advanced);
    PoolHalf(s.k.p, s.log, i);
    CoordHalf(s.k.c, s.inflight, s.done, i, o, NextLen(q.Claim(i.admitted).selectable),
              NextLen(k'.p.selectable), q.epoch);
    SchedAgreed(s.k.c, q.claimed, q.selectable, s.inflight, s.done, i, Flight(o, {}));
    if o.n == 0 {
      BatchSamplesAdmitted(i);
      assert s.k.c.samples + i.order == s.k.c.samples;
    }
  }

  // ---------------------------------------------------------------- commit and rollback

  /** Committing a step moves its tokens from the reserved to the committed ones. */
  lemma CommitRows(c: Coord, fs: seq<Flight>, done: seq<Chunk>, at: nat)
    requires FlightsOk(fs, c.capacity) && Counted(c, fs, done) && at < |fs|
    ensures var o := fs[at].o; var rest := Without(fs, at);
            && FlightsOk(rest, c.capacity) && FlightTokens(rest) == c.reserved - o.n && o.n > 0
            && c.sampleLens + ChunkLens(o.batch) == ChunkLens(done + o.batch)
            && Sum(c.sampleLens + ChunkLens(o.batch)) == c.fill + o.n
            && (FlightTokens(rest) == 0 ==> rest == [])
  {
    assert FlightOk(fs[at], c.capacity);
    FlightSplit(fs, at);
    ChunkConcat(done, fs[at].o.batch);
    SumConcat(c.sampleLens, ChunkLens(fs[at].o.batch));
    RestOk(fs, c.capacity, at);
    NothingReserved(Without(fs, at), c.capacity);
  }

  lemma RestOk(fs: seq<Flight>, capacity: nat, at: nat)
    requires FlightsOk(fs, capacity) && at < |fs|
    ensures FlightsOk(Without(fs, at), capacity)
  {
  }

  lemma CommitCoord(c: Coord, fs: seq<Flight>, done: seq<Chunk>, at: nat)
    requires CoordInv(c, fs, done) && at < |fs|
    ensures var o := fs[at].o;
            && CoordInv(c.RecordCapture(o.n, ChunkLens(o.batch)), Without(fs, at), done + o.batch)
            && c.RecordCapture(o.n, ChunkLens(o.batch)).samples == c.samples
            && c.RecordCapture(o.n, ChunkLens(o.batch)).capacity == c.capacity
  {
    CommitRows(c, fs, done, at);
  }

  lemma CommitStep(s: Sys, at: nat)
    requires Inv(s) && Enabled(s, DoCommit(at))
    ensures Inv(Apply(s, DoCommit(at)))
  {
    var o := s.inflight[at].o;
    assert FlightOk(s.inflight[at], s.k.c.capacity);
    CommitCoord(s.k.c, s.inflight, s.done, at);
    CommitAgreed(s.k.c.samples, s.k.p.claimed, s.inflight, s.done, at);
  }

  lemma CommitAgreed(samples: seq<Sample>, claimed: set<Sample>, fs: seq<Flight>, done: seq<Chunk>, at: nat)
    requires Agreed(samples, claimed, fs, done) && at < |fs|
    requires multiset(fs[at].o.samples) == multiset(ChunkSamples(fs[at].o.batch))
    ensures Agreed(samples, claimed, Without(fs, at), done + fs[at].o.batch)
  {
    FlightSplit(fs, at);
    ChunkConcat(done, fs[at].o.batch);
  }

  lemma RollbackCoord(c: Coord, fs: seq<Flight>, done: seq<Chunk>, at: nat)
    requires CoordInv(c, fs, done) && at < |fs|
    ensures var o := fs[at].o;
            CoordInv(c.ReleaseReserve(o.n, o.samples).Restore(o.snap), Without(fs, at), done)
  {
    assert FlightOk(fs[at], c.capacity);
    FlightSplit(fs, at);
  }

  /** A rolled-back step gives its samples back, and only them. */
  lemma RollbackAgreed(samples: seq<Sample>, claimed: set<Sample>, fs: seq<Flight>, done: seq<Chunk>, at: nat)
    requires UniqueIds(claimed) && Agreed(samples, claimed, fs, done) && at < |fs|
    ensures var ss := fs[at].o.samples;
            && Elems(ss) <= claimed
            && Agreed(DropIds(samples, Ids(ss)), claimed - Elems(ss), Without(fs, at), done)
  {
    var ss := fs[at].o.samples;
    FlightSplit(fs, at);
    assert multiset(ss) <= multiset(samples);
    DropIdsIsMinus(samples, ss, claimed);
    OnceOnly(ss, claimed);
    SplitOff(claimed, Elems(ss));
    assert multiset(ChunkSamples(done)) + FlightSamples(Without(fs, at)) + multiset(ss)
        == multiset(claimed - Elems(ss)) + multiset(ss);
    Cancel(multiset(ChunkSamples(done)) + FlightSamples(Without(fs, at)), multiset(claimed - Elems(ss)), multiset(ss));
  }

  lemma Cancel<T>(a: multiset<T>, b: multiset<T>, m: multiset<T>)
    requires a + m == b + m
    ensures a == b
  {
    forall x ensures a[x] == b[x] {
      assert (a + m)[x] == (b + m)[x];
    }
  }

  lemma SplitOff(a: set<Sample>, b: set<Sample>)
    requires b <= a
    ensures multiset(a) == multiset(a - b) + multiset(b)
  {
  }

  lemma RollbackPool(p: Pool, ss: seq<Sample>)
    requires p.Valid() && Elems(ss) <= p.claimed
    ensures p.Release(ss) == p.(claimed := p.claimed - Elems(ss), selectable := p.selectable + Elems(ss))
    ensures p.Release(ss).Valid()
  {
    PickElems(p.claimed, ss);
  }

  lemma OnceOnly(ss: seq<Sample>, pool: set<Sample>)
    requires multiset(ss) <= multiset(pool)
    ensures multiset(ss) == multiset(Elems(ss))
  {
    forall x ensures multiset(ss)[x] == multiset(Elems(ss))[x] {
      assert multiset(ss)[x] <= multiset(pool)[x] <= 1;
      assert x in ss <==> x in multiset(ss);
    }
  }

  lemma RollbackStep(s: Sys, at: nat, wipe: bool)
    requires Inv(s) && Enabled(s, DoRollback(at, wipe))
    ensures Inv(Apply(s, DoRollback(at, wipe)))
  {
    RollbackCoord(s.k.c, s.inflight, s.done, at);
    RollbackAgreed(s.k.c.samples, s.k.p.claimed, s.inflight, s.done, at);
    RollbackPool(s.k.p, s.inflight[at].o.samples);
  }

  lemma WrittenOk(fs: seq<Flight>, capacity: nat, at: nat, row: nat)
    requires FlightsOk(fs, capacity) && at < |fs| && row < fs[at].o.n
    ensures var g := fs[at].(written := fs[at].written + {row});
            && FlightsOk(fs[at := g], capacity)
            && FlightTokens(fs[at := g]) == FlightTokens(fs) && FlightSamples(fs[at := g]) == FlightSamples(fs)
  {
    var g := fs[at].(written := fs[at].written + {row});
    assert FlightOk(fs[at], capacity) && FlightOk(g, capacity);
    FlightSplit(fs, at);
    FlightSplit(fs[at := g], at);
    assert Without(fs[at := g], at) == Without(fs, at);
  }

  lemma WriteStep(s: Sys, at: nat, row: nat)
    requires Inv(s) && Enabled(s, DoWrite(at, row))
    ensures Inv(Apply(s, DoWrite(at, row)))
  {
    WrittenOk(s.inflight, s.k.c.capacity, at, row);
  }

  // ---------------------------------------------------------------- every run

  lemma StepKeepsInv(s: Sys, e: Event)
    requires Inv(s) && Enabled(s, e)
    ensures Inv(Apply(s, e))
  {
    match e
    case DoSchedule(i) => ScheduleStep(s, i);
    case DoWrite(at, row) => WriteStep(s, at, row);
    case DoCommit(at) => CommitStep(s, at);
    case DoRollback(at, wipe) => RollbackStep(s, at, wipe);
    case DoRelayedAck => AckStep(s, Apply(s, e));
    case DoStart(on) =>
    case DoDisable =>
  }

  lemma InitInv(s: Sys)
    requires Init(s)
    ensures Inv(s)
  {
  }

  lemma RunCons(s: Sys, e: Event, rest: seq<Event>, t: Sys)
    requires Enabled(s, e) && Run(Apply(s, e), rest, t)
    ensures Run(s, [e] + rest, t)
  {
    assert ([e] + rest)[1..] == rest;
  }

  lemma HeadTail<T>(a: seq<T>, b: seq<T>)
    requires a != []
    ensures a + b == [a[0]] + (a[1..] + b)
  {
  }

  lemma RunHead(s: Sys, es: seq<Event>, t: Sys)
    requires es != [] && Run(s, es, t)
    ensures Enabled(s, es[0]) && Run(Apply(s, es[0]), es[1..], t)
  {
  }

  lemma {:induction false} RunAppend(s: Sys, es: seq<Event>, t: Sys, more: seq<Event>, u: Sys)
    requires Run(s, es, t) && Run(t, more, u)
    ensures Run(s, es + more, u)
    decreases |es|
  {
    if es == [] {
      assert es + more == more;
    } else {
      RunHead(s, es, t);
      RunAppend(Apply(s, es[0]), es[1..], t, more, u);
      RunCons(s, es[0], es[1..] + more, u);
      HeadTail(es, more);
    }
  }

  lemma OneEvent(s: Sys, e: Event)
    requires Enabled(s, e)
    ensures Run(s, [e], Apply(s, e))
  {
    assert [e][1..] == [];
  }

  /** Whatever is scheduled, committed, rolled back and acknowledged in whatever order, the
      invariant holds in every reachable state. */
  lemma {:induction false} RunKeepsInv(s: Sys, es: seq<Event>, t: Sys)
    requires Inv(s) && Run(s, es, t)
    ensures Inv(t)
    decreases |es|
  {
    if es != [] {
      StepKeepsInv(s, es[0]);
      RunKeepsInv(Apply(s, es[0]), es[1..], t);
    }
  }
}
