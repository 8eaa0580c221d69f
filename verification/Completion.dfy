/** How finetuning ends: an eager engine trains every epoch, and then does not go idle. */
module Completion {
  import opened Samples
  import opened Coordinator
  import opened FinetuningStore
  import opened StepSpec
  import opened Lifecycle
  import opened Guarantees
  import opened Admission

  // ---------------------------------------------------------------- the end

  predicate FlushDue(c: Coord) {
    c.flush && c.fill + c.reserved > 0
  }

  /** The FT half of `has_requests`: keep stepping the engine although no inference is there. */
  predicate KeepsStepping(k: Core) {
    && k.c.started
    && (k.c.pending || FlushDue(k.c)
        || (k.c.Budget() >= Max(1, k.c.minSampleLen) && (k.p.selectable != {} || k.p.epoch < k.p.totalEpochs)))
  }

  /** Every epoch is trained and nothing is left over. */
  ghost predicate Finished(s: Sys) {
    && s.k.p.trained == s.k.p.all && s.k.p.epoch == s.k.p.totalEpochs - 1
    && s.inflight == [] && s.k.c.fill == 0 && !s.k.c.pending
  }

  /** An idle call on an empty buffer changes neither the store nor, the throttle aside, the budget. */
  lemma FinishedStep(s: Sys, i: ScheduleInput)
    requires Inv(s) && Finished(s) && ScheduleOk(s.k, i)
    ensures Finished(Apply(s, DoSchedule(i)))
    ensures var d := Apply(s, DoSchedule(i)).k.c;
            i.throttle.Off? ==> d.Budget() == s.k.c.Budget() && d.minSampleLen == s.k.c.minSampleLen
  {
    FirstCounts(i.admitted);
    assert s.k.p.selectable == {};
    IdleShape(s.k, i);
    FinishedCoord(s.k.c, i.throttle, NextLen(s.k.p.selectable), s.k.p.epoch);
  }

  lemma FinishedCoord(c: Coord, throttle: Throttle, next: Option<nat>, e: nat)
    requires !c.pending && c.fill == 0 && c.reserved == 0
    ensures var d := SchedCoord(c.TryEpochFlush().CheckThrottle(throttle), 0, 0, next, None, e, []);
            && !d.pending && d.fill == 0
            && (throttle.Off? ==> d.Budget() == c.Budget() && d.minSampleLen == c.minSampleLen)
  {
    IdleSched(c.TryEpochFlush().CheckThrottle(throttle), next, e);
  }

  lemma FinishedQuiet(s: Sys, e: Event)
    requires Inv(s) && Finished(s) && Enabled(s, e)
    ensures Finished(Apply(s, e))
  {
    if e.DoSchedule? {
      FinishedStep(s, e.i);
    }
  }

  /** Finished is finished, whatever happens then: nothing is ever admitted again, and the engine
      asks for another step whenever its budget holds a minimal sample. */
  lemma {:induction false} FinishedForever(s: Sys, es: seq<Event>, t: Sys)
    requires Inv(s) && Finished(s) && Run(s, es, t)
    ensures Finished(t) && !Stage0(t.k)
    ensures KeepsStepping(t.k) <==> t.k.c.Budget() >= Max(1, t.k.c.minSampleLen)
    decreases |es|
  {
    if es == [] {
      assert t.k.p.selectable == {};
      assert t.k.c.reserved == 0;
    } else {
      FinishedQuiet(s, es[0]);
      StepKeepsInv(s, es[0]);
      FinishedForever(Apply(s, es[0]), es[1..], t);
    }
  }

  lemma {:induction false} SameBudget(s: Sys, es: seq<Event>, t: Sys)
    requires Inv(s) && Finished(s) && Run(s, es, t)
    requires forall e | e in es :: e.DoSchedule? && e.i.throttle.Off?
    ensures t.k.c.Budget() == s.k.c.Budget() && t.k.c.minSampleLen == s.k.c.minSampleLen
    decreases |es|
  {
    if es != [] {
      assert es[0] in es;
      StepKeepsInv(s, es[0]);
      FinishedStep(s, es[0].i);
      SameBudget(Apply(s, es[0]), es[1..], t);
    }
  }

  /** Without arrivals that situation is permanent: an engine whose budget holds a minimal sample
      when training has finished is stepped for ever and never goes idle. */
  lemma FinishedEngineKeepsSpinning(s: Sys, es: seq<Event>, t: Sys)
    requires Inv(s) && Finished(s) && Run(s, es, t)
    requires forall e | e in es :: e.DoSchedule? && e.i.throttle.Off?
    ensures !Stage0(t.k)
    ensures KeepsStepping(t.k) <==> s.k.c.Budget() >= Max(1, s.k.c.minSampleLen)
  {
    FinishedForever(s, es, t);
    SameBudget(s, es, t);
  }

  // ---------------------------------------------------------------- eager engines

  /** There is a sample, and each fits the buffer. */
  ghost predicate Room(c: Coord, all: set<Sample>) {
    all != {} && forall x | x in all :: x.InputLen() <= c.capacity && x.InputLen() <= c.perStepBudget
  }

  /** There is room for a minimal sample, or the buffer is being trained. */
  ghost predicate RoomForOne(c: Coord) {
    && 1 <= c.minSampleLen <= c.capacity && c.minSampleLen <= c.perStepBudget
    && (!c.pending ==> c.Space() >= c.minSampleLen)
  }

  /** Something can be admitted: a selectable sample that fits, or the next epoch. */
  ghost predicate CanTake(k: Core) {
    && k.c.Budget() > 0
    && ((exists x :: x in k.p.selectable && x.InputLen() <= k.c.Space())
        || (k.p.selectable == {} && k.p.CanAdvance() && k.p.epoch < k.p.totalEpochs - 1))
  }

  /** The backward has answered by the next step, and when something can be admitted something is. */
  ghost predicate Eager(k: Core, i: ScheduleInput) {
    && ScheduleOk(k, i) && i.throttle.Off? && i.ack == k.c.pending
    && (CanTake(Prologue(k, i.ack, Off)) ==> i.batch != [])
  }

  /** Between the steps of an engine without arrivals, one step at a time on one GPU. */
  ghost predicate Quiet(s: Sys) {
    && Inv(s) && s.inflight == [] && (forall x | x in s.done :: x.n > 0)
    && !s.k.c.relay && s.k.c.started && !s.k.c.rpsActive
    && Room(s.k.c, s.k.p.all) && s.k.p.totalEpochs >= 1
  }

  ghost predicate Settled(s: Sys) {
    Quiet(s) && RoomForOne(s.k.c)
  }

  /** Between its steps such an engine always asks for the next one. */
  lemma SettledIsStepped(s: Sys)
    requires Settled(s)
    ensures KeepsStepping(s.k)
  {
    assert !s.k.c.pending && !FlushDue(s.k.c) ==> s.k.c.open;
  }

  /** What no step changes. */
  ghost predicate SameSetup(c: Coord, d: Coord) {
    && d.capacity == c.capacity && d.perStepBudget == c.perStepBudget && d.minSampleLen == c.minSampleLen
    && d.started == c.started && d.rpsActive == c.rpsActive && d.relay == c.relay
  }

  function Stage(c: Coord): nat {
    if c.pending then 0 else if FlushDue(c) then 1 else 2
  }

  /** Closer to the end: in a later epoch, or with fewer samples to select, or with the backward
      nearer. */
  ghost predicate Closer(s: Sys, t: Sys) {
    || t.k.p.epoch > s.k.p.epoch
    || (t.k.p.epoch == s.k.p.epoch && t.k.p.selectable < s.k.p.selectable)
    || (t.k.p.epoch == s.k.p.epoch && t.k.p.selectable == s.k.p.selectable && Stage(t.k.c) < Stage(s.k.c))
  }

  // ---------------------------------------------------------------- what a step keeps

  lemma PrologueSetup(k: Core, ack: bool)
    ensures SameSetup(k.c, Prologue(k, ack, Off).c)
  {
  }

  lemma SchedSetup(c: Coord, a: nat, n: nat, next1: Option<nat>, next2: Option<nat>, e: nat, order: seq<Sample>)
    ensures SameSetup(c, SchedCoord(c, a, n, next1, next2, e, order))
  {
    var c1 := c.NoteInjection(next1, a).(epoch := e);
    NoteKeeps(c, next1, a);
    NoteKeeps(c1.Restore(c.Snapshot()), next2, n);
    var r := c1.Restore(c.Snapshot());
    var c2 := if n < a then (if n > 0 then r.NoteInjection(next2, n) else r) else c1;
    assert SameSetup(c, c2);
  }

  lemma ScheduleSetup(k: Core, i: ScheduleInput)
    requires ScheduleOk(k, i) && i.throttle.Off?
    ensures SameSetup(k.c, Schedule(k, i).0.c)
  {
    ScheduleShape(k, i);
    PrologueSetup(k, i.ack);
    var k0 := Prologue(k, i.ack, i.throttle);
    var q := Advanced(k0.p, i.advanced);
    var p1 := q.Claim(i.admitted);
    SchedSetup(k0.c, SumLens(i.admitted), Tokens(i.batch), NextLen(p1.selectable), NextLen(p1.Release(Dropped(i)).selectable),
               q.epoch, i.order);
  }

  /** A commit that leaves no room for a minimal sample starts the backward. */
  lemma CommitSetup(c: Coord, n: nat, lens: seq<nat>)
    ensures SameSetup(c, c.RecordCapture(n, lens))
    ensures var d := c.RecordCapture(n, lens);
            n > 0 && d.reserved == 0 && !d.pending ==> d.Space() >= d.minSampleLen
  {
  }

  /** The store after a schedule, with nothing but the scheduled samples moved. */
  lemma SchedulePool(k: Core, i: ScheduleInput)
    requires ScheduleOk(k, i) && Prologue(k, i.ack, i.throttle).p.Valid()
    ensures var q := Advanced(Prologue(k, i.ack, i.throttle).p, i.advanced); var got := Elems(ChunkSamples(i.batch));
            Schedule(k, i).0.p == q.(selectable := q.selectable - got, claimed := q.claimed + got) && got <= q.selectable
  {
    ScheduleShape(k, i);
    SchedPool(Prologue(k, i.ack, i.throttle).p, i);
  }

  // ---------------------------------------------------------------- a forward

  /** The forward of a step in flight saves its rows. */
  lemma {:induction false} WriteAll(s: Sys, at: nat, r: nat) returns (es: seq<Event>, t: Sys)
    requires at < |s.inflight| && r <= s.inflight[at].o.n
    requires forall q: nat | q < r :: q in s.inflight[at].written
    ensures Run(s, es, t) && t.k == s.k && t.done == s.done && |t.inflight| == |s.inflight|
    ensures Without(t.inflight, at) == Without(s.inflight, at) && t.inflight[at].o == s.inflight[at].o
    ensures forall q: nat | q < t.inflight[at].o.n :: q in t.inflight[at].written
    decreases s.inflight[at].o.n - r
  {
    if r == s.inflight[at].o.n {
      es, t := [], s;
    } else {
      var e := DoWrite(at, r);
      var u := Apply(s, e);
      assert Without(u.inflight, at) == Without(s.inflight, at);
      es, t := WriteAll(u, at, r + 1);
      RunCons(s, e, es, t);
      es := [e] + es;
    }
  }

  lemma ForwardRun(s: Sys, at: nat) returns (es: seq<Event>, t: Sys)
    requires at < |s.inflight|
    ensures Run(s, es, t) && t.k == Commit(s.k, s.inflight[at].o) && t.inflight == Without(s.inflight, at)
    ensures t.done == s.done + s.inflight[at].o.batch
  {
    var u;
    es, u := WriteAll(s, at, 0);
    var e := DoCommit(at);
    OneEvent(u, e);
    t := Apply(u, e);
    RunAppend(s, es, u, [e], t);
    es := es + [e];
  }

  /** The forward of the only step. */
  lemma OnlyForward(s: Sys) returns (es: seq<Event>, t: Sys)
    requires Inv(s) && |s.inflight| == 1
    ensures Run(s, es, t) && Inv(t) && t.k == Commit(s.k, s.inflight[0].o) && t.inflight == []
    ensures t.done == s.done + s.inflight[0].o.batch
  {
    es, t := ForwardRun(s, 0);
    RunKeepsInv(s, es, t);
  }

  /** One step of the engine: schedule, and the forward if anything was scheduled. */
  lemma StepRun(s: Sys, i: ScheduleInput) returns (es: seq<Event>, t: Sys)
    requires Quiet(s) && Eager(s.k, i)
    ensures Run(s, es, t) && Quiet(t) && SameSetup(s.k.c, t.k.c)
    ensures t.k.p == Schedule(s.k, i).0.p && t.k.p.all == s.k.p.all && t.k.p.totalEpochs == s.k.p.totalEpochs
    ensures i.batch == [] ==> t == Apply(s, DoSchedule(i))
    ensures i.batch != [] && !t.k.c.pending ==> t.k.c.Space() >= t.k.c.minSampleLen
  {
    var s0, o := ScheduleParts(s, i);
    var e := DoSchedule(i);
    var u := Apply(s, e);
    StepKeepsInv(s, e);
    OneEvent(s, e);
    ScheduleSetup(s.k, i);
    SchedulePool(s.k, i);
    BatchWithinAdmitted(i.batch, i.admitted);
    ScheduleOut(s.k, i);
    if i.batch == [] {
      assert Tokens([]) == 0;
      es, t := [e], u;
    } else {
      assert u.inflight == [Flight(o, {})];
      var more;
      more, t := OnlyForward(u);
      RunAppend(s, [e], u, more, t);
      es := [e] + more;
      CommitSetup(u.k.c, o.n, ChunkLens(o.batch));
    }
  }

  /** A step keeps room for one. */
  lemma StepRoom(s: Sys, i: ScheduleInput, t: Sys)
    requires Settled(s) && Eager(s.k, i) && SameSetup(s.k.c, t.k.c)
    requires i.batch != [] && !t.k.c.pending ==> t.k.c.Space() >= t.k.c.minSampleLen
    requires i.batch == [] ==> t == Apply(s, DoSchedule(i))
    ensures RoomForOne(t.k.c)
  {
    if i.batch == [] {
      IdleRoom(s.k, i);
    }
  }

  lemma IdleRoom(k: Core, i: ScheduleInput)
    requires RoomForOne(k.c) && Eager(k, i) && i.batch == [] && (k.c.pending || k.c.reserved == 0)
    ensures RoomForOne(Schedule(k, i).0.c)
  {
    ScheduleSetup(k, i);
    ScheduleShape(k, i);
    var k0 := Prologue(k, i.ack, Off);
    PrologueRoom(k, i.ack);
    var q := Advanced(k0.p, i.advanced);
    var p1 := q.Claim(i.admitted);
    assert Tokens([]) == 0;
    EmptySpace(k0.c, SumLens(i.admitted), NextLen(p1.selectable), NextLen(p1.Release(Dropped(i)).selectable), q.epoch, i.order);
  }

  lemma PrologueRoom(k: Core, ack: bool)
    requires RoomForOne(k.c) && ack == k.c.pending
    ensures RoomForOne(Prologue(k, ack, Off).c)
  {
  }

  lemma EmptySpace(c: Coord, a: nat, next1: Option<nat>, next2: Option<nat>, e: nat, order: seq<Sample>)
    ensures var d := SchedCoord(c, a, 0, next1, next2, e, order); d.Space() == c.Space() && d.pending == c.pending
  {
    NoteKeeps(c, next1, a);
  }

  // ---------------------------------------------------------------- progress

  lemma {:induction false} PositiveSum(done: seq<Chunk>)
    requires forall x | x in done :: x.n > 0
    ensures Sum(ChunkLens(done)) == 0 ==> done == []
  {
    if done != [] {
      assert ChunkLens(done)[0] == done[0].n && done[0] in done;
    }
  }

  /** An empty settled buffer holds no sample. */
  lemma EmptyHolds(s: Sys)
    requires Quiet(s) && s.k.c.fill == 0
    ensures s.k.p.claimed == {}
  {
    PositiveSum(s.done);
    assert |multiset(s.k.p.claimed)| == 0;
  }

  lemma SomeLength(c: Coord, all: set<Sample>)
    requires Room(c, all) && forall x | x in all :: x.InputLen() > 0
    ensures c.capacity > 0 && c.perStepBudget > 0
  {
    var x :| x in all;
  }

  /** With an empty open buffer nothing can be taken only at the end. */
  lemma EmptyCanTake(k: Core)
    requires k.p.Valid() && Room(k.c, k.p.all) && k.c.started && k.c.open && !k.c.pending
    requires k.c.fill == 0 && k.c.reserved == 0 && k.p.claimed == {}
    requires k.p.epoch <= Max(0, k.p.totalEpochs - 1) && k.p.totalEpochs >= 1
    ensures CanTake(k) || (k.p.trained == k.p.all && k.p.epoch == k.p.totalEpochs - 1)
  {
    SomeLength(k.c, k.p.all);
    if k.p.selectable != {} {
      var x :| x in k.p.selectable;
      assert x in k.p.all;
    }
  }

  /** Where nothing can be taken nothing is. */
  lemma NothingTaken(k: Core, i: ScheduleInput)
    requires ScheduleOk(k, i) && !CanTake(Prologue(k, i.ack, i.throttle))
    ensures i.admitted == [] && !i.advanced && i.batch == []
  {
    FirstCounts(i.admitted);
    BatchWithinAdmitted(i.batch, i.admitted);
    BatchSamplesAdmitted(i);
  }

  /** A step that takes something leaves fewer samples to select, or is in a later epoch. */
  lemma TakingIsCloser(s: Sys, i: ScheduleInput, t: Sys)
    requires Quiet(s) && Eager(s.k, i) && i.batch != [] && t.k.p == Schedule(s.k, i).0.p
    ensures Closer(s, t)
  {
    var s0 := PrologueStep(s, i.ack, i.throttle);
    SchedulePool(s.k, i);
    assert ChunkSamples(i.batch)[0] in Elems(ChunkSamples(i.batch));
    AckKeepsPool(s);
  }

  /** An acknowledgement moves no selectable sample. */
  lemma AckKeepsPool(s: Sys)
    requires Inv(s)
    ensures Ack(s.k).p.selectable == s.k.p.selectable && Ack(s.k).p.epoch == s.k.p.epoch && Ack(s.k).p.all == s.k.p.all
  {
  }

  /** After the answer, with nothing to take, training is over. */
  lemma AckedIsFinished(s: Sys, i: ScheduleInput)
    requires Quiet(s) && s.k.c.pending && Eager(s.k, i) && !CanTake(Prologue(s.k, true, Off))
    ensures Finished(Apply(s, DoSchedule(i)))
  {
    var s0 := AckedPrologueFinished(s);
    NothingTaken(s.k, i);
    IdleShape(s.k, i);
    IdleSched(s0.k.c, NextLen(s0.k.p.selectable), s0.k.p.epoch);
  }

  lemma AckedPrologueFinished(s: Sys) returns (s0: Sys)
    requires Quiet(s) && s.k.c.pending && !CanTake(Prologue(s.k, true, Off))
    ensures Finished(s0) && s0.k == Prologue(s.k, true, Off) && s0.inflight == s.inflight
  {
    s0 := PrologueStep(s, true, Off);
    AckTrainsClaimed(s.k);
    PrologueSetup(s.k, true);
    EmptyCanTake(s0.k);
  }

  /** A buffer marked for flushing starts its backward. */
  lemma FlushIsCloser(s: Sys, i: ScheduleInput)
    requires Quiet(s) && !s.k.c.pending && FlushDue(s.k.c) && Eager(s.k, i)
    ensures i.batch == [] && Closer(s, Apply(s, DoSchedule(i)))
  {
    assert Prologue(s.k, false, Off).c.pending;
    NothingTaken(s.k, i);
    IdleShape(s.k, i);
    PendingAfter(Prologue(s.k, false, Off).c, NextLen(s.k.p.selectable), s.k.p.epoch);
  }

  lemma PendingAfter(c: Coord, next: Option<nat>, e: nat)
    ensures SchedCoord(c, 0, 0, next, None, e, []).pending == c.pending
  {
  }

  /** A buffer that can take nothing is marked for flushing, or starts its backward. */
  lemma StuckIsCloser(s: Sys, i: ScheduleInput)
    requires Quiet(s) && !s.k.c.pending && !FlushDue(s.k.c) && s.k.c.fill > 0 && Eager(s.k, i)
    requires !CanTake(Prologue(s.k, false, Off))
    ensures Closer(s, Apply(s, DoSchedule(i)))
  {
    SomeLength(s.k.c, s.k.p.all);
    assert s.k.c.open && Prologue(s.k, false, Off) == s.k;
    assert CannotGrow(s);
    StuckBufferStep(s, i);
    NothingTaken(s.k, i);
    IdleShape(s.k, i);
  }

  lemma Progress(s: Sys, i: ScheduleInput, t: Sys)
    requires Quiet(s) && !Finished(s) && Eager(s.k, i)
    requires t.k.p == Schedule(s.k, i).0.p && (i.batch == [] ==> t == Apply(s, DoSchedule(i)))
    ensures Closer(s, t) || Finished(t)
  {
    if i.batch != [] {
      TakingIsCloser(s, i, t);
    } else if s.k.c.pending {
      AckedIsFinished(s, i);
    } else if FlushDue(s.k.c) {
      FlushIsCloser(s, i);
    } else if s.k.c.fill > 0 {
      StuckIsCloser(s, i);
    } else {
      EmptyHolds(s);
      assert Prologue(s.k, false, Off) == s.k;
      EmptyCanTake(s.k);
    }
  }

  /** In every settled state with the corpus `all`, `choice` is eager. */
  ghost predicate EagerAlways(choice: Core -> ScheduleInput, all: set<Sample>) {
    forall s {:trigger Settled(s)} | Settled(s) && s.k.p.all == all :: Eager(s.k, choice(s.k))
  }

  /** Without arrivals every eager engine trains every epoch: whatever it picks among the samples
      that fit, and whatever the base scheduler schedules of it, as long as it is something. */
  lemma {:induction false} EagerEngineFinishes(s: Sys, choice: Core -> ScheduleInput) returns (es: seq<Event>, t: Sys)
    requires Settled(s) && EagerAlways(choice, s.k.p.all)
    ensures Run(s, es, t) && Settled(t) && Finished(t)
    ensures SameSetup(s.k.c, t.k.c) && t.k.p.all == s.k.p.all
    decreases s.k.p.totalEpochs - s.k.p.epoch, |s.k.p.selectable|, Stage(s.k.c)
  {
    if Finished(s) {
      es, t := [], s;
    } else {
      var i := choice(s.k);
      var u;
      es, u := StepRun(s, i);
      StepRoom(s, i, u);
      Progress(s, i, u);
      if Finished(u) {
        t := u;
      } else {
        CloserDecreases(s, u);
        var more;
        more, t := EagerEngineFinishes(u, choice);
        RunAppend(s, es, u, more, t);
        es := es + more;
      }
    }
  }

  lemma CloserDecreases(s: Sys, t: Sys)
    requires Closer(s, t)
    ensures t.k.p.epoch == s.k.p.epoch && t.k.p.selectable < s.k.p.selectable ==> |t.k.p.selectable| < |s.k.p.selectable|
  {
    if t.k.p.selectable < s.k.p.selectable {
      var rest := s.k.p.selectable - t.k.p.selectable;
      assert s.k.p.selectable == t.k.p.selectable + rest && rest != {};
    }
  }

  // ---------------------------------------------------------------- eager choices exist

  lemma TakeOne(k: Core, ack: bool, advanced: bool, x: Sample) returns (i: ScheduleInput)
    requires ack == k.c.pending && (ack ==> !k.c.relay)
    requires var k0 := Prologue(k, ack, Off);
             && k0.c.Budget() > 0 && x in Advanced(k0.p, advanced).selectable && 0 < x.InputLen() <= k0.c.Space()
             && (advanced ==> k0.p.selectable == {} && k0.p.CanAdvance() && k0.p.epoch < k0.p.totalEpochs - 1)
    ensures Eager(k, i)
  {
    i := ScheduleInput(ack, Off, advanced, [x], [Chunk(x, x.InputLen())], [x]);
    assert ChunkSamples(i.batch) == [x];
    assert SumLens([x]) == x.InputLen() + SumLens([x][1..]);
  }

  lemma EagerChoice(s: Sys) returns (i: ScheduleInput)
    requires Quiet(s)
    ensures Eager(s.k, i)
  {
    var s0 := PrologueStep(s, s.k.c.pending, Off);
    if !CanTake(s0.k) {
      i := TakeNothing(s.k, s.k.c.pending);
    } else if s0.k.p.selectable == {} {
      i := NextEpochChoice(s, s0);
    } else {
      var x :| x in s0.k.p.selectable && x.InputLen() <= s0.k.c.Space();
      i := TakeSelectable(s, s0, x);
    }
  }

  lemma TakeSelectable(s: Sys, s0: Sys, x: Sample) returns (i: ScheduleInput)
    requires Quiet(s) && Inv(s0) && s0.k == Prologue(s.k, s.k.c.pending, Off) && s0.k.c.Budget() > 0
    requires x in s0.k.p.selectable && x.InputLen() <= s0.k.c.Space()
    ensures Eager(s.k, i)
  {
    assert x in s0.k.p.all;
    i := TakeOne(s.k, s.k.c.pending, false, x);
  }

  lemma TakeNothing(k: Core, ack: bool) returns (i: ScheduleInput)
    requires ack == k.c.pending && (ack ==> !k.c.relay) && !CanTake(Prologue(k, ack, Off))
    ensures Eager(k, i)
  {
    i := ScheduleInput(ack, Off, false, [], [], []);
    assert ChunkSamples([]) == [];
    assert Elems<Sample>([]) == {};
  }

  lemma NextEpochChoice(s: Sys, s0: Sys) returns (i: ScheduleInput)
    requires Quiet(s) && Inv(s0) && s0.k == Prologue(s.k, s.k.c.pending, Off)
    requires s0.k.c.Budget() > 0 && s0.k.p.selectable == {} && s0.k.p.CanAdvance() && s0.k.p.epoch < s0.k.p.totalEpochs - 1
    ensures Eager(s.k, i)
  {
    AckKeepsPool(s);
    NoSamplesLeft(s0);
    PrologueSetup(s.k, s.k.c.pending);
    var x :| x in s0.k.p.all;
    i := TakeOne(s.k, s.k.c.pending, true, x);
  }

  lemma NothingHeld(samples: seq<Sample>, fs: seq<Flight>, done: seq<Chunk>)
    requires Agreed(samples, {}, fs, done)
    ensures done == [] && FlightSamples(fs) == multiset{}
  {
    var m := multiset(ChunkSamples(done));
    assert |m + FlightSamples(fs)| == |m| + |FlightSamples(fs)| == 0;
    assert |done| == |ChunkSamples(done)| == |m|;
  }

  /** With nothing claimed the buffer is empty. */
  lemma NoSamplesLeft(s: Sys)
    requires Inv(s) && s.k.p.claimed == {}
    ensures s.k.c.fill == 0 && s.k.c.reserved == 0
  {
    NothingHeld(s.k.c.samples, s.inflight, s.done);
    assert s.k.c.sampleLens == [];
    NoSamplesNoFlights(s.inflight, s.k.c.capacity);
  }

  ghost function Choose(k: Core): ScheduleInput {
    if exists i :: Eager(k, i) then var i :| Eager(k, i); i else ScheduleInput(false, Off, false, [], [], [])
  }

  /** The spinning state is reached: every fresh engine on one GPU whose samples fit has a run after
      which nothing can ever be admitted again, and yet `has_requests` asks for the next step. */
  lemma SpinningIsReachable(s: Sys) returns (es: seq<Event>, t: Sys)
    requires Init(s) && s.k.c.started && !s.k.c.relay && Room(s.k.c, s.k.p.all) && s.k.p.totalEpochs >= 1
    requires 1 <= s.k.c.minSampleLen <= s.k.c.capacity && s.k.c.minSampleLen <= s.k.c.perStepBudget
    ensures Run(s, es, t) && Inv(t) && Finished(t) && KeepsStepping(t.k) && !Stage0(t.k)
  {
    InitInv(s);
    forall q | Settled(q) ensures Eager(q.k, Choose(q.k)) {
      var i := EagerChoice(q);
    }
    assert EagerAlways(Choose, s.k.p.all);
    es, t := EagerEngineFinishes(s, Choose);
    FinishedForever(t, [], t);
    SomeLength(t.k.c, t.k.p.all);
    assert t.k.c.open && t.k.c.reserved == 0;
  }
}
