/** What the lifecycle protocol promises, read off its invariant. */
module Guarantees {
  import opened Samples
  import opened Coordinator
  import opened FinetuningStore
  import opened StepSpec
  import opened Lifecycle
  import opened BufferLayout

  predicate IsAck(e: Event) {
    e.DoRelayedAck? || (e.DoSchedule? && e.i.ack)
  }

  // ---------------------------------------------------------------- reader/writer exclusion

  /** A schedule that admits nothing and stays in the epoch only lets the coordinator judge. */
  lemma IdleShape(k: Core, i: ScheduleInput)
    requires ScheduleOk(k, i) && i.admitted == [] && !i.advanced
    ensures i.batch == [] && i.order == []
    ensures var k0 := Prologue(k, i.ack, i.throttle);
            var (k', o) := Schedule(k, i);
            && k' == Core(SchedCoord(k0.c, 0, 0, NextLen(k0.p.selectable), None, k0.p.epoch, []), k0.p)
            && o.n == 0 && o.trigger == if k0.c.relay then k0.c.cmd else None
  {
    BatchWithinAdmitted(i.batch, []);
    BatchSamplesAdmitted(i);
    ScheduleShape(k, i);
    var p := Prologue(k, i.ack, i.throttle).p;
    assert p.Claim([]) == p;
    assert p.Release([]) == p;
  }

  lemma PendingCoord(c: Coord, throttle: Throttle, next: Option<nat>, e: nat)
    requires c.pending
    ensures var d := SchedCoord(c.TryEpochFlush().CheckThrottle(throttle), 0, 0, next, None, e, []);
            && d.pending && d.fill == c.fill && d.sampleLens == c.sampleLens && d.samples == c.samples
            && d.reserved == c.reserved && c.TryEpochFlush().CheckThrottle(throttle).Budget() == 0
  {
  }

  /** A pending backward shuts admission: such a schedule reserves nothing, and changes neither
      the store nor what the coordinator holds. */
  lemma PendingScheduleIdle(s: Sys, i: ScheduleInput)
    requires Inv(s) && s.k.c.pending && ScheduleOk(s.k, i) && !i.ack
    ensures var t := Apply(s, DoSchedule(i));
            && t.inflight == [] && t.done == s.done && t.buf == s.buf && t.k.p == s.k.p && t.log == s.log
            && t.k.c.pending && t.k.c.fill == s.k.c.fill && t.k.c.sampleLens == s.k.c.sampleLens
            && t.k.c.samples == s.k.c.samples
  {
    PendingCoord(s.k.c, i.throttle, NextLen(s.k.p.selectable), s.k.p.epoch);
    assert i.admitted == [] && !i.advanced;
    IdleShape(s.k, i);
  }

  /** From a trigger to its acknowledgement nothing the child reads changes, whatever else
      happens in between: no step is in flight, and the acknowledgement finds exactly the work
      the trigger sent, so its reset discards nothing unprocessed. */
  lemma {:induction false} BackwardReadsStableBuffer(s: Sys, es: seq<Event>, t: Sys)
    requires Inv(s) && s.k.c.pending && Run(s, es, t)
    requires forall e | e in es :: !IsAck(e)
    ensures t.k.c.pending && t.inflight == [] && t.k.c.reserved == 0
    ensures t.buf == s.buf && t.done == s.done && t.k.p == s.k.p
    ensures t.k.c.fill == s.k.c.fill && t.k.c.sampleLens == s.k.c.sampleLens && t.k.c.samples == s.k.c.samples
    decreases |es|
  {
    RunKeepsInv(s, es, t);
    if es != [] {
      var e := es[0];
      assert e in es;
      StepKeepsInv(s, e);
      match e {
        case DoSchedule(i) => PendingScheduleIdle(s, i);
        case _ =>
      }
      BackwardReadsStableBuffer(Apply(s, e), es[1..], t);
    }
  }

  /** In a laid-out state the rows handed to the child are the committed samples' rows, split as
      its work item says. */
  lemma WorkIsTheBuffer(s: Sys, w: Work)
    requires Inv(s) && LaidOut(s) && s.k.c.pending && (s.k.c.cmd == Some(w) || s.k.c.work == Some(w))
    ensures w.n <= |s.buf| && s.buf[..w.n] == Rows(s.done) && w.sampleLens == ChunkLens(s.done)
  {
  }

  /** An acknowledgement of a pending backward trains exactly the committed samples. */
  lemma AckTrainsDone(s: Sys)
    requires Inv(s) && s.k.c.pending
    ensures Ack(s.k).p.trained == s.k.p.trained + Elems(ChunkSamples(s.done)) && Ack(s.k).p.claimed == {}
    ensures s.k.p.trained !! Elems(ChunkSamples(s.done))
    ensures multiset(ChunkSamples(s.done)) == multiset(Elems(ChunkSamples(s.done)))
  {
    assert s.inflight == [];
    assert multiset(ChunkSamples(s.done)) == multiset(s.k.p.claimed);
    MultisetElems(ChunkSamples(s.done), s.k.p.claimed);
    AckTrainsClaimed(s.k);
  }

  /** From a laid-out state that holds a work item, over whatever happens before its
      acknowledgement, taking the command away included: the child finds under the item exactly the
      rows of the samples committed when the item was made, split as it says; and the
      acknowledgement, local or relayed, trains exactly those samples, none of them for the second
      time in the epoch. */
  lemma AckTrainsTheRowsItWasGiven(s: Sys, w: Work, es: seq<Event>, t: Sys)
    requires Inv(s) && LaidOut(s) && s.k.c.pending && (s.k.c.cmd == Some(w) || s.k.c.work == Some(w))
    requires Run(s, es, t) && forall e | e in es :: !IsAck(e)
    ensures t.k.c.pending && t.done == s.done
    ensures w.n <= |t.buf| && t.buf[..w.n] == Rows(s.done) && w.sampleLens == ChunkLens(s.done)
    ensures Ack(t.k).p.trained == s.k.p.trained + Elems(ChunkSamples(s.done)) && Ack(t.k).p.claimed == {}
    ensures s.k.p.trained !! Elems(ChunkSamples(s.done))
    ensures multiset(ChunkSamples(s.done)) == multiset(Elems(ChunkSamples(s.done)))
  {
    WorkIsTheBuffer(s, w);
    BackwardReadsStableBuffer(s, es, t);
    RunKeepsInv(s, es, t);
    AckTrainsDone(t);
  }

  /** A scheduler output that carries a trigger carries no FT tokens, so no rollback of an
      FT-only step can discard it; and after it the trigger is gone from the coordinator. */
  lemma TriggerRidesAlone(s: Sys, i: ScheduleInput)
    requires Inv(s) && ScheduleOk(s.k, i)
    ensures var (k', o) := Schedule(s.k, i);
            && (o.trigger.Some? ==> o.n == 0 && o.batch == [])
            && (o.trigger.Some? <==> s.k.c.relay && Prologue(s.k, i.ack, i.throttle).c.cmd.Some?)
            && (o.trigger.Some? ==> k'.c.cmd.None?)
  {
    var s0, o := ScheduleParts(s, i);
    PrologueRelay(s.k, i.ack, i.throttle);
    if o.trigger.Some? {
      assert s0.k.c.pending && s0.k.c.Budget() == 0;
      assert i.admitted == [] && !i.advanced;
      IdleShape(s.k, i);
      CmdTaken(s0.k.c, NextLen(s0.k.p.selectable), s0.k.p.epoch);
    }
  }

  lemma PrologueRelay(k: Core, ack: bool, throttle: Throttle)
    ensures Prologue(k, ack, throttle).c.relay == k.c.relay
  {
  }

  lemma CmdTaken(c: Coord, next: Option<nat>, e: nat)
    requires c.relay
    ensures SchedCoord(c, 0, 0, next, None, e, []).cmd.None?
  {
  }

  // ---------------------------------------------------------------- once per epoch

  /** In every run: each completed epoch trained every sample exactly once, the current epoch no
      sample twice, and the epoch number stays below the configured count. */
  lemma EachSampleOncePerEpoch(s: Sys, es: seq<Event>, t: Sys)
    requires Init(s) && Run(s, es, t)
    ensures |t.log| == t.k.p.epoch + 1 && t.k.p.epoch <= Max(0, t.k.p.totalEpochs - 1)
    ensures forall e: nat, x | e < t.k.p.epoch && x in t.k.p.all :: t.log[e][x] == 1
    ensures forall x | x in t.k.p.all :: t.log[t.k.p.epoch][x] == if x in t.k.p.trained then 1 else 0
  {
    InitInv(s);
    RunKeepsInv(s, es, t);
  }

  /** The epoch advances only over a fully trained corpus with an empty buffer. */
  lemma AdvanceNeedsAllTrained(s: Sys, i: ScheduleInput)
    requires Inv(s) && ScheduleOk(s.k, i) && i.advanced
    ensures var s0 := Prologue(s.k, i.ack, i.throttle);
            && s0.p.trained == s0.p.all && s0.c.fill == 0 && s0.c.samples == []
            && s.inflight == []
            && Apply(s, DoSchedule(i)).log[s0.p.epoch] == multiset(s0.p.all)
  {
    var s0 := PrologueStep(s, i.ack, i.throttle);
    ScheduleStep(s, i);
    AdvanceLog(s0.k.p, s0.log);
    assert |s0.k.c.samples| == |multiset(s0.k.c.samples)| == 0;
    assert |s0.done| == |ChunkSamples(s0.done)| == |multiset(ChunkSamples(s0.done))|;
    NoSamplesNoFlights(s0.inflight, s0.k.c.capacity);
    AdvanceLogs(s, i, s0);
  }

  lemma AdvanceLogs(s: Sys, i: ScheduleInput, s0: Sys)
    requires Inv(s) && ScheduleOk(s.k, i) && i.advanced
    requires s0.log == (if i.ack then Logged(s.log, s.k.c.samples) else s.log) && |s0.log| > 0
    ensures var t := Apply(s, DoSchedule(i));
            t.log == s0.log + [multiset{}]
  {
  }

  lemma NoSamplesNoFlights(fs: seq<Flight>, capacity: nat)
    requires FlightsOk(fs, capacity)
    ensures fs != [] ==> FlightSamples(fs) != multiset{}
  {
    if fs != [] {
      var o := fs[0].o;
      assert FlightOk(fs[0], capacity);
      assert Tokens([]) == 0;
      assert |multiset(o.samples)| == |multiset(ChunkSamples(o.batch))| == |ChunkSamples(o.batch)| > 0;
    }
  }

  // ---------------------------------------------------------------- progress

  /** Nothing in flight, some rows waiting, and no selectable sample fits the space left. */
  ghost predicate CannotGrow(s: Sys) {
    && s.inflight == [] && s.k.c.fill > 0 && !s.k.c.pending
    && forall x | x in s.k.p.selectable :: x.InputLen() > s.k.c.Space()
  }

  lemma FirstCounts(ss: seq<Sample>)
    ensures ss != [] ==> ss[0].InputLen() <= SumLens(ss) && ss[0] in Elems(ss)
  {
  }

  /** An idle schedule call only judges whether the buffer can grow. */
  lemma IdleSched(c: Coord, next: Option<nat>, e: nat)
    ensures var d := c.NoteInjection(next, 0).(epoch := e);
            SchedCoord(c, 0, 0, next, None, e, []) == if d.relay then d.TakeCmd() else d
  {
  }

  lemma StuckPrologue(c: Coord, throttle: Throttle)
    requires !c.pending && c.fill > 0 && c.reserved == 0
    ensures var d := c.TryEpochFlush().CheckThrottle(throttle);
            && d.fill == c.fill && d.reserved == 0 && d.Space() == c.Space()
            && (if c.flush then d.pending else !d.pending)
  {
  }

  lemma StuckCoord(c: Coord, throttle: Throttle, next: Option<nat>, e: nat)
    requires !c.pending && c.fill > 0 && c.reserved == 0 && (next.Some? ==> next.value > c.Space())
    ensures var d := SchedCoord(c.TryEpochFlush().CheckThrottle(throttle), 0, 0, next, None, e, []);
            && d.fill == c.fill && d.reserved == 0
            && (c.flush ==> d.pending)
            && (d.pending || d.flush)
  {
    StuckPrologue(c, throttle);
    IdleSched(c.TryEpochFlush().CheckThrottle(throttle), next, e);
  }

  lemma PrologueSpace(c: Coord, throttle: Throttle)
    ensures c.TryEpochFlush().CheckThrottle(throttle).Space() == c.Space()
  {
  }

  /** A stuck buffer admits nothing and is marked for flushing; if it was marked before, its
      backward starts. */
  lemma StuckBufferStep(s: Sys, i: ScheduleInput)
    requires Inv(s) && CannotGrow(s) && ScheduleOk(s.k, i)
    ensures var t := Apply(s, DoSchedule(i));
            && (s.k.c.flush ==> t.k.c.pending)
            && (t.k.c.pending || (t.k.c.flush && CannotGrow(t)))
  {
    PrologueSpace(s.k.c, i.throttle);
    assert |multiset(s.k.p.claimed)| >= |ChunkSamples(s.done)| > 0;
    FirstCounts(i.admitted);
    IdleShape(s.k, i);
    StuckCoord(s.k.c, i.throttle, NextLen(s.k.p.selectable), s.k.p.epoch);
    IdleSpace(s.k.c, i.throttle, NextLen(s.k.p.selectable), s.k.p.epoch);
  }

  lemma IdleSpace(c: Coord, throttle: Throttle, next: Option<nat>, e: nat)
    ensures SchedCoord(c.TryEpochFlush().CheckThrottle(throttle), 0, 0, next, None, e, []).Space() == c.Space()
  {
    PrologueSpace(c, throttle);
    IdleSched(c.TryEpochFlush().CheckThrottle(throttle), next, e);
  }

  /** A settled, non-empty buffer that cannot grow starts its backward within two schedule calls,
      throttled or not, with finetuning switched on or off. */
  lemma StuckBufferTrainsWithinTwoSteps(s: Sys, i1: ScheduleInput, i2: ScheduleInput)
    requires Inv(s) && CannotGrow(s) && ScheduleOk(s.k, i1)
    requires ScheduleOk(Apply(s, DoSchedule(i1)).k, i2)
    ensures var t1 := Apply(s, DoSchedule(i1)); var t2 := Apply(t1, DoSchedule(i2));
            t1.k.c.pending || t2.k.c.pending
  {
    StuckBufferStep(s, i1);
    ScheduleStep(s, i1);
    var t1 := Apply(s, DoSchedule(i1));
    if !t1.k.c.pending {
      StuckBufferStep(t1, i2);
    }
  }

  /** In every reachable state a closed gate has a reason: a backward in flight, an engaged throttle,
      or a flush waiting for rows that are there. Of the three the throttle alone does not ask for
      the step that would end it: `Stepping.ThrottledEngineSleeps`. */
  lemma GateReopens(s: Sys, es: seq<Event>, t: Sys)
    requires Init(s) && Run(s, es, t)
    ensures !t.k.c.open ==> t.k.c.pending || t.k.c.rpsActive || (t.k.c.flush && t.k.c.fill + t.k.c.reserved > 0)
    ensures t.k.c.pending ==> t.inflight == [] && t.k.c.reserved == 0
    ensures multiset(t.k.c.samples) == multiset(t.k.p.claimed)
    ensures t.k.c.fill == Sum(t.k.c.sampleLens) && t.k.c.reserved == FlightTokens(t.inflight)
    ensures t.k.c.fill + t.k.c.reserved <= t.k.c.capacity
  {
    InitInv(s);
    RunKeepsInv(s, es, t);
  }

  // ---------------------------------------------------------------- the gate

  /** How a schedule call begins when no answer has come: the flush that is due starts its backward,
      and only then the arrival rate is read. An engaged throttle keeps the gate closed, one released
      by this reading opens it, and any other reading leaves it as the flush did. */
  lemma StepBegins(k: Core, throttle: Throttle)
    ensures var d := Prologue(k, false, throttle).c;
            && (d.pending <==> k.c.pending || (k.c.flush && k.c.reserved == 0 && k.c.fill > 0))
            && (d.open <==>
                 if throttle.Tick? && throttle.closeRps > 0.0 && (k.c.rpsActive || d.rpsActive) then !d.rpsActive
                 else k.c.open && d.pending == k.c.pending)
            && (!(throttle.Tick? && throttle.closeRps > 0.0) ==> d.rpsActive == k.c.rpsActive)
            && (throttle.Tick? && throttle.closeRps > 0.0 && !k.c.rpsActive ==> (d.rpsActive <==> throttle.rps > throttle.closeRps))
            && (throttle.Tick? && throttle.closeRps > 0.0 && k.c.rpsActive && k.c.rpsSince.Some? ==>
                 (d.rpsActive <==>
                   || throttle.rps >= throttle.openRps
                   || (throttle.rps != 0.0 && throttle.closeTime > 0.0
                       && (k.c.rpsSince.value == 0.0 || throttle.now - k.c.rpsSince.value < throttle.closeTime))))
            && Prologue(k, false, throttle).p == k.p
  {
    var c := k.c.TryEpochFlush();
    assert c.rpsActive == k.c.rpsActive && c.rpsSince == k.c.rpsSince;
    if !k.c.rpsActive {
      EngagesExactly(c, throttle);
    } else if throttle.Tick? && throttle.closeRps > 0.0 && k.c.rpsSince.Some? {
      HoldsOnce(c, k.c.rpsSince.value, throttle);
    }
  }

  /** Nothing in the event opens a gate on purpose: no answer, no rollback, no end of a throttle. */
  ghost predicate LeavesShut(s: Sys, e: Event) {
    Enabled(s, e) && !IsAck(e) && !e.DoRollback? && (s.k.c.rpsActive ==> Apply(s, e).k.c.rpsActive)
  }

  ghost predicate ShutRun(s: Sys, es: seq<Event>, t: Sys)
    decreases |es|
  {
    if es == [] then s == t else LeavesShut(s, es[0]) && ShutRun(Apply(s, es[0]), es[1..], t)
  }

  lemma ShutPrologue(c: Coord, throttle: Throttle, next: Option<nat>, e: nat)
    requires !c.open
    ensures var c0 := c.TryEpochFlush().CheckThrottle(throttle); var d := SchedCoord(c0, 0, 0, next, None, e, []);
            && d.rpsActive == c0.rpsActive
            && ((c.rpsActive ==> c0.rpsActive) ==> !c0.open && !d.open)
  {
    EngagesOnce(c, throttle);
    IdleSched(c.TryEpochFlush().CheckThrottle(throttle), next, e);
  }

  lemma EngagesOnce(c: Coord, throttle: Throttle)
    ensures !c.rpsActive ==> c.TryEpochFlush().CheckThrottle(throttle).open ==> c.open
  {
    if !c.rpsActive {
      EngagesExactly(c.TryEpochFlush(), throttle);
    }
  }

  lemma ShutSchedule(s: Sys, i: ScheduleInput)
    requires Inv(s) && !s.k.c.open && LeavesShut(s, DoSchedule(i))
    ensures i.admitted == [] && i.batch == [] && !Apply(s, DoSchedule(i)).k.c.open
  {
    var k0 := Prologue(s.k, false, i.throttle);
    ShutPrologue(s.k.c, i.throttle, NextLen(k0.p.selectable), k0.p.epoch);
    if i.admitted == [] && !i.advanced {
      IdleShape(s.k, i);
    } else {
      assert k0.c.Budget() > 0;
      ScheduleRpsActive(s.k, i);
    }
  }

  lemma ScheduleRpsActive(k: Core, i: ScheduleInput)
    requires ScheduleOk(k, i)
    ensures Schedule(k, i).0.c.rpsActive == Prologue(k, i.ack, i.throttle).c.rpsActive
  {
    ScheduleShape(k, i);
    var k0 := Prologue(k, i.ack, i.throttle);
    var q := Advanced(k0.p, i.advanced);
    var p1 := q.Claim(i.admitted);
    SchedRpsActive(k0.c, SumLens(i.admitted), Tokens(i.batch), NextLen(p1.selectable),
                   NextLen(p1.Release(Dropped(i)).selectable), q.epoch, i.order);
  }

  lemma SchedRpsActive(c: Coord, a: nat, n: nat, next1: Option<nat>, next2: Option<nat>, e: nat, order: seq<Sample>)
    ensures SchedCoord(c, a, n, next1, next2, e, order).rpsActive == c.rpsActive
  {
    var c1 := c.NoteInjection(next1, a).(epoch := e);
    NoteKeeps(c, next1, a);
    NoteKeeps(c1.Restore(c.Snapshot()), next2, n);
  }

  lemma ShutStep(s: Sys, e: Event)
    requires Inv(s) && !s.k.c.open && LeavesShut(s, e)
    ensures !Apply(s, e).k.c.open
    ensures e.DoSchedule? ==> e.i.admitted == [] && e.i.batch == []
  {
    match e
    case DoSchedule(i) => ShutSchedule(s, i);
    case DoCommit(at) => ShutCommit(s.k.c, s.inflight[at].o);
    case _ =>
  }

  lemma ShutCommit(c: Coord, o: StepOut)
    requires !c.open
    ensures !c.RecordCapture(o.n, ChunkLens(o.batch)).open
  {
  }

  /** Until the backward answers, a rollback gives rows back, or an engaged throttle is released, a
      closed gate stays closed, whatever is read of the arrival rate; nothing is admitted meanwhile. */
  lemma {:induction false} GateStaysClosed(s: Sys, es: seq<Event>, t: Sys)
    requires Inv(s) && !s.k.c.open && ShutRun(s, es, t)
    ensures !t.k.c.open
    ensures forall e | e in es && e.DoSchedule? :: e.i.admitted == [] && e.i.batch == []
    decreases |es|
  {
    if es != [] {
      ShutStep(s, es[0]);
      StepKeepsInv(s, es[0]);
      GateStaysClosed(Apply(s, es[0]), es[1..], t);
    }
  }

  /** Some selectable sample fits behind the rows committed and reserved. */
  ghost predicate NextFits(k: Core) {
    exists x :: x in k.p.selectable && k.c.fill + k.c.reserved + x.InputLen() <= k.c.capacity
  }

  lemma GateCoord(c: Coord, a: nat, n: nat, next1: Option<nat>, next2: Option<nat>, e: nat, order: seq<Sample>)
    requires c.open && !c.pending && 0 < n <= a <= c.Space() && (n == a ==> next1 == next2)
    ensures var d := SchedCoord(c, a, n, next1, next2, e, order);
            && d.fill == c.fill && d.reserved == c.reserved + n && d.capacity == c.capacity
            && (d.open <==> next2.Some? && c.fill + c.reserved + n + next2.value <= c.capacity)
  {
    var c1 := c.NoteInjection(next1, a).(epoch := e);
    NoteKeeps(c, next1, a);
    NoteKeeps(c1.Restore(c.Snapshot()), next2, n);
  }

  lemma ShortestFits(k: Core)
    ensures NextFits(k) <==>
              NextLen(k.p.selectable).Some? && k.c.fill + k.c.reserved + NextLen(k.p.selectable).value <= k.c.capacity
  {
    var sel := k.p.selectable;
    if NextLen(sel).Some? {
      assert Shortest(sel, NextLen(sel).value);
    }
  }

  /** If every admitted token was scheduled, so was every sample. */
  lemma AllScheduled(i: ScheduleInput)
    requires BatchOk(i) && Distinct(i.admitted) && Tokens(i.batch) == SumLens(i.admitted)
    requires forall x | x in i.admitted :: x.InputLen() > 0
    ensures forall x | x in i.admitted :: x in ChunkSamples(i.batch)
  {
    forall x | x in i.admitted ensures x in ChunkSamples(i.batch) {
      if x !in ChunkSamples(i.batch) {
        var at :| 0 <= at < |i.admitted| && i.admitted[at] == x;
        forall y | y in i.batch ensures y.sample in Without(i.admitted, at) {
          assert exists j :: 0 <= j < |i.batch| && i.batch[j] == y;
          var j :| 0 <= j < |i.batch| && i.batch[j] == y;
          assert ChunkSamples(i.batch)[j] == y.sample;
          var q :| 0 <= q < |i.admitted| && i.admitted[q] == y.sample;
          assert Without(i.admitted, at)[if q < at then q else q - 1] == y.sample;
        }
        BatchWithinAdmitted(i.batch, Without(i.admitted, at));
        SumLensWithout(i.admitted, at);
      }
    }
  }

  /** A step that carries FT leaves the gate open exactly if another sample still fits behind it,
      whatever part of what was admitted the base scheduler took. */
  lemma GateAfterSchedule(s: Sys, i: ScheduleInput)
    requires Inv(s) && ScheduleOk(s.k, i) && i.batch != []
    ensures var t := Apply(s, DoSchedule(i)); t.k.c.open <==> NextFits(t.k)
  {
    var s0 := PrologueStep(s, i.ack, i.throttle);
    var k0 := s0.k;
    var k' := Schedule(s.k, i).0;
    BatchWithinAdmitted(i.batch, i.admitted);
    ScheduleShape(s.k, i);
    var q := Advanced(k0.p, i.advanced);
    var p1 := q.Claim(i.admitted);
    if Tokens(i.batch) == SumLens(i.admitted) {
      AdmittedNonempty(k0, i);
      AllScheduled(i);
      NoneDropped(i, p1);
    }
    GateCoord(k0.c, SumLens(i.admitted), Tokens(i.batch), NextLen(p1.selectable),
              NextLen(p1.Release(Dropped(i)).selectable), q.epoch, i.order);
    ShortestFits(k');
  }

  lemma AdmittedNonempty(k: Core, i: ScheduleInput)
    requires k.p.Valid() && AdmitOk(k, i.advanced, i.admitted)
    ensures forall x | x in i.admitted :: x.InputLen() > 0
  {
    forall x | x in i.admitted ensures x.InputLen() > 0 {
      assert x in Elems(i.admitted);
      assert x in k.p.all;
    }
  }

  lemma NoneDropped(i: ScheduleInput, p: Pool)
    requires forall x | x in i.admitted :: x in ChunkSamples(i.batch)
    ensures Dropped(i) == [] && p.Release(Dropped(i)) == p
  {
    DropIdsAll(i.admitted, Ids(ChunkSamples(i.batch)));
  }

  // ---------------------------------------------------------------- the epoch a backward names

  ghost predicate EpochNamed(k: Core) {
    && k.c.epoch == k.p.epoch
    && (k.c.work.Some? ==> k.c.work.value.epoch == k.p.epoch)
    && (k.c.cmd.Some? ==> k.c.cmd.value.epoch == k.p.epoch)
  }

  lemma EpochSched(c: Coord, a: nat, n: nat, next1: Option<nat>, next2: Option<nat>, e: nat, order: seq<Sample>)
    ensures var d := SchedCoord(c, a, n, next1, next2, e, order);
            d.epoch == e && d.work == c.work && (d.cmd == c.cmd || d.cmd.None?)
  {
    var c1 := c.NoteInjection(next1, a).(epoch := e);
    NoteKeeps(c, next1, a);
    NoteKeeps(c1.Restore(c.Snapshot()), next2, n);
  }

  lemma EpochPrologue(k: Core, ack: bool, throttle: Throttle)
    requires EpochNamed(k)
    ensures EpochNamed(Prologue(k, ack, throttle)) && Prologue(k, ack, throttle).p.epoch == k.p.epoch
  {
  }

  lemma EpochSchedule(s: Sys, i: ScheduleInput)
    requires Inv(s) && EpochNamed(s.k) && ScheduleOk(s.k, i)
    ensures EpochNamed(Apply(s, DoSchedule(i)).k)
  {
    var s0 := PrologueStep(s, i.ack, i.throttle);
    var k0 := s0.k;
    EpochPrologue(s.k, i.ack, i.throttle);
    ScheduleShape(s.k, i);
    var q := Advanced(k0.p, i.advanced);
    var p1 := q.Claim(i.admitted);
    EpochSched(k0.c, SumLens(i.admitted), Tokens(i.batch), NextLen(p1.selectable),
               NextLen(p1.Release(Dropped(i)).selectable), q.epoch, i.order);
  }

  lemma EpochStep(s: Sys, e: Event)
    requires Inv(s) && EpochNamed(s.k) && Enabled(s, e)
    ensures EpochNamed(Apply(s, e).k)
  {
    match e
    case DoSchedule(i) => EpochSchedule(s, i);
    case DoCommit(at) => EpochCommit(s.k, s.inflight[at].o);
    case DoRollback(at, _) => EpochRollback(s.k, s.inflight[at].o);
    case _ =>
  }

  lemma EpochCommit(k: Core, o: StepOut)
    requires EpochNamed(k)
    ensures EpochNamed(Commit(k, o))
  {
  }

  lemma EpochRollback(k: Core, o: StepOut)
    requires EpochNamed(k)
    ensures EpochNamed(Rollback(k, o))
  {
  }

  lemma {:induction false} EpochRun(s: Sys, es: seq<Event>, t: Sys)
    requires Inv(s) && EpochNamed(s.k) && Run(s, es, t)
    ensures EpochNamed(t.k)
    decreases |es|
  {
    if es != [] {
      EpochStep(s, es[0]);
      StepKeepsInv(s, es[0]);
      EpochRun(Apply(s, es[0]), es[1..], t);
    }
  }

  /** In every run a backward, handed over or still parked, names the epoch its samples belong to. */
  lemma WorkNamesItsEpoch(s: Sys, es: seq<Event>, t: Sys)
    requires Init(s) && Run(s, es, t)
    ensures t.k.c.work.Some? ==> t.k.c.work.value.epoch == t.k.p.epoch
    ensures t.k.c.cmd.Some? ==> t.k.c.cmd.value.epoch == t.k.p.epoch
  {
    InitInv(s);
    EpochRun(s, es, t);
  }

  // ---------------------------------------------------------------- rollback

  lemma RestoreCoord(c: Coord, d: Coord, n: nat, e: nat, order: seq<Sample>)
    requires FlagsOnly(c, d) && d.epoch == e
    requires DropIds(c.samples + order, Ids(order)) == c.samples
    ensures d.Reserve(n, order).ReleaseReserve(n, order).Restore(c.Snapshot()) == c.(epoch := e)
  {
  }

  /** The coordinator half: after a reservation, releasing it and restoring the snapshot. */
  lemma CoordRestored(c: Coord, a: nat, n: nat, next1: Option<nat>, next2: Option<nat>, e: nat, order: seq<Sample>)
    requires 0 < n <= a && c.Budget() > 0 && c.cmd.None? && NoWedge(c)
    requires DropIds(c.samples + order, Ids(order)) == c.samples
    ensures SchedCoord(c, a, n, next1, next2, e, order).ReleaseReserve(n, order).Restore(c.Snapshot()) == c.(epoch := e)
  {
    var c1 := c.NoteInjection(next1, a).(epoch := e);
    var c2 := if n < a then c1.Restore(c.Snapshot()).NoteInjection(next2, n) else c1;
    VerdictFlags(c, a, n, next1, next2, e, c2);
    RestoreCoord(c, c2, n, e, order);
    assert c2.Reserve(n, order).cmd.None?;
    assert c2.Reserve(n, order).TakeCmd() == c2.Reserve(n, order);
  }

  /** The store half: releasing the scheduled samples undoes the claim. */
  lemma PoolRestored(p: Pool, i: ScheduleInput)
    requires p.Valid() && BatchOk(i) && Elems(i.admitted) <= Advanced(p, i.advanced).selectable
    ensures Advanced(p, i.advanced).Claim(i.admitted).Release(Dropped(i)).Release(i.order) == Advanced(p, i.advanced)
    ensures Elems(i.order) <= Advanced(p, i.advanced).selectable
  {
    var q := Advanced(p, i.advanced);
    SchedPool(p, i);
    OrderElems(i);
    RollbackPool(q.Claim(i.admitted).Release(Dropped(i)), i.order);
  }

  /** Rolling back the step just scheduled restores the coordinator and the store to what they
      were at the snapshot: every field, the epoch advance excepted. */
  lemma RollbackUndoesSchedule(s: Sys, i: ScheduleInput)
    requires Inv(s) && ScheduleOk(s.k, i) && i.batch != []
    ensures var t := Apply(s, DoSchedule(i)); var k0 := Prologue(s.k, i.ack, i.throttle);
            && t.inflight != []
            && Enabled(t, DoRollback(|t.inflight| - 1, false))
            && var u := Apply(t, DoRollback(|t.inflight| - 1, false));
               && u.k == Core(k0.c.(epoch := u.k.p.epoch), Advanced(k0.p, i.advanced))
               && u.inflight == s.inflight && u.buf == s.buf
  {
    var s0, o := ScheduleParts(s, i);
    var t := Apply(s, DoSchedule(i));
    ScheduleShape(s.k, i);
    BatchWithinAdmitted(i.batch, i.admitted);
    BatchSamplesAdmitted(i);
    RollbackRestoresCore(s0, i, t.k, o);
    RollbackNewest(t, s.inflight, o);
  }

  lemma RollbackNewest(t: Sys, fs: seq<Flight>, o: StepOut)
    requires t.inflight == fs + [Flight(o, {})]
    ensures var e := DoRollback(|t.inflight| - 1, false);
            && Enabled(t, e)
            && Apply(t, e).k == Rollback(t.k, o) && Apply(t, e).inflight == fs && Apply(t, e).buf == t.buf
  {
    assert Without(t.inflight, |t.inflight| - 1) == fs;
  }

  lemma RollbackRestoresCore(s: Sys, i: ScheduleInput, k': Core, o: StepOut)
    requires Inv(s) && AdmitOk(s.k, i.advanced, i.admitted) && BatchOk(i) && i.batch != [] && i.admitted != []
    requires var q := Advanced(s.k.p, i.advanced);
             k' == Core(SchedCoord(s.k.c, SumLens(i.admitted), o.n, NextLen(q.Claim(i.admitted).selectable),
                                   NextLen(k'.p.selectable), q.epoch, i.order),
                        q.Claim(i.admitted).Release(Dropped(i)))
    requires 0 < o.n <= SumLens(i.admitted) && o.samples == i.order && o.snap == s.k.c.Snapshot()
    ensures var q := Advanced(s.k.p, i.advanced); Rollback(k', o) == Core(s.k.c.(epoch := q.epoch), q)
  {
    var c := s.k.c;
    var q := Advanced(s.k.p, i.advanced);
    PoolRestored(s.k.p, i);
    assert c.cmd.None?;
    assert q.claimed == s.k.p.claimed && q.all == s.k.p.all && q.selectable !! q.claimed;
    DropsOnlyNew(c.samples, q.claimed, i.order, q.selectable, q.all);
    CoordRestored(c, SumLens(i.admitted), o.n, NextLen(q.Claim(i.admitted).selectable),
                  NextLen(k'.p.selectable), q.epoch, i.order);
  }

  lemma OrderElems(i: ScheduleInput)
    requires BatchOk(i)
    ensures Elems(i.order) == Elems(ChunkSamples(i.batch))
  {
    assert forall x :: x in i.order <==> x in multiset(i.order);
    assert forall x :: x in ChunkSamples(i.batch) <==> x in multiset(ChunkSamples(i.batch));
  }

  lemma DropsOnlyNew(samples: seq<Sample>, claimed: set<Sample>, order: seq<Sample>, selectable: set<Sample>, all: set<Sample>)
    requires UniqueIds(all) && claimed <= all && selectable <= all && claimed !! selectable
    requires multiset(samples) == multiset(claimed) && Elems(order) <= selectable
    ensures DropIds(samples + order, Ids(order)) == samples
  {
    DropIdsConcat(samples, order, Ids(order));
    DropIdsAll(order, Ids(order));
    forall x | x in samples ensures x.requestId !in Ids(order) {
      assert x in multiset(samples);
      if y :| y in order && y.requestId == x.requestId {
        assert y in Elems(order);
      }
    }
    DropIdsDisjoint(samples, Ids(order));
  }

  // ---------------------------------------------------------------- an out-of-order run

  function OneSample(x: Sample): ScheduleInput {
    ScheduleInput(false, Off, false, [x], [Chunk(x, x.InputLen())], [x])
  }

  lemma OneSampleFlags(c: Coord, next1: Option<nat>, next2: Option<nat>, e: nat, x: Sample)
    requires c.open && !c.pending && !c.flush && x.InputLen() == 1 <= c.Space()
    ensures var d := SchedCoord(c, 1, 1, next1, next2, e, [x]);
            && d.started == c.started && d.perStepBudget == c.perStepBudget && !d.pending
            && d.reserved == c.reserved + 1 && d.fill == c.fill && d.capacity == c.capacity
            && (next1.Some? && next1.value <= c.Space() - 1 ==> d.open && !d.flush)
  {
  }

  lemma OneSampleShape(x: Sample)
    requires x.InputLen() == 1
    ensures var i := OneSample(x);
            && SumLens(i.admitted) == 1 && Tokens(i.batch) == 1 && BatchOk(i)
            && Elems(ChunkSamples(i.batch)) == {x} == Elems(i.admitted) && Dropped(i) == []
  {
    var i := OneSample(x);
    assert ChunkSamples(i.batch) == [x] && ChunkLens(i.batch) == [1];
    assert Sum([1]) == 1 + Sum([1 as nat][1..]);
    assert x in ChunkSamples(i.batch);
    assert DropIds([x][1..], Ids([x])) == [];
  }

  /** A fresh engine, or one that has only reserved so far, may take another one-token sample. */
  ghost predicate Ready(s: Sys) {
    Inv(s) && LaidOut(s) && s.k.c.Budget() > 0 && !s.k.c.flush
  }

  lemma OneSampleOk(s: Sys, x: Sample)
    requires Ready(s) && x in s.k.p.selectable && x.InputLen() == 1
    ensures Prologue(s.k, false, Off) == s.k && ScheduleOk(s.k, OneSample(x))
  {
    OneSampleShape(x);
  }

  /** An FT-only step of one one-token sample. */
  lemma OneSampleStep(s: Sys, x: Sample) returns (t: Sys, f: Flight)
    requires Ready(s) && x in s.k.p.selectable && x.InputLen() == 1
    ensures Enabled(s, DoSchedule(OneSample(x))) && t == Apply(s, DoSchedule(OneSample(x)))
    ensures Inv(t) && LaidOut(t)
    ensures t.inflight == s.inflight + [f] && f.o.n == 1
  {
    var i := OneSample(x);
    OneSampleOk(s, x);
    OneSampleShape(x);
    t := Apply(s, DoSchedule(i));
    ScheduleStep(s, i);
    ScheduleContent(s, i);
    var s0, o := ScheduleParts(s, i);
    f := Flight(o, {});
  }

  lemma OneSampleReady(s: Sys, x: Sample, y: Sample)
    requires Ready(s) && s.k.p.selectable >= {x, y} && x != y && x.InputLen() == y.InputLen() == 1
    requires s.k.c.Space() > 1
    ensures var k := Schedule(s.k, OneSample(x)).0; k.c.Budget() > 0 && !k.c.flush && y in k.p.selectable
  {
    var i := OneSample(x);
    OneSampleOk(s, x);
    OneSampleShape(x);
    SchedPool(s.k.p, i);
    ScheduleShape(s.k, i);
    var p1 := s.k.p.Claim([x]);
    assert p1.Release([]) == p1;
    OneSampleFlags(s.k.c, NextLen(p1.selectable), NextLen(p1.selectable), s.k.p.epoch, x);
  }

  lemma FirstOfTwo(s: Sys, a: Sample, b: Sample) returns (t: Sys, f: Flight)
    requires Ready(s) && s.k.p.selectable >= {a, b} && a != b && a.InputLen() == b.InputLen() == 1
    requires s.k.c.Space() > 1
    ensures Enabled(s, DoSchedule(OneSample(a))) && t == Apply(s, DoSchedule(OneSample(a)))
    ensures Ready(t) && b in t.k.p.selectable && t.inflight == s.inflight + [f]
  {
    t, f := OneSampleStep(s, a);
    SecondReady(s, a, b, t);
  }

  lemma SecondReady(s: Sys, a: Sample, b: Sample, t: Sys)
    requires Ready(s) && s.k.p.selectable >= {a, b} && a != b && a.InputLen() == b.InputLen() == 1
    requires s.k.c.Space() > 1
    requires Enabled(s, DoSchedule(OneSample(a))) && t == Apply(s, DoSchedule(OneSample(a)))
    requires Inv(t) && LaidOut(t)
    ensures Ready(t) && b in t.k.p.selectable
  {
    OneSampleReady(s, a, b);
    assert t.k == Schedule(s.k, OneSample(a)).0;
  }

  lemma WriteNewer(s: Sys)
    requires Inv(s) && LaidOut(s) && |s.inflight| == 2 && s.inflight[1].o.n == 1
    ensures Enabled(s, DoWrite(1, 0))
    ensures var t := Apply(s, DoWrite(1, 0));
            && Inv(t) && LaidOut(t) && |t.inflight| == 2
            && forall r: nat | r < t.inflight[1].o.n :: r in t.inflight[1].written
  {
    WriteStep(s, 1, 0);
    WriteLayout(s, 1, 0);
    NewerWritten(s);
  }

  lemma NewerWritten(s: Sys)
    requires |s.inflight| == 2 && s.inflight[1].o.n == 1
    ensures Enabled(s, DoWrite(1, 0))
    ensures var t := Apply(s, DoWrite(1, 0));
            |t.inflight| == 2 && forall r: nat | r < t.inflight[1].o.n :: r in t.inflight[1].written
  {
  }

  lemma FreshReady(s: Sys)
    requires Init(s) && s.k.c.capacity >= 2 && s.k.c.perStepBudget >= 1 && s.k.c.started
    ensures Ready(s) && s.k.c.Space() > 1 && s.inflight == []
  {
    InitInv(s);
    InitLaidOut(s);
  }

  /** One more one-token step in flight. */
  lemma OneMore(s: Sys, x: Sample) returns (t: Sys, e: Event)
    requires Ready(s) && x in s.k.p.selectable && x.InputLen() == 1
    ensures Enabled(s, e) && t == Apply(s, e) && Inv(t) && LaidOut(t)
    ensures |t.inflight| == |s.inflight| + 1 && t.inflight[|s.inflight|].o.n == 1
  {
    var f;
    t, f := OneSampleStep(s, x);
    e := DoSchedule(OneSample(x));
  }

  lemma OneOfTwo(s: Sys, a: Sample, b: Sample) returns (t: Sys, e: Event)
    requires Ready(s) && s.k.p.selectable >= {a, b} && a != b && a.InputLen() == b.InputLen() == 1
    requires s.k.c.Space() > 1
    ensures Enabled(s, e) && t == Apply(s, e) && Ready(t) && b in t.k.p.selectable && |t.inflight| == |s.inflight| + 1
  {
    var f;
    t, f := FirstOfTwo(s, a, b);
    e := DoSchedule(OneSample(a));
  }

  /** The newer forward runs, the older step is aborted, the newer one commits. */
  lemma LateAbort(s: Sys) returns (s1: Sys, s2: Sys, t: Sys, e1: Event, e2: Event, e3: Event)
    requires Inv(s) && LaidOut(s) && |s.inflight| == 2 && s.inflight[1].o.n == 1
    ensures Enabled(s, e1) && s1 == Apply(s, e1)
    ensures Enabled(s1, e2) && s2 == Apply(s1, e2)
    ensures Enabled(s2, e3) && t == Apply(s2, e3)
    ensures t.k.c.fill <= |t.buf| && t.buf[..t.k.c.fill] != Rows(t.done)
  {
    e1, e2, e3 := DoWrite(1, 0), DoRollback(0, true), DoCommit(0);
    WriteNewer(s);
    s1 := Apply(s, e1);
    AbortOfOlderCorrupts(s1);
    s2 := Apply(s1, e2);
    t := Apply(s2, e3);
  }

  lemma FiveSteps(s: Sys, s1: Sys, s2: Sys, s3: Sys, s4: Sys, t: Sys, e1: Event, e2: Event, e3: Event, e4: Event, e5: Event)
    returns (es: seq<Event>)
    requires Enabled(s, e1) && s1 == Apply(s, e1)
    requires Enabled(s1, e2) && s2 == Apply(s1, e2)
    requires Enabled(s2, e3) && s3 == Apply(s2, e3)
    requires Enabled(s3, e4) && s4 == Apply(s3, e4)
    requires Enabled(s4, e5) && t == Apply(s4, e5)
    ensures Run(s, es, t)
  {
    es := [];
    RunCons(s4, e5, es, t);
    es := [e5] + es;
    RunCons(s3, e4, es, t);
    es := [e4] + es;
    RunCons(s2, e3, es, t);
    es := [e3] + es;
    RunCons(s1, e2, es, t);
    es := [e2] + es;
    RunCons(s, e1, es, t);
    es := [e1] + es;
  }

  /** Such states are reached: from a fresh engine with two one-token samples and room for both,
      two steps are scheduled, the newer forward runs, and the older one is aborted late; when
      the newer commits, the child would be given a zeroed row. */
  lemma BadRunIsReachable(s: Sys, a: Sample, b: Sample) returns (es: seq<Event>, t: Sys)
    requires Init(s) && s.k.p.selectable >= {a, b} && a != b && a.InputLen() == b.InputLen() == 1
    requires s.k.c.capacity >= 2 && s.k.c.perStepBudget >= 1 && s.k.c.started
    ensures Run(s, es, t) && t.k.c.fill <= |t.buf| && t.buf[..t.k.c.fill] != Rows(t.done)
  {
    FreshReady(s);
    var s1, e1 := OneOfTwo(s, a, b);
    var s2, e2 := OneMore(s1, b);
    var s3, s4, e3, e4, e5;
    s3, s4, t, e3, e4, e5 := LateAbort(s2);
    es := FiveSteps(s, s1, s2, s3, s4, t, e1, e2, e3, e4, e5);
  }
}
