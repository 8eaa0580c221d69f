/** When an engine without inference stops asking for steps. Its flags are only ever changed by a step,
    so a state in which it does not ask lasts until the next request. */
module Stepping {
  import opened Samples
  import opened Coordinator
  import opened FinetuningStore
  import opened StepSpec
  import opened Lifecycle
  import opened BufferLayout
  import opened Guarantees
  import opened Completion

  /** A configuration that can train: the switch is on, there are epochs, and the samples and a
      minimal one fit. */
  ghost predicate CanTrain(k: Core) {
    && k.c.started && k.p.totalEpochs >= 1 && Room(k.c, k.p.all)
    && 1 <= k.c.minSampleLen <= k.c.capacity && k.c.minSampleLen <= k.c.perStepBudget
  }

  /** The throttle holds the gate, and there is no backward or flush that would need a step anyway. */
  predicate ThrottledIdle(c: Coord) {
    c.rpsActive && !c.open && !c.pending && !FlushDue(c)
  }

  /** The gate is open over a buffer without room for a minimal sample that nobody has marked. */
  predicate FullUnmarked(c: Coord) {
    c.open && !c.pending && !FlushDue(c) && c.Space() < c.minSampleLen
  }

  lemma SleepsIff(t: Sys)
    requires Inv(t) && t.inflight == [] && CanTrain(t.k)
    ensures !KeepsStepping(t.k) <==> ThrottledIdle(t.k.c) || FullUnmarked(t.k.c)
  {
    assert t.k.p.epoch < t.k.p.totalEpochs;
    assert t.k.c.reserved == 0;
  }

  /** In every reachable state with nothing in flight the engine does not ask for a step exactly when
      the throttle holds it, or a full buffer was left unmarked. */
  lemma SleepsExactly(s: Sys, es: seq<Event>, t: Sys)
    requires Init(s) && Run(s, es, t) && t.inflight == [] && CanTrain(t.k)
    ensures !KeepsStepping(t.k) <==> ThrottledIdle(t.k.c) || FullUnmarked(t.k.c)
  {
    InitInv(s);
    RunKeepsInv(s, es, t);
    SleepsIff(t);
  }

  // ---------------------------------------------------------------- switched off

  lemma SchedStarted(c: Coord, a: nat, n: nat, next1: Option<nat>, next2: Option<nat>, e: nat, order: seq<Sample>)
    ensures SchedCoord(c, a, n, next1, next2, e, order).started == c.started
  {
    var c1 := c.NoteInjection(next1, a).(epoch := e);
    NoteKeeps(c, next1, a);
    NoteKeeps(c1.Restore(c.Snapshot()), next2, n);
  }

  lemma PrologueStarted(k: Core, ack: bool, throttle: Throttle)
    ensures Prologue(k, ack, throttle).c.started == k.c.started
  {
  }

  lemma ScheduleStarted(k: Core, i: ScheduleInput)
    requires ScheduleOk(k, i) && !k.c.started
    ensures !Schedule(k, i).0.c.started && i.admitted == [] && !i.advanced
  {
    var k0 := Prologue(k, i.ack, i.throttle);
    PrologueStarted(k, i.ack, i.throttle);
    ScheduleShape(k, i);
    var q := Advanced(k0.p, i.advanced);
    var p1 := q.Claim(i.admitted);
    SchedStarted(k0.c, SumLens(i.admitted), Tokens(i.batch), NextLen(p1.selectable),
                 NextLen(p1.Release(Dropped(i)).selectable), q.epoch, i.order);
  }

  lemma OffStep(s: Sys, e: Event)
    requires !s.k.c.started && Enabled(s, e) && e != DoStart(true)
    ensures !Apply(s, e).k.c.started && (e.DoSchedule? ==> e.i.admitted == [])
  {
    match e
    case DoSchedule(i) => ScheduleStarted(s.k, i);
    case _ =>
  }

  /** Once finetuning is off, by hand or because the child is dead, nothing asks for a step and nothing
      is admitted until it is switched on again, not even for a backward or rows that wait. */
  lemma {:induction false} SwitchedOffSleeps(s: Sys, es: seq<Event>, t: Sys)
    requires !s.k.c.started && Run(s, es, t) && DoStart(true) !in es
    ensures !t.k.c.started && !KeepsStepping(t.k)
    ensures forall e | e in es && e.DoSchedule? :: e.i.admitted == []
    decreases |es|
  {
    if es != [] {
      assert es[0] in es && forall e | e in es[1..] :: e in es;
      OffStep(s, es[0]);
      SwitchedOffSleeps(Apply(s, es[0]), es[1..], t);
    }
  }

  // ---------------------------------------------------------------- in order

  /** No sample is shorter than the minimum, which the scheduler sets to the shortest length it loaded. */
  ghost predicate MinIsLeast(k: Core) {
    k.c.minSampleLen <= k.c.capacity && forall x | x in k.p.all :: k.c.minSampleLen <= x.InputLen()
  }

  /** Every step in flight was scheduled with room for one, and so is a settled buffer. */
  ghost predicate Roomy(c: Coord, fs: seq<Flight>) {
    && (forall i | 0 <= i < |fs| :: fs[i].o.offset + c.minSampleLen <= c.capacity)
    && (fs == [] && !c.pending ==> c.fill + c.minSampleLen <= c.capacity)
  }

  ghost predicate RoomInv(s: Sys) {
    Inv(s) && LaidOut(s) && MinIsLeast(s.k) && Roomy(s.k.c, s.inflight)
  }

  lemma SameLimits(c: Coord, a: nat, n: nat, next1: Option<nat>, next2: Option<nat>, e: nat, order: seq<Sample>)
    ensures var d := SchedCoord(c, a, n, next1, next2, e, order);
            d.minSampleLen == c.minSampleLen && d.capacity == c.capacity && d.fill == c.fill && d.pending == c.pending
  {
    var c1 := c.NoteInjection(next1, a).(epoch := e);
    NoteKeeps(c, next1, a);
    NoteKeeps(c1.Restore(c.Snapshot()), next2, n);
    var r := c1.Restore(c.Snapshot());
    var c2 := if n < a then (if n > 0 then r.NoteInjection(next2, n) else r) else c1;
    assert FlagsOnly(c, c2);
  }

  lemma PrologueLimits(k: Core, ack: bool, throttle: Throttle)
    requires ack ==> k.c.pending
    ensures var k0 := Prologue(k, ack, throttle);
            && k0.c.minSampleLen == k.c.minSampleLen && k0.c.capacity == k.c.capacity && k0.p.all == k.p.all
            && k0.c.fill == (if ack then 0 else k.c.fill) && (k.c.pending && !ack ==> k0.c.pending)
  {
  }

  lemma ScheduleLimits(k: Core, i: ScheduleInput)
    requires ScheduleOk(k, i) && Prologue(k, i.ack, i.throttle).p.Valid()
    ensures var k0 := Prologue(k, i.ack, i.throttle); var d := Schedule(k, i).0;
            && d.c.minSampleLen == k.c.minSampleLen && d.c.capacity == k.c.capacity && d.p.all == k.p.all
            && d.c.fill == k0.c.fill && d.c.pending == k0.c.pending
  {
    ScheduleShape(k, i);
    PrologueLimits(k, i.ack, i.throttle);
    SchedulePool(k, i);
    var k0 := Prologue(k, i.ack, i.throttle);
    var q := Advanced(k0.p, i.advanced);
    var p1 := q.Claim(i.admitted);
    SameLimits(k0.c, SumLens(i.admitted), Tokens(i.batch), NextLen(p1.selectable), NextLen(p1.Release(Dropped(i)).selectable),
               q.epoch, i.order);
  }

  /** Whoever is admitted had room. */
  lemma AdmittedHadRoom(k: Core, i: ScheduleInput)
    requires AdmitOk(k, i.advanced, i.admitted) && BatchOk(i) && k.p.Valid() && MinIsLeast(k) && i.batch != []
    ensures k.c.fill + k.c.reserved + k.c.minSampleLen <= k.c.capacity
  {
    BatchWithinAdmitted(i.batch, i.admitted);
    BatchSamplesAdmitted(i);
    FirstCounts(i.admitted);
    assert i.admitted[0] in Advanced(k.p, i.advanced).selectable;
    assert i.admitted[0] in k.p.all && i.admitted[0].InputLen() > 0;
  }

  lemma RoomyPrologue(k: Core, fs: seq<Flight>, ack: bool, throttle: Throttle)
    requires Roomy(k.c, fs) && (ack ==> k.c.pending) && MinIsLeast(k)
    ensures Roomy(Prologue(k, ack, throttle).c, fs) && MinIsLeast(Prologue(k, ack, throttle))
  {
    PrologueLimits(k, ack, throttle);
  }

  lemma RoomyLaunch(c: Coord, d: Coord, fs: seq<Flight>, o: StepOut)
    requires Roomy(c, fs) && (o.n > 0 ==> o.offset + c.minSampleLen <= c.capacity)
    requires d.minSampleLen == c.minSampleLen && d.capacity == c.capacity && d.fill == c.fill && d.pending == c.pending
    ensures Roomy(d, if o.n > 0 then fs + [Flight(o, {})] else fs)
  {
  }

  lemma RoomAfterSchedule(s: Sys, i: ScheduleInput)
    requires RoomInv(s) && ScheduleOk(s.k, i)
    ensures var t := Apply(s, DoSchedule(i)); MinIsLeast(t.k) && Roomy(t.k.c, t.inflight)
  {
    var s0, o := ScheduleParts(s, i);
    var k' := Schedule(s.k, i).0;
    ScheduleLimits(s.k, i);
    PrologueLimits(s.k, i.ack, i.throttle);
    RoomyPrologue(s.k, s.inflight, i.ack, i.throttle);
    if i.batch != [] {
      AdmittedHadRoom(s0.k, i);
    } else {
      assert Tokens([]) == 0;
    }
    RoomyLaunch(s0.k.c, k'.c, s.inflight, o);
    assert Apply(s, DoSchedule(i)).k == k';
  }

  lemma CommitLimits(c: Coord, o: StepOut)
    requires o.n > 0
    ensures var d := c.RecordCapture(o.n, ChunkLens(o.batch));
            && d.minSampleLen == c.minSampleLen && d.capacity == c.capacity
            && (d.reserved == 0 && !d.pending && d.minSampleLen > 0 ==> d.fill + d.minSampleLen <= d.capacity)
            && (d.minSampleLen == 0 && d.reserved == 0 && d.fill <= d.capacity ==> d.fill + d.minSampleLen <= d.capacity)
  {
  }

  lemma RoomyCommit(c: Coord, fs: seq<Flight>, capacity: nat)
    requires Roomy(c, fs) && fs != [] && FlightOk(fs[0], capacity) && c.reserved == FlightTokens(fs)
    requires c.fill + c.reserved <= c.capacity
    ensures var o := fs[0].o; Roomy(c.RecordCapture(o.n, ChunkLens(o.batch)), fs[1..])
  {
    CommitLimits(c, fs[0].o);
    assert FlightTokens([]) == 0;
  }

  lemma RoomAfterCommit(s: Sys)
    requires RoomInv(s) && Enabled(s, DoCommit(0))
    ensures var t := Apply(s, DoCommit(0)); MinIsLeast(t.k) && Roomy(t.k.c, t.inflight)
  {
    assert FlightOk(s.inflight[0], s.k.c.capacity);
    RoomyCommit(s.k.c, s.inflight, s.k.c.capacity);
    CommitLimits(s.k.c, s.inflight[0].o);
    assert Without(s.inflight, 0) == s.inflight[1..];
  }

  lemma RollbackLimits(c: Coord, o: StepOut)
    ensures var d := c.ReleaseReserve(o.n, o.samples).Restore(o.snap);
            d.minSampleLen == c.minSampleLen && d.capacity == c.capacity && d.fill == c.fill && d.pending == c.pending
  {
  }

  /** Rolling back the only step leaves the buffer as it was scheduled over. */
  lemma RoomyRollback(c: Coord, d: Coord, fs: seq<Flight>)
    requires Roomy(c, fs) && fs != [] && fs[0].o.offset == c.fill
    requires d.minSampleLen == c.minSampleLen && d.capacity == c.capacity && d.fill == c.fill && d.pending == c.pending
    ensures Roomy(d, fs[..|fs| - 1])
  {
  }

  lemma RoomAfterRollback(s: Sys, wipe: bool)
    requires RoomInv(s) && s.inflight != [] && Enabled(s, DoRollback(|s.inflight| - 1, wipe))
    ensures var t := Apply(s, DoRollback(|s.inflight| - 1, wipe)); MinIsLeast(t.k) && Roomy(t.k.c, t.inflight)
  {
    var last := |s.inflight| - 1;
    var t := Apply(s, DoRollback(last, wipe));
    RollbackLimits(s.k.c, s.inflight[last].o);
    RoomyRollback(s.k.c, t.k.c, s.inflight);
    assert Without(s.inflight, last) == s.inflight[..last];
  }

  /** A row written, an answer, and the switches. */
  lemma RoomAfterQuiet(s: Sys, e: Event)
    requires RoomInv(s) && Enabled(s, e) && !e.DoSchedule? && !e.DoCommit? && !e.DoRollback?
    ensures var t := Apply(s, e); MinIsLeast(t.k) && Roomy(t.k.c, t.inflight)
  {
    if e.DoRelayedAck? {
      RoomyPrologue(s.k, s.inflight, true, Off);
    }
  }

  lemma RoomStep(s: Sys, e: Event)
    requires RoomInv(s) && Enabled(s, e) && InOrder(s, e)
    ensures RoomInv(Apply(s, e))
  {
    StepKeepsInv(s, e);
    InOrderStep(s, e);
    match e
    case DoSchedule(i) => RoomAfterSchedule(s, i);
    case DoCommit(at) => RoomAfterCommit(s);
    case DoRollback(at, wipe) => RoomAfterRollback(s, wipe);
    case _ => RoomAfterQuiet(s, e);
  }

  lemma {:induction false} RoomRun(s: Sys, es: seq<Event>, t: Sys)
    requires RoomInv(s) && InOrderRun(s, es, t)
    ensures RoomInv(t)
    decreases |es|
  {
    if es != [] {
      RoomStep(s, es[0]);
      RoomRun(Apply(s, es[0]), es[1..], t);
    }
  }

  /** While commits take the oldest step in flight and rollbacks the newest, only the throttle can
      keep an engine with something to train from being stepped. */
  lemma InOrderSleepsExactly(s: Sys, es: seq<Event>, t: Sys)
    requires Init(s) && MinIsLeast(s.k) && InOrderRun(s, es, t) && t.inflight == [] && CanTrain(t.k)
    ensures !KeepsStepping(t.k) <==> ThrottledIdle(t.k.c)
  {
    InitInv(s);
    InitLaidOut(s);
    RoomRun(s, es, t);
    SleepsIff(t);
  }

  // ---------------------------------------------------------------- asleep under the throttle

  /** An idle step that reads the throttle. */
  function Reading(throttle: Throttle): ScheduleInput {
    ScheduleInput(false, throttle, false, [], [], [])
  }

  lemma EngagesFresh(c: Coord, throttle: Throttle, next: Option<nat>, e: nat)
    requires throttle.Tick? && throttle.rps > throttle.closeRps > 0.0
    requires !c.rpsActive && !c.pending && !c.flush && c.fill == 0 && c.reserved == 0
    ensures var d := SchedCoord(c.TryEpochFlush().CheckThrottle(throttle), 0, 0, next, None, e, []);
            ThrottledIdle(d) && d.rpsSince == Some(throttle.now)
  {
    IdleSched(c.TryEpochFlush().CheckThrottle(throttle), next, e);
  }

  /** One step of a fresh engine that reads a rate above the limit closes the gate, and if no
      inference is left by then nobody asks for the next step, with the whole corpus untrained. That
      step would reopen the gate: with no arrival in the window any hold is passed over. */
  lemma ThrottledEngineSleeps(s: Sys, throttle: Throttle, next: Throttle)
    requires Init(s) && s.k.p.all != {}
    requires throttle.Tick? && throttle.rps > throttle.closeRps > 0.0
    requires next.Tick? && next.closeRps > 0.0 && next.rps == 0.0 < next.openRps
    ensures var e := DoSchedule(Reading(throttle));
            && Enabled(s, e)
            && var t := Apply(s, e);
               && ThrottledIdle(t.k.c) && !KeepsStepping(t.k) && t.inflight == [] && t.k.p.selectable == t.k.p.all != {}
               && Prologue(t.k, false, next).c.open
  {
    var i := Reading(throttle);
    assert ChunkSamples([]) == [] && Elems<Sample>([]) == {};
    assert ScheduleOk(s.k, i);
    IdleShape(s.k, i);
    EngagesFresh(s.k.c, throttle, NextLen(s.k.p.selectable), s.k.p.epoch);
    var s0, o := ScheduleParts(s, i);
    assert Apply(s, DoSchedule(i)).k == Schedule(s.k, i).0;
  }

  // ---------------------------------------------------------------- asleep over rows

  /** Two two-token samples on a buffer of three rows: of the first only one token is scheduled. */
  function CutShort(x: Sample): ScheduleInput {
    ScheduleInput(false, Off, false, [x], [Chunk(x, 1)], [x])
  }

  function Whole(x: Sample): ScheduleInput {
    ScheduleInput(false, Off, false, [x], [Chunk(x, 2)], [x])
  }

  lemma TwoTokens(x: Sample, i: ScheduleInput, n: nat)
    requires x.InputLen() == 2 && 1 <= n <= 2 && i == ScheduleInput(false, Off, false, [x], [Chunk(x, n)], [x])
    ensures SumLens(i.admitted) == 2 && Tokens(i.batch) == n && BatchOk(i) && Dropped(i) == []
    ensures Elems(ChunkSamples(i.batch)) == {x} == Elems(i.admitted) && Distinct(i.admitted)
  {
    assert ChunkSamples(i.batch) == [x] && ChunkLens(i.batch) == [n];
    assert [n][1..] == [] && [x][1..] == [];
    assert Sum([n]) == n + Sum([]);
    assert SumLens([x]) == 2 + SumLens([]);
    assert DropIds([x], Ids([x])) == [] by {
      DropIdsAll([x], Ids([x]));
    }
  }

  lemma TwoTokensOk(k: Core, x: Sample, i: ScheduleInput, n: nat)
    requires x.InputLen() == 2 && 1 <= n <= 2 && i == ScheduleInput(false, Off, false, [x], [Chunk(x, n)], [x])
    requires k.c.Budget() > 0 && k.c.Space() >= 2 && x in k.p.selectable && !FlushDue(k.c) && k.p.Valid()
    ensures Prologue(k, false, Off) == k && ScheduleOk(k, i)
    ensures Schedule(k, i).0.p == k.p.(selectable := k.p.selectable - {x}, claimed := k.p.claimed + {x})
  {
    TwoTokens(x, i, n);
    SchedulePool(k, i);
  }

  /** Cut short, the first sample leaves the gate open. */
  lemma CutCoord(c: Coord, next: Option<nat>, e: nat, order: seq<Sample>)
    requires c.open && !c.pending && !c.flush && c.Space() >= 3 && next == Some(2)
    ensures var d := SchedCoord(c, 2, 1, next, next, e, order); d.open && !d.flush && !d.pending
  {
  }

  lemma ReservedCoord(c: Coord, a: nat, n: nat, next1: Option<nat>, next2: Option<nat>, e: nat, order: seq<Sample>)
    requires n > 0
    ensures SchedCoord(c, a, n, next1, next2, e, order).reserved == c.reserved + n
  {
    var c1 := c.NoteInjection(next1, a).(epoch := e);
    NoteKeeps(c, next1, a);
    NoteKeeps(c1.Restore(c.Snapshot()), next2, n);
  }

  lemma TwoTokensCore(k: Core, x: Sample, i: ScheduleInput, n: nat)
    requires x.InputLen() == 2 && 1 <= n <= 2 && i == ScheduleInput(false, Off, false, [x], [Chunk(x, n)], [x])
    requires ScheduleOk(k, i) && Prologue(k, false, Off) == k && k.p.Valid()
    ensures var (d, o) := Schedule(k, i);
            && d.c.reserved == k.c.reserved + n && d.c.fill == k.c.fill && d.c.pending == k.c.pending
            && SameSetup(k.c, d.c) && o.n == n && o.snap == k.c.Snapshot()
  {
    TwoTokens(x, i, n);
    ScheduleLimits(k, i);
    ScheduleSetup(k, i);
    ScheduleShape(k, i);
    var p1 := k.p.Claim([x]);
    ReservedCoord(k.c, 2, n, NextLen(p1.selectable), NextLen(p1.Release(Dropped(i)).selectable), k.p.epoch, i.order);
  }

  /** One sample scheduled. */
  lemma TwoTokensStep(s: Sys, x: Sample, i: ScheduleInput, n: nat) returns (t: Sys, f: Flight)
    requires x.InputLen() == 2 && 1 <= n <= 2 && i == ScheduleInput(false, Off, false, [x], [Chunk(x, n)], [x])
    requires s.k.p.Valid() && s.k.c.Budget() > 0 && s.k.c.Space() >= 2 && x in s.k.p.selectable && !FlushDue(s.k.c)
    ensures Enabled(s, DoSchedule(i)) && t == Apply(s, DoSchedule(i))
    ensures t.inflight == s.inflight + [f] && f.o.n == n && f.written == {} && f.o.snap == s.k.c.Snapshot()
    ensures t.k.c.reserved == s.k.c.reserved + n && t.k.c.fill == s.k.c.fill && t.k.c.pending == s.k.c.pending
    ensures SameSetup(s.k.c, t.k.c)
    ensures t.k.p == s.k.p.(selectable := s.k.p.selectable - {x}, claimed := s.k.p.claimed + {x})
  {
    TwoTokensOk(s.k, x, i, n);
    TwoTokensCore(s.k, x, i, n);
    t := Apply(s, DoSchedule(i));
    f := Flight(Schedule(s.k, i).1, {});
    assert t.k == Schedule(s.k, i).0;
  }

  lemma CutStaysOpen(k: Core, a: Sample, b: Sample)
    requires ScheduleOk(k, CutShort(a)) && Prologue(k, false, Off) == k && k.p.Valid()
    requires a.InputLen() == b.InputLen() == 2 && a != b
    requires k.p.selectable == {a, b} && k.c.open && !k.c.pending && !k.c.flush && k.c.Space() >= 3
    ensures var d := Schedule(k, CutShort(a)).0.c; d.open && !d.flush
  {
    var i := CutShort(a);
    TwoTokens(a, i, 1);
    SchedulePool(k, i);
    ScheduleShape(k, i);
    var p1 := k.p.Claim([a]);
    assert p1.Release([]) == p1;
    assert p1.selectable == {b};
    CutCoord(k.c, NextLen(p1.selectable), k.p.epoch, i.order);
  }

  /** The newer step's two rows are committed, then the older step is undone. */
  lemma NewerCoord(c: Coord, newer: StepOut, older: StepOut)
    requires c.fill == 0 && c.reserved == 3 && !c.pending
    requires newer.n == 2 && older.n == 1 && older.snap == Snap(true, false)
    ensures var d := c.RecordCapture(newer.n, ChunkLens(newer.batch)).ReleaseReserve(older.n, older.samples).Restore(older.snap);
            d.fill == 2 && d.reserved == 0 && d.open && !d.flush && !d.pending && SameSetup(c, d)
  {
  }

  lemma NewerStays(s: Sys) returns (es: seq<Event>, t: Sys)
    requires |s.inflight| == 2 && s.inflight[0].o.n == 1 && s.inflight[1].o.n == 2
    requires s.inflight[0].written == {} && s.inflight[0].o.snap == Snap(true, false)
    requires s.k.c.fill == 0 && s.k.c.reserved == 3 && !s.k.c.pending
    ensures Run(s, es, t) && t.inflight == []
    ensures t.k.c.fill == 2 && t.k.c.reserved == 0 && !t.k.c.pending && t.k.c.open && !t.k.c.flush
    ensures SameSetup(s.k.c, t.k.c) && t.k.p.all == s.k.p.all && t.k.p.totalEpochs == s.k.p.totalEpochs
  {
    var u;
    es, u := ForwardRun(s, 1);
    assert u.inflight == [s.inflight[0]];
    var e := DoRollback(0, false);
    OneEvent(u, e);
    t := Apply(u, e);
    RunAppend(s, es, u, [e], t);
    es := es + [e];
    NewerCoord(s.k.c, s.inflight[1].o, s.inflight[0].o);
  }

  ghost predicate TwoSamples(s: Sys, a: Sample, b: Sample) {
    && Init(s) && s.k.p.selectable == {a, b} && a != b && a.InputLen() == b.InputLen() == 2
    && s.k.c.started && s.k.c.capacity == s.k.c.perStepBudget == 3 && s.k.c.minSampleLen == 2 && s.k.p.totalEpochs >= 1
  }

  lemma CutStep(s: Sys, a: Sample, b: Sample) returns (t: Sys, f: Flight)
    requires TwoSamples(s, a, b)
    ensures Enabled(s, DoSchedule(CutShort(a))) && t == Apply(s, DoSchedule(CutShort(a)))
    ensures t.inflight == [f] && f.o.n == 1 && f.written == {} && f.o.snap == Snap(true, false)
    ensures var c := t.k.c; c.open && !c.flush && !c.pending && c.fill == 0 && c.reserved == 1 && SameSetup(s.k.c, c)
    ensures var p := t.k.p; p.Valid() && b in p.selectable && p.all == s.k.p.all && p.totalEpochs == s.k.p.totalEpochs
  {
    TwoTokensOk(s.k, a, CutShort(a), 1);
    t, f := TwoTokensStep(s, a, CutShort(a), 1);
    CutStaysOpen(s.k, a, b);
    assert t.k == Schedule(s.k, CutShort(a)).0;
  }

  lemma TwoInFlight(s: Sys, a: Sample, b: Sample) returns (es: seq<Event>, t: Sys)
    requires TwoSamples(s, a, b)
    ensures Run(s, es, t) && |t.inflight| == 2 && t.inflight[0].o.n == 1 && t.inflight[1].o.n == 2
    ensures t.inflight[0].written == {} && t.inflight[0].o.snap == Snap(true, false)
    ensures t.k.c.fill == 0 && t.k.c.reserved == 3 && !t.k.c.pending && SameSetup(s.k.c, t.k.c)
    ensures t.k.p.all == s.k.p.all && t.k.p.totalEpochs == s.k.p.totalEpochs
  {
    var u, f := CutStep(s, a, b);
    var g;
    t, g := TwoTokensStep(u, b, Whole(b), 2);
    OneEvent(u, DoSchedule(Whole(b)));
    RunCons(s, DoSchedule(CutShort(a)), [DoSchedule(Whole(b))], t);
    es := [DoSchedule(CutShort(a))] + [DoSchedule(Whole(b))];
  }

  /** The unmarked full buffer is reached: the newer of two steps commits before the older one, of
      which a single token was scheduled, is undone. Two rows wait for their backward, the samples
      of the undone step for their turn, and nobody asks for another step. */
  lemma AsleepOverRows(s: Sys, a: Sample, b: Sample) returns (es: seq<Event>, t: Sys)
    requires TwoSamples(s, a, b)
    ensures Run(s, es, t) && t.inflight == [] && CanTrain(t.k) && t.k.c.fill == 2
    ensures FullUnmarked(t.k.c) && !KeepsStepping(t.k)
  {
    var es1, u := TwoInFlight(s, a, b);
    var es2;
    es2, t := NewerStays(u);
    RunAppend(s, es1, u, es2, t);
    es := es1 + es2;
    SleepsExactly(s, es, t);
  }
}
