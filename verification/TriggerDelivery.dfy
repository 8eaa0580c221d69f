/** Under tensor parallelism a backward's trigger travels on a scheduler output, and outputs may be
    undone. Over every run each trigger is on exactly one output that is not. */
module TriggerDelivery {
  import opened Samples
  import opened Coordinator
  import opened FinetuningStore
  import opened StepSpec
  import opened Lifecycle
  import opened Guarantees

  /** An output and whether it has been rolled back. */
  datatype Entry = Entry(o: StepOut, undone: bool)

  /** All outputs of a run, which of them the steps in flight belong to, and the work item of every
      trigger decided so far. */
  datatype Tape = Tape(entries: seq<Entry>, places: seq<nat>, fired: seq<Work>)

  /** The event decided on a backward: its work is the whole buffer. */
  ghost function Fired(fired: seq<Work>, c: Coord, d: Coord): seq<Work> {
    if d.cycle > c.cycle then fired + [Work(d.fill, d.sampleLens, c.epoch)] else fired
  }

  function Drop(places: seq<nat>, at: nat): seq<nat> {
    if at < |places| then Without(places, at) else places
  }

  function Undone(entries: seq<Entry>, places: seq<nat>, at: nat): seq<Entry> {
    if at < |places| && places[at] < |entries| then entries[places[at] := entries[places[at]].(undone := true)] else entries
  }

  ghost function Record(p: Tape, s: Sys, e: Event): Tape
    requires Enabled(s, e)
  {
    var fired := Fired(p.fired, s.k.c, Apply(s, e).k.c);
    match e
    case DoSchedule(i) =>
      var o := Schedule(s.k, i).1;
      Tape(p.entries + [Entry(o, false)], if o.n > 0 then p.places + [|p.entries|] else p.places, fired)
    case DoCommit(at) => Tape(p.entries, Drop(p.places, at), fired)
    case DoRollback(at, _) => Tape(Undone(p.entries, p.places, at), Drop(p.places, at), fired)
    case _ => p.(fired := fired)
  }

  /** The run `es` from `s` to `t`, with its tape. */
  ghost predicate Taped(s: Sys, p: Tape, es: seq<Event>, t: Sys, q: Tape)
    decreases |es|
  {
    if es == [] then s == t && p == q
    else Enabled(s, es[0]) && Taped(Apply(s, es[0]), Record(p, s, es[0]), es[1..], t, q)
  }

  /** The work items on the outputs that are executed. */
  function Sent(entries: seq<Entry>): seq<Work> {
    if entries == [] then []
    else
      var x := entries[|entries| - 1];
      var before := Sent(entries[..|entries| - 1]);
      if x.o.trigger.Some? && !x.undone then before + [x.o.trigger.value] else before
  }

  function Parked(c: Coord): seq<Work> {
    if c.cmd.Some? then [c.cmd.value] else []
  }

  function Acks(es: seq<Event>): nat {
    if es == [] then 0 else (if IsAck(es[0]) then 1 else 0) + Acks(es[1..])
  }

  // ---------------------------------------------------------------- the invariant

  /** Every step in flight has its own entry, not undone. */
  ghost predicate Placed(p: Tape, fs: seq<Flight>) {
    && |p.places| == |fs|
    && (forall i, j | 0 <= i < j < |p.places| :: p.places[i] < p.places[j])
    && forall i | 0 <= i < |fs| :: p.places[i] < |p.entries| && p.entries[p.places[i]] == Entry(fs[i].o, false)
  }

  /** Outputs with a trigger carry no FT tokens, and none is ever undone. */
  ghost predicate TriggersAlone(entries: seq<Entry>) {
    forall i | 0 <= i < |entries| && entries[i].o.trigger.Some? :: entries[i].o.n == 0 && !entries[i].undone
  }

  ghost predicate TapeOk(p: Tape, c: Coord, fs: seq<Flight>) {
    c.relay && Placed(p, fs) && TriggersAlone(p.entries) && p.fired == Sent(p.entries) + Parked(c)
  }

  lemma SentSnoc(entries: seq<Entry>, x: Entry)
    ensures Sent(entries + [x]) == Sent(entries) + if x.o.trigger.Some? && !x.undone then [x.o.trigger.value] else []
  {
    assert (entries + [x])[..|entries|] == entries;
  }

  lemma {:induction false} SentUndone(entries: seq<Entry>, at: nat)
    requires at < |entries| && entries[at].o.trigger.None?
    ensures Sent(entries[at := entries[at].(undone := true)]) == Sent(entries)
    decreases |entries|
  {
    var k := |entries| - 1;
    var after := entries[at := entries[at].(undone := true)];
    if at < k {
      assert after[..k] == entries[..k][at := entries[at].(undone := true)];
      SentUndone(entries[..k], at);
    } else {
      assert after[..k] == entries[..k];
    }
  }

  // ---------------------------------------------------------------- where triggers are decided

  /** From `c` to `d` either no backward was decided, or one that is parked as a command. */
  ghost predicate MayPark(c: Coord, d: Coord) {
    && d.relay == c.relay
    && (d.cycle == c.cycle || d.cycle == c.cycle + 1)
    && (d.cycle == c.cycle ==> d.cmd == c.cmd)
    && (d.cycle > c.cycle && c.relay ==> c.cmd.None? && d.cmd == Some(Work(d.fill, d.sampleLens, c.epoch)))
  }

  lemma PrologueParks(k: Core, throttle: Throttle)
    requires k.c.cmd.Some? ==> k.c.pending
    ensures MayPark(k.c, Prologue(k, false, throttle).c)
    ensures var d := Prologue(k, false, throttle).c; d.pending <==> k.c.pending || d.cycle > k.c.cycle
  {
  }

  lemma CommitParks(c: Coord, n: nat, lens: seq<nat>)
    requires c.cmd.Some? ==> c.pending
    ensures MayPark(c, c.RecordCapture(n, lens))
    ensures var d := c.RecordCapture(n, lens); d.pending <==> c.pending || d.cycle > c.cycle
  {
  }

  /** What a schedule sends is what was parked before admission. */
  lemma SchedSends(c: Coord, a: nat, n: nat, next1: Option<nat>, next2: Option<nat>, e: nat, order: seq<Sample>)
    ensures var d := SchedCoord(c, a, n, next1, next2, e, order);
            && d.relay == c.relay && d.cycle == c.cycle && d.pending == c.pending
            && d.fill == c.fill && d.sampleLens == c.sampleLens
            && d.cmd == if c.relay then None else c.cmd
  {
    var c1 := c.NoteInjection(next1, a).(epoch := e);
    NoteKeeps(c, next1, a);
    var c2 := Judged(c1, c.Snapshot(), a, n, next2);
    assert SchedCoord(c, a, n, next1, next2, e, order) == Reserved(c2, n, order);
  }

  /** The verdict derived again when not everything admitted was scheduled. */
  function Judged(c: Coord, snap: Snap, a: nat, n: nat, next: Option<nat>): (d: Coord)
    ensures d.relay == c.relay && d.cycle == c.cycle && d.pending == c.pending
    ensures d.fill == c.fill && d.sampleLens == c.sampleLens && d.cmd == c.cmd
  {
    if n >= a then c else if n > 0 then c.Restore(snap).NoteInjection(next, n) else c.Restore(snap)
  }

  function Reserved(c: Coord, n: nat, order: seq<Sample>): (d: Coord)
    ensures d.relay == c.relay && d.cycle == c.cycle && d.pending == c.pending
    ensures d.fill == c.fill && d.sampleLens == c.sampleLens && d.cmd == if c.relay then None else c.cmd
  {
    var d := if n > 0 then c.Reserve(n, order) else c;
    if d.relay then d.TakeCmd() else d
  }

  // ---------------------------------------------------------------- every step

  lemma SchedCycle(k: Core, i: ScheduleInput)
    requires ScheduleOk(k, i)
    ensures var k0 := Prologue(k, i.ack, i.throttle); var (k', o) := Schedule(k, i);
            && k'.c.relay == k0.c.relay && k'.c.cycle == k0.c.cycle && k'.c.pending == k0.c.pending
            && k'.c.fill == k0.c.fill && k'.c.sampleLens == k0.c.sampleLens
            && k'.c.cmd == (if k0.c.relay then None else k0.c.cmd)
            && o.trigger == (if k0.c.relay then k0.c.cmd else None) && o.n == Tokens(i.batch)
  {
    ScheduleShape(k, i);
    var k0 := Prologue(k, i.ack, i.throttle);
    var q := Advanced(k0.p, i.advanced);
    var p1 := q.Claim(i.admitted);
    SchedSends(k0.c, SumLens(i.admitted), Tokens(i.batch), NextLen(p1.selectable), NextLen(p1.Release(Dropped(i)).selectable),
               q.epoch, i.order);
  }

  /** An output appended: it takes along what is parked. */
  lemma Append(p: Tape, c: Coord, c0: Coord, d: Coord, fs: seq<Flight>, o: StepOut)
    requires TapeOk(p, c, fs) && MayPark(c, c0)
    requires d.relay && d.cycle == c0.cycle && d.fill == c0.fill && d.sampleLens == c0.sampleLens && d.cmd == None
    requires o.trigger == c0.cmd && (o.trigger.Some? ==> o.n == 0)
    ensures TapeOk(Tape(p.entries + [Entry(o, false)],
                        if o.n > 0 then p.places + [|p.entries|] else p.places, Fired(p.fired, c, d)),
                   d, if o.n > 0 then fs + [Flight(o, {})] else fs)
  {
    var x := Entry(o, false);
    SentSnoc(p.entries, x);
    SentParked(Sent(p.entries), c, c0);
    AppendPlaced(p, fs, x);
  }

  lemma SentParked(sent: seq<Work>, c: Coord, c0: Coord)
    requires c.relay && MayPark(c, c0)
    ensures Fired(sent + Parked(c), c, c0) == sent + Parked(c0)
  {
  }

  lemma AppendPlaced(p: Tape, fs: seq<Flight>, x: Entry)
    requires Placed(p, fs) && !x.undone
    ensures Placed(p.(entries := p.entries + [x]), fs)
    ensures Placed(p.(entries := p.entries + [x], places := p.places + [|p.entries|]), fs + [Flight(x.o, {})])
  {
  }

  lemma SendStep(s: Sys, p: Tape, i: ScheduleInput)
    requires Inv(s) && TapeOk(p, s.k.c, s.inflight) && ScheduleOk(s.k, i)
    ensures var t := Apply(s, DoSchedule(i)); TapeOk(Record(p, s, DoSchedule(i)), t.k.c, t.inflight)
  {
    var (k', o) := Schedule(s.k, i);
    TriggerRidesAlone(s, i);
    PrologueParks(s.k, i.throttle);
    SchedCycle(s.k, i);
    Append(p, s.k.c, Prologue(s.k, i.ack, i.throttle).c, k'.c, s.inflight, o);
  }

  lemma PlacesDrop(p: Tape, fs: seq<Flight>, at: nat)
    requires Placed(p, fs) && at < |fs|
    ensures Placed(p.(places := Drop(p.places, at)), Without(fs, at))
    ensures Placed(Tape(Undone(p.entries, p.places, at), Drop(p.places, at), p.fired), Without(fs, at))
  {
  }

  /** A step in flight is committed, and perhaps a backward decided. */
  lemma TapeCommit(p: Tape, c: Coord, d: Coord, fs: seq<Flight>, at: nat)
    requires TapeOk(p, c, fs) && MayPark(c, d) && at < |fs|
    ensures TapeOk(Tape(p.entries, Drop(p.places, at), Fired(p.fired, c, d)), d, Without(fs, at))
  {
    PlacesDrop(p, fs, at);
    SentParked(Sent(p.entries), c, d);
  }

  /** A step in flight is undone: it carried no trigger. */
  lemma TapeUndo(p: Tape, c: Coord, d: Coord, fs: seq<Flight>, at: nat)
    requires TapeOk(p, c, fs) && d.relay && d.cycle == c.cycle && d.cmd == c.cmd && at < |fs| && fs[at].o.n > 0
    ensures TapeOk(Tape(Undone(p.entries, p.places, at), Drop(p.places, at), Fired(p.fired, c, d)), d, Without(fs, at))
  {
    PlacesDrop(p, fs, at);
    assert p.entries[p.places[at]].o.trigger.None?;
    SentUndone(p.entries, p.places[at]);
  }

  lemma RollbackKeepsCycle(c: Coord, o: StepOut)
    ensures var d := c.ReleaseReserve(o.n, o.samples).Restore(o.snap);
            d.relay == c.relay && d.cycle == c.cycle && d.cmd == c.cmd && d.pending == c.pending
  {
  }

  /** A row written moves no output. */
  lemma WritePlaced(p: Tape, fs: seq<Flight>, at: nat, g: Flight)
    requires Placed(p, fs) && at < |fs| && g.o == fs[at].o
    ensures Placed(p, fs[at := g])
  {
  }

  lemma QuietStep(s: Sys, p: Tape, e: Event)
    requires Inv(s) && TapeOk(p, s.k.c, s.inflight) && Enabled(s, e)
    requires !e.DoSchedule? && !e.DoCommit? && !e.DoRollback?
    ensures TapeOk(Record(p, s, e), Apply(s, e).k.c, Apply(s, e).inflight)
  {
    match e
    case DoWrite(at, row) =>
      var f := s.inflight[at];
      WritePlaced(p, s.inflight, at, f.(written := f.written + {row}));
    case _ =>
  }

  lemma TapeStep(s: Sys, p: Tape, e: Event)
    requires Inv(s) && TapeOk(p, s.k.c, s.inflight) && Enabled(s, e)
    ensures TapeOk(Record(p, s, e), Apply(s, e).k.c, Apply(s, e).inflight)
  {
    match e
    case DoSchedule(i) => SendStep(s, p, i);
    case DoCommit(at) =>
      CommitParks(s.k.c, s.inflight[at].o.n, ChunkLens(s.inflight[at].o.batch));
      TapeCommit(p, s.k.c, Apply(s, e).k.c, s.inflight, at);
    case DoRollback(at, wipe) =>
      assert FlightOk(s.inflight[at], s.k.c.capacity);
      RollbackKeepsCycle(s.k.c, s.inflight[at].o);
      TapeUndo(p, s.k.c, Apply(s, e).k.c, s.inflight, at);
    case _ => QuietStep(s, p, e);
  }

  lemma FiredCounts(s: Sys, p: Tape, e: Event)
    requires Enabled(s, e) && s.k.c.cycle <= Apply(s, e).k.c.cycle <= s.k.c.cycle + 1
    ensures |Record(p, s, e).fired| + s.k.c.cycle == |p.fired| + Apply(s, e).k.c.cycle
  {
  }

  /** Every event counts its trigger and its acknowledgement. */
  lemma CycleStep(s: Sys, e: Event)
    requires Inv(s) && Enabled(s, e)
    ensures var c, d := s.k.c, Apply(s, e).k.c;
            && c.cycle <= d.cycle <= c.cycle + 1
            && d.cycle + (if c.pending then 1 else 0) == c.cycle + (if IsAck(e) then 1 else 0) + if d.pending then 1 else 0
  {
    match e
    case DoSchedule(i) =>
      SchedCycle(s.k, i);
      if i.ack {
        AckedPrologue(s.k, i.throttle);
      } else {
        PrologueParks(s.k, i.throttle);
      }
    case DoCommit(at) => CommitParks(s.k.c, s.inflight[at].o.n, ChunkLens(s.inflight[at].o.batch));
    case DoRollback(at, _) => RollbackKeepsCycle(s.k.c, s.inflight[at].o);
    case _ =>
  }

  /** An acknowledged buffer is empty, so nothing is decided in the same call. */
  lemma AckedPrologue(k: Core, throttle: Throttle)
    ensures var d := Prologue(k, true, throttle).c; !d.pending && d.cycle == k.c.cycle
  {
  }

  lemma {:induction false} TapedKeeps(s: Sys, p: Tape, es: seq<Event>, t: Sys, q: Tape)
    requires Inv(s) && TapeOk(p, s.k.c, s.inflight) && Taped(s, p, es, t, q)
    ensures Inv(t) && TapeOk(q, t.k.c, t.inflight)
    ensures |q.fired| + s.k.c.cycle == |p.fired| + t.k.c.cycle
    ensures t.k.c.cycle + (if s.k.c.pending then 1 else 0) == s.k.c.cycle + Acks(es) + if t.k.c.pending then 1 else 0
    decreases |es|
  {
    if es != [] {
      var e := es[0];
      StepKeepsInv(s, e);
      TapeStep(s, p, e);
      CycleStep(s, e);
      FiredCounts(s, p, e);
      TapedKeeps(Apply(s, e), Record(p, s, e), es[1..], t, q);
    }
  }

  lemma TapeStart(s: Sys)
    requires Init(s) && s.k.c.relay
    ensures TapeOk(Tape([], [], []), s.k.c, s.inflight)
  {
  }

  /** In every run of a tensor-parallel engine, with whatever rollbacks: the work items on the
      outputs that are executed, and then the one still parked, are exactly the backwards decided,
      each once and in order, each over the whole buffer. An output with a trigger is never undone;
      and of the backwards decided at most one is unacknowledged. */
  lemma EveryTriggerDelivered(s: Sys, es: seq<Event>, t: Sys, q: Tape)
    requires Init(s) && s.k.c.relay && Taped(s, Tape([], [], []), es, t, q)
    ensures q.fired == Sent(q.entries) + Parked(t.k.c)
    ensures |q.fired| == t.k.c.cycle == Acks(es) + if t.k.c.pending then 1 else 0
    ensures forall i | 0 <= i < |q.entries| && q.entries[i].undone :: q.entries[i].o.trigger.None?
    ensures t.k.c.cmd.Some? ==> t.k.c.pending
  {
    InitInv(s);
    TapeStart(s);
    TapedKeeps(s, Tape([], [], []), es, t, q);
  }
}
