/** One scheduler step as a function on the coordinator and the store together: what
    `_schedule_step`, `_rollback_ft_step`, a commit and an acknowledgement do to both. */
module StepSpec {
  import opened Samples
  import opened Coordinator
  import opened FinetuningStore

  datatype Core = Core(c: Coord, p: Pool)

  /** `n` tokens of one sample, scheduled in one step. */
  datatype Chunk = Chunk(sample: Sample, n: nat)

  /** What one schedule call decides or is told: whether the backward's answer is there, the
      throttle reading, whether admission advanced the epoch, what it admitted, what the
      base scheduler then scheduled (in batch order), and the order in which the scheduled
      samples reach the coordinator (the source iterates over a set of request ids). */
  datatype ScheduleInput = ScheduleInput(
    ack: bool, throttle: Throttle, advanced: bool, admitted: seq<Sample>,
    batch: seq<Chunk>, order: seq<Sample>)

  /** The FT part of a scheduler output. */
  datatype StepOut = StepOut(offset: nat, n: nat, batch: seq<Chunk>, samples: seq<Sample>, snap: Snap,
                             trigger: Option<Work>)

  function ChunkSamples(batch: seq<Chunk>): (r: seq<Sample>)
    ensures |r| == |batch|
    ensures forall i | 0 <= i < |r| :: r[i] == batch[i].sample
  {
    seq(|batch|, i requires 0 <= i < |batch| => batch[i].sample)
  }

  function ChunkLens(batch: seq<Chunk>): (r: seq<nat>)
    ensures |r| == |batch|
    ensures forall i | 0 <= i < |r| :: r[i] == batch[i].n
  {
    seq(|batch|, i requires 0 <= i < |batch| => batch[i].n)
  }

  function Tokens(batch: seq<Chunk>): nat {
    Sum(ChunkLens(batch))
  }

  function Ack(k: Core): Core {
    Core(k.c.Acked(), k.p.Commit(k.c.samples))
  }

  /** Everything before the admission snapshot. */
  function Prologue(k: Core, ack: bool, throttle: Throttle): Core {
    var k1 := if ack then Ack(k) else k;
    Core(k1.c.TryEpochFlush().CheckThrottle(throttle), k1.p)
  }

  function Advanced(p: Pool, advanced: bool): Pool {
    if advanced then p.Advance() else p
  }

  /** The samples admitted but not scheduled. */
  function Dropped(i: ScheduleInput): seq<Sample> {
    DropIds(i.admitted, Ids(ChunkSamples(i.batch)))
  }

  /** Injection: claim the admitted samples and let the coordinator judge whether the buffer
      can still grow. */
  ghost function Inject(k: Core, i: ScheduleInput): Core {
    var p := Advanced(k.p, i.advanced).Claim(i.admitted);
    Core(k.c.NoteInjection(NextLen(p.selectable), SumLens(i.admitted)).(epoch := p.epoch), p)
  }

  /** Partition: release what was not scheduled, and judge again when some of it was not. */
  ghost function Partition(k: Core, i: ScheduleInput, snap: Snap): Core {
    var p := k.p.Release(Dropped(i));
    var n := Tokens(i.batch);
    var c :=
      if n < SumLens(i.admitted) then
        var r := k.c.Restore(snap);
        if n > 0 then r.NoteInjection(NextLen(p.selectable), n) else r
      else k.c;
    Core(c, p)
  }

  ghost function Schedule(k: Core, i: ScheduleInput): (Core, StepOut) {
    var k0 := Prologue(k, i.ack, i.throttle);
    var snap := k0.c.Snapshot();
    var k2 := Partition(Inject(k0, i), i, snap);
    var n := Tokens(i.batch);
    var c3 := if n > 0 then k2.c.Reserve(n, i.order) else k2.c;
    (Core(if c3.relay then c3.TakeCmd() else c3, k2.p),
     StepOut(k2.c.fill + k2.c.reserved, n, i.batch, i.order, snap, if c3.relay then c3.cmd else None))
  }

  function Commit(k: Core, o: StepOut): Core {
    k.(c := k.c.RecordCapture(o.n, ChunkLens(o.batch)))
  }

  function Rollback(k: Core, o: StepOut): Core {
    Core(k.c.ReleaseReserve(o.n, o.samples).Restore(o.snap), k.p.Release(o.samples))
  }

  /** What the base scheduler may do with the admitted requests: each is scheduled once, whole
      or cut short, or not at all. */
  ghost predicate BatchOk(i: ScheduleInput) {
    && Distinct(ChunkSamples(i.batch))
    && (forall x | x in i.batch :: x.sample in i.admitted && 0 < x.n <= x.sample.InputLen())
    && multiset(i.order) == multiset(ChunkSamples(i.batch))
  }

  /** What admission may do at state `k` (after the prologue); the greedy loop is proved to
      stay within this. */
  ghost predicate AdmitOk(k: Core, advanced: bool, admitted: seq<Sample>) {
    && (advanced ==> k.c.Budget() > 0 && k.p.selectable == {} && k.p.CanAdvance() && k.p.epoch < k.p.totalEpochs - 1)
    && (admitted != [] ==> k.c.Budget() > 0)
    && Distinct(admitted)
    && Elems(admitted) <= Advanced(k.p, advanced).selectable
    && SumLens(admitted) <= k.c.Space()
  }

  ghost predicate ScheduleOk(k: Core, i: ScheduleInput) {
    && (i.ack ==> k.c.pending && !k.c.relay)
    && AdmitOk(Prologue(k, i.ack, i.throttle), i.advanced, i.admitted)
    && BatchOk(i)
  }
}
