/** The order of `buffer_samples`. It is said to be the order in which the rows were written, but it is
    filled from a set of request ids. */
module BufferOrder {
  import opened Samples
  import opened Coordinator
  import opened FinetuningStore
  import opened StepSpec
  import opened Lifecycle
  import opened BufferLayout
  import opened Guarantees

  /** The samples of the steps in flight, in the order of their rows. */
  function FlightOrder(fs: seq<Flight>): seq<Sample> {
    if fs == [] then [] else ChunkSamples(fs[0].o.batch) + FlightOrder(fs[1..])
  }

  /** The samples held are listed in the order of their rows. */
  ghost predicate InWriteOrder(s: Sys) {
    s.k.c.samples == ChunkSamples(s.done) + FlightOrder(s.inflight)
  }

  lemma {:induction false} OrderConcat(a: seq<Flight>, b: seq<Flight>)
    ensures FlightOrder(a + b) == FlightOrder(a) + FlightOrder(b)
  {
    if a == [] {
      assert a + b == b;
    } else {
      assert (a + b)[1..] == a[1..] + b;
      OrderConcat(a[1..], b);
    }
  }

  lemma OrderSnoc(fs: seq<Flight>, f: Flight)
    ensures FlightOrder(fs + [f]) == FlightOrder(fs) + ChunkSamples(f.o.batch)
  {
    OrderConcat(fs, [f]);
    assert [f][1..] == [];
    assert ChunkSamples(f.o.batch) + [] == ChunkSamples(f.o.batch);
  }

  /** Steps other than schedules, commits and rollbacks move no sample. */
  lemma {:induction false} OrderSame(fs: seq<Flight>, gs: seq<Flight>)
    requires |fs| == |gs| && forall i | 0 <= i < |fs| :: gs[i].o == fs[i].o
    ensures FlightOrder(gs) == FlightOrder(fs)
  {
    if fs != [] {
      OrderSame(fs[1..], gs[1..]);
    }
  }

  lemma ScheduledSamples(k: Core, i: ScheduleInput)
    requires ScheduleOk(k, i)
    ensures Schedule(k, i).0.c.samples == (if i.ack then [] else k.c.samples) + i.order
  {
    ScheduleShape(k, i);
    PrologueSamples(k, i.ack, i.throttle);
    var k0 := Prologue(k, i.ack, i.throttle);
    var q := Advanced(k0.p, i.advanced);
    var p1 := q.Claim(i.admitted);
    SchedSamples(k0.c, SumLens(i.admitted), Tokens(i.batch), NextLen(p1.selectable),
                 NextLen(p1.Release(Dropped(i)).selectable), q.epoch, i.order);
    NothingListed(i);
  }

  lemma NothingListed(i: ScheduleInput)
    requires BatchOk(i)
    ensures Tokens(i.batch) == 0 ==> i.batch == [] && i.order == []
    ensures i.batch == [] ==> Tokens(i.batch) == 0
  {
    BatchWithinAdmitted(i.batch, i.admitted);
    BatchSamplesAdmitted(i);
  }

  lemma PrologueSamples(k: Core, ack: bool, throttle: Throttle)
    ensures Prologue(k, ack, throttle).c.samples == if ack then [] else k.c.samples
  {
  }

  lemma SchedSamples(c: Coord, a: nat, n: nat, next1: Option<nat>, next2: Option<nat>, e: nat, order: seq<Sample>)
    ensures SchedCoord(c, a, n, next1, next2, e, order).samples == if n > 0 then c.samples + order else c.samples
  {
    NoteKeeps(c, next1, a);
    NoteKeeps(c.NoteInjection(next1, a).(epoch := e).Restore(c.Snapshot()), next2, n);
  }

  /** A schedule keeps the order exactly when it lists its samples as it batches them. */
  lemma ScheduleOrder(s: Sys, i: ScheduleInput)
    requires Inv(s) && InWriteOrder(s) && ScheduleOk(s.k, i)
    ensures InWriteOrder(Apply(s, DoSchedule(i))) <==> i.order == ChunkSamples(i.batch)
  {
    var before := if i.ack then [] else s.k.c.samples;
    var t := Apply(s, DoSchedule(i));
    ScheduledSamples(s.k, i);
    assert t.k == Schedule(s.k, i).0;
    LaunchedRows(s, i, before);
    OrderAfter(t, before, i);
  }

  lemma OrderAfter(t: Sys, before: seq<Sample>, i: ScheduleInput)
    requires t.k.c.samples == before + i.order
    requires ChunkSamples(t.done) + FlightOrder(t.inflight) == before + ChunkSamples(i.batch)
    ensures InWriteOrder(t) <==> i.order == ChunkSamples(i.batch)
  {
    SamePrefix(before, i.order, ChunkSamples(i.batch));
  }

  lemma LaunchedRows(s: Sys, i: ScheduleInput, before: seq<Sample>)
    requires Inv(s) && InWriteOrder(s) && ScheduleOk(s.k, i) && before == if i.ack then [] else s.k.c.samples
    ensures var t := Apply(s, DoSchedule(i)); ChunkSamples(t.done) + FlightOrder(t.inflight) == before + ChunkSamples(i.batch)
  {
    var s0, o := ScheduleParts(s, i);
    var t := Apply(s, DoSchedule(i));
    NothingListed(i);
    ScheduleOut(s.k, i);
    AckedOrder(s, i.ack);
    LaunchedOrder(s0.done, s0.inflight, t.inflight, o);
  }

  /** An acknowledgement finds nothing in flight. */
  lemma AckedOrder(s: Sys, ack: bool)
    requires Inv(s) && InWriteOrder(s) && (ack ==> s.k.c.pending)
    ensures ChunkSamples(if ack then [] else s.done) + FlightOrder(s.inflight) == if ack then [] else s.k.c.samples
  {
    if ack {
      assert s.inflight == [];
      assert ChunkSamples([]) + FlightOrder([]) == [];
    }
  }

  lemma LaunchedOrder(done: seq<Chunk>, fs: seq<Flight>, gs: seq<Flight>, o: StepOut)
    requires gs == (if o.n > 0 then fs + [Flight(o, {})] else fs) && (o.n == 0 ==> o.batch == [])
    ensures ChunkSamples(done) + FlightOrder(gs) == ChunkSamples(done) + FlightOrder(fs) + ChunkSamples(o.batch)
  {
    OrderSnoc(fs, Flight(o, {}));
  }

  lemma SamePrefix(a: seq<Sample>, b: seq<Sample>, c: seq<Sample>)
    ensures a + b == a + c <==> b == c
  {
    if a + b == a + c {
      assert b == (a + b)[|a|..] == (a + c)[|a|..] == c;
    }
  }

  lemma CommitOrder(s: Sys)
    requires Inv(s) && InWriteOrder(s) && Enabled(s, DoCommit(0))
    ensures InWriteOrder(Apply(s, DoCommit(0)))
  {
    FirstToDone(s.done, s.inflight);
    CommitSamples(s.k.c, s.inflight[0].o);
  }

  lemma Associate(a: seq<Sample>, b: seq<Sample>, c: seq<Sample>)
    ensures a + (b + c) == a + b + c
  {
  }

  lemma {:induction false} FirstToDone(done: seq<Chunk>, fs: seq<Flight>)
    requires fs != []
    ensures ChunkSamples(done + fs[0].o.batch) + FlightOrder(Without(fs, 0)) == ChunkSamples(done) + FlightOrder(fs)
  {
    assert Without(fs, 0) == fs[1..];
    ChunkConcat(done, fs[0].o.batch);
    Associate(ChunkSamples(done), ChunkSamples(fs[0].o.batch), FlightOrder(fs[1..]));
  }

  lemma CommitSamples(c: Coord, o: StepOut)
    ensures c.RecordCapture(o.n, ChunkLens(o.batch)).samples == c.samples
  {
  }

  /** Rolling back the newest step takes exactly the end of the list away. */
  lemma RollbackOrder(s: Sys, wipe: bool)
    requires Inv(s) && InWriteOrder(s) && s.inflight != [] && Enabled(s, DoRollback(|s.inflight| - 1, wipe))
    ensures InWriteOrder(Apply(s, DoRollback(|s.inflight| - 1, wipe)))
  {
    var k := |s.inflight| - 1;
    var f := s.inflight[k];
    assert FlightOk(f, s.k.c.capacity);
    LastSplit(s.done, s.inflight);
    SameIds(f.o.samples, ChunkSamples(f.o.batch));
    TailDropped(ChunkSamples(s.done) + FlightOrder(Without(s.inflight, k)), ChunkSamples(f.o.batch), s.k.p.claimed);
  }

  lemma LastSplit(done: seq<Chunk>, fs: seq<Flight>)
    requires fs != []
    ensures var k := |fs| - 1;
            ChunkSamples(done) + FlightOrder(fs) == ChunkSamples(done) + FlightOrder(Without(fs, k)) + ChunkSamples(fs[k].o.batch)
  {
    var k := |fs| - 1;
    assert Without(fs, k) == fs[..k] && fs == fs[..k] + [fs[k]];
    OrderSnoc(fs[..k], fs[k]);
    Associate(ChunkSamples(done), FlightOrder(fs[..k]), ChunkSamples(fs[k].o.batch));
  }

  lemma SameIds(a: seq<Sample>, b: seq<Sample>)
    requires multiset(a) == multiset(b)
    ensures Ids(a) == Ids(b)
  {
    assert forall x :: x in a <==> x in multiset(a);
    assert forall x :: x in b <==> x in multiset(b);
  }

  lemma TailDropped(front: seq<Sample>, tail: seq<Sample>, claimed: set<Sample>)
    requires UniqueIds(claimed) && multiset(front + tail) == multiset(claimed)
    ensures DropIds(front + tail, Ids(tail)) == front
  {
    DropIdsConcat(front, tail, Ids(tail));
    DropIdsAll(tail, Ids(tail));
    assert multiset(front + tail) == multiset(front) + multiset(tail);
    forall x | x in front ensures x.requestId !in Ids(tail) {
      assert x in multiset(front) && x in multiset(claimed);
      assert multiset(front)[x] + multiset(tail)[x] <= 1;
      forall y | y in tail ensures y.requestId != x.requestId {
        assert y in multiset(tail) && y in multiset(claimed);
      }
    }
    DropIdsDisjoint(front, Ids(tail));
  }

  /** From a state in which the list is in write order, an in-order step leaves it so if and only if
      it is no schedule, or one that lists the samples in the order of its batch. */
  lemma WriteOrderExactly(s: Sys, e: Event)
    requires Inv(s) && InWriteOrder(s) && Enabled(s, e) && InOrder(s, e)
    ensures InWriteOrder(Apply(s, e)) <==> (e.DoSchedule? ==> e.i.order == ChunkSamples(e.i.batch))
  {
    match e
    case DoSchedule(i) => ScheduleOrder(s, i);
    case DoWrite(at, row) => OrderSame(s.inflight, Apply(s, e).inflight);
    case DoCommit(at) => CommitOrder(s);
    case DoRollback(at, wipe) => RollbackOrder(s, wipe);
    case DoRelayedAck => assert s.inflight == [];
    case DoStart(_) =>
    case DoDisable =>
  }

  /** Two one-token samples, listed the other way round. */
  function Reversed(a: Sample, b: Sample): ScheduleInput {
    ScheduleInput(false, Off, false, [a, b], [Chunk(a, 1), Chunk(b, 1)], [b, a])
  }

  lemma SumTwo(a: Sample, b: Sample)
    ensures SumLens([a, b]) == a.InputLen() + b.InputLen()
  {
    assert [a, b][1..] == [b] && [b][1..] == [];
    assert SumLens([b]) == b.InputLen() + SumLens([]);
  }

  lemma ReversedOk(a: Sample, b: Sample)
    requires a != b && a.InputLen() == b.InputLen() == 1
    ensures var i := Reversed(a, b);
            BatchOk(i) && SumLens(i.admitted) == 2 && Distinct(i.admitted) && Elems(i.admitted) == {a, b}
            && i.order != ChunkSamples(i.batch)
  {
    var i := Reversed(a, b);
    assert ChunkSamples(i.batch) == [a, b];
    SumTwo(a, b);
    assert multiset(i.order) == multiset{a, b} == multiset(ChunkSamples(i.batch));
    assert i.order[0] != ChunkSamples(i.batch)[0];
  }

  /** A fresh engine with two one-token samples may list them so. */
  lemma WriteOrderCanFail(s: Sys, a: Sample, b: Sample)
    requires Init(s) && s.k.p.selectable >= {a, b} && a != b && a.InputLen() == b.InputLen() == 1
    requires s.k.c.capacity >= 2 && s.k.c.perStepBudget >= 2 && s.k.c.started
    ensures var e := DoSchedule(Reversed(a, b)); Enabled(s, e) && InWriteOrder(s) && !InWriteOrder(Apply(s, e))
  {
    ReversedOk(a, b);
    InitInv(s);
    assert Prologue(s.k, false, Off) == s.k;
    assert ChunkSamples([]) + FlightOrder([]) == [];
    WriteOrderExactly(s, DoSchedule(Reversed(a, b)));
  }
}
