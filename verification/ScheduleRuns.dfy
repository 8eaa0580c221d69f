/** The engine's schedule call with its pre-emption: every call is a run of the lifecycle protocol. */
module ScheduleRuns {
  import opened Samples
  import opened Coordinator
  import opened FinetuningStore
  import opened StepSpec
  import opened Scheduler
  import L = Lifecycle
  import Guarantees

  /** Steps in flight after a schedule. */
  function Launched(fs: seq<L.Flight>, o: StepOut): seq<L.Flight> {
    if o.n > 0 then fs + [L.Flight(o, {})] else fs
  }

  /** One `ScheduleStep` as events of the protocol. */
  lemma StepRun(s: L.Sys, k: Core, i: ScheduleInput, after: Core, o: StepOut) returns (es: seq<L.Event>, t: L.Sys)
    requires L.Inv(s) && (k == s.k || (s.k.c.pending && k == DisabledCore(s.k)))
    requires ScheduleOk(k, i) && Schedule(k, i) == (after, o)
    ensures L.Run(s, es, t) && L.Inv(t) && t.k == after && t.inflight == Launched(s.inflight, o) && t.buf == s.buf
    ensures o.n > 0 <==> o.samples != []
    ensures o.trigger.Some? ==> o.n == 0
  {
    var s1 := s;
    var first: seq<L.Event> := [];
    if k != s.k {
      first := [L.DoDisable];
      L.OneEvent(s, L.DoDisable);
      s1 := L.Apply(s, L.DoDisable);
      L.StepKeepsInv(s, L.DoDisable);
    }
    t := L.Apply(s1, L.DoSchedule(i));
    L.OneEvent(s1, L.DoSchedule(i));
    L.StepKeepsInv(s1, L.DoSchedule(i));
    es := first + [L.DoSchedule(i)];
    L.RunAppend(s, first, s1, [L.DoSchedule(i)], t);
    Guarantees.TriggerRidesAlone(s1, i);
    L.BatchWithinAdmitted(i.batch, i.admitted);
    assert |multiset(i.order)| == |multiset(ChunkSamples(i.batch))|;
  }

  /** The undoing of the step just scheduled as an event of the protocol. */
  lemma UndoRun(s: L.Sys, es: seq<L.Event>, t: L.Sys, o: StepOut) returns (es2: seq<L.Event>, u: L.Sys)
    requires L.Run(s, es, t) && L.Inv(t) && t.inflight == Launched(s.inflight, o) && t.buf == s.buf && o.n > 0
    ensures L.Run(s, es2, u) && L.Inv(u) && u.k == Rollback(t.k, o) && u.inflight == s.inflight && u.buf == s.buf
  {
    var e := L.DoRollback(|t.inflight| - 1, false);
    Guarantees.RollbackNewest(t, s.inflight, o);
    L.OneEvent(t, e);
    L.StepKeepsInv(t, e);
    u := L.Apply(t, e);
    es2 := es + [e];
    L.RunAppend(s, es, t, [e], u);
  }

  /** The schedule call. `arrived` says whether an inference request landed after the step was
      built: then an FT-only step is undone and the step is built once more, now with the
      arrival, and no other step is ever undone. Whatever happens, the call is a run of the protocol that adds exactly the returned
      step to those in flight, and an undone step carried no trigger. */
  method ScheduleCall(f: FinetuneScheduler, interruptible: bool, arrived: bool, first: StepArgs, second: StepArgs,
                      base1: seq<Sample> -> BaseResult, base2: seq<Sample> -> BaseResult, ghost s: L.Sys)
    returns (out: SchedulerOutput, ghost es: seq<L.Event>, ghost t: L.Sys, ghost undone: Option<StepOut>,
             ghost built: BaseResult)
    requires f.Valid() && L.Inv(s) && s.k == f.State()
    requires (forall a :: BaseOk(a, base1(a))) && (forall a :: BaseOk(a, base2(a)))
    modifies f, f.coord, f.store
    ensures f.Valid() && L.Run(s, es, t) && L.Inv(t) && t.k == f.State()
    ensures t.inflight == Launched(s.inflight, out.Data()) && t.buf == s.buf
    ensures exists a :: built == base1(a)
    ensures undone.Some? <==>
              interruptible && arrived && built.order != [] && built.total > 0 && |Ids(built.order)| == built.requests
    ensures undone.Some? ==> undone.value.trigger.None? && undone.value.samples == built.order
  {
    out, es, t, built := StepAndRun(f, first, base1, s);
    undone := None;
    NamedSamples(out.samples);
    if interruptible && out.IsFtOnly() && arrived {
      undone := Some(out.Data());
      ghost var o := out.Data();
      var _ := f.RollbackFtStep(out);
      ghost var es1, u := UndoRun(s, es, t, o);
      ghost var again;
      out, es, t, again := StepAndRun(f, second, base2, u);
      L.RunAppend(s, es1, u, es, t);
      es := es1 + es;
    }
  }

  method StepAndRun(f: FinetuneScheduler, args: StepArgs, base: seq<Sample> -> BaseResult, ghost s: L.Sys)
    returns (out: SchedulerOutput, ghost es: seq<L.Event>, ghost t: L.Sys, ghost r: BaseResult)
    requires f.Valid() && L.Inv(s) && s.k == f.State() && forall a :: BaseOk(a, base(a))
    modifies f, f.coord, f.store
    ensures fresh(out) && f.Valid() && L.Run(s, es, t) && L.Inv(t) && t.k == f.State()
    ensures t.inflight == Launched(s.inflight, out.Data()) && t.buf == s.buf
    ensures out.Describes(r) && r.order == out.samples && exists a :: r == base(a)
    ensures out.ftIds == Ids(out.samples) && (out.n > 0 <==> out.samples != []) && (out.trigger.Some? ==> out.n == 0)
  {
    ghost var k, i;
    out, k, i := f.ScheduleStep(args, base);
    es, t := StepRun(s, k, i, f.State(), out.Data());
    r := base(i.admitted);
  }

  lemma NamedSamples(ss: seq<Sample>)
    ensures Ids(ss) != {} <==> ss != []
  {
    if ss != [] {
      assert ss[0].requestId in Ids(ss);
    }
  }

  // ---------------------------------------------------------------- an update

  /** What the worker relays is so: an answer belongs to a pending backward whose trigger has left,
      and saved rows are all the rows of the step at `from`. */
  ghost predicate TrueRelay(s: L.Sys, done: bool, saved: Option<(nat, seq<nat>)>, from: nat) {
    && (done ==> L.Enabled(s, L.DoRelayedAck))
    && (saved.Some? ==> L.Enabled(s, L.DoCommit(from)) && saved.value == (s.inflight[from].o.n, ChunkLens(s.inflight[from].o.batch)))
  }

  lemma RelayRun(s: L.Sys, started: Option<bool>, done: bool, saved: Option<(nat, seq<nat>)>, from: nat)
    returns (es: seq<L.Event>, t: L.Sys)
    requires L.Inv(s) && s.k.c.relay && TrueRelay(s, done, saved, from)
    ensures L.Run(s, es, t) && L.Inv(t) && t.k == Relayed(s.k, started, done, saved)
    ensures t.inflight == if saved.Some? then L.Without(s.inflight, from) else s.inflight
  {
    es, t := [], s;
    if started.Some? {
      t, es := OneMore(s, es, t, L.DoStart(started.value));
    }
    if done {
      t, es := OneMore(s, es, t, L.DoRelayedAck);
    }
    if saved.Some? {
      t, es := OneMore(s, es, t, L.DoCommit(from));
    }
  }

  lemma OneMore(s: L.Sys, es: seq<L.Event>, t: L.Sys, e: L.Event) returns (u: L.Sys, more: seq<L.Event>)
    requires L.Run(s, es, t) && L.Inv(t) && L.Enabled(t, e)
    ensures u == L.Apply(t, e) && L.Run(s, more, u) && L.Inv(u)
  {
    u, more := L.Apply(t, e), es + [e];
    L.OneEvent(t, e);
    L.StepKeepsInv(t, e);
    L.RunAppend(s, es, t, [e], u);
  }

  /** The output of an executed step. `at` is its place among the steps in flight if its forward was
      abandoned, `from` that of the step whose rows the worker reports. The update is a run of the
      protocol: the rollback, then what was relayed. */
  method UpdateCall(f: FinetuneScheduler, out: SchedulerOutput, aborted: bool, started: Option<bool>, done: bool,
                    saved: Option<(nat, seq<nat>)>, now: real, ghost s: L.Sys, ghost at: nat, ghost from: nat)
    returns (ghost es: seq<L.Event>, ghost t: L.Sys)
    requires f.Valid() && L.Inv(s) && s.k == f.State()
    requires aborted && out.ftIds != {} ==> at < |s.inflight| && s.inflight[at].o == out.Data()
    requires f.coord.relay ==>
               TrueRelay(if aborted && out.ftIds != {} then L.Apply(s, L.DoRollback(at, true)) else s, done, saved, from)
    modifies f`retired, f.coord, f.store, out`ftIds, out`samples, out`n
    ensures f.Valid() && L.Run(s, es, t) && L.Inv(t) && t.k == f.State()
    ensures f.retired == old(f.retired) + old(out.ftIds)
  {
    ghost var s1 := s;
    es := [];
    if aborted && out.ftIds != {} {
      s1, es := OneMore(s, es, s, L.DoRollback(at, true));
    }
    if f.coord.relay {
      ghost var more;
      more, t := RelayRun(s1, started, done, saved, from);
      L.RunAppend(s, es, s1, more, t);
      es := es + more;
    } else {
      t := s1;
    }
    f.UpdateFromOutput(out, aborted, started, done, saved, now);
  }
}
