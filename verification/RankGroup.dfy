/** Tensor-parallel ranks and their scheduler. Every rank executes the scheduler's outputs at its own
    pace. On one and the same CPU group the ranks vote with MAX on abandoning an FT-only forward, and
    with MIN on whether every rank's backward is done. They read the arrival counter and poll their
    children at moments of their own; proved is that they still issue one and the same sequence of
    collectives, and what follows from it. */
module RankGroup {
  import opened Samples
  import opened AbortVote
  import opened AckRelay

  /** What an output asks of the ranks: nothing, inference work, or an interruptible FT-only forward
      with so many layer boundaries. */
  datatype Kind = Nothing | Serve | FtOnly(boundaries: nat)

  /** One scheduler output: the trigger it carries, its kind, and whether the engine samples after
      it even if its forward is abandoned. Without that an abandoned step fills no relay fields. */
  datatype Out = Out(trigger: Option<nat>, kind: Kind, sampled: bool)

  /** A collective on the group: the vote of output `out` at its entry (stage 0) or at its k-th layer
      boundary, or its vote on the backward's answer. */
  datatype Join = Abort(out: nat, stage: nat) | Ack(out: nat)

  /** How a rank left an FT-only forward. */
  datatype Exit = Exit(out: nat, stage: nat, aborted: bool)

  /** Where a rank is within output `pos`. */
  datatype Phase = Between | Computing(stage: nat) | AtAbort(stage: nat) | Leaving(aborted: bool) | Settling | AtAck

  /** The control state of a rank. `record` are the collectives it has joined, `left` how it left
      each FT-only forward, `fired` and `handed` count triggers executed and answers handed over. */
  datatype Control = Control(steps: nat, pos: nat, phase: Phase, fired: nat, handed: nat,
                             record: seq<Join>, left: seq<Exit>)
  {
    predicate Blocked() {
      phase.AtAbort? || phase.AtAck?
    }

    function Begin(o: Out): Control {
      this.(steps := steps + 1, fired := fired + if o.trigger.Some? then 1 else 0,
            phase := if o.kind.FtOnly? then Computing(0) else Settling)
    }

    function JoinAbort(stage: nat): Control {
      this.(steps := steps + 1, phase := AtAbort(stage), record := record + [Abort(pos, stage)])
    }

    function AfterAbort(o: Out, stage: nat, abort: bool): Control {
      if abort || (o.kind.FtOnly? && stage >= o.kind.boundaries)
      then this.(steps := steps + 1, phase := Leaving(abort), left := left + [Exit(pos, stage, abort)])
      else this.(steps := steps + 1, phase := Computing(stage + 1))
    }

    function Leave(o: Out, aborted: bool): Control {
      if aborted && !o.sampled then Past() else this.(steps := steps + 1, phase := Settling)
    }

    function Past(): Control {
      this.(steps := steps + 1, pos := pos + 1, phase := Between)
    }

    function JoinAck(): Control {
      this.(steps := steps + 1, phase := AtAck, record := record + [Ack(pos)])
    }

    function AfterAck(all: bool): Control {
      this.Past().(handed := handed + if all then 1 else 0)
    }
  }

  /** Backwards are numbered 1, 2, ... by the trigger that started them. */
  datatype Child = Free | Busy(k: nat) | Answered(k: nat) {
    function Poll(): Option<nat> {
      if Answered? then Some(k) else None
    }
  }

  /** `cur` and `flag` are the counter value read for, and the flag brought to, the vote at hand. */
  datatype Rank = Rank(c: Control, p: Poller, relay: Relay, child: Child, cur: nat, flag: bool)

  /** `votes` are the results of the completed collectives. `results[i]` is what output `i` brought
      back to the scheduler from rank 0; `taken` of them are applied. `first` is the counter's
      initial value. */
  datatype Net = Net(counter: nat, first: nat, pending: bool, cmd: Option<nat>, cycle: nat, acks: seq<nat>,
                     outs: seq<Out>, ranks: seq<Rank>, votes: seq<bool>, results: seq<Option<nat>>, taken: nat)

  datatype Event = Bump | Trigger | Emit(kind: Kind, sampled: bool) | Step(r: nat) | ChildDone(r: nat) | Reduce | ApplyResult

  // ---------------------------------------------------------------- the machine

  predicate CanStep(q: Rank, outs: seq<Out>) {
    q.c.pos < |outs| && !q.c.Blocked()
  }

  ghost predicate Enabled(n: Net, e: Event) {
    match e
    case Bump => true
    case Trigger => !n.pending
    case Emit(_, _) => true
    case Step(r) => r < |n.ranks| && CanStep(n.ranks[r], n.outs)
    case ChildDone(r) => r < |n.ranks| && n.ranks[r].child.Busy?
    case Reduce => n.ranks != [] && forall i | 0 <= i < |n.ranks| :: n.ranks[i].c.Blocked()
    case ApplyResult => n.taken < |n.results|
  }

  /** A rank takes up an output: it executes the trigger, and for an inference batch notes that what
      has arrived is being served. */
  function TakeUp(q: Rank, o: Out, counter: nat): Rank {
    var q1 := if o.trigger.Some? then q.(relay := q.relay.ExecuteTrigger(), child := Busy(o.trigger.value)) else q;
    q1.(c := q.c.Begin(o), p := if o.kind.Serve? then q.p.NoteServed(counter) else q.p)
  }

  /** A rank comes to an abort vote with what it observes there. */
  function Arrive(q: Rank, stage: nat, counter: nat): Rank {
    q.(c := q.c.JoinAbort(stage), cur := counter,
       flag := if stage == 0 then q.p.EntryFlag(counter) else q.p.LayerFlag(counter))
  }

  /** Filling the relay fields: a rank with a backward outstanding polls its child and comes to the
      vote, any other is done with the output. */
  function Settle(q: Rank): Rank {
    if q.relay.Outstanding() then
      var relay := q.relay.PollOwn(q.child.Poll());
      q.(c := q.c.JoinAck(), relay := relay, flag := relay.ack.Some?,
         child := if q.relay.pending && relay.ack.Some? then Free else q.child)
    else q.(c := q.c.Past())
  }

  function Local(q: Rank, outs: seq<Out>, counter: nat): Rank
    requires CanStep(q, outs)
  {
    var o := outs[q.c.pos];
    match q.c.phase
    case Between => TakeUp(q, o, counter)
    case Computing(stage) => Arrive(q, stage, counter)
    case Leaving(aborted) => q.(c := q.c.Leave(o, aborted), p := q.p.Finish(counter))
    case Settling => Settle(q)
    case _ => q
  }

  /** What the group returns: MAX for an abort vote, MIN for a vote on the answer. */
  predicate Reduced(ranks: seq<Rank>)
    requires ranks != []
  {
    if ranks[0].c.phase.AtAbort? then exists i | 0 <= i < |ranks| :: ranks[i].flag
    else forall i | 0 <= i < |ranks| :: ranks[i].flag
  }

  function AfterVote(q: Rank, o: Out, result: bool): Rank {
    match q.c.phase
    case AtAbort(stage) =>
      q.(c := q.c.AfterAbort(o, stage, result), p := if stage == 0 then q.p.AfterEntry(q.cur, result) else q.p.AfterLayer())
    case AtAck =>
      q.(c := q.c.AfterAck(result), relay := if result then q.relay.TakeAck() else q.relay)
    case _ => q
  }

  function OutAt(outs: seq<Out>, pos: nat): Out {
    if pos < |outs| then outs[pos] else Out(None, Nothing, true)
  }

  /** Rank 0's step from `q` to `q'` may complete an output, with the answer it hands over. */
  function Brought(results: seq<Option<nat>>, q: Rank, q': Rank): seq<Option<nat>> {
    if q'.c.pos == q.c.pos then results
    else results + [if q.c.phase.AtAck? && q'.relay.ack.None? then q.relay.ack else None]
  }

  ghost function Apply(n: Net, e: Event): Net
    requires Enabled(n, e)
  {
    match e
    case Bump => n.(counter := n.counter + 1)
    case Trigger => n.(pending := true, cmd := Some(n.cycle + 1), cycle := n.cycle + 1)
    case Emit(kind, sampled) => n.(outs := n.outs + [Out(n.cmd, kind, sampled)], cmd := None)
    case Step(r) =>
      var q := Local(n.ranks[r], n.outs, n.counter);
      n.(ranks := n.ranks[r := q], results := if r == 0 then Brought(n.results, n.ranks[0], q) else n.results)
    case ChildDone(r) => n.(ranks := n.ranks[r := n.ranks[r].(child := Answered(n.ranks[r].child.k))])
    case Reduce =>
      var result := Reduced(n.ranks);
      var after := Voted(n, result);
      n.(ranks := after, votes := n.votes + [result], results := Brought(n.results, n.ranks[0], after[0]))
    case ApplyResult =>
      var r := n.results[n.taken];
      n.(taken := n.taken + 1,
         pending := if r.Some? then false else n.pending,
         acks := if r.Some? then n.acks + [r.value] else n.acks)
  }

  function Voted(n: Net, result: bool): (after: seq<Rank>)
    ensures |after| == |n.ranks|
    ensures forall i | 0 <= i < |after| :: after[i] == AfterVote(n.ranks[i], OutAt(n.outs, n.ranks[i].c.pos), result)
  {
    seq(|n.ranks|, i requires 0 <= i < |n.ranks| => AfterVote(n.ranks[i], OutAt(n.outs, n.ranks[i].c.pos), result))
  }

  const START := Control(0, 0, Between, 0, 0, [], [])

  ghost predicate Init(n: Net) {
    && n.counter == n.first && !n.pending && n.cmd.None? && n.cycle == 0 && n.acks == []
    && n.outs == [] && n.votes == [] && n.results == [] && n.taken == 0 && n.ranks != []
    && forall i | 0 <= i < |n.ranks| ::
         n.ranks[i] == Rank(START, Poller(n.first, n.first, 0, 0, false), Relay(false, None), Free, 0, false)
  }

  ghost predicate Run(n: Net, es: seq<Event>, m: Net)
    decreases |es|
  {
    if es == [] then n == m else Enabled(n, es[0]) && Run(Apply(n, es[0]), es[1..], m)
  }

  // ---------------------------------------------------------------- replay

  /** The next control state of a rank, from the outputs and the results of the votes alone. */
  function Next(c: Control, outs: seq<Out>, votes: seq<bool>): Option<Control> {
    if c.pos >= |outs| then None
    else
      var o := outs[c.pos];
      match c.phase
      case Between => Some(c.Begin(o))
      case Computing(stage) => Some(c.JoinAbort(stage))
      case AtAbort(stage) => if 0 < |c.record| <= |votes| then Some(c.AfterAbort(o, stage, votes[|c.record| - 1])) else None
      case Leaving(aborted) => Some(c.Leave(o, aborted))
      case Settling => Some(if c.fired > c.handed then c.JoinAck() else c.Past())
      case AtAck => if 0 < |c.record| <= |votes| then Some(c.AfterAck(votes[|c.record| - 1])) else None
  }

  /** The control state after `m` steps. */
  function Replay(outs: seq<Out>, votes: seq<bool>, m: nat): (r: Option<Control>)
    ensures r.Some? ==> r.value.steps == m
  {
    if m == 0 then Some(START)
    else
      var before := Replay(outs, votes, m - 1);
      if before.None? then None else Next(before.value, outs, votes)
  }

  lemma {:induction false} ReplayGrows(outs: seq<Out>, votes: seq<bool>, outs': seq<Out>, votes': seq<bool>, m: nat)
    requires outs <= outs' && votes <= votes' && Replay(outs, votes, m).Some?
    ensures Replay(outs', votes', m) == Replay(outs, votes, m)
  {
    if m > 0 {
      ReplayGrows(outs, votes, outs', votes', m - 1);
    }
  }

  /** Along a replay records only grow, and nothing more is joined or left in an output behind. */
  lemma {:induction false} ReplayExtends(outs: seq<Out>, votes: seq<bool>, a: nat, b: nat)
    requires a <= b && Replay(outs, votes, b).Some?
    ensures Replay(outs, votes, a).Some?
    ensures var c, d := Replay(outs, votes, a).value, Replay(outs, votes, b).value;
            && c.record <= d.record && c.left <= d.left && c.pos <= d.pos
            && c.handed <= d.handed && c.fired <= d.fired
    decreases b
  {
    if a < b {
      ReplayExtends(outs, votes, a, b - 1);
    }
  }

  /** Every exit is from an FT-only forward, at its entry or one of its boundaries, and where it was
      not abandoned at the last one. */
  ghost predicate ExitsOk(left: seq<Exit>, outs: seq<Out>) {
    forall i | 0 <= i < |left| ::
      && left[i].out < |outs| && outs[left[i].out].kind.FtOnly?
      && left[i].stage <= outs[left[i].out].kind.boundaries
      && (!left[i].aborted ==> left[i].stage == outs[left[i].out].kind.boundaries)
  }

  ghost predicate InForward(c: Control, outs: seq<Out>) {
    match c.phase
    case Computing(k) => c.pos < |outs| && outs[c.pos].kind.FtOnly? && k <= outs[c.pos].kind.boundaries
    case AtAbort(k) => c.pos < |outs| && outs[c.pos].kind.FtOnly? && k <= outs[c.pos].kind.boundaries
    case _ => true
  }

  lemma {:induction false} ReplayExits(outs: seq<Out>, votes: seq<bool>, m: nat)
    requires Replay(outs, votes, m).Some?
    ensures ExitsOk(Replay(outs, votes, m).value.left, outs) && InForward(Replay(outs, votes, m).value, outs)
  {
    if m > 0 {
      ReplayExits(outs, votes, m - 1);
    }
  }

  // ---------------------------------------------------------------- counting

  function Aborted(left: seq<Exit>): nat {
    if left == [] then 0 else Aborted(left[..|left| - 1]) + if left[|left| - 1].aborted then 1 else 0
  }

  lemma AbortedSnoc(left: seq<Exit>, x: Exit)
    ensures Aborted(left + [x]) == Aborted(left) + if x.aborted then 1 else 0
  {
    assert (left + [x])[..|left|] == left;
  }

  /** How many of the first `i` outputs carry a trigger. */
  function Triggers(outs: seq<Out>, i: nat): nat
    requires i <= |outs|
  {
    if i == 0 then 0 else Triggers(outs, i - 1) + if outs[i - 1].trigger.Some? then 1 else 0
  }

  lemma {:induction false} TriggersAppend(outs: seq<Out>, o: Out, i: nat)
    requires i <= |outs|
    ensures Triggers(outs + [o], i) == Triggers(outs, i)
  {
    if i > 0 {
      TriggersAppend(outs, o, i - 1);
    }
  }

  lemma {:induction false} TriggersGrow(outs: seq<Out>, i: nat, j: nat)
    requires i <= j <= |outs|
    ensures Triggers(outs, i) <= Triggers(outs, j)
    decreases j
  {
    if i < j {
      TriggersGrow(outs, i, j - 1);
    }
  }

  function Answers(results: seq<Option<nat>>): seq<nat> {
    if results == [] then []
    else Answers(results[..|results| - 1]) + match results[|results| - 1] case Some(k) => [k] case None => []
  }

  lemma AnswersSnoc(results: seq<Option<nat>>, r: Option<nat>)
    ensures Answers(results + [r]) == Answers(results) + match r case Some(k) => [k] case None => []
  {
    assert (results + [r])[..|results|] == results;
  }

  lemma {:induction false} AnswersPrefix(results: seq<Option<nat>>, i: nat)
    requires i <= |results|
    ensures Answers(results[..i]) <= Answers(results)
    decreases |results|
  {
    if i < |results| {
      var init := results[..|results| - 1];
      assert init[..i] == results[..i];
      AnswersPrefix(init, i);
    } else {
      assert results[..i] == results;
    }
  }

  /** 1, 2, ..., n. */
  function UpTo(n: nat): (r: seq<nat>)
    ensures |r| == n
  {
    seq(n, i => i + 1)
  }

  // ---------------------------------------------------------------- the invariant

  /** How far a rank has come: past output `pos`, or inside it. */
  function Reach(c: Control): nat {
    if c.phase.Between? then c.pos else c.pos + 1
  }

  /** The rank's control state is a replay, and it is blocked in the vote after the completed ones
      or has joined exactly those. */
  ghost predicate OnTrack(c: Control, outs: seq<Out>, votes: seq<bool>) {
    && Replay(outs, votes, c.steps) == Some(c)
    && |c.record| == |votes| + (if c.Blocked() then 1 else 0)
    && Reach(c) <= |outs|
  }

  /** Arrivals already answered by an abort are behind what the rank has accounted for, or will
      account for when it leaves the forward; a raised flag means an arrival beyond that. */
  ghost predicate Accounted(q: Rank, first: nat, counter: nat) {
    var base := first + Aborted(q.c.left);
    && q.p.seen <= counter
    && (if q.c.phase.Leaving? then counter >= base else q.p.seen >= base)
    && (q.c.phase.Computing? && q.c.phase.stage > 0 ==> q.p.seen <= q.p.entry <= counter)
    && (q.c.phase.AtAbort? ==> q.cur <= counter && (q.flag ==> q.cur > q.p.seen))
    && (q.c.phase.AtAbort? ==> if q.c.phase.stage > 0 then q.p.seen <= q.p.entry <= counter else q.p.seen <= q.cur)
  }

  /** The poller votes at layer boundaries only while its forward runs. */
  ghost predicate Armed(q: Rank) {
    match q.c.phase
    case Computing(k) => q.p.active <==> k > 0
    case AtAbort(k) => q.p.active <==> k > 0
    case Leaving(_) => true
    case _ => !q.p.active
  }

  /** The rank's own backward: outstanding exactly between its trigger and the hand-over. */
  ghost predicate Relayed(q: Rank, outs: seq<Out>)
    requires Reach(q.c) <= |outs|
  {
    && q.c.handed <= q.c.fired <= q.c.handed + 1
    && q.c.fired == Triggers(outs, Reach(q.c))
    && (q.relay.Outstanding() <==> q.c.fired == q.c.handed + 1)
    && !(q.relay.pending && q.relay.ack.Some?)
    && (q.relay.ack.Some? ==> q.relay.ack.value == q.c.fired)
    && (if q.relay.pending then q.child == Busy(q.c.fired) || q.child == Answered(q.c.fired) else q.child.Free?)
    && (q.c.phase.AtAck? ==> q.relay.Outstanding() && q.flag == q.relay.ack.Some?)
  }

  ghost predicate RankInv(q: Rank, n: Net) {
    && OnTrack(q.c, n.outs, n.votes)
    && Accounted(q, n.first, n.counter)
    && Armed(q)
    && Relayed(q, n.outs)
  }

  ghost predicate SchedInv(n: Net)
    requires n.ranks != []
  {
    var h := n.ranks[0].c.handed;
    && Triggers(n.outs, |n.outs|) + (if n.cmd.Some? then 1 else 0) == n.cycle
    && n.cycle <= |n.acks| + 1 && (n.pending <==> n.cycle == |n.acks| + 1)
    && (n.cmd.Some? ==> n.pending && n.cmd.value == n.cycle)
    && (forall i | 0 <= i < |n.outs| :: n.outs[i].trigger.Some? ==> n.outs[i].trigger.value == Triggers(n.outs, i + 1))
    && |n.results| == n.ranks[0].c.pos && n.taken <= |n.results|
    && Answers(n.results) == UpTo(h)
    && n.acks == Answers(n.results[..n.taken])
    && |n.acks| <= h <= n.cycle
  }

  ghost predicate Inv(n: Net) {
    && n.ranks != []
    && (forall i | 0 <= i < |n.ranks| :: RankInv(n.ranks[i], n))
    && (forall i | 0 <= i < |n.ranks| :: n.ranks[i].c.handed == n.ranks[0].c.handed)
    && SchedInv(n)
  }

  /** At most the last trigger is unanswered on any rank. */
  lemma FewTriggers(n: Net)
    requires Inv(n)
    ensures Triggers(n.outs, |n.outs|) <= n.ranks[0].c.handed + 1
  {
  }

  lemma InitInv(n: Net)
    requires Init(n)
    ensures Inv(n)
  {
    forall i | 0 <= i < |n.ranks| ensures RankInv(n.ranks[i], n) {
      assert n.ranks[i].c == START;
    }
    assert Answers(n.results) == UpTo(0);
  }

  // ---------------------------------------------------------------- steps of the scheduler

  /** More outputs, votes or arrivals leave a rank where it is. */
  lemma RankKeeps(q: Rank, n: Net, m: Net)
    requires RankInv(q, n) && n.outs <= m.outs && n.votes == m.votes && n.first == m.first && n.counter <= m.counter
    requires Triggers(m.outs, Reach(q.c)) == Triggers(n.outs, Reach(q.c))
    ensures RankInv(q, m)
  {
    ReplayGrows(n.outs, n.votes, m.outs, m.votes, q.c.steps);
  }

  lemma EmitStep(n: Net, kind: Kind, sampled: bool)
    requires Inv(n)
    ensures Inv(Apply(n, Emit(kind, sampled)))
  {
    var m := Apply(n, Emit(kind, sampled));
    var o := Out(n.cmd, kind, sampled);
    forall i | 0 <= i < |n.ranks| ensures RankInv(m.ranks[i], m) {
      var q := n.ranks[i];
      assert RankInv(q, n);
      TriggersAppend(n.outs, o, Reach(q.c));
      RankKeeps(q, n, m);
    }
    EmitSched(n.outs, o, n.cycle);
  }

  lemma EmitSched(outs: seq<Out>, o: Out, cycle: nat)
    requires forall i | 0 <= i < |outs| :: outs[i].trigger.Some? ==> outs[i].trigger.value == Triggers(outs, i + 1)
    requires o.trigger.Some? ==> o.trigger.value == cycle == Triggers(outs, |outs|) + 1
    ensures var all := outs + [o];
            && Triggers(all, |all|) == Triggers(outs, |outs|) + (if o.trigger.Some? then 1 else 0)
            && forall i | 0 <= i < |all| :: all[i].trigger.Some? ==> all[i].trigger.value == Triggers(all, i + 1)
  {
    TriggersAppend(outs, o, |outs|);
    var all := outs + [o];
    forall i | 0 <= i < |outs| ensures all[i].trigger.Some? ==> all[i].trigger.value == Triggers(all, i + 1) {
      TriggersAppend(outs, o, i + 1);
    }
  }

  lemma ApplyStep(n: Net)
    requires Inv(n) && Enabled(n, ApplyResult)
    ensures Inv(Apply(n, ApplyResult))
  {
    var m := Apply(n, ApplyResult);
    var r := n.results[n.taken];
    assert n.results[..n.taken + 1] == n.results[..n.taken] + [r];
    AnswersSnoc(n.results[..n.taken], r);
    AnswersPrefix(n.results, n.taken + 1);
    assert RankInv(n.ranks[0], n);
    TriggersGrow(n.outs, Reach(n.ranks[0].c), |n.outs|);
    forall i | 0 <= i < |m.ranks| ensures RankInv(m.ranks[i], m) {
      assert RankInv(n.ranks[i], n);
    }
  }

  // ---------------------------------------------------------------- local steps

  /** A rank that runs by its own data follows the replay. */
  lemma LocalFollows(q: Rank, outs: seq<Out>, votes: seq<bool>, counter: nat)
    requires OnTrack(q.c, outs, votes) && Relayed(q, outs) && CanStep(q, outs)
    ensures OnTrack(Local(q, outs, counter).c, outs, votes)
  {
    assert Next(q.c, outs, votes) == Some(Local(q, outs, counter).c);
  }

  lemma LocalAccounted(q: Rank, outs: seq<Out>, first: nat, counter: nat)
    requires Accounted(q, first, counter) && Armed(q) && CanStep(q, outs)
    ensures Accounted(Local(q, outs, counter), first, counter) && Armed(Local(q, outs, counter))
  {
  }

  lemma LocalRelayed(q: Rank, outs: seq<Out>, counter: nat)
    requires Reach(q.c) <= |outs| && Relayed(q, outs) && CanStep(q, outs)
    requires Triggers(outs, |outs|) <= q.c.handed + 1
    requires outs[q.c.pos].trigger.Some? ==> outs[q.c.pos].trigger.value == Triggers(outs, q.c.pos + 1)
    ensures Reach(Local(q, outs, counter).c) <= |outs| && Relayed(Local(q, outs, counter), outs)
    ensures Local(q, outs, counter).c.handed == q.c.handed
  {
    TriggersGrow(outs, q.c.pos + 1, |outs|);
  }

  lemma LocalStep(n: Net, r: nat)
    requires Inv(n) && Enabled(n, Step(r))
    ensures Inv(Apply(n, Step(r)))
  {
    var m := Apply(n, Step(r));
    var q := n.ranks[r];
    assert RankInv(q, n);
    LocalFollows(q, n.outs, n.votes, n.counter);
    LocalAccounted(q, n.outs, n.first, n.counter);
    LocalRelayed(q, n.outs, n.counter);
    forall i | 0 <= i < |m.ranks| ensures RankInv(m.ranks[i], m) {
      assert RankInv(n.ranks[i], n);
    }
    LocalBrings(n, r);
  }

  /** Outside a vote an output that rank 0 completes brings no answer. */
  lemma LocalBrings(n: Net, r: nat)
    requires Inv(n) && Enabled(n, Step(r))
    ensures SchedInv(Apply(n, Step(r)))
  {
    if r == 0 {
      LocalPos(n.ranks[0], n.outs, n.counter, n.results);
      ResultAdded(n.results, n.taken, n.ranks[0].c.handed, None);
    }
  }

  lemma LocalPos(q: Rank, outs: seq<Out>, counter: nat, results: seq<Option<nat>>)
    requires CanStep(q, outs)
    ensures var d := Local(q, outs, counter);
            && d.c.handed == q.c.handed
            && Brought(results, q, d) == (if d.c.pos == q.c.pos then results else results + [None])
            && (d.c.pos == q.c.pos || d.c.pos == q.c.pos + 1)
  {
  }

  lemma {:induction false} ResultAdded(results: seq<Option<nat>>, taken: nat, h: nat, r: Option<nat>)
    requires taken <= |results| && Answers(results) == UpTo(h) && (r.Some? ==> r.value == h + 1)
    ensures (results + [r])[..taken] == results[..taken]
    ensures Answers(results + [r]) == UpTo(if r.Some? then h + 1 else h)
  {
    AnswersSnoc(results, r);
    UpToSnoc(h);
  }

  lemma UpToSnoc(h: nat)
    ensures UpTo(h) + [h + 1] == UpTo(h + 1) && UpTo(h) + [] == UpTo(h)
  {
  }

  // ---------------------------------------------------------------- votes

  /** Two blocked ranks are in the same control state, hence at the same collective. */
  lemma BlockedTogether(a: Control, b: Control, outs: seq<Out>, votes: seq<bool>)
    requires OnTrack(a, outs, votes) && OnTrack(b, outs, votes) && a.Blocked() && b.Blocked()
    ensures a == b
  {
    if a.steps < b.steps {
      BlockedIsLast(a, b, outs, votes);
    } else if b.steps < a.steps {
      BlockedIsLast(b, a, outs, votes);
    }
  }

  lemma BlockedIsLast(a: Control, b: Control, outs: seq<Out>, votes: seq<bool>)
    requires OnTrack(a, outs, votes) && OnTrack(b, outs, votes) && a.Blocked()
    ensures b.steps <= a.steps
  {
    assert Next(a, outs, votes).None?;
    if a.steps < b.steps {
      ReplayExtends(outs, votes, a.steps + 1, b.steps);
    }
  }

  lemma VoteFollows(c: Control, outs: seq<Out>, votes: seq<bool>, result: bool, d: Control)
    requires OnTrack(c, outs, votes) && c.Blocked()
    requires d == match c.phase case AtAbort(k) => c.AfterAbort(OutAt(outs, c.pos), k, result) case _ => c.AfterAck(result)
    ensures OnTrack(d, outs, votes + [result])
  {
    ReplayGrows(outs, votes, outs, votes + [result], c.steps);
    assert Next(c, outs, votes + [result]) == Some(d);
  }

  lemma VoteAccounted(q: Rank, o: Out, first: nat, counter: nat, result: bool)
    requires Accounted(q, first, counter) && Armed(q) && q.c.Blocked()
    requires q.c.phase.AtAbort? && result ==> counter > first + Aborted(q.c.left)
    requires q.c.phase.AtAbort? && q.flag ==> result
    ensures Accounted(AfterVote(q, o, result), first, counter) && Armed(AfterVote(q, o, result))
  {
    if q.c.phase.AtAbort? {
      AbortedSnoc(q.c.left, Exit(q.c.pos, q.c.phase.stage, result));
    }
  }

  lemma VoteRelayed(q: Rank, outs: seq<Out>, result: bool)
    requires Reach(q.c) <= |outs| && Relayed(q, outs) && q.c.Blocked() && (q.c.phase.AtAck? && result ==> q.flag)
    ensures var d := AfterVote(q, OutAt(outs, q.c.pos), result);
            Reach(d.c) <= |outs| && Relayed(d, outs)
  {
  }

  /** A vote that aborts is backed by an arrival nobody has accounted for. */
  lemma AbortBacked(n: Net, i: nat)
    requires Inv(n) && Enabled(n, Reduce) && i < |n.ranks| && n.ranks[i].c.phase.AtAbort? && Reduced(n.ranks)
    ensures n.counter > n.first + Aborted(n.ranks[i].c.left)
  {
    assert RankInv(n.ranks[0], n) && RankInv(n.ranks[i], n);
    BlockedTogether(n.ranks[0].c, n.ranks[i].c, n.outs, n.votes);
    var j :| 0 <= j < |n.ranks| && n.ranks[j].flag;
    assert RankInv(n.ranks[j], n);
    BlockedTogether(n.ranks[j].c, n.ranks[i].c, n.outs, n.votes);
  }

  lemma VoteRank(n: Net, i: nat)
    requires Inv(n) && Enabled(n, Reduce) && i < |n.ranks|
    ensures RankInv(Apply(n, Reduce).ranks[i], Apply(n, Reduce))
    ensures n.ranks[i].c == n.ranks[0].c
  {
    var q := n.ranks[i];
    var result := Reduced(n.ranks);
    assert RankInv(n.ranks[0], n) && RankInv(q, n);
    BlockedTogether(n.ranks[0].c, q.c, n.outs, n.votes);
    if q.c.phase.AtAbort? && result {
      AbortBacked(n, i);
    }
    var d := AfterVote(q, OutAt(n.outs, q.c.pos), result);
    VoteFollows(q.c, n.outs, n.votes, result, d.c);
    VoteAccounted(q, OutAt(n.outs, q.c.pos), n.first, n.counter, result);
    VoteRelayed(q, n.outs, result);
  }

  lemma ReduceSched(n: Net)
    requires Inv(n) && Enabled(n, Reduce)
    ensures SchedInv(Apply(n, Reduce))
  {
    var m := Apply(n, Reduce);
    var q := n.ranks[0];
    var result := Reduced(n.ranks);
    assert RankInv(q, n);
    assert m.ranks[0] == AfterVote(q, OutAt(n.outs, q.c.pos), result);
    VotePos(q, OutAt(n.outs, q.c.pos), result, n.results);
    ResultAdded(n.results, n.taken, q.c.handed, if q.c.phase.AtAck? && result then q.relay.ack else None);
    AnsweredWasFired(n, q, result);
  }

  lemma AnsweredWasFired(n: Net, q: Rank, result: bool)
    requires Inv(n) && RankInv(q, n) && (q.c.phase.AtAck? && result ==> q.flag)
    ensures q.c.fired <= n.cycle
    ensures q.c.phase.AtAck? && result ==> q.relay.ack == Some(q.c.handed + 1) && q.c.fired == q.c.handed + 1
  {
    TriggersGrow(n.outs, Reach(q.c), |n.outs|);
  }

  /** A vote completes an output only if it is one on the answer, and brings the answer if it carries. */
  lemma VotePos(q: Rank, o: Out, result: bool, results: seq<Option<nat>>)
    requires q.c.Blocked() && (q.c.phase.AtAck? && result ==> q.flag) && (q.c.phase.AtAck? ==> q.flag == q.relay.ack.Some?)
    ensures var d := AfterVote(q, o, result);
            && d.c.handed == q.c.handed + (if q.c.phase.AtAck? && result then 1 else 0)
            && d.c.pos == q.c.pos + (if q.c.phase.AtAck? then 1 else 0)
            && Brought(results, q, d) == if q.c.phase.AtAck? then results + [if result then q.relay.ack else None] else results
  {
  }

  lemma ReduceStep(n: Net)
    requires Inv(n) && Enabled(n, Reduce)
    ensures Inv(Apply(n, Reduce))
  {
    var m := Apply(n, Reduce);
    forall i | 0 <= i < |m.ranks| ensures RankInv(m.ranks[i], m) && m.ranks[i].c.handed == m.ranks[0].c.handed {
      VoteRank(n, i);
    }
    ReduceSched(n);
  }

  // ---------------------------------------------------------------- every run

  lemma StepKeepsInv(n: Net, e: Event)
    requires Inv(n) && Enabled(n, e)
    ensures Inv(Apply(n, e)) && |Apply(n, e).ranks| == |n.ranks|
  {
    match e
    case Emit(kind, sampled) => EmitStep(n, kind, sampled);
    case Step(r) => LocalStep(n, r);
    case Reduce => ReduceStep(n);
    case ApplyResult => ApplyStep(n);
    case Bump => OthersStay(n, Apply(n, e));
    case Trigger => OthersStay(n, Apply(n, e));
    case ChildDone(r) => ChildStep(n, r);
  }

  lemma ChildStep(n: Net, r: nat)
    requires Inv(n) && Enabled(n, ChildDone(r))
    ensures Inv(Apply(n, ChildDone(r)))
  {
    var m := Apply(n, ChildDone(r));
    forall i | 0 <= i < |n.ranks| ensures RankInv(m.ranks[i], m) {
      assert RankInv(n.ranks[i], n);
    }
  }

  lemma OthersStay(n: Net, m: Net)
    requires Inv(n) && m.ranks == n.ranks && m.outs == n.outs && m.votes == n.votes
    requires m.first == n.first && n.counter <= m.counter
    ensures forall i | 0 <= i < |m.ranks| :: RankInv(m.ranks[i], m)
  {
    forall i | 0 <= i < |m.ranks| ensures RankInv(m.ranks[i], m) {
      assert RankInv(n.ranks[i], n);
      RankKeeps(n.ranks[i], n, m);
    }
  }

  lemma {:induction false} RunKeepsInv(n: Net, es: seq<Event>, m: Net)
    requires Inv(n) && Run(n, es, m)
    ensures Inv(m) && m.first == n.first && |m.ranks| == |n.ranks|
    ensures m.counter == n.counter + Bumps(es)
    decreases |es|
  {
    if es != [] {
      StepKeepsInv(n, es[0]);
      RunKeepsInv(Apply(n, es[0]), es[1..], m);
    }
  }

  function Bumps(es: seq<Event>): nat {
    if es == [] then 0 else (if es[0].Bump? then 1 else 0) + Bumps(es[1..])
  }

  // ---------------------------------------------------------------- what it gives

  /** Any number of ranks, any interleaving of arrivals, children and outputs with their steps: the
      ranks issue one and the same sequence of collectives, abort votes and answer votes alike. Of
      any two records one is a prefix of the other, at most one vote longer, and two ranks that are
      blocked are blocked in the same collective. */
  lemma OneSequence(n: Net, es: seq<Event>, m: Net, i: nat, j: nat)
    requires Init(n) && Run(n, es, m) && i < |m.ranks| && j < |m.ranks|
    ensures var a, b := m.ranks[i].c, m.ranks[j].c;
            && (a.record <= b.record || b.record <= a.record)
            && |m.votes| <= |a.record| <= |m.votes| + 1
            && (a.Blocked() <==> |a.record| == |m.votes| + 1)
            && (a.Blocked() && b.Blocked() ==> a == b && a.record[|m.votes|] == b.record[|m.votes|])
  {
    InitInv(n);
    RunKeepsInv(n, es, m);
    var a, b := m.ranks[i].c, m.ranks[j].c;
    assert RankInv(m.ranks[i], m) && RankInv(m.ranks[j], m);
    if a.steps <= b.steps {
      ReplayExtends(m.outs, m.votes, a.steps, b.steps);
    } else {
      ReplayExtends(m.outs, m.votes, b.steps, a.steps);
    }
    if a.Blocked() && b.Blocked() {
      BlockedTogether(a, b, m.outs, m.votes);
    }
  }

  /** A rank blocked in a vote never waits for one that has gone past it: every other rank is in
      the same vote, or can take a step towards it. */
  lemma NobodyGoesPastAVote(n: Net, es: seq<Event>, m: Net, i: nat, j: nat)
    requires Init(n) && Run(n, es, m) && i < |m.ranks| && j < |m.ranks| && m.ranks[i].c.Blocked()
    ensures m.ranks[j].c == m.ranks[i].c || (m.ranks[j].c.steps < m.ranks[i].c.steps && Enabled(m, Step(j)))
  {
    InitInv(n);
    RunKeepsInv(n, es, m);
    var a, b := m.ranks[i].c, m.ranks[j].c;
    assert RankInv(m.ranks[i], m) && RankInv(m.ranks[j], m);
    CatchesUp(a, b, m.outs, m.votes);
  }

  lemma CatchesUp(a: Control, b: Control, outs: seq<Out>, votes: seq<bool>)
    requires OnTrack(a, outs, votes) && OnTrack(b, outs, votes) && a.Blocked()
    ensures b == a || (b.steps < a.steps && !b.Blocked() && b.pos < |outs|)
  {
    BlockedIsLast(a, b, outs, votes);
    if b.Blocked() {
      BlockedTogether(a, b, outs, votes);
    } else if b.steps < a.steps {
      ReplayExtends(outs, votes, b.steps + 1, a.steps);
    }
  }

  /** The group is never stuck: some rank can step, or the vote can complete, or every rank has
      executed every output. */
  lemma NeverStuck(n: Net, es: seq<Event>, m: Net)
    requires Init(n) && Run(n, es, m)
    ensures || Enabled(m, Reduce)
            || (exists r :: Enabled(m, Step(r)))
            || (forall i | 0 <= i < |m.ranks| :: m.ranks[i].c.phase.Between? && m.ranks[i].c.pos == |m.outs|)
  {
    InitInv(n);
    RunKeepsInv(n, es, m);
    if i :| 0 <= i < |m.ranks| && m.ranks[i].c.Blocked() {
      forall j | 0 <= j < |m.ranks| ensures m.ranks[j].c.Blocked() || Enabled(m, Step(j)) {
        NobodyGoesPastAVote(n, es, m, i, j);
      }
    } else {
      forall j | 0 <= j < |m.ranks|
        ensures Enabled(m, Step(j)) || (m.ranks[j].c.phase.Between? && m.ranks[j].c.pos == |m.outs|)
      {
        assert RankInv(m.ranks[j], m);
      }
    }
  }

  /** Ranks leave every FT-only forward alike, abandoned at the same layer or completed; and nothing
      but an FT-only forward is ever abandoned. */
  lemma ForwardsEndAlike(n: Net, es: seq<Event>, m: Net, i: nat, j: nat)
    requires Init(n) && Run(n, es, m) && i < |m.ranks| && j < |m.ranks|
    ensures m.ranks[i].c.left <= m.ranks[j].c.left || m.ranks[j].c.left <= m.ranks[i].c.left
    ensures ExitsOk(m.ranks[i].c.left, m.outs)
  {
    InitInv(n);
    RunKeepsInv(n, es, m);
    var a, b := m.ranks[i].c, m.ranks[j].c;
    assert RankInv(m.ranks[i], m) && RankInv(m.ranks[j], m);
    ReplayExits(m.outs, m.votes, a.steps);
    if a.steps <= b.steps {
      ReplayExtends(m.outs, m.votes, a.steps, b.steps);
    } else {
      ReplayExtends(m.outs, m.votes, b.steps, a.steps);
    }
  }

  /** Over the whole run a rank abandons at most as many forwards as there were arrivals, although
      ranks account for arrivals at different moments. */
  lemma AbortsBoundedByArrivals(n: Net, es: seq<Event>, m: Net, i: nat)
    requires Init(n) && Run(n, es, m) && i < |m.ranks|
    ensures Aborted(m.ranks[i].c.left) <= Bumps(es)
  {
    InitInv(n);
    RunKeepsInv(n, es, m);
    assert RankInv(m.ranks[i], m);
  }

  /** Two ranks that have come equally far agree on whether a backward is outstanding, and every
      rank has handed over the same number of answers. */
  lemma OutstandingAgrees(n: Net, es: seq<Event>, m: Net, i: nat, j: nat)
    requires Init(n) && Run(n, es, m) && i < |m.ranks| && j < |m.ranks|
    ensures m.ranks[i].c.handed == m.ranks[j].c.handed
    ensures Reach(m.ranks[i].c) == Reach(m.ranks[j].c) ==>
              m.ranks[i].relay.Outstanding() == m.ranks[j].relay.Outstanding()
  {
    InitInv(n);
    RunKeepsInv(n, es, m);
    assert RankInv(m.ranks[i], m) && RankInv(m.ranks[j], m);
  }

  /** The scheduler is acknowledged once per trigger, in order, and at most one trigger is
      outstanding from its decision to its acknowledgement. */
  lemma OneAckPerTrigger(n: Net, es: seq<Event>, m: Net)
    requires Init(n) && Run(n, es, m)
    ensures m.acks == UpTo(|m.acks|)
    ensures m.cycle == |m.acks| + if m.pending then 1 else 0
    ensures m.cycle == Triggers(m.outs, |m.outs|) + if m.cmd.Some? then 1 else 0
    ensures !m.pending ==> m.cmd.None? && forall q | q in m.ranks && q.c.pos == |m.outs| :: !q.relay.Outstanding()
  {
    InitInv(n);
    RunKeepsInv(n, es, m);
    var h := m.ranks[0].c.handed;
    AnswersPrefix(m.results, m.taken);
    assert m.acks == UpTo(h)[..|m.acks|] == UpTo(|m.acks|);
    forall q | q in m.ranks && q.c.pos == |m.outs| ensures !m.pending ==> !q.relay.Outstanding() {
      var i :| 0 <= i < |m.ranks| && m.ranks[i] == q;
      assert RankInv(q, m);
    }
  }

  /** An answer is handed over on the same output by all ranks, and only when every rank holds the
      answer of its own child to that very backward. */
  lemma HandedOverTogether(n: Net, es: seq<Event>, m: Net)
    requires Init(n) && Run(n, es, m) && Enabled(m, Reduce) && m.ranks[0].c.phase.AtAck? && Reduced(m.ranks)
    ensures var h := m.ranks[0].c.handed;
            && (forall i | 0 <= i < |m.ranks| ::
                 && m.ranks[i].c == m.ranks[0].c
                 && m.ranks[i].relay.ack == Some(h + 1)
                 && Apply(m, Reduce).ranks[i].c.handed == h + 1
                 && !Apply(m, Reduce).ranks[i].relay.Outstanding())
            && Apply(m, Reduce).results == m.results + [Some(h + 1)]
  {
    InitInv(n);
    RunKeepsInv(n, es, m);
    forall i | 0 <= i < |m.ranks|
      ensures m.ranks[i].c == m.ranks[0].c && m.ranks[i].relay == Relay(false, Some(m.ranks[0].c.handed + 1))
    {
      assert RankInv(m.ranks[i], m);
      VoteRank(m, i);
    }
  }
}
