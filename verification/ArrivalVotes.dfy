/** When the votes of the rank group succeed. What a rank has read of the arrival counter and of its
    child is recorded beside the machine, from the events alone: an FT-only forward is abandoned at
    a vote exactly if some rank came to it with an arrival it had not accounted for, and an answer
    is handed over exactly if every rank's child had answered when its rank came to the vote. */
module ArrivalVotes {
  import opened Samples
  import opened AbortVote
  import opened AckRelay
  import opened RankGroup

  /** The counter as a rank read it when it last accounted for arrivals, when it came to the last
      vote at the entry of a forward, and when it came to the last abort vote at all; and whether
      its child was still at work when the rank last came to the end of an output. */
  datatype Reading = Reading(served: nat, began: nat, now: nat, busy: bool)

  /** A rank accounts for arrivals when it takes up an inference batch and when it leaves an FT-only
      forward. */
  function Noted(q: Rank, outs: seq<Out>, counter: nat, h: Reading): Reading
    requires CanStep(q, outs)
  {
    match q.c.phase
    case Between => if outs[q.c.pos].kind.Serve? then h.(served := counter) else h
    case Computing(stage) => if stage == 0 then h.(began := counter, now := counter) else h.(now := counter)
    case Leaving(_) => h.(served := counter)
    case Settling => h.(busy := q.child.Busy?)
    case _ => h
  }

  ghost function Read(n: Net, e: Event, h: seq<Reading>): seq<Reading>
    requires Enabled(n, e) && |h| == |n.ranks|
  {
    if e.Step? then h[e.r := Noted(n.ranks[e.r], n.outs, n.counter, h[e.r])] else h
  }

  /** The run `es` from `n` to `m`, and the readings before and after it. */
  ghost predicate Watched(n: Net, h: seq<Reading>, es: seq<Event>, m: Net, g: seq<Reading>)
    decreases |es|
  {
    && |h| == |n.ranks|
    && if es == [] then n == m && h == g
       else
         && Enabled(n, es[0]) && |Read(n, es[0], h)| == |Apply(n, es[0]).ranks|
         && Watched(Apply(n, es[0]), Read(n, es[0], h), es[1..], m, g)
  }

  ghost predicate Unread(n: Net, h: seq<Reading>) {
    |h| == |n.ranks| && forall i | 0 <= i < |h| :: h[i] == Reading(n.first, n.first, n.first, false)
  }

  /** The rank came to its abort vote with an arrival it had not accounted for: since its last
      accounting at the entry of a forward, since that entry at a layer boundary. */
  predicate Arrived(stage: nat, h: Reading) {
    h.now != if stage == 0 then h.served else h.began
  }

  // ---------------------------------------------------------------- what a rank holds

  /** The poller's fields are what has been read, and the flags at a vote follow from that. */
  ghost predicate Known(q: Rank, h: Reading) {
    && q.p.seen == h.served
    && (q.c.phase.Computing? && q.c.phase.stage > 0 ==> q.p.entry == h.began)
    && (q.c.phase.AtAbort? ==>
         && q.cur == h.now && (q.flag <==> Arrived(q.c.phase.stage, h))
         && (if q.c.phase.stage > 0 then q.p.entry == h.began else h.now == h.began))
    && (q.c.phase.AtAck? ==> (q.flag <==> !h.busy))
  }

  ghost predicate AllKnown(n: Net, h: seq<Reading>) {
    |h| == |n.ranks| && forall i | 0 <= i < |n.ranks| :: Known(n.ranks[i], h[i])
  }

  lemma LocalKnown(q: Rank, outs: seq<Out>, counter: nat, h: Reading)
    requires Known(q, h) && CanStep(q, outs) && Reach(q.c) <= |outs| && Relayed(q, outs)
    ensures Known(Local(q, outs, counter), Noted(q, outs, counter, h))
  {
  }

  lemma VotedKnown(q: Rank, o: Out, result: bool, h: Reading)
    requires Known(q, h)
    ensures Known(AfterVote(q, o, result), h)
  {
  }

  lemma StepKnown(n: Net, e: Event, h: seq<Reading>)
    requires Inv(n) && Enabled(n, e) && AllKnown(n, h)
    ensures AllKnown(Apply(n, e), Read(n, e, h))
  {
    var m := Apply(n, e);
    forall i | 0 <= i < |m.ranks| ensures Known(m.ranks[i], Read(n, e, h)[i]) {
      assert RankInv(n.ranks[i], n);
      match e
      case Step(r) =>
        if i == r {
          LocalKnown(n.ranks[r], n.outs, n.counter, h[r]);
        }
      case Reduce => VotedKnown(n.ranks[i], OutAt(n.outs, n.ranks[i].c.pos), Reduced(n.ranks), h[i]);
      case _ =>
    }
  }

  lemma {:induction false} WatchedKnown(n: Net, h: seq<Reading>, es: seq<Event>, m: Net, g: seq<Reading>)
    requires Inv(n) && AllKnown(n, h) && Watched(n, h, es, m, g)
    ensures Inv(m) && AllKnown(m, g) && Run(n, es, m)
    decreases |es|
  {
    if es != [] {
      StepKeepsInv(n, es[0]);
      StepKnown(n, es[0], h);
      WatchedKnown(Apply(n, es[0]), Read(n, es[0], h), es[1..], m, g);
    }
  }

  lemma FromInit(n: Net, h: seq<Reading>, es: seq<Event>, m: Net, g: seq<Reading>)
    requires Init(n) && Unread(n, h) && Watched(n, h, es, m, g)
    ensures Inv(m) && AllKnown(m, g)
  {
    InitInv(n);
    forall i | 0 <= i < |n.ranks| ensures Known(n.ranks[i], h[i]) {
      assert n.ranks[i].c == START;
    }
    WatchedKnown(n, h, es, m, g);
  }

  // ---------------------------------------------------------------- abort votes

  /** Any number of ranks, any interleaving: once all ranks have come to an abort vote, all of them
      abandon the forward there if and only if one of them came with an arrival it had not accounted
      for; otherwise all go on to the next layer, or end the forward after its last one. */
  lemma ArrivalAborts(n: Net, h: seq<Reading>, es: seq<Event>, m: Net, g: seq<Reading>, stage: nat, i: nat)
    requires Init(n) && Unread(n, h) && Watched(n, h, es, m, g)
    requires Enabled(m, Reduce) && m.ranks[0].c.phase == AtAbort(stage) && i < |m.ranks|
    ensures |g| == |m.ranks| && m.ranks[i].c.pos < |m.outs| && m.outs[m.ranks[i].c.pos].kind.FtOnly?
    ensures Apply(m, Reduce).ranks[i].c.phase ==
              if exists j :: 0 <= j < |g| && Arrived(stage, g[j]) then Leaving(true)
              else if stage == m.outs[m.ranks[i].c.pos].kind.boundaries then Leaving(false)
              else Computing(stage + 1)
  {
    FromInit(n, h, es, m, g);
    SameVote(m, stage);
    AtBoundary(m, i, stage);
    AbortFlags(m, g, stage);
  }

  lemma AbortFlags(m: Net, g: seq<Reading>, stage: nat)
    requires AllKnown(m, g) && m.ranks != [] && forall j | 0 <= j < |m.ranks| :: m.ranks[j].c.phase == AtAbort(stage)
    ensures Reduced(m.ranks) <==> exists j :: 0 <= j < |g| && Arrived(stage, g[j])
  {
    assert forall j | 0 <= j < |g| :: Known(m.ranks[j], g[j]);
    if exists j :: 0 <= j < |g| && Arrived(stage, g[j]) {
      var j :| 0 <= j < |g| && Arrived(stage, g[j]);
      assert m.ranks[j].flag;
    }
  }

  lemma SameVote(m: Net, stage: nat)
    requires Inv(m) && Enabled(m, Reduce) && m.ranks[0].c.phase == AtAbort(stage)
    ensures forall j | 0 <= j < |m.ranks| :: m.ranks[j].c.phase == AtAbort(stage)
  {
    forall j | 0 <= j < |m.ranks| ensures m.ranks[j].c.phase == AtAbort(stage) {
      VoteRank(m, j);
    }
  }

  /** Votes are held at the entry and at the boundaries of FT-only forwards, and at no others. */
  lemma AtBoundary(m: Net, i: nat, stage: nat)
    requires Inv(m) && i < |m.ranks| && m.ranks[i].c.phase == AtAbort(stage)
    ensures m.ranks[i].c.pos < |m.outs| && m.outs[m.ranks[i].c.pos].kind.FtOnly?
    ensures stage <= m.outs[m.ranks[i].c.pos].kind.boundaries
  {
    assert RankInv(m.ranks[i], m);
    PhaseFits(m.outs, m.votes, m.ranks[i].c.steps);
  }

  lemma {:induction false} PhaseFits(outs: seq<Out>, votes: seq<bool>, steps: nat)
    requires Replay(outs, votes, steps).Some?
    ensures var c := Replay(outs, votes, steps).value;
            c.phase.Computing? || c.phase.AtAbort? ==>
              c.pos < |outs| && outs[c.pos].kind.FtOnly? && c.phase.stage <= outs[c.pos].kind.boundaries
  {
    if steps > 0 {
      PhaseFits(outs, votes, steps - 1);
    }
  }

  // ---------------------------------------------------------------- answer votes

  /** Once all ranks have come to the vote at the end of an output, the answer is handed over, by all
      of them and to the scheduler, if and only if no rank's child was still at work when its rank
      came there. */
  lemma AnswerHandedOver(n: Net, h: seq<Reading>, es: seq<Event>, m: Net, g: seq<Reading>)
    requires Init(n) && Unread(n, h) && Watched(n, h, es, m, g)
    requires Enabled(m, Reduce) && m.ranks[0].c.phase.AtAck?
    ensures |g| == |m.ranks|
    ensures var all := forall j | 0 <= j < |g| :: !g[j].busy;
            && Apply(m, Reduce).results == m.results + [if all then Some(m.ranks[0].c.handed + 1) else None]
            && forall i | 0 <= i < |m.ranks| ::
                 Apply(m, Reduce).ranks[i].c.handed == m.ranks[i].c.handed + if all then 1 else 0
  {
    FromInit(n, h, es, m, g);
    AckFlags(m, g);
    AnswerBrought(m, Reduced(m.ranks));
  }

  lemma AnswerBrought(m: Net, all: bool)
    requires Inv(m) && Enabled(m, Reduce) && all == Reduced(m.ranks)
    requires forall j | 0 <= j < |m.ranks| :: m.ranks[j].c.phase.AtAck?
    ensures Apply(m, Reduce).results == m.results + [if all then Some(m.ranks[0].c.handed + 1) else None]
    ensures forall i | 0 <= i < |m.ranks| :: Apply(m, Reduce).ranks[i].c.handed == m.ranks[i].c.handed + if all then 1 else 0
  {
    assert RankInv(m.ranks[0], m);
    AnsweredWasFired(m, m.ranks[0], all);
    VotePos(m.ranks[0], OutAt(m.outs, m.ranks[0].c.pos), all, m.results);
  }

  lemma AckFlags(m: Net, g: seq<Reading>)
    requires Inv(m) && AllKnown(m, g) && Enabled(m, Reduce) && m.ranks[0].c.phase.AtAck?
    ensures forall j | 0 <= j < |g| :: m.ranks[j].c.phase.AtAck? && m.ranks[j].flag == !g[j].busy
  {
    forall j | 0 <= j < |g| ensures m.ranks[j].c.phase.AtAck? && m.ranks[j].flag == !g[j].busy {
      VoteRank(m, j);
      assert Known(m.ranks[j], g[j]);
    }
  }

  /** A rank ends every output with a vote while its count of triggers is ahead of its answers, and
      with none otherwise; only an abandoned forward that the engine does not sample ends without. */
  lemma OutputsEndInVotes(n: Net, es: seq<Event>, m: Net, r: nat)
    requires Init(n) && Run(n, es, m) && Enabled(m, Step(r))
    ensures var q := m.ranks[r]; var d := Apply(m, Step(r)).ranks[r];
            && q.c.pos < |m.outs|
            && (q.c.phase.Settling? ==>
                 if Triggers(m.outs, q.c.pos + 1) > q.c.handed then d.c.phase.AtAck?
                 else d.c.phase.Between? && d.c.pos == q.c.pos + 1)
            && (q.c.phase.Leaving? ==>
                 if q.c.phase.aborted && !m.outs[q.c.pos].sampled then d.c.phase.Between? && d.c.pos == q.c.pos + 1
                 else d.c.phase.Settling? && d.c.pos == q.c.pos)
  {
    InitInv(n);
    RunKeepsInv(n, es, m);
    assert RankInv(m.ranks[r], m);
  }
}
