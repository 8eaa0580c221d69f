/** The activation-buffer coordinator: fill accounting, the admission gate, the backward
    trigger and the arrival-rate throttle.

    `Coord` is the abstract state with one function per operation; the class in
    `BufferCoordinator` performs the same operations on its fields. */
module Coordinator {
  import opened Samples

  /** What the backward child is asked to train: the first `n` buffer rows, split by `sampleLens`. */
  datatype Work = Work(n: nat, sampleLens: seq<nat>, epoch: nat)

  /** The two admission flags that a rollback restores. */
  datatype Snap = Snap(open: bool, flush: bool)

  /** One evaluation of the arrival-rate throttle. */
  datatype Throttle =
    | Off
    | Tick(now: real, rps: real, closeRps: real, openRps: real, closeTime: real)

  datatype Coord = Coord(
    capacity: nat, perStepBudget: nat, minSampleLen: nat,
    fill: nat, reserved: nat, sampleLens: seq<nat>, samples: seq<Sample>,
    open: bool, pending: bool, flush: bool, started: bool,
    rpsActive: bool, rpsSince: Option<real>,
    relay: bool, cmd: Option<Work>, work: Option<Work>, cycle: nat, epoch: nat)
  {
    function Space(): nat {
      Max(0, capacity - fill - reserved)
    }

    /** How many FT tokens the scheduler may admit this step. */
    function Budget(): nat {
      if !started || !open || pending then 0 else Min(perStepBudget, Space())
    }

    function Reserve(n: nat, ss: seq<Sample>): Coord {
      this.(reserved := reserved + n, samples := samples + ss)
    }

    function ReleaseReserve(n: nat, ss: seq<Sample>): Coord {
      this.(reserved := Max(0, reserved - n), samples := DropIds(samples, Ids(ss)))
    }

    function Snapshot(): Snap {
      Snap(open, flush)
    }

    function Restore(s: Snap): Coord {
      this.(open := s.open, flush := s.flush)
    }

    /** `next` is the length of the shortest sample still selectable; `admitted` the tokens
        admitted by this schedule call, not reserved yet. */
    function NoteInjection(next: Option<nat>, admitted: nat): Coord {
      if pending || fill + reserved + admitted == 0 then this
      else if next.None? || next.value > Space() - admitted then this.(flush := true, open := false)
      else this
    }

    function Trigger(): Coord {
      var w := Work(fill, sampleLens, epoch);
      var c := this.(open := false, pending := true, flush := false, cycle := cycle + 1);
      if relay then c.(cmd := Some(w)) else c.(work := Some(w))
    }

    function TryEpochFlush(): Coord {
      if flush && reserved == 0 && fill > 0 && !pending then Trigger() else this
    }

    function RecordCapture(n: nat, lens: seq<nat>): Coord {
      if n == 0 then this
      else
        var c := this.(fill := fill + n, reserved := Max(0, reserved - n), sampleLens := sampleLens + lens);
        if c.pending || c.reserved > 0 then c
        else if c.Space() < minSampleLen then c.Trigger()
        else if c.flush && c.fill > 0 then c.Trigger()
        else c
    }

    /** The state after the backward's acknowledgement, local or relayed. */
    function Acked(): Coord {
      this.(fill := 0, reserved := 0, sampleLens := [], samples := [],
            pending := false, open := true, work := None)
    }

    /** The relayed trigger leaves on the next scheduler output. */
    function TakeCmd(): Coord {
      this.(cmd := None)
    }

    /** A backward that never answers: finetuning is switched off. */
    function Disable(): Coord {
      this.(started := false, open := false)
    }

    function CheckThrottle(t: Throttle): Coord {
      if t.Off? || t.closeRps <= 0.0 then this
      else if rpsActive then
        if t.rps < t.openRps && !Deferred(t)
        then this.(rpsActive := false, rpsSince := None, open := true)
        else this.(open := false)
      else if t.rps > t.closeRps
      then this.(rpsActive := true, rpsSince := Some(t.now), open := false)
      else this
    }

    /** The minimum hold has not elapsed and some arrival is still inside the window. */
    predicate Deferred(t: Throttle)
      requires t.Tick?
    {
      t.closeTime > 0.0 && HeldFor(t.now) < t.closeTime && t.rps != 0.0
    }

    /** An engage time of exactly zero counts as no engage time at all, as in the source. */
    function HeldFor(now: real): real {
      var since := if rpsSince.Some? && rpsSince.value != 0.0 then rpsSince.value else now;
      if now - since > 0.0 then now - since else 0.0
    }
  }

  // ---------------------------------------------------------------- the budget

  /** The budget is the largest number of tokens that one step may add and the buffer can take, and
      nothing while finetuning is off, the gate closed or a backward pending. */
  lemma BudgetIsLargest(c: Coord, n: nat)
    requires c.fill + c.reserved <= c.capacity
    ensures n <= c.Budget() <==>
              n == 0 || (c.started && c.open && !c.pending && n <= c.perStepBudget && c.fill + c.reserved + n <= c.capacity)
  {
  }

  // ---------------------------------------------------------------- engaging

  /** A disengaged throttle engages exactly on a rate above the limit, and then closes the gate; any
      other reading leaves everything as it was, a gate closed for a flush included. */
  lemma EngagesExactly(c: Coord, t: Throttle)
    requires !c.rpsActive
    ensures c.CheckThrottle(t).rpsActive <==> t.Tick? && t.closeRps > 0.0 && t.rps > t.closeRps
    ensures c.CheckThrottle(t) ==
              if c.CheckThrottle(t).rpsActive then c.(rpsActive := true, rpsSince := Some(t.now), open := false) else c
  {
  }

  /** Over any readings it stays disengaged exactly when none is above its limit, and nothing changes. */
  lemma {:induction false} DisengagedExactly(c: Coord, ts: seq<Throttle>)
    requires !c.rpsActive && Readings(ts)
    ensures StaysDisengaged(c, ts) <==> forall i | 0 <= i < |ts| :: ts[i].rps <= ts[i].closeRps
    ensures StaysDisengaged(c, ts) ==> Ticks(c, ts) == c
    decreases |ts|
  {
    if ts != [] {
      EngagesExactly(c, ts[0]);
      if ts[0].rps <= ts[0].closeRps {
        DisengagedExactly(c, ts[1..]);
        assert forall i | 1 <= i < |ts| :: ts[i] == ts[1..][i - 1];
      }
    }
  }

  predicate StaysDisengaged(c: Coord, ts: seq<Throttle>)
    decreases |ts|
  {
    !c.rpsActive && (ts == [] || StaysDisengaged(c.CheckThrottle(ts[0]), ts[1..]))
  }

  // ---------------------------------------------------------------- the minimum hold

  /** None of the readings releases the throttle. */
  predicate StaysEngaged(c: Coord, ts: seq<Throttle>)
    decreases |ts|
  {
    c.rpsActive && (ts == [] || StaysEngaged(c.CheckThrottle(ts[0]), ts[1..]))
  }

  function Ticks(c: Coord, ts: seq<Throttle>): Coord
    decreases |ts|
  {
    if ts == [] then c else Ticks(c.CheckThrottle(ts[0]), ts[1..])
  }

  /** A throttle engaged at `since` is kept engaged by this reading: the rate has not come down, or
      something still arrives and the hold is not over. Engaged at clock time zero it never is over. */
  predicate Holds(since: real, t: Throttle)
    requires t.Tick?
  {
    t.rps >= t.openRps || (t.rps != 0.0 && t.closeTime > 0.0 && (since == 0.0 || t.now - since < t.closeTime))
  }

  predicate Readings(ts: seq<Throttle>) {
    forall i | 0 <= i < |ts| :: ts[i].Tick? && ts[i].closeRps > 0.0
  }

  lemma HoldsOnce(c: Coord, since: real, t: Throttle)
    requires c.rpsActive && c.rpsSince == Some(since) && t.Tick? && t.closeRps > 0.0
    ensures c.CheckThrottle(t) ==
              if Holds(since, t) then c.(open := false) else c.(rpsActive := false, rpsSince := None, open := true)
  {
  }

  /** An engaged throttle stays engaged over the readings exactly when each of them holds it, and
      the gate is then closed. */
  lemma {:induction false} HeldExactly(c: Coord, since: real, ts: seq<Throttle>)
    requires c.rpsActive && c.rpsSince == Some(since) && Readings(ts)
    ensures StaysEngaged(c, ts) <==> forall i | 0 <= i < |ts| :: Holds(since, ts[i])
    ensures StaysEngaged(c, ts) ==> Ticks(c, ts) == if ts == [] then c else c.(open := false)
    decreases |ts|
  {
    if ts != [] {
      HoldsOnce(c, since, ts[0]);
      if Holds(since, ts[0]) {
        HeldExactly(c.(open := false), since, ts[1..]);
        assert forall i | 1 <= i < |ts| :: ts[i] == ts[1..][i - 1];
      }
    }
  }

  /** So with the clock at zero when it engages, the rate's falling below the limit never ends the
      hold, however long ago that was, until there is a window without any arrival. */
  lemma ZeroEngageNeverExpires(c: Coord, ts: seq<Throttle>)
    requires c.rpsActive && c.rpsSince == Some(0.0) && Readings(ts)
    requires forall i | 0 <= i < |ts| :: ts[i].closeTime > 0.0 && 0.0 < ts[i].rps < ts[i].openRps
    ensures StaysEngaged(c, ts) && (ts != [] ==> !Ticks(c, ts).open)
  {
    HeldExactly(c, 0.0, ts);
  }
}
