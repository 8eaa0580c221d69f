/** The coordinator's fields and the methods that move them, against `Coordinator.Coord`. */
module BufferCoordinator {
  import opened Samples
  import opened Coordinator

  /** A backward outstanding for longer than this is reported. */
  const WARN_AFTER := 5.0
  /** One outstanding for longer than this counts as dead whatever is known of its process. */
  const DEAD_AFTER := 60.0

  /** The hold that began at `since` is over; zero stands for no time at all. */
  predicate Elapsed(since: Option<real>, now: real, hold: real) {
    since.Some? && since.value != 0.0 && now - since.value >= hold
  }

  /** The coordinator's fields. In relay mode the child belongs to another process: a trigger is
      parked in `cmd` and the answer comes through `ApplyRelayedDone`. */
  class FinetuneCoordinator {
    const capacity: nat
    const perStepBudget: nat
    const relay: bool
    var minSampleLen: nat
    var fill: nat
    var reserved: nat
    var sampleLens: seq<nat>
    var samples: seq<Sample>
    var open: bool
    var pending: bool
    var flush: bool
    var started: bool
    var rpsActive: bool
    var rpsSince: Option<real>
    var cmd: Option<Work>
    var work: Option<Work>
    var cycle: nat
    var epoch: nat
    var pendingSince: Option<real>

    function State(): Coord
      reads this
    {
      Coord(capacity, perStepBudget, minSampleLen, fill, reserved, sampleLens, samples, open, pending, flush, started,
            rpsActive, rpsSince, relay, cmd, work, cycle, epoch)
    }

    /** No rows, no backward, and the gate open. */
    predicate Emptied()
      reads this
    {
      fill == 0 && reserved == 0 && sampleLens == [] && samples == [] && !pending && open && work.None?
    }

    constructor (capacity: nat, perStepBudget: Option<nat>, relay: bool)
      ensures State() == Coord(capacity, if perStepBudget.Some? then perStepBudget.value else capacity, 1, 0, 0, [], [],
                               true, false, false, true, false, None, relay, None, None, 0, 0)
    {
      this.capacity, this.relay := capacity, relay;
      this.perStepBudget := if perStepBudget.Some? then perStepBudget.value else capacity;
      minSampleLen, fill, reserved, sampleLens, samples := 1, 0, 0, [], [];
      open, pending, flush, started, rpsActive, rpsSince := true, false, false, true, false, None;
      cmd, work, cycle, epoch, pendingSince := None, None, 0, 0, None;
    }

    method SpaceRemaining() returns (n: nat)
      ensures n == State().Space()
    {
      var free := capacity - fill - reserved;
      n := if free > 0 then free else 0;
    }

    /** Never more than fits the buffer, and nothing while a backward is pending. */
    method NextFtBudget() returns (n: nat)
      ensures n == State().Budget()
      ensures n > 0 ==> started && open && !pending && fill + reserved + n <= capacity && n <= perStepBudget
      ensures started && open && !pending && fill + reserved + n < capacity ==> n >= perStepBudget
    {
      if !started || !open || pending {
        return 0;
      }
      var space := SpaceRemaining();
      n := if perStepBudget <= space then perStepBudget else space;
    }

    /** Reserves the next `n` rows and returns where they start. */
    method ReserveRows(n: nat, ss: seq<Sample>) returns (offset: nat)
      modifies this`reserved, this`samples
      ensures State() == old(State()).Reserve(n, ss) && offset == old(fill + reserved)
      ensures reserved == old(reserved) + n && samples == old(samples) + ss
      ensures offset + n == fill + reserved && (0 < n <= old(State().Space()) ==> offset + n <= capacity)
    {
      offset := fill + reserved;
      reserved := reserved + n;
      samples := samples + ss;
    }

    method ReleaseReserve(n: nat, ss: seq<Sample>)
      modifies this`reserved, this`samples
      ensures State() == old(State()).ReleaseReserve(n, ss)
      ensures reserved == if old(reserved) >= n then old(reserved) - n else 0
    {
      reserved := if reserved >= n then reserved - n else 0;
      if ss != [] && samples != [] {
        samples := DropIds(samples, Ids(ss));
      } else if ss == [] {
        DropIdsDisjoint(samples, Ids(ss));
      }
    }

    method SnapshotAdmission() returns (s: Snap)
      ensures s == State().Snapshot()
    {
      s := Snap(open, flush);
    }

    method RestoreAdmission(s: Snap)
      modifies this`open, this`flush
      ensures State() == old(State()).Restore(s)
    {
      open, flush := s.open, s.flush;
    }

    method NoteInjection(next: Option<nat>, admitted: nat)
      modifies this`open, this`flush
      ensures State() == old(State()).NoteInjection(next, admitted)
      ensures if !pending && fill + reserved + admitted > 0
                 && (next.None? || next.value + admitted > if fill + reserved <= capacity then capacity - fill - reserved else 0)
              then flush && !open else flush == old(flush) && open == old(open)
    {
      if pending {
        return;
      }
      if fill + reserved + admitted == 0 {
        return;
      }
      var space := SpaceRemaining();
      if next.None? || next.value > space - admitted {
        flush, open := true, false;
      }
    }

    method SignalChild()
      modifies this`cmd, this`work
      ensures var w := Work(fill, sampleLens, epoch);
              State() == if relay then old(State()).(cmd := Some(w)) else old(State()).(work := Some(w))
    {
      if !relay {
        work := Some(Work(fill, sampleLens, epoch));
      } else {
        cmd := Some(Work(fill, sampleLens, epoch));
      }
    }

    method CloseForBackward(now: real)
      modifies this`open, this`pending, this`flush, this`cycle, this`pendingSince
      ensures State() == old(State()).(open := false, pending := true, flush := false, cycle := old(cycle) + 1)
      ensures pendingSince == Some(now)
    {
      open, pending, flush := false, true, false;
      cycle := cycle + 1;
      pendingSince := Some(now);
    }

    /** Starts the backward over the whole buffer, or parks the command for it. */
    method TriggerBackward(now: real)
      modifies this
      ensures State() == old(State()).Trigger() && pendingSince == Some(now)
      ensures pending && !open && !flush && (if relay then cmd else work) == Some(Work(fill, sampleLens, epoch))
    {
      CloseForBackward(now);
      SignalChild();
    }

    method TryEpochFlush(now: real)
      modifies this
      ensures State() == old(State()).TryEpochFlush()
      ensures pendingSince == if State() == old(State()) then old(pendingSince) else Some(now)
      ensures pending <==> old(pending) || (old(flush) && reserved == 0 && fill > 0)
      ensures pending == old(pending) ==> State() == old(State())
    {
      if flush && reserved == 0 && fill > 0 && !pending {
        TriggerBackward(now);
      }
    }

    method CountRows(n: nat, lens: seq<nat>)
      modifies this`fill, this`reserved, this`sampleLens
      ensures fill == old(fill) + n && reserved == Max(0, old(reserved) - n) && sampleLens == old(sampleLens) + lens
    {
      fill := fill + n;
      reserved := if reserved >= n then reserved - n else 0;
      sampleLens := sampleLens + lens;
    }

    /** `n` rows have been saved. Both triggers fire here, once nothing is left in flight. */
    method RecordCapture(n: nat, lens: seq<nat>, now: real)
      modifies this
      ensures State() == old(State()).RecordCapture(n, lens)
      ensures pending && !old(pending) <==>
                n > 0 && !old(pending) && old(reserved) <= n
                && (old(flush) || (minSampleLen > 0 && old(fill) + n + minSampleLen > capacity))
      ensures fill == old(fill) + n && (n > 0 ==> sampleLens == old(sampleLens) + lens)
    {
      if n == 0 {
        return;
      }
      CountRows(n, lens);
      if pending || reserved > 0 {
        return;
      }
      var space := SpaceRemaining();
      if space < minSampleLen {
        TriggerBackward(now);
      } else if flush && fill > 0 {
        TriggerBackward(now);
      }
    }

    method CheckRpsThrottle(now: real, rps: real, closeRps: real, openRps: real, closeTime: real)
      modifies this`open, this`rpsActive, this`rpsSince
      ensures State() == old(State()).CheckThrottle(Tick(now, rps, closeRps, openRps, closeTime))
      ensures old(rpsActive) && closeRps > 0.0 ==>
                && open == !rpsActive
                && (rpsActive <==> rps >= openRps || (rps != 0.0 && closeTime > 0.0 && !Elapsed(old(rpsSince), now, closeTime)))
      ensures !old(rpsActive) ==> (rpsActive <==> rps > closeRps > 0.0) && open == (old(open) && !rpsActive)
      ensures rpsActive && !old(rpsActive) ==> rpsSince == Some(now)
      ensures closeRps <= 0.0 || (!old(rpsActive) && !rpsActive) ==> State() == old(State())
    {
      if closeRps <= 0.0 {
        return;
      }
      if rpsActive {
        var since := if rpsSince.Some? && rpsSince.value != 0.0 then rpsSince.value else now;
        var held := if now - since > 0.0 then now - since else 0.0;
        if rps < openRps {
          var idle := rps == 0.0;
          if !(closeTime > 0.0 && held < closeTime && !idle) {
            rpsActive, rpsSince, open := false, None, true;
          }
        }
        if rpsActive {
          open := false;
        }
      } else {
        if rps > closeRps {
          rpsActive, rpsSince, open := true, Some(now), false;
        }
      }
    }

    method StartFinetuning()
      modifies this`started
      ensures State() == old(State()).(started := true)
    {
      started := true;
    }

    method StopFinetuning()
      modifies this`started
      ensures State() == old(State()).(started := false)
    {
      started := false;
    }

    /** Finetuning is switched off for good once the child is known dead or silent for too long. */
    method CheckBackwardStuck(alive: Option<bool>, now: real)
      modifies this`started, this`open
      ensures State() == if old(started) && pendingSince.Some? && now - pendingSince.value > WARN_AFTER
                            && (alive == Some(false) || now - pendingSince.value > DEAD_AFTER)
                         then old(State()).Disable() else old(State())
      ensures State() != old(State()) ==> !started && !open && pending == old(pending)
    {
      if pendingSince.None? {
        return;
      }
      var waited := now - pendingSince.value;
      if waited > WARN_AFTER && (alive == Some(false) || waited > DEAD_AFTER) && started {
        started, open := false, false;
      }
    }

    method DropRows()
      modifies this`fill, this`reserved, this`sampleLens, this`samples
      ensures State() == old(State()).(fill := 0, reserved := 0, sampleLens := [], samples := [])
    {
      fill, reserved := 0, 0;
      sampleLens, samples := [], [];
    }

    method ResetBuffer()
      modifies this
      ensures State() == old(State()).Acked() && pendingSince.None?
    {
      DropRows();
      pending, open := false, true;
      work, pendingSince := None, None;
    }

    /** Polls the child. `trained` is handed to the store when the backward has answered. */
    method PollBackward(response: bool, alive: Option<bool>, now: real) returns (trained: Option<seq<Sample>>)
      modifies this
      ensures trained.Some? <==> old(pending) && !relay && response
      ensures trained.Some? ==> State() == old(State()).Acked() && trained.value == old(samples) && Emptied()
      ensures trained.Some? ==> flush == old(flush) && started == old(started) && rpsActive == old(rpsActive)
      ensures trained.None? ==> fill == old(fill) && samples == old(samples) && pending == old(pending)
      ensures trained.None? ==> State() == old(State()) || (old(pending) && State() == old(State()).Disable())
    {
      if !pending {
        return None;
      }
      if relay {
        CheckBackwardStuck(None, now);
        return None;
      }
      if !response {
        CheckBackwardStuck(alive, now);
        return None;
      }
      trained := Some(samples);
      ResetBuffer();
    }

    /** The relayed trigger leaves with the next scheduler output. */
    method TakeTriggerCmd() returns (c: Option<Work>)
      modifies this`cmd
      ensures c == old(cmd) && State() == old(State()).TakeCmd() && State().cmd.None?
    {
      c := cmd;
      cmd := None;
    }

    method ApplyRelayedSaved(n: nat, lens: seq<nat>, now: real)
      modifies this
      ensures State() == if relay then old(State()).RecordCapture(n, lens) else old(State())
    {
      if !relay {
        return;
      }
      RecordCapture(n, lens, now);
    }

    method ApplyRelayedDone(response: bool) returns (trained: Option<seq<Sample>>)
      modifies this
      ensures trained.Some? <==> relay && response
      ensures trained.Some? ==> State() == old(State()).Acked() && trained.value == old(samples) && Emptied()
      ensures trained.Some? ==> flush == old(flush) && started == old(started) && rpsActive == old(rpsActive)
      ensures trained.None? ==> State() == old(State())
    {
      if !relay || !response {
        return None;
      }
      trained := Some(samples);
      ResetBuffer();
    }
  }
}
