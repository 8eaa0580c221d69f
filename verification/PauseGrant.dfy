/** Who may use the GPU: the runner clears the backward child's grant for steps whose inference
    must not wait, and has to give it back. */
module PauseGrant {
  import opened Samples

  datatype Settings = Settings(throttle: bool, threshold: int, always: bool, untilDone: bool, relay: bool)

  /** Token counts of the step about to run; `tFt` is part of `tIn`. */
  datatype Feats = Feats(tIn: nat, tFt: nat, bD: nat) {
    function Inference(): int {
      tIn - tFt
    }

    predicate Hit(s: Settings) {
      s.throttle && s.threshold > 0 && Inference() + bD >= s.threshold
    }

    /** The step carries inference that a backward must not slow down. */
    predicate Protected(s: Settings) {
      Inference() > 0 || Hit(s)
    }
  }

  /** Events are numbered in the order they are recorded; `clock` is the next number. */
  datatype Runner = Runner(grant: bool, held: bool, fwdActive: bool, pending: bool,
                           resumeEvt: Option<nat>, prefillEvt: Option<nat>, clock: nat)
  {
    /** Once the prefill that paused the child has completed; a sticky pause stays. */
    function MaybeResume(fired: set<nat>): Runner {
      if resumeEvt.Some? && resumeEvt.value in fired
      then this.(resumeEvt := None, grant := if held then grant else true)
      else this
    }

    function IdleRelease(s: Settings, f: Option<Feats>): Runner {
      if held && !(f.Some? && f.value.Hit(s)) then this.(grant := true, held := false, fwdActive := false) else this
    }

    /** The pauses that come before the child is signalled. */
    function PrePause(s: Settings, f: Option<Feats>, fired: set<nat>): Runner {
      var r := if f.Some? && f.value.Protected(s) then this.(grant := false) else this;
      var q := if r.prefillEvt.Some? && r.prefillEvt.value !in fired
               then r.(grant := false, resumeEvt := r.prefillEvt) else r;
      if q.fwdActive then q.(grant := false) else q
    }

    function Fire(): Runner {
      this.(pending := true)
    }

    function BeforeStep(s: Settings, f: Option<Feats>, cmd: bool, fired: set<nat>): Runner {
      var r := MaybeResume(fired).IdleRelease(s, f);
      if s.relay && cmd then r.PrePause(s, f, fired).Fire() else r
    }

    function PauseThrottle(s: Settings, f: Feats): bool {
      (pending || s.always) && f.Hit(s)
    }

    function PauseBwd(s: Settings, f: Feats): bool {
      (pending || s.always) && f.Protected(s)
    }

    function Decide(s: Settings, f: Feats): Runner {
      var r := if held && !PauseThrottle(s, f) then this.(grant := true, held := false, fwdActive := false) else this;
      if PauseBwd(s, f) then r.(grant := false, held := PauseThrottle(s, f), fwdActive := PauseThrottle(s, f)) else r
    }

    /** After the forward, failed or not. */
    function End(s: Settings, f: Feats, ok: bool, paused: bool, byThrottle: bool): Runner {
      var r := if ok && s.relay && f.Inference() > 0 then this.(prefillEvt := Some(clock), clock := clock + 1) else this;
      if paused && !byThrottle then
        if ok && s.untilDone then r.(resumeEvt := Some(r.clock), clock := r.clock + 1) else r.(grant := true)
      else r
    }

    /** One call of the runner: `f` is None for a step without tokens, `ok` whether the forward went
        through, `fired` and `later` the events that have completed at its start and its end. */
    function Step(s: Settings, f: Option<Feats>, cmd: bool, ok: bool, fired: set<nat>, later: set<nat>): Runner {
      var r := BeforeStep(s, f, cmd, fired);
      var q := if f.None? then r
               else r.Decide(s, f.value).End(s, f.value, ok, r.PauseBwd(s, f.value), r.PauseThrottle(s, f.value));
      q.MaybeResume(later)
    }

    /** A trigger decided in the runner's own process, between its calls. */
    function LocalTrigger(): Runner {
      (if fwdActive then this.(grant := false) else this).Fire()
    }

    function Answered(): Runner {
      this.(pending := false)
    }

    /** A cleared grant is always owed back: by the sticky throttle or by an event to come. */
    predicate NotOrphaned() {
      && fwdActive == held
      && (!grant ==> held || resumeEvt.Some?)
    }
  }

  // ---------------------------------------------------------------- no orphaned pause

  lemma BeforeStepLeaves(r: Runner, s: Settings, f: Option<Feats>, cmd: bool, fired: set<nat>)
    requires r.NotOrphaned()
    ensures var q := r.BeforeStep(s, f, cmd, fired);
            && q.fwdActive == q.held
            && (!q.grant ==> q.held || q.resumeEvt.Some? || (f.Some? && q.PauseBwd(s, f.value)))
  {
  }

  lemma StepKeeps(r: Runner, s: Settings, f: Option<Feats>, cmd: bool, ok: bool, fired: set<nat>, later: set<nat>)
    requires r.NotOrphaned()
    ensures r.Step(s, f, cmd, ok, fired, later).NotOrphaned()
  {
    BeforeStepLeaves(r, s, f, cmd, fired);
  }

  datatype Event =
    | DoStep(f: Option<Feats>, cmd: bool, ok: bool, fired: set<nat>, later: set<nat>)
    | DoTrigger
    | DoAnswer

  function Apply(r: Runner, s: Settings, e: Event): Runner {
    match e
    case DoStep(f, cmd, ok, fired, later) => r.Step(s, f, cmd, ok, fired, later)
    case DoTrigger => r.LocalTrigger()
    case DoAnswer => r.Answered()
  }

  function After(r: Runner, s: Settings, es: seq<Event>): Runner {
    if es == [] then r else Apply(After(r, s, es[..|es| - 1]), s, es[|es| - 1])
  }

  const START := Runner(true, false, false, false, None, None, 0)

  /** Over any run, with failed forwards, idle steps and relayed triggers in any order. */
  lemma {:induction false} NoOrphanedPause(s: Settings, es: seq<Event>)
    ensures After(START, s, es).NotOrphaned()
  {
    if es != [] {
      NoOrphanedPause(s, es[..|es| - 1]);
      var r := After(START, s, es[..|es| - 1]);
      match es[|es| - 1] {
        case DoStep(f, cmd, ok, fired, later) => StepKeeps(r, s, f, cmd, ok, fired, later);
        case DoTrigger =>
        case DoAnswer =>
      }
    }
  }

  /** Once the engine goes idle and the last recorded event has completed, one idle step without a
      trigger gives the grant back, whatever the run before. */
  lemma IdleStepRegrants(s: Settings, es: seq<Event>, ok: bool, fired: set<nat>, later: set<nat>)
    requires var r := After(START, s, es); r.resumeEvt.Some? ==> r.resumeEvt.value in fired
    ensures Apply(After(START, s, es), s, DoStep(None, false, ok, fired, later)).grant
  {
    NoOrphanedPause(s, es);
  }

  // ---------------------------------------------------------------- which steps run alone

  /** While the throttle holds its pause the grant is cleared. */
  lemma {:induction false} HeldIsCleared(s: Settings, es: seq<Event>)
    ensures var r := After(START, s, es); r.held ==> !r.grant
  {
    if es != [] {
      HeldIsCleared(s, es[..|es| - 1]);
      NoOrphanedPause(s, es[..|es| - 1]);
      HeldStep(After(START, s, es[..|es| - 1]), s, es[|es| - 1]);
    }
  }

  lemma HeldStep(r: Runner, s: Settings, e: Event)
    requires r.NotOrphaned() && (r.held ==> !r.grant)
    ensures Apply(r, s, e).held ==> !Apply(r, s, e).grant
  {
    if e.DoStep? && e.f.Some? {
      var q := r.BeforeStep(s, e.f, e.cmd, e.fired);
      assert q.held ==> !q.grant;
      assert q.Decide(s, e.f.value).held ==> !q.Decide(s, e.f.value).grant;
    }
  }

  /** Over any run: while a backward is pending, or one is triggered with this very step, a forward
      with inference prefill runs with the grant cleared, and with the throttle on so does one with
      as many inference tokens as its threshold. Under any other forward the throttle holds nothing,
      and the child computes unless the event behind an earlier prefill is still to come. */
  lemma ProtectedRunsAlone(s: Settings, es: seq<Event>, f: Feats, cmd: bool, fired: set<nat>)
    ensures var r := After(START, s, es);
            var during := r.BeforeStep(s, Some(f), cmd, fired).Decide(s, f);
            && during.pending == (r.pending || (s.relay && cmd))
            && if (during.pending || s.always)
                  && (f.tIn > f.tFt || (s.throttle && s.threshold > 0 && f.tIn - f.tFt + f.bD >= s.threshold))
               then !during.grant
               else !during.held && (during.grant || during.resumeEvt.Some?)
  {
    NoOrphanedPause(s, es);
  }

  /** What the pause becomes after such a forward. Unless the throttle keeps it, it is given back at
      once; or, where it lasts until the prefill is done, once the event recorded behind it has
      completed, unless the forward failed. */
  lemma PauseEnds(s: Settings, es: seq<Event>, f: Feats, cmd: bool, ok: bool, fired: set<nat>, later: set<nat>)
    requires var r := After(START, s, es); r.pending || (s.relay && cmd) || s.always
    ensures var r := After(START, s, es);
            var q := Apply(r, s, DoStep(Some(f), cmd, ok, fired, later));
            var evt := r.clock + if s.relay then 1 else 0;
            if s.throttle && s.threshold > 0 && f.tIn - f.tFt + f.bD >= s.threshold then q.held && !q.grant
            else !q.held && (f.tIn > f.tFt ==>
              if !ok || !s.untilDone then q.grant
              else q.grant == (evt in later) && q.resumeEvt == if evt in later then None else Some(evt))
  {
    var r := After(START, s, es);
    BeforeKeepsClock(r, s, Some(f), cmd, fired);
    var q := r.BeforeStep(s, Some(f), cmd, fired);
    DecidedPause(q, s, f);
    EndedPause(q.Decide(s, f), s, f, ok, later);
    assert Apply(r, s, DoStep(Some(f), cmd, ok, fired, later))
        == q.Decide(s, f).End(s, f, ok, q.PauseBwd(s, f), q.PauseThrottle(s, f)).MaybeResume(later);
  }

  lemma EndedPause(d: Runner, s: Settings, f: Feats, ok: bool, later: set<nat>)
    requires d.held == f.Hit(s) && (d.held || f.tIn > f.tFt ==> !d.grant)
    ensures var q := d.End(s, f, ok, f.Protected(s), f.Hit(s)).MaybeResume(later);
            var evt := d.clock + if s.relay then 1 else 0;
            if d.held then q.held && !q.grant
            else !q.held && (f.tIn > f.tFt ==>
              if !ok || !s.untilDone then q.grant
              else q.grant == (evt in later) && q.resumeEvt == if evt in later then None else Some(evt))
  {
  }

  lemma DecidedPause(r: Runner, s: Settings, f: Feats)
    requires r.pending || s.always
    ensures var d := r.Decide(s, f);
            && d.clock == r.clock && d.prefillEvt == r.prefillEvt
            && d.held == f.Hit(s)
            && (d.held || f.tIn > f.tFt ==> !d.grant)
  {
  }

  lemma BeforeKeepsClock(r: Runner, s: Settings, f: Option<Feats>, cmd: bool, fired: set<nat>)
    ensures var q := r.BeforeStep(s, f, cmd, fired);
            q.clock == r.clock && q.prefillEvt == r.prefillEvt && q.pending == (r.pending || (s.relay && cmd))
  {
  }

  /** What happens before a forward: a resume that is due, and the throttle's release unless the step
      has as much inference as its threshold. */
  lemma BeforeAnyStep(s: Settings, es: seq<Event>, f: Option<Feats>, fired: set<nat>)
    ensures var r := After(START, s, es); var q := r.BeforeStep(s, f, false, fired);
            && (q.held <==> r.held && s.throttle && s.threshold > 0 && f.Some?
                            && f.value.tIn - f.value.tFt + f.value.bD >= s.threshold)
            && q.resumeEvt == (if r.resumeEvt.Some? && r.resumeEvt.value in fired then None else r.resumeEvt)
            && (q.grant <==> r.grant || (r.held && !q.held) || (!r.held && r.resumeEvt.Some? && q.resumeEvt.None?))
            && q.pending == r.pending && q.prefillEvt == r.prefillEvt
  {
    NoOrphanedPause(s, es);
  }

  /** A relayed trigger signals the child with the grant cleared exactly if the grant was cleared
      before, the step must not be slowed, the last inference prefill still runs, or the throttle
      holds its pause; behind a running prefill its event gives the grant back. */
  lemma TriggerWithGrantCleared(s: Settings, es: seq<Event>, f: Option<Feats>, fired: set<nat>)
    requires s.relay
    ensures var r := After(START, s, es);
            var before, signal := r.BeforeStep(s, f, false, fired), r.BeforeStep(s, f, true, fired);
            var running := r.prefillEvt.Some? && r.prefillEvt.value !in fired;
            && signal.pending
            && (!signal.grant <==>
                  || !before.grant || running || before.held
                  || (f.Some? && (f.value.tIn > f.value.tFt
                                  || (s.throttle && s.threshold > 0 && f.value.tIn - f.value.tFt + f.value.bD >= s.threshold))))
            && signal.resumeEvt == (if running then r.prefillEvt else before.resumeEvt)
  {
    NoOrphanedPause(s, es);
  }

  /** Only a forward with inference prefill that went through leaves an event to wait for. */
  lemma LastPrefill(s: Settings, es: seq<Event>, f: Feats, cmd: bool, ok: bool, fired: set<nat>, later: set<nat>)
    ensures var r := After(START, s, es); var q := Apply(r, s, DoStep(Some(f), cmd, ok, fired, later));
            q.prefillEvt == if ok && s.relay && f.tIn > f.tFt then Some(r.clock) else r.prefillEvt
  {
    BeforeKeepsClock(After(START, s, es), s, Some(f), cmd, fired);
  }

  // ---------------------------------------------------------------- the runner's fields

  class ModelRunner {
    const settings: Settings
    var grant: bool
    var held: bool
    var fwdActive: bool
    var pending: bool
    var resumeEvt: Option<nat>
    var prefillEvt: Option<nat>
    var clock: nat

    function State(): Runner
      reads this
    {
      Runner(grant, held, fwdActive, pending, resumeEvt, prefillEvt, clock)
    }

    constructor (settings: Settings)
      ensures this.settings == settings && State() == START
    {
      this.settings := settings;
      grant, held, fwdActive, pending, resumeEvt, prefillEvt, clock := true, false, false, false, None, None, 0;
    }

    method MaybeResumeBackward(fired: set<nat>)
      modifies this`grant, this`resumeEvt
      ensures State() == old(State()).MaybeResume(fired)
      ensures old(resumeEvt).Some? && old(resumeEvt).value in fired ==> resumeEvt.None? && (held || grant)
      ensures held || resumeEvt == old(resumeEvt) ==> grant == old(grant)
      ensures !(old(resumeEvt).Some? && old(resumeEvt).value in fired) ==> resumeEvt == old(resumeEvt)
    {
      if resumeEvt.Some? && resumeEvt.value in fired {
        resumeEvt := None;
        if !held {
          grant := true;
        }
      }
    }

    method ReleaseThrottle()
      modifies this`grant, this`held, this`fwdActive
      ensures State() == old(State()).(grant := true, held := false, fwdActive := false)
    {
      grant, held, fwdActive := true, false, false;
    }

    /** A protected step, a prefill still running or a held throttle keep the child from starting. */
    method ExecuteTrigger(f: Option<Feats>, fired: set<nat>)
      modifies this`grant, this`resumeEvt, this`pending
      ensures State() == old(State()).PrePause(settings, f, fired).Fire()
      ensures pending
      ensures !grant <==>
                || !old(grant) || fwdActive || (prefillEvt.Some? && prefillEvt.value !in fired)
                || (f.Some? && f.value.tIn > f.value.tFt)
                || (f.Some? && settings.throttle && settings.threshold > 0
                    && f.value.tIn - f.value.tFt + f.value.bD >= settings.threshold)
      ensures resumeEvt == if prefillEvt.Some? && prefillEvt.value !in fired then prefillEvt else old(resumeEvt)
    {
      if f.Some? {
        var inference := f.value.tIn - f.value.tFt;
        if inference > 0
           || (settings.throttle && settings.threshold > 0 && inference + f.value.bD >= settings.threshold) {
          grant := false;
        }
      }
      if prefillEvt.Some? && prefillEvt.value !in fired {
        grant := false;
        resumeEvt := prefillEvt;
      }
      if fwdActive {
        grant := false;
      }
      pending := true;
    }

    method BeforeStep(f: Option<Feats>, cmd: bool, fired: set<nat>)
      modifies this
      ensures State() == old(State()).BeforeStep(settings, f, cmd, fired)
      ensures old(State()).NotOrphaned() ==>
                && fwdActive == held
                && (!grant ==> held || resumeEvt.Some? || (f.Some? && State().PauseBwd(settings, f.value)))
    {
      if State().NotOrphaned() {
        BeforeStepLeaves(State(), settings, f, cmd, fired);
      }
      MaybeResumeBackward(fired);
      if held {
        var release := true;
        if f.Some? && settings.throttle && settings.threshold > 0 {
          release := f.value.tIn - f.value.tFt + f.value.bD < settings.threshold;
        }
        if release {
          ReleaseThrottle();
        }
      }
      if settings.relay && cmd {
        ExecuteTrigger(f, fired);
      }
    }

    /** While a backward is pending, a protected step runs with the grant cleared. */
    method PauseDecision(f: Feats) returns (pauseBwd: bool, pauseThrottle: bool)
      modifies this`grant, this`held, this`fwdActive
      ensures pauseBwd == old(State()).PauseBwd(settings, f) && pauseThrottle == old(State()).PauseThrottle(settings, f)
      ensures State() == old(State()).Decide(settings, f)
      ensures pauseThrottle <==>
                (pending || settings.always) && settings.throttle && settings.threshold > 0
                && f.tIn - f.tFt + f.bD >= settings.threshold
      ensures pauseBwd <==> ((pending || settings.always) && f.tIn > f.tFt) || pauseThrottle
      ensures if pauseBwd || old(held) then held == fwdActive == pauseThrottle else !held && fwdActive == old(fwdActive)
      ensures grant == if pauseBwd then false else old(held) || old(grant)
    {
      pauseBwd, pauseThrottle := false, false;
      if pending || settings.always {
        var inference := f.tIn - f.tFt;
        if settings.throttle && settings.threshold > 0 {
          pauseThrottle := inference + f.bD >= settings.threshold;
        }
        pauseBwd := inference > 0 || pauseThrottle;
      }
      if held && !pauseThrottle {
        ReleaseThrottle();
      }
      if pauseBwd {
        grant, held, fwdActive := false, pauseThrottle, pauseThrottle;
      }
    }

    /** A pause of this step alone is given back at once, or owed to an event recorded behind the
        step; a sticky one is left to the next decision. */
    method TimingEnd(f: Feats, ok: bool, pauseBwd: bool, pauseThrottle: bool)
      modifies this`grant, this`resumeEvt, this`prefillEvt, this`clock
      ensures State() == old(State()).End(settings, f, ok, pauseBwd, pauseThrottle)
      ensures pauseBwd && !pauseThrottle ==>
                if ok && settings.untilDone then grant == old(grant) && clock > old(clock) && resumeEvt == Some(clock - 1)
                else grant && resumeEvt == old(resumeEvt)
      ensures !pauseBwd || pauseThrottle ==> grant == old(grant) && resumeEvt == old(resumeEvt)
      ensures prefillEvt == if ok && settings.relay && f.tIn > f.tFt then Some(old(clock)) else old(prefillEvt)
    {
      if ok && settings.relay && f.tIn > f.tFt {
        prefillEvt := Some(clock);
        clock := clock + 1;
      }
      if pauseBwd && !pauseThrottle {
        if ok && settings.untilDone {
          resumeEvt := Some(clock);
          clock := clock + 1;
        } else {
          grant := true;
        }
      }
    }

    /** One call: before the step, the forward with its pause, and the poll when sampling. */
    method RunStep(f: Option<Feats>, cmd: bool, ok: bool, fired: set<nat>, later: set<nat>)
      requires State().NotOrphaned()
      modifies this
      ensures State() == old(State()).Step(settings, f, cmd, ok, fired, later) && State().NotOrphaned()
    {
      StepKeeps(State(), settings, f, cmd, ok, fired, later);
      BeforeStep(f, cmd, fired);
      if f.Some? {
        var pauseBwd, pauseThrottle := PauseDecision(f.value);
        TimingEnd(f.value, ok, pauseBwd, pauseThrottle);
      }
      MaybeResumeBackward(later);
    }
  }
}
