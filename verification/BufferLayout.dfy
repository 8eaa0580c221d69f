/** Where the rows go. Write offsets are handed out as `fill + reserved` and a rollback only
    subtracts a count, so the layout is right exactly when commits take the oldest step and
    rollbacks the newest. Both directions are proved, and what goes wrong otherwise. */
module BufferLayout {
  import opened Samples
  import opened Coordinator
  import opened FinetuningStore
  import opened StepSpec
  import opened Lifecycle

  /** The windows of the steps in flight follow each other without gap or overlap, in schedule
      order, from row `at`. */
  ghost predicate Tiled(at: nat, fs: seq<Flight>)
    decreases |fs|
  {
    fs == [] || (fs[0].o.offset == at && Tiled(at + fs[0].o.n, fs[1..]))
  }

  /** The committed prefix of the buffer holds the committed rows in order, and every row a
      running forward has saved is at its place in its own window. */
  ghost predicate Content(buf: seq<Row>, fill: nat, done: seq<Chunk>, fs: seq<Flight>) {
    && fill <= |buf|
    && buf[..fill] == Rows(done)
    && forall i | 0 <= i < |fs| :: Saved(buf, fs[i])
  }

  ghost predicate Saved(buf: seq<Row>, f: Flight) {
    forall r | r in f.written :: r < |Rows(f.o.batch)| && f.o.offset + r < |buf| && buf[f.o.offset + r] == Rows(f.o.batch)[r]
  }

  ghost predicate LaidOut(s: Sys) {
    Tiled(s.k.c.fill, s.inflight) && Content(s.buf, s.k.c.fill, s.done, s.inflight)
  }

  ghost predicate InOrder(s: Sys, e: Event) {
    match e
    case DoCommit(at) => at == 0
    case DoRollback(at, _) => at == |s.inflight| - 1
    case _ => true
  }

  ghost predicate InOrderRun(s: Sys, es: seq<Event>, t: Sys)
    decreases |es|
  {
    if es == [] then s == t
    else Enabled(s, es[0]) && InOrder(s, es[0]) && InOrderRun(Apply(s, es[0]), es[1..], t)
  }

  // ---------------------------------------------------------------- offsets

  lemma {:induction false} TiledConcat(at: nat, a: seq<Flight>, b: seq<Flight>)
    ensures Tiled(at, a + b) <==> Tiled(at, a) && Tiled(at + FlightTokens(a), b)
    decreases |a|
  {
    if a == [] {
      assert a + b == b;
    } else {
      assert (a + b)[1..] == a[1..] + b;
      TiledConcat(at + a[0].o.n, a[1..], b);
    }
  }

  lemma TiledOffset(at: nat, fs: seq<Flight>, i: nat)
    requires Tiled(at, fs) && i < |fs|
    ensures fs[i].o.offset == at + FlightTokens(fs[..i])
    ensures at + FlightTokens(fs[..i]) + fs[i].o.n + FlightTokens(fs[i + 1..]) == at + FlightTokens(fs)
  {
    assert fs == fs[..i] + fs[i..];
    TiledConcat(at, fs[..i], fs[i..]);
    FlightConcat(fs[..i], fs[i..]);
  }

  /** Windows of different steps do not meet. */
  lemma TiledDisjoint(at: nat, fs: seq<Flight>, i: nat, j: nat)
    requires Tiled(at, fs) && i < j < |fs|
    ensures at <= fs[i].o.offset && fs[i].o.offset + fs[i].o.n <= fs[j].o.offset
  {
    TiledOffset(at, fs, i);
    TiledOffset(at, fs, j);
    assert fs[..j] == fs[..i] + ([fs[i]] + fs[i + 1..j]);
    FlightConcat(fs[..i], [fs[i]] + fs[i + 1..j]);
    FlightConcat([fs[i]], fs[i + 1..j]);
    assert FlightTokens([fs[i]]) == fs[i].o.n;
  }

  /** The FT rows of a schedule start where the last reservation ends. */
  lemma ScheduleTiled(s: Sys, i: ScheduleInput)
    requires Inv(s) && ScheduleOk(s.k, i) && Tiled(s.k.c.fill, s.inflight)
    ensures var t := Apply(s, DoSchedule(i)); Tiled(t.k.c.fill, t.inflight)
  {
    var s0, o := ScheduleParts(s, i);
    AppendTiled(s0.k.c, s0.inflight, o);
  }

  lemma AppendTiled(c: Coord, fs: seq<Flight>, o: StepOut)
    requires Tiled(c.fill, fs) && c.reserved == FlightTokens(fs) && o.offset == c.fill + c.reserved
    ensures Tiled(c.fill, fs + [Flight(o, {})])
  {
    TiledConcat(c.fill, fs, [Flight(o, {})]);
  }

  lemma CommitTiled(c: Coord, fs: seq<Flight>, at: nat)
    requires Tiled(c.fill, fs) && at < |fs| && fs[at].o.n > 0
    requires forall i | 0 <= i < |fs| :: fs[i].o.n > 0
    ensures Tiled(c.fill + fs[at].o.n, Without(fs, at)) <==> at == 0
  {
    if at == 0 {
      assert Without(fs, 0) == fs[1..];
    } else {
      assert Without(fs, at)[0] == fs[0];
    }
  }

  lemma TiledCons(at: nat, f: Flight, rest: seq<Flight>)
    ensures Tiled(at, [f] + rest) <==> f.o.offset == at && Tiled(at + f.o.n, rest)
  {
    assert ([f] + rest)[1..] == rest;
  }

  /** Taking the step `f` out of the middle keeps the windows tiled only if nothing follows it. */
  lemma TakenOut(from: nat, before: seq<Flight>, f: Flight, rest: seq<Flight>)
    requires Tiled(from, before + ([f] + rest)) && f.o.n > 0
    ensures Tiled(from, before + rest) <==> rest == []
  {
    var here := from + FlightTokens(before);
    TiledConcat(from, before, [f] + rest);
    TiledConcat(from, before, rest);
    TiledCons(here, f, rest);
    NotBoth(here, here + f.o.n, rest);
  }

  lemma RollbackTiled(c: Coord, fs: seq<Flight>, at: nat)
    requires Tiled(c.fill, fs) && at < |fs| && fs[at].o.n > 0
    ensures Tiled(c.fill, Without(fs, at)) <==> at == |fs| - 1
  {
    SplitAt(fs, at);
    TakenOut(c.fill, fs[..at], fs[at], fs[at + 1..]);
  }

  lemma NotBoth(x: nat, y: nat, rest: seq<Flight>)
    requires x < y && Tiled(y, rest)
    ensures Tiled(x, rest) <==> rest == []
  {
  }

  lemma WriteTiled(at: nat, fs: seq<Flight>, i: nat, g: Flight)
    requires Tiled(at, fs) && i < |fs| && g.o == fs[i].o
    ensures Tiled(at, fs[i := g])
  {
    assert fs == fs[..i] + ([fs[i]] + fs[i + 1..]);
    assert fs[i := g] == fs[..i] + ([g] + fs[i + 1..]);
    TiledConcat(at, fs[..i], [fs[i]] + fs[i + 1..]);
    TiledConcat(at, fs[..i], [g] + fs[i + 1..]);
    TiledCons(at + FlightTokens(fs[..i]), fs[i], fs[i + 1..]);
    TiledCons(at + FlightTokens(fs[..i]), g, fs[i + 1..]);
  }

  lemma CommitLayout(s: Sys, at: nat)
    requires Inv(s) && Tiled(s.k.c.fill, s.inflight) && Enabled(s, DoCommit(at))
    ensures var t := Apply(s, DoCommit(at));
            && t.k.c.fill == s.k.c.fill + s.inflight[at].o.n
            && (Tiled(t.k.c.fill, t.inflight) <==> at == 0)
  {
    assert forall i | 0 <= i < |s.inflight| :: FlightOk(s.inflight[i], s.k.c.capacity);
    CommitTiled(s.k.c, s.inflight, at);
  }

  lemma RollbackLayout(s: Sys, at: nat, wipe: bool)
    requires Inv(s) && Tiled(s.k.c.fill, s.inflight) && Enabled(s, DoRollback(at, wipe))
    ensures var t := Apply(s, DoRollback(at, wipe));
            && t.k.c.fill == s.k.c.fill
            && (Tiled(t.k.c.fill, t.inflight) <==> at == |s.inflight| - 1)
  {
    assert FlightOk(s.inflight[at], s.k.c.capacity);
    RollbackTiled(s.k.c, s.inflight, at);
  }

  /** From a tiled state the next state is tiled if and only if the step is in order: a commit
      of the oldest step in flight, a rollback of the newest, or anything else. */
  lemma TiledExactlyInOrder(s: Sys, e: Event)
    requires Inv(s) && Tiled(s.k.c.fill, s.inflight) && Enabled(s, e)
    ensures Tiled(Apply(s, e).k.c.fill, Apply(s, e).inflight) <==> InOrder(s, e)
  {
    match e
    case DoSchedule(i) => ScheduleTiled(s, i);
    case DoWrite(at, row) =>
      WriteTiled(s.k.c.fill, s.inflight, at, s.inflight[at].(written := s.inflight[at].written + {row}));
    case DoCommit(at) => CommitLayout(s, at);
    case DoRollback(at, wipe) => RollbackLayout(s, at, wipe);
    case DoRelayedAck =>
    case DoStart(_) =>
    case DoDisable =>
  }

  // ---------------------------------------------------------------- contents

  lemma {:induction false} RowsConcat(a: seq<Chunk>, b: seq<Chunk>)
    ensures Rows(a + b) == Rows(a) + Rows(b)
  {
    if a == [] {
      assert a + b == b;
    } else {
      assert (a + b)[1..] == a[1..] + b;
      RowsConcat(a[1..], b);
    }
  }

  /** Every step in flight fits the buffer, has some rows, and has saved only rows it has. */
  ghost predicate Fit(fs: seq<Flight>, capacity: nat) {
    forall i | 0 <= i < |fs| ::
      && fs[i].o.n == |Rows(fs[i].o.batch)| > 0
      && fs[i].o.offset + fs[i].o.n <= capacity
      && forall r | r in fs[i].written :: r < fs[i].o.n
  }

  lemma FlightsFit(fs: seq<Flight>, capacity: nat)
    requires FlightsOk(fs, capacity)
    ensures Fit(fs, capacity)
  {
    assert forall i | 0 <= i < |fs| :: FlightOk(fs[i], capacity);
  }

  lemma SavedElsewhere(buf: seq<Row>, at: nat, x: Row, f: Flight)
    requires Saved(buf, f) && f.o.n == |Rows(f.o.batch)| && (forall r | r in f.written :: r < f.o.n)
    requires at < |buf| && (at < f.o.offset || f.o.offset + f.o.n <= at)
    ensures Saved(buf[at := x], f)
  {
  }

  lemma SavedHere(buf: seq<Row>, f: Flight, row: nat)
    requires Saved(buf, f) && row < |Rows(f.o.batch)| && f.o.offset + row < |buf|
    ensures Saved(buf[f.o.offset + row := Rows(f.o.batch)[row]], f.(written := f.written + {row}))
  {
  }

  /** A write into one window leaves the committed prefix and the other windows alone. */
  lemma WriteContent(buf: seq<Row>, fill: nat, done: seq<Chunk>, fs: seq<Flight>, at: nat, row: nat)
    requires Fit(fs, |buf|) && Tiled(fill, fs) && Content(buf, fill, done, fs)
    requires at < |fs| && row < fs[at].o.n
    ensures Content(buf[fs[at].o.offset + row := Rows(fs[at].o.batch)[row]], fill, done,
                    fs[at := fs[at].(written := fs[at].written + {row})])
  {
    var here := fs[at].o.offset + row;
    var x := Rows(fs[at].o.batch)[row];
    var after := fs[at := fs[at].(written := fs[at].written + {row})];
    TiledOffset(fill, fs, at);
    assert buf[here := x][..fill] == buf[..fill];
    forall i | 0 <= i < |after| ensures Saved(buf[here := x], after[i]) {
      assert Saved(buf, fs[i]);
      if i == at {
        SavedHere(buf, fs[at], row);
      } else {
        if i < at {
          TiledDisjoint(fill, fs, i, at);
        } else {
          TiledDisjoint(fill, fs, at, i);
        }
        SavedElsewhere(buf, here, x, fs[i]);
      }
    }
  }

  lemma CommitPrefix(buf: seq<Row>, fill: nat, done: seq<Chunk>, f: Flight)
    requires fill + f.o.n <= |buf| && buf[..fill] == Rows(done) && Saved(buf, f) && f.o.offset == fill
    requires f.o.n == |Rows(f.o.batch)| && forall r: nat | r < f.o.n :: r in f.written
    ensures buf[..fill + f.o.n] == Rows(done + f.o.batch)
  {
    WindowSaved(buf, fill, f);
    RowsConcat(done, f.o.batch);
    JoinSlices(buf, fill, fill + f.o.n);
  }

  lemma RestSaved(buf: seq<Row>, fs: seq<Flight>)
    requires fs != [] && forall i | 0 <= i < |fs| :: Saved(buf, fs[i])
    ensures forall i | 0 <= i < |Without(fs, 0)| :: Saved(buf, Without(fs, 0)[i])
  {
    var rest := Without(fs, 0);
    forall i | 0 <= i < |rest| ensures Saved(buf, rest[i]) {
      assert rest[i] == fs[i + 1];
    }
  }

  lemma CommitContent(buf: seq<Row>, fill: nat, done: seq<Chunk>, fs: seq<Flight>)
    requires Fit(fs, |buf|) && Tiled(fill, fs) && Content(buf, fill, done, fs)
    requires fs != [] && forall r: nat | r < fs[0].o.n :: r in fs[0].written
    ensures Content(buf, fill + fs[0].o.n, done + fs[0].o.batch, Without(fs, 0))
  {
    CommitPrefix(buf, fill, done, fs[0]);
    RestSaved(buf, fs);
  }

  lemma JoinSlices<T>(s: seq<T>, a: nat, b: nat)
    requires a <= b <= |s|
    ensures s[..b] == s[..a] + s[a..b]
  {
  }

  lemma WindowSaved(buf: seq<Row>, fill: nat, f: Flight)
    requires Saved(buf, f) && f.o.offset == fill && fill + f.o.n <= |buf| && f.o.n == |Rows(f.o.batch)|
    requires forall r: nat | r < f.o.n :: r in f.written
    ensures buf[fill..fill + f.o.n] == Rows(f.o.batch)
  {
    forall r: nat | r < f.o.n ensures buf[fill..fill + f.o.n][r] == Rows(f.o.batch)[r] {
      assert r in f.written;
    }
  }

  lemma RollbackContent(buf: seq<Row>, fill: nat, done: seq<Chunk>, fs: seq<Flight>)
    requires Fit(fs, |buf|) && Tiled(fill, fs) && Content(buf, fill, done, fs) && fs != []
    ensures var last := |fs| - 1;
            && Content(buf, fill, done, Without(fs, last))
            && Content(Wiped(buf, fs[last].o.offset, fs[last].o.n), fill, done, Without(fs, last))
  {
    var last := |fs| - 1;
    var after := Wiped(buf, fs[last].o.offset, fs[last].o.n);
    TiledOffset(fill, fs, last);
    assert after[..fill] == buf[..fill];
    assert Without(fs, last) == fs[..last];
    forall i | 0 <= i < last ensures Saved(after, fs[i]) && Saved(buf, fs[i]) {
      assert Saved(buf, fs[i]);
      TiledDisjoint(fill, fs, i, last);
    }
  }

  lemma ScheduleContent(s: Sys, i: ScheduleInput)
    requires Inv(s) && LaidOut(s) && ScheduleOk(s.k, i)
    ensures LaidOut(Apply(s, DoSchedule(i)))
  {
    ScheduleTiled(s, i);
    var s0, o := ScheduleParts(s, i);
    PrologueFill(s.k, i.ack, i.throttle);
    AppendContent(s.buf, s0.k.c.fill, s0.done, s0.inflight, Flight(o, {}));
  }

  lemma PrologueFill(k: Core, ack: bool, throttle: Throttle)
    ensures Prologue(k, ack, throttle).c.fill == if ack then 0 else k.c.fill
  {
  }

  lemma AppendContent(buf: seq<Row>, fill: nat, done: seq<Chunk>, fs: seq<Flight>, f: Flight)
    requires Content(buf, fill, done, fs) && f.written == {}
    ensures Content(buf, fill, done, fs + [f])
  {
  }

  lemma WriteLayout(s: Sys, at: nat, row: nat)
    requires Inv(s) && LaidOut(s) && Enabled(s, DoWrite(at, row))
    ensures LaidOut(Apply(s, DoWrite(at, row)))
  {
    FlightsFit(s.inflight, |s.buf|);
    TiledExactlyInOrder(s, DoWrite(at, row));
    WriteContent(s.buf, s.k.c.fill, s.done, s.inflight, at, row);
  }

  lemma CommitInOrder(s: Sys)
    requires Inv(s) && LaidOut(s) && Enabled(s, DoCommit(0))
    ensures LaidOut(Apply(s, DoCommit(0)))
  {
    FlightsFit(s.inflight, |s.buf|);
    CommitLayout(s, 0);
    CommitContent(s.buf, s.k.c.fill, s.done, s.inflight);
  }

  lemma RollbackInOrder(s: Sys, at: nat, wipe: bool)
    requires Inv(s) && LaidOut(s) && Enabled(s, DoRollback(at, wipe)) && at == |s.inflight| - 1
    ensures LaidOut(Apply(s, DoRollback(at, wipe)))
  {
    FlightsFit(s.inflight, |s.buf|);
    RollbackLayout(s, at, wipe);
    RollbackContent(s.buf, s.k.c.fill, s.done, s.inflight);
  }

  lemma InOrderStep(s: Sys, e: Event)
    requires Inv(s) && LaidOut(s) && Enabled(s, e) && InOrder(s, e)
    ensures LaidOut(Apply(s, e))
  {
    match e
    case DoSchedule(i) => ScheduleContent(s, i);
    case DoWrite(at, row) => WriteLayout(s, at, row);
    case DoCommit(at) => CommitInOrder(s);
    case DoRollback(at, wipe) => RollbackInOrder(s, at, wipe);
    case DoRelayedAck =>
    case DoStart(_) =>
    case DoDisable =>
  }

  lemma InitLaidOut(s: Sys)
    requires Init(s)
    ensures LaidOut(s)
  {
  }

  /** In every run whose commits take the oldest step in flight and whose rollbacks take the
      newest: windows tile the reserved region, and the committed prefix of the buffer is the
      committed rows, in the order of `sampleLens`. */
  lemma {:induction false} InOrderRunsLayOut(s: Sys, es: seq<Event>, t: Sys)
    requires Inv(s) && LaidOut(s) && InOrderRun(s, es, t)
    ensures Inv(t) && LaidOut(t)
    decreases |es|
  {
    if es != [] {
      StepKeepsInv(s, es[0]);
      InOrderStep(s, es[0]);
      InOrderRunsLayOut(Apply(s, es[0]), es[1..], t);
    }
  }

  /** Out of order the claim is not merely unproved but false: whenever the oldest of several
      steps in flight is aborted (its rows zeroed) and the next one then commits, the
      committed prefix holds a zeroed row where the trained sample's first row should be. */
  lemma AbortOfOlderCorrupts(s: Sys)
    requires Inv(s) && LaidOut(s) && |s.inflight| > 1
    requires forall r: nat | r < s.inflight[1].o.n :: r in s.inflight[1].written
    ensures Enabled(s, DoRollback(0, true)) && Enabled(Apply(s, DoRollback(0, true)), DoCommit(0))
    ensures var t := Apply(Apply(s, DoRollback(0, true)), DoCommit(0));
            && s.k.c.fill < t.k.c.fill <= |t.buf| && |Rows(t.done)| == t.k.c.fill
            && t.buf[s.k.c.fill] == Blank && Rows(t.done)[s.k.c.fill].Row?
            && t.buf[..t.k.c.fill] != Rows(t.done)
  {
    var e := DoRollback(0, true);
    FlightsFit(s.inflight, |s.buf|);
    RollbackStep(s, 0, true);
    assert Apply(s, e).inflight == s.inflight[1..];
    HeadWiped(s, s.inflight[0].o);
    AfterBadAbort(Apply(s, e), s.k.c.fill, s.inflight[1]);
  }

  /** Two steps write a common row. */
  ghost predicate Meet(a: StepOut, b: StepOut) {
    exists row: nat :: InWindow(a, row) && InWindow(b, row)
  }

  predicate InWindow(o: StepOut, row: nat) {
    o.offset <= row < o.offset + o.n
  }

  /** Where a step scheduled after that abort would write: its offset is lower than the end of the
      last window by what was given back, so its rows land in a window of a step still in flight
      exactly when it and the steps in flight bring more tokens than were aborted. */
  lemma ScheduleAfterAbortMeets(s: Sys, wipe: bool, i: ScheduleInput)
    requires Inv(s) && LaidOut(s) && |s.inflight| > 1 && Enabled(s, DoRollback(0, wipe))
    requires ScheduleOk(Apply(s, DoRollback(0, wipe)).k, i) && i.batch != []
    ensures var u := Apply(s, DoRollback(0, wipe)); var t := Apply(u, DoSchedule(i));
            && t.inflight != [] && t.inflight[..|t.inflight| - 1] == s.inflight[1..]
            && var o := t.inflight[|t.inflight| - 1].o; var gone := s.inflight[0].o.n;
               && o.n == Tokens(i.batch) > 0 && o.offset == s.k.c.fill + FlightTokens(s.inflight[1..])
               && ((exists j | 1 <= j < |s.inflight| :: Meet(o, s.inflight[j].o)) <==>
                   FlightTokens(s.inflight[1..]) + o.n > gone)
  {
    var u := Apply(s, DoRollback(0, wipe));
    AbortedOldest(s, wipe);
    RollbackStep(s, 0, wipe);
    var s0, o := ScheduleParts(u, i);
    TokensPositive(u.k, i);
    MeetExactly(s.k.c.fill, s.inflight, o);
  }

  lemma AbortedOldest(s: Sys, wipe: bool)
    requires Inv(s) && |s.inflight| > 1 && Enabled(s, DoRollback(0, wipe))
    ensures var u := Apply(s, DoRollback(0, wipe));
            u.inflight == s.inflight[1..] && u.k.c.fill == s.k.c.fill && u.k.c.reserved == FlightTokens(s.inflight[1..])
            && !u.k.c.pending
  {
    RollbackStep(s, 0, wipe);
  }

  lemma MeetExactly(fill: nat, fs: seq<Flight>, o: StepOut)
    requires Tiled(fill, fs) && |fs| > 1 && fs[0].o.n > 0 && fs[1].o.n > 0 && o.n > 0
    requires o.offset == fill + FlightTokens(fs[1..])
    ensures (exists j | 1 <= j < |fs| :: Meet(o, fs[j].o)) <==> FlightTokens(fs[1..]) + o.n > fs[0].o.n
  {
    var rest := FlightTokens(fs[1..]);
    if j :| 1 <= j < |fs| && Meet(o, fs[j].o) {
      TiledDisjoint(fill, fs, 0, j);
    }
    if rest + o.n > fs[0].o.n {
      if rest <= fs[0].o.n {
        assert InWindow(fs[1].o, fill + fs[0].o.n) && InWindow(o, fill + fs[0].o.n);
        assert Meet(o, fs[1].o);
      } else {
        var j := Covered(fill + fs[0].o.n, fs[1..], o.offset);
        assert InWindow(o, o.offset) && InWindow(fs[j + 1].o, o.offset);
        assert Meet(o, fs[j + 1].o);
      }
    }
  }

  /** Every row below the end of tiled windows is in one of them. */
  lemma {:induction false} Covered(at: nat, fs: seq<Flight>, row: nat) returns (j: nat)
    requires Tiled(at, fs) && at <= row < at + FlightTokens(fs)
    ensures j < |fs| && InWindow(fs[j].o, row)
    decreases |fs|
  {
    if row < at + fs[0].o.n {
      j := 0;
    } else {
      j := Covered(at + fs[0].o.n, fs[1..], row);
      j := j + 1;
    }
  }

  lemma TokensPositive(k: Core, i: ScheduleInput)
    requires ScheduleOk(k, i) && i.batch != []
    ensures Tokens(i.batch) > 0
  {
    BatchWithinAdmitted(i.batch, i.admitted);
  }

  lemma WipedAt(buf: seq<Row>, from: nat, n: nat)
    requires n > 0 && from < |buf|
    ensures |Wiped(buf, from, n)| == |buf| && Wiped(buf, from, n)[from] == Blank
  {
  }

  lemma HeadWiped(s: Sys, o: StepOut)
    requires Inv(s) && LaidOut(s) && s.inflight != [] && s.inflight[0].o == o && o.n > 0
    requires Fit(s.inflight, |s.buf|) && Enabled(s, DoRollback(0, true))
    ensures var u := Apply(s, DoRollback(0, true));
            u.k.c.fill == s.k.c.fill < |u.buf| && u.buf[s.k.c.fill] == Blank
  {
    assert o.offset == s.k.c.fill;
    WipedAt(s.buf, o.offset, o.n);
  }

  lemma AfterBadAbort(u: Sys, from: nat, g: Flight)
    requires Inv(u) && Enabled(u, DoCommit(0)) && u.inflight[0] == g && g.o.n == |Rows(g.o.batch)| > 0
    requires u.k.c.fill == from < |u.buf| && u.buf[from] == Blank
    ensures var t := Apply(u, DoCommit(0));
            && from < t.k.c.fill <= |t.buf| && |Rows(t.done)| == t.k.c.fill
            && t.buf[from] == Blank && Rows(t.done)[from].Row?
            && t.buf[..t.k.c.fill] != Rows(t.done)
  {
    var t := Apply(u, DoCommit(0));
    CommitStep(u, 0);
    CommitFill(u.k.c, g.o);
    CountedRows(u);
    CountedRows(t);
    FirstNewRow(u.done, g.o.batch);
    DifferAt(t.buf, t.k.c.fill, Rows(t.done), from);
  }

  lemma {:induction false} FirstNewRow(done: seq<Chunk>, batch: seq<Chunk>)
    requires |Rows(batch)| > 0
    ensures |Rows(done + batch)| > |Rows(done)| && Rows(done + batch)[|Rows(done)|].Row?
  {
    RowsConcat(done, batch);
    RowsAreRows(batch);
    assert Rows(done + batch)[|Rows(done)|] == Rows(batch)[0];
  }

  lemma DifferAt(buf: seq<Row>, n: nat, rows: seq<Row>, at: nat)
    requires at < n <= |buf| && n == |rows| && buf[at] == Blank && rows[at].Row?
    ensures buf[..n] != rows
  {
    assert buf[..n][at] == Blank;
  }

  lemma CommitFill(c: Coord, o: StepOut)
    ensures c.RecordCapture(o.n, ChunkLens(o.batch)).fill == c.fill + o.n
  {
  }

  lemma CountedRows(s: Sys)
    requires Inv(s)
    ensures |Rows(s.done)| == s.k.c.fill <= |s.buf|
  {
  }

  lemma {:induction false} RowsAreRows(batch: seq<Chunk>)
    ensures forall r | 0 <= r < |Rows(batch)| :: Rows(batch)[r].Row?
  {
    if batch != [] {
      RowsAreRows(batch[1..]);
    }
  }
}
