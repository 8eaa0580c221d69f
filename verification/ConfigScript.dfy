/** The conversion script's two loops: collecting the lines, and writing them out. */
module ConfigScript {
  import opened Samples
  import opened ConfigLines
  import opened ConfigLayout
  import opened ConfigConvert
  import opened ConfigIdempotence
  import opened ConfigMeaning

  /** What the first loop updates. `pending` are the comment and blank lines awaiting their key. */
  datatype Reading = Reading(
    preamble: seq<string>, order: seq<string>, body: map<string, seq<string>>, header: map<string, string>,
    items: map<string, seq<seq<string>>>, tails: map<string, seq<string>>, cur: Option<string>, pending: seq<string>)

  function Nonblank(lines: seq<string>): seq<string> {
    if lines == [] then []
    else
      var k := |lines| - 1;
      if Blank(lines[k]) then Nonblank(lines[..k]) else Nonblank(lines[..k]) + [lines[k]]
  }

  /** The section being read, and those before it. */
  function Before(secs: seq<Sec>): seq<Sec> {
    if secs == [] then [] else secs[..|secs| - 1]
  }

  function Waiting(t: Tables, secs: seq<Sec>): seq<string> {
    if secs == [] || !t.IsFt(secs[|secs| - 1].name) then []
    else Walk(t, secs[|secs| - 1].body, secs[|secs| - 1].name).pending
  }

  ghost predicate HeaderAt(secs: seq<Sec>, header: map<string, string>, n: string) {
    (n in header <==> !Absent(secs, n)) && (n in header ==> header[n] == HeaderOf(secs, n))
  }

  ghost predicate BodyAt(t: Tables, secs: seq<Sec>, body: map<string, seq<string>>, n: string) {
    (n in body <==> !Absent(secs, n)) && (n in body && !t.IsFt(n) ==> body[n] == Merged(secs, n))
  }

  ghost predicate ItemsAt(t: Tables, secs: seq<Sec>, items: map<string, seq<seq<string>>>, n: string) {
    (n in items <==> t.IsFt(n)) && (n in items ==> items[n] == BlocksFor(t, secs, n))
  }

  ghost predicate TailAt(t: Tables, secs: seq<Sec>, tails: map<string, seq<string>>, n: string) {
    (n in tails <==> t.IsFt(n)) && (n in tails ==> Nonblank(tails[n]) == Tails(t, secs, n))
  }

  ghost predicate HeadersOk(secs: seq<Sec>, r: Reading) {
    && r.order == Names(secs)
    && r.cur == (if secs == [] then None else Some(secs[|secs| - 1].name))
    && forall n {:trigger HeaderAt(secs, r.header, n)} :: HeaderAt(secs, r.header, n)
  }

  ghost predicate BodiesOk(t: Tables, secs: seq<Sec>, r: Reading) {
    forall n {:trigger BodyAt(t, secs, r.body, n)} :: BodyAt(t, secs, r.body, n)
  }

  ghost predicate BlocksListed(t: Tables, secs: seq<Sec>, items: map<string, seq<seq<string>>>) {
    forall n {:trigger ItemsAt(t, secs, items, n)} :: ItemsAt(t, secs, items, n)
  }

  ghost predicate TailsListed(t: Tables, secs: seq<Sec>, tails: map<string, seq<string>>) {
    forall n {:trigger TailAt(t, secs, tails, n)} :: TailAt(t, secs, tails, n)
  }

  ghost predicate ItemsOk(t: Tables, secs: seq<Sec>, r: Reading) {
    && BlocksListed(t, secs, r.items) && TailsListed(t, Before(secs), r.tails)
    && Nonblank(r.pending) == Waiting(t, secs)
  }

  ghost predicate ReadingOk(t: Tables, d: Doc, r: Reading) {
    r.preamble == d.preamble && HeadersOk(d.secs, r) && BodiesOk(t, d.secs, r) && ItemsOk(t, d.secs, r)
  }

  lemma NonblankConcat(a: seq<string>, b: seq<string>)
    ensures Nonblank(a + b) == Nonblank(a) + Nonblank(b)
    decreases |b|
  {
    if b == [] {
      assert a + b == a && Nonblank(a) + [] == Nonblank(a);
    } else {
      var k := |b| - 1;
      NonblankConcat(a, b[..k]);
      assert (a + b)[..|a| + k] == a + b[..k];
      Snoc(Nonblank(a), Nonblank(b[..k]), [b[k]]);
    }
  }

  // ---------------------------------------------------------------- a header

  lemma HeaderStep(t: Tables, secs: seq<Sec>, n: string, l: string, m: string)
    ensures var after := secs + [Sec(n, l, [])];
            && Before(after) == secs && Waiting(t, after) == []
            && BlocksFor(t, after, m) == BlocksFor(t, secs, m)
            && Merged(after, m) == Merged(secs, m)
            && HeaderOf(after, m) == (if m == n then l else HeaderOf(secs, m))
            && (Absent(after, m) <==> Absent(secs, m) && m != n)
  {
    var after := secs + [Sec(n, l, [])];
    assert after[..|secs|] == secs;
    assert after[|secs|].name == n;
    assert forall i | 0 <= i < |secs| :: after[i] == secs[i];
    assert BlocksFor(t, secs, m) + [] == BlocksFor(t, secs, m);
    assert Merged(secs, m) + [] == Merged(secs, m);
  }

  lemma HeaderKeepsHeaders(t: Tables, secs: seq<Sec>, r: Reading, n: string, l: string)
    requires HeadersOk(secs, r)
    ensures HeadersOk(secs + [Sec(n, l, [])], r.(cur := Some(n), order := r.order + [n], header := r.header[n := l]))
  {
    var after := secs + [Sec(n, l, [])];
    assert Names(after) == Names(secs) + [n];
    var header := r.header[n := l];
    forall m ensures HeaderAt(after, header, m) {
      assert HeaderAt(secs, r.header, m);
      HeaderStep(t, secs, n, l, m);
    }
  }

  lemma HeaderKeepsBodies(t: Tables, secs: seq<Sec>, r: Reading, n: string, l: string)
    requires BodiesOk(t, secs, r)
    ensures BodiesOk(t, secs + [Sec(n, l, [])], r.(body := if n in r.body then r.body else r.body[n := []]))
  {
    var after := secs + [Sec(n, l, [])];
    var body := if n in r.body then r.body else r.body[n := []];
    forall m ensures BodyAt(t, after, body, m) {
      assert BodyAt(t, secs, r.body, m);
      HeaderStep(t, secs, n, l, m);
      if Absent(secs, m) {
        AbsentMerged(secs, m);
      }
    }
  }

  /** The comments at the end of the section that ends here. */
  function Flushed(t: Tables, r: Reading): map<string, seq<string>> {
    if r.cur.Some? && t.IsFt(r.cur.value) && r.cur.value in r.tails
    then r.tails[r.cur.value := r.tails[r.cur.value] + r.pending] else r.tails
  }

  lemma TailsSplit(t: Tables, secs: seq<Sec>, n: string)
    requires t.IsFt(n)
    ensures Tails(t, secs, n)
            == Tails(t, Before(secs), n) + if secs != [] && secs[|secs| - 1].name == n then Waiting(t, secs) else []
  {
    assert Tails(t, Before(secs), n) + [] == Tails(t, Before(secs), n);
  }

  lemma FlushedTails(t: Tables, secs: seq<Sec>, r: Reading, n: string)
    requires HeadersOk(secs, r) && ItemsOk(t, secs, r)
    ensures TailAt(t, secs, Flushed(t, r), n)
  {
    assert TailAt(t, Before(secs), r.tails, n);
    if t.IsFt(n) {
      TailsSplit(t, secs, n);
      NonblankConcat(r.tails[n], r.pending);
      assert Nonblank(r.tails[n]) + [] == Nonblank(r.tails[n]);
    }
  }

  lemma HeaderKeepsItems(t: Tables, secs: seq<Sec>, r: Reading, n: string, l: string)
    requires HeadersOk(secs, r) && ItemsOk(t, secs, r)
    ensures ItemsOk(t, secs + [Sec(n, l, [])], r.(tails := Flushed(t, r), pending := []))
  {
    var after := secs + [Sec(n, l, [])];
    HeaderStep(t, secs, n, l, n);
    forall m ensures ItemsAt(t, after, r.items, m) {
      assert ItemsAt(t, secs, r.items, m);
      HeaderStep(t, secs, n, l, m);
    }
    forall m ensures TailAt(t, secs, Flushed(t, r), m) {
      FlushedTails(t, secs, r, m);
    }
  }

  // ---------------------------------------------------------------- a line of a section

  /** The section list with one more line in the last section. */
  function Longer(secs: seq<Sec>, l: string): seq<Sec>
    requires secs != []
  {
    var k := |secs| - 1;
    secs[k := secs[k].(body := secs[k].body + [l])]
  }

  lemma LongerStep(secs: seq<Sec>, l: string, m: string)
    requires secs != []
    ensures var k := |secs| - 1; var after := Longer(secs, l);
            && Before(after) == Before(secs) && Names(after) == Names(secs)
            && HeaderOf(after, m) == HeaderOf(secs, m) && (Absent(after, m) <==> Absent(secs, m))
            && Merged(after, m) == if m == secs[k].name then Merged(secs, m) + [l] else Merged(secs, m)
  {
    var k := |secs| - 1;
    var after := Longer(secs, l);
    assert after[..k] == secs[..k];
    Snoc(Merged(secs[..k], m), secs[k].body, [l]);
    assert forall i | 0 <= i < |secs| :: after[i].name == secs[i].name;
  }

  lemma LongerKeepsHeaders(secs: seq<Sec>, r: Reading, l: string)
    requires secs != [] && HeadersOk(secs, r)
    ensures HeadersOk(Longer(secs, l), r)
  {
    LongerStep(secs, l, "");
    forall m ensures HeaderAt(Longer(secs, l), r.header, m) {
      assert HeaderAt(secs, r.header, m);
      LongerStep(secs, l, m);
    }
  }

  lemma LongerKeepsBodies(t: Tables, secs: seq<Sec>, r: Reading, l: string)
    requires secs != [] && BodiesOk(t, secs, r)
    ensures var n := secs[|secs| - 1].name;
            && n in r.body
            && BodiesOk(t, Longer(secs, l), if t.IsFt(n) then r else r.(body := r.body[n := r.body[n] + [l]]))
  {
    var n := secs[|secs| - 1].name;
    assert BodyAt(t, secs, r.body, n) && !Absent(secs, n);
    var body := if t.IsFt(n) then r.body else r.body[n := r.body[n] + [l]];
    forall m ensures BodyAt(t, Longer(secs, l), body, m) {
      assert BodyAt(t, secs, r.body, m);
      LongerStep(secs, l, m);
    }
  }

  lemma LongerBlocks(t: Tables, secs: seq<Sec>, l: string, m: string)
    requires secs != []
    ensures var s := secs[|secs| - 1]; var after := Longer(secs, l);
            && BlocksFor(t, secs, m) == (if t.IsFt(s.name) then BlocksFor(t, Before(secs), m) + BlocksTo(Walk(t, s.body, s.name).items, m)
                                         else BlocksFor(t, Before(secs), m))
            && BlocksFor(t, after, m) == (if t.IsFt(s.name)
                 then BlocksFor(t, Before(secs), m) + BlocksTo(WalkLine(t, Walk(t, s.body, s.name), s.name, l).items, m)
                 else BlocksFor(t, Before(secs), m))
            && Waiting(t, after) == (if t.IsFt(s.name) then WalkLine(t, Walk(t, s.body, s.name), s.name, l).pending else [])
  {
    var k := |secs| - 1;
    assert Longer(secs, l)[..k] == secs[..k];
    WalkSnoc(t, secs[k].body, secs[k].name, l);
  }

  /** Lines that add no item. */
  lemma NothingListed(t: Tables, secs: seq<Sec>, items: map<string, seq<seq<string>>>, l: string)
    requires secs != [] && BlocksListed(t, secs, items)
    requires t.IsFt(secs[|secs| - 1].name) ==> !IsItemLine(l) || t.IsRetired(KeyName(l))
    ensures BlocksListed(t, Longer(secs, l), items) && Before(Longer(secs, l)) == Before(secs)
  {
    LongerStep(secs, l, "");
    forall m ensures ItemsAt(t, Longer(secs, l), items, m) {
      assert ItemsAt(t, secs, items, m);
      LongerBlocks(t, secs, l, m);
    }
  }

  /** Outside finetune a line changes no item. */
  lemma OtherKeepsItems(t: Tables, secs: seq<Sec>, r: Reading, l: string)
    requires secs != [] && !t.IsFt(secs[|secs| - 1].name) && ItemsOk(t, secs, r)
    ensures ItemsOk(t, Longer(secs, l), r)
  {
    NothingListed(t, secs, r.items, l);
    LongerBlocks(t, secs, l, "");
  }

  /** Blank and comment lines wait. */
  lemma CommentKeepsItems(t: Tables, secs: seq<Sec>, r: Reading, l: string)
    requires secs != [] && t.IsFt(secs[|secs| - 1].name) && ItemsOk(t, secs, r) && !IsItemLine(l)
    ensures ItemsOk(t, Longer(secs, l), r.(pending := r.pending + [l]))
  {
    NothingListed(t, secs, r.items, l);
    LongerBlocks(t, secs, l, "");
    NonblankSnoc(r.pending, l);
  }

  lemma NonblankSnoc(a: seq<string>, l: string)
    ensures Nonblank(a + [l]) == if Blank(l) then Nonblank(a) else Nonblank(a) + [l]
  {
    assert (a + [l])[..|a|] == a;
  }

  lemma RetiredKeepsItems(t: Tables, secs: seq<Sec>, r: Reading, l: string)
    requires secs != [] && t.IsFt(secs[|secs| - 1].name) && ItemsOk(t, secs, r)
    requires IsItemLine(l) && t.IsRetired(KeyName(l))
    ensures ItemsOk(t, Longer(secs, l), r.(pending := []))
  {
    NothingListed(t, secs, r.items, l);
    LongerBlocks(t, secs, l, "");
  }

  lemma ItemAdds(t: Tables, secs: seq<Sec>, l: string, block: seq<string>, m: string)
    requires secs != [] && IsItemLine(l) && !t.IsRetired(KeyName(l)) && t.IsFt(secs[|secs| - 1].name)
    requires block == Waiting(t, secs) + [l]
    ensures BlocksFor(t, Longer(secs, l), m)
            == if m == t.Dest(KeyName(l), secs[|secs| - 1].name) then BlocksFor(t, secs, m) + [block] else BlocksFor(t, secs, m)
    ensures Waiting(t, Longer(secs, l)) == []
  {
    var s := secs[|secs| - 1];
    var w := Walk(t, s.body, s.name);
    LongerBlocks(t, secs, l, m);
    BlocksSnoc(w.items, Item(t.Dest(KeyName(l), s.name), block), m);
    Snoc(BlocksFor(t, Before(secs), m), BlocksTo(w.items, m), [block]);
  }

  lemma ItemListed(t: Tables, secs: seq<Sec>, items: map<string, seq<seq<string>>>, l: string)
    requires t.Ok() && secs != [] && t.IsFt(secs[|secs| - 1].name) && BlocksListed(t, secs, items)
    requires IsItemLine(l) && !t.IsRetired(KeyName(l))
    ensures var n := t.Dest(KeyName(l), secs[|secs| - 1].name);
            n in items && BlocksListed(t, Longer(secs, l), items[n := items[n] + [Waiting(t, secs) + [l]]])
  {
    var n := t.Dest(KeyName(l), secs[|secs| - 1].name);
    assert t.IsFt(n) && ItemsAt(t, secs, items, n);
    var after := items[n := items[n] + [Waiting(t, secs) + [l]]];
    forall m ensures ItemsAt(t, Longer(secs, l), after, m) {
      assert ItemsAt(t, secs, items, m);
      ItemAdds(t, secs, l, Waiting(t, secs) + [l], m);
    }
  }

  lemma ItemKeepsItems(t: Tables, secs: seq<Sec>, r: Reading, l: string)
    requires t.Ok() && secs != [] && t.IsFt(secs[|secs| - 1].name) && ItemsOk(t, secs, r)
    requires IsItemLine(l) && !t.IsRetired(KeyName(l))
    ensures var n := t.Dest(KeyName(l), secs[|secs| - 1].name);
            && n in r.items
            && ItemsOk(t, Longer(secs, l),
                       r.(items := r.items[n := r.items[n] + [Nonblank(r.pending) + [l]]], pending := []))
  {
    ItemListed(t, secs, r.items, l);
    LongerStep(secs, l, "");
    ItemAdds(t, secs, l, Waiting(t, secs) + [l], "");
  }

  // ---------------------------------------------------------------- the first loop

  method Read(t: Tables, lines: seq<string>) returns (r: Reading)
    requires t.Ok()
    ensures r.preamble == Parse(lines).preamble && HeadersOk(Parse(lines).secs, r) && BodiesOk(t, Parse(lines).secs, r)
    ensures BlocksListed(t, Parse(lines).secs, r.items) && TailsListed(t, Parse(lines).secs, r.tails)
  {
    r := Reading([], [], map[], map[], map n | n in t.sections :: [], map n | n in t.sections :: [], None, []);
    StartOk(t, r);
    for i := 0 to |lines|
      invariant ReadingOk(t, Parse(lines[..i]), r)
    {
      assert lines[..i + 1] == lines[..i] + [lines[i]];
      ParseSnoc(lines[..i], lines[i]);
      r := ReadLine(t, Parse(lines[..i]), r, lines[i]);
    }
    assert lines[..|lines|] == lines;
    r := Flush(t, Parse(lines).secs, r);
  }

  lemma StartOk(t: Tables, r: Reading)
    requires r.preamble == [] && r.order == [] && r.body == map[] && r.header == map[] && r.cur == None && r.pending == []
    requires r.items == (map n | n in t.sections :: []) && r.tails == (map n | n in t.sections :: [])
    ensures ReadingOk(t, Doc([], []), r)
  {
    forall n ensures ItemsAt(t, [], r.items, n) && TailAt(t, [], r.tails, n) {
      assert n in r.items <==> n in t.sections;
    }
  }

  /** The comments still waiting when the section or the file ends. */
  method Flush(t: Tables, ghost secs: seq<Sec>, r: Reading) returns (q: Reading)
    requires HeadersOk(secs, r) && ItemsOk(t, secs, r)
    ensures q == r.(tails := Flushed(t, r)) && TailsListed(t, secs, q.tails) && q.items == r.items
  {
    q := r;
    forall m ensures TailAt(t, secs, Flushed(t, r), m) {
      FlushedTails(t, secs, r, m);
    }
    if r.cur.Some? && t.IsFt(r.cur.value) && r.cur.value in r.tails {
      q := r.(tails := r.tails[r.cur.value := r.tails[r.cur.value] + r.pending]);
    }
  }

  /** A section header. */
  method ReadHeader(t: Tables, ghost secs: seq<Sec>, r: Reading, n: string, line: string) returns (q: Reading)
    requires HeadersOk(secs, r) && BodiesOk(t, secs, r) && ItemsOk(t, secs, r)
    ensures var after := secs + [Sec(n, line, [])];
            HeadersOk(after, q) && BodiesOk(t, after, q) && ItemsOk(t, after, q) && q.preamble == r.preamble
  {
    HeaderKeepsHeaders(t, secs, r, n, line);
    HeaderKeepsBodies(t, secs, r, n, line);
    HeaderKeepsItems(t, secs, r, n, line);
    q := Flush(t, secs, r);
    q := q.(pending := [], cur := Some(n), order := r.order + [n], header := r.header[n := line],
            body := if n in r.body then r.body else r.body[n := []]);
  }

  /** A line that is no header, in the section `cur`. */
  method ReadInside(t: Tables, ghost secs: seq<Sec>, r: Reading, cur: string, line: string) returns (q: Reading)
    requires t.Ok() && secs != [] && cur == secs[|secs| - 1].name
    requires HeadersOk(secs, r) && BodiesOk(t, secs, r) && ItemsOk(t, secs, r)
    ensures var after := Longer(secs, line);
            HeadersOk(after, q) && BodiesOk(t, after, q) && ItemsOk(t, after, q) && q.preamble == r.preamble
  {
    LongerKeepsHeaders(secs, r, line);
    LongerKeepsBodies(t, secs, r, line);
    if !t.IsFt(cur) {
      OtherKeepsItems(t, secs, r, line);
      return r.(body := r.body[cur := r.body[cur] + [line]]);
    }
    q := ReadFtLine(t, secs, r, cur, line);
  }

  /** The body of the first loop. */
  method ReadLine(t: Tables, ghost d: Doc, r: Reading, line: string) returns (q: Reading)
    requires t.Ok() && ReadingOk(t, d, r)
    ensures ReadingOk(t, ParseLine(d, line), q)
  {
    var m := SectionName(line);
    if m.Some? {
      q := ReadHeader(t, d.secs, r, m.value, line);
    } else if r.cur.None? {
      q := r.(preamble := r.preamble + [line]);
    } else {
      q := ReadInside(t, d.secs, r, r.cur.value, line);
    }
  }

  /** A line of a finetune section. */
  method ReadFtLine(t: Tables, ghost secs: seq<Sec>, r: Reading, cur: string, line: string) returns (q: Reading)
    requires t.Ok() && secs != [] && cur == secs[|secs| - 1].name && t.IsFt(cur) && ItemsOk(t, secs, r)
    ensures ItemsOk(t, Longer(secs, line), q) && q == r.(items := q.items, pending := q.pending)
  {
    if Blank(line) || IsComment(line) {
      CommentKeepsItems(t, secs, r, line);
      return r.(pending := r.pending + [line]);
    }
    var key := KeyName(line);
    var block := Nonblank(r.pending) + [line];
    if t.IsRetired(key) {
      RetiredKeepsItems(t, secs, r, line);
      return r.(pending := []);
    }
    ItemKeepsItems(t, secs, r, line);
    var dest := t.Dest(key, cur);
    return r.(items := r.items[dest := r.items[dest] + [block]], pending := []);
  }

  // ---------------------------------------------------------------- the second loop

  /** The line that separates a section from what stands before it. */
  method Separate(out: seq<string>) returns (r: seq<string>)
    ensures r == Sep(out)
  {
    r := out;
    if out != [] && !Blank(out[|out| - 1]) {
      r := out + [""];
    }
  }

  lemma TrimStops(before: seq<string>, b: seq<string>)
    requires before != [] && !Blank(before[|before| - 1])
    ensures TrimEnd(before + b) == before + TrimEnd(b)
    decreases |b|
  {
    if b == [] {
      assert before + b == before;
    } else if Blank(b[|b| - 1]) {
      assert (before + b)[..|before + b| - 1] == before + b[..|b| - 1];
      TrimStops(before, b[..|b| - 1]);
    }
  }

  /** Trailing blank lines go. */
  method PopBlanks(out: seq<string>) returns (r: seq<string>)
    ensures r == TrimEnd(out)
  {
    r := out;
    while r != [] && Blank(r[|r| - 1])
      invariant TrimEnd(r) == TrimEnd(out)
    {
      r := r[..|r| - 1];
    }
  }

  /** A section outside finetune, copied. */
  method WriteOther(out: seq<string>, header: string, body: seq<string>) returns (r: seq<string>)
    requires SectionName(header).Some?
    ensures r == Sep(out) + ([header] + TrimEnd(body))
  {
    r := Separate(out);
    ghost var before := r + [header];
    HeaderShape(header);
    r := r + [header];
    r := r + body;
    TrimStops(before, body);
    r := PopBlanks(r);
    Snoc(Sep(out), [header], TrimEnd(body));
  }

  method Blocks(out: seq<string>, blocks: seq<seq<string>>) returns (r: seq<string>)
    ensures r == out + Concat(blocks)
  {
    r := out;
    assert blocks[..0] == [] && out + [] == out;
    for i := 0 to |blocks|
      invariant r == out + Concat(blocks[..i])
    {
      assert blocks[..i + 1] == blocks[..i] + [blocks[i]];
      ConcatSnoc(blocks[..i], blocks[i]);
      Snoc(out, Concat(blocks[..i]), blocks[i]);
      r := r + blocks[i];
    }
    assert blocks[..|blocks|] == blocks;
  }

  ghost predicate Collected(t: Tables, secs: seq<Sec>, r: Reading) {
    HeadersOk(secs, r) && BodiesOk(t, secs, r) && BlocksListed(t, secs, r.items) && TailsListed(t, secs, r.tails)
  }

  lemma NoHeader(secs: seq<Sec>, n: string)
    requires Absent(secs, n)
    ensures HeaderOf(secs, n) == n + ":"
  {
  }

  /** One finetune section, if it has anything to hold. */
  method WriteSection(t: Tables, ghost secs: seq<Sec>, r: Reading, out: seq<string>, n: string) returns (q: seq<string>)
    requires t.Ok() && Collected(t, secs, r) && t.IsFt(n)
    ensures q == if Content(t, secs, n) == [] then out else Sep(out) + ([HeaderOf(secs, n)] + Content(t, secs, n))
  {
    assert ItemsAt(t, secs, r.items, n) && TailAt(t, secs, r.tails, n) && HeaderAt(secs, r.header, n);
    EmptyContent(t, secs, n);
    var tail := Nonblank(r.tails[n]);
    if r.items[n] == [] && tail == [] {
      return out;
    }
    var header := if n in r.header then r.header[n] else n + ":";
    if n !in r.header {
      NoHeader(secs, n);
    }
    q := Separate(out);
    q := Blocks(q + [header], r.items[n]);
    q := q + tail;
    Snoc(Sep(out), [header], Concat(r.items[n]));
    Snoc(Sep(out), [header] + Concat(r.items[n]), tail);
    Snoc([header], Concat(r.items[n]), tail);
  }

  lemma LayGroup(t: Tables, p: seq<string>, secs: seq<Sec>, cs: seq<Sec>, k: nat)
    requires k < |t.sections|
    ensures var n := t.sections[k]; var c := Content(t, secs, n); var out := Lay(p, cs + Group(t, secs, k));
            Lay(p, cs + Group(t, secs, k + 1)) == if c == [] then out else Sep(out) + ([HeaderOf(secs, n)] + c)
  {
    var n := t.sections[k];
    var c := Sec(n, HeaderOf(secs, n), Content(t, secs, n));
    if c.body != [] {
      Snoc(cs, Group(t, secs, k), [c]);
      LaySnoc(p, cs + Group(t, secs, k), c);
    }
  }

  lemma GroupStart(t: Tables, secs: seq<Sec>, cs: seq<Sec>)
    ensures cs + Group(t, secs, 0) == cs
  {
  }

  /** All finetune sections, in table order. */
  method WriteGroup(t: Tables, ghost d: Doc, r: Reading, out: seq<string>, ghost cs: seq<Sec>) returns (q: seq<string>)
    requires t.Ok() && Collected(t, d.secs, r) && out == Lay(d.preamble, cs)
    ensures q == Lay(d.preamble, cs + Group(t, d.secs, |t.sections|))
  {
    q := out;
    GroupStart(t, d.secs, cs);
    for k := 0 to |t.sections|
      invariant q == Lay(d.preamble, cs + Group(t, d.secs, k))
    {
      LayGroup(t, d.preamble, d.secs, cs, k);
      q := WriteSection(t, d.secs, r, q, t.sections[k]);
    }
  }

  lemma HeaderIsOne(secs: seq<Sec>, n: string)
    requires !Absent(secs, n) && forall i {:trigger SecOk(secs[i])} | 0 <= i < |secs| :: SecOk(secs[i])
    ensures SectionName(HeaderOf(secs, n)).Some?
  {
    assert SecOk(secs[|secs| - 1]);
    if secs[|secs| - 1].name != n {
      var init := secs[..|secs| - 1];
      forall i | 0 <= i < |init| ensures SecOk(init[i]) {
        assert SecOk(secs[i]);
      }
      HeaderIsOne(init, n);
    }
  }

  lemma LayChunk(t: Tables, p: seq<string>, secs: seq<Sec>, j: nat)
    requires j < |secs| && !t.IsFt(secs[j].name)
    ensures var n := secs[j].name;
            Lay(p, Chunks(t, secs, j + 1)) == Sep(Lay(p, Chunks(t, secs, j))) + ([HeaderOf(secs, n)] + TrimEnd(Merged(secs, n)))
  {
    var n := secs[j].name;
    LaySnoc(p, Chunks(t, secs, j), Sec(n, HeaderOf(secs, n), TrimEnd(Merged(secs, n))));
  }

  /** What has been written for the first `j` headers. */
  ghost predicate Wrote(t: Tables, d: Doc, out: seq<string>, emitted: bool, j: nat)
    requires j <= |d.secs|
  {
    out == Lay(d.preamble, Chunks(t, d.secs, j)) && (emitted <==> SomeFt(t, d.secs[..j]))
  }

  /** The header at `j`. */
  method WriteName(t: Tables, ghost d: Doc, r: Reading, out: seq<string>, name: string, emitted: bool, ghost j: nat)
    returns (q: seq<string>, e: bool)
    requires t.Ok() && DocOk(d) && Collected(t, d.secs, r) && j < |d.secs| && name == d.secs[j].name
    requires Wrote(t, d, out, emitted, j)
    ensures Wrote(t, d, q, e, j + 1)
  {
    q, e := out, emitted;
    SomeFtMore(t, d.secs, j);
    if t.IsFt(name) {
      if !emitted {
        e := true;
        q := WriteGroup(t, d, r, out, Chunks(t, d.secs, j));
      }
    } else {
      assert HeaderAt(d.secs, r.header, name) && BodyAt(t, d.secs, r.body, name);
      HeaderIsOne(d.secs, name);
      LayChunk(t, d.preamble, d.secs, j);
      q := WriteOther(out, r.header[name], r.body[name]);
    }
  }

  lemma OrderAt(secs: seq<Sec>, r: Reading, j: nat)
    requires HeadersOk(secs, r)
    ensures |r.order| == |secs| && (j < |secs| ==> r.order[j] == secs[j].name)
  {
  }

  /** Writing the sections out, all the finetune ones where the first of them stood. */
  method Write(t: Tables, ghost d: Doc, r: Reading) returns (out: seq<string>)
    requires t.Ok() && DocOk(d) && r.preamble == d.preamble && Collected(t, d.secs, r)
    ensures out == Lay(d.preamble, Chunks(t, d.secs, |d.secs|))
  {
    out := r.preamble;
    var emitted := false;
    OrderAt(d.secs, r, 0);
    for j := 0 to |r.order|
      invariant Wrote(t, d, out, emitted, j)
    {
      OrderAt(d.secs, r, j);
      out, emitted := WriteName(t, d, r, out, r.order[j], emitted, j);
    }
  }

  /** Stripping the text takes the blank lines off its end and the blanks off its last line. */
  method Strip(out: seq<string>) returns (r: seq<string>)
    ensures r == Finish(out)
  {
    r := PopBlanks(out);
    if r == [] {
      return [""];
    }
    r := r[|r| - 1 := RStrip(r[|r| - 1])];
  }

  /** The whole conversion. */
  method ConvertFile(t: Tables, lines: seq<string>) returns (out: seq<string>)
    requires t.Ok()
    ensures out == Convert(t, lines)
  {
    PrintParse(lines);
    var r := Read(t, lines);
    out := Write(t, Parse(lines), r);
    out := Strip(out);
  }
}
