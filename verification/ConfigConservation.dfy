/** No line of the finetune sections is lost or doubled by the conversion: the comment and key lines
    of the converted sections are those of the old ones, but for retired keys and the comments
    directly above them. */
module ConfigConservation {
  import opened Samples
  import opened ConfigLines
  import opened ConfigLayout
  import opened ConfigConvert
  import opened ConfigStable
  import opened ConfigIdempotence
  import opened ConfigMeaning

  /** The next key line is one of a retired key. */
  predicate RetiredNext(t: Tables, body: seq<string>) {
    body != [] &&
    if Blank(body[0]) || IsComment(body[0]) then RetiredNext(t, body[1..])
    else KeyName(body[0]).Some? && KeyName(body[0]).value in t.retired
  }

  /** The lines of a finetune section that are to be kept: neither blank, nor a retired key, nor a
      comment that leads to one. */
  function Kept(t: Tables, body: seq<string>): seq<string> {
    if body == [] then []
    else (if Blank(body[0]) || RetiredNext(t, body) then [] else [body[0]]) + Kept(t, body[1..])
  }

  function NonBlank(body: seq<string>): seq<string> {
    if body == [] then [] else (if Blank(body[0]) then [] else [body[0]]) + NonBlank(body[1..])
  }

  // ---------------------------------------------------------------- one section

  lemma {:induction false} KeptComments(t: Tables, c: seq<string>, s: seq<string>)
    requires Comments(c)
    ensures RetiredNext(t, c + s) == RetiredNext(t, s)
    ensures Kept(t, c + s) == (if RetiredNext(t, s) then [] else c) + Kept(t, s)
    decreases |c|
  {
    if c == [] {
      assert c + s == s;
    } else {
      assert (c + s)[1..] == c[1..] + s;
      assert IsComment(c[0]) && !Blank(c[0]);
      KeptComments(t, c[1..], s);
      assert [c[0]] + (c[1..] + Kept(t, s)) == c + Kept(t, s);
    }
  }

  function WalkFrom(t: Tables, w: Walked, body: seq<string>, cur: string): Walked
    decreases |body|
  {
    if body == [] then w else WalkFrom(t, WalkLine(t, w, cur, body[0]), body[1..], cur)
  }

  lemma {:induction false} WalkSplit(t: Tables, a: seq<string>, b: seq<string>, cur: string)
    ensures WalkFrom(t, Walk(t, a, cur), b, cur) == Walk(t, a + b, cur)
    decreases |b|
  {
    if b == [] {
      assert a + b == a;
    } else {
      WalkSnoc(t, a, cur, b[0]);
      WalkSplit(t, a + [b[0]], b[1..], cur);
      assert a + [b[0]] + b[1..] == a + b;
    }
  }

  /** The lines of the items, one after another. */
  function Lines(items: seq<Item>): seq<string> {
    if items == [] then [] else Lines(items[..|items| - 1]) + items[|items| - 1].block
  }

  lemma LinesSnoc(items: seq<Item>, x: Item)
    ensures Lines(items + [x]) == Lines(items) + x.block
  {
    assert (items + [x])[..|items|] == items;
  }

  lemma {:induction false} KeptFrom(t: Tables, w: Walked, body: seq<string>, cur: string)
    requires Comments(w.pending)
    ensures var u := WalkFrom(t, w, body, cur); Lines(u.items) + u.pending == Lines(w.items) + Kept(t, w.pending + body)
    decreases |body|
  {
    KeptComments(t, w.pending, body);
    if body != [] {
      var l, rest := body[0], body[1..];
      var v := WalkLine(t, w, cur, l);
      assert body == [l] + rest;
      KeptFrom(t, v, rest, cur);
      KeptComments(t, v.pending, rest);
      KeptLine(t, w, cur, l, rest);
    } else {
      assert Lines(w.items) + w.pending == Lines(w.items) + (w.pending + []);
    }
  }

  /** What a line leaves waiting, and what is kept from it on. */
  lemma KeptLine(t: Tables, w: Walked, cur: string, l: string, rest: seq<string>)
    requires Comments(w.pending)
    ensures var v, body := WalkLine(t, w, cur, l), [l] + rest;
            && Comments(v.pending)
            && Lines(v.items) + ((if RetiredNext(t, rest) then [] else v.pending) + Kept(t, rest))
               == Lines(w.items) + ((if RetiredNext(t, body) then [] else w.pending) + Kept(t, body))
  {
    var k := Kept(t, rest);
    KeptHead(t, l, rest);
    if Blank(l) {
    } else if IsComment(l) {
      assert w.pending + [l] + k == w.pending + ([l] + k);
    } else if !t.IsRetired(KeyName(l)) {
      KeptKey(t, w, Item(t.Dest(KeyName(l), cur), w.pending + [l]), l, k, RetiredNext(t, rest));
    }
  }

  lemma KeptHead(t: Tables, l: string, rest: seq<string>)
    ensures var body := [l] + rest;
            && RetiredNext(t, body) == (if Blank(l) || IsComment(l) then RetiredNext(t, rest) else t.IsRetired(KeyName(l)))
            && Kept(t, body) == (if Blank(l) || RetiredNext(t, body) then [] else [l]) + Kept(t, rest)
  {
    var body := [l] + rest;
    assert body[0] == l && body[1..] == rest;
  }

  lemma KeptKey(t: Tables, w: Walked, x: Item, l: string, k: seq<string>, next: bool)
    requires x.block == w.pending + [l]
    ensures Lines(w.items + [x]) + ((if next then [] else []) + k) == Lines(w.items) + (w.pending + ([l] + k))
  {
    LinesSnoc(w.items, x);
    assert Lines(w.items) + (w.pending + [l]) + k == Lines(w.items) + (w.pending + ([l] + k));
    assert [] + k == k;
  }

  /** The blocks a section is cut into, and its closing comments, are its lines to be kept, in order;
      each block ends in a key line, and goes to that key's home or stays. */
  lemma WalkKeepsLines(t: Tables, body: seq<string>, cur: string)
    ensures var w := Walk(t, body, cur); Lines(w.items) + w.pending == Kept(t, body)
  {
    WalkSplit(t, [], body, cur);
    assert [] + body == body;
    KeptFrom(t, Walked([], []), body, cur);
  }

  lemma {:induction false} WalkGoesHome(t: Tables, body: seq<string>, cur: string, i: nat)
    requires i < |Walk(t, body, cur).items|
    ensures var x := Walk(t, body, cur).items[i];
            && x.block != []
            && var key := KeyName(x.block[|x.block| - 1]);
               x.dest == if key.Some? && key.value in t.home then t.home[key.value] else cur
    decreases |body|
  {
    var init := body[..|body| - 1];
    if i < |Walk(t, init, cur).items| {
      WalkGoesHome(t, init, cur, i);
    }
  }

  // ---------------------------------------------------------------- all sections

  /** How often `x` is among the lines, blanks at their ends apart. */
  function Often(lines: seq<string>, x: string): nat {
    if lines == [] then 0 else Often(lines[..|lines| - 1], x) + if RStrip(lines[|lines| - 1]) == x then 1 else 0
  }

  lemma {:induction false} OftenConcat(a: seq<string>, b: seq<string>, x: string)
    ensures Often(a + b, x) == Often(a, x) + Often(b, x)
    decreases |b|
  {
    if b == [] {
      assert a + b == a;
    } else {
      OftenConcat(a, b[..|b| - 1], x);
      assert (a + b)[..|a + b| - 1] == a + b[..|b| - 1];
    }
  }

  /** What the first `k` names contribute. */
  function Total(names: seq<string>, k: nat, f: string -> nat): nat
    requires k <= |names|
  {
    if k == 0 then 0 else Total(names, k - 1, f) + f(names[k - 1])
  }

  lemma {:induction false} TotalAdds(names: seq<string>, k: nat, f: string -> nat, g: string -> nat, h: string -> nat)
    requires k <= |names| && forall i | 0 <= i < k :: h(names[i]) == f(names[i]) + g(names[i])
    ensures Total(names, k, h) == Total(names, k, f) + Total(names, k, g)
  {
    if k > 0 {
      TotalAdds(names, k - 1, f, g, h);
    }
  }

  lemma {:induction false} TotalSame(names: seq<string>, k: nat, f: string -> nat, g: string -> nat)
    requires k <= |names| && forall i | 0 <= i < k :: f(names[i]) == g(names[i])
    ensures Total(names, k, f) == Total(names, k, g)
  {
    if k > 0 {
      TotalSame(names, k - 1, f, g);
    }
  }

  /** Only the name `n` contributes. */
  lemma {:induction false} TotalOne(names: seq<string>, k: nat, f: string -> nat, n: string)
    requires k <= |names| && Distinct(names) && forall i | 0 <= i < k && names[i] != n :: f(names[i]) == 0
    ensures Total(names, k, f) == if exists i :: 0 <= i < k && names[i] == n then f(n) else 0
  {
    if k > 0 {
      TotalOne(names, k - 1, f, n);
    }
  }

  lemma TotalSection(t: Tables, f: string -> nat, n: string)
    requires t.Ok() && t.IsFt(n) && forall m | m != n :: f(m) == 0
    ensures Total(t.sections, |t.sections|, f) == f(n)
  {
    TotalOne(t.sections, |t.sections|, f, n);
  }

  /** How often `x` is in the blocks for each section. */
  function Sent(items: seq<Item>, x: string): string -> nat {
    n => Often(Concat(BlocksTo(items, n)), x)
  }

  /** `v` for the section `n`, and nothing for any other. */
  function Only(n: string, v: nat): string -> nat {
    m => if m == n then v else 0
  }

  lemma SentSnoc(items: seq<Item>, i: Item, x: string, n: string)
    ensures Sent(items + [i], x)(n) == Sent(items, x)(n) + Only(i.dest, Often(i.block, x))(n)
  {
    BlocksSnoc(items, i, n);
    if i.dest == n {
      ConcatSnoc(BlocksTo(items, n), i.block);
      OftenConcat(Concat(BlocksTo(items, n)), i.block, x);
    }
  }

  lemma {:induction false} SentToAll(t: Tables, items: seq<Item>, x: string)
    requires t.Ok() && forall i | 0 <= i < |items| :: t.IsFt(items[i].dest)
    ensures Total(t.sections, |t.sections|, Sent(items, x)) == Often(Lines(items), x)
    decreases |items|
  {
    var j := |t.sections|;
    if items == [] {
      TotalAdds(t.sections, j, Sent(items, x), Sent(items, x), Sent(items, x));
    } else {
      var k := |items| - 1;
      var last := Only(items[k].dest, Often(items[k].block, x));
      SentToAll(t, items[..k], x);
      Last(items);
      forall n ensures Sent(items, x)(n) == Sent(items[..k], x)(n) + last(n) {
        SentSnoc(items[..k], items[k], x, n);
      }
      TotalAdds(t.sections, j, Sent(items[..k], x), last, Sent(items, x));
      TotalSection(t, last, items[k].dest);
      OftenConcat(Lines(items[..k]), items[k].block, x);
    }
  }

  /** How often each section holds `x` in the end. */
  function Held(t: Tables, secs: seq<Sec>, x: string): string -> nat {
    n => Often(Content(t, secs, n), x)
  }

  /** How often the finetune sections are to keep `x`. */
  function ToKeep(t: Tables, secs: seq<Sec>, x: string): nat {
    if secs == [] then 0
    else
      var k := |secs| - 1;
      ToKeep(t, secs[..k], x) + if t.IsFt(secs[k].name) then Often(Kept(t, secs[k].body), x) else 0
  }

  /** One more section adds its blocks to the sections they go to, and its closing comments. */
  lemma ContentOne(t: Tables, secs: seq<Sec>, n: string, x: string)
    requires secs != [] && t.IsFt(n)
    ensures var k := |secs| - 1; var w := Walk(t, secs[k].body, secs[k].name);
            Often(Content(t, secs, n), x) == Often(Content(t, secs[..k], n), x) +
              if t.IsFt(secs[k].name)
              then Often(Concat(BlocksTo(w.items, n)), x) + (if n == secs[k].name then Often(w.pending, x) else 0)
              else 0
  {
    var k := |secs| - 1;
    var w := Walk(t, secs[k].body, secs[k].name);
    var bs, tail := BlocksFor(t, secs[..k], n), Tails(t, secs[..k], n);
    OftenConcat(Concat(BlocksFor(t, secs, n)), Tails(t, secs, n), x);
    OftenConcat(Concat(bs), tail, x);
    if t.IsFt(secs[k].name) {
      ConcatBoth(bs, BlocksTo(w.items, n));
      OftenConcat(Concat(bs), Concat(BlocksTo(w.items, n)), x);
      OftenConcat(tail, w.pending, x);
    }
  }

  lemma {:induction false} ConcatBoth(a: seq<seq<string>>, b: seq<seq<string>>)
    ensures Concat(a + b) == Concat(a) + Concat(b)
    decreases |b|
  {
    if b == [] {
      assert a + b == a;
    } else {
      var k := |b| - 1;
      ConcatBoth(a, b[..k]);
      assert (a + b)[..|a| + k] == a + b[..k];
      assert Concat(a) + Concat(b[..k]) + b[k] == Concat(a) + (Concat(b[..k]) + b[k]);
    }
  }

  /** All sections of the table together hold what was to be kept, each line as often. */
  lemma {:induction false} HeldIsKept(t: Tables, secs: seq<Sec>, x: string)
    requires t.Ok()
    ensures Total(t.sections, |t.sections|, Held(t, secs, x)) == ToKeep(t, secs, x)
    decreases |secs|
  {
    if secs == [] {
      NothingHeld(t, |t.sections|, x);
    } else {
      var k := |secs| - 1;
      HeldIsKept(t, secs[..k], x);
      HeldStep(t, secs, x);
      AddedTotal(t, secs[k], x);
    }
  }

  lemma {:induction false} NothingHeld(t: Tables, j: nat, x: string)
    requires j <= |t.sections|
    ensures Total(t.sections, j, Held(t, [], x)) == 0
  {
    if j > 0 {
      NothingHeld(t, j - 1, x);
      assert Content(t, [], t.sections[j - 1]) == [];
    }
  }

  lemma HeldStep(t: Tables, secs: seq<Sec>, x: string)
    requires secs != []
    ensures var j, k := |t.sections|, |secs| - 1;
            Total(t.sections, j, Held(t, secs, x)) ==
              Total(t.sections, j, Held(t, secs[..k], x)) + Total(t.sections, j, Added(t, secs[k], x))
  {
    var j, k := |t.sections|, |secs| - 1;
    forall i | 0 <= i < j
      ensures Held(t, secs, x)(t.sections[i]) == Held(t, secs[..k], x)(t.sections[i]) + Added(t, secs[k], x)(t.sections[i])
    {
      ContentOne(t, secs, t.sections[i], x);
    }
    TotalAdds(t.sections, j, Held(t, secs[..k], x), Added(t, secs[k], x), Held(t, secs, x));
  }

  /** How often a section of the file adds `x` to each section of the table. */
  function Added(t: Tables, s: Sec, x: string): string -> nat {
    var w := Walk(t, s.body, s.name);
    n => if !t.IsFt(s.name) then 0
         else Often(Concat(BlocksTo(w.items, n)), x) + if n == s.name then Often(w.pending, x) else 0
  }

  lemma AddedTotal(t: Tables, s: Sec, x: string)
    requires t.Ok()
    ensures Total(t.sections, |t.sections|, Added(t, s, x)) == if t.IsFt(s.name) then Often(Kept(t, s.body), x) else 0
  {
    var j, w := |t.sections|, Walk(t, s.body, s.name);
    if t.IsFt(s.name) {
      var own := Only(s.name, Often(w.pending, x));
      TotalAdds(t.sections, j, Sent(w.items, x), own, Added(t, s, x));
      TotalSection(t, own, s.name);
      SectionKept(t, s, x);
    } else {
      TotalAdds(t.sections, j, Added(t, s, x), Added(t, s, x), Added(t, s, x));
    }
  }

  lemma SectionKept(t: Tables, s: Sec, x: string)
    requires t.Ok() && t.IsFt(s.name)
    ensures var w := Walk(t, s.body, s.name);
            Total(t.sections, |t.sections|, Sent(w.items, x)) + Often(w.pending, x) == Often(Kept(t, s.body), x)
  {
    var w := Walk(t, s.body, s.name);
    WalkShape(t, s.body, s.name);
    SentToAll(t, w.items, x);
    WalkKeepsLines(t, s.body, s.name);
    OftenConcat(Lines(w.items), w.pending, x);
  }

  // ---------------------------------------------------------------- before and after

  lemma StripLastOften(lines: seq<string>, x: string)
    ensures Often(StripLast(lines), x) == Often(lines, x)
  {
    if lines != [] {
      var k := |lines| - 1;
      RStripKeepsKind(lines[k]);
      assert StripLast(lines)[..k] == lines[..k];
    }
  }

  lemma SameContent(t: Tables, lines: seq<string>, n: string, x: string)
    requires t.Ok() && t.IsFt(n)
    ensures Often(Content(t, Parse(Convert(t, lines)).secs, n), x) == Often(Content(t, Parse(lines).secs, n), x)
  {
    var secs, after := Parse(lines).secs, Parse(Convert(t, lines)).secs;
    BlocksUnchanged(t, lines, n);
    var bs, tail := BlocksFor(t, secs, n), Tails(t, secs, n);
    if IsLast(after, n) {
      BlocksForOk(t, secs, n);
      TailsAreComments(t, secs, n);
      EmptyContent(t, secs, n);
      if Content(t, secs, n) != [] {
        EndStrippedOk(t, bs, tail, n);
        StripLastOften(Content(t, secs, n), x);
      }
    }
  }

  /** How often the finetune sections have `x` as a comment or key line. */
  function FtLines(t: Tables, secs: seq<Sec>, x: string): nat {
    if secs == [] then 0
    else
      var k := |secs| - 1;
      FtLines(t, secs[..k], x) + if t.IsFt(secs[k].name) then Often(NonBlank(secs[k].body), x) else 0
  }

  /** No line of the section is one of a retired key. */
  ghost predicate NoneRetired(t: Tables, body: seq<string>) {
    forall l | l in body && IsItemLine(l) && KeyName(l).Some? :: KeyName(l).value !in t.retired
  }

  lemma {:induction false} AllKept(t: Tables, body: seq<string>)
    requires NoneRetired(t, body)
    ensures Kept(t, body) == NonBlank(body) && !RetiredNext(t, body)
    decreases |body|
  {
    if body != [] {
      assert body[0] in body && forall l | l in body[1..] :: l in body;
      AllKept(t, body[1..]);
    }
  }

  lemma {:induction false} AllSectionsKept(t: Tables, secs: seq<Sec>, x: string)
    requires forall i | 0 <= i < |secs| && t.IsFt(secs[i].name) :: NoneRetired(t, secs[i].body)
    ensures ToKeep(t, secs, x) == FtLines(t, secs, x)
    decreases |secs|
  {
    if secs != [] {
      var k := |secs| - 1;
      assert forall i | 0 <= i < k :: secs[..k][i] == secs[i];
      AllSectionsKept(t, secs[..k], x);
      if t.IsFt(secs[k].name) {
        AllKept(t, secs[k].body);
      }
    }
  }

  /** A section is written with the header it had last, with the comment on it; one that only the
      conversion creates gets a plain header. */
  lemma {:induction false} LastHeaderCounts(secs: seq<Sec>, n: string)
    ensures Absent(secs, n) ==> HeaderOf(secs, n) == n + ":"
    ensures !Absent(secs, n) ==>
              exists i :: 0 <= i < |secs| && secs[i].name == n && HeaderOf(secs, n) == secs[i].header
                          && forall j | i < j < |secs| :: secs[j].name != n
    decreases |secs|
  {
    if secs != [] {
      var k := |secs| - 1;
      LastHeaderCounts(secs[..k], n);
      if secs[k].name != n && !Absent(secs, n) {
        var i :| 0 <= i < k && secs[..k][i].name == n && HeaderOf(secs[..k], n) == secs[..k][i].header
                 && forall j | i < j < k :: secs[..k][j].name != n;
        assert forall j | i < j < k :: secs[..k][j] == secs[j];
        assert secs[i].name == n && HeaderOf(secs, n) == secs[i].header;
      }
    }
  }

  /** Every comment and key line is in the converted file's finetune sections exactly as often as the
      old ones were to keep it, whatever sections stood where and how often. */
  lemma NothingLost(t: Tables, lines: seq<string>, x: string)
    requires t.Ok()
    ensures FtLines(t, Parse(Convert(t, lines)).secs, x) == ToKeep(t, Parse(lines).secs, x)
  {
    var before, after := Parse(lines).secs, Parse(Convert(t, lines)).secs;
    HeldIsKept(t, before, x);
    HeldIsKept(t, after, x);
    SameHeld(t, lines, x);
    NoneRetiredLeft(t, lines);
    AllSectionsKept(t, after, x);
  }

  lemma SameHeld(t: Tables, lines: seq<string>, x: string)
    requires t.Ok()
    ensures var before, after := Parse(lines).secs, Parse(Convert(t, lines)).secs;
            Total(t.sections, |t.sections|, Held(t, after, x)) == Total(t.sections, |t.sections|, Held(t, before, x))
  {
    var f, g := Held(t, Parse(Convert(t, lines)).secs, x), Held(t, Parse(lines).secs, x);
    forall i | 0 <= i < |t.sections| ensures f(t.sections[i]) == g(t.sections[i]) {
      SameContent(t, lines, t.sections[i], x);
    }
    TotalSame(t.sections, |t.sections|, f, g);
  }

  lemma NoneRetiredLeft(t: Tables, lines: seq<string>)
    requires t.Ok()
    ensures var after := Parse(Convert(t, lines)).secs;
            forall i | 0 <= i < |after| && t.IsFt(after[i].name) :: NoneRetired(t, after[i].body)
  {
    var after := Parse(Convert(t, lines)).secs;
    forall i | 0 <= i < |after| && t.IsFt(after[i].name) ensures NoneRetired(t, after[i].body) {
      forall l | l in after[i].body && IsItemLine(l) && KeyName(l).Some? ensures KeyName(l).value !in t.retired {
        EveryKeyIsHome(t, lines, i, l);
      }
    }
  }
}
