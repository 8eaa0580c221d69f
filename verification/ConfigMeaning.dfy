/** Conversion keeps what a config file says: every finetune key with its comments, in its home
    section, and every other section. The text is stripped at its end, so the last line of the
    last section may lose blanks there; nothing else changes. */
module ConfigMeaning {
  import opened Samples
  import opened ConfigLines
  import opened ConfigLayout
  import opened ConfigConvert
  import opened ConfigStable
  import opened ConfigIdempotence

  // ---------------------------------------------------------------- blocks written are blocks read

  lemma {:induction false} WalkComments(t: Tables, body: seq<string>, tail: seq<string>, cur: string)
    requires Comments(tail)
    ensures var w := Walk(t, body, cur); Walk(t, body + tail, cur) == Walked(w.items, w.pending + tail)
    decreases |tail|
  {
    var w := Walk(t, body, cur);
    if tail == [] {
      assert body + tail == body && w.pending + tail == w.pending;
    } else {
      var k := |tail| - 1;
      WalkComments(t, body, tail[..k], cur);
      WalkSnoc(t, body + tail[..k], cur, tail[k]);
      Last(tail);
      Snoc(body, tail[..k], [tail[k]]);
      Snoc(w.pending, tail[..k], [tail[k]]);
    }
  }

  lemma WalkBlock(t: Tables, body: seq<string>, b: seq<string>, name: string)
    requires BlockOk(t, b, name) && Walk(t, body, name).pending == []
    ensures Walk(t, body + b, name) == Walked(Walk(t, body, name).items + [Item(name, b)], [])
  {
    var k := |b| - 1;
    WalkComments(t, body, b[..k], name);
    WalkSnoc(t, body + b[..k], name, b[k]);
    Last(b);
    Snoc(body, b[..k], [b[k]]);
    assert [] + b[..k] == b[..k];
  }

  ghost predicate BlocksOk(t: Tables, bs: seq<seq<string>>, name: string) {
    forall i {:trigger BlockOk(t, bs[i], name)} | 0 <= i < |bs| :: BlockOk(t, bs[i], name)
  }

  lemma {:induction false} WalkBlocks(t: Tables, bs: seq<seq<string>>, name: string)
    requires BlocksOk(t, bs, name)
    ensures var w := Walk(t, Concat(bs), name); w.pending == [] && BlocksTo(w.items, name) == bs
  {
    if bs != [] {
      var k := |bs| - 1;
      PrefixOk(t, bs, name);
      WalkBlocks(t, bs[..k], name);
      assert BlockOk(t, bs[k], name);
      WalkBlock(t, Concat(bs[..k]), bs[k], name);
      BlocksSnoc(Walk(t, Concat(bs[..k]), name).items, Item(name, bs[k]), name);
      Last(bs);
    }
  }

  lemma PrefixOk(t: Tables, bs: seq<seq<string>>, name: string)
    requires BlocksOk(t, bs, name) && bs != []
    ensures BlocksOk(t, bs[..|bs| - 1], name)
  {
    var init := bs[..|bs| - 1];
    forall i | 0 <= i < |init| ensures BlockOk(t, init[i], name) {
      assert BlockOk(t, bs[i], name);
    }
  }

  /** Blocks and closing comments written to a section are read back as they are. */
  lemma WalkWritten(t: Tables, bs: seq<seq<string>>, tail: seq<string>, name: string)
    requires BlocksOk(t, bs, name) && Comments(tail)
    ensures var w := Walk(t, Concat(bs) + tail, name); w.pending == tail && BlocksTo(w.items, name) == bs
  {
    WalkBlocks(t, bs, name);
    WalkComments(t, Concat(bs), tail, name);
    assert [] + tail == tail;
  }

  lemma {:induction false} BlocksToOk(t: Tables, items: seq<Item>, name: string)
    requires forall i | 0 <= i < |items| :: BlockOk(t, items[i].block, items[i].dest)
    ensures BlocksOk(t, BlocksTo(items, name), name)
  {
    if items != [] {
      var k := |items| - 1;
      BlocksToOk(t, items[..k], name);
      var bs := BlocksTo(items[..k], name);
      forall i | 0 <= i < |BlocksTo(items, name)| ensures BlockOk(t, BlocksTo(items, name)[i], name) {
        assert i < |bs| ==> BlockOk(t, bs[i], name);
      }
    }
  }

  lemma {:induction false} BlocksForOk(t: Tables, secs: seq<Sec>, name: string)
    requires t.Ok()
    ensures BlocksOk(t, BlocksFor(t, secs, name), name)
    decreases |secs|
  {
    if secs != [] {
      var k := |secs| - 1;
      BlocksForOk(t, secs[..k], name);
      if t.IsFt(secs[k].name) {
        WalkShape(t, secs[k].body, secs[k].name);
        BlocksToOk(t, Walk(t, secs[k].body, secs[k].name).items, name);
        BothOk(t, BlocksFor(t, secs[..k], name), BlocksTo(Walk(t, secs[k].body, secs[k].name).items, name), name);
      }
    }
  }

  lemma BothOk(t: Tables, a: seq<seq<string>>, b: seq<seq<string>>, name: string)
    requires BlocksOk(t, a, name) && BlocksOk(t, b, name)
    ensures BlocksOk(t, a + b, name)
  {
    forall i | 0 <= i < |a + b| ensures BlockOk(t, (a + b)[i], name) {
      assert i < |a| ==> BlockOk(t, a[i], name);
      assert i >= |a| ==> BlockOk(t, b[i - |a|], name);
    }
  }

  lemma {:induction false} TailsAreComments(t: Tables, secs: seq<Sec>, name: string)
    requires t.Ok() && t.IsFt(name)
    ensures Comments(Tails(t, secs, name))
    decreases |secs|
  {
    if secs != [] {
      var k := |secs| - 1;
      TailsAreComments(t, secs[..k], name);
      if secs[k].name == name {
        WalkShape(t, secs[k].body, name);
      }
    }
  }

  lemma {:induction false} SomeConcat(t: Tables, bs: seq<seq<string>>, name: string)
    requires BlocksOk(t, bs, name) && bs != []
    ensures Concat(bs) != []
  {
    assert BlockOk(t, bs[|bs| - 1], name);
  }

  /** Nothing to write means nothing there. */
  lemma EmptyContent(t: Tables, secs: seq<Sec>, name: string)
    requires t.Ok()
    ensures BlocksFor(t, secs, name) != [] || Tails(t, secs, name) != [] ==> Content(t, secs, name) != []
  {
    BlocksForOk(t, secs, name);
    if BlocksFor(t, secs, name) != [] {
      SomeConcat(t, BlocksFor(t, secs, name), name);
    }
  }

  // ---------------------------------------------------------------- where the sections end up

  ghost predicate Written(t: Tables, secs: seq<Sec>, c: Sec) {
    c == Sec(c.name, HeaderOf(secs, c.name), Content(t, secs, c.name))
  }

  lemma {:induction false} GroupLists(t: Tables, secs: seq<Sec>, k: nat, n: string)
    requires k <= |t.sections|
    ensures forall i {:trigger Group(t, secs, k)[i]} | 0 <= i < |Group(t, secs, k)| :: Written(t, secs, Group(t, secs, k)[i])
    ensures Content(t, secs, n) != [] && n in t.sections[..k]
            ==> Sec(n, HeaderOf(secs, n), Content(t, secs, n)) in Group(t, secs, k)
  {
    if k > 0 {
      GroupLists(t, secs, k - 1, n);
      assert t.sections[..k] == t.sections[..k - 1] + [t.sections[k - 1]];
    }
  }

  /** Each finetune section is written with its content, wherever it was collected from. */
  lemma {:induction false} ChunksList(t: Tables, secs: seq<Sec>, j: nat, n: string)
    requires j <= |secs| && t.IsFt(n)
    ensures forall c | c in Chunks(t, secs, j) && t.IsFt(c.name) :: Written(t, secs, c)
    ensures SomeFt(t, secs[..j]) && Content(t, secs, n) != []
            ==> Sec(n, HeaderOf(secs, n), Content(t, secs, n)) in Chunks(t, secs, j)
  {
    if j > 0 {
      ChunksList(t, secs, j - 1, n);
      SomeFtMore(t, secs, j - 1);
      GroupLists(t, secs, |t.sections|, n);
      assert t.sections[..|t.sections|] == t.sections;
    }
  }

  lemma {:induction false} NoFtNoBlocks(t: Tables, secs: seq<Sec>, name: string)
    requires !SomeFt(t, secs) && t.IsFt(name)
    ensures BlocksFor(t, secs, name) == [] && Tails(t, secs, name) == []
  {
    if secs != [] {
      assert !t.IsFt(secs[|secs| - 1].name);
      var init := secs[..|secs| - 1];
      forall i | 0 <= i < |init| ensures !t.IsFt(init[i].name) {
        assert !t.IsFt(secs[i].name);
      }
      NoFtNoBlocks(t, init, name);
    }
  }

  // ---------------------------------------------------------------- the end of the text

  function StripLast(lines: seq<string>): (r: seq<string>)
    ensures |r| == |lines|
  {
    if lines == [] then lines else lines[|lines| - 1 := RStrip(lines[|lines| - 1])]
  }

  function StripBlocks(bs: seq<seq<string>>): (r: seq<seq<string>>)
    ensures |r| == |bs|
  {
    if bs == [] then bs else bs[|bs| - 1 := StripLast(bs[|bs| - 1])]
  }

  lemma StripConcat(a: seq<string>, b: seq<string>)
    requires b != []
    ensures StripLast(a + b) == a + StripLast(b)
  {
  }

  lemma StripBlockOk(t: Tables, b: seq<string>, name: string)
    requires BlockOk(t, b, name)
    ensures BlockOk(t, StripLast(b), name)
  {
    RStripKeepsKind(b[|b| - 1]);
  }

  lemma StripComments(lines: seq<string>)
    requires Comments(lines)
    ensures Comments(StripLast(lines))
  {
    if lines != [] {
      RStripKeepsKind(lines[|lines| - 1]);
    }
  }

  lemma StripBlocksOk(t: Tables, bs: seq<seq<string>>, name: string)
    requires BlocksOk(t, bs, name) && bs != []
    ensures BlocksOk(t, StripBlocks(bs), name) && Concat(StripBlocks(bs)) == StripLast(Concat(bs))
  {
    var k := |bs| - 1;
    assert BlockOk(t, bs[k], name);
    StripBlockOk(t, bs[k], name);
    forall i | 0 <= i < |bs| ensures BlockOk(t, StripBlocks(bs)[i], name) {
      assert BlockOk(t, bs[i], name);
    }
    assert StripBlocks(bs)[..k] == bs[..k];
    StripConcat(Concat(bs[..k]), bs[k]);
  }

  /** A section's blocks and closing comments with the last line stripped. */
  function EndStripped(bs: seq<seq<string>>, tail: seq<string>): (seq<seq<string>>, seq<string>) {
    if tail != [] then (bs, StripLast(tail)) else (StripBlocks(bs), tail)
  }

  lemma EndStrippedOk(t: Tables, bs: seq<seq<string>>, tail: seq<string>, name: string)
    requires BlocksOk(t, bs, name) && Comments(tail) && Concat(bs) + tail != []
    ensures var (b, c) := EndStripped(bs, tail);
            BlocksOk(t, b, name) && Comments(c) && Concat(b) + c == StripLast(Concat(bs) + tail)
  {
    if tail != [] {
      StripComments(tail);
      StripConcat(Concat(bs), tail);
    } else {
      assert bs != [];
      StripBlocksOk(t, bs, name);
      assert Concat(bs) + [] == Concat(bs);
      assert Concat(StripBlocks(bs)) + [] == Concat(StripBlocks(bs));
    }
  }

  // ---------------------------------------------------------------- the finetune sections

  /** A section read back from blocks and closing comments has those blocks and comments. */
  lemma WrittenSection(t: Tables, after: seq<Sec>, ds: seq<Sec>, a: nat, b: nat, i: nat, bs: seq<seq<string>>, tail: seq<string>)
    requires Collected(t, ds, a, b) && AllPadded(after, ds) && a <= i < b
    requires BlocksOk(t, bs, ds[i].name) && Comments(tail) && ds[i].body == Concat(bs) + tail
    ensures BlocksFor(t, after, ds[i].name) == bs && Tails(t, after, ds[i].name) == tail
  {
    var n := ds[i].name;
    assert Padded(after[i], ds[i]) && t.IsFt(n);
    FtOnce(t, ds, a, b, i);
    OncePadded(after, ds, i);
    ConvertedKeepOwn(t, after, ds, n);
    ContentAt(t, after, i);
    PaddedWalk(t, after[i], ds[i], n);
    WalkWritten(t, bs, tail, n);
  }

  lemma UnwrittenSection(t: Tables, after: seq<Sec>, ds: seq<Sec>, n: string)
    requires AllNormal(t, ds) && AllPadded(after, ds) && Absent(ds, n)
    ensures BlocksFor(t, after, n) == [] && Tails(t, after, n) == []
  {
    AbsentPadded(after, ds, n);
    ConvertedKeepOwn(t, after, ds, n);
    AbsentContent(t, after, n);
  }

  /** A finetune section nothing is written for had nothing meant for it. */
  lemma UnwrittenIsEmpty(t: Tables, secs: seq<Sec>, n: string)
    requires t.Ok() && t.IsFt(n) && Absent(AllChunks(t, secs), n)
    ensures BlocksFor(t, secs, n) == [] && Tails(t, secs, n) == []
  {
    ChunksList(t, secs, |secs|, n);
    assert secs[..|secs|] == secs;
    EmptyContent(t, secs, n);
    if !SomeFt(t, secs) {
      NoFtNoBlocks(t, secs, n);
    }
  }

  lemma TrimmedNames(cs: seq<Sec>, n: string)
    ensures Absent(TrimLast(cs), n) <==> Absent(cs, n)
  {
    if cs != [] {
      assert forall i | 0 <= i < |cs| :: TrimLast(cs)[i].name == cs[i].name;
    }
  }

  /** Every finetune section has the same keys after the conversion as were meant for it before, in
      the same order, each with the same comment lines directly above it, and the same comments at
      its end; only in the section written last the last of these lines is stripped. */
  lemma BlocksUnchanged(t: Tables, lines: seq<string>, n: string)
    requires t.Ok() && t.IsFt(n)
    ensures var secs, after := Parse(lines).secs, Parse(Convert(t, lines)).secs;
            (BlocksFor(t, after, n), Tails(t, after, n)) ==
              if IsLast(after, n) then EndStripped(BlocksFor(t, secs, n), Tails(t, secs, n))
              else (BlocksFor(t, secs, n), Tails(t, secs, n))
  {
    var secs, after := Parse(lines).secs, Parse(Convert(t, lines)).secs;
    var cs, a, b := ConvertedIs(t, lines);
    var ds := TrimLast(cs);
    TrimmedNames(cs, n);
    if cs == [] {
      UnwrittenIsEmpty(t, secs, n);
    } else if Absent(cs, n) {
      UnwrittenSection(t, after, ds, n);
      UnwrittenIsEmpty(t, secs, n);
      LastPadded(after, cs);
    } else {
      var i :| 0 <= i < |cs| && cs[i].name == n;
      ConvertedSection(t, secs, cs, after, a, b, i);
    }
  }

  lemma LastPadded(after: seq<Sec>, cs: seq<Sec>)
    requires cs != [] && AllPadded(after, TrimLast(cs))
    ensures |after| == |cs| && after[|after| - 1].name == cs[|cs| - 1].name
  {
    assert Padded(after[|cs| - 1], TrimLast(cs)[|cs| - 1]);
  }

  /** A finetune section as collected: blocks, then comments. */
  lemma CollectedSection(t: Tables, secs: seq<Sec>, i: nat)
    requires t.Ok() && AllNormal(t, AllChunks(t, secs)) && i < |AllChunks(t, secs)| && t.IsFt(AllChunks(t, secs)[i].name)
    ensures var c := AllChunks(t, secs)[i]; var bs, tail := BlocksFor(t, secs, c.name), Tails(t, secs, c.name);
            c.body == Concat(bs) + tail != [] && BlocksOk(t, bs, c.name) && Comments(tail)
  {
    var c := AllChunks(t, secs)[i];
    ChunksList(t, secs, |secs|, c.name);
    assert c in AllChunks(t, secs) && Written(t, secs, c) && NormalSec(t, c);
    BlocksForOk(t, secs, c.name);
    TailsAreComments(t, secs, c.name);
  }

  lemma ConvertedSection(t: Tables, secs: seq<Sec>, cs: seq<Sec>, after: seq<Sec>, a: nat, b: nat, i: nat)
    requires t.Ok() && cs == AllChunks(t, secs) && Collected(t, cs, a, b) && Collected(t, TrimLast(cs), a, b)
    requires AllPadded(after, TrimLast(cs)) && i < |cs| && t.IsFt(cs[i].name)
    ensures var n := cs[i].name;
            (BlocksFor(t, after, n), Tails(t, after, n)) ==
              if IsLast(after, n) then EndStripped(BlocksFor(t, secs, n), Tails(t, secs, n))
              else (BlocksFor(t, secs, n), Tails(t, secs, n))
  {
    var n := cs[i].name;
    var bs, tail := BlocksFor(t, secs, n), Tails(t, secs, n);
    CollectedSection(t, secs, i);
    FtOnce(t, cs, a, b, i);
    LastPadded(after, cs);
    if i == |cs| - 1 {
      EndStrippedOk(t, bs, tail, n);
      var (b', c') := EndStripped(bs, tail);
      assert TrimLast(cs)[i].body == StripLast(cs[i].body);
      WrittenSection(t, after, TrimLast(cs), a, b, i, b', c');
    } else {
      assert cs[|cs| - 1].name != n;
      WrittenSection(t, after, TrimLast(cs), a, b, i, bs, tail);
    }
  }

  /** Every key line of a finetune section now stands in its home section; none is retired. */
  lemma EveryKeyIsHome(t: Tables, lines: seq<string>, i: nat, l: string)
    requires t.Ok()
    requires var after := Parse(Convert(t, lines)).secs; i < |after| && t.IsFt(after[i].name) && l in after[i].body
    requires IsItemLine(l)
    ensures KeyName(l).Some? ==> KeyName(l).value !in t.retired
    ensures KeyName(l).Some? && KeyName(l).value in t.home ==> t.home[KeyName(l).value] == Parse(Convert(t, lines)).secs[i].name
  {
    var after := Parse(Convert(t, lines)).secs;
    var cs, a, b := ConvertedIs(t, lines);
    KeyIsHome(t, after[i], TrimLast(cs)[i], l);
  }

  lemma KeyIsHome(t: Tables, s: Sec, c: Sec, l: string)
    requires Padded(s, c) && NormalSec(t, c) && t.IsFt(c.name) && l in s.body && IsItemLine(l)
    ensures s.name == c.name && !t.IsRetired(KeyName(l)) && t.Dest(KeyName(l), c.name) == c.name
  {
    EmptyLine();
    assert l in c.body;
    var q :| 0 <= q < |c.body| && c.body[q] == l;
    assert SettledLine(t, c.body[q], c.name);
  }

  // ---------------------------------------------------------------- the other sections

  /** The sections outside finetune, without the blank lines at their ends. */
  function Others(t: Tables, secs: seq<Sec>): seq<Sec> {
    if secs == [] then []
    else
      var k := |secs| - 1;
      var before := Others(t, secs[..k]);
      if t.IsFt(secs[k].name) then before else before + [Sec(secs[k].name, secs[k].header, TrimEnd(secs[k].body))]
  }

  lemma {:induction false} OthersPadded(t: Tables, secs: seq<Sec>, cs: seq<Sec>)
    requires AllPadded(secs, cs)
    ensures Others(t, secs) == Others(t, cs)
  {
    if secs != [] {
      var k := |secs| - 1;
      var init, cinit := secs[..k], cs[..k];
      forall i | 0 <= i < k ensures Padded(init[i], cinit[i]) {
        assert Padded(secs[i], cs[i]);
      }
      OthersPadded(t, init, cinit);
      assert Padded(secs[k], cs[k]);
      TrimEndBlank(cs[k].body);
    }
  }

  lemma {:induction false} OthersGroup(t: Tables, cs: seq<Sec>, more: seq<Sec>)
    requires forall i | 0 <= i < |more| :: t.IsFt(more[i].name)
    ensures Others(t, cs + more) == Others(t, cs)
    decreases |more|
  {
    if more == [] {
      assert cs + more == cs;
    } else {
      var k := |more| - 1;
      OthersGroup(t, cs, more[..k]);
      assert (cs + more)[..|cs| + k] == cs + more[..k];
    }
  }

  lemma OthersSnoc(t: Tables, cs: seq<Sec>, c: Sec)
    ensures Others(t, cs + [c]) == if t.IsFt(c.name) then Others(t, cs)
                                   else Others(t, cs) + [Sec(c.name, c.header, TrimEnd(c.body))]
  {
    assert (cs + [c])[..|cs|] == cs;
  }

  lemma {:induction false} TrimEndTwice(b: seq<string>)
    ensures TrimEnd(TrimEnd(b)) == TrimEnd(b)
    decreases |b|
  {
    if b != [] && Blank(b[|b| - 1]) {
      TrimEndTwice(b[..|b| - 1]);
    }
  }

  ghost predicate OthersOnce(t: Tables, secs: seq<Sec>) {
    forall i {:trigger Once(secs, i)} | 0 <= i < |secs| && !t.IsFt(secs[i].name) :: Once(secs, i)
  }

  lemma {:induction false} OthersCollected(t: Tables, secs: seq<Sec>, j: nat)
    requires OthersOnce(t, secs) && j <= |secs|
    ensures Others(t, Chunks(t, secs, j)) == Others(t, secs[..j])
  {
    if j > 0 {
      var n := secs[j - 1].name;
      OthersCollected(t, secs, j - 1);
      assert secs[..j] == secs[..j - 1] + [secs[j - 1]];
      OthersSnoc(t, secs[..j - 1], secs[j - 1]);
      if !t.IsFt(n) {
        assert Once(secs, j - 1);
        MergedAt(secs, j - 1);
        OthersSnoc(t, Chunks(t, secs, j - 1), OtherSec(secs, n));
        TrimEndTwice(secs[j - 1].body);
      } else if !SomeFt(t, secs[..j - 1]) {
        GroupIsFt(t, secs, |t.sections|);
        OthersGroup(t, Chunks(t, secs, j - 1), Group(t, secs, |t.sections|));
      }
    }
  }

  /** Stripping the last section strips the last of the others, if it is one. */
  lemma OthersTrimmed(t: Tables, cs: seq<Sec>)
    requires AllNormal(t, cs)
    ensures Others(t, TrimLast(cs)) ==
              if cs != [] && !t.IsFt(cs[|cs| - 1].name) then TrimLast(Others(t, cs)) else Others(t, cs)
  {
    if cs != [] {
      var k := |cs| - 1;
      var c, d := cs[k], TrimSec(cs[k]);
      assert NormalSec(t, c);
      TrimSecOk(t, c);
      StandsTrimmed(t, c);
      StandsTrimmed(t, d);
      Last(cs);
      assert TrimLast(cs) == cs[..k] + [d];
      OthersSnoc(t, cs[..k], c);
      OthersSnoc(t, cs[..k], d);
      if !t.IsFt(c.name) {
        TrimLastSnoc(Others(t, cs[..k]), c);
      }
    }
  }

  lemma StandsTrimmed(t: Tables, c: Sec)
    requires NormalSec(t, c)
    ensures Sec(c.name, c.header, TrimEnd(c.body)) == c
  {
    BodyEndsFull(t, c);
    FullTrims(c.body);
  }

  lemma TrimLastSnoc(cs: seq<Sec>, c: Sec)
    ensures TrimLast(cs + [c]) == cs + [TrimSec(c)]
  {
  }

  /** Where no other section is given twice, each keeps its header, its lines and its place among
      the others; only if the last section written is one of them, its last line is stripped. */
  lemma OthersUnchanged(t: Tables, lines: seq<string>)
    requires t.Ok() && OthersOnce(t, Parse(lines).secs)
    ensures var secs, after := Parse(lines).secs, Parse(Convert(t, lines)).secs;
            Others(t, after) ==
              if after != [] && !t.IsFt(after[|after| - 1].name) then TrimLast(Others(t, secs)) else Others(t, secs)
  {
    var secs, after := Parse(lines).secs, Parse(Convert(t, lines)).secs;
    var cs, a, b := ConvertedIs(t, lines);
    OthersCollected(t, secs, |secs|);
    assert secs[..|secs|] == secs;
    if cs != [] {
      OthersPadded(t, after, TrimLast(cs));
      OthersTrimmed(t, cs);
      LastPadded(after, cs);
    }
  }
}
