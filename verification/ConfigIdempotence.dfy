/** Converting a converted config file changes nothing. */
module ConfigIdempotence {
  import opened Samples
  import opened ConfigLines
  import opened ConfigLayout
  import opened ConfigConvert
  import opened ConfigStable

  // ---------------------------------------------------------------- the layout read back

  function SepDoc(d: Doc): Doc {
    var out := Print(d);
    if out != [] && !Blank(out[|out| - 1]) then AppendTo(d, [""]) else d
  }

  /** The document that `Lay` writes: separators belong to what stands before them. */
  function Spaced(p: seq<string>, cs: seq<Sec>): Doc {
    if cs == [] then Doc(p, [])
    else
      var d := SepDoc(Spaced(p, cs[..|cs| - 1]));
      Doc(d.preamble, d.secs + [cs[|cs| - 1]])
  }

  lemma SepPrints(d: Doc)
    ensures Print(SepDoc(d)) == Sep(Print(d))
  {
    PrintAppendTo(d, [""]);
  }

  lemma {:induction false} SpacedPrints(p: seq<string>, cs: seq<Sec>)
    ensures Print(Spaced(p, cs)) == Lay(p, cs)
  {
    if cs == [] {
      assert p + [] == p;
    } else {
      var d := Spaced(p, cs[..|cs| - 1]);
      SpacedPrints(p, cs[..|cs| - 1]);
      SepPrints(d);
      var c := cs[|cs| - 1];
      FlattenSnoc(SepDoc(d).secs, c);
      Snoc(SepDoc(d).preamble, Flatten(SepDoc(d).secs), [c.header] + c.body);
    }
  }

  lemma EmptyLine()
    ensures Blank("") && SectionName("").None?
  {
  }

  ghost predicate SecsOk(cs: seq<Sec>) {
    forall i {:trigger SecOk(cs[i])} | 0 <= i < |cs| :: SecOk(cs[i])
  }

  lemma {:induction false} SpacedOk(p: seq<string>, cs: seq<Sec>)
    requires NoHeaders(p) && SecsOk(cs)
    ensures DocOk(Spaced(p, cs))
  {
    if cs != [] {
      var init := cs[..|cs| - 1];
      SpacedOk(p, init);
      EmptyLine();
      AppendToOk(Spaced(p, init), [""]);
    }
  }

  lemma {:induction false} SpacedPadded(p: seq<string>, cs: seq<Sec>)
    ensures AllPadded(Spaced(p, cs).secs, cs)
    ensures cs != [] ==> Spaced(p, cs).secs[|cs| - 1] == cs[|cs| - 1]
  {
    if cs != [] {
      var init := cs[..|cs| - 1];
      SpacedPadded(p, init);
      SepPads(Spaced(p, init), init);
      var secs := Spaced(p, cs).secs;
      forall i | 0 <= i < |cs| ensures Padded(secs[i], cs[i]) {
        assert i < |init| ==> Padded(SepDoc(Spaced(p, init)).secs[i], init[i]);
      }
    }
  }

  lemma SepPads(d: Doc, cs: seq<Sec>)
    requires AllPadded(d.secs, cs) && (cs != [] ==> d.secs[|cs| - 1] == cs[|cs| - 1])
    ensures AllPadded(SepDoc(d).secs, cs)
  {
    forall i | 0 <= i < |cs| ensures Padded(SepDoc(d).secs[i], cs[i]) {
      assert Padded(d.secs[i], cs[i]);
    }
  }

  lemma {:induction false} SpacedPreamble(p: seq<string>, cs: seq<Sec>)
    requires cs != []
    ensures Spaced(p, cs).preamble == Sep(p)
  {
    var init := cs[..|cs| - 1];
    if init == [] {
      SepPrints(Doc(p, []));
      assert p + [] == p;
    } else {
      SpacedPreamble(p, init);
    }
  }

  /** Reading back what was laid out. */
  lemma ReadBack(p: seq<string>, cs: seq<Sec>)
    requires NoHeaders(p) && SecsOk(cs)
    ensures Parse(Lay(p, cs)) == Spaced(p, cs)
  {
    SpacedPrints(p, cs);
    SpacedOk(p, cs);
    ParsePrint(Spaced(p, cs));
  }

  lemma SepTwice(p: seq<string>)
    ensures Sep(Sep(p)) == Sep(p)
  {
    EmptyLine();
  }

  lemma {:induction false} LaySep(p: seq<string>, cs: seq<Sec>)
    requires cs != []
    ensures Lay(Sep(p), cs) == Lay(p, cs)
  {
    if |cs| == 1 {
      SepTwice(p);
      assert cs[..0] == [];
    } else {
      LaySep(p, cs[..|cs| - 1]);
    }
  }

  // ---------------------------------------------------------------- stripping the end

  function Own(c: Sec): seq<string> {
    [c.header] + c.body
  }

  /** The section with its last line stripped. */
  function TrimSec(c: Sec): Sec {
    if c.body == [] then c.(header := RStrip(c.header))
    else c.(body := c.body[|c.body| - 1 := RStrip(c.body[|c.body| - 1])])
  }

  /** The last line of the last section without the blanks at its end. */
  function TrimLast(cs: seq<Sec>): seq<Sec> {
    if cs == [] then cs else cs[|cs| - 1 := TrimSec(cs[|cs| - 1])]
  }

  lemma OwnTrimmed(c: Sec)
    ensures var own := Own(c); Own(TrimSec(c)) == own[|own| - 1 := RStrip(own[|own| - 1])]
  {
  }

  lemma TrimSecOk(t: Tables, c: Sec)
    requires NormalSec(t, c)
    ensures NormalSec(t, TrimSec(c)) && TrimSec(c).name == c.name
  {
    if c.body == [] {
      RStripKeepsKind(c.header);
    } else {
      RStripKeepsKind(c.body[|c.body| - 1]);
    }
  }

  lemma TrimCollected(t: Tables, cs: seq<Sec>, a: nat, b: nat)
    requires Collected(t, cs, a, b)
    ensures Collected(t, TrimLast(cs), a, b)
  {
    if cs != [] {
      var k := |cs| - 1;
      assert NormalSec(t, cs[k]);
      TrimSecOk(t, cs[k]);
      assert forall i | 0 <= i < |cs| :: TrimLast(cs)[i].name == cs[i].name;
      assert Places(t, TrimLast(cs)) == Places(t, cs);
    }
  }

  /** The last section may be stripped if it stands alone, or is stripped already. */
  lemma TrimAlike(t: Tables, cs: seq<Sec>)
    requires AllAlike(t, cs)
    requires cs != [] && !t.IsFt(cs[|cs| - 1].name) ==> Once(cs, |cs| - 1) || TrimSec(cs[|cs| - 1]) == cs[|cs| - 1]
    ensures AllAlike(t, TrimLast(cs))
  {
    if cs != [] {
      var k := |cs| - 1;
      var ds := TrimLast(cs);
      forall i | 0 <= i < |ds| && !t.IsFt(ds[i].name) ensures Alike(ds, i) {
        assert Alike(cs, i) && cs[i].name == ds[i].name;
        forall j | 0 <= j < |ds| && j != i && ds[j].name == ds[i].name
          ensures ds[j].header == ds[i].header && ds[j].body == ds[i].body == []
        {
          assert cs[j].name == cs[i].name;
          assert i == k || j == k ==> TrimSec(cs[k]) == cs[k];
        }
      }
    }
  }

  /** A section's lines end with a line that is not blank. */
  ghost predicate EndsFull(c: Sec) {
    !Blank(if c.body == [] then c.header else c.body[|c.body| - 1])
  }

  lemma NormalEndsFull(t: Tables, c: Sec)
    requires NormalSec(t, c)
    ensures EndsFull(c)
  {
    HeaderShape(c.header);
    if t.IsFt(c.name) {
      assert SettledLine(t, c.body[|c.body| - 1], c.name);
    }
  }

  lemma FinishFull(a: seq<string>, l: string)
    requires !Blank(l)
    ensures Finish(a + [l]) == a + [RStrip(l)]
  {
    assert TrimEnd(a + [l]) == a + [l];
  }

  lemma SplitLast(a: seq<string>, b: seq<string>)
    requires b != []
    ensures a + b == a + b[..|b| - 1] + [b[|b| - 1]]
    ensures forall l :: a + b[|b| - 1 := l] == a + b[..|b| - 1] + [l]
  {
  }

  lemma LaySnoc(p: seq<string>, cs: seq<Sec>, c: Sec)
    ensures Lay(p, cs + [c]) == Sep(Lay(p, cs)) + Own(c)
  {
    assert (cs + [c])[..|cs|] == cs;
  }

  lemma FinishOwn(before: seq<string>, c: Sec)
    requires EndsFull(c)
    ensures Finish(before + Own(c)) == before + Own(TrimSec(c))
  {
    var own := Own(c);
    SplitLast(before, own);
    FinishFull(before + own[..|own| - 1], own[|own| - 1]);
    OwnTrimmed(c);
  }

  /** Stripping the text strips the last line of the last section. */
  lemma {:induction false} FinishLay(p: seq<string>, cs: seq<Sec>)
    requires cs != [] && EndsFull(cs[|cs| - 1])
    ensures Finish(Lay(p, cs)) == Lay(p, TrimLast(cs))
  {
    var init, c := cs[..|cs| - 1], cs[|cs| - 1];
    calc {
      Finish(Lay(p, cs));
      { Last(cs); LaySnoc(p, init, c); }
      Finish(Sep(Lay(p, init)) + Own(c));
      { FinishOwn(Sep(Lay(p, init)), c); }
      Sep(Lay(p, init)) + Own(TrimSec(c));
      { LaySnoc(p, init, TrimSec(c)); }
      Lay(p, init + [TrimSec(c)]);
    }
    assert TrimLast(cs) == init + [TrimSec(c)];
  }

  lemma TrimSecTwice(c: Sec)
    ensures TrimSec(TrimSec(c)) == TrimSec(c)
  {
    if c.body == [] {
      RStripKeepsKind(c.header);
    } else {
      RStripKeepsKind(c.body[|c.body| - 1]);
    }
  }

  lemma TrimLastTwice(cs: seq<Sec>)
    ensures TrimLast(TrimLast(cs)) == TrimLast(cs)
  {
    if cs != [] {
      TrimSecTwice(cs[|cs| - 1]);
    }
  }

  // ---------------------------------------------------------------- what is emitted is normal

  /** Lines fit to stand in the finetune section `name`. */
  ghost predicate FitLines(t: Tables, lines: seq<string>, name: string) {
    NoHeaders(lines) && Settled(t, lines, name)
  }

  lemma FitConcat(t: Tables, a: seq<string>, b: seq<string>, name: string)
    requires FitLines(t, a, name) && FitLines(t, b, name)
    ensures FitLines(t, a + b, name)
  {
  }

  /** Items that can be placed. */
  ghost predicate FitItems(t: Tables, items: seq<Item>) {
    forall i | 0 <= i < |items| :: FitLines(t, items[i].block, items[i].dest)
  }

  lemma FitComment(t: Tables, l: string)
    requires IsComment(l) && SectionName(l).None?
    ensures forall name :: FitLines(t, [l], name)
  {
  }

  lemma FitKey(t: Tables, l: string, cur: string)
    requires IsItemLine(l) && !t.IsRetired(KeyName(l)) && SectionName(l).None?
    ensures FitLines(t, [l], t.Dest(KeyName(l), cur))
  {
  }

  ghost predicate FitAnywhere(t: Tables, lines: seq<string>) {
    Comments(lines) && NoHeaders(lines)
  }

  lemma CommentsFit(t: Tables, lines: seq<string>, name: string)
    requires FitAnywhere(t, lines)
    ensures FitLines(t, lines, name)
  {
  }

  lemma {:induction false} WalkFits(t: Tables, body: seq<string>, cur: string)
    requires NoHeaders(body)
    ensures FitItems(t, Walk(t, body, cur).items) && FitAnywhere(t, Walk(t, body, cur).pending)
    decreases |body|
  {
    if body != [] {
      var k := |body| - 1;
      WalkFits(t, body[..k], cur);
      WalkLineFits(t, Walk(t, body[..k], cur), cur, body[k]);
    }
  }

  lemma WalkLineFits(t: Tables, w: Walked, cur: string, l: string)
    requires FitItems(t, w.items) && FitAnywhere(t, w.pending) && SectionName(l).None?
    ensures FitItems(t, WalkLine(t, w, cur, l).items) && FitAnywhere(t, WalkLine(t, w, cur, l).pending)
  {
    if IsItemLine(l) && !t.IsRetired(KeyName(l)) {
      var dest := t.Dest(KeyName(l), cur);
      FitKey(t, l, cur);
      CommentsFit(t, w.pending, dest);
      FitConcat(t, w.pending, [l], dest);
    }
  }

  lemma {:induction false} BlocksFit(t: Tables, items: seq<Item>, name: string)
    requires FitItems(t, items)
    ensures FitLines(t, Concat(BlocksTo(items, name)), name)
  {
    if items != [] {
      var k := |items| - 1;
      BlocksFit(t, items[..k], name);
      if items[k].dest == name {
        FitConcat(t, Concat(BlocksTo(items[..k], name)), items[k].block, name);
        ConcatSnoc(BlocksTo(items[..k], name), items[k].block);
      }
    }
  }

  lemma {:induction false} ConcatConcat(a: seq<seq<string>>, b: seq<seq<string>>)
    ensures Concat(a + b) == Concat(a) + Concat(b)
    decreases |b|
  {
    if b == [] {
      assert a + b == a;
    } else {
      var k := |b| - 1;
      ConcatConcat(a, b[..k]);
      assert (a + b)[..|a| + k] == a + b[..k];
      Snoc(Concat(a), Concat(b[..k]), b[k]);
    }
  }

  lemma {:induction false} ContentFits(t: Tables, secs: seq<Sec>, name: string)
    requires SecsOk(secs)
    ensures FitLines(t, Concat(BlocksFor(t, secs, name)), name) && FitLines(t, Tails(t, secs, name), name)
    decreases |secs|
  {
    if secs != [] {
      var k := |secs| - 1;
      ContentFits(t, secs[..k], name);
      assert SecOk(secs[k]);
      WalkFits(t, secs[k].body, secs[k].name);
      var w := Walk(t, secs[k].body, secs[k].name);
      BlocksFit(t, w.items, name);
      CommentsFit(t, w.pending, name);
      ConcatConcat(BlocksFor(t, secs[..k], name), BlocksTo(w.items, name));
      FitConcat(t, Concat(BlocksFor(t, secs[..k], name)), Concat(BlocksTo(w.items, name)), name);
      FitConcat(t, Tails(t, secs[..k], name), w.pending, name);
    }
  }

  lemma {:induction false} HeaderOk(t: Tables, secs: seq<Sec>, name: string)
    requires SecsOk(secs) && (ValidName(name) || !Absent(secs, name))
    ensures SectionName(HeaderOf(secs, name)) == Some(name)
    decreases |secs|
  {
    if secs == [] {
      PlainHeader(name);
    } else {
      var k := |secs| - 1;
      assert SecOk(secs[k]);
      if secs[k].name != name {
        HeaderOk(t, secs[..k], name);
      }
    }
  }

  lemma {:induction false} MergedOk(secs: seq<Sec>, name: string)
    requires SecsOk(secs)
    ensures NoHeaders(Merged(secs, name))
  {
    if secs != [] {
      var k := |secs| - 1;
      assert SecOk(secs[k]);
      MergedOk(secs[..k], name);
    }
  }

  lemma {:induction false} TrimEndOk(b: seq<string>)
    requires NoHeaders(b)
    ensures NoHeaders(TrimEnd(b)) && (TrimEnd(b) != [] ==> !Blank(TrimEnd(b)[|TrimEnd(b)| - 1]))
    decreases |b|
  {
    if b != [] && Blank(b[|b| - 1]) {
      TrimEndOk(b[..|b| - 1]);
    }
  }

  // ---------------------------------------------------------------- collecting normal sections

  lemma NormalSnoc(t: Tables, cs: seq<Sec>, c: Sec)
    requires AllNormal(t, cs) && NormalSec(t, c)
    ensures AllNormal(t, cs + [c])
  {
    forall i | 0 <= i < |cs| + 1 ensures NormalSec(t, (cs + [c])[i]) {
      assert i < |cs| ==> NormalSec(t, cs[i]);
    }
  }

  lemma AppendOther(t: Tables, cs: seq<Sec>, a: nat, b: nat, c: Sec)
    requires Collected(t, cs, a, b) && NormalSec(t, c) && !t.IsFt(c.name)
    ensures Collected(t, cs + [c], a, b)
  {
    NormalSnoc(t, cs, c);
    assert Places(t, cs + [c]) == Places(t, cs) + [t.Index(c.name)];
  }

  ghost predicate PlacesBelow(t: Tables, cs: seq<Sec>, a: nat, k: nat) {
    forall i | a <= i < |cs| :: Places(t, cs)[i] < k
  }

  lemma AppendFt(t: Tables, cs: seq<Sec>, a: nat, c: Sec)
    requires Collected(t, cs, a, |cs|) && NormalSec(t, c) && t.IsFt(c.name) && PlacesBelow(t, cs, a, t.Index(c.name))
    ensures Collected(t, cs + [c], a, |cs| + 1) && PlacesBelow(t, cs + [c], a, t.Index(c.name) + 1)
  {
    NormalSnoc(t, cs, c);
    assert Places(t, cs + [c]) == Places(t, cs) + [t.Index(c.name)];
  }

  lemma GroupSecOk(t: Tables, secs: seq<Sec>, n: string)
    requires t.Ok() && SecsOk(secs) && t.IsFt(n) && Content(t, secs, n) != []
    ensures NormalSec(t, Sec(n, HeaderOf(secs, n), Content(t, secs, n)))
  {
    HeaderOk(t, secs, n);
    ContentFits(t, secs, n);
    FitConcat(t, Concat(BlocksFor(t, secs, n)), Tails(t, secs, n), n);
  }

  lemma PlacesMore(t: Tables, cs: seq<Sec>, a: nat, k: nat)
    requires PlacesBelow(t, cs, a, k)
    ensures PlacesBelow(t, cs, a, k + 1)
  {
  }

  lemma {:induction false} GroupCollected(t: Tables, secs: seq<Sec>, cs: seq<Sec>, k: nat)
    requires t.Ok() && SecsOk(secs) && Collected(t, cs, |cs|, |cs|) && k <= |t.sections|
    ensures var all := cs + Group(t, secs, k); Collected(t, all, |cs|, |all|) && PlacesBelow(t, all, |cs|, k)
  {
    if k == 0 {
      assert cs + [] == cs;
    } else {
      var n := t.sections[k - 1];
      var before := cs + Group(t, secs, k - 1);
      GroupCollected(t, secs, cs, k - 1);
      IndexOfSection(t, k - 1);
      if Content(t, secs, n) != [] {
        var c := Sec(n, HeaderOf(secs, n), Content(t, secs, n));
        GroupSecOk(t, secs, n);
        AppendFt(t, before, |cs|, c);
        Snoc(cs, Group(t, secs, k - 1), [c]);
      } else {
        PlacesMore(t, before, |cs|, k - 1);
      }
    }
  }

  lemma OtherSecOk(t: Tables, secs: seq<Sec>, j: nat)
    requires SecsOk(secs) && j < |secs| && !t.IsFt(secs[j].name)
    ensures NormalSec(t, OtherSec(secs, secs[j].name))
  {
    HeaderOk(t, secs, secs[j].name);
    MergedOk(secs, secs[j].name);
    TrimmedSecOk(t, secs[j].name, HeaderOf(secs, secs[j].name), Merged(secs, secs[j].name));
  }

  lemma TrimmedSecOk(t: Tables, n: string, h: string, b: seq<string>)
    requires !t.IsFt(n) && SectionName(h) == Some(n) && NoHeaders(b)
    ensures NormalSec(t, Sec(n, h, TrimEnd(b)))
  {
    TrimEndOk(b);
  }

  lemma GroupIsFt(t: Tables, secs: seq<Sec>, k: nat)
    requires k <= |t.sections|
    ensures forall i | 0 <= i < |Group(t, secs, k)| :: t.IsFt(Group(t, secs, k)[i].name)
  {
  }

  lemma MoveRange(t: Tables, cs: seq<Sec>, a: nat)
    requires Collected(t, cs, a, a)
    ensures Collected(t, cs, |cs|, |cs|)
  {
  }

  lemma SomeFtMore(t: Tables, secs: seq<Sec>, j: nat)
    requires j < |secs|
    ensures SomeFt(t, secs[..j + 1]) <==> SomeFt(t, secs[..j]) || t.IsFt(secs[j].name)
  {
    assert secs[..j + 1] == secs[..j] + [secs[j]];
    assert forall i | 0 <= i < j :: secs[..j + 1][i] == secs[..j][i];
    assert secs[..j + 1][j] == secs[j];
  }

  /** Whatever a file holds, the sections collected from it are well formed, the finetune ones
      together in table order. */
  lemma {:induction false} ChunksCollected(t: Tables, secs: seq<Sec>, j: nat) returns (a: nat, b: nat)
    requires t.Ok() && SecsOk(secs) && j <= |secs|
    ensures Collected(t, Chunks(t, secs, j), a, b)
    ensures !SomeFt(t, secs[..j]) ==> a == b
  {
    if j == 0 {
      a, b := 0, 0;
    } else {
      a, b := ChunksCollected(t, secs, j - 1);
      SomeFtMore(t, secs, j - 1);
      a, b := ChunkAdded(t, secs, j - 1, a, b);
    }
  }

  lemma ChunkAdded(t: Tables, secs: seq<Sec>, j: nat, a0: nat, b0: nat) returns (a: nat, b: nat)
    requires t.Ok() && SecsOk(secs) && j < |secs|
    requires Collected(t, Chunks(t, secs, j), a0, b0) && (!SomeFt(t, secs[..j]) ==> a0 == b0)
    ensures Collected(t, Chunks(t, secs, j + 1), a, b)
    ensures !SomeFt(t, secs[..j]) && !t.IsFt(secs[j].name) ==> a == b
  {
    var cs := Chunks(t, secs, j);
    var n := secs[j].name;
    a, b := a0, b0;
    if !t.IsFt(n) {
      OtherSecOk(t, secs, j);
      AppendOther(t, cs, a, b, OtherSec(secs, n));
    } else if !SomeFt(t, secs[..j]) {
      MoveRange(t, cs, a);
      GroupCollected(t, secs, cs, |t.sections|);
      a, b := |cs|, |cs + Group(t, secs, |t.sections|)|;
    }
  }

  // ---------------------------------------------------------------- repeated sections

  function Count(secs: seq<Sec>, n: string): nat {
    if secs == [] then 0 else Count(secs[..|secs| - 1], n) + if secs[|secs| - 1].name == n then 1 else 0
  }

  lemma CountSnoc(secs: seq<Sec>, s: Sec, n: string)
    ensures Count(secs + [s], n) == Count(secs, n) + if s.name == n then 1 else 0
  {
    assert (secs + [s])[..|secs|] == secs;
  }

  lemma {:induction false} CountNone(secs: seq<Sec>, n: string)
    requires Absent(secs, n)
    ensures Count(secs, n) == 0
  {
    if secs != [] {
      CountNone(secs[..|secs| - 1], n);
    }
  }

  lemma {:induction false} CountSome(secs: seq<Sec>, i: nat)
    requires i < |secs|
    ensures Count(secs, secs[i].name) >= 1
    ensures Once(secs, i) ==> Count(secs, secs[i].name) == 1
    ensures !Once(secs, i) ==> Count(secs, secs[i].name) > 1
    decreases |secs|
  {
    var k := |secs| - 1;
    var init := secs[..k];
    if i < k {
      CountSome(init, i);
      assert Once(secs, i) <==> Once(init, i) && secs[k].name != secs[i].name;
    } else if Once(secs, k) {
      CountNone(init, secs[k].name);
    } else {
      var j :| 0 <= j < k && secs[j].name == secs[k].name;
      CountSome(init, j);
    }
  }

  lemma {:induction false} CountGroup(t: Tables, cs: seq<Sec>, more: seq<Sec>, n: string)
    requires !t.IsFt(n) && forall i | 0 <= i < |more| :: t.IsFt(more[i].name)
    ensures Count(cs + more, n) == Count(cs, n)
    decreases |more|
  {
    if more == [] {
      assert cs + more == cs;
    } else {
      var k := |more| - 1;
      CountGroup(t, cs, more[..k], n);
      assert (cs + more)[..|cs| + k] == cs + more[..k];
    }
  }

  /** Outside finetune a section is written as often as it occurs. */
  lemma {:induction false} CountChunks(t: Tables, secs: seq<Sec>, j: nat, n: string)
    requires j <= |secs| && !t.IsFt(n)
    ensures Count(Chunks(t, secs, j), n) == Count(secs[..j], n)
  {
    if j > 0 {
      CountChunks(t, secs, j - 1, n);
      assert secs[..j] == secs[..j - 1] + [secs[j - 1]];
      CountSnoc(secs[..j - 1], secs[j - 1], n);
      var cs := Chunks(t, secs, j - 1);
      if !t.IsFt(secs[j - 1].name) {
        CountSnoc(cs, OtherSec(secs, secs[j - 1].name), n);
      } else if !SomeFt(t, secs[..j - 1]) {
        GroupIsFt(t, secs, |t.sections|);
        CountGroup(t, cs, Group(t, secs, |t.sections|), n);
      }
    }
  }

  /** What is written outside finetune depends on the name alone. */
  lemma {:induction false} OthersAre(t: Tables, secs: seq<Sec>, j: nat, i: nat)
    requires j <= |secs| && i < |Chunks(t, secs, j)| && !t.IsFt(Chunks(t, secs, j)[i].name)
    ensures Chunks(t, secs, j)[i] == OtherSec(secs, Chunks(t, secs, j)[i].name)
    decreases j
  {
    var cs := Chunks(t, secs, j - 1);
    if i < |cs| {
      OthersAre(t, secs, j - 1, i);
    } else {
      GroupIsFt(t, secs, |t.sections|);
    }
  }

  function AllChunks(t: Tables, secs: seq<Sec>): seq<Sec> {
    Chunks(t, secs, |secs|)
  }

  ghost predicate IsLast(cs: seq<Sec>, n: string) {
    cs != [] && cs[|cs| - 1].name == n
  }

  /** A repeated section outside finetune holds nothing but blank lines, and if it is written last,
      its header has no blanks at its end. */
  ghost predicate Harmless(t: Tables, secs: seq<Sec>, n: string) {
    !t.IsFt(n) && Count(secs, n) > 1 ==>
      TrimEnd(Merged(secs, n)) == [] && (IsLast(AllChunks(t, secs), n) ==> RStrip(HeaderOf(secs, n)) == HeaderOf(secs, n))
  }

  ghost predicate AllHarmless(t: Tables, secs: seq<Sec>) {
    forall n {:trigger Harmless(t, secs, n)} :: Harmless(t, secs, n)
  }

  /** The section at `i` is one of several. */
  lemma RepeatedChunk(t: Tables, secs: seq<Sec>, i: nat)
    requires i < |AllChunks(t, secs)| && !t.IsFt(AllChunks(t, secs)[i].name)
    ensures var cs := AllChunks(t, secs);
            && cs[i] == OtherSec(secs, cs[i].name)
            && (Once(cs, i) <==> Count(secs, cs[i].name) == 1)
            && Count(secs, cs[i].name) == Count(cs, cs[i].name) >= 1
  {
    var cs := AllChunks(t, secs);
    OthersAre(t, secs, |secs|, i);
    CountChunks(t, secs, |secs|, cs[i].name);
    assert secs[..|secs|] == secs;
    CountSome(cs, i);
  }

  lemma HarmlessAlike(t: Tables, secs: seq<Sec>)
    requires AllHarmless(t, secs)
    ensures AllAlike(t, AllChunks(t, secs)) && AllAlike(t, TrimLast(AllChunks(t, secs)))
  {
    var cs := AllChunks(t, secs);
    forall i | 0 <= i < |cs| && !t.IsFt(cs[i].name) ensures Alike(cs, i) {
      RepeatedChunk(t, secs, i);
      assert Harmless(t, secs, cs[i].name);
      forall j | 0 <= j < |cs| && j != i && cs[j].name == cs[i].name ensures cs[j] == cs[i] && cs[i].body == [] {
        RepeatedChunk(t, secs, j);
      }
    }
    if cs != [] && !t.IsFt(cs[|cs| - 1].name) {
      RepeatedChunk(t, secs, |cs| - 1);
      assert Harmless(t, secs, cs[|cs| - 1].name);
    }
    TrimAlike(t, cs);
  }

  lemma UniqueHarmless(t: Tables, secs: seq<Sec>)
    requires UniqueNames(secs)
    ensures AllHarmless(t, secs)
  {
    forall n ensures Harmless(t, secs, n) {
      if i :| 0 <= i < |secs| && secs[i].name == n {
        UniqueOnce(secs, i);
        CountSome(secs, i);
      } else {
        CountNone(secs, n);
      }
    }
  }

  // ---------------------------------------------------------------- converting twice

  lemma NormalSecsOk(t: Tables, cs: seq<Sec>)
    requires AllNormal(t, cs)
    ensures SecsOk(cs)
  {
    forall i | 0 <= i < |cs| ensures SecOk(cs[i]) {
      assert NormalSec(t, cs[i]);
    }
  }

  /** A file without sections is only stripped. */
  lemma PlainFile(t: Tables, p: seq<string>)
    requires NoHeaders(p)
    ensures Convert(t, p) == Finish(p) && Parse(p) == Doc(p, [])
  {
    ReadBack(p, []);
    assert Chunks(t, [], 0) == [];
  }

  lemma FinishTwice(p: seq<string>)
    requires NoHeaders(p)
    ensures NoHeaders(Finish(p)) && Finish(Finish(p)) == Finish(p)
  {
    var b := TrimEnd(p);
    TrimEndOk(p);
    EmptyLine();
    if b == [] {
      assert TrimEnd([""]) == [];
    } else {
      RStripKeepsKind(b[|b| - 1]);
    }
  }

  /** The converted file, as sections: those collected, the last one stripped. */
  lemma ConvertedIs(t: Tables, lines: seq<string>) returns (cs: seq<Sec>, a: nat, b: nat)
    requires t.Ok()
    ensures SecsOk(Parse(lines).secs) && NoHeaders(Parse(lines).preamble)
    ensures cs == AllChunks(t, Parse(lines).secs) && Collected(t, cs, a, b) && Collected(t, TrimLast(cs), a, b)
    ensures cs == [] ==> Convert(t, lines) == Finish(Parse(lines).preamble) && Parse(Convert(t, lines)).secs == []
    ensures cs != [] ==>
              && Convert(t, lines) == Lay(Parse(lines).preamble, TrimLast(cs))
              && Parse(Convert(t, lines)) == Spaced(Parse(lines).preamble, TrimLast(cs))
              && AllPadded(Parse(Convert(t, lines)).secs, TrimLast(cs))
  {
    PrintParse(lines);
    var d := Parse(lines);
    cs := AllChunks(t, d.secs);
    a, b := ChunksCollected(t, d.secs, |d.secs|);
    TrimCollected(t, cs, a, b);
    if cs == [] {
      FinishTwice(d.preamble);
      PlainFile(t, Finish(d.preamble));
    } else {
      assert NormalSec(t, cs[|cs| - 1]);
      NormalEndsFull(t, cs[|cs| - 1]);
      FinishLay(d.preamble, cs);
      NormalSecsOk(t, TrimLast(cs));
      ReadBack(d.preamble, TrimLast(cs));
      SpacedPadded(d.preamble, TrimLast(cs));
    }
  }

  /** A file laid out with normal sections, its end stripped, is converted into itself. */
  lemma ConvertsToItself(t: Tables, p: seq<string>, cs: seq<Sec>, a: nat, b: nat)
    requires t.Ok() && NoHeaders(p) && cs != [] && Normal(t, cs, a, b) && TrimLast(cs) == cs
    ensures Convert(t, Lay(p, cs)) == Lay(p, cs)
  {
    NormalSecsOk(t, cs);
    ReadBack(p, cs);
    SpacedPadded(p, cs);
    SpacedPreamble(p, cs);
    Stable(t, Spaced(p, cs).secs, cs, a, b);
    LaySep(p, cs);
    assert NormalSec(t, cs[|cs| - 1]);
    NormalEndsFull(t, cs[|cs| - 1]);
    FinishLay(p, cs);
  }

  lemma HarmlessConverges(t: Tables, lines: seq<string>)
    requires t.Ok() && AllHarmless(t, Parse(lines).secs)
    ensures Convert(t, Convert(t, lines)) == Convert(t, lines)
  {
    var cs, a, b := ConvertedIs(t, lines);
    HarmlessAlike(t, Parse(lines).secs);
    if cs == [] {
      FinishTwice(Parse(lines).preamble);
      PlainFile(t, Finish(Parse(lines).preamble));
    } else {
      TrimLastTwice(cs);
      ConvertsToItself(t, Parse(lines).preamble, TrimLast(cs), a, b);
    }
  }

  // ---------------------------------------------------------------- where it does change something

  /** Sections that end full are determined by the file they are read back from. */
  lemma SameSections(t: Tables, secs: seq<Sec>, cs: seq<Sec>, ds: seq<Sec>)
    requires AllPadded(secs, cs) && AllPadded(secs, ds) && AllNormal(t, cs) && AllNormal(t, ds)
    ensures cs == ds
  {
    forall i | 0 <= i < |cs| ensures cs[i] == ds[i] {
      assert Padded(secs[i], cs[i]) && Padded(secs[i], ds[i]) && NormalSec(t, cs[i]) && NormalSec(t, ds[i]);
      BodyEndsFull(t, cs[i]);
      BodyEndsFull(t, ds[i]);
      TrimEndBlank(cs[i].body);
      TrimEndBlank(ds[i].body);
      FullTrims(cs[i].body);
      FullTrims(ds[i].body);
    }
  }

  lemma BodyEndsFull(t: Tables, c: Sec)
    requires NormalSec(t, c)
    ensures c.body != [] ==> !Blank(c.body[|c.body| - 1])
  {
    if c.body != [] {
      NormalEndsFull(t, c);
    }
  }

  lemma {:induction false} TrimEndLonger(a: seq<string>, b: seq<string>)
    requires a != [] && !Blank(a[|a| - 1])
    ensures |TrimEnd(a + b)| >= |a|
    ensures b != [] && !Blank(b[|b| - 1]) ==> TrimEnd(a + b) == a + b
    decreases |b|
  {
    if b == [] {
      assert a + b == a;
    } else if Blank(b[|b| - 1]) {
      assert (a + b)[..|a + b| - 1] == a + b[..|b| - 1];
      TrimEndLonger(a, b[..|b| - 1]);
    }
  }

  /** The merged lines of `n` begin with those of its first section and reach into its second. */
  lemma {:induction false} MergedHasBoth(secs: seq<Sec>, n: string, i: nat, k: nat)
    requires i < k < |secs| && secs[i].name == n == secs[k].name
    ensures exists x: seq<string>, y: seq<string>, z: seq<string> :: Merged(secs, n) == x + secs[i].body + y + secs[k].body + z
    decreases |secs|
  {
    var last := |secs| - 1;
    var init := secs[..last];
    if k < last {
      MergedHasBoth(init, n, i, k);
      var x: seq<string>, y: seq<string>, z: seq<string> :| Merged(init, n) == x + secs[i].body + y + secs[k].body + z;
      var more := if secs[last].name == n then secs[last].body else [];
      Snoc(x + secs[i].body + y + secs[k].body, z, more);
      assert Merged(secs, n) == x + secs[i].body + y + secs[k].body + (z + more);
    } else {
      MergedHasOne(init, n, i);
      var x: seq<string>, y: seq<string> :| Merged(init, n) == x + secs[i].body + y;
      assert Merged(secs, n) == x + secs[i].body + y + secs[k].body + [];
    }
  }

  lemma {:induction false} MergedHasOne(secs: seq<Sec>, n: string, i: nat)
    requires i < |secs| && secs[i].name == n
    ensures exists x: seq<string>, y: seq<string> :: Merged(secs, n) == x + secs[i].body + y
    decreases |secs|
  {
    var last := |secs| - 1;
    var init := secs[..last];
    if i < last {
      MergedHasOne(init, n, i);
      var x: seq<string>, y: seq<string> :| Merged(init, n) == x + secs[i].body + y;
      var more := if secs[last].name == n then secs[last].body else [];
      Snoc(x + secs[i].body, y, more);
      assert Merged(secs, n) == x + secs[i].body + (y + more);
    } else {
      assert Merged(secs, n) == Merged(init, n) + secs[i].body + [];
    }
  }

  /** Merging two copies of a body that ends full gives more than the body. */
  lemma BothAreMore(secs: seq<Sec>, n: string, i: nat, k: nat, c: Sec, d: Sec)
    requires i < k < |secs| && secs[i].name == n == secs[k].name && Padded(secs[i], c) && Padded(secs[k], d)
    requires c.body != [] && |d.body| == |c.body| && !Blank(c.body[|c.body| - 1]) && !Blank(d.body[|d.body| - 1])
    ensures |TrimEnd(Merged(secs, n))| > |c.body|
  {
    MergedHasBoth(secs, n, i, k);
    var x: seq<string>, y: seq<string>, z: seq<string> :| Merged(secs, n) == x + secs[i].body + y + secs[k].body + z;
    var front := x + secs[i].body + y + d.body;
    var back := if secs[k] == d then z else [""] + z;
    assert Merged(secs, n) == front + back;
    assert front[|front| - 1] == d.body[|d.body| - 1];
    TrimEndLonger(front, back);
  }

  /** If the converted file is converted into itself, a repeated section is the same in both, so it
      is empty and its header is the last one's. */
  lemma StableRepeat(t: Tables, secs: seq<Sec>, cs: seq<Sec>, n: string, i: nat, k: nat)
    requires AllPadded(secs, TrimLast(cs)) && AllNormal(t, cs) && AllNormal(t, TrimLast(cs))
    requires i < k < |cs| && cs[i].name == n == cs[k].name && cs[i] == cs[k]
    requires forall j | k < j < |cs| :: cs[j].name != n
    requires OtherSec(secs, n) == cs[i]
    ensures cs[i].body == [] && (k == |cs| - 1 ==> RStrip(cs[k].header) == cs[k].header)
  {
    var ds := TrimLast(cs);
    assert Padded(secs[i], ds[i]) && Padded(secs[k], ds[k]) && NormalSec(t, ds[i]) && NormalSec(t, ds[k]);
    if cs[i].body != [] {
      BodyEndsFull(t, ds[i]);
      BodyEndsFull(t, ds[k]);
      BothAreMore(secs, n, i, k, ds[i], ds[k]);
    }
    LastHeader(secs, n, k);
  }

  lemma {:induction false} LastHeader(secs: seq<Sec>, n: string, k: nat)
    requires k < |secs| && secs[k].name == n
    ensures (forall j | k < j < |secs| :: secs[j].name != n) ==> HeaderOf(secs, n) == secs[k].header
    decreases |secs|
  {
    if k < |secs| - 1 && forall j | k < j < |secs| :: secs[j].name != n {
      assert secs[|secs| - 1].name != n;
      LastHeader(secs[..|secs| - 1], n, k);
    }
  }

  /** The last two places of a repeated name. */
  lemma {:induction false} LastTwo(secs: seq<Sec>, n: string) returns (i: nat, k: nat)
    requires Count(secs, n) > 1
    ensures i < k < |secs| && secs[i].name == n == secs[k].name
    ensures forall j | k < j < |secs| :: secs[j].name != n
    decreases |secs|
  {
    var last := |secs| - 1;
    var init := secs[..last];
    if secs[last].name == n {
      k := last;
      if Absent(init, n) {
        CountNone(init, n);
      }
      i :| 0 <= i < last && init[i].name == n;
    } else {
      i, k := LastTwo(init, n);
    }
  }

  lemma ConvergesHarmless(t: Tables, lines: seq<string>, n: string)
    requires t.Ok() && Convert(t, Convert(t, lines)) == Convert(t, lines)
    ensures Harmless(t, Parse(lines).secs, n)
  {
    var secs := Parse(lines).secs;
    if !t.IsFt(n) && Count(secs, n) > 1 {
      var cs, a, b := ConvertedIs(t, lines);
      CountChunks(t, secs, |secs|, n);
      assert secs[..|secs|] == secs;
      var i, k := LastTwo(cs, n);
      OthersAre(t, secs, |secs|, i);
      OthersAre(t, secs, |secs|, k);
      var after := Parse(Convert(t, lines)).secs;
      var cs2, a2, b2 := ConvertedIs(t, Convert(t, lines));
      SameSections(t, after, TrimLast(cs), TrimLast(cs2));
      OthersAre(t, after, |after|, i);
      StableRepeat(t, after, cs, n, i, k);
    }
  }

  /** Converting a converted file changes nothing if and only if every repeated section outside
      finetune is empty and, where it is written last, has a header without blanks at its end. */
  lemma IdempotentExactly(t: Tables, lines: seq<string>)
    requires t.Ok()
    ensures Convert(t, Convert(t, lines)) == Convert(t, lines) <==> AllHarmless(t, Parse(lines).secs)
  {
    if AllHarmless(t, Parse(lines).secs) {
      HarmlessConverges(t, lines);
    } else if Convert(t, Convert(t, lines)) == Convert(t, lines) {
      forall n ensures Harmless(t, Parse(lines).secs, n) {
        ConvergesHarmless(t, lines, n);
      }
    }
  }

  lemma ParseThree(a: string, b: string, c: string)
    ensures Parse([a, b, c]) == ParseLine(ParseLine(ParseLine(Doc([], []), a), b), c)
    ensures Parse([a, b]) == ParseLine(ParseLine(Doc([], []), a), b)
  {
    ParseSnoc([], a);
    assert [] + [a] == [a];
    ParseSnoc([a], b);
    assert [a] + [b] == [a, b];
    ParseSnoc([a, b], c);
    assert [a, b] + [c] == [a, b, c];
  }

  lemma HeaderA()
    ensures SectionName("a:") == SectionName("a: ") == Some("a")
    ensures RStrip("a: ") == "a:"
  {
    PlainHeader("a");
    assert "a" + ":" == "a:";
    AppendKeepsKind("a:", ' ');
    assert "a:" + [' '] == "a: ";
    assert "a: "[..2] == "a:";
  }

  /** A section given twice, with one line under it: the second conversion doubles the line. */
  lemma RepeatedLineGrows(t: Tables)
    requires t.Ok() && !t.IsFt("a")
    ensures var x := ["a:", " b", "a:"]; Convert(t, Convert(t, x)) != Convert(t, x)
  {
    var x := ["a:", " b", "a:"];
    HeaderA();
    ParseThree("a:", " b", "a:");
    assert LStrip(" b") == LStrip(" b"[1..]) == "b";
    assert SectionName(" b").None?;
    assert [] + [" b"] == [" b"];
    var one, two := Sec("a", "a:", [" b"]), Sec("a", "a:", []);
    assert Parse(x).secs == [one] + [two];
    TwoSections(one, two);
    assert !Harmless(t, Parse(x).secs, "a");
    IdempotentExactly(t, x);
  }

  /** Two empty sections whose headers end in a blank: only the last header is stripped, and the
      second conversion repeats that one. */
  lemma RepeatedHeaderChanges(t: Tables)
    requires t.Ok() && !t.IsFt("a")
    ensures var x := ["a: ", "a: "]; Convert(t, Convert(t, x)) != Convert(t, x)
  {
    var x := ["a: ", "a: "];
    HeaderA();
    ParseThree("a: ", "a: ", "");
    var s := Sec("a", "a: ", []);
    var secs := [s] + [s];
    assert Parse(x).secs == secs;
    TwoSections(s, s);
    LastWritten(t, secs);
    assert !Harmless(t, secs, "a");
    IdempotentExactly(t, x);
  }

  lemma LastWritten(t: Tables, secs: seq<Sec>)
    requires secs != [] && !t.IsFt(secs[|secs| - 1].name)
    ensures IsLast(AllChunks(t, secs), secs[|secs| - 1].name)
  {
    var n := secs[|secs| - 1].name;
    assert AllChunks(t, secs) == Chunks(t, secs, |secs| - 1) + [OtherSec(secs, n)];
  }

  lemma TwoSections(one: Sec, two: Sec)
    requires one.name == two.name
    ensures var secs := [one] + [two];
            && Count(secs, one.name) == 2 && Merged(secs, one.name) == one.body + two.body
            && HeaderOf(secs, one.name) == two.header
  {
    var n := one.name;
    CountSnoc([], one, n);
    CountSnoc([one], two, n);
    assert [] + [one] == [one] && ([one] + [two])[..1] == [one] && [one][..0] == [];
    assert Merged([one], n) == Merged([], n) + one.body == one.body;
    assert Merged([one] + [two], n) == Merged([one], n) + two.body;
  }
}
