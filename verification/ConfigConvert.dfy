/** What the converter makes of a parsed config file. */
module ConfigConvert {
  import opened Samples
  import opened ConfigLines
  import opened ConfigLayout

  // ---------------------------------------------------------------- one finetune section

  /** A key line with the comment lines above it, and the section it goes to. */
  datatype Item = Item(dest: string, block: seq<string>)

  /** `pending` are the comment lines still waiting for their key. */
  datatype Walked = Walked(items: seq<Item>, pending: seq<string>)

  predicate IsItemLine(l: string) {
    !Blank(l) && !IsComment(l)
  }

  function WalkLine(t: Tables, w: Walked, cur: string, l: string): Walked {
    if Blank(l) then w
    else if IsComment(l) then w.(pending := w.pending + [l])
    else if t.IsRetired(KeyName(l)) then w.(pending := [])
    else Walked(w.items + [Item(t.Dest(KeyName(l), cur), w.pending + [l])], [])
  }

  function Walk(t: Tables, body: seq<string>, cur: string): Walked {
    if body == [] then Walked([], [])
    else WalkLine(t, Walk(t, body[..|body| - 1], cur), cur, body[|body| - 1])
  }

  /** The blocks among `items` that go to `name`. */
  function BlocksTo(items: seq<Item>, name: string): seq<seq<string>> {
    if items == [] then []
    else
      var k := |items| - 1;
      var before := BlocksTo(items[..k], name);
      if items[k].dest == name then before + [items[k].block] else before
  }

  function Concat(blocks: seq<seq<string>>): seq<string> {
    if blocks == [] then [] else Concat(blocks[..|blocks| - 1]) + blocks[|blocks| - 1]
  }

  lemma WalkSnoc(t: Tables, body: seq<string>, cur: string, l: string)
    ensures Walk(t, body + [l], cur) == WalkLine(t, Walk(t, body, cur), cur, l)
  {
    assert (body + [l])[..|body|] == body;
  }

  lemma BlocksSnoc(items: seq<Item>, x: Item, name: string)
    ensures BlocksTo(items + [x], name)
            == if x.dest == name then BlocksTo(items, name) + [x.block] else BlocksTo(items, name)
  {
    assert (items + [x])[..|items|] == items;
  }

  lemma ConcatSnoc(blocks: seq<seq<string>>, b: seq<string>)
    ensures Concat(blocks + [b]) == Concat(blocks) + b
  {
    assert (blocks + [b])[..|blocks|] == blocks;
  }

  /** Lines that already are where they belong. */
  ghost predicate SettledLine(t: Tables, l: string, name: string) {
    !Blank(l) && (IsItemLine(l) ==> !t.IsRetired(KeyName(l)) && t.Dest(KeyName(l), name) == name)
  }

  ghost predicate Settled(t: Tables, body: seq<string>, name: string) {
    forall i | 0 <= i < |body| :: SettledLine(t, body[i], name)
  }

  /** Comment lines and then one key line that belongs in `name`. */
  ghost predicate BlockOk(t: Tables, b: seq<string>, name: string) {
    && b != [] && (forall i | 0 <= i < |b| - 1 :: IsComment(b[i]))
    && IsItemLine(b[|b| - 1]) && SettledLine(t, b[|b| - 1], name)
  }

  ghost predicate Comments(lines: seq<string>) {
    forall i | 0 <= i < |lines| :: IsComment(lines[i])
  }

  lemma CommentIsSettled(t: Tables, l: string, name: string)
    requires IsComment(l)
    ensures SettledLine(t, l, name)
  {
  }

  /** Walking a settled section finds nothing to move, drop or reorder. */
  lemma {:induction false} WalkSettled(t: Tables, body: seq<string>, name: string)
    requires Settled(t, body, name)
    ensures var w := Walk(t, body, name);
            && (forall i | 0 <= i < |w.items| :: w.items[i].dest == name)
            && Concat(BlocksTo(w.items, name)) + w.pending == body
            && forall m | m != name :: BlocksTo(w.items, m) == []
    decreases |body|
  {
    if body != [] {
      var init := body[..|body| - 1];
      var l := body[|body| - 1];
      WalkSettled(t, init, name);
      Last(body);
      SettledStep(t, Walk(t, init, name), init, name, l);
    } else {
      assert Concat(BlocksTo([], name)) + [] == [];
    }
  }

  lemma SettledStep(t: Tables, w: Walked, init: seq<string>, name: string, l: string)
    requires SettledLine(t, l, name) && Concat(BlocksTo(w.items, name)) + w.pending == init
    requires forall i | 0 <= i < |w.items| :: w.items[i].dest == name
    requires forall m | m != name :: BlocksTo(w.items, m) == []
    ensures var u := WalkLine(t, w, name, l);
            && (forall i | 0 <= i < |u.items| :: u.items[i].dest == name)
            && Concat(BlocksTo(u.items, name)) + u.pending == init + [l]
            && forall m | m != name :: BlocksTo(u.items, m) == []
  {
    if IsComment(l) {
      Snoc(Concat(BlocksTo(w.items, name)), w.pending, [l]);
    } else {
      var x := Item(name, w.pending + [l]);
      forall m ensures BlocksTo(w.items + [x], m) == if m == name then BlocksTo(w.items, m) + [x.block] else BlocksTo(w.items, m) {
        BlocksSnoc(w.items, x, m);
      }
      ConcatSnoc(BlocksTo(w.items, name), x.block);
      Snoc(Concat(BlocksTo(w.items, name)), w.pending, [l]);
      assert init + [l] + [] == init + [l];
    }
  }

  lemma WalkBlank(t: Tables, body: seq<string>, cur: string)
    ensures Walk(t, body + [""], cur) == Walk(t, body, cur)
  {
    WalkSnoc(t, body, cur, "");
  }

  /** What a walk produces: well-formed blocks, for sections that exist, and comments. */
  lemma {:induction false} WalkShape(t: Tables, body: seq<string>, cur: string)
    requires t.Ok() && t.IsFt(cur)
    ensures var w := Walk(t, body, cur);
            && Comments(w.pending)
            && forall i | 0 <= i < |w.items| :: t.IsFt(w.items[i].dest) && BlockOk(t, w.items[i].block, w.items[i].dest)
    decreases |body|
  {
    if body != [] {
      WalkShape(t, body[..|body| - 1], cur);
    }
  }

  // ---------------------------------------------------------------- all sections

  /** The blocks for `name`, from whatever finetune section they stand in, in file order. */
  function BlocksFor(t: Tables, secs: seq<Sec>, name: string): seq<seq<string>> {
    if secs == [] then []
    else
      var k := |secs| - 1;
      var before := BlocksFor(t, secs[..k], name);
      if t.IsFt(secs[k].name) then before + BlocksTo(Walk(t, secs[k].body, secs[k].name).items, name) else before
  }

  /** Comments after the last key of the section `name`. */
  function Tails(t: Tables, secs: seq<Sec>, name: string): seq<string> {
    if secs == [] then []
    else
      var k := |secs| - 1;
      var before := Tails(t, secs[..k], name);
      if secs[k].name == name then before + Walk(t, secs[k].body, name).pending else before
  }

  function Content(t: Tables, secs: seq<Sec>, name: string): seq<string> {
    Concat(BlocksFor(t, secs, name)) + Tails(t, secs, name)
  }

  function HeaderOf(secs: seq<Sec>, name: string): string {
    if secs == [] then name + ":"
    else
      var k := |secs| - 1;
      if secs[k].name == name then secs[k].header else HeaderOf(secs[..k], name)
  }

  /** A section that occurs twice is written twice, each time with both bodies. */
  function Merged(secs: seq<Sec>, name: string): seq<string> {
    if secs == [] then []
    else
      var k := |secs| - 1;
      var before := Merged(secs[..k], name);
      if secs[k].name == name then before + secs[k].body else before
  }

  function TrimEnd(b: seq<string>): seq<string> {
    if b != [] && Blank(b[|b| - 1]) then TrimEnd(b[..|b| - 1]) else b
  }

  /** The first `k` finetune sections of the table, as far as they have anything to hold. */
  function Group(t: Tables, secs: seq<Sec>, k: nat): seq<Sec>
    requires k <= |t.sections|
  {
    if k == 0 then []
    else
      var n := t.sections[k - 1];
      var c := Content(t, secs, n);
      var before := Group(t, secs, k - 1);
      if c == [] then before else before + [Sec(n, HeaderOf(secs, n), c)]
  }

  /** What is written for a header outside finetune. */
  function OtherSec(secs: seq<Sec>, n: string): Sec {
    Sec(n, HeaderOf(secs, n), TrimEnd(Merged(secs, n)))
  }

  predicate SomeFt(t: Tables, secs: seq<Sec>) {
    exists i :: 0 <= i < |secs| && t.IsFt(secs[i].name)
  }

  /** The sections written for the first `j` headers: all finetune ones where the first stood. */
  function Chunks(t: Tables, secs: seq<Sec>, j: nat): seq<Sec>
    requires j <= |secs|
  {
    if j == 0 then []
    else
      var n := secs[j - 1].name;
      var before := Chunks(t, secs, j - 1);
      if !t.IsFt(n) then before + [OtherSec(secs, n)]
      else if SomeFt(t, secs[..j - 1]) then before
      else before + Group(t, secs, |t.sections|)
  }

  /** A blank line before the next section, unless one is there. */
  function Sep(out: seq<string>): seq<string> {
    if out != [] && !Blank(out[|out| - 1]) then out + [""] else out
  }

  function Lay(p: seq<string>, cs: seq<Sec>): seq<string> {
    if cs == [] then p
    else
      var k := |cs| - 1;
      Sep(Lay(p, cs[..k])) + ([cs[k].header] + cs[k].body)
  }

  /** The lines written, before the text is stripped. */
  function Emitted(t: Tables, lines: seq<string>): seq<string> {
    var d := Parse(lines);
    Lay(d.preamble, Chunks(t, d.secs, |d.secs|))
  }

  /** Stripping blanks off the end of the text, and ending it with a line break. */
  function Finish(out: seq<string>): seq<string> {
    var b := TrimEnd(out);
    if b == [] then [""] else b[|b| - 1 := RStrip(b[|b| - 1])]
  }

  function Convert(t: Tables, lines: seq<string>): seq<string> {
    Finish(Emitted(t, lines))
  }

  function Names(secs: seq<Sec>): (r: seq<string>)
    ensures |r| == |secs|
  {
    seq(|secs|, i requires 0 <= i < |secs| => secs[i].name)
  }

  ghost predicate UniqueNames(secs: seq<Sec>) {
    Distinct(Names(secs))
  }

  /** No other section has this section's name. */
  ghost predicate Once(secs: seq<Sec>, i: nat)
    requires i < |secs|
  {
    forall j | 0 <= j < |secs| && j != i :: secs[j].name != secs[i].name
  }

  lemma UniqueOnce(secs: seq<Sec>, i: nat)
    requires UniqueNames(secs) && i < |secs|
    ensures Once(secs, i)
  {
    forall j | 0 <= j < |secs| && j != i ensures secs[j].name != secs[i].name {
      assert Names(secs)[i] != Names(secs)[j];
    }
  }

  // ---------------------------------------------------------------- the layout already converted

  /** A section as the converter leaves it. */
  ghost predicate NormalSec(t: Tables, c: Sec) {
    && SecOk(c)
    && if t.IsFt(c.name) then c.body != [] && Settled(t, c.body, c.name)
       else c.body != [] ==> !Blank(c.body[|c.body| - 1])
  }

  /** Where the sections stand in the table. */
  function Places(t: Tables, cs: seq<Sec>): (r: seq<nat>)
    ensures |r| == |cs|
  {
    seq(|cs|, i requires 0 <= i < |cs| => t.Index(cs[i].name))
  }

  ghost predicate Increasing(p: seq<nat>, a: nat, b: nat)
    requires b <= |p|
  {
    forall i, j | a <= i < j < b :: p[i] < p[j]
  }

  /** The sections from `a` to `b` are the finetune ones, in table order. */
  ghost predicate FtRange(t: Tables, cs: seq<Sec>, a: nat, b: nat) {
    && a <= b <= |cs|
    && (forall i | 0 <= i < |cs| :: t.IsFt(cs[i].name) <==> a <= i < b)
    && Increasing(Places(t, cs), a, b)
  }

  ghost predicate AllNormal(t: Tables, cs: seq<Sec>) {
    forall i {:trigger NormalSec(t, cs[i])} | 0 <= i < |cs| :: NormalSec(t, cs[i])
  }

  ghost predicate Collected(t: Tables, cs: seq<Sec>, a: nat, b: nat) {
    FtRange(t, cs, a, b) && AllNormal(t, cs)
  }

  /** A section that is repeated is empty, and its headers are all alike. */
  ghost predicate Alike(cs: seq<Sec>, i: nat)
    requires i < |cs|
  {
    forall j | 0 <= j < |cs| && j != i && cs[j].name == cs[i].name :: cs[j].header == cs[i].header && cs[j].body == cs[i].body == []
  }

  ghost predicate AllAlike(t: Tables, cs: seq<Sec>) {
    forall i {:trigger Alike(cs, i)} | 0 <= i < |cs| && !t.IsFt(cs[i].name) :: Alike(cs, i)
  }

  ghost predicate Normal(t: Tables, cs: seq<Sec>, a: nat, b: nat) {
    Collected(t, cs, a, b) && AllAlike(t, cs)
  }

  /** The table names no section twice. */
  lemma FtOnce(t: Tables, cs: seq<Sec>, a: nat, b: nat, i: nat)
    requires FtRange(t, cs, a, b) && a <= i < b
    ensures Once(cs, i)
  {
    forall j | 0 <= j < |cs| && j != i ensures cs[j].name != cs[i].name {
      assert t.IsFt(cs[i].name);
      if a <= j < b {
        assert Places(t, cs)[i] != Places(t, cs)[j];
      }
    }
  }

  /** The same section with a blank line after it, perhaps. */
  ghost predicate Padded(s: Sec, c: Sec) {
    s == c || s == c.(body := c.body + [""])
  }

  ghost predicate AllPadded(secs: seq<Sec>, cs: seq<Sec>) {
    |secs| == |cs| && forall i {:trigger Padded(secs[i], cs[i])} | 0 <= i < |cs| :: Padded(secs[i], cs[i])
  }

  lemma PaddedWalk(t: Tables, s: Sec, c: Sec, cur: string)
    requires Padded(s, c)
    ensures Walk(t, s.body, cur) == Walk(t, c.body, cur)
  {
    WalkBlank(t, c.body, cur);
  }

  lemma TrimEndBlank(b: seq<string>)
    ensures TrimEnd(b + [""]) == TrimEnd(b)
  {
    assert (b + [""])[..|b|] == b;
  }

  ghost predicate Absent(secs: seq<Sec>, name: string) {
    forall i | 0 <= i < |secs| :: secs[i].name != name
  }

  lemma {:induction false} AbsentMerged(secs: seq<Sec>, name: string)
    requires Absent(secs, name)
    ensures Merged(secs, name) == []
  {
    if secs != [] {
      AbsentMerged(secs[..|secs| - 1], name);
    }
  }

  lemma {:induction false} MergedAt(secs: seq<Sec>, i: nat)
    requires i < |secs| && Once(secs, i)
    ensures Merged(secs, secs[i].name) == secs[i].body && HeaderOf(secs, secs[i].name) == secs[i].header
  {
    var k := |secs| - 1;
    if i == k {
      AbsentMerged(secs[..k], secs[k].name);
      assert [] + secs[k].body == secs[k].body;
    } else {
      assert secs[k].name != secs[i].name;
      MergedAt(secs[..k], i);
    }
  }

  /** A settled section keeps all its blocks, and no other section gives it any. */
  lemma SettledBlocks(t: Tables, s: Sec, c: Sec, name: string)
    requires t.IsFt(c.name) && NormalSec(t, c) && Padded(s, c)
    ensures s.name != name ==> BlocksTo(Walk(t, s.body, s.name).items, name) == []
    ensures Concat(BlocksTo(Walk(t, s.body, s.name).items, s.name)) + Walk(t, s.body, s.name).pending == c.body
  {
    PaddedWalk(t, s, c, s.name);
    WalkSettled(t, c.body, c.name);
  }

  /** The section gives blocks to no other section than itself. */
  ghost predicate KeepsOwn(t: Tables, s: Sec, name: string) {
    t.IsFt(s.name) && s.name != name ==> BlocksTo(Walk(t, s.body, s.name).items, name) == []
  }

  ghost predicate AllKeepOwn(t: Tables, secs: seq<Sec>, name: string) {
    forall i {:trigger KeepsOwn(t, secs[i], name)} | 0 <= i < |secs| :: KeepsOwn(t, secs[i], name)
  }

  lemma ConvertedKeepOwn(t: Tables, secs: seq<Sec>, cs: seq<Sec>, name: string)
    requires AllPadded(secs, cs) && AllNormal(t, cs)
    ensures AllKeepOwn(t, secs, name)
  {
    forall i | 0 <= i < |secs| ensures KeepsOwn(t, secs[i], name) {
      assert Padded(secs[i], cs[i]) && NormalSec(t, cs[i]);
      if t.IsFt(cs[i].name) {
        SettledBlocks(t, secs[i], cs[i], name);
      }
    }
  }

  lemma {:induction false} AbsentContent(t: Tables, secs: seq<Sec>, name: string)
    requires AllKeepOwn(t, secs, name) && Absent(secs, name)
    ensures BlocksFor(t, secs, name) == [] && Tails(t, secs, name) == []
    decreases |secs|
  {
    if secs != [] {
      var k := |secs| - 1;
      AbsentContent(t, secs[..k], name);
      assert KeepsOwn(t, secs[k], name);
    }
  }

  lemma {:induction false} ContentAt(t: Tables, secs: seq<Sec>, i: nat)
    requires i < |secs| && AllKeepOwn(t, secs, secs[i].name) && Once(secs, i) && t.IsFt(secs[i].name)
    ensures var n := secs[i].name;
            && BlocksFor(t, secs, n) == BlocksTo(Walk(t, secs[i].body, n).items, n)
            && Tails(t, secs, n) == Walk(t, secs[i].body, n).pending
    decreases |secs|
  {
    var k := |secs| - 1;
    if i == k {
      AbsentContent(t, secs[..k], secs[k].name);
    } else {
      assert secs[k].name != secs[i].name;
      ContentAt(t, secs[..k], i);
      assert KeepsOwn(t, secs[k], secs[i].name);
    }
  }
}
