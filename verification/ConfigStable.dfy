/** The sections of a converted config file, read back and collected again, are the same. */
module ConfigStable {
  import opened Samples
  import opened ConfigLines
  import opened ConfigLayout
  import opened ConfigConvert

  // ---------------------------------------------------------------- a converted document is stable

  /** How many of the places `a..b` are below `k`, counted upwards. */
  function Upto(p: seq<nat>, a: nat, b: nat, k: nat): (m: nat)
    requires a <= b <= |p|
    ensures a + m <= b
  {
    if k == 0 then 0
    else
      var m := Upto(p, a, b, k - 1);
      if a + m < b && p[a + m] == k - 1 then m + 1 else m
  }

  lemma {:induction false} UptoSplits(p: seq<nat>, a: nat, b: nat, k: nat)
    requires a <= b <= |p| && Increasing(p, a, b)
    ensures var m := Upto(p, a, b, k);
            && (forall i | a <= i < a + m :: p[i] < k)
            && (forall i | a + m <= i < b :: p[i] >= k)
  {
    if k > 0 {
      UptoSplits(p, a, b, k - 1);
    }
  }

  lemma NotAmong(p: seq<nat>, a: nat, b: nat, k: nat)
    requires a <= b <= |p| && Increasing(p, a, b)
    requires var m := Upto(p, a, b, k); a + m < b ==> p[a + m] != k
    ensures forall i | a <= i < b :: p[i] != k
  {
    UptoSplits(p, a, b, k);
  }

  lemma NotInTable(t: Tables, cs: seq<Sec>, a: nat, b: nat, k: nat)
    requires t.Ok() && FtRange(t, cs, a, b) && k < |t.sections|
    requires var m := Upto(Places(t, cs), a, b, k); a + m < b ==> Places(t, cs)[a + m] != k
    ensures Absent(cs, t.sections[k])
  {
    NotAmong(Places(t, cs), a, b, k);
    IndexOfSection(t, k);
    forall i | 0 <= i < |cs| ensures cs[i].name != t.sections[k] {
      assert t.IsFt(cs[i].name) ==> Places(t, cs)[i] != k;
    }
  }

  lemma AbsentPadded(secs: seq<Sec>, cs: seq<Sec>, name: string)
    requires AllPadded(secs, cs) && Absent(cs, name)
    ensures Absent(secs, name)
  {
    forall i | 0 <= i < |secs| ensures secs[i].name != name {
      assert Padded(secs[i], cs[i]);
    }
  }

  lemma OncePadded(secs: seq<Sec>, cs: seq<Sec>, i: nat)
    requires AllPadded(secs, cs) && i < |cs| && Once(cs, i)
    ensures Once(secs, i)
  {
    forall j | 0 <= j < |secs| ensures secs[j].name == cs[j].name {
      assert Padded(secs[j], cs[j]);
    }
  }

  /** The finetune section at `i` is written again as it is. */
  lemma SameContent(t: Tables, secs: seq<Sec>, cs: seq<Sec>, a: nat, b: nat, i: nat)
    requires Normal(t, cs, a, b) && AllPadded(secs, cs) && a <= i < b
    ensures Content(t, secs, cs[i].name) == cs[i].body != [] && HeaderOf(secs, cs[i].name) == cs[i].header
  {
    assert Padded(secs[i], cs[i]) && NormalSec(t, cs[i]) && t.IsFt(cs[i].name);
    FtOnce(t, cs, a, b, i);
    OncePadded(secs, cs, i);
    ConvertedKeepOwn(t, secs, cs, secs[i].name);
    ContentAt(t, secs, i);
    SettledBlocks(t, secs[i], cs[i], cs[i].name);
    MergedAt(secs, i);
  }

  function FindSec(cs: seq<Sec>, name: string): (r: Option<Sec>)
    ensures r.None? <==> Absent(cs, name)
  {
    if cs == [] then None
    else if cs[|cs| - 1].name == name then Some(cs[|cs| - 1]) else FindSec(cs[..|cs| - 1], name)
  }

  lemma {:induction false} FoundSec(cs: seq<Sec>, i: nat)
    requires i < |cs| && Once(cs, i)
    ensures FindSec(cs, cs[i].name) == Some(cs[i])
  {
    var k := |cs| - 1;
    if i < k {
      assert cs[k].name != cs[i].name;
      FoundSec(cs[..k], i);
    }
  }

  /** What the section `n` of the table adds to the group. */
  ghost predicate GroupStep(t: Tables, secs: seq<Sec>, cs: seq<Sec>, n: string) {
    match FindSec(cs, n)
    case None => Content(t, secs, n) == []
    case Some(c) => Content(t, secs, n) != [] && Sec(n, HeaderOf(secs, n), Content(t, secs, n)) == c
  }

  lemma GroupStepHolds(t: Tables, secs: seq<Sec>, cs: seq<Sec>, a: nat, b: nat, n: string)
    requires Normal(t, cs, a, b) && AllPadded(secs, cs) && t.IsFt(n)
    ensures GroupStep(t, secs, cs, n)
  {
    if Absent(cs, n) {
      AbsentPadded(secs, cs, n);
      ConvertedKeepOwn(t, secs, cs, n);
      AbsentContent(t, secs, n);
      assert Content(t, secs, n) == [];
    } else {
      var i :| 0 <= i < |cs| && cs[i].name == n;
      FtOnce(t, cs, a, b, i);
      FoundSec(cs, i);
      SameContent(t, secs, cs, a, b, i);
    }
  }

  /** The sections of `cs` named by the first `k` of the table, in table order. */
  function InTableOrder(t: Tables, cs: seq<Sec>, k: nat): seq<Sec>
    requires k <= |t.sections|
  {
    if k == 0 then []
    else
      match FindSec(cs, t.sections[k - 1])
      case None => InTableOrder(t, cs, k - 1)
      case Some(c) => InTableOrder(t, cs, k - 1) + [c]
  }

  lemma {:induction false} GroupIs(t: Tables, secs: seq<Sec>, cs: seq<Sec>, k: nat)
    requires k <= |t.sections|
    requires forall n {:trigger GroupStep(t, secs, cs, n)} | n in t.sections :: GroupStep(t, secs, cs, n)
    ensures Group(t, secs, k) == InTableOrder(t, cs, k)
  {
    if k > 0 {
      GroupIs(t, secs, cs, k - 1);
      assert GroupStep(t, secs, cs, t.sections[k - 1]);
    }
  }

  /** The `m` sections from `a` on. */
  function Stretch(cs: seq<Sec>, a: nat, m: nat): seq<Sec>
    requires a + m <= |cs|
  {
    if m == 0 then [] else Stretch(cs, a, m - 1) + [cs[a + m - 1]]
  }

  lemma {:induction false} StretchIsSlice(cs: seq<Sec>, a: nat, m: nat)
    requires a + m <= |cs|
    ensures Stretch(cs, a, m) == cs[a..a + m]
  {
    if m > 0 {
      StretchIsSlice(cs, a, m - 1);
    }
  }

  lemma InTable(t: Tables, cs: seq<Sec>, a: nat, b: nat, i: nat)
    requires FtRange(t, cs, a, b) && a <= i < b
    ensures Places(t, cs)[i] < |t.sections| && t.sections[Places(t, cs)[i]] == cs[i].name
  {
    assert t.IsFt(cs[i].name);
  }

  /** The section the table names next is the next one of the range, or there is none. */
  ghost predicate FindStep(t: Tables, cs: seq<Sec>, p: seq<nat>, a: nat, b: nat, k: nat)
    requires a <= b <= |cs| == |p| && k < |t.sections|
  {
    var i := a + Upto(p, a, b, k);
    FindSec(cs, t.sections[k]) == if i < b && p[i] == k then Some(cs[i]) else None
  }

  lemma FindHit(t: Tables, cs: seq<Sec>, a: nat, b: nat, i: nat, k: nat)
    requires FtRange(t, cs, a, b) && a <= i < b && Places(t, cs)[i] == k
    ensures k < |t.sections| && FindSec(cs, t.sections[k]) == Some(cs[i])
  {
    InTable(t, cs, a, b, i);
    FtOnce(t, cs, a, b, i);
    FoundSec(cs, i);
  }

  lemma FindStepHolds(t: Tables, cs: seq<Sec>, a: nat, b: nat, k: nat)
    requires t.Ok() && FtRange(t, cs, a, b) && k < |t.sections|
    ensures FindStep(t, cs, Places(t, cs), a, b, k)
  {
    var p := Places(t, cs);
    var i := a + Upto(p, a, b, k);
    if i < b && p[i] == k {
      FindHit(t, cs, a, b, i, k);
    } else {
      NotInTable(t, cs, a, b, k);
    }
  }

  lemma {:induction false} TableOrderIs(t: Tables, cs: seq<Sec>, p: seq<nat>, a: nat, b: nat, k: nat)
    requires a <= b <= |cs| == |p| && k <= |t.sections|
    requires forall q {:trigger FindStep(t, cs, p, a, b, q)} | 0 <= q < k :: FindStep(t, cs, p, a, b, q)
    ensures InTableOrder(t, cs, k) == Stretch(cs, a, Upto(p, a, b, k))
  {
    if k > 0 {
      TableOrderIs(t, cs, p, a, b, k - 1);
      assert FindStep(t, cs, p, a, b, k - 1);
    }
  }

  lemma WholeGroup(t: Tables, secs: seq<Sec>, cs: seq<Sec>, a: nat, b: nat)
    requires t.Ok() && Normal(t, cs, a, b) && AllPadded(secs, cs)
    ensures Group(t, secs, |t.sections|) == cs[a..b]
  {
    forall n | n in t.sections ensures GroupStep(t, secs, cs, n) {
      GroupStepHolds(t, secs, cs, a, b, n);
    }
    GroupIs(t, secs, cs, |t.sections|);
    WholeTable(t, cs, a, b);
  }

  lemma AllFindSteps(t: Tables, cs: seq<Sec>, p: seq<nat>, a: nat, b: nat)
    requires t.Ok() && FtRange(t, cs, a, b) && p == Places(t, cs)
    ensures forall q {:trigger FindStep(t, cs, p, a, b, q)} | 0 <= q < |t.sections| :: FindStep(t, cs, p, a, b, q)
  {
    forall q | 0 <= q < |t.sections| ensures FindStep(t, cs, p, a, b, q) {
      FindStepHolds(t, cs, a, b, q);
    }
  }

  lemma {:induction false} WholeTable(t: Tables, cs: seq<Sec>, a: nat, b: nat)
    requires t.Ok() && FtRange(t, cs, a, b)
    ensures InTableOrder(t, cs, |t.sections|) == cs[a..b]
  {
    var p := Places(t, cs);
    var m := Upto(p, a, b, |t.sections|);
    AllFindSteps(t, cs, p, a, b);
    UptoAll(t, cs, a, b);
    calc {
      InTableOrder(t, cs, |t.sections|);
      { TableOrderIs(t, cs, p, a, b, |t.sections|); }
      Stretch(cs, a, m);
      { StretchIsSlice(cs, a, m); }
      cs[a..a + m];
    }
  }

  lemma UptoAll(t: Tables, cs: seq<Sec>, a: nat, b: nat)
    requires FtRange(t, cs, a, b)
    ensures a + Upto(Places(t, cs), a, b, |t.sections|) == b
  {
    UptoSplits(Places(t, cs), a, b, |t.sections|);
    if a < b {
      InTable(t, cs, a, b, b - 1);
    }
  }

  ghost predicate AllBlank(lines: seq<string>) {
    forall i | 0 <= i < |lines| :: Blank(lines[i])
  }

  lemma {:induction false} BlankTrims(lines: seq<string>)
    requires AllBlank(lines)
    ensures TrimEnd(lines) == []
    decreases |lines|
  {
    if lines != [] {
      BlankTrims(lines[..|lines| - 1]);
    }
  }

  /** Empty sections with the same header, however many. */
  lemma {:induction false} HollowMerged(secs: seq<Sec>, n: string, h: string)
    requires forall j | 0 <= j < |secs| && secs[j].name == n :: secs[j].header == h && AllBlank(secs[j].body)
    ensures AllBlank(Merged(secs, n)) && (!Absent(secs, n) ==> HeaderOf(secs, n) == h)
    decreases |secs|
  {
    if secs != [] {
      HollowMerged(secs[..|secs| - 1], n, h);
    }
  }

  lemma SameOther(t: Tables, secs: seq<Sec>, cs: seq<Sec>, i: nat)
    requires AllPadded(secs, cs) && i < |cs| && Alike(cs, i) && !t.IsFt(cs[i].name) && NormalSec(t, cs[i])
    ensures OtherSec(secs, secs[i].name) == cs[i]
  {
    var n := cs[i].name;
    assert Padded(secs[i], cs[i]);
    if cs[i].body != [] {
      OncePadded(secs, cs, i);
      MergedAt(secs, i);
      TrimEndBlank(cs[i].body);
      FullTrims(cs[i].body);
    } else {
      forall j | 0 <= j < |secs| && secs[j].name == n ensures secs[j].header == cs[i].header && AllBlank(secs[j].body) {
        assert Padded(secs[j], cs[j]);
      }
      HollowMerged(secs, n, cs[i].header);
      BlankTrims(Merged(secs, n));
      assert secs[i].name == n;
    }
  }

  lemma FullTrims(b: seq<string>)
    requires b != [] ==> !Blank(b[|b| - 1])
    ensures TrimEnd(b) == b
  {
  }

  lemma SomeFtIs(t: Tables, secs: seq<Sec>, cs: seq<Sec>, a: nat, b: nat, j: nat)
    requires FtRange(t, cs, a, b) && AllPadded(secs, cs) && a <= j <= b && a < b
    ensures SomeFt(t, secs[..j]) <==> a < j
  {
    forall i | 0 <= i < j ensures t.IsFt(secs[i].name) <==> a <= i {
      assert Padded(secs[i], cs[i]);
    }
    if a < j {
      assert t.IsFt(secs[..j][a].name);
    }
  }

  /** What the header at `j` adds. */
  ghost predicate ChunkStep(t: Tables, secs: seq<Sec>, cs: seq<Sec>, a: nat, b: nat, j: nat)
    requires a <= b <= |cs| == |secs| && j < |secs|
  {
    var n := secs[j].name;
    if a <= j < b
    then t.IsFt(n) && (SomeFt(t, secs[..j]) <==> a < j) && Group(t, secs, |t.sections|) == cs[a..b]
    else !t.IsFt(n) && OtherSec(secs, n) == cs[j]
  }

  lemma ChunkStepHolds(t: Tables, secs: seq<Sec>, cs: seq<Sec>, a: nat, b: nat, j: nat)
    requires t.Ok() && Normal(t, cs, a, b) && AllPadded(secs, cs) && j < |secs|
    ensures ChunkStep(t, secs, cs, a, b, j)
  {
    assert Padded(secs[j], cs[j]) && NormalSec(t, cs[j]);
    if a <= j < b {
      SomeFtIs(t, secs, cs, a, b, j);
      WholeGroup(t, secs, cs, a, b);
    } else {
      assert Alike(cs, j);
      SameOther(t, secs, cs, j);
    }
  }

  lemma {:induction false} ChunksAre(t: Tables, secs: seq<Sec>, cs: seq<Sec>, a: nat, b: nat, j: nat)
    requires a <= b <= |cs| == |secs| && j <= |secs| 
    requires forall q {:trigger ChunkStep(t, secs, cs, a, b, q)} | 0 <= q < j :: ChunkStep(t, secs, cs, a, b, q)
    ensures Chunks(t, secs, j) == if a < j < b then cs[..b] else cs[..j]
    decreases j
  {
    if j > 0 {
      ChunksAre(t, secs, cs, a, b, j - 1);
      assert ChunkStep(t, secs, cs, a, b, j - 1);
      Prefixes(cs, a, b, j - 1);
    }
  }

  lemma Prefixes(cs: seq<Sec>, a: nat, b: nat, j: nat)
    requires j < |cs| && a <= b <= |cs|
    ensures cs[..j + 1] == cs[..j] + [cs[j]] && cs[..a] + cs[a..b] == cs[..b] && cs[..b] + [] == cs[..b]
  {
  }

  /** Reading a converted document back and collecting its sections gives the same sections. */
  lemma Stable(t: Tables, secs: seq<Sec>, cs: seq<Sec>, a: nat, b: nat)
    requires t.Ok() && Normal(t, cs, a, b) && AllPadded(secs, cs)
    ensures Chunks(t, secs, |secs|) == cs
  {
    forall q | 0 <= q < |secs| ensures ChunkStep(t, secs, cs, a, b, q) {
      ChunkStepHolds(t, secs, cs, a, b, q);
    }
    ChunksAre(t, secs, cs, a, b, |secs|);
  }
}
