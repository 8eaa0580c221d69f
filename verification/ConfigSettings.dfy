/** What the config loader makes of the finetune sections, before and after a conversion. */
module ConfigSettings {
  import opened Samples
  import opened ConfigLines
  import opened ConfigLayout
  import opened ConfigConvert
  import opened ConfigStable
  import opened ConfigIdempotence
  import opened ConfigMeaning

  /** The loaded config: the finetune sections it has, each a mapping from keys to opaque values. */
  type Config = map<string, map<string, string>>

  /** The merged finetune settings, or the error that a key appears in two sections. */
  datatype Settings = Merged(values: map<string, string>) | AppearsTwice

  // ---------------------------------------------------------------- merging

  function Section(config: Config, n: string): map<string, string> {
    if n in config then config[n] else map[]
  }

  /** The settings of the first `k` sections of the table, retired keys dropped. */
  function Merge(t: Tables, config: Config, k: nat): Settings
    requires k <= |t.sections|
  {
    if k == 0 then Merged(map[])
    else
      match Merge(t, config, k - 1)
      case AppearsTwice => AppearsTwice
      case Merged(m) =>
        var d := Section(config, t.sections[k - 1]) - t.retired;
        if m.Keys !! d.Keys then Merged(m + d) else AppearsTwice
  }

  method FinetuneKwargs(t: Tables, config: Config) returns (r: Settings)
    ensures r == Merge(t, config, |t.sections|)
  {
    var out: map<string, string> := map[];
    for i := 0 to |t.sections|
      invariant Merge(t, config, i) == Merged(out)
    {
      var more := MergeSection(out, Section(config, t.sections[i]), t.retired);
      if more.None? {
        MergeStaysTwice(t, config, i + 1, |t.sections|);
        return AppearsTwice;
      }
      out := more.value;
    }
    r := Merged(out);
  }

  /** Adds one section's settings to those found so far, unless one is there already. */
  method MergeSection(found: map<string, string>, body: map<string, string>, retired: set<string>)
    returns (r: Option<map<string, string>>)
    ensures r == if found.Keys !! (body - retired).Keys then Some(found + (body - retired)) else None
  {
    var out, keys := found, body.Keys;
    while keys != {}
      invariant keys <= body.Keys && forall key | key in found && key in body && key !in retired :: key in keys
      invariant forall key :: key in out <==> key in found || (key in body && key !in keys && key !in retired)
      invariant forall key | key in out :: out[key] == if key in found then found[key] else body[key]
      decreases |keys|
    {
      var key :| key in keys;
      keys := keys - {key};
      if key !in retired {
        if key in out {
          assert key in found && key in body - retired;
          return None;
        }
        out := out[key := body[key]];
      }
    }
    assert out == found + (body - retired);
    r := Some(out);
  }

  lemma {:induction false} MergeStaysTwice(t: Tables, config: Config, j: nat, k: nat)
    requires j <= k <= |t.sections| && Merge(t, config, j).AppearsTwice?
    ensures Merge(t, config, k).AppearsTwice?
    decreases k
  {
    if j < k {
      MergeStaysTwice(t, config, j, k - 1);
    }
  }

  /** One setting, from the first section of the table that holds it. */
  method FinetuneValue(t: Tables, config: Config, key: string, default: string) returns (v: string)
    ensures (forall i | 0 <= i < |t.sections| :: key !in Section(config, t.sections[i])) ==> v == default
    ensures key !in t.retired && Merge(t, config, |t.sections|).Merged? ==>
              var m := Merge(t, config, |t.sections|).values; v == if key in m then m[key] else default
  {
    for i := 0 to |t.sections|
      invariant forall j | 0 <= j < i :: key !in Section(config, t.sections[j])
    {
      var body := Section(config, t.sections[i]);
      if key in body {
        if key !in t.retired && Merge(t, config, |t.sections|).Merged? {
          MergeMeans(t, config, |t.sections|, key);
          assert Given(t, config, t.sections[i], key) == Some(body[key]);
        }
        return body[key];
      }
    }
    if key !in t.retired && Merge(t, config, |t.sections|).Merged? {
      MergeMeans(t, config, |t.sections|, key);
    }
    v := default;
  }

  /** The value section `n` gives to the key, if the key counts. */
  function Given(t: Tables, config: Config, n: string, key: string): Option<string> {
    if key in t.retired || key !in Section(config, n) then None else Some(Section(config, n)[key])
  }

  /** No two of the first `k` sections give the key. */
  ghost predicate OneGives(t: Tables, config: Config, k: nat, key: string)
    requires k <= |t.sections|
  {
    forall i, j | 0 <= i < j < k :: Given(t, config, t.sections[i], key).None? || Given(t, config, t.sections[j], key).None?
  }

  /** What the merge says of one key. */
  lemma {:induction false} MergeMeans(t: Tables, config: Config, k: nat, key: string)
    requires k <= |t.sections| && Merge(t, config, k).Merged?
    ensures var m := Merge(t, config, k).values;
            && OneGives(t, config, k, key)
            && (key in m <==> exists i :: 0 <= i < k && Given(t, config, t.sections[i], key).Some?)
            && forall i | 0 <= i < k && Given(t, config, t.sections[i], key).Some? ::
                 key in m && Given(t, config, t.sections[i], key) == Some(m[key])
  {
    if k > 0 {
      MergeMeans(t, config, k - 1, key);
      var m := Merge(t, config, k).values;
      var g := Given(t, config, t.sections[k - 1], key);
      assert key in m <==> key in Merge(t, config, k - 1).values || g.Some?;
      if g.Some? {
        assert key in m;
      }
    }
  }

  /** The merge fails exactly when some key is given twice. */
  lemma {:induction false} MergeFails(t: Tables, config: Config, k: nat)
    requires k <= |t.sections|
    ensures Merge(t, config, k).Merged? <==> forall key {:trigger OneGives(t, config, k, key)} :: OneGives(t, config, k, key)
  {
    if Merge(t, config, k).Merged? {
      forall key ensures OneGives(t, config, k, key) {
        MergeMeans(t, config, k, key);
      }
    } else {
      MergeFails(t, config, k - 1);
      if Merge(t, config, k - 1).Merged? {
        var m := Merge(t, config, k - 1).values;
        var d := Section(config, t.sections[k - 1]) - t.retired;
        var key :| key in m && key in d;
        MergeMeans(t, config, k - 1, key);
        assert !OneGives(t, config, k, key);
      } else {
        var key :| !OneGives(t, config, k - 1, key);
        assert !OneGives(t, config, k, key);
      }
    }
  }

  /** Configs that give every key alike, from whatever section, merge alike. */
  lemma SameMerge(t: Tables, a: Config, b: Config)
    requires Merge(t, a, |t.sections|).Merged? && Merge(t, b, |t.sections|).Merged?
    requires forall n, key {:trigger Given(t, a, n, key)} | n in t.sections && Given(t, a, n, key).Some? ::
               exists m :: m in t.sections && Given(t, b, m, key) == Given(t, a, n, key)
    requires forall n, key {:trigger Given(t, b, n, key)} | n in t.sections && Given(t, b, n, key).Some? ::
               exists m :: m in t.sections && Given(t, a, m, key) == Given(t, b, n, key)
    ensures Merge(t, a, |t.sections|) == Merge(t, b, |t.sections|)
  {
    var m, m' := Merge(t, a, |t.sections|).values, Merge(t, b, |t.sections|).values;
    forall key ensures (key in m <==> key in m') && (key in m ==> m[key] == m'[key]) {
      MergeMeans(t, a, |t.sections|, key);
      MergeMeans(t, b, |t.sections|, key);
    }
    assert m.Keys == m'.Keys;
  }

  // ---------------------------------------------------------------- reading a file

  /** The key a line gives a value to. */
  function KeyOf(l: string): Option<string> {
    if IsItemLine(l) then KeyName(l) else None
  }

  /** The text after the key's colon, without the blanks around it. */
  function Value(l: string): string {
    var s := LStrip(RStrip(l));
    if KeyName(l).Some? && |KeyName(l).value| < |s| then LStrip(s[|KeyName(l).value| + 1..]) else []
  }

  lemma RStripAt(l: string, b: nat)
    requires Blanks(l, b, |l|) && (b > 0 ==> l[b - 1] != ' ' && l[b - 1] != '\t')
    ensures RStrip(l) == l[..b]
  {
    RStripped(l);
    assert |RStrip(l)| == b;
  }

  lemma LStripAt(l: string, a: nat)
    requires Blanks(l, 0, a) && (a < |l| ==> l[a] != ' ' && l[a] != '\t')
    ensures LStrip(l) == l[a..]
  {
    var k := LStripped(l);
    assert k == a;
  }

  /** The value of a key line is what stands after the key's colon, between the blanks around it. */
  lemma ValueExactly(l: string, key: string, k: nat, a: nat, b: nat)
    requires 0 < k && Blanks(l, 0, k) && KeyAt(l, key, k) && Blanks(l, k + |key| + 1, a) && a <= b && Blanks(l, b, |l|)
    requires if a < b then l[a] != ' ' && l[a] != '\t' && l[b - 1] != ' ' && l[b - 1] != '\t' else a == b == |l|
    ensures KeyName(l) == Some(key) && Value(l) == l[a..b]
  {
    KeyExactly(l, key);
    var colon := k + |key|;
    var end := if a < b then b else colon + 1;
    assert Blanks(l, end, |l|);
    RStripAt(l, end);
    assert l[..end][k] == l[k] == key[0] by {
      assert l[k..colon][0] == l[k];
    }
    LStripAt(l[..end], k);
    var s := l[..end][k..];
    assert s[|key| + 1..] == l[colon + 1..end];
    if a < b {
      ValueStart(l, colon + 1, a, end);
    }
  }

  lemma ValueStart(l: string, from: nat, a: nat, end: nat)
    requires from <= a < end <= |l| && Blanks(l, from, a) && l[a] != ' ' && l[a] != '\t'
    ensures LStrip(l[from..end]) == l[a..end]
  {
    var rest := l[from..end];
    assert forall i | 0 <= i < a - from :: rest[i] == l[from + i];
    assert rest[a - from] == l[a];
    LStripAt(rest, a - from);
    assert rest[a - from..] == l[a..end];
  }

  /** Of the lines that give the key a value the last one counts. */
  lemma {:induction false} LookupExactly(lines: seq<string>, key: string, v: string)
    ensures Lookup(lines, key) == Some(v) <==>
              exists i :: 0 <= i < |lines| && KeyOf(lines[i]) == Some(key) && Value(lines[i]) == v
                          && forall j | i < j < |lines| :: KeyOf(lines[j]) != Some(key)
    decreases |lines|
  {
    if lines != [] {
      var k := |lines| - 1;
      LookupExactly(lines[..k], key, v);
      if KeyOf(lines[k]) == Some(key) {
        assert Lookup(lines, key) == Some(Value(lines[k]));
      } else if i :| 0 <= i < k && KeyOf(lines[..k][i]) == Some(key) && Value(lines[..k][i]) == v
                     && forall j | i < j < k :: KeyOf(lines[..k][j]) != Some(key) {
        assert forall j | i < j < |lines| :: KeyOf(lines[j]) != Some(key) by {
          assert forall j | i < j < k :: lines[..k][j] == lines[j];
        }
        assert KeyOf(lines[i]) == Some(key) && Value(lines[i]) == v;
      } else {
        LookupMissing(lines, key, v);
      }
    }
  }

  lemma LookupMissing(lines: seq<string>, key: string, v: string)
    requires lines != [] && KeyOf(lines[|lines| - 1]) != Some(key)
    requires var front := lines[..|lines| - 1];
             forall i | 0 <= i < |front| && KeyOf(front[i]) == Some(key) && Value(front[i]) == v ::
               exists j :: i < j < |front| && KeyOf(front[j]) == Some(key)
    ensures forall i | 0 <= i < |lines| && KeyOf(lines[i]) == Some(key) && Value(lines[i]) == v ::
              exists j :: i < j < |lines| && KeyOf(lines[j]) == Some(key)
  {
    var front := lines[..|lines| - 1];
    forall i | 0 <= i < |lines| && KeyOf(lines[i]) == Some(key) && Value(lines[i]) == v
      ensures exists j :: i < j < |lines| && KeyOf(lines[j]) == Some(key)
    {
      assert front[i] == lines[i];
      var j :| i < j < |front| && KeyOf(front[j]) == Some(key);
      assert lines[j] == front[j];
    }
  }

  /** The value of a key in a section's lines: the last one given counts. */
  function Lookup(lines: seq<string>, key: string): Option<string> {
    if lines == [] then None
    else
      var k := |lines| - 1;
      if KeyOf(lines[k]) == Some(key) then Some(Value(lines[k])) else Lookup(lines[..k], key)
  }

  function Dict(lines: seq<string>): (d: map<string, string>)
    ensures forall key :: (key in d <==> Lookup(lines, key).Some?) && (key in d ==> Some(d[key]) == Lookup(lines, key))
  {
    if lines == [] then map[]
    else
      var k := |lines| - 1;
      var before := Dict(lines[..k]);
      if KeyOf(lines[k]).Some? then before[KeyOf(lines[k]).value := Value(lines[k])] else before
  }

  function Load(t: Tables, lines: seq<string>): Config {
    var secs := Parse(lines).secs;
    map n | n in t.sections && FindSec(secs, n).Some? :: Dict(FindSec(secs, n).value.body)
  }

  /** The finetune settings of a config file. */
  function SettingsOf(t: Tables, lines: seq<string>): Settings {
    Merge(t, Load(t, lines), |t.sections|)
  }

  lemma {:induction false} LookupConcat(a: seq<string>, b: seq<string>, key: string)
    ensures Lookup(a + b, key) == if Lookup(b, key).Some? then Lookup(b, key) else Lookup(a, key)
    decreases |b|
  {
    if b == [] {
      assert a + b == a;
    } else {
      var k := |b| - 1;
      LookupConcat(a, b[..k], key);
      assert (a + b)[..|a| + k] == a + b[..k];
    }
  }

  lemma {:induction false} LookupComments(lines: seq<string>, key: string)
    requires Comments(lines)
    ensures Lookup(lines, key) == None
  {
    if lines != [] {
      LookupComments(lines[..|lines| - 1], key);
    }
  }

  lemma LookupStripped(lines: seq<string>, key: string)
    ensures Lookup(StripLast(lines), key) == Lookup(lines, key)
  {
    if lines != [] {
      var k := |lines| - 1;
      RStripKeepsKind(lines[k]);
      assert StripLast(lines)[..k] == lines[..k];
    }
  }

  lemma LookupPadded(lines: seq<string>, key: string)
    ensures Lookup(lines + [""], key) == Lookup(lines, key)
  {
    EmptyLine();
    assert (lines + [""])[..|lines|] == lines;
  }

  // ---------------------------------------------------------------- what a section is converted from

  /** A walk hands each key's lines to its home, in order. */
  lemma {:induction false} WalkLookup(t: Tables, body: seq<string>, cur: string, n: string, key: string)
    requires t.Ok() && t.IsFt(cur) && key !in t.retired
    ensures Lookup(Concat(BlocksTo(Walk(t, body, cur).items, n)), key)
            == if t.Dest(Some(key), cur) == n then Lookup(body, key) else None
    decreases |body|
  {
    if body != [] {
      var k := |body| - 1;
      var l := body[k];
      var w := Walk(t, body[..k], cur);
      WalkLookup(t, body[..k], cur, n, key);
      WalkShape(t, body[..k], cur);
      if IsItemLine(l) && !t.IsRetired(KeyName(l)) {
        ItemLookup(w.items, Item(t.Dest(KeyName(l), cur), w.pending + [l]), w.pending, l, n, key);
      }
    }
  }

  lemma ItemLookup(items: seq<Item>, x: Item, pending: seq<string>, l: string, n: string, key: string)
    requires x.block == pending + [l] && Comments(pending)
    ensures Lookup(Concat(BlocksTo(items + [x], n)), key)
            == if x.dest == n && KeyOf(l) == Some(key) then Some(Value(l)) else Lookup(Concat(BlocksTo(items, n)), key)
  {
    BlocksSnoc(items, x, n);
    if x.dest == n {
      ConcatSnoc(BlocksTo(items, n), x.block);
      LookupConcat(Concat(BlocksTo(items, n)), x.block, key);
      LookupComments(pending, key);
      assert x.block[..|pending|] == pending;
    }
  }

  /** What the converted section `n` gives: the last value a finetune section gives to the key, if
      the key's place is `n` there. */
  function LastGiven(t: Tables, secs: seq<Sec>, n: string, key: string): Option<string> {
    if secs == [] then None
    else
      var s := secs[|secs| - 1];
      if t.IsFt(s.name) && t.Dest(Some(key), s.name) == n && Lookup(s.body, key).Some? then Lookup(s.body, key)
      else LastGiven(t, secs[..|secs| - 1], n, key)
  }

  lemma {:induction false} BlocksLookup(t: Tables, secs: seq<Sec>, n: string, key: string)
    requires t.Ok() && key !in t.retired
    ensures Lookup(Concat(BlocksFor(t, secs, n)), key) == LastGiven(t, secs, n, key)
    decreases |secs|
  {
    if secs != [] {
      var k := |secs| - 1;
      BlocksLookup(t, secs[..k], n, key);
      if t.IsFt(secs[k].name) {
        var more := BlocksTo(Walk(t, secs[k].body, secs[k].name).items, n);
        WalkLookup(t, secs[k].body, secs[k].name, n, key);
        ConcatConcat(BlocksFor(t, secs[..k], n), more);
        LookupConcat(Concat(BlocksFor(t, secs[..k], n)), Concat(more), key);
      }
    }
  }

  lemma ContentLookup(t: Tables, secs: seq<Sec>, n: string, key: string)
    requires t.Ok() && t.IsFt(n) && key !in t.retired
    ensures Lookup(Content(t, secs, n), key) == LastGiven(t, secs, n, key)
  {
    BlocksLookup(t, secs, n, key);
    TailsAreComments(t, secs, n);
    LookupComments(Tails(t, secs, n), key);
    LookupConcat(Concat(BlocksFor(t, secs, n)), Tails(t, secs, n), key);
  }

  /** What the converted file gives. */
  lemma ConvertedGives(t: Tables, lines: seq<string>, n: string, key: string)
    requires t.Ok() && t.IsFt(n) && key !in t.retired
    ensures Given(t, Load(t, Convert(t, lines)), n, key) == LastGiven(t, Parse(lines).secs, n, key)
  {
    var secs, after := Parse(lines).secs, Parse(Convert(t, lines)).secs;
    var cs, a, b := ConvertedIs(t, lines);
    ContentLookup(t, secs, n, key);
    GivenIs(t, Convert(t, lines), n, key);
    if Absent(cs, n) {
      UnwrittenGives(t, secs, after, n, key);
    } else {
      var i :| 0 <= i < |cs| && cs[i].name == n;
      WrittenGives(t, secs, cs, after, a, b, i, key);
    }
  }

  lemma UnwrittenGives(t: Tables, secs: seq<Sec>, after: seq<Sec>, n: string, key: string)
    requires t.Ok() && t.IsFt(n) && Absent(AllChunks(t, secs), n)
    requires AllPadded(after, TrimLast(AllChunks(t, secs))) || after == []
    ensures FindSec(after, n) == None && Lookup(Content(t, secs, n), key) == None
  {
    TrimmedNames(AllChunks(t, secs), n);
    UnwrittenIsEmpty(t, secs, n);
    assert Content(t, secs, n) == [];
    if after != [] {
      AbsentPadded(after, TrimLast(AllChunks(t, secs)), n);
    }
  }

  lemma WrittenGives(t: Tables, secs: seq<Sec>, cs: seq<Sec>, after: seq<Sec>, a: nat, b: nat, i: nat, key: string)
    requires t.Ok() && cs == AllChunks(t, secs) && Collected(t, cs, a, b) && Collected(t, TrimLast(cs), a, b)
    requires AllPadded(after, TrimLast(cs)) && i < |cs| && t.IsFt(cs[i].name)
    ensures FindSec(after, cs[i].name).Some?
    ensures Lookup(FindSec(after, cs[i].name).value.body, key) == Lookup(Content(t, secs, cs[i].name), key)
  {
    CollectedSection(t, secs, i);
    FoundPadded(t, after, TrimLast(cs), a, b, i);
    LookupTrimmed(cs[i], key);
    LookupPadded(TrimLast(cs)[i].body, key);
  }

  lemma FoundPadded(t: Tables, after: seq<Sec>, ds: seq<Sec>, a: nat, b: nat, i: nat)
    requires FtRange(t, ds, a, b) && AllPadded(after, ds) && i < |ds| && t.IsFt(ds[i].name)
    ensures FindSec(after, ds[i].name) == Some(after[i]) && Padded(after[i], ds[i])
  {
    FtOnce(t, ds, a, b, i);
    OncePadded(after, ds, i);
    assert Padded(after[i], ds[i]);
    FoundSec(after, i);
  }

  lemma LookupTrimmed(c: Sec, key: string)
    ensures Lookup(TrimSec(c).body, key) == Lookup(c.body, key)
  {
    LookupStripped(c.body, key);
    assert TrimSec(c).body == StripLast(c.body);
  }

  // ---------------------------------------------------------------- the theorem

  /** No finetune section stands twice in the file. */
  ghost predicate FtOnceEach(t: Tables, secs: seq<Sec>) {
    forall i {:trigger Once(secs, i)} | 0 <= i < |secs| && t.IsFt(secs[i].name) :: Once(secs, i)
  }

  lemma GivenIs(t: Tables, lines: seq<string>, n: string, key: string)
    requires t.IsFt(n) && key !in t.retired
    ensures var secs := Parse(lines).secs;
            Given(t, Load(t, lines), n, key)
            == match FindSec(secs, n) case None => None case Some(c) => Lookup(c.body, key)
  {
  }

  /** A value the converted section gives was given by some finetune section. */
  lemma {:induction false} LastGivenFrom(t: Tables, secs: seq<Sec>, n: string, key: string) returns (i: nat)
    requires LastGiven(t, secs, n, key).Some?
    ensures i < |secs| && t.IsFt(secs[i].name) && t.Dest(Some(key), secs[i].name) == n
    ensures Lookup(secs[i].body, key) == LastGiven(t, secs, n, key)
    decreases |secs|
  {
    var s := secs[|secs| - 1];
    if t.IsFt(s.name) && t.Dest(Some(key), s.name) == n && Lookup(s.body, key).Some? {
      i := |secs| - 1;
    } else {
      i := LastGivenFrom(t, secs[..|secs| - 1], n, key);
    }
  }

  lemma {:induction false} SomethingGiven(t: Tables, secs: seq<Sec>, n: string, key: string, i: nat)
    requires i < |secs| && t.IsFt(secs[i].name) && t.Dest(Some(key), secs[i].name) == n && Lookup(secs[i].body, key).Some?
    ensures LastGiven(t, secs, n, key).Some?
    decreases |secs|
  {
    if i < |secs| - 1 {
      SomethingGiven(t, secs[..|secs| - 1], n, key, i);
    }
  }

  /** A value found after the conversion is one given before it, by a section where the key's place
      is the section it is found in. */
  lemma GivenBefore(t: Tables, lines: seq<string>, n: string, key: string) returns (m: string)
    requires t.Ok() && FtOnceEach(t, Parse(lines).secs) && t.IsFt(n)
    requires Given(t, Load(t, Convert(t, lines)), n, key).Some?
    ensures t.IsFt(m) && t.Dest(Some(key), m) == n
    ensures Given(t, Load(t, lines), m, key) == Given(t, Load(t, Convert(t, lines)), n, key)
  {
    var secs := Parse(lines).secs;
    ConvertedGives(t, lines, n, key);
    var i := LastGivenFrom(t, secs, n, key);
    m := secs[i].name;
    assert Once(secs, i);
    FoundSec(secs, i);
    GivenIs(t, lines, m, key);
  }

  /** A value given before the conversion has some value at the key's place after it. */
  lemma GivenAfter(t: Tables, lines: seq<string>, n: string, key: string)
    requires t.Ok() && t.IsFt(n) && Given(t, Load(t, lines), n, key).Some?
    ensures t.IsFt(t.Dest(Some(key), n)) && Given(t, Load(t, Convert(t, lines)), t.Dest(Some(key), n), key).Some?
  {
    var secs := Parse(lines).secs;
    GivenIs(t, lines, n, key);
    var i := SecAt(secs, n);
    ConvertedGives(t, lines, t.Dest(Some(key), n), key);
    SomethingGiven(t, secs, t.Dest(Some(key), n), key, i);
  }

  lemma {:induction false} SecAt(secs: seq<Sec>, n: string) returns (i: nat)
    requires FindSec(secs, n).Some?
    ensures i < |secs| && secs[i].name == n && FindSec(secs, n) == Some(secs[i])
    decreases |secs|
  {
    i := |secs| - 1;
    if secs[i].name != n {
      i := SecAt(secs[..|secs| - 1], n);
    }
  }

  lemma OneSectionGives(t: Tables, config: Config, n: string, m: string, key: string)
    requires t.Ok() && t.IsFt(n) && t.IsFt(m) && OneGives(t, config, |t.sections|, key)
    requires Given(t, config, n, key).Some? && Given(t, config, m, key).Some?
    ensures n == m
  {
    var i, j := t.Index(n), t.Index(m);
    assert t.sections[i] == n && t.sections[j] == m;
  }

  /** Where the file gives a key once, the converted file gives it once. */
  lemma StaysOne(t: Tables, lines: seq<string>, key: string)
    requires t.Ok() && FtOnceEach(t, Parse(lines).secs)
    requires key in t.home || OneGives(t, Load(t, lines), |t.sections|, key)
    ensures OneGives(t, Load(t, Convert(t, lines)), |t.sections|, key)
  {
    var after := Load(t, Convert(t, lines));
    forall i, j | 0 <= i < j < |t.sections|
      ensures Given(t, after, t.sections[i], key).None? || Given(t, after, t.sections[j], key).None?
    {
      if Given(t, after, t.sections[i], key).Some? && Given(t, after, t.sections[j], key).Some? {
        var n := GivenBefore(t, lines, t.sections[i], key);
        var m := GivenBefore(t, lines, t.sections[j], key);
        if key !in t.home {
          OneSectionGives(t, Load(t, lines), n, m, key);
        }
      }
    }
  }

  /** A key without a home stays in its sections, however many. */
  lemma StaysMany(t: Tables, lines: seq<string>, key: string)
    requires t.Ok() && key !in t.home && OneGives(t, Load(t, Convert(t, lines)), |t.sections|, key)
    ensures OneGives(t, Load(t, lines), |t.sections|, key)
  {
    var before := Load(t, lines);
    forall i, j | 0 <= i < j < |t.sections|
      ensures Given(t, before, t.sections[i], key).None? || Given(t, before, t.sections[j], key).None?
    {
      if Given(t, before, t.sections[i], key).Some? && Given(t, before, t.sections[j], key).Some? {
        GivenAfter(t, lines, t.sections[i], key);
        GivenAfter(t, lines, t.sections[j], key);
      }
    }
  }

  /** A file that loads has the same merged settings after the conversion. */
  lemma SettingsUnchanged(t: Tables, lines: seq<string>)
    requires t.Ok() && FtOnceEach(t, Parse(lines).secs) && SettingsOf(t, lines).Merged?
    ensures SettingsOf(t, Convert(t, lines)) == SettingsOf(t, lines)
  {
    var before, after := Load(t, lines), Load(t, Convert(t, lines));
    MergeFails(t, before, |t.sections|);
    forall key ensures OneGives(t, after, |t.sections|, key) {
      StaysOne(t, lines, key);
    }
    MergeFails(t, after, |t.sections|);
    forall n, key | n in t.sections && Given(t, before, n, key).Some?
      ensures exists m :: m in t.sections && Given(t, after, m, key) == Given(t, before, n, key)
    {
      var m := t.Dest(Some(key), n);
      GivenAfter(t, lines, n, key);
      var back := GivenBefore(t, lines, m, key);
      OneSectionGives(t, before, n, back, key);
      assert m in t.sections;
    }
    forall n, key | n in t.sections && Given(t, after, n, key).Some?
      ensures exists m :: m in t.sections && Given(t, before, m, key) == Given(t, after, n, key)
    {
      var m := GivenBefore(t, lines, n, key);
      assert m in t.sections;
    }
    SameMerge(t, before, after);
  }

  /** The converted file loads if and only if no key without a home stood in two sections: a known
      key given in two sections, an error before, has been merged into one. */
  lemma ConvertedLoads(t: Tables, lines: seq<string>)
    requires t.Ok() && FtOnceEach(t, Parse(lines).secs)
    ensures SettingsOf(t, Convert(t, lines)).Merged? <==>
              forall key {:trigger OneGives(t, Load(t, lines), |t.sections|, key)} | key !in t.home ::
                OneGives(t, Load(t, lines), |t.sections|, key)
  {
    var after := Load(t, Convert(t, lines));
    MergeFails(t, after, |t.sections|);
    if SettingsOf(t, Convert(t, lines)).Merged? {
      forall key | key !in t.home ensures OneGives(t, Load(t, lines), |t.sections|, key) {
        StaysMany(t, lines, key);
      }
    } else if forall key | key !in t.home :: OneGives(t, Load(t, lines), |t.sections|, key) {
      forall key ensures OneGives(t, after, |t.sections|, key) {
        StaysOne(t, lines, key);
      }
    }
  }
}
