/** The config-layout converter: key lines move to their sections, with their comments, and nothing
    else changes. Files are lists of lines; the tables are those of the config loader. */
module ConfigLayout {
  import opened Samples
  import opened ConfigLines

  /** The finetune sections in table order, the home section of each known key, and the keys that
      are dropped. */
  datatype Tables = Tables(sections: seq<string>, home: map<string, string>, retired: set<string>) {
    predicate IsFt(name: string) {
      name in sections
    }

    ghost predicate Ok() {
      && Distinct(sections) && (forall n | n in sections :: ValidName(n))
      && (forall k | k in home :: home[k] in sections)
    }

    /** The place of a finetune section in the table. */
    function Index(name: string): (x: nat)
      ensures IsFt(name) <==> x < |sections|
      ensures IsFt(name) ==> sections[x] == name
    {
      IndexIn(sections, name)
    }

    /** Where a line of section `cur` with this key goes. */
    function Dest(key: Option<string>, cur: string): string {
      if key.Some? && key.value in home then home[key.value] else cur
    }

    predicate IsRetired(key: Option<string>) {
      key.Some? && key.value in retired
    }
  }

  function IndexIn(names: seq<string>, name: string): (x: nat)
    ensures name in names <==> x < |names|
    ensures x <= |names| && (name in names ==> names[x] == name)
  {
    if names == [] || names[0] == name then 0 else 1 + IndexIn(names[1..], name)
  }

  lemma IndexOfSection(t: Tables, x: nat)
    requires Distinct(t.sections) && x < |t.sections|
    ensures t.Index(t.sections[x]) == x
  {
    assert t.sections[x] in t.sections;
  }

  // ---------------------------------------------------------------- sections

  datatype Sec = Sec(name: string, header: string, body: seq<string>)

  datatype Doc = Doc(preamble: seq<string>, secs: seq<Sec>)

  function AppendTo(d: Doc, extra: seq<string>): Doc {
    if d.secs == [] then Doc(d.preamble + extra, [])
    else
      var k := |d.secs| - 1;
      Doc(d.preamble, d.secs[k := d.secs[k].(body := d.secs[k].body + extra)])
  }

  function ParseLine(d: Doc, l: string): Doc {
    var n := SectionName(l);
    if n.Some? then Doc(d.preamble, d.secs + [Sec(n.value, l, [])]) else AppendTo(d, [l])
  }

  /** Lines before the first header, then each header with the lines up to the next. */
  function Parse(lines: seq<string>): Doc {
    if lines == [] then Doc([], []) else ParseLine(Parse(lines[..|lines| - 1]), lines[|lines| - 1])
  }

  function Flatten(secs: seq<Sec>): seq<string> {
    if secs == [] then []
    else
      var k := |secs| - 1;
      Flatten(secs[..k]) + ([secs[k].header] + secs[k].body)
  }

  function Print(d: Doc): seq<string> {
    d.preamble + Flatten(d.secs)
  }

  ghost predicate NoHeaders(lines: seq<string>) {
    forall i | 0 <= i < |lines| :: SectionName(lines[i]).None?
  }

  ghost predicate SecOk(s: Sec) {
    SectionName(s.header) == Some(s.name) && NoHeaders(s.body)
  }

  ghost predicate DocOk(d: Doc) {
    NoHeaders(d.preamble) && forall i {:trigger SecOk(d.secs[i])} | 0 <= i < |d.secs| :: SecOk(d.secs[i])
  }

  lemma Snoc<T>(a: seq<T>, b: seq<T>, c: seq<T>)
    ensures a + (b + c) == a + b + c
  {
  }

  lemma Last<T>(a: seq<T>)
    requires a != []
    ensures a == a[..|a| - 1] + [a[|a| - 1]]
  {
  }

  lemma ParseSnoc(lines: seq<string>, l: string)
    ensures Parse(lines + [l]) == ParseLine(Parse(lines), l)
  {
    assert (lines + [l])[..|lines|] == lines;
  }

  lemma FlattenSnoc(secs: seq<Sec>, s: Sec)
    ensures Flatten(secs + [s]) == Flatten(secs) + ([s.header] + s.body)
  {
    assert (secs + [s])[..|secs|] == secs;
  }

  lemma FlattenLast(secs: seq<Sec>, extra: seq<string>)
    requires secs != []
    ensures var k := |secs| - 1; Flatten(secs[k := secs[k].(body := secs[k].body + extra)]) == Flatten(secs) + extra
  {
    var k := |secs| - 1;
    var t := secs[k := secs[k].(body := secs[k].body + extra)];
    assert t[..k] == secs[..k];
    Snoc([secs[k].header], secs[k].body, extra);
    Snoc(Flatten(secs[..k]), [secs[k].header] + secs[k].body, extra);
  }

  lemma PrintAppendTo(d: Doc, extra: seq<string>)
    ensures Print(AppendTo(d, extra)) == Print(d) + extra
  {
    if d.secs != [] {
      FlattenLast(d.secs, extra);
      Snoc(d.preamble, Flatten(d.secs), extra);
    } else {
      assert d.preamble + extra + [] == d.preamble + [] + extra;
    }
  }

  lemma AppendToOk(d: Doc, extra: seq<string>)
    requires DocOk(d) && NoHeaders(extra)
    ensures DocOk(AppendTo(d, extra))
  {
    var e := AppendTo(d, extra);
    forall i | 0 <= i < |e.secs| ensures SecOk(e.secs[i]) {
      assert SecOk(d.secs[i]);
    }
  }

  lemma AppendToTwice(d: Doc, a: seq<string>, b: seq<string>)
    ensures AppendTo(AppendTo(d, a), b) == AppendTo(d, a + b)
  {
    if d.secs == [] {
      Snoc(d.preamble, a, b);
    } else {
      Snoc(d.secs[|d.secs| - 1].body, a, b);
    }
  }

  lemma PrintParseLine(d: Doc, l: string)
    requires DocOk(d)
    ensures DocOk(ParseLine(d, l)) && Print(ParseLine(d, l)) == Print(d) + [l]
  {
    if SectionName(l).Some? {
      var s := Sec(SectionName(l).value, l, []);
      FlattenSnoc(d.secs, s);
      assert [l] + [] == [l];
      Snoc(d.preamble, Flatten(d.secs), [l]);
    } else {
      PrintAppendTo(d, [l]);
    }
  }

  /** Parsing loses nothing. */
  lemma {:induction false} PrintParse(lines: seq<string>)
    ensures DocOk(Parse(lines)) && Print(Parse(lines)) == lines
    decreases |lines|
  {
    if lines != [] {
      PrintParse(lines[..|lines| - 1]);
      PrintParseLine(Parse(lines[..|lines| - 1]), lines[|lines| - 1]);
      Last(lines);
    }
  }

  lemma {:induction false} ParseMore(lines: seq<string>, extra: seq<string>)
    requires NoHeaders(extra)
    ensures Parse(lines + extra) == AppendTo(Parse(lines), extra)
    decreases |extra|
  {
    if extra == [] {
      assert lines + [] == lines;
      AppendNothing(Parse(lines));
    } else {
      var k := |extra| - 1;
      ParseMore(lines, extra[..k]);
      ParseSnoc(lines + extra[..k], extra[k]);
      AppendToTwice(Parse(lines), extra[..k], [extra[k]]);
      Last(extra);
      Snoc(lines, extra[..k], [extra[k]]);
    }
  }

  lemma AppendNothing(d: Doc)
    ensures AppendTo(d, []) == d
  {
    if d.secs == [] {
      assert d.preamble + [] == d.preamble;
    } else {
      assert d.secs[|d.secs| - 1].body + [] == d.secs[|d.secs| - 1].body;
    }
  }

  lemma ParseSec(lines: seq<string>, s: Sec)
    requires SecOk(s)
    ensures Parse(lines + ([s.header] + s.body)) == Doc(Parse(lines).preamble, Parse(lines).secs + [s])
  {
    ParseSnoc(lines, s.header);
    ParseMore(lines + [s.header], s.body);
    Snoc(lines, [s.header], s.body);
    FillLast(Parse(lines), s);
  }

  lemma FillLast(d: Doc, s: Sec)
    ensures AppendTo(Doc(d.preamble, d.secs + [Sec(s.name, s.header, [])]), s.body) == Doc(d.preamble, d.secs + [s])
  {
    assert [] + s.body == s.body;
  }

  /** Printing a document and parsing it back is the identity. */
  lemma {:induction false} ParsePrint(d: Doc)
    requires DocOk(d)
    ensures Parse(Print(d)) == d
    decreases |d.secs|
  {
    if d.secs == [] {
      assert Print(d) == [] + d.preamble;
      assert [] + d.preamble == d.preamble;
      ParseMore([], d.preamble);
    } else {
      var k := |d.secs| - 1;
      var init := Doc(d.preamble, d.secs[..k]);
      ParsePrint(init);
      ParseSec(Print(init), d.secs[k]);
      Snoc(d.preamble, Flatten(d.secs[..k]), [d.secs[k].header] + d.secs[k].body);
      Last(d.secs);
    }
  }
}
