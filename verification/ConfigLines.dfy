/** One line of a serving config file, as the layout converter's regular expressions read it. A line
    holds no line break; blanks are spaces and tabs. */
module ConfigLines {
  import opened Samples

  predicate IsSpace(c: char) {
    c == ' ' || c == '\t'
  }

  predicate WordStart(c: char) {
    'a' <= c <= 'z' || 'A' <= c <= 'Z' || c == '_'
  }

  predicate WordChar(c: char) {
    WordStart(c) || '0' <= c <= '9' || c == '-'
  }

  function LStrip(l: string): string {
    if l != [] && IsSpace(l[0]) then LStrip(l[1..]) else l
  }

  function RStrip(l: string): string {
    if l != [] && IsSpace(l[|l| - 1]) then RStrip(l[..|l| - 1]) else l
  }

  predicate Blank(l: string) {
    LStrip(l) == []
  }

  predicate IsComment(l: string) {
    LStrip(l) != [] && LStrip(l)[0] == '#'
  }

  /** The length of the longest prefix made of word characters. */
  function NameLen(l: string): (n: nat)
    ensures n <= |l|
  {
    if l == [] || !WordChar(l[0]) then 0 else 1 + NameLen(l[1..])
  }

  /** The name that a colon ends, at the start of `l`. */
  function NameAt(l: string): Option<string> {
    if l != [] && WordStart(l[0]) && NameLen(l) < |l| && l[NameLen(l)] == ':' then Some(l[..NameLen(l)]) else None
  }

  /** A top-level section header: a name, a colon, nothing more but a comment. */
  function SectionName(l: string): Option<string> {
    var n := NameAt(l);
    if n.None? then None
    else
      var rest := LStrip(l[|n.value| + 1..]);
      if rest == [] || rest[0] == '#' then n else None
  }

  /** An indented key line. */
  function KeyName(l: string): Option<string> {
    if l != [] && IsSpace(l[0]) then NameAt(LStrip(l)) else None
  }

  lemma HeaderShape(l: string)
    requires SectionName(l).Some?
    ensures !Blank(l) && !IsComment(l)
  {
  }

  lemma {:induction false} LStripAppend(m: string, c: char)
    requires IsSpace(c)
    ensures LStrip(m + [c]) == if Blank(m) then [] else LStrip(m) + [c]
  {
    if m == [] {
      assert LStrip([c][1..]) == [];
    } else if IsSpace(m[0]) {
      assert (m + [c])[1..] == m[1..] + [c];
      LStripAppend(m[1..], c);
    }
  }

  lemma {:induction false} NameLenAppend(m: string, c: char)
    requires IsSpace(c)
    ensures NameLen(m + [c]) == NameLen(m)
  {
    if m != [] {
      assert (m + [c])[1..] == m[1..] + [c];
      NameLenAppend(m[1..], c);
    }
  }

  lemma NameAtAppend(m: string, c: char)
    requires IsSpace(c)
    ensures NameAt(m + [c]) == NameAt(m)
  {
    NameLenAppend(m, c);
    assert (m + [c])[..NameLen(m)] == m[..NameLen(m)];
  }

  /** A blank at the end of a line changes nothing of what it is. */
  lemma AppendKeepsKind(m: string, c: char)
    requires IsSpace(c)
    ensures SectionName(m + [c]) == SectionName(m)
    ensures KeyName(m + [c]) == KeyName(m)
    ensures Blank(m + [c]) == Blank(m) && IsComment(m + [c]) == IsComment(m)
  {
    LStripAppend(m, c);
    NameAtAppend(m, c);
    if NameAt(m).Some? {
      var n := |NameAt(m).value| + 1;
      assert (m + [c])[n..] == m[n..] + [c];
      LStripAppend(m[n..], c);
    }
    if !Blank(m) {
      NameAtAppend(LStrip(m), c);
    }
  }

  lemma {:induction false} RStripKeepsKind(l: string)
    ensures SectionName(RStrip(l)) == SectionName(l) && KeyName(RStrip(l)) == KeyName(l)
    ensures Blank(RStrip(l)) == Blank(l) && IsComment(RStrip(l)) == IsComment(l)
    ensures RStrip(RStrip(l)) == RStrip(l)
    decreases |l|
  {
    if l != [] && IsSpace(l[|l| - 1]) {
      var m := l[..|l| - 1];
      assert l == m + [l[|l| - 1]];
      AppendKeepsKind(m, l[|l| - 1]);
      RStripKeepsKind(m);
    }
  }

  // ---------------------------------------------------------------- the grammar of a line

  /** `l[a..b]` is all blanks. */
  ghost predicate Blanks(l: string, a: nat, b: nat) {
    a <= b <= |l| && forall i | a <= i < b :: l[i] == ' ' || l[i] == '\t'
  }

  /** A letter or underscore, then letters, digits, underscores and hyphens. */
  ghost predicate Word(n: string) {
    && n != [] && ('a' <= n[0] <= 'z' || 'A' <= n[0] <= 'Z' || n[0] == '_')
    && forall i | 0 <= i < |n| ::
         'a' <= n[i] <= 'z' || 'A' <= n[i] <= 'Z' || n[i] == '_' || '0' <= n[i] <= '9' || n[i] == '-'
  }

  /** Stripping takes off blanks, and stops at the first character that is none. */
  lemma {:induction false} LStripped(l: string) returns (k: nat)
    ensures Blanks(l, 0, k) && LStrip(l) == l[k..] && (k < |l| ==> l[k] != ' ' && l[k] != '\t')
  {
    if l != [] && IsSpace(l[0]) {
      k := LStripped(l[1..]);
      assert forall i | 1 <= i < k + 1 :: l[i] == l[1..][i - 1];
      k := k + 1;
    } else {
      k := 0;
    }
  }

  lemma {:induction false} RStripped(l: string)
    ensures |RStrip(l)| <= |l| && RStrip(l) == l[..|RStrip(l)|] && Blanks(l, |RStrip(l)|, |l|)
    ensures RStrip(l) != [] ==> l[|RStrip(l)| - 1] != ' ' && l[|RStrip(l)| - 1] != '\t'
    decreases |l|
  {
    if l != [] && IsSpace(l[|l| - 1]) {
      RStripped(l[..|l| - 1]);
    }
  }

  lemma {:induction false} NameStops(l: string)
    ensures forall i | 0 <= i < NameLen(l) :: WordChar(l[i])
    ensures NameLen(l) < |l| ==> !WordChar(l[NameLen(l)])
  {
    if l != [] && WordChar(l[0]) {
      NameStops(l[1..]);
      assert forall i | 1 <= i < NameLen(l) :: l[i] == l[1..][i - 1];
    }
  }

  lemma NameExactly(l: string, n: string)
    ensures NameAt(l) == Some(n) <==> Word(n) && |n| < |l| && l[..|n|] == n && l[|n|] == ':'
  {
    NameStops(l);
    if Word(n) && |n| < |l| && l[..|n|] == n && l[|n|] == ':' {
      assert forall i | 0 <= i < |n| :: l[i] == n[i];
    }
  }

  /** The first character of `l[from..]` that is no blank, if there is one. */
  lemma FirstInk(l: string, from: nat) returns (k: nat)
    requires from <= |l|
    ensures from <= k <= |l| && Blanks(l, from, k) && LStrip(l[from..]) == l[k..] && (k < |l| ==> l[k] != ' ' && l[k] != '\t')
  {
    var q := LStripped(l[from..]);
    k := from + q;
    assert forall i | from <= i < k :: l[i] == l[from..][i - from];
    assert l[from..][q..] == l[k..];
  }

  /** From there on the line holds blanks, and at most a comment. */
  ghost predicate OnlyComment(l: string, from: nat) {
    exists k: nat :: Blanks(l, from, k) && (k == |l| || l[k] == '#')
  }

  lemma RestExactly(l: string, from: nat)
    requires from <= |l|
    ensures LStrip(l[from..]) == [] || LStrip(l[from..])[0] == '#' <==> OnlyComment(l, from)
  {
    var k := FirstInk(l, from);
    if k < |l| {
      assert l[k..][0] == l[k];
    }
    if q: nat :| Blanks(l, from, q) && (q == |l| || l[q] == '#') {
      assert q == k;
    }
  }

  /** A section header is a name at the start of the line, a colon, blanks, and at most a comment. */
  lemma HeaderExactly(l: string, n: string)
    ensures SectionName(l) == Some(n) <==>
              Word(n) && |n| < |l| && l[..|n|] == n && l[|n|] == ':' && OnlyComment(l, |n| + 1)
  {
    NameExactly(l, n);
    if NameAt(l) == Some(n) {
      RestExactly(l, |n| + 1);
    }
  }

  /** A key line is indented: blanks, a name, a colon, and whatever follows. */
  lemma KeyExactly(l: string, n: string)
    ensures KeyName(l) == Some(n) <==>
              exists k: nat :: 0 < k && Blanks(l, 0, k) && KeyAt(l, n, k)
  {
    var k := LStripped(l);
    NameExactly(LStrip(l), n);
    if KeyName(l) == Some(n) {
      assert l[k..][..|n|] == l[k..k + |n|];
      assert KeyAt(l, n, k);
    }
    if q: nat :| 0 < q && Blanks(l, 0, q) && KeyAt(l, n, q) {
      assert l[q] == n[0] by {
        assert l[q..q + |n|][0] == n[0];
      }
      assert q == k;
      assert l[k..][..|n|] == l[k..k + |n|];
    }
  }

  ghost predicate KeyAt(l: string, n: string, k: nat) {
    Word(n) && k + |n| < |l| && l[k..k + |n|] == n && l[k + |n|] == ':'
  }

  /** A blank line holds nothing but blanks; a comment's first other character is a hash. */
  lemma KindExactly(l: string)
    ensures Blank(l) <==> Blanks(l, 0, |l|)
    ensures IsComment(l) <==> exists k: nat :: k < |l| && Blanks(l, 0, k) && l[k] == '#'
  {
    var k := LStripped(l);
    if IsComment(l) {
      assert l[k..][0] == l[k];
    }
    if q: nat :| q < |l| && Blanks(l, 0, q) && l[q] == '#' {
      assert q == k;
    }
  }

  /** A name the tables can use for a section. */
  predicate ValidName(n: string) {
    n != [] && WordStart(n[0]) && forall i | 0 <= i < |n| :: WordChar(n[i])
  }

  lemma {:induction false} NameLenWord(n: string)
    requires forall i | 0 <= i < |n| :: WordChar(n[i])
    ensures NameLen(n + ":") == |n|
  {
    if n == [] {
      assert n + ":" == ":";
    } else {
      assert (n + ":")[1..] == n[1..] + ":";
      NameLenWord(n[1..]);
    }
  }

  /** The header written for a section that had none is read back as that section. */
  lemma PlainHeader(n: string)
    requires ValidName(n)
    ensures SectionName(n + ":") == Some(n)
  {
    NameLenWord(n);
    assert (n + ":")[..|n|] == n && (n + ":")[|n| + 1..] == [];
  }
}
