/** The length-bucketed sample store. `Pool` is its abstract state. */
module FinetuningStore {
  import opened Samples

  datatype Pool = Pool(all: set<Sample>, selectable: set<Sample>, claimed: set<Sample>, trained: set<Sample>,
                       epoch: nat, totalEpochs: int)
  {
    /** Every sample of the corpus is in exactly one of the three sets. */
    ghost predicate Valid() {
      && UniqueIds(all)
      && (forall s | s in all :: s.InputLen() > 0)
      && all == selectable + claimed + trained
      && selectable !! claimed && selectable !! trained && claimed !! trained
    }

    function Claim(ss: seq<Sample>): Pool {
      var got := Pick(selectable, ss);
      this.(selectable := selectable - got, claimed := claimed + got)
    }

    function Commit(ss: seq<Sample>): Pool {
      var got := Pick(claimed, ss);
      this.(claimed := claimed - got, trained := trained + got)
    }

    function Release(ss: seq<Sample>): Pool {
      var got := Pick(claimed, ss);
      this.(claimed := claimed - got, selectable := selectable + got)
    }

    predicate CanAdvance() {
      epoch < totalEpochs && claimed == {}
    }

    function Advance(): Pool {
      if CanAdvance() then this.(selectable := all, claimed := {}, trained := {}, epoch := epoch + 1) else this
    }
  }

  /** `ss` names the sample: it holds one with the same request id. */
  ghost predicate NamedIn(x: Sample, ss: seq<Sample>) {
    exists i :: 0 <= i < |ss| && ss[i].requestId == x.requestId
  }

  lemma NamedInIds(x: Sample, ss: seq<Sample>)
    ensures x.requestId in Ids(ss) <==> NamedIn(x, ss)
  {
    if NamedIn(x, ss) {
      var i :| 0 <= i < |ss| && ss[i].requestId == x.requestId;
      assert ss[i] in ss;
    }
  }

  /** Every sample moves as named and no other does: selectable ones are claimed, claimed ones are
      trained or given back. */
  lemma MovesExactly(p: Pool, ss: seq<Sample>, x: Sample)
    requires p.Valid() && x in p.all
    ensures var c := p.Claim(ss);
            && (x in c.selectable <==> x in p.selectable && !NamedIn(x, ss)) && (x in c.trained <==> x in p.trained)
            && (x in c.claimed <==> x in p.claimed || (x in p.selectable && NamedIn(x, ss)))
    ensures var c := p.Commit(ss);
            && (x in c.claimed <==> x in p.claimed && !NamedIn(x, ss)) && (x in c.selectable <==> x in p.selectable)
            && (x in c.trained <==> x in p.trained || (x in p.claimed && NamedIn(x, ss)))
    ensures var c := p.Release(ss);
            && (x in c.claimed <==> x in p.claimed && !NamedIn(x, ss)) && (x in c.trained <==> x in p.trained)
            && (x in c.selectable <==> x in p.selectable || (x in p.claimed && NamedIn(x, ss)))
  {
    NamedInIds(x, ss);
  }

  /** Releasing what was just claimed restores the store exactly when none of the named samples
      had been claimed before. */
  lemma ReleaseUndoesClaim(p: Pool, ss: seq<Sample>)
    requires p.Valid()
    ensures p.Claim(ss).Valid()
    ensures p.Claim(ss).Release(ss) == p <==> Pick(p.claimed, ss) == {}
  {
    var q := p.Claim(ss);
    var got := Pick(p.selectable, ss);
    assert Pick(q.claimed, ss) == got + Pick(p.claimed, ss);
    assert p.selectable - got + got == p.selectable;
    if Pick(p.claimed, ss) == {} {
      assert p.claimed + got - got == p.claimed;
    } else {
      var x :| x in Pick(p.claimed, ss);
      assert x !in q.Release(ss).claimed;
    }
  }

  /** `m` is the length of a shortest sample of `sel`. */
  ghost predicate Shortest(sel: set<Sample>, m: nat) {
    (exists s :: s in sel && s.InputLen() == m) && (forall s | s in sel :: m <= s.InputLen())
  }

  lemma {:induction false} ShortestExists(sel: set<Sample>)
    requires sel != {}
    ensures exists m: nat :: Shortest(sel, m)
  {
    var s :| s in sel;
    var rest := sel - {s};
    if rest == {} {
      assert sel == {s};
      assert Shortest(sel, s.InputLen());
    } else {
      ShortestExists(rest);
      var m: nat :| Shortest(rest, m);
      assert sel == rest + {s};
      assert Shortest(sel, if m <= s.InputLen() then m else s.InputLen());
    }
  }

  /** The length `pop_next` reports: None iff nothing is selectable. */
  ghost function NextLen(sel: set<Sample>): (r: Option<nat>)
    ensures r.None? <==> sel == {}
    ensures r.Some? ==> Shortest(sel, r.value)
  {
    if sel == {} then None
    else
      ShortestExists(sel);
      var m: nat :| Shortest(sel, m);
      Some(m)
  }
}
