/** Finetuning samples, and the small facts about sequences, sets and sums that every
    other module needs. */
module Samples {

  datatype Option<+T> = None | Some(value: T)

  /** One tokenized finetuning sample; it is never changed after loading. */
  datatype Sample = Sample(requestId: string, promptIds: seq<int>) {
    function InputLen(): nat {
      |promptIds|
    }
  }

  function Max(a: int, b: int): int {
    if a >= b then a else b
  }

  function Min(a: int, b: int): int {
    if a <= b then a else b
  }

  function Sum(ns: seq<nat>): nat {
    if ns == [] then 0 else ns[0] + Sum(ns[1..])
  }

  function SumLens(ss: seq<Sample>): nat {
    if ss == [] then 0 else ss[0].InputLen() + SumLens(ss[1..])
  }

  function Ids(ss: seq<Sample>): set<string> {
    set s | s in ss :: s.requestId
  }

  /** The members of `pool` that `ss` names; the source looks samples up by request id. */
  function Pick(pool: set<Sample>, ss: seq<Sample>): set<Sample> {
    set x | x in pool && x.requestId in Ids(ss)
  }

  /** `ss` without the samples that `drop` names. */
  function DropIds(ss: seq<Sample>, drop: set<string>): seq<Sample> {
    if ss == [] then []
    else if ss[0].requestId in drop then DropIds(ss[1..], drop)
    else [ss[0]] + DropIds(ss[1..], drop)
  }

  ghost predicate UniqueIds(pool: set<Sample>) {
    forall a, b | a in pool && b in pool && a.requestId == b.requestId :: a == b
  }

  predicate Distinct<T(==)>(s: seq<T>) {
    forall i, j | 0 <= i < j < |s| :: s[i] != s[j]
  }

  function Elems<T>(s: seq<T>): set<T> {
    set x | x in s
  }

  lemma {:induction false} SumConcat(a: seq<nat>, b: seq<nat>)
    ensures Sum(a + b) == Sum(a) + Sum(b)
  {
    if a == [] {
      assert a + b == b;
    } else {
      assert (a + b)[1..] == a[1..] + b;
      SumConcat(a[1..], b);
    }
  }

  lemma SumAppend(ns: seq<nat>, n: nat)
    ensures Sum(ns + [n]) == Sum(ns) + n
  {
    SumConcat(ns, [n]);
    assert [n][1..] == [];
  }

  lemma PickElems(pool: set<Sample>, ss: seq<Sample>)
    requires UniqueIds(pool) && Elems(ss) <= pool
    ensures Pick(pool, ss) == Elems(ss)
  {
    forall x | x in Pick(pool, ss) ensures x in Elems(ss) {
      var s :| s in ss && s.requestId == x.requestId;
      assert s in Elems(ss);
    }
    forall x | x in Elems(ss) ensures x in Pick(pool, ss) {
      assert x.requestId in Ids(ss);
    }
  }

  lemma {:induction false} DistinctMultiset<T>(s: seq<T>)
    requires Distinct(s)
    ensures multiset(s) == multiset(Elems(s))
  {
    if s != [] {
      var t := s[1..];
      DistinctMultiset(t);
      assert s == [s[0]] + t;
      assert Elems(s) == {s[0]} + Elems(t);
      assert s[0] !in Elems(t);
    }
  }

  lemma {:induction false} DropIdsMembers(ss: seq<Sample>, drop: set<string>)
    ensures forall x :: multiset(DropIds(ss, drop))[x] == if x.requestId in drop then 0 else multiset(ss)[x]
  {
    if ss != [] {
      assert ss == [ss[0]] + ss[1..];
      DropIdsMembers(ss[1..], drop);
    }
  }

  /** Dropping the samples of one step from the buffer's sample list removes exactly them. */
  lemma DropIdsIsMinus(ss: seq<Sample>, drop: seq<Sample>, pool: set<Sample>)
    requires UniqueIds(pool) && multiset(ss) == multiset(pool) && multiset(drop) <= multiset(ss)
    ensures multiset(DropIds(ss, Ids(drop))) == multiset(pool - Elems(drop))
    ensures Elems(drop) <= pool
  {
    DropIdsMembers(ss, Ids(drop));
    forall x | x in drop ensures x in pool {
      assert x in multiset(drop);
      assert x in multiset(ss);
    }
    forall x: Sample
      ensures multiset(DropIds(ss, Ids(drop)))[x] == multiset(pool - Elems(drop))[x]
    {
      if x in pool && x.requestId in Ids(drop) {
        var d :| d in drop && d.requestId == x.requestId;
        assert d in pool;
      }
      if x in drop {
        assert x.requestId in Ids(drop);
      }
    }
  }

  lemma {:induction false} DropIdsDisjoint(ss: seq<Sample>, drop: set<string>)
    requires forall s | s in ss :: s.requestId !in drop
    ensures DropIds(ss, drop) == ss
  {
    if ss != [] {
      DropIdsDisjoint(ss[1..], drop);
    }
  }

  lemma {:induction false} DropIdsAll(ss: seq<Sample>, drop: set<string>)
    requires forall s | s in ss :: s.requestId in drop
    ensures DropIds(ss, drop) == []
  {
    if ss != [] {
      DropIdsAll(ss[1..], drop);
    }
  }

  lemma {:induction false} DropIdsConcat(a: seq<Sample>, b: seq<Sample>, drop: set<string>)
    ensures DropIds(a + b, drop) == DropIds(a, drop) + DropIds(b, drop)
  {
    if a == [] {
      assert a + b == b;
    } else {
      assert (a + b)[1..] == a[1..] + b;
      DropIdsConcat(a[1..], b, drop);
    }
  }
}
