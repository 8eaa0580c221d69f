/** The store itself: samples in buckets by length, kept in place, against `FinetuningStore.Pool`. */
module BucketStore {
  import opened Samples
  import opened FinetuningStore
  import opened Buckets

  class Store {
    const cap: int
    const maxPrepare: Option<int>
    const totalEpochs: int
    var samples: seq<Sample>
    var id2idx: map<string, nat>
    var trained: seq<bool>
    var lenBuckets: ByLength
    var sortedLengths: seq<nat>
    var claimed: set<nat>
    var bucketTemplate: ByLength
    var sortedTemplate: seq<nat>
    var currentEpoch: nat

    ghost predicate Valid()
      reads this
    {
      && Sound(samples, id2idx, trained, lenBuckets, sortedLengths, claimed)
      && FullTemplate(samples, bucketTemplate, sortedTemplate)
    }

    /** The abstract store, read off the buckets, the claimed indices and the trained flags. */
    ghost function View(): Pool
      reads this
    {
      PoolOf(samples, Selectable(samples, lenBuckets), claimed, Marked(trained), currentEpoch, totalEpochs)
    }

    constructor (cap: int, maxPrepare: Option<int>, totalEpochs: int)
      ensures Valid() && View() == Pool({}, {}, {}, {}, 0, totalEpochs)
      ensures this.cap == cap && this.maxPrepare == maxPrepare && samples == []
    {
      this.cap, this.maxPrepare, this.totalEpochs := cap, maxPrepare, totalEpochs;
      samples, id2idx, trained, currentEpoch := [], map[], [], 0;
      lenBuckets, sortedLengths, claimed := map[], [], {};
      bucketTemplate, sortedTemplate := map[], [];
    }

    lemma SelectableAre(i: nat)
      requires Valid() && i < |samples|
      ensures samples[i] in View().selectable <==> InBucket(samples, lenBuckets, i)
    {
      AtMember(samples, id2idx, Selectable(samples, lenBuckets), i);
    }

    /** The view of a valid store is a valid pool when no sample is empty. */
    lemma ViewValid()
      requires Valid() && forall x | x in samples :: x.InputLen() > 0
      ensures View().Valid()
    {
      var sel := Selectable(samples, lenBuckets);
      var done := Marked(trained);
      forall i: nat | i < |samples|
        ensures samples[i] in At(samples, sel) <==> i in sel
        ensures samples[i] in At(samples, claimed) <==> i in claimed
        ensures samples[i] in At(samples, done) <==> i in done
      {
        AtMember(samples, id2idx, sel, i);
        AtMember(samples, id2idx, claimed, i);
        AtMember(samples, id2idx, done, i);
      }
      forall x | x in samples ensures x in At(samples, sel) + At(samples, claimed) + At(samples, done) {
        var i: nat :| i < |samples| && samples[i] == x;
        assert i in sel || i in claimed || i in done;
      }
    }

    lemma SelectableIn(x: Sample)
      requires Valid()
      ensures x in View().selectable <==>
                x.InputLen() in lenBuckets && exists i :: i in lenBuckets[x.InputLen()] && i < |samples| && samples[i] == x
    {
      if x in View().selectable {
        var i :| i in Selectable(samples, lenBuckets) && i < |samples| && samples[i] == x;
        assert InBucket(samples, lenBuckets, i);
      }
      if x.InputLen() in lenBuckets && exists i :: i in lenBuckets[x.InputLen()] && i < |samples| && samples[i] == x {
        var i :| i in lenBuckets[x.InputLen()] && i < |samples| && samples[i] == x;
        SelectableAre(i);
      }
    }

    /** Every selectable sample of this length is excluded. */
    ghost predicate Barren(length: nat, excludeIds: set<string>)
      reads this
    {
      forall x | x in View().selectable && x.InputLen() == length :: x.requestId in excludeIds
    }

    /** The first sample of one bucket that is neither trained nor excluded. */
    method FirstIn(length: nat, excludeIds: set<string>) returns (r: Option<Sample>)
      requires Valid() && length in lenBuckets
      ensures r.None? ==> Barren(length, excludeIds)
      ensures r.Some? ==> r.value in View().selectable && r.value.InputLen() == length && r.value.requestId !in excludeIds
    {
      var dq := lenBuckets[length];
      var k := 0;
      while k < |dq|
        invariant k <= |dq|
        invariant forall j | 0 <= j < k :: dq[j] < |samples| && samples[dq[j]].requestId in excludeIds
      {
        var idx := dq[k];
        assert idx in dq;
        assert InBucket(samples, lenBuckets, idx);
        if !trained[idx] && samples[idx].requestId !in excludeIds {
          SelectableAre(idx);
          return Some(samples[idx]);
        }
        k := k + 1;
      }
      forall x | x in View().selectable && x.InputLen() == length ensures x.requestId in excludeIds {
        SelectableIn(x);
      }
      return None;
    }

    lemma LengthListed(x: Sample) returns (q: nat)
      requires Valid() && x in View().selectable
      ensures q < |sortedLengths| && sortedLengths[q] == x.InputLen()
    {
      SelectableIn(x);
      assert x.InputLen() in sortedLengths;
      q :| q < |sortedLengths| && sortedLengths[q] == x.InputLen();
    }

    /** A longest selectable sample of at most `maxTokens` tokens, None if there is none; it is
        not marked. */
    method PopBestUnder(maxTokens: int, exclude: seq<Sample>) returns (r: Option<Sample>)
      requires Valid()
      ensures r.None? ==> forall x | x in View().selectable :: x.InputLen() > maxTokens || x.requestId in Ids(exclude)
      ensures r.Some? ==> r.value in View().selectable && r.value.InputLen() <= maxTokens
                          && r.value.requestId !in Ids(exclude)
      ensures r.Some? ==> forall x | x in View().selectable && x.InputLen() <= maxTokens && x.requestId !in Ids(exclude) ::
                            x.InputLen() <= r.value.InputLen()
    {
      var excludeIds := Ids(exclude);
      var pos: int := BisectRight(sortedLengths, maxTokens) - 1;
      r := None;
      while pos >= 0
        invariant -1 <= pos < |sortedLengths|
        invariant r.None?
        invariant forall q | 0 <= q <= pos :: sortedLengths[q] <= maxTokens
        invariant forall q | pos < q < |sortedLengths| :: sortedLengths[q] > maxTokens || Barren(sortedLengths[q], excludeIds)
      {
        assert sortedLengths[pos] in sortedLengths;
        r := FirstIn(sortedLengths[pos], excludeIds);
        if r.Some? {
          break;
        }
        pos := pos - 1;
      }
      forall x | x in View().selectable && x.InputLen() <= maxTokens && x.requestId !in excludeIds
        ensures r.Some? && x.InputLen() <= r.value.InputLen()
      {
        var q := LengthListed(x);
      }
    }

    /** A shortest selectable sample, None if there is none; it is not marked. */
    method PopNext(exclude: seq<Sample>) returns (r: Option<Sample>)
      requires Valid()
      ensures r.None? ==> forall x | x in View().selectable :: x.requestId in Ids(exclude)
      ensures r.Some? ==> r.value in View().selectable && r.value.requestId !in Ids(exclude)
      ensures r.Some? ==> forall x | x in View().selectable && x.requestId !in Ids(exclude) ::
                            r.value.InputLen() <= x.InputLen()
    {
      var excludeIds := Ids(exclude);
      var pos := 0;
      r := None;
      while pos < |sortedLengths|
        invariant pos <= |sortedLengths|
        invariant r.None?
        invariant forall q | 0 <= q < pos :: Barren(sortedLengths[q], excludeIds)
      {
        assert sortedLengths[pos] in sortedLengths;
        r := FirstIn(sortedLengths[pos], excludeIds);
        if r.Some? {
          break;
        }
        pos := pos + 1;
      }
      forall x | x in View().selectable && x.requestId !in excludeIds
        ensures r.Some? && r.value.InputLen() <= x.InputLen()
      {
        var q := LengthListed(x);
      }
    }

    /** What the coordinator is told after an injection. */
    method NextLength() returns (next: Option<nat>)
      requires Valid()
      ensures next == NextLen(View().selectable)
    {
      var r := PopNext([]);
      ghost var sel := View().selectable;
      if r.None? {
        assert Ids([]) == {};
        return None;
      }
      assert Shortest(sel, r.value.InputLen());
      assert Shortest(sel, NextLen(sel).value);
      return Some(r.value.InputLen());
    }

    // -------------------------------------------------------------- marking

    /** The first loop of `claim`: mark, and group by length. */
    method MarkClaimed(ss: seq<Sample>)
      returns (order: seq<nat>, groups: map<nat, seq<nat>>, ghost got: set<nat>)
      requires Valid()
      modifies this`claimed
      ensures got == Named(samples, Selectable(samples, lenBuckets), ss)
      ensures claimed == old(claimed) + got && Grouped(samples, order, groups, got)
    {
      ghost var sel := Selectable(samples, lenBuckets);
      order, groups, got := [], map[], {};
      assert ss[..0] == [];
      for k := 0 to |ss|
        invariant got == Named(samples, sel, ss[..k])
        invariant claimed == old(claimed) + got && Grouped(samples, order, groups, got)
      {
        NamedStep(samples, id2idx, sel, ss, k);
        if ss[k].requestId in id2idx {
          var idx := id2idx[ss[k].requestId];
          assert idx in sel <==> InBucket(samples, lenBuckets, idx);
          if !trained[idx] && idx !in claimed {
            claimed := claimed + {idx};
            var l := samples[idx].InputLen();
            GroupOneMore(samples, order, groups, got, idx);
            order := if l in groups then order else order + [l];
            groups := AddTo(groups, l, idx);
            got := got + {idx};
          }
        }
      }
      assert ss[..|ss|] == ss;
    }

    /** Removes `out`, all of length `l`, from its bucket, and the length with its last index. */
    method TakeOut(l: nat, out: set<nat>)
      requires Structure(samples, lenBuckets, sortedLengths) && l in lenBuckets
      modifies this`lenBuckets, this`sortedLengths
      ensures lenBuckets == Take(old(lenBuckets), l, out) && Structure(samples, lenBuckets, sortedLengths)
    {
      TakeOk(samples, lenBuckets, l, out);
      var kept := Keep(lenBuckets[l], out);
      if kept != [] {
        lenBuckets := lenBuckets[l := kept];
      } else {
        lenBuckets := lenBuckets - {l};
        var p := BisectLeft(sortedLengths, l);
        FoundAt(sortedLengths, l);
        if p < |sortedLengths| && sortedLengths[p] == l {
          DeleteKeepsOrder(sortedLengths, p);
          forall y ensures y in DeleteAt(sortedLengths, p) <==> y in sortedLengths && y != l {
            DeleteMembers(sortedLengths, p, y);
          }
          sortedLengths := DeleteAt(sortedLengths, p);
        }
      }
    }

    /** The second loop of `claim`: empty the buckets group by group. */
    method TakeGroups(order: seq<nat>, groups: map<nat, seq<nat>>, ghost sel: set<nat>, ghost got: set<nat>)
      returns (marked: nat)
      requires Structure(samples, lenBuckets, sortedLengths) && sel == Selectable(samples, lenBuckets)
      requires Grouped(samples, order, groups, got) && got <= sel
      modifies this`lenBuckets, this`sortedLengths
      ensures Structure(samples, lenBuckets, sortedLengths) && Selectable(samples, lenBuckets) == sel - got
      ensures marked == |got|
    {
      marked := 0;
      OfAllLengths(samples, order, groups, got);
      for k := 0 to |order|
        invariant Structure(samples, lenBuckets, sortedLengths)
        invariant Selectable(samples, lenBuckets) == sel - OfLengths(samples, got, order[..k])
        invariant marked == |OfLengths(samples, got, order[..k])|
      {
        TakeStep(samples, lenBuckets, sel, order, groups, got, k);
        if order[k] in lenBuckets {
          marked := marked + |groups[order[k]]|;
          TakeOut(order[k], Elems(groups[order[k]]));
        }
      }
    }

    /** Both loops of `claim`. */
    method MoveOut(ss: seq<Sample>) returns (marked: nat, ghost got: set<nat>)
      requires Valid()
      modifies this`claimed, this`lenBuckets, this`sortedLengths
      ensures got == Named(samples, old(Selectable(samples, lenBuckets)), ss) && marked == |got|
      ensures claimed == old(claimed) + got && Structure(samples, lenBuckets, sortedLengths)
      ensures Selectable(samples, lenBuckets) == old(Selectable(samples, lenBuckets)) - got
    {
      ghost var sel := Selectable(samples, lenBuckets);
      var order, groups;
      order, groups, got := MarkClaimed(ss);
      marked := TakeGroups(order, groups, sel, got);
    }

    /** Claims the selectable samples among `ss`; others are skipped. Returns how many it claimed. */
    method Claim(ss: seq<Sample>) returns (marked: nat)
      requires Valid()
      modifies this`claimed, this`lenBuckets, this`sortedLengths
      ensures Valid() && View() == old(View()).Claim(ss)
      ensures marked == |old(Named(samples, Selectable(samples, lenBuckets), ss))|
    {
      ghost var got;
      marked, got := MoveOut(ss);
      ClaimEffect(samples, id2idx, trained, old(lenBuckets), old(sortedLengths), old(claimed), currentEpoch, totalEpochs, ss,
                  lenBuckets, sortedLengths, claimed);
    }

    /** The loop of `commit_claimed`. */
    method MarkTrained(ss: seq<Sample>, ghost sel: set<nat>) returns (marked: nat, ghost got: set<nat>)
      requires IndexOk(samples, id2idx) && Partition(|samples|, trained, sel, claimed)
      modifies this`claimed, this`trained
      ensures TrainLoop(samples, sel, old(claimed), old(Marked(trained)), ss, |ss|, trained, claimed, got) && marked == |got|
    {
      ghost var was, done := claimed, Marked(trained);
      marked, got := 0, {};
      assert ss[..0] == [];
      for k := 0 to |ss|
        invariant TrainLoop(samples, sel, was, done, ss, k, trained, claimed, got) && marked == |got|
      {
        TrainStep(samples, id2idx, sel, was, done, trained, claimed, got, ss, k);
        if ss[k].requestId in id2idx {
          var idx := id2idx[ss[k].requestId];
          if idx in claimed {
            claimed := claimed - {idx};
            trained := trained[idx := true];
            marked := marked + 1;
            got := got + {idx};
          }
        }
      }
    }

    /** Marks the claimed samples among `ss` as trained. Returns how many. */
    method CommitClaimed(ss: seq<Sample>) returns (marked: nat)
      requires Valid()
      modifies this`claimed, this`trained
      ensures Valid() && View() == old(View()).Commit(ss)
      ensures marked == |old(Named(samples, claimed, ss))|
    {
      CommitView(samples, id2idx, Selectable(samples, lenBuckets), claimed, Marked(trained), currentEpoch, totalEpochs, ss);
      ghost var got;
      marked, got := MarkTrained(ss, Selectable(samples, lenBuckets));
      assert ss[..|ss|] == ss;
    }

    /** The first loop of `release_claimed`. */
    method Unclaim(ss: seq<Sample>)
      returns (order: seq<nat>, groups: map<nat, seq<nat>>, ghost got: set<nat>)
      requires Valid()
      modifies this`claimed
      ensures got == old(Named(samples, claimed, ss)) && got <= old(claimed)
      ensures claimed == old(claimed) - got && Grouped(samples, order, groups, got)
    {
      ghost var was := claimed;
      order, groups, got := [], map[], {};
      assert ss[..0] == [];
      for k := 0 to |ss|
        invariant got == Named(samples, was, ss[..k]) && got <= was
        invariant claimed == was - got && Grouped(samples, order, groups, got)
      {
        NamedStep(samples, id2idx, was, ss, k);
        if ss[k].requestId in id2idx && id2idx[ss[k].requestId] in claimed {
          var idx := id2idx[ss[k].requestId];
          claimed := claimed - {idx};
          var l := samples[idx].InputLen();
          GroupOneMore(samples, order, groups, got, idx);
          order := if l in groups then order else order + [l];
          groups := AddTo(groups, l, idx);
          got := got + {idx};
        }
      }
      assert ss[..|ss|] == ss;
    }

    /** Puts indices of one length back, and the length if it had gone. */
    method PutBack(l: nat, idxs: seq<nat>)
      requires Structure(samples, lenBuckets, sortedLengths) && Newcomers(samples, lenBuckets, l, idxs)
      modifies this`lenBuckets, this`sortedLengths
      ensures lenBuckets == Put(old(lenBuckets), l, idxs) && Structure(samples, lenBuckets, sortedLengths)
    {
      PutOk(samples, lenBuckets, l, idxs);
      if l !in lenBuckets {
        lenBuckets := lenBuckets[l := idxs];
        var p := BisectLeft(sortedLengths, l);
        FoundAt(sortedLengths, l);
        if p == |sortedLengths| || sortedLengths[p] != l {
          InsertAscending(sortedLengths, l);
          InsertMembers(sortedLengths, p, l);
          assert forall y :: y in InsertAt(sortedLengths, p, l) <==> y in Elems(InsertAt(sortedLengths, p, l));
          sortedLengths := InsertAt(sortedLengths, p, l);
        }
      } else {
        lenBuckets := lenBuckets[l := lenBuckets[l] + idxs];
      }
    }

    /** The body of the second loop of `release_claimed`. */
    method PutGroup(order: seq<nat>, groups: map<nat, seq<nat>>, k: nat, ghost sel: set<nat>, ghost got: set<nat>,
                    ghost before: nat)
      returns (n: nat)
      requires Grouped(samples, order, groups, got) && got !! sel && k < |order|
      requires PutLoop(samples, lenBuckets, sortedLengths, sel, got, order, k, before)
      modifies this`lenBuckets, this`sortedLengths
      ensures PutLoop(samples, lenBuckets, sortedLengths, sel, got, order, k + 1, before + n)
    {
      PutStep(samples, lenBuckets, sel, order, groups, got, k);
      n := |groups[order[k]]|;
      PutBack(order[k], groups[order[k]]);
    }

    method PutGroups(order: seq<nat>, groups: map<nat, seq<nat>>, ghost sel: set<nat>, ghost got: set<nat>)
      returns (n: nat)
      requires Structure(samples, lenBuckets, sortedLengths) && sel == Selectable(samples, lenBuckets)
      requires Grouped(samples, order, groups, got) && got !! sel
      modifies this`lenBuckets, this`sortedLengths
      ensures Structure(samples, lenBuckets, sortedLengths) && Selectable(samples, lenBuckets) == sel + got
      ensures n == |got|
    {
      n := 0;
      OfAllLengths(samples, order, groups, got);
      for k := 0 to |order|
        invariant PutLoop(samples, lenBuckets, sortedLengths, sel, got, order, k, n)
      {
        var m := PutGroup(order, groups, k, sel, got, n);
        n := n + m;
      }
    }

    /** Returns the claimed samples among `ss` to the selectable ones. Returns how many. */
    method ReleaseClaimed(ss: seq<Sample>) returns (n: nat)
      requires Valid()
      modifies this`claimed, this`lenBuckets, this`sortedLengths
      ensures Valid() && View() == old(View()).Release(ss)
      ensures n == |old(Named(samples, claimed, ss))|
    {
      ghost var sel := Selectable(samples, lenBuckets);
      ghost var was := claimed;
      var order, groups, got := Unclaim(ss);
      ClaimedApart(samples, id2idx, trained, lenBuckets, sortedLengths, was, got);
      n := PutGroups(order, groups, sel, got);
      ReleaseEffect(samples, id2idx, trained, old(lenBuckets), old(sortedLengths), was, currentEpoch, totalEpochs, ss,
                    lenBuckets, sortedLengths, claimed);
    }

    // -------------------------------------------------------------- loading

    method BuildTemplates()
      modifies this`bucketTemplate, this`sortedTemplate
      ensures FullTemplate(samples, bucketTemplate, sortedTemplate)
    {
      var order, groups := GroupByLength(samples);
      var sorted := Sorted(order);
      GroupsAreFull(samples, order, groups, sorted);
      bucketTemplate, sortedTemplate := groups, sorted;
    }

    /** Loads the corpus and starts an epoch over it; nothing happens without a corpus. */
    method Load(corpus: Option<seq<Line>>) returns (loaded: nat)
      requires Valid()
      requires corpus.Some? ==> FreshIds(corpus.value, id2idx)
      modifies this
      ensures Valid() && currentEpoch == old(currentEpoch)
      ensures corpus.None? ==> loaded == 0 && View() == old(View())
      ensures corpus.Some? ==>
                var fit := Fitting(corpus.value, cap);
                && loaded <= |fit| && (maxPrepare.None? ==> loaded == |fit|)
                && (maxPrepare.Some? ==> loaded == |fit| <= Max(1, maxPrepare.value) || loaded == Max(1, maxPrepare.value) < |fit|)
                && samples == old(samples) + fit[..loaded]
                && View() == Pool(Elems(samples), Elems(samples), {}, {}, currentEpoch, totalEpochs)
    {
      if corpus.None? {
        return 0;
      }
      loaded := ReadLines(corpus.value);
      BuildTemplates();
      ResetEpochStructures();
    }

    /** The loop over the corpus file. */
    method ReadLines(lines: seq<Line>) returns (loaded: nat)
      requires IndexOk(samples, id2idx) && FreshIds(lines, id2idx)
      modifies this`samples, this`id2idx
      ensures IndexOk(samples, id2idx) && loaded == LoadedOf(|Fitting(lines, cap)|, maxPrepare) <= |Fitting(lines, cap)|
      ensures samples == old(samples) + Fitting(lines, cap)[..loaded]
    {
      loaded := 0;
      var k := 0;
      while k < |lines|
        invariant ReadLoop(lines, cap, k, old(samples), samples, id2idx, loaded)
        invariant maxPrepare.Some? && loaded > 0 ==> loaded < maxPrepare.value
      {
        var line := lines[k];
        ReadStep(lines, cap, k, old(samples), samples, id2idx, loaded);
        k := k + 1;
        if !line.blank && |line.tokens| <= cap {
          id2idx := id2idx[line.id := |samples|];
          samples := samples + [Sample(line.id, line.tokens)];
          loaded := loaded + 1;
          if maxPrepare.Some? && loaded >= maxPrepare.value {
            break;
          }
        }
      }
      ReadEnd(lines, cap, maxPrepare, k, old(samples), samples, id2idx, loaded);
    }

    // -------------------------------------------------------------- epochs

    /** Every sample becomes selectable again. */
    method ResetEpochStructures()
      requires IndexOk(samples, id2idx) && FullTemplate(samples, bucketTemplate, sortedTemplate)
      modifies this`trained, this`lenBuckets, this`sortedLengths, this`claimed
      ensures Valid()
      ensures View() == Pool(Elems(samples), Elems(samples), {}, {}, currentEpoch, totalEpochs)
    {
      trained := seq(|samples|, i => false);
      lenBuckets := bucketTemplate;
      sortedLengths := sortedTemplate;
      claimed := {};
      AllSelectable(samples, lenBuckets);
    }

    method AdvanceEpoch() returns (advanced: bool)
      requires Valid()
      modifies this
      ensures Valid() && advanced == old(View()).CanAdvance() && View() == old(View()).Advance()
      ensures advanced <==> old(currentEpoch) < totalEpochs && old(View()).claimed == {}
      ensures currentEpoch == old(currentEpoch) + if advanced then 1 else 0
      ensures advanced ==> View().selectable == View().all == old(View()).all && View().trained == {}
      ensures samples == old(samples) && id2idx == old(id2idx)
    {
      NoneClaimed(samples, claimed);
      if currentEpoch >= totalEpochs {
        return false;
      }
      if claimed != {} {
        return false;
      }
      currentEpoch := currentEpoch + 1;
      ResetEpochStructures();
      return true;
    }

    method HasNext() returns (r: bool)
      requires Valid()
      ensures r <==> View().selectable != {}
    {
      r := lenBuckets != map[];
      if r {
        var l :| l in lenBuckets;
        assert lenBuckets[l][0] in lenBuckets[l];
        SelectableAre(lenBuckets[l][0]);
      } else {
        assert Selectable(samples, lenBuckets) == {};
      }
    }

    method HasClaimed() returns (r: bool)
      requires Valid()
      ensures r <==> View().claimed != {}
    {
      NoneClaimed(samples, claimed);
      r := claimed != {};
    }
  }
}
