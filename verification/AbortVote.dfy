/** One rank's part in the abort of FT-only forwards under tensor parallelism. It reads the shared
    arrival counter at moments of its own; what it saw is MAX-reduced before anyone acts on it. */
module AbortVote {
  /** The fields of one rank's poller. */
  datatype Poller = Poller(seen: nat, entry: nat, layerCalls: nat, reduces: nat, active: bool) {
    function NoteServed(cur: nat): Poller {
      this.(seen := cur)
    }

    /** The local observation a rank brings to the vote at the entry of a forward. */
    function EntryFlag(cur: nat): bool {
      cur != seen
    }

    function AfterEntry(cur: nat, reduced: bool): Poller {
      this.(entry := cur, layerCalls := 0, reduces := reduces + 1, active := !reduced)
    }

    function LayerFlag(cur: nat): bool {
      cur != entry
    }

    function AfterLayer(): Poller {
      this.(layerCalls := layerCalls + 1, reduces := reduces + 1)
    }

    function Finish(cur: nat): Poller {
      this.(active := false, seen := cur)
    }
  }

  /** One rank's poller. `others` is what the reduction brings from the other ranks. */
  class FtAbortPoller {
    var seen: nat
    var entry: nat
    var layerCalls: nat
    var reduces: nat
    var active: bool

    function State(): Poller
      reads this
    {
      Poller(seen, entry, layerCalls, reduces, active)
    }

    constructor (cur: nat)
      ensures State() == Poller(cur, cur, 0, 0, false)
    {
      seen, entry, layerCalls, reduces, active := cur, cur, 0, 0, false;
    }

    method Symmetric(local: bool, others: bool) returns (result: bool)
      modifies this`reduces
      ensures result == (local || others) && reduces == old(reduces) + 1
    {
      reduces := reduces + 1;
      result := local || others;
    }

    method NoteServed(cur: nat)
      modifies this
      ensures State() == old(State()).NoteServed(cur) && seen == cur && entry == old(entry)
    {
      seen := cur;
    }

    method Entry(cur: nat, others: bool) returns (aborted: bool)
      modifies this
      ensures aborted == (old(State()).EntryFlag(cur) || others)
      ensures State() == old(State()).AfterEntry(cur, aborted)
      ensures aborted == (cur != old(seen) || others) && (active <==> !aborted) && entry == cur && seen == old(seen)
    {
      entry := cur;
      layerCalls := 0;
      aborted := Symmetric(cur != seen, others);
      active := !aborted;
    }

    method Layer(cur: nat, others: bool) returns (aborted: bool)
      modifies this
      ensures aborted == (old(State()).LayerFlag(cur) || others)
      ensures aborted == (cur != old(entry) || others) && entry == old(entry) && seen == old(seen)
      ensures State() == old(State()).AfterLayer()
    {
      layerCalls := layerCalls + 1;
      aborted := Symmetric(cur != entry, others);
    }

    /** Called by every hook. Off a layer boundary, or outside an FT-only forward, it neither
        aborts nor votes. */
    method HookCheck(boundary: bool, cur: nat, others: bool) returns (aborted: bool)
      modifies this
      ensures !(boundary && old(active)) ==> !aborted && State() == old(State())
      ensures boundary && old(active) ==>
                aborted == (cur != old(entry) || others) && State() == old(State()).AfterLayer()
    {
      if boundary && active {
        aborted := Layer(cur, others);
      } else {
        aborted := false;
      }
    }

    /** What has arrived by now will not abort the next forward. */
    method Finish(cur: nat)
      modifies this
      ensures State() == old(State()).Finish(cur) && !active && seen == cur
    {
      active := false;
      seen := cur;
    }
  }
}
