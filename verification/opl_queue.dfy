// opl_queue.c: the callbacks that wait for their time, in a binary heap.
module OplQueue {

  const MAX_OPL_QUEUE: nat := 64

  // A callback with its data, and when it is due.
  datatype Entry = Entry(callback: int, time: nat)

  function Parent(i: nat): (p: nat)
    requires i > 0
    ensures p < i
  {
    (i - 1) / 2
  }

  // No entry is due before its parent.
  ghost predicate IsHeap(s: seq<Entry>) {
    forall i | 0 < i < |s| :: s[Parent(i)].time <= s[i].time
  }

  // The root is due first.
  lemma {:induction false} RootIsMin(s: seq<Entry>, i: nat)
    requires IsHeap(s) && i < |s|
    ensures s[0].time <= s[i].time
  {
    if i > 0 {
      RootIsMin(s, Parent(i));
    }
  }

  ghost predicate Permutation(a: seq<Entry>, b: seq<Entry>) {
    multiset(a) == multiset(b)
  }

  lemma PermutationTwice(a: seq<Entry>, b: seq<Entry>, c: seq<Entry>)
    requires Permutation(a, b) && Permutation(b, c)
    ensures Permutation(a, c)
  {}

  lemma PermutationOfItself(a: seq<Entry>)
    ensures Permutation(a, a)
  {}

  // ---------- The hole that moves up ----------

  // With `e` put into the hole, only the hole may be due before its parent, and whatever hangs
  // below the hole could hang below its parent.
  ghost predicate UpHole(s: seq<Entry>, hole: nat, e: Entry)
    requires hole < |s|
  {
    && (forall i | 0 < i < |s| && i != hole :: s[hole := e][Parent(i)].time <= s[hole := e][i].time)
    && (forall i | 0 < i < |s| && Parent(i) == hole && hole > 0 :: s[Parent(hole)].time <= s[i].time)
  }

  lemma UpStep(s: seq<Entry>, hole: nat, e: Entry)
    requires 0 < hole < |s| && UpHole(s, hole, e) && e.time < s[Parent(hole)].time
    ensures var t := s[hole := s[Parent(hole)]];
            && UpHole(t, Parent(hole), e)
            && Permutation(t[Parent(hole) := e], s[hole := e])
  {
    var p := Parent(hole);
    var t := s[hole := s[p]];
    var u, v := s[hole := e], t[p := e];
    assert v == u[hole := u[p]][p := u[hole]];
    forall i | 0 < i < |t| && i != p ensures v[Parent(i)].time <= v[i].time {
      assert i != hole ==> u[Parent(i)].time <= u[i].time;
      if Parent(i) == hole {
        assert s[p].time <= s[i].time;
      }
    }
    forall i | 0 < i < |t| && Parent(i) == p && p > 0 ensures t[Parent(p)].time <= t[i].time {
      assert u[Parent(p)].time <= u[p].time;
      if i != hole {
        assert u[p].time <= u[i].time;
      }
    }
  }

  lemma UpDone(s: seq<Entry>, hole: nat, e: Entry)
    requires hole < |s| && UpHole(s, hole, e) && (hole > 0 ==> s[Parent(hole)].time <= e.time)
    ensures IsHeap(s[hole := e])
  {}

  lemma UpStart(s: seq<Entry>, x: Entry, e: Entry)
    requires IsHeap(s)
    ensures UpHole(s + [x], |s|, e) && (s + [x])[|s| := e] == s + [e]
  {}

  // ---------- The hole that moves down ----------

  // With `e` put into the hole, only what hangs below the hole may be due before it.
  ghost predicate DownHole(s: seq<Entry>, hole: nat, e: Entry)
    requires hole < |s|
  {
    && (forall i | 0 < i < |s| && Parent(i) != hole :: s[hole := e][Parent(i)].time <= s[hole := e][i].time)
    && (forall i | 0 < i < |s| && Parent(i) == hole && hole > 0 :: s[Parent(hole)].time <= s[i].time)
  }

  lemma DownStep(s: seq<Entry>, hole: nat, child: nat, e: Entry)
    requires hole < child < |s| && Parent(child) == hole && DownHole(s, hole, e) && s[child].time < e.time
    requires forall i | 0 < i < |s| && Parent(i) == hole :: s[child].time <= s[i].time
    ensures var t := s[hole := s[child]];
            DownHole(t, child, e) && Permutation(t[child := e], s[hole := e])
  {
    var t := s[hole := s[child]];
    var u, v := s[hole := e], t[child := e];
    assert v == u[hole := u[child]][child := u[hole]];
    forall i | 0 < i < |t| && Parent(i) != child ensures v[Parent(i)].time <= v[i].time {
      if Parent(i) != hole {
        assert u[Parent(i)].time <= u[i].time;
      }
    }
    forall i | 0 < i < |t| && Parent(i) == child ensures t[hole].time <= t[i].time {
      assert u[Parent(i)].time <= u[i].time;
    }
  }

  lemma DownDone(s: seq<Entry>, hole: nat, e: Entry)
    requires hole < |s| && DownHole(s, hole, e)
    requires forall i | 0 < i < |s| && Parent(i) == hole :: e.time <= s[i].time
    ensures IsHeap(s[hole := e])
  {}

  lemma RootFirst(s: seq<Entry>)
    requires IsHeap(s) && |s| > 0
    ensures forall e | e in s :: s[0].time <= e.time
  {
    forall e | e in s ensures s[0].time <= e.time {
      var i :| 0 <= i < |s| && s[i] == e;
      RootIsMin(s, i);
    }
  }

  lemma PopStart(s: seq<Entry>)
    requires IsHeap(s) && |s| > 1
    ensures DownHole(s[..|s| - 1], 0, s[|s| - 1])
    ensures multiset(s[..|s| - 1][0 := s[|s| - 1]]) == multiset(s) - multiset{s[0]}
  {
    var last := s[|s| - 1];
    assert s == s[..|s| - 1] + [last];
    assert s[..|s| - 1] == [s[0]] + s[1..|s| - 1];
    assert s[..|s| - 1][0 := last] == [last] + s[1..|s| - 1];
  }

  // An offset divided by a factor, rounded towards zero.
  // The quotient can be converted to an unsigned number; C leaves the conversion of others open.
  predicate Converts(offset: int, factor: real) {
    factor > 0.0 && offset as real > -factor
  }

  function Rescale(offset: int, factor: real): nat
    requires Converts(offset, factor)
  {
    if offset < 0 then 0 else (offset as real / factor).Floor
  }

  // It is the whole part of the quotient.
  lemma RescaleIsQuotient(offset: nat, factor: real)
    requires factor > 0.0
    ensures var q := Rescale(offset, factor); WholePart(q, offset as real / factor)
  {}

  predicate WholePart(q: int, x: real) {
    q as real <= x < q as real + 1.0
  }

  predicate AllConvert(entries: seq<Entry>, time: nat, factor: real) {
    forall i | 0 <= i < |entries| :: Converts(entries[i].time - time, factor)
  }

  // The same callback, and what was left of its delay after `time` divided by the factor.
  predicate AdjustedEntry(was: Entry, now: Entry, time: nat, factor: real) {
    && now.callback == was.callback
    && (Converts(was.time - time, factor) ==> now.time == time + Rescale(was.time - time, factor))
  }

  predicate Adjusted(was: seq<Entry>, now: seq<Entry>, time: nat, factor: real) {
    |now| == |was| && forall i | 0 <= i < |was| :: AdjustedEntry(was[i], now[i], time, factor)
  }

  lemma RescaleKeepsOrder(a: int, b: int, factor: real)
    requires a <= b && Converts(a, factor)
    ensures Converts(b, factor) && Rescale(a, factor) <= Rescale(b, factor)
  {
    assert b as real / factor == a as real / factor + (b - a) as real / factor;
  }

  lemma Singleton(e: Entry)
    ensures IsHeap([]) && multiset([e]) - multiset{e} == multiset{}
  {}

  class Queue {
    const entries: array<Entry>
    var numEntries: nat

    constructor ()
      ensures Valid() && numEntries == 0 && fresh(entries)
    {
      entries := new Entry[MAX_OPL_QUEUE](_ => Entry(0, 0));
      numEntries := 0;
    }

    ghost predicate Valid()
      reads this, entries
    {
      entries.Length == MAX_OPL_QUEUE && numEntries <= MAX_OPL_QUEUE && IsHeap(entries[..numEntries])
    }

    ghost function Contents(): multiset<Entry>
      requires numEntries <= entries.Length
      reads this, entries
    {
      multiset(entries[..numEntries])
    }

    // OPL_Queue_Push; a full queue stays as it is.
    method Push(callback: int, time: nat)
      requires Valid()
      modifies this`numEntries, entries
      ensures Valid()
      ensures Contents() == old(Contents())
          + (if |old(Contents())| < MAX_OPL_QUEUE then multiset{Entry(callback, time)} else multiset{})
    {
      hide IsHeap, UpHole;
      ghost var was := entries[..numEntries];
      if numEntries >= MAX_OPL_QUEUE {
        return;
      }
      numEntries := numEntries + 1;
      UpStart(was, entries[|was|], Entry(callback, time));
      assert entries[..numEntries] == was + [entries[|was|]];
      PercolateUp(callback, time);
    }

    // The part of OPL_Queue_Push that finds the place of the new entry, from the last one up.
    method PercolateUp(callback: int, time: nat)
      requires entries.Length == MAX_OPL_QUEUE && 0 < numEntries <= MAX_OPL_QUEUE
      requires UpHole(entries[..numEntries], numEntries - 1, Entry(callback, time))
      modifies entries
      ensures IsHeap(entries[..numEntries])
      ensures Permutation(entries[..numEntries], old(entries[..numEntries])[numEntries - 1 := Entry(callback, time)])
    {
      hide IsHeap, UpHole, Permutation;
      ghost var e := Entry(callback, time);
      var entryId := numEntries - 1;
      ghost var start := entries[..numEntries][entryId := e];
      PermutationOfItself(start);
      while entryId > 0
        invariant 0 <= entryId < numEntries
        invariant UpHole(entries[..numEntries], entryId, e)
        invariant Permutation(entries[..numEntries][entryId := e], start)
      {
        var parentId := (entryId - 1) / 2;
        if time >= entries[parentId].time {
          break;
        }
        UpStep(entries[..numEntries], entryId, e);
        ghost var s := entries[..numEntries];
        entries[entryId] := entries[parentId];
        assert entries[..numEntries] == s[entryId := s[parentId]];
        PermutationTwice(entries[..numEntries][parentId := e], s[entryId := e], start);
        entryId := parentId;
      }
      UpDone(entries[..numEntries], entryId, e);
      ghost var s := entries[..numEntries];
      entries[entryId] := Entry(callback, time);
      assert entries[..numEntries] == s[entryId := e];
    }

    // Which child to move into the hole, -1 for none.
    method NextHole(i: nat, time: nat) returns (next: int)
      requires entries.Length == MAX_OPL_QUEUE && i < numEntries <= MAX_OPL_QUEUE
      ensures next == -1 ==> forall j | 0 < j < numEntries && Parent(j) == i :: time <= entries[j].time
      ensures next != -1 ==> i < next < numEntries && Parent(next) == i && entries[next].time < time
      ensures next != -1 ==> forall j | 0 < j < numEntries && Parent(j) == i :: entries[next].time <= entries[j].time
    {
      var child1 := i * 2 + 1;
      var child2 := i * 2 + 2;
      assert forall j | 0 < j < numEntries && Parent(j) == i :: j == child1 || j == child2;
      if child1 < numEntries && entries[child1].time < time {
        if child2 < numEntries && entries[child2].time < entries[child1].time {
          return child2;
        }
        return child1;
      } else if child2 < numEntries && entries[child2].time < time {
        return child2;
      }
      return -1;
    }

    // OPL_Queue_Pop: removes an entry that no other is due before.
    method Pop() returns (found: bool, ghost e: Entry, callback: int)
      requires Valid()
      modifies this`numEntries, entries
      ensures Valid() && found == (old(numEntries) > 0)
      ensures found ==> e in old(Contents()) && callback == e.callback && e.time == old(entries[0].time)
      ensures found ==> forall f | f in old(Contents()) :: e.time <= f.time
      ensures Contents() == if found then old(Contents()) - multiset{e} else old(Contents())
    {
      hide IsHeap, DownHole;
      found, e, callback := false, Entry(0, 0), 0;
      if numEntries <= 0 {
        return;
      }
      ghost var was := entries[..numEntries];
      found, e, callback := true, entries[0], entries[0].callback;
      RootFirst(was);
      numEntries := numEntries - 1;
      ghost var last := entries[numEntries];
      if numEntries > 0 {
        PopStart(was);
        assert entries[..numEntries] == was[..numEntries];
        PercolateDown(last);
      } else {
        assert was == [e];
        Singleton(e);
        assert entries[..0] == [];
      }
    }

    // The part of OPL_Queue_Pop that finds the new place of the entry past the end.
    method PercolateDown(ghost last: Entry)
      requires entries.Length == MAX_OPL_QUEUE && 0 < numEntries < MAX_OPL_QUEUE && entries[numEntries] == last
      requires DownHole(entries[..numEntries], 0, last)
      modifies entries
      ensures IsHeap(entries[..numEntries])
      ensures Permutation(entries[..numEntries], old(entries[..numEntries])[0 := last])
    {
      hide IsHeap, DownHole, Permutation;
      var i := 0;
      ghost var start := entries[..numEntries][0 := last];
      PermutationOfItself(start);
      while true
        invariant i < numEntries && entries[numEntries] == last
        invariant DownHole(entries[..numEntries], i, last)
        invariant Permutation(entries[..numEntries][i := last], start)
        decreases numEntries - i
      {
        var next := NextHole(i, entries[numEntries].time);
        if next == -1 {
          break;
        }
        DownStep(entries[..numEntries], i, next, last);
        ghost var s := entries[..numEntries];
        entries[i] := entries[next];
        assert entries[..numEntries] == s[i := s[next]];
        PermutationTwice(entries[..numEntries][next := last], s[i := last], start);
        i := next;
      }
      DownDone(entries[..numEntries], i, last);
      ghost var s := entries[..numEntries];
      entries[i] := entries[numEntries];
      assert entries[..numEntries] == s[i := last];
    }

    // OPL_Queue_Peek
    function Peek(): (time: nat)
      requires Valid()
      reads this, entries
      ensures numEntries == 0 ==> time == 0
      ensures numEntries > 0 ==> (exists e :: e in Contents() && e.time == time)
      ensures forall e | e in Contents() :: time <= e.time
    {
      if numEntries > 0 then
        RootFirst(entries[..numEntries]);
        assert entries[0] in entries[..numEntries];
        entries[0].time
      else 0
    }

    // OPL_Queue_Clear
    method Clear()
      requires Valid()
      modifies this`numEntries
      ensures Valid() && Contents() == multiset{}
    {
      numEntries := 0;
    }

    // OPL_Queue_AdjustCallbacks: no entry moves, and if every time can be computed, which is what
    // `defined` records, the order is kept.
    method AdjustCallbacks(time: nat, factor: real) returns (defined: bool)
      requires Valid()
      modifies entries
      ensures defined == AllConvert(old(entries[..numEntries]), time, factor)
      ensures Adjusted(old(entries[..numEntries]), entries[..numEntries], time, factor)
      ensures AllConvert(old(entries[..numEntries]), time, factor) ==> Valid()
    {
      hide Rescale, Converts;
      ghost var was := entries[..numEntries];
      defined := true;
      var i := 0;
      while i < numEntries
        invariant 0 <= i <= numEntries
        invariant defined == forall j | 0 <= j < i :: Converts(was[j].time - time, factor)
        invariant forall j | 0 <= j < i :: AdjustedEntry(was[j], entries[j], time, factor)
        invariant forall j | i <= j < numEntries :: entries[j] == was[j]
      {
        var offset := entries[i].time - time;
        defined := defined && Converts(offset, factor);
        var moved := Quotient(offset, factor);
        entries[i] := entries[i].(time := time + moved);
        i := i + 1;
      }
      if AllConvert(was, time, factor) {
        forall j | 0 < j < numEntries ensures entries[Parent(j)].time <= entries[j].time {
          assert AdjustedEntry(was[j], entries[j], time, factor);
          RescaleKeepsOrder(was[Parent(j)].time - time, was[j].time - time, factor);
        }
      }
    }

    // The conversion of offset / factor to an unsigned number.
    method Quotient(offset: int, factor: real) returns (q: nat)
      ensures Converts(offset, factor) ==> q == Rescale(offset, factor)
    {
      var any: int := *;
      q := if Converts(offset, factor) then Rescale(offset, factor) else if any >= 0 then any else 0;
    }
  }
}
