// deh_str.c: the table of DeHackEd string replacements.  A hash table with linear probing
// that doubles when it is "60% full" by a counter that is never reset when the table is
// rebuilt, so that the counter runs ahead of the true occupancy and rebuilding can nest.
module DehStr {

  // ---------- Strings and their hash ----------

  // A C string: characters 1 to 255, the terminator left off.
  type Char = c: char | 0 < c as int < 256 witness 'A'
  type CString = seq<Char>

  const UINT32: nat := 0x1_0000_0000

  // Whether a char is signed, which depends on the platform.
  const CHAR_IS_SIGNED: bool

  function CharValue(c: Char): int {
    if CHAR_IS_SIGNED && c as int >= 128 then c as int - 256 else c as int
  }

  function Hash(s: CString): (h: nat)
    ensures h < UINT32
  {
    if s == [] then 0 else (31 * Hash(s[..|s| - 1]) + CharValue(s[|s| - 1])) % UINT32
  }

  function Power31(n: nat): nat {
    if n == 0 then 1 else 31 * Power31(n - 1)
  }

  // The hash of a text is the sum of its characters, each times 31 for every character after it.
  function WeightedSum(s: CString): int {
    if s == [] then 0 else CharValue(s[0]) * Power31(|s| - 1) + WeightedSum(s[1..])
  }

  lemma {:induction false} HashIsWeightedSum(s: CString)
    ensures Hash(s) == WeightedSum(s) % UINT32
  {
    if s != [] {
      var last := |s| - 1;
      HashIsWeightedSum(s[..last]);
      WeightedSumAppend(s[..last], s[last]);
      assert s[..last] + [s[last]] == s;
      ModInside(31, WeightedSum(s[..last]), CharValue(s[last]));
    }
  }

  lemma {:induction false} WeightedSumAppend(s: CString, c: Char)
    ensures WeightedSum(s + [c]) == 31 * WeightedSum(s) + CharValue(c)
  {
    if s == [] {
      assert s + [c] == [c] && [c][1..] == [];
      assert WeightedSum([c]) == CharValue(c) * Power31(0) + WeightedSum([]);
    } else {
      assert (s + [c])[1..] == s[1..] + [c];
      WeightedSumAppend(s[1..], c);
      assert Power31(|s|) == 31 * Power31(|s| - 1);
      Times31(CharValue(s[0]), Power31(|s| - 1));
    }
  }

  lemma Times31(a: int, b: int)
    ensures a * (31 * b) == 31 * (a * b)
  {}

  lemma ModInside(k: int, x: int, c: int)
    ensures (k * (x % UINT32) + c) % UINT32 == (k * x + c) % UINT32
  {
    var q := x / UINT32;
    assert k * x == k * (x % UINT32) + UINT32 * (k * q) by { Distribute(k, x % UINT32, q); }
    ModMultiple(k * x + c, k * q);
  }

  lemma Distribute(k: int, r: int, q: int)
    ensures k * (r + UINT32 * q) == k * r + UINT32 * (k * q)
  {}

  lemma ShiftAndSubtract(h: nat, c: int)
    ensures (h * 32 % UINT32 - h + c) % UINT32 == (31 * h + c) % UINT32
  {
    var q := h * 32 / UINT32;
    assert h * 32 % UINT32 - h + c == (31 * h + c) - UINT32 * q;
    ModMultiple(31 * h + c, q);
  }

  lemma ModMultiple(x: int, q: int)
    ensures (x - UINT32 * q) % UINT32 == x % UINT32
  {}

  // strhash: unsigned 32-bit arithmetic, h * 31 computed as (h << 5) - h.
  method StrHash(s: CString) returns (h: nat)
    ensures h == Hash(s)
  {
    h := if |s| > 0 then CharValue(s[0]) % UINT32 else 0;
    if h != 0 {
      HashOne(s);
      for p := 1 to |s|
        invariant h == Hash(s[..p])
      {
        assert s[..p + 1][..p] == s[..p];
        ShiftAndSubtract(h, CharValue(s[p]));
        h := (h * 32 % UINT32 - h + CharValue(s[p])) % UINT32;
      }
      assert s[..|s|] == s;
    }
  }

  lemma HashOne(s: CString)
    requires |s| > 0
    ensures Hash(s[..1]) == CharValue(s[0]) % UINT32
  {
    assert s[..1][..0] == s[..0];
  }

  class Substitution {
    const fromText: CString
    var toText: CString

    constructor (fromText: CString, toText: CString)
      ensures this.fromText == fromText && this.toText == toText
    {
      this.fromText, this.toText := fromText, toText;
    }
  }

  // ---------- Probing ----------

  type Table = seq<Substitution?>

  // Where the probe for a string starts.
  function Home(s: CString, length: nat): (j: nat)
    requires length > 0
    ensures j < length
  {
    Hash(s) % length
  }

  // How many steps a probe takes from slot i to slot j.
  function Dist(i: nat, j: nat, length: nat): (d: nat)
    requires i < length && j < length
    ensures d < length
  {
    if i <= j then j - i else j - i + length
  }

  function NextSlot(j: nat, length: nat): (k: nat)
    requires j < length
    ensures k < length
  {
    (j + 1) % length
  }

  lemma NextSlotDist(i: nat, j: nat, length: nat)
    requires i < length && j < length
    ensures NextSlot(j, length) == if j + 1 == length then 0 else j + 1
    ensures i != j ==> Dist(NextSlot(j, length), i, length) == Dist(j, i, length) - 1
    ensures NextSlot(j, length) != i ==> Dist(i, NextSlot(j, length), length) == Dist(i, j, length) + 1
  {
    if j + 1 == length {
      assert (j + 1) % length == 0;
    } else {
      assert (j + 1) % length == j + 1;
    }
  }

  function Used(t: Table): set<nat> {
    set j: nat | j < |t| && t[j] != null
  }

  // The slots a probe for `s` passes before slot j are all taken.
  ghost predicate Reachable(t: Table, s: CString, j: nat)
    requires j < |t|
  {
    forall k: nat | k < |t| && Dist(Home(s, |t|), k, |t|) < Dist(Home(s, |t|), j, |t|) :: t[k] != null
  }

  // The table holds exactly the substitutions of `subs`, each in one slot its probe reaches.
  ghost predicate Holds(t: Table, subs: map<CString, Substitution>) {
    && (forall j: nat | j < |t| && t[j] != null ::
          t[j].fromText in subs && subs[t[j].fromText] == t[j] && Reachable(t, t[j].fromText, j))
    && (forall i: nat, j: nat | i < j < |t| && t[i] != null :: t[i] != t[j])
    && (forall s | s in subs :: subs[s].fromText == s && subs[s] in t)
    && |Used(t)| == |subs|
  }

  lemma FreeSlot(t: Table)
    requires |Used(t)| < |t|
    ensures null in t
  {
    if null !in t {
      FullTable(t);
    }
  }

  lemma FullTable(t: Table)
    requires null !in t
    ensures |Used(t)| == |t|
  {
    AllUsed(t, |t|);
    assert t[..|t|] == t;
  }

  lemma {:induction false} AllUsed(t: Table, n: nat)
    requires n <= |t| && null !in t
    ensures |Used(t[..n])| == n
  {
    if n == 0 {
      assert Used(t[..0]) == {};
    } else {
      AllUsed(t, n - 1);
      assert t[n - 1] in t;
      assert Used(t[..n]) == Used(t[..n - 1]) + {n - 1};
    }
  }

  lemma StillReachable(t: Table, s: CString, j: nat, e: nat, sub: Substitution)
    requires j < |t| && e < |t| && Reachable(t, s, j)
    ensures Reachable(t[e := sub], s, j)
  {}

  lemma UsedGrows(t: Table, e: nat, sub: Substitution)
    requires e < |t| && t[e] == null
    ensures |Used(t[e := sub])| == |Used(t)| + 1
  {
    assert Used(t[e := sub]) == Used(t) + {e};
  }

  lemma StillIn(t: Table, e: nat, sub: Substitution, x: Substitution)
    requires e < |t| && t[e] == null && x in t
    ensures x in t[e := sub]
  {
    var j :| 0 <= j < |t| && t[j] == x;
    assert t[e := sub][j] == x;
  }

  // A new substitution may go into the first free slot its probe reaches.
  lemma Insert(t: Table, subs: map<CString, Substitution>, e: nat, sub: Substitution)
    requires Holds(t, subs) && sub.fromText !in subs && e < |t| && t[e] == null
    requires Reachable(t, sub.fromText, e)
    ensures Holds(t[e := sub], subs[sub.fromText := sub])
  {
    hide Reachable, Used;
    var t' := t[e := sub];
    UsedGrows(t, e, sub);
    forall j: nat | j < |t'| && t'[j] != null
      ensures Reachable(t', t'[j].fromText, j)
    {
      StillReachable(t, t'[j].fromText, j, e, sub);
    }
    forall s | s in subs
      ensures subs[s] in t'
    {
      StillIn(t, e, sub, subs[s]);
    }
    assert t'[e] == sub;
  }

  // A probe for s has passed the slots before e without finding s.
  ghost predicate Passed(t: Table, s: CString, e: nat)
    requires e < |t|
  {
    forall k: nat | k < |t| && Dist(Home(s, |t|), k, |t|) < Dist(Home(s, |t|), e, |t|) ::
      t[k] != null && t[k].fromText != s
  }

  lemma PassedStart(t: Table, s: CString)
    requires |t| > 0
    ensures Home(s, |t|) == Hash(s) % |t|
    ensures Passed(t, s, Home(s, |t|)) && Reachable(t, s, Home(s, |t|))
  {}

  // One more slot; the free one is nearer than before, so that the probe ends.
  lemma ReachableStep(t: Table, s: CString, e: nat, free: nat)
    requires e < |t| && free < |t| && t[free] == null && t[e] != null && Reachable(t, s, e)
    ensures Reachable(t, s, NextSlot(e, |t|))
    ensures Dist(NextSlot(e, |t|), free, |t|) < Dist(e, free, |t|)
  {
    NextSlotDist(Home(s, |t|), e, |t|);
    NextSlotDist(free, e, |t|);
  }

  lemma PassedStep(t: Table, s: CString, e: nat, free: nat)
    requires e < |t| && free < |t| && t[free] == null && t[e] != null && t[e].fromText != s && Passed(t, s, e)
    ensures Passed(t, s, NextSlot(e, |t|))
    ensures Dist(NextSlot(e, |t|), free, |t|) < Dist(e, free, |t|)
  {
    NextSlotDist(Home(s, |t|), e, |t|);
    NextSlotDist(free, e, |t|);
  }

  // The probe for a string of the table meets no free slot before the string.
  lemma InTable(t: Table, subs: map<CString, Substitution>, s: CString, e: nat)
    requires Holds(t, subs) && e < |t| && Passed(t, s, e) && s in subs
    ensures t[e] != null
  {
    var j :| 0 <= j < |t| && t[j] == subs[s];
    assert Reachable(t, s, j);
  }

  // A string whose probe finds a free slot first is not in the table.
  lemma NotFound(t: Table, subs: map<CString, Substitution>, s: CString, e: nat)
    requires Holds(t, subs) && e < |t| && t[e] == null && Passed(t, s, e)
    ensures s !in subs
  {
    hide Holds, Passed;
    if s in subs {
      InTable(t, subs, s, e);
    }
  }

  lemma FoundAt(t: Table, subs: map<CString, Substitution>, s: CString, e: nat)
    requires Holds(t, subs) && e < |t| && t[e] != null && t[e].fromText == s
    ensures s in subs && subs[s] == t[e]
  {}

  // ---------- What the first n slots of a table hold ----------

  function SubsOf(t: Table, n: nat): map<CString, Substitution>
    requires n <= |t|
  {
    if n == 0 then map[]
    else if t[n - 1] == null then SubsOf(t, n - 1)
    else SubsOf(t, n - 1)[t[n - 1].fromText := t[n - 1]]
  }

  lemma SubsOfStep(t: Table, n: nat)
    requires n < |t|
    ensures SubsOf(t, 0) == map[]
    ensures SubsOf(t, n + 1) == if t[n] == null then SubsOf(t, n) else SubsOf(t, n)[t[n].fromText := t[n]]
  {}

  ghost predicate Among(t: Table, n: nat, sub: Substitution) {
    exists j: nat :: j < n && j < |t| && t[j] == sub
  }

  lemma {:induction false} SubsOfIs(t: Table, subs: map<CString, Substitution>, n: nat)
    requires Holds(t, subs) && n <= |t|
    ensures forall s | s in SubsOf(t, n) :: s in subs && SubsOf(t, n)[s] == subs[s] && Among(t, n, subs[s])
  {
    hide Reachable, Used;
    if n > 0 {
      SubsOfIs(t, subs, n - 1);
    }
  }

  lemma {:induction false} SubsOfHas(t: Table, n: nat, j: nat)
    requires j < n <= |t| && t[j] != null
    ensures t[j].fromText in SubsOf(t, n)
  {
    if j < n - 1 {
      SubsOfHas(t, n - 1, j);
    }
  }

  // The next slot's substitution is not among the earlier ones, and there are fewer of
  // those than in the whole table.
  lemma SubsOfNext(t: Table, subs: map<CString, Substitution>, n: nat)
    requires Holds(t, subs) && n < |t| && t[n] != null
    ensures t[n].fromText !in SubsOf(t, n) && |SubsOf(t, n)| < |subs|
  {
    SubsOfIs(t, subs, n);
    var have := SubsOf(t, n).Keys;
    assert have <= subs.Keys && t[n].fromText in subs.Keys - have;
    assert |subs.Keys| == |have| + |subs.Keys - have|;
    assert |SubsOf(t, n)| == |have| && |subs| == |subs.Keys|;
  }

  lemma SubsOfAll(t: Table, subs: map<CString, Substitution>)
    requires Holds(t, subs)
    ensures SubsOf(t, |t|) == subs
  {
    SubsOfIs(t, subs, |t|);
    forall s | s in subs
      ensures s in SubsOf(t, |t|)
    {
      var j :| 0 <= j < |t| && t[j] == subs[s];
      SubsOfHas(t, |t|, j);
    }
  }

  // ---------- What the module promises ----------

  // The latest replacement of s among those asked for, or s itself.
  function Latest(history: seq<(CString, CString)>, s: CString): CString {
    if history == [] then s
    else if history[|history| - 1].0 == s then history[|history| - 1].1
    else Latest(history[..|history| - 1], s)
  }

  function Replacements(history: seq<(CString, CString)>): map<CString, CString> {
    if history == [] then map[]
    else Replacements(history[..|history| - 1])[history[|history| - 1].0 := history[|history| - 1].1]
  }

  lemma {:induction false} LatestIsReplacement(history: seq<(CString, CString)>, s: CString)
    ensures Latest(history, s) == if s in Replacements(history) then Replacements(history)[s] else s
  {
    if history != [] {
      LatestIsReplacement(history[..|history| - 1], s);
    }
  }

  lemma ReplacementsAppend(history: seq<(CString, CString)>, fromText: CString, toText: CString)
    ensures Replacements(history + [(fromText, toText)]) == Replacements(history)[fromText := toText]
  {
    assert (history + [(fromText, toText)])[..|history|] == history;
  }

  // ---------- How far the counter can run ahead ----------

  // What DEH_AddToHashtable needs of the counter, the length and the occupancy.  A call from
  // DEH_AddStringReplacement (level 2) may rebuild the table; the insertions of that rebuild
  // (level 1) may rebuild it once more; the insertions of the inner rebuild (level 0) never do.
  predicate MayAdd(level: nat, entries: int, length: int, n: int) {
    match level
    case 0 => 10 * entries < 7 * length
    case 1 => 10 * entries >= 7 * length ==> 10 * (entries + n) < 14 * length + 10
    case _ => 10 * entries < 7 * length + 20
  }

  // How far one insertion moves the counter and the length.
  predicate Added(level: nat, entries0: int, length0: int, n: int, entries: int, length: int) {
    match level
    case 0 => length == length0 && entries == entries0 + 1
    case 1 => if 10 * entries0 < 7 * length0 then length == length0 && entries == entries0 + 1
              else length == 2 * length0 && entries == entries0 + n + 1
    case _ => 10 * entries < 7 * length + 20
  }

  // A rebuild that began with the counter at entries0 and has reinserted n substitutions.
  predicate Rebuilding(level: nat, entries0: int, length0: int, entries: int, length: int, n: int) {
    if level == 1 then length == 2 * length0 && entries == entries0 + n
    else
      || (length == 2 * length0 && entries == entries0 + n && (n > 0 ==> 10 * (entries - 1) < 7 * length))
      || (length == 4 * length0 && entries <= entries0 + 2 * n)
  }

  lemma RebuildingStart(level: nat, entries: int, length: int)
    ensures Rebuilding(level, entries, length, entries, 2 * length, 0)
  {}

  lemma RebuildingEnd(level: nat, entries0: int, length0: int, n0: int, entries: int, length: int)
    requires 1 <= level <= 2 && length0 >= 16 && n0 <= entries0 && 10 * entries0 >= 7 * length0
    requires MayAdd(level, entries0, length0, n0) && Rebuilding(level, entries0, length0, entries, length, n0)
    ensures level == 1 ==> length == 2 * length0 && entries == entries0 + n0
    ensures level == 2 ==> 10 * (entries + 1) < 7 * length + 20
  {}

  lemma RebuildingStep(level: nat, entries0: int, length0: int, n0: int,
                       entries: int, length: int, n: int, entries': int, length': int)
    requires 1 <= level <= 2 && length0 >= 16 && n0 <= entries0 && 10 * entries0 >= 7 * length0
    requires MayAdd(level, entries0, length0, n0) && Rebuilding(level, entries0, length0, entries, length, n)
    requires 0 <= n < n0
    ensures MayAdd(level - 1, entries, length, n)
    ensures Added(level - 1, entries, length, n, entries', length') ==>
              Rebuilding(level, entries0, length0, entries', length', n + 1)
  {}

  class HashTable {
    var table: array<Substitution?>   // hash_table
    var length: int                   // hash_table_length, -1 before the first replacement
    var entries: int                  // hash_table_entries
    ghost var subs: map<CString, Substitution>
    ghost var history: seq<(CString, CString)>   // every replacement asked for, oldest first

    constructor ()
      ensures Valid() && history == []
    {
      table := new Substitution?[0];
      length, entries, subs, history := -1, 0, map[], [];
    }

    // The table is consistent.
    ghost predicate Sound()
      reads this`table, this`length, this`entries, this`subs, table
    {
      length == table.Length && length >= 16 && |subs| <= entries && Holds(table[..], subs)
    }

    ghost predicate Valid()
      reads this, table, subs.Values
    {
      && View() == Replacements(history)
      && if length < 0 then length == -1 && subs == map[]
         else Sound() && 10 * entries < 7 * length + 20
    }

    // What the table means: a map from strings to their replacements.
    ghost function View(): map<CString, CString>
      reads this`subs, subs.Values
    {
      map s | s in subs :: subs[s].toText
    }

    // SubstitutionForString: every probe ends, at the substitution or at a free slot.
    method SubstitutionForString(s: CString) returns (sub: Substitution?)
      requires Valid()
      ensures sub == if s in subs then subs[s] else null
    {
      if length < 0 {
        return null;
      }
      hide Holds, Passed, Dist, Home, Hash;
      ghost var t := table[..];
      FewerThanSlots();
      FreeSlot(t);
      ghost var free: nat :| free < length && t[free] == null;
      var h := StrHash(s);
      var entry: nat := h % length;
      PassedStart(t, s);
      while table[entry] != null
        invariant entry < length && Passed(t, s, entry)
        decreases Dist(entry, free, length)
      {
        if table[entry].fromText == s {
          FoundAt(t, subs, s, entry);
          return table[entry];
        }
        PassedStep(t, s, entry, free);
        entry := (entry + 1) % length;
      }
      NotFound(t, subs, s, entry);
      sub := null;
    }

    lemma FewerThanSlots()
      requires Sound() && 10 * entries < 7 * length + 20
      ensures |Used(table[..])| < length
    {}

    // DEH_String: the latest replacement asked for, or the string itself.
    method DehString(s: CString) returns (r: CString)
      requires Valid()
      ensures r == Latest(history, s)
    {
      LatestIsReplacement(history, s);
      var sub := SubstitutionForString(s);
      if sub != null {
        r := sub.toText;
      } else {
        r := s;
      }
    }

    // InitHashTable
    method InitHashTable()
      requires length < 0 && Valid()
      modifies this`table, this`length, this`entries
      ensures Valid() && length == 16 && entries == 0 && fresh(table)
    {
      entries := 0;
      length := 16;
      table := new Substitution?[16](_ => null);
      assert Used(table[..]) == {};
    }

    // The probe loop of DEH_AddToHashtable.
    method FreeEntry(s: CString) returns (entry: nat)
      requires Sound() && 10 * entries < 7 * length + 20
      ensures entry < table.Length && table[entry] == null && Reachable(table[..], s, entry)
    {
      hide Holds, Reachable, Dist, Home, Hash;
      FewerThanSlots();
      ghost var t := table[..];
      FreeSlot(t);
      ghost var free: nat :| free < length && t[free] == null;
      var h := StrHash(s);
      entry := h % length;
      PassedStart(t, s);
      while table[entry] != null
        invariant entry < |t| && Reachable(t, s, entry)
        decreases Dist(entry, free, |t|)
      {
        ReachableStep(t, s, entry, free);
        entry := (entry + 1) % length;
      }
    }

    // The second half of DEH_AddToHashtable.
    method PlaceSubstitution(sub: Substitution)
      requires Sound() && sub.fromText !in subs && 10 * entries < 7 * length + 20
      modifies this`entries, this`subs, table
      ensures Sound() && subs == old(subs)[sub.fromText := sub] && entries == old(entries) + 1
    {
      hide Holds, Reachable;
      var entry := FreeEntry(sub.fromText);
      Insert(table[..], subs, entry, sub);
      ghost var t := table[..];
      table[entry] := sub;
      assert table[..] == t[entry := sub];
      entries := entries + 1;
      subs := subs[sub.fromText := sub];
    }

    // DEH_AddToHashtable: one more substitution, in a table that may have been rebuilt.
    method AddToHashtable(sub: Substitution, ghost level: nat)
      requires Sound() && sub.fromText !in subs && level <= 2 && MayAdd(level, entries, length, |subs|)
      modifies this`table, this`length, this`entries, this`subs, table
      ensures Sound() && subs == old(subs)[sub.fromText := sub] && (table == old(table) || fresh(table))
      ensures Added(level, old(entries), old(length), old(|subs|), entries, length)
      decreases level, 1
    {
      hide Holds;
      SixtyPercent(entries, length);
      if entries * 10 / length > 6 {
        IncreaseHashtable(level);
      }
      PlaceSubstitution(sub);
    }

    // IncreaseHashtable: twice the slots and the same substitutions.  The counter is not
    // reset, so that the insertions below count a second time.
    method IncreaseHashtable(ghost level: nat)
      requires Sound() && 1 <= level <= 2 && MayAdd(level, entries, length, |subs|) && 10 * entries >= 7 * length
      modifies this`table, this`length, this`entries, this`subs
      ensures Sound() && subs == old(subs) && fresh(table)
      ensures level == 1 ==> length == 2 * old(length) && entries == old(entries) + |subs|
      ensures level == 2 ==> 10 * (entries + 1) < 7 * length + 20
      decreases level, 0
    {
      hide Holds, MayAdd, Added, Rebuilding, SubsOf;
      RebuildingStart(level, entries, length);
      var oldTable := table;
      var oldLength := length;
      ghost var t := table[..];
      ghost var subs0, entries0, length0 := subs, entries, length;
      length := length * 2;
      table := new Substitution?[length](_ => null);
      subs := map[];
      EmptyHolds(table[..]);
      ghost var n0 := |subs0|;
      SubsOfStep(t, 0);
      for i := 0 to oldLength
        invariant Sound() && fresh(table) && table != oldTable && oldTable[..] == t
        invariant subs == SubsOf(t, i)
        invariant Rebuilding(level, entries0, length0, entries, length, |subs|)
      {
        SubsOfStep(t, i);
        assert oldTable[i] == t[i];
        if oldTable[i] != null {
          SubsOfNext(t, subs0, i);
          ghost var entries1, length1, n := entries, length, |subs|;
          RebuildingStep(level, entries0, length0, n0, entries, length, n, entries, length);
          AddToHashtable(oldTable[i], level - 1);
          RebuildingStep(level, entries0, length0, n0, entries1, length1, n, entries, length);
        }
      }
      SubsOfAll(t, subs0);
      RebuildingEnd(level, entries0, length0, n0, entries, length);
    }

    // The branch of DEH_AddStringReplacement for a string that has a replacement already.
    method Overwrite(sub: Substitution, toText: CString)
      requires length >= 0 && Sound() && sub.fromText in subs && subs[sub.fromText] == sub
      modifies sub
      ensures Sound() && View() == old(View())[sub.fromText := toText]
    {
      hide Reachable;
      KeysDistinct();
      sub.toText := toText;
    }

    // The other branch: a new substitution with copies of both strings.
    method AddNew(fromText: CString, toText: CString)
      requires Sound() && fromText !in subs && MayAdd(2, entries, length, |subs|)
      modifies this`table, this`length, this`entries, this`subs, table
      ensures Sound() && 10 * entries < 7 * length + 20 && (table == old(table) || fresh(table))
      ensures View() == old(View())[fromText := toText]
      ensures fresh(subs.Values - old(subs.Values))
    {
      hide Holds;
      var sub := new Substitution(fromText, toText);
      AddToHashtable(sub, 2);
    }

    // DEH_AddStringReplacement
    method AddStringReplacement(fromText: CString, toText: CString)
      requires Valid()
      modifies this, table, subs.Values
      ensures Valid() && history == old(history) + [(fromText, toText)]
      ensures (table == old(table) || fresh(table)) && fresh(subs.Values - old(subs.Values))
    {
      hide Holds, View, Replacements;
      if length < 0 {
        InitHashTable();
      }
      var sub := SubstitutionForString(fromText);
      if sub != null {
        ItsString(fromText);
        Overwrite(sub, toText);
      } else {
        AddNew(fromText, toText);
      }
      ReplacementsAppend(history, fromText, toText);
      history := history + [(fromText, toText)];
    }

    lemma ItsString(s: CString)
      requires Sound() && s in subs
      ensures subs[s].fromText == s
    {}

    // Each substitution answers for its own string only.
    lemma KeysDistinct()
      requires Sound()
      ensures forall s, r | s in subs && r in subs && s != r :: subs[s] != subs[r]
    {}
  }

  lemma SixtyPercent(entries: nat, length: nat)
    requires length > 0
    ensures entries * 10 / length > 6 <==> 10 * entries >= 7 * length
  {
    var q := entries * 10 / length;
    var r := entries * 10 % length;
    assert entries * 10 == length * q + r;
    if q <= 6 {
      assert length * q <= length * 6;
    } else {
      assert length * q >= length * 7;
    }
  }

  lemma EmptyHolds(t: Table)
    requires forall j | 0 <= j < |t| :: t[j] == null
    ensures Holds(t, map[])
  {
    assert Used(t) == {};
  }
}
