// i_sdlsound.c: the cache of expanded sound effects.  A doubly linked list from the most to
// the least recently used sound, a count of locks on each, a byte budget, and sixteen mixer
// channels that point into it.
module SoundCache {

  const NUM_CHANNELS: nat := 16
  const NORM_PITCH: int := 127

  type byte = b: int | 0 <= b < 256

  type SfxInfo = int   // the identity of an sfxinfo_t

  // allocated_sound_t
  class Sound {
    const sfxinfo: SfxInfo
    const alen: nat
    var pitch: int
    var useCount: int
    var prev: Sound?
    var next: Sound?

    constructor (sfxinfo: SfxInfo, alen: nat)
      ensures this.sfxinfo == sfxinfo && this.alen == alen && pitch == NORM_PITCH && useCount == 0
    {
      this.sfxinfo, this.alen := sfxinfo, alen;
      pitch, useCount, prev, next := NORM_PITCH, 0, null, null;
    }
  }

  // ---------- The cache as a value: most recently used first ----------

  // `stamp` is the time of the last lock, or of the allocation.
  datatype Entry = Entry(snd: Sound, pitch: int, uses: int, stamp: nat)

  type Lru = seq<Entry>

  function Without(lru: Lru, k: nat): (r: Lru)
    requires k < |lru|
  {
    lru[..k] + lru[k + 1..]
  }

  function IndexOf(lru: Lru, snd: Sound): (k: int)
    ensures -1 <= k < |lru|
    ensures k >= 0 ==> lru[k].snd == snd
    ensures k < 0 ==> forall i | 0 <= i < |lru| :: lru[i].snd != snd
  {
    if lru == [] then -1
    else if lru[0].snd == snd then 0
    else var k := IndexOf(lru[1..], snd); if k < 0 then -1 else k + 1
  }

  // The first sound of the list made from `sfxinfo` at `pitch`.
  function Lookup(lru: Lru, sfxinfo: SfxInfo, pitch: int): (k: int)
    ensures -1 <= k < |lru|
    ensures k >= 0 ==> lru[k].snd.sfxinfo == sfxinfo && lru[k].pitch == pitch
    ensures forall i | 0 <= i < (if k < 0 then |lru| else k) :: lru[i].snd.sfxinfo != sfxinfo || lru[i].pitch != pitch
  {
    if lru == [] then -1
    else if lru[0].snd.sfxinfo == sfxinfo && lru[0].pitch == pitch then 0
    else var k := Lookup(lru[1..], sfxinfo, pitch); if k < 0 then -1 else k + 1
  }

  function SumLen(lru: Lru): nat {
    if lru == [] then 0 else lru[0].snd.alen + SumLen(lru[1..])
  }

  lemma {:induction false} SumLenWithout(lru: Lru, k: nat)
    requires k < |lru|
    ensures SumLen(Without(lru, k)) == SumLen(lru) - lru[k].snd.alen
  {
    if k == 0 {
      assert Without(lru, 0) == lru[1..];
    } else {
      SumLenWithout(lru[1..], k - 1);
      assert Without(lru, k)[1..] == Without(lru[1..], k - 1);
    }
  }

  ghost predicate Distinct(lru: Lru) {
    forall i, j | 0 <= i < j < |lru| :: lru[i].snd != lru[j].snd
  }

  // Every sound was used more recently than those after it.
  ghost predicate Recent(lru: Lru, now: nat) {
    && (forall i, j | 0 <= i < j < |lru| :: lru[i].stamp > lru[j].stamp)
    && (forall i | 0 <= i < |lru| :: lru[i].stamp < now)
  }

  // How many channels play a sound.
  function Playing(channels: seq<Sound?>, snd: Sound): nat {
    if channels == [] then 0 else (if channels[0] == snd then 1 else 0) + Playing(channels[1..], snd)
  }

  lemma {:induction false} PlayingUpdate(channels: seq<Sound?>, c: nat, x: Sound?, snd: Sound)
    requires c < |channels|
    ensures Playing(channels[c := x], snd) ==
            Playing(channels, snd) - (if channels[c] == snd then 1 else 0) + (if x == snd then 1 else 0)
  {
    if c > 0 {
      PlayingUpdate(channels[1..], c - 1, x, snd);
      assert channels[c := x][1..] == channels[1..][c - 1 := x];
    }
  }

  lemma {:induction false} PlayingSome(channels: seq<Sound?>, snd: Sound)
    requires snd in channels
    ensures Playing(channels, snd) > 0
  {
    if channels[0] != snd {
      PlayingSome(channels[1..], snd);
    }
  }

  // Every playing sound is in the list, and the count of each sound is made up of the channels
  // that play it and the locks of `held`, which no channel will give back.
  ghost predicate Counted(lru: Lru, channels: seq<Sound?>, held: multiset<Sound>) {
    && (forall c | 0 <= c < |channels| && channels[c] != null :: IndexOf(lru, channels[c]) >= 0)
    && (forall snd | snd in held :: IndexOf(lru, snd) >= 0)
    && (forall e | e in lru :: e.uses == Playing(channels, e.snd) + held[e.snd])
  }

  // A pitch-shifted sound lives only as long as it is locked.
  ghost predicate ShiftedInUse(lru: Lru) {
    forall e | e in lru && e.pitch != NORM_PITCH :: e.uses > 0
  }

  // ---------- Which sound goes first ----------

  // The least recently used sound that nothing locks, or -1.
  function LastUnlocked(lru: Lru): (k: int)
    ensures -1 <= k < |lru|
    ensures k >= 0 ==> lru[k].uses == 0
    ensures forall i | k < i < |lru| :: lru[i].uses != 0
  {
    if lru == [] then -1
    else if lru[|lru| - 1].uses == 0 then |lru| - 1
    else LastUnlocked(lru[..|lru| - 1])
  }

  // The list after the m least recently used unlocked sounds were freed.
  function Evicted(lru: Lru, m: nat): Lru {
    if m == 0 then lru else
      var l := Evicted(lru, m - 1);
      if LastUnlocked(l) < 0 then l else Without(l, LastUnlocked(l))
  }

  lemma EvictedNext(lru: Lru, m: nat)
    ensures var l := Evicted(lru, m); var k := LastUnlocked(l);
            Evicted(lru, m + 1) == if k < 0 then l else Without(l, k)
    ensures var l := Evicted(lru, m); var k := LastUnlocked(l);
            k >= 0 ==> |Evicted(lru, m + 1)| < |l| && SumLen(Evicted(lru, m + 1)) <= SumLen(l)
  {
    var l := Evicted(lru, m);
    if LastUnlocked(l) >= 0 {
      SumLenWithout(l, LastUnlocked(l));
    }
  }

  lemma EvictedNone(lru: Lru)
    ensures Evicted(lru, 0) == lru
  {}

  lemma RecentWithout(lru: Lru, now: nat, k: nat)
    requires k < |lru| && Recent(lru, now)
    ensures Recent(Without(lru, k), now)
  {}

  lemma EvictStep(l: Lru, now: nat)
    requires Recent(l, now) && LastUnlocked(l) >= 0
    ensures var k := LastUnlocked(l);
            && (forall e | e in l :: e == l[k] || e in Without(l, k))
            && (forall e | e in Without(l, k) :: e in l)
            && (forall f | f in Without(l, k) && f.uses == 0 :: l[k].stamp < f.stamp)
  {
    hide LastUnlocked;
    var k := LastUnlocked(l);
    var r := Without(l, k);
    forall e | e in l ensures e == l[k] || e in r {
      var i :| 0 <= i < |l| && l[i] == e;
      if i < k {
        assert r[i] == e;
      } else if i > k {
        assert r[i - 1] == e;
      }
    }
    forall f | f in r ensures f in l && (f.uses == 0 ==> l[k].stamp < f.stamp) {
      var i :| 0 <= i < |r| && r[i] == f;
      assert f == l[if i < k then i else i + 1];
    }
  }

  // Eviction frees unlocked sounds only, and every sound it frees was used before every
  // unlocked sound that it keeps.
  lemma {:induction false} EvictedAreOldest(lru: Lru, now: nat, m: nat)
    requires Recent(lru, now)
    ensures Recent(Evicted(lru, m), now)
    ensures forall e | e in Evicted(lru, m) :: e in lru
    ensures forall e | e in lru && e.uses != 0 :: e in Evicted(lru, m)
    ensures forall e, f | e in lru && e !in Evicted(lru, m) && f in Evicted(lru, m) && f.uses == 0 :: e.stamp < f.stamp
  {
    hide Recent, LastUnlocked, Without;
    if m > 0 {
      EvictedAreOldest(lru, now, m - 1);
      var l := Evicted(lru, m - 1);
      if LastUnlocked(l) >= 0 {
        EvictStep(l, now);
        RecentWithout(l, now, LastUnlocked(l));
      }
    }
  }

  // ---------- The pure invariants, step by step ----------

  lemma DistinctIndex(lru: Lru, k: nat)
    requires k < |lru| && Distinct(lru)
    ensures IndexOf(lru, lru[k].snd) == k
  {}

  lemma InWithout(lru: Lru, k: nat, snd: Sound)
    requires k < |lru| && Distinct(lru)
    ensures IndexOf(Without(lru, k), snd) >= 0 <==> IndexOf(lru, snd) >= 0 && snd != lru[k].snd
  {
    var r := Without(lru, k);
    var i := IndexOf(lru, snd);
    if i >= 0 && i != k {
      assert (if i < k then r[i] else r[i - 1]) in r;
    }
    if IndexOf(r, snd) >= 0 {
      assert r[IndexOf(r, snd)] in lru;
    }
  }

  lemma CountedWithout(lru: Lru, k: nat, channels: seq<Sound?>, held: multiset<Sound>)
    requires k < |lru| && Distinct(lru) && Counted(lru, channels, held) && lru[k].uses <= 0
    ensures Distinct(Without(lru, k)) && Counted(Without(lru, k), channels, held)
  {
    forall c | 0 <= c < |channels| && channels[c] != null ensures IndexOf(Without(lru, k), channels[c]) >= 0 {
      PlayingSome(channels, channels[c]);
      InWithout(lru, k, channels[c]);
    }
    forall snd | snd in held ensures IndexOf(Without(lru, k), snd) >= 0 {
      InWithout(lru, k, snd);
    }
  }

  // A new sound at the head.
  lemma CountedNew(e: Entry, lru: Lru, channels: seq<Sound?>, held: multiset<Sound>)
    requires Distinct(lru) && Counted(lru, channels, held) && e.uses == 0 && IndexOf(lru, e.snd) < 0
    ensures Distinct([e] + lru) && Counted([e] + lru, channels, held)
  {
    var r := [e] + lru;
    assert r[1..] == lru;
    assert forall c | 0 <= c < |channels| && channels[c] != null :: channels[c] != e.snd;
    NotPlaying(channels, e.snd);
  }

  lemma {:induction false} NotPlaying(channels: seq<Sound?>, snd: Sound)
    requires snd !in channels
    ensures Playing(channels, snd) == 0
  {
    if channels != [] {
      NotPlaying(channels[1..], snd);
    }
  }

  // LockAllocatedSound: one more lock, and the sound becomes the most recently used.
  function Locked(lru: Lru, k: nat, now: nat): Lru
    requires k < |lru|
  {
    [lru[k].(uses := lru[k].uses + 1, stamp := now)] + Without(lru, k)
  }

  lemma InLocked(lru: Lru, k: nat, now: nat, snd: Sound)
    requires k < |lru| && Distinct(lru)
    ensures Distinct(Locked(lru, k, now))
    ensures IndexOf(Locked(lru, k, now), snd) >= 0 <==> IndexOf(lru, snd) >= 0
  {
    var r := Locked(lru, k, now);
    assert r[1..] == Without(lru, k);
    InWithout(lru, k, snd);
    if snd == lru[k].snd {
      DistinctIndex(lru, k);
    }
  }

  lemma CountedLock(lru: Lru, k: nat, now: nat, channels: seq<Sound?>, held: multiset<Sound>)
    requires k < |lru| && Distinct(lru) && Counted(lru, channels, held)
    ensures Distinct(Locked(lru, k, now)) && Counted(Locked(lru, k, now), channels, held + multiset{lru[k].snd})
  {
    hide IndexOf, Distinct, Playing;
    var r := Locked(lru, k, now);
    forall snd: Sound ensures Distinct(r) && (IndexOf(r, snd) >= 0 <==> IndexOf(lru, snd) >= 0) {
      InLocked(lru, k, now, snd);
    }
    DistinctIndex(lru, k);
    forall e | e in r ensures e.uses == Playing(channels, e.snd) + (held + multiset{lru[k].snd})[e.snd] {
      assert lru[k] in lru;
      var i :| 0 <= i < |r| && r[i] == e;
      if i > 0 {
        var j := if i - 1 < k then i - 1 else i;
        assert e == lru[j];
        assert e.snd != lru[k].snd by { DistinctIndex(lru, j); }
      }
    }
  }

  lemma RecentNew(e: Entry, lru: Lru, now: nat)
    requires Recent(lru, now) && e.stamp == now
    ensures Recent([e] + lru, now + 1)
  {}

  lemma StoredLock(lru: Lru, k: nat, now: nat)
    requires k < |lru| && Distinct(lru) && Recent(lru, now)
    ensures Recent(Locked(lru, k, now), now + 1) && SumLen(Locked(lru, k, now)) == SumLen(lru)
    ensures IndexOf(Without(lru, k), lru[k].snd) < 0
  {
    hide Recent, Distinct, IndexOf, Without;
    InWithout(lru, k, lru[k].snd);
    SumLenWithout(lru, k);
    RecentWithout(lru, now, k);
    RecentNew(lru[k].(uses := lru[k].uses + 1, stamp := now), Without(lru, k), now);
    assert Locked(lru, k, now)[1..] == Without(lru, k);
  }

  lemma CountedUnlock(lru: Lru, k: nat, channels: seq<Sound?>, held: multiset<Sound>)
    requires k < |lru| && Distinct(lru) && Counted(lru, channels, held) && lru[k].snd in held
    ensures lru[k].uses > 0
    ensures var r := lru[k := lru[k].(uses := lru[k].uses - 1)];
            Distinct(r) && Counted(r, channels, held - multiset{lru[k].snd})
  {
    var r := lru[k := lru[k].(uses := lru[k].uses - 1)];
    assert lru[k] in lru;
    forall snd | IndexOf(lru, snd) >= 0 ensures IndexOf(r, snd) >= 0 {
      assert r[IndexOf(lru, snd)] in r;
    }
  }

  // A held lock becomes that of a channel.
  lemma CountedPlay(lru: Lru, channels: seq<Sound?>, held: multiset<Sound>, c: nat, snd: Sound)
    requires c < |channels| && channels[c] == null && Counted(lru, channels, held) && snd in held
    ensures Counted(lru, channels[c := snd], held - multiset{snd})
  {
    forall e | e in lru ensures e.uses == Playing(channels[c := snd], e.snd) + (held - multiset{snd})[e.snd] {
      PlayingUpdate(channels, c, snd, e.snd);
    }
  }

  // The lock of a channel becomes a held one.
  lemma CountedHalt(lru: Lru, channels: seq<Sound?>, held: multiset<Sound>, c: nat)
    requires c < |channels| && channels[c] != null && Counted(lru, channels, held)
    ensures Counted(lru, channels[c := null], held + multiset{channels[c]})
  {
    var snd := channels[c];
    forall e | e in lru ensures e.uses == Playing(channels[c := null], e.snd) + (held + multiset{snd})[e.snd] {
      PlayingUpdate(channels, c, null, e.snd);
    }
  }

  lemma {:induction false} EvictedCounted(lru: Lru, m: nat, channels: seq<Sound?>, held: multiset<Sound>)
    requires Distinct(lru) && Counted(lru, channels, held)
    ensures Distinct(Evicted(lru, m)) && Counted(Evicted(lru, m), channels, held)
  {
    hide Distinct, Counted, LastUnlocked, Without;
    if m > 0 {
      EvictedCounted(lru, m - 1, channels, held);
      var l := Evicted(lru, m - 1);
      if LastUnlocked(l) >= 0 {
        CountedWithout(l, LastUnlocked(l), channels, held);
      }
    }
  }

  // A lock that no channel will give back keeps its sound in the cache for good.
  lemma HeldIsNeverEvicted(lru: Lru, m: nat, channels: seq<Sound?>, held: multiset<Sound>, snd: Sound)
    requires Distinct(lru) && Counted(lru, channels, held) && snd in held
    ensures IndexOf(Evicted(lru, m), snd) >= 0
  {
    hide Distinct, Evicted, IndexOf;
    EvictedCounted(lru, m, channels, held);
  }

  // So does a channel that plays it.
  lemma PlayingIsNeverEvicted(lru: Lru, m: nat, channels: seq<Sound?>, held: multiset<Sound>, snd: Sound)
    requires Distinct(lru) && Counted(lru, channels, held) && snd in channels
    ensures IndexOf(Evicted(lru, m), snd) >= 0
  {
    hide Distinct, Evicted, IndexOf;
    EvictedCounted(lru, m, channels, held);
  }

  // Eviction touches no pitch-shifted sound.
  lemma EvictedShifted(lru: Lru, now: nat, m: nat, sfxinfo: SfxInfo, pitch: int)
    requires Recent(lru, now) && ShiftedInUse(lru)
    ensures ShiftedInUse(Evicted(lru, m))
    ensures pitch != NORM_PITCH ==> (Lookup(Evicted(lru, m), sfxinfo, pitch) >= 0 <==> Lookup(lru, sfxinfo, pitch) >= 0)
  {
    hide Recent, Evicted, Lookup;
    EvictedAreOldest(lru, now, m);
    var r := Evicted(lru, m);
    if pitch != NORM_PITCH {
      if Lookup(lru, sfxinfo, pitch) >= 0 {
        assert lru[Lookup(lru, sfxinfo, pitch)] in r;
      }
      if Lookup(r, sfxinfo, pitch) >= 0 {
        assert r[Lookup(r, sfxinfo, pitch)] in lru;
      }
    }
  }

  lemma EvictedKeepsLocked(lru: Lru, now: nat, m: nat)
    requires Recent(lru, now)
    ensures forall e | e in lru && e.uses != 0 :: e in Evicted(lru, m)
  {
    EvictedAreOldest(lru, now, m);
  }

  // The list once the channel that played `snd` has let go of it.
  function Released(lru: Lru, snd: Sound?): Lru {
    if snd == null then lru else
      var k := IndexOf(lru, snd);
      if k < 0 then lru
      else if lru[k].pitch != NORM_PITCH && lru[k].uses <= 1 then Without(lru, k)
      else lru[k := lru[k].(uses := lru[k].uses - 1)]
  }

  lemma UpdateKeeps(lru: Lru, k: nat, delta: int, now: nat)
    requires k < |lru| && Recent(lru, now)
    ensures var r := lru[k := lru[k].(uses := lru[k].uses + delta)];
            Recent(r, now) && SumLen(r) == SumLen(lru)
  {
    SumLenUpdate(lru, k, delta);
  }

  lemma {:induction false} SumLenUpdate(lru: Lru, k: nat, delta: int)
    requires k < |lru|
    ensures SumLen(lru[k := lru[k].(uses := lru[k].uses + delta)]) == SumLen(lru)
  {
    var r := lru[k := lru[k].(uses := lru[k].uses + delta)];
    if k > 0 {
      SumLenUpdate(lru[1..], k - 1, delta);
      assert r[1..] == lru[1..][k - 1 := lru[k].(uses := lru[k].uses + delta)];
    } else {
      assert r[1..] == lru[1..];
    }
  }

  lemma CountedPlaying(lru: Lru, channels: seq<Sound?>, held: multiset<Sound>, c: nat)
    requires Counted(lru, channels, held) && c < |channels| && channels[c] != null
    ensures IndexOf(lru, channels[c]) >= 0 && lru[IndexOf(lru, channels[c])].uses > 0
  {
    assert lru[IndexOf(lru, channels[c])] in lru;
    PlayingSome(channels, channels[c]);
  }

  lemma HeldIsThere(lru: Lru, channels: seq<Sound?>, held: multiset<Sound>, snd: Sound)
    requires Counted(lru, channels, held) && snd in held
    ensures IndexOf(lru, snd) >= 0
  {}

  lemma CountedPitch(lru: Lru, pitch: int, now: nat, channels: seq<Sound?>, held: multiset<Sound>, snd: Sound)
    requires |lru| > 0 && Distinct(lru) && Recent(lru, now) && Counted(lru, channels, held) && IndexOf(lru, snd) >= 0
    ensures var r := lru[0 := lru[0].(pitch := pitch)];
            && Distinct(r) && Recent(r, now) && Counted(r, channels, held) && SumLen(r) == SumLen(lru)
            && IndexOf(r, snd) >= 0
  {
    var r := lru[0 := lru[0].(pitch := pitch)];
    assert r[1..] == lru[1..];
    forall snd | IndexOf(lru, snd) >= 0 ensures IndexOf(r, snd) >= 0 {
      assert r[IndexOf(lru, snd)].snd == snd;
    }
    forall e | e in r ensures e.uses == Playing(channels, e.snd) + held[e.snd] {
      var i :| 0 <= i < |r| && r[i] == e;
      assert lru[i] in lru;
    }
  }

  // The header of a sound lump: the tag 3, a sample rate, and a length that the lump can hold.
  predicate IsSoundLump(lump: seq<byte>) {
    && |lump| >= 8 && lump[0] == 3 && lump[1] == 0
    && var length := lump[7] as int * 0x100_0000 + lump[6] as int * 0x1_0000 + lump[5] as int * 0x100 + lump[4] as int;
    length <= |lump| - 8 && length > 48
  }

  ghost predicate SameShifted(lru: Lru, r: Lru, sfxinfo: SfxInfo) {
    forall p | p != NORM_PITCH :: Lookup(r, sfxinfo, p) >= 0 <==> Lookup(lru, sfxinfo, p) >= 0
  }

  lemma CacheKeepsShifted(lru: Lru, now: nat, m: nat, r: Lru, sfxinfo: SfxInfo, ok: bool)
    requires Recent(lru, now) && ShiftedInUse(lru)
    requires if ok then |r| > 0 && r == [Entry(r[0].snd, NORM_PITCH, 0, now)] + Evicted(lru, m)
        && r[0].snd.sfxinfo == sfxinfo
             else r == Evicted(lru, m)
    ensures SameShifted(lru, r, sfxinfo) && (ok ==> Lookup(r, sfxinfo, NORM_PITCH) == 0)
  {
    hide Recent, Evicted;
    forall p | p != NORM_PITCH ensures Lookup(r, sfxinfo, p) >= 0 <==> Lookup(lru, sfxinfo, p) >= 0 {
      EvictedShifted(lru, now, m, sfxinfo, p);
      assert ok ==> r[1..] == Evicted(lru, m);
    }
  }

  lemma CountedNonNegative(lru: Lru, k: nat, channels: seq<Sound?>, held: multiset<Sound>)
    requires k < |lru| && Counted(lru, channels, held)
    ensures lru[k].uses >= 0 && (lru[k].snd in held ==> lru[k].uses > 0)
  {
    assert lru[k] in lru;
  }

  // Locking the new copy at the head and giving back the lock of the original.
  lemma Swapped(lru: Lru, now: nat, e: Entry)
    requires |lru| > 0 && Distinct(lru) && lru[0].uses == 0 && ShiftedInUse(lru[1..])
    requires e in lru[1..] && e.pitch == NORM_PITCH
    ensures var r := Locked(lru, 0, now); var k := IndexOf(r, e.snd);
            && k > 0 && r[k] == e && r[0].snd == lru[0].snd && r[0].pitch == lru[0].pitch
            && ShiftedInUse(r[k := e.(uses := e.uses - 1)])
            && IndexOf(r[k := e.(uses := e.uses - 1)], lru[0].snd) == 0
  {
    hide IndexOf;
    var r := Locked(lru, 0, now);
    assert r == [lru[0].(uses := 1, stamp := now)] + lru[1..];
    var i :| 0 <= i < |lru| - 1 && lru[1..][i] == e;
    assert r[i + 1] == e;
    var k := IndexOf(r, e.snd);
    assert k >= 0;
    assert k == i + 1 by { InLocked(lru, 0, now, e.snd); }
    var s := r[k := e.(uses := e.uses - 1)];
    forall f | f in s && f.pitch != NORM_PITCH ensures f.uses > 0 {
      var j :| 0 <= j < |s| && s[j] == f;
      if j > 0 && j != k {
        assert f == lru[1..][j - 1];
      }
    }
    assert s[0].snd == lru[0].snd;
    FirstIndex(s);
  }

  lemma EntryIndex(lru: Lru, e: Entry)
    requires Distinct(lru) && e in lru
    ensures IndexOf(lru, e.snd) >= 0 && lru[IndexOf(lru, e.snd)] == e
  {}

  lemma FirstIndex(lru: Lru)
    requires |lru| > 0
    ensures IndexOf(lru, lru[0].snd) == 0
  {}

  lemma LockedShifted(lru: Lru, k: nat, now: nat)
    requires k < |lru| && ShiftedInUse(lru) && lru[k].uses >= 0
    ensures ShiftedInUse(Locked(lru, k, now))
  {
    var r := Locked(lru, k, now);
    forall e | e in r && e.pitch != NORM_PITCH ensures e.uses > 0 {
      var i :| 0 <= i < |r| && r[i] == e;
      if i > 0 {
        assert r[i] == lru[if i - 1 < k then i - 1 else i];
        assert e in lru;
      }
    }
  }

  lemma LockKeepsShifted(lru: Lru, k: nat, now: nat, sfxinfo: SfxInfo)
    requires k < |lru| && lru[k].pitch == NORM_PITCH && ShiftedInUse(lru)
    ensures SameShifted(lru, Locked(lru, k, now), sfxinfo) && ShiftedInUse(Locked(lru, k, now))
  {
    hide Lookup;
    var r := Locked(lru, k, now);
    forall p | p != NORM_PITCH ensures Lookup(r, sfxinfo, p) >= 0 <==> Lookup(lru, sfxinfo, p) >= 0 {
      var i, j := Lookup(lru, sfxinfo, p), Lookup(r, sfxinfo, p);
      if i >= 0 {
        assert r[if i < k then i + 1 else i] == lru[i];
      }
      if j > 0 {
        assert r[j] == lru[if j - 1 < k then j - 1 else j];
      }
    }
    forall e | e in r && e.pitch != NORM_PITCH ensures e.uses > 0 {
      var i :| 0 <= i < |r| && r[i] == e;
      assert r[i] == lru[if i - 1 < k then i - 1 else i];
      assert e in lru;
    }
  }

  lemma LookupHead(lru: Lru, sfxinfo: SfxInfo)
    requires |lru| > 0 && lru[0].snd.sfxinfo == sfxinfo && lru[0].pitch == NORM_PITCH
    ensures Lookup(lru, sfxinfo, NORM_PITCH) == 0
  {}

  // The sound at position i holds what the list says, and its pointers lead to its neighbours.
  ghost predicate Node(lru: Lru, i: nat)
    requires i < |lru|
    reads lru[i].snd
  {
    var snd := lru[i].snd;
    && snd.prev == (if i == 0 then null else lru[i - 1].snd)
    && snd.next == (if i + 1 == |lru| then null else lru[i + 1].snd)
    && snd.pitch == lru[i].pitch && snd.useCount == lru[i].uses
  }

  class Cache {
    var head: Sound?
    var tail: Sound?
    var size: int                      // allocated_sounds_size
    const cacheSize: int               // snd_cachesize
    const channels: array<Sound?>      // channels_playing
    ghost var lru: Lru                 // the list, from head to tail
    ghost var sounds: set<Sound>       // every sound ever linked
    ghost var now: nat
    ghost var held: multiset<Sound>

    constructor (cacheSize: int)
      ensures Valid() && lru == [] && this.cacheSize == cacheSize && fresh(channels) && held == multiset{}
    {
      head, tail, size := null, null, 0;
      this.cacheSize := cacheSize;
      channels := new Sound?[NUM_CHANNELS](_ => null);
      lru, sounds, now, held := [], {}, 0, multiset{};
    }

    // The pointers are those of a doubly linked list, and it holds what `lru` says.
    ghost predicate Linked()
      reads this`head, this`tail, this`lru, this`sounds, sounds
    {
      && Distinct(lru)
      && head == (if lru == [] then null else lru[0].snd)
      && tail == (if lru == [] then null else lru[|lru| - 1].snd)
      && (forall i | 0 <= i < |lru| :: lru[i].snd in sounds)
      && (forall i | 0 <= i < |lru| :: Node(lru, i))
    }

    ghost predicate Stored()
      reads this`head, this`tail, this`lru, this`sounds, this`now, this`size, sounds
    {
      Linked() && Recent(lru, now) && size == SumLen(lru)
    }

    ghost predicate Cached()
      reads this, sounds, channels
    {
      Stored() && channels.Length == NUM_CHANNELS && Counted(lru, channels[..], held)
    }

    ghost predicate Valid()
      reads this, sounds, channels
    {
      channels.Length == NUM_CHANNELS && Cached() && ShiftedInUse(lru)
    }

    // AllocatedSoundLink
    method AllocatedSoundLink(snd: Sound)
      requires Linked() && IndexOf(lru, snd) < 0
      modifies this`head, this`tail, this`lru, this`sounds, this`now, snd`prev, snd`next, sounds`prev
      ensures Linked() && lru == [Entry(snd, snd.pitch, snd.useCount, old(now))] + old(lru)
      ensures now == old(now) + 1 && sounds == old(sounds) + {snd}
    {
      hide IndexOf;
      ghost var was := lru;
      assert was != [] ==> Node(was, 0);
      snd.prev := null;
      snd.next := head;
      head := snd;
      if tail == null {
        tail := snd;
      } else {
        snd.next.prev := snd;
      }
      lru := [Entry(snd, snd.pitch, snd.useCount, now)] + lru;
      now, sounds := now + 1, sounds + {snd};
      forall i | 0 <= i < |lru| ensures Node(lru, i) {
        if i > 0 {
          assert lru[i] == was[i - 1] && old(Node(was, i - 1));
        }
      }
    }

    // AllocatedSoundUnlink
    method AllocatedSoundUnlink(snd: Sound, ghost k: nat)
      requires Linked() && k < |lru| && lru[k].snd == snd
      modifies this`head, this`tail, this`lru, sounds`prev, sounds`next
      ensures Linked() && lru == Without(old(lru), k)
    {
      ghost var was := lru;
      assert Node(was, k);
      if snd.prev == null {
        head := snd.next;
      } else {
        snd.prev.next := snd.next;
      }
      if snd.next == null {
        tail := snd.prev;
      } else {
        snd.next.prev := snd.prev;
      }
      lru := Without(lru, k);
      forall i | 0 <= i < |lru| ensures Node(lru, i) {
        ghost var j := if i < k then i else i + 1;
        assert lru[i] == was[j] && old(Node(was, j));
        assert i > 0 ==> lru[i - 1] == was[if i - 1 < k then i - 1 else i];
        assert i + 1 < |lru| ==> lru[i + 1] == was[if i + 1 < k then i + 1 else i + 2];
      }
    }

    method FreeAllocatedSound(snd: Sound, ghost k: nat)
      requires Stored() && k < |lru| && lru[k].snd == snd
      modifies this`head, this`tail, this`lru, this`size, sounds`prev, sounds`next
      ensures Stored() && lru == Without(old(lru), k)
    {
      SumLenWithout(lru, k);
      RecentWithout(lru, now, k);
      AllocatedSoundUnlink(snd, k);
      size := size - snd.alen;
    }

    // Frees the least recently used sound that nothing locks, if there is one.
    method FindAndFreeSound() returns (found: bool)
      requires Stored()
      modifies this`head, this`tail, this`lru, this`size, sounds`prev, sounds`next
      ensures Stored() && found == (LastUnlocked(old(lru)) >= 0)
      ensures lru == if found then Without(old(lru), LastUnlocked(old(lru))) else old(lru)
    {
      var snd, k := FindUnlocked();
      if snd != null {
        FreeAllocatedSound(snd, k);
        return true;
      }
      return false;
    }

    // Its search, from the tail backwards.
    method FindUnlocked() returns (snd: Sound?, ghost k: int)
      requires Linked()
      ensures k == LastUnlocked(lru)
      ensures snd == if LastUnlocked(lru) < 0 then null else lru[LastUnlocked(lru)].snd
    {
      snd, k := tail, |lru| - 1;
      while snd != null
        invariant -1 <= k < |lru| && snd == (if k < 0 then null else lru[k].snd)
        invariant forall i | k < i < |lru| :: lru[i].uses != 0
        decreases k
      {
        assert Node(lru, k);
        if snd.useCount == 0 {
          return;
        }
        snd, k := snd.prev, k - 1;
      }
    }

    // Frees sounds until `len` more bytes fit the budget, and no more of them than that takes.
    method ReserveCacheSpace(len: nat) returns (ghost m: nat)
      requires Stored()
      modifies this`head, this`tail, this`lru, this`size, sounds`prev, sounds`next
      ensures Stored() && lru == Evicted(old(lru), m)
      ensures cacheSize <= 0 ==> m == 0
      ensures cacheSize > 0 ==> size + len <= cacheSize || LastUnlocked(lru) < 0
      ensures m > 0 ==> SumLen(Evicted(old(lru), m - 1)) + len > cacheSize
    {
      hide Evicted, LastUnlocked, Without, SumLen, Cache.Linked, Recent;
      m := 0;
      EvictedNone(lru);
      if cacheSize <= 0 {
        return;
      }
      while size + len > cacheSize
        invariant Stored() && lru == Evicted(old(lru), m)
        invariant m > 0 ==> SumLen(Evicted(old(lru), m - 1)) + len > cacheSize
        decreases |lru|
      {
        EvictedNext(old(lru), m);
        var found := FindAndFreeSound();
        if !found {
          break;
        }
        m := m + 1;
      }
    }

    // The part of AllocateSound that asks for memory.
    method MakeRoom(len: nat) returns (granted: bool, ghost m: nat)
      requires Stored()
      modifies this`head, this`tail, this`lru, this`size, sounds`prev, sounds`next
      ensures Stored() && lru == Evicted(old(lru), m)
      ensures granted ==> cacheSize > 0 ==> size + len <= cacheSize || LastUnlocked(lru) < 0
      ensures !granted ==> LastUnlocked(lru) < 0
    {
      hide Evicted, LastUnlocked, Without, SumLen, Cache.Linked, Recent;
      m := ReserveCacheSpace(len);
      granted := *;   // whether malloc succeeds
      while !granted
        invariant Stored() && lru == Evicted(old(lru), m)
        invariant cacheSize > 0 ==> size + len <= cacheSize || LastUnlocked(lru) < 0
        decreases |lru|, !granted
      {
        EvictedNext(old(lru), m);
        var found := FindAndFreeSound();
        if !found {
          return;
        }
        m := m + 1;
        granted := *;
      }
    }

    // A new block; null when memory runs out although everything unlocked has been freed.
    method AllocateSound(sfxinfo: SfxInfo, len: nat) returns (snd: Sound?, ghost m: nat)
      requires Cached()
      modifies this`head, this`tail, this`lru, this`size, this`sounds, this`now, sounds`prev, sounds`next
      ensures Cached() && fresh(sounds - old(sounds))
      ensures snd == null ==> lru == Evicted(old(lru), m) && LastUnlocked(lru) < 0
      ensures snd != null ==> fresh(snd) && snd.sfxinfo == sfxinfo && snd.alen == len
      ensures snd != null ==> lru == [Entry(snd, NORM_PITCH, 0, old(now))] + Evicted(old(lru), m)
      ensures snd != null && cacheSize > 0 ==> size <= cacheSize || LastUnlocked(Evicted(old(lru), m)) < 0
    {
      hide Counted, Distinct, IndexOf, Recent, Evicted, LastUnlocked, Without;
      ghost var was := lru;
      var granted;
      granted, m := MakeRoom(len);
      EvictedCounted(was, m, channels[..], held);
      if !granted {
        return null, m;
      }
      snd := new Sound(sfxinfo, len);
      size := size + len;
      assert IndexOf(lru, snd) < 0;
      CountedNew(Entry(snd, NORM_PITCH, 0, now), lru, channels[..], held);
      RecentNew(Entry(snd, NORM_PITCH, 0, now), lru, now);
      ghost var kept := lru;
      AllocatedSoundLink(snd);
      assert lru[1..] == kept;
    }

    // ++snd->use_count or --snd->use_count
    method CountUse(snd: Sound, ghost k: nat, delta: int)
      requires Linked() && k < |lru| && lru[k].snd == snd
      modifies this`lru, snd`useCount
      ensures Linked() && lru == old(lru)[k := old(lru[k]).(uses := old(lru[k]).uses + delta)]
    {
      ghost var was := lru;
      assert Node(was, k);
      snd.useCount := snd.useCount + delta;
      lru := lru[k := lru[k].(uses := lru[k].uses + delta)];
      forall i | 0 <= i < |lru| ensures Node(lru, i) {
        assert old(Node(was, i));
      }
    }

    method LockAllocatedSound(snd: Sound, ghost k: nat)
      requires Cached() && k < |lru| && lru[k].snd == snd
      modifies this`head, this`tail, this`lru, this`sounds, this`now, this`held, sounds`prev, sounds`next, snd`useCount
      ensures Cached() && sounds == old(sounds)
      ensures lru == Locked(old(lru), k, old(now)) && held == old(held) + multiset{snd}
    {
      hide Counted, IndexOf, SumLen, Distinct, Recent;
      CountedLock(lru, k, now, channels[..], held);
      StoredLock(lru, k, now);
      ghost var was := lru;
      CountUse(snd, k, 1);
      assert Without(lru, k) == Without(was, k);
      assert Node(lru, k);
      AllocatedSoundUnlink(snd, k);
      AllocatedSoundLink(snd);
      held := held + multiset{snd};
    }

    // The lock given back is one that no channel owns.
    method UnlockAllocatedSound(snd: Sound, ghost k: nat)
      requires Cached() && k < |lru| && lru[k].snd == snd && snd in held
      modifies this`lru, this`held, snd`useCount
      ensures Cached() && held == old(held) - multiset{snd}
      ensures lru == old(lru)[k := old(lru[k]).(uses := old(lru[k]).uses - 1)]
    {
      hide Counted, IndexOf, Distinct, Recent;
      CountedUnlock(lru, k, channels[..], held);
      assert Node(lru, k);
      if snd.useCount <= 0 {
        assert false;   // I_Error: released more times than it was locked
      }
      ghost var was := lru;
      UpdateKeeps(lru, k, -1, now);
      CountUse(snd, k, -1);
      held := held - multiset{snd};
    }

    method GetAllocatedSoundBySfxInfoAndPitch(sfxinfo: SfxInfo, pitch: int) returns (snd: Sound?, ghost k: int)
      requires Linked()
      ensures k == Lookup(lru, sfxinfo, pitch)
      ensures snd == if Lookup(lru, sfxinfo, pitch) < 0 then null else lru[Lookup(lru, sfxinfo, pitch)].snd
    {
      hide Distinct;
      snd, k := head, 0;
      while snd != null
        invariant 0 <= k <= |lru| && snd == (if k == |lru| then null else lru[k].snd)
        invariant forall i | 0 <= i < k :: lru[i].snd.sfxinfo != sfxinfo || lru[i].pitch != pitch
        decreases |lru| - k
      {
        assert Node(lru, k);
        if snd.sfxinfo == sfxinfo && snd.pitch == pitch {
          return;
        }
        snd, k := snd.next, k + 1;
      }
      k := -1;
    }

    // Gives a lock back; a pitch-shifted sound goes with the last one.
    method LetGo(snd: Sound, ghost k: nat)
      requires Valid() && k < |lru| && lru[k].snd == snd && snd in held
      modifies this`head, this`tail, this`lru, this`size, this`held, sounds
      ensures Valid() && held == old(held) - multiset{snd}
      ensures lru == Released(old(lru), snd)
    {
      hide Counted, Recent, SumLen, Distinct, IndexOf;
      DistinctIndex(lru, k);
      ghost var was := lru;
      UnlockAllocatedSound(snd, k);
      assert Node(lru, k);
      if snd.pitch != NORM_PITCH && snd.useCount <= 0 {
        CountedWithout(lru, k, channels[..], held);
        ghost var unlocked := lru;
        FreeAllocatedSound(snd, k);
        assert Without(unlocked, k) == Without(was, k);
      }
    }

    method ReleaseSoundOnChannel(channel: nat)
      requires Valid() && channel < NUM_CHANNELS
      modifies this`head, this`tail, this`lru, this`size, this`held, channels, sounds
      ensures Valid() && held == old(held)
      ensures channels[..] == old(channels[..])[channel := null]
      ensures lru == Released(old(lru), old(channels[channel]))
    {
      hide Counted, Distinct, Recent, IndexOf, SumLen;
      var snd := channels[channel];
      if snd == null {
        assert channels[..] == channels[..][channel := null];
        return;
      }
      CountedPlaying(lru, channels[..], held, channel);
      CountedHalt(lru, channels[..], held, channel);
      channels[channel] := null;
      held := held + multiset{snd};
      LetGo(snd, IndexOf(lru, snd));
    }

    method SetPitch(snd: Sound, pitch: int)
      requires Linked() && |lru| > 0 && lru[0].snd == snd
      modifies this`lru, snd`pitch
      ensures Linked() && lru == old(lru)[0 := old(lru[0]).(pitch := pitch)]
    {
      ghost var was := lru;
      assert Node(was, 0);
      snd.pitch := pitch;
      lru := lru[0 := lru[0].(pitch := pitch)];
      forall i | 0 <= i < |lru| ensures Node(lru, i) {
        assert old(Node(was, i));
      }
    }

    // A copy of a locked sound at another pitch, of about `shifted` bytes.  The original is
    // still there to copy from after room has been made for the copy.
    method PitchShift(insnd: Sound, pitch: int, shifted: nat) returns (outsnd: Sound?)
      requires Valid() && insnd in held
      modifies this`head, this`tail, this`lru, this`size, this`sounds, this`now, sounds
      ensures Cached() && fresh(sounds - old(sounds)) && IndexOf(lru, insnd) >= 0
      ensures forall e | e in old(lru) && e.uses != 0 :: e in (if outsnd == null then lru else lru[1..])
      ensures outsnd == null ==> ShiftedInUse(lru) && LastUnlocked(lru) < 0
      ensures outsnd != null ==>
          |lru| > 0 && fresh(outsnd) && lru[0].snd == outsnd && lru[0].pitch == pitch && lru[0].uses == 0
      ensures outsnd != null ==> outsnd.sfxinfo == insnd.sfxinfo && ShiftedInUse(lru[1..])
    {
      hide Counted, Distinct, Recent, IndexOf, Lookup, Evicted, ShiftedInUse;
      var dstlen := shifted;
      if dstlen % 2 == 0 {
        dstlen := dstlen + 1;
      }
      ghost var was := lru;
      ghost var m;
      outsnd, m := AllocateSound(insnd.sfxinfo, dstlen);
      EvictedShifted(was, old(now), m, insnd.sfxinfo, pitch);
      EvictedKeepsLocked(was, old(now), m);
      HeldIsThere(lru, channels[..], held, insnd);
      if outsnd == null {
        return;
      }
      ghost var made := lru;
      assert made[1..] == Evicted(was, m);
      CountedPitch(made, pitch, now, channels[..], held, insnd);
      SetPitch(outsnd, pitch);
      assert lru[1..] == made[1..];
    }

    // Loads a sound effect; `lump` is its lump, `expanded` its size once expanded.
    method CacheSFX(sfxinfo: SfxInfo, lump: seq<byte>, expanded: nat) returns (ok: bool, ghost m: nat)
      requires Valid()
      modifies this`head, this`tail, this`lru, this`size, this`sounds, this`now, sounds
      ensures Valid() && fresh(sounds - old(sounds))
      ensures ok ==> IsSoundLump(lump) && |lru| > 0 && fresh(lru[0].snd) && lru[0].snd.sfxinfo == sfxinfo
      ensures ok ==> lru == [Entry(lru[0].snd, NORM_PITCH, 0, old(now))] + Evicted(old(lru), m)
      ensures !ok ==>
        lru == Evicted(old(lru), m) && (if IsSoundLump(lump) then LastUnlocked(lru) < 0 else lru == old(lru))
    {
      hide Counted, Distinct, Recent, IndexOf, Lookup, Evicted;
      if !IsSoundLump(lump) {
        assert lru == Evicted(lru, 0) by { EvictedNone(lru); }
        return false, 0;
      }
      ghost var was := lru;
      var snd;
      snd, m := AllocateSound(sfxinfo, expanded);
      EvictedShifted(was, old(now), m, sfxinfo, NORM_PITCH);
      assert snd != null ==> lru[1..] == Evicted(was, m);
      ok := snd != null;
    }

    // Makes sure that a sound is loaded, and locks it.
    method LockSound(sfxinfo: SfxInfo, lump: seq<byte>, expanded: nat) returns (ok: bool)
      requires Valid()
      modifies this`head, this`tail, this`lru, this`size, this`sounds, this`now, this`held, sounds
      ensures Valid() && fresh(sounds - old(sounds))
      ensures !ok ==> held == old(held)
      ensures ok ==> |lru| > 0 && lru[0].snd.sfxinfo == sfxinfo && lru[0].pitch == NORM_PITCH
      ensures ok ==> held == old(held) + multiset{lru[0].snd}
      ensures Lookup(old(lru), sfxinfo, NORM_PITCH) >= 0 ==> ok
      ensures forall pitch :: CachedAt(lru, sfxinfo, pitch) <==> CachedAt(old(lru), sfxinfo, pitch)
    {
      hide Counted, Distinct, Recent, IndexOf, Lookup, Evicted;
      var snd, k := GetAllocatedSoundBySfxInfoAndPitch(sfxinfo, NORM_PITCH);
      if snd == null {
        ghost var m;
        ghost var was := lru;
        ok, m := CacheSFX(sfxinfo, lump, expanded);
        CacheKeepsShifted(was, old(now), m, lru, sfxinfo, ok);
        if !ok {
          return;
        }
      }
      snd, k := GetAllocatedSoundBySfxInfoAndPitch(sfxinfo, NORM_PITCH);
      LockKeepsShifted(lru, k, now, sfxinfo);
      LockAllocatedSound(snd, k);
      ok := true;
    }

    // A sound in the cache at the right pitch: the one asked for if it was `cached` at that, the
    // normal one if it is not to be shifted, and else the one asked for unless memory ran out,
    // although nothing was left that could be freed.
    ghost predicate RightPitch(snd: Sound, pitch: int, pitchShift: bool, cached: bool)
      reads this`lru
    {
      var k := IndexOf(lru, snd);
      k >= 0 &&
      if cached then lru[k].pitch == pitch
      else if !pitchShift then lru[k].pitch == NORM_PITCH
      else lru[k].pitch == pitch || (lru[k].pitch == NORM_PITCH && LastUnlocked(lru) < 0)
    }

    // Cached at a pitch, once the unshifted sound is.
    ghost predicate CachedAt(l: Lru, sfxinfo: SfxInfo, pitch: int) {
      pitch == NORM_PITCH || Lookup(l, sfxinfo, pitch) >= 0
    }

    // Locks the sound that was found, whatever its pitch.
    method LockAt(snd: Sound, ghost k: nat)
      requires Valid() && k < |lru| && lru[k].snd == snd
      modifies this`head, this`tail, this`lru, this`sounds, this`now, this`held, sounds
      ensures Valid() && sounds == old(sounds) && held == old(held) + multiset{snd}
      ensures |lru| > 0 && lru[0].snd == snd && lru[0].pitch == old(lru[k].pitch)
    {
      hide Counted, Distinct, Recent, IndexOf;
      CountedNonNegative(lru, k, channels[..], held);
      LockedShifted(lru, k, now);
      LockAllocatedSound(snd, k);
    }

    // Replaces the locked sound `snd` by a locked copy at another pitch, if memory allows.
    method ShiftAndSwap(snd: Sound, pitch: int, shifted: nat) returns (r: Sound)
      requires Valid() && snd in held && pitch != NORM_PITCH
      requires |lru| > 0 && lru[0].snd == snd && lru[0].pitch == NORM_PITCH
      modifies this`head, this`tail, this`lru, this`size, this`sounds, this`now, this`held, sounds
      ensures Valid() && fresh(sounds - old(sounds)) && r.sfxinfo == snd.sfxinfo
      ensures held == old(held) - multiset{snd} + multiset{r}
      ensures RightPitch(r, pitch, true, false)
    {
      hide Counted, Distinct, Recent, IndexOf, ShiftedInUse;
      CountedNonNegative(lru, 0, channels[..], held);
      ghost var e := lru[0];
      var newsnd := PitchShift(snd, pitch, shifted);
      if newsnd != null {
        SwapLocks(snd, newsnd, e);
        return newsnd;
      }
      EntryIndex(lru, e);
      return snd;
    }

    method Play(channel: nat, snd: Sound)
      requires Valid() && channel < NUM_CHANNELS && channels[channel] == null && snd in held
      modifies this`held, channels
      ensures Valid() && held == old(held) - multiset{snd} && channels[..] == old(channels[..])[channel := snd]
    {
      hide Counted, Distinct, Recent;
      CountedPlay(lru, channels[..], held, channel, snd);
      channels[channel] := snd;
      held := held - multiset{snd};
    }

    // The lock goes from a sound to its copy, which has just been made.
    method SwapLocks(snd: Sound, newsnd: Sound, ghost e: Entry)
      requires Cached() && snd in held && |lru| > 0 && lru[0].snd == newsnd && lru[0].uses == 0
      requires ShiftedInUse(lru[1..]) && e in lru[1..] && e.snd == snd && e.pitch == NORM_PITCH
      modifies this`head, this`tail, this`lru, this`sounds, this`now, this`held, sounds
      ensures Valid() && sounds == old(sounds) && held == old(held) - multiset{snd} + multiset{newsnd}
      ensures IndexOf(lru, newsnd) == 0 && lru[0].pitch == old(lru[0].pitch)
    {
      hide Counted, Distinct, Recent, IndexOf, ShiftedInUse;
      Swapped(lru, now, e);
      LockAllocatedSound(newsnd, 0);
      UnlockAllocatedSound(snd, IndexOf(lru, snd));
    }

    // The sound to play once the unshifted one, at the head, is locked.
    method Choose(sfxinfo: SfxInfo, pitch: int, pitchShift: bool, shifted: nat)
        returns (snd: Sound, ghost leaked: Sound?)
      requires Valid() && |lru| > 0 && lru[0].snd.sfxinfo == sfxinfo && lru[0].pitch == NORM_PITCH && lru[0].snd in held
      modifies this`head, this`tail, this`lru, this`size, this`sounds, this`now, this`held, sounds
      ensures Valid() && fresh(sounds - old(sounds)) && snd.sfxinfo == sfxinfo
      ensures RightPitch(snd, pitch, pitchShift, CachedAt(old(lru), sfxinfo, pitch))
      ensures leaked == if CachedAt(old(lru), sfxinfo, pitch) then old(lru[0]).snd else null
      ensures leaked != null ==> held == old(held) + multiset{snd}
      ensures leaked == null ==> held == old(held) - multiset{old(lru[0]).snd} + multiset{snd}
      ensures pitch == NORM_PITCH ==> snd == old(lru[0]).snd
    {
      hide Counted, Distinct, Recent, IndexOf, Lookup, ShiftedInUse;
      LookupHead(lru, sfxinfo);
      leaked := null;
      var found, k := GetAllocatedSoundBySfxInfoAndPitch(sfxinfo, pitch);
      if found == null {
        // Found again, so the check for null that follows in the source never fires.
        var base, zero := GetAllocatedSoundBySfxInfoAndPitch(sfxinfo, NORM_PITCH);
        snd := base;
        FirstIndex(lru);
        if pitchShift {
          snd := ShiftAndSwap(snd, pitch, shifted);
        }
      } else {
        leaked := lru[0].snd;
        snd := found;
        LockAt(snd, k);
        FirstIndex(lru);
      }
    }

    // The part of I_SDL_StartSound after the channel was released.
    method StartReleased(sfxinfo: SfxInfo, channel: nat, pitch: int, pitchShift: bool,
                         lump: seq<byte>, expanded: nat, shifted: nat)
      returns (ok: bool, ghost leaked: Sound?)
      requires Valid() && channel < NUM_CHANNELS && channels[channel] == null
      modifies this`head, this`tail, this`lru, this`size, this`sounds, this`now, this`held, channels, sounds
      ensures Valid() && fresh(sounds - old(sounds))
      ensures channels[..] == old(channels[..])[channel := channels[channel]] && (ok <==> channels[channel] != null)
      ensures !ok ==> held == old(held) && leaked == null
      ensures ok ==>
        && channels[channel].sfxinfo == sfxinfo
        && RightPitch(channels[channel], pitch, pitchShift, CachedAt(old(lru), sfxinfo, pitch))
        && (leaked != null <==> CachedAt(old(lru), sfxinfo, pitch))
      ensures Lookup(old(lru), sfxinfo, NORM_PITCH) >= 0 ==> ok
      ensures leaked != null ==> held == old(held) + multiset{leaked} && leaked.sfxinfo == sfxinfo
      ensures leaked != null && pitch == NORM_PITCH ==> leaked == channels[channel]
      ensures leaked == null ==> held == old(held)
    {
      hide Counted, Distinct, Recent, IndexOf, Lookup, ShiftedInUse, Cache.Cached, Cache.RightPitch, Cache.CachedAt;
      assert channels[..] == channels[..][channel := null];
      ok := LockSound(sfxinfo, lump, expanded);
      if !ok {
        return false, null;
      }
      var snd;
      snd, leaked := Choose(sfxinfo, pitch, pitchShift, shifted);
      Play(channel, snd);
      return true, leaked;
    }

    // I_SDL_StartSound.  `leaked` is the sound that keeps a lock which no channel owns: the
    // unshifted one, whenever the sound was wanted at a pitch at which it was already cached
    // once it had been locked.
    method StartSound(sfxinfo: SfxInfo, channel: int, pitch: int, pitchShift: bool,
                      lump: seq<byte>, expanded: nat, shifted: nat)
      returns (r: int, ghost leaked: Sound?)
      requires Valid()
      modifies this`head, this`tail, this`lru, this`size, this`sounds, this`now, this`held, channels, sounds
      ensures Valid() && fresh(sounds - old(sounds))
      ensures r == -1 || (r == channel && 0 <= channel < NUM_CHANNELS)
      ensures !(0 <= channel < NUM_CHANNELS) ==> r == -1 && lru == old(lru) && channels[..] == old(channels[..])
      ensures 0 <= channel < NUM_CHANNELS ==> channels[..] == old(channels[..])[channel := channels[channel]]
      ensures 0 <= channel < NUM_CHANNELS ==> (r >= 0 <==> channels[channel] != null)
      ensures r >= 0 ==>
        var cached := CachedAt(Released(old(lru), old(channels[channel])), sfxinfo, pitch);
        && channels[channel].sfxinfo == sfxinfo && RightPitch(channels[channel], pitch, pitchShift, cached)
        && (leaked != null <==> cached)
      ensures 0 <= channel < NUM_CHANNELS ==> var lru0 := Released(old(lru), old(channels[channel]));
                                              Lookup(lru0, sfxinfo, NORM_PITCH) >= 0 ==> r >= 0
      ensures leaked != null ==> r >= 0 && held == old(held) + multiset{leaked} && leaked.sfxinfo == sfxinfo
      ensures leaked != null && pitch == NORM_PITCH ==> leaked == channels[channel]
      ensures leaked == null ==> held == old(held)
    {
      hide Counted, Distinct, Recent, IndexOf, Lookup, Released, ShiftedInUse, Cache.Cached, Cache.RightPitch;
      if !(0 <= channel < NUM_CHANNELS) {
        return -1, null;
      }
      ReleaseSoundOnChannel(channel);
      var ok;
      ok, leaked := StartReleased(sfxinfo, channel, pitch, pitchShift, lump, expanded, shifted);
      return if ok then channel else -1, leaked;
    }

    // I_SDL_StopSound
    method StopSound(handle: int)
      requires Valid()
      modifies this`head, this`tail, this`lru, this`size, this`held, channels, sounds
      ensures Valid() && held == old(held)
      ensures channels[..] == if 0 <= handle < NUM_CHANNELS then old(channels[..])[handle := null]
          else old(channels[..])
    {
      if !(0 <= handle < NUM_CHANNELS) {
        return;
      }
      ReleaseSoundOnChannel(handle);
    }

    // I_SDL_UpdateSound: lets go of the sounds that have finished; `playing` is what the mixer says.
    method UpdateSound(playing: seq<bool>)
      requires Valid() && |playing| == NUM_CHANNELS
      modifies this`head, this`tail, this`lru, this`size, this`held, channels, sounds
      ensures Valid() && held == old(held)
      ensures forall i | 0 <= i < NUM_CHANNELS :: channels[i] == if playing[i] then old(channels[i]) else null
    {
      hide Counted, Distinct, Recent, Released, ShiftedInUse;
      ghost var was := channels[..];
      var i := 0;
      while i < NUM_CHANNELS
        invariant 0 <= i <= NUM_CHANNELS && Valid() && held == old(held)
        invariant forall j | 0 <= j < i :: channels[j] == if playing[j] then was[j] else null
        invariant forall j | i <= j < NUM_CHANNELS :: channels[j] == was[j]
      {
        if channels[i] != null && !playing[i] {
          ghost var before := channels[..];
          ReleaseSoundOnChannel(i);
          assert forall j | 0 <= j < NUM_CHANNELS :: channels[j] == before[i := null][j];
        }
        i := i + 1;
      }
    }

    // The last of the first n sounds that can be loaded, or -1.
    function LastGood(lumps: seq<seq<byte>>, found: seq<bool>, n: nat): (k: int)
      requires n <= |lumps| == |found|
      ensures -1 <= k < n
    {
      if n == 0 then -1
      else if found[n - 1] && IsSoundLump(lumps[n - 1]) then n - 1
      else LastGood(lumps, found, n - 1)
    }

    // The effect is at the head of the list, or nothing was left that could be freed for it.
    ghost predicate LoadedLast(sfxinfo: SfxInfo)
      reads this`lru
    {
      || (lru != [] && lru[0].snd.sfxinfo == sfxinfo && lru[0].pitch == NORM_PITCH)
      || LastUnlocked(lru) < 0
    }

    // I_SDL_PrecacheSounds; a sound without a lump is passed over.
    method PrecacheSounds(names: seq<SfxInfo>, lumps: seq<seq<byte>>, found: seq<bool>, expanded: seq<nat>)
      requires Valid() && |names| == |lumps| == |found| == |expanded|
      modifies this`head, this`tail, this`lru, this`size, this`sounds, this`now, sounds
      ensures Valid() && fresh(sounds - old(sounds))
      ensures forall e | e in old(lru) && e.uses != 0 :: e in lru
      ensures var last := LastGood(lumps, found, |names|); last >= 0 ==> LoadedLast(names[last])
    {
      hide Counted, Distinct, Recent, Evicted, ShiftedInUse, LastUnlocked, IsSoundLump;
      var i := 0;
      while i < |names|
        invariant 0 <= i <= |names| && Valid() && fresh(sounds - old(sounds))
        invariant forall e | e in old(lru) && e.uses != 0 :: e in lru
        invariant LastGood(lumps, found, i) >= 0 ==> LoadedLast(names[LastGood(lumps, found, i)])
      {
        if found[i] {
          ghost var was, before := lru, now;
          var ok, m := CacheSFX(names[i], lumps[i], expanded[i]);
          EvictedKeepsLocked(was, before, m);
          assert lru == Evicted(was, m) || lru[1..] == Evicted(was, m);
        }
        i := i + 1;
      }
    }
  }
}
